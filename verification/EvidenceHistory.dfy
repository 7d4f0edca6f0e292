/** Everything that can happen to the tables over the indexer's life: chunks committed by the runs of any scopes in
    any interleaving (a crash, abort or provider switch is a run that stops committing), coverage reuse, and the block
    rows that snapshot captures add. */
module EvidenceHistory {
  import opened Wrappers
  import opened Planner
  import opened EvidenceStore

  // What honest evidence means.

  /** The row carries the log's position and what the log decodes to. */
  predicate Describes(world: World, row: EventRow, log: Log) {
    && row.blockNumber == log.blockNumber && row.transactionHash == log.transactionHash
    && row.logIndex == log.logIndex && world.decode(log) == Some(row.decoded)
  }

  /** Under the key there is an event exactly when the log decodes, and it describes the log. */
  predicate HasItsEvent(world: World, events: map<LogKey, EventRow>, k: LogKey, log: Log) {
    && (k in events <==> world.decode(log).Some?)
    && (k in events ==> Describes(world, events[k], log))
  }

  ghost predicate BlocksAgree(world: World, t: Tables) {
    forall n :: n in t.blocks ==> t.blocks[n] == world.blockAt(n)
  }

  ghost predicate LogsGenuine(world: World, t: Tables) {
    forall k :: k in t.rawLogs ==> Genuine(world, t.rawLogs[k], k) && t.rawLogs[k].blockNumber in t.blocks
  }

  /** A log of the chain, under its own transaction hash and log index. */
  ghost predicate Genuine(world: World, log: Log, k: LogKey) {
    log in world.logsAt(log.blockNumber) && k == LogKey(log.transactionHash, log.logIndex)
  }

  ghost predicate EventsMatch(world: World, t: Tables) {
    && (forall k :: k in t.events ==> k in t.rawLogs)
    && (forall k :: k in t.rawLogs ==> HasItsEvent(world, t.events, k, t.rawLogs[k]))
  }

  ghost predicate Wanted(world: World, scope: Scope, log: Log) {
    log in world.logsAt(log.blockNumber) && log.address in world.addressesOf(scope)
  }

  ghost predicate CoverageHonoured(world: World, t: Tables) {
    forall scope, l :: Wanted(world, scope, l) && CoveredBy(CoverageOf(t, scope), l.blockNumber) ==>
      KeyOf(l) in t.rawLogs
  }

  ghost predicate AnchorsAgree(world: World, t: Tables) {
    forall s :: s in t.checkpoints && t.checkpoints[s].lastCompleted.Some? ==>
      var anchor := t.checkpoints[s].lastCompleted.value;
      anchor.hash == world.blockAt(anchor.number).hash && anchor.number in t.blocks
  }

  ghost predicate Evidence(world: World, t: Tables) {
    && BlocksAgree(world, t) && LogsGenuine(world, t) && EventsMatch(world, t)
    && CoverageHonoured(world, t) && AnchorsAgree(world, t)
  }

  // One committed chunk keeps it.

  lemma {:induction false} ByNumberMembers(blocks: seq<Block>)
    ensures forall n :: n in ByNumber(blocks) ==> ByNumber(blocks)[n] in blocks && ByNumber(blocks)[n].number == n
    ensures forall b :: b in blocks ==> b.number in ByNumber(blocks)
  {
    if blocks != [] {
      ByNumberMembers(blocks[..|blocks| - 1]);
      assert blocks == blocks[..|blocks| - 1] + [blocks[|blocks| - 1]];
    }
  }

  lemma {:induction false} InsertLogsMembers(rawLogs: map<LogKey, Log>, logs: seq<Log>)
    ensures var r := InsertLogs(rawLogs, logs);
            && (forall k :: k in rawLogs ==> k in r && r[k] == rawLogs[k])
            && (forall k :: k in r && k !in rawLogs ==> r[k] in logs && KeyOf(r[k]) == k)
            && (forall l :: l in logs ==> KeyOf(l) in r)
  {
    if logs != [] {
      InsertLogsMembers(rawLogs, logs[..|logs| - 1]);
      assert logs == logs[..|logs| - 1] + [logs[|logs| - 1]];
    }
  }

  /** The event a list of logs leaves under one key, when all its logs with that key agree. */
  lemma {:induction false} InsertEventsAt(
    events: map<LogKey, EventRow>, inserted: set<LogKey>, decode: Log -> Option<Decoded>, logs: seq<Log>, k: LogKey,
    log: Log)
    requires forall l :: l in logs && KeyOf(l) == k ==> l == log
    ensures var r := InsertEvents(events, inserted, decode, logs);
            if k in events then k in r && r[k] == events[k]
            else if k in inserted && log in logs && KeyOf(log) == k && decode(log).Some?
            then k in r && r[k] == RowFor(log, decode(log).value)
            else k !in r
  {
    if logs != [] {
      var init, last := logs[..|logs| - 1], logs[|logs| - 1];
      assert logs == init + [last];
      InsertEventsAt(events, inserted, decode, init, k, log);
    }
  }

  lemma CommitKeepsBlocks(world: World, t: Tables, scope: Scope, c: Chunk)
    requires ValidWorld(world) && BlocksAgree(world, t) && ExactChunk(world, scope, c)
    ensures BlocksAgree(world, CommitChunk(t, world.decode, scope, c))
    ensures !HashDrift(t.blocks, ByNumber(IncomingBlocks(c)))
    ensures forall l :: l in c.logs ==> l.blockNumber in CommitChunk(t, world.decode, scope, c).blocks
  {
    var incoming := IncomingBlocks(c);
    ByNumberMembers(incoming);
    forall b | b in incoming ensures b == world.blockAt(b.number) {
      if b !in c.blocks {
        assert b == c.anchor.value;
      }
    }
    forall l | l in c.logs ensures l.blockNumber in ByNumber(incoming) {
      assert world.blockAt(l.blockNumber) in c.blocks;
      assert world.blockAt(l.blockNumber) in incoming;
    }
  }

  lemma CommitKeepsLogs(world: World, t: Tables, scope: Scope, c: Chunk)
    requires ValidWorld(world) && BlocksAgree(world, t) && LogsGenuine(world, t) && ExactChunk(world, scope, c)
    ensures LogsGenuine(world, CommitChunk(t, world.decode, scope, c))
  {
    var after := CommitChunk(t, world.decode, scope, c);
    CommitKeepsBlocks(world, t, scope, c);
    InsertLogsMembers(t.rawLogs, c.logs);
    forall k | k in after.rawLogs
      ensures Genuine(world, after.rawLogs[k], k) && after.rawLogs[k].blockNumber in after.blocks
    {
      if k in t.rawLogs {
        assert after.rawLogs[k] == t.rawLogs[k];
      } else {
        assert after.rawLogs[k] in c.logs;
      }
    }
  }

  lemma OneLogPerKey(world: World, scope: Scope, c: Chunk, log: Log)
    requires ValidWorld(world) && ExactChunk(world, scope, c) && log in c.logs
    ensures forall l :: l in c.logs && KeyOf(l) == KeyOf(log) ==> l == log
  {
    forall l | l in c.logs && KeyOf(l) == KeyOf(log) ensures l == log {
      assert SamePlace(l, log);
    }
  }

  /** What the transaction leaves under one key that the table held, or under one it inserted. */
  lemma EventAfterCommit(world: World, t: Tables, scope: Scope, c: Chunk, k: LogKey)
    requires ValidWorld(world) && EventsMatch(world, t) && ExactChunk(world, scope, c)
    ensures var after := CommitChunk(t, world.decode, scope, c);
            && (k in after.events ==> k in after.rawLogs)
            && (k in after.rawLogs ==> HasItsEvent(world, after.events, k, after.rawLogs[k]))
  {
    var after := CommitChunk(t, world.decode, scope, c);
    InsertLogsMembers(t.rawLogs, c.logs);
    var inserted := after.rawLogs.Keys - t.rawLogs.Keys;
    if k in inserted {
      var log := after.rawLogs[k];
      OneLogPerKey(world, scope, c, log);
      InsertEventsAt(t.events, inserted, world.decode, c.logs, k, log);
    } else {
      NotInsertedNoEvent(t.events, inserted, world.decode, c.logs, k);
    }
  }

  lemma CommitKeepsEvents(world: World, t: Tables, scope: Scope, c: Chunk)
    requires ValidWorld(world) && EventsMatch(world, t) && ExactChunk(world, scope, c)
    ensures EventsMatch(world, CommitChunk(t, world.decode, scope, c))
  {
    var after := CommitChunk(t, world.decode, scope, c);
    forall k ensures k in after.events ==> k in after.rawLogs
             ensures k in after.rawLogs ==> HasItsEvent(world, after.events, k, after.rawLogs[k]) {
      EventAfterCommit(world, t, scope, c, k);
    }
  }

  lemma {:induction false} NotInsertedNoEvent(
    events: map<LogKey, EventRow>, inserted: set<LogKey>, decode: Log -> Option<Decoded>, logs: seq<Log>, k: LogKey)
    requires k !in inserted
    ensures k in InsertEvents(events, inserted, decode, logs) <==> k in events
    ensures k in events ==> InsertEvents(events, inserted, decode, logs)[k] == events[k]
  {
    if logs != [] {
      NotInsertedNoEvent(events, inserted, decode, logs[..|logs| - 1], k);
    }
  }

  lemma CommitKeepsCoverage(world: World, t: Tables, scope: Scope, c: Chunk)
    requires ValidWorld(world) && CoverageHonoured(world, t) && ExactChunk(world, scope, c)
    ensures CoverageHonoured(world, CommitChunk(t, world.decode, scope, c))
  {
    var after := CommitChunk(t, world.decode, scope, c);
    InsertLogsMembers(t.rawLogs, c.logs);
    forall s, l | Wanted(world, s, l) && CoveredBy(CoverageOf(after, s), l.blockNumber)
      ensures KeyOf(l) in after.rawLogs
    {
      var r :| r in CoverageOf(after, s) && Contains(r, l.blockNumber);
      if r in CoverageOf(t, s) {
        assert CoveredBy(CoverageOf(t, s), l.blockNumber);
      } else {
        assert s == scope && r == c.range;
        assert OnChain(world, scope, c.range, l);
      }
    }
  }

  lemma CommitKeepsAnchors(world: World, t: Tables, scope: Scope, c: Chunk)
    requires ValidWorld(world) && AnchorsAgree(world, t) && ExactChunk(world, scope, c)
    ensures AnchorsAgree(world, CommitChunk(t, world.decode, scope, c))
  {
    ByNumberMembers(IncomingBlocks(c));
    if c.anchor.Some? {
      assert c.anchor.value in IncomingBlocks(c);
    }
  }

  lemma CommitKeepsEvidence(world: World, t: Tables, scope: Scope, c: Chunk)
    requires ValidWorld(world) && Evidence(world, t) && ExactChunk(world, scope, c)
    ensures Evidence(world, CommitChunk(t, world.decode, scope, c))
    ensures !HashDrift(t.blocks, ByNumber(IncomingBlocks(c)))
  {
    CommitKeepsBlocks(world, t, scope, c);
    CommitKeepsLogs(world, t, scope, c);
    CommitKeepsEvents(world, t, scope, c);
    CommitKeepsCoverage(world, t, scope, c);
    CommitKeepsAnchors(world, t, scope, c);
  }

  // What one transaction adds.

  /** No later block of the list has the same number. */
  predicate LastOfItsNumber(blocks: seq<Block>, i: nat)
    requires i < |blocks|
  {
    forall j :: i < j < |blocks| ==> blocks[j].number != blocks[i].number
  }

  lemma {:induction false} LastBlockStays(blocks: seq<Block>, i: nat)
    requires i < |blocks| && LastOfItsNumber(blocks, i)
    ensures blocks[i].number in ByNumber(blocks) && ByNumber(blocks)[blocks[i].number] == blocks[i]
  {
    if i < |blocks| - 1 {
      var init := blocks[..|blocks| - 1];
      assert LastOfItsNumber(init, i);
      LastBlockStays(init, i);
    }
  }

  lemma {:induction false} SomeBlockIsLast(blocks: seq<Block>, n: nat) returns (i: nat)
    requires n in ByNumber(blocks)
    ensures i < |blocks| && blocks[i].number == n && LastOfItsNumber(blocks, i)
  {
    i := |blocks| - 1;
    if blocks[i].number != n {
      i := SomeBlockIsLast(blocks[..|blocks| - 1], n);
    }
  }

  /** The insert of block rows is refused exactly when the last row given for some number meets a stored row of that
      number with another hash. */
  lemma DriftExactlyWhen(stored: map<nat, Block>, incoming: seq<Block>)
    ensures HashDrift(stored, ByNumber(incoming)) <==>
            exists i :: 0 <= i < |incoming| && LastOfItsNumber(incoming, i) && incoming[i].number in stored
                        && stored[incoming[i].number].hash != incoming[i].hash
  {
    if n :| n in stored && n in ByNumber(incoming) && stored[n].hash != ByNumber(incoming)[n].hash {
      var i := SomeBlockIsLast(incoming, n);
      LastBlockStays(incoming, i);
    }
    if i :| 0 <= i < |incoming| && LastOfItsNumber(incoming, i) && incoming[i].number in stored
            && stored[incoming[i].number].hash != incoming[i].hash {
      LastBlockStays(incoming, i);
      var n := incoming[i].number;
      assert n in stored && n in ByNumber(incoming);
    }
  }

  lemma {:induction false} FirstLogStays(rawLogs: map<LogKey, Log>, logs: seq<Log>, i: nat)
    requires i < |logs| && LogKey(logs[i].transactionHash, logs[i].logIndex) !in rawLogs
    requires forall j :: 0 <= j < i ==> !SamePlace(logs[j], logs[i])
    ensures var k := LogKey(logs[i].transactionHash, logs[i].logIndex);
            k in InsertLogs(rawLogs, logs) && InsertLogs(rawLogs, logs)[k] == logs[i]
  {
    if i < |logs| - 1 {
      FirstLogStays(rawLogs, logs[..|logs| - 1], i);
    } else {
      InsertLogsMembers(rawLogs, logs[..i]);
      forall j | 0 <= j < i ensures KeyOf(logs[..i][j]) != KeyOf(logs[i]) {
        assert !SamePlace(logs[j], logs[i]);
      }
    }
  }

  lemma {:induction false} EventsOnlyAdd(events: map<LogKey, EventRow>, inserted: set<LogKey>,
                                         decode: Log -> Option<Decoded>, logs: seq<Log>)
    ensures forall k :: k in events ==> k in InsertEvents(events, inserted, decode, logs)
                                        && InsertEvents(events, inserted, decode, logs)[k] == events[k]
  {
    if logs != [] {
      EventsOnlyAdd(events, inserted, decode, logs[..|logs| - 1]);
    }
  }

  /** No earlier log of the list stands in the same place. */
  predicate FirstAtItsPlace(logs: seq<Log>, i: nat)
    requires i < |logs|
  {
    forall j :: 0 <= j < i ==> !SamePlace(logs[j], logs[i])
  }

  /** A committed chunk changes no stored block row and adds the last row given for each new number. */
  lemma CommitAddsBlocks(t: Tables, decode: Log -> Option<Decoded>, scope: Scope, c: Chunk)
    ensures var after, incoming := CommitChunk(t, decode, scope, c).blocks, IncomingBlocks(c);
            && (forall n :: n in t.blocks ==> n in after && after[n] == t.blocks[n])
            && (forall n :: n in after && n !in t.blocks ==> after[n] in incoming && after[n].number == n)
            && (forall i :: 0 <= i < |incoming| && LastOfItsNumber(incoming, i) && incoming[i].number !in t.blocks ==>
                  incoming[i].number in after && after[incoming[i].number] == incoming[i])
  {
    var incoming := IncomingBlocks(c);
    ByNumberMembers(incoming);
    forall i | 0 <= i < |incoming| && LastOfItsNumber(incoming, i)
      ensures incoming[i].number in ByNumber(incoming) && ByNumber(incoming)[incoming[i].number] == incoming[i]
    {
      LastBlockStays(incoming, i);
    }
  }

  /** It changes no stored log or event, and adds the first log given for each new place. */
  lemma CommitAddsLogs(t: Tables, decode: Log -> Option<Decoded>, scope: Scope, c: Chunk)
    ensures var after := CommitChunk(t, decode, scope, c);
            && (forall k :: k in t.rawLogs ==> k in after.rawLogs && after.rawLogs[k] == t.rawLogs[k])
            && (forall k :: k in t.events ==> k in after.events && after.events[k] == t.events[k])
            && (forall k :: k in after.rawLogs && k !in t.rawLogs ==> after.rawLogs[k] in c.logs)
    ensures forall i :: 0 <= i < |c.logs| && FirstAtItsPlace(c.logs, i) ==>
              var k, after := LogKey(c.logs[i].transactionHash, c.logs[i].logIndex), CommitChunk(t, decode, scope, c);
              k !in t.rawLogs ==> k in after.rawLogs && after.rawLogs[k] == c.logs[i]
  {
    InsertLogsMembers(t.rawLogs, c.logs);
    EventsOnlyAdd(t.events, InsertLogs(t.rawLogs, c.logs).Keys - t.rawLogs.Keys, decode, c.logs);
    forall i | 0 <= i < |c.logs| && FirstAtItsPlace(c.logs, i)
               && LogKey(c.logs[i].transactionHash, c.logs[i].logIndex) !in t.rawLogs
      ensures var k := LogKey(c.logs[i].transactionHash, c.logs[i].logIndex);
              k in InsertLogs(t.rawLogs, c.logs) && InsertLogs(t.rawLogs, c.logs)[k] == c.logs[i]
    {
      FirstLogStays(t.rawLogs, c.logs, i);
    }
  }

  /** It touches the coverage and the checkpoint of its own scope alone: one more row, and the block after its end. */
  lemma CommitTouchesOneScope(t: Tables, decode: Log -> Option<Decoded>, scope: Scope, c: Chunk)
    ensures var after := CommitChunk(t, decode, scope, c);
            && CoverageOf(after, scope) == CoverageOf(t, scope) + {c.range}
            && after.checkpoints.Keys == t.checkpoints.Keys + {scope}
            && after.checkpoints[scope].nextBlock == c.range.toBlock + 1
            && forall s :: s != scope ==>
                 && CoverageOf(after, s) == CoverageOf(t, s)
                 && (s in t.checkpoints ==> after.checkpoints[s] == t.checkpoints[s])
  {
  }

  // Histories.

  datatype Step =
    | Commit(scope: Scope, runFrom: int, runTo: int, chunk: Chunk)
    | Reuse(source: Scope, target: Scope, fromBlock: int, toBlock: int)
    | Capture(block: Block)

  /** Where a run starts: the stored checkpoint or the requested start, whichever is later. */
  function ResumeAt(t: Tables, scope: Scope, runFrom: int): int {
    if scope in t.checkpoints && t.checkpoints[scope].nextBlock > runFrom
    then t.checkpoints[scope].nextBlock else runFrom
  }

  ghost predicate Allowed(world: World, t: Tables, step: Step) {
    match step
    case Commit(scope, runFrom, runTo, chunk) =>
      && chunk.range.fromBlock == ResumeAt(t, scope, runFrom) && chunk.range.toBlock <= runTo
      && ExactChunk(world, scope, chunk)
    case Reuse(source, target, fromBlock, toBlock) =>
      && fromBlock <= toBlock && CoverageComplete(CoverageOf(t, source), fromBlock, toBlock)
      && world.addressesOf(target) <= world.addressesOf(source)
    case Capture(block) => block == world.blockAt(block.number)
  }

  /** A snapshot's block row, unless its number is already stored. */
  function CaptureBlock(t: Tables, block: Block): Tables {
    if block.number in t.blocks then t else t.(blocks := t.blocks[block.number := block])
  }

  function ApplyStep(world: World, t: Tables, step: Step): Tables {
    match step
    case Commit(scope, _, _, chunk) => CommitChunk(t, world.decode, scope, chunk)
    case Reuse(source, target, fromBlock, toBlock) =>
      if fromBlock <= toBlock then ReuseCoverage(t, source, target, fromBlock, toBlock) else t
    case Capture(block) => CaptureBlock(t, block)
  }

  function After(world: World, t: Tables, steps: seq<Step>): Tables {
    if steps == [] then t else ApplyStep(world, After(world, t, steps[..|steps| - 1]), steps[|steps| - 1])
  }

  ghost predicate Legal(world: World, t: Tables, steps: seq<Step>) {
    forall i :: 0 <= i < |steps| ==> Allowed(world, After(world, t, steps[..i]), steps[i])
  }

  lemma LegalPrefix(world: World, t: Tables, steps: seq<Step>, i: nat)
    requires Legal(world, t, steps) && i <= |steps|
    ensures Legal(world, t, steps[..i])
  {
    forall j | 0 <= j < i ensures Allowed(world, After(world, t, steps[..i][..j]), steps[..i][j]) {
      assert steps[..i][..j] == steps[..j];
    }
  }

  ghost predicate CoveredWithin(t: Tables, scope: Scope, fromBlock: int, toBlock: int, b: int) {
    fromBlock <= b <= toBlock && CoveredBy(CoverageOf(t, scope), b)
  }

  /** Coverage reuse keeps the evidence honest if and only if every log that the target scope wants from the reused
      blocks is already stored. */
  lemma ReuseIsHonestExactlyWhen(world: World, t: Tables, source: Scope, target: Scope, fromBlock: int, toBlock: int)
    requires Evidence(world, t) && fromBlock <= toBlock
    ensures Evidence(world, ReuseCoverage(t, source, target, fromBlock, toBlock)) <==>
            forall l :: Wanted(world, target, l) && CoveredWithin(t, source, fromBlock, toBlock, l.blockNumber) ==>
              KeyOf(l) in t.rawLogs
  {
    var after := ReuseCoverage(t, source, target, fromBlock, toBlock);
    forall s, l | Wanted(world, s, l)
      ensures CoveredBy(CoverageOf(after, s), l.blockNumber) <==>
              || CoveredBy(CoverageOf(t, s), l.blockNumber)
              || (s == target && CoveredWithin(t, source, fromBlock, toBlock, l.blockNumber))
    {
      CoverageAfterReuse(t, source, target, fromBlock, toBlock, s, l.blockNumber);
    }
  }

  lemma CoverageAfterReuse(t: Tables, source: Scope, target: Scope, fromBlock: int, toBlock: int, s: Scope, b: int)
    requires fromBlock <= toBlock
    ensures CoveredBy(CoverageOf(ReuseCoverage(t, source, target, fromBlock, toBlock), s), b) <==>
            || CoveredBy(CoverageOf(t, s), b)
            || (s == target && CoveredWithin(t, source, fromBlock, toBlock, b))
  {
    if s == target && source != target {
      var clipped := ClippedRows(CoverageOf(t, source), fromBlock, toBlock);
      assert CoverageOf(ReuseCoverage(t, source, target, fromBlock, toBlock), s) == CoverageOf(t, s) + clipped;
      ClippedRowsCover(CoverageOf(t, source), fromBlock, toBlock, b);
      CoveredByUnion(CoverageOf(t, s), clipped, b);
    }
  }

  lemma CoveredByUnion(rows: set<BlockRange>, more: set<BlockRange>, b: int)
    ensures CoveredBy(rows + more, b) <==> CoveredBy(rows, b) || CoveredBy(more, b)
  {
    if CoveredBy(rows, b) {
      var r :| r in rows && Contains(r, b);
      assert r in rows + more;
    }
    if CoveredBy(more, b) {
      var r :| r in more && Contains(r, b);
      assert r in rows + more;
    }
  }

  /** A target whose addresses the source also scans is always such a case. */
  lemma ReuseKeepsEvidence(world: World, t: Tables, source: Scope, target: Scope, fromBlock: int, toBlock: int)
    requires Evidence(world, t) && Allowed(world, t, Reuse(source, target, fromBlock, toBlock))
    ensures Evidence(world, ReuseCoverage(t, source, target, fromBlock, toBlock))
  {
    ReuseIsHonestExactlyWhen(world, t, source, target, fromBlock, toBlock);
    forall l | Wanted(world, target, l) && CoveredWithin(t, source, fromBlock, toBlock, l.blockNumber)
      ensures KeyOf(l) in t.rawLogs
    {
      assert Wanted(world, source, l);
    }
  }

  lemma SameTablesBesideBlocks(world: World, t: Tables, after: Tables)
    requires after == t.(blocks := after.blocks) && forall n :: n in t.blocks ==> n in after.blocks
    requires EventsMatch(world, t) && CoverageHonoured(world, t) && AnchorsAgree(world, t)
    ensures EventsMatch(world, after) && CoverageHonoured(world, after) && AnchorsAgree(world, after)
  {
    forall scope, l | Wanted(world, scope, l) && CoveredBy(CoverageOf(after, scope), l.blockNumber)
      ensures KeyOf(l) in after.rawLogs
    {
      assert CoverageOf(after, scope) == CoverageOf(t, scope);
    }
  }

  /** A captured block never meets another hash under its number, and its row keeps the evidence honest. */
  lemma CaptureKeepsEvidence(world: World, t: Tables, block: Block)
    requires Evidence(world, t) && Allowed(world, t, Capture(block))
    ensures Evidence(world, CaptureBlock(t, block))
    ensures block.number in t.blocks ==> t.blocks[block.number].hash == block.hash
  {
    var after := CaptureBlock(t, block);
    assert BlocksAgree(world, after) && LogsGenuine(world, after);
    SameTablesBesideBlocks(world, t, after);
  }

  /** Safety over whole histories: every reachable state holds honest evidence. */
  lemma {:induction false} EvidenceAlwaysHolds(world: World, steps: seq<Step>)
    requires ValidWorld(world) && Legal(world, EMPTY_TABLES, steps)
    ensures Evidence(world, After(world, EMPTY_TABLES, steps))
  {
    if steps != [] {
      var n := |steps| - 1;
      LegalPrefix(world, EMPTY_TABLES, steps, n);
      EvidenceAlwaysHolds(world, steps[..n]);
      var t := After(world, EMPTY_TABLES, steps[..n]);
      match steps[n] {
        case Commit(scope, _, _, chunk) => CommitKeepsEvidence(world, t, scope, chunk);
        case Reuse(source, target, fromBlock, toBlock) =>
          ReuseKeepsEvidence(world, t, source, target, fromBlock, toBlock);
        case Capture(block) => CaptureKeepsEvidence(world, t, block);
      }
    }
  }

  // When coverage reuse is safe.

  /** If the reused window is complete in the source, its reuse at the end of this history leaves honest evidence. */
  ghost predicate ReuseStaysHonest(world: World, steps: seq<Step>, source: Scope, target: Scope, fromBlock: int,
                                   toBlock: int)
  {
    var t := After(world, EMPTY_TABLES, steps);
    fromBlock <= toBlock && CoverageComplete(CoverageOf(t, source), fromBlock, toBlock) ==>
      Evidence(world, ReuseCoverage(t, source, target, fromBlock, toBlock))
  }

  /** Whatever the chain, the history and the window, reuse leaves honest evidence. */
  ghost predicate ReuseIsSafe(addressesOf: Scope -> set<Address>, source: Scope, target: Scope) {
    forall world: World, steps, fromBlock, toBlock ::
      ValidWorld(world) && world.addressesOf == addressesOf && Legal(world, EMPTY_TABLES, steps) ==>
        ReuseStaysHonest(world, steps, source, target, fromBlock, toBlock)
  }

  /** Reuse is safe if and only if the source scope scans every address of the target scope. */
  lemma ReuseIsSafeExactlyWhen(addressesOf: Scope -> set<Address>, source: Scope, target: Scope)
    ensures ReuseIsSafe(addressesOf, source, target) <==> addressesOf(target) <= addressesOf(source)
  {
    if addressesOf(target) <= addressesOf(source) {
      forall world: World, steps, fromBlock, toBlock
        | ValidWorld(world) && world.addressesOf == addressesOf && Legal(world, EMPTY_TABLES, steps)
        ensures ReuseStaysHonest(world, steps, source, target, fromBlock, toBlock)
      {
        var t := After(world, EMPTY_TABLES, steps);
        EvidenceAlwaysHolds(world, steps);
        if fromBlock <= toBlock && CoverageComplete(CoverageOf(t, source), fromBlock, toBlock) {
          ReuseKeepsEvidence(world, t, source, target, fromBlock, toBlock);
        }
      }
    } else {
      var a :| a in addressesOf(target) && a !in addressesOf(source);
      UnscannedAddressIsMissed(addressesOf, source, target, a);
    }
  }

  /** A chain whose only log, in block zero, comes from one address. */
  function OneLogWorld(addressesOf: Scope -> set<Address>, a: Address): World {
    World((n: nat) => Block(n, "hash", "parent", 0), (n: nat) => if n == 0 then {OneLog(a)} else {},
          (l: Log) => None, addressesOf)
  }

  function OneLog(a: Address): Log { Log(0, "hash", "transaction", 0, 0, a, [], "") }

  const EMPTY_CHUNK := Chunk(Range(0, 0), [], [], None, 1)

  /** The failing input: a source that does not scan `a` commits block zero without its log, and the target reuses
      it. */
  lemma UnscannedAddressIsMissed(addressesOf: Scope -> set<Address>, source: Scope, target: Scope, a: Address)
    requires a in addressesOf(target) && a !in addressesOf(source)
    ensures var world, steps := OneLogWorld(addressesOf, a), [Commit(source, 0, 0, EMPTY_CHUNK)];
            && ValidWorld(world) && Legal(world, EMPTY_TABLES, steps)
            && !ReuseStaysHonest(world, steps, source, target, 0, 0)
  {
    var world, steps := OneLogWorld(addressesOf, a), [Commit(source, 0, 0, EMPTY_CHUNK)];
    var t := CommitChunk(EMPTY_TABLES, world.decode, source, EMPTY_CHUNK);
    assert steps[..0] == [] && After(world, EMPTY_TABLES, steps[..0]) == EMPTY_TABLES;
    assert After(world, EMPTY_TABLES, steps) == t;
    assert CoverageOf(t, source) == {Range(0, 0)} && t.rawLogs == map[];
    assert Contains(Range(0, 0), 0);
    CoverageAfterReuse(t, source, target, 0, 0, target, 0);
    assert Wanted(world, target, OneLog(a));
  }

  // Exact evidence.

  /** The stored raw logs of the scope's addresses inside a window. */
  function StoredLogs(world: World, t: Tables, scope: Scope, window: Range): set<Log> {
    set k | k in t.rawLogs && Contains(window, t.rawLogs[k].blockNumber)
            && t.rawLogs[k].address in world.addressesOf(scope) :: t.rawLogs[k]
  }

  /** The stored events of those logs. */
  function StoredEvents(world: World, t: Tables, scope: Scope, window: Range): map<LogKey, EventRow> {
    map k | k in t.rawLogs && k in t.events && t.rawLogs[k] in StoredLogs(world, t, scope, window) :: t.events[k]
  }

  lemma CoveredLogIsStored(world: World, t: Tables, scope: Scope, window: Range, l: Log)
    requires Evidence(world, t) && CoverageComplete(CoverageOf(t, scope), window.fromBlock, window.toBlock)
    requires OnChain(world, scope, window, l) && ValidWorld(world)
    ensures KeyOf(l) in t.rawLogs && t.rawLogs[KeyOf(l)] == l && l in StoredLogs(world, t, scope, window)
  {
    assert Wanted(world, scope, l) && CoveredBy(CoverageOf(t, scope), l.blockNumber);
    var k := KeyOf(l);
    assert Genuine(world, t.rawLogs[k], k) && SamePlace(t.rawLogs[k], l);
  }

  /** The stored logs are exactly the chain's, each carries its own event exactly when it decodes, and its block row is
      stored with the chain's contents. */
  ghost predicate Exact(world: World, t: Tables, scope: Scope, window: Range) {
    && (forall l :: l in StoredLogs(world, t, scope, window) <==> OnChain(world, scope, window, l))
    && (forall l :: OnChain(world, scope, window, l) ==>
          && var k := LogKey(l.transactionHash, l.logIndex);
          && k in t.rawLogs && t.rawLogs[k] == l && HasItsEvent(world, t.events, k, l)
          && l.blockNumber in t.blocks && t.blocks[l.blockNumber] == world.blockAt(l.blockNumber))
  }

  lemma CompleteTablesAreExact(world: World, t: Tables, scope: Scope, window: Range)
    requires ValidWorld(world) && Evidence(world, t)
    requires CoverageComplete(CoverageOf(t, scope), window.fromBlock, window.toBlock)
    ensures Exact(world, t, scope, window)
  {
    forall l | OnChain(world, scope, window, l)
      ensures KeyOf(l) in t.rawLogs && t.rawLogs[KeyOf(l)] == l && l in StoredLogs(world, t, scope, window)
    {
      CoveredLogIsStored(world, t, scope, window, l);
    }
  }

  /** Every stored event stands under its own transaction hash and log index, and its log is stored there too. */
  lemma EventsStandUnderTheirKeys(world: World, t: Tables, k: LogKey)
    requires Evidence(world, t) && k in t.events
    ensures t.events[k].transactionHash == k.transactionHash && t.events[k].logIndex == k.logIndex
    ensures k in t.rawLogs && t.rawLogs[k].blockNumber == t.events[k].blockNumber
  {
    assert HasItsEvent(world, t.events, k, t.rawLogs[k]);
  }

  /** At every reachable state, a window without a gap is exact. */
  lemma ExactEvidence(world: World, steps: seq<Step>, scope: Scope, fromBlock: int, toBlock: int)
    requires ValidWorld(world) && Legal(world, EMPTY_TABLES, steps)
    requires CoverageComplete(CoverageOf(After(world, EMPTY_TABLES, steps), scope), fromBlock, toBlock)
    ensures Exact(world, After(world, EMPTY_TABLES, steps), scope, Range(fromBlock, toBlock))
  {
    EvidenceAlwaysHolds(world, steps);
    CompleteTablesAreExact(world, After(world, EMPTY_TABLES, steps), scope, Range(fromBlock, toBlock));
  }

  /** Two complete histories of one window, however they ran, leave the same evidence. */
  lemma CompleteHistoriesAgree(world: World, one: seq<Step>, other: seq<Step>, scope: Scope, fromBlock: int,
                               toBlock: int)
    requires ValidWorld(world) && Legal(world, EMPTY_TABLES, one) && Legal(world, EMPTY_TABLES, other)
    requires CoverageComplete(CoverageOf(After(world, EMPTY_TABLES, one), scope), fromBlock, toBlock)
    requires CoverageComplete(CoverageOf(After(world, EMPTY_TABLES, other), scope), fromBlock, toBlock)
    ensures var s, t, window :=
              After(world, EMPTY_TABLES, one), After(world, EMPTY_TABLES, other), Range(fromBlock, toBlock);
            && StoredLogs(world, s, scope, window) == StoredLogs(world, t, scope, window)
            && StoredEvents(world, s, scope, window) == StoredEvents(world, t, scope, window)
  {
    EvidenceAlwaysHolds(world, one);
    EvidenceAlwaysHolds(world, other);
    var s, t := After(world, EMPTY_TABLES, one), After(world, EMPTY_TABLES, other);
    CompleteTablesAgree(world, s, t, scope, Range(fromBlock, toBlock));
  }

  lemma CompleteTablesAgree(world: World, s: Tables, t: Tables, scope: Scope, window: Range)
    requires ValidWorld(world) && Evidence(world, s) && Evidence(world, t)
    requires CoverageComplete(CoverageOf(s, scope), window.fromBlock, window.toBlock)
    requires CoverageComplete(CoverageOf(t, scope), window.fromBlock, window.toBlock)
    ensures StoredLogs(world, s, scope, window) == StoredLogs(world, t, scope, window)
    ensures StoredEvents(world, s, scope, window) == StoredEvents(world, t, scope, window)
  {
    SubsetOfComplete(world, s, t, scope, window);
    SubsetOfComplete(world, t, s, scope, window);
    MutualSubsets(StoredLogs(world, s, scope, window), StoredLogs(world, t, scope, window));
    SameEvents(world, s, t, scope, window);
    SameEvents(world, t, s, scope, window);
    MutualSubmaps(StoredEvents(world, s, scope, window), StoredEvents(world, t, scope, window));
  }

  lemma MutualSubsets<T>(s: set<T>, t: set<T>)
    requires s <= t && t <= s
    ensures s == t
  {
  }

  ghost predicate Submap<K, V>(s: map<K, V>, t: map<K, V>) { forall k :: k in s ==> k in t && s[k] == t[k] }

  lemma MutualSubmaps<K, V>(s: map<K, V>, t: map<K, V>)
    requires Submap(s, t) && Submap(t, s)
    ensures s == t
  {
  }

  lemma SubsetOfComplete(world: World, s: Tables, t: Tables, scope: Scope, window: Range)
    requires ValidWorld(world) && Evidence(world, s) && Evidence(world, t)
    requires CoverageComplete(CoverageOf(t, scope), window.fromBlock, window.toBlock)
    ensures StoredLogs(world, s, scope, window) <= StoredLogs(world, t, scope, window)
  {
    forall l | l in StoredLogs(world, s, scope, window) ensures l in StoredLogs(world, t, scope, window) {
      assert OnChain(world, scope, window, l);
      CoveredLogIsStored(world, t, scope, window, l);
    }
  }

  lemma SameEvents(world: World, s: Tables, t: Tables, scope: Scope, window: Range)
    requires Evidence(world, s) && Evidence(world, t)
    requires StoredLogs(world, s, scope, window) == StoredLogs(world, t, scope, window)
    ensures Submap(StoredEvents(world, s, scope, window), StoredEvents(world, t, scope, window))
  {
    forall k | k in StoredEvents(world, s, scope, window)
      ensures k in StoredEvents(world, t, scope, window)
      ensures StoredEvents(world, s, scope, window)[k] == StoredEvents(world, t, scope, window)[k]
    {
      var l := s.rawLogs[k];
      assert l in StoredLogs(world, t, scope, window);
      var j :| j in t.rawLogs && t.rawLogs[j] == l;
      assert j == k;
      assert Describes(world, s.events[k], l) && HasItsEvent(world, t.events, k, l);
    }
  }

  // The checkpoint.

  /** Within one scope, later runs do not ask for an earlier start. */
  ghost predicate StartsNeverFall(steps: seq<Step>) {
    forall i, j :: 0 <= i < j < |steps| && steps[i].Commit? && steps[j].Commit? && steps[i].scope == steps[j].scope ==>
      steps[i].runFrom <= steps[j].runFrom
  }

  /** The start asked for by the scope's latest committing run. */
  function LatestStart(steps: seq<Step>, scope: Scope): Option<int> {
    if steps == [] then None
    else if steps[|steps| - 1].Commit? && steps[|steps| - 1].scope == scope then Some(steps[|steps| - 1].runFrom)
    else LatestStart(steps[..|steps| - 1], scope)
  }

  lemma {:induction false} LatestStartIsSome(steps: seq<Step>, scope: Scope)
    requires LatestStart(steps, scope).Some?
    ensures exists i :: 0 <= i < |steps| && steps[i].Commit? && steps[i].scope == scope
                        && steps[i].runFrom == LatestStart(steps, scope).value
  {
    var n := |steps| - 1;
    if !(steps[n].Commit? && steps[n].scope == scope) {
      LatestStartIsSome(steps[..n], scope);
      var i :| 0 <= i < n && steps[..n][i].Commit? && steps[..n][i].scope == scope
               && steps[..n][i].runFrom == LatestStart(steps, scope).value;
      assert steps[i] == steps[..n][i];
    }
  }

  lemma ApplyStepGrows(world: World, t: Tables, step: Step, scope: Scope)
    requires Allowed(world, t, step)
    ensures CoverageOf(t, scope) <= CoverageOf(ApplyStep(world, t, step), scope)
    ensures scope in t.checkpoints ==>
              && scope in ApplyStep(world, t, step).checkpoints
              && t.checkpoints[scope].nextBlock <= ApplyStep(world, t, step).checkpoints[scope].nextBlock
    ensures !(step.Commit? && step.scope == scope) ==>
              && (scope in ApplyStep(world, t, step).checkpoints <==> scope in t.checkpoints)
              && (scope in t.checkpoints ==>
                    ApplyStep(world, t, step).checkpoints[scope] == t.checkpoints[scope])
  {
  }

  /** At every reachable state the blocks from the latest start up to the checkpoint have no gap, even when a
      shortened chunk broke its batch. */
  lemma {:induction false} GapFreeCheckpoint(world: World, steps: seq<Step>, scope: Scope)
    requires Legal(world, EMPTY_TABLES, steps) && StartsNeverFall(steps)
    ensures var t := After(world, EMPTY_TABLES, steps);
            && (scope in t.checkpoints <==> LatestStart(steps, scope).Some?)
            && (scope in t.checkpoints ==>
                  CoverageComplete(CoverageOf(t, scope), LatestStart(steps, scope).value,
                                   t.checkpoints[scope].nextBlock - 1))
  {
    if steps != [] {
      var n := |steps| - 1;
      var before, step := After(world, EMPTY_TABLES, steps[..n]), steps[n];
      var t := After(world, EMPTY_TABLES, steps);
      LegalPrefix(world, EMPTY_TABLES, steps, n);
      GapFreeCheckpoint(world, steps[..n], scope);
      ApplyStepGrows(world, before, step, scope);
      if scope in t.checkpoints {
        var start := LatestStart(steps, scope).value;
        if scope in before.checkpoints {
          LatestStartIsSome(steps[..n], scope);
          var i :| 0 <= i < n && steps[..n][i].Commit? && steps[..n][i].scope == scope
                   && steps[..n][i].runFrom == LatestStart(steps[..n], scope).value;
          assert steps[i] == steps[..n][i];
        }
        forall b | start <= b <= t.checkpoints[scope].nextBlock - 1 ensures CoveredBy(CoverageOf(t, scope), b) {
          if step.Commit? && step.scope == scope && b >= step.chunk.range.fromBlock {
            assert step.chunk.range in CoverageOf(t, scope) && Contains(step.chunk.range, b);
          } else {
            assert CoveredBy(CoverageOf(before, scope), b);
            var r :| r in CoverageOf(before, scope) && Contains(r, b);
            assert r in CoverageOf(t, scope);
          }
        }
      }
    }
  }

  /** The stored checkpoint never goes back, whatever starts the runs ask for. */
  lemma {:induction false} CheckpointNeverGoesBack(world: World, t: Tables, steps: seq<Step>, scope: Scope)
    requires Legal(world, t, steps) && scope in t.checkpoints
    ensures scope in After(world, t, steps).checkpoints
    ensures t.checkpoints[scope].nextBlock <= After(world, t, steps).checkpoints[scope].nextBlock
  {
    if steps != [] {
      var n := |steps| - 1;
      LegalPrefix(world, t, steps, n);
      CheckpointNeverGoesBack(world, t, steps[..n], scope);
      ApplyStepGrows(world, After(world, t, steps[..n]), steps[n], scope);
    }
  }
}
