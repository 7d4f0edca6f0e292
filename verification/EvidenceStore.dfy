/** The durable tables of one chain, the transaction that persists a fetched chunk, and the evidence they hold. */
module EvidenceStore {
  import opened Wrappers
  import opened Planner

  type Hash = string
  type Address = string
  type Scope = string

  datatype LogKey = LogKey(transactionHash: Hash, logIndex: nat)

  datatype Log = Log(
    blockNumber: nat, blockHash: Hash, transactionHash: Hash, transactionIndex: nat, logIndex: nat,
    address: Address, topics: seq<string>, data: string)

  datatype Block = Block(number: nat, hash: Hash, parentHash: Hash, timestamp: nat)

  datatype Decoded = Decoded(contractRole: string, eventName: string, payload: string, decoderVersion: string)

  datatype EventRow = EventRow(blockNumber: nat, transactionHash: Hash, logIndex: nat, decoded: Decoded)

  datatype Anchor = Anchor(number: nat, hash: Hash)

  datatype Checkpoint = Checkpoint(nextBlock: int, lastCompleted: Option<Anchor>)

  /** What is fixed while the indexer runs: the finalized chain, the decoder, and each scope's addresses. */
  datatype World = World(
    blockAt: nat -> Block, logsAt: nat -> set<Log>, decode: Log -> Option<Decoded>, addressesOf: Scope -> set<Address>)

  function KeyOf(log: Log): LogKey { LogKey(log.transactionHash, log.logIndex) }

  predicate SamePlace(k: Log, l: Log) { k.transactionHash == l.transactionHash && k.logIndex == l.logIndex }

  ghost predicate ValidWorld(world: World) {
    && (forall n :: world.blockAt(n).number == n)
    && (forall n, l :: l in world.logsAt(n) ==> l.blockNumber == n && l.blockHash == world.blockAt(n).hash)
    && (forall m, n, k, l :: k in world.logsAt(m) && l in world.logsAt(n) && SamePlace(k, l) ==> k == l)
  }

  predicate OnChain(world: World, scope: Scope, range: Range, log: Log) {
    && Contains(range, log.blockNumber) && log in world.logsAt(log.blockNumber)
    && log.address in world.addressesOf(scope)
  }

  /** One fetched chunk: `chunkSize` is the size its range was planned with. */
  datatype Chunk = Chunk(range: BlockRange, logs: seq<Log>, blocks: seq<Block>, anchor: Option<Block>, chunkSize: int)

  /** A chunk as an honest provider serves it, in any order and with any repetition. */
  ghost predicate ExactChunk(world: World, scope: Scope, c: Chunk) {
    && c.range.fromBlock >= 0
    && (forall l :: l in c.logs <==> OnChain(world, scope, c.range, l))
    && (forall b :: b in c.blocks ==> b == world.blockAt(b.number))
    && (forall l :: l in c.logs ==> world.blockAt(l.blockNumber) in c.blocks)
    && (c.anchor.Some? ==> c.anchor.value == world.blockAt(c.range.toBlock))
  }

  datatype Tables = Tables(
    blocks: map<nat, Block>, rawLogs: map<LogKey, Log>, events: map<LogKey, EventRow>,
    coverage: map<Scope, set<BlockRange>>, checkpoints: map<Scope, Checkpoint>)

  const EMPTY_TABLES := Tables(map[], map[], map[], map[], map[])

  function CoverageOf(t: Tables, scope: Scope): set<BlockRange> {
    if scope in t.coverage then t.coverage[scope] else {}
  }

  // What one committed chunk does to the tables.

  function ByNumber(blocks: seq<Block>): map<nat, Block> {
    if blocks == [] then map[] else
      ByNumber(blocks[..|blocks| - 1])[blocks[|blocks| - 1].number := blocks[|blocks| - 1]]
  }

  predicate HashDrift(stored: map<nat, Block>, incoming: map<nat, Block>) {
    exists n :: n in stored && n in incoming && stored[n].hash != incoming[n].hash
  }

  function InsertLogs(rawLogs: map<LogKey, Log>, logs: seq<Log>): map<LogKey, Log> {
    if logs == [] then rawLogs else
      var before, log := InsertLogs(rawLogs, logs[..|logs| - 1]), logs[|logs| - 1];
      if KeyOf(log) in before then before else before[KeyOf(log) := log]
  }

  function RowFor(log: Log, decoded: Decoded): EventRow {
    EventRow(log.blockNumber, log.transactionHash, log.logIndex, decoded)
  }

  function InsertEvents(events: map<LogKey, EventRow>, inserted: set<LogKey>, decode: Log -> Option<Decoded>,
                        logs: seq<Log>):
    map<LogKey, EventRow>
  {
    if logs == [] then events else
      var before, log := InsertEvents(events, inserted, decode, logs[..|logs| - 1]), logs[|logs| - 1];
      if KeyOf(log) in inserted && decode(log).Some? && KeyOf(log) !in before
      then before[KeyOf(log) := RowFor(log, decode(log).value)]
      else before
  }

  function IncomingBlocks(c: Chunk): seq<Block> { c.blocks + if c.anchor.Some? then [c.anchor.value] else [] }

  function LatestAnchor(t: Tables, scope: Scope, anchor: Option<Block>): Option<Anchor> {
    if anchor.Some? then Some(Anchor(anchor.value.number, anchor.value.hash))
    else if scope in t.checkpoints then t.checkpoints[scope].lastCompleted else None
  }

  function CommitChunk(t: Tables, decode: Log -> Option<Decoded>, scope: Scope, c: Chunk): Tables {
    var rawLogs := InsertLogs(t.rawLogs, c.logs);
    Tables(
      ByNumber(IncomingBlocks(c)) + t.blocks,
      rawLogs,
      InsertEvents(t.events, rawLogs.Keys - t.rawLogs.Keys, decode, c.logs),
      t.coverage[scope := CoverageOf(t, scope) + {c.range}],
      t.checkpoints[scope := Checkpoint(c.range.toBlock + 1, LatestAnchor(t, scope, c.anchor))])
  }

  // The database object.

  datatype CommitOutcome = Acknowledged | Refused | Unacknowledged

  datatype PersistResult = Persisted | BlockHashDrift | DatabaseError

  class IndexerDatabase {
    var blocks: map<nat, Block>
    var rawLogs: map<LogKey, Log>
    var events: map<LogKey, EventRow>
    var coverage: map<Scope, set<BlockRange>>
    var checkpoints: map<Scope, Checkpoint>

    function Snapshot(): Tables
      reads this
    {
      Tables(blocks, rawLogs, events, coverage, checkpoints)
    }

    constructor ()
      ensures Snapshot() == EMPTY_TABLES
    {
      blocks, rawLogs, events, coverage, checkpoints := map[], map[], map[], map[], map[];
    }

    /** The insert of block rows: refuse any number already stored under another hash, then insert the new numbers. */
    method InsertBlocks(incoming: seq<Block>) returns (drift: bool, stored: map<nat, Block>)
      ensures drift == HashDrift(blocks, ByNumber(incoming))
      ensures !drift ==> stored == ByNumber(incoming) + blocks
    {
      var unique: map<nat, Block> := map[];
      for i := 0 to |incoming|
        invariant unique == ByNumber(incoming[..i])
      {
        assert incoming[..i + 1][..i] == incoming[..i];
        unique := unique[incoming[i].number := incoming[i]];
      }
      assert incoming[..|incoming|] == incoming;
      var left := unique.Keys;
      stored, drift := blocks, false;
      while left != {}
        invariant left <= unique.Keys
        invariant forall n :: n in unique.Keys - left && n in blocks ==> blocks[n].hash == unique[n].hash
        invariant stored ==
          map n | n in blocks.Keys + (unique.Keys - left) :: if n in blocks then blocks[n] else unique[n]
        decreases left
      {
        var n :| n in left;
        if n in blocks && blocks[n].hash != unique[n].hash {
          drift := true;
          return;
        }
        if n !in blocks {
          stored := stored[n := unique[n]];
        }
        left := left - {n};
      }
      assert stored == unique + blocks;
    }

    /** The insert of raw logs, skipping stored keys; returns the keys it inserted. */
    method InsertRawLogs(logs: seq<Log>) returns (stored: map<LogKey, Log>, inserted: set<LogKey>)
      ensures stored == InsertLogs(rawLogs, logs) && inserted == stored.Keys - rawLogs.Keys
    {
      stored, inserted := rawLogs, {};
      for i := 0 to |logs|
        invariant stored == InsertLogs(rawLogs, logs[..i])
        invariant inserted == stored.Keys - rawLogs.Keys && rawLogs.Keys <= stored.Keys
      {
        assert logs[..i + 1][..i] == logs[..i];
        if KeyOf(logs[i]) !in stored {
          stored := stored[KeyOf(logs[i]) := logs[i]];
          inserted := inserted + {KeyOf(logs[i])};
        }
      }
      assert logs[..|logs|] == logs;
    }

    /** Decodes the logs that were inserted and adds their events. */
    method InsertDecodedEvents(inserted: set<LogKey>, decode: Log -> Option<Decoded>, logs: seq<Log>)
      returns (stored: map<LogKey, EventRow>)
      ensures stored == InsertEvents(events, inserted, decode, logs)
    {
      stored := events;
      for i := 0 to |logs|
        invariant stored == InsertEvents(events, inserted, decode, logs[..i])
      {
        assert logs[..i + 1][..i] == logs[..i];
        var log := logs[i];
        if KeyOf(log) !in inserted {
          continue;
        }
        var decoded := decode(log);
        if decoded.None? {
          continue;
        }
        if KeyOf(log) !in stored {
          stored := stored[KeyOf(log) := RowFor(log, decoded.value)];
        }
      }
      assert logs[..|logs|] == logs;
    }

    /** One transaction: blocks, raw logs, events of the logs it inserted, the coverage row and the checkpoint
        become visible together or not at all. */
    method PersistChunk(scope: Scope, decode: Log -> Option<Decoded>, c: Chunk, commit: CommitOutcome)
      returns (result: PersistResult)
      modifies this
      ensures HashDrift(old(blocks), ByNumber(IncomingBlocks(c))) ==>
                result == BlockHashDrift && Snapshot() == old(Snapshot())
      ensures !HashDrift(old(blocks), ByNumber(IncomingBlocks(c))) ==>
                && result == (if commit == Acknowledged then Persisted else DatabaseError)
                && Snapshot() == if commit == Refused then old(Snapshot())
                                 else CommitChunk(old(Snapshot()), decode, scope, c)
    {
      var drift, newBlocks := InsertBlocks(IncomingBlocks(c));
      if drift {
        return BlockHashDrift;
      }
      var newLogs, inserted := InsertRawLogs(c.logs);
      var newEvents := InsertDecodedEvents(inserted, decode, c.logs);
      var newCoverage := coverage[scope := (if scope in coverage then coverage[scope] else {}) + {c.range}];
      var anchor :=
        if c.anchor.Some? then Some(Anchor(c.anchor.value.number, c.anchor.value.hash))
        else if scope in checkpoints then checkpoints[scope].lastCompleted else None;
      var newCheckpoints := checkpoints[scope := Checkpoint(c.range.toBlock + 1, anchor)];
      if commit != Refused {
        blocks, rawLogs, events, coverage, checkpoints := newBlocks, newLogs, newEvents, newCoverage, newCheckpoints;
      }
      return if commit == Acknowledged then Persisted else DatabaseError;
    }

    /** The insert of clipped rows into the target scope. */
    method InsertClippedRows(source: Scope, target: Scope, fromBlock: int, toBlock: int)
      requires fromBlock <= toBlock && source != target
      modifies this
      ensures Snapshot() == ReuseCoverage(old(Snapshot()), source, target, fromBlock, toBlock)
    {
      var rows := if source in coverage then coverage[source] else {};
      var before := if target in coverage then coverage[target] else {};
      var selected := ListRows(RowsInWindow(rows, fromBlock, toBlock));
      var clipped := ClipRows(selected, rows, fromBlock, toBlock);
      coverage := coverage[target := before + clipped];
    }

    /** Copies a complete source scope's rows, clipped to the window, into the target scope. */
    method ReuseSavingsHistoryCoverage(source: Scope, target: Scope, fromBlock: int, toBlock: int)
      returns (r: ReuseResult)
      modifies this
      ensures fromBlock > toBlock ==> r == InvalidWindow && Snapshot() == old(Snapshot())
      ensures fromBlock <= toBlock ==>
                if CoverageComplete(CoverageOf(old(Snapshot()), source), fromBlock, toBlock)
                then r == Reused && Snapshot() == ReuseCoverage(old(Snapshot()), source, target, fromBlock, toBlock)
                else r == SourceIncomplete && Snapshot() == old(Snapshot())
    {
      var sourceReport := VerifyCoverage(CoverageOf(Snapshot(), source), fromBlock, toBlock);
      if sourceReport.Failure? {
        return InvalidWindow;
      }
      if !sourceReport.value.complete {
        return SourceIncomplete;
      }
      if source != target {
        InsertClippedRows(source, target, fromBlock, toBlock);
      }
      ReuseCompletes(old(Snapshot()), source, target, fromBlock, toBlock);
      var targetReport := VerifyCoverage(CoverageOf(Snapshot(), target), fromBlock, toBlock);
      return if targetReport.Success? && targetReport.value.complete then Reused else ReusedCoverageIncomplete;
    }
  }

  // Coverage reuse.

  datatype ReuseResult = Reused | SourceIncomplete | InvalidWindow | ReusedCoverageIncomplete

  /** `greatest`/`least` clipping of a row that overlaps the window. */
  function Clip(r: BlockRange, fromBlock: int, toBlock: int): Range {
    Range(if r.fromBlock > fromBlock then r.fromBlock else fromBlock,
          if r.toBlock < toBlock then r.toBlock else toBlock)
  }

  function ClippedRows(rows: set<BlockRange>, fromBlock: int, toBlock: int): set<BlockRange>
    requires fromBlock <= toBlock
  {
    set r | r in RowsInWindow(rows, fromBlock, toBlock) :: Clip(r, fromBlock, toBlock)
  }

  /** The select list of the insert: each listed row, clipped. */
  method ClipRows(selected: seq<BlockRange>, ghost rows: set<BlockRange>, fromBlock: int, toBlock: int)
    returns (clipped: set<BlockRange>)
    requires fromBlock <= toBlock && forall r :: r in selected <==> r in RowsInWindow(rows, fromBlock, toBlock)
    ensures clipped == ClippedRows(rows, fromBlock, toBlock)
  {
    clipped := {};
    for i := 0 to |selected|
      invariant forall k :: 0 <= k < i ==> Clip(selected[k], fromBlock, toBlock) in clipped
      invariant forall c :: c in clipped ==> c in ClippedRows(rows, fromBlock, toBlock)
    {
      assert selected[i] in selected;
      var row: BlockRange := Clip(selected[i], fromBlock, toBlock);
      clipped := clipped + {row};
    }
    forall c | c in ClippedRows(rows, fromBlock, toBlock) ensures c in clipped {
      var r :| r in RowsInWindow(rows, fromBlock, toBlock) && c == Clip(r, fromBlock, toBlock);
      assert r in selected;
    }
  }

  function ReuseCoverage(t: Tables, source: Scope, target: Scope, fromBlock: int, toBlock: int): Tables
    requires fromBlock <= toBlock
  {
    if source == target then t
    else t.(coverage := t.coverage[target :=
              CoverageOf(t, target) + ClippedRows(CoverageOf(t, source), fromBlock, toBlock)])
  }

  /** Clipped rows cover exactly the window's covered blocks. */
  lemma ClippedRowsCover(rows: set<BlockRange>, fromBlock: int, toBlock: int, b: int)
    requires fromBlock <= toBlock
    ensures CoveredBy(ClippedRows(rows, fromBlock, toBlock), b) <==> fromBlock <= b <= toBlock && CoveredBy(rows, b)
  {
    var clipped := ClippedRows(rows, fromBlock, toBlock);
    if CoveredBy(clipped, b) {
      var c :| c in clipped && Contains(c, b);
      var r :| r in RowsInWindow(rows, fromBlock, toBlock) && c == Clip(r, fromBlock, toBlock);
      assert Contains(r, b);
    }
    if fromBlock <= b <= toBlock && CoveredBy(rows, b) {
      var r :| r in rows && Contains(r, b);
      assert r in RowsInWindow(rows, fromBlock, toBlock);
      assert Clip(r, fromBlock, toBlock) in clipped && Contains(Clip(r, fromBlock, toBlock), b);
    }
  }

  /** A complete source leaves the target complete, whatever rows the target already had. */
  lemma ReuseCompletes(t: Tables, source: Scope, target: Scope, fromBlock: int, toBlock: int)
    requires fromBlock <= toBlock && CoverageComplete(CoverageOf(t, source), fromBlock, toBlock)
    ensures CoverageComplete(CoverageOf(ReuseCoverage(t, source, target, fromBlock, toBlock), target),
                             fromBlock, toBlock)
  {
    var after := CoverageOf(ReuseCoverage(t, source, target, fromBlock, toBlock), target);
    forall b | fromBlock <= b <= toBlock ensures CoveredBy(after, b) {
      assert CoveredBy(CoverageOf(t, source), b);
      if source != target {
        ClippedRowsCover(CoverageOf(t, source), fromBlock, toBlock, b);
        var r :| r in ClippedRows(CoverageOf(t, source), fromBlock, toBlock) && Contains(r, b);
        assert r in after;
      }
    }
  }
}
