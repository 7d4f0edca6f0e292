/** Resumable log ingestion: one run over an unreliable environment and a transactional store, and its failover between
    providers. */
module Ingestion {
  import opened Wrappers
  import opened Planner
  import opened EvidenceStore
  import opened EvidenceHistory
  import opened RunEnvironment
  import opened FetchPolicy
  import opened RunTraces
  import WorkerPool

  // One chunk.

  datatype ChunkResult = Stored(range: BlockRange, chunkSize: int) | ChunkThrew(error: RunError) | ChunkCut

  /** The block rows of a chunk's logs, one for each number. */
  method FetchBlocks(world: World, logs: seq<Log>, o: BlockFetchOptions) returns (blocks: seq<Block>)
    requires ValidWorld(world)
    ensures forall b :: b in blocks <==> exists l :: l in logs && b == world.blockAt(l.blockNumber)
    ensures forall i, j :: 0 <= i < j < |blocks| ==> blocks[i].number != blocks[j].number
  {
    var all: seq<nat> := seq(|logs|, i requires 0 <= i < |logs| => logs[i].blockNumber);
    var numbers, fetched, byNumber :=
      WorkerPool.BlocksByNumber(world.blockAt, all, o.concurrency, o.batchSize, o.batchConcurrency);
    forall b ensures b in fetched <==> exists l :: l in logs && b == world.blockAt(l.blockNumber) {
      if b in fetched {
        var i :| 0 <= i < |numbers| && fetched[i] == b;
        assert numbers[i] in numbers && numbers[i] in all;
      }
      if l :| l in logs && b == world.blockAt(l.blockNumber) {
        var k :| 0 <= k < |logs| && logs[k] == l;
        assert all[k] in all && all[k] in numbers;
        var i :| 0 <= i < |numbers| && numbers[i] == all[k];
        assert fetched[i] == b;
      }
    }
    blocks := fetched;
  }

  /** `chunkSize` is the size the run goes on with: the one just served, once the logs have arrived. */
  datatype ChunkFetch = Ready(chunk: Chunk) | NotReady(result: ChunkResult, chunkSize: int)

  /** Why a step of a run may throw: a turn it took, or the signal. */
  ghost predicate Excused(env: Environment, from: nat, retries: nat, e: RunError)
    reads env
    requires env.Valid()
  {
    Earned(env.script, from, env.next, retries, e) || (e == SignalAborted && env.Aborted())
  }

  /** Awaits one prefetched range, its block rows, and the anchor when one is due.  `served` is the turn that brought
      the logs. */
  method FetchChunk(env: Environment, o: IngestOptions, planned: BlockRange, batchSize: int, chunksDone: nat)
    returns (f: ChunkFetch, ghost served: nat)
    requires env.Valid() && ValidWorld(env.world)
    requires planned.fromBlock >= 0 && planned.toBlock <= o.toBlock && batchSize >= 1
    modifies env`next
    ensures env.Valid() && old(env.next) <= env.next
    ensures f.Ready? ==>
              && ExactChunk(env.world, o.scope, f.chunk)
              && f.chunk.range.fromBlock == planned.fromBlock
              && FullSized(f.chunk.range, f.chunk.chunkSize, planned.toBlock) && 1 <= f.chunk.chunkSize <= batchSize
              && AnchorBelongs(o, f.chunk, chunksDone)
    ensures f.Ready? ==>
              && FetchedOver(env.script, o, old(env.next), served, f.chunk, batchSize)
              && env.next == CommitTurn(served, f.chunk)
    ensures f.NotReady? ==>
              && !f.result.Stored? && f.chunkSize <= batchSize
              && SizeNow(env.script, old(env.next), env.next, batchSize, f.chunkSize)
    ensures f.NotReady? && f.result.ChunkCut? ==> env.next == |env.script|
    ensures f.NotReady? && f.result.ChunkThrew? ==> Excused(env, old(env.next), o.maxRetries, f.result.error)
    ensures Paced(env.script, old(env.next), env.next, 3)
  {
    ghost var from := env.next;
    served := from;
    var fetch := FetchLogsWithPolicy(env, o.scope, planned.fromBlock, planned.toBlock, batchSize, o.maxRetries,
                                     o.retryRateLimitsIndefinitely);
    GoingOnFails(env.script, from, env.next - 1, batchSize, o.maxRetries, o.retryRateLimitsIndefinitely);
    FetchIsPaced(env.script, from, env.next);
    if fetch.FetchCut? {
      GoingOnFails(env.script, from, env.next, batchSize, o.maxRetries, o.retryRateLimitsIndefinitely);
      f := NotReady(ChunkCut, batchSize);
      return;
    }
    if fetch.FetchThrew? {
      if !(fetch.error == SignalAborted && env.Aborted()) {
        GivenUpIsEarned(env.script, from, env.next, batchSize, o.maxRetries, o.retryRateLimitsIndefinitely,
                        fetch.error);
      }
      f := NotReady(ChunkThrew(fetch.error), batchSize);
      return;
    }
    served := env.next - 1;
    f := AfterLogs(env, o, fetch.range, fetch.logs, fetch.chunkSize, chunksDone);
    FewTurnsArePaced(env.script, served + 1, env.next, 2);
    PacedOn(env.script, from, served + 1, env.next, 1, 2);
    SizeOnceServed(env.script, from, served, env.next, batchSize);
  }

  /** The block rows of served logs, and the anchor when one is due. */
  method AfterLogs(env: Environment, o: IngestOptions, range: BlockRange, logs: seq<Log>, chunkSize: int,
                   chunksDone: nat)
    returns (f: ChunkFetch)
    requires env.Valid() && ValidWorld(env.world) && 0 <= range.fromBlock <= range.toBlock
    requires forall l :: l in logs <==> OnChain(env.world, o.scope, range, l)
    modifies env`next
    ensures env.Valid() && old(env.next) <= env.next <= old(env.next) + 2
    ensures f.Ready? ==>
              && ExactChunk(env.world, o.scope, f.chunk) && f.chunk.range == range && f.chunk.chunkSize == chunkSize
              && AnchorBelongs(o, f.chunk, chunksDone)
              && env.next == old(env.next) + (if f.chunk.anchor.Some? then 2 else 1)
              && forall i :: old(env.next) <= i < env.next ==> env.script[i].failure.None?
    ensures f.NotReady? ==> !f.result.Stored? && f.chunkSize == chunkSize
    ensures f.NotReady? && f.result.ChunkCut? ==> env.next == |env.script|
    ensures f.NotReady? && f.result.ChunkThrew? ==>
              && env.next > old(env.next) && env.script[env.next - 1].failure.Some?
              && f.result.error == ErrorOf(env.script[env.next - 1].failure.value)
  {
    var turn := env.Next();
    if turn.None? {
      return NotReady(ChunkCut, chunkSize);
    }
    if turn.value.failure.Some? {
      return NotReady(ChunkThrew(ErrorOf(turn.value.failure.value)), chunkSize);
    }
    var blocks := FetchBlocks(env.world, logs, o.blocks);
    BlocksOfLogs(env.world, logs, blocks);
    var isFinalChunk := range.toBlock == o.toBlock;
    var anchor := None;
    if isFinalChunk || (o.anchorEveryChunks != 0 && (chunksDone + 1) % o.anchorEveryChunks == 0) {
      turn := env.Next();
      if turn.None? {
        return NotReady(ChunkCut, chunkSize);
      }
      if turn.value.failure.Some? {
        return NotReady(ChunkThrew(ErrorOf(turn.value.failure.value)), chunkSize);
      }
      anchor := Some(env.world.blockAt(range.toBlock));
    }
    return Ready(Chunk(range, logs, blocks, anchor, chunkSize));
  }

  lemma FetchIsPaced(script: seq<Turn>, from: nat, to: nat)
    requires from <= to <= |script| && LogsFail(script, from, to - 1)
    ensures Paced(script, from, to, 1)
  {
    if to > from {
      FailingServesNothing(script, from, to - 1);
    }
  }

  /** The transaction of one chunk meets a stored block of another hash. */
  predicate Drifts(blocks: map<nat, Block>, chunk: Chunk) { HashDrift(blocks, ByNumber(IncomingBlocks(chunk))) }

  /** Runs one chunk's transaction and then the run record's update.  `acknowledged` says whether the transaction
      returned, `committed` whether the chunk reached the store, which an unacknowledged commit also did. */
  method StoreChunk(env: Environment, db: IndexerDatabase, scope: Scope, chunk: Chunk)
    returns (r: ChunkResult, acknowledged: bool, ghost committed: bool)
    requires env.Valid()
    modifies env`next, db
    ensures env.Valid() && old(env.next) <= env.next <= old(env.next) + 2
    ensures db.Snapshot() == if committed then CommitChunk(old(db.Snapshot()), env.world.decode, scope, chunk)
                             else old(db.Snapshot())
    ensures committed <==>
              && old(env.next) < |env.script| && !Drifts(old(db.blocks), chunk)
              && env.script[old(env.next)].commit != Refused
    ensures acknowledged <==> committed && env.script[old(env.next)].commit == Acknowledged
    ensures r.Stored? <==>
              committed && Confirmed(env.script, old(env.next))
    ensures r.Stored? ==> r.range == chunk.range && r.chunkSize == chunk.chunkSize && env.next == old(env.next) + 2
    ensures committed ==> env.next > old(env.next)
    ensures r.ChunkThrew? && acknowledged ==>
              env.next == old(env.next) + 2 && env.script[old(env.next) + 1].statementFails
    ensures r.ChunkCut? ==> env.next == |env.script|
    ensures r == ChunkThrew(StoredBlockHashDrift) <==> old(env.next) < |env.script| && Drifts(old(db.blocks), chunk)
    ensures r.ChunkThrew? && r.error != StoredBlockHashDrift ==>
              r.error == StoreFailed && Blamed(env.script, old(env.next), env.next, StoreFailed)
  {
    acknowledged, committed := false, false;
    var turn := env.Next();
    if turn.None? {
      return ChunkCut, acknowledged, committed;
    }
    var result := db.PersistChunk(scope, env.world.decode, chunk, turn.value.commit);
    if result == BlockHashDrift {
      return ChunkThrew(StoredBlockHashDrift), acknowledged, committed;
    }
    committed := turn.value.commit != Refused;
    if result == DatabaseError {
      assert Blames(env.script[env.next - 1], StoreFailed);
      return ChunkThrew(StoreFailed), acknowledged, committed;
    }
    acknowledged := true;
    turn := env.Next();
    if turn.None? {
      return ChunkCut, acknowledged, committed;
    }
    if turn.value.statementFails {
      assert Blames(env.script[env.next - 1], StoreFailed);
      return ChunkThrew(StoreFailed), acknowledged, committed;
    }
    return Stored(chunk.range, chunk.chunkSize), acknowledged, committed;
  }

  lemma BlocksOfLogs(world: World, logs: seq<Log>, blocks: seq<Block>)
    requires ValidWorld(world)
    requires forall b :: b in blocks <==> exists l :: l in logs && b == world.blockAt(l.blockNumber)
    ensures forall b :: b in blocks ==> b == world.blockAt(b.number)
    ensures forall l :: l in logs ==> world.blockAt(l.blockNumber) in blocks
  {
  }

  // Batches.

  /** A batch: consecutive ranges from `nextBlock`, each of the full chunk size except one that ends the request. */
  predicate IsBatch(planned: seq<BlockRange>, nextBlock: int, toBlock: int, chunkSize: int) {
    && (planned != [] ==> planned[0].fromBlock == nextBlock)
    && (forall i :: 0 < i < |planned| ==> planned[i].fromBlock == planned[i - 1].toBlock + 1)
    && forall i :: 0 <= i < |planned| ==> planned[i].fromBlock <= toBlock && FullSized(planned[i], chunkSize, toBlock)
  }

  function BatchWidth(fetchConcurrency: int): nat { if fetchConcurrency > 1 then fetchConcurrency else 1 }

  lemma BatchGrows(planned: seq<BlockRange>, nextBlock: int, toBlock: int, chunkSize: int, range: BlockRange)
    requires IsBatch(planned, nextBlock, toBlock, chunkSize)
    requires range.fromBlock == if planned == [] then nextBlock else planned[|planned| - 1].toBlock + 1
    requires range.fromBlock <= toBlock && FullSized(range, chunkSize, toBlock)
    ensures IsBatch(planned + [range], nextBlock, toBlock, chunkSize)
  {
  }

  method PlanBatch(nextBlock: int, toBlock: int, chunkSize: int, fetchConcurrency: int)
    returns (r: Result<seq<BlockRange>, PlanError>)
    requires nextBlock <= toBlock
    ensures r.Failure? <==> chunkSize < 1
    ensures r.Failure? ==> r.error == ChunkSizeNotPositive
    ensures r.Success? ==> r.value != [] && IsBatch(r.value, nextBlock, toBlock, chunkSize)
    ensures r.Success? ==> |r.value| <= BatchWidth(fetchConcurrency)
    ensures r.Success? ==> |r.value| == BatchWidth(fetchConcurrency) || r.value[|r.value| - 1].toBlock == toBlock
  {
    var planned: seq<BlockRange> := [];
    var plannedFrom := nextBlock;
    var width := BatchWidth(fetchConcurrency);
    while plannedFrom <= toBlock && |planned| < width
      invariant plannedFrom == if planned == [] then nextBlock else planned[|planned| - 1].toBlock + 1
      invariant IsBatch(planned, nextBlock, toBlock, chunkSize) && (planned != [] ==> chunkSize >= 1)
      invariant |planned| <= width
      decreases width - |planned|
    {
      var range := PlanBlockRange(plannedFrom, toBlock, chunkSize);
      if range.Failure? {
        return Failure(range.error);
      }
      BatchGrows(planned, nextBlock, toBlock, chunkSize, range.value);
      planned := planned + [range.value];
      plannedFrom := range.value.toBlock + 1;
    }
    return Success(planned);
  }

  /** What the run's error handler makes of a thrown error. */
  function Caught(error: RunError, aborted: bool, nextBlock: int, chunkSize: int): RunOutcome {
    if aborted then Interrupted(nextBlock, chunkSize) else Threw(error)
  }

  function AnchorAt(world: World, n: nat): Anchor { Anchor(world.blockAt(n).number, world.blockAt(n).hash) }

  predicate AnchoredAtEnd(world: World, o: IngestOptions, t: Tables) {
    && o.toBlock >= 0 && o.scope in t.checkpoints
    && t.checkpoints[o.scope] == Checkpoint(o.toBlock + 1, Some(AnchorAt(world, o.toBlock)))
  }

  function StartOf(o: IngestOptions, t0: Tables): int { ResumeAt(t0, o.scope, o.fromBlock) }

  /** What holds of a run between any two transactions: the tables `t` are the tables `t0` it found, moved by a
      contiguous trace of exactly served chunks that starts where the checkpoint said. */
  ghost predicate RunState(world: World, o: IngestOptions, t0: Tables, trace: seq<Chunk>, t: Tables) {
    && ChunksFit(world, o, StartOf(o, t0), trace) && t == CommitAll(t0, world.decode, o.scope, trace)
    && (trace != [] && EndOf(trace, StartOf(o, t0)) > o.toBlock ==> AnchoredAtEnd(world, o, t))
  }

  lemma FinalChunkAnchors(world: World, o: IngestOptions, t: Tables, c: Chunk)
    requires c.range.toBlock == o.toBlock >= 0 && c.anchor == Some(world.blockAt(o.toBlock))
    ensures AnchoredAtEnd(world, o, CommitChunk(t, world.decode, o.scope, c))
  {
  }

  lemma RunStateStep(world: World, o: IngestOptions, t0: Tables, trace: seq<Chunk>, t: Tables, c: Chunk, after: Tables)
    requires ValidWorld(world) && RunState(world, o, t0, trace, t) && IsNextChunk(world, o, StartOf(o, t0), trace, c)
    requires after == CommitChunk(t, world.decode, o.scope, c)
    ensures RunState(world, o, t0, trace + [c], after)
  {
    CommitAllAppend(t0, world.decode, o.scope, trace, c);
    ChunksFitAppend(world, o, StartOf(o, t0), trace, c);
    if c.range.toBlock == o.toBlock {
      FinalChunkAnchors(world, o, t, c);
    }
  }

  /** A trace of exact chunks keeps honest tables honest. */
  lemma {:induction false} TraceKeepsEvidence(world: World, scope: Scope, start: int, toBlock: int, t0: Tables,
                                              trace: seq<Chunk>)
    requires ValidWorld(world) && Evidence(world, t0) && RunTrace(world, scope, start, toBlock, trace)
    ensures Evidence(world, CommitAll(t0, world.decode, scope, trace))
  {
    if trace != [] {
      var n := |trace| - 1;
      RunTracePrefix(world, scope, start, toBlock, trace, n);
      TraceKeepsEvidence(world, scope, start, toBlock, t0, trace[..n]);
      CommitKeepsEvidence(world, CommitAll(t0, world.decode, scope, trace[..n]), scope, trace[n]);
    }
  }

  /** A drift inside a run shows that the tables it found were not honest. */
  lemma DriftMeansDishonest(world: World, o: IngestOptions, t0: Tables, before: seq<Chunk>, t: Tables, c: Chunk)
    requires ValidWorld(world) && RunState(world, o, t0, before, t) && ExactChunk(world, o.scope, c)
    requires Drifts(t.blocks, c)
    ensures !Evidence(world, t0)
  {
    if Evidence(world, t0) {
      FittingChunksContinue(world, o, StartOf(o, t0), before);
      TraceKeepsEvidence(world, o.scope, StartOf(o, t0), o.toBlock, t0, before);
      CommitKeepsEvidence(world, t, o.scope, c);
    }
  }

  /** Why a run's work may throw: a turn since `from`, the signal, or dishonest tables. */
  ghost predicate RunExcused(env: Environment, from: nat, retries: nat, dishonest: bool, e: RunError)
    reads env
    requires env.Valid()
  {
    Excused(env, from, retries, e) || (e == StoredBlockHashDrift && dishonest)
  }

  /** What a run starts from: the tables it found and whether they were dishonest, its first block, and the turn of its
      first request for logs. */
  datatype Found = Found(tables: Tables, dishonest: bool, start: int, first: nat)

  ghost predicate IsFound(world: World, o: IngestOptions, found: Found) {
    found.start == StartOf(o, found.tables) && (!found.dishonest ==> Evidence(world, found.tables))
  }

  /** Stores one chunk within a run: it joins the trace exactly when it is committed, acknowledged or not. */
  method StoreInRun(env: Environment, db: IndexerDatabase, o: IngestOptions, chunk: Chunk, ghost found: Found,
                    ghost before: seq<Chunk>)
    returns (r: ChunkResult, acknowledged: bool, ghost committed: bool)
    requires env.Valid() && ValidWorld(env.world)
    requires RunState(env.world, o, found.tables, before, db.Snapshot())
    requires IsNextChunk(env.world, o, StartOf(o, found.tables), before, chunk)
    requires IsFound(env.world, o, found)
    modifies env`next, db
    ensures env.Valid() && old(env.next) <= env.next <= old(env.next) + 2
    ensures RunState(env.world, o, found.tables, With(before, chunk, committed), db.Snapshot())
    ensures committed <==>
              && old(env.next) < |env.script| && !Drifts(old(db.blocks), chunk)
              && env.script[old(env.next)].commit != Refused
    ensures committed ==> env.next > old(env.next)
    ensures acknowledged <==> committed && env.script[old(env.next)].commit == Acknowledged
    ensures r.Stored? <==> committed && Confirmed(env.script, old(env.next))
    ensures r.ChunkThrew? && acknowledged ==>
              env.next == old(env.next) + 2 && env.script[old(env.next) + 1].statementFails
    ensures r.Stored? ==> r.range == chunk.range && r.chunkSize == chunk.chunkSize && env.next == old(env.next) + 2
    ensures r.ChunkCut? ==> env.next == |env.script|
    ensures r.ChunkThrew? ==> RunExcused(env, old(env.next), o.maxRetries, found.dishonest, r.error)
  {
    ghost var t := db.Snapshot();
    r, acknowledged, committed := StoreChunk(env, db, o.scope, chunk);
    if committed {
      RunStateStep(env.world, o, found.tables, before, t, chunk, db.Snapshot());
    }
    if r == ChunkThrew(StoredBlockHashDrift) {
      DriftMeansDishonest(env.world, o, found.tables, before, t, chunk);
    }
  }

  lemma StopsBehindChunk(script: seq<Turn>, at: nat, next: nat, c: Chunk, acknowledged: bool, nextBlock: int,
                         r: ChunkResult)
    requires next <= |script| && (nextBlock > c.range.toBlock ==> acknowledged)
    requires r.ChunkThrew? && acknowledged ==> next == at + 2 && script[at + 1].statementFails
    ensures r.ChunkThrew? ==> StopsBehindEnd(script, next, c.range.toBlock, nextBlock)
  {
  }

  /** Stores the chunk fetched since turn `from`, whose logs turn `turn` brought. */
  method StoreFetched(env: Environment, db: IndexerDatabase, o: IngestOptions, chunk: Chunk, ghost found: Found,
                      ghost before: seq<Chunk>, ghost served: seq<nat>, ghost from: nat, ghost turn: nat)
    returns (r: ChunkResult, nextBlock: int, ghost committed: bool)
    requires env.Valid() && ValidWorld(env.world)
    requires RunState(env.world, o, found.tables, before, db.Snapshot())
    requires IsNextChunk(env.world, o, found.start, before, chunk)
    requires UpToDate(env.script, o, found.first, before, served, from) && env.next == CommitTurn(turn, chunk)
    requires FetchedOver(env.script, o, from, turn, chunk, SizeAfter(before, o.chunkSize))
    requires IsFound(env.world, o, found)
    modifies env`next, db
    ensures env.Valid() && old(env.next) <= env.next <= old(env.next) + 2
    ensures RunState(env.world, o, found.tables, With(before, chunk, committed), db.Snapshot())
    ensures RunTurns(env.script, o, found.first, With(before, chunk, committed), With(served, turn, committed))
    ensures chunk.range.fromBlock <= nextBlock <= chunk.range.toBlock + 1
    ensures nextBlock > chunk.range.fromBlock ==> committed
    ensures Reports(env.script, o, found.first, With(before, chunk, committed), With(served, turn, committed), env.next,
                    found.start, nextBlock, chunk.chunkSize)
    ensures r.Stored? ==>
              && committed && UpToDate(env.script, o, found.first, before + [chunk], served + [turn], env.next)
              && r.range == chunk.range && nextBlock == chunk.range.toBlock + 1
    ensures r.ChunkCut? ==> env.next == |env.script|
    ensures r.ChunkThrew? ==> StopsBehindEnd(env.script, env.next, chunk.range.toBlock, nextBlock)
    ensures r.ChunkThrew? ==> RunExcused(env, old(env.next), o.maxRetries, found.dishonest, r.error)
  {
    var acknowledged;
    ghost var at := env.next;
    r, acknowledged, committed := StoreInRun(env, db, o, chunk, found, before);
    nextBlock := if acknowledged then chunk.range.toBlock + 1 else chunk.range.fromBlock;
    StopsBehindChunk(env.script, at, env.next, chunk, acknowledged, nextBlock, r);
    TurnsAfterChunk(env.script, o, found.first, before, served, from, chunk, turn, env.next, found.start, committed,
                    nextBlock);
  }

  /** A range served in full size within a planned one is of full size within the request. */
  lemma NextChunkFits(world: World, o: IngestOptions, start: int, before: seq<Chunk>, planned: BlockRange, size: int,
                      c: Chunk)
    requires ExactChunk(world, o.scope, c) && AnchorBelongs(o, c, |before|)
    requires c.range.fromBlock == planned.fromBlock == EndOf(before, start) <= o.toBlock
    requires 1 <= c.chunkSize <= size == SizeAfter(before, o.chunkSize)
    requires FullSized(planned, size, o.toBlock) && FullSized(c.range, c.chunkSize, planned.toBlock)
    ensures IsNextChunk(world, o, start, before, c)
    ensures c.range.toBlock <= planned.toBlock
    ensures c.range.toBlock == planned.toBlock < o.toBlock ==> c.chunkSize == size
  {
  }

  /** Awaits one planned range and stores what came back. */
  method ConsumeOne(env: Environment, db: IndexerDatabase, o: IngestOptions, planned: BlockRange, batchSize: int,
                    chunksDone: nat, ghost found: Found, ghost before: seq<Chunk>, ghost served: seq<nat>)
    returns (stored: ChunkResult, nextBlock: int, activeChunkSize: int, ghost trace: seq<Chunk>, ghost taken: seq<nat>)
    requires env.Valid() && ValidWorld(env.world) && RunState(env.world, o, found.tables, before, db.Snapshot())
    requires UpToDate(env.script, o, found.first, before, served, env.next)
    requires 1 <= batchSize == SizeAfter(before, o.chunkSize) && chunksDone == |before|
    requires 0 <= planned.fromBlock == EndOf(before, found.start) <= o.toBlock
    requires FullSized(planned, batchSize, o.toBlock) && IsFound(env.world, o, found)
    modifies env`next, db
    ensures env.Valid() && old(env.next) <= env.next
    ensures RunState(env.world, o, found.tables, trace, db.Snapshot())
    ensures RunTurns(env.script, o, found.first, trace, taken)
    ensures planned.fromBlock <= nextBlock <= planned.toBlock + 1 && nextBlock <= EndOf(trace, found.start)
    ensures activeChunkSize <= batchSize
    ensures stored.Stored? ==>
              && UpToDate(env.script, o, found.first, trace, taken, env.next)
              && |trace| == |before| + 1 && planned.fromBlock <= stored.range.toBlock <= planned.toBlock
              && nextBlock == EndOf(trace, found.start) == stored.range.toBlock + 1
              && 1 <= activeChunkSize == SizeAfter(trace, o.chunkSize)
              && (stored.range.toBlock == planned.toBlock < o.toBlock ==> activeChunkSize == batchSize)
    ensures !stored.Stored? ==>
              Reports(env.script, o, found.first, trace, taken, env.next, found.start, nextBlock, activeChunkSize)
    ensures stored.ChunkCut? ==> env.next == |env.script|
    ensures stored.ChunkThrew? ==>
              && RunExcused(env, old(env.next), o.maxRetries, found.dishonest, stored.error)
              && StopsBehindEnd(env.script, env.next, o.toBlock, nextBlock)
    ensures Paced(env.script, old(env.next), env.next, 5)
  {
    ghost var from := env.next;
    trace, taken, nextBlock := before, served, planned.fromBlock;
    var fetched;
    ghost var turn;
    fetched, turn := FetchChunk(env, o, planned, batchSize, chunksDone);
    if fetched.NotReady? {
      stored, activeChunkSize := fetched.result, fetched.chunkSize;
      ReportsBefore(env.script, o, found.first, before, served, from, env.next, found.start, activeChunkSize);
      return;
    }
    activeChunkSize := fetched.chunk.chunkSize;
    NextChunkFits(env.world, o, found.start, before, planned, batchSize, fetched.chunk);
    ghost var at := env.next;
    ghost var committed: bool;
    stored, nextBlock, committed :=
      StoreFetched(env, db, o, fetched.chunk, found, before, served, from, turn);
    StoredLater(env, from, at, o.maxRetries, found.dishonest, stored);
    trace, taken := With(before, fetched.chunk, committed), With(served, turn, committed);
  }

  lemma RunExcusedEarlier(env: Environment, from: nat, at: nat, retries: nat, dishonest: bool, e: RunError)
    requires env.Valid() && from <= at && RunExcused(env, at, retries, dishonest, e)
    ensures RunExcused(env, from, retries, dishonest, e)
  {
    if Earned(env.script, at, env.next, retries, e) {
      EarnedEarlier(env.script, from, at, env.next, retries, e);
    }
  }

  lemma StoredLater(env: Environment, from: nat, at: nat, retries: nat, dishonest: bool, r: ChunkResult)
    requires env.Valid() && from <= at <= env.next <= at + 2 && Paced(env.script, from, at, 3)
    requires r.ChunkThrew? ==> RunExcused(env, at, retries, dishonest, r.error)
    ensures Paced(env.script, from, env.next, 5)
    ensures r.ChunkThrew? ==> RunExcused(env, from, retries, dishonest, r.error)
  {
    FewTurnsArePaced(env.script, at, env.next, 2);
    PacedOn(env.script, from, at, env.next, 3, 2);
    if r.ChunkThrew? {
      RunExcusedEarlier(env, from, at, retries, dishonest, r.error);
    }
  }

  /** How a run's work may stop: killed with no turn left, interrupted by the signal, or throwing what it may. */
  ghost predicate StopsRightly(env: Environment, from: nat, retries: nat, dishonest: bool, outcome: RunOutcome)
    reads env
    requires env.Valid()
  {
    match outcome
    case Killed => env.next == |env.script|
    case Interrupted(_, _) => env.Aborted()
    case Threw(e) => !env.Aborted() && RunExcused(env, from, retries, dishonest, e)
    case _ => false
  }

  lemma StoppedRightly(env: Environment, from: nat, retries: nat, dishonest: bool, r: ChunkResult, nextBlock: int,
                       chunkSize: int)
    requires env.Valid() && !r.Stored?
    requires r.ChunkCut? ==> env.next == |env.script|
    requires r.ChunkThrew? ==> RunExcused(env, from, retries, dishonest, r.error)
    ensures StopsRightly(env, from, retries, dishonest, Stopped(r, env.Aborted(), nextBlock, chunkSize))
  {
  }

  /** Consumes one result; `cutShort` says that its range came back shorter than planned. */
  method ConsumeNext(env: Environment, db: IndexerDatabase, o: IngestOptions, planned: BlockRange, batchSize: int,
                     chunksDone: nat, ghost found: Found, ghost before: seq<Chunk>, ghost served: seq<nat>)
    returns (stop: Option<RunOutcome>, nextBlock: int, activeChunkSize: int, cutShort: bool, ghost trace: seq<Chunk>,
             ghost taken: seq<nat>)
    requires env.Valid() && ValidWorld(env.world) && RunState(env.world, o, found.tables, before, db.Snapshot())
    requires UpToDate(env.script, o, found.first, before, served, env.next)
    requires 1 <= batchSize == SizeAfter(before, o.chunkSize) && chunksDone == |before|
    requires 0 <= planned.fromBlock == EndOf(before, found.start) <= o.toBlock
    requires FullSized(planned, batchSize, o.toBlock)
    requires Paced(env.script, found.first, env.next, 5 * (planned.fromBlock - found.start))
    requires IsFound(env.world, o, found)
    modifies env`next, db
    ensures env.Valid() && old(env.next) <= env.next
    ensures Paced(env.script, found.first, env.next, 5 * (planned.fromBlock - found.start) + 5)
    ensures RunState(env.world, o, found.tables, trace, db.Snapshot())
    ensures RunTurns(env.script, o, found.first, trace, taken)
    ensures planned.fromBlock <= nextBlock <= planned.toBlock + 1 && nextBlock <= EndOf(trace, found.start)
    ensures stop.None? ==>
              && UpToDate(env.script, o, found.first, trace, taken, env.next)
              && |trace| == |before| + 1 && planned.fromBlock < nextBlock == EndOf(trace, found.start)
              && 1 <= activeChunkSize == SizeAfter(trace, o.chunkSize) <= batchSize
              && (!cutShort ==> nextBlock == planned.toBlock + 1)
              && (!cutShort && planned.toBlock < o.toBlock ==> activeChunkSize == batchSize)
    ensures stop.Some? ==> StopsRightly(env, found.first, o.maxRetries, found.dishonest, stop.value)
    ensures stop.Some? && stop.value.Interrupted? ==>
              && stop.value.nextBlock == nextBlock && stop.value.chunkSize <= batchSize
              && StopsBehindEnd(env.script, env.next, o.toBlock, nextBlock)
              && Reports(env.script, o, found.first, trace, taken, env.next, found.start, nextBlock,
                         stop.value.chunkSize)
  {
    var stored;
    ghost var from := env.next;
    stored, nextBlock, activeChunkSize, trace, taken :=
      ConsumeOne(env, db, o, planned, batchSize, chunksDone, found, before, served);
    PacedOn(env.script, found.first, from, env.next, 5 * (planned.fromBlock - found.start), 5);
    stop, cutShort := None, false;
    if stored.Stored? {
      cutShort := stored.range.toBlock != planned.toBlock;
    } else {
      LaterExcuse(env, found.first, from, o.maxRetries, found.dishonest, stored);
      StoppedRightly(env, found.first, o.maxRetries, found.dishonest, stored, nextBlock, activeChunkSize);
      stop := Some(Stopped(stored, env.Aborted(), nextBlock, activeChunkSize));
    }
  }

  lemma LaterExcuse(env: Environment, from: nat, at: nat, retries: nat, dishonest: bool, r: ChunkResult)
    requires env.Valid() && from <= at
    requires r.ChunkThrew? ==> RunExcused(env, at, retries, dishonest, r.error)
    ensures r.ChunkThrew? ==> RunExcused(env, from, retries, dishonest, r.error)
  {
    if r.ChunkThrew? {
      RunExcusedEarlier(env, from, at, retries, dishonest, r.error);
    }
  }

  /** Consumes a batch's results in order; stops the batch when a range came back shorter than planned. */
  method ConsumeBatch(env: Environment, db: IndexerDatabase, o: IngestOptions, planned: seq<BlockRange>,
                      batchSize: int, chunksBefore: nat, ghost found: Found, ghost before: seq<Chunk>,
                      ghost served: seq<nat>)
    returns (stop: Option<RunOutcome>, nextBlock: int, activeChunkSize: int, chunksDone: nat, ghost trace: seq<Chunk>,
             ghost taken: seq<nat>)
    requires env.Valid() && ValidWorld(env.world) && RunState(env.world, o, found.tables, before, db.Snapshot())
    requires UpToDate(env.script, o, found.first, before, served, env.next)
    requires 1 <= batchSize == SizeAfter(before, o.chunkSize) && planned != [] && chunksBefore == |before|
    requires 0 <= EndOf(before, found.start) && IsBatch(planned, EndOf(before, found.start), o.toBlock, batchSize)
    requires Paced(env.script, found.first, env.next, 5 * (EndOf(before, found.start) - found.start))
    requires IsFound(env.world, o, found)
    modifies env`next, db
    ensures env.Valid() && old(env.next) <= env.next
    ensures RunState(env.world, o, found.tables, trace, db.Snapshot())
    ensures RunTurns(env.script, o, found.first, trace, taken)
    ensures EndOf(before, found.start) <= nextBlock <= o.toBlock + 1 && nextBlock <= EndOf(trace, found.start)
    ensures stop.None? ==>
              && UpToDate(env.script, o, found.first, trace, taken, env.next)
              && nextBlock == EndOf(trace, found.start) > EndOf(before, found.start)
              && 1 <= activeChunkSize == SizeAfter(trace, o.chunkSize) <= batchSize && chunksDone == |trace| > 0
    ensures stop.Some? ==> StopsRightly(env, found.first, o.maxRetries, found.dishonest, stop.value)
    ensures stop.Some? && stop.value.Interrupted? ==>
              && stop.value.nextBlock == nextBlock && stop.value.chunkSize <= batchSize
              && StopsBehindEnd(env.script, env.next, o.toBlock, nextBlock)
              && Reports(env.script, o, found.first, trace, taken, env.next, found.start, nextBlock,
                         stop.value.chunkSize)
    ensures Paced(env.script, found.first, env.next, 5 * (nextBlock - found.start) + if stop.Some? then 5 else 0)
  {
    nextBlock, activeChunkSize, chunksDone, trace, stop := planned[0].fromBlock, batchSize, chunksBefore, before, None;
    taken := served;
    var index := 0;
    while index < |planned|
      invariant env.Valid() && old(env.next) <= env.next && 0 <= index <= |planned| && stop.None?
      invariant RunState(env.world, o, found.tables, trace, db.Snapshot())
      invariant UpToDate(env.script, o, found.first, trace, taken, env.next)
      invariant index > 0 ==> trace != [] && nextBlock > EndOf(before, found.start)
      invariant chunksDone == |trace|
      invariant 0 <= EndOf(before, found.start) <= nextBlock == EndOf(trace, found.start) <= o.toBlock + 1
      invariant 1 <= activeChunkSize == SizeAfter(trace, o.chunkSize) <= batchSize
      invariant index < |planned| ==> nextBlock == planned[index].fromBlock && activeChunkSize == batchSize
      invariant Paced(env.script, found.first, env.next, 5 * (nextBlock - found.start))
    {
      var cutShort;
      stop, nextBlock, activeChunkSize, cutShort, trace, taken :=
        ConsumeNext(env, db, o, planned[index], batchSize, chunksDone, found, trace, taken);
      if stop.Some? {
        return;
      }
      chunksDone := chunksDone + 1;
      if cutShort {
        return;
      }
      index := index + 1;
    }
  }

  function Stopped(r: ChunkResult, aborted: bool, nextBlock: int, chunkSize: int): RunOutcome {
    if r.ChunkThrew? then Caught(r.error, aborted, nextBlock, chunkSize) else Killed
  }

  // The run.

  predicate CheckpointDrifted(world: World, t: Tables, scope: Scope) {
    && scope in t.checkpoints && t.checkpoints[scope].lastCompleted.Some?
    && var anchor := t.checkpoints[scope].lastCompleted.value;
       world.blockAt(anchor.number).hash != anchor.hash
  }

  /** Why a run may throw before its work begins. */
  ghost predicate RefusedRightly(env: Environment, from: nat, o: IngestOptions, t0: Tables, e: RunError)
    reads env
    requires env.Valid()
  {
    || Earned(env.script, from, env.next, o.maxRetries, e)
    || (e == BeyondFinalizedHead && from < |env.script| && o.toBlock > env.script[from].height)
    || (e == BadPlan(RangeReversed) && o.fromBlock > o.toBlock)
    || (e == CheckpointHashDrift && CheckpointDrifted(env.world, t0, o.scope))
  }

  function LastCompleted(t: Tables, scope: Scope): Option<Anchor> {
    if scope in t.checkpoints then t.checkpoints[scope].lastCompleted else None
  }

  /** The turn after a run's checks: one for the head, and one more to compare a stored anchor's hash. */
  function CheckedBy(from: nat, t0: Tables, scope: Scope): nat {
    from + if LastCompleted(t0, scope).Some? then 2 else 1
  }

  predicate HeadReaches(script: seq<Turn>, from: nat, toBlock: int) {
    from < |script| && script[from].failure.None? && toBlock <= script[from].height
  }

  /** The checks were answered and all passed. */
  predicate ChecksPass(script: seq<Turn>, world: World, from: nat, o: IngestOptions, t0: Tables) {
    && HeadReaches(script, from, o.toBlock) && o.fromBlock <= o.toBlock
    && (LastCompleted(t0, o.scope).Some? ==>
          && from + 1 < |script| && script[from + 1].failure.None?
          && LastCompleted(t0, o.scope).value.hash == world.blockAt(LastCompleted(t0, o.scope).value.number).hash)
  }

  /** Each refusal comes exactly under its own condition, the earlier check first. */
  predicate RefusesExactly(script: seq<Turn>, world: World, from: nat, o: IngestOptions, t0: Tables,
                           outcome: RunOutcome)
  {
    && (outcome == Threw(BeyondFinalizedHead) <==>
          from < |script| && script[from].failure.None? && o.toBlock > script[from].height)
    && (outcome == Threw(BadPlan(RangeReversed)) <==>
          HeadReaches(script, from, o.toBlock) && o.fromBlock > o.toBlock)
    && (outcome == Threw(CheckpointHashDrift) <==>
          && HeadReaches(script, from, o.toBlock) && o.fromBlock <= o.toBlock
          && from + 1 < |script| && script[from + 1].failure.None? && CheckpointDrifted(world, t0, o.scope))
  }

  /** The checks before a run writes anything: head, request, checkpoint hash. */
  method CheckRun(env: Environment, db: IndexerDatabase, o: IngestOptions) returns (stop: Option<RunOutcome>)
    requires env.Valid()
    modifies env`next
    ensures env.Valid() && old(env.next) <= env.next <= old(env.next) + 2
    ensures stop.None? <==> ChecksPass(env.script, env.world, old(env.next), o, db.Snapshot())
    ensures stop.None? ==> env.next == CheckedBy(old(env.next), db.Snapshot(), o.scope)
    ensures stop.Some? ==> RefusesExactly(env.script, env.world, old(env.next), o, db.Snapshot(), stop.value)
    ensures stop.Some? ==> stop.value.Killed? || stop.value.Threw?
    ensures stop == Some(Killed) ==> env.next == |env.script|
    ensures stop.Some? && stop.value.Threw? ==> RefusedRightly(env, old(env.next), o, db.Snapshot(), stop.value.error)
  {
    var turn := env.Next();
    if turn.None? {
      return Some(Killed);
    }
    if turn.value.failure.Some? {
      assert Blames(env.script[env.next - 1], ErrorOf(turn.value.failure.value));
      return Some(Threw(ErrorOf(turn.value.failure.value)));
    }
    if o.toBlock > turn.value.height {
      return Some(Threw(BeyondFinalizedHead));
    }
    if o.fromBlock > o.toBlock {
      return Some(Threw(BadPlan(RangeReversed)));
    }
    if o.scope in db.checkpoints && db.checkpoints[o.scope].lastCompleted.Some? {
      var anchor := db.checkpoints[o.scope].lastCompleted.value;
      turn := env.Next();
      if turn.None? {
        return Some(Killed);
      }
      if turn.value.failure.Some? {
        assert Blames(env.script[env.next - 1], ErrorOf(turn.value.failure.value));
        return Some(Threw(ErrorOf(turn.value.failure.value)));
      }
      if env.world.blockAt(anchor.number).hash != anchor.hash {
        return Some(Threw(CheckpointHashDrift));
      }
    }
    return None;
  }

  /** The run's outer loop: plans, prefetches and consumes batches until the request's end. */
  method RunBatches(env: Environment, db: IndexerDatabase, o: IngestOptions, start: int)
    returns (stop: Option<RunOutcome>, nextBlock: int, activeChunkSize: int, ghost trace: seq<Chunk>,
             ghost served: seq<nat>)
    requires env.Valid() && ValidWorld(env.world) && 0 <= start == StartOf(o, db.Snapshot()) <= o.toBlock
    modifies env`next, db
    ensures env.Valid() && old(env.next) <= env.next
    ensures RunState(env.world, o, old(db.Snapshot()), trace, db.Snapshot())
    ensures RunTurns(env.script, o, old(env.next), trace, served)
    ensures stop.None? ==>
              && UpToDate(env.script, o, old(env.next), trace, served, env.next)
              && trace != [] && nextBlock == EndOf(trace, start) == o.toBlock + 1
              && activeChunkSize == SizeAfter(trace, o.chunkSize) <= o.chunkSize
    ensures old(env.Aborted()) ==> stop == Some(Interrupted(start, o.chunkSize)) && env.next == old(env.next)
    ensures !old(env.Aborted()) && o.chunkSize < 1 ==>
              stop == Some(Threw(BadPlan(ChunkSizeNotPositive))) && env.next == old(env.next)
    ensures stop.Some? && o.chunkSize >= 1 ==>
              StopsRightly(env, old(env.next), o.maxRetries, !Evidence(env.world, old(db.Snapshot())), stop.value)
    ensures stop.Some? && stop.value.Interrupted? ==>
              && stop.value.chunkSize <= o.chunkSize && start <= stop.value.nextBlock <= EndOf(trace, start)
              && StopsBehindEnd(env.script, env.next, o.toBlock, stop.value.nextBlock)
              && Reports(env.script, o, old(env.next), trace, served, env.next, start, stop.value.nextBlock,
                         stop.value.chunkSize)
    ensures Paced(env.script, old(env.next), env.next, 5 * (o.toBlock + 1 - start) + 5)
  {
    nextBlock, activeChunkSize, trace, served, stop := start, o.chunkSize, [], [], None;
    var chunksDone := 0;
    ghost var t0, from := db.Snapshot(), env.next;
    ghost var found := Found(t0, !Evidence(env.world, t0), start, from);
    while nextBlock <= o.toBlock
      invariant env.Valid() && from <= env.next && stop.None? && RunState(env.world, o, t0, trace, db.Snapshot())
      invariant old(env.Aborted()) ==>
                  env.next == from && trace == [] && nextBlock == start && activeChunkSize == o.chunkSize
      invariant start <= nextBlock == EndOf(trace, start) <= o.toBlock + 1
      invariant activeChunkSize == SizeAfter(trace, o.chunkSize) <= o.chunkSize
      invariant trace != [] ==> activeChunkSize >= 1
      invariant chunksDone == |trace| && UpToDate(env.script, o, from, trace, served, env.next)
      invariant trace == [] ==> env.next == from && nextBlock == start
      invariant Paced(env.script, from, env.next, 5 * (nextBlock - start))
      decreases o.toBlock - nextBlock
    {
      if env.Aborted() {
        ReportsBefore(env.script, o, from, trace, served, env.next, env.next, start, activeChunkSize);
        stop := Some(Interrupted(nextBlock, activeChunkSize));
        return;
      }
      var batch := PlanBatch(nextBlock, o.toBlock, activeChunkSize, o.fetchConcurrency);
      if batch.Failure? {
        stop := Some(Caught(BadPlan(batch.error), env.Aborted(), nextBlock, activeChunkSize));
        return;
      }
      stop, nextBlock, activeChunkSize, chunksDone, trace, served :=
        ConsumeBatch(env, db, o, batch.value, activeChunkSize, chunksDone, found, trace, served);
      if stop.Some? {
        return;
      }
    }
  }

  /** Why a run may throw once it has begun its work. */
  ghost predicate WorkThrowsRightly(env: Environment, from: nat, o: IngestOptions, t0: Tables, e: RunError)
    reads env
    requires env.Valid()
  {
    || Earned(env.script, from, env.next, o.maxRetries, e)
    || (e == BadPlan(ChunkSizeNotPositive) && o.chunkSize < 1)
    || (e == StoredBlockHashDrift && !Evidence(env.world, t0))
  }

  /** Why a run may throw. */
  ghost predicate ThrowsRightly(env: Environment, from: nat, o: IngestOptions, t0: Tables, e: RunError)
    reads env
    requires env.Valid()
  {
    RefusedRightly(env, from, o, t0, e) || WorkThrowsRightly(env, from, o, t0, e)
  }

  lemma LaterThrow(env: Environment, from: nat, at: nat, o: IngestOptions, t0: Tables, e: RunError)
    requires env.Valid() && from <= at && WorkThrowsRightly(env, at, o, t0, e)
    ensures WorkThrowsRightly(env, from, o, t0, e)
  {
    if Earned(env.script, at, env.next, o.maxRetries, e) {
      EarnedEarlier(env.script, from, at, env.next, o.maxRetries, e);
    }
  }

  lemma WorkStops(env: Environment, from: nat, o: IngestOptions, t0: Tables, stop: RunOutcome)
    requires env.Valid()
    requires o.chunkSize >= 1 ==> StopsRightly(env, from, o.maxRetries, !Evidence(env.world, t0), stop)
    requires o.chunkSize < 1 ==>
               || (stop.Interrupted? && env.Aborted())
               || (stop == Threw(BadPlan(ChunkSizeNotPositive)) && !env.Aborted())
    ensures stop.Threw? ==> !env.Aborted() && WorkThrowsRightly(env, from, o, t0, stop.error)
    ensures stop.Interrupted? ==> env.Aborted()
    ensures stop.Killed? ==> env.next == |env.script|
    ensures stop.Threw? || stop.Interrupted? || stop.Killed?
  {
  }

  /** The turns from `first` on served the trace's chunks without any failure but of requests for logs, and the last one
      closed the run record. */
  ghost predicate ClosesRun(script: seq<Turn>, o: IngestOptions, first: nat, trace: seq<Chunk>, served: seq<nat>,
                            next: nat)
  {
    && 0 < next <= |script| && UpToDate(script, o, first, trace, served, next - 1) && !script[next - 1].statementFails
  }

  /** The batches, then the last update of the run record, whose failure the run's handler catches. */
  method FinishRun(env: Environment, db: IndexerDatabase, o: IngestOptions, start: int)
    returns (outcome: RunOutcome, ghost trace: seq<Chunk>, ghost served: seq<nat>)
    requires env.Valid() && ValidWorld(env.world) && 0 <= start == StartOf(o, db.Snapshot()) <= o.toBlock
    modifies env`next, db
    ensures env.Valid() && old(env.next) <= env.next && !outcome.Noop?
    ensures RunState(env.world, o, old(db.Snapshot()), trace, db.Snapshot())
    ensures RunTurns(env.script, o, old(env.next), trace, served)
    ensures outcome.Completed? ==>
              && trace != [] && outcome.nextBlock == EndOf(trace, start) == o.toBlock + 1
              && outcome.chunkSize == SizeAfter(trace, o.chunkSize)
              && ClosesRun(env.script, o, old(env.next), trace, served, env.next)
    ensures outcome.Interrupted? ==>
              && env.Aborted() && outcome.chunkSize <= o.chunkSize && start <= outcome.nextBlock <= EndOf(trace, start)
              && StopsBehindEnd(env.script, env.next, o.toBlock, outcome.nextBlock)
              && Reports(env.script, o, old(env.next), trace, served, env.next, start, outcome.nextBlock,
                         outcome.chunkSize)
    ensures outcome.Killed? ==> env.next == |env.script|
    ensures outcome.Threw? ==>
              !env.Aborted() && WorkThrowsRightly(env, old(env.next), o, old(db.Snapshot()), outcome.error)
    ensures Paced(env.script, old(env.next), env.next, 5 * (o.toBlock + 1 - start) + 6)
  {
    ghost var from, t0 := env.next, db.Snapshot();
    var stop, nextBlock, activeChunkSize;
    stop, nextBlock, activeChunkSize, trace, served := RunBatches(env, db, o, start);
    if stop.Some? {
      WorkStops(env, from, o, t0, stop.value);
      outcome := stop.value;
      return;
    }
    ghost var at := env.next;
    var turn := env.Next();
    FewTurnsArePaced(env.script, at, env.next, 1);
    PacedOn(env.script, from, at, env.next, 5 * (o.toBlock + 1 - start) + 5, 1);
    if turn.None? {
      outcome := Killed;
      return;
    }
    if turn.value.statementFails {
      assert Blames(env.script[env.next - 1], StoreFailed);
      ReportsBefore(env.script, o, from, trace, served, at, env.next, start, activeChunkSize);
      outcome := Caught(StoreFailed, env.Aborted(), nextBlock, activeChunkSize);
      return;
    }
    outcome := Completed(nextBlock, activeChunkSize);
  }

  /** The serving turns that a run takes at most when nothing but requests for logs fails. */
  function TurnsNeeded(o: IngestOptions): nat
    requires o.fromBlock <= o.toBlock
  {
    5 * (o.toBlock + 1 - o.fromBlock) + 10
  }

  /** Nothing stands in the way of a run that begins at turn `from`: a request in order within the head, honest
      tables, no signal, and enough serving turns, with no more failed requests for logs in a row than retries. */
  ghost predicate Unobstructed(env: Environment, from: nat, o: IngestOptions, t0: Tables) {
    && from < |env.script| && Passable(env.script, from, o.maxRetries)
    && !AbortedBy(env.script, env.abortedAtStart, from)
    && o.chunkSize >= 1 && o.fromBlock <= o.toBlock && Serving(env.script, from, |env.script|) >= TurnsNeeded(o)
    && env.script[from].height >= o.toBlock && Evidence(env.world, t0)
  }

  /** A run that stops only for reasons, and takes no more turns than it needs, finishes when there is no reason. */
  lemma UnobstructedFinishes(env: Environment, from: nat, o: IngestOptions, t0: Tables, outcome: RunOutcome)
    requires env.Valid() && from <= env.next && Unobstructed(env, from, o, t0)
    requires outcome.Killed? ==> env.next == |env.script|
    requires outcome.Interrupted? ==> env.Aborted()
    requires outcome.Threw? ==> ThrowsRightly(env, from, o, t0, outcome.error)
    requires Paced(env.script, from, env.next, TurnsNeeded(o) - 1)
    ensures outcome.Noop? || outcome.Completed?
  {
    if outcome.Threw? {
      PassableEarnsNothing(env.script, from, env.next, o.maxRetries, outcome.error);
    }
  }

  /** The turn of a run's first request for logs: after its checks and the new run record. */
  function FirstFetch(from: nat, t0: Tables, scope: Scope): nat { CheckedBy(from, t0, scope) + 1 }

  /** The run's checks passed and its record was written. */
  ghost predicate Begins(env: Environment, from: nat, o: IngestOptions, t0: Tables)
    reads env
    requires env.Valid()
  {
    && ChecksPass(env.script, env.world, from, o, t0) && FirstFetch(from, t0, o.scope) <= env.next
    && !env.script[FirstFetch(from, t0, o.scope) - 1].statementFails
  }

  /** One ingestion run.  "Noop" and "completed" both mean the trace reaches past the requested end; "completed" also
      leaves the checkpoint and its anchor at that end.  Every chunk of the trace is accounted for by the turns it took
      from `first` on, with no failure passed over.  A run is refused or ends "noop" exactly under the stated
      conditions, is killed only at its last turn, is interrupted only by the signal and then says where it goes on, and
      throws only for a reason; an unobstructed run finishes. */
  method IngestLogs(env: Environment, db: IndexerDatabase, o: IngestOptions)
    returns (outcome: RunOutcome, ghost first: nat, ghost trace: seq<Chunk>, ghost served: seq<nat>)
    requires env.Valid() && ValidWorld(env.world)
    modifies env`next, env`runs, db
    ensures env.Valid() && old(env.next) <= env.next && env.runs == old(env.runs) + [RunRecord(o, outcome)]
    ensures first == FirstFetch(old(env.next), old(db.Snapshot()), o.scope)
    ensures RunState(env.world, o, old(db.Snapshot()), trace, db.Snapshot())
    ensures outcome.Noop? <==>
              && StartOf(o, old(db.Snapshot())) > o.toBlock
              && ChecksPass(env.script, env.world, old(env.next), o, old(db.Snapshot()))
    ensures outcome.Noop? ==> trace == [] && outcome.nextBlock == StartOf(o, old(db.Snapshot()))
    ensures RefusesExactly(env.script, env.world, old(env.next), o, old(db.Snapshot()), outcome)
    ensures RunTurns(env.script, o, first, trace, served)
    ensures trace != [] || outcome.Interrupted? ==> Begins(env, old(env.next), o, old(db.Snapshot()))
    ensures outcome.Completed? ==>
              && trace != [] && outcome.nextBlock == EndOf(trace, 0) == o.toBlock + 1
              && AnchoredAtEnd(env.world, o, db.Snapshot())
    ensures outcome.Completed? ==>
              && outcome.chunkSize == SizeAfter(trace, o.chunkSize)
              && ClosesRun(env.script, o, first, trace, served, env.next)
    ensures outcome.Interrupted? ==>
              && env.Aborted() && outcome.chunkSize <= o.chunkSize
              && StartOf(o, old(db.Snapshot())) <= outcome.nextBlock <= EndOf(trace, StartOf(o, old(db.Snapshot())))
              && StopsBehindEnd(env.script, env.next, o.toBlock, outcome.nextBlock)
              && Reports(env.script, o, first, trace, served, env.next,
                         StartOf(o, old(db.Snapshot())), outcome.nextBlock, outcome.chunkSize)
    ensures outcome.Killed? ==> env.next == |env.script|
    ensures outcome.Threw? ==> ThrowsRightly(env, old(env.next), o, old(db.Snapshot()), outcome.error)
    ensures outcome.Threw? && Begins(env, old(env.next), o, old(db.Snapshot())) ==> !env.Aborted()
    ensures Unobstructed(env, old(env.next), o, old(db.Snapshot())) ==> outcome.Noop? || outcome.Completed?
  {
    ghost var from, t0 := env.next, db.Snapshot();
    outcome, first, trace, served := RunOnce(env, db, o);
    if Unobstructed(env, from, o, t0) {
      UnobstructedFinishes(env, from, o, t0, outcome);
    }
    env.runs := env.runs + [RunRecord(o, outcome)];
  }

  /** What comes before a run's work: its checks, the resume point, the run record. */
  method BeginRun(env: Environment, db: IndexerDatabase, o: IngestOptions)
    returns (stop: Option<RunOutcome>, nextBlock: int)
    requires env.Valid()
    modifies env`next
    ensures env.Valid() && old(env.next) <= env.next <= old(env.next) + 3
    ensures stop.None? ==>
              && Begins(env, old(env.next), o, db.Snapshot())
              && env.next == FirstFetch(old(env.next), db.Snapshot(), o.scope)
              && nextBlock == StartOf(o, db.Snapshot()) <= o.toBlock
    ensures stop.Some? ==> RefusesExactly(env.script, env.world, old(env.next), o, db.Snapshot(), stop.value)
    ensures stop.Some? ==> stop.value.Killed? || stop.value.Threw? || stop == Some(Noop(StartOf(o, db.Snapshot())))
    ensures stop.Some? && stop.value.Noop? <==>
              && ChecksPass(env.script, env.world, old(env.next), o, db.Snapshot())
              && StartOf(o, db.Snapshot()) > o.toBlock
    ensures stop == Some(Killed) ==> env.next == |env.script|
    ensures stop.Some? && stop.value.Threw? ==>
              && ThrowsRightly(env, old(env.next), o, db.Snapshot(), stop.value.error)
              && !Begins(env, old(env.next), o, db.Snapshot())
  {
    stop := CheckRun(env, db, o);
    if stop.Some? {
      return stop, o.fromBlock;
    }
    nextBlock := if o.scope in db.checkpoints && db.checkpoints[o.scope].nextBlock > o.fromBlock
                 then db.checkpoints[o.scope].nextBlock else o.fromBlock;
    if nextBlock > o.toBlock {
      return Some(Noop(nextBlock)), nextBlock;
    }
    var turn := env.Next();
    if turn.None? {
      return Some(Killed), nextBlock;
    }
    if turn.value.statementFails {
      assert Blames(env.script[env.next - 1], StoreFailed);
      return Some(Threw(StoreFailed)), nextBlock;
    }
    return None, nextBlock;
  }

  lemma WorkIsNoRefusal(env: Environment, from: nat, at: nat, o: IngestOptions, t0: Tables, outcome: RunOutcome)
    requires env.Valid() && from <= at && ChecksPass(env.script, env.world, from, o, t0)
    requires outcome.Threw? ==> WorkThrowsRightly(env, at, o, t0, outcome.error)
    ensures RefusesExactly(env.script, env.world, from, o, t0, outcome)
    ensures outcome.Threw? ==> ThrowsRightly(env, from, o, t0, outcome.error)
  {
    if outcome.Threw? {
      LaterThrow(env, from, at, o, t0, outcome.error);
    }
  }

  method RunOnce(env: Environment, db: IndexerDatabase, o: IngestOptions)
    returns (outcome: RunOutcome, ghost first: nat, ghost trace: seq<Chunk>, ghost served: seq<nat>)
    requires env.Valid() && ValidWorld(env.world)
    modifies env`next, db
    ensures env.Valid() && old(env.next) <= env.next
    ensures first == FirstFetch(old(env.next), old(db.Snapshot()), o.scope)
    ensures RunState(env.world, o, old(db.Snapshot()), trace, db.Snapshot())
    ensures outcome.Noop? <==>
              && StartOf(o, old(db.Snapshot())) > o.toBlock
              && ChecksPass(env.script, env.world, old(env.next), o, old(db.Snapshot()))
    ensures outcome.Noop? ==> trace == [] && outcome.nextBlock == StartOf(o, old(db.Snapshot()))
    ensures RefusesExactly(env.script, env.world, old(env.next), o, old(db.Snapshot()), outcome)
    ensures RunTurns(env.script, o, first, trace, served)
    ensures trace != [] || outcome.Interrupted? ==> Begins(env, old(env.next), o, old(db.Snapshot()))
    ensures outcome.Completed? ==>
              && trace != [] && outcome.nextBlock == EndOf(trace, 0) == o.toBlock + 1
              && AnchoredAtEnd(env.world, o, db.Snapshot())
    ensures outcome.Completed? ==>
              && outcome.chunkSize == SizeAfter(trace, o.chunkSize)
              && ClosesRun(env.script, o, first, trace, served, env.next)
    ensures outcome.Interrupted? ==>
              && env.Aborted() && outcome.chunkSize <= o.chunkSize
              && StartOf(o, old(db.Snapshot())) <= outcome.nextBlock <= EndOf(trace, StartOf(o, old(db.Snapshot())))
              && StopsBehindEnd(env.script, env.next, o.toBlock, outcome.nextBlock)
              && Reports(env.script, o, first, trace, served, env.next,
                         StartOf(o, old(db.Snapshot())), outcome.nextBlock, outcome.chunkSize)
    ensures outcome.Killed? ==> env.next == |env.script|
    ensures outcome.Threw? ==> ThrowsRightly(env, old(env.next), o, old(db.Snapshot()), outcome.error)
    ensures outcome.Threw? && Begins(env, old(env.next), o, old(db.Snapshot())) ==> !env.Aborted()
    ensures o.fromBlock <= o.toBlock ==> Paced(env.script, old(env.next), env.next, TurnsNeeded(o) - 1)
  {
    ghost var from, t0 := env.next, db.Snapshot();
    first, trace, served := FirstFetch(from, t0, o.scope), [], [];
    var stop, nextBlock := BeginRun(env, db, o);
    ghost var at := env.next;
    FewTurnsArePaced(env.script, from, at, 3);
    if stop.Some? {
      outcome := stop.value;
      return;
    }
    outcome, trace, served := FinishRun(env, db, o, nextBlock);
    WorkIsNoRefusal(env, from, at, o, t0, outcome);
    PacedOn(env.script, from, at, env.next, 3, 5 * (o.toBlock + 1 - nextBlock) + 6);
  }

  // The anchor a run leaves behind.

  /** The checkpoint holds the trace's last anchor. */
  lemma {:induction false} LastAnchorIsKept(t0: Tables, decode: Log -> Option<Decoded>, scope: Scope, trace: seq<Chunk>,
                                            i: nat)
    requires i < |trace| && trace[i].anchor.Some? && forall j :: i < j < |trace| ==> trace[j].anchor.None?
    ensures LastCompleted(CommitAll(t0, decode, scope, trace), scope)
         == Some(Anchor(trace[i].anchor.value.number, trace[i].anchor.value.hash))
  {
    if i < |trace| - 1 {
      LastAnchorIsKept(t0, decode, scope, trace[..|trace| - 1], i);
    }
  }

  /** A trace without anchors leaves the earlier one. */
  lemma {:induction false} EarlierAnchorIsKept(t0: Tables, decode: Log -> Option<Decoded>, scope: Scope,
                                               trace: seq<Chunk>)
    requires forall i :: 0 <= i < |trace| ==> trace[i].anchor.None?
    ensures LastCompleted(CommitAll(t0, decode, scope, trace), scope) == LastCompleted(t0, scope)
  {
    if trace != [] {
      EarlierAnchorIsKept(t0, decode, scope, trace[..|trace| - 1]);
    }
  }

  lemma ProductsKeepOrder(a: int, b: int, c: nat)
    requires a <= b
    ensures a * c <= b * c
  {
  }

  /** Between a multiple and the next one there is no other. */
  lemma NoMultipleBetween(base: nat, n: nat, every: nat)
    requires every > 0 && base % every == 0 && base < n < base + every
    ensures n % every != 0
  {
    var p, q := base / every, n / every;
    assert base == p * every;
    if n % every == 0 {
      assert n == q * every;
      if q <= p {
        ProductsKeepOrder(q, p, every);
      } else {
        ProductsKeepOrder(p + 1, q, every);
      }
    }
  }

  lemma {:induction false} TraceEndsGrow(world: World, scope: Scope, start: int, toBlock: int, trace: seq<Chunk>,
                                         i: nat)
    requires RunTrace(world, scope, start, toBlock, trace) && i < |trace|
    ensures trace[i].range.toBlock < EndOf(trace, start)
    decreases |trace|
  {
    var n := |trace| - 1;
    if i < n {
      RunTracePrefix(world, scope, start, toBlock, trace, n);
      TraceEndsGrow(world, scope, start, toBlock, trace[..n], i);
    }
  }

  lemma NoAnchorSince(world: World, o: IngestOptions, trace: seq<Chunk>, start: int, filled: nat, i: nat)
    requires RunTrace(world, o.scope, start, o.toBlock, trace) && EndOf(trace, start) <= o.toBlock
    requires o.anchorEveryChunks > 0 && filled % o.anchorEveryChunks == 0
    requires filled <= i < |trace| < filled + o.anchorEveryChunks && AnchorBelongs(o, trace[i], i)
    ensures trace[i].anchor.None?
  {
    NoMultipleBetween(filled, i + 1, o.anchorEveryChunks);
    TraceEndsGrow(world, o.scope, start, o.toBlock, trace, i);
  }

  /** A run cut off before its end leaves the anchor of the last chunk that filled an interval, or the earlier anchor
      when none did. */
  lemma UnfinishedRunKeepsAnchor(world: World, o: IngestOptions, t0: Tables, trace: seq<Chunk>, t: Tables, filled: nat)
    requires RunState(world, o, t0, trace, t) && EndOf(trace, StartOf(o, t0)) <= o.toBlock
    requires o.anchorEveryChunks > 0 && filled % o.anchorEveryChunks == 0
    requires filled <= |trace| < filled + o.anchorEveryChunks
    ensures filled == 0 ==> LastCompleted(t, o.scope) == LastCompleted(t0, o.scope)
    ensures filled > 0 ==>
              && trace[filled - 1].range.toBlock >= 0
              && LastCompleted(t, o.scope) == Some(AnchorAt(world, trace[filled - 1].range.toBlock))
  {
    FittingChunksContinue(world, o, StartOf(o, t0), trace);
    forall i | filled <= i < |trace| ensures trace[i].anchor.None? {
      assert ChunkFits(world, o, StartOf(o, t0), trace, i);
      NoAnchorSince(world, o, trace, StartOf(o, t0), filled, i);
    }
    if filled == 0 {
      EarlierAnchorIsKept(t0, world.decode, o.scope, trace);
    } else {
      var c := trace[filled - 1];
      assert ChunkFits(world, o, StartOf(o, t0), trace, filled - 1);
      LastAnchorIsKept(t0, world.decode, o.scope, trace, filled - 1);
    }
  }

  // What finished runs guarantee.

  ghost predicate Scanned(trace: seq<Chunk>, b: int) { exists i :: 0 <= i < |trace| && Contains(trace[i].range, b) }

  lemma ScannedLast(trace: seq<Chunk>, b: int)
    requires trace != []
    ensures Scanned(trace, b) <==> Scanned(trace[..|trace| - 1], b) || Contains(trace[|trace| - 1].range, b)
  {
    var init := trace[..|trace| - 1];
    if Scanned(init, b) {
      var i :| 0 <= i < |init| && Contains(init[i].range, b);
      assert Contains(trace[i].range, b);
    }
    if Scanned(trace, b) {
      var i :| 0 <= i < |trace| && Contains(trace[i].range, b);
      if i < |init| {
        assert Contains(init[i].range, b);
      }
    }
  }

  lemma {:induction false} CommitAllCoverage(t: Tables, decode: Log -> Option<Decoded>, scope: Scope, trace: seq<Chunk>,
                                             b: int)
    ensures CoveredBy(CoverageOf(CommitAll(t, decode, scope, trace), scope), b)
       <==> CoveredBy(CoverageOf(t, scope), b) || Scanned(trace, b)
  {
    if trace != [] {
      var n := |trace| - 1;
      var before, after := CommitAll(t, decode, scope, trace[..n]), CommitAll(t, decode, scope, trace);
      CommitAllCoverage(t, decode, scope, trace[..n], b);
      ScannedLast(trace, b);
      assert CoverageOf(after, scope) == CoverageOf(before, scope) + {trace[n].range};
      if CoveredBy(CoverageOf(before, scope), b) {
        var r :| r in CoverageOf(before, scope) && Contains(r, b);
        assert r in CoverageOf(after, scope);
      }
      if Contains(trace[n].range, b) {
        assert trace[n].range in CoverageOf(after, scope);
      }
    }
  }

  lemma {:induction false} TraceTiles(world: World, scope: Scope, start: int, toBlock: int, trace: seq<Chunk>, b: int)
    requires RunTrace(world, scope, start, toBlock, trace)
    ensures EndOf(trace, start) >= start
    ensures Scanned(trace, b) <==> start <= b < EndOf(trace, start)
  {
    if trace != [] {
      var n := |trace| - 1;
      RunTracePrefix(world, scope, start, toBlock, trace, n);
      TraceTiles(world, scope, start, toBlock, trace[..n], b);
      ScannedLast(trace, b);
    }
  }

  /** A trace, of one run or of several providers' runs, that reaches past its end covers the whole request if and
      only if the blocks between the requested start and the resume point were covered when it began. */
  lemma FinishedRunCovers(world: World, o: IngestOptions, t0: Tables, trace: seq<Chunk>)
    requires RunTrace(world, o.scope, StartOf(o, t0), o.toBlock, trace) && EndOf(trace, StartOf(o, t0)) > o.toBlock
    ensures var t := CommitAll(t0, world.decode, o.scope, trace);
            CoverageComplete(CoverageOf(t, o.scope), o.fromBlock, o.toBlock) <==>
            forall b :: o.fromBlock <= b <= o.toBlock && b < StartOf(o, t0) ==> CoveredBy(CoverageOf(t0, o.scope), b)
  {
    var t := CommitAll(t0, world.decode, o.scope, trace);
    forall b | o.fromBlock <= b <= o.toBlock
      ensures CoveredBy(CoverageOf(t, o.scope), b) <==> b >= StartOf(o, t0) || CoveredBy(CoverageOf(t0, o.scope), b)
    {
      CommitAllCoverage(t0, world.decode, o.scope, trace, b);
      TraceTiles(world, o.scope, StartOf(o, t0), o.toBlock, trace, b);
    }
  }

  /** After any legal history, a run (failovers included) that asks for no earlier start than its scope's runs before
      it, and that ends "noop" or "completed", leaves its whole request covered and its stored evidence exact. */
  lemma FinishedRunIsExact(world: World, steps: seq<Step>, o: IngestOptions, trace: seq<Chunk>)
    requires ValidWorld(world) && Legal(world, EMPTY_TABLES, steps) && StartsNeverFall(steps)
    requires LatestStart(steps, o.scope).Some? ==> LatestStart(steps, o.scope).value <= o.fromBlock
    requires RunTrace(world, o.scope, StartOf(o, After(world, EMPTY_TABLES, steps)), o.toBlock, trace)
    requires EndOf(trace, StartOf(o, After(world, EMPTY_TABLES, steps))) > o.toBlock
    ensures var t := CommitAll(After(world, EMPTY_TABLES, steps), world.decode, o.scope, trace);
            && CoverageComplete(CoverageOf(t, o.scope), o.fromBlock, o.toBlock)
            && Exact(world, t, o.scope, Range(o.fromBlock, o.toBlock))
  {
    var t0 := After(world, EMPTY_TABLES, steps);
    GapFreeCheckpoint(world, steps, o.scope);
    EvidenceAlwaysHolds(world, steps);
    FinishedRunCovers(world, o, t0, trace);
    TraceKeepsEvidence(world, o.scope, StartOf(o, t0), o.toBlock, t0, trace);
    CompleteTablesAreExact(world, CommitAll(t0, world.decode, o.scope, trace), o.scope, Range(o.fromBlock, o.toBlock));
  }

  /** A request that starts below a finished one ends "noop" with its first blocks never scanned. */
  lemma SteppingBackLeavesGap(world: World, scope: Scope, c: Chunk)
    requires ExactChunk(world, scope, c) && c.range == Range(5, 5)
    ensures var t0 := CommitChunk(EMPTY_TABLES, world.decode, scope, c);
            var o := IngestOptions(scope, 0, 5, 1, 0, false, 0, 1, BlockFetchOptions(1, 1, 1));
            && RunState(world, o, t0, [], t0) && StartOf(o, t0) > o.toBlock
            && !CoverageComplete(CoverageOf(t0, scope), o.fromBlock, o.toBlock)
  {
    var t0 := CommitChunk(EMPTY_TABLES, world.decode, scope, c);
    assert CoverageOf(t0, scope) == {c.range};
    assert !CoveredBy(CoverageOf(t0, scope), 0);
  }

  // Runs are histories.

  function StepsOf(o: IngestOptions, trace: seq<Chunk>): seq<Step> {
    if trace == [] then [] else
      StepsOf(o, trace[..|trace| - 1]) + [Commit(o.scope, o.fromBlock, o.toBlock, trace[|trace| - 1])]
  }

  lemma LegalAppend(world: World, t: Tables, steps: seq<Step>, step: Step)
    requires Legal(world, t, steps) && Allowed(world, After(world, t, steps), step)
    ensures Legal(world, t, steps + [step])
    ensures After(world, t, steps + [step]) == ApplyStep(world, After(world, t, steps), step)
  {
    var longer := steps + [step];
    assert longer[..|steps|] == steps;
    forall i | 0 <= i < |longer| ensures Allowed(world, After(world, t, longer[..i]), longer[i]) {
      if i < |steps| {
        assert longer[..i] == steps[..i];
      }
    }
  }

  /** Every run's trace is a legal stretch of the store's history, so all history theorems hold at each of its
      states. */
  lemma {:induction false} RunIsLegalHistory(world: World, o: IngestOptions, t0: Tables, trace: seq<Chunk>)
    requires RunTrace(world, o.scope, StartOf(o, t0), o.toBlock, trace)
    ensures Legal(world, t0, StepsOf(o, trace))
    ensures After(world, t0, StepsOf(o, trace)) == CommitAll(t0, world.decode, o.scope, trace)
    ensures ResumeAt(CommitAll(t0, world.decode, o.scope, trace), o.scope, o.fromBlock) == EndOf(trace, StartOf(o, t0))
    ensures EndOf(trace, StartOf(o, t0)) >= StartOf(o, t0)
  {
    if trace != [] {
      var n := |trace| - 1;
      var init := trace[..n];
      RunTracePrefix(world, o.scope, StartOf(o, t0), o.toBlock, trace, n);
      RunIsLegalHistory(world, o, t0, init);
      LegalAppend(world, t0, StepsOf(o, init), Commit(o.scope, o.fromBlock, o.toBlock, trace[n]));
    }
  }

  // Provider failover.

  /** What the runs of one request leave behind, whichever providers they used. */
  ghost predicate Continued(world: World, o: IngestOptions, t0: Tables, trace: seq<Chunk>, t: Tables) {
    && RunTrace(world, o.scope, StartOf(o, t0), o.toBlock, trace)
    && t == CommitAll(t0, world.decode, o.scope, trace)
  }

  lemma QuotaIsEarned(env: Environment, from: nat, o: IngestOptions, t0: Tables)
    requires env.Valid() && ThrowsRightly(env, from, o, t0, QuotaExhausted)
    ensures Earned(env.script, from, env.next, o.maxRetries, QuotaExhausted)
  {
  }

  /** What one more run of the request, with whatever chunk size, adds to the runs before it. */
  lemma RunContinues(world: World, o: IngestOptions, chunkSize: int, t0: Tables, before: seq<Chunk>, t1: Tables,
                     more: seq<Chunk>, t2: Tables)
    requires Continued(world, o, t0, before, t1) && RunState(world, o.(chunkSize := chunkSize), t1, more, t2)
    ensures Continued(world, o, t0, before + more, t2)
    ensures EndOf(before + more, StartOf(o, t0)) == EndOf(more, StartOf(o, t1))
  {
    FittingChunksContinue(world, o.(chunkSize := chunkSize), StartOf(o, t1), more);
    TraceContinues(world, o, t0, before, t1, more);
  }

  /** One provider's run of the request, after the runs that left `before`. */
  method RunWithProvider(env: Environment, db: IndexerDatabase, o: IngestOptions, chunkSize: int, ghost t0: Tables,
                         ghost before: seq<Chunk>)
    returns (outcome: RunOutcome, ghost trace: seq<Chunk>)
    requires env.Valid() && ValidWorld(env.world) && Continued(env.world, o, t0, before, db.Snapshot())
    modifies env`next, env`runs, db
    ensures env.Valid() && old(env.next) <= env.next
    ensures env.runs == old(env.runs) + [RunRecord(o.(chunkSize := chunkSize), outcome)]
    ensures Continued(env.world, o, t0, trace, db.Snapshot())
    ensures outcome.Noop? || outcome.Completed? ==> outcome.nextBlock == EndOf(trace, StartOf(o, t0)) > o.toBlock
    ensures outcome.Killed? ==> env.next == |env.script|
    ensures outcome == Threw(QuotaExhausted) ==>
              Earned(env.script, old(env.next), env.next, o.maxRetries, QuotaExhausted)
  {
    ghost var t1 := db.Snapshot();
    ghost var continued;
    ghost var from := env.next;
    ghost var first, served;
    outcome, first, continued, served := IngestLogs(env, db, o.(chunkSize := chunkSize));
    RunContinues(env.world, o, chunkSize, t0, before, t1, continued, db.Snapshot());
    trace := before + continued;
    if outcome == Threw(QuotaExhausted) {
      QuotaIsEarned(env, from, o.(chunkSize := chunkSize), t1);
    }
  }

  /** The first runs of one request, one for each provider in turn. */
  ghost predicate AskedInTurn(runs: seq<RunRecord>, o: IngestOptions, providerChunkSizes: seq<int>) {
    && |runs| <= |providerChunkSizes|
    && forall i :: 0 <= i < |runs| ==> runs[i].options == o.(chunkSize := providerChunkSizes[i])
  }

  ghost predicate AllExhausted(runs: seq<RunRecord>) {
    forall i :: 0 <= i < |runs| ==> runs[i].outcome == Threw(QuotaExhausted)
  }

  /** The runs of one request: one for each provider in turn, all but the last ending in an exhausted quota, and the
      last ending otherwise unless no provider is left. */
  ghost predicate RunsInTurn(runs: seq<RunRecord>, o: IngestOptions, providerChunkSizes: seq<int>) {
    && AskedInTurn(runs, o, providerChunkSizes)
    && if runs == [] then providerChunkSizes == [] else
         && AllExhausted(runs[..|runs| - 1])
         && (|runs| < |providerChunkSizes| ==> runs[|runs| - 1].outcome != Threw(QuotaExhausted))
  }

  lemma OneMoreRun(runs: seq<RunRecord>, o: IngestOptions, providerChunkSizes: seq<int>, r: RunRecord)
    requires AskedInTurn(runs, o, providerChunkSizes) && AllExhausted(runs) && |runs| < |providerChunkSizes|
    requires r.options == o.(chunkSize := providerChunkSizes[|runs|])
    ensures AskedInTurn(runs + [r], o, providerChunkSizes)
    ensures r.outcome == Threw(QuotaExhausted) ==> AllExhausted(runs + [r])
    ensures r.outcome != Threw(QuotaExhausted) || |runs| + 1 == |providerChunkSizes| ==>
              RunsInTurn(runs + [r], o, providerChunkSizes)
  {
    assert (runs + [r])[..|runs|] == runs;
  }

  /** Runs the same request against each provider in turn, moving on exactly when one exhausts its daily quota and
      another is left.  The failover cannot be seen in the store: the providers' traces join into one run's trace. */
  method RunWithProviderFailover(env: Environment, db: IndexerDatabase, o: IngestOptions, providerChunkSizes: seq<int>)
    returns (outcome: RunOutcome, ghost trace: seq<Chunk>, ghost runs: seq<RunRecord>)
    requires env.Valid() && ValidWorld(env.world)
    modifies env`next, env`runs, db
    ensures env.Valid() && old(env.next) <= env.next
    ensures env.runs == old(env.runs) + runs && RunsInTurn(runs, o, providerChunkSizes)
    ensures outcome == if runs == [] then Threw(NoProviders) else runs[|runs| - 1].outcome
    ensures Continued(env.world, o, old(db.Snapshot()), trace, db.Snapshot())
    ensures outcome.Noop? || outcome.Completed? ==>
              outcome.nextBlock == EndOf(trace, StartOf(o, old(db.Snapshot()))) > o.toBlock
    ensures outcome.Killed? ==> env.next == |env.script|
  {
    trace, runs := [], [];
    if providerChunkSizes == [] {
      return Threw(NoProviders), trace, runs;
    }
    ghost var t0 := db.Snapshot();
    outcome := Threw(NoProviders);
    for index := 0 to |providerChunkSizes|
      invariant env.Valid() && old(env.next) <= env.next && env.runs == old(env.runs) + runs
      invariant Continued(env.world, o, t0, trace, db.Snapshot())
      invariant index < |providerChunkSizes| && |runs| == index
      invariant AskedInTurn(runs, o, providerChunkSizes) && AllExhausted(runs)
    {
      outcome, trace := RunWithProvider(env, db, o, providerChunkSizes[index], t0, trace);
      ghost var run := RunRecord(o.(chunkSize := providerChunkSizes[index]), outcome);
      OneMoreRun(runs, o, providerChunkSizes, run);
      assert old(env.runs) + (runs + [run]) == old(env.runs) + runs + [run];
      runs := runs + [run];
      if index + 1 == |providerChunkSizes| || outcome != Threw(QuotaExhausted) {
        return outcome, trace, runs;
      }
    }
  }

  lemma EndsJoin(start: int, before: seq<Chunk>, more: seq<Chunk>)
    ensures EndOf(before + more, start) == EndOf(more, EndOf(before, start))
  {
    assert more == [] ==> before + more == before;
  }

  lemma TracesChain(world: World, scope: Scope, start: int, toBlock: int, before: seq<Chunk>, more: seq<Chunk>)
    requires RunTrace(world, scope, start, toBlock, before)
    requires RunTrace(world, scope, EndOf(before, start), toBlock, more)
    ensures RunTrace(world, scope, start, toBlock, before + more)
  {
    var joined := before + more;
    forall i | 0 <= i < |joined|
      ensures joined[i].range.fromBlock == EndOf(joined[..i], start) && joined[i].range.toBlock <= toBlock
      ensures ExactChunk(world, scope, joined[i])
    {
      if i < |before| {
        assert joined[..i] == before[..i];
      } else {
        var j := i - |before|;
        assert joined[i] == more[j] && joined[..i] == before + more[..j];
        EndsJoin(start, before, more[..j]);
      }
    }
  }

  lemma {:induction false} CommitsJoin(t: Tables, decode: Log -> Option<Decoded>, scope: Scope, before: seq<Chunk>,
                                       more: seq<Chunk>)
    ensures CommitAll(t, decode, scope, before + more)
        == CommitAll(CommitAll(t, decode, scope, before), decode, scope, more)
  {
    if more == [] {
      assert before + more == before;
    } else {
      var n := |more| - 1;
      assert before + more == (before + more[..n]) + [more[n]];
      CommitsJoin(t, decode, scope, before, more[..n]);
      CommitAllAppend(t, decode, scope, before + more[..n], more[n]);
    }
  }

  /** The next provider's run picks up where the trace ended: the two traces are one. */
  lemma TraceContinues(world: World, o: IngestOptions, t0: Tables, before: seq<Chunk>, t1: Tables,
                       continued: seq<Chunk>)
    requires RunTrace(world, o.scope, StartOf(o, t0), o.toBlock, before)
    requires t1 == CommitAll(t0, world.decode, o.scope, before)
    requires RunTrace(world, o.scope, StartOf(o, t1), o.toBlock, continued)
    ensures RunTrace(world, o.scope, StartOf(o, t0), o.toBlock, before + continued)
    ensures EndOf(before + continued, StartOf(o, t0)) == EndOf(continued, StartOf(o, t1))
    ensures CommitAll(t0, world.decode, o.scope, before + continued) == CommitAll(t1, world.decode, o.scope, continued)
  {
    RunIsLegalHistory(world, o, t0, before);
    TracesChain(world, o.scope, StartOf(o, t0), o.toBlock, before, continued);
    EndsJoin(StartOf(o, t0), before, continued);
    CommitsJoin(t0, world.decode, o.scope, before, continued);
  }
}
