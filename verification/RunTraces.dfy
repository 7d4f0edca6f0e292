/** What a run commits, chunk by chunk, and the turns that each chunk took. */
module RunTraces {
  import opened Wrappers
  import opened Planner
  import opened EvidenceStore
  import opened EvidenceHistory
  import opened RunEnvironment
  import opened FetchPolicy

  // The trace.

  /** The chunks a run committed continue one another from its start and stay inside its end. */
  ghost predicate RunTrace(world: World, scope: Scope, start: int, toBlock: int, trace: seq<Chunk>) {
    forall i :: 0 <= i < |trace| ==>
      && trace[i].range.fromBlock == EndOf(trace[..i], start) && trace[i].range.toBlock <= toBlock
      && ExactChunk(world, scope, trace[i])
  }

  function EndOf(trace: seq<Chunk>, start: int): int {
    if trace == [] then start else trace[|trace| - 1].range.toBlock + 1
  }

  /** The range has exactly `size` blocks, or ends at `toBlock` before that. */
  predicate FullSized(range: BlockRange, size: int, toBlock: int) {
    range.toBlock == if range.fromBlock + size - 1 < toBlock then range.fromBlock + size - 1 else toBlock
  }

  function SizeAfter(trace: seq<Chunk>, initial: int): int {
    if trace == [] then initial else trace[|trace| - 1].chunkSize
  }

  function CommitAll(t: Tables, decode: Log -> Option<Decoded>, scope: Scope, trace: seq<Chunk>): Tables {
    if trace == [] then t
    else CommitChunk(CommitAll(t, decode, scope, trace[..|trace| - 1]), decode, scope, trace[|trace| - 1])
  }

  lemma CommitAllAppend(t: Tables, decode: Log -> Option<Decoded>, scope: Scope, trace: seq<Chunk>, c: Chunk)
    ensures CommitAll(t, decode, scope, trace + [c])
        == CommitChunk(CommitAll(t, decode, scope, trace), decode, scope, c)
  {
    assert (trace + [c])[..|trace|] == trace;
  }

  lemma RunTracePrefix(world: World, scope: Scope, start: int, toBlock: int, trace: seq<Chunk>, n: nat)
    requires RunTrace(world, scope, start, toBlock, trace) && n <= |trace|
    ensures RunTrace(world, scope, start, toBlock, trace[..n])
  {
    var init := trace[..n];
    forall i | 0 <= i < n
      ensures init[i].range.fromBlock == EndOf(init[..i], start) && init[i].range.toBlock <= toBlock
      ensures ExactChunk(world, scope, init[i])
    {
      assert init[i] == trace[i] && init[..i] == trace[..i];
    }
  }

  /** The run's chunk number `index`, counted from zero, carries an anchor exactly when it ends the request or the
      interval is up. */
  predicate AnchorBelongs(o: IngestOptions, c: Chunk, index: nat) {
    c.anchor.Some? <==>
    || c.range.toBlock == o.toBlock
    || (o.anchorEveryChunks != 0 && (index + 1) % o.anchorEveryChunks == 0)
  }

  /** An exactly served chunk that starts where the trace ends, of no greater size, full but at the request's end, and
      anchored as its place asks. */
  ghost predicate IsNextChunk(world: World, o: IngestOptions, start: int, trace: seq<Chunk>, c: Chunk) {
    && ExactChunk(world, o.scope, c)
    && c.range.fromBlock == EndOf(trace, start) && c.range.toBlock <= o.toBlock
    && 1 <= c.chunkSize <= SizeAfter(trace, o.chunkSize) && FullSized(c.range, c.chunkSize, o.toBlock)
    && AnchorBelongs(o, c, |trace|)
  }

  ghost predicate ChunkFits(world: World, o: IngestOptions, start: int, trace: seq<Chunk>, i: nat)
    requires i < |trace|
  {
    IsNextChunk(world, o, start, trace[..i], trace[i])
  }

  /** Every chunk of the trace is the next one after those before it. */
  ghost predicate ChunksFit(world: World, o: IngestOptions, start: int, trace: seq<Chunk>) {
    forall i :: 0 <= i < |trace| ==> ChunkFits(world, o, start, trace, i)
  }

  lemma ChunksFitAppend(world: World, o: IngestOptions, start: int, trace: seq<Chunk>, c: Chunk)
    requires ChunksFit(world, o, start, trace) && IsNextChunk(world, o, start, trace, c)
    ensures ChunksFit(world, o, start, trace + [c])
  {
    var longer := trace + [c];
    forall i | 0 <= i < |longer| ensures ChunkFits(world, o, start, longer, i) {
      if i < |trace| {
        assert ChunkFits(world, o, start, trace, i) && longer[..i] == trace[..i];
      } else {
        assert longer[..i] == trace;
      }
    }
  }

  lemma FittingChunksContinue(world: World, o: IngestOptions, start: int, trace: seq<Chunk>)
    requires ChunksFit(world, o, start, trace)
    ensures RunTrace(world, o.scope, start, o.toBlock, trace)
  {
    forall i | 0 <= i < |trace|
      ensures trace[i].range.fromBlock == EndOf(trace[..i], start) && trace[i].range.toBlock <= o.toBlock
      ensures ExactChunk(world, o.scope, trace[i])
    {
      assert ChunkFits(world, o, start, trace, i);
    }
  }

  // Its turns.

  /** The turn of a chunk's transaction: after the served request for logs come the block rows and, for an anchored
      chunk, the anchor. */
  function CommitTurn(served: nat, c: Chunk): nat { served + if c.anchor.Some? then 3 else 2 }

  /** The chunk was fetched from turn `at` on: failing requests for logs, none beyond remedy, until turn `served`
      brought the logs, and then its blocks without a failure.  Its size is what those failures leave of the size
      before. */
  ghost predicate FetchedOver(script: seq<Turn>, o: IngestOptions, at: nat, served: nat, c: Chunk, size: int) {
    && at <= served && CommitTurn(served, c) <= |script| && script[served].logsFailure.None?
    && GoesOn(script, at, served, size, o.maxRetries, o.retryRateLimitsIndefinitely)
    && c.chunkSize == SizeLeft(script, at, served, size)
    && forall i :: served < i < CommitTurn(served, c) ==> script[i].failure.None?
  }

  /** The chunk's transaction at this turn was acknowledged, and so was the run record's update at the next. */
  predicate Confirmed(script: seq<Turn>, turn: nat) {
    turn + 1 < |script| && script[turn].commit == Acknowledged && !script[turn + 1].statementFails
  }

  /** Where the fetch of chunk number `i` begins. */
  function FetchTurn(first: nat, trace: seq<Chunk>, served: seq<nat>, i: nat): nat
    requires i <= |trace| == |served|
  {
    if i == 0 then first else CommitTurn(served[i - 1], trace[i - 1]) + 2
  }

  /** Chunk number `i` was fetched and then committed; only the last may lack its confirmation. */
  ghost predicate ChunkTurns(script: seq<Turn>, o: IngestOptions, first: nat, trace: seq<Chunk>, served: seq<nat>,
                             i: nat)
    requires i < |trace| == |served|
  {
    var commit := CommitTurn(served[i], trace[i]);
    && FetchedOver(script, o, FetchTurn(first, trace, served, i), served[i], trace[i],
                   SizeAfter(trace[..i], o.chunkSize))
    && commit < |script| && script[commit].commit != Refused
    && (i + 1 < |trace| ==> Confirmed(script, commit))
  }

  /** The turns from `first` on served the chunks of the trace, one after the other, at the turns `served`. */
  ghost predicate RunTurns(script: seq<Turn>, o: IngestOptions, first: nat, trace: seq<Chunk>, served: seq<nat>) {
    && |served| == |trace|
    && forall i :: 0 <= i < |trace| ==> ChunkTurns(script, o, first, trace, served, i)
  }

  /** No turn is left over after them, and none of them failed but requests for logs. */
  ghost predicate UpToDate(script: seq<Turn>, o: IngestOptions, first: nat, trace: seq<Chunk>, served: seq<nat>,
                           next: nat)
  {
    && RunTurns(script, o, first, trace, served) && first <= next == FetchTurn(first, trace, served, |trace|)
    && (trace != [] ==> Confirmed(script, next - 2))
  }

  lemma RunTurnsAppend(script: seq<Turn>, o: IngestOptions, first: nat, trace: seq<Chunk>, served: seq<nat>, at: nat,
                       c: Chunk, s: nat)
    requires UpToDate(script, o, first, trace, served, at)
    requires FetchedOver(script, o, at, s, c, SizeAfter(trace, o.chunkSize))
    requires CommitTurn(s, c) < |script| && script[CommitTurn(s, c)].commit != Refused
    ensures RunTurns(script, o, first, trace + [c], served + [s])
    ensures Confirmed(script, CommitTurn(s, c)) ==>
              UpToDate(script, o, first, trace + [c], served + [s], CommitTurn(s, c) + 2)
  {
    var longer, more := trace + [c], served + [s];
    forall i | 0 <= i < |longer| ensures ChunkTurns(script, o, first, longer, more, i) {
      if i < |trace| {
        assert ChunkTurns(script, o, first, trace, served, i) && longer[..i] == trace[..i];
      } else {
        assert longer[..i] == trace;
      }
    }
  }

  /** The size that a fetch begun at turn `at` leaves: what its failures make of `size` once the logs have arrived. */
  ghost predicate SizeNow(script: seq<Turn>, at: nat, to: nat, size: int, chunkSize: int)
    requires to <= |script|
  {
    && (LogsFail(script, at, to) ==> chunkSize == size)
    && forall s :: at <= s < to && LogsFail(script, at, s) && script[s].logsFailure.None? ==>
         chunkSize == SizeLeft(script, at, s, size)
  }

  /** Where an unfinished run goes on: behind its trace, except that a chunk whose commit was not acknowledged is asked
      for again. */
  ghost predicate Reports(script: seq<Turn>, o: IngestOptions, first: nat, trace: seq<Chunk>, served: seq<nat>, to: nat,
                          start: int, nextBlock: int, chunkSize: int)
    requires |trace| == |served| && to <= |script|
  {
    var n := |trace|;
    if n > 0 && CommitTurn(served[n - 1], trace[n - 1]) < |script|
       && script[CommitTurn(served[n - 1], trace[n - 1])].commit != Acknowledged
    then nextBlock == trace[n - 1].range.fromBlock && chunkSize == trace[n - 1].chunkSize
    else
      && nextBlock == EndOf(trace, start)
      && SizeNow(script, FetchTurn(first, trace, served, n), to, SizeAfter(trace, o.chunkSize), chunkSize)
  }

  /** A run that has nothing left to fetch stops short of its end only for a failed statement. */
  ghost predicate StopsBehindEnd(script: seq<Turn>, next: nat, toBlock: int, nextBlock: int) {
    nextBlock > toBlock ==> 0 < next <= |script| && script[next - 1].statementFails
  }

  lemma SizeOnceServed(script: seq<Turn>, at: nat, served: nat, to: nat, size: int)
    requires at <= served < to <= |script| && LogsFail(script, at, served) && script[served].logsFailure.None?
    ensures SizeNow(script, at, to, size, SizeLeft(script, at, served, size))
  {
    assert forall s :: at <= s <= to && LogsFail(script, at, s) ==> s <= served;
  }

  lemma SizeOfFetched(script: seq<Turn>, o: IngestOptions, at: nat, served: nat, c: Chunk, to: nat, size: int)
    requires FetchedOver(script, o, at, served, c, size) && CommitTurn(served, c) <= to <= |script|
    ensures SizeNow(script, at, to, size, c.chunkSize)
  {
    GoingOnFails(script, at, served, size, o.maxRetries, o.retryRateLimitsIndefinitely);
    SizeOnceServed(script, at, served, to, size);
  }

  lemma ReportsBefore(script: seq<Turn>, o: IngestOptions, first: nat, trace: seq<Chunk>, served: seq<nat>, at: nat,
                      to: nat, start: int, chunkSize: int)
    requires UpToDate(script, o, first, trace, served, at) && to <= |script|
    requires SizeNow(script, at, to, SizeAfter(trace, o.chunkSize), chunkSize)
    ensures Reports(script, o, first, trace, served, to, start, EndOf(trace, start), chunkSize)
  {
  }

  lemma ReportsAfter(script: seq<Turn>, o: IngestOptions, first: nat, trace: seq<Chunk>, served: seq<nat>, c: Chunk,
                     s: nat, to: nat, start: int)
    requires |trace| == |served| && CommitTurn(s, c) < to <= |script| && to <= CommitTurn(s, c) + 2
    ensures Reports(script, o, first, trace + [c], served + [s], to, start,
                    if script[CommitTurn(s, c)].commit == Acknowledged then c.range.toBlock + 1 else c.range.fromBlock,
                    c.chunkSize)
  {
  }

  /** One more chunk was fetched, and its transaction and the run record's update were tried. */
  lemma TurnsAfterChunk(script: seq<Turn>, o: IngestOptions, first: nat, before: seq<Chunk>, served: seq<nat>, at: nat,
                        c: Chunk, s: nat, to: nat, start: int, committed: bool, nextBlock: int)
    requires UpToDate(script, o, first, before, served, at)
    requires FetchedOver(script, o, at, s, c, SizeAfter(before, o.chunkSize))
    requires EndOf(before, start) == c.range.fromBlock <= c.range.toBlock
    requires CommitTurn(s, c) <= to <= |script| && to <= CommitTurn(s, c) + 2
    requires committed ==> CommitTurn(s, c) < to && script[CommitTurn(s, c)].commit != Refused
    requires nextBlock == if committed && script[CommitTurn(s, c)].commit == Acknowledged then c.range.toBlock + 1
                          else c.range.fromBlock
    ensures var trace, taken := With(before, c, committed), With(served, s, committed);
            && RunTurns(script, o, first, trace, taken)
            && (committed && Confirmed(script, CommitTurn(s, c)) && to == CommitTurn(s, c) + 2 ==>
                  UpToDate(script, o, first, trace, taken, to))
            && Reports(script, o, first, trace, taken, to, start, nextBlock, c.chunkSize)
            && c.range.fromBlock <= nextBlock <= EndOf(trace, start) && nextBlock <= c.range.toBlock + 1
  {
    if committed {
      RunTurnsAppend(script, o, first, before, served, at, c, s);
      ReportsAfter(script, o, first, before, served, c, s, to, start);
    } else {
      SizeOfFetched(script, o, at, s, c, to, SizeAfter(before, o.chunkSize));
      ReportsBefore(script, o, first, before, served, at, to, start, c.chunkSize);
    }
  }

  function With<T>(s: seq<T>, x: T, added: bool): seq<T> { if added then s + [x] else s }
}
