/** The bounded worker pool: workers share a cursor, and interleave only where they await a mapper. */
module WorkerPool {
  import opened Wrappers
  import opened EvidenceStore

  datatype Worker = Ready | Running(index: nat) | Finished

  datatype Pool<R> = Pool(nextIndex: nat, workers: seq<Worker>, results: seq<Option<R>>)

  /** How many workers the log indexer's pool starts, and how many the supply collector's does. */
  function IndexerWidth(concurrency: int, n: nat): nat {
    var width := if concurrency > 1 then concurrency else 1;
    if width < n then width else n
  }

  function SupplyWidth(concurrency: int, n: nat): nat {
    if concurrency <= 0 then 0 else if concurrency < n then concurrency else n
  }

  function Started<R>(width: nat, n: nat): Pool<R> {
    Pool(0, seq(width, i => Ready), seq(n, i => None))
  }

  /** One turn of one worker: store the mapper's answer it waited for, then claim the next index or finish. */
  function Turn<T, R>(pool: Pool<R>, w: nat, values: seq<T>, mapper: T -> R): Pool<R>
    requires w < |pool.workers| && |pool.results| == |values|
  {
    var results := match pool.workers[w]
      case Running(i) => if i < |values| then pool.results[i := Some(mapper(values[i]))] else pool.results
      case _ => pool.results;
    if pool.nextIndex < |values|
    then Pool(pool.nextIndex + 1, pool.workers[w := Running(pool.nextIndex)], results)
    else Pool(pool.nextIndex, pool.workers[w := Finished], results)
  }

  /** A schedule names the worker that takes each turn; only workers that have not finished can. */
  ghost predicate Possible<T(!new), R(!new)>(values: seq<T>, mapper: T -> R, width: nat, schedule: seq<nat>,
                                             pool: Pool<R>)
    decreases |schedule|
  {
    if schedule == [] then pool == Started(width, |values|) else
      var w := schedule[|schedule| - 1];
      exists before :: Possible(values, mapper, width, schedule[..|schedule| - 1], before)
        && w < |before.workers| && before.workers[w] != Finished && |before.results| == |values|
        && pool == Turn(before, w, values, mapper)
  }

  predicate AllFinished<R>(pool: Pool<R>) { forall w :: 0 <= w < |pool.workers| ==> pool.workers[w] == Finished }

  ghost predicate InFlight<R>(pool: Pool<R>, i: nat) {
    exists w :: 0 <= w < |pool.workers| && pool.workers[w] == Running(i)
  }

  /** Every claimed index is either answered, with its own mapper's answer, or in flight at exactly one worker; no
      unclaimed index is either. */
  ghost predicate Consistent<T, R>(values: seq<T>, mapper: T -> R, width: nat, pool: Pool<R>) {
    && |pool.workers| == width && |pool.results| == |values| && pool.nextIndex <= |values|
    && (forall i :: 0 <= i < |values| && pool.results[i].Some? ==>
          i < pool.nextIndex && pool.results[i].value == mapper(values[i]))
    && (forall i :: 0 <= i < pool.nextIndex && pool.results[i].None? ==> InFlight(pool, i))
    && (forall w :: 0 <= w < width && pool.workers[w].Running? ==>
          pool.workers[w].index < pool.nextIndex && pool.results[pool.workers[w].index].None?)
    && (forall v, w :: 0 <= v < w < width && pool.workers[v].Running? ==> pool.workers[v] != pool.workers[w])
    && (forall w :: 0 <= w < width && pool.workers[w] == Finished ==> pool.nextIndex == |values|)
  }

  function FinishedCount(workers: seq<Worker>): nat {
    if workers == [] then 0 else FinishedCount(workers[1..]) + if workers[0] == Finished then 1 else 0
  }

  lemma {:induction false} FinishedCountUpdate(workers: seq<Worker>, w: nat, to: Worker)
    requires w < |workers| && workers[w] != Finished
    ensures FinishedCount(workers[w := to]) == FinishedCount(workers) + if to == Finished then 1 else 0
  {
    if w > 0 {
      assert workers[w := to][1..] == workers[1..][w - 1 := to];
      FinishedCountUpdate(workers[1..], w - 1, to);
    } else {
      assert workers[w := to][1..] == workers[1..];
    }
  }

  lemma {:induction false} FinishedCountBounds(workers: seq<Worker>)
    ensures FinishedCount(workers) <= |workers|
    ensures (forall w :: 0 <= w < |workers| ==> workers[w] == Finished) <==> FinishedCount(workers) == |workers|
    ensures (forall w :: 0 <= w < |workers| ==> workers[w] != Finished) ==> FinishedCount(workers) == 0
  {
    if workers != [] {
      FinishedCountBounds(workers[1..]);
      if forall w :: 0 <= w < |workers[1..]| ==> workers[1..][w] == Finished {
        assert workers[0] == Finished ==> forall w :: 0 < w < |workers| ==> workers[w] == workers[1..][w - 1];
      }
      assert forall w :: 0 <= w < |workers[1..]| ==> workers[1..][w] == workers[w + 1];
    }
  }

  lemma TurnKeepsConsistent<T, R>(values: seq<T>, mapper: T -> R, width: nat, pool: Pool<R>, w: nat)
    requires Consistent(values, mapper, width, pool) && w < width && pool.workers[w] != Finished
    ensures Consistent(values, mapper, width, Turn(pool, w, values, mapper))
  {
    var after := Turn(pool, w, values, mapper);
    forall i | 0 <= i < after.nextIndex && after.results[i].None? ensures InFlight(after, i) {
      if i == pool.nextIndex {
        assert after.workers[w] == Running(i);
      } else {
        var v :| 0 <= v < |pool.workers| && pool.workers[v] == Running(i);
        assert after.workers[v] == Running(i);
      }
    }
  }

  lemma {:induction false} PossibleIsConsistent<T(!new), R(!new)>(
    values: seq<T>, mapper: T -> R, width: nat, schedule: seq<nat>, pool: Pool<R>)
    requires Possible(values, mapper, width, schedule, pool)
    ensures Consistent(values, mapper, width, pool)
    ensures |schedule| == pool.nextIndex + FinishedCount(pool.workers)
    decreases |schedule|
  {
    if schedule == [] {
      FinishedCountBounds(pool.workers);
    } else {
      var init, w := schedule[..|schedule| - 1], schedule[|schedule| - 1];
      var before :| Possible(values, mapper, width, init, before)
        && w < |before.workers| && before.workers[w] != Finished && |before.results| == |values|
        && pool == Turn(before, w, values, mapper);
      PossibleIsConsistent(values, mapper, width, init, before);
      TurnKeepsConsistent(values, mapper, width, before, w);
      FinishedCountUpdate(before.workers, w, pool.workers[w]);
    }
  }

  /** Under every interleaving: the pool takes at most one turn per value and one per worker, and when all workers
      have finished, result `i` is the mapper of value `i` for every `i` if and only if some worker ran or there was
      nothing to do. */
  lemma EveryInterleavingMaps<T(!new), R(!new)>(
    values: seq<T>, mapper: T -> R, width: nat, schedule: seq<nat>, pool: Pool<R>)
    requires Possible(values, mapper, width, schedule, pool)
    ensures |schedule| <= |values| + width
    ensures AllFinished(pool) ==>
              ((forall i :: 0 <= i < |values| ==> pool.results[i] == Some(mapper(values[i]))) <==>
                  width > 0 || values == [])
    ensures AllFinished(pool) && width > 0 ==> |schedule| == |values| + width
  {
    PossibleIsConsistent(values, mapper, width, schedule, pool);
    FinishedCountBounds(pool.workers);
    if AllFinished(pool) {
      if width > 0 {
        assert pool.workers[0] == Finished;
        forall i | 0 <= i < |values| ensures pool.results[i] == Some(mapper(values[i])) {
          assert pool.results[i].None? ==> InFlight(pool, i);
        }
      } else if values != [] {
        assert pool.nextIndex == 0;
        assert pool.results[0].None?;
      }
    }
  }

  function Answers<R>(results: seq<Option<R>>): seq<R>
    requires forall i :: 0 <= i < |results| ==> results[i].Some?
  {
    seq(|results|, i requires 0 <= i < |results| => results[i].value)
  }

  lemma TurnStaysPossible<T(!new), R(!new)>(values: seq<T>, mapper: T -> R, width: nat, schedule: seq<nat>,
                                             pool: Pool<R>, w: nat)
    requires Possible(values, mapper, width, schedule, pool) && w < |pool.workers| && pool.workers[w] != Finished
    ensures Possible(values, mapper, width, schedule + [w], Turn(pool, w, values, mapper))
  {
    PossibleIsConsistent(values, mapper, width, schedule, pool);
    var longer := schedule + [w];
    assert longer[..|longer| - 1] == schedule;
  }

  /** A run of the pool: some unfinished worker takes each turn, until none is left. */
  method MapWithConcurrency<T(!new), R(!new)>(values: seq<T>, width: nat, mapper: T -> R) returns (results: seq<R>)
    requires width > 0 || values == []
    ensures |results| == |values| && forall i :: 0 <= i < |values| ==> results[i] == mapper(values[i])
  {
    var pool: Pool<R> := Started(width, |values|);
    ghost var schedule: seq<nat> := [];
    while !AllFinished(pool)
      invariant Possible(values, mapper, width, schedule, pool)
      invariant |schedule| <= |values| + width
      decreases |values| + width - |schedule|
    {
      PossibleIsConsistent(values, mapper, width, schedule, pool);
      var w: nat :| w < |pool.workers| && pool.workers[w] != Finished;
      TurnStaysPossible(values, mapper, width, schedule, pool, w);
      pool := Turn(pool, w, values, mapper);
      schedule := schedule + [w];
      EveryInterleavingMaps(values, mapper, width, schedule, pool);
    }
    EveryInterleavingMaps(values, mapper, width, schedule, pool);
    PossibleIsConsistent(values, mapper, width, schedule, pool);
    results := Answers(pool.results);
  }

  /** A pool that has not finished can always take another turn. */
  lemma NeverStuck<T(!new), R(!new)>(values: seq<T>, mapper: T -> R, width: nat, schedule: seq<nat>, pool: Pool<R>)
    requires Possible(values, mapper, width, schedule, pool) && !AllFinished(pool)
    ensures exists w: nat, after :: Possible(values, mapper, width, schedule + [w], after)
  {
    var w: nat :| w < |pool.workers| && pool.workers[w] != Finished;
    TurnStaysPossible(values, mapper, width, schedule, pool, w);
  }

  /** The indexer's pool always has a worker when it has work; the supply pool does exactly for positive concurrency.
      Neither has more workers than work or, but for the indexer's one, than the concurrency allows. */
  lemma WidthsSuffice(concurrency: int, n: nat)
    ensures IndexerWidth(concurrency, n) > 0 || n == 0
    ensures (SupplyWidth(concurrency, n) > 0 || n == 0) <==> (concurrency > 0 || n == 0)
    ensures SupplyWidth(concurrency, n) <= IndexerWidth(concurrency, n) <= n
    ensures concurrency > 0 ==>
              && SupplyWidth(concurrency, n) == IndexerWidth(concurrency, n) <= concurrency
              && (IndexerWidth(concurrency, n) == n || IndexerWidth(concurrency, n) == concurrency)
    ensures concurrency <= 0 ==> IndexerWidth(concurrency, n) <= 1
  {
  }

  // Fetching blocks in batches.

  function Flat<T>(batches: seq<seq<T>>): seq<T> {
    if batches == [] then [] else Flat(batches[..|batches| - 1]) + batches[|batches| - 1]
  }

  method SliceBatches(numbers: seq<nat>, batchSize: nat) returns (batches: seq<seq<nat>>)
    requires batchSize >= 1
    ensures Flat(batches) == numbers
    ensures forall i :: 0 <= i < |batches| ==> 1 <= |batches[i]| <= batchSize
    ensures forall i :: 0 <= i < |batches| - 1 ==> |batches[i]| == batchSize
  {
    batches := [];
    var index := 0;
    while index < |numbers|
      invariant Flat(batches) == numbers[..if index < |numbers| then index else |numbers|]
      invariant forall i :: 0 <= i < |batches| ==> 1 <= |batches[i]| <= batchSize
      invariant forall i :: 0 <= i < |batches| && (i < |batches| - 1 || index < |numbers|) ==> |batches[i]| == batchSize
    {
      var end := if index + batchSize < |numbers| then index + batchSize else |numbers|;
      var grown := batches + [numbers[index..end]];
      assert grown[..|grown| - 1] == batches;
      assert numbers[..index] + numbers[index..end] == numbers[..end];
      batches := grown;
      index := index + batchSize;
    }
    assert numbers[..|numbers|] == numbers;
  }

  function HeadersOf(blockAt: nat -> Block, numbers: seq<nat>): seq<Block> {
    seq(|numbers|, i requires 0 <= i < |numbers| => blockAt(numbers[i]))
  }

  lemma {:induction false} FlatOfHeaders(blockAt: nat -> Block, batches: seq<seq<nat>>, fetched: seq<seq<Block>>)
    requires |fetched| == |batches| && forall i :: 0 <= i < |batches| ==> fetched[i] == HeadersOf(blockAt, batches[i])
    ensures Flat(fetched) == HeadersOf(blockAt, Flat(batches))
  {
    if batches != [] {
      FlatOfHeaders(blockAt, batches[..|batches| - 1], fetched[..|fetched| - 1]);
    }
  }

  /** However the batches interleave, flattening their answers gives the requested numbers' blocks in request order. */
  lemma BatchedBlocksKeepOrder(
    blockAt: nat -> Block, numbers: seq<nat>, batches: seq<seq<nat>>, concurrency: int, schedule: seq<nat>,
    pool: Pool<seq<Block>>)
    requires Flat(batches) == numbers
    requires Possible(batches, batch => HeadersOf(blockAt, batch), IndexerWidth(concurrency, |batches|), schedule, pool)
    requires AllFinished(pool)
    ensures forall i :: 0 <= i < |pool.results| ==> pool.results[i].Some?
    ensures Flat(Answers(pool.results)) == HeadersOf(blockAt, numbers)
  {
    var mapper := batch => HeadersOf(blockAt, batch);
    EveryInterleavingMaps(batches, mapper, IndexerWidth(concurrency, |batches|), schedule, pool);
    PossibleIsConsistent(batches, mapper, IndexerWidth(concurrency, |batches|), schedule, pool);
    WidthsSuffice(concurrency, |batches|);
    FlatOfHeaders(blockAt, batches, Answers(pool.results));
  }

  // Block headers for a chunk.

  /** Each distinct number once, in order of first appearance. */
  method DistinctNumbers(all: seq<nat>) returns (numbers: seq<nat>)
    ensures forall n :: n in numbers <==> n in all
    ensures forall i, j :: 0 <= i < j < |numbers| ==> numbers[i] != numbers[j]
  {
    numbers := [];
    for i := 0 to |all|
      invariant forall n :: n in numbers <==> n in all[..i]
      invariant forall i, j :: 0 <= i < j < |numbers| ==> numbers[i] != numbers[j]
    {
      if all[i] !in numbers {
        numbers := numbers + [all[i]];
      }
    }
    assert all[..|all|] == all;
  }

  function AtLeastOne(n: int): (r: nat)
    ensures r >= 1 && r >= n && (r == 1 || r == n)
  {
    if n > 1 then n else 1
  }

  /** The headers of the distinct numbers, one by one or in batches, each number paired with its own block. */
  method BlocksByNumber(blockAt: nat -> Block, all: seq<nat>, concurrency: int, batchSize: int, batchConcurrency: int)
    returns (numbers: seq<nat>, fetched: seq<Block>, byNumber: map<nat, Block>)
    ensures forall n :: n in numbers <==> n in all
    ensures forall i, j :: 0 <= i < j < |numbers| ==> numbers[i] != numbers[j]
    ensures fetched == HeadersOf(blockAt, numbers)
    ensures byNumber == map n | n in numbers :: blockAt(n)
  {
    numbers := DistinctNumbers(all);
    if AtLeastOne(batchSize) > 1 {
      var batches := SliceBatches(numbers, AtLeastOne(batchSize));
      WidthsSuffice(AtLeastOne(batchConcurrency), |batches|);
      var answers := MapWithConcurrency(
        batches, IndexerWidth(AtLeastOne(batchConcurrency), |batches|), (batch: seq<nat>) => HeadersOf(blockAt, batch));
      FlatOfHeaders(blockAt, batches, answers);
      fetched := Flat(answers);
    } else {
      WidthsSuffice(AtLeastOne(concurrency), |numbers|);
      fetched := MapWithConcurrency(numbers, IndexerWidth(AtLeastOne(concurrency), |numbers|), blockAt);
    }
    byNumber := map[];
    for i := 0 to |numbers|
      invariant byNumber == map n | n in numbers[..i] :: blockAt(n)
    {
      assert numbers[..i + 1] == numbers[..i] + [numbers[i]];
      byNumber := byNumber[numbers[i] := fetched[i]];
    }
    assert numbers[..|numbers|] == numbers;
  }
}
