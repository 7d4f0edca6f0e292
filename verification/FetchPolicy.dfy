/** Fetching one range's logs: retrying, shrinking, giving up. */
module FetchPolicy {
  import opened Wrappers
  import opened Planner
  import opened EvidenceStore
  import opened RunEnvironment

  datatype Fetch = Fetched(range: BlockRange, logs: seq<Log>, chunkSize: int) | FetchThrew(error: RunError) | FetchCut

  // How long it can take.

  /** The number of binary digits: one more than the floor of the base-two logarithm. */
  function Bits(n: nat): nat { if n <= 1 then 1 else 1 + Bits(n / 2) }

  function Pow2(n: nat): nat { if n == 0 then 1 else 2 * Pow2(n - 1) }

  lemma {:induction false} BitsIsLogarithm(n: nat)
    requires n >= 1
    ensures Pow2(Bits(n) - 1) <= n < Pow2(Bits(n))
  {
    if n > 1 {
      BitsIsLogarithm(n / 2);
    } else {
      assert Pow2(1) == 2 * Pow2(0);
    }
  }

  /** The calls that `sizes` chunk sizes may cost, `perSize` each. */
  function Budget(sizes: nat, perSize: nat): nat { if sizes == 0 then 0 else perSize + Budget(sizes - 1, perSize) }

  lemma {:induction false} BudgetIsProduct(sizes: nat, perSize: nat)
    ensures Budget(sizes, perSize) == sizes * perSize
  {
    if sizes > 0 {
      BudgetIsProduct(sizes - 1, perSize);
    }
  }

  lemma {:induction false} BudgetStep(after: nat, before: nat, perSize: nat)
    requires after < before
    ensures Budget(after, perSize) + perSize <= Budget(before, perSize)
  {
    if after + 1 < before {
      BudgetStep(after, before - 1, perSize);
    }
  }

  // One failure.

  /** The size after a range failure: below an advertised limit when there is one, and half otherwise. */
  function Shrunk(chunkSize: int, advertisedLimit: Option<Limit>): int {
    match advertisedLimit
    case Some(limit) => if limit < chunkSize - 1 then limit else chunkSize - 1
    case None => ReduceChunkSize(chunkSize)
  }

  lemma ShrinkStep(chunkSize: nat, advertisedLimit: Option<Limit>, perSize: nat)
    requires chunkSize > 1
    ensures var smaller := Shrunk(chunkSize, advertisedLimit);
            && 1 <= smaller < chunkSize
            && (advertisedLimit.Some? ==>
                  && smaller <= advertisedLimit.value
                  && (smaller == advertisedLimit.value || smaller == chunkSize - 1))
            && Budget(smaller - 1, perSize) + perSize <= Budget(chunkSize - 1, perSize)
            && (advertisedLimit.None? ==>
                  Budget(Bits(smaller) - 1, perSize) + perSize <= Budget(Bits(chunkSize) - 1, perSize))
  {
    var smaller := Shrunk(chunkSize, advertisedLimit);
    BudgetStep(smaller - 1, chunkSize - 1, perSize);
    if advertisedLimit.None? {
      BudgetStep(Bits(smaller) - 1, Bits(chunkSize) - 1, perSize);
    }
  }

  datatype Retry = GiveUp(error: RunError) | Again(chunkSize: int, attempt: nat)

  /** What the policy makes of a failed call. */
  function AfterFailure(failure: RpcFailure, chunkSize: int, attempt: nat, maxRetries: nat, indefinitely: bool): Retry {
    if failure.DailyQuota? then GiveUp(QuotaExhausted)
    else if failure.errorClass.RangeTooWide? && chunkSize > 1 then Again(Shrunk(chunkSize, failure.advertisedLimit), 0)
    else if ShouldRetryRpcError(failure.errorClass, attempt, maxRetries, indefinitely) then
      Again(chunkSize, attempt + 1)
    else GiveUp(RpcError(failure.errorClass))
  }

  /** `sizes` chunk sizes are still to come after this one, whose retries are partly spent. */
  ghost predicate Affordable(calls: nat, sizes: int, attempt: nat, maxRetries: nat, total: nat) {
    && sizes >= 0 && attempt <= maxRetries
    && calls + Budget(sizes, maxRetries + 1) + (maxRetries + 1 - attempt) <= Budget(total, maxRetries + 1)
  }

  lemma RetryStaysAffordable(failure: RpcFailure, chunkSize: int, attempt: nat, maxRetries: nat, calls: nat,
                             initial: nat)
    requires chunkSize >= 1 && Affordable(calls, chunkSize - 1, attempt, maxRetries, initial)
    ensures var r := AfterFailure(failure, chunkSize, attempt, maxRetries, false);
            r.Again? ==>
              1 <= r.chunkSize <= chunkSize && Affordable(calls + 1, r.chunkSize - 1, r.attempt, maxRetries, initial)
  {
    if failure.Classified? && failure.errorClass.RangeTooWide? && chunkSize > 1 {
      ShrinkStep(chunkSize, failure.advertisedLimit, maxRetries + 1);
    }
  }

  predicate Unadvertised(failure: Option<RpcFailure>) {
    failure.Some? && failure.value.Classified? ==> failure.value.advertisedLimit.None?
  }

  lemma HalvingStaysAffordable(failure: RpcFailure, chunkSize: int, attempt: nat, maxRetries: nat, calls: nat,
                               initial: nat)
    requires chunkSize >= 1 && initial >= 1
    requires Affordable(calls, Bits(chunkSize) - 1, attempt, maxRetries, Bits(initial))
    requires Unadvertised(Some(failure))
    ensures var r := AfterFailure(failure, chunkSize, attempt, maxRetries, false);
            r.Again? ==>
              r.chunkSize >= 1 && Affordable(calls + 1, Bits(r.chunkSize) - 1, r.attempt, maxRetries, Bits(initial))
  {
    if failure.Classified? && failure.errorClass.RangeTooWide? && chunkSize > 1 {
      ShrinkStep(chunkSize, failure.advertisedLimit, maxRetries + 1);
    }
  }

  // The loop.

  /** The size that the range failures among these calls leave: below an advertised limit, or else half, but
      positive. */
  ghost function SizeLeft(script: seq<Turn>, from: nat, to: nat, initial: int): int
    requires from <= to <= |script|
  {
    if to == from then initial else
      var size := SizeLeft(script, from, to - 1, initial);
      match script[to - 1].logsFailure
      case Some(Classified(RangeTooWide, Some(limit))) => if limit < size then limit else size - 1
      case Some(Classified(RangeTooWide, None)) => if size >= 2 then size / 2 else 1
      case _ => size
  }

  /** All retries were spent on the passing failures in a row that end before turn `n`. */
  ghost predicate SpentRetries(script: seq<Turn>, from: nat, n: nat, maxRetries: nat)
    requires n <= |script|
  {
    n - from > maxRetries && PassingStretch(script, n - (maxRetries + 1), n)
  }

  /** The call before turn `n` failed beyond remedy: for good, with a range error at size one, or with a passing error
      after all its retries. */
  ghost predicate FailsForGood(script: seq<Turn>, from: nat, n: nat, initial: int, maxRetries: nat, indefinitely: bool)
    requires from < n <= |script|
  {
    && script[n - 1].logsFailure.Some?
    && match script[n - 1].logsFailure.value
       case DailyQuota => true
       case Classified(RangeTooWide, _) => SizeLeft(script, from, n - 1, initial) <= 1
       case Classified(RateLimit, _) => !indefinitely && SpentRetries(script, from, n, maxRetries)
       case Classified(Transient, _) => SpentRetries(script, from, n, maxRetries)
       case Classified(Fatal, _) => true
  }

  /** No answered failure among these turns advertises a limit. */
  ghost predicate NoneAdvertised(script: seq<Turn>, from: nat, to: nat)
    requires to <= |script|
  {
    forall i :: from <= i < to ==> Unadvertised(script[i].logsFailure)
  }

  /** Every one of these calls failed, and none beyond remedy. */
  ghost predicate GoesOn(script: seq<Turn>, from: nat, to: int, initial: int, maxRetries: nat, indefinitely: bool)
    requires to <= |script|
  {
    forall n :: from < n <= to ==> Retried(script, from, n, initial, maxRetries, indefinitely)
  }

  ghost predicate Retried(script: seq<Turn>, from: nat, n: nat, initial: int, maxRetries: nat, indefinitely: bool)
    requires from < n <= |script|
  {
    script[n - 1].logsFailure.Some? && !FailsForGood(script, from, n, initial, maxRetries, indefinitely)
  }

  lemma GoingOnFails(script: seq<Turn>, from: nat, to: int, initial: int, maxRetries: nat, indefinitely: bool)
    requires to <= |script| && GoesOn(script, from, to, initial, maxRetries, indefinitely)
    ensures LogsFail(script, from, to)
  {
    forall i | from <= i < to ensures script[i].logsFailure.Some? {
      assert Retried(script, from, i + 1, initial, maxRetries, indefinitely);
    }
  }

  /** Where the two call budgets stand before the next call. */
  ghost predicate BudgetsHold(script: seq<Turn>, from: nat, to: nat, chunkSize: int, attempt: nat, maxRetries: nat,
                              initial: nat)
    requires from <= to <= |script|
  {
    && 1 <= chunkSize <= initial
    && Affordable(to - from, chunkSize - 1, attempt, maxRetries, initial)
    && (NoneAdvertised(script, from, to) ==>
          Affordable(to - from, Bits(chunkSize) - 1, attempt, maxRetries, Bits(initial)))
  }

  lemma BudgetsAfterRetry(script: seq<Turn>, from: nat, to: nat, chunkSize: int, attempt: nat, maxRetries: nat,
                          initial: nat)
    requires from <= to < |script| && BudgetsHold(script, from, to, chunkSize, attempt, maxRetries, initial)
    requires script[to].logsFailure.Some?
    ensures var r := AfterFailure(script[to].logsFailure.value, chunkSize, attempt, maxRetries, false);
            r.Again? ==> BudgetsHold(script, from, to + 1, r.chunkSize, r.attempt, maxRetries, initial)
  {
    var failure := script[to].logsFailure.value;
    RetryStaysAffordable(failure, chunkSize, attempt, maxRetries, to - from, initial);
    if NoneAdvertised(script, from, to + 1) {
      assert Unadvertised(script[to].logsFailure);
      HalvingStaysAffordable(failure, chunkSize, attempt, maxRetries, to - from, initial);
    }
  }

  /** The two bounds on a fetch's calls. */
  ghost predicate FewCalls(script: seq<Turn>, from: nat, to: nat, initial: nat, maxRetries: nat)
    requires from <= to <= |script|
  {
    && to - from <= initial * (maxRetries + 1)
    && (NoneAdvertised(script, from, to) ==> to - from <= Bits(initial) * (maxRetries + 1))
  }

  lemma BudgetsBound(script: seq<Turn>, from: nat, to: nat, chunkSize: int, attempt: nat, maxRetries: nat, initial: nat)
    requires from <= to <= |script| && BudgetsHold(script, from, to, chunkSize, attempt, maxRetries, initial)
    ensures FewCalls(script, from, to, initial, maxRetries)
    ensures to < |script| ==> FewCalls(script, from, to + 1, initial, maxRetries)
    ensures to - from < initial * (maxRetries + 1)
  {
    BudgetIsProduct(initial, maxRetries + 1);
    BudgetIsProduct(Bits(initial), maxRetries + 1);
    if to < |script| && NoneAdvertised(script, from, to + 1) {
      assert NoneAdvertised(script, from, to);
    }
  }

  /** The last call failed beyond remedy, with the thrown error. */
  ghost predicate GivesUpRightly(script: seq<Turn>, from: nat, to: nat, initial: int, maxRetries: nat,
                                 indefinitely: bool, e: RunError)
    requires from <= to <= |script|
  {
    && to > from && FailsForGood(script, from, to, initial, maxRetries, indefinitely)
    && e == ErrorOf(script[to - 1].logsFailure.value)
  }

  lemma GivenUpIsEarned(script: seq<Turn>, from: nat, to: nat, initial: int, maxRetries: nat, indefinitely: bool,
                        e: RunError)
    requires from <= to <= |script| && GivesUpRightly(script, from, to, initial, maxRetries, indefinitely, e)
    ensures Earned(script, from, to, maxRetries, e)
  {
    assert GaveUpBefore(script, from, to, maxRetries, e);
  }

  /** The loop's counter: how many passing failures in a row end here. */
  ghost predicate CountsStretch(script: seq<Turn>, from: nat, to: nat, attempt: nat)
    requires from <= to <= |script|
  {
    && attempt <= to - from && PassingStretch(script, to - attempt, to)
    && (attempt < to - from ==> !FailsInPassing(script[to - attempt - 1]))
  }

  lemma SpentExactlyWhen(script: seq<Turn>, from: nat, to: nat, attempt: nat, maxRetries: nat)
    requires from <= to < |script| && CountsStretch(script, from, to, attempt) && FailsInPassing(script[to])
    ensures SpentRetries(script, from, to + 1, maxRetries) <==> attempt >= maxRetries
    ensures CountsStretch(script, from, to + 1, attempt + 1)
  {
    if attempt < maxRetries && attempt < to - from {
      assert !FailsInPassing(script[to - attempt - 1]);
    }
  }

  /** The loop's state after the calls from `from` to `to`. */
  ghost predicate Trying(script: seq<Turn>, from: nat, to: nat, chunkSize: int, attempt: nat, initial: int,
                         maxRetries: nat, indefinitely: bool)
  {
    && from <= to <= |script| && GoesOn(script, from, to, initial, maxRetries, indefinitely)
    && chunkSize == SizeLeft(script, from, to, initial) && CountsStretch(script, from, to, attempt)
    && (initial >= 1 ==> 1 <= chunkSize <= initial)
    && (!indefinitely && initial >= 1 ==> BudgetsHold(script, from, to, chunkSize, attempt, maxRetries, initial))
  }

  /** What the policy makes of the failure is what the calls so far demand. */
  lemma FailureIsAnswered(script: seq<Turn>, from: nat, to: nat, chunkSize: int, attempt: nat, initial: int,
                          maxRetries: nat, indefinitely: bool)
    requires from <= to < |script| && script[to].logsFailure.Some? && chunkSize >= 1
    requires chunkSize == SizeLeft(script, from, to, initial) && CountsStretch(script, from, to, attempt)
    ensures var r := AfterFailure(script[to].logsFailure.value, chunkSize, attempt, maxRetries, indefinitely);
            && (r.GiveUp? <==> FailsForGood(script, from, to + 1, initial, maxRetries, indefinitely))
            && (r.GiveUp? ==> r.error == ErrorOf(script[to].logsFailure.value))
            && (r.Again? ==>
                  && r.chunkSize == SizeLeft(script, from, to + 1, initial) <= chunkSize && r.chunkSize >= 1
                  && CountsStretch(script, from, to + 1, r.attempt))
  {
    if FailsInPassing(script[to]) {
      SpentExactlyWhen(script, from, to, attempt, maxRetries);
    }
  }

  lemma KeepsTrying(script: seq<Turn>, from: nat, to: nat, chunkSize: int, attempt: nat, initial: int, maxRetries: nat,
                    indefinitely: bool)
    requires Trying(script, from, to, chunkSize, attempt, initial, maxRetries, indefinitely) && initial >= 1
    requires to < |script| && script[to].logsFailure.Some?
    ensures var r := AfterFailure(script[to].logsFailure.value, chunkSize, attempt, maxRetries, indefinitely);
            && (r.Again? ==> Trying(script, from, to + 1, r.chunkSize, r.attempt, initial, maxRetries, indefinitely))
            && (r.GiveUp? ==> GivesUpRightly(script, from, to + 1, initial, maxRetries, indefinitely, r.error))
  {
    FailureIsAnswered(script, from, to, chunkSize, attempt, initial, maxRetries, indefinitely);
    if !indefinitely {
      BudgetsAfterRetry(script, from, to, chunkSize, attempt, maxRetries, initial);
    }
  }

  lemma TriesAreFew(script: seq<Turn>, from: nat, to: nat, chunkSize: int, attempt: nat, initial: int, maxRetries: nat,
                    indefinitely: bool)
    requires Trying(script, from, to, chunkSize, attempt, initial, maxRetries, indefinitely)
    ensures !indefinitely && initial >= 1 ==>
              && FewCalls(script, from, to, initial, maxRetries)
              && (to < |script| ==> FewCalls(script, from, to + 1, initial, maxRetries))
              && to - from < initial * (maxRetries + 1)
  {
    if !indefinitely && initial >= 1 {
      BudgetsBound(script, from, to, chunkSize, attempt, maxRetries, initial);
    }
  }

  datatype Attempt = Done(fetch: Fetch) | Retrying(chunkSize: int, attempt: nat)

  /** One pass of the loop: the abort check, the plan, the call, and what its failure leads to. */
  method FetchOnce(env: Environment, scope: Scope, fromBlock: int, requestedToBlock: int, chunkSize: int, attempt: nat,
                   maxRetries: nat, retryRateLimitsIndefinitely: bool)
    returns (r: Attempt)
    requires env.Valid()
    modifies env`next
    ensures env.Valid()
    ensures old(env.Aborted()) ==> r == Done(FetchThrew(SignalAborted)) && env.next == old(env.next)
    ensures var plan := PlanBlockRange(fromBlock, requestedToBlock, chunkSize);
            !old(env.Aborted()) ==>
              if plan.Failure? then r == Done(FetchThrew(BadPlan(plan.error))) && env.next == old(env.next)
              else if old(env.next) == |env.script| then r == Done(FetchCut) && env.next == old(env.next)
              else
                && env.next == old(env.next) + 1
                && match env.script[old(env.next)].logsFailure
                   case None =>
                     && r.Done? && r.fetch.Fetched? && r.fetch.range == plan.value && r.fetch.chunkSize == chunkSize
                     && forall l :: l in r.fetch.logs <==> OnChain(env.world, scope, plan.value, l)
                   case Some(failure) =>
                     r == AfterwardsOf(
                       AfterFailure(failure, chunkSize, attempt, maxRetries, retryRateLimitsIndefinitely))
  {
    if env.Aborted() {
      return Done(FetchThrew(SignalAborted));
    }
    var plan := PlanBlockRange(fromBlock, requestedToBlock, chunkSize);
    if plan.Failure? {
      return Done(FetchThrew(BadPlan(plan.error)));
    }
    var reply := env.GetLogs(scope, plan.value);
    match reply
    case Cut => return Done(FetchCut);
    case Served(logs) => return Done(Fetched(plan.value, logs, chunkSize));
    case Declined(failure) =>
      return AfterwardsOf(AfterFailure(failure, chunkSize, attempt, maxRetries, retryRateLimitsIndefinitely));
  }

  function AfterwardsOf(retry: Retry): Attempt {
    match retry
    case GiveUp(error) => Done(FetchThrew(error))
    case Again(chunkSize, attempt) => Retrying(chunkSize, attempt)
  }

  /** Retries and shrinks until the provider serves a prefix of the requested range.  Every call but the last is a
      retryable failure.  With finite rate-limit retries it makes at most `initialChunkSize * (maxRetries + 1)` calls,
      and at most `Bits(initialChunkSize) * (maxRetries + 1)` when no failure advertises a limit. */
  method FetchLogsWithPolicy(env: Environment, scope: Scope, fromBlock: int, requestedToBlock: int,
                             initialChunkSize: int, maxRetries: nat, retryRateLimitsIndefinitely: bool)
    returns (fetch: Fetch)
    requires env.Valid()
    modifies env`next
    ensures env.Valid() && old(env.next) <= env.next
    ensures GoesOn(env.script, old(env.next), env.next - 1, initialChunkSize, maxRetries, retryRateLimitsIndefinitely)
    ensures env.next > old(env.next) ==> !AbortedBy(env.script, env.abortedAtStart, env.next - 1)
    ensures fetch.FetchCut? ==>
              && env.next == |env.script|
              && GoesOn(env.script, old(env.next), env.next, initialChunkSize, maxRetries, retryRateLimitsIndefinitely)
    ensures fetch.Fetched? ==>
              && env.next > old(env.next) && env.script[env.next - 1].logsFailure.None?
              && 1 <= fetch.chunkSize <= initialChunkSize
              && fetch.chunkSize == SizeLeft(env.script, old(env.next), env.next - 1, initialChunkSize)
              && PlanBlockRange(fromBlock, requestedToBlock, fetch.chunkSize) == Success(fetch.range)
              && forall l :: l in fetch.logs <==> OnChain(env.world, scope, fetch.range, l)
    ensures fetch.FetchThrew? ==> LogsFail(env.script, old(env.next), env.next)
    ensures fetch.FetchThrew? ==>
              || (fetch.error == SignalAborted && env.Aborted())
              || PlanBlockRange(fromBlock, requestedToBlock, initialChunkSize).Failure?
              || GivesUpRightly(env.script, old(env.next), env.next, initialChunkSize, maxRetries,
                                retryRateLimitsIndefinitely, fetch.error)
    ensures old(env.Aborted()) ==> fetch == FetchThrew(SignalAborted) && env.next == old(env.next)
    ensures !old(env.Aborted()) && PlanBlockRange(fromBlock, requestedToBlock, initialChunkSize).Failure? ==>
              && fetch == FetchThrew(BadPlan(PlanBlockRange(fromBlock, requestedToBlock, initialChunkSize).error))
              && env.next == old(env.next)
    ensures !retryRateLimitsIndefinitely && initialChunkSize >= 1 ==>
              && FewCalls(env.script, old(env.next), env.next, initialChunkSize, maxRetries)
              && (fetch.FetchCut? ==> env.next - old(env.next) < initialChunkSize * (maxRetries + 1))
  {
    var chunkSize, attempt: nat := initialChunkSize, 0;
    ghost var from := env.next;
    ghost var possible := !env.Aborted() && PlanBlockRange(fromBlock, requestedToBlock, initialChunkSize).Success?;
    while true
      invariant from <= env.next <= |env.script|
      invariant Trying(env.script, from, env.next, chunkSize, attempt, initialChunkSize, maxRetries,
                       retryRateLimitsIndefinitely)
      invariant env.next > from ==> possible && !AbortedBy(env.script, env.abortedAtStart, env.next - 1)
      decreases |env.script| - env.next
    {
      ghost var at := env.next;
      TriesAreFew(env.script, from, at, chunkSize, attempt, initialChunkSize, maxRetries, retryRateLimitsIndefinitely);
      GoingOnFails(env.script, from, at, initialChunkSize, maxRetries, retryRateLimitsIndefinitely);
      var outcome := FetchOnce(env, scope, fromBlock, requestedToBlock, chunkSize, attempt, maxRetries,
                               retryRateLimitsIndefinitely);
      if outcome.Done? && !outcome.fetch.FetchThrew? {
        return outcome.fetch;
      }
      if env.next > at {
        KeepsTrying(env.script, from, at, chunkSize, attempt, initialChunkSize, maxRetries,
                    retryRateLimitsIndefinitely);
      }
      if outcome.Done? {
        return outcome.fetch;
      }
      chunkSize, attempt := outcome.chunkSize, outcome.attempt;
    }
  }
}
