/** The world a run meets: a finalized chain behind a provider, a database connection and an abort signal that answer,
    fail or fire as a script says.

    The script holds one turn for each remote call; a run that finds no turn left is killed there.  Every cut of a
    script is again a script, so a contract that holds for all scripts holds at every crash point. */
module RunEnvironment {
  import opened Wrappers
  import opened Planner
  import opened EvidenceStore

  type Limit = n: int | n >= 1 witness 1

  datatype RpcFailure = DailyQuota | Classified(errorClass: RpcErrorClass, advertisedLimit: Option<Limit>)

  datatype RunError =
    | QuotaExhausted | RpcError(errorClass: RpcErrorClass) | SignalAborted | BadPlan(plan: PlanError)
    | BeyondFinalizedHead | CheckpointHashDrift | StoredBlockHashDrift | StoreFailed | NoProviders

  datatype IngestOptions = IngestOptions(
    scope: Scope, fromBlock: nat, toBlock: int, chunkSize: int, maxRetries: nat, retryRateLimitsIndefinitely: bool,
    anchorEveryChunks: nat, fetchConcurrency: int, blocks: BlockFetchOptions)

  datatype BlockFetchOptions = BlockFetchOptions(concurrency: int, batchSize: int, batchConcurrency: int)

  datatype RunOutcome =
    | Noop(nextBlock: int)
    | Completed(nextBlock: int, chunkSize: int)
    | Interrupted(nextBlock: int, chunkSize: int)
    | Threw(error: RunError)
    | Killed

  /** How the environment answers one call, should it be a request for logs or for anything else from the provider, a
      chunk's transaction or another statement to the database, and whether the abort signal fires meanwhile. */
  datatype Turn = Turn(
    failure: Option<RpcFailure>, logsFailure: Option<RpcFailure>, height: nat, commit: CommitOutcome,
    statementFails: bool, abort: bool)

  datatype LogsReply = Served(logs: seq<Log>) | Declined(failure: RpcFailure) | Cut

  function ErrorOf(failure: RpcFailure): RunError {
    if failure.DailyQuota? then QuotaExhausted else RpcError(failure.errorClass)
  }

  /** Whether a turn's answer to a call other than for logs is one that the error reports. */
  predicate Blames(t: Turn, e: RunError) {
    || (t.failure.Some? && e == ErrorOf(t.failure.value))
    || (e == StoreFailed && (t.statementFails || t.commit != Acknowledged))
  }

  ghost predicate Blamed(script: seq<Turn>, from: nat, to: nat, e: RunError)
    requires to <= |script|
  {
    exists i :: from <= i < to && Blames(script[i], e)
  }

  /** Every request for logs among these turns fails. */
  ghost predicate LogsFail(script: seq<Turn>, from: nat, to: int)
    requires to <= |script|
  {
    forall i :: from <= i < to ==> script[i].logsFailure.Some?
  }

  predicate IsPassing(e: RunError) { e == RpcError(Transient) || e == RpcError(RateLimit) }

  /** A request for logs at this turn fails in a way that may pass. */
  predicate FailsInPassing(t: Turn) { t.logsFailure.Some? && IsPassing(ErrorOf(t.logsFailure.value)) }

  ghost predicate PassingStretch(script: seq<Turn>, from: nat, to: nat)
    requires to <= |script|
  {
    forall i :: from <= i < to ==> FailsInPassing(script[i])
  }

  /** The failed request for logs before turn `n` reports the error: a passing one only at the end of more passing
      failures in a row than there are retries. */
  ghost predicate GaveUpBefore(script: seq<Turn>, from: nat, n: nat, retries: nat, e: RunError)
    requires 0 < n <= |script|
  {
    && script[n - 1].logsFailure.Some? && e == ErrorOf(script[n - 1].logsFailure.value)
    && (IsPassing(e) ==> n - from > retries && PassingStretch(script, n - (retries + 1), n))
  }

  ghost predicate GaveUp(script: seq<Turn>, from: nat, to: nat, retries: nat, e: RunError)
    requires to <= |script|
  {
    exists n :: from < n <= to && GaveUpBefore(script, from, n, retries, e)
  }

  /** Some turn gave reason for the error. */
  ghost predicate Earned(script: seq<Turn>, from: nat, to: nat, retries: nat, e: RunError)
    requires to <= |script|
  {
    Blamed(script, from, to, e) || GaveUp(script, from, to, retries, e)
  }

  lemma EarnedEarlier(script: seq<Turn>, from: nat, at: nat, to: nat, retries: nat, e: RunError)
    requires from <= at && to <= |script| && Earned(script, at, to, retries, e)
    ensures Earned(script, from, to, retries, e)
  {
    if GaveUp(script, at, to, retries, e) {
      var n :| at < n <= to && GaveUpBefore(script, at, n, retries, e);
      assert GaveUpBefore(script, from, n, retries, e);
    }
  }

  /** From `from` on only requests for logs fail, with passing errors and never more often in a row than there are
      retries; nothing is refused, loses its acknowledgement or is aborted. */
  ghost predicate Passable(script: seq<Turn>, from: nat, retries: nat) {
    && (forall i :: from <= i < |script| ==>
          && script[i].failure.None? && script[i].commit == Acknowledged && !script[i].statementFails
          && !script[i].abort
          && (script[i].logsFailure.Some? ==> IsPassing(ErrorOf(script[i].logsFailure.value))))
    && (forall j, k :: from <= j <= k <= |script| && PassingStretch(script, j, k) ==> k - j <= retries)
  }

  /** Whether the signal fires before the first call or during the first `n` turns. */
  predicate AbortedBy(script: seq<Turn>, atStart: bool, n: nat)
    requires n <= |script|
  {
    atStart || exists i :: 0 <= i < n && script[i].abort
  }

  /** One run as an observer sees it: what was asked, and how it ended. */
  datatype RunRecord = RunRecord(options: IngestOptions, outcome: RunOutcome)

  class Environment {
    const world: World
    const script: seq<Turn>
    const abortedAtStart: bool
    var next: nat
    ghost var runs: seq<RunRecord>

    ghost predicate Valid()
      reads this
    {
      next <= |script|
    }

    /** The abort signal has fired by now. */
    predicate Aborted()
      reads this
      requires Valid()
    {
      AbortedBy(script, abortedAtStart, next)
    }

    constructor (world: World, script: seq<Turn>, aborted: bool)
      ensures Valid() && next == 0 && runs == []
      ensures this.world == world && this.script == script && abortedAtStart == aborted
    {
      this.world, this.script, abortedAtStart, next := world, script, aborted, 0;
      runs := [];
    }

    /** Takes the next turn, or reports that the process is cut off. */
    method Next() returns (turn: Option<Turn>)
      requires Valid()
      modifies this`next
      ensures Valid()
      ensures old(next) == |script| ==> turn == None && next == old(next)
      ensures old(next) < |script| ==> turn == Some(script[old(next)]) && next == old(next) + 1
    {
      if next == |script| {
        return None;
      }
      turn := Some(script[next]);
      next := next + 1;
    }

    /** Serves exactly the chain's logs of a range, or fails, as the turn says. */
    method GetLogs(scope: Scope, range: BlockRange) returns (reply: LogsReply)
      requires Valid()
      modifies this`next
      ensures Valid()
      ensures old(next) == |script| ==> reply == Cut && next == old(next)
      ensures old(next) < |script| ==>
                && next == old(next) + 1
                && match script[old(next)].logsFailure
                   case Some(failure) => reply == Declined(failure)
                   case None => reply.Served? && forall l :: l in reply.logs <==> OnChain(world, scope, range, l)
    {
      var turn := Next();
      if turn.None? {
        return Cut;
      }
      if turn.value.logsFailure.Some? {
        return Declined(turn.value.logsFailure.value);
      }
      var left := set n: nat, l | n <= range.toBlock && l in world.logsAt(n) && OnChain(world, scope, range, l) :: l;
      ghost var all := left;
      var logs: seq<Log> := [];
      while left != {}
        invariant left <= all && forall l :: l in logs <==> l in all - left
        decreases left
      {
        var l :| l in left;
        logs, left := logs + [l], left - {l};
      }
      return Served(logs);
    }
  }

  /** How many of these turns would have served a request for logs. */
  function Serving(script: seq<Turn>, from: nat, to: nat): nat
    requires from <= to <= |script|
  {
    if to == from then 0 else Serving(script, from, to - 1) + if script[to - 1].logsFailure.None? then 1 else 0
  }

  lemma {:induction false} ServingAdds(script: seq<Turn>, from: nat, at: nat, to: nat)
    requires from <= at <= to <= |script|
    ensures Serving(script, from, to) == Serving(script, from, at) + Serving(script, at, to)
    ensures Serving(script, at, to) <= to - at
  {
    if to > at {
      ServingAdds(script, from, at, to - 1);
    }
  }

  lemma {:induction false} FailingServesNothing(script: seq<Turn>, from: nat, to: nat)
    requires from <= to <= |script| && LogsFail(script, from, to)
    ensures Serving(script, from, to) == 0
  {
    if to > from {
      FailingServesNothing(script, from, to - 1);
    }
  }

  /** At most `budget` serving turns were taken from `from` to `to`. */
  ghost predicate Paced(script: seq<Turn>, from: nat, to: nat, budget: int) {
    from <= to <= |script| && Serving(script, from, to) <= budget
  }

  lemma PacedOn(script: seq<Turn>, from: nat, at: nat, to: nat, spent: int, more: int)
    requires Paced(script, from, at, spent) && Paced(script, at, to, more)
    ensures Paced(script, from, to, spent + more)
  {
    ServingAdds(script, from, at, to);
  }

  lemma FewTurnsArePaced(script: seq<Turn>, from: nat, to: nat, budget: int)
    requires from <= to <= |script| && to - from <= budget
    ensures Paced(script, from, to, budget)
  {
    ServingAdds(script, from, from, to);
  }

  lemma PassableEarnsNothing(script: seq<Turn>, from: nat, to: nat, retries: nat, e: RunError)
    requires to <= |script| && Passable(script, from, retries)
    ensures !Earned(script, from, to, retries, e)
  {
    forall n | from < n <= to ensures !GaveUpBefore(script, from, n, retries, e) {
      assert script[n - 1].logsFailure.Some? ==> IsPassing(ErrorOf(script[n - 1].logsFailure.value));
    }
  }
}
