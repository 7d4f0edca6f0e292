/** Native yield over a block window, and its independent reconciliation against the rate integration. */
module YieldReconciliation {
  import opened Wrappers
  import opened Sorting
  import opened Sums
  import opened Planner
  import opened SavingsMath
  import opened YieldIntegration

  // Native yield over a (start, end] window.

  datatype Accrual = Accrual(blockNumber: int, interest: int)

  datatype BoundarySnapshot = BoundarySnapshot(pendingYield: int, invalid: bool)

  datatype RangeYield =
    | EndNotAfterStart | NegativeYield | CoverageIncomplete | SnapshotMissing | SnapshotInvalid
    | Candidate(accruedInterest: int, nativeYpo: int)

  function InterestWithin(accruals: seq<Accrual>, fromBlock: int, toBlock: int): int {
    Sum(accruals, (a: Accrual) => if fromBlock < a.blockNumber <= toBlock then a.interest else 0)
  }

  /** The published window, given the interest emitted inside it. */
  ghost function YieldWith(
    coverage: set<BlockRange>, snapshots: map<int, BoundarySnapshot>, accrued: int, fromBlock: int,
    toBlock: int): RangeYield
  {
    if toBlock <= fromBlock then EndNotAfterStart
    else if !CoverageComplete(coverage, fromBlock, toBlock) then CoverageIncomplete
    else if fromBlock !in snapshots || toBlock !in snapshots then SnapshotMissing
    else if snapshots[fromBlock].invalid || snapshots[toBlock].invalid then SnapshotInvalid
    else
      match CalculateNativeYpo(accrued, snapshots[fromBlock].pendingYield, snapshots[toBlock].pendingYield)
      case Failure(_) => NegativeYield
      case Success(ypo) => Candidate(accrued, ypo)
  }

  ghost function SavingsYieldForRange(
    coverage: set<BlockRange>, snapshots: map<int, BoundarySnapshot>, accruals: seq<Accrual>, fromBlock: int,
    toBlock: int): RangeYield
  {
    YieldWith(coverage, snapshots, InterestWithin(accruals, fromBlock, toBlock), fromBlock, toBlock)
  }

  lemma {:induction false} InterestTelescopes(accruals: seq<Accrual>, a: int, b: int, c: int)
    requires a <= b <= c
    ensures InterestWithin(accruals, a, c) == InterestWithin(accruals, a, b) + InterestWithin(accruals, b, c)
  {
    if accruals != [] {
      InterestTelescopes(accruals[..|accruals| - 1], a, b, c);
    }
  }

  /** Windows that share a boundary block: when both publish, so does their union in any scope that holds both scopes'
      rows, with exactly the summed yield. */
  lemma AdjacentWindowsAdd(
    coverage: set<BlockRange>, nextCoverage: set<BlockRange>, wholeCoverage: set<BlockRange>,
    snapshots: map<int, BoundarySnapshot>, accruals: seq<Accrual>, a: int, b: int, c: int)
    requires coverage <= wholeCoverage && nextCoverage <= wholeCoverage
    requires SavingsYieldForRange(coverage, snapshots, accruals, a, b).Candidate?
    requires SavingsYieldForRange(nextCoverage, snapshots, accruals, b, c).Candidate?
    ensures var whole := SavingsYieldForRange(wholeCoverage, snapshots, accruals, a, c);
            && whole.Candidate? && whole.nativeYpo >= 0
            && whole.nativeYpo == SavingsYieldForRange(coverage, snapshots, accruals, a, b).nativeYpo
                                + SavingsYieldForRange(nextCoverage, snapshots, accruals, b, c).nativeYpo
  {
    CoverageWidens(coverage, wholeCoverage, a, b);
    CoverageWidens(nextCoverage, wholeCoverage, b, c);
    CoverageComposes(wholeCoverage, a, b, c);
    InterestTelescopes(accruals, a, b, c);
  }

  /** No row reaches over the block. */
  predicate Bare(rows: set<BlockRange>, b: int) { forall row :: row in rows ==> b < row.fromBlock || row.toBlock < b }

  ghost predicate HasBareBlock(rows: set<BlockRange>, fromBlock: int, toBlock: int) {
    exists b :: fromBlock <= b <= toBlock && Bare(rows, b)
  }

  lemma BareBlocksAreGaps(rows: set<BlockRange>, fromBlock: int, toBlock: int)
    ensures CoverageComplete(rows, fromBlock, toBlock) <==> !HasBareBlock(rows, fromBlock, toBlock)
  {
    forall b ensures CoveredBy(rows, b) <==> !Bare(rows, b) {
      if row :| row in rows && !(b < row.fromBlock || row.toBlock < b) {
        assert Contains(row, b);
      }
    }
  }

  function EarnedIn(fromBlock: int, toBlock: int): Accrual -> int {
    (a: Accrual) => if a.blockNumber <= fromBlock || a.blockNumber > toBlock then 0 else a.interest
  }

  lemma {:induction false} InterestIsEarnedIn(accruals: seq<Accrual>, fromBlock: int, toBlock: int)
    ensures InterestWithin(accruals, fromBlock, toBlock) == Sum(accruals, EarnedIn(fromBlock, toBlock))
  {
    if accruals != [] {
      InterestIsEarnedIn(accruals[..|accruals| - 1], fromBlock, toBlock);
    }
  }

  /** A window's result in full: the first reason against it in this order, or else the interest of the accruals behind
      its start block and the gain with the change in pending yield. */
  lemma SavingsYieldExactlyWhen(coverage: set<BlockRange>, snapshots: map<int, BoundarySnapshot>,
                                accruals: seq<Accrual>, fromBlock: int, toBlock: int)
    ensures var r := SavingsYieldForRange(coverage, snapshots, accruals, fromBlock, toBlock);
            var earned := Sum(accruals, EarnedIn(fromBlock, toBlock));
            if toBlock <= fromBlock then r == EndNotAfterStart
            else if HasBareBlock(coverage, fromBlock, toBlock) then r == CoverageIncomplete
            else if fromBlock !in snapshots || toBlock !in snapshots then r == SnapshotMissing
            else if snapshots[fromBlock].invalid || snapshots[toBlock].invalid then r == SnapshotInvalid
            else
              var gain := earned + snapshots[toBlock].pendingYield - snapshots[fromBlock].pendingYield;
              r == if gain < 0 then NegativeYield else Candidate(earned, gain)
  {
    BareBlocksAreGaps(coverage, fromBlock, toBlock);
    InterestIsEarnedIn(accruals, fromBlock, toBlock);
  }

  // Reconciliation of one stored row.

  datatype Snapshot = Snapshot(totalAssets: int, actualAssets: int, rate: int, lastUpdate: int, timestamp: int)

  datatype Row = Row(start: Snapshot, end: Snapshot, accruedInterest: int, nativeYpo: int)

  /** The row's native yield was computed from its own boundary snapshots. */
  predicate FromSnapshots(row: Row) {
    match CalculatePendingYield(row.start.totalAssets, row.start.actualAssets)
    case Failure(_) => false
    case Success(pendingAtStart) =>
      match CalculatePendingYield(row.end.totalAssets, row.end.actualAssets)
      case Failure(_) => false
      case Success(pendingAtEnd) =>
        CalculateNativeYpo(row.accruedInterest, pendingAtStart, pendingAtEnd) == Success(row.nativeYpo)
  }

  lemma FromSnapshotsMeans(row: Row)
    ensures FromSnapshots(row) <==>
            && row.start.totalAssets >= row.start.actualAssets && row.end.totalAssets >= row.end.actualAssets
            && row.nativeYpo >= 0
            && row.nativeYpo == row.accruedInterest + (row.end.totalAssets - row.end.actualAssets)
                                - (row.start.totalAssets - row.start.actualAssets)
  {
  }

  datatype Reason =
    | SegmentedRequired | InvalidBoundaryTimeOrder | ConstantRateExact | RateMismatch
    | SegmentedExact | EventPendingAndRateStateExact | RateStateMismatch

  datatype Status = StatusCandidate | StatusVerified | StatusInvalid

  datatype Verdict = Verdict(status: Status, reason: Reason, ypoDelta: int)

  predicate StableBasis(row: Row) {
    && row.start.actualAssets == row.end.actualAssets && row.start.rate == row.end.rate
    && row.start.lastUpdate == row.end.lastUpdate && row.accruedInterest == 0
  }

  function ReconcileConstantRateWindow(row: Row): Verdict {
    if !StableBasis(row) then Verdict(StatusCandidate, SegmentedRequired, 0) else
      var startElapsed := row.start.timestamp - row.start.lastUpdate;
      var endElapsed := row.end.timestamp - row.end.lastUpdate;
      if startElapsed < 0 || endElapsed < startElapsed then Verdict(StatusInvalid, InvalidBoundaryTimeOrder, 0) else
        var predictedStart := ComputeUpdatedAssets(row.start.actualAssets, row.start.rate, startElapsed);
        var predictedEnd := ComputeUpdatedAssets(row.end.actualAssets, row.end.rate, endElapsed);
        var ypo := predictedEnd - predictedStart;
        if predictedStart == row.start.totalAssets && predictedEnd == row.end.totalAssets && ypo == row.nativeYpo
        then Verdict(StatusVerified, ConstantRateExact, 0)
        else Verdict(StatusInvalid, RateMismatch, ypo - row.nativeYpo)
  }

  function WindowOf(row: Row): Window {
    Window(row.start.actualAssets, row.start.totalAssets, row.start.rate, row.start.lastUpdate,
           row.start.timestamp, row.end.timestamp)
  }

  predicate StateExact(row: Row, r: Summary) {
    && r.predictedTotal == row.end.totalAssets && r.actualAssets == row.end.actualAssets
    && r.rate == row.end.rate && r.emittedAccrued == row.accruedInterest
  }

  function SegmentedVerdict(row: Row, r: Summary): Verdict {
    Verdict(if StateExact(row, r) then StatusVerified else StatusInvalid,
            if !StateExact(row, r) then RateStateMismatch
            else if r.integratedYpo == row.nativeYpo then SegmentedExact else EventPendingAndRateStateExact,
            r.integratedYpo - row.nativeYpo)
  }

  /** The final verdict: constant-rate when the basis is stable, otherwise by segmented integration, which can throw. */
  function VerdictOf(row: Row, events: seq<SegmentEvent>): Result<Verdict, IntegrationError> {
    var constant := ReconcileConstantRateWindow(row);
    if constant.status != StatusCandidate then Success(constant) else
    match Integrated(WindowOf(row), events)
    case Failure(e) => Failure(e)
    case Success(r) => Success(SegmentedVerdict(row, r))
  }

  class YieldAggregate {
    const row: Row
    var reconciliationStatus: Status

    constructor (row: Row)
      ensures this.row == row && reconciliationStatus == StatusCandidate
    {
      this.row, reconciliationStatus := row, StatusCandidate;
    }

    /** Stores the verdict's status; a thrown integration stores nothing. */
    method Reconcile(events: seq<SegmentEvent>) returns (r: Result<Verdict, IntegrationError>)
      modifies this
      ensures r == VerdictOf(row, events)
      ensures reconciliationStatus == if r.Success? then r.value.status else old(reconciliationStatus)
      ensures r.Success? ==> reconciliationStatus != StatusCandidate
    {
      var verdict := ReconcileConstantRateWindow(row);
      if verdict.status == StatusCandidate {
        var integrated := IntegrateSegmentedRateWindow(WindowOf(row), events);
        if integrated.Failure? {
          return Failure(integrated.error);
        }
        verdict := SegmentedVerdict(row, integrated.value);
      }
      if verdict.status == StatusVerified {
        reconciliationStatus := StatusVerified;
      } else if verdict.status == StatusInvalid {
        reconciliationStatus := StatusInvalid;
      }
      return Success(verdict);
    }
  }

  /** A row that integration decides is verified if and only if the integrated total, balance, rate and emitted interest
      are the end snapshot's and the row's, and invalid otherwise; whether its yield is exact only shows in the
      reason. */
  lemma SegmentedVerdictExactlyWhen(row: Row, events: seq<SegmentEvent>, outcome: Outcome)
    requires row.start.actualAssets != row.end.actualAssets || row.start.rate != row.end.rate
             || row.start.lastUpdate != row.end.lastUpdate || row.accruedInterest != 0
    requires outcome == Integrated(Window(row.start.actualAssets, row.start.totalAssets, row.start.rate,
                                          row.start.lastUpdate, row.start.timestamp, row.end.timestamp), events)
    ensures outcome.Failure? ==> VerdictOf(row, events) == Failure(outcome.error)
    ensures outcome.Success? ==> VerdictOf(row, events).Success?
    ensures outcome.Success? ==>
              var v, r := VerdictOf(row, events).value, outcome.value;
              var agrees :=
                && r.predictedTotal == row.end.totalAssets && r.actualAssets == row.end.actualAssets
                && r.rate == row.end.rate && r.emittedAccrued == row.accruedInterest;
              && v.ypoDelta == r.integratedYpo - row.nativeYpo
              && (agrees && v.ypoDelta == 0 ==> v.status == StatusVerified && v.reason == SegmentedExact)
              && (agrees && v.ypoDelta != 0 ==> v.status == StatusVerified && v.reason == EventPendingAndRateStateExact)
              && (!agrees ==> v.status == StatusInvalid && v.reason == RateStateMismatch)
  {
  }

  /** A row on a stable basis is verified if and only if its times are in order, both totals are what its balance earns
      since the last update, and their difference is the row's yield. */
  lemma ConstantVerdictExactlyWhen(row: Row, events: seq<SegmentEvent>)
    requires row.start.actualAssets == row.end.actualAssets && row.start.rate == row.end.rate
    requires row.start.lastUpdate == row.end.lastUpdate && row.accruedInterest == 0
    ensures VerdictOf(row, events).Success?
    ensures var v, update := VerdictOf(row, events).value, row.start.lastUpdate;
            var start := ComputeUpdatedAssets(row.start.actualAssets, row.start.rate, row.start.timestamp - update);
            var end := ComputeUpdatedAssets(row.start.actualAssets, row.start.rate, row.end.timestamp - update);
            if !(update <= row.start.timestamp <= row.end.timestamp)
            then v == Verdict(StatusInvalid, InvalidBoundaryTimeOrder, 0)
            else if start == row.start.totalAssets && end == row.end.totalAssets && end - start == row.nativeYpo
            then v == Verdict(StatusVerified, ConstantRateExact, 0)
            else v == Verdict(StatusInvalid, RateMismatch, end - start - row.nativeYpo)
  {
  }

  lemma OneAccrual(w: Window, interest: int, total: int)
    requires w.lastUpdate <= w.startTime <= w.endTime
    ensures var r := Integrated(w, [Accrued(w.endTime, 0, interest)]);
            && r.Success? && r.value.actualAssets == w.actualAssets + interest == r.value.predictedTotal
            && r.value.rate == w.rate && r.value.emittedAccrued == interest && r.value.lastUpdate == w.endTime
            && r.value.integratedYpo
               == ComputeUpdatedAssets(w.actualAssets, w.rate, w.endTime - w.lastUpdate) - w.totalAssets
  {
    var s := [Accrued(w.endTime, 0, interest)];
    SortOfSorted(s, BY_KEY);
    assert s[..0] == [];
    assert Fold(Opening(w), s, w.startTime, w.endTime) == Apply(Opening(w), s[0], w.startTime, w.endTime);
  }

  /** Such rows with a variance: an accrual that is off its prediction by any amount leaves a verified row whose yield
      delta is minus that amount. */
  lemma VariantRowVerifies(balance: nat, rate: nat, off: int, row: Row, events: seq<SegmentEvent>)
    requires var interest := ComputeUpdatedAssets(balance, rate, 1) - balance + off;
             && interest >= 0 && events == [Accrued(1, 0, interest)]
             && row == Row(Snapshot(balance, balance, rate, 0, 0),
                           Snapshot(balance + interest, balance + interest, rate, 1, 1), interest, interest)
    ensures FromSnapshots(row) && VerdictOf(row, events).Success?
    ensures var v := VerdictOf(row, events).value;
            && v.status == StatusVerified && v.ypoDelta == -off
            && v.reason == (if off == 0 then SegmentedExact else EventPendingAndRateStateExact)
  {
    OneAccrual(WindowOf(row), row.accruedInterest, row.end.totalAssets);
    SegmentedVerdictExactlyWhen(row, events, Integrated(WindowOf(row), events));
  }

  /** A verified segmented row misses its native yield by exactly the accrual variance, so it is "exact" if and only if
      every emitted accrual was the predicted one in total; and its assets balance. */
  lemma VerifiedSegmentedMeaning(row: Row, events: seq<SegmentEvent>)
    requires FromSnapshots(row) && !StableBasis(row) && Integrated(WindowOf(row), events).Success?
    requires VerdictOf(row, events).Success? && VerdictOf(row, events).value.status == StatusVerified
    ensures var v, r := VerdictOf(row, events).value, Integrated(WindowOf(row), events).value;
            && v.ypoDelta == -(r.emittedAccrued - r.predictedAccrued)
            && (v.reason == SegmentedExact <==> r.accruedVariance == 0)
            && (v.reason != SegmentedExact <==> v.reason == EventPendingAndRateStateExact)
    ensures row.end.actualAssets ==
              row.start.actualAssets + row.accruedInterest + Sum(events, DepositOf) - Sum(events, WithdrawalOf)
    ensures row.end.totalAssets - row.end.actualAssets == Integrated(WindowOf(row), events).value.predictedPending
    ensures row.end.rate == Integrated(WindowOf(row), events).value.rate
  {
    ReconciliationIdentity(WindowOf(row), events);
  }

  /** On a stable basis the constant-rate check verifies exactly when the start total is the predicted one and segmented
      integration of no events would have verified the row as exact. */
  lemma VerifiedConstantIsSegmentedOfNothing(row: Row)
    requires StableBasis(row)
    ensures ReconcileConstantRateWindow(row).status == StatusVerified <==>
            && Integrated(WindowOf(row), []).Success?
            && row.start.totalAssets
               == ComputeUpdatedAssets(row.start.actualAssets, row.start.rate,
                                         row.start.timestamp - row.start.lastUpdate)
            && SegmentedVerdict(row, Integrated(WindowOf(row), []).value) == Verdict(StatusVerified, SegmentedExact, 0)
  {
    assert Ordered([]) == [];
    assert Fold(Opening(WindowOf(row)), [], row.start.timestamp, row.end.timestamp) == Success(Opening(WindowOf(row)));
  }

  // Joining adjacent rows.

  predicate Verified(row: Row, events: seq<SegmentEvent>) {
    VerdictOf(row, events).Success? && VerdictOf(row, events).value.status == StatusVerified
  }

  predicate Refuted(row: Row, events: seq<SegmentEvent>) {
    VerdictOf(row, events).Success? && VerdictOf(row, events).value.status == StatusInvalid
  }

  /** The segmented check alone. */
  predicate IntegratedExactly(row: Row, events: seq<SegmentEvent>) {
    Integrated(WindowOf(row), events).Success? && StateExact(row, Integrated(WindowOf(row), events).value)
  }

  lemma SegmentsDecide(row: Row, events: seq<SegmentEvent>)
    requires !StableBasis(row)
    ensures Verified(row, events) <==> IntegratedExactly(row, events)
    ensures Refuted(row, events) <==> Integrated(WindowOf(row), events).Success? && !IntegratedExactly(row, events)
  {
  }

  function JoinedRow(first: Row, second: Row): Row {
    Row(first.start, second.end, first.accruedInterest + second.accruedInterest, first.nativeYpo + second.nativeYpo)
  }

  predicate InKeyOrder(s: seq<SegmentEvent>, t: seq<SegmentEvent>) { forall x, y :: x in s && y in t ==> KeyLe(x, y) }

  /** The shared snapshot's last update is the one the first integration ended on. */
  predicate EndsOnItsUpdate(first: Row, s: seq<SegmentEvent>)
    requires Integrated(WindowOf(first), s).Success?
  {
    Integrated(WindowOf(first), s).value.lastUpdate == first.end.lastUpdate
  }

  lemma SegmentsCompose(first: Row, second: Row, s: seq<SegmentEvent>, t: seq<SegmentEvent>)
    requires first.end == second.start && IntegratedExactly(first, s) && IntegratedExactly(second, t)
    requires EndsOnItsUpdate(first, s) && InKeyOrder(s, t)
    ensures IntegratedExactly(JoinedRow(first, second), s + t)
    ensures Integrated(WindowOf(JoinedRow(first, second)), s + t).value.integratedYpo
         == Integrated(WindowOf(first), s).value.integratedYpo + Integrated(WindowOf(second), t).value.integratedYpo
  {
    var w, m := WindowOf(JoinedRow(first, second)), first.end.timestamp;
    IntegratedWithin(WindowOf(first), s);
    IntegratedWithin(WindowOf(second), t);
    WindowSplitLaw(w, m, s, t);
    assert w.(endTime := m) == WindowOf(first);
    assert Continuation(Integrated(WindowOf(first), s).value, m, w.endTime) == WindowOf(second);
  }

  /** Two adjacent rows that integration verified make one that it verifies, with the yield deltas added, provided
      that the shared snapshot's last update is the one the first integration ended on, which the verdict does not
      compare. */
  lemma VerifiedRowsCompose(first: Row, second: Row, s: seq<SegmentEvent>, t: seq<SegmentEvent>)
    requires first.end == second.start && Verified(first, s) && Verified(second, t)
    requires !StableBasis(first) && !StableBasis(second) && !StableBasis(JoinedRow(first, second))
    requires EndsOnItsUpdate(first, s) && InKeyOrder(s, t)
    ensures Verified(JoinedRow(first, second), s + t)
    ensures VerdictOf(JoinedRow(first, second), s + t).value.ypoDelta
         == VerdictOf(first, s).value.ypoDelta + VerdictOf(second, t).value.ypoDelta
  {
    SegmentsCompose(first, second, s, t);
  }

  /** Two adjacent rows that the constant-rate check verified make one that it verifies. */
  lemma StableRowsCompose(first: Row, second: Row, events: seq<SegmentEvent>)
    requires first.end == second.start && StableBasis(first) && StableBasis(second)
    requires Verified(first, events) && Verified(second, events)
    ensures StableBasis(JoinedRow(first, second)) && Verified(JoinedRow(first, second), events)
  {
  }

  /** A row that the constant-rate check verified, without events, joins to every row that integration verified. */
  lemma StableRowJoinsNext(first: Row, second: Row, t: seq<SegmentEvent>)
    requires first.end == second.start && StableBasis(first) && !StableBasis(second)
    requires Verified(first, []) && Verified(second, t)
    ensures Verified(JoinedRow(first, second), t)
  {
    VerifiedConstantIsSegmentedOfNothing(first);
    IntegratedOfNothing(WindowOf(first));
    SegmentsCompose(first, second, [], t);
    assert [] + t == t;
  }

  /** A row that integration verified joins to an eventless row that the constant-rate check verified, when the shared
      snapshot has the integrated last update. */
  lemma RowJoinsStableNext(first: Row, second: Row, s: seq<SegmentEvent>)
    requires first.end == second.start && !StableBasis(first) && StableBasis(second)
    requires Verified(first, s) && Verified(second, []) && EndsOnItsUpdate(first, s)
    requires !StableBasis(JoinedRow(first, second))
    ensures Verified(JoinedRow(first, second), s)
  {
    VerifiedConstantIsSegmentedOfNothing(second);
    SegmentsCompose(first, second, s, []);
    assert s + [] == s;
  }

  lemma IntegratedOfNothing(w: Window)
    requires BoundariesOrdered(w)
    ensures Integrated(w, []) == Success(Close(Opening(w), w.endTime))
  {
    assert Ordered([]) == [];
    assert Fold(Opening(w), [], w.startTime, w.endTime) == Success(Opening(w));
  }

  /** A stored row with natural events that follows `first` and is decided, like the joined row, by integration. */
  predicate FollowsSegmented(first: Row, second: Row, s: seq<SegmentEvent>, t: seq<SegmentEvent>) {
    && first.end == second.start && FromSnapshots(second) && InKeyOrder(s, t)
    && (forall e :: e in t ==> NaturalAmounts(e))
    && !StableBasis(second) && !StableBasis(JoinedRow(first, second))
  }

  ghost predicate AlwaysJoins(first: Row, s: seq<SegmentEvent>) {
    forall second, t :: FollowsSegmented(first, second, s, t) && Verified(second, t) ==>
      Verified(JoinedRow(first, second), s + t)
  }

  /** A verified row joins to every verified row that can follow it if and only if its end snapshot's last update is the
      one that its integration ended on, or lies after the snapshot, so that no verified row can follow. */
  lemma RowAlwaysJoinsExactlyWhen(first: Row, s: seq<SegmentEvent>)
    requires FromSnapshots(first) && !StableBasis(first) && Verified(first, s)
    ensures AlwaysJoins(first, s) <==> EndsOnItsUpdate(first, s) || first.end.lastUpdate > first.end.timestamp
  {
    if EndsOnItsUpdate(first, s) || first.end.lastUpdate > first.end.timestamp {
      forall second, t | FollowsSegmented(first, second, s, t) && Verified(second, t)
        ensures Verified(JoinedRow(first, second), s + t)
      {
        VerifiedRowsCompose(first, second, s, t);
      }
    } else {
      var second, t := UncheckedLastUpdateBreaksJoining(first, s);
    }
  }

  /** A second later a deposit fills the vault up to a balance, and the rate is set to the least one. */
  function FillUp(first: Row, balance: int): seq<SegmentEvent> {
    var time := first.end.timestamp + 1;
    [Deposit(time, 0, balance - first.end.actualAssets), RateUpdated(time, 1, 1)]
  }

  /** The row of those events, as its own snapshots tell it. */
  function FilledUpRow(first: Row, balance: int, total: int): Row {
    Row(first.end, Snapshot(total, balance, 1, first.end.lastUpdate, first.end.timestamp + 1), 0,
        total - balance - (first.end.totalAssets - first.end.actualAssets))
  }

  /** A window that those events leave with the given total. */
  predicate FillsUp(first: Row, balance: int, w: Window, total: int) {
    var r := Integrated(w, FillUp(first, balance));
    && r.Success? && r.value.actualAssets == balance && r.value.rate == 1
    && r.value.emittedAccrued == 0 && r.value.predictedTotal == total
  }

  lemma FillUpIsOrdered(first: Row, balance: int)
    ensures Ordered(FillUp(first, balance)) == FillUp(first, balance)
  {
    SortOfSorted(FillUp(first, balance), BY_KEY);
  }

  lemma FoldOfFilling(p: Position, time: int, deposit: int, start: int)
    requires p.lastUpdate <= start <= time
    ensures Fold(p, [Deposit(time, 0, deposit), RateUpdated(time, 1, 1)], start, time)
         == Success(p.(actualAssets := p.actualAssets + deposit, rate := 1))
  {
    FoldOfTwo(p, Deposit(time, 0, deposit), RateUpdated(time, 1, 1), start, time);
  }

  lemma FilledUpWindow(first: Row, balance: int, w: Window, total: int)
    requires w.actualAssets == first.end.actualAssets && w.lastUpdate <= w.startTime == first.end.timestamp
    requires w.endTime == first.end.timestamp + 1
    requires total == ComputeUpdatedAssets(balance, 1, w.endTime - w.lastUpdate)
    ensures FillsUp(first, balance, w, total)
  {
    FillUpIsOrdered(first, balance);
    FoldOfFilling(Opening(w), w.endTime, balance - first.end.actualAssets, w.startTime);
  }

  lemma FilledUpRowVerifies(first: Row, balance: int, total: int)
    requires FromSnapshots(first) && balance > first.start.actualAssets && balance > first.end.actualAssets
    requires total - balance >= first.end.totalAssets - first.end.actualAssets
    requires FillsUp(first, balance, WindowOf(FilledUpRow(first, balance, total)), total)
    ensures var second, t := FilledUpRow(first, balance, total), FillUp(first, balance);
            && FromSnapshots(second) && Verified(second, t) && (forall e :: e in t ==> NaturalAmounts(e))
            && !StableBasis(second) && !StableBasis(JoinedRow(first, second))
  {
    SegmentsDecide(FilledUpRow(first, balance, total), FillUp(first, balance));
  }

  function Magnitude(n: int): nat { if n >= 0 then n else -n }

  lemma ExactQuotient(units: int, base: nat, growth: int)
    requires base > 0
    ensures units * base * growth / base == units * growth
  {
    assert units * base * growth == units * growth * base;
    DivPlusMultiple(0, units * growth, base);
  }

  lemma UnitsGrow(units: nat, balance: nat, elapsed: nat)
    requires balance == units * BASE_27
    ensures ComputeUpdatedAssets(balance, 1, elapsed) == units * Growth(1, elapsed)
  {
    ClosedForm(balance, 1, elapsed);
    ExactQuotient(units, BASE_27, Growth(1, elapsed));
  }

  lemma UnitGrowthIsStrict(s: nat, t: nat)
    requires s < t
    ensures Growth(1, s) < Growth(1, t) && Growth(1, t) >= BASE_27 + t
  {
    PowersAreNatural(1);
    ChooseMonotone(s, t);
    MulMonotone(Choose2(s), Choose2(t), BasePowerTwo(1));
    MulMonotone(Choose3(s), Choose3(t), BasePowerThree(1));
  }

  lemma UnitsTellTimes(units: nat, s: nat, t: nat)
    requires units >= 1 && s < t
    ensures units * Growth(1, s) < units * Growth(1, t)
    ensures units * Growth(1, t) >= units * BASE_27 + units
  {
    UnitGrowthIsStrict(s, t);
    MulMonotone(Growth(1, s) + 1, Growth(1, t), units);
    MulMonotone(BASE_27 + 1, Growth(1, t), units);
  }

  /** What follows ends on another total than the second row's when the integration goes on from where the first row's
      ended: the joined row is refuted. */
  lemma OtherTotalRefutesJoin(first: Row, second: Row, s: seq<SegmentEvent>, t: seq<SegmentEvent>, f: Summary)
    requires IntegratedExactly(first, s) && f == Integrated(WindowOf(first), s).value
    requires !StableBasis(JoinedRow(first, second)) && InKeyOrder(s, t)
    requires forall x :: x in s ==> x.timestamp <= first.end.timestamp
    requires forall y :: y in t ==> first.end.timestamp <= y.timestamp
    requires first.end.timestamp <= second.end.timestamp
    requires var r := Integrated(Continuation(f, first.end.timestamp, second.end.timestamp), t);
             r.Success? && r.value.predictedTotal != second.end.totalAssets
    ensures Refuted(JoinedRow(first, second), s + t)
  {
    var w, m := WindowOf(JoinedRow(first, second)), first.end.timestamp;
    WindowSplitLaw(w, m, s, t);
    assert w.(endTime := m) == WindowOf(first);
  }

  lemma LaterInKeyOrder(s: seq<SegmentEvent>, t: seq<SegmentEvent>, m: int)
    requires forall x :: x in s ==> x.timestamp <= m
    requires forall y :: y in t ==> m < y.timestamp
    ensures InKeyOrder(s, t)
  {
  }

  lemma UnitsFill(first: Row, units: nat, balance: int, w: Window, total: int)
    requires w.actualAssets == first.end.actualAssets && w.lastUpdate <= w.startTime == first.end.timestamp
    requires w.endTime == first.end.timestamp + 1
    requires balance == units * BASE_27 && total == units * Growth(1, w.endTime - w.lastUpdate)
    ensures FillsUp(first, balance, w, total)
  {
    UnitsGrow(units, balance, w.endTime - w.lastUpdate);
    FilledUpWindow(first, balance, w, total);
  }

  lemma FillingTotals(first: Row, f: Summary) returns (balance: nat, total: int, other: int)
    requires f.actualAssets == first.end.actualAssets && f.lastUpdate <= first.end.timestamp
    requires first.end.lastUpdate <= first.end.timestamp && f.lastUpdate != first.end.lastUpdate
    ensures balance > first.start.actualAssets && balance > first.end.actualAssets && other != total
    ensures total - balance >= first.end.totalAssets - first.end.actualAssets
    ensures FillsUp(first, balance, WindowOf(FilledUpRow(first, balance, total)), total)
    ensures FillsUp(first, balance, Continuation(f, first.end.timestamp, first.end.timestamp + 1), other)
  {
    var time, pending := first.end.timestamp + 1, first.end.totalAssets - first.end.actualAssets;
    var least := Magnitude(first.start.actualAssets) + Magnitude(first.end.actualAssets) + Magnitude(pending);
    var units, s, t := least + 1, time - f.lastUpdate, time - first.end.lastUpdate;
    balance, total, other := units * BASE_27, units * Growth(1, t), units * Growth(1, s);
    UnitsTellTimes(units, 0, t);
    UnitsTellTimes(units, if s < t then s else t, if s < t then t else s);
    UnitsFill(first, units, balance, WindowOf(FilledUpRow(first, balance, total)), total);
    UnitsFill(first, units, balance, Continuation(f, first.end.timestamp, time), other);
  }

  lemma FilledUpJoinIsRefuted(first: Row, s: seq<SegmentEvent>, balance: int, total: int, other: int, f: Summary)
    requires IntegratedExactly(first, s) && f == Integrated(WindowOf(first), s).value
    requires FillsUp(first, balance, Continuation(f, first.end.timestamp, first.end.timestamp + 1), other)
    requires other != total && !StableBasis(JoinedRow(first, FilledUpRow(first, balance, total)))
    ensures InKeyOrder(s, FillUp(first, balance))
    ensures Refuted(JoinedRow(first, FilledUpRow(first, balance, total)), s + FillUp(first, balance))
  {
    IntegratedWithin(WindowOf(first), s);
    LaterInKeyOrder(s, FillUp(first, balance), first.end.timestamp);
    OtherTotalRefutesJoin(first, FilledUpRow(first, balance, total), s, FillUp(first, balance), f);
  }

  /** The failing input: behind a verified row whose end snapshot claims another last update than the integration ended
      on, a verified row of natural events whose join is invalid. */
  lemma UncheckedLastUpdateBreaksJoining(first: Row, s: seq<SegmentEvent>) returns (second: Row, t: seq<SegmentEvent>)
    requires FromSnapshots(first) && !StableBasis(first) && Verified(first, s)
    requires !EndsOnItsUpdate(first, s) && first.end.lastUpdate <= first.end.timestamp
    ensures FollowsSegmented(first, second, s, t) && Verified(second, t) && Refuted(JoinedRow(first, second), s + t)
  {
    SegmentsDecide(first, s);
    IntegratedWithin(WindowOf(first), s);
    var f := Integrated(WindowOf(first), s).value;
    var balance, total, other := FillingTotals(first, f);
    second, t := FilledUpRow(first, balance, total), FillUp(first, balance);
    FilledUpRowVerifies(first, balance, total);
    FilledUpJoinIsRefuted(first, s, balance, total, other, f);
  }

  /** Such first rows, one for each balance and rate: a quiet second whose end snapshot claims an update at its own
      time. */
  lemma ClaimedUpdateVerifies(balance: nat, rate: nat)
    ensures var total := ComputeUpdatedAssets(balance, rate, 1);
            var first := Row(Snapshot(balance, balance, rate, 0, 0), Snapshot(total, balance, rate, 1, 1), 0,
                             total - balance);
            && FromSnapshots(first) && !StableBasis(first) && Verified(first, [])
            && !EndsOnItsUpdate(first, []) && first.end.lastUpdate <= first.end.timestamp
  {
    UpdatedAssetsMonotone(balance, rate, 0, 1);
    IntegratedOfNothing(Window(balance, balance, rate, 0, 0, 1));
  }
}
