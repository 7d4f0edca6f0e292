/** Segmented-rate integration: replaying the vault's rate, deposit, withdrawal and accrual events over a
    window, against the compound-interest polynomial. */
module YieldIntegration {
  import opened Wrappers
  import opened Sorting
  import opened Sums
  import opened SavingsMath

  datatype SegmentEvent =
    | Accrued(timestamp: int, logIndex: int, interest: int)
    | Deposit(timestamp: int, logIndex: int, assets: int)
    | Withdraw(timestamp: int, logIndex: int, assets: int)
    | RateUpdated(timestamp: int, logIndex: int, newRate: int)

  datatype Window = Window(
    actualAssets: int, totalAssets: int, rate: int, lastUpdate: int, startTime: int, endTime: int)

  datatype IntegrationError = InvalidBoundaryOrdering | EventOutsideBoundaries | WithdrawalExceedsAssets

  datatype Summary = Summary(
    integratedYpo: int, predictedAccrued: int, emittedAccrued: int, accruedVariance: int, predictedPending: int,
    predictedTotal: int, actualAssets: int, rate: int, lastUpdate: int)

  predicate NaturalAmounts(e: SegmentEvent) {
    match e
    case Accrued(_, _, interest) => interest >= 0
    case Deposit(_, _, assets) => assets >= 0
    case Withdraw(_, _, assets) => assets >= 0
    case RateUpdated(_, _, newRate) => newRate >= 0
  }

  type Outcome = Result<Summary, IntegrationError>

  predicate KeyLe(x: SegmentEvent, y: SegmentEvent) {
    x.timestamp < y.timestamp || (x.timestamp == y.timestamp && x.logIndex <= y.logIndex)
  }

  const BY_KEY: (SegmentEvent, SegmentEvent) -> bool := (x, y) => KeyLe(x, y)

  lemma ByKeyIsPreorder()
    ensures TotalPreorder(BY_KEY)
  {
  }

  function Ordered(events: seq<SegmentEvent>): seq<SegmentEvent> { StableSort(events, BY_KEY) }

  // The specification: what one event does to the running position, folded over a prefix.

  datatype Position = Position(actualAssets: int, rate: int, lastUpdate: int, ypo: int, predicted: int, emitted: int)

  predicate Within(e: SegmentEvent, startTime: int, endTime: int) { startTime <= e.timestamp <= endTime }

  function Apply(p: Position, e: SegmentEvent, startTime: int, endTime: int): Result<Position, IntegrationError> {
    if !Within(e, startTime, endTime) || e.timestamp < p.lastUpdate then Failure(EventOutsideBoundaries) else
    match e
    case Accrued(t, _, interest) =>
      var accrual := ComputeUpdatedAssets(p.actualAssets, p.rate, t - p.lastUpdate) - p.actualAssets;
      Success(Position(p.actualAssets + interest, p.rate, t, p.ypo + accrual, p.predicted + accrual,
                       p.emitted + interest))
    case Deposit(_, _, assets) => Success(p.(actualAssets := p.actualAssets + assets))
    case Withdraw(_, _, assets) =>
      if assets > p.actualAssets then Failure(WithdrawalExceedsAssets)
      else Success(p.(actualAssets := p.actualAssets - assets))
    case RateUpdated(_, _, newRate) => Success(p.(rate := newRate))
  }

  function Fold(p: Position, s: seq<SegmentEvent>, startTime: int, endTime: int): Result<Position, IntegrationError> {
    if s == [] then Success(p) else
    match Fold(p, s[..|s| - 1], startTime, endTime)
    case Failure(e) => Failure(e)
    case Success(q) => Apply(q, s[|s| - 1], startTime, endTime)
  }

  function Opening(w: Window): Position {
    Position(w.actualAssets, w.rate, w.lastUpdate, -(w.totalAssets - w.actualAssets), 0, 0)
  }

  function Pending(p: Position, clock: int): int {
    ComputeUpdatedAssets(p.actualAssets, p.rate, clock - p.lastUpdate) - p.actualAssets
  }

  function Close(p: Position, endTime: int): Summary {
    var pending := Pending(p, endTime);
    Summary(p.ypo + pending, p.predicted, p.emitted, p.emitted - p.predicted, pending,
            p.actualAssets + pending, p.actualAssets, p.rate, p.lastUpdate)
  }

  predicate BoundariesOrdered(w: Window) { w.startTime <= w.endTime && w.lastUpdate <= w.startTime }

  function Integrated(w: Window, events: seq<SegmentEvent>): Outcome {
    if !BoundariesOrdered(w) then Failure(InvalidBoundaryOrdering) else
    match Fold(Opening(w), Ordered(events), w.startTime, w.endTime)
    case Failure(e) => Failure(e)
    case Success(p) => Success(Close(p, w.endTime))
  }

  lemma FoldTakesOne(p: Position, s: seq<SegmentEvent>, n: nat, startTime: int, endTime: int)
    requires 0 < n <= |s| && Fold(p, s[..n - 1], startTime, endTime).Success?
    ensures Fold(p, s[..n], startTime, endTime)
         == Apply(Fold(p, s[..n - 1], startTime, endTime).value, s[n - 1], startTime, endTime)
  {
    assert s[..n][..n - 1] == s[..n - 1];
  }

  lemma {:induction false} FoldPrefixFails(p: Position, s: seq<SegmentEvent>, i: nat, startTime: int, endTime: int)
    requires i <= |s| && Fold(p, s[..i], startTime, endTime).Failure?
    ensures Fold(p, s, startTime, endTime) == Fold(p, s[..i], startTime, endTime)
    decreases |s| - i
  {
    if i < |s| {
      assert s[..i + 1][..i] == s[..i];
      FoldPrefixFails(p, s, i + 1, startTime, endTime);
    } else {
      assert s[..i] == s;
    }
  }

  /** The loop's body: one event's effect on the running position, or what it throws. */
  method ReplayEvent(before: Position, event: SegmentEvent, startTime: int, endTime: int)
    returns (r: Result<Position, IntegrationError>)
    ensures r == Apply(before, event, startTime, endTime)
  {
    var p := before;
    if event.timestamp < startTime || event.timestamp > endTime || event.timestamp < p.lastUpdate {
      return Failure(EventOutsideBoundaries);
    }
    match event
    case Accrued(timestamp, _, interest) =>
      var predictedAssets := ComputeUpdatedAssets(p.actualAssets, p.rate, timestamp - p.lastUpdate);
      var predictedInterest := predictedAssets - p.actualAssets;
      p := p.(predicted := p.predicted + predictedInterest, emitted := p.emitted + interest,
              ypo := p.ypo + predictedInterest);
      p := p.(actualAssets := p.actualAssets + interest, lastUpdate := timestamp);
      return Success(p);
    case Deposit(_, _, assets) =>
      return Success(p.(actualAssets := p.actualAssets + assets));
    case Withdraw(_, _, assets) =>
      if assets > p.actualAssets {
        return Failure(WithdrawalExceedsAssets);
      }
      return Success(p.(actualAssets := p.actualAssets - assets));
    case RateUpdated(_, _, newRate) =>
      return Success(p.(rate := newRate));
  }

  /** The integration loop: sort by (timestamp, logIndex), replay, close at the window's end. */
  method IntegrateSegmentedRateWindow(w: Window, events: seq<SegmentEvent>) returns (outcome: Outcome)
    ensures outcome == Integrated(w, events)
  {
    if w.endTime < w.startTime || w.lastUpdate > w.startTime {
      return Failure(InvalidBoundaryOrdering);
    }
    var position := Position(w.actualAssets, w.rate, w.lastUpdate, -(w.totalAssets - w.actualAssets), 0, 0);
    var ordered := StableSort(events, BY_KEY);
    for i := 0 to |ordered|
      invariant Fold(Opening(w), ordered[..i], w.startTime, w.endTime) == Success(position)
    {
      assert ordered[..i + 1][..i] == ordered[..i];
      var replayed := ReplayEvent(position, ordered[i], w.startTime, w.endTime);
      if replayed.Failure? {
        FoldPrefixFails(Opening(w), ordered, i + 1, w.startTime, w.endTime);
        return Failure(replayed.error);
      }
      position := replayed.value;
    }
    assert ordered[..|ordered|] == ordered;
    var predictedTotal := ComputeUpdatedAssets(position.actualAssets, position.rate, w.endTime - position.lastUpdate);
    var pending := predictedTotal - position.actualAssets;
    return Success(Summary(position.ypo + pending, position.predicted, position.emitted,
                           position.emitted - position.predicted,
                           pending, predictedTotal, position.actualAssets, position.rate, position.lastUpdate));
  }

  /** Events whose sort keys tell them apart integrate alike in every input order. */
  lemma IntegrationForgetsInputOrder(w: Window, s: seq<SegmentEvent>, t: seq<SegmentEvent>)
    requires multiset(s) == multiset(t) && KeysIdentify(s, BY_KEY)
    ensures Integrated(w, s) == Integrated(w, t)
  {
    ByKeyIsPreorder();
    SortForgetsOrder(s, t, BY_KEY);
  }

  /** Every input order is replayed alike if and only if the keys tell the events apart. */
  lemma ReplayForgetsOrderExactlyWhen(events: seq<SegmentEvent>)
    ensures (forall t :: multiset(t) == multiset(events) ==> Ordered(t) == Ordered(events)) <==>
            KeysIdentify(events, BY_KEY)
  {
    ByKeyIsPreorder();
    if KeysIdentify(events, BY_KEY) {
      forall t | multiset(t) == multiset(events) ensures Ordered(t) == Ordered(events) {
        SortForgetsOrder(events, t, BY_KEY);
      }
    } else {
      var t := DifferentlySorted(events, BY_KEY);
      assert Ordered(t) != Ordered(events);
    }
  }

  lemma FoldOfTwo(p: Position, x: SegmentEvent, y: SegmentEvent, startTime: int, endTime: int)
    ensures var first := Apply(p, x, startTime, endTime);
            Fold(p, [x, y], startTime, endTime) ==
              if first.Failure? then first else Apply(first.value, y, startTime, endTime)
  {
    assert [x, y][..1] == [x] && [x][..0] == [];
    assert Fold(p, [x], startTime, endTime) == Apply(p, x, startTime, endTime);
  }

  lemma FoldOfTwoRates(p: Position, x: int, y: int)
    requires p.lastUpdate <= 0
    ensures Fold(p, [RateUpdated(0, 0, x), RateUpdated(0, 0, y)], 0, 0) == Success(p.(rate := y))
  {
    FoldOfTwo(p, RateUpdated(0, 0, x), RateUpdated(0, 0, y), 0, 0);
  }

  lemma IntegratedRate(w: Window, events: seq<SegmentEvent>)
    requires BoundariesOrdered(w) && Fold(Opening(w), Ordered(events), w.startTime, w.endTime).Success?
    ensures Integrated(w, events).Success?
    ensures Integrated(w, events).value.rate == Fold(Opening(w), Ordered(events), w.startTime, w.endTime).value.rate
  {
  }

  lemma LaterOfTwoRates(w: Window, x: int, y: int)
    requires w == Window(0, 0, 0, 0, 0, 0)
    ensures var r := Integrated(w, [RateUpdated(0, 0, x), RateUpdated(0, 0, y)]);
            r.Success? && r.value.rate == y
  {
    var s := [RateUpdated(0, 0, x), RateUpdated(0, 0, y)];
    SortOfSorted(s, BY_KEY);
    FoldOfTwoRates(Opening(w), x, y);
    IntegratedRate(w, s);
  }

  /** Two blocks can share a timestamp and log indices restart in each block: with equal keys the input order
      shows, here in the rate left at the window's end. */
  lemma TiedKeysExposeInputOrder()
    ensures var w := Window(0, 0, 0, 0, 0, 0);
            var x, y := RateUpdated(0, 0, 1), RateUpdated(0, 0, 2);
            && Integrated(w, [x, y]).Success? && Integrated(w, [y, x]).Success?
            && Integrated(w, [x, y]).value.rate != Integrated(w, [y, x]).value.rate
  {
    LaterOfTwoRates(Window(0, 0, 0, 0, 0, 0), 1, 2);
    LaterOfTwoRates(Window(0, 0, 0, 0, 0, 0), 2, 1);
  }

  /** The replay keeps the order it was given exactly when that order is sorted by (timestamp, logIndex). */
  lemma OrderSurvivesExactlyWhen(events: seq<SegmentEvent>)
    ensures Ordered(events) == events <==> SortedBy(events, BY_KEY)
  {
    ByKeyIsPreorder();
    StableSortSorts(events, BY_KEY);
    if SortedBy(events, BY_KEY) {
      SortOfSorted(events, BY_KEY);
    }
  }

  /** Events come in block order, so their times never fall. */
  predicate InBlockOrder(events: seq<SegmentEvent>) {
    forall i, j :: 0 <= i < j < |events| ==> events[i].timestamp <= events[j].timestamp
  }

  /** A later block of the same second has a smaller log index: indices restart with each block. */
  predicate HasInvertedSecond(events: seq<SegmentEvent>) {
    exists i, j :: 0 <= i < j < |events| && events[i].timestamp == events[j].timestamp &&
                   events[j].logIndex < events[i].logIndex
  }

  /** For events in block order the replay follows the chain if and only if no second holds an inversion. */
  lemma ChainOrderSurvivesExactlyWhen(events: seq<SegmentEvent>)
    requires InBlockOrder(events)
    ensures Ordered(events) == events <==> !HasInvertedSecond(events)
  {
    OrderSurvivesExactlyWhen(events);
    if HasInvertedSecond(events) {
      var i, j :| 0 <= i < j < |events| && events[i].timestamp == events[j].timestamp
                  && events[j].logIndex < events[i].logIndex;
      assert !BY_KEY(events[i], events[j]);
    } else {
      forall i, j | 0 <= i < j < |events| ensures BY_KEY(events[i], events[j]) {
        assert events[i].timestamp <= events[j].timestamp;
      }
    }
  }

  lemma InvertedPair(x: SegmentEvent, y: SegmentEvent)
    requires !KeyLe(x, y)
    ensures Ordered([x, y]) == [y, x]
  {
    assert [x, y][1..] == [y] && [y][1..] == [];
    SortOfSorted([y], BY_KEY);
    InsertBehind(x, [y], BY_KEY);
    InsertInFront(x, [], BY_KEY);
  }

  /** Two blocks of one second: in chain order the deposit pays for the withdrawal, but the replay meets the withdrawal
      first and throws. */
  lemma InvertedSecondThrows(events: seq<SegmentEvent>)
    requires events == [Deposit(0, 5, 7), Withdraw(0, 3, 7)]
    ensures var w := Window(0, 0, 0, 0, 0, 0);
            && InBlockOrder(events) && Fold(Opening(w), events, 0, 0).Success?
            && Integrated(w, events) == Failure(WithdrawalExceedsAssets)
  {
    var w, swapped := Window(0, 0, 0, 0, 0, 0), [events[1], events[0]];
    FoldOfTwo(Opening(w), events[0], events[1], 0, 0);
    FoldOfTwo(Opening(w), events[1], events[0], 0, 0);
    InvertedPair(events[0], events[1]);
  }

  // The window split law.

  lemma {:induction false} FoldConcat(p: Position, s: seq<SegmentEvent>, t: seq<SegmentEvent>, startTime: int,
                                      endTime: int)
    ensures Fold(p, s + t, startTime, endTime) ==
            match Fold(p, s, startTime, endTime)
            case Failure(e) => Failure(e)
            case Success(q) => Fold(q, t, startTime, endTime)
  {
    if t == [] {
      assert s + t == s;
    } else {
      FoldConcat(p, s, t[..|t| - 1], startTime, endTime);
      assert (s + t)[..|s + t| - 1] == s + t[..|t| - 1];
    }
  }

  lemma {:induction false} FoldInNarrowerWindow(p: Position, s: seq<SegmentEvent>, a: int, b: int, c: int, d: int)
    requires forall e :: e in s ==> Within(e, a, b) == Within(e, c, d)
    ensures Fold(p, s, a, b) == Fold(p, s, c, d)
  {
    if s != [] {
      FoldInNarrowerWindow(p, s[..|s| - 1], a, b, c, d);
      assert s[|s| - 1] in s;
    }
  }

  function Shift(p: Position, base: Position): Position {
    p.(ypo := p.ypo + base.ypo, predicted := p.predicted + base.predicted, emitted := p.emitted + base.emitted)
  }

  function ShiftResult(r: Result<Position, IntegrationError>, base: Position): Result<Position, IntegrationError> {
    if r.Success? then Success(Shift(r.value, base)) else r
  }

  lemma {:induction false} FoldShift(p: Position, base: Position, s: seq<SegmentEvent>, startTime: int, endTime: int)
    ensures Fold(Shift(p, base), s, startTime, endTime) == ShiftResult(Fold(p, s, startTime, endTime), base)
  {
    if s != [] {
      FoldShift(p, base, s[..|s| - 1], startTime, endTime);
    }
  }

  lemma {:induction false} FoldKeepsClock(p: Position, s: seq<SegmentEvent>, startTime: int, endTime: int)
    requires p.lastUpdate <= endTime && Fold(p, s, startTime, endTime).Success?
    ensures Fold(p, s, startTime, endTime).value.lastUpdate <= endTime
  {
    if s != [] {
      FoldKeepsClock(p, s[..|s| - 1], startTime, endTime);
    }
  }

  lemma {:induction false} FoldStaysWithin(p: Position, s: seq<SegmentEvent>, startTime: int, endTime: int)
    requires Fold(p, s, startTime, endTime).Success?
    ensures forall e :: e in s ==> Within(e, startTime, endTime)
  {
    if s != [] {
      FoldStaysWithin(p, s[..|s| - 1], startTime, endTime);
      assert s == s[..|s| - 1] + [s[|s| - 1]];
    }
  }

  /** An integrated window holds all its events, and its last update is no later than its end. */
  lemma IntegratedWithin(w: Window, events: seq<SegmentEvent>)
    requires Integrated(w, events).Success?
    ensures forall e :: e in events ==> Within(e, w.startTime, w.endTime)
    ensures Integrated(w, events).value.lastUpdate <= w.endTime
  {
    FoldStaysWithin(Opening(w), Ordered(events), w.startTime, w.endTime);
    FoldKeepsClock(Opening(w), Ordered(events), w.startTime, w.endTime);
    SameElements(Ordered(events), events);
  }

  /** The window that picks up where an integrated one ended. */
  function Continuation(before: Summary, from: int, to: int): Window {
    Window(before.actualAssets, before.predictedTotal, before.rate, before.lastUpdate, from, to)
  }

  /** What the first piece hands on besides its end state: its yield, pending part included, and its accruals. */
  function CarriedOver(mid: Position, m: int): Position { mid.(ypo := mid.ypo + Pending(mid, m)) }

  lemma SplitFolds(w: Window, m: int, s: seq<SegmentEvent>, t: seq<SegmentEvent>)
    requires w.lastUpdate <= w.startTime <= m <= w.endTime
    requires forall x :: x in s ==> x.timestamp <= m
    requires forall y :: y in t ==> m <= y.timestamp
    ensures var first, whole := Fold(Opening(w), s, w.startTime, m), Fold(Opening(w), s + t, w.startTime, w.endTime);
            && (first.Failure? ==> whole == first)
            && (first.Success? ==>
                && first.value.lastUpdate <= m
                && whole == ShiftResult(
                     Fold(Opening(Continuation(Close(first.value, m), m, w.endTime)), t, m, w.endTime),
                     CarriedOver(first.value, m)))
  {
    FoldConcat(Opening(w), s, t, w.startTime, w.endTime);
    FoldInNarrowerWindow(Opening(w), s, w.startTime, m, w.startTime, w.endTime);
    var first := Fold(Opening(w), s, w.startTime, m);
    if first.Success? {
      var mid := first.value;
      FoldKeepsClock(Opening(w), s, w.startTime, m);
      FoldInNarrowerWindow(mid, t, m, w.endTime, w.startTime, w.endTime);
      var next := Opening(Continuation(Close(mid, m), m, w.endTime));
      assert Shift(next, CarriedOver(mid, m)) == mid;
      FoldShift(next, CarriedOver(mid, m), t, m, w.endTime);
    }
  }

  /** Two adjacent windows read as one: flows add, the state is the later one's. */
  function Joined(first: Summary, second: Summary): Summary {
    second.(integratedYpo := first.integratedYpo + second.integratedYpo,
            predictedAccrued := first.predictedAccrued + second.predictedAccrued,
            emittedAccrued := first.emittedAccrued + second.emittedAccrued,
            accruedVariance := first.accruedVariance + second.accruedVariance)
  }

  lemma CloseShifted(mid: Position, m: int, q: Position, endTime: int)
    ensures Close(Shift(q, CarriedOver(mid, m)), endTime) == Joined(Close(mid, m), Close(q, endTime))
  {
  }

  /** Cutting a window at `m`: the pieces succeed exactly when the whole does, they end in the same state, and
      their yields, predicted and emitted accruals add up exactly. */
  lemma WindowSplitLaw(w: Window, m: int, s: seq<SegmentEvent>, t: seq<SegmentEvent>)
    requires w.startTime <= m <= w.endTime
    requires forall x :: x in s ==> x.timestamp <= m
    requires forall y :: y in t ==> m <= y.timestamp
    requires forall x, y :: x in s && y in t ==> KeyLe(x, y)
    ensures var whole, first := Integrated(w, s + t), Integrated(w.(endTime := m), s);
            && (first.Failure? ==> whole == first)
            && (first.Success? ==>
                var second := Integrated(Continuation(first.value, m, w.endTime), t);
                && (second.Failure? ==> whole == second)
                && (second.Success? ==> whole == Success(Joined(first.value, second.value))))
  {
    if BoundariesOrdered(w) {
      var os, ot := Ordered(s), Ordered(t);
      SortConcat(s, t, BY_KEY);
      SameElements(os, s);
      SameElements(ot, t);
      SplitFolds(w, m, os, ot);
      assert Opening(w.(endTime := m)) == Opening(w);
      var mid := Fold(Opening(w), os, w.startTime, m);
      if mid.Success? {
        var first := Close(mid.value, m);
        assert Integrated(w.(endTime := m), s) == Success(first);
        var next := Continuation(first, m, w.endTime);
        assert BoundariesOrdered(next);
        var rest := Fold(Opening(next), ot, m, w.endTime);
        if rest.Success? {
          CloseShifted(mid.value, m, rest.value, w.endTime);
        }
      }
    }
  }

  // Conservation across a window.

  function InterestOf(e: SegmentEvent): int { if e.Accrued? then e.interest else 0 }

  function DepositOf(e: SegmentEvent): int { if e.Deposit? then e.assets else 0 }

  function WithdrawalOf(e: SegmentEvent): int { if e.Withdraw? then e.assets else 0 }

  lemma {:induction false} FoldConserves(p: Position, s: seq<SegmentEvent>, startTime: int, endTime: int)
    requires Fold(p, s, startTime, endTime).Success?
    ensures var q := Fold(p, s, startTime, endTime).value;
            && q.emitted == p.emitted + Sum(s, InterestOf)
            && q.actualAssets == p.actualAssets + Sum(s, InterestOf) + Sum(s, DepositOf) - Sum(s, WithdrawalOf)
            && q.ypo - p.ypo == q.predicted - p.predicted
  {
    if s != [] {
      FoldConserves(p, s[..|s| - 1], startTime, endTime);
    }
  }

  /** Integrated yield plus accrual variance is emitted interest plus the change in pending yield, and the actual
      assets move by exactly interest, deposits and withdrawals. */
  lemma ReconciliationIdentity(w: Window, events: seq<SegmentEvent>)
    requires Integrated(w, events).Success?
    ensures var r := Integrated(w, events).value;
            && r.integratedYpo + r.accruedVariance
               == Sum(events, InterestOf) + r.predictedPending - (w.totalAssets - w.actualAssets)
            && r.emittedAccrued == Sum(events, InterestOf)
            && r.actualAssets
               == w.actualAssets + Sum(events, InterestOf) + Sum(events, DepositOf) - Sum(events, WithdrawalOf)
            && r.predictedTotal == r.actualAssets + r.predictedPending
  {
    FoldConserves(Opening(w), Ordered(events), w.startTime, w.endTime);
    SumPermutation(events, Ordered(events), InterestOf);
    SumPermutation(events, Ordered(events), DepositOf);
    SumPermutation(events, Ordered(events), WithdrawalOf);
  }

  // The integration in closed form, from the ordered events alone.

  /** The time of the last accrual in `s`, or `lastUpdate` when there is none. */
  function LastAccrual(lastUpdate: int, s: seq<SegmentEvent>): int {
    if s == [] then lastUpdate
    else if s[|s| - 1].Accrued? then s[|s| - 1].timestamp
    else LastAccrual(lastUpdate, s[..|s| - 1])
  }

  /** The rate that the last rate change in `s` set, or the opening one. */
  function LastRate(rate: int, s: seq<SegmentEvent>): int {
    if s == [] then rate
    else if s[|s| - 1].RateUpdated? then s[|s| - 1].newRate
    else LastRate(rate, s[..|s| - 1])
  }

  /** The opening balance with the interest and deposits of `s`, less its withdrawals. */
  function BalanceAfter(balance: int, s: seq<SegmentEvent>): int {
    balance + Sum(s, InterestOf) + Sum(s, DepositOf) - Sum(s, WithdrawalOf)
  }

  /** What the balance after `s` earns from the last accrual up to a time. */
  function EarnedBy(w: Window, s: seq<SegmentEvent>, time: int): int {
    var balance := BalanceAfter(w.actualAssets, s);
    ComputeUpdatedAssets(balance, LastRate(w.rate, s), time - LastAccrual(w.lastUpdate, s)) - balance
  }

  /** The interest that the accruals of `s` should emit: each what the balance before it earned since the accrual
      before. */
  function PredictedInterest(w: Window, s: seq<SegmentEvent>): int {
    if s == [] then 0 else
      var before, last := s[..|s| - 1], s[|s| - 1];
      PredictedInterest(w, before) + if last.Accrued? then EarnedBy(w, before, last.timestamp) else 0
  }

  /** Why event `k` is refused: its time lies outside the window or before the last accrual, or it withdraws more than
      there is. */
  function FaultAt(w: Window, s: seq<SegmentEvent>, k: nat): Option<IntegrationError>
    requires k < |s|
  {
    if s[k].timestamp < w.startTime || s[k].timestamp > w.endTime || s[k].timestamp < LastAccrual(w.lastUpdate, s[..k])
    then Some(EventOutsideBoundaries)
    else if s[k].Withdraw? && s[k].assets > BalanceAfter(w.actualAssets, s[..k]) then Some(WithdrawalExceedsAssets)
    else None
  }

  /** Where the events leave the running position. */
  function PositionAfter(w: Window, s: seq<SegmentEvent>): Position {
    var predicted := PredictedInterest(w, s);
    Position(BalanceAfter(w.actualAssets, s), LastRate(w.rate, s), LastAccrual(w.lastUpdate, s),
             w.actualAssets - w.totalAssets + predicted, predicted, Sum(s, InterestOf))
  }

  lemma BalanceSnoc(balance: int, s: seq<SegmentEvent>, e: SegmentEvent)
    ensures BalanceAfter(balance, s + [e]) == BalanceAfter(balance, s) + InterestOf(e) + DepositOf(e) - WithdrawalOf(e)
    ensures Sum(s + [e], InterestOf) == Sum(s, InterestOf) + InterestOf(e)
  {
    assert (s + [e])[..|s|] == s;
  }

  lemma LastOfSnoc(w: Window, s: seq<SegmentEvent>, e: SegmentEvent)
    ensures LastRate(w.rate, s + [e]) == if e.RateUpdated? then e.newRate else LastRate(w.rate, s)
    ensures LastAccrual(w.lastUpdate, s + [e]) == if e.Accrued? then e.timestamp else LastAccrual(w.lastUpdate, s)
    ensures PredictedInterest(w, s + [e])
         == PredictedInterest(w, s) + if e.Accrued? then EarnedBy(w, s, e.timestamp) else 0
  {
    assert (s + [e])[..|s|] == s;
  }

  /** What an event does to a position, `earned` being what the balance earned by its time. */
  function Stepped(p: Position, e: SegmentEvent, earned: int): Position {
    Position(p.actualAssets + InterestOf(e) + DepositOf(e) - WithdrawalOf(e),
             if e.RateUpdated? then e.newRate else p.rate,
             if e.Accrued? then e.timestamp else p.lastUpdate,
             p.ypo + (if e.Accrued? then earned else 0), p.predicted + (if e.Accrued? then earned else 0),
             p.emitted + InterestOf(e))
  }

  lemma ApplySteps(p: Position, e: SegmentEvent, startTime: int, endTime: int, earned: int)
    requires Within(e, startTime, endTime) && p.lastUpdate <= e.timestamp
    requires e.Withdraw? ==> e.assets <= p.actualAssets
    requires earned == ComputeUpdatedAssets(p.actualAssets, p.rate, e.timestamp - p.lastUpdate) - p.actualAssets
    ensures Apply(p, e, startTime, endTime) == Success(Stepped(p, e, earned))
  {
  }

  lemma PositionSteps(w: Window, s: seq<SegmentEvent>, e: SegmentEvent, earned: int)
    requires e.Accrued? ==> PredictedInterest(w, s + [e]) == PredictedInterest(w, s) + earned
    ensures PositionAfter(w, s + [e]) == Stepped(PositionAfter(w, s), e, earned)
  {
    BalanceSnoc(w.actualAssets, s, e);
    LastOfSnoc(w, s, e);
  }

  /** One event's step of the closed form. */
  lemma StepInClosedForm(w: Window, s: seq<SegmentEvent>, e: SegmentEvent)
    requires Within(e, w.startTime, w.endTime) && LastAccrual(w.lastUpdate, s) <= e.timestamp
    requires e.Withdraw? ==> e.assets <= BalanceAfter(w.actualAssets, s)
    ensures Apply(PositionAfter(w, s), e, w.startTime, w.endTime) == Success(PositionAfter(w, s + [e]))
  {
    var earned := EarnedBy(w, s, e.timestamp);
    LastOfSnoc(w, s, e);
    PositionSteps(w, s, e, earned);
    ApplySteps(PositionAfter(w, s), e, w.startTime, w.endTime, earned);
  }

  lemma {:induction false} FoldInClosedForm(w: Window, s: seq<SegmentEvent>, n: nat)
    requires n <= |s| && forall k :: 0 <= k < n ==> FaultAt(w, s, k).None?
    ensures Fold(Opening(w), s[..n], w.startTime, w.endTime) == Success(PositionAfter(w, s[..n]))
  {
    if n > 0 {
      FoldInClosedForm(w, s, n - 1);
      FoldTakesOne(Opening(w), s, n, w.startTime, w.endTime);
      assert s[..n] == s[..n - 1] + [s[n - 1]];
      assert FaultAt(w, s, n - 1).None?;
      StepInClosedForm(w, s[..n - 1], s[n - 1]);
    } else {
      assert s[..0] == [];
    }
  }

  /** The first faulty event of the ordered window throws its error. */
  lemma FirstFaultIsThrown(w: Window, events: seq<SegmentEvent>, k: nat)
    requires BoundariesOrdered(w) && k < |Ordered(events)| && FaultAt(w, Ordered(events), k).Some?
    requires forall j :: 0 <= j < k ==> FaultAt(w, Ordered(events), j).None?
    ensures Integrated(w, events) == Failure(FaultAt(w, Ordered(events), k).value)
  {
    var s := Ordered(events);
    FoldInClosedForm(w, s, k);
    assert s[..k + 1][..k] == s[..k];
    FoldPrefixFails(Opening(w), s, k + 1, w.startTime, w.endTime);
  }

  /** A window without a faulty event integrates to what its ordered events say: the predicted interest of its accruals,
      the emitted one, and what is pending at its end. */
  lemma IntegrationInClosedForm(w: Window, events: seq<SegmentEvent>)
    requires BoundariesOrdered(w)
    requires forall k :: 0 <= k < |Ordered(events)| ==> FaultAt(w, Ordered(events), k).None?
    ensures Integrated(w, events).Success?
    ensures var r, s := Integrated(w, events).value, Ordered(events);
            && r.predictedAccrued == PredictedInterest(w, s) && r.emittedAccrued == Sum(events, InterestOf)
            && r.accruedVariance == r.emittedAccrued - r.predictedAccrued
            && r.predictedPending == EarnedBy(w, s, w.endTime)
            && r.integratedYpo == r.predictedAccrued + r.predictedPending - (w.totalAssets - w.actualAssets)
            && r.actualAssets == BalanceAfter(w.actualAssets, events)
            && r.predictedTotal == r.actualAssets + r.predictedPending
            && r.rate == LastRate(w.rate, s) && r.lastUpdate == LastAccrual(w.lastUpdate, s)
  {
    var s := Ordered(events);
    FoldInClosedForm(w, s, |s|);
    assert s[..|s|] == s;
    SumPermutation(events, s, InterestOf);
    SumPermutation(events, s, DepositOf);
    SumPermutation(events, s, WithdrawalOf);
  }

  lemma LeastFault(w: Window, s: seq<SegmentEvent>, i: nat) returns (k: nat)
    requires i < |s| && FaultAt(w, s, i).Some?
    ensures k <= i && FaultAt(w, s, k).Some? && forall j :: 0 <= j < k ==> FaultAt(w, s, j).None?
  {
    k := 0;
    while FaultAt(w, s, k).None?
      invariant k <= i && forall j :: 0 <= j < k ==> FaultAt(w, s, j).None?
      decreases i - k
    {
      k := k + 1;
    }
  }

  /** Integration succeeds if and only if the boundaries are in order and no event is faulty. */
  lemma IntegrationSucceedsExactlyWhen(w: Window, events: seq<SegmentEvent>)
    ensures Integrated(w, events).Success? <==>
            && w.lastUpdate <= w.startTime <= w.endTime
            && forall k :: 0 <= k < |Ordered(events)| ==> FaultAt(w, Ordered(events), k).None?
  {
    if BoundariesOrdered(w) {
      if i: nat :| i < |Ordered(events)| && FaultAt(w, Ordered(events), i).Some? {
        var k := LeastFault(w, Ordered(events), i);
        FirstFaultIsThrown(w, events, k);
      } else {
        IntegrationInClosedForm(w, events);
      }
    }
  }

  lemma {:induction false} PredictedIsEmitted(w: Window, s: seq<SegmentEvent>, n: nat)
    requires n <= |s|
    requires forall k :: 0 <= k < n && s[k].Accrued? ==> s[k].interest == EarnedBy(w, s[..k], s[k].timestamp)
    ensures PredictedInterest(w, s[..n]) == Sum(s[..n], InterestOf)
  {
    if n > 0 {
      PredictedIsEmitted(w, s, n - 1);
      assert s[..n][..n - 1] == s[..n - 1];
    }
  }

  /** When every accrual emits what the balance before it earned, the variance is zero. */
  lemma ExactAccrualsHaveNoVariance(w: Window, events: seq<SegmentEvent>)
    requires Integrated(w, events).Success?
    requires var s := Ordered(events);
             forall k :: 0 <= k < |s| && s[k].Accrued? ==> s[k].interest == EarnedBy(w, s[..k], s[k].timestamp)
    ensures Integrated(w, events).value.accruedVariance == 0
  {
    var s := Ordered(events);
    IntegrationSucceedsExactlyWhen(w, events);
    IntegrationInClosedForm(w, events);
    PredictedIsEmitted(w, s, |s|);
    assert s[..|s|] == s;
    SumPermutation(events, s, InterestOf);
  }
}
