/** When the integrated yield of a window is at least zero: a withdrawal or a rate change can erase yield that was
    pending when the window opened, an accrual puts it beyond their reach, and a deposit never lowers it. */
module NaturalYield {
  import opened Wrappers
  import opened Sorting
  import opened SavingsMath
  import opened YieldIntegration

  /** The events that can lower pending yield. */
  predicate Lowers(e: SegmentEvent) { e.Withdraw? || e.RateUpdated? }

  function YieldSoFar(p: Position, clock: int): int { p.ypo + Pending(p, clock) }

  // The sign of a window's yield.

  /** The vault's natural state, with the total that its rate predicts. */
  predicate OpensOnPrediction(w: Window) {
    && w.actualAssets >= 0 && w.rate >= 0
    && w.totalAssets == ComputeUpdatedAssets(w.actualAssets, w.rate, w.startTime - w.lastUpdate)
  }

  predicate HasAccrual(s: seq<SegmentEvent>) { exists j :: 0 <= j < |s| && s[j].Accrued? }

  /** Some accrual comes before every withdrawal and rate change. */
  predicate AccruesFirst(s: seq<SegmentEvent>) {
    forall i :: 0 <= i < |s| && Lowers(s[i]) ==> HasAccrual(s[..i])
  }

  /** What the running position keeps: its counted yield is natural, or nothing has accrued and what was pending at the
      start is still there. */
  predicate Counted(p: Position, w: Window) {
    && p.actualAssets >= 0 && p.rate >= 0
    && (p.ypo >= 0 || (p.lastUpdate == w.lastUpdate <= w.startTime && YieldSoFar(p, w.startTime) >= 0))
  }

  lemma ApplyStaysCounted(p: Position, e: SegmentEvent, w: Window)
    requires Counted(p, w) && NaturalAmounts(e) && Apply(p, e, w.startTime, w.endTime).Success?
    requires Lowers(e) ==> p.ypo >= 0
    ensures var q := Apply(p, e, w.startTime, w.endTime).value;
            Counted(q, w) && (e.Accrued? || p.ypo >= 0 ==> q.ypo >= 0)
  {
    match e
    case Accrued(t, _, _) =>
      UpdatedAssetsMonotone(p.actualAssets, p.rate, 0, t - p.lastUpdate);
      if p.ypo < 0 {
        UpdatedAssetsMonotone(p.actualAssets, p.rate, w.startTime - p.lastUpdate, t - p.lastUpdate);
      }
    case Deposit(_, _, assets) =>
      if p.ypo < 0 {
        DepositGrowsPending(p.actualAssets, assets, p.rate, w.startTime - p.lastUpdate);
      }
    case _ =>
  }

  lemma {:induction false} FoldStaysCounted(w: Window, s: seq<SegmentEvent>)
    requires OpensOnPrediction(w) && w.lastUpdate <= w.startTime
    requires forall e :: e in s ==> NaturalAmounts(e)
    requires w.lastUpdate == w.startTime || AccruesFirst(s)
    requires Fold(Opening(w), s, w.startTime, w.endTime).Success?
    ensures var q := Fold(Opening(w), s, w.startTime, w.endTime).value;
            Counted(q, w) && (w.lastUpdate == w.startTime || HasAccrual(s) ==> q.ypo >= 0)
  {
    if s != [] {
      var init, last := s[..|s| - 1], s[|s| - 1];
      assert forall i :: 0 <= i < |init| ==> init[..i] == s[..i];
      FoldStaysCounted(w, init);
      assert last in s;
      ApplyStaysCounted(Fold(Opening(w), init, w.startTime, w.endTime).value, last, w);
      assert HasAccrual(s) ==> last.Accrued? || HasAccrual(init);
    }
  }

  /** A window that opens on the predicted total integrates to a natural yield, if it opens on its last update or some
      accrual comes before every withdrawal and rate change. */
  lemma IntegratedYieldIsNatural(w: Window, events: seq<SegmentEvent>)
    requires OpensOnPrediction(w) && forall e :: e in events ==> NaturalAmounts(e)
    requires w.lastUpdate == w.startTime || AccruesFirst(Ordered(events))
    requires Integrated(w, events).Success?
    ensures Integrated(w, events).value.integratedYpo >= 0
  {
    var s := Ordered(events);
    SameElements(s, events);
    FoldStaysCounted(w, s);
    FoldKeepsClock(Opening(w), s, w.startTime, w.endTime);
    var q := Fold(Opening(w), s, w.startTime, w.endTime).value;
    UpdatedAssetsMonotone(q.actualAssets, q.rate, 0, w.endTime - q.lastUpdate);
    if q.ypo < 0 {
      UpdatedAssetsMonotone(q.actualAssets, q.rate, w.startTime - q.lastUpdate, w.endTime - q.lastUpdate);
    }
  }

  // The schedules that guarantee it.

  predicate SameMoment(x: SegmentEvent, y: SegmentEvent) {
    && x.timestamp == y.timestamp && x.logIndex == y.logIndex
    && (x.Accrued? <==> y.Accrued?) && (x.Deposit? <==> y.Deposit?) && (x.Withdraw? <==> y.Withdraw?)
  }

  /** The same kinds of events at the same keys, with whatever amounts. */
  predicate SameSchedule(s: seq<SegmentEvent>, t: seq<SegmentEvent>) {
    |s| == |t| && forall i :: 0 <= i < |s| ==> SameMoment(s[i], t[i])
  }

  /** Whatever the vault's opening state and the amounts, the schedule's window has a natural yield. */
  ghost predicate AlwaysNatural(s: seq<SegmentEvent>, lastUpdate: int, startTime: int, endTime: int) {
    forall w: Window, t ::
      && w.lastUpdate == lastUpdate && w.startTime == startTime && w.endTime == endTime && OpensOnPrediction(w)
      && SameSchedule(s, t) && (forall e :: e in t ==> NaturalAmounts(e)) && Integrated(w, t).Success?
      ==> Integrated(w, t).value.integratedYpo >= 0
  }

  function Emptied(e: SegmentEvent, all: int): SegmentEvent {
    match e
    case Accrued(t, k, _) => Accrued(t, k, 0)
    case Deposit(t, k, _) => Deposit(t, k, 0)
    case Withdraw(t, k, _) => Withdraw(t, k, all)
    case RateUpdated(t, k, _) => RateUpdated(t, k, 0)
  }

  /** The schedule with empty amounts, except that event `k` takes everything if it is a withdrawal. */
  function EmptiedAt(s: seq<SegmentEvent>, k: nat, all: int): seq<SegmentEvent> {
    seq(|s|, i requires 0 <= i < |s| => Emptied(s[i], if i == k then all else 0))
  }

  lemma NoAccrualNoLowering(s: seq<SegmentEvent>, i: nat)
    requires AccruesFirst(s) && !HasAccrual(s) && i < |s|
    ensures s[i].Deposit?
  {
    assert forall j :: 0 <= j < i ==> s[..i][j] == s[j];
  }

  lemma {:induction false} FirstLowering(s: seq<SegmentEvent>) returns (k: nat)
    requires !AccruesFirst(s)
    ensures k < |s| && Lowers(s[k]) && forall i :: 0 <= i < k ==> s[i].Deposit?
  {
    var n := |s| - 1;
    if AccruesFirst(s[..n]) {
      k := n;
      assert forall i :: 0 <= i < n ==> s[..n][..i] == s[..i];
      assert Lowers(s[n]) && !HasAccrual(s[..n]);
      forall i | 0 <= i < n ensures s[i].Deposit? {
        NoAccrualNoLowering(s[..n], i);
      }
    } else {
      k := FirstLowering(s[..n]);
      assert s[..n][k] == s[k];
    }
  }

  /** No assets or no rate: nothing is pending any more. */
  predicate Dead(p: Position) { p.actualAssets >= 0 && (p.actualAssets == 0 || p.rate == 0) }

  lemma DeadEarnsNothing(p: Position, clock: int)
    requires Dead(p)
    ensures Pending(p, clock) == 0
  {
  }

  lemma ApplyStaysDead(p: Position, e: SegmentEvent, startTime: int, endTime: int)
    requires Dead(p) && Within(e, startTime, endTime) && p.lastUpdate <= e.timestamp
    ensures var r := Apply(p, Emptied(e, 0), startTime, endTime);
            r.Success? && Dead(r.value) && r.value.ypo == p.ypo && r.value.lastUpdate <= e.timestamp
  {
    DeadEarnsNothing(p, e.timestamp);
  }

  lemma LoweringKills(p: Position, e: SegmentEvent, startTime: int, endTime: int)
    requires Lowers(e) && Within(e, startTime, endTime) && p.lastUpdate <= e.timestamp && p.actualAssets >= 0
    ensures var r := Apply(p, Emptied(e, p.actualAssets), startTime, endTime);
            r.Success? && Dead(r.value) && r.value.ypo == p.ypo && r.value.lastUpdate == p.lastUpdate
  {
  }

  /** Before event `k` the position is the opening one; from then on it is dead. */
  predicate EmptiedSoFar(w: Window, s: seq<SegmentEvent>, k: nat, n: nat, p: Position)
    requires n <= |s|
  {
    && p.ypo == Opening(w).ypo
    && (n <= k ==> p == Opening(w))
    && (n > k ==> Dead(p) && p.lastUpdate <= s[n - 1].timestamp)
  }

  lemma EmptiedStep(w: Window, s: seq<SegmentEvent>, k: nat, n: nat, p: Position)
    requires w.lastUpdate <= w.startTime && w.actualAssets >= 0 && n < |s| && EmptiedSoFar(w, s, k, n, p)
    requires Within(s[n], w.startTime, w.endTime) && (n > 0 ==> s[n - 1].timestamp <= s[n].timestamp)
    requires (n < k ==> s[n].Deposit?) && (n == k ==> Lowers(s[n]))
    ensures var r := Apply(p, Emptied(s[n], if n == k then w.actualAssets else 0), w.startTime, w.endTime);
            r.Success? && EmptiedSoFar(w, s, k, n + 1, r.value)
  {
    if n == k {
      LoweringKills(p, s[n], w.startTime, w.endTime);
    } else if n > k {
      ApplyStaysDead(p, s[n], w.startTime, w.endTime);
    }
  }

  lemma {:induction false} EmptiedFold(w: Window, s: seq<SegmentEvent>, k: nat, n: nat)
    requires w.lastUpdate <= w.startTime && w.actualAssets >= 0
    requires SortedBy(s, BY_KEY) && forall e :: e in s ==> Within(e, w.startTime, w.endTime)
    requires k < |s| && Lowers(s[k]) && (forall i :: 0 <= i < k ==> s[i].Deposit?) && n <= |s|
    ensures var r := Fold(Opening(w), EmptiedAt(s, k, w.actualAssets)[..n], w.startTime, w.endTime);
            r.Success? && EmptiedSoFar(w, s, k, n, r.value)
  {
    var t := EmptiedAt(s, k, w.actualAssets);
    if n > 0 {
      EmptiedFold(w, s, k, n - 1);
      FoldTakesOne(Opening(w), t, n, w.startTime, w.endTime);
      assert t[n - 1] == Emptied(s[n - 1], if n - 1 == k then w.actualAssets else 0);
      assert s[n - 1] in s;
      if n > 1 {
        assert BY_KEY(s[n - 2], s[n - 1]);
      }
      EmptiedStep(w, s, k, n - 1, Fold(Opening(w), t[..n - 1], w.startTime, w.endTime).value);
    }
  }

  lemma ScheduleKeepsOrder(s: seq<SegmentEvent>, t: seq<SegmentEvent>)
    requires SortedBy(s, BY_KEY) && SameSchedule(s, t)
    ensures Ordered(t) == t && (AccruesFirst(s) ==> AccruesFirst(t))
  {
    forall i, j | 0 <= i < j < |t| ensures BY_KEY(t[i], t[j]) {
      assert SameMoment(s[i], t[i]) && SameMoment(s[j], t[j]) && BY_KEY(s[i], s[j]);
    }
    SortOfSorted(t, BY_KEY);
    if AccruesFirst(s) {
      forall i | 0 <= i < |t| && Lowers(t[i]) ensures HasAccrual(t[..i]) {
        assert SameMoment(s[i], t[i]) && Lowers(s[i]);
        var j :| 0 <= j < i && s[..i][j].Accrued?;
        assert SameMoment(s[j], t[j]) && t[..i][j].Accrued?;
      }
    }
  }

  lemma EmptiedIsNatural(s: seq<SegmentEvent>, k: nat, all: nat)
    ensures SameSchedule(s, EmptiedAt(s, k, all)) && forall e :: e in EmptiedAt(s, k, all) ==> NaturalAmounts(e)
  {
  }

  /** A window that an early lowering ruins: one second or more is pending at a growing rate. */
  function RuinedWindow(balance: nat, rate: nat, lastUpdate: int, startTime: int, endTime: int): Window {
    Window(balance, ComputeUpdatedAssets(balance, rate, startTime - lastUpdate), rate, lastUpdate, startTime, endTime)
  }

  lemma RuinedWindowOpens(balance: nat, rate: nat, lastUpdate: int, startTime: int, endTime: int)
    requires lastUpdate < startTime && ComputeUpdatedAssets(balance, rate, 1) > balance
    ensures var w := RuinedWindow(balance, rate, lastUpdate, startTime, endTime);
            OpensOnPrediction(w) && w.totalAssets > w.actualAssets
  {
    UpdatedAssetsMonotone(balance, rate, 1, startTime - lastUpdate);
  }

  lemma DeadWindowLosesYield(w: Window, t: seq<SegmentEvent>)
    requires BoundariesOrdered(w) && Ordered(t) == t && w.totalAssets > w.actualAssets
    requires Fold(Opening(w), t, w.startTime, w.endTime).Success?
    requires var p := Fold(Opening(w), t, w.startTime, w.endTime).value; Dead(p) && p.ypo == Opening(w).ypo
    ensures Integrated(w, t).Success? && Integrated(w, t).value.integratedYpo < 0
  {
    DeadEarnsNothing(Fold(Opening(w), t, w.startTime, w.endTime).value, w.endTime);
  }

  lemma EmptiedWindowLosesYield(w: Window, s: seq<SegmentEvent>, k: nat)
    requires w.lastUpdate <= w.startTime && w.totalAssets > w.actualAssets >= 0
    requires SortedBy(s, BY_KEY) && forall e :: e in s ==> Within(e, w.startTime, w.endTime)
    requires k < |s| && Lowers(s[k]) && forall i :: 0 <= i < k ==> s[i].Deposit?
    ensures var t := EmptiedAt(s, k, w.actualAssets);
            Integrated(w, t).Success? && Integrated(w, t).value.integratedYpo < 0
  {
    var t := EmptiedAt(s, k, w.actualAssets);
    assert s[k] in s && Within(s[k], w.startTime, w.endTime);
    EmptiedFold(w, s, k, |s|);
    assert t[..|s|] == t;
    EmptiedIsNatural(s, k, w.actualAssets);
    ScheduleKeepsOrder(s, t);
    DeadWindowLosesYield(w, t);
  }

  /** The failing inputs of a schedule whose first lowering no accrual precedes: any opening state with something
      pending, and amounts that are all zero, except that a first withdrawal takes everything. */
  lemma EarlyLoweringLosesYield(s: seq<SegmentEvent>, k: nat, w: Window)
    requires w.lastUpdate <= w.startTime && OpensOnPrediction(w) && w.totalAssets > w.actualAssets
    requires SortedBy(s, BY_KEY) && forall e :: e in s ==> Within(e, w.startTime, w.endTime)
    requires k < |s| && Lowers(s[k]) && forall i :: 0 <= i < k ==> s[i].Deposit?
    ensures var t := EmptiedAt(s, k, w.actualAssets);
            && SameSchedule(s, t) && (forall e :: e in t ==> NaturalAmounts(e))
            && Integrated(w, t).Success? && Integrated(w, t).value.integratedYpo < 0
  {
    EmptiedIsNatural(s, k, w.actualAssets);
    EmptiedWindowLosesYield(w, s, k);
  }

  /** Some balance and rate grow in a second. */
  lemma GrowingRate()
    ensures ComputeUpdatedAssets(BASE_27, BASE_27, 1) > BASE_27
  {
    DoublesInASecond();
  }

  /** A schedule in key order guarantees a natural yield, for every opening state on its prediction and all natural
      amounts, if and only if the window opens on its last update or some accrual comes before every withdrawal and
      rate change. */
  lemma NaturalYieldExactlyWhen(s: seq<SegmentEvent>, lastUpdate: int, startTime: int, endTime: int)
    requires lastUpdate <= startTime && SortedBy(s, BY_KEY) && forall e :: e in s ==> Within(e, startTime, endTime)
    ensures AlwaysNatural(s, lastUpdate, startTime, endTime) <==> lastUpdate == startTime || AccruesFirst(s)
  {
    if lastUpdate == startTime || AccruesFirst(s) {
      forall w: Window, t
        | && w.lastUpdate == lastUpdate && w.startTime == startTime && w.endTime == endTime && OpensOnPrediction(w)
          && SameSchedule(s, t) && (forall e :: e in t ==> NaturalAmounts(e)) && Integrated(w, t).Success?
        ensures Integrated(w, t).value.integratedYpo >= 0
      {
        ScheduleKeepsOrder(s, t);
        IntegratedYieldIsNatural(w, t);
      }
    } else {
      var k := FirstLowering(s);
      GrowingRate();
      var w := RuinedWindow(BASE_27, BASE_27, lastUpdate, startTime, endTime);
      RuinedWindowOpens(BASE_27, BASE_27, lastUpdate, startTime, endTime);
      EarlyLoweringLosesYield(s, k, w);
    }
  }

  /** A rate cut in the opening second, before any accrual, erases the pending yield. */
  lemma UnaccruedRateCutLosesYield()
    ensures var w := Window(BASE_27, 2 * BASE_27, BASE_27, 0, 1, 1);
            && OpensOnPrediction(w) && Integrated(w, [RateUpdated(1, 0, 0)]).Success?
            && Integrated(w, [RateUpdated(1, 0, 0)]).value.integratedYpo < 0
  {
    var w, s := Window(BASE_27, 2 * BASE_27, BASE_27, 0, 1, 1), [RateUpdated(1, 0, 0)];
    DoublesInASecond();
    EmptiedWindowLosesYield(w, s, 0);
    assert EmptiedAt(s, 0, BASE_27) == s;
  }

  // Yield never shrinks along a window.

  /** Every withdrawal and rate change comes at the moment of the latest accrual. */
  predicate AccruesBeforeChanges(lastUpdate: int, s: seq<SegmentEvent>) {
    forall i :: 0 <= i < |s| && Lowers(s[i]) ==> s[i].timestamp == LastAccrual(lastUpdate, s[..i])
  }

  function ClockAfter(startTime: int, s: seq<SegmentEvent>): int {
    if s == [] then startTime else s[|s| - 1].timestamp
  }

  lemma {:induction false} FoldStaysNatural(w: Window, s: seq<SegmentEvent>)
    requires w.actualAssets >= 0 && w.rate >= 0 && w.lastUpdate <= w.startTime
    requires forall e :: e in s ==> NaturalAmounts(e)
    requires SortedBy(s, BY_KEY)
    requires Fold(Opening(w), s, w.startTime, w.endTime).Success?
    ensures var q := Fold(Opening(w), s, w.startTime, w.endTime).value;
            && q.actualAssets >= 0 && q.rate >= 0
            && q.lastUpdate == LastAccrual(w.lastUpdate, s) <= ClockAfter(w.startTime, s)
  {
    if s != [] {
      var init := s[..|s| - 1];
      FoldStaysNatural(w, init);
      assert s[|s| - 1] in s;
      if init != [] {
        assert BY_KEY(s[|s| - 2], s[|s| - 1]);
      }
    }
  }

  /** One replayed event never lowers the yield counted up to its own time. */
  lemma ApplyNeverShrinks(p: Position, e: SegmentEvent, startTime: int, endTime: int, before: int)
    requires p.actualAssets >= 0 && p.rate >= 0 && p.lastUpdate <= before <= e.timestamp
    requires NaturalAmounts(e) && (Lowers(e) ==> e.timestamp == p.lastUpdate)
    requires Apply(p, e, startTime, endTime).Success?
    ensures YieldSoFar(p, before) <= YieldSoFar(Apply(p, e, startTime, endTime).value, e.timestamp)
  {
    var q := Apply(p, e, startTime, endTime).value;
    UpdatedAssetsMonotone(p.actualAssets, p.rate, before - p.lastUpdate, e.timestamp - p.lastUpdate);
    UpdatedAssetsMonotone(p.actualAssets, p.rate, 0, 0);
    UpdatedAssetsMonotone(q.actualAssets, q.rate, 0, 0);
    if e.Deposit? {
      DepositGrowsPending(p.actualAssets, e.assets, p.rate, e.timestamp - p.lastUpdate);
    }
  }

  /** Along the fold, integrated yield plus pending yield at the clock never falls. */
  lemma {:induction false} YieldNeverShrinks(w: Window, s: seq<SegmentEvent>, i: nat)
    requires w.actualAssets >= 0 && w.rate >= 0 && w.lastUpdate <= w.startTime && i <= |s|
    requires forall e :: e in s ==> NaturalAmounts(e)
    requires SortedBy(s, BY_KEY) && AccruesBeforeChanges(w.lastUpdate, s)
    requires Fold(Opening(w), s, w.startTime, w.endTime).Success?
    ensures Fold(Opening(w), s[..i], w.startTime, w.endTime).Success?
    ensures YieldSoFar(Fold(Opening(w), s[..i], w.startTime, w.endTime).value, ClockAfter(w.startTime, s[..i]))
         <= YieldSoFar(Fold(Opening(w), s, w.startTime, w.endTime).value, ClockAfter(w.startTime, s))
    decreases |s|
  {
    if i == |s| {
      assert s[..i] == s;
    } else {
      var init := s[..|s| - 1];
      assert AccruesBeforeChanges(w.lastUpdate, init) by {
        forall k | 0 <= k < |init| && Lowers(init[k])
          ensures init[k].timestamp == LastAccrual(w.lastUpdate, init[..k])
        {
          assert init[..k] == s[..k];
        }
      }
      YieldNeverShrinks(w, init, i);
      assert init[..i] == s[..i];
      FoldStaysNatural(w, init);
      assert s[|s| - 1] in s;
      if init != [] {
        assert BY_KEY(s[|s| - 2], s[|s| - 1]);
      }
      ApplyNeverShrinks(Fold(Opening(w), init, w.startTime, w.endTime).value, s[|s| - 1], w.startTime, w.endTime,
                        ClockAfter(w.startTime, init));
    }
  }
}
