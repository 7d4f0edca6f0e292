/** Chaining stored yield intervals across a requested range, with a tolerance at every join. */
module YieldIntervals {
  import opened Wrappers
  import opened Sorting
  import opened Sums

  datatype Status = Candidate | Verified | Invalid

  datatype Interval = Interval(id: string, windowStart: int, windowEnd: int, nativeYpo: int, status: Status)

  datatype RangeStatus = RangeVerified | RangeCandidate | RangeUnavailable

  datatype Aggregate = Aggregate(
    status: RangeStatus, complete: bool, verified: bool, nativeYpo: Option<int>, intervalIds: seq<string>,
    coveredThrough: Option<int>)

  predicate Usable(x: Interval, rangeStart: int, rangeEnd: int) {
    x.status != Invalid && x.windowEnd > rangeStart && x.windowStart < rangeEnd
  }

  function UsableOnly(s: seq<Interval>, rangeStart: int, rangeEnd: int): seq<Interval> {
    if s == [] then [] else
      var before, last := UsableOnly(s[..|s| - 1], rangeStart, rangeEnd), s[|s| - 1];
      if Usable(last, rangeStart, rangeEnd) then before + [last] else before
  }

  /** Earlier starts first; of two equal starts, the longer one. */
  const BY_WINDOW: (Interval, Interval) -> bool := (x: Interval, y: Interval) =>
    x.windowStart < y.windowStart || (x.windowStart == y.windowStart && x.windowEnd >= y.windowEnd)

  function Distance(x: int, y: int): int { if x >= y then x - y else y - x }

  /** The greedy pick from ordered intervals. */
  function Greedy(s: seq<Interval>, cursor: int, rangeEnd: int, tolerance: int): seq<Interval> {
    if s == [] then [] else
      var x, rest := s[0], s[1..];
      if x.windowEnd <= cursor + tolerance then Greedy(rest, cursor, rangeEnd, tolerance)
      else if Distance(x.windowStart, cursor) > tolerance then
        if x.windowStart > cursor + tolerance then [] else Greedy(rest, cursor, rangeEnd, tolerance)
      else if x.windowEnd >= rangeEnd - tolerance then [x]
      else [x] + Greedy(rest, x.windowEnd, rangeEnd, tolerance)
  }

  function Picked(intervals: seq<Interval>, rangeStart: int, rangeEnd: int, tolerance: int): seq<Interval> {
    Greedy(StableSort(UsableOnly(intervals, rangeStart, rangeEnd), BY_WINDOW), rangeStart, rangeEnd, tolerance)
  }

  function CursorAfter(s: seq<Interval>, cursor: int): int { if s == [] then cursor else s[|s| - 1].windowEnd }

  function YpoOf(x: Interval): int { x.nativeYpo }

  function DurationOf(x: Interval): int { x.windowEnd - x.windowStart }

  function Summarized(picked: seq<Interval>, rangeStart: int, rangeEnd: int, tolerance: int): Aggregate {
    var complete := picked != [] && CursorAfter(picked, rangeStart) >= rangeEnd - tolerance;
    var verified := complete && forall i :: 0 <= i < |picked| ==> picked[i].status == Verified;
    Aggregate(if !complete then RangeUnavailable else if verified then RangeVerified else RangeCandidate,
              complete, verified, if complete then Some(Sum(picked, YpoOf)) else None,
              seq(|picked|, i requires 0 <= i < |picked| => picked[i].id),
              if picked == [] then None else Some(CursorAfter(picked, rangeStart)))
  }

  method FilterUsable(intervals: seq<Interval>, rangeStart: int, rangeEnd: int) returns (usable: seq<Interval>)
    ensures usable == UsableOnly(intervals, rangeStart, rangeEnd)
  {
    usable := [];
    for i := 0 to |intervals|
      invariant usable == UsableOnly(intervals[..i], rangeStart, rangeEnd)
    {
      assert intervals[..i + 1][..i] == intervals[..i];
      if Usable(intervals[i], rangeStart, rangeEnd) {
        usable := usable + [intervals[i]];
      }
    }
    assert intervals[..|intervals|] == intervals;
  }

  method CheckAndAdd(selected: seq<Interval>) returns (allVerified: bool, total: int)
    ensures allVerified <==> forall k :: 0 <= k < |selected| ==> selected[k].status == Verified
    ensures total == Sum(selected, YpoOf)
  {
    allVerified, total := true, 0;
    for i := 0 to |selected|
      invariant allVerified <==> forall k :: 0 <= k < i ==> selected[k].status == Verified
      invariant total == Sum(selected[..i], YpoOf)
    {
      assert selected[..i + 1][..i] == selected[..i];
      allVerified := allVerified && selected[i].status == Verified;
      total := total + selected[i].nativeYpo;
    }
    assert selected[..|selected|] == selected;
  }

  method AggregateContiguousYieldIntervals(intervals: seq<Interval>, rangeStart: int, rangeEnd: int, tolerance: int)
    returns (r: Aggregate)
    ensures r == Summarized(Picked(intervals, rangeStart, rangeEnd, tolerance), rangeStart, rangeEnd, tolerance)
  {
    var usable := FilterUsable(intervals, rangeStart, rangeEnd);
    var ordered := StableSort(usable, BY_WINDOW);
    var selected, cursor := PickInOrder(ordered, rangeStart, rangeEnd, tolerance);
    var complete := |selected| > 0 && cursor >= rangeEnd - tolerance;
    var allVerified, total := CheckAndAdd(selected);
    var verified := complete && allVerified;
    r := Aggregate(if complete then (if verified then RangeVerified else RangeCandidate) else RangeUnavailable,
                   complete, verified, if complete then Some(total) else None,
                   seq(|selected|, i requires 0 <= i < |selected| => selected[i].id),
                   if selected == [] then None else Some(selected[|selected| - 1].windowEnd));
  }

  /** The picking loop, with its skips and its two early exits. */
  method PickInOrder(ordered: seq<Interval>, rangeStart: int, rangeEnd: int, tolerance: int)
    returns (selected: seq<Interval>, cursor: int)
    ensures selected == Greedy(ordered, rangeStart, rangeEnd, tolerance) && cursor == CursorAfter(selected, rangeStart)
  {
    selected, cursor := [], rangeStart;
    ghost var pending := true;
    var i := 0;
    while i < |ordered|
      invariant 0 <= i <= |ordered| && pending && cursor == CursorAfter(selected, rangeStart)
      invariant Greedy(ordered, rangeStart, rangeEnd, tolerance)
          == selected + Greedy(ordered[i..], cursor, rangeEnd, tolerance)
    {
      var interval := ordered[i];
      assert ordered[i..][0] == interval && ordered[i..][1..] == ordered[i + 1..];
      var start, end := interval.windowStart, interval.windowEnd;
      i := i + 1;
      if end <= cursor + tolerance {
        continue;
      }
      if Distance(start, cursor) > tolerance {
        if start > cursor + tolerance {
          pending := false;
          break;
        }
        continue;
      }
      assert selected + ([interval] + Greedy(ordered[i..], end, rangeEnd, tolerance))
          == (selected + [interval]) + Greedy(ordered[i..], end, rangeEnd, tolerance);
      selected := selected + [interval];
      cursor := end;
      if cursor >= rangeEnd - tolerance {
        pending := false;
        break;
      }
    }
    if pending {
      assert Greedy(ordered[i..], cursor, rangeEnd, tolerance) == [];
    }
  }

  // Soundness.

  /** Each interval starts within the tolerance of where the previous one ended and advances by more than it. */
  ghost predicate Chained(s: seq<Interval>, cursor: int, tolerance: int) {
    forall i :: 0 <= i < |s| ==> JoinsAt(s, i, cursor, tolerance)
  }

  predicate JoinsAt(s: seq<Interval>, i: nat, cursor: int, tolerance: int)
    requires i < |s|
  {
    Continues(s[i], JointBefore(s, i, cursor), tolerance)
  }

  /** Where interval number `i` is to start. */
  function JointBefore(s: seq<Interval>, i: nat, cursor: int): int
    requires i <= |s|
  {
    if i == 0 then cursor else s[i - 1].windowEnd
  }

  predicate Continues(x: Interval, joint: int, tolerance: int) {
    Distance(x.windowStart, joint) <= tolerance && x.windowEnd > joint + tolerance
  }

  lemma ChainGrows(x: Interval, tail: seq<Interval>, cursor: int, tolerance: int)
    requires Chained(tail, x.windowEnd, tolerance)
    requires Distance(x.windowStart, cursor) <= tolerance && x.windowEnd > cursor + tolerance
    ensures Chained([x] + tail, cursor, tolerance)
  {
    var g := [x] + tail;
    forall i | 0 <= i < |g| ensures JoinsAt(g, i, cursor, tolerance) {
      if i > 0 {
        assert JoinsAt(tail, i - 1, x.windowEnd, tolerance);
      }
    }
  }

  lemma {:induction false} GreedyChains(s: seq<Interval>, cursor: int, rangeEnd: int, tolerance: int)
    ensures Chained(Greedy(s, cursor, rangeEnd, tolerance), cursor, tolerance)
    ensures forall x :: x in Greedy(s, cursor, rangeEnd, tolerance) ==> x in s
    decreases |s|
  {
    if s != [] {
      var x, rest := s[0], s[1..];
      if x.windowEnd > cursor + tolerance && Distance(x.windowStart, cursor) <= tolerance {
        GreedyChains(rest, x.windowEnd, rangeEnd, tolerance);
        ChainGrows(x, [], cursor, tolerance);
        ChainGrows(x, Greedy(rest, x.windowEnd, rangeEnd, tolerance), cursor, tolerance);
        assert [x] + [] == [x];
      } else {
        GreedyChains(rest, cursor, rangeEnd, tolerance);
      }
    }
  }

  lemma ChainedPrefix(s: seq<Interval>, cursor: int, tolerance: int)
    requires Chained(s, cursor, tolerance) && s != []
    ensures Chained(s[..|s| - 1], cursor, tolerance)
    ensures Distance(s[|s| - 1].windowStart, CursorAfter(s[..|s| - 1], cursor)) <= tolerance
  {
    var init := s[..|s| - 1];
    forall i | 0 <= i < |init| ensures JoinsAt(init, i, cursor, tolerance) {
      assert JoinsAt(s, i, cursor, tolerance);
    }
    assert JoinsAt(s, |s| - 1, cursor, tolerance);
  }

  lemma DistanceOfSums(a: int, b: int, c: int, d: int, m: int, n: int)
    requires Distance(a, b) <= m && Distance(c, d) <= n
    ensures Distance(a + c, b + d) <= m + n
  {
  }

  lemma {:induction false} ChainLength(s: seq<Interval>, cursor: int, tolerance: int)
    requires Chained(s, cursor, tolerance)
    ensures Distance(Sum(s, DurationOf), CursorAfter(s, cursor) - cursor) <= |s| * tolerance
  {
    if s != [] {
      var init, last := s[..|s| - 1], s[|s| - 1];
      ChainedPrefix(s, cursor, tolerance);
      ChainLength(init, cursor, tolerance);
      var joint := CursorAfter(init, cursor);
      DistanceOfSums(Sum(init, DurationOf), joint - cursor, DurationOf(last), last.windowEnd - joint,
                     |init| * tolerance, tolerance);
      assert |s| * tolerance == (|init| + 1) * tolerance == |init| * tolerance + tolerance;
    }
  }

  lemma {:induction false} UsableOnlyMembers(s: seq<Interval>, rangeStart: int, rangeEnd: int)
    ensures forall x :: x in UsableOnly(s, rangeStart, rangeEnd) <==> x in s && Usable(x, rangeStart, rangeEnd)
  {
    if s != [] {
      UsableOnlyMembers(s[..|s| - 1], rangeStart, rangeEnd);
      assert s == s[..|s| - 1] + [s[|s| - 1]];
    }
  }

  /** A complete answer is a tolerant tiling: it starts, joins and ends within the tolerance, uses only given valid
      intervals, advances more than the tolerance per pick, and its durations add up to the covered span within one
      tolerance for each pick. */
  lemma CompleteIsTolerantTiling(intervals: seq<Interval>, rangeStart: int, rangeEnd: int, tolerance: int)
    ensures var picked := Picked(intervals, rangeStart, rangeEnd, tolerance);
            var r := Summarized(picked, rangeStart, rangeEnd, tolerance);
            && Chained(picked, rangeStart, tolerance)
            && (forall x :: x in picked ==> x in intervals && Usable(x, rangeStart, rangeEnd))
            && Distance(Sum(picked, DurationOf), CursorAfter(picked, rangeStart) - rangeStart) <= |picked| * tolerance
            && (r.complete <==> r.coveredThrough.Some? && r.coveredThrough.value >= rangeEnd - tolerance)
            && (r.verified ==> forall x :: x in picked ==> x.status == Verified)
  {
    var usable := UsableOnly(intervals, rangeStart, rangeEnd);
    var ordered := StableSort(usable, BY_WINDOW);
    UsableOnlyMembers(intervals, rangeStart, rangeEnd);
    SameElements(ordered, usable);
    GreedyChains(ordered, rangeStart, rangeEnd, tolerance);
    ChainLength(Picked(intervals, rangeStart, rangeEnd, tolerance), rangeStart, tolerance);
  }

  /** What the answer says about the picks: complete when they reach the range's end but for the tolerance, verified
      when moreover each of them is, with the sum of their yields, their identifiers in order and their end. */
  lemma SummaryMeans(intervals: seq<Interval>, rangeStart: int, rangeEnd: int, tolerance: int)
    ensures var picked := Picked(intervals, rangeStart, rangeEnd, tolerance);
            var r := Summarized(picked, rangeStart, rangeEnd, tolerance);
            && (r.complete <==> |picked| > 0 && picked[|picked| - 1].windowEnd >= rangeEnd - tolerance)
            && (r.verified <==> r.complete && forall i :: 0 <= i < |picked| ==> picked[i].status == Verified)
            && r.status == (if r.verified then RangeVerified
                            else if r.complete then RangeCandidate
                            else RangeUnavailable)
            && (r.nativeYpo.Some? <==> r.complete)
            && (r.complete ==> r.nativeYpo.value == Sum(picked, (x: Interval) => x.nativeYpo))
            && |r.intervalIds| == |picked| && (forall i :: 0 <= i < |picked| ==> r.intervalIds[i] == picked[i].id)
            && (r.coveredThrough.Some? <==> |picked| > 0)
            && (|picked| > 0 ==> r.coveredThrough.value == picked[|picked| - 1].windowEnd)
  {
    var picked := Picked(intervals, rangeStart, rangeEnd, tolerance);
    SumOfYpo(picked);
    assert forall x :: x in picked <==> exists i :: 0 <= i < |picked| && picked[i] == x;
  }

  lemma {:induction false} SumOfYpo(s: seq<Interval>)
    ensures Sum(s, YpoOf) == Sum(s, (x: Interval) => x.nativeYpo)
  {
    if s != [] {
      SumOfYpo(s[..|s| - 1]);
    }
  }

  lemma {:induction false} PicksAdvance(s: seq<Interval>, cursor: int, rangeEnd: int, tolerance: int)
    requires tolerance >= 0
    ensures forall x :: x in Greedy(s, cursor, rangeEnd, tolerance) ==>
              x.windowEnd > cursor + tolerance && x.windowStart >= cursor - tolerance
    decreases |s|
  {
    if s != [] {
      PicksAdvance(s[1..], cursor, rangeEnd, tolerance);
      if s[0].windowEnd > cursor + tolerance {
        PicksAdvance(s[1..], s[0].windowEnd, rangeEnd, tolerance);
      }
    }
  }

  lemma {:induction false} GreedyPicksLongest(s: seq<Interval>, cursor: int, rangeEnd: int, tolerance: int, x: Interval,
                                              y: Interval)
    requires tolerance >= 0 && SortedBy(s, BY_WINDOW)
    requires x in Greedy(s, cursor, rangeEnd, tolerance) && y in s && y.windowStart == x.windowStart
    ensures y.windowEnd <= x.windowEnd
    decreases |s|
  {
    var h, rest := s[0], s[1..];
    var next :=
      if h.windowEnd > cursor + tolerance && Distance(h.windowStart, cursor) <= tolerance then h.windowEnd else cursor;
    PicksAdvance(rest, next, rangeEnd, tolerance);
    GreedyChains(rest, next, rangeEnd, tolerance);
    assert s == [h] + rest;
    forall z | z in rest ensures BY_WINDOW(h, z) {
      var i :| 0 <= i < |rest| && rest[i] == z;
      assert s[i + 1] == z;
    }
    if y in rest && x in Greedy(rest, next, rangeEnd, tolerance) {
      GreedyPicksLongest(rest, next, rangeEnd, tolerance, x, y);
    }
  }

  /** Of the given intervals that continue from the joint, `x` starts first, and is the longest of those. */
  ghost predicate FirstToContinue(s: seq<Interval>, x: Interval, joint: int, tolerance: int) {
    && x in s && Continues(x, joint, tolerance)
    && forall y :: y in s && Continues(y, joint, tolerance) ==>
         x.windowStart < y.windowStart || (x.windowStart == y.windowStart && x.windowEnd >= y.windowEnd)
  }

  ghost predicate FirstAt(s: seq<Interval>, g: seq<Interval>, i: nat, cursor: int, tolerance: int)
    requires i < |g|
  {
    FirstToContinue(s, g[i], JointBefore(g, i, cursor), tolerance)
  }

  ghost predicate NoneContinues(s: seq<Interval>, joint: int, tolerance: int) {
    forall y :: y in s ==> !Continues(y, joint, tolerance)
  }

  /** The picks `g` are forced: each is the first to continue from where the one before it ended, none is left of the
      range's end but the last, and after the last either that end is reached or nothing continues. */
  ghost predicate Forced(s: seq<Interval>, g: seq<Interval>, cursor: int, rangeEnd: int, tolerance: int) {
    && (forall i :: 0 <= i < |g| ==> FirstAt(s, g, i, cursor, tolerance))
    && (forall i :: 0 <= i < |g| - 1 ==> g[i].windowEnd < rangeEnd - tolerance)
    && ((|g| > 0 && g[|g| - 1].windowEnd >= rangeEnd - tolerance)
        || NoneContinues(s, JointBefore(g, |g|, cursor), tolerance))
  }

  lemma {:induction false} JointsAdvance(g: seq<Interval>, cursor: int, tolerance: int, i: nat)
    requires Chained(g, cursor, tolerance) && i <= |g| && tolerance >= 0
    ensures JointBefore(g, i, cursor) >= cursor
  {
    if i > 0 {
      JointsAdvance(g, cursor, tolerance, i - 1);
      assert JoinsAt(g, i - 1, cursor, tolerance);
    }
  }

  /** An interval that no joint from `cursor` on can use changes nothing in front of the others. */
  lemma ForcedPast(x: Interval, rest: seq<Interval>, g: seq<Interval>, cursor: int, rangeEnd: int, tolerance: int)
    requires Forced(rest, g, cursor, rangeEnd, tolerance)
    requires forall i :: 0 <= i <= |g| ==> !Continues(x, JointBefore(g, i, cursor), tolerance)
    ensures Forced([x] + rest, g, cursor, rangeEnd, tolerance)
  {
    forall i | 0 <= i < |g| ensures FirstAt([x] + rest, g, i, cursor, tolerance) {
      assert FirstAt(rest, g, i, cursor, tolerance);
    }
  }

  lemma FirstBehind(s: seq<Interval>, x: Interval, g: seq<Interval>, cursor: int, tolerance: int, i: nat)
    requires i < |g| && FirstAt(s, g, i, x.windowEnd, tolerance)
    ensures FirstAt(s, [x] + g, i + 1, cursor, tolerance)
  {
    assert ([x] + g)[i + 1] == g[i];
    assert JointBefore([x] + g, i + 1, cursor) == JointBefore(g, i, x.windowEnd);
  }

  lemma ForcedOn(x: Interval, s: seq<Interval>, g: seq<Interval>, cursor: int, rangeEnd: int, tolerance: int)
    requires Forced(s, g, x.windowEnd, rangeEnd, tolerance) && x.windowEnd < rangeEnd - tolerance
    requires FirstToContinue(s, x, cursor, tolerance)
    ensures Forced(s, [x] + g, cursor, rangeEnd, tolerance)
  {
    var picks := [x] + g;
    assert |g| > 0 ==> picks[|g|] == g[|g| - 1];
    assert JointBefore(picks, |picks|, cursor) == JointBefore(g, |g|, x.windowEnd);
    forall i | 0 <= i < |picks| ensures FirstAt(s, picks, i, cursor, tolerance) {
      if i > 0 {
        assert FirstAt(s, g, i - 1, x.windowEnd, tolerance);
        FirstBehind(s, x, g, cursor, tolerance, i - 1);
      }
    }
    forall i | 0 <= i < |g| ensures picks[i].windowEnd < rangeEnd - tolerance {
      assert i > 0 ==> picks[i] == g[i - 1];
    }
  }

  /** One step of the pick: what it takes is the first to continue, and what it passes over never continues. */
  lemma GreedyStep(s: seq<Interval>, cursor: int, rangeEnd: int, tolerance: int)
    requires tolerance >= 0 && s != []
    ensures var x, rest, g := s[0], s[1..], Greedy(s, cursor, rangeEnd, tolerance);
            if Continues(x, cursor, tolerance) then
              g == if x.windowEnd >= rangeEnd - tolerance then [x]
                   else [x] + Greedy(rest, x.windowEnd, rangeEnd, tolerance)
            else
              g == if x.windowEnd > cursor + tolerance && x.windowStart > cursor + tolerance then []
                   else Greedy(rest, cursor, rangeEnd, tolerance)
  {
  }

  lemma {:induction false} GreedyIsForced(s: seq<Interval>, cursor: int, rangeEnd: int, tolerance: int)
    requires tolerance >= 0 && SortedBy(s, BY_WINDOW)
    ensures Forced(s, Greedy(s, cursor, rangeEnd, tolerance), cursor, rangeEnd, tolerance)
    decreases |s|, 1
  {
    if s != [] {
      var x, rest := s[0], s[1..];
      GreedyStep(s, cursor, rangeEnd, tolerance);
      HeadIsFirst(s);
      assert s == [x] + rest;
      if Continues(x, cursor, tolerance) {
        assert FirstToContinue(s, x, cursor, tolerance);
        if x.windowEnd < rangeEnd - tolerance {
          RestIsForced(x, rest, x.windowEnd, rangeEnd, tolerance);
          ForcedOn(x, s, Greedy(rest, x.windowEnd, rangeEnd, tolerance), cursor, rangeEnd, tolerance);
        }
      } else if x.windowEnd <= cursor + tolerance || x.windowStart < cursor - tolerance {
        RestIsForced(x, rest, cursor, rangeEnd, tolerance);
      }
    }
  }

  /** The picks from behind an interval that reaches too short for them, or starts too early. */
  lemma RestIsForced(x: Interval, rest: seq<Interval>, cursor: int, rangeEnd: int, tolerance: int)
    requires tolerance >= 0 && SortedBy(rest, BY_WINDOW)
    requires x.windowEnd <= cursor + tolerance || x.windowStart < cursor - tolerance
    ensures Forced([x] + rest, Greedy(rest, cursor, rangeEnd, tolerance), cursor, rangeEnd, tolerance)
    decreases |rest| + 1, 0
  {
    var g := Greedy(rest, cursor, rangeEnd, tolerance);
    GreedyIsForced(rest, cursor, rangeEnd, tolerance);
    GreedyChains(rest, cursor, rangeEnd, tolerance);
    forall i | 0 <= i <= |g| ensures !Continues(x, JointBefore(g, i, cursor), tolerance) {
      JointsAdvance(g, cursor, tolerance, i);
    }
    ForcedPast(x, rest, g, cursor, rangeEnd, tolerance);
  }

  lemma HeadIsFirst(s: seq<Interval>)
    requires s != [] && SortedBy(s, BY_WINDOW)
    ensures SortedBy(s[1..], BY_WINDOW)
    ensures forall y :: y in s ==>
              s[0].windowStart < y.windowStart || (s[0].windowStart == y.windowStart && s[0].windowEnd >= y.windowEnd)
  {
    forall y | y in s ensures BY_WINDOW(s[0], y) {
      var i :| 0 <= i < |s| && s[i] == y;
      assert i > 0 ==> BY_WINDOW(s[0], s[i]);
    }
  }

  lemma ForcedByMembers(s: seq<Interval>, t: seq<Interval>, g: seq<Interval>, cursor: int, rangeEnd: int,
                        tolerance: int)
    requires Forced(s, g, cursor, rangeEnd, tolerance) && forall y :: y in s <==> y in t
    ensures Forced(t, g, cursor, rangeEnd, tolerance)
  {
    forall i | 0 <= i < |g| ensures FirstAt(t, g, i, cursor, tolerance) {
      assert FirstAt(s, g, i, cursor, tolerance);
    }
  }

  /** Whatever the intervals, complete or not, the picks are forced among the usable ones. */
  lemma PicksAreForced(intervals: seq<Interval>, rangeStart: int, rangeEnd: int, tolerance: int)
    requires tolerance >= 0
    ensures var usable := UsableOnly(intervals, rangeStart, rangeEnd);
            && (forall y :: y in usable <==>
                  y in intervals && y.status != Invalid && y.windowEnd > rangeStart && y.windowStart < rangeEnd)
            && Forced(usable, Picked(intervals, rangeStart, rangeEnd, tolerance), rangeStart, rangeEnd, tolerance)
  {
    var usable := UsableOnly(intervals, rangeStart, rangeEnd);
    var ordered := StableSort(usable, BY_WINDOW);
    ByWindowIsPreorder();
    UsableOnlyMembers(intervals, rangeStart, rangeEnd);
    StableSortSorts(usable, BY_WINDOW);
    SameElements(ordered, usable);
    GreedyIsForced(ordered, rangeStart, rangeEnd, tolerance);
    ForcedByMembers(ordered, usable, Picked(intervals, rangeStart, rangeEnd, tolerance), rangeStart, rangeEnd,
                    tolerance);
  }

  /** Every pick is the longest usable interval with its start. */
  lemma PicksAreLongest(intervals: seq<Interval>, rangeStart: int, rangeEnd: int, tolerance: int, x: Interval,
                        y: Interval)
    requires tolerance >= 0 && x in Picked(intervals, rangeStart, rangeEnd, tolerance)
    requires y in intervals && Usable(y, rangeStart, rangeEnd) && y.windowStart == x.windowStart
    ensures y.windowEnd <= x.windowEnd
  {
    var usable := UsableOnly(intervals, rangeStart, rangeEnd);
    UsableOnlyMembers(intervals, rangeStart, rangeEnd);
    SameElements(StableSort(usable, BY_WINDOW), usable);
    ByWindowIsPreorder();
    StableSortSorts(usable, BY_WINDOW);
    GreedyPicksLongest(StableSort(usable, BY_WINDOW), rangeStart, rangeEnd, tolerance, x, y);
  }

  lemma ByWindowIsPreorder()
    ensures TotalPreorder(BY_WINDOW)
  {
  }

  // Completeness on exact tilings.

  /** Valid pieces longer than the tolerance that follow one another exactly from `a` to `b`. */
  predicate ExactTiling(s: seq<Interval>, a: int, b: int, tolerance: int) {
    && s != [] && s[0].windowStart == a && s[|s| - 1].windowEnd == b
    && (forall i :: 0 <= i < |s| - 1 ==> s[i].windowEnd == s[i + 1].windowStart)
    && (forall i :: 0 <= i < |s| ==> s[i].status != Invalid && s[i].windowEnd - s[i].windowStart > tolerance)
  }

  lemma {:induction false} TilingOrder(s: seq<Interval>, a: int, b: int, tolerance: int, i: nat, j: nat)
    requires ExactTiling(s, a, b, tolerance) && tolerance >= 0 && i < j < |s|
    ensures s[i].windowEnd <= s[j].windowStart
    decreases j - i
  {
    if i + 1 < j {
      TilingOrder(s, a, b, tolerance, i, j - 1);
    }
  }

  /** `y` stands before the piece `x` and the greedy pick that waits for `x` takes it: it starts within the tolerance of
      the piece and reaches far enough past that start. */
  predicate Overtakes(y: Interval, x: Interval, tolerance: int) {
    && y != x && BY_WINDOW(y, x) && Distance(y.windowStart, x.windowStart) <= tolerance
    && y.windowEnd > x.windowStart + tolerance
  }

  ghost predicate NoneOvertakes(s: seq<Interval>, tiling: seq<Interval>, tolerance: int) {
    forall y, x :: y in s && x in tiling ==> !Overtakes(y, x, tolerance)
  }

  ghost predicate Holds(s: seq<Interval>, tiling: seq<Interval>) { forall x :: x in tiling ==> x in s }

  lemma LaterPieceStarts(tiling: seq<Interval>, a: int, b: int, tolerance: int, x: Interval)
    requires ExactTiling(tiling, a, b, tolerance) && tolerance >= 0 && x in tiling[1..]
    ensures x.windowStart > a + tolerance
  {
    var i :| 0 <= i < |tiling| - 1 && tiling[1..][i] == x;
    TilingOrder(tiling, a, b, tolerance, 0, i + 1);
    assert tiling[0].windowEnd - tiling[0].windowStart > tolerance;
  }

  lemma FirstIsNoLater(s: seq<Interval>, x: Interval)
    requires SortedBy(s, BY_WINDOW) && x in s
    ensures s[0] == x || BY_WINDOW(s[0], x)
  {
    var k :| 0 <= k < |s| && s[k] == x;
    assert k > 0 ==> BY_WINDOW(s[0], s[k]);
  }

  /** An interval that starts no later than the tiling overtakes no piece but, perhaps, the first. */
  lemma OvertakesOnlyFirst(tiling: seq<Interval>, a: int, b: int, tolerance: int, y: Interval, x: Interval)
    requires ExactTiling(tiling, a, b, tolerance) && tolerance >= 0 && y.windowStart <= a
    requires x in tiling && Overtakes(y, x, tolerance)
    ensures x == tiling[0]
  {
    if x != tiling[0] {
      assert tiling == [tiling[0]] + tiling[1..];
      LaterPieceStarts(tiling, a, b, tolerance, x);
    }
  }

  /** The first interval is not the piece waited for, nor overtakes it: the greedy pick and the tiling pass over it. */
  lemma PassedOver(s: seq<Interval>, tiling: seq<Interval>, a: int, b: int, tolerance: int)
    requires ExactTiling(tiling, a, b, tolerance) && tolerance >= 0
    requires SortedBy(s, BY_WINDOW) && Holds(s, tiling) && s != []
    requires s[0] != tiling[0] && !Overtakes(s[0], tiling[0], tolerance)
    ensures Greedy(s, a, b, tolerance) == Greedy(s[1..], a, b, tolerance) && Holds(s[1..], tiling)
    ensures NoneOvertakes(s, tiling, tolerance) <==> NoneOvertakes(s[1..], tiling, tolerance)
  {
    var h, rest := s[0], s[1..];
    assert s == [h] + rest && tiling == [tiling[0]] + tiling[1..];
    assert tiling[0] in tiling;
    FirstIsNoLater(s, tiling[0]);
    forall x | x in tiling ensures x in rest {
      if x != tiling[0] {
        LaterPieceStarts(tiling, a, b, tolerance, x);
      }
    }
    forall x | x in tiling ensures !Overtakes(h, x, tolerance) {
      if Overtakes(h, x, tolerance) {
        OvertakesOnlyFirst(tiling, a, b, tolerance, h, x);
      }
    }
  }

  /** The first interval is the piece waited for: nothing overtakes it any more, and it overtakes no later piece. */
  lemma PieceTaken(s: seq<Interval>, tiling: seq<Interval>, a: int, b: int, tolerance: int)
    requires ExactTiling(tiling, a, b, tolerance) && tolerance >= 0
    requires SortedBy(s, BY_WINDOW) && KeysIdentify(s, BY_WINDOW) && Holds(s, tiling) && s != [] && s[0] == tiling[0]
    ensures Holds(s[1..], tiling[1..])
    ensures NoneOvertakes(s, tiling, tolerance) <==> NoneOvertakes(s[1..], tiling[1..], tolerance)
  {
    var h, rest, later := s[0], s[1..], tiling[1..];
    assert s == [h] + rest && tiling == [h] + later;
    forall x | x in later ensures x in rest {
      LaterPieceStarts(tiling, a, b, tolerance, x);
      assert x in tiling && x in s && x != h;
    }
    forall y | y in s ensures !Overtakes(y, h, tolerance) {
      FirstIsNoLater(s, y);
      var k :| 0 <= k < |s| && s[k] == y;
      assert BY_WINDOW(s[k], s[0]) && BY_WINDOW(s[0], s[k]) ==> s[k] == s[0];
    }
    forall x | x in later ensures !Overtakes(h, x, tolerance) {
      LaterPieceStarts(tiling, a, b, tolerance, x);
    }
  }

  lemma LaterTiling(tiling: seq<Interval>, a: int, b: int, tolerance: int)
    requires ExactTiling(tiling, a, b, tolerance) && |tiling| > 1
    ensures ExactTiling(tiling[1..], tiling[0].windowEnd, b, tolerance)
  {
    var later := tiling[1..];
    assert forall i :: 0 <= i < |later| ==> later[i] == tiling[i + 1];
  }

  lemma TilingLast(tiling: seq<Interval>, a: int, b: int, tolerance: int)
    requires ExactTiling(tiling, a, b, tolerance) && tolerance >= 0
    ensures |tiling| == 1 <==> tiling[0].windowEnd >= b - tolerance
  {
    if |tiling| > 1 {
      TilingOrder(tiling, a, b, tolerance, 0, |tiling| - 1);
    }
  }

  lemma TakeFirst(s: seq<Interval>, a: int, b: int, tolerance: int)
    requires s != [] && Distance(s[0].windowStart, a) <= tolerance && s[0].windowEnd > a + tolerance
    ensures s[0].windowEnd >= b - tolerance ==> Greedy(s, a, b, tolerance) == [s[0]]
    ensures s[0].windowEnd < b - tolerance ==>
              Greedy(s, a, b, tolerance) == [s[0]] + Greedy(s[1..], s[0].windowEnd, b, tolerance)
  {
  }

  lemma TailSorted(s: seq<Interval>)
    requires SortedBy(s, BY_WINDOW) && KeysIdentify(s, BY_WINDOW) && s != []
    ensures SortedBy(s[1..], BY_WINDOW) && KeysIdentify(s[1..], BY_WINDOW)
  {
  }

  lemma {:induction false} GreedyTakesTilingExactlyWhen(s: seq<Interval>, tiling: seq<Interval>, a: int, b: int,
                                                        tolerance: int)
    requires ExactTiling(tiling, a, b, tolerance) && tolerance >= 0
    requires SortedBy(s, BY_WINDOW) && KeysIdentify(s, BY_WINDOW) && Holds(s, tiling)
    ensures Greedy(s, a, b, tolerance) == tiling <==> NoneOvertakes(s, tiling, tolerance)
    decreases |s|, 1
  {
    assert tiling[0] in tiling && tiling[0] in s;
    if s[0] == tiling[0] {
      TakePieces(s, tiling, a, b, tolerance);
    } else if Overtakes(s[0], tiling[0], tolerance) {
      TakeFirst(s, a, b, tolerance);
      assert s[0] in s;
    } else {
      PassedOver(s, tiling, a, b, tolerance);
      TailSorted(s);
      GreedyTakesTilingExactlyWhen(s[1..], tiling, a, b, tolerance);
    }
  }

  lemma {:induction false} TakePieces(s: seq<Interval>, tiling: seq<Interval>, a: int, b: int, tolerance: int)
    requires ExactTiling(tiling, a, b, tolerance) && tolerance >= 0
    requires SortedBy(s, BY_WINDOW) && KeysIdentify(s, BY_WINDOW) && Holds(s, tiling) && s != [] && s[0] == tiling[0]
    ensures Greedy(s, a, b, tolerance) == tiling <==> NoneOvertakes(s, tiling, tolerance)
    decreases |s|, 0
  {
    var rest, later := s[1..], tiling[1..];
    TilingLast(tiling, a, b, tolerance);
    TakeFirst(s, a, b, tolerance);
    PieceTaken(s, tiling, a, b, tolerance);
    if |tiling| == 1 {
      assert tiling == [s[0]];
    } else {
      LaterTiling(tiling, a, b, tolerance);
      TailSorted(s);
      GreedyTakesTilingExactlyWhen(rest, later, s[0].windowEnd, b, tolerance);
      SameAfterHead(s[0], Greedy(rest, s[0].windowEnd, b, tolerance), tiling);
    }
  }

  lemma SameAfterHead(h: Interval, t: seq<Interval>, tiling: seq<Interval>)
    requires tiling != [] && tiling[0] == h
    ensures [h] + t == tiling <==> t == tiling[1..]
  {
    assert ([h] + t)[1..] == t;
    assert tiling == [h] + tiling[1..];
  }

  lemma TilingIsUsable(tiling: seq<Interval>, a: int, b: int, tolerance: int)
    requires ExactTiling(tiling, a, b, tolerance) && tolerance >= 0
    ensures forall x :: x in tiling ==> Usable(x, a, b)
  {
    forall x | x in tiling ensures Usable(x, a, b) {
      var i :| 0 <= i < |tiling| && tiling[i] == x;
      if i > 0 {
        TilingOrder(tiling, a, b, tolerance, 0, i);
      }
      if i < |tiling| - 1 {
        TilingOrder(tiling, a, b, tolerance, i, |tiling| - 1);
      }
    }
  }

  predicate SameWindow(x: Interval, y: Interval) { x.windowStart == y.windowStart && x.windowEnd == y.windowEnd }

  /** Different usable intervals have different windows, as the store's query returns one row for each window. */
  predicate DistinctWindows(intervals: seq<Interval>, rangeStart: int, rangeEnd: int) {
    forall x, y :: x in intervals && y in intervals && SameWindow(x, y) ==>
      Usable(x, rangeStart, rangeEnd) && Usable(y, rangeStart, rangeEnd) ==> x == y
  }

  /** No usable interval overtakes a piece of the tiling. */
  predicate NotOvertaken(intervals: seq<Interval>, tiling: seq<Interval>, rangeStart: int, rangeEnd: int,
                         tolerance: int)
  {
    forall y, x :: y in intervals && Usable(y, rangeStart, rangeEnd) && x in tiling ==> !Overtakes(y, x, tolerance)
  }

  /** An exact tiling among the intervals, in any order and with any repetition, is selected whole if and only if no
      usable interval overtakes a piece. */
  lemma TilingIsSelectedExactlyWhen(intervals: seq<Interval>, tiling: seq<Interval>, rangeStart: int, rangeEnd: int,
                                    tolerance: int)
    requires ExactTiling(tiling, rangeStart, rangeEnd, tolerance) && tolerance >= 0
    requires Holds(intervals, tiling) && DistinctWindows(intervals, rangeStart, rangeEnd)
    ensures Picked(intervals, rangeStart, rangeEnd, tolerance) == tiling <==>
            NotOvertaken(intervals, tiling, rangeStart, rangeEnd, tolerance)
  {
    var usable := UsableOnly(intervals, rangeStart, rangeEnd);
    var ordered := StableSort(usable, BY_WINDOW);
    UsableOnlyMembers(intervals, rangeStart, rangeEnd);
    TilingIsUsable(tiling, rangeStart, rangeEnd, tolerance);
    ByWindowIsPreorder();
    StableSortSorts(usable, BY_WINDOW);
    SameElements(ordered, usable);
    WindowsIdentify(ordered, intervals, rangeStart, rangeEnd);
    GreedyTakesTilingExactlyWhen(ordered, tiling, rangeStart, rangeEnd, tolerance);
  }

  lemma WindowsIdentify(ordered: seq<Interval>, intervals: seq<Interval>, rangeStart: int, rangeEnd: int)
    requires DistinctWindows(intervals, rangeStart, rangeEnd)
    requires forall x :: x in ordered ==> x in intervals && Usable(x, rangeStart, rangeEnd)
    ensures KeysIdentify(ordered, BY_WINDOW)
  {
    forall i, j | 0 <= i < |ordered| && 0 <= j < |ordered| && BY_WINDOW(ordered[i], ordered[j])
                  && BY_WINDOW(ordered[j], ordered[i])
      ensures ordered[i] == ordered[j]
    {
      assert ordered[i] in ordered && ordered[j] in ordered;
    }
  }

  /** A tiling that is selected whole is published with its whole sum. */
  lemma SelectedTilingIsComplete(intervals: seq<Interval>, tiling: seq<Interval>, rangeStart: int, rangeEnd: int,
                                 tolerance: int)
    requires ExactTiling(tiling, rangeStart, rangeEnd, tolerance) && tolerance >= 0
    requires Holds(intervals, tiling) && DistinctWindows(intervals, rangeStart, rangeEnd)
    requires NotOvertaken(intervals, tiling, rangeStart, rangeEnd, tolerance)
    ensures var r := Summarized(Picked(intervals, rangeStart, rangeEnd, tolerance), rangeStart, rangeEnd, tolerance);
            && r.complete && r.nativeYpo == Some(Sum(tiling, YpoOf)) && r.coveredThrough == Some(rangeEnd)
  {
    TilingIsSelectedExactlyWhen(intervals, tiling, rangeStart, rangeEnd, tolerance);
  }

  lemma {:induction false} AllUsable(s: seq<Interval>, rangeStart: int, rangeEnd: int)
    requires forall i :: 0 <= i < |s| ==> Usable(s[i], rangeStart, rangeEnd)
    ensures UsableOnly(s, rangeStart, rangeEnd) == s
  {
    if s != [] {
      AllUsable(s[..|s| - 1], rangeStart, rangeEnd);
      assert s == s[..|s| - 1] + [s[|s| - 1]];
    }
  }

  lemma GreedySkips(x: Interval, rest: seq<Interval>, cursor: int, rangeEnd: int)
    requires x.windowEnd <= cursor || x.windowStart < cursor
    ensures Greedy([x] + rest, cursor, rangeEnd, 0) == Greedy(rest, cursor, rangeEnd, 0)
  {
    assert ([x] + rest)[1..] == rest;
  }

  const LONG := Interval("a", 0, 7, 0, Verified)
  const FIRST := Interval("b", 0, 5, 0, Verified)
  const SECOND := Interval("c", 5, 10, 0, Verified)

  lemma GreedyStopsAtLong()
    ensures Greedy([LONG, FIRST, SECOND], 0, 10, 0) == [LONG]
  {
    GreedySkips(SECOND, [], 7, 10);
    GreedySkips(FIRST, [SECOND], 7, 10);
    assert [SECOND] + [] == [SECOND] && [FIRST] + [SECOND] == [FIRST, SECOND];
    assert [LONG, FIRST, SECOND][1..] == [FIRST, SECOND];
    assert Greedy([FIRST, SECOND], 7, 10, 0) == Greedy([SECOND], 7, 10, 0) == Greedy([], 7, 10, 0) == [];
  }

  lemma PickedFromOrdered(s: seq<Interval>, rangeStart: int, rangeEnd: int, tolerance: int)
    requires SortedBy(s, BY_WINDOW) && forall i :: 0 <= i < |s| ==> Usable(s[i], rangeStart, rangeEnd)
    ensures Picked(s, rangeStart, rangeEnd, tolerance) == Greedy(s, rangeStart, rangeEnd, tolerance)
  {
    AllUsable(s, rangeStart, rangeEnd);
    SortOfSorted(s, BY_WINDOW);
  }

  lemma StoppedShort(intervals: seq<Interval>, x: Interval, rangeStart: int, rangeEnd: int, tolerance: int)
    requires Picked(intervals, rangeStart, rangeEnd, tolerance) == [x] && x.windowEnd < rangeEnd - tolerance
    ensures !Summarized(Picked(intervals, rangeStart, rangeEnd, tolerance), rangeStart, rangeEnd, tolerance).complete
  {
  }

  /** On overlapping intervals the greedy pick can miss a tiling that exists. */
  lemma GreedyMissesOverlappedTiling(intervals: seq<Interval>)
    requires intervals == [LONG, FIRST, SECOND]
    ensures ExactTiling([FIRST, SECOND], 0, 10, 0)
    ensures !Summarized(Picked(intervals, 0, 10, 0), 0, 10, 0).complete
  {
    PickedFromOrdered(intervals, 0, 10, 0);
    GreedyStopsAtLong();
    StoppedShort(intervals, LONG, 0, 10, 0);
  }
}
