/** Block ranges: planning a chunk, shrinking it, merging coverage rows, and finding the gaps they leave. */
module Planner {
  import opened Wrappers
  import opened Sorting

  datatype Range = Range(fromBlock: int, toBlock: int)

  /** The coverage table's check constraint: a range ends no earlier than it starts. */
  type BlockRange = r: Range | r.fromBlock <= r.toBlock witness Range(0, 0)

  datatype PlanError = ChunkSizeNotPositive | RangeReversed

  datatype RpcErrorClass = RangeTooWide | RateLimit | Transient | Fatal

  predicate Contains(r: Range, block: int) { r.fromBlock <= block <= r.toBlock }

  ghost predicate CoveredIn(s: seq<BlockRange>, block: int) {
    exists i :: 0 <= i < |s| && Contains(s[i], block)
  }

  ghost predicate CoveredBy(rows: set<BlockRange>, block: int) {
    exists r :: r in rows && Contains(r, block)
  }

  ghost predicate CoverageComplete(rows: set<BlockRange>, fromBlock: int, toBlock: int) {
    forall b :: fromBlock <= b <= toBlock ==> CoveredBy(rows, b)
  }

  /** In ascending order, with at least one uncovered block between neighbours. */
  predicate Detached(s: seq<BlockRange>) {
    forall i, j :: 0 <= i < j < |s| ==> s[i].toBlock + 1 < s[j].fromBlock
  }

  // Planning.

  function PlanBlockRange(fromBlock: int, toBlock: int, chunkSize: int): (r: Result<BlockRange, PlanError>)
    ensures r.Success? <==> chunkSize >= 1 && fromBlock <= toBlock
    ensures r.Success? ==>
              && r.value.fromBlock == fromBlock && r.value.toBlock <= toBlock
              && r.value.toBlock - r.value.fromBlock < chunkSize
              && (r.value.toBlock == toBlock || r.value.toBlock - r.value.fromBlock == chunkSize - 1)
  {
    if chunkSize < 1 then Failure(ChunkSizeNotPositive)
    else if fromBlock > toBlock then Failure(RangeReversed)
    else
      var plannedTo := fromBlock + chunkSize - 1;
      Success(Range(fromBlock, if plannedTo > toBlock then toBlock else plannedTo))
  }

  function ReduceChunkSize(chunkSize: int): (r: int)
    ensures if chunkSize <= 1 then r == 1 else 1 <= r < chunkSize && 2 * r <= chunkSize <= 2 * r + 1
  {
    if chunkSize <= 1 then 1 else if chunkSize / 2 > 1 then chunkSize / 2 else 1
  }

  predicate ShouldRetryRpcError(errorClass: RpcErrorClass, attempt: int, maxRetries: int,
                                retryRateLimitsIndefinitely: bool): (retry: bool)
    ensures attempt < maxRetries ==> (retry <==> errorClass.RateLimit? || errorClass.Transient?)
    ensures attempt >= maxRetries ==> (retry <==> errorClass.RateLimit? && retryRateLimitsIndefinitely)
  {
    || (errorClass.RateLimit? && retryRateLimitsIndefinitely)
    || ((errorClass.RateLimit? || errorClass.Transient?) && attempt < maxRetries)
  }

  // Merging.

  const BY_START: (BlockRange, BlockRange) -> bool := (x: BlockRange, y: BlockRange) => x.fromBlock <= y.fromBlock

  /** The merge loop's body: a range that starts no earlier than the last one either joins it or follows it. */
  method MergeOne(merged: seq<BlockRange>, range: BlockRange) returns (after: seq<BlockRange>)
    requires Detached(merged) && (merged != [] ==> merged[|merged| - 1].fromBlock <= range.fromBlock)
    ensures Detached(after) && after != [] && after[|after| - 1].fromBlock <= range.fromBlock
    ensures forall b :: CoveredIn(after, b) <==> CoveredIn(merged, b) || Contains(range, b)
  {
    if merged == [] || range.fromBlock > merged[|merged| - 1].toBlock + 1 {
      CoveredInAppend(merged, range);
      return merged + [range];
    }
    var init, previous := merged[..|merged| - 1], merged[|merged| - 1];
    assert merged == init + [previous];
    LastAbsorbs(init, previous, range);
    after := merged;
    if range.toBlock > previous.toBlock {
      after := init + [Range(previous.fromBlock, range.toBlock)];
    }
  }

  /** A range that starts inside or just after the last one covers, with it, what the longer of the two does from
      there. */
  lemma LastAbsorbs(init: seq<BlockRange>, previous: BlockRange, range: BlockRange)
    requires previous.fromBlock <= range.fromBlock <= previous.toBlock + 1 && Detached(init + [previous])
    ensures var longer :=
              Range(previous.fromBlock, if range.toBlock > previous.toBlock then range.toBlock else previous.toBlock);
            && Detached(init + [longer])
            && forall b :: CoveredIn(init + [longer], b) <==> CoveredIn(init + [previous], b) || Contains(range, b)
  {
    var longer: BlockRange :=
      Range(previous.fromBlock, if range.toBlock > previous.toBlock then range.toBlock else previous.toBlock);
    CoveredInAppend(init, longer);
    CoveredInAppend(init, previous);
    forall i, j | 0 <= i < j < |init + [longer]|
      ensures (init + [longer])[i].toBlock + 1 < (init + [longer])[j].fromBlock
    {
      assert (init + [previous])[i].toBlock + 1 < (init + [previous])[j].fromBlock;
    }
    assert forall b :: Contains(longer, b) <==> Contains(previous, b) || Contains(range, b);
  }

  method MergeCoverage(ranges: seq<BlockRange>) returns (merged: seq<BlockRange>)
    ensures Detached(merged)
    ensures forall b :: CoveredIn(merged, b) <==> CoveredIn(ranges, b)
  {
    var sorted := StableSort(ranges, BY_START);
    StableSortSorts(ranges, BY_START);
    merged := [];
    for i := 0 to |sorted|
      invariant Detached(merged) && (i == 0 <==> merged == [])
      invariant i > 0 ==> merged[|merged| - 1].fromBlock <= sorted[i - 1].fromBlock
      invariant forall b :: CoveredIn(merged, b) <==> CoveredIn(sorted[..i], b)
    {
      assert i > 0 ==> BY_START(sorted[i - 1], sorted[i]);
      assert sorted[..i + 1] == sorted[..i] + [sorted[i]];
      CoveredInAppend(sorted[..i], sorted[i]);
      merged := MergeOne(merged, sorted[i]);
    }
    assert sorted[..|sorted|] == sorted;
    CoveredInSame(sorted, ranges);
  }

  lemma CoveredInAppend(s: seq<BlockRange>, r: BlockRange)
    ensures forall b :: CoveredIn(s + [r], b) <==> CoveredIn(s, b) || Contains(r, b)
  {
    forall b ensures CoveredIn(s + [r], b) <==> CoveredIn(s, b) || Contains(r, b) {
      if CoveredIn(s, b) {
        var i :| 0 <= i < |s| && Contains(s[i], b);
        assert (s + [r])[i] == s[i];
      }
      assert (s + [r])[|s|] == r;
    }
  }

  lemma CoveredInSame(s: seq<BlockRange>, t: seq<BlockRange>)
    requires multiset(s) == multiset(t)
    ensures forall b :: CoveredIn(s, b) <==> CoveredIn(t, b)
  {
    SameElements(s, t);
    forall b ensures CoveredIn(s, b) <==> CoveredIn(t, b) {
      if CoveredIn(s, b) {
        var i :| 0 <= i < |s| && Contains(s[i], b);
        assert s[i] in t;
      }
      if CoveredIn(t, b) {
        var i :| 0 <= i < |t| && Contains(t[i], b);
        assert t[i] in s;
      }
    }
  }

  lemma CoveredInSet(s: seq<BlockRange>, rows: set<BlockRange>, b: int)
    requires forall r :: r in s <==> r in rows
    ensures CoveredIn(s, b) <==> CoveredBy(rows, b)
  {
    if CoveredIn(s, b) {
      var i :| 0 <= i < |s| && Contains(s[i], b);
      assert s[i] in rows;
    }
    if CoveredBy(rows, b) {
      var r :| r in rows && Contains(r, b);
      assert r in s;
    }
  }

  lemma CoveredFrom(s: seq<BlockRange>, i: nat, b: int)
    requires i < |s| && Contains(s[i], b)
    ensures CoveredIn(s, b)
  {
  }

  /** Two detached lists over the same blocks are the same list: detachment names the maximal runs. */
  lemma {:induction false} DetachedIsCanonical(s: seq<BlockRange>, t: seq<BlockRange>)
    requires Detached(s) && Detached(t)
    requires forall b :: CoveredIn(s, b) <==> CoveredIn(t, b)
    ensures s == t
    decreases |s|
  {
    if s == [] {
      if t != [] {
        CoveredFrom(t, 0, t[0].fromBlock);
        assert false;
      }
    } else {
      CoveredFrom(s, 0, s[0].fromBlock);
      CoveredFrom(s, 0, s[0].toBlock);
      assert t != [];
      CoveredFrom(t, 0, t[0].fromBlock);
      CoveredFrom(t, 0, t[0].toBlock);
      FirstRunAgrees(s, t);
      FirstRunAgrees(t, s);
      forall b ensures CoveredIn(s[1..], b) <==> CoveredIn(t[1..], b) {
        CoveredInTail(s, b);
        CoveredInTail(t, b);
      }
      DetachedIsCanonical(s[1..], t[1..]);
      assert s == [s[0]] + s[1..] && t == [t[0]] + t[1..];
    }
  }

  lemma FirstRunAgrees(s: seq<BlockRange>, t: seq<BlockRange>)
    requires Detached(s) && Detached(t) && s != [] && t != []
    requires forall b :: CoveredIn(s, b) ==> CoveredIn(t, b)
    ensures t[0].fromBlock <= s[0].fromBlock
    ensures t[0].fromBlock == s[0].fromBlock ==> s[0].toBlock <= t[0].toBlock
  {
    assert forall b :: b < t[0].fromBlock ==> !CoveredIn(t, b);
    CoveredFrom(s, 0, s[0].fromBlock);
    if t[0].fromBlock == s[0].fromBlock && s[0].toBlock > t[0].toBlock {
      CoveredFrom(s, 0, t[0].toBlock + 1);
      assert false;
    }
  }

  lemma CoveredInTail(s: seq<BlockRange>, b: int)
    requires Detached(s) && s != []
    ensures CoveredIn(s[1..], b) <==> CoveredIn(s, b) && b > s[0].toBlock
  {
    if CoveredIn(s[1..], b) {
      var i :| 0 <= i < |s[1..]| && Contains(s[1..][i], b);
      assert Contains(s[i + 1], b);
    }
    if CoveredIn(s, b) && b > s[0].toBlock {
      var i :| 0 <= i < |s| && Contains(s[i], b);
      assert Contains(s[1..][i - 1], b);
    }
  }

  // Gaps.

  /** `gaps` lists, in order, the maximal runs of exactly those blocks of the window that nothing covers. */
  ghost predicate AreGaps(gaps: seq<BlockRange>, ranges: seq<BlockRange>, fromBlock: int, toBlock: int) {
    && Detached(gaps)
    && forall b :: CoveredIn(gaps, b) <==> fromBlock <= b <= toBlock && !CoveredIn(ranges, b)
  }

  lemma GapsAreDetermined(gaps: seq<BlockRange>, other: seq<BlockRange>, ranges: seq<BlockRange>, fromBlock: int,
                          toBlock: int)
    requires AreGaps(gaps, ranges, fromBlock, toBlock) && AreGaps(other, ranges, fromBlock, toBlock)
    ensures gaps == other
  {
    DetachedIsCanonical(gaps, other);
  }

  /** The gap loop's state: the gaps so far are those below the cursor, and the last one ends before it. */
  ghost predicate GapsBelow(gaps: seq<BlockRange>, merged: seq<BlockRange>, fromBlock: int, toBlock: int, cursor: int) {
    && Detached(gaps)
    && (forall i :: 0 <= i < |gaps| ==> gaps[i].toBlock + 1 < cursor)
    && forall b :: CoveredIn(gaps, b) <==> fromBlock <= b <= toBlock && b < cursor && !CoveredIn(merged, b)
  }

  /** The blocks between the cursor and the next merged range. */
  lemma NothingBefore(merged: seq<BlockRange>, i: nat, cursor: int, toBlock: int, b: int)
    requires Detached(merged) && i < |merged| && cursor <= b < merged[i].fromBlock && b <= toBlock
    requires forall k :: 0 <= k < i ==> merged[k].toBlock < cursor || merged[k].fromBlock > toBlock
    ensures !CoveredIn(merged, b)
  {
    forall k | 0 <= k < |merged| ensures !Contains(merged[k], b) {
      if k > i {
        assert merged[i].toBlock < merged[k].fromBlock;
      }
    }
  }

  /** An uncovered stretch that begins at the cursor, followed by one covered block or the window's end. */
  lemma GapAppends(gaps: seq<BlockRange>, merged: seq<BlockRange>, fromBlock: int, toBlock: int, cursor: int, end: int)
    requires GapsBelow(gaps, merged, fromBlock, toBlock, cursor) && fromBlock <= cursor <= end <= toBlock
    requires forall b :: cursor <= b <= end ==> !CoveredIn(merged, b)
    requires CoveredIn(merged, end + 1) || end == toBlock
    ensures GapsBelow(gaps + [Range(cursor, end)], merged, fromBlock, toBlock, end + 2)
  {
    CoveredInAppend(gaps, Range(cursor, end));
  }

  lemma CursorMoves(gaps: seq<BlockRange>, merged: seq<BlockRange>, fromBlock: int, toBlock: int, cursor: int,
                    next: int)
    requires GapsBelow(gaps, merged, fromBlock, toBlock, cursor) && cursor <= next
    requires forall b :: cursor <= b < next ==> CoveredIn(merged, b) || b > toBlock
    ensures GapsBelow(gaps, merged, fromBlock, toBlock, next)
  {
  }

  method CoverageGaps(ranges: seq<BlockRange>, fromBlock: int, toBlock: int)
    returns (r: Result<seq<BlockRange>, PlanError>)
    ensures fromBlock > toBlock ==> r == Failure(RangeReversed)
    ensures fromBlock <= toBlock ==> r.Success? && AreGaps(r.value, ranges, fromBlock, toBlock)
  {
    if fromBlock > toBlock {
      return Failure(RangeReversed);
    }
    var gaps: seq<BlockRange> := [];
    var cursor := fromBlock;
    var merged := MergeCoverage(ranges);
    var i := 0;
    while i < |merged|
      invariant 0 <= i <= |merged| && fromBlock <= cursor && GapsBelow(gaps, merged, fromBlock, toBlock, cursor)
      invariant forall k :: 0 <= k < i ==> merged[k].toBlock < cursor || merged[k].fromBlock > toBlock
    {
      var range := merged[i];
      if range.toBlock < cursor || range.fromBlock > toBlock {
        i := i + 1;
        continue;
      }
      assert forall b :: Contains(range, b) ==> CoveredIn(merged, b);
      ghost var reached := cursor;
      if range.fromBlock > cursor {
        forall b | cursor <= b <= range.fromBlock - 1 ensures !CoveredIn(merged, b) {
          NothingBefore(merged, i, cursor, toBlock, b);
        }
        assert Contains(range, range.fromBlock);
        GapAppends(gaps, merged, fromBlock, toBlock, cursor, range.fromBlock - 1);
        gaps := gaps + [Range(cursor, range.fromBlock - 1)];
        reached := range.fromBlock + 1;
      }
      if range.toBlock + 1 > cursor {
        CursorMoves(gaps, merged, fromBlock, toBlock, reached, range.toBlock + 1);
        cursor := range.toBlock + 1;
      }
      if cursor > toBlock {
        break;
      }
      i := i + 1;
    }
    if cursor <= toBlock {
      forall b | cursor <= b <= toBlock ensures !CoveredIn(merged, b) {
      }
      GapAppends(gaps, merged, fromBlock, toBlock, cursor, toBlock);
      gaps := gaps + [Range(cursor, toBlock)];
    }
    return Success(gaps);
  }

  // Coverage verification over the rows of one scope.

  datatype CoverageReport = CoverageReport(complete: bool, rangeRows: nat, gaps: seq<BlockRange>)

  /** The rows a query for one window returns. */
  function RowsInWindow(rows: set<BlockRange>, fromBlock: int, toBlock: int): set<BlockRange> {
    set r | r in rows && r.toBlock >= fromBlock && r.fromBlock <= toBlock
  }

  /** Dropping the rows outside the window changes no block's answer inside it. */
  lemma WindowFilterKeepsCoverage(rows: set<BlockRange>, fromBlock: int, toBlock: int, b: int)
    requires fromBlock <= b <= toBlock
    ensures CoveredBy(RowsInWindow(rows, fromBlock, toBlock), b) <==> CoveredBy(rows, b)
  {
    if CoveredBy(rows, b) {
      var r :| r in rows && Contains(r, b);
      assert r in RowsInWindow(rows, fromBlock, toBlock);
    }
  }

  method ListRows(rows: set<BlockRange>) returns (s: seq<BlockRange>)
    ensures |s| == |rows| && forall r :: r in s <==> r in rows
  {
    s := [];
    var left := rows;
    while left != {}
      invariant left <= rows && |s| + |left| == |rows|
      invariant forall r :: r in s <==> r in rows - left
      decreases left
    {
      var r :| r in left;
      s := s + [r];
      left := left - {r};
    }
  }

  method VerifyCoverage(rows: set<BlockRange>, fromBlock: int, toBlock: int)
    returns (report: Result<CoverageReport, PlanError>)
    ensures report.Failure? <==> fromBlock > toBlock
    ensures report.Success? ==>
              && (report.value.complete <==> CoverageComplete(rows, fromBlock, toBlock))
              && report.value.rangeRows == |RowsInWindow(rows, fromBlock, toBlock)|
              && Detached(report.value.gaps)
              && forall b :: CoveredIn(report.value.gaps, b) <==> fromBlock <= b <= toBlock && !CoveredBy(rows, b)
  {
    var queried := RowsInWindow(rows, fromBlock, toBlock);
    var ranges := ListRows(queried);
    var found := CoverageGaps(ranges, fromBlock, toBlock);
    match found {
      case Failure(e) => return Failure(e);
      case Success(gaps) =>
        forall b ensures CoveredIn(gaps, b) <==> fromBlock <= b <= toBlock && !CoveredBy(rows, b) {
          CoveredInSet(ranges, queried, b);
          if fromBlock <= b <= toBlock {
            WindowFilterKeepsCoverage(rows, fromBlock, toBlock, b);
          }
        }
        if gaps != [] {
          CoveredFrom(gaps, 0, gaps[0].fromBlock);
        }
        return Success(CoverageReport(|gaps| == 0, |ranges|, gaps));
    }
  }

  /** Complete windows that share a boundary block compose. */
  lemma CoverageComposes(rows: set<BlockRange>, a: int, b: int, c: int)
    requires CoverageComplete(rows, a, b) && CoverageComplete(rows, b, c)
    ensures CoverageComplete(rows, a, c)
  {
    forall x | a <= x <= c ensures CoveredBy(rows, x) {
      if x <= b {
      } else {
        assert b <= x <= c;
      }
    }
  }

  lemma CoverageWidens(rows: set<BlockRange>, more: set<BlockRange>, fromBlock: int, toBlock: int)
    requires rows <= more && CoverageComplete(rows, fromBlock, toBlock)
    ensures CoverageComplete(more, fromBlock, toBlock)
  {
    forall b | fromBlock <= b <= toBlock ensures CoveredBy(more, b) {
      assert CoveredBy(rows, b);
      var r :| r in rows && Contains(r, b);
      assert r in more;
    }
  }
}
