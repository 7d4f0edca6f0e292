/** Resolving a time window to blocks by binary search over block timestamps. */
module PinnedWindows {
  import opened Wrappers
  import opened Planner
  import opened YieldReconciliation

  const SECONDS_PER_DAY: int := 24 * 60 * 60

  ghost predicate NonDecreasing(timestampAt: nat -> int) {
    forall a, b :: a <= b ==> timestampAt(a) <= timestampAt(b)
  }

  /** `block` is the least block at or after the target, or `high` when every block below `high` is earlier. */
  ghost predicate IsFirstAtOrAfter(timestampAt: nat -> int, target: int, high: nat, block: nat) {
    && block <= high
    && (forall b: nat :: b < block ==> timestampAt(b) < target)
    && (block < high ==> timestampAt(block) >= target)
  }

  method FindBlockAtOrAfterTimestamp(timestampAt: nat -> int, target: int, high: nat) returns (low: nat)
    ensures low <= high && (low < high ==> timestampAt(low) >= target)
    ensures NonDecreasing(timestampAt) ==> IsFirstAtOrAfter(timestampAt, target, high, low)
  {
    low := 0;
    var upper := high;
    while low < upper
      invariant low <= upper <= high
      invariant upper < high ==> timestampAt(upper) >= target
      invariant NonDecreasing(timestampAt) ==> forall b: nat :: b < low ==> timestampAt(b) < target
    {
      var middle := (low + upper) / 2;
      if timestampAt(middle) < target {
        low := middle + 1;
      } else {
        upper := middle;
      }
    }
  }

  /** Under a later head the search finds the same block if and only if the earlier head had already reached the
      target. */
  lemma SearchIsPinned(timestampAt: nat -> int, target: int, head: nat, later: nat, block: nat, again: nat)
    requires NonDecreasing(timestampAt) && head < later
    requires IsFirstAtOrAfter(timestampAt, target, head, block) && IsFirstAtOrAfter(timestampAt, target, later, again)
    ensures block == again <==> timestampAt(head) >= target
  {
    if timestampAt(head) >= target {
      assert timestampAt(block) >= target;
      if again < later {
        assert timestampAt(again) >= target;
      }
    } else {
      assert block == head;
    }
  }

  // Aligned windows over several chains.

  datatype ChainHead = ChainHead(timestampAt: nat -> int, finalizedBlock: nat)

  datatype AlignedRange = AlignedRange(
    fromBlock: nat, toBlock: nat, fromTimestamp: int, toTimestamp: int, windowStart: int, windowEnd: int)

  datatype WindowError = InvalidDays | NoChains | PinnedEndTooLate

  function HeadTime(c: ChainHead): int { c.timestampAt(c.finalizedBlock) }

  ghost predicate ResolvesTo(c: ChainHead, r: AlignedRange) {
    && IsFirstAtOrAfter(c.timestampAt, r.windowStart, c.finalizedBlock, r.fromBlock)
    && IsFirstAtOrAfter(c.timestampAt, r.windowEnd, c.finalizedBlock, r.toBlock)
    && r.fromTimestamp == c.timestampAt(r.fromBlock) && r.toTimestamp == c.timestampAt(r.toBlock)
  }

  method ResolveAlignedSavingsHistoryRanges(chains: seq<ChainHead>, days: int, pinnedWindowEnd: Option<int>)
    returns (r: Result<seq<AlignedRange>, WindowError>)
    ensures r == Failure(InvalidDays) <==> !(1 <= days <= 365)
    ensures r == Failure(NoChains) <==> 1 <= days <= 365 && chains == []
    ensures r == Failure(PinnedEndTooLate) <==>
              1 <= days <= 365 && chains != [] && pinnedWindowEnd.Some?
              && exists i :: 0 <= i < |chains| && HeadTime(chains[i]) < pinnedWindowEnd.value
    ensures r.Success? ==> |r.value| == |chains| && forall i :: 0 <= i < |chains| ==>
              && r.value[i].windowStart == r.value[i].windowEnd - days * 86_400
              && r.value[i].windowEnd == r.value[0].windowEnd <= HeadTime(chains[i])
              && (pinnedWindowEnd.Some? ==> r.value[i].windowEnd == pinnedWindowEnd.value)
              && (pinnedWindowEnd.None? ==>
                    exists k :: 0 <= k < |chains| && r.value[i].windowEnd == HeadTime(chains[k]))
              && (NonDecreasing(chains[i].timestampAt) ==> ResolvesTo(chains[i], r.value[i]))
  {
    if !(1 <= days <= 365) {
      return Failure(InvalidDays);
    }
    if chains == [] {
      return Failure(NoChains);
    }
    var oldest := HeadTime(chains[0]);
    for i := 0 to |chains|
      invariant forall k :: 0 <= k < i ==> oldest <= HeadTime(chains[k])
      invariant exists k :: 0 <= k < |chains| && oldest == HeadTime(chains[k])
    {
      if HeadTime(chains[i]) < oldest {
        oldest := HeadTime(chains[i]);
      }
    }
    if pinnedWindowEnd.Some? && pinnedWindowEnd.value > oldest {
      return Failure(PinnedEndTooLate);
    }
    var windowEnd := if pinnedWindowEnd.Some? then pinnedWindowEnd.value else oldest;
    var windowStart := windowEnd - days * SECONDS_PER_DAY;
    var ranges: seq<AlignedRange> := [];
    for i := 0 to |chains|
      invariant |ranges| == i
      invariant forall k :: 0 <= k < i ==>
        && ranges[k].windowStart == windowStart && ranges[k].windowEnd == windowEnd
        && (NonDecreasing(chains[k].timestampAt) ==> ResolvesTo(chains[k], ranges[k]))
    {
      var c := chains[i];
      var fromBlock := FindBlockAtOrAfterTimestamp(c.timestampAt, windowStart, c.finalizedBlock);
      var toBlock := FindBlockAtOrAfterTimestamp(c.timestampAt, windowEnd, c.finalizedBlock);
      ranges := ranges + [AlignedRange(fromBlock, toBlock, c.timestampAt(fromBlock), c.timestampAt(toBlock),
                                       windowStart, windowEnd)];
    }
    return Success(ranges);
  }

  /** Resolving one pinned window again under a later finalized head of the same chain gives the same range. */
  lemma PinnedWindowIsStable(c: ChainHead, later: ChainHead, r: AlignedRange, again: AlignedRange)
    requires NonDecreasing(c.timestampAt) && later.timestampAt == c.timestampAt
    requires c.finalizedBlock <= later.finalizedBlock
    requires ResolvesTo(c, r) && ResolvesTo(later, again)
    requires r.windowStart == again.windowStart <= r.windowEnd == again.windowEnd <= HeadTime(c)
    ensures r == again && r.fromBlock <= r.toBlock
  {
    if c.finalizedBlock < later.finalizedBlock {
      SearchIsPinned(c.timestampAt, r.windowStart, c.finalizedBlock, later.finalizedBlock, r.fromBlock,
                     again.fromBlock);
      SearchIsPinned(c.timestampAt, r.windowEnd, c.finalizedBlock, later.finalizedBlock, r.toBlock, again.toBlock);
    } else {
      FirstIsUnique(c.timestampAt, r.windowStart, c.finalizedBlock, r.fromBlock, again.fromBlock);
      FirstIsUnique(c.timestampAt, r.windowEnd, c.finalizedBlock, r.toBlock, again.toBlock);
    }
    assert r.toBlock < c.finalizedBlock ==> c.timestampAt(r.toBlock) >= r.windowEnd;
  }

  lemma FirstIsUnique(timestampAt: nat -> int, target: int, high: nat, block: nat, other: nat)
    requires IsFirstAtOrAfter(timestampAt, target, high, block) && IsFirstAtOrAfter(timestampAt, target, high, other)
    ensures block == other
  {
  }

  /** Adjacent windows, resolved at any two times, share their boundary block; when both publish a native yield, so does
      the joined window, with exactly the sum. */
  lemma AdjacentPinnedWindowsAdd(
    c: ChainHead, later: ChainHead, first: AlignedRange, second: AlignedRange,
    coverage: set<BlockRange>, nextCoverage: set<BlockRange>, wholeCoverage: set<BlockRange>,
    snapshots: map<int, BoundarySnapshot>, accruals: seq<Accrual>)
    requires coverage <= wholeCoverage && nextCoverage <= wholeCoverage
    requires NonDecreasing(c.timestampAt) && later.timestampAt == c.timestampAt
    requires c.finalizedBlock <= later.finalizedBlock
    requires ResolvesTo(c, first) && ResolvesTo(later, second)
    requires first.windowEnd == second.windowStart <= HeadTime(c)
    requires SavingsYieldForRange(coverage, snapshots, accruals, first.fromBlock, first.toBlock).Candidate?
    requires SavingsYieldForRange(nextCoverage, snapshots, accruals, second.fromBlock, second.toBlock).Candidate?
    ensures first.toBlock == second.fromBlock
    ensures var whole := SavingsYieldForRange(wholeCoverage, snapshots, accruals, first.fromBlock, second.toBlock);
            && whole.Candidate?
            && whole.nativeYpo ==
                 SavingsYieldForRange(coverage, snapshots, accruals, first.fromBlock, first.toBlock).nativeYpo
               + SavingsYieldForRange(nextCoverage, snapshots, accruals, second.fromBlock, second.toBlock).nativeYpo
  {
    if c.finalizedBlock < later.finalizedBlock {
      SearchIsPinned(c.timestampAt, first.windowEnd, c.finalizedBlock, later.finalizedBlock, first.toBlock,
                     second.fromBlock);
    }
    AdjacentWindowsAdd(coverage, nextCoverage, wholeCoverage, snapshots, accruals, first.fromBlock, first.toBlock,
                       second.toBlock);
  }
}
