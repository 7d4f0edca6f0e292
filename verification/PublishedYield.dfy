/** From stored events to a published yield: what the interest query reads, against the chain. */
module PublishedYield {
  import opened Planner
  import opened EvidenceStore
  import opened EvidenceHistory
  import opened Sums
  import opened YieldReconciliation

  /** The interest in a decoded payload. */
  type InterestReader = Decoded -> int

  predicate IsAccrual(d: Decoded) { d.contractRole == "susdp-savings" && d.eventName == "Accrued" }

  // The stored side: the query's rows and their sum.

  function AccrualKeys(t: Tables, fromBlock: int, toBlock: int): set<LogKey> {
    set k | k in t.events && fromBlock < t.events[k].blockNumber <= toBlock && IsAccrual(t.events[k].decoded)
  }

  function InterestAt(t: Tables, interest: InterestReader): LogKey -> int {
    (k: LogKey) => if k in t.events then interest(t.events[k].decoded) else 0
  }

  ghost function StoredInterest(t: Tables, interest: InterestReader, fromBlock: int, toBlock: int): int {
    SumOver(AccrualKeys(t, fromBlock, toBlock), InterestAt(t, interest))
  }

  // The chain's side.

  predicate DecodesToAccrual(world: World, l: Log) { world.decode(l).Some? && IsAccrual(world.decode(l).value) }

  function ChainAccruals(world: World, fromBlock: int, toBlock: int): set<Log> {
    set n: nat, l | n <= toBlock && fromBlock < n && l in world.logsAt(n) && DecodesToAccrual(world, l) :: l
  }

  function InterestIn(world: World, interest: InterestReader): Log -> int {
    (l: Log) => if world.decode(l).Some? then interest(world.decode(l).value) else 0
  }

  ghost function ChainInterest(world: World, interest: InterestReader, fromBlock: int, toBlock: int): int {
    SumOver(ChainAccruals(world, fromBlock, toBlock), InterestIn(world, interest))
  }

  /** The decoder names savings accruals only for addresses that the scope scans. */
  ghost predicate ScansAccruals(world: World, scope: Scope) {
    forall l :: DecodesToAccrual(world, l) ==> l.address in world.addressesOf(scope)
  }

  const KEY_OF: Log -> LogKey := (l: Log) => KeyOf(l)

  /** The chain's log behind a stored event. */
  lemma EventIsGenuine(world: World, t: Tables, k: LogKey)
    requires Evidence(world, t) && k in t.events
    ensures k in t.rawLogs
    ensures var l := t.rawLogs[k];
            && KeyOf(l) == k && l in world.logsAt(l.blockNumber) && Describes(world, t.events[k], l)
  {
    assert HasItsEvent(world, t.events, k, t.rawLogs[k]);
  }

  lemma StoredAccrualIsOnChain(world: World, t: Tables, fromBlock: int, toBlock: int, k: LogKey)
    requires Evidence(world, t) && k in AccrualKeys(t, fromBlock, toBlock)
    ensures k in t.rawLogs && t.rawLogs[k] in ChainAccruals(world, fromBlock, toBlock) && KEY_OF(t.rawLogs[k]) == k
  {
    EventIsGenuine(world, t, k);
    var l := t.rawLogs[k];
    assert t.events[k].blockNumber == l.blockNumber;
    InChainAccruals(world, fromBlock, toBlock, l);
  }

  lemma InChainAccruals(world: World, fromBlock: int, toBlock: int, l: Log)
    requires l in world.logsAt(l.blockNumber) && DecodesToAccrual(world, l) && fromBlock < l.blockNumber <= toBlock
    ensures l in ChainAccruals(world, fromBlock, toBlock)
  {
  }

  lemma ChainAccrualIsStored(world: World, t: Tables, scope: Scope, fromBlock: int, toBlock: int,
                             interest: InterestReader, l: Log)
    requires ValidWorld(world) && Evidence(world, t) && ScansAccruals(world, scope)
    requires CoverageComplete(CoverageOf(t, scope), fromBlock, toBlock) && l in ChainAccruals(world, fromBlock, toBlock)
    ensures KEY_OF(l) in AccrualKeys(t, fromBlock, toBlock)
    ensures InterestIn(world, interest)(l) == InterestAt(t, interest)(KEY_OF(l))
    ensures t.rawLogs[KEY_OF(l)] == l
  {
    assert OnChain(world, scope, Range(fromBlock, toBlock), l);
    CoveredLogIsStored(world, t, scope, Range(fromBlock, toBlock), l);
    assert HasItsEvent(world, t.events, KeyOf(l), l);
  }

  /** With no gap, the interest query sums exactly the chain's accruals in the half-open window. */
  lemma StoredInterestIsTheChains(world: World, t: Tables, scope: Scope, interest: InterestReader, fromBlock: int,
                                  toBlock: int)
    requires ValidWorld(world) && Evidence(world, t) && ScansAccruals(world, scope)
    requires CoverageComplete(CoverageOf(t, scope), fromBlock, toBlock)
    ensures StoredInterest(t, interest, fromBlock, toBlock) == ChainInterest(world, interest, fromBlock, toBlock)
  {
    forall l | l in ChainAccruals(world, fromBlock, toBlock)
      ensures Matches(world, t, interest, fromBlock, toBlock, l)
    {
      ChainAccrualIsStored(world, t, scope, fromBlock, toBlock, interest, l);
    }
    forall k | k in AccrualKeys(t, fromBlock, toBlock) ensures Behind(world, t, fromBlock, toBlock, k) {
      StoredAccrualIsOnChain(world, t, fromBlock, toBlock, k);
    }
    MatchingInterest(world, t, interest, fromBlock, toBlock);
  }

  ghost predicate Matches(world: World, t: Tables, interest: InterestReader, fromBlock: int, toBlock: int, l: Log) {
    && KEY_OF(l) in AccrualKeys(t, fromBlock, toBlock) && KEY_OF(l) in t.rawLogs && t.rawLogs[KEY_OF(l)] == l
    && InterestIn(world, interest)(l) == InterestAt(t, interest)(KEY_OF(l))
  }

  ghost predicate Behind(world: World, t: Tables, fromBlock: int, toBlock: int, k: LogKey) {
    k in t.rawLogs && t.rawLogs[k] in ChainAccruals(world, fromBlock, toBlock) && KEY_OF(t.rawLogs[k]) == k
  }

  lemma MatchingInterest(world: World, t: Tables, interest: InterestReader, fromBlock: int, toBlock: int)
    requires forall l :: l in ChainAccruals(world, fromBlock, toBlock) ==>
               Matches(world, t, interest, fromBlock, toBlock, l)
    requires forall k :: k in AccrualKeys(t, fromBlock, toBlock) ==> Behind(world, t, fromBlock, toBlock, k)
    ensures StoredInterest(t, interest, fromBlock, toBlock) == ChainInterest(world, interest, fromBlock, toBlock)
  {
    var logs, keys := ChainAccruals(world, fromBlock, toBlock), AccrualKeys(t, fromBlock, toBlock);
    forall k | k in keys ensures exists l :: l in logs && KEY_OF(l) == k {
      assert Behind(world, t, fromBlock, toBlock, k);
    }
    forall l, m | l in logs && m in logs && KEY_OF(l) == KEY_OF(m) ensures l == m {
      assert Matches(world, t, interest, fromBlock, toBlock, l) && Matches(world, t, interest, fromBlock, toBlock, m);
    }
    SumOverRenamed(logs, keys, KEY_OF, InterestIn(world, interest), InterestAt(t, interest));
  }

  lemma ReachedInterestIsTheChains(world: World, steps: seq<Step>, scope: Scope, interest: InterestReader,
                                   fromBlock: int, toBlock: int)
    requires ValidWorld(world) && Legal(world, EMPTY_TABLES, steps) && ScansAccruals(world, scope)
    requires CoverageComplete(CoverageOf(After(world, EMPTY_TABLES, steps), scope), fromBlock, toBlock)
    ensures StoredInterest(After(world, EMPTY_TABLES, steps), interest, fromBlock, toBlock)
         == ChainInterest(world, interest, fromBlock, toBlock)
  {
    EvidenceAlwaysHolds(world, steps);
    StoredInterestIsTheChains(world, After(world, EMPTY_TABLES, steps), scope, interest, fromBlock, toBlock);
  }

  /** What the code publishes for a window from the tables a history left. */
  ghost function Published(world: World, steps: seq<Step>, scope: Scope, snapshots: map<int, BoundarySnapshot>,
                           interest: InterestReader, fromBlock: int, toBlock: int): RangeYield
  {
    var t := After(world, EMPTY_TABLES, steps);
    YieldWith(CoverageOf(t, scope), snapshots, StoredInterest(t, interest, fromBlock, toBlock), fromBlock, toBlock)
  }

  /** End to end: at every state of every history, a published native yield is the chain's own interest over the
      window plus the change in pending yield between the boundary snapshots. */
  lemma PublishedYieldIsTheChains(world: World, steps: seq<Step>, scope: Scope, snapshots: map<int, BoundarySnapshot>,
                                  interest: InterestReader, fromBlock: int, toBlock: int)
    requires ValidWorld(world) && Legal(world, EMPTY_TABLES, steps) && ScansAccruals(world, scope)
    requires Published(world, steps, scope, snapshots, interest, fromBlock, toBlock).Candidate?
    ensures fromBlock < toBlock && fromBlock in snapshots && toBlock in snapshots
    ensures 0 <= Published(world, steps, scope, snapshots, interest, fromBlock, toBlock).nativeYpo
              == ChainInterest(world, interest, fromBlock, toBlock)
                 + snapshots[toBlock].pendingYield - snapshots[fromBlock].pendingYield
  {
    ReachedInterestIsTheChains(world, steps, scope, interest, fromBlock, toBlock);
  }

  /** The chain's accruals in a half-open window: the block it starts after is left out, the block it ends with
      counts. */
  lemma ChainAccrualsAre(world: World, fromBlock: int, toBlock: int, l: Log)
    requires ValidWorld(world)
    ensures l in ChainAccruals(world, fromBlock, toBlock) <==>
            && l in world.logsAt(l.blockNumber) && fromBlock < l.blockNumber <= toBlock
            && world.decode(l).Some? && world.decode(l).value.contractRole == "susdp-savings"
            && world.decode(l).value.eventName == "Accrued"
  {
    if l in world.logsAt(l.blockNumber) && DecodesToAccrual(world, l) && fromBlock < l.blockNumber <= toBlock {
      InChainAccruals(world, fromBlock, toBlock, l);
    }
  }

  /** What is published, in full: the first reason against the window in this order, or else the chain's interest and
      the gain it makes with the change in pending yield. */
  lemma PublishedExactlyWhen(world: World, steps: seq<Step>, scope: Scope, snapshots: map<int, BoundarySnapshot>,
                             interest: InterestReader, fromBlock: int, toBlock: int)
    requires ValidWorld(world) && Legal(world, EMPTY_TABLES, steps) && ScansAccruals(world, scope)
    ensures var r := Published(world, steps, scope, snapshots, interest, fromBlock, toBlock);
            var rows := CoverageOf(After(world, EMPTY_TABLES, steps), scope);
            var earned := ChainInterest(world, interest, fromBlock, toBlock);
            if toBlock <= fromBlock then r == EndNotAfterStart
            else if HasBareBlock(rows, fromBlock, toBlock) then r == CoverageIncomplete
            else if fromBlock !in snapshots || toBlock !in snapshots then r == SnapshotMissing
            else if snapshots[fromBlock].invalid || snapshots[toBlock].invalid then r == SnapshotInvalid
            else
              var gain := earned + snapshots[toBlock].pendingYield - snapshots[fromBlock].pendingYield;
              r == if gain < 0 then NegativeYield else Candidate(earned, gain)
  {
    var rows := CoverageOf(After(world, EMPTY_TABLES, steps), scope);
    BareBlocksAreGaps(rows, fromBlock, toBlock);
    if CoverageComplete(rows, fromBlock, toBlock) {
      ReachedInterestIsTheChains(world, steps, scope, interest, fromBlock, toBlock);
    }
  }

  /** Two histories publish a window alike, unless one of them still has a gap in it. */
  lemma HistoriesPublishAlike(world: World, one: seq<Step>, other: seq<Step>, scope: Scope,
                              snapshots: map<int, BoundarySnapshot>,
                              interest: InterestReader, fromBlock: int, toBlock: int)
    requires ValidWorld(world) && ScansAccruals(world, scope)
    requires Legal(world, EMPTY_TABLES, one) && Legal(world, EMPTY_TABLES, other)
    ensures var x := Published(world, one, scope, snapshots, interest, fromBlock, toBlock);
            var y := Published(world, other, scope, snapshots, interest, fromBlock, toBlock);
            x == y || x == CoverageIncomplete || y == CoverageIncomplete
  {
    var x := Published(world, one, scope, snapshots, interest, fromBlock, toBlock);
    var y := Published(world, other, scope, snapshots, interest, fromBlock, toBlock);
    if toBlock > fromBlock && x != CoverageIncomplete && y != CoverageIncomplete {
      ReachedInterestIsTheChains(world, one, scope, interest, fromBlock, toBlock);
      ReachedInterestIsTheChains(world, other, scope, interest, fromBlock, toBlock);
    }
  }
}
