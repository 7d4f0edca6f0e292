/** Adding up per-chain supply snapshots that are fresh, verified and close enough in time. */
module SupplyAlignment {
  import opened Sequences
  import opened Sorting
  import opened Sums

  /** One chain's snapshot; times are milliseconds. */
  datatype Component = Component(chainId: int, timestamp: int, totalSupply: int, metadataVerified: bool)

  datatype Coverage = Complete | Partial | Unavailable

  /** The times of the included components, with the oldest one's age and the skew in whole seconds. */
  datatype Span = NoSpan | Between(oldest: int, newest: int, maximumComponentAgeSeconds: int, componentSkewSeconds: int)

  datatype Aggregate = Aggregate(
    coverageStatus: Coverage, included: seq<Component>, includedChainIds: seq<int>, missingChainIds: seq<int>,
    staleChainIds: seq<int>, failedChainIds: seq<int>, candidateTotalSupply: int, span: Span)

  // Lists of identifiers.

  const ASCENDING: (int, int) -> bool := (x: int, y: int) => x <= y

  function Elements(s: seq<int>): set<int> { set x | x in s }

  /** First occurrences only. */
  function Unique(s: seq<int>): seq<int> {
    if s == [] then [] else
      var before, x := Unique(s[..|s| - 1]), s[|s| - 1];
      if x in before then before else before + [x]
  }

  function Listed(s: seq<int>): seq<int> { StableSort(s, ASCENDING) }

  // The aggregation.  `stale` says which components are too old or too far from the observation time.

  function WholeSeconds(milliseconds: int): int { milliseconds / 1_000 }

  function AgeOf(timestamp: int, asOf: int): int {
    var age := WholeSeconds(asOf - timestamp);
    if age > 0 then age else 0
  }

  function OffsetOf(timestamp: int, asOf: int): int {
    WholeSeconds(if asOf >= timestamp then asOf - timestamp else timestamp - asOf)
  }

  function StaleAgainst(asOf: int, maximumAgeSeconds: int, alignmentMaximumSkewSeconds: int): Component -> bool {
    (c: Component) =>
      AgeOf(c.timestamp, asOf) > maximumAgeSeconds || OffsetOf(c.timestamp, asOf) > alignmentMaximumSkewSeconds
  }

  function IdOf(): Component -> seq<int> { (c: Component) => [c.chainId] }

  function StaleId(stale: Component -> bool): Component -> seq<int> {
    (c: Component) => if stale(c) then [c.chainId] else []
  }

  function UnverifiedId(): Component -> seq<int> { (c: Component) => if c.metadataVerified then [] else [c.chainId] }

  function Kept(stale: set<int>): Component -> seq<Component> {
    (c: Component) => if c.metadataVerified && c.chainId !in stale then [c] else []
  }

  function Unobserved(observed: set<int>): int -> seq<int> { (id: int) => if id in observed then [] else [id] }

  function Ids(s: seq<Component>): seq<int> { FlatMap(s, IdOf()) }

  function StaleIds(s: seq<Component>, stale: Component -> bool): seq<int> { FlatMap(s, StaleId(stale)) }

  function FailedIds(s: seq<Component>, failed: seq<int>): seq<int> { failed + FlatMap(s, UnverifiedId()) }

  function Included(s: seq<Component>, stale: Component -> bool): seq<Component> {
    FlatMap(s, Kept(Elements(StaleIds(s, stale))))
  }

  function MissingIds(s: seq<Component>, expected: seq<int>, failed: seq<int>): seq<int> {
    FlatMap(expected, Unobserved(Elements(Ids(s)) + Elements(FailedIds(s, failed))))
  }

  function SupplyOf(c: Component): int { c.totalSupply }

  function Oldest(s: seq<Component>): int
    requires s != []
  {
    var last := s[|s| - 1].timestamp;
    if |s| == 1 || last < Oldest(s[..|s| - 1]) then last else Oldest(s[..|s| - 1])
  }

  function Newest(s: seq<Component>): int
    requires s != []
  {
    var last := s[|s| - 1].timestamp;
    if |s| == 1 || last > Newest(s[..|s| - 1]) then last else Newest(s[..|s| - 1])
  }

  function CoverageStatus(included: nat, expected: nat): Coverage {
    if included == expected then Complete else if included > 0 then Partial else Unavailable
  }

  function SpanOf(included: seq<Component>, asOf: int): Span {
    if included == [] then NoSpan else
      var oldest, newest := Oldest(included), Newest(included);
      Between(oldest, newest, AgeOf(oldest, asOf), WholeSeconds(newest - oldest))
  }

  function AggregateUsdpSupplyComponents(
    components: seq<Component>, expected: seq<int>, failed: seq<int>, asOf: int, maximumAgeSeconds: int,
    alignmentMaximumSkewSeconds: int): Aggregate
  {
    Aligned(components, expected, failed, asOf, StaleAgainst(asOf, maximumAgeSeconds, alignmentMaximumSkewSeconds))
  }

  function Aligned(components: seq<Component>, expected: seq<int>, failed: seq<int>, asOf: int,
                   stale: Component -> bool): Aggregate
  {
    var included := Included(components, stale);
    Aggregate(CoverageStatus(|included|, |expected|), included, Listed(Ids(included)),
              Listed(MissingIds(components, expected, failed)), Listed(Unique(StaleIds(components, stale))),
              Listed(Unique(FailedIds(components, failed))), Sum(included, SupplyOf), SpanOf(included, asOf))
  }

  // Membership.

  lemma {:induction false} UniqueElements(s: seq<int>)
    ensures forall x :: x in Unique(s) <==> x in s
  {
    if s != [] {
      UniqueElements(s[..|s| - 1]);
      assert s == s[..|s| - 1] + [s[|s| - 1]];
    }
  }

  lemma ListedElements(s: seq<int>)
    ensures Elements(Listed(s)) == Elements(s) && (Listed(s) == [] <==> s == [])
  {
    SameElements(Listed(s), s);
  }

  lemma {:induction false} FlatMapMembers<T>(s: seq<T>, f: T -> seq<int>, x: int)
    ensures x in FlatMap(s, f) <==> exists e :: e in s && x in f(e)
  {
    if s != [] {
      FlatMapMembers(s[..|s| - 1], f, x);
      assert s == s[..|s| - 1] + [s[|s| - 1]];
      assert forall e :: e in s <==> e in s[..|s| - 1] || e == s[|s| - 1];
    }
  }

  lemma {:induction false} IncludedMembers(s: seq<Component>, stale: set<int>)
    ensures forall c :: c in FlatMap(s, Kept(stale)) <==> c in s && c.metadataVerified && c.chainId !in stale
  {
    if s != [] {
      IncludedMembers(s[..|s| - 1], stale);
      assert s == s[..|s| - 1] + [s[|s| - 1]];
    }
  }

  /** Components carry distinct chain identifiers. */
  ghost predicate DistinctChains(s: seq<Component>) {
    forall i, j :: 0 <= i < j < |s| ==> s[i].chainId != s[j].chainId
  }

  ghost predicate DistinctIds(s: seq<int>) { forall i, j :: 0 <= i < j < |s| ==> s[i] != s[j] }

  lemma ComponentOf(s: seq<Component>, c: Component, d: Component)
    requires DistinctChains(s) && c in s && d in s && c.chainId == d.chainId
    ensures c == d
  {
  }

  lemma IdMembers(s: seq<Component>, id: int)
    ensures id in Ids(s) <==> exists c :: c in s && c.chainId == id
  {
    FlatMapMembers(s, IdOf(), id);
    if id in Ids(s) {
      var c :| c in s && id in IdOf()(c);
      assert c.chainId == id;
    }
    if c :| c in s && c.chainId == id {
      assert id in IdOf()(c);
    }
  }

  lemma StaleMembers(s: seq<Component>, stale: Component -> bool, c: Component)
    requires DistinctChains(s) && c in s
    ensures c.chainId in StaleIds(s, stale) <==> stale(c)
  {
    FlatMapMembers(s, StaleId(stale), c.chainId);
    if stale(c) {
      assert c.chainId in StaleId(stale)(c);
    } else if d :| d in s && c.chainId in StaleId(stale)(d) {
      ComponentOf(s, c, d);
    }
  }

  lemma UnverifiedMembers(s: seq<Component>, c: Component)
    requires DistinctChains(s) && c in s
    ensures c.chainId in FlatMap(s, UnverifiedId()) <==> !c.metadataVerified
  {
    FlatMapMembers(s, UnverifiedId(), c.chainId);
    if !c.metadataVerified {
      assert c.chainId in UnverifiedId()(c);
    } else if d :| d in s && c.chainId in UnverifiedId()(d) {
      ComponentOf(s, c, d);
    }
  }

  lemma StaleOrUnverifiedIsPresent(s: seq<Component>, stale: Component -> bool, id: int)
    requires id in StaleIds(s, stale) || id in FlatMap(s, UnverifiedId())
    ensures id in Ids(s)
  {
    IdMembers(s, id);
    FlatMapMembers(s, StaleId(stale), id);
    FlatMapMembers(s, UnverifiedId(), id);
    if id in StaleIds(s, stale) {
      var c :| c in s && id in StaleId(stale)(c);
      assert c.chainId == id;
    } else {
      var c :| c in s && id in UnverifiedId()(c);
      assert c.chainId == id;
    }
  }

  lemma IncludedIdMembers(s: seq<Component>, stale: Component -> bool, c: Component)
    requires DistinctChains(s) && c in s
    ensures c.chainId in Ids(Included(s, stale)) <==> c.metadataVerified && !stale(c)
  {
    IncludedMembers(s, Elements(StaleIds(s, stale)));
    StaleMembers(s, stale, c);
    IdMembers(Included(s, stale), c.chainId);
    if d :| d in Included(s, stale) && d.chainId == c.chainId {
      ComponentOf(s, c, d);
    }
  }

  lemma IncludedIsPresent(s: seq<Component>, stale: Component -> bool, id: int)
    requires id in Ids(Included(s, stale))
    ensures id in Ids(s)
  {
    IdMembers(Included(s, stale), id);
    IncludedMembers(s, Elements(StaleIds(s, stale)));
    IdMembers(s, id);
  }

  lemma MissingMembers(s: seq<Component>, expected: seq<int>, failed: seq<int>, id: int)
    ensures id in MissingIds(s, expected, failed) <==> id in expected && id !in Ids(s) && id !in FailedIds(s, failed)
  {
    var observed := Elements(Ids(s)) + Elements(FailedIds(s, failed));
    FlatMapMembers(expected, Unobserved(observed), id);
    if id in expected && id !in observed {
      assert id in Unobserved(observed)(id);
    }
    if id in MissingIds(s, expected, failed) {
      var e :| e in expected && id in Unobserved(observed)(e);
      assert e == id;
    }
  }

  // What the lists mean.

  /** One component for each of some expected chains, none of which also failed; only expected chains fail. */
  ghost predicate WellPosed(s: seq<Component>, expected: seq<int>, failed: seq<int>) {
    && DistinctChains(s) && DistinctIds(expected)
    && (forall id :: id in Ids(s) ==> id in expected && id !in failed)
    && (forall id :: id in failed ==> id in expected)
  }

  function Excluded(a: Aggregate): set<int> { Elements(a.staleChainIds) + Elements(a.failedChainIds) }

  lemma UniqueListed(s: seq<int>)
    ensures Elements(Listed(Unique(s))) == Elements(s)
  {
    var kept := Unique(s);
    UniqueElements(s);
    forall x ensures x in Elements(kept) <==> x in Elements(s) {
      assert x in Elements(kept) <==> x in kept;
    }
    ListedElements(kept);
  }

  lemma ListsOf(s: seq<Component>, expected: seq<int>, failed: seq<int>, asOf: int, stale: Component -> bool)
    ensures var a := Aligned(s, expected, failed, asOf, stale);
            && Elements(a.includedChainIds) == Elements(Ids(Included(s, stale)))
            && Elements(a.missingChainIds) == Elements(MissingIds(s, expected, failed))
            && Elements(a.staleChainIds) == Elements(StaleIds(s, stale))
            && Elements(a.failedChainIds) == Elements(FailedIds(s, failed))
  {
    ListedElements(Ids(Included(s, stale)));
    ListedElements(MissingIds(s, expected, failed));
    UniqueListed(StaleIds(s, stale));
    UniqueListed(FailedIds(s, failed));
  }

  /** An expected chain is on exactly one list; any other chain is on none. */
  lemma WhereAChainGoes(s: seq<Component>, expected: seq<int>, failed: seq<int>, stale: Component -> bool, id: int)
    requires WellPosed(s, expected, failed)
    ensures var included, missing := id in Ids(Included(s, stale)), id in MissingIds(s, expected, failed);
            var excluded := id in StaleIds(s, stale) || id in FailedIds(s, failed);
            && (id in expected <==> included || missing || excluded)
            && !(included && missing) && !(included && excluded) && !(missing && excluded)
  {
    IdMembers(s, id);
    MissingMembers(s, expected, failed, id);
    if c :| c in s && c.chainId == id {
      StaleMembers(s, stale, c);
      UnverifiedMembers(s, c);
      IncludedIdMembers(s, stale, c);
    } else {
      assert id !in StaleIds(s, stale) && id !in FlatMap(s, UnverifiedId()) by {
        if id in StaleIds(s, stale) || id in FlatMap(s, UnverifiedId()) {
          StaleOrUnverifiedIsPresent(s, stale, id);
        }
      }
      assert id !in Ids(Included(s, stale)) by {
        if id in Ids(Included(s, stale)) {
          IncludedIsPresent(s, stale, id);
        }
      }
    }
  }

  ghost predicate Partitions(whole: set<int>, included: set<int>, missing: set<int>, excluded: set<int>) {
    whole == included + missing + excluded && included !! missing !! excluded
  }

  lemma IdsArePartitioned(s: seq<Component>, expected: seq<int>, failed: seq<int>, stale: Component -> bool)
    requires WellPosed(s, expected, failed)
    ensures Partitions(Elements(expected), Elements(Ids(Included(s, stale))), Elements(MissingIds(s, expected, failed)),
                       Elements(StaleIds(s, stale)) + Elements(FailedIds(s, failed)))
  {
    var whole, included, missing :=
      Elements(expected), Elements(Ids(Included(s, stale))), Elements(MissingIds(s, expected, failed));
    var excluded := Elements(StaleIds(s, stale)) + Elements(FailedIds(s, failed));
    forall id
      ensures id in whole <==> id in included + missing + excluded
      ensures !(id in included && id in missing) && !(id in included + missing && id in excluded)
    {
      WhereAChainGoes(s, expected, failed, stale, id);
    }
  }

  /** The expected chains are exactly the included, the missing, and the stale or failed ones, without overlap. */
  lemma ExpectedIsPartitioned(s: seq<Component>, expected: seq<int>, failed: seq<int>, asOf: int,
                              stale: Component -> bool)
    requires WellPosed(s, expected, failed)
    ensures var a := Aligned(s, expected, failed, asOf, stale);
            Partitions(Elements(expected), Elements(a.includedChainIds), Elements(a.missingChainIds), Excluded(a))
  {
    ListsOf(s, expected, failed, asOf, stale);
    IdsArePartitioned(s, expected, failed, stale);
  }

  // When the aggregate is complete.

  lemma {:induction false} DistinctIdsCount(s: seq<int>)
    requires DistinctIds(s)
    ensures |Elements(s)| == |s|
  {
    if s != [] {
      var init, x := s[..|s| - 1], s[|s| - 1];
      DistinctIdsCount(init);
      assert s == init + [x] && x !in init;
      assert Elements(s) == Elements(init) + {x};
    }
  }

  lemma {:induction false} DistinctChainsCount(s: seq<Component>)
    requires DistinctChains(s)
    ensures |Elements(Ids(s))| == |s|
  {
    if s != [] {
      var init, c := s[..|s| - 1], s[|s| - 1];
      DistinctChainsCount(init);
      assert s == init + [c];
      FlatMapSnoc(init, c, IdOf());
      IdMembers(init, c.chainId);
      assert c.chainId !in Ids(init);
      assert Elements(Ids(s)) == Elements(Ids(init)) + {c.chainId};
    }
  }

  lemma {:induction false} KeptStaysDistinct(s: seq<Component>, stale: set<int>)
    requires DistinctChains(s)
    ensures DistinctChains(FlatMap(s, Kept(stale)))
  {
    if s != [] {
      var init, c := s[..|s| - 1], s[|s| - 1];
      KeptStaysDistinct(init, stale);
      IncludedMembers(init, stale);
      assert s == init + [c];
      assert forall d :: d in init ==> d.chainId != c.chainId;
      FlatMapSnoc(init, c, Kept(stale));
    }
  }

  lemma SplitCount(s: set<int>, t: set<int>)
    ensures |s| == |t| <==> |s - t| == |t - s|
  {
    assert s == (s - t) + (s * t) && t == (t - s) + (s * t);
  }

  /** For distinct chains, "complete" means as many included chains from outside the expected list as expected chains
      left out. */
  lemma CompleteIsACount(s: seq<Component>, expected: seq<int>, failed: seq<int>, asOf: int, stale: Component -> bool)
    requires DistinctChains(s) && DistinctIds(expected)
    ensures var a := Aligned(s, expected, failed, asOf, stale);
            a.coverageStatus == Complete <==>
            |Elements(a.includedChainIds) - Elements(expected)| == |Elements(expected) - Elements(a.includedChainIds)|
  {
    ListedElements(Ids(Included(s, stale)));
    KeptStaysDistinct(s, Elements(StaleIds(s, stale)));
    DistinctChainsCount(Included(s, stale));
    DistinctIdsCount(expected);
    SplitCount(Elements(Ids(Included(s, stale))), Elements(expected));
  }

  lemma EmptyElements(s: seq<int>)
    ensures Elements(s) == {} <==> s == []
  {
    if s != [] {
      assert s[0] in Elements(s);
    }
  }

  lemma NothingLeftOut(whole: set<int>, included: set<int>, missing: set<int>, stale: set<int>, failed: set<int>)
    requires Partitions(whole, included, missing, stale + failed)
    ensures |included - whole| == |whole - included| <==> missing == {} && stale == {} && failed == {}
  {
    assert included - whole == {};
    assert whole - included == missing + (stale + failed);
  }

  /** On well-posed requests "complete" means that nothing is missing, stale or failed. */
  lemma CompleteMeansNothingExcluded(s: seq<Component>, expected: seq<int>, failed: seq<int>, asOf: int,
                                     stale: Component -> bool)
    requires WellPosed(s, expected, failed)
    ensures var a := Aligned(s, expected, failed, asOf, stale);
            a.coverageStatus == Complete <==> a.missingChainIds == [] && a.staleChainIds == [] && a.failedChainIds == []
  {
    var a := Aligned(s, expected, failed, asOf, stale);
    ExpectedIsPartitioned(s, expected, failed, asOf, stale);
    CompleteIsACount(s, expected, failed, asOf, stale);
    NothingLeftOut(Elements(expected), Elements(a.includedChainIds), Elements(a.missingChainIds),
                   Elements(a.staleChainIds), Elements(a.failedChainIds));
    EmptyElements(a.missingChainIds);
    EmptyElements(a.staleChainIds);
    EmptyElements(a.failedChainIds);
  }

  lemma LoneComponentIsIncluded(c: Component, stale: Component -> bool)
    requires c.metadataVerified && !stale(c)
    ensures Included([c], stale) == [c]
  {
    var stales := Elements(StaleIds([c], stale));
    StaleMembers([c], stale, c);
    assert [c] == [] + [c];
    FlatMapSnoc([], c, Kept(stales));
  }

  lemma AbsentChainIsMissing(s: seq<Component>, expected: seq<int>, id: int)
    requires id in expected && id !in Ids(s)
    ensures id in MissingIds(s, expected, [])
  {
    MissingMembers(s, expected, [], id);
    if id in FailedIds(s, []) {
      StaleOrUnverifiedIsPresent(s, c => false, id);
    }
  }

  /** A fresh component from a chain nobody expects can stand in for a missing one. */
  lemma UnexpectedChainHidesMissing(c: Component, asOf: int, stale: Component -> bool)
    requires c.metadataVerified && !stale(c)
    ensures var a := Aligned([c], [c.chainId + 1], [], asOf, stale);
            a.coverageStatus == Complete && c.chainId + 1 in a.missingChainIds
  {
    var s, expected := [c], [c.chainId + 1];
    LoneComponentIsIncluded(c, stale);
    IdMembers(s, c.chainId + 1);
    AbsentChainIsMissing(s, expected, c.chainId + 1);
    SameElements(Listed(MissingIds(s, expected, [])), MissingIds(s, expected, []));
  }

  // When "complete" can be trusted.

  /** "Complete" means that nothing is missing, stale or failed, for this outcome of the freshness checks. */
  ghost predicate CompleteIsHonest(s: seq<Component>, expected: seq<int>, failed: seq<int>, asOf: int,
                                   stale: Component -> bool)
  {
    var a := Aligned(s, expected, failed, asOf, stale);
    a.coverageStatus == Complete <==> a.missingChainIds == [] && a.staleChainIds == [] && a.failedChainIds == []
  }

  function VerifiedOnly(s: seq<Component>): seq<Component> { FlatMap(s, Kept({})) }

  predicate AllVerified(s: seq<Component>) { forall c :: c in s ==> c.metadataVerified }

  predicate AllExpected(s: seq<Component>, expected: seq<int>) { forall c :: c in s ==> c.chainId in expected }

  /** What a caller can check beforehand: too few verified components to reach the expected number at all, or nothing
      failed, everything verified and every component expected. */
  predicate Trustworthy(s: seq<Component>, expected: seq<int>, failed: seq<int>) {
    || |VerifiedOnly(s)| < |expected|
    || (failed == [] && AllVerified(s) && AllExpected(s, expected))
  }

  lemma {:induction false} FewerAreKept(s: seq<Component>, stale: set<int>)
    ensures |FlatMap(s, Kept(stale))| <= |VerifiedOnly(s)|
  {
    if s != [] {
      FewerAreKept(s[..|s| - 1], stale);
    }
  }

  lemma OneMoreKept(init: seq<Component>, c: Component, stale: set<int>)
    ensures |FlatMap(init + [c], Kept(stale))|
              == |FlatMap(init, Kept(stale))| + if c.metadataVerified && c.chainId !in stale then 1 else 0
  {
    FlatMapSnoc(init, c, Kept(stale));
  }

  predicate VerifiedIn(s: seq<Component>, id: int) { exists c :: c in s && c.metadataVerified && c.chainId == id }

  /** A freshness outcome under which exactly `n` of the verified components are left. */
  lemma {:induction false} SomeAreStale(s: seq<Component>, n: nat) returns (stale: set<int>)
    requires DistinctChains(s) && n <= |VerifiedOnly(s)|
    ensures |FlatMap(s, Kept(stale))| == n && (stale != {} <==> n < |VerifiedOnly(s)|)
    ensures forall id :: id in stale ==> VerifiedIn(s, id)
  {
    stale := {};
    if s != [] {
      var init, c := s[..|s| - 1], s[|s| - 1];
      assert s == init + [c];
      OneMoreKept(init, c, {});
      if !c.metadataVerified {
        stale := SomeAreStale(init, n);
      } else if n <= |VerifiedOnly(init)| {
        var earlier := SomeAreStale(init, n);
        stale := earlier + {c.chainId};
        LaterChainIrrelevant(init, earlier, c.chainId);
      } else {
        stale := SomeAreStale(init, n - 1);
      }
      OneMoreKept(init, c, stale);
    }
  }

  lemma {:induction false} LaterChainIrrelevant(s: seq<Component>, stale: set<int>, id: int)
    requires forall c :: c in s ==> c.chainId != id
    ensures FlatMap(s, Kept(stale + {id})) == FlatMap(s, Kept(stale))
  {
    if s != [] {
      var init, c := s[..|s| - 1], s[|s| - 1];
      assert s == init + [c];
      LaterChainIrrelevant(init, stale, id);
    }
  }

  function StaleChains(ids: set<int>): Component -> bool { (c: Component) => c.chainId in ids }

  lemma StaleChainsAreListed(s: seq<Component>, ids: set<int>)
    requires forall id :: id in ids ==> exists c :: c in s && c.chainId == id
    ensures Elements(StaleIds(s, StaleChains(ids))) == ids
  {
    forall id ensures id in Elements(StaleIds(s, StaleChains(ids))) <==> id in ids {
      FlatMapMembers(s, StaleId(StaleChains(ids)), id);
      if id in ids {
        var c :| c in s && c.chainId == id;
        assert id in StaleId(StaleChains(ids))(c);
      }
    }
  }

  lemma TrustworthyIsEnough(s: seq<Component>, expected: seq<int>, failed: seq<int>, asOf: int,
                            stale: Component -> bool)
    requires DistinctChains(s) && DistinctIds(expected) && Trustworthy(s, expected, failed)
    ensures CompleteIsHonest(s, expected, failed, asOf, stale)
  {
    if |VerifiedOnly(s)| < |expected| {
      FewerAreKept(s, Elements(StaleIds(s, stale)));
      if MissingIds(s, expected, failed) == [] && StaleIds(s, stale) == [] && FailedIds(s, failed) == [] {
        NothingListedMeansEnough(s, expected, failed);
      }
      EmptyLists(s, expected, failed, asOf, stale);
    } else {
      forall id | id in Ids(s) ensures id in expected {
        IdMembers(s, id);
      }
      CompleteMeansNothingExcluded(s, expected, failed, asOf, stale);
    }
  }

  lemma EmptyLists(s: seq<Component>, expected: seq<int>, failed: seq<int>, asOf: int, stale: Component -> bool)
    ensures var a := Aligned(s, expected, failed, asOf, stale);
            && (a.missingChainIds == [] <==> MissingIds(s, expected, failed) == [])
            && (a.staleChainIds == [] <==> StaleIds(s, stale) == [])
            && (a.failedChainIds == [] <==> FailedIds(s, failed) == [])
  {
    ListsOf(s, expected, failed, asOf, stale);
    var a := Aligned(s, expected, failed, asOf, stale);
    EmptyElements(a.missingChainIds);
    EmptyElements(a.staleChainIds);
    EmptyElements(a.failedChainIds);
    EmptyElements(MissingIds(s, expected, failed));
    EmptyElements(StaleIds(s, stale));
    EmptyElements(FailedIds(s, failed));
  }

  lemma {:induction false} NoneUnverified(s: seq<Component>)
    requires FlatMap(s, UnverifiedId()) == []
    ensures VerifiedOnly(s) == s
  {
    if s != [] {
      var init, last := s[..|s| - 1], s[|s| - 1];
      assert s == init + [last];
      FlatMapSnoc(init, last, UnverifiedId());
      FlatMapSnoc(init, last, Kept({}));
      NoneUnverified(init);
    }
  }

  /** With nothing missing and nothing failed there is a verified component for each expected chain. */
  lemma NothingListedMeansEnough(s: seq<Component>, expected: seq<int>, failed: seq<int>)
    requires DistinctChains(s) && DistinctIds(expected)
    requires MissingIds(s, expected, failed) == [] && FailedIds(s, failed) == []
    ensures |VerifiedOnly(s)| >= |expected|
  {
    NoneUnverified(s);
    forall id | id in Elements(expected) ensures id in Elements(Ids(s)) {
      MissingMembers(s, expected, failed, id);
    }
    DistinctChainsCount(s);
    DistinctIdsCount(expected);
    SubsetCount(Elements(expected), Elements(Ids(s)));
  }

  lemma UntrustworthyFails(s: seq<Component>, expected: seq<int>, failed: seq<int>, asOf: int)
    returns (ids: set<int>)
    requires DistinctChains(s) && DistinctIds(expected) && !Trustworthy(s, expected, failed)
    ensures !CompleteIsHonest(s, expected, failed, asOf, StaleChains(ids))
  {
    ids := SomeAreStale(s, |expected|);
    var stale := StaleChains(ids);
    StaleChainsAreListed(s, ids);
    assert |Included(s, stale)| == |expected|;
    EmptyLists(s, expected, failed, asOf, stale);
    EmptyElements(StaleIds(s, stale));
    if MissingIds(s, expected, failed) == [] && StaleIds(s, stale) == [] && FailedIds(s, failed) == [] {
      NoneUnverified(s);
      AllAreExpected(s, expected, failed);
      assert false;
    }
  }

  /** As many components as expected chains and none of those missing: then every component is expected. */
  lemma AllAreExpected(s: seq<Component>, expected: seq<int>, failed: seq<int>)
    requires DistinctChains(s) && DistinctIds(expected) && |s| == |expected|
    requires MissingIds(s, expected, failed) == [] && FailedIds(s, failed) == []
    ensures AllExpected(s, expected) && AllVerified(s)
  {
    forall id | id in Elements(expected) ensures id in Elements(Ids(s)) {
      MissingMembers(s, expected, failed, id);
    }
    DistinctChainsCount(s);
    DistinctIdsCount(expected);
    SameSizeSubset(Elements(expected), Elements(Ids(s)));
    forall c | c in s ensures c.chainId in expected && c.metadataVerified {
      IdMembers(s, c.chainId);
      assert c.chainId in Elements(Ids(s));
      UnverifiedMembers(s, c);
    }
  }

  lemma SameSizeSubset(x: set<int>, y: set<int>)
    requires x <= y && |x| == |y|
    ensures x == y
  {
    assert y == x + (y - x);
  }

  // The freshness checks, by the components' times.

  /** The same components with other times. */
  predicate Retimed(s: seq<Component>, r: seq<Component>) {
    |s| == |r| && forall i :: 0 <= i < |s| ==> r[i] == s[i].(timestamp := r[i].timestamp)
  }

  lemma {:induction false} SameMap<T, U>(s: seq<T>, t: seq<T>, f: T -> seq<U>, g: T -> seq<U>)
    requires |s| == |t| && forall i :: 0 <= i < |s| ==> f(s[i]) == g(t[i])
    ensures FlatMap(s, f) == FlatMap(t, g)
  {
    if s != [] {
      SameMap(s[..|s| - 1], t[..|t| - 1], f, g);
    }
  }

  lemma {:induction false} RetimedKeepsCount(s: seq<Component>, r: seq<Component>, stale: set<int>)
    requires Retimed(s, r)
    ensures |FlatMap(s, Kept(stale))| == |FlatMap(r, Kept(stale))|
  {
    if s != [] {
      RetimedKeepsCount(s[..|s| - 1], r[..|r| - 1], stale);
    }
  }

  /** Only the freshness outcome matters for the lists and the count, not the times themselves. */
  lemma RetimedIsAlike(s: seq<Component>, r: seq<Component>, expected: seq<int>, failed: seq<int>, asOf: int,
                       stale: Component -> bool, staleRetimed: Component -> bool)
    requires Retimed(s, r) && forall i :: 0 <= i < |s| ==> stale(s[i]) == staleRetimed(r[i])
    ensures CompleteIsHonest(s, expected, failed, asOf, stale) <==>
            CompleteIsHonest(r, expected, failed, asOf, staleRetimed)
  {
    SameMap(s, r, IdOf(), IdOf());
    SameMap(s, r, UnverifiedId(), UnverifiedId());
    SameMap(s, r, StaleId(stale), StaleId(staleRetimed));
    RetimedKeepsCount(s, r, Elements(StaleIds(s, stale)));
  }

  /** Times under which exactly the given chains are too old. */
  function AgedChains(s: seq<Component>, ids: set<int>, asOf: int, maximumAgeSeconds: nat): seq<Component> {
    seq(|s|, i requires 0 <= i < |s| =>
      s[i].(timestamp := if s[i].chainId in ids then asOf - 1_000 * (maximumAgeSeconds + 1) else asOf))
  }

  lemma AgedChainsAreStale(s: seq<Component>, ids: set<int>, asOf: int, maximumAgeSeconds: nat, skew: nat)
    ensures var r := AgedChains(s, ids, asOf, maximumAgeSeconds);
            && Retimed(s, r)
            && forall i :: 0 <= i < |s| ==>
                 StaleChains(ids)(s[i]) == StaleAgainst(asOf, maximumAgeSeconds, skew)(r[i])
  {
  }

  /** Whatever the components' times, "complete" means that nothing is missing, stale or failed. */
  ghost predicate AlwaysHonest(s: seq<Component>, expected: seq<int>, failed: seq<int>, asOf: int,
                               maximumAgeSeconds: int, skew: int)
  {
    forall r :: Retimed(s, r) ==>
      CompleteIsHonest(r, expected, failed, asOf, StaleAgainst(asOf, maximumAgeSeconds, skew))
  }

  lemma RetimedIsTrustworthy(s: seq<Component>, r: seq<Component>, expected: seq<int>, failed: seq<int>)
    requires Retimed(s, r) && DistinctChains(s) && Trustworthy(s, expected, failed)
    ensures DistinctChains(r) && Trustworthy(r, expected, failed)
  {
    RetimedKeepsCount(s, r, {});
  }

  /** For distinct chains and any limits, "complete" can be trusted whatever times the components carry if and only if
      the request is trustworthy. */
  lemma CompleteIsTrustedExactlyWhen(s: seq<Component>, expected: seq<int>, failed: seq<int>, asOf: int,
                                     maximumAgeSeconds: nat, skew: nat)
    requires DistinctChains(s) && DistinctIds(expected)
    ensures AlwaysHonest(s, expected, failed, asOf, maximumAgeSeconds, skew) <==> Trustworthy(s, expected, failed)
  {
    var stale := StaleAgainst(asOf, maximumAgeSeconds, skew);
    if Trustworthy(s, expected, failed) {
      forall r | Retimed(s, r) ensures CompleteIsHonest(r, expected, failed, asOf, stale) {
        RetimedIsTrustworthy(s, r, expected, failed);
        TrustworthyIsEnough(r, expected, failed, asOf, stale);
      }
    } else {
      var ids := UntrustworthyFails(s, expected, failed, asOf);
      var r := AgedChains(s, ids, asOf, maximumAgeSeconds);
      AgedChainsAreStale(s, ids, asOf, maximumAgeSeconds, skew);
      RetimedIsAlike(s, r, expected, failed, asOf, StaleChains(ids), stale);
    }
  }

  // The total and the skew.

  lemma {:induction false} OldestIsLeast(s: seq<Component>)
    requires s != []
    ensures forall c :: c in s ==> Oldest(s) <= c.timestamp <= Newest(s)
    ensures exists c, d :: c in s && d in s && c.timestamp == Oldest(s) && d.timestamp == Newest(s)
  {
    var init, last := s[..|s| - 1], s[|s| - 1];
    assert s == init + [last];
    if |s| > 1 {
      OldestIsLeast(init);
      var c, d :| c in init && d in init && c.timestamp == Oldest(init) && d.timestamp == Newest(init);
      assert c in s && d in s && last in s;
    } else {
      assert last in s;
    }
  }

  lemma OffsetBounds(timestamp: int, asOf: int, skew: int)
    requires OffsetOf(timestamp, asOf) <= skew
    ensures -(1_000 * skew + 999) <= asOf - timestamp <= 1_000 * skew + 999
  {
  }

  lemma SecondsBetween(oldest: int, newest: int, asOf: int, skew: int)
    requires OffsetOf(oldest, asOf) <= skew && OffsetOf(newest, asOf) <= skew
    ensures WholeSeconds(newest - oldest) <= 2 * skew + 1
    ensures oldest <= newest ==> WholeSeconds(newest - oldest) >= 0
  {
    OffsetBounds(oldest, asOf, skew);
    OffsetBounds(newest, asOf, skew);
  }

  lemma IncludedAreFresh(s: seq<Component>, stale: Component -> bool)
    ensures forall c :: c in Included(s, stale) ==> c in s && c.metadataVerified && !stale(c)
  {
    IncludedMembers(s, Elements(StaleIds(s, stale)));
    forall c | c in Included(s, stale) ensures !stale(c) {
      FlatMapMembers(s, StaleId(stale), c.chainId);
      assert stale(c) ==> c.chainId in StaleId(stale)(c);
    }
  }

  lemma OlderIsNoYounger(older: int, newer: int, asOf: int)
    requires older <= newer
    ensures 0 <= AgeOf(newer, asOf) <= AgeOf(older, asOf)
  {
  }

  /** The whole seconds in a number of milliseconds. */
  predicate IsSeconds(seconds: int, milliseconds: int) {
    1_000 * seconds <= milliseconds < 1_000 * (seconds + 1)
  }

  /** A component is stale when it is too old by a whole second, or off the observation time by one either way. */
  lemma StaleMeans(c: Component, asOf: int, maximumAgeSeconds: nat, skew: nat)
    ensures StaleAgainst(asOf, maximumAgeSeconds, skew)(c) <==>
            || asOf - c.timestamp >= 1_000 * (maximumAgeSeconds + 1)
            || asOf - c.timestamp >= 1_000 * (skew + 1)
            || c.timestamp - asOf >= 1_000 * (skew + 1)
  {
  }

  ghost predicate Ascending(s: seq<int>) { forall i, j :: 0 <= i < j < |s| ==> s[i] <= s[j] }

  lemma ListedAscends(s: seq<int>)
    ensures Ascending(Listed(s)) && multiset(Listed(s)) == multiset(s)
  {
    assert TotalPreorder(ASCENDING);
    StableSortSorts(s, ASCENDING);
    forall i, j | 0 <= i < j < |Listed(s)| ensures Listed(s)[i] <= Listed(s)[j] {
      assert ASCENDING(Listed(s)[i], Listed(s)[j]);
    }
  }

  lemma BothCount(s: seq<int>, i: nat, j: nat)
    requires i < j < |s|
    ensures s[i] == s[j] ==> multiset(s)[s[i]] >= 2
  {
    assert s == s[..i] + [s[i]] + s[i + 1..j] + [s[j]] + s[j + 1..];
  }

  lemma OnceEach(s: seq<int>)
    requires forall x :: multiset(s)[x] <= 1
    ensures DistinctIds(s)
  {
    forall i, j | 0 <= i < j < |s| ensures s[i] != s[j] {
      BothCount(s, i, j);
    }
  }

  lemma UniqueListedIsDistinct(s: seq<int>)
    ensures DistinctIds(Listed(Unique(s)))
  {
    ListedAscends(Unique(s));
    forall x ensures multiset(Listed(Unique(s)))[x] <= 1 {
      UniqueCounts(s, x);
    }
    OnceEach(Listed(Unique(s)));
  }

  /** All four lists ascend; the stale and the failed chains are listed once each. */
  lemma ListsAscend(s: seq<Component>, expected: seq<int>, failed: seq<int>, asOf: int, stale: Component -> bool)
    ensures var a := Aligned(s, expected, failed, asOf, stale);
            && Ascending(a.includedChainIds) && Ascending(a.missingChainIds) && Ascending(a.staleChainIds)
            && Ascending(a.failedChainIds) && DistinctIds(a.staleChainIds) && DistinctIds(a.failedChainIds)
  {
    ListedAscends(Ids(Included(s, stale)));
    ListedAscends(MissingIds(s, expected, failed));
    ListedAscends(Unique(StaleIds(s, stale)));
    ListedAscends(Unique(FailedIds(s, failed)));
    UniqueListedIsDistinct(StaleIds(s, stale));
    UniqueListedIsDistinct(FailedIds(s, failed));
  }

  /** The included components are those that pass, in the order they came. */
  lemma {:induction false} IncludedKeepOrder(s: seq<Component>, stale: set<int>) returns (places: seq<nat>)
    ensures |places| == |FlatMap(s, Kept(stale))|
    ensures forall i, j :: 0 <= i < j < |places| ==> places[i] < places[j]
    ensures forall i :: 0 <= i < |places| ==> places[i] < |s| && FlatMap(s, Kept(stale))[i] == s[places[i]]
    ensures forall k :: 0 <= k < |s| && s[k].metadataVerified && s[k].chainId !in stale ==> k in places
  {
    places := [];
    if s != [] {
      var init, last := s[..|s| - 1], s[|s| - 1];
      places := IncludedKeepOrder(init, stale);
      assert s == init + [last];
      FlatMapSnoc(init, last, Kept(stale));
      if last.metadataVerified && last.chainId !in stale {
        places := places + [|init|];
      }
    }
  }

  /** The reported skew lies between zero and twice the allowed offset plus one; the reported age is the greatest of the
      included ones and within the allowed age; the oldest and newest times bound every included component. */
  lemma IncludedAreAligned(s: seq<Component>, expected: seq<int>, failed: seq<int>, asOf: int, maximumAgeSeconds: int,
                           alignmentMaximumSkewSeconds: int)
    ensures var a := AggregateUsdpSupplyComponents(s, expected, failed, asOf, maximumAgeSeconds,
                                                   alignmentMaximumSkewSeconds);
            && (a.span.Between? <==> a.included != [])
            && (a.coverageStatus == Complete <==> |a.included| == |expected|)
            && (a.coverageStatus == Unavailable <==> a.included == [] && expected != [])
            && (a.span.Between? ==>
                  && 0 <= a.span.componentSkewSeconds <= 2 * alignmentMaximumSkewSeconds + 1
                  && 0 <= a.span.maximumComponentAgeSeconds <= maximumAgeSeconds
                  && IsSeconds(a.span.componentSkewSeconds, a.span.newest - a.span.oldest)
                  && (if asOf <= a.span.oldest then a.span.maximumComponentAgeSeconds == 0
                      else IsSeconds(a.span.maximumComponentAgeSeconds, asOf - a.span.oldest))
                  && (exists c, d :: c in a.included && d in a.included
                                     && c.timestamp == a.span.oldest && d.timestamp == a.span.newest)
                  && forall c :: c in a.included ==>
                       && a.span.oldest <= c.timestamp <= a.span.newest
                       && AgeOf(c.timestamp, asOf) <= a.span.maximumComponentAgeSeconds)
  {
    var stale := StaleAgainst(asOf, maximumAgeSeconds, alignmentMaximumSkewSeconds);
    var included := Included(s, stale);
    if included != [] {
      IncludedAreFresh(s, stale);
      OldestIsLeast(included);
      var c, d :| c in included && d in included && c.timestamp == Oldest(included) && d.timestamp == Newest(included);
      assert !stale(c) && !stale(d);
      SecondsBetween(c.timestamp, d.timestamp, asOf, alignmentMaximumSkewSeconds);
      forall e | e in included ensures 0 <= AgeOf(e.timestamp, asOf) <= AgeOf(c.timestamp, asOf) {
        OlderIsNoYounger(c.timestamp, e.timestamp, asOf);
      }
    }
  }

  // The total, chain by chain.

  function SupplyIfOn(id: int): Component -> int { (c: Component) => if c.chainId == id then c.totalSupply else 0 }

  /** The supply that the components of one chain report together. */
  function SupplyByChain(s: seq<Component>): int -> int { (id: int) => Sum(s, SupplyIfOn(id)) }

  lemma {:induction false} AbsentChainHasNoSupply(s: seq<Component>, id: int)
    requires id !in Ids(s)
    ensures SupplyByChain(s)(id) == 0
  {
    if s != [] {
      var init, c := s[..|s| - 1], s[|s| - 1];
      assert s == init + [c];
      FlatMapSnoc(init, c, IdOf());
      AbsentChainHasNoSupply(init, id);
    }
  }

  lemma SupplySnoc(s: seq<Component>, c: Component, id: int)
    ensures SupplyByChain(s + [c])(id) == SupplyByChain(s)(id) + if c.chainId == id then c.totalSupply else 0
  {
    assert (s + [c])[..|s|] == s;
  }

  lemma {:induction false} KeptTotal(s: seq<Component>, stale: set<int>)
    requires DistinctChains(s)
    ensures Sum(FlatMap(s, Kept(stale)), SupplyOf) == SumOver(Elements(Ids(FlatMap(s, Kept(stale)))), SupplyByChain(s))
  {
    if s == [] {
      SumOverZero(Elements(Ids([])), SupplyByChain([]));
    } else {
      var init, c := s[..|s| - 1], s[|s| - 1];
      var before := FlatMap(init, Kept(stale));
      assert s == init + [c];
      FlatMapSnoc(init, c, Kept(stale));
      KeptTotal(init, stale);
      IncludedMembers(init, stale);
      IdMembers(before, c.chainId);
      IdMembers(init, c.chainId);
      assert c.chainId !in Ids(before) && c.chainId !in Ids(init);
      forall id | id in Elements(Ids(before)) ensures SupplyByChain(init)(id) == SupplyByChain(s)(id) {
        SupplySnoc(init, c, id);
      }
      SumOverSame(Elements(Ids(before)), SupplyByChain(init), SupplyByChain(s));
      if FlatMap(s, Kept(stale)) != before {
        AddedChain(init, before, c);
      } else {
        assert before + [] == before;
      }
    }
  }

  lemma AddedChain(init: seq<Component>, before: seq<Component>, c: Component)
    requires c.chainId !in Ids(before) && c.chainId !in Ids(init)
    ensures Sum(before + [c], SupplyOf) == Sum(before, SupplyOf) + c.totalSupply
    ensures SumOver(Elements(Ids(before + [c])), SupplyByChain(init + [c]))
         == SumOver(Elements(Ids(before)), SupplyByChain(init + [c])) + c.totalSupply
  {
    SumConcat(before, [c], SupplyOf);
    SumOne(c, SupplyOf);
    FlatMapSnoc(before, c, IdOf());
    AbsentChainHasNoSupply(init, c.chainId);
    SupplySnoc(init, c, c.chainId);
    var ids := Elements(Ids(before + [c]));
    assert ids == Elements(Ids(before)) + {c.chainId};
    SumOverRemove(ids, c.chainId, SupplyByChain(init + [c]));
    assert ids - {c.chainId} == Elements(Ids(before));
  }

  /** The total is the sum, over the chains on the included list, of the supply each chain reported. */
  lemma TotalIsTheIncludedChains(s: seq<Component>, expected: seq<int>, failed: seq<int>, asOf: int,
                                 stale: Component -> bool)
    requires DistinctChains(s)
    ensures var a := Aligned(s, expected, failed, asOf, stale);
            a.candidateTotalSupply == SumOver(Elements(a.includedChainIds), SupplyByChain(s))
  {
    ListedElements(Ids(Included(s, stale)));
    KeptTotal(s, Elements(StaleIds(s, stale)));
  }

  /** The bound is met for every allowed offset: flooring to seconds hides almost one second on each side. */
  lemma SkewBoundIsMet(asOf: int, skew: nat)
    ensures var oldest, newest := asOf - (1_000 * skew + 999), asOf + (1_000 * skew + 999);
            && OffsetOf(oldest, asOf) == OffsetOf(newest, asOf) == skew
            && WholeSeconds(newest - oldest) == 2 * skew + 1
  {
    assert WholeSeconds(1_000 * skew + 999) == skew;
    assert WholeSeconds(2_000 * skew + 1_998) == 2 * skew + 1;
  }

  // Order.

  lemma {:induction false} UniqueCounts(s: seq<int>, x: int)
    ensures multiset(Unique(s))[x] == if x in s then 1 else 0
  {
    if s != [] {
      var init, last := s[..|s| - 1], s[|s| - 1];
      UniqueCounts(init, x);
      UniqueElements(init);
      assert s == init + [last];
    }
  }

  lemma ListedForgetsOrder(s: seq<int>, t: seq<int>)
    requires multiset(s) == multiset(t)
    ensures Listed(s) == Listed(t)
  {
    SortForgetsOrder(s, t, ASCENDING);
  }

  lemma UniqueForgetsOrder(s: seq<int>, t: seq<int>)
    requires multiset(s) == multiset(t)
    ensures Listed(Unique(s)) == Listed(Unique(t))
  {
    SameElements(s, t);
    forall x ensures multiset(Unique(s))[x] == multiset(Unique(t))[x] {
      UniqueCounts(s, x);
      UniqueCounts(t, x);
    }
    ListedForgetsOrder(Unique(s), Unique(t));
  }

  lemma ExtremesForgetOrder(s: seq<Component>, t: seq<Component>)
    requires multiset(s) == multiset(t) && s != [] && t != []
    ensures Oldest(s) == Oldest(t) && Newest(s) == Newest(t)
  {
    SameElements(s, t);
    OldestIsLeast(s);
    OldestIsLeast(t);
  }

  lemma IncludedForgetsOrder(s: seq<Component>, t: seq<Component>, stale: Component -> bool)
    requires multiset(s) == multiset(t)
    ensures multiset(Included(s, stale)) == multiset(Included(t, stale))
  {
    FlatMapPermutation(s, t, StaleId(stale));
    SameElements(StaleIds(s, stale), StaleIds(t, stale));
    assert Elements(StaleIds(s, stale)) == Elements(StaleIds(t, stale));
    FlatMapPermutation(s, t, Kept(Elements(StaleIds(s, stale))));
  }

  lemma SpanForgetsOrder(s: seq<Component>, t: seq<Component>, asOf: int)
    requires multiset(s) == multiset(t)
    ensures |s| == |t| && SpanOf(s, asOf) == SpanOf(t, asOf)
  {
    assert |s| == |multiset(s)| == |multiset(t)| == |t|;
    if s != [] {
      ExtremesForgetOrder(s, t);
    }
  }

  lemma FailedForgetsOrder(s: seq<Component>, t: seq<Component>, failed: seq<int>)
    requires multiset(s) == multiset(t)
    ensures multiset(FailedIds(s, failed)) == multiset(FailedIds(t, failed))
  {
    FlatMapPermutation(s, t, UnverifiedId());
  }

  lemma MissingForgetsOrder(s: seq<Component>, t: seq<Component>, expected: seq<int>, failed: seq<int>)
    requires multiset(s) == multiset(t)
    ensures MissingIds(s, expected, failed) == MissingIds(t, expected, failed)
  {
    FailedForgetsOrder(s, t, failed);
    FlatMapPermutation(s, t, IdOf());
    SameElements(Ids(s), Ids(t));
    SameElements(FailedIds(s, failed), FailedIds(t, failed));
    assert Elements(Ids(s)) == Elements(Ids(t)) && Elements(FailedIds(s, failed)) == Elements(FailedIds(t, failed));
  }

  /** Apart from the order of the included list, the aggregate is the same for every order of its components. */
  lemma AggregateForgetsOrder(s: seq<Component>, t: seq<Component>, expected: seq<int>, failed: seq<int>, asOf: int,
                              stale: Component -> bool)
    requires multiset(s) == multiset(t)
    ensures var a, b := Aligned(s, expected, failed, asOf, stale), Aligned(t, expected, failed, asOf, stale);
            multiset(a.included) == multiset(b.included) && a == b.(included := a.included)
  {
    var i, j := Included(s, stale), Included(t, stale);
    IncludedForgetsOrder(s, t, stale);
    FlatMapPermutation(i, j, IdOf());
    ListedForgetsOrder(Ids(i), Ids(j));
    MissingForgetsOrder(s, t, expected, failed);
    FlatMapPermutation(s, t, StaleId(stale));
    UniqueForgetsOrder(StaleIds(s, stale), StaleIds(t, stale));
    FailedForgetsOrder(s, t, failed);
    UniqueForgetsOrder(FailedIds(s, failed), FailedIds(t, failed));
    SumPermutation(i, j, SupplyOf);
    SpanForgetsOrder(i, j, asOf);
  }
}
