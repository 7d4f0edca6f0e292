/** Totalling the native flows per UTC hour or day. */
module NativeFlows {
  import opened Wrappers
  import opened Sorting
  import opened Sums

  datatype Metric = UsdpIssued | UsdpBurnedForCollateral | UsdpRedeemed | SusdpDeposited | SusdpWithdrawn

  datatype Granularity = Hour | Day

  /** What the aggregation reads of a classified event: `metric` is absent unless it is a native flow. */
  datatype EconomicEvent = EconomicEvent(
    timestamp: int, metric: Option<Metric>, amount: Option<nat>, primaryParticipant: Option<string>)

  datatype BucketKey = BucketKey(start: int, metric: Metric)

  datatype FlowAggregate = FlowAggregate(amount: int, eventCount: nat, uniqueParticipants: nat)

  type Flows = map<BucketKey, FlowAggregate>

  // Buckets.

  const HOUR := 3_600_000
  const DAY := 86_400_000

  /** Clears the minutes and below and, for a day, the hours: times are UTC milliseconds. */
  function BucketStart(timestamp: int, granularity: Granularity): (start: int)
    ensures start <= timestamp < start + (if granularity.Hour? then 3_600_000 else 24 * 3_600_000)
    ensures start % (if granularity.Hour? then 3_600_000 else 24 * 3_600_000) == 0
  {
    var hour := timestamp - timestamp % HOUR;
    if granularity.Hour? then hour else hour - hour % DAY
  }

  function Starts(granularity: Granularity): int -> int { (timestamp: int) => BucketStart(timestamp, granularity) }

  lemma BucketsNest(timestamp: int)
    ensures BucketStart(BucketStart(timestamp, Hour), Day) == BucketStart(timestamp, Day)
  {
  }

  predicate InBucket(e: EconomicEvent, at: int -> int, k: BucketKey) {
    e.metric == Some(k.metric) && at(e.timestamp) == k.start
  }

  function BucketOf(e: EconomicEvent, at: int -> int): BucketKey
    requires e.metric.Some?
  {
    BucketKey(at(e.timestamp), e.metric.value)
  }

  // The reference totals.

  datatype Measure = Amounts | Events

  function Worth(e: EconomicEvent, measure: Measure): nat {
    if e.metric.None? then 0 else if measure.Events? then 1 else if e.amount.Some? then e.amount.value else 0
  }

  function NativeWorth(measure: Measure): EconomicEvent -> int { (e: EconomicEvent) => Worth(e, measure) }

  function WorthIn(measure: Measure, at: int -> int, k: BucketKey): EconomicEvent -> int {
    (e: EconomicEvent) => if InBucket(e, at, k) then Worth(e, measure) else 0
  }

  function Total(s: seq<EconomicEvent>, measure: Measure, at: int -> int, k: BucketKey): int {
    Sum(s, WorthIn(measure, at, k))
  }

  function ParticipantOf(e: EconomicEvent): set<string> {
    if e.primaryParticipant.Some? && e.primaryParticipant.value != "" then {e.primaryParticipant.value} else {}
  }

  function Participants(s: seq<EconomicEvent>, at: int -> int, k: BucketKey): set<string> {
    if s == [] then {} else
      var e := s[|s| - 1];
      Participants(s[..|s| - 1], at, k) + if InBucket(e, at, k) then ParticipantOf(e) else {}
  }

  lemma {:induction false} ParticipantsMembers(s: seq<EconomicEvent>, at: int -> int, k: BucketKey, p: string)
    ensures p in Participants(s, at, k) <==>
            exists e :: e in s && InBucket(e, at, k) && p in ParticipantOf(e)
  {
    if s != [] {
      var init, last := s[..|s| - 1], s[|s| - 1];
      ParticipantsMembers(init, at, k, p);
      assert s == init + [last];
      assert forall e :: e in s <==> e in init || e == last;
    }
  }

  function Keys(s: seq<EconomicEvent>, at: int -> int): set<BucketKey> {
    if s == [] then {} else
      var e := s[|s| - 1];
      Keys(s[..|s| - 1], at) + if e.metric.Some? then {BucketOf(e, at)} else {}
  }

  lemma {:induction false} KeysMembers(s: seq<EconomicEvent>, at: int -> int, k: BucketKey)
    ensures k in Keys(s, at) <==> exists e :: e in s && InBucket(e, at, k)
  {
    if s != [] {
      var init, last := s[..|s| - 1], s[|s| - 1];
      KeysMembers(init, at, k);
      assert s == init + [last];
      assert forall e :: e in s <==> e in init || e == last;
      assert InBucket(last, at, k) <==> last.metric.Some? && BucketOf(last, at) == k;
    }
  }

  lemma {:induction false} TotalsAreNatural(s: seq<EconomicEvent>, measure: Measure, at: int -> int, k: BucketKey)
    ensures Total(s, measure, at, k) >= 0
  {
    if s != [] {
      TotalsAreNatural(s[..|s| - 1], measure, at, k);
    }
  }

  function Row(s: seq<EconomicEvent>, at: int -> int, k: BucketKey): FlowAggregate {
    TotalsAreNatural(s, Events, at, k);
    FlowAggregate(Total(s, Amounts, at, k), Total(s, Events, at, k), |Participants(s, at, k)|)
  }

  /** The metric of the first native flow that lacks its amount. */
  function FirstMissing(s: seq<EconomicEvent>): Option<Metric> {
    if s == [] then None
    else if FirstMissing(s[..|s| - 1]).Some? then FirstMissing(s[..|s| - 1])
    else if s[|s| - 1].amount.None? then s[|s| - 1].metric else None
  }

  function AggregatedBy(s: seq<EconomicEvent>, at: int -> int): Result<Flows, Metric> {
    if FirstMissing(s).Some? then Failure(FirstMissing(s).value)
    else Success(map k | k in Keys(s, at) :: Row(s, at, k))
  }

  function Aggregated(s: seq<EconomicEvent>, granularity: Granularity): Result<Flows, Metric> {
    AggregatedBy(s, Starts(granularity))
  }

  lemma {:induction false} MissingPersists(s: seq<EconomicEvent>, i: nat)
    requires i <= |s| && FirstMissing(s[..i]).Some?
    ensures FirstMissing(s) == FirstMissing(s[..i])
    decreases |s| - i
  {
    if i == |s| {
      assert s[..i] == s;
    } else {
      assert s[..i + 1][..i] == s[..i];
      MissingPersists(s, i + 1);
    }
  }

  lemma {:induction false} NoneMissing(s: seq<EconomicEvent>)
    ensures FirstMissing(s).None? <==> forall e :: e in s && e.metric.Some? ==> e.amount.Some?
  {
    if s != [] {
      NoneMissing(s[..|s| - 1]);
      assert s == s[..|s| - 1] + [s[|s| - 1]];
    }
  }

  // The aggregation loop.

  datatype Bucket = Bucket(amount: int, eventCount: nat, participants: set<string>)

  ghost function BucketFor(s: seq<EconomicEvent>, at: int -> int, k: BucketKey): Bucket {
    TotalsAreNatural(s, Events, at, k);
    Bucket(Total(s, Amounts, at, k), Total(s, Events, at, k), Participants(s, at, k))
  }

  ghost function Buckets(s: seq<EconomicEvent>, at: int -> int): map<BucketKey, Bucket> {
    map k | k in Keys(s, at) :: BucketFor(s, at, k)
  }

  lemma Snoc(s: seq<EconomicEvent>, e: EconomicEvent)
    ensures (s + [e])[..|s|] == s && (s + [e])[|s|] == e && forall x :: x in s + [e] <==> x in s || x == e
  {
  }

  lemma TotalSnoc(s: seq<EconomicEvent>, e: EconomicEvent, measure: Measure, at: int -> int, k: BucketKey)
    ensures Total(s + [e], measure, at, k)
         == Total(s, measure, at, k) + if InBucket(e, at, k) then Worth(e, measure) else 0
  {
    Snoc(s, e);
  }

  lemma ParticipantsSnoc(s: seq<EconomicEvent>, e: EconomicEvent, at: int -> int, k: BucketKey)
    ensures Participants(s + [e], at, k)
         == Participants(s, at, k) + if InBucket(e, at, k) then ParticipantOf(e) else {}
  {
    Snoc(s, e);
  }

  lemma KeysSnoc(s: seq<EconomicEvent>, e: EconomicEvent, at: int -> int)
    ensures Keys(s + [e], at)
         == Keys(s, at) + if e.metric.Some? then {BucketOf(e, at)} else {}
  {
    Snoc(s, e);
  }

  lemma {:induction false} AbsentBucketIsBlank(s: seq<EconomicEvent>, at: int -> int, k: BucketKey)
    requires k !in Keys(s, at)
    ensures BucketFor(s, at, k) == Bucket(0, 0, {})
  {
    if s != [] {
      var init, e := s[..|s| - 1], s[|s| - 1];
      assert s == init + [e];
      KeysSnoc(init, e, at);
      AbsentBucketIsBlank(init, at, k);
      TotalSnoc(init, e, Amounts, at, k);
      TotalSnoc(init, e, Events, at, k);
      ParticipantsSnoc(init, e, at, k);
    }
  }

  lemma BucketForSnoc(s: seq<EconomicEvent>, e: EconomicEvent, at: int -> int, k: BucketKey)
    requires e.metric.Some? ==> e.amount.Some?
    ensures !InBucket(e, at, k) ==> BucketFor(s + [e], at, k) == BucketFor(s, at, k)
    ensures InBucket(e, at, k) ==>
              var b := BucketFor(s, at, k);
              BucketFor(s + [e], at, k)
              == Bucket(b.amount + e.amount.value, b.eventCount + 1, b.participants + ParticipantOf(e))
  {
    TotalSnoc(s, e, Amounts, at, k);
    TotalSnoc(s, e, Events, at, k);
    ParticipantsSnoc(s, e, at, k);
  }

  lemma OtherBucketsSnoc(s: seq<EconomicEvent>, e: EconomicEvent, at: int -> int)
    requires e.metric.Some? ==> e.amount.Some?
    ensures forall k :: k in Keys(s, at) && !InBucket(e, at, k) ==>
              BucketFor(s + [e], at, k) == BucketFor(s, at, k)
  {
    forall k | k in Keys(s, at) && !InBucket(e, at, k)
      ensures BucketFor(s + [e], at, k) == BucketFor(s, at, k) {
      BucketForSnoc(s, e, at, k);
    }
  }

  lemma BucketsSnoc(s: seq<EconomicEvent>, e: EconomicEvent, at: int -> int)
    requires e.metric.Some? ==> e.amount.Some?
    ensures e.metric.None? ==> Buckets(s + [e], at) == Buckets(s, at)
    ensures e.metric.Some? ==>
              var key := BucketOf(e, at);
              Buckets(s + [e], at) == Buckets(s, at)[key := BucketFor(s + [e], at, key)]
  {
    KeysSnoc(s, e, at);
    OtherBucketsSnoc(s, e, at);
    var before, after := Buckets(s, at), Buckets(s + [e], at);
    if e.metric.Some? {
      var key := BucketOf(e, at);
      SameMap(after, before[key := BucketFor(s + [e], at, key)]);
    } else {
      SameMap(after, before);
    }
  }

  lemma SameMap<K, V>(m: map<K, V>, n: map<K, V>)
    requires m.Keys == n.Keys && forall k :: k in m.Keys ==> m[k] == n[k]
    ensures m == n
  {
  }

  function RowOf(b: Bucket): FlowAggregate { FlowAggregate(b.amount, b.eventCount, |b.participants|) }

  lemma RowsOfBuckets(s: seq<EconomicEvent>, at: int -> int, buckets: map<BucketKey, Bucket>)
    requires FirstMissing(s).None? && buckets == Buckets(s, at)
    ensures AggregatedBy(s, at) == Success(map k | k in buckets :: RowOf(buckets[k]))
  {
    SameMap(map k | k in buckets :: RowOf(buckets[k]), AggregatedBy(s, at).value);
  }

  method CountIn(bucket: Bucket, e: EconomicEvent) returns (after: Bucket)
    requires e.amount.Some?
    ensures after == Bucket(bucket.amount + e.amount.value, bucket.eventCount + 1,
                            bucket.participants + ParticipantOf(e))
  {
    after := bucket.(amount := bucket.amount + e.amount.value, eventCount := bucket.eventCount + 1);
    if e.primaryParticipant.Some? && e.primaryParticipant.value != "" {
      after := after.(participants := after.participants + {e.primaryParticipant.value});
    } else {
      assert bucket.participants + {} == bucket.participants;
    }
  }

  /** One native flow's step on the stored buckets. */
  method AddToBucket(ghost before: seq<EconomicEvent>, e: EconomicEvent, at: int -> int,
                     buckets: map<BucketKey, Bucket>)
    returns (after: map<BucketKey, Bucket>)
    requires e.metric.Some? && e.amount.Some? && buckets == Buckets(before, at)
    ensures after == Buckets(before + [e], at)
  {
    var key := BucketOf(e, at);
    var bucket := Bucket(0, 0, {});
    if key in buckets {
      bucket := buckets[key];
    } else {
      AbsentBucketIsBlank(before, at, key);
    }
    BucketForSnoc(before, e, at, key);
    BucketsSnoc(before, e, at);
    bucket := CountIn(bucket, e);
    after := buckets[key := bucket];
  }

  /** Totals every native flow into its bucket; a native flow without an amount stops the aggregation. */
  method AggregateNativeFlows(events: seq<EconomicEvent>, granularity: Granularity) returns (r: Result<Flows, Metric>)
    ensures r == Aggregated(events, granularity)
  {
    var at := Starts(granularity);
    var buckets: map<BucketKey, Bucket> := map[];
    for i := 0 to |events|
      invariant FirstMissing(events[..i]).None?
      invariant buckets == Buckets(events[..i], at)
    {
      ghost var before := events[..i];
      assert events[..i + 1] == before + [events[i]];
      var e := events[i];
      if e.metric.Some? && e.amount.None? {
        Snoc(before, e);
        MissingPersists(events, i + 1);
        return Failure(e.metric.value);
      }
      Snoc(before, e);
      BucketsSnoc(before, e, at);
      if e.metric.Some? {
        buckets := AddToBucket(before, e, at, buckets);
      }
    }
    assert events[..|events|] == events;
    RowsOfBuckets(events, at, buckets);
    return Success(map k | k in buckets :: RowOf(buckets[k]));
  }

  // Days against their hours.

  function AmountAt(rows: Flows): BucketKey -> int { (k: BucketKey) => if k in rows then rows[k].amount else 0 }

  function CountAt(rows: Flows): BucketKey -> int { (k: BucketKey) => if k in rows then rows[k].eventCount else 0 }

  function ParticipantsAt(rows: Flows): BucketKey -> int {
    (k: BucketKey) => if k in rows then rows[k].uniqueParticipants else 0
  }

  predicate PartOf(fine: BucketKey, coarse: BucketKey, at: int -> int) {
    fine.metric == coarse.metric && at(fine.start) == coarse.start
  }

  function HoursOf(rows: Flows, day: BucketKey): set<BucketKey> { set h | h in rows && PartOf(h, day, Starts(Day)) }

  /** Bucketing coarsely is bucketing the fine buckets' starts. */
  ghost predicate Nests(fine: int -> int, coarse: int -> int) { forall t :: coarse(fine(t)) == coarse(t) }

  ghost predicate AreParts(s: seq<EconomicEvent>, parts: set<BucketKey>, fine: int -> int, k: BucketKey,
                           coarse: int -> int)
  {
    forall h :: h in parts <==> h in Keys(s, fine) && PartOf(h, k, coarse)
  }

  function TotalAt(s: seq<EconomicEvent>, measure: Measure, at: int -> int): BucketKey -> int {
    (k: BucketKey) => Total(s, measure, at, k)
  }

  /** What an event adds to a set of buckets: its worth, when its bucket is among them. */
  function WorthAmong(e: EconomicEvent, keys: set<BucketKey>, measure: Measure, at: int -> int): int {
    if e.metric.Some? && BucketOf(e, at) in keys then Worth(e, measure) else 0
  }

  lemma PartitionStep(s: seq<EconomicEvent>, e: EconomicEvent, keys: set<BucketKey>, measure: Measure, at: int -> int)
    ensures SumOver(keys, TotalAt(s + [e], measure, at))
        == SumOver(keys, TotalAt(s, measure, at)) + WorthAmong(e, keys, measure, at)
  {
    var before, after := TotalAt(s, measure, at), TotalAt(s + [e], measure, at);
    forall k ensures after(k) == before(k) + if InBucket(e, at, k) then Worth(e, measure) else 0 {
      TotalSnoc(s, e, measure, at, k);
    }
    if e.metric.Some? {
      SumOverPart(keys, BucketOf(e, at), Worth(e, measure), before, after);
    } else {
      SumOverSame(keys, before, after);
    }
  }

  /** Summing the buckets of any set counts exactly the events whose bucket is in the set. */
  lemma {:induction false} BucketsPartition(s: seq<EconomicEvent>, keys: set<BucketKey>, measure: Measure,
                                            at: int -> int, whole: EconomicEvent -> int)
    requires forall e :: e in s ==> whole(e) == WorthAmong(e, keys, measure, at)
    ensures SumOver(keys, TotalAt(s, measure, at)) == Sum(s, whole)
  {
    if s == [] {
      SumOverZero(keys, TotalAt(s, measure, at));
    } else {
      var init, e := s[..|s| - 1], s[|s| - 1];
      assert s == init + [e] && e in s;
      BucketsPartition(init, keys, measure, at, whole);
      PartitionStep(init, e, keys, measure, at);
    }
  }

  lemma TotalIsItsParts(s: seq<EconomicEvent>, parts: set<BucketKey>, fine: int -> int, k: BucketKey,
                        coarse: int -> int, measure: Measure)
    requires Nests(fine, coarse) && AreParts(s, parts, fine, k, coarse)
    ensures SumOver(parts, TotalAt(s, measure, fine)) == Total(s, measure, coarse, k)
  {
    var whole := WorthIn(measure, coarse, k);
    forall e | e in s
      ensures whole(e) == WorthAmong(e, parts, measure, fine)
    {
      assert coarse(fine(e.timestamp)) == coarse(e.timestamp);
      if e.metric.Some? {
        assert InBucket(e, fine, BucketOf(e, fine));
        KeysMembers(s, fine, BucketOf(e, fine));
      }
    }
    BucketsPartition(s, parts, measure, fine, whole);
  }

  /** A part's participants are among the whole's, and every one of the whole's belongs to some part. */
  lemma ParticipantsAreTheParts(s: seq<EconomicEvent>, parts: set<BucketKey>, fine: int -> int, k: BucketKey,
                                coarse: int -> int)
    requires Nests(fine, coarse) && AreParts(s, parts, fine, k, coarse)
    ensures forall h :: h in parts ==> Participants(s, fine, h) <= Participants(s, coarse, k)
    ensures forall p :: p in Participants(s, coarse, k) ==> exists h :: h in parts && p in Participants(s, fine, h)
  {
    forall h, p | h in parts && p in Participants(s, fine, h) ensures p in Participants(s, coarse, k) {
      ParticipantsMembers(s, fine, h, p);
      ParticipantsMembers(s, coarse, k, p);
      var e :| e in s && InBucket(e, fine, h) && p in ParticipantOf(e);
      assert coarse(fine(e.timestamp)) == coarse(e.timestamp);
      assert InBucket(e, coarse, k);
    }
    forall p | p in Participants(s, coarse, k) ensures exists h :: h in parts && p in Participants(s, fine, h) {
      ParticipantsMembers(s, coarse, k, p);
      var e :| e in s && InBucket(e, coarse, k) && p in ParticipantOf(e);
      assert coarse(fine(e.timestamp)) == coarse(e.timestamp);
      var h := BucketOf(e, fine);
      assert InBucket(e, fine, h);
      KeysMembers(s, fine, h);
      ParticipantsMembers(s, fine, h, p);
      assert h in parts && p in Participants(s, fine, h);
    }
  }

  lemma EveryPartHasItsWhole(s: seq<EconomicEvent>, h: BucketKey, fine: int -> int, coarse: int -> int)
    requires Nests(fine, coarse) && h in Keys(s, fine)
    ensures BucketKey(coarse(h.start), h.metric) in Keys(s, coarse)
  {
    KeysMembers(s, fine, h);
    var e :| e in s && InBucket(e, fine, h);
    assert coarse(fine(e.timestamp)) == coarse(e.timestamp);
    assert InBucket(e, coarse, BucketKey(coarse(h.start), h.metric));
    KeysMembers(s, coarse, BucketKey(coarse(h.start), h.metric));
  }

  lemma HoursNestInDays()
    ensures Nests(Starts(Hour), Starts(Day))
  {
    forall t ensures Starts(Day)(Starts(Hour)(t)) == Starts(Day)(t) {
      BucketsNest(t);
    }
  }

  ghost predicate RowIsItsParts(row: FlowAggregate, rows: Flows, parts: set<BucketKey>) {
    && row.amount == SumOver(parts, AmountAt(rows))
    && row.eventCount == SumOver(parts, CountAt(rows))
    && row.uniqueParticipants <= SumOver(parts, ParticipantsAt(rows))
    && forall h :: h in parts && h in rows ==> rows[h].uniqueParticipants <= row.uniqueParticipants
  }

  lemma WholeIsItsParts(s: seq<EconomicEvent>, parts: set<BucketKey>, fine: int -> int, k: BucketKey,
                        coarse: int -> int)
    requires FirstMissing(s).None? && Nests(fine, coarse) && AreParts(s, parts, fine, k, coarse)
    ensures RowIsItsParts(Row(s, coarse, k), AggregatedBy(s, fine).value, parts)
  {
    var rows := AggregatedBy(s, fine).value;
    TotalIsItsParts(s, parts, fine, k, coarse, Amounts);
    SumOverSame(parts, TotalAt(s, Amounts, fine), AmountAt(rows));
    TotalIsItsParts(s, parts, fine, k, coarse, Events);
    SumOverSame(parts, TotalAt(s, Events, fine), CountAt(rows));
    ParticipantsAreTheParts(s, parts, fine, k, coarse);
    UnionBound(parts, h => Participants(s, fine, h), ParticipantsAt(rows), Participants(s, coarse, k));
    forall h | h in parts ensures rows[h].uniqueParticipants <= |Participants(s, coarse, k)| {
      SubsetCount(Participants(s, fine, h), Participants(s, coarse, k));
    }
  }

  /** Each day's amount and event count are the sums over that day's hourly rows; its unique participants are at least
      any hour's and at most the hours' together; and every hourly row lies in a daily row. */
  lemma DaysAreTheirHours(s: seq<EconomicEvent>)
    requires Aggregated(s, Day).Success?
    ensures Aggregated(s, Hour).Success?
    ensures var days, hours := Aggregated(s, Day).value, Aggregated(s, Hour).value;
            && (forall d :: d in days ==> RowIsItsParts(days[d], hours, HoursOf(hours, d)))
            && (forall h :: h in hours ==> BucketKey(BucketStart(h.start, Day), h.metric) in days)
  {
    var days, hours := Aggregated(s, Day).value, Aggregated(s, Hour).value;
    HoursNestInDays();
    forall d | d in days ensures RowIsItsParts(days[d], hours, HoursOf(hours, d)) {
      WholeIsItsParts(s, HoursOf(hours, d), Starts(Hour), d, Starts(Day));
    }
    forall h | h in hours ensures BucketKey(BucketStart(h.start, Day), h.metric) in days {
      EveryPartHasItsWhole(s, h, Starts(Hour), Starts(Day));
    }
  }

  lemma RowsTotal(s: seq<EconomicEvent>, at: int -> int)
    requires FirstMissing(s).None?
    ensures var rows := AggregatedBy(s, at).value;
            && SumOver(rows.Keys, AmountAt(rows)) == Sum(s, NativeWorth(Amounts))
            && SumOver(rows.Keys, CountAt(rows)) == Sum(s, NativeWorth(Events))
  {
    var rows := AggregatedBy(s, at).value;
    forall e | e in s && e.metric.Some? ensures BucketOf(e, at) in rows.Keys {
      assert InBucket(e, at, BucketOf(e, at));
      KeysMembers(s, at, BucketOf(e, at));
    }
    BucketsPartition(s, rows.Keys, Amounts, at, NativeWorth(Amounts));
    SumOverSame(rows.Keys, TotalAt(s, Amounts, at), AmountAt(rows));
    BucketsPartition(s, rows.Keys, Events, at, NativeWorth(Events));
    SumOverSame(rows.Keys, TotalAt(s, Events, at), CountAt(rows));
  }

  /** At either granularity the rows together hold exactly the native flows' amounts and their number. */
  lemma GrandTotal(s: seq<EconomicEvent>, granularity: Granularity)
    requires Aggregated(s, granularity).Success?
    ensures var rows := Aggregated(s, granularity).value;
            && SumOver(rows.Keys, AmountAt(rows)) == Sum(s, NativeWorth(Amounts))
            && SumOver(rows.Keys, CountAt(rows)) == Sum(s, NativeWorth(Events))
  {
    RowsTotal(s, Starts(granularity));
  }

  lemma RowForgetsInputOrder(s: seq<EconomicEvent>, t: seq<EconomicEvent>, at: int -> int, k: BucketKey)
    requires multiset(s) == multiset(t) && forall e :: e in s <==> e in t
    ensures Row(s, at, k) == Row(t, at, k)
  {
    SumPermutation(s, t, WorthIn(Amounts, at, k));
    SumPermutation(s, t, WorthIn(Events, at, k));
    forall p ensures p in Participants(s, at, k) <==> p in Participants(t, at, k) {
      ParticipantsMembers(s, at, k, p);
      ParticipantsMembers(t, at, k, p);
    }
    assert Participants(s, at, k) == Participants(t, at, k);
  }

  lemma SameKeys(s: seq<EconomicEvent>, t: seq<EconomicEvent>, at: int -> int)
    requires forall e :: e in s <==> e in t
    ensures Keys(s, at) == Keys(t, at)
  {
    forall k ensures k in Keys(s, at) <==> k in Keys(t, at) {
      KeysMembers(s, at, k);
      KeysMembers(t, at, k);
    }
  }

  lemma RowsForgetInputOrder(s: seq<EconomicEvent>, t: seq<EconomicEvent>, at: int -> int)
    requires multiset(s) == multiset(t)
    ensures AggregatedBy(s, at).Success? <==> AggregatedBy(t, at).Success?
    ensures AggregatedBy(s, at).Success? ==> AggregatedBy(s, at) == AggregatedBy(t, at)
  {
    SameElements(s, t);
    NoneMissing(s);
    NoneMissing(t);
    if FirstMissing(s).None? {
      SameKeys(s, t, at);
      forall k ensures Row(s, at, k) == Row(t, at, k) {
        RowForgetsInputOrder(s, t, at, k);
      }
      SameMap(AggregatedBy(s, at).value, AggregatedBy(t, at).value);
    }
  }

  /** The aggregation succeeds for one order of the events exactly when it does for every order, with the same rows. */
  lemma FlowsForgetInputOrder(s: seq<EconomicEvent>, t: seq<EconomicEvent>, granularity: Granularity)
    requires multiset(s) == multiset(t)
    ensures Aggregated(s, granularity).Success? <==> Aggregated(t, granularity).Success?
    ensures Aggregated(s, granularity).Success? ==> Aggregated(s, granularity) == Aggregated(t, granularity)
  {
    RowsForgetInputOrder(s, t, Starts(granularity));
  }

  // The rows in plain terms.

  function Width(granularity: Granularity): int { if granularity.Hour? then 3_600_000 else 24 * 3_600_000 }

  /** The event is a flow of the row's metric that happened in the row's hour or day. */
  predicate Belongs(e: EconomicEvent, k: BucketKey, granularity: Granularity) {
    && e.metric == Some(k.metric) && k.start % Width(granularity) == 0
    && k.start <= e.timestamp < k.start + Width(granularity)
  }

  lemma AlignedIsUnique(x: int, y: int, t: int, granularity: Granularity)
    requires x % Width(granularity) == 0 && y % Width(granularity) == 0
    requires x <= t < x + Width(granularity) && y <= t < y + Width(granularity)
    ensures x == y
  {
    if granularity.Hour? {
      assert x / 3_600_000 == y / 3_600_000;
    } else {
      assert x / 86_400_000 == y / 86_400_000;
    }
  }

  lemma BelongsExactlyWhen(e: EconomicEvent, k: BucketKey, granularity: Granularity)
    ensures InBucket(e, Starts(granularity), k) <==> Belongs(e, k, granularity)
  {
    var start := BucketStart(e.timestamp, granularity);
    if Belongs(e, k, granularity) {
      AlignedIsUnique(start, k.start, e.timestamp, granularity);
    }
  }

  function AmountIfIn(k: BucketKey, granularity: Granularity): EconomicEvent -> int {
    (e: EconomicEvent) => if Belongs(e, k, granularity) && e.amount.Some? then e.amount.value else 0
  }

  function OneIfIn(k: BucketKey, granularity: Granularity): EconomicEvent -> int {
    (e: EconomicEvent) => if Belongs(e, k, granularity) then 1 else 0
  }

  lemma {:induction false} TotalsInPlainTerms(s: seq<EconomicEvent>, k: BucketKey, granularity: Granularity)
    ensures Total(s, Amounts, Starts(granularity), k) == Sum(s, AmountIfIn(k, granularity))
    ensures Total(s, Events, Starts(granularity), k) == Sum(s, OneIfIn(k, granularity))
  {
    if s != [] {
      TotalsInPlainTerms(s[..|s| - 1], k, granularity);
      BelongsExactlyWhen(s[|s| - 1], k, granularity);
    }
  }

  /** The named participants of the row's flows. */
  function NamesIn(s: seq<EconomicEvent>, k: BucketKey, granularity: Granularity): set<string> {
    set e | e in s && Belongs(e, k, granularity) && e.primaryParticipant.Some? && |e.primaryParticipant.value| > 0 ::
      e.primaryParticipant.value
  }

  lemma ParticipantsAreNames(s: seq<EconomicEvent>, k: BucketKey, granularity: Granularity)
    ensures Participants(s, Starts(granularity), k) == NamesIn(s, k, granularity)
  {
    forall p ensures p in Participants(s, Starts(granularity), k) <==> p in NamesIn(s, k, granularity) {
      ParticipantsMembers(s, Starts(granularity), k, p);
      forall e | e in s ensures InBucket(e, Starts(granularity), k) <==> Belongs(e, k, granularity) {
        BelongsExactlyWhen(e, k, granularity);
      }
      if p in NamesIn(s, k, granularity) {
        var e :| e in s && Belongs(e, k, granularity) && e.primaryParticipant == Some(p) && |p| > 0;
        assert p in ParticipantOf(e);
      }
    }
  }

  /** There is a row exactly where some flow belongs, with the sum of the amounts, the number of the flows, and the
      number of their named participants. */
  lemma RowsInPlainTerms(s: seq<EconomicEvent>, granularity: Granularity, k: BucketKey)
    requires Aggregated(s, granularity).Success?
    ensures var rows := Aggregated(s, granularity).value;
            && (k in rows <==> exists e :: e in s && Belongs(e, k, granularity))
            && (k in rows ==>
                  && rows[k].amount == Sum(s, AmountIfIn(k, granularity))
                  && rows[k].eventCount == Sum(s, OneIfIn(k, granularity))
                  && rows[k].uniqueParticipants == |NamesIn(s, k, granularity)|)
  {
    KeysMembers(s, Starts(granularity), k);
    forall e | e in s ensures InBucket(e, Starts(granularity), k) <==> Belongs(e, k, granularity) {
      BelongsExactlyWhen(e, k, granularity);
    }
    TotalsInPlainTerms(s, k, granularity);
    ParticipantsAreNames(s, k, granularity);
  }

  lemma {:induction false} MissingIsFirst(s: seq<EconomicEvent>, i: nat)
    requires i < |s| && s[i].metric.Some? && s[i].amount.None?
    requires forall j :: 0 <= j < i ==> s[j].metric.None? || s[j].amount.Some?
    ensures FirstMissing(s) == s[i].metric
    decreases |s|
  {
    if i < |s| - 1 {
      MissingIsFirst(s[..|s| - 1], i);
    } else {
      NothingMissing(s[..i]);
    }
  }

  lemma {:induction false} NothingMissing(s: seq<EconomicEvent>)
    requires forall j :: 0 <= j < |s| ==> s[j].metric.None? || s[j].amount.Some?
    ensures FirstMissing(s).None?
  {
    if s != [] {
      NothingMissing(s[..|s| - 1]);
    }
  }

  /** The aggregation throws exactly when a native flow lacks its amount, and names the metric of the first one. */
  lemma FirstMissingAmountThrows(s: seq<EconomicEvent>, granularity: Granularity, i: nat)
    ensures (forall j :: 0 <= j < |s| ==> s[j].metric.None? || s[j].amount.Some?) ==>
              Aggregated(s, granularity).Success?
    ensures i < |s| && s[i].metric.Some? && s[i].amount.None?
            && (forall j :: 0 <= j < i ==> s[j].metric.None? || s[j].amount.Some?) ==>
              Aggregated(s, granularity) == Failure(s[i].metric.value)
  {
    if forall j :: 0 <= j < |s| ==> s[j].metric.None? || s[j].amount.Some? {
      NothingMissing(s);
    }
    if i < |s| && s[i].metric.Some? && s[i].amount.None?
       && forall j :: 0 <= j < i ==> s[j].metric.None? || s[j].amount.Some?
    {
      MissingIsFirst(s, i);
    }
  }
}
