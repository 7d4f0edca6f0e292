/** Classifying protocol events transaction by transaction. */
module EventClassification {
  import opened Wrappers
  import opened Sequences
  import opened Sorting
  import opened Text
  import opened NativeFlows

  datatype ProtocolEvent = ProtocolEvent(
    transactionHash: string, logIndex: int, timestamp: int, contractRole: string, eventName: string, payload: string)

  /** A classified event keeps the event it came from. */
  datatype ClassifiedEvent = ClassifiedEvent(
    source: ProtocolEvent, economic: EconomicEvent, transactionEventCount: nat, transactionEventNames: seq<string>)

  /** What the classifier makes of one event: it may throw, pass over the event, or classify it. */
  datatype Verdict = Malformed | Unrecognised | Economic(event: EconomicEvent)

  type Classifier = ProtocolEvent -> Verdict

  function Normalized(e: ProtocolEvent): ProtocolEvent { e.(transactionHash := Lowered(e.transactionHash)) }

  const NORMALIZE: ProtocolEvent -> seq<ProtocolEvent> := (e: ProtocolEvent) => [Normalized(e)]

  function NormalizedAll(events: seq<ProtocolEvent>): seq<ProtocolEvent> { FlatMap(events, NORMALIZE) }

  const BY_LOG_INDEX: (ProtocolEvent, ProtocolEvent) -> bool :=
    (x: ProtocolEvent, y: ProtocolEvent) => x.logIndex <= y.logIndex

  // Transactions.

  /** The distinct hashes in order of first appearance. */
  function Hashes(s: seq<ProtocolEvent>): seq<string> {
    if s == [] then [] else
      var before, h := Hashes(s[..|s| - 1]), s[|s| - 1].transactionHash;
      if h in before then before else before + [h]
  }

  function Group(s: seq<ProtocolEvent>, h: string): seq<ProtocolEvent> {
    if s == [] then [] else
      Group(s[..|s| - 1], h) + if s[|s| - 1].transactionHash == h then [s[|s| - 1]] else []
  }

  function Transaction(s: seq<ProtocolEvent>, h: string): seq<ProtocolEvent> { StableSort(Group(s, h), BY_LOG_INDEX) }

  function TransactionIn(s: seq<ProtocolEvent>): string -> seq<ProtocolEvent> { (h: string) => Transaction(s, h) }

  function NameOf(e: ProtocolEvent): string { e.contractRole + ":" + e.eventName }

  function Names(t: seq<ProtocolEvent>): seq<string> { seq(|t|, i requires 0 <= i < |t| => NameOf(t[i])) }

  // The specification.

  function Emit(t: seq<ProtocolEvent>, s: seq<ProtocolEvent>,
                classify: Classifier): Result<seq<ClassifiedEvent>, ProtocolEvent>
  {
    if s == [] then Success([]) else
      var before, e := Emit(t, s[..|s| - 1], classify), s[|s| - 1];
      if before.Failure? then before
      else if classify(e).Malformed? then Failure(e)
      else if classify(e).Unrecognised? then before
      else Success(before.value + [ClassifiedEvent(e, classify(e).event, |t|, Names(t))])
  }

  function EmitAll(s: seq<ProtocolEvent>, hashes: seq<string>,
                   classify: Classifier): Result<seq<ClassifiedEvent>, ProtocolEvent>
  {
    if hashes == [] then Success([]) else
      var before, t := EmitAll(s, hashes[..|hashes| - 1], classify), Transaction(s, hashes[|hashes| - 1]);
      if before.Failure? then before
      else if Emit(t, t, classify).Failure? then Emit(t, t, classify)
      else Success(before.value + Emit(t, t, classify).value)
  }

  function Classified(events: seq<ProtocolEvent>, classify: Classifier): Result<seq<ClassifiedEvent>, ProtocolEvent> {
    var s := NormalizedAll(events);
    EmitAll(s, Hashes(s), classify)
  }

  // The loops.

  lemma {:induction false} EmitFails(t: seq<ProtocolEvent>, s: seq<ProtocolEvent>, classify: Classifier, i: nat)
    requires i <= |s| && Emit(t, s[..i], classify).Failure?
    ensures Emit(t, s, classify) == Emit(t, s[..i], classify)
    decreases |s| - i
  {
    if i == |s| {
      assert s[..i] == s;
    } else {
      assert s[..i + 1][..i] == s[..i];
      EmitFails(t, s, classify, i + 1);
    }
  }

  lemma {:induction false} EmitAllFails(s: seq<ProtocolEvent>, hashes: seq<string>, classify: Classifier, i: nat)
    requires i <= |hashes| && EmitAll(s, hashes[..i], classify).Failure?
    ensures EmitAll(s, hashes, classify) == EmitAll(s, hashes[..i], classify)
    decreases |hashes| - i
  {
    if i == |hashes| {
      assert hashes[..i] == hashes;
    } else {
      assert hashes[..i + 1][..i] == hashes[..i];
      EmitAllFails(s, hashes, classify, i + 1);
    }
  }

  method ClassifyTransaction(transaction: seq<ProtocolEvent>, classify: Classifier)
    returns (r: Result<seq<ClassifiedEvent>, ProtocolEvent>)
    ensures r == Emit(transaction, transaction, classify)
  {
    var transactionEventNames := Names(transaction);
    var emitted: seq<ClassifiedEvent> := [];
    for i := 0 to |transaction|
      invariant Emit(transaction, transaction[..i], classify) == Success(emitted)
    {
      assert transaction[..i + 1][..i] == transaction[..i];
      var classified := classify(transaction[i]);
      if classified.Malformed? {
        EmitFails(transaction, transaction, classify, i + 1);
        return Failure(transaction[i]);
      }
      if classified.Economic? {
        emitted := emitted + [ClassifiedEvent(transaction[i], classified.event, |transaction|, transactionEventNames)];
      }
    }
    assert transaction[..|transaction|] == transaction;
    return Success(emitted);
  }

  /** The state of the grouping loop: a map from hash to events, and the order in which the hashes first came. */
  ghost predicate Grouped(s: seq<ProtocolEvent>, order: seq<string>, transactions: map<string, seq<ProtocolEvent>>) {
    && order == Hashes(s)
    && (forall h :: h in transactions <==> h in order)
    && (forall h :: h in transactions ==> transactions[h] == Group(s, h))
  }

  method AddToTransaction(ghost before: seq<ProtocolEvent>, event: ProtocolEvent, order: seq<string>,
                          transactions: map<string, seq<ProtocolEvent>>)
    returns (newOrder: seq<string>, grouped: map<string, seq<ProtocolEvent>>)
    requires Grouped(before, order, transactions)
    ensures Grouped(before + [event], newOrder, grouped)
  {
    GroupsSnoc(before, event);
    newOrder := order;
    var transaction := [];
    if event.transactionHash in transactions {
      transaction := transactions[event.transactionHash];
    } else {
      StrangerGroup(before, event.transactionHash);
      newOrder := newOrder + [event.transactionHash];
    }
    grouped := transactions[event.transactionHash := transaction + [event]];
  }

  method GroupTransactions(events: seq<ProtocolEvent>)
    returns (order: seq<string>, transactions: map<string, seq<ProtocolEvent>>)
    ensures Grouped(NormalizedAll(events), order, transactions)
  {
    order, transactions := [], map[];
    for i := 0 to |events|
      invariant Grouped(NormalizedAll(events[..i]), order, transactions)
    {
      assert events[..i + 1] == events[..i] + [events[i]];
      FlatMapSnoc(events[..i], events[i], NORMALIZE);
      order, transactions := AddToTransaction(NormalizedAll(events[..i]), Normalized(events[i]), order, transactions);
    }
    assert events[..|events|] == events;
  }

  lemma GroupsSnoc(s: seq<ProtocolEvent>, e: ProtocolEvent)
    ensures forall h :: Group(s + [e], h) == Group(s, h) + if e.transactionHash == h then [e] else []
    ensures Hashes(s + [e]) == if e.transactionHash in Hashes(s) then Hashes(s) else Hashes(s) + [e.transactionHash]
  {
    assert (s + [e])[..|s|] == s;
  }

  lemma {:induction false} StrangerGroup(s: seq<ProtocolEvent>, h: string)
    requires h !in Hashes(s)
    ensures Group(s, h) == []
  {
    if s != [] {
      StrangerGroup(s[..|s| - 1], h);
    }
  }

  lemma EmitAllSnoc(s: seq<ProtocolEvent>, hashes: seq<string>, i: nat, classify: Classifier)
    requires i < |hashes| && EmitAll(s, hashes[..i], classify).Success?
    ensures var t := Transaction(s, hashes[i]);
            EmitAll(s, hashes[..i + 1], classify) == if Emit(t, t, classify).Failure? then Emit(t, t, classify)
              else Success(EmitAll(s, hashes[..i], classify).value + Emit(t, t, classify).value)
  {
    assert hashes[..i + 1][..i] == hashes[..i];
  }

  /** Groups by transaction, sorts each by log index, and keeps what the classifier recognises. */
  method ClassifyProtocolTransactions(events: seq<ProtocolEvent>, classify: Classifier)
    returns (r: Result<seq<ClassifiedEvent>, ProtocolEvent>)
    ensures r == Classified(events, classify)
  {
    var order, transactions := GroupTransactions(events);
    ghost var s := NormalizedAll(events);
    var emitted: seq<ClassifiedEvent> := [];
    for i := 0 to |order|
      invariant EmitAll(s, order[..i], classify) == Success(emitted)
    {
      assert order[i] in order;
      EmitAllSnoc(s, order, i, classify);
      var transaction := StableSort(transactions[order[i]], BY_LOG_INDEX);
      var classified := ClassifyTransaction(transaction, classify);
      if classified.Failure? {
        EmitAllFails(s, order, classify, i + 1);
        return classified;
      }
      emitted := emitted + classified.value;
    }
    assert order[..|order|] == order;
    return Success(emitted);
  }

  // What grouping loses: nothing.

  function Economics(s: seq<ClassifiedEvent>): seq<EconomicEvent> { seq(|s|, i requires 0 <= i < |s| => s[i].economic) }

  function KeepBy(classify: Classifier): ProtocolEvent -> seq<EconomicEvent> {
    (e: ProtocolEvent) => if classify(e).Economic? then [classify(e).event] else []
  }

  /** The reference: each event classified where it stands, without transactions. */
  function Direct(events: seq<ProtocolEvent>, classify: Classifier): seq<EconomicEvent> {
    FlatMap(NormalizedAll(events), KeepBy(classify))
  }

  predicate WellFormed(s: seq<ProtocolEvent>, classify: Classifier) { forall e :: e in s ==> !classify(e).Malformed? }

  lemma WellFormedConcat(s: seq<ProtocolEvent>, t: seq<ProtocolEvent>, classify: Classifier)
    ensures WellFormed(s + t, classify) <==> WellFormed(s, classify) && WellFormed(t, classify)
  {
    assert forall e :: e in s + t <==> e in s || e in t;
  }

  lemma EconomicsConcat(s: seq<ClassifiedEvent>, t: seq<ClassifiedEvent>)
    ensures Economics(s + t) == Economics(s) + Economics(t)
  {
  }

  /** `r` throws exactly when some event of `flat` is malformed, and otherwise holds what classifying them keeps. */
  ghost predicate Emits(r: Result<seq<ClassifiedEvent>, ProtocolEvent>, flat: seq<ProtocolEvent>,
                        classify: Classifier)
  {
    && (r.Success? <==> WellFormed(flat, classify))
    && (r.Success? ==> Economics(r.value) == FlatMap(flat, KeepBy(classify)))
  }

  lemma EmitsConcat(r: Result<seq<ClassifiedEvent>, ProtocolEvent>, flat: seq<ProtocolEvent>,
                    more: Result<seq<ClassifiedEvent>, ProtocolEvent>, t: seq<ProtocolEvent>, classify: Classifier)
    requires Emits(r, flat, classify) && Emits(more, t, classify)
    ensures Emits(if r.Failure? then r else if more.Failure? then more else Success(r.value + more.value),
                  flat + t, classify)
  {
    WellFormedConcat(flat, t, classify);
    FlatMapConcat(flat, t, KeepBy(classify));
    if r.Success? && more.Success? {
      EconomicsConcat(r.value, more.value);
    }
  }

  lemma {:induction false} EmitMeaning(t: seq<ProtocolEvent>, s: seq<ProtocolEvent>, classify: Classifier)
    ensures Emits(Emit(t, s, classify), s, classify)
  {
    if s != [] {
      var init, e := s[..|s| - 1], s[|s| - 1];
      EmitMeaning(t, init, classify);
      assert s == init + [e];
      WellFormedConcat(init, [e], classify);
      if Emit(t, s, classify).Success? && classify(e).Economic? {
        EconomicsConcat(Emit(t, init, classify).value, [ClassifiedEvent(e, classify(e).event, |t|, Names(t))]);
      }
    }
  }

  lemma {:induction false} EmitAllMeaning(s: seq<ProtocolEvent>, hashes: seq<string>, classify: Classifier)
    ensures Emits(EmitAll(s, hashes, classify), FlatMap(hashes, TransactionIn(s)), classify)
  {
    if hashes != [] {
      var init, h := hashes[..|hashes| - 1], hashes[|hashes| - 1];
      var t := Transaction(s, h);
      EmitAllMeaning(s, init, classify);
      EmitMeaning(t, t, classify);
      EmitsConcat(EmitAll(s, init, classify), FlatMap(init, TransactionIn(s)), Emit(t, t, classify), t, classify);
    }
  }

  lemma {:induction false} GroupCounts(s: seq<ProtocolEvent>, h: string, x: ProtocolEvent)
    ensures multiset(Group(s, h))[x] == if x.transactionHash == h then multiset(s)[x] else 0
  {
    if s != [] {
      var init, last := s[..|s| - 1], s[|s| - 1];
      GroupCounts(init, h, x);
      assert s == init + [last];
    }
  }

  predicate Distinct(hashes: seq<string>) { forall i, j :: 0 <= i < j < |hashes| ==> hashes[i] != hashes[j] }

  lemma {:induction false} FlatCounts(s: seq<ProtocolEvent>, hashes: seq<string>, x: ProtocolEvent)
    requires Distinct(hashes)
    ensures multiset(FlatMap(hashes, TransactionIn(s)))[x] == if x.transactionHash in hashes then multiset(s)[x] else 0
  {
    if hashes != [] {
      var init, h := hashes[..|hashes| - 1], hashes[|hashes| - 1];
      FlatCounts(s, init, x);
      GroupCounts(s, h, x);
      assert hashes == init + [h] && h !in init;
    }
  }

  lemma {:induction false} HashesCover(s: seq<ProtocolEvent>)
    ensures Distinct(Hashes(s))
    ensures forall e :: e in s ==> e.transactionHash in Hashes(s)
  {
    if s != [] {
      HashesCover(s[..|s| - 1]);
      assert s == s[..|s| - 1] + [s[|s| - 1]];
    }
  }

  lemma GroupingPermutes(s: seq<ProtocolEvent>)
    ensures multiset(FlatMap(Hashes(s), TransactionIn(s))) == multiset(s)
  {
    HashesCover(s);
    forall x ensures multiset(FlatMap(Hashes(s), TransactionIn(s)))[x] == multiset(s)[x] {
      FlatCounts(s, Hashes(s), x);
      if multiset(s)[x] > 0 {
        assert x in s;
      }
    }
  }

  /** Grouping, sorting and flattening lose and invent nothing: the classification throws exactly when some event is
      malformed, and otherwise emits what classifying each event where it stands would, in some order. */
  lemma GroupingKeepsEveryEvent(events: seq<ProtocolEvent>, classify: Classifier)
    ensures Classified(events, classify).Success? <==> WellFormed(NormalizedAll(events), classify)
    ensures Classified(events, classify).Success? ==>
              multiset(Economics(Classified(events, classify).value)) == multiset(Direct(events, classify))
  {
    var s := NormalizedAll(events);
    var flat := FlatMap(Hashes(s), TransactionIn(s));
    EmitAllMeaning(s, Hashes(s), classify);
    GroupingPermutes(s);
    SameElements(flat, s);
    FlatMapPermutation(flat, s, KeepBy(classify));
  }

  predicate InLogOrder(t: seq<ProtocolEvent>) { forall i, j :: 0 <= i < j < |t| ==> t[i].logIndex <= t[j].logIndex }

  /** The emitted events come transaction by transaction, in order of first appearance, and inside one in log order. */
  lemma TransactionsStayTogether(events: seq<ProtocolEvent>, classify: Classifier)
    requires Classified(events, classify).Success?
    ensures var s := NormalizedAll(events);
            && Economics(Classified(events, classify).value)
               == FlatMap(FlatMap(Hashes(s), TransactionIn(s)), KeepBy(classify))
            && Distinct(Hashes(s))
            && forall h :: InLogOrder(TransactionIn(s)(h)) && multiset(TransactionIn(s)(h)) == multiset(Group(s, h))
  {
    var s := NormalizedAll(events);
    EmitAllMeaning(s, Hashes(s), classify);
    HashesCover(s);
    forall h ensures InLogOrder(TransactionIn(s)(h)) {
      StableSortSorts(Group(s, h), BY_LOG_INDEX);
      var t := TransactionIn(s)(h);
      forall i, j | 0 <= i < j < |t| ensures t[i].logIndex <= t[j].logIndex {
        assert BY_LOG_INDEX(t[i], t[j]);
      }
    }
  }

  lemma {:induction false} EmittedContext(t: seq<ProtocolEvent>, s: seq<ProtocolEvent>, classify: Classifier)
    requires Emit(t, s, classify).Success?
    ensures forall c :: c in Emit(t, s, classify).value ==>
              && c.source in s && classify(c.source) == Economic(c.economic)
              && c.transactionEventCount == |t| && c.transactionEventNames == Names(t)
  {
    if s != [] {
      EmittedContext(t, s[..|s| - 1], classify);
    }
  }

  lemma {:induction false} GroupMembers(s: seq<ProtocolEvent>, h: string, e: ProtocolEvent)
    ensures e in Group(s, h) <==> e in s && e.transactionHash == h
  {
    if s != [] {
      var init, last := s[..|s| - 1], s[|s| - 1];
      assert s == init + [last];
      GroupMembers(init, h, e);
    }
  }

  /** An emitted event is one of the given events, classified as the classifier says, and carries the number and the
      names of exactly its own transaction's events, in log order. */
  ghost predicate KnowsItsTransaction(s: seq<ProtocolEvent>, classify: Classifier, c: ClassifiedEvent) {
    && c.source in s && classify(c.source) == Economic(c.economic)
    && c.transactionEventNames == Names(Transaction(s, c.source.transactionHash))
    && c.transactionEventCount == |Group(s, c.source.transactionHash)|
  }

  lemma {:induction false} EmittedKnow(s: seq<ProtocolEvent>, hashes: seq<string>, classify: Classifier)
    requires EmitAll(s, hashes, classify).Success?
    ensures forall c :: c in EmitAll(s, hashes, classify).value ==> KnowsItsTransaction(s, classify, c)
  {
    if hashes != [] {
      var init, h := hashes[..|hashes| - 1], hashes[|hashes| - 1];
      var t := Transaction(s, h);
      EmittedKnow(s, init, classify);
      EmittedContext(t, t, classify);
      forall c | c in Emit(t, t, classify).value ensures KnowsItsTransaction(s, classify, c) {
        SameElements(t, Group(s, h));
        GroupMembers(s, h, c.source);
      }
    }
  }

  lemma EventsKnowTheirTransaction(events: seq<ProtocolEvent>, classify: Classifier)
    requires Classified(events, classify).Success?
    ensures forall c :: c in Classified(events, classify).value ==>
              KnowsItsTransaction(NormalizedAll(events), classify, c)
  {
    EmittedKnow(NormalizedAll(events), Hashes(NormalizedAll(events)), classify);
  }

  /** The flow rows do not depend on the order in which events arrive, nor on how transactions group them. */
  lemma FlowsForgetTransactions(events: seq<ProtocolEvent>, shuffled: seq<ProtocolEvent>, classify: Classifier,
                                granularity: Granularity)
    requires multiset(events) == multiset(shuffled)
    ensures Classified(events, classify).Success? <==> Classified(shuffled, classify).Success?
    ensures Classified(events, classify).Success? ==>
              var grouped, regrouped, direct := Aggregated(Economics(Classified(events, classify).value), granularity),
                Aggregated(Economics(Classified(shuffled, classify).value), granularity),
                Aggregated(Direct(events, classify), granularity);
              && (grouped.Success? <==> direct.Success?) && (regrouped.Success? <==> direct.Success?)
              && (direct.Success? ==> grouped == regrouped == direct)
  {
    GroupingKeepsEveryEvent(events, classify);
    GroupingKeepsEveryEvent(shuffled, classify);
    FlatMapPermutation(events, shuffled, NORMALIZE);
    SameElements(NormalizedAll(events), NormalizedAll(shuffled));
    FlatMapPermutation(NormalizedAll(events), NormalizedAll(shuffled), KeepBy(classify));
    if Classified(events, classify).Success? {
      var direct := Direct(events, classify);
      FlowsForgetInputOrder(Economics(Classified(events, classify).value), direct, granularity);
      FlowsForgetInputOrder(Economics(Classified(shuffled, classify).value), direct, granularity);
    }
  }
}
