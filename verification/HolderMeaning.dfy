/** What a replay's rows and counters say about the transfers themselves, in plain sums and sets. */
module HolderMeaning {
  import opened Wrappers
  import opened Sorting
  import opened Sums
  import opened Text
  import opened HolderReplay

  // Sums.

  function Received(k: HolderKey): Transfer -> int {
    (e: Transfer) => if e.asset == k.asset && Lowered(e.recipient) == k.holder then e.value else 0
  }

  function Sent(k: HolderKey): Transfer -> int {
    (e: Transfer) => if e.asset == k.asset && Lowered(e.sender) == k.holder then e.value else 0
  }

  predicate Between(e: Transfer, asset: AssetId) {
    && e.asset == asset
    && Lowered(e.sender) != "0x0000000000000000000000000000000000000000"
    && Lowered(e.recipient) != "0x0000000000000000000000000000000000000000"
  }

  function VolumeBetween(asset: AssetId): Transfer -> int {
    (e: Transfer) => if Between(e, asset) then e.value else 0
  }

  function OneBetween(asset: AssetId): Transfer -> int { (e: Transfer) => if Between(e, asset) then 1 else 0 }

  lemma {:induction false} FlowsAreSums(s: seq<Transfer>, k: HolderKey)
    ensures Inflow(s, k) == Sum(s, Received(k)) && Outflow(s, k) == Sum(s, Sent(k))
  {
    if s != [] {
      FlowsAreSums(s[..|s| - 1], k);
    }
  }

  lemma {:induction false} VolumesAreSums(s: seq<Transfer>, asset: AssetId)
    ensures var zero := HolderKey(asset, "0x0000000000000000000000000000000000000000");
            && Minted(s, asset) == Sum(s, Sent(zero)) && Burned(s, asset) == Sum(s, Received(zero))
            && PeerVolume(s, asset) == Sum(s, VolumeBetween(asset)) && PeerCount(s, asset) == Sum(s, OneBetween(asset))
  {
    if s != [] {
      VolumesAreSums(s[..|s| - 1], asset);
    }
  }

  // Parties.

  ghost predicate Sends(s: seq<Transfer>, asset: AssetId, a: string) {
    exists e :: e in s && e.asset == asset && Lowered(e.sender) == a
  }

  ghost predicate Receives(s: seq<Transfer>, asset: AssetId, a: string) {
    exists e :: e in s && e.asset == asset && Lowered(e.recipient) == a
  }

  lemma {:induction false} PartiesArePlain(s: seq<Transfer>, asset: AssetId, a: string)
    ensures a in Senders(s, asset) <==> a != "0x0000000000000000000000000000000000000000" && Sends(s, asset, a)
    ensures a in Receivers(s, asset) <==> a != "0x0000000000000000000000000000000000000000" && Receives(s, asset, a)
  {
    if s != [] {
      var init, last := s[..|s| - 1], s[|s| - 1];
      PartiesArePlain(init, asset, a);
      assert forall e :: e in s <==> e in init || e == last by {
        assert s == init + [last];
      }
    }
  }

  // Times and blocks.

  lemma {:induction false} WindowIsTight(s: seq<Transfer>, asset: AssetId)
    requires Mentions(s, asset)
    ensures exists e :: e in s && e.asset == asset && e.timestamp == WindowStart(s, asset)
    ensures exists e :: e in s && e.asset == asset && e.timestamp == WindowEnd(s, asset)
    ensures forall e :: e in s && e.asset == asset ==> WindowStart(s, asset) <= e.timestamp <= WindowEnd(s, asset)
    decreases |s|
  {
    var init, last := s[..|s| - 1], s[|s| - 1];
    assert s == init + [last];
    MentionsSnoc(init, last, asset);
    if Mentions(init, asset) {
      WindowIsTight(init, asset);
      var d :| d in init && d.asset == asset && d.timestamp == WindowStart(init, asset);
      var e :| e in init && e.asset == asset && e.timestamp == WindowEnd(init, asset);
      assert d in s && e in s && last in s;
    } else {
      forall e | e in init ensures e.asset != asset {
        var i :| 0 <= i < |init| && init[i] == e;
      }
      assert last in s;
    }
  }

  /** Transfer `i` is the first to leave the holder's balance positive. */
  ghost predicate TurnsPositiveAt(s: seq<Transfer>, k: HolderKey, i: nat) {
    && i < |s| && Inflow(s[..i + 1], k) > Outflow(s[..i + 1], k)
    && forall j :: 0 <= j <= i ==> Inflow(s[..j], k) <= Outflow(s[..j], k)
  }

  /** Transfer `i` is the last to send from or to the holder. */
  ghost predicate LastTouches(s: seq<Transfer>, k: HolderKey, i: nat) {
    && i < |s| && s[i].asset == k.asset && (Lowered(s[i].sender) == k.holder || Lowered(s[i].recipient) == k.holder)
    && forall j :: i < j < |s| ==>
         s[j].asset != k.asset || (Lowered(s[j].sender) != k.holder && Lowered(s[j].recipient) != k.holder)
  }

  lemma {:induction false} FirstPositiveMeans(s: seq<Transfer>, k: HolderKey) returns (i: nat)
    ensures FirstPositive(s, k).None? ==> forall j :: 0 <= j <= |s| ==> Inflow(s[..j], k) <= Outflow(s[..j], k)
    ensures FirstPositive(s, k).Some? ==> TurnsPositiveAt(s, k, i) && FirstPositive(s, k).value == s[i].blockNumber
  {
    i := 0;
    if s != [] {
      var n := |s| - 1;
      i := FirstPositiveMeans(s[..n], k);
      forall j | 0 <= j <= n ensures s[..n][..j] == s[..j] {
      }
      assert s[..n + 1] == s;
      if FirstPositive(s[..n], k).Some? {
        assert s[..n][..i + 1] == s[..i + 1];
      } else {
        i := n;
      }
    }
  }

  lemma {:induction false} LastTouchedMeans(s: seq<Transfer>, k: HolderKey, i: nat)
    requires LastTouches(s, k, i)
    ensures LastTouched(s, k) == s[i].blockNumber
  {
    if i < |s| - 1 {
      LastTouchedMeans(s[..|s| - 1], k, i);
    }
  }

  // The outcome.

  lemma {:induction false} SumsForgetOrder(s: seq<Transfer>, t: seq<Transfer>, k: HolderKey)
    requires multiset(s) == multiset(t)
    ensures Inflow(s, k) == Sum(t, Received(k)) && Outflow(s, k) == Sum(t, Sent(k))
  {
    FlowsAreSums(s, k);
    SumPermutation(s, t, Received(k));
    SumPermutation(s, t, Sent(k));
  }

  ghost predicate BlocksMean(s: seq<Transfer>, k: HolderKey, row: HolderState) {
    && (if row.firstPositiveBlock.Some? then
          exists i: nat :: TurnsPositiveAt(s, k, i) && row.firstPositiveBlock.value == s[i].blockNumber
        else forall j :: 0 <= j <= |s| ==> Inflow(s[..j], k) <= Outflow(s[..j], k))
    && forall i: nat :: LastTouches(s, k, i) ==> row.lastChangedBlock == s[i].blockNumber
  }

  lemma StateMeans(s: seq<Transfer>, k: HolderKey)
    ensures BlocksMean(s, k, StateOf(s, k))
  {
    var i := FirstPositiveMeans(s, k);
    forall j: nat | LastTouches(s, k, j) ensures LastTouched(s, k) == s[j].blockNumber {
      LastTouchedMeans(s, k, j);
    }
  }

  /** Every row of a successful replay: which holders have one, what it holds, and the blocks it names. */
  lemma RowsMean(events: seq<Transfer>, fallbackStart: int, fallbackEnd: int, k: HolderKey)
    requires Replayed(events, fallbackStart, fallbackEnd).Success?
    ensures var rows := Replayed(events, fallbackStart, fallbackEnd).value.balances;
            && (k in rows <==> k.holder != "0x0000000000000000000000000000000000000000"
                               && (Sends(events, k.asset, k.holder) || Receives(events, k.asset, k.holder)))
            && (k in rows ==>
                  && rows[k].balance == Sum(events, Received(k)) - Sum(events, Sent(k))
                  && BlocksMean(Ordered(events), k, rows[k]))
  {
    var s := Ordered(events);
    SameElements(s, events);
    PartiesArePlain(s, k.asset, k.holder);
    KeysAreHolders(s, k);
    SumsForgetOrder(s, events, k);
    StateMeans(s, k);
  }

  /** The holders whose balance is positive after some prefix of the replay, and those whose balance ends positive. */
  ghost predicate OncePositive(s: seq<Transfer>, asset: AssetId, h: string) {
    exists j :: 0 <= j <= |s| && Inflow(s[..j], HolderKey(asset, h)) > Outflow(s[..j], HolderKey(asset, h))
  }

  lemma NewHoldersMean(s: seq<Transfer>, asset: AssetId, h: string)
    ensures h in EverPositive(s, asset) <==> h in Holders(s, asset) && OncePositive(s, asset, h)
  {
    var i := FirstPositiveMeans(s, HolderKey(asset, h));
  }

  /** Every counter of a successful replay, over the transfers as they were given. */
  lemma CountersMean(events: seq<Transfer>, fallbackStart: int, fallbackEnd: int, asset: AssetId)
    requires Replayed(events, fallbackStart, fallbackEnd).Success?
    ensures var a, s := Replayed(events, fallbackStart, fallbackEnd).value.activity[asset], Ordered(events);
            var zero := HolderKey(asset, "0x0000000000000000000000000000000000000000");
            && a.mintedVolume == Sum(events, Sent(zero)) && a.burnedVolume == Sum(events, Received(zero))
            && a.transferVolume == Sum(events, VolumeBetween(asset))
            && a.transferCount == Sum(events, OneBetween(asset))
            && a.uniqueSenders == |Senders(s, asset)| && a.uniqueReceivers == |Receivers(s, asset)|
            && a.uniqueParticipants == |Senders(s, asset) + Receivers(s, asset)|
            && a.newHolders == |EverPositive(s, asset)| && a.activeHolders == |NowPositive(s, asset)|
    ensures var a := Replayed(events, fallbackStart, fallbackEnd).value.activity[asset];
            if exists e :: e in events && e.asset == asset then
              && (exists e :: e in events && e.asset == asset && e.timestamp == a.windowStart)
              && (exists e :: e in events && e.asset == asset && e.timestamp == a.windowEnd)
              && (forall e :: e in events && e.asset == asset ==> a.windowStart <= e.timestamp <= a.windowEnd)
            else a.windowStart == fallbackStart && a.windowEnd == fallbackEnd
  {
    var s := Ordered(events);
    var zero := HolderKey(asset, "0x0000000000000000000000000000000000000000");
    SameElements(s, events);
    VolumesAreSums(s, asset);
    SumPermutation(s, events, Sent(zero));
    SumPermutation(s, events, Received(zero));
    SumPermutation(s, events, VolumeBetween(asset));
    SumPermutation(s, events, OneBetween(asset));
    MentionedExactlyWhen(s, asset);
    if Mentions(s, asset) {
      WindowIsTight(s, asset);
    } else {
      Unmentioned(s, asset);
      NothingPositive(s, asset);
    }
  }

  lemma MentionedExactlyWhen(s: seq<Transfer>, asset: AssetId)
    ensures Mentions(s, asset) <==> exists e :: e in s && e.asset == asset
  {
    if e :| e in s && e.asset == asset {
      var i :| 0 <= i < |s| && s[i] == e;
    }
  }

  lemma NothingPositive(s: seq<Transfer>, asset: AssetId)
    requires Holders(s, asset) == {}
    ensures EverPositive(s, asset) == {} && NowPositive(s, asset) == {}
  {
  }

  /** The four sets that the counters count, by their members. */
  lemma CountedSets(events: seq<Transfer>, asset: AssetId, h: string)
    ensures var s := Ordered(events);
            var somebody := h != "0x0000000000000000000000000000000000000000";
            && (h in Senders(s, asset) <==> somebody && Sends(events, asset, h))
            && (h in Receivers(s, asset) <==> somebody && Receives(events, asset, h))
            && (h in EverPositive(s, asset) <==>
                  somebody && (Sends(events, asset, h) || Receives(events, asset, h)) && OncePositive(s, asset, h))
            && (h in NowPositive(s, asset) <==>
                  && somebody && (Sends(events, asset, h) || Receives(events, asset, h))
                  && Sum(events, Received(HolderKey(asset, h))) > Sum(events, Sent(HolderKey(asset, h))))
  {
    var s := Ordered(events);
    SameElements(s, events);
    PartiesArePlain(s, asset, h);
    NewHoldersMean(s, asset, h);
    SumsForgetOrder(s, events, HolderKey(asset, h));
  }

  /** The replay's order: by block, then by log index, and as given where both agree. */
  lemma OrderMeans(events: seq<Transfer>)
    ensures var s := Ordered(events);
            && multiset(s) == multiset(events)
            && forall i, j :: 0 <= i < j < |s| ==>
                 s[i].blockNumber < s[j].blockNumber
                 || (s[i].blockNumber == s[j].blockNumber && s[i].logIndex <= s[j].logIndex)
  {
    assert TotalPreorder(BY_POSITION);
    StableSortSorts(events, BY_POSITION);
    var s := Ordered(events);
    forall i, j | 0 <= i < j < |s| ensures BY_POSITION(s[i], s[j]) {
    }
  }

  /** "0x" and forty digits from 0 to 9 or from a to f, by their code points. */
  predicate HexAddress(a: string) {
    && |a| == 42 && a[..2] == "0x"
    && forall i :: 2 <= i < 42 ==> 48 <= a[i] as int <= 57 || 97 <= a[i] as int <= 102
  }

  lemma AddressesAreHex(a: string)
    ensures IsAddress(a) <==> HexAddress(a)
  {
    assert forall c: char :: HexDigit(c) <==> 48 <= c as int <= 57 || 97 <= c as int <= 102;
    if |a| == 42 {
      assert a[..2] == [a[0], a[1]];
    }
  }

  /** What a fault is. */
  lemma FaultMeans(s: seq<Transfer>, i: nat)
    requires i < |s|
    ensures var e, fault := s[i], FaultAt(s, i);
            var sender, recipient := Lowered(e.sender), Lowered(e.recipient);
            var named := HexAddress(sender) && HexAddress(recipient);
            var uncovered :=
              && sender != "0x0000000000000000000000000000000000000000"
              && e.value > Inflow(s[..i], HolderKey(e.asset, sender)) - Outflow(s[..i], HolderKey(e.asset, sender));
            fault == if e.value < 0 then Some(NegativeValue)
                     else if !named then Some(InvalidAddress)
                     else if uncovered then Some(BalanceBecameNegative(HolderKey(e.asset, sender), e.blockNumber))
                     else None
  {
    AddressesAreHex(Lowered(s[i].sender));
    AddressesAreHex(Lowered(s[i].recipient));
  }
}
