/** Replaying token transfers into holder balances and per-asset activity. */
module HolderReplay {
  import opened Wrappers
  import opened Sorting
  import opened Sums
  import opened Text

  datatype AssetId = Usdp | Susdp

  datatype Transfer = Transfer(
    asset: AssetId, blockNumber: int, timestamp: int, logIndex: int, sender: string, recipient: string, value: int)

  datatype HolderKey = HolderKey(asset: AssetId, holder: string)

  datatype HolderState = HolderState(balance: int, firstPositiveBlock: Option<int>, lastChangedBlock: int)

  datatype Metric = Metric(
    transferVolume: int, mintedVolume: int, burnedVolume: int, transferCount: nat, senders: set<string>,
    receivers: set<string>, participants: set<string>, newHolders: nat, windowStart: int, windowEnd: int)

  datatype Activity = Activity(
    windowStart: int, windowEnd: int, transferVolume: int, mintedVolume: int, burnedVolume: int, transferCount: nat,
    uniqueSenders: nat, uniqueReceivers: nat, uniqueParticipants: nat, newHolders: nat, activeHolders: nat)

  datatype Replay = Replay(balances: map<HolderKey, HolderState>, activity: map<AssetId, Activity>)

  datatype ReplayError = NegativeValue | InvalidAddress | BalanceBecameNegative(key: HolderKey, blockNumber: int)

  const ZERO_ADDRESS := "0x0000000000000000000000000000000000000000"

  // Addresses.

  predicate HexDigit(c: char) { '0' <= c <= '9' || 'a' <= c <= 'f' }

  predicate IsAddress(s: string) {
    |s| == 42 && s[0] == '0' && s[1] == 'x' && forall i :: 2 <= i < 42 ==> HexDigit(s[i])
  }

  function From(e: Transfer): string { Lowered(e.sender) }

  function To(e: Transfer): string { Lowered(e.recipient) }

  // The replay order.

  const BY_POSITION: (Transfer, Transfer) -> bool := (x: Transfer, y: Transfer) =>
    x.blockNumber < y.blockNumber || (x.blockNumber == y.blockNumber && x.logIndex <= y.logIndex)

  function Ordered(events: seq<Transfer>): seq<Transfer> { StableSort(events, BY_POSITION) }

  // The reference: what a list of transfers means for one holder or one asset.

  function Inflow(s: seq<Transfer>, k: HolderKey): int {
    if s == [] then 0 else
      var last := s[|s| - 1];
      Inflow(s[..|s| - 1], k) + if last.asset == k.asset && To(last) == k.holder then last.value else 0
  }

  function Outflow(s: seq<Transfer>, k: HolderKey): int {
    if s == [] then 0 else
      var last := s[|s| - 1];
      Outflow(s[..|s| - 1], k) + if last.asset == k.asset && From(last) == k.holder then last.value else 0
  }

  function Balance(s: seq<Transfer>, k: HolderKey): int { Inflow(s, k) - Outflow(s, k) }

  /** The block of the first transfer that left the balance positive. */
  function FirstPositive(s: seq<Transfer>, k: HolderKey): Option<int> {
    if s == [] then None
    else if FirstPositive(s[..|s| - 1], k).Some? then FirstPositive(s[..|s| - 1], k)
    else if Balance(s, k) > 0 then Some(s[|s| - 1].blockNumber) else None
  }

  predicate Touches(e: Transfer, k: HolderKey) { e.asset == k.asset && (From(e) == k.holder || To(e) == k.holder) }

  function LastTouched(s: seq<Transfer>, k: HolderKey): int {
    if s == [] then 0 else if Touches(s[|s| - 1], k) then s[|s| - 1].blockNumber else LastTouched(s[..|s| - 1], k)
  }

  function SideOf(e: Transfer, asset: AssetId, address: string): set<string> {
    if e.asset == asset && address != ZERO_ADDRESS then {address} else {}
  }

  function Senders(s: seq<Transfer>, asset: AssetId): set<string> {
    if s == [] then {} else Senders(s[..|s| - 1], asset) + SideOf(s[|s| - 1], asset, From(s[|s| - 1]))
  }

  function Receivers(s: seq<Transfer>, asset: AssetId): set<string> {
    if s == [] then {} else Receivers(s[..|s| - 1], asset) + SideOf(s[|s| - 1], asset, To(s[|s| - 1]))
  }

  function Holders(s: seq<Transfer>, asset: AssetId): set<string> { Senders(s, asset) + Receivers(s, asset) }

  function EverPositive(s: seq<Transfer>, asset: AssetId): set<string> {
    set h | h in Holders(s, asset) && FirstPositive(s, HolderKey(asset, h)).Some?
  }

  function NowPositive(s: seq<Transfer>, asset: AssetId): set<string> {
    set h | h in Holders(s, asset) && Balance(s, HolderKey(asset, h)) > 0
  }

  function Minted(s: seq<Transfer>, asset: AssetId): int {
    if s == [] then 0 else
      var last := s[|s| - 1];
      Minted(s[..|s| - 1], asset) + if last.asset == asset && From(last) == ZERO_ADDRESS then last.value else 0
  }

  function Burned(s: seq<Transfer>, asset: AssetId): int {
    if s == [] then 0 else
      var last := s[|s| - 1];
      Burned(s[..|s| - 1], asset) + if last.asset == asset && To(last) == ZERO_ADDRESS then last.value else 0
  }

  predicate PeerToPeer(e: Transfer, asset: AssetId) {
    e.asset == asset && From(e) != ZERO_ADDRESS && To(e) != ZERO_ADDRESS
  }

  function PeerVolume(s: seq<Transfer>, asset: AssetId): int {
    if s == [] then 0 else
      PeerVolume(s[..|s| - 1], asset) + if PeerToPeer(s[|s| - 1], asset) then s[|s| - 1].value else 0
  }

  function PeerCount(s: seq<Transfer>, asset: AssetId): nat {
    if s == [] then 0 else PeerCount(s[..|s| - 1], asset) + if PeerToPeer(s[|s| - 1], asset) then 1 else 0
  }

  predicate Mentions(s: seq<Transfer>, asset: AssetId) { exists i :: 0 <= i < |s| && s[i].asset == asset }

  /** Earliest and latest timestamps of the asset's transfers. */
  function WindowStart(s: seq<Transfer>, asset: AssetId): int
    requires Mentions(s, asset)
  {
    var init, last := s[..|s| - 1], s[|s| - 1];
    if !Mentions(init, asset) then last.timestamp
    else if last.asset == asset && last.timestamp < WindowStart(init, asset) then last.timestamp
    else WindowStart(init, asset)
  }

  function WindowEnd(s: seq<Transfer>, asset: AssetId): int
    requires Mentions(s, asset)
  {
    var init, last := s[..|s| - 1], s[|s| - 1];
    if !Mentions(init, asset) then last.timestamp
    else if last.asset == asset && last.timestamp > WindowEnd(init, asset) then last.timestamp
    else WindowEnd(init, asset)
  }

  function MetricOf(s: seq<Transfer>, asset: AssetId): Metric
    requires Mentions(s, asset)
  {
    Metric(PeerVolume(s, asset), Minted(s, asset), Burned(s, asset), PeerCount(s, asset), Senders(s, asset),
           Receivers(s, asset), Holders(s, asset), |EverPositive(s, asset)|, WindowStart(s, asset), WindowEnd(s, asset))
  }

  function StateOf(s: seq<Transfer>, k: HolderKey): HolderState {
    HolderState(Balance(s, k), FirstPositive(s, k), LastTouched(s, k))
  }

  function KeysOf(s: seq<Transfer>): set<HolderKey> {
    (set h | h in Holders(s, Usdp) :: HolderKey(Usdp, h)) + (set h | h in Holders(s, Susdp) :: HolderKey(Susdp, h))
  }

  function Ledger(s: seq<Transfer>): map<HolderKey, HolderState> { map k | k in KeysOf(s) :: StateOf(s, k) }

  function ActivityOf(s: seq<Transfer>, asset: AssetId, fallbackStart: int, fallbackEnd: int): Activity {
    if !Mentions(s, asset) then Activity(fallbackStart, fallbackEnd, 0, 0, 0, 0, 0, 0, 0, 0, 0) else
      Activity(WindowStart(s, asset), WindowEnd(s, asset), PeerVolume(s, asset), Minted(s, asset), Burned(s, asset),
               PeerCount(s, asset), |Senders(s, asset)|, |Receivers(s, asset)|, |Holders(s, asset)|,
               |EverPositive(s, asset)|, |NowPositive(s, asset)|)
  }

  // Faults.

  /** What the replay throws on reaching transfer `i`, judged by the balances the earlier transfers mean. */
  function FaultAt(s: seq<Transfer>, i: nat): Option<ReplayError>
    requires i < |s|
  {
    var e := s[i];
    if e.value < 0 then Some(NegativeValue)
    else if !IsAddress(From(e)) || !IsAddress(To(e)) then Some(InvalidAddress)
    else if From(e) != ZERO_ADDRESS && e.value > Balance(s[..i], HolderKey(e.asset, From(e)))
    then Some(BalanceBecameNegative(HolderKey(e.asset, From(e)), e.blockNumber))
    else None
  }

  function FirstFault(s: seq<Transfer>): Option<ReplayError> {
    if s == [] then None
    else if FirstFault(s[..|s| - 1]).Some? then FirstFault(s[..|s| - 1])
    else FaultAt(s, |s| - 1)
  }

  function Replayed(events: seq<Transfer>, fallbackStart: int, fallbackEnd: int): Result<Replay, ReplayError> {
    var s := Ordered(events);
    if FirstFault(s).Some? then Failure(FirstFault(s).value)
    else Success(Replay(Ledger(s), Activities(s, fallbackStart, fallbackEnd)))
  }

  function Activities(s: seq<Transfer>, fallbackStart: int, fallbackEnd: int): map<AssetId, Activity> {
    map[Usdp := ActivityOf(s, Usdp, fallbackStart, fallbackEnd),
        Susdp := ActivityOf(s, Susdp, fallbackStart, fallbackEnd)]
  }

  lemma {:induction false} FaultPersists(s: seq<Transfer>, i: nat)
    requires i <= |s| && FirstFault(s[..i]).Some?
    ensures FirstFault(s) == FirstFault(s[..i])
    decreases |s| - i
  {
    if i == |s| {
      assert s[..i] == s;
    } else {
      assert s[..i + 1][..i] == s[..i];
      FaultPersists(s, i + 1);
    }
  }

  // One transfer, seen by the reference.

  lemma Snoc(s: seq<Transfer>, e: Transfer)
    ensures (s + [e])[..|s|] == s && (s + [e])[|s|] == e
  {
  }

  lemma UntouchedState(s: seq<Transfer>, e: Transfer, k: HolderKey)
    requires !Touches(e, k)
    ensures StateOf(s + [e], k) == StateOf(s, k)
  {
    Snoc(s, e);
  }

  lemma NaturalBalances(s: seq<Transfer>, k: HolderKey)
    requires FirstFault(s).None? && k.holder != ZERO_ADDRESS
    ensures Balance(s, k) >= 0
    decreases |s|
  {
    if s != [] {
      NaturalBalances(s[..|s| - 1], k);
    }
  }

  lemma HoldersSnoc(s: seq<Transfer>, e: Transfer, asset: AssetId)
    ensures Holders(s + [e], asset) == Holders(s, asset) + SideOf(e, asset, From(e)) + SideOf(e, asset, To(e))
    ensures ZERO_ADDRESS !in Holders(s, asset)
    decreases |s|
  {
    Snoc(s, e);
    if s != [] {
      HoldersSnoc(s[..|s| - 1], s[|s| - 1], asset);
      assert s == s[..|s| - 1] + [s[|s| - 1]];
    }
  }

  /** A holder outside the list has met no transfer. */
  lemma {:induction false} StrangerState(s: seq<Transfer>, k: HolderKey)
    requires k.holder != ZERO_ADDRESS && k.holder !in Holders(s, k.asset)
    ensures Balance(s, k) == 0 && FirstPositive(s, k).None?
  {
    if s != [] {
      StrangerState(s[..|s| - 1], k);
    }
  }

  /** One holder's update: the row after adding `delta`. */
  function Updated(states: map<HolderKey, HolderState>, k: HolderKey, delta: int, blockNumber: int): HolderState {
    var state := if k in states then states[k] else HolderState(0, None, blockNumber);
    var next := state.balance + delta;
    HolderState(next,
                if state.firstPositiveBlock.None? && next > 0 then Some(blockNumber) else state.firstPositiveBlock,
                blockNumber)
  }

  function Moved(states: map<HolderKey, HolderState>, k: HolderKey, delta: int,
                 blockNumber: int): map<HolderKey, HolderState>
  {
    if k.holder == ZERO_ADDRESS then states else states[k := Updated(states, k, delta, blockNumber)]
  }

  /** Whether the update makes its holder positive for the first time. */
  predicate Gains(states: map<HolderKey, HolderState>, k: HolderKey, delta: int, blockNumber: int) {
    && k.holder != ZERO_ADDRESS && Updated(states, k, delta, blockNumber).firstPositiveBlock.Some?
    && (k in states ==> states[k].firstPositiveBlock.None?)
  }

  method UpdateHolder(states: map<HolderKey, HolderState>, newHolders: nat, k: HolderKey, delta: int, blockNumber: int)
    returns (covered: bool, after: map<HolderKey, HolderState>, holders: nat)
    ensures covered <==> k.holder == ZERO_ADDRESS || Updated(states, k, delta, blockNumber).balance >= 0
    ensures covered ==> after == Moved(states, k, delta, blockNumber)
    ensures covered ==> holders == newHolders + if Gains(states, k, delta, blockNumber) then 1 else 0
  {
    covered, after, holders := true, states, newHolders;
    if k.holder == ZERO_ADDRESS {
      return;
    }
    var state := if k in states then states[k] else HolderState(0, None, blockNumber);
    var nextBalance := state.balance + delta;
    if nextBalance < 0 {
      covered := false;
      return;
    }
    if state.firstPositiveBlock.None? && nextBalance > 0 {
      state := state.(firstPositiveBlock := Some(blockNumber));
      holders := holders + 1;
    }
    after := states[k := state.(balance := nextBalance, lastChangedBlock := blockNumber)];
  }

  function DebitKey(e: Transfer): HolderKey { HolderKey(e.asset, From(e)) }

  function CreditKey(e: Transfer): HolderKey { HolderKey(e.asset, To(e)) }

  lemma KeysAreHolders(s: seq<Transfer>, k: HolderKey)
    ensures k in KeysOf(s) <==> k.holder in Holders(s, k.asset)
  {
    match k.asset {
      case Usdp => assert k == HolderKey(Usdp, k.holder);
      case Susdp => assert k == HolderKey(Susdp, k.holder);
    }
  }

  /** The stored row of a key, or what the update assumes for an absent one, carries the reference balance. */
  lemma LedgerRow(s: seq<Transfer>, k: HolderKey, blockNumber: int)
    requires k.holder != ZERO_ADDRESS
    ensures k in Ledger(s) <==> k.holder in Holders(s, k.asset)
    ensures var row := if k in Ledger(s) then Ledger(s)[k] else HolderState(0, None, blockNumber);
            row.balance == Balance(s, k) && row.firstPositiveBlock == FirstPositive(s, k)
  {
    KeysAreHolders(s, k);
    if k.holder !in Holders(s, k.asset) {
      StrangerState(s, k);
    }
  }

  lemma PositiveIsRemembered(s: seq<Transfer>, k: HolderKey)
    ensures FirstPositive(s, k).None? ==> Balance(s, k) <= 0
  {
  }

  /** A touched key's row, debited and credited, is the row of the longer list. */
  lemma TouchedRow(s: seq<Transfer>, e: Transfer, k: HolderKey)
    requires e.value >= 0 && k.holder != ZERO_ADDRESS && Touches(e, k)
    requires From(e) != ZERO_ADDRESS ==> e.value <= Balance(s, DebitKey(e))
    ensures var after := Moved(Debited(Ledger(s), e), CreditKey(e), e.value, e.blockNumber);
            k in after && after[k] == StateOf(s + [e], k)
  {
    Snoc(s, e);
    LedgerRow(s, k, e.blockNumber);
    PositiveIsRemembered(s, k);
  }

  /** Debiting the sender and crediting the recipient turns the ledger of `s` into the ledger of `s + [e]`. */
  lemma LedgerStep(s: seq<Transfer>, e: Transfer)
    requires e.value >= 0
    requires From(e) != ZERO_ADDRESS ==> e.value <= Balance(s, DebitKey(e))
    ensures Moved(Debited(Ledger(s), e), CreditKey(e), e.value, e.blockNumber) == Ledger(s + [e])
  {
    var after := Moved(Debited(Ledger(s), e), CreditKey(e), e.value, e.blockNumber);
    forall k
      ensures k in after <==> k in Ledger(s + [e])
      ensures k in after ==> after[k] == Ledger(s + [e])[k]
    {
      HoldersSnoc(s, e, k.asset);
      KeysAreHolders(s, k);
      KeysAreHolders(s + [e], k);
      if k.holder != ZERO_ADDRESS {
        if Touches(e, k) {
          TouchedRow(s, e, k);
        } else {
          UntouchedState(s, e, k);
        }
      }
    }
  }

  /** A holder turns positive for the first time at `e`. */
  predicate TurnsPositive(s: seq<Transfer>, e: Transfer, k: HolderKey) {
    k.holder != ZERO_ADDRESS && FirstPositive(s, k).None? && FirstPositive(s + [e], k).Some?
  }

  lemma DebitNeverGains(s: seq<Transfer>, e: Transfer)
    requires e.value >= 0
    ensures !Gains(Ledger(s), DebitKey(e), -e.value, e.blockNumber)
  {
    if From(e) != ZERO_ADDRESS {
      LedgerRow(s, DebitKey(e), e.blockNumber);
      PositiveIsRemembered(s, DebitKey(e));
    }
  }

  lemma CreditGains(s: seq<Transfer>, e: Transfer)
    requires e.value >= 0
    requires From(e) != ZERO_ADDRESS ==> e.value <= Balance(s, DebitKey(e))
    ensures Gains(Debited(Ledger(s), e), CreditKey(e), e.value, e.blockNumber)
       <==> TurnsPositive(s, e, CreditKey(e))
  {
    if To(e) != ZERO_ADDRESS {
      Snoc(s, e);
      LedgerRow(s, CreditKey(e), e.blockNumber);
      PositiveIsRemembered(s, CreditKey(e));
    }
  }

  lemma OnlyTheRecipientTurnsPositive(s: seq<Transfer>, e: Transfer, k: HolderKey)
    requires e.value >= 0 && k != CreditKey(e)
    ensures FirstPositive(s + [e], k).Some? <==> FirstPositive(s, k).Some?
  {
    Snoc(s, e);
    PositiveIsRemembered(s, k);
  }

  lemma NewHoldersStep(s: seq<Transfer>, e: Transfer)
    requires e.value >= 0
    ensures |EverPositive(s + [e], e.asset)|
         == |EverPositive(s, e.asset)| + if TurnsPositive(s, e, CreditKey(e)) then 1 else 0
  {
    HoldersSnoc(s, e, e.asset);
    Snoc(s, e);
    var gained := if TurnsPositive(s, e, CreditKey(e)) then {To(e)} else {};
    forall h ensures h in EverPositive(s + [e], e.asset) <==> h in EverPositive(s, e.asset) + gained {
      var k := HolderKey(e.asset, h);
      if h != ZERO_ADDRESS && h !in Holders(s, e.asset) {
        StrangerState(s, k);
      }
      if k != CreditKey(e) {
        OnlyTheRecipientTurnsPositive(s, e, k);
      }
    }
    assert EverPositive(s + [e], e.asset) == EverPositive(s, e.asset) + gained;
    assert EverPositive(s, e.asset) !! gained;
  }

  lemma OtherAssetMetric(s: seq<Transfer>, e: Transfer, asset: AssetId)
    requires e.asset != asset
    ensures Mentions(s + [e], asset) <==> Mentions(s, asset)
    ensures Mentions(s, asset) ==> MetricOf(s + [e], asset) == MetricOf(s, asset)
  {
    Snoc(s, e);
    MentionsSnoc(s, e, asset);
    HoldersSnoc(s, e, asset);
    forall h ensures FirstPositive(s + [e], HolderKey(asset, h)) == FirstPositive(s, HolderKey(asset, h)) {
      UntouchedState(s, e, HolderKey(asset, h));
    }
    assert EverPositive(s + [e], asset) == EverPositive(s, asset);
  }

  lemma MentionsSnoc(s: seq<Transfer>, e: Transfer, asset: AssetId)
    ensures Mentions(s + [e], asset) <==> Mentions(s, asset) || e.asset == asset
  {
    if Mentions(s, asset) {
      var i :| 0 <= i < |s| && s[i].asset == asset;
      assert (s + [e])[i].asset == asset;
    }
    assert (s + [e])[|s|] == e;
  }

  function Metrics(s: seq<Transfer>): map<AssetId, Metric> {
    map asset | asset in {Usdp, Susdp} && Mentions(s, asset) :: MetricOf(s, asset)
  }

  lemma MetricsStep(s: seq<Transfer>, e: Transfer)
    ensures Mentions(s + [e], e.asset)
    ensures Metrics(s + [e]) == Metrics(s)[e.asset := MetricOf(s + [e], e.asset)]
  {
    MentionsSnoc(s, e, e.asset);
    OtherAssetMetric(s, e, if e.asset.Usdp? then Susdp else Usdp);
  }

  /** The replay: transfers in (block, log index) order, debit before credit. */
  method ReplayHolderTransfers(events: seq<Transfer>, fallbackStart: int, fallbackEnd: int)
    returns (r: Result<Replay, ReplayError>)
    ensures r == Replayed(events, fallbackStart, fallbackEnd)
  {
    var ordered := Ordered(events);
    var states: map<HolderKey, HolderState> := map[];
    var metrics: map<AssetId, Metric> := map[];
    var fault: Option<ReplayError> := None;
    for i := 0 to |ordered|
      invariant FirstFault(ordered[..i]).None?
      invariant states == Ledger(ordered[..i]) && metrics == Metrics(ordered[..i])
    {
      ghost var before := ordered[..i];
      assert ordered[..i + 1] == before + [ordered[i]];
      fault, states, metrics := ReplayOne(before, ordered[i], states, metrics);
      if fault.Some? {
        FaultPersists(ordered, i + 1);
        return Failure(fault.value);
      }
    }
    assert ordered[..|ordered|] == ordered;
    SummaryIsActivity(ordered, Usdp, fallbackStart, fallbackEnd);
    SummaryIsActivity(ordered, Susdp, fallbackStart, fallbackEnd);
    var usdp := Summarize(states, metrics, Usdp, fallbackStart, fallbackEnd);
    var susdp := Summarize(states, metrics, Susdp, fallbackStart, fallbackEnd);
    return Success(Replay(states, map[Usdp := usdp, Susdp := susdp]));
  }

  /** The loop's body: one transfer's fault, or the holder rows and metrics after it. */
  method ReplayOne(ghost before: seq<Transfer>, event: Transfer, states: map<HolderKey, HolderState>,
                   metrics: map<AssetId, Metric>)
    returns (fault: Option<ReplayError>, after: map<HolderKey, HolderState>, counted: map<AssetId, Metric>)
    requires FirstFault(before).None? && states == Ledger(before) && metrics == Metrics(before)
    ensures FirstFault(before + [event]) == fault
    ensures fault.None? ==> after == Ledger(before + [event]) && counted == Metrics(before + [event])
  {
    Snoc(before, event);
    fault, after, counted := None, states, metrics;
    var metric := if event.asset in metrics then metrics[event.asset] else BlankMetric(event);
    var sender, recipient := Lowered(event.sender), Lowered(event.recipient);
    if event.value < 0 || !IsAddress(sender) || !IsAddress(recipient) {
      fault := Some(if event.value < 0 then NegativeValue else InvalidAddress);
      return;
    }
    var covered, moved, holders := MoveBalances(event, states, metric.newHolders);
    MovesAgree(before, event);
    if !covered {
      fault := Some(BalanceBecameNegative(HolderKey(event.asset, sender), event.blockNumber));
      return;
    }
    after := moved;
    metric := CountTransfer(event, metric.(newHolders := holders));
    CountedIsMetric(before, event);
    MetricsStep(before, event);
    counted := metrics[event.asset := metric];
  }

  function Debited(states: map<HolderKey, HolderState>, e: Transfer): map<HolderKey, HolderState> {
    Moved(states, DebitKey(e), -e.value, e.blockNumber)
  }

  predicate DebitCovered(states: map<HolderKey, HolderState>, e: Transfer) {
    From(e) == ZERO_ADDRESS || Updated(states, DebitKey(e), -e.value, e.blockNumber).balance >= 0
  }

  predicate CreditCovered(states: map<HolderKey, HolderState>, e: Transfer) {
    To(e) == ZERO_ADDRESS || Updated(states, CreditKey(e), e.value, e.blockNumber).balance >= 0
  }

  /** Debits the sender, then credits the recipient, stopping at an uncovered debit. */
  method MoveBalances(event: Transfer, states: map<HolderKey, HolderState>, newHolders: nat)
    returns (covered: bool, after: map<HolderKey, HolderState>, holders: nat)
    ensures covered <==> DebitCovered(states, event) && CreditCovered(Debited(states, event), event)
    ensures covered ==> after == Moved(Debited(states, event), CreditKey(event), event.value, event.blockNumber)
    ensures covered ==>
              holders == newHolders + (if Gains(states, DebitKey(event), -event.value, event.blockNumber) then 1 else 0)
                + (if Gains(Debited(states, event), CreditKey(event), event.value, event.blockNumber) then 1 else 0)
  {
    var debit, credit :=
      HolderKey(event.asset, Lowered(event.sender)), HolderKey(event.asset, Lowered(event.recipient));
    covered, after, holders := UpdateHolder(states, newHolders, debit, -event.value, event.blockNumber);
    if covered {
      covered, after, holders := UpdateHolder(after, holders, credit, event.value, event.blockNumber);
    }
  }

  /** The two updates against the reference: what is covered, what the rows become, and who turns positive. */
  lemma MovesAgree(s: seq<Transfer>, e: Transfer)
    requires FirstFault(s).None? && e.value >= 0
    ensures DebitCovered(Ledger(s), e) <==> From(e) == ZERO_ADDRESS || e.value <= Balance(s, DebitKey(e))
    ensures DebitCovered(Ledger(s), e) ==>
              && CreditCovered(Debited(Ledger(s), e), e)
              && Moved(Debited(Ledger(s), e), CreditKey(e), e.value, e.blockNumber) == Ledger(s + [e])
              && (Gains(Debited(Ledger(s), e), CreditKey(e), e.value, e.blockNumber) <==>
                  TurnsPositive(s, e, CreditKey(e)))
    ensures !Gains(Ledger(s), DebitKey(e), -e.value, e.blockNumber)
  {
    DebitRow(s, e);
    DebitNeverGains(s, e);
    if DebitCovered(Ledger(s), e) {
      LedgerStep(s, e);
      CreditGains(s, e);
      CreditIsCovered(s, e);
    }
  }

  lemma DebitRow(s: seq<Transfer>, e: Transfer)
    ensures DebitCovered(Ledger(s), e) <==> From(e) == ZERO_ADDRESS || e.value <= Balance(s, DebitKey(e))
  {
    if From(e) != ZERO_ADDRESS {
      LedgerRow(s, DebitKey(e), e.blockNumber);
    }
  }

  function BlankMetric(e: Transfer): Metric { Metric(0, 0, 0, 0, {}, {}, {}, 0, e.timestamp, e.timestamp) }

  /** One transfer's effect on its asset's counters, besides new holders. */
  function Counted(m: Metric, e: Transfer): Metric {
    var sent, received := SideOf(e, e.asset, From(e)), SideOf(e, e.asset, To(e));
    Metric(m.transferVolume + (if sent != {} && received != {} then e.value else 0),
           m.mintedVolume + (if sent == {} then e.value else 0),
           m.burnedVolume + (if received == {} then e.value else 0),
           m.transferCount + (if sent != {} && received != {} then 1 else 0),
           m.senders + sent, m.receivers + received, m.participants + sent + received, m.newHolders,
           if e.timestamp < m.windowStart then e.timestamp else m.windowStart,
           if e.timestamp > m.windowEnd then e.timestamp else m.windowEnd)
  }

  method CountTransfer(event: Transfer, before: Metric) returns (metric: Metric)
    ensures metric == Counted(before, event)
  {
    metric := before;
    var sender, recipient := Lowered(event.sender), Lowered(event.recipient);
    if event.timestamp < metric.windowStart {
      metric := metric.(windowStart := event.timestamp);
    }
    if event.timestamp > metric.windowEnd {
      metric := metric.(windowEnd := event.timestamp);
    }
    if sender == ZERO_ADDRESS {
      metric := metric.(mintedVolume := metric.mintedVolume + event.value);
    } else {
      metric := metric.(senders := metric.senders + {sender}, participants := metric.participants + {sender});
    }
    if recipient == ZERO_ADDRESS {
      metric := metric.(burnedVolume := metric.burnedVolume + event.value);
    } else {
      metric := metric.(receivers := metric.receivers + {recipient}, participants := metric.participants + {recipient});
    }
    if sender != ZERO_ADDRESS && recipient != ZERO_ADDRESS {
      metric := metric.(transferVolume := metric.transferVolume + event.value,
                        transferCount := metric.transferCount + 1);
    }
  }

  lemma VolumesSnoc(s: seq<Transfer>, e: Transfer)
    ensures var longer, sent, received := s + [e], From(e) != ZERO_ADDRESS, To(e) != ZERO_ADDRESS;
            && PeerVolume(longer, e.asset) == PeerVolume(s, e.asset) + (if sent && received then e.value else 0)
            && PeerCount(longer, e.asset) == PeerCount(s, e.asset) + (if sent && received then 1 else 0)
            && Minted(longer, e.asset) == Minted(s, e.asset) + (if sent then 0 else e.value)
            && Burned(longer, e.asset) == Burned(s, e.asset) + (if received then 0 else e.value)
            && Senders(longer, e.asset) == Senders(s, e.asset) + SideOf(e, e.asset, From(e))
            && Receivers(longer, e.asset) == Receivers(s, e.asset) + SideOf(e, e.asset, To(e))
  {
    Snoc(s, e);
  }

  lemma WindowSnoc(s: seq<Transfer>, e: Transfer)
    ensures Mentions(s + [e], e.asset)
    ensures Mentions(s, e.asset) ==>
              && WindowStart(s + [e], e.asset)
                 == (if e.timestamp < WindowStart(s, e.asset) then e.timestamp else WindowStart(s, e.asset))
              && WindowEnd(s + [e], e.asset)
                 == (if e.timestamp > WindowEnd(s, e.asset) then e.timestamp else WindowEnd(s, e.asset))
    ensures !Mentions(s, e.asset) ==> WindowStart(s + [e], e.asset) == WindowEnd(s + [e], e.asset) == e.timestamp
  {
    Snoc(s, e);
    MentionsSnoc(s, e, e.asset);
  }

  lemma NothingMentioned(s: seq<Transfer>, e: Transfer)
    requires !Mentions(s, e.asset)
    ensures PeerVolume(s, e.asset) == Minted(s, e.asset) == Burned(s, e.asset) == 0
    ensures PeerCount(s, e.asset) == |EverPositive(s, e.asset)| == 0
    ensures Senders(s, e.asset) == Receivers(s, e.asset) == Holders(s, e.asset) == {}
  {
    Unmentioned(s, e.asset);
    assert EverPositive(s, e.asset) == {};
  }

  function GainedBy(s: seq<Transfer>, e: Transfer): nat { if TurnsPositive(s, e, CreditKey(e)) then 1 else 0 }

  lemma CountedFromMetric(s: seq<Transfer>, e: Transfer)
    requires e.value >= 0 && Mentions(s, e.asset)
    ensures Mentions(s + [e], e.asset)
    ensures var base := MetricOf(s, e.asset);
            MetricOf(s + [e], e.asset) == Counted(base.(newHolders := base.newHolders + GainedBy(s, e)), e)
  {
    VolumesSnoc(s, e);
    WindowSnoc(s, e);
    HoldersSnoc(s, e, e.asset);
    NewHoldersStep(s, e);
  }

  lemma CountedFromBlank(s: seq<Transfer>, e: Transfer)
    requires e.value >= 0 && !Mentions(s, e.asset)
    ensures Mentions(s + [e], e.asset)
    ensures MetricOf(s + [e], e.asset) == Counted(BlankMetric(e).(newHolders := GainedBy(s, e)), e)
  {
    VolumesSnoc(s, e);
    WindowSnoc(s, e);
    HoldersSnoc(s, e, e.asset);
    NewHoldersStep(s, e);
    NothingMentioned(s, e);
  }

  /** The counters step of a metric from a prefix is the metric of the longer prefix. */
  lemma CountedIsMetric(s: seq<Transfer>, e: Transfer)
    requires e.value >= 0
    ensures Mentions(s + [e], e.asset)
    ensures var base := if Mentions(s, e.asset) then MetricOf(s, e.asset) else BlankMetric(e);
            MetricOf(s + [e], e.asset) == Counted(base.(newHolders := base.newHolders + GainedBy(s, e)), e)
  {
    if Mentions(s, e.asset) {
      CountedFromMetric(s, e);
    } else {
      CountedFromBlank(s, e);
    }
  }

  /** A credit on top of a covered debit never goes below zero. */
  lemma CreditIsCovered(s: seq<Transfer>, e: Transfer)
    requires FirstFault(s).None? && e.value >= 0
    requires From(e) != ZERO_ADDRESS ==> e.value <= Balance(s, DebitKey(e))
    ensures CreditCovered(Debited(Ledger(s), e), e)
  {
    if To(e) != ZERO_ADDRESS {
      LedgerRow(s, CreditKey(e), e.blockNumber);
      NaturalBalances(s, CreditKey(e));
    }
  }

  /** An asset met for the first time starts from nothing. */
  lemma {:induction false} Unmentioned(s: seq<Transfer>, asset: AssetId)
    requires !Mentions(s, asset)
    ensures Minted(s, asset) == 0 && Burned(s, asset) == 0 && PeerVolume(s, asset) == 0 && PeerCount(s, asset) == 0
    ensures Senders(s, asset) == {} && Receivers(s, asset) == {}
  {
    if s != [] {
      var init := s[..|s| - 1];
      MentionsSnoc(init, s[|s| - 1], asset);
      assert init + [s[|s| - 1]] == s;
      Unmentioned(init, asset);
    }
  }

  function Summarize(
    states: map<HolderKey, HolderState>, metrics: map<AssetId, Metric>, asset: AssetId, fallbackStart: int,
    fallbackEnd: int): Activity
  {
    var active := |set k | k in states && k.asset == asset && states[k].balance > 0|;
    if asset !in metrics then Activity(fallbackStart, fallbackEnd, 0, 0, 0, 0, 0, 0, 0, 0, active) else
      var m := metrics[asset];
      Activity(m.windowStart, m.windowEnd, m.transferVolume, m.mintedVolume, m.burnedVolume, m.transferCount,
               |m.senders|, |m.receivers|, |m.participants|, m.newHolders, active)
  }

  lemma {:induction false} KeyedCount(asset: AssetId, holders: set<string>, keys: set<HolderKey>)
    requires forall k :: k in keys <==> k.asset == asset && k.holder in holders
    ensures |keys| == |holders|
    decreases holders
  {
    if holders == {} {
      assert keys == {};
    } else {
      var h :| h in holders;
      var k := HolderKey(asset, h);
      assert k in keys;
      KeyedCount(asset, holders - {h}, keys - {k});
    }
  }

  lemma SummaryIsActivity(s: seq<Transfer>, asset: AssetId, fallbackStart: int, fallbackEnd: int)
    ensures Summarize(Ledger(s), Metrics(s), asset, fallbackStart, fallbackEnd)
        == ActivityOf(s, asset, fallbackStart, fallbackEnd)
  {
    var active := set k | k in Ledger(s) && k.asset == asset && Ledger(s)[k].balance > 0;
    forall k ensures k in active <==> k.asset == asset && k.holder in NowPositive(s, asset) {
      KeysAreHolders(s, k);
    }
    KeyedCount(asset, NowPositive(s, asset), active);
    if !Mentions(s, asset) {
      Unmentioned(s, asset);
    }
  }

  // What the replay guarantees.

  /** The replay succeeds if and only if every transfer is well formed and every debit is covered by its sender's inflow
      minus outflow at that moment; otherwise it throws what the first offending transfer deserves. */
  lemma {:induction false} ThrowsAtFirstFault(s: seq<Transfer>)
    ensures FirstFault(s).None? <==> forall i :: 0 <= i < |s| ==> FaultAt(s, i).None?
    ensures FirstFault(s).Some? ==>
              exists i :: 0 <= i < |s| && FaultAt(s, i) == FirstFault(s) &&
                          forall j :: 0 <= j < i ==> FaultAt(s, j).None?
  {
    if s != [] {
      var n := |s| - 1;
      ThrowsAtFirstFault(s[..n]);
      forall i | 0 <= i < n ensures FaultAt(s[..n], i) == FaultAt(s, i) {
        assert s[..n][..i] == s[..i];
      }
      if FirstFault(s[..n]).Some? {
        var i :| 0 <= i < n && FaultAt(s[..n], i) == FirstFault(s[..n]) &&
                 forall j :: 0 <= j < i ==> FaultAt(s[..n], j).None?;
        assert FaultAt(s, i) == FirstFault(s);
      }
    }
  }

  function DebitOf(e: Transfer, k: HolderKey): int { if e.asset == k.asset && From(e) == k.holder then e.value else 0 }

  /** Over any set of holders that includes every participant, balances total minted minus burned. */
  lemma {:induction false} BalancesTotal(s: seq<Transfer>, asset: AssetId, holders: set<string>)
    requires Holders(s, asset) <= holders && ZERO_ADDRESS !in holders
    ensures SumOver(holders, h => Balance(s, HolderKey(asset, h))) == Minted(s, asset) - Burned(s, asset)
  {
    var now := h => Balance(s, HolderKey(asset, h));
    if s == [] {
      SumOverZero(holders, now);
    } else {
      var init, e := s[..|s| - 1], s[|s| - 1];
      var earlier := h => Balance(init, HolderKey(asset, h));
      var debited := h => Balance(init, HolderKey(asset, h)) - DebitOf(e, HolderKey(asset, h));
      BalancesTotal(init, asset, holders);
      var amount := if e.asset == asset then e.value else 0;
      SumOverPart(holders, From(e), -amount, earlier, debited);
      SumOverPart(holders, To(e), amount, debited, now);
    }
  }

  /** Conservation: each replayed row holds inflow minus outflow, never below zero, and each asset's rows total what was
      minted less what was burned. */
  lemma ReplayConserves(events: seq<Transfer>, fallbackStart: int, fallbackEnd: int, asset: AssetId)
    requires Replayed(events, fallbackStart, fallbackEnd).Success?
    ensures var r, s := Replayed(events, fallbackStart, fallbackEnd).value, Ordered(events);
            && (forall k :: k in r.balances <==> k.holder in Holders(s, k.asset))
            && (forall k :: k in r.balances ==> r.balances[k].balance == Inflow(s, k) - Outflow(s, k) >= 0)
            && SumOver(Holders(s, asset), h => Inflow(s, HolderKey(asset, h)) - Outflow(s, HolderKey(asset, h)))
               == r.activity[asset].mintedVolume - r.activity[asset].burnedVolume
  {
    var s := Ordered(events);
    forall k ensures k in Ledger(s) <==> k.holder in Holders(s, k.asset)
             ensures k in Ledger(s) ==> Balance(s, k) >= 0 {
      KeysAreHolders(s, k);
      if k in Ledger(s) {
        NoZeroHolder(s, k.asset);
        NaturalBalances(s, k);
      }
    }
    NoZeroHolder(s, asset);
    BalancesTotal(s, asset, Holders(s, asset));
    SumOverSame(Holders(s, asset), h => Balance(s, HolderKey(asset, h)),
                h => Inflow(s, HolderKey(asset, h)) - Outflow(s, HolderKey(asset, h)));
    if !Mentions(s, asset) {
      Unmentioned(s, asset);
    }
  }

  lemma {:induction false} NoZeroHolder(s: seq<Transfer>, asset: AssetId)
    ensures ZERO_ADDRESS !in Holders(s, asset)
  {
    if s != [] {
      NoZeroHolder(s[..|s| - 1], asset);
    }
  }

  lemma {:induction false} PositiveReceived(s: seq<Transfer>, k: HolderKey)
    requires FirstFault(s).None? && k.holder != ZERO_ADDRESS && FirstPositive(s, k).Some?
    ensures k.holder in Receivers(s, k.asset)
  {
    var init := s[..|s| - 1];
    if FirstPositive(init, k).Some? {
      PositiveReceived(init, k);
    } else {
      PositiveIsRemembered(init, k);
    }
  }

  /** Per asset: state rows, participants, and the chain active <= ever positive <= receivers. */
  lemma ReplayCounts(events: seq<Transfer>, fallbackStart: int, fallbackEnd: int, asset: AssetId)
    requires Replayed(events, fallbackStart, fallbackEnd).Success?
    ensures var r, s := Replayed(events, fallbackStart, fallbackEnd).value, Ordered(events);
            var a := r.activity[asset];
            && a.uniqueParticipants == |Senders(s, asset) + Receivers(s, asset)|
            && a.uniqueParticipants == |set k | k in r.balances && k.asset == asset|
            && a.activeHolders <= a.newHolders <= a.uniqueReceivers
  {
    var s := Ordered(events);
    var rows := set k | k in Ledger(s) && k.asset == asset;
    forall k ensures k in rows <==> k.asset == asset && k.holder in Holders(s, asset) {
      KeysAreHolders(s, k);
    }
    KeyedCount(asset, Holders(s, asset), rows);
    NoZeroHolder(s, asset);
    forall h | h in Holders(s, asset)
      ensures h in NowPositive(s, asset) ==> h in EverPositive(s, asset)
      ensures h in EverPositive(s, asset) ==> h in Receivers(s, asset)
    {
      var k := HolderKey(asset, h);
      PositiveIsRemembered(s, k);
      if h in EverPositive(s, asset) {
        PositiveReceived(s, k);
      }
    }
    SubsetCount(NowPositive(s, asset), EverPositive(s, asset));
    SubsetCount(EverPositive(s, asset), Receivers(s, asset));
    if !Mentions(s, asset) {
      Unmentioned(s, asset);
    }
  }

  /** With distinct (block, log index) positions the whole replay is the same for every input order. */
  lemma ReplayForgetsInputOrder(s: seq<Transfer>, t: seq<Transfer>, fallbackStart: int, fallbackEnd: int)
    requires multiset(s) == multiset(t)
    requires forall i, j :: 0 <= i < j < |s| ==> s[i].blockNumber != s[j].blockNumber || s[i].logIndex != s[j].logIndex
    ensures Replayed(s, fallbackStart, fallbackEnd) == Replayed(t, fallbackStart, fallbackEnd)
  {
    assert TotalPreorder(BY_POSITION);
    assert KeysIdentify(s, BY_POSITION);
    SortForgetsOrder(s, t, BY_POSITION);
  }
}
