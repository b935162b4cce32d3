/** Which rows a message is stored as, what each row and each leg says of it, and when it fails. */
module TransactionContents {
  import opened Decimals
  import opened SubTransactions
  import opened TransactionAccounting
  import opened TransactionFlows
  import opened TransactionRows
  import opened Wrappers

  // ---------------------------------------------------------------------------------------
  // Which rows there are
  // ---------------------------------------------------------------------------------------

  predicate EventNames(codec: Codec, e: Event, address: string) {
    e.topic1 == ETH_TRANSFER_TOPIC
      && (Names(codec, e.topic2, Some(address)) || Names(codec, e.topic3, Some(address)))
  }

  ghost predicate EventsName(codec: Codec, events: seq<Event>, address: string) {
    exists e :: e in events && EventNames(codec, e, address)
  }

  /** The address is an end of a Transfer event, kept or not, or of the message's ether. */
  ghost predicate Touches(codec: Codec, m: Message, address: string) {
    || EventsName(codec, m.events, address)
    || (m.value != 0 && (IsSide(codec, m.from, Some(address)) || IsSide(codec, m.to, Some(address))))
  }

  lemma AddedAddresses(c: Collected, t: Transfer, address: string)
    ensures address in AddTransfer(c, t).addresses
            <==> address in c.addresses || HasEnd(t, Some(address), Out) || HasEnd(t, Some(address), In)
  {
  }

  lemma {:induction false} AddressesByEvents(codec: Codec, events: seq<Event>, c: Collected, address: string)
    requires CollectEvents(codec, events, c).Ok?
    ensures address in CollectEvents(codec, events, c).value.addresses
            <==> address in c.addresses || EventsName(codec, events, address)
    decreases |events|
  {
    hide TransferOf, Names, AddTransfer, HasEnd;
    if events != [] {
      assert events == [events[0]] + events[1..];
      assert EventsName(codec, events, address) <==>
             EventNames(codec, events[0], address) || EventsName(codec, events[1..], address);
      if events[0].topic1 == ETH_TRANSFER_TOPIC {
        var t := TransferOf(codec, events[0]).value;
        TransferIsEvent(codec, Answers(None, None, []), events[0], "", Some(address), Out);
        TransferIsEvent(codec, Answers(None, None, []), events[0], "", Some(address), In);
        AddedAddresses(c, t, address);
        AddressesByEvents(codec, events[1..], AddTransfer(c, t), address);
      } else {
        AddressesByEvents(codec, events[1..], c, address);
      }
    }
  }

  lemma AddressesByMessage(codec: Codec, m: Message, address: string)
    requires Collect(codec, m).Ok?
    ensures address in Collect(codec, m).value.addresses <==> Touches(codec, m, address)
  {
    hide CollectEvents, EventsName, HasEnd, IsSide, AddTransfer;
    var c := CollectEvents(codec, m.events, Collected([], [])).value;
    AddressesByEvents(codec, m.events, Collected([], []), address);
    if m.value != 0 {
      AddedAddresses(c, EthTransfer(codec, m), address);
      EtherIsEther(codec, Answers(None, None, []), m, "", Some(address), Out);
      EtherIsEther(codec, Answers(None, None, []), m, "", Some(address), In);
    }
  }

  /** A stored message has one row for every address it touches, and no other row. */
  lemma RowsAreOfTouched(codec: Codec, m: Message, a: Answers, address: string)
    requires IsStored(codec, m, a)
    ensures FindRow(ParsedRows(codec, m, a).value, RowKey(m.hash, address)).Some? <==> Touches(codec, m, address)
  {
    hide Collect, Touches, SubsOf, FindRow;
    KeysOfMessage(codec, m, a, RowKey(m.hash, address));
    AddressesByMessage(codec, m, address);
  }

  /** An attempt that succeeds is acknowledged. Of a message that touches some address, the
      acknowledged attempt has stored a row for every one of them if and only if the node knew
      its gas; otherwise it has stored none. */
  lemma AcknowledgedIsStoredIff(codec: Codec, m: Message, a: Answers)
    requires ParsedRows(codec, m, a).Ok? && exists address :: Touches(codec, m, address)
    ensures var rows := ParsedRows(codec, m, a).value;
            && ((forall address :: Touches(codec, m, address) ==> FindRow(rows, RowKey(m.hash, address)).Some?)
                <==> a.gasUsed != Some(0))
            && (a.gasUsed == Some(0) ==> rows == [])
  {
    hide Touches, FindRow, SubsOf, Collect;
    var rows := ParsedRows(codec, m, a).value;
    if IsStored(codec, m, a) {
      forall address
        ensures Touches(codec, m, address) ==> FindRow(rows, RowKey(m.hash, address)).Some?
      {
        RowsAreOfTouched(codec, m, a, address);
      }
    } else {
      var address :| Touches(codec, m, address);
      NoGasNoRows(codec, m, a);
      FindRowMeans(rows, RowKey(m.hash, address));
    }
  }

  // ---------------------------------------------------------------------------------------
  // What a row says
  // ---------------------------------------------------------------------------------------

  /** Every row carries the message's own fields, its ends lower-cased, and its fee in dollars:
      gas times gas price, in units of a 10^18th of the ether price. */
  lemma RowTellsMessage(codec: Codec, m: Message, a: Answers, i: nat)
    requires IsStored(codec, m, a) && i < |ParsedRows(codec, m, a).value|
    ensures var row := ParsedRows(codec, m, a).value[i];
            && row.hash == m.hash && row.blockNumber == m.blockNumber && row.timestamp == m.timestamp
            && (m.from.Some? ==> row.sender == Some(codec.lower(m.from.value))) && (m.from.None? ==> row.sender.None?)
            && (m.to.Some? ==> row.destination == Some(codec.lower(m.to.value)))
            && (m.to.None? ==> row.destination.None?)
            && row.gasPrice == m.gasPrice && a.gasUsed == Some(row.gasUsed)
            && (m.chainId != 0 ==> row.chainId == m.chainId) && (m.chainId == 0 ==> row.chainId == 1)
            && a.prices.Some? && ETH_ADDRESS in a.prices.value && a.prices.value[ETH_ADDRESS].Some?
            && row.feeUsd * Pow10(18) == row.gasUsed as real * m.gasPrice as real * a.prices.value[ETH_ADDRESS].value
  {
    hide Collect, LegsFrom, FeeUsd, OperationOf, SubsAt;
    FeeInUnits(a.gasUsed.value, m.gasPrice, EthPrice(a).value);
  }

  lemma FeeInUnits(gasUsed: nat, gasPrice: nat, ethPrice: real)
    ensures FeeUsd(gasUsed, gasPrice, ethPrice) * Pow10(18) == gasUsed as real * gasPrice as real * ethPrice
  {
    var wei, unit := gasUsed as real * gasPrice as real, Pow10(18);
    assert wei / unit * unit == wei;
    assert (wei / unit * ethPrice) * unit == (wei / unit * unit) * ethPrice;
  }

  /** An end of a leg: the topic's address, or none when the topic has none. */
  predicate EndTells(codec: Codec, topic: Option<string>, end: Option<string>) {
    if Names(codec, topic, None) then end == codec.decode(topic.value) else end.None?
  }

  predicate SideTells(codec: Codec, side: Option<string>, end: Option<string>) {
    if IsSide(codec, side, None) then end == Some(codec.lower(side.value)) else end.None?
  }

  predicate LegOfEvent(codec: Codec, a: Answers, e: Event, s: SubTransaction) {
    && EventMoves(codec, a, e, Some(s.address), s.leg) && s.tokenAddress == codec.lower(e.address)
    && e.data.Quantity? && s.amount * Pow10(s.decimals) == e.data.value as real
    && EndTells(codec, e.topic2, s.from) && EndTells(codec, e.topic3, s.to)
  }

  predicate LegOfEther(codec: Codec, a: Answers, m: Message, s: SubTransaction) {
    && EtherMoves(codec, a, m, Some(s.address), s.leg) && s.tokenAddress == ETH_ADDRESS
    && s.amount * Pow10(s.decimals) == m.value as real
    && SideTells(codec, m.from, s.from) && SideTells(codec, m.to, s.to)
  }

  /** The leg carries its token's symbol, decimals and price. */
  predicate AssetTells(a: Answers, s: SubTransaction) {
    && FindAsset(a.assets, s.tokenAddress).Some? && a.prices.Some? && s.tokenAddress in a.prices.value
    && s.symbol == FindAsset(a.assets, s.tokenAddress).value.symbol
    && s.decimals == FindAsset(a.assets, s.tokenAddress).value.decimals
    && s.price == a.prices.value[s.tokenAddress]
  }

  /** The leg is one of the transfer's. */
  predicate LegOf(a: Answers, t: Transfer, s: SubTransaction) {
    && IsKept(a, t) && HasEnd(t, Some(s.address), s.leg) && s.tokenAddress == t.token && AssetTells(a, s)
    && t.data.Quantity? && s.amount * Pow10(s.decimals) == t.data.value as real
    && s.from == OrNull(t.from) && s.to == OrNull(t.to)
  }

  ghost predicate LegsOfTransfers(a: Answers, transfers: seq<Transfer>, subs: seq<SubTransaction>) {
    forall s :: s in subs ==> exists t :: t in transfers && LegOf(a, t, s)
  }

  lemma LegsAreLegs(a: Answers, t: Transfer)
    requires a.prices.Some? && LegsOf(a, t).Ok?
    ensures forall s :: s in LegsOf(a, t).value ==> LegOf(a, t, s)
  {
  }

  lemma {:induction false} AllLegsAreLegs(a: Answers, done: seq<Transfer>, transfers: seq<Transfer>,
                                          subs: seq<SubTransaction>)
    requires a.prices.Some? && LegsFrom(a, transfers, subs).Ok? && LegsOfTransfers(a, done, subs)
    ensures LegsOfTransfers(a, done + transfers, LegsFrom(a, transfers, subs).value)
    decreases |transfers|
  {
    hide LegsOf, LegOf;
    if transfers == [] {
      assert done + transfers == done;
    } else {
      var t, legs := transfers[0], LegsOf(a, transfers[0]).value;
      LegsAreLegs(a, t);
      assert t in done + [t];
      forall s | s in subs + legs
        ensures exists x :: x in done + [t] && LegOf(a, x, s)
      {
        if s in subs {
          var x :| x in done && LegOf(a, x, s);
          assert x in done + [t];
        }
      }
      AllLegsAreLegs(a, done + [t], transfers[1..], subs + legs);
      assert done + [t] + transfers[1..] == done + transfers;
    }
  }

  lemma {:induction false} TransfersHaveEvents(codec: Codec, events: seq<Event>, c: Collected, t: Transfer)
    requires CollectEvents(codec, events, c).Ok? && t in CollectEvents(codec, events, c).value.transfers
    ensures t in c.transfers
            || exists e :: e in events && e.topic1 == ETH_TRANSFER_TOPIC && TransferOf(codec, e) == Ok(t)
    decreases |events|
  {
    hide TransferOf;
    if events != [] {
      if events[0].topic1 == ETH_TRANSFER_TOPIC {
        TransfersHaveEvents(codec, events[1..], AddTransfer(c, TransferOf(codec, events[0]).value), t);
        assert TransferOf(codec, events[0]) == Ok(t) ==> events[0] in events;
      } else {
        TransfersHaveEvents(codec, events[1..], c, t);
      }
    }
  }

  lemma EventLegTells(codec: Codec, a: Answers, e: Event, s: SubTransaction)
    requires e.topic1 == ETH_TRANSFER_TOPIC && TransferOf(codec, e).Ok? && LegOf(a, TransferOf(codec, e).value, s)
    ensures LegOfEvent(codec, a, e, s)
  {
    TransferIsEvent(codec, a, e, "", Some(s.address), s.leg);
    hide AssetTells, HasEnd;
  }

  lemma EtherLegTells(codec: Codec, a: Answers, m: Message, s: SubTransaction)
    requires m.value != 0 && LegOf(a, EthTransfer(codec, m), s)
    ensures LegOfEther(codec, a, m, s)
  {
    EtherIsEther(codec, a, m, "", Some(s.address), s.leg);
    hide AssetTells, HasEnd;
  }

  /** Every leg of a row is the leg of one event of the message, or of its ether, and says what
      that moved, between whom, and at which price. */
  lemma LegsTellTheMessage(codec: Codec, m: Message, a: Answers, i: nat, s: SubTransaction)
    requires IsStored(codec, m, a) && i < |ParsedRows(codec, m, a).value|
    requires s in ParsedRows(codec, m, a).value[i].subTransactions
    ensures s.address == ParsedRows(codec, m, a).value[i].address && AssetTells(a, s)
    ensures (exists e :: e in m.events && LegOfEvent(codec, a, e, s)) || LegOfEther(codec, a, m, s)
  {
    hide LegsFrom, CollectEvents, FeeUsd, OperationOf, SubsAt, LegOf, LegOfEvent, LegOfEther, TransferOf, EthTransfer,
         AddTransfer;
    var transfers := TransfersIn(codec, m);
    SubsAtHas(SubsOf(a, transfers).value, ParsedRows(codec, m, a).value[i].address, s);
    AllLegsAreLegs(a, [], transfers, []);
    assert [] + transfers == transfers;
    var t :| t in transfers && LegOf(a, t, s);
    LegKnowsAsset(a, t, s);
    var c := CollectEvents(codec, m.events, Collected([], [])).value;
    if t in c.transfers {
      TransfersHaveEvents(codec, m.events, Collected([], []), t);
      var e :| e in m.events && e.topic1 == ETH_TRANSFER_TOPIC && TransferOf(codec, e) == Ok(t);
      EventLegTells(codec, a, e, s);
    } else {
      EtherIsLast(codec, m, t);
      EtherLegTells(codec, a, m, s);
    }
  }

  lemma LegKnowsAsset(a: Answers, t: Transfer, s: SubTransaction)
    requires LegOf(a, t, s)
    ensures AssetTells(a, s)
  {
  }

  lemma EtherIsLast(codec: Codec, m: Message, t: Transfer)
    requires Collect(codec, m).Ok? && t in Collect(codec, m).value.transfers
    requires t !in CollectEvents(codec, m.events, Collected([], [])).value.transfers
    ensures m.value != 0 && t == EthTransfer(codec, m)
  {
    hide CollectEvents;
  }

  // ---------------------------------------------------------------------------------------
  // What makes a message fail
  // ---------------------------------------------------------------------------------------

  predicate Decodes(codec: Codec, topic: Option<string>) {
    topic.None? || topic.value == "" || codec.decode(topic.value).Some?
  }

  /** The price service knows the token and its data has been filled in. */
  predicate IsReady(a: Answers, token: string)
    requires FindAsset(a.assets, token).Some?
  {
    a.prices.Some? && token in a.prices.value && FindAsset(a.assets, token).value.isDataPresent
  }

  predicate EventIsFine(codec: Codec, a: Answers, e: Event) {
    && (e.topic1 == ETH_TRANSFER_TOPIC ==> Decodes(codec, e.topic2) && Decodes(codec, e.topic3))
    && (IsKeptEvent(codec, a, e) ==> IsReady(a, codec.lower(e.address)) && !e.data.BadData?)
  }

  /** The ether price is known and not zero. */
  predicate HasEtherPrice(a: Answers) {
    a.prices.Some? && ETH_ADDRESS in a.prices.value && a.prices.value[ETH_ADDRESS] !in {None, Some(0.0)}
  }

  ghost predicate AllLegs(a: Answers, transfers: seq<Transfer>)
    requires a.prices.Some?
  {
    forall t :: t in transfers ==> LegsOf(a, t).Ok?
  }

  lemma {:induction false} LegsFromOk(a: Answers, transfers: seq<Transfer>, subs: seq<SubTransaction>)
    requires a.prices.Some?
    ensures LegsFrom(a, transfers, subs).Ok? <==> AllLegs(a, transfers)
    decreases |transfers|
  {
    hide LegsOf;
    if transfers != [] {
      assert transfers == [transfers[0]] + transfers[1..];
      if LegsOf(a, transfers[0]).Ok? {
        LegsFromOk(a, transfers[1..], subs + LegsOf(a, transfers[0]).value);
      } else {
        assert transfers[0] in transfers;
      }
    }
  }

  lemma EventOk(codec: Codec, a: Answers, e: Event)
    requires a.prices.Some? && e.topic1 == ETH_TRANSFER_TOPIC
    ensures EventIsFine(codec, a, e)
            <==> TransferOf(codec, e).Ok? && LegsOf(a, TransferOf(codec, e).value).Ok?
  {
  }

  lemma LegsPush(a: Answers, c: Collected, t: Transfer)
    requires a.prices.Some?
    ensures AllLegs(a, AddTransfer(c, t).transfers) <==> AllLegs(a, c.transfers) && LegsOf(a, t).Ok?
  {
    hide LegsOf;
    assert t in c.transfers + [t];
    forall x
      ensures x in c.transfers + [t] <==> x in c.transfers || x == t
    {
    }
  }

  lemma {:induction false} EventsOk(codec: Codec, a: Answers, events: seq<Event>, c: Collected)
    requires a.prices.Some?
    ensures CollectEvents(codec, events, c).Ok? && AllLegs(a, CollectEvents(codec, events, c).value.transfers)
            <==> AllLegs(a, c.transfers) && forall e :: e in events ==> EventIsFine(codec, a, e)
    decreases |events|
  {
    hide TransferOf, LegsOf, AllLegs, EventIsFine, AddTransfer;
    if events != [] {
      assert events == [events[0]] + events[1..];
      if events[0].topic1 == ETH_TRANSFER_TOPIC {
        EventOk(codec, a, events[0]);
        if TransferOf(codec, events[0]).Ok? {
          var t := TransferOf(codec, events[0]).value;
          LegsPush(a, c, t);
          EventsOk(codec, a, events[1..], AddTransfer(c, t));
        }
      } else {
        OtherEventIsFine(codec, a, events[0]);
        EventsOk(codec, a, events[1..], c);
      }
    }
  }

  lemma OtherEventIsFine(codec: Codec, a: Answers, e: Event)
    requires e.topic1 != ETH_TRANSFER_TOPIC
    ensures EventIsFine(codec, a, e)
  {
  }

  lemma EtherOk(codec: Codec, a: Answers, m: Message)
    requires a.prices.Some? && m.value != 0
    ensures LegsOf(a, EthTransfer(codec, m)).Ok? <==> (EtherIsKept(a, m) ==> IsReady(a, ETH_ADDRESS))
  {
  }

  lemma NoLegs(a: Answers)
    requires a.prices.Some?
    ensures AllLegs(a, [])
  {
  }

  /** A message is acknowledged exactly when its receipt is there and either it has no gas or
      everything its rows need is: the ether price, decodable ends, and for every kept transfer
      a price, the token's data and a proper amount. */
  lemma ParsedIff(codec: Codec, m: Message, a: Answers)
    ensures ParsedRows(codec, m, a).Ok? <==>
            && a.gasUsed.Some?
            && (a.gasUsed != Some(0) ==>
                  && HasEtherPrice(a)
                  && (forall e :: e in m.events ==> EventIsFine(codec, a, e))
                  && (EtherIsKept(a, m) ==> IsReady(a, ETH_ADDRESS)))
  {
    hide CollectEvents, LegsFrom, AllLegs, EventIsFine, IsReady, EtherIsKept, FeeUsd, RowsOf, LegsOf, EthTransfer,
         AddTransfer;
    if a.prices.Some? {
      NoLegs(a);
      EventsOk(codec, a, m.events, Collected([], []));
      var collected := CollectEvents(codec, m.events, Collected([], []));
      if collected.Ok? {
        var c := collected.value;
        LegsFromOk(a, c.transfers, []);
        if m.value != 0 {
          LegsPush(a, c, EthTransfer(codec, m));
          LegsFromOk(a, AddTransfer(c, EthTransfer(codec, m)).transfers, []);
          EtherOk(codec, a, m);
        } else {
          NoEtherToKeep(a, m);
        }
      }
    }
  }

  lemma NoEtherToKeep(a: Answers, m: Message)
    requires m.value == 0
    ensures !EtherIsKept(a, m)
  {
  }
}
