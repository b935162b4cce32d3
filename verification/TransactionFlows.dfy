/** What the stored rows of a transaction say about its message: every amount, kind and field is
    traced back to the message's own events and its ether transfer. */
module TransactionFlows {
  import opened Decimals
  import opened Multisets
  import opened SubTransactions
  import opened TransactionAccounting
  import opened TransactionRows
  import opened Wrappers

  // ---------------------------------------------------------------------------------------
  // What the message says
  // ---------------------------------------------------------------------------------------

  /** A Transfer event names its sender in the second topic and its receiver in the third. */
  function TopicOf(e: Event, leg: Leg): Option<string> {
    match leg
    case Out => e.topic2
    case In => e.topic3
  }

  /** The topic is that of an address; of the one given, if one is given. */
  predicate Names(codec: Codec, topic: Option<string>, at: Option<string>) {
    && topic.Some? && topic.value != ""
    && codec.decode(topic.value).Some? && codec.decode(topic.value).value != ""
    && (at.Some? ==> codec.decode(topic.value) == at)
  }

  function SideOf(m: Message, leg: Leg): Option<string> {
    match leg
    case Out => m.from
    case In => m.to
  }

  predicate IsSide(codec: Codec, side: Option<string>, at: Option<string>) {
    side.Some? && codec.lower(side.value) != "" && (at.Some? ==> codec.lower(side.value) == at.value)
  }

  /** A Transfer event with data, of a token the database knows. */
  predicate IsKeptEvent(codec: Codec, a: Answers, e: Event) {
    e.topic1 == ETH_TRANSFER_TOPIC && !e.data.NoData? && FindAsset(a.assets, codec.lower(e.address)).Some?
  }

  /** The event moves its token from (`Out`) or to (`In`) an address: the given one, if any. */
  predicate EventMoves(codec: Codec, a: Answers, e: Event, at: Option<string>, leg: Leg) {
    IsKeptEvent(codec, a, e) && Names(codec, TopicOf(e, leg), at)
  }

  predicate EtherIsKept(a: Answers, m: Message) {
    m.value != 0 && FindAsset(a.assets, ETH_ADDRESS).Some?
  }

  predicate EtherMoves(codec: Codec, a: Answers, m: Message, at: Option<string>, leg: Leg) {
    EtherIsKept(a, m) && IsSide(codec, SideOf(m, leg), at)
  }

  function EventAmount(codec: Codec, a: Answers, e: Event, token: string, at: Option<string>, leg: Leg): real {
    if EventMoves(codec, a, e, at, leg) && codec.lower(e.address) == token && e.data.Quantity?
    then e.data.value as real / Pow10(FindAsset(a.assets, token).value.decimals)
    else 0.0
  }

  /** The amount of a token these events move from or to the address, or any. */
  function EventsAmount(codec: Codec, a: Answers, events: seq<Event>, token: string, at: Option<string>,
                        leg: Leg): real {
    if events == [] then 0.0
    else EventAmount(codec, a, events[0], token, at, leg) + EventsAmount(codec, a, events[1..], token, at, leg)
  }

  function EtherAmount(codec: Codec, a: Answers, m: Message, token: string, at: Option<string>, leg: Leg): real {
    if EtherMoves(codec, a, m, at, leg) && token == ETH_ADDRESS
    then m.value as real / Pow10(FindAsset(a.assets, ETH_ADDRESS).value.decimals)
    else 0.0
  }

  /** What the message as a whole moves. */
  function MessageAmount(codec: Codec, a: Answers, m: Message, token: string, at: Option<string>, leg: Leg): real {
    EventsAmount(codec, a, m.events, token, at, leg) + EtherAmount(codec, a, m, token, at, leg)
  }

  ghost predicate MessageMoves(codec: Codec, a: Answers, m: Message, address: string, leg: Leg) {
    || (exists e :: e in m.events && EventMoves(codec, a, e, Some(address), leg))
    || EtherMoves(codec, a, m, Some(address), leg)
  }

  // ---------------------------------------------------------------------------------------
  // Amounts
  // ---------------------------------------------------------------------------------------

  predicate IsKept(a: Answers, t: Transfer) {
    !t.data.NoData? && FindAsset(a.assets, t.token).Some?
  }

  function EndOf(t: Transfer, leg: Leg): Option<string> {
    if leg.Out? then t.from else t.to
  }

  predicate HasEnd(t: Transfer, at: Option<string>, leg: Leg) {
    Truthy(EndOf(t, leg)) && (at.Some? ==> EndOf(t, leg) == at)
  }

  function Weight(s: SubTransaction, token: string, leg: Leg): real {
    if s.tokenAddress == token && s.leg == leg then s.amount else 0.0
  }

  /** The amount of a token over the legs of one direction. */
  function Flow(subs: seq<SubTransaction>, token: string, leg: Leg): real {
    if subs == [] then 0.0 else Flow(subs[..|subs| - 1], token, leg) + Weight(subs[|subs| - 1], token, leg)
  }

  /** The legs of one address, or all. */
  function Own(subs: seq<SubTransaction>, at: Option<string>): seq<SubTransaction> {
    match at
    case Some(address) => SubsAt(subs, address)
    case None => subs
  }

  function WeightOfTransfer(a: Answers, t: Transfer, token: string, at: Option<string>, leg: Leg): real {
    if IsKept(a, t) && t.token == token && t.data.Quantity? && HasEnd(t, at, leg)
    then AmountOf(FindAsset(a.assets, t.token).value, t.data.value) else 0.0
  }

  function Moved(a: Answers, transfers: seq<Transfer>, token: string, at: Option<string>, leg: Leg): real {
    if transfers == [] then 0.0
    else WeightOfTransfer(a, transfers[0], token, at, leg) + Moved(a, transfers[1..], token, at, leg)
  }

  lemma {:induction false} FlowPlus(x: seq<SubTransaction>, y: seq<SubTransaction>, token: string, leg: Leg)
    ensures Flow(x + y, token, leg) == Flow(x, token, leg) + Flow(y, token, leg)
  {
    hide Weight;
    if y == [] {
      assert x + y == x;
    } else {
      FlowPlus(x, y[..|y| - 1], token, leg);
      assert (x + y)[..|x + y| - 1] == x + y[..|y| - 1];
    }
  }

  lemma {:induction false} FlowWithout(s: seq<SubTransaction>, i: nat, token: string, leg: Leg)
    requires i < |s|
    ensures Flow(s, token, leg) == Flow(s[..i] + s[i + 1..], token, leg) + Weight(s[i], token, leg)
  {
    hide Weight;
    FlowPlus(s[..i] + [s[i]], s[i + 1..], token, leg);
    FlowPlus(s[..i], [s[i]], token, leg);
    FlowPlus(s[..i], s[i + 1..], token, leg);
    assert s == s[..i] + [s[i]] + s[i + 1..];
    assert [s[i]][..0] == [];
  }

  lemma {:induction false} FlowPermutes(x: seq<SubTransaction>, y: seq<SubTransaction>, token: string, leg: Leg)
    requires multiset(x) == multiset(y)
    ensures Flow(x, token, leg) == Flow(y, token, leg)
  {
    hide Weight;
    if x == [] {
      assert |multiset(y)| == |y| == 0;
    } else {
      var i := MatchLast(x, y);
      FlowPermutes(x[..|x| - 1], y[..i] + y[i + 1..], token, leg);
      FlowWithout(y, i, token, leg);
    }
  }

  lemma {:induction false} SubsAtPlus(x: seq<SubTransaction>, y: seq<SubTransaction>, address: string)
    ensures SubsAt(x + y, address) == SubsAt(x, address) + SubsAt(y, address)
  {
    if y == [] {
      assert x + y == x;
    } else {
      SubsAtPlus(x, y[..|y| - 1], address);
      assert (x + y)[..|x + y| - 1] == x + y[..|y| - 1];
    }
  }

  lemma OwnFlowPlus(x: seq<SubTransaction>, y: seq<SubTransaction>, token: string, at: Option<string>, leg: Leg)
    ensures Flow(Own(x + y, at), token, leg) == Flow(Own(x, at), token, leg) + Flow(Own(y, at), token, leg)
  {
    FlowPlus(Own(x, at), Own(y, at), token, leg);
    if at.Some? {
      SubsAtPlus(x, y, at.value);
    }
  }

  lemma FlowOfNothing(token: string, at: Option<string>, leg: Leg)
    ensures Flow(Own([], at), token, leg) == 0.0
  {
  }

  lemma FlowOfSub(sub: SubTransaction, token: string, at: Option<string>, leg: Leg)
    ensures Flow(Own([sub], at), token, leg) ==
            if at.Some? && sub.address != at.value then 0.0 else Weight(sub, token, leg)
  {
    assert [sub][..0] == [];
    assert SubsAt([], sub.address) == [] && SubsAt([sub], sub.address) == [] + [sub];
    if at.Some? {
      assert SubsAt([], at.value) == [];
      assert SubsAt([sub], at.value) == if sub.address == at.value then [] + [sub] else [];
    }
  }

  lemma FlowOfOne(asset: AssetRow, price: Option<real>, t: Transfer, leg: Leg, token: string, at: Option<string>,
                  direction: Leg)
    requires t.data.Quantity?
    ensures Flow(Own(SubOf(asset, price, t, leg), at), token, direction) ==
            if leg == direction && asset.address == token && HasEnd(t, at, leg) then AmountOf(asset, t.data.value)
              else 0.0
  {
    hide AmountOf, Flow, Own;
    var subs := SubOf(asset, price, t, leg);
    if subs == [] {
      FlowOfNothing(token, at, direction);
    } else {
      FlowOfSub(subs[0], token, at, direction);
    }
  }

  lemma FlowOfLegs(a: Answers, t: Transfer, token: string, at: Option<string>, leg: Leg)
    requires a.prices.Some? && LegsOf(a, t).Ok?
    ensures Flow(Own(LegsOf(a, t).value, at), token, leg) == WeightOfTransfer(a, t, token, at, leg)
  {
    hide AmountOf, Flow, SubOf, Own, HasEnd;
    if IsKept(a, t) {
      var asset := FindAsset(a.assets, t.token).value;
      var price := a.prices.value[asset.address];
      OwnFlowPlus(SubOf(asset, price, t, In), SubOf(asset, price, t, Out), token, at, leg);
      FlowOfOne(asset, price, t, In, token, at, leg);
      FlowOfOne(asset, price, t, Out, token, at, leg);
    } else {
      FlowOfNothing(token, at, leg);
    }
  }

  lemma {:induction false} FlowOfAll(a: Answers, transfers: seq<Transfer>, subs: seq<SubTransaction>, token: string,
                                     at: Option<string>, leg: Leg)
    requires a.prices.Some? && LegsFrom(a, transfers, subs).Ok?
    ensures Flow(Own(LegsFrom(a, transfers, subs).value, at), token, leg)
            == Flow(Own(subs, at), token, leg) + Moved(a, transfers, token, at, leg)
    decreases |transfers|
  {
    hide LegsOf, WeightOfTransfer, Flow, Own;
    if transfers != [] {
      var legs := LegsOf(a, transfers[0]).value;
      FlowOfLegs(a, transfers[0], token, at, leg);
      OwnFlowPlus(subs, legs, token, at, leg);
      FlowOfAll(a, transfers[1..], subs + legs, token, at, leg);
    }
  }

  lemma {:induction false} MovedPush(a: Answers, transfers: seq<Transfer>, t: Transfer, token: string,
                                     at: Option<string>, leg: Leg)
    ensures Moved(a, transfers + [t], token, at, leg)
            == Moved(a, transfers, token, at, leg) + WeightOfTransfer(a, t, token, at, leg)
  {
    hide WeightOfTransfer;
    if transfers == [] {
      assert transfers + [t] == [t] && [t][1..] == [];
    } else {
      assert (transfers + [t])[1..] == transfers[1..] + [t];
      MovedPush(a, transfers[1..], t, token, at, leg);
    }
  }

  /** A collected transfer moves what its event moves. */
  lemma TransferIsEvent(codec: Codec, a: Answers, e: Event, token: string, at: Option<string>, leg: Leg)
    requires e.topic1 == ETH_TRANSFER_TOPIC && TransferOf(codec, e).Ok?
    ensures var t := TransferOf(codec, e).value;
            && WeightOfTransfer(a, t, token, at, leg) == EventAmount(codec, a, e, token, at, leg)
            && (IsKept(a, t) <==> IsKeptEvent(codec, a, e))
            && (HasEnd(t, at, leg) <==> Names(codec, TopicOf(e, leg), at))
  {
  }

  lemma EtherIsEther(codec: Codec, a: Answers, m: Message, token: string, at: Option<string>, leg: Leg)
    requires m.value != 0
    ensures var t := EthTransfer(codec, m);
            && WeightOfTransfer(a, t, token, at, leg) == EtherAmount(codec, a, m, token, at, leg)
            && (IsKept(a, t) <==> EtherIsKept(a, m))
            && (HasEnd(t, at, leg) <==> IsSide(codec, SideOf(m, leg), at))
  {
  }

  lemma {:induction false} MovedByEvents(codec: Codec, a: Answers, events: seq<Event>, c: Collected, token: string,
                                         at: Option<string>, leg: Leg)
    requires CollectEvents(codec, events, c).Ok?
    ensures Moved(a, CollectEvents(codec, events, c).value.transfers, token, at, leg)
            == Moved(a, c.transfers, token, at, leg) + EventsAmount(codec, a, events, token, at, leg)
    decreases |events|
  {
    hide TransferOf, WeightOfTransfer, EventAmount, Moved;
    if events != [] {
      if events[0].topic1 == ETH_TRANSFER_TOPIC {
        var t := TransferOf(codec, events[0]).value;
        TransferIsEvent(codec, a, events[0], token, at, leg);
        MovedPush(a, c.transfers, t, token, at, leg);
        MovedByEvents(codec, a, events[1..], AddTransfer(c, t), token, at, leg);
      } else {
        OtherEventsMoveNothing(codec, a, events[0], token, at, leg);
        MovedByEvents(codec, a, events[1..], c, token, at, leg);
      }
    }
  }

  lemma OtherEventsMoveNothing(codec: Codec, a: Answers, e: Event, token: string, at: Option<string>, leg: Leg)
    requires e.topic1 != ETH_TRANSFER_TOPIC
    ensures EventAmount(codec, a, e, token, at, leg) == 0.0
  {
  }

  lemma MovedByMessage(codec: Codec, a: Answers, m: Message, token: string, at: Option<string>, leg: Leg)
    requires Collect(codec, m).Ok?
    ensures Moved(a, TransfersIn(codec, m), token, at, leg) == MessageAmount(codec, a, m, token, at, leg)
  {
    hide WeightOfTransfer, EventAmount, EventsAmount, EtherAmount, CollectEvents;
    var c := CollectEvents(codec, m.events, Collected([], [])).value;
    MovedByEvents(codec, a, m.events, Collected([], []), token, at, leg);
    if m.value != 0 {
      MovedPush(a, c.transfers, EthTransfer(codec, m), token, at, leg);
      EtherIsEther(codec, a, m, token, at, leg);
    } else {
      NoEtherNoAmount(codec, a, m, token, at, leg);
    }
  }

  lemma NoEtherNoAmount(codec: Codec, a: Answers, m: Message, token: string, at: Option<string>, leg: Leg)
    requires m.value == 0
    ensures EtherAmount(codec, a, m, token, at, leg) == 0.0
  {
  }

  /** The row of an address carries exactly what the message moves to and from it: the amounts of
      the events that name it, and the message's own ether. */
  lemma RowCarriesItsMoves(codec: Codec, m: Message, a: Answers, i: nat, token: string, leg: Leg)
    requires IsStored(codec, m, a) && i < |ParsedRows(codec, m, a).value|
    ensures var row := ParsedRows(codec, m, a).value[i];
            Flow(row.subTransactions, token, leg) == MessageAmount(codec, a, m, token, Some(row.address), leg)
  {
    hide Collect, LegsFrom, Flow, Moved, MessageAmount, SubsAt;
    var row := ParsedRows(codec, m, a).value[i];
    var transfers, at := TransfersIn(codec, m), Some(row.address);
    assert row.subTransactions == Own(SubsOf(a, transfers).value, at);
    FlowOfAll(a, transfers, [], token, at, leg);
    FlowOfNothing(token, at, leg);
    MovedByMessage(codec, a, m, token, at, leg);
  }

  /** Over all rows of a message, the incoming amounts of a token are those the message moves to
      some address, and the outgoing ones those it moves from one. */
  lemma RowsCarryTheMessage(codec: Codec, m: Message, a: Answers, token: string, leg: Leg)
    requires IsStored(codec, m, a)
    ensures Flow(SubsOfRows(ParsedRows(codec, m, a).value), token, leg) == MessageAmount(codec, a, m, token, None, leg)
  {
    EverySubInOneRow(codec, m, a);
    hide Collect, LegsFrom, RowsOf, Flow, Moved, MessageAmount;
    var transfers := TransfersIn(codec, m);
    FlowPermutes(SubsOfRows(ParsedRows(codec, m, a).value), SubsOf(a, transfers).value, token, leg);
    FlowOfAll(a, transfers, [], token, None, leg);
    FlowOfNothing(token, None, leg);
    MovedByMessage(codec, a, m, token, None, leg);
  }

  /** Whatever moves the token out of one address moves it into another. */
  ghost predicate HasBothEnds(codec: Codec, a: Answers, m: Message, token: string) {
    && (forall e :: e in m.events && codec.lower(e.address) == token ==>
          (EventMoves(codec, a, e, None, In) <==> EventMoves(codec, a, e, None, Out)))
    && (token == ETH_ADDRESS ==> (EtherMoves(codec, a, m, None, In) <==> EtherMoves(codec, a, m, None, Out)))
  }

  lemma {:induction false} EventsBalance(codec: Codec, a: Answers, events: seq<Event>, token: string)
    requires forall e :: e in events && codec.lower(e.address) == token ==>
               (EventMoves(codec, a, e, None, In) <==> EventMoves(codec, a, e, None, Out))
    ensures EventsAmount(codec, a, events, token, None, In) == EventsAmount(codec, a, events, token, None, Out)
  {
    hide EventMoves;
    if events != [] {
      assert events[0] in events;
      EventsBalance(codec, a, events[1..], token);
    }
  }

  /** Conservation: what comes in is what goes out, token by token, whenever what moves the token
      has both ends or none. */
  lemma TransfersBalance(codec: Codec, m: Message, a: Answers, token: string)
    requires IsStored(codec, m, a) && HasBothEnds(codec, a, m, token)
    ensures var subs := SubsOfRows(ParsedRows(codec, m, a).value);
            Flow(subs, token, In) == Flow(subs, token, Out)
  {
    hide IsStored, EventMoves, EtherMoves, Flow;
    RowsCarryTheMessage(codec, m, a, token, In);
    RowsCarryTheMessage(codec, m, a, token, Out);
    EventsBalance(codec, a, m.events, token);
  }

  // ---------------------------------------------------------------------------------------
  // Kinds
  // ---------------------------------------------------------------------------------------

  /** Some kept transfer has the address at this end. */
  ghost predicate Moves(a: Answers, transfers: seq<Transfer>, address: string, leg: Leg) {
    exists t :: t in transfers && IsKept(a, t) && HasEnd(t, Some(address), leg)
  }

  ghost predicate HasSub(subs: seq<SubTransaction>, address: string, leg: Leg) {
    exists s :: s in subs && s.address == address && s.leg == leg
  }

  lemma LegsOfMean(a: Answers, t: Transfer, address: string, leg: Leg)
    requires a.prices.Some? && LegsOf(a, t).Ok?
    ensures HasSub(LegsOf(a, t).value, address, leg) <==> IsKept(a, t) && HasEnd(t, Some(address), leg)
  {
    hide AmountOf;
    var legs := LegsOf(a, t).value;
    if IsKept(a, t) && HasEnd(t, Some(address), leg) {
      var asset := FindAsset(a.assets, t.token).value;
      var own := SubOf(asset, a.prices.value[asset.address], t, leg);
      assert own[0] in own && own[0] in legs;
    }
  }

  lemma {:induction false} LegsMean(a: Answers, transfers: seq<Transfer>, subs: seq<SubTransaction>, address: string,
                                    leg: Leg)
    requires a.prices.Some? && LegsFrom(a, transfers, subs).Ok?
    ensures HasSub(LegsFrom(a, transfers, subs).value, address, leg)
            <==> HasSub(subs, address, leg) || Moves(a, transfers, address, leg)
    decreases |transfers|
  {
    hide LegsOf, IsKept, HasEnd;
    if transfers != [] {
      var legs := LegsOf(a, transfers[0]).value;
      LegsOfMean(a, transfers[0], address, leg);
      LegsMean(a, transfers[1..], subs + legs, address, leg);
      assert HasSub(subs + legs, address, leg) <==> HasSub(subs, address, leg) || HasSub(legs, address, leg);
      assert transfers == [transfers[0]] + transfers[1..];
      assert Moves(a, transfers, address, leg)
             <==> HasSub(legs, address, leg) || Moves(a, transfers[1..], address, leg);
    }
  }

  lemma HasLegMeans(subs: seq<SubTransaction>, address: string, leg: Leg)
    ensures HasLeg(SubsAt(subs, address), leg) <==> HasSub(subs, address, leg)
  {
    var own := SubsAt(subs, address);
    forall s
      ensures s in own <==> s in subs && s.address == address
    {
      SubsAtHas(subs, address, s);
    }
    hide SubsAt;
    if HasSub(subs, address, leg) {
      var s :| s in subs && s.address == address && s.leg == leg;
      assert s in own;
    }
    if HasLeg(own, leg) {
      var i :| 0 <= i < |own| && own[i].leg == leg;
      assert own[i] in own;
    }
  }

  lemma LegsAreAll(own: seq<SubTransaction>)
    ensures own != [] <==> HasLeg(own, In) || HasLeg(own, Out)
  {
    if own != [] {
      assert own[0].leg == In || own[0].leg == Out;
    }
  }

  /** Some event of these moves its token to or from the address. */
  ghost predicate EventsMove(codec: Codec, a: Answers, events: seq<Event>, address: string, leg: Leg) {
    exists e :: e in events && EventMoves(codec, a, e, Some(address), leg)
  }

  lemma MovesPush(a: Answers, transfers: seq<Transfer>, t: Transfer, address: string, leg: Leg)
    ensures Moves(a, transfers + [t], address, leg)
            <==> Moves(a, transfers, address, leg) || (IsKept(a, t) && HasEnd(t, Some(address), leg))
  {
    hide IsKept, HasEnd;
    forall x
      ensures x in transfers + [t] <==> x in transfers || x == t
    {
    }
  }

  lemma {:induction false} MovesByEvents(codec: Codec, a: Answers, events: seq<Event>, c: Collected, address: string,
                                         leg: Leg)
    requires CollectEvents(codec, events, c).Ok?
    ensures Moves(a, CollectEvents(codec, events, c).value.transfers, address, leg)
            <==> Moves(a, c.transfers, address, leg) || EventsMove(codec, a, events, address, leg)
    decreases |events|
  {
    hide TransferOf, Moves, Names, HasEnd, IsKept;
    if events != [] {
      assert events == [events[0]] + events[1..];
      assert EventsMove(codec, a, events, address, leg) <==>
             EventMoves(codec, a, events[0], Some(address), leg) || EventsMove(codec, a, events[1..], address, leg);
      if events[0].topic1 == ETH_TRANSFER_TOPIC {
        var t := TransferOf(codec, events[0]).value;
        TransferIsEvent(codec, a, events[0], "", Some(address), leg);
        MovesPush(a, c.transfers, t, address, leg);
        MovesByEvents(codec, a, events[1..], AddTransfer(c, t), address, leg);
      } else {
        MovesByEvents(codec, a, events[1..], c, address, leg);
      }
    }
  }

  lemma MovesByMessage(codec: Codec, a: Answers, m: Message, address: string, leg: Leg)
    requires Collect(codec, m).Ok?
    ensures Moves(a, TransfersIn(codec, m), address, leg) <==> MessageMoves(codec, a, m, address, leg)
  {
    hide Moves, CollectEvents, EventMoves, IsKept, HasEnd, IsSide;
    var c := CollectEvents(codec, m.events, Collected([], [])).value;
    MovesByEvents(codec, a, m.events, Collected([], []), address, leg);
    assert !Moves(a, [], address, leg) by { NothingMoves(a, address, leg); }
    if m.value != 0 {
      MovesPush(a, c.transfers, EthTransfer(codec, m), address, leg);
      EtherIsEther(codec, a, m, "", Some(address), leg);
    }
  }

  lemma NothingMoves(a: Answers, address: string, leg: Leg)
    ensures !Moves(a, [], address, leg)
  {
  }

  /** A row is a send, a receipt or an exchange by what the message moves at its address, and
      visible exactly when it moves something there. */
  lemma RowsAreClassified(codec: Codec, m: Message, a: Answers, i: nat)
    requires IsStored(codec, m, a) && i < |ParsedRows(codec, m, a).value|
    ensures var row := ParsedRows(codec, m, a).value[i];
            var out, in_ := MessageMoves(codec, a, m, row.address, Out), MessageMoves(codec, a, m, row.address, In);
            && (row.operation == Exchange <==> out && in_)
            && (row.operation == Send <==> out && !in_)
            && (row.operation == Receive <==> !out)
            && (row.visible <==> out || in_)
  {
    hide Collect, LegsFrom, FeeUsd, SubsAt, HasLeg, MessageMoves;
    var row := ParsedRows(codec, m, a).value[i];
    var subs := SubsOf(a, TransfersIn(codec, m)).value;
    assert row.subTransactions == SubsAt(subs, row.address);
    LegsAreAll(row.subTransactions);
    OneDirection(codec, m, a, row.address, Out);
    OneDirection(codec, m, a, row.address, In);
  }

  lemma OneDirection(codec: Codec, m: Message, a: Answers, address: string, leg: Leg)
    requires IsStored(codec, m, a)
    ensures HasLeg(SubsAt(SubsOf(a, TransfersIn(codec, m)).value, address), leg)
            <==> MessageMoves(codec, a, m, address, leg)
  {
    hide Collect, LegsFrom, RowsOf, SubsAt, HasLeg, Moves, MessageMoves;
    var transfers := TransfersIn(codec, m);
    HasLegMeans(SubsOf(a, transfers).value, address, leg);
    LegsMean(a, transfers, [], address, leg);
    MovesByMessage(codec, a, m, address, leg);
  }
}
