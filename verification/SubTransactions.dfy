/** Splitting a transaction's transfers into incoming and outgoing legs, and storing them as
    one row per address. Amounts are exact reals. */
module SubTransactions {
  import opened Decimals
  import opened Multisets
  import opened Wrappers

  const ETH_ADDRESS: string := "0x0000000000000000000000000000000000000000"
  const ETH_TRANSFER_TOPIC: string := "0xddf252ad1be2c89b69c2b068fc378daa952ba7f163c4a11628f55a4df523b3ef"
  const CHAIN_ID_ETH: int := 1
  const ETH_DECIMALS: nat := 18

  /** The data of a log: "0x", a quantity, or something that is no number. */
  datatype Data = NoData | Quantity(value: nat) | BadData

  datatype Event = Event(address: string, topic1: string, topic2: Option<string>, topic3: Option<string>, data: Data)

  datatype Message = Message(hash: string, blockNumber: int, from: Option<string>, to: Option<string>, value: nat,
                             gasPrice: nat, timestamp: int, events: seq<Event>, chainId: int)

  datatype Transfer = Transfer(token: string, from: Option<string>, to: Option<string>, data: Data)

  datatype AssetRow = AssetRow(address: string, symbol: string, decimals: nat, isDataPresent: bool)

  datatype Leg = In | Out

  datatype SubTransaction = SubTransaction(address: string, amount: real, price: Option<real>, symbol: string,
                                           tokenAddress: string, decimals: nat, from: Option<string>,
                                           to: Option<string>, leg: Leg)

  datatype Operation = Receive | Send | Exchange

  datatype Row = Row(hash: string, address: string, blockNumber: int, timestamp: int, sender: Option<string>,
                     destination: Option<string>, gasPrice: nat, gasUsed: nat, feeUsd: real, operation: Operation,
                     chainId: int, visible: bool, subTransactions: seq<SubTransaction>)

  /** Decoding of address topics (`None` throws) and lower-casing. */
  datatype Codec = Codec(decode: string -> Option<string>, lower: string -> string)

  /** What the node, the price service and the database answer while one message is parsed.
      `prices` are those at the transaction's time; an address absent from them makes the
      lookup throw. */
  datatype Answers = Answers(gasUsed: Option<nat>, prices: Option<map<string, Option<real>>>, assets: seq<AssetRow>)

  /** `AssetDataMissing` also announces the asset, with the sender as its user. */
  datatype Error = ReceiptFailed | BadTopic | PricesFailed | NoEthPrice | BadAmount
                 | AssetDataMissing(asset: string, user: Option<string>)

  predicate Truthy(s: Option<string>) {
    s.Some? && s.value != ""
  }

  function OrNull(s: Option<string>): Option<string> {
    if Truthy(s) then s else None
  }

  // ---------------------------------------------------------------------------------------
  // Transfers and the addresses they touch
  // ---------------------------------------------------------------------------------------

  /** `addresses` is a set in insertion order. */
  datatype Collected = Collected(transfers: seq<Transfer>, addresses: seq<string>)

  function AddAddress(addresses: seq<string>, address: Option<string>): seq<string> {
    if !Truthy(address) || address.value in addresses then addresses else addresses + [address.value]
  }

  function AddTransfer(c: Collected, t: Transfer): Collected {
    Collected(c.transfers + [t], AddAddress(AddAddress(c.addresses, t.from), t.to))
  }

  /** The address of a topic; a missing topic has none, a malformed one throws. */
  function TopicAddress(codec: Codec, topic: Option<string>): Result<Option<string>, Error> {
    if !Truthy(topic) then Ok(None)
    else
      match codec.decode(topic.value)
      case None => Err(BadTopic)
      case Some(address) => Ok(Some(address))
  }

  function TransferOf(codec: Codec, e: Event): Result<Transfer, Error> {
    match (TopicAddress(codec, e.topic2), TopicAddress(codec, e.topic3))
    case (Ok(from), Ok(to)) => Ok(Transfer(codec.lower(e.address), from, to, e.data))
    case _ => Err(BadTopic)
  }

  function CollectEvents(codec: Codec, events: seq<Event>, c: Collected): Result<Collected, Error>
    decreases |events|
  {
    if events == [] then Ok(c)
    else if events[0].topic1 != ETH_TRANSFER_TOPIC then CollectEvents(codec, events[1..], c)
    else
      match TransferOf(codec, events[0])
      case Err(e) => Err(e)
      case Ok(t) => CollectEvents(codec, events[1..], AddTransfer(c, t))
  }

  function Lowered(codec: Codec, s: Option<string>): Option<string> {
    if s.Some? then Some(codec.lower(s.value)) else None
  }

  /** The transaction's own transfer of ether. */
  function EthTransfer(codec: Codec, m: Message): Transfer {
    Transfer(ETH_ADDRESS, Lowered(codec, m.from), Lowered(codec, m.to), Quantity(m.value))
  }

  /** The Transfer events, and the ether transfer when its value is not zero. */
  function Collect(codec: Codec, m: Message): Result<Collected, Error> {
    match CollectEvents(codec, m.events, Collected([], []))
    case Err(e) => Err(e)
    case Ok(c) => Ok(if m.value != 0 then AddTransfer(c, EthTransfer(codec, m)) else c)
  }

  /** No address twice, and both ends of every transfer are there. */
  ghost predicate Complete(c: Collected) {
    && Distinct(c.addresses)
    && (forall t :: t in c.transfers ==> EndsIn(t, c.addresses))
  }

  predicate EndsIn(t: Transfer, addresses: seq<string>) {
    (Truthy(t.from) ==> t.from.value in addresses) && (Truthy(t.to) ==> t.to.value in addresses)
  }

  lemma AddTransferKeeps(c: Collected, t: Transfer)
    requires Complete(c)
    ensures Complete(AddTransfer(c, t))
  {
    hide Truthy;
    var r := AddTransfer(c, t);
    forall x | x in r.transfers
      ensures EndsIn(x, r.addresses)
    {
      if x in c.transfers {
        assert EndsIn(x, c.addresses);
      }
    }
  }

  lemma {:induction false} CollectEventsIsComplete(codec: Codec, events: seq<Event>, c: Collected)
    requires Complete(c)
    ensures CollectEvents(codec, events, c).Ok? ==> Complete(CollectEvents(codec, events, c).value)
    decreases |events|
  {
    hide Complete, TransferOf, AddTransfer;
    if events != [] {
      if events[0].topic1 != ETH_TRANSFER_TOPIC {
        CollectEventsIsComplete(codec, events[1..], c);
      } else if TransferOf(codec, events[0]).Ok? {
        AddTransferKeeps(c, TransferOf(codec, events[0]).value);
        CollectEventsIsComplete(codec, events[1..], AddTransfer(c, TransferOf(codec, events[0]).value));
      }
    }
  }

  lemma CollectIsComplete(codec: Codec, m: Message)
    ensures Collect(codec, m).Ok? ==> Complete(Collect(codec, m).value)
  {
    assert Complete(Collected([], []));
    hide Complete, AddTransfer;
    CollectEventsIsComplete(codec, m.events, Collected([], []));
    var c := CollectEvents(codec, m.events, Collected([], []));
    if c.Ok? {
      AddTransferKeeps(c.value, EthTransfer(codec, m));
    }
  }

  method GetModifiedTransactionTransfers(codec: Codec, events: seq<Event>) returns (r: Result<Collected, Error>)
    ensures r == CollectEvents(codec, events, Collected([], []))
  {
    var transfers: seq<Transfer> := [];
    var uniqueAddresses: seq<string> := [];
    for k := 0 to |events|
      invariant CollectEvents(codec, events[k..], Collected(transfers, uniqueAddresses))
                == CollectEvents(codec, events, Collected([], []))
    {
      assert events[k..][1..] == events[k + 1..];
      if events[k].topic1 == ETH_TRANSFER_TOPIC {
        var t := TransferOf(codec, events[k]);
        if t.Err? {
          return Err(t.error);
        }
        uniqueAddresses := AddAddress(uniqueAddresses, t.value.from);
        uniqueAddresses := AddAddress(uniqueAddresses, t.value.to);
        transfers := transfers + [t.value];
      }
    }
    r := Ok(Collected(transfers, uniqueAddresses));
  }

  // ---------------------------------------------------------------------------------------
  // Legs
  // ---------------------------------------------------------------------------------------

  function FindAsset(assets: seq<AssetRow>, address: string): (r: Option<AssetRow>)
    ensures r.Some? ==> r.value in assets && r.value.address == address
    ensures r.None? ==> forall asset :: asset in assets ==> asset.address != address
    ensures r.Some? ==> exists i :: 0 <= i < |assets| && assets[i] == r.value
                                    && forall j :: 0 <= j < i ==> assets[j].address != address
  {
    if assets == [] then None
    else if assets[0].address == address then Some(assets[0])
    else FindAsset(assets[1..], address)
  }

  function AmountOf(asset: AssetRow, value: nat): real {
    value as real / Pow10(asset.decimals)
  }

  function SubOf(asset: AssetRow, price: Option<real>, t: Transfer, leg: Leg): seq<SubTransaction>
    requires t.data.Quantity?
  {
    var end := if leg.Out? then t.from else t.to;
    if !Truthy(end) then []
    else [SubTransaction(end.value, AmountOf(asset, t.data.value), price, asset.symbol, asset.address, asset.decimals,
                         OrNull(t.from), OrNull(t.to), leg)]
  }

  /** The legs of one transfer: incoming first, and only to and from known addresses. Empty
      data and unknown assets are skipped. */
  function LegsOf(a: Answers, t: Transfer): Result<seq<SubTransaction>, Error>
    requires a.prices.Some?
  {
    var asset := FindAsset(a.assets, t.token);
    if t.data.NoData? || asset.None? then Ok([])
    else if asset.value.address !in a.prices.value then Err(PricesFailed)
    else if !asset.value.isDataPresent then Err(AssetDataMissing(asset.value.address, t.from))
    else if t.data.BadData? then Err(BadAmount)
    else
      var price := a.prices.value[asset.value.address];
      Ok(SubOf(asset.value, price, t, In) + SubOf(asset.value, price, t, Out))
  }

  function LegsFrom(a: Answers, transfers: seq<Transfer>, subs: seq<SubTransaction>): Result<seq<SubTransaction>, Error>
    requires a.prices.Some?
    decreases |transfers|
  {
    if transfers == [] then Ok(subs)
    else
      match LegsOf(a, transfers[0])
      case Err(e) => Err(e)
      case Ok(legs) => LegsFrom(a, transfers[1..], subs + legs)
  }

  /** The ether price; without a usable one the message fails. */
  function EthPrice(a: Answers): Result<real, Error> {
    if a.prices.None? || ETH_ADDRESS !in a.prices.value then Err(PricesFailed)
    else
      match a.prices.value[ETH_ADDRESS]
      case None => Err(NoEthPrice)
      case Some(price) => if price == 0.0 then Err(NoEthPrice) else Ok(price)
  }

  function SubsOf(a: Answers, transfers: seq<Transfer>): Result<seq<SubTransaction>, Error> {
    match EthPrice(a)
    case Err(e) => Err(e)
    case Ok(_) => LegsFrom(a, transfers, [])
  }

  method GetSubTransactions(a: Answers, asset: AssetRow, price: Option<real>, t: Transfer, leg: Leg,
                            subs: seq<SubTransaction>)
    returns (r: Result<seq<SubTransaction>, Error>)
    ensures !asset.isDataPresent ==> r == Err(AssetDataMissing(asset.address, t.from))
    ensures asset.isDataPresent && !t.data.Quantity? ==> r == Err(BadAmount)
    ensures asset.isDataPresent && t.data.Quantity? ==> r == Ok(subs + SubOf(asset, price, t, leg))
  {
    if !asset.isDataPresent {
      return Err(AssetDataMissing(asset.address, t.from));
    }
    if !t.data.Quantity? {
      return Err(BadAmount);
    }
    var end := if leg.Out? then t.from else t.to;
    if Truthy(end) {
      var amount := AmountOf(asset, t.data.value);
      r := Ok(subs + [SubTransaction(end.value, amount, price, asset.symbol, asset.address, asset.decimals,
                                     OrNull(t.from), OrNull(t.to), leg)]);
    } else {
      assert subs + [] == subs;
      r := Ok(subs);
    }
  }

  method GetArrayOfSubTransactions(a: Answers, transfers: seq<Transfer>) returns (r: Result<seq<SubTransaction>, Error>)
    requires a.prices.Some?
    ensures r == LegsFrom(a, transfers, [])
  {
    hide SubOf;
    var subs: seq<SubTransaction> := [];
    for k := 0 to |transfers|
      invariant LegsFrom(a, transfers[k..], subs) == LegsFrom(a, transfers, [])
    {
      assert transfers[k..][1..] == transfers[k + 1..];
      var t := transfers[k];
      var asset := FindAsset(a.assets, t.token);
      if t.data.NoData? || asset.None? {
        assert subs + [] == subs;
        continue;
      }
      if asset.value.address !in a.prices.value {
        return Err(PricesFailed);
      }
      var price := a.prices.value[asset.value.address];
      var incoming := GetSubTransactions(a, asset.value, price, t, In, subs);
      if incoming.Err? {
        return Err(incoming.error);
      }
      var outgoing := GetSubTransactions(a, asset.value, price, t, Out, incoming.value);
      assert subs + SubOf(asset.value, price, t, In) + SubOf(asset.value, price, t, Out)
          == subs + (SubOf(asset.value, price, t, In) + SubOf(asset.value, price, t, Out));
      subs := outgoing.value;
    }
    r := Ok(subs);
  }
}
