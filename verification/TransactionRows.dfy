/** The rows stored for a transaction, and what repeated processing leaves in the table. */
module TransactionRows {
  import opened Decimals
  import opened Multisets
  import opened SubTransactions
  import opened Wrappers

  function SubsAt(subs: seq<SubTransaction>, address: string): seq<SubTransaction> {
    if subs == [] then []
    else SubsAt(subs[..|subs| - 1], address) +
         (if subs[|subs| - 1].address == address then [subs[|subs| - 1]] else [])
  }

  predicate HasLeg(subs: seq<SubTransaction>, leg: Leg) {
    exists i :: 0 <= i < |subs| && subs[i].leg == leg
  }

  function OperationOf(subs: seq<SubTransaction>): Operation {
    if HasLeg(subs, Out) then (if HasLeg(subs, In) then Exchange else Send) else Receive
  }

  function FeeUsd(gasUsed: nat, gasPrice: nat, ethPrice: real): real {
    gasUsed as real * gasPrice as real / Pow10(ETH_DECIMALS) * ethPrice
  }

  function ChainOf(m: Message): int {
    if m.chainId == 0 then CHAIN_ID_ETH else m.chainId
  }

  function RowOf(codec: Codec, m: Message, gasUsed: nat, ethPrice: real, address: string,
                 subs: seq<SubTransaction>): Row {
    Row(m.hash, address, m.blockNumber, m.timestamp, Lowered(codec, m.from), Lowered(codec, m.to), m.gasPrice, gasUsed,
        FeeUsd(gasUsed, m.gasPrice, ethPrice), OperationOf(subs), ChainOf(m), subs != [], subs)
  }

  function RowsOf(codec: Codec, m: Message, gasUsed: nat, ethPrice: real, addresses: seq<string>,
                  subs: seq<SubTransaction>): (r: seq<Row>)
    ensures |r| == |addresses|
    ensures forall i :: 0 <= i < |r| ==>
              r[i] == RowOf(codec, m, gasUsed, ethPrice, addresses[i], SubsAt(subs, addresses[i]))
  {
    seq(|addresses|, i requires 0 <= i < |addresses| =>
      RowOf(codec, m, gasUsed, ethPrice, addresses[i], SubsAt(subs, addresses[i])))
  }

  /** The rows a message is stored as; none when the node knows no gas for it. */
  function ParsedRows(codec: Codec, m: Message, a: Answers): Result<seq<Row>, Error> {
    if a.gasUsed.None? then Err(ReceiptFailed)
    else if a.gasUsed.value == 0 then Ok([])
    else
      match Collect(codec, m)
      case Err(e) => Err(e)
      case Ok(c) =>
        match SubsOf(a, c.transfers)
        case Err(e) => Err(e)
        case Ok(subs) => Ok(RowsOf(codec, m, a.gasUsed.value, EthPrice(a).value, c.addresses, subs))
  }

  /** A message being parsed; some of its fields are replaced on the way. */
  class Transaction {
    const message: Message
    var from: Option<string>
    var to: Option<string>
    var gasUsed: nat
    var gasUsedUsd: real

    constructor (message: Message)
      ensures this.message == message && from == message.from && to == message.to
    {
      this.message := message;
      from, to, gasUsed, gasUsedUsd := message.from, message.to, 0, 0.0;
    }

    /** Lower-cases both ends and sets the fee; an unusable ether price throws before that. */
    method ModifyTransaction(codec: Codec, ethPrice: Option<real>, gas: nat) returns (ok: bool)
      modifies this
      ensures ok <==> ethPrice.Some? && ethPrice.value != 0.0
      ensures ok ==> from == Lowered(codec, old(from)) && to == Lowered(codec, old(to)) && gasUsed == gas
                     && gasUsedUsd == FeeUsd(gas, message.gasPrice, ethPrice.value)
      ensures !ok ==> unchanged(this)
    {
      if ethPrice.None? || ethPrice.value == 0.0 {
        return false;
      }
      from, to := Lowered(codec, from), Lowered(codec, to);
      gasUsed := gas;
      gasUsedUsd := gas as real * message.gasPrice as real / Pow10(ETH_DECIMALS) * ethPrice.value;
      ok := true;
    }

    /** The row of one address with its legs, as the transaction stands. */
    function RowFor(address: string, own: seq<SubTransaction>): Row
      reads this
    {
      Row(message.hash, address, message.blockNumber, message.timestamp, from, to, message.gasPrice, gasUsed,
          gasUsedUsd, OperationOf(own), ChainOf(message), own != [], own)
    }

    method GetInsertRows(uniqueAddresses: seq<string>, subs: seq<SubTransaction>) returns (rows: seq<Row>)
      ensures |rows| == |uniqueAddresses|
      ensures forall i :: 0 <= i < |rows| ==> rows[i] == RowFor(uniqueAddresses[i], SubsAt(subs, uniqueAddresses[i]))
    {
      hide SubsAt;
      rows := [];
      for k := 0 to |uniqueAddresses|
        invariant |rows| == k
        invariant forall i :: 0 <= i < k ==> rows[i] == RowFor(uniqueAddresses[i], SubsAt(subs, uniqueAddresses[i]))
      {
        var own := SubsAt(subs, uniqueAddresses[k]);
        var operation := if HasLeg(own, Out) then (if HasLeg(own, In) then Exchange else Send) else Receive;
        rows := rows + [Row(message.hash, uniqueAddresses[k], message.blockNumber, message.timestamp, from, to,
                            message.gasPrice, gasUsed, gasUsedUsd, operation, ChainOf(message), own != [], own)];
      }
    }
  }

  /** The primary key of `transactions_new`. */
  datatype RowKey = RowKey(hash: string, address: string)

  type Table = map<RowKey, Row>

  /** Insert, on conflict overwrite every column. */
  function InsertRows(table: Table, rows: seq<Row>): Table
    decreases |rows|
  {
    if rows == [] then table else InsertRows(table[RowKey(rows[0].hash, rows[0].address) := rows[0]], rows[1..])
  }

  class TransactionTable {
    var rows: Table

    method Insert(more: seq<Row>)
      modifies this
      ensures rows == InsertRows(old(rows), more)
    {
      for k := 0 to |more|
        invariant InsertRows(rows, more[k..]) == InsertRows(old(rows), more)
      {
        assert more[k..][1..] == more[k + 1..];
        rows := rows[RowKey(more[k].hash, more[k].address) := more[k]];
      }
    }
  }

  /** Parses one message; nothing is written unless every step succeeds. */
  method ParseTransactions(codec: Codec, t: Transaction, a: Answers, table: TransactionTable)
    returns (r: Result<(), Error>)
    requires t.from == t.message.from && t.to == t.message.to
    modifies t, table
    ensures r.Ok? <==> ParsedRows(codec, t.message, a).Ok?
    ensures r.Ok? ==> table.rows == InsertRows(old(table.rows), ParsedRows(codec, t.message, a).value)
    ensures r.Err? ==> table.rows == old(table.rows) && r.error == ParsedRows(codec, t.message, a).error
  {
    hide LegsFrom, CollectEvents, FeeUsd, InsertRows;
    assert InsertRows(table.rows, []) == table.rows by { InsertNothing(table.rows); }
    if a.gasUsed.None? {
      return Err(ReceiptFailed);
    }
    if a.gasUsed.value == 0 {
      return Ok(());
    }
    var collected := GetModifiedTransactionTransfers(codec, t.message.events);
    if collected.Err? {
      return Err(collected.error);
    }
    var c := collected.value;
    if t.message.value != 0 {
      c := AddTransfer(c, EthTransfer(codec, t.message));
    }
    if a.prices.None? || ETH_ADDRESS !in a.prices.value {
      return Err(PricesFailed);
    }
    var modified := t.ModifyTransaction(codec, a.prices.value[ETH_ADDRESS], a.gasUsed.value);
    if !modified {
      return Err(NoEthPrice);
    }
    var subs := GetArrayOfSubTransactions(a, c.transfers);
    if subs.Err? {
      return Err(subs.error);
    }
    var rows := t.GetInsertRows(c.addresses, subs.value);
    assert rows == RowsOf(codec, t.message, a.gasUsed.value, EthPrice(a).value, c.addresses, subs.value);
    table.Insert(rows);
    r := Ok(());
  }

  lemma InsertNothing(table: Table)
    ensures InsertRows(table, []) == table
  {
  }

  // ---------------------------------------------------------------------------------------
  // Every sub-transaction is in exactly one row
  // ---------------------------------------------------------------------------------------

  /** All the sub-transactions of some rows. */
  function SubsOfRows(rows: seq<Row>): seq<SubTransaction> {
    if rows == [] then [] else SubsOfRows(rows[..|rows| - 1]) + rows[|rows| - 1].subTransactions
  }

  function SubsAtAll(subs: seq<SubTransaction>, addresses: seq<string>): seq<SubTransaction> {
    if addresses == [] then []
    else SubsAtAll(subs, addresses[..|addresses| - 1]) + SubsAt(subs, addresses[|addresses| - 1])
  }

  lemma {:induction false} OneMoreSub(subs: seq<SubTransaction>, sub: SubTransaction, addresses: seq<string>)
    requires Distinct(addresses)
    ensures multiset(SubsAtAll(subs + [sub], addresses)) ==
            multiset(SubsAtAll(subs, addresses)) + (if sub.address in addresses then multiset{sub} else multiset{})
  {
    if addresses != [] {
      var init, last := addresses[..|addresses| - 1], addresses[|addresses| - 1];
      OneMoreSub(subs, sub, init);
      assert (subs + [sub])[..|subs|] == subs;
      assert addresses == init + [last];
    }
  }

  lemma {:induction false} SubsArePartitioned(subs: seq<SubTransaction>, addresses: seq<string>)
    requires Distinct(addresses) && forall s :: s in subs ==> s.address in addresses
    ensures multiset(SubsAtAll(subs, addresses)) == multiset(subs)
  {
    if subs == [] {
      NoSubs(addresses);
    } else {
      var init, last := subs[..|subs| - 1], subs[|subs| - 1];
      assert subs == init + [last];
      SubsArePartitioned(init, addresses);
      OneMoreSub(init, last, addresses);
    }
  }

  lemma {:induction false} NoSubs(addresses: seq<string>)
    ensures SubsAtAll([], addresses) == []
  {
    if addresses != [] {
      NoSubs(addresses[..|addresses| - 1]);
    }
  }

  lemma {:induction false} SubsOfTheseRows(codec: Codec, m: Message, gasUsed: nat, ethPrice: real,
                                           addresses: seq<string>, subs: seq<SubTransaction>)
    ensures SubsOfRows(RowsOf(codec, m, gasUsed, ethPrice, addresses, subs)) == SubsAtAll(subs, addresses)
  {
    hide FeeUsd, OperationOf, SubsAt;
    if addresses != [] {
      var rows := RowsOf(codec, m, gasUsed, ethPrice, addresses, subs);
      SubsOfTheseRows(codec, m, gasUsed, ethPrice, addresses[..|addresses| - 1], subs);
      assert rows[..|rows| - 1] == RowsOf(codec, m, gasUsed, ethPrice, addresses[..|addresses| - 1], subs);
    }
  }
}
