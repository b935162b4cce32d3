/** How a transaction's legs are spread over its rows, and what repeated deliveries leave. */
module TransactionAccounting {
  import opened Multisets
  import opened SubTransactions
  import opened TransactionRows
  import opened Wrappers

  /** A message that is parsed and has gas is stored. */
  predicate IsStored(codec: Codec, m: Message, a: Answers) {
    ParsedRows(codec, m, a).Ok? && a.gasUsed != Some(0)
  }

  function TransfersIn(codec: Codec, m: Message): seq<Transfer> {
    if Collect(codec, m).Ok? then Collect(codec, m).value.transfers else []
  }

  // ---------------------------------------------------------------------------------------
  // Every leg belongs to a listed address
  // ---------------------------------------------------------------------------------------

  ghost predicate AllListed(subs: seq<SubTransaction>, addresses: seq<string>) {
    forall s :: s in subs ==> s.address in addresses
  }

  lemma {:induction false} LegsAreListed(a: Answers, transfers: seq<Transfer>, subs: seq<SubTransaction>,
                                         addresses: seq<string>)
    requires a.prices.Some? && AllListed(subs, addresses) && forall t :: t in transfers ==> EndsIn(t, addresses)
    ensures LegsFrom(a, transfers, subs).Ok? ==> AllListed(LegsFrom(a, transfers, subs).value, addresses)
    decreases |transfers|
  {
    if transfers != [] && LegsOf(a, transfers[0]).Ok? {
      assert EndsIn(transfers[0], addresses);
      LegsAreListed(a, transfers[1..], subs + LegsOf(a, transfers[0]).value, addresses);
    }
  }

  /** Every sub-transaction of the message is in exactly one row: its own address's. No two
      rows share a key, so one insert never meets a row twice. */
  lemma EverySubInOneRow(codec: Codec, m: Message, a: Answers)
    requires IsStored(codec, m, a)
    ensures var rows := ParsedRows(codec, m, a).value;
            && multiset(SubsOfRows(rows)) == multiset(SubsOf(a, TransfersIn(codec, m)).value)
            && (forall i, j :: 0 <= i < j < |rows| ==> rows[i].address != rows[j].address)
            && (forall i :: 0 <= i < |rows| ==> rows[i].hash == m.hash)
            && (forall i, s | 0 <= i < |rows| && s in rows[i].subTransactions :: s.address == rows[i].address)
  {
    hide Collect, LegsFrom, FeeUsd, OperationOf, SubsAt;
    CollectIsComplete(codec, m);
    var c := Collect(codec, m).value;
    var subs := SubsOf(a, c.transfers).value;
    LegsAreListed(a, c.transfers, [], c.addresses);
    SubsArePartitioned(subs, c.addresses);
    SubsOfTheseRows(codec, m, a.gasUsed.value, EthPrice(a).value, c.addresses, subs);
    forall address, s | s in SubsAt(subs, address)
      ensures s.address == address
    {
      SubsAtHas(subs, address, s);
    }
  }

  lemma {:induction false} SubsAtHas(subs: seq<SubTransaction>, address: string, s: SubTransaction)
    ensures s in SubsAt(subs, address) <==> s in subs && s.address == address
  {
    if subs != [] {
      SubsAtHas(subs[..|subs| - 1], address, s);
      assert subs == subs[..|subs| - 1] + [subs[|subs| - 1]];
    }
  }

  // ---------------------------------------------------------------------------------------
  // Repeated deliveries
  // ---------------------------------------------------------------------------------------

  /** One attempt at a message; a failed one is delivered again later, with other answers. */
  datatype Attempt = Attempt(message: Message, answers: Answers)

  function TableAfter(codec: Codec, attempts: seq<Attempt>): Table {
    if attempts == [] then map[]
    else
      var before, last := TableAfter(codec, attempts[..|attempts| - 1]), attempts[|attempts| - 1];
      match ParsedRows(codec, last.message, last.answers)
      case Err(_) => before
      case Ok(rows) => InsertRows(before, rows)
  }

  /** The last attempt of that hash that stored its rows. */
  function LastStored(codec: Codec, attempts: seq<Attempt>, hash: string): Option<Attempt> {
    if attempts == [] then None
    else
      var last := attempts[|attempts| - 1];
      if last.message.hash == hash && IsStored(codec, last.message, last.answers) then Some(last)
      else LastStored(codec, attempts[..|attempts| - 1], hash)
  }

  /** A hash identifies the message. */
  ghost predicate SameMessages(attempts: seq<Attempt>) {
    forall i, j :: 0 <= i < |attempts| && 0 <= j < |attempts| && attempts[i].message.hash == attempts[j].message.hash
                   ==> attempts[i].message == attempts[j].message
  }

  function FindRow(rows: seq<Row>, key: RowKey): Option<Row> {
    if rows == [] then None
    else if RowKey(rows[|rows| - 1].hash, rows[|rows| - 1].address) == key then Some(rows[|rows| - 1])
    else FindRow(rows[..|rows| - 1], key)
  }

  function Lookup(table: Table, key: RowKey): Option<Row> {
    if key in table then Some(table[key]) else None
  }

  lemma {:induction false} InsertRowsSnoc(table: Table, rows: seq<Row>, row: Row)
    ensures InsertRows(table, rows + [row]) == InsertRows(table, rows)[RowKey(row.hash, row.address) := row]
    decreases |rows|
  {
    if rows == [] {
      assert rows + [row] == [row] && [row][1..] == [];
    } else {
      assert (rows + [row])[1..] == rows[1..] + [row];
      InsertRowsSnoc(table[RowKey(rows[0].hash, rows[0].address) := rows[0]], rows[1..], row);
    }
  }

  lemma {:induction false} InsertRowsFind(table: Table, rows: seq<Row>, key: RowKey)
    ensures Lookup(InsertRows(table, rows), key) ==
            if FindRow(rows, key).Some? then FindRow(rows, key) else Lookup(table, key)
  {
    if rows != [] {
      var init, last := rows[..|rows| - 1], rows[|rows| - 1];
      assert rows == init + [last];
      InsertRowsSnoc(table, init, last);
      InsertRowsFind(table, init, key);
    }
  }

  lemma {:induction false} FindRowMeans(rows: seq<Row>, key: RowKey)
    ensures FindRow(rows, key).Some? <==> exists i :: 0 <= i < |rows| && RowKey(rows[i].hash, rows[i].address) == key
  {
    if rows != [] {
      FindRowMeans(rows[..|rows| - 1], key);
      var last := |rows| - 1;
      if RowKey(rows[last].hash, rows[last].address) != key && FindRow(rows, key).Some? {
        var i :| 0 <= i < last && RowKey(rows[..last][i].hash, rows[..last][i].address) == key;
        assert rows[i] == rows[..last][i];
      }
      if i :| 0 <= i < |rows| && RowKey(rows[i].hash, rows[i].address) == key && i < last {
        assert rows[..last][i] == rows[i];
      }
    }
  }

  /** Which keys a stored message writes depends on the message alone. */
  lemma KeysOfMessage(codec: Codec, m: Message, a: Answers, key: RowKey)
    requires IsStored(codec, m, a)
    ensures FindRow(ParsedRows(codec, m, a).value, key).Some?
            <==> key.hash == m.hash && Collect(codec, m).Ok? && key.address in Collect(codec, m).value.addresses
  {
    hide Collect, SubsOf, FeeUsd, OperationOf, SubsAt, FindRow;
    var rows := ParsedRows(codec, m, a).value;
    FindRowMeans(rows, key);
    var addresses := Collect(codec, m).value.addresses;
    if key.hash == m.hash && key.address in addresses {
      var i :| 0 <= i < |addresses| && addresses[i] == key.address;
      assert RowKey(rows[i].hash, rows[i].address) == key;
    }
  }

  lemma {:induction false} LastStoredIsStored(codec: Codec, attempts: seq<Attempt>, hash: string)
    ensures LastStored(codec, attempts, hash).Some? ==>
              var last := LastStored(codec, attempts, hash).value;
              last in attempts && last.message.hash == hash && IsStored(codec, last.message, last.answers)
  {
    hide IsStored;
    if attempts != [] {
      LastStoredIsStored(codec, attempts[..|attempts| - 1], hash);
    }
  }

  function ExpectedRow(codec: Codec, attempts: seq<Attempt>, key: RowKey): Option<Row> {
    LastStoredIsStored(codec, attempts, key.hash);
    match LastStored(codec, attempts, key.hash)
    case None => None
    case Some(last) => FindRow(ParsedRows(codec, last.message, last.answers).value, key)
  }

  /** After any history of attempts at any messages, the rows of a transaction are exactly
      those of its last stored attempt: earlier attempts, failures and other transactions
      leave no trace. */
  lemma {:induction false} LastAttemptWins(codec: Codec, attempts: seq<Attempt>, key: RowKey)
    requires SameMessages(attempts)
    ensures Lookup(TableAfter(codec, attempts), key) == ExpectedRow(codec, attempts, key)
  {
    if attempts != [] {
      var init, last := attempts[..|attempts| - 1], attempts[|attempts| - 1];
      assert SameMessages(init);
      hide SameMessages, TableAfter, ExpectedRow;
      LastAttemptWins(codec, init, key);
      assert init + [last] == attempts;
      LastStep(codec, init, last, key);
    } else {
      NothingStored(codec, key);
    }
  }

  lemma NothingStored(codec: Codec, key: RowKey)
    ensures Lookup(TableAfter(codec, []), key) == ExpectedRow(codec, [], key) == None
  {
  }

  lemma LastStep(codec: Codec, init: seq<Attempt>, last: Attempt, key: RowKey)
    requires SameMessages(init + [last])
    requires Lookup(TableAfter(codec, init), key) == ExpectedRow(codec, init, key)
    ensures Lookup(TableAfter(codec, init + [last]), key) == ExpectedRow(codec, init + [last], key)
  {
    var attempts := init + [last];
    assert attempts[..|attempts| - 1] == init;
    LastStoredIsStored(codec, init, key.hash);
    hide ParsedRows, FindRow, InsertRows, Collect;
    if IsStored(codec, last.message, last.answers) {
      InsertRowsFind(TableAfter(codec, init), ParsedRows(codec, last.message, last.answers).value, key);
      KeysOfMessage(codec, last.message, last.answers, key);
      var earlier := LastStored(codec, init, key.hash);
      if last.message.hash == key.hash && earlier.Some? {
        KeysOfMessage(codec, earlier.value.message, earlier.value.answers, key);
        assert earlier.value.message == last.message by { SameMessage(init, last, earlier.value); }
      }
    } else if ParsedRows(codec, last.message, last.answers).Ok? {
      NoGasNoRows(codec, last.message, last.answers);
      InsertNothing(TableAfter(codec, init));
    }
  }

  lemma SameMessage(init: seq<Attempt>, last: Attempt, earlier: Attempt)
    requires SameMessages(init + [last]) && earlier in init && earlier.message.hash == last.message.hash
    ensures earlier.message == last.message
  {
    var i :| 0 <= i < |init| && init[i] == earlier;
    assert (init + [last])[i] == earlier && (init + [last])[|init|] == last;
  }

  lemma NoGasNoRows(codec: Codec, m: Message, a: Answers)
    requires ParsedRows(codec, m, a).Ok? && !IsStored(codec, m, a)
    ensures ParsedRows(codec, m, a).value == []
  {
  }
}
