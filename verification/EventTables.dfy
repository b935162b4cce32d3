/** The two tables the events consumer fills through `on conflict` rules, and what any
    history of writes leaves in them. */
module EventTables {

  // ---------------------------------------------------------------------------------------
  // asset_transfers_new: on conflict (tx_hash, log_index) do nothing
  // ---------------------------------------------------------------------------------------

  datatype Transfer = Transfer(assetId: int, from: string, to: string, value: string, timestamp: int,
                               txHash: string, blockNumber: int, logIndex: int)
  {
    function Key(): TransferKey {
      TransferKey(txHash, logIndex)
    }
  }

  datatype TransferKey = TransferKey(txHash: string, logIndex: int)

  type TransferTable = map<TransferKey, Transfer>

  function InsertTransfer(table: TransferTable, row: Transfer): TransferTable {
    if row.Key() in table then table else table[row.Key() := row]
  }

  function InsertTransfers(rows: seq<Transfer>): TransferTable {
    if rows == [] then map[] else InsertTransfer(InsertTransfers(rows[..|rows| - 1]), rows[|rows| - 1])
  }

  // ---------------------------------------------------------------------------------------
  // approvals_new: on conflict (user, token, contract) keep the newest timestamp
  // ---------------------------------------------------------------------------------------

  datatype Approval = Approval(userAddress: string, tokenAddress: string, contractAddress: string, amount: string,
                               blockNumber: int, blockTimestamp: int, hash: string, assetId: int)
  {
    function Key(): ApprovalKey {
      ApprovalKey(userAddress, tokenAddress, contractAddress)
    }
  }

  datatype ApprovalKey = ApprovalKey(userAddress: string, tokenAddress: string, contractAddress: string)

  type ApprovalTable = map<ApprovalKey, Approval>

  /** Every right-hand side of the SET list is evaluated on the row as it was; `asset_id` is
      not in the list. */
  function Upsert(table: ApprovalTable, excluded: Approval): ApprovalTable {
    if excluded.Key() !in table then table[excluded.Key() := excluded]
    else
      var row := table[excluded.Key()];
      table[excluded.Key() := row.(
        blockNumber := if excluded.blockTimestamp > row.blockTimestamp then excluded.blockNumber else row.blockNumber,
        blockTimestamp := if excluded.blockTimestamp > row.blockTimestamp then excluded.blockTimestamp
          else row.blockTimestamp,
        hash := if excluded.blockTimestamp > row.blockTimestamp then excluded.hash else row.hash,
        amount := if excluded.blockTimestamp > row.blockTimestamp then excluded.amount else row.amount)]
  }

  function Register(events: seq<Approval>): ApprovalTable {
    if events == [] then map[] else Upsert(Register(events[..|events| - 1]), events[|events| - 1])
  }

  /** Event `i` is the first to arrive among those with the greatest timestamp for `key`. */
  ghost predicate Wins(events: seq<Approval>, key: ApprovalKey, i: int) {
    && 0 <= i < |events| && events[i].Key() == key
    && forall j :: 0 <= j < |events| && events[j].Key() == key ==>
         && events[j].blockTimestamp <= events[i].blockTimestamp
         && (j < i ==> events[j].blockTimestamp < events[i].blockTimestamp)
  }

  /** Event `f` is the first to arrive for `key`. */
  ghost predicate Opens(events: seq<Approval>, key: ApprovalKey, f: int) {
    && 0 <= f < |events| && events[f].Key() == key
    && forall j :: 0 <= j < f ==> events[j].Key() != key
  }

  ghost predicate HasKey(events: seq<Approval>, key: ApprovalKey) {
    exists j :: 0 <= j < |events| && events[j].Key() == key
  }

  /** The register theorem: a row exists exactly for the keys seen; its block number,
      timestamp, hash and amount all come from one event, the first to arrive among those
      with the maximal timestamp; its asset id is that of the first event of all. */
  lemma {:induction false} RegisterHoldsWinner(events: seq<Approval>, key: ApprovalKey)
    returns (winner: int, opener: int)
    ensures key in Register(events) <==> HasKey(events, key)
    ensures key in Register(events) ==>
              && Wins(events, key, winner) && Opens(events, key, opener)
              && Register(events)[key] == events[winner].(assetId := events[opener].assetId)
  {
    winner, opener := -1, -1;
    if events != [] {
      var before, last := events[..|events| - 1], events[|events| - 1];
      winner, opener := RegisterHoldsWinner(before, key);
      if last.Key() == key {
        assert HasKey(events, key);
        if key in Register(before) {
          if last.blockTimestamp > before[winner].blockTimestamp {
            winner := |events| - 1;
          }
        } else {
          winner, opener := |events| - 1, |events| - 1;
        }
      } else {
        assert HasKey(events, key) <==> HasKey(before, key);
      }
    }
  }

  // ---------------------------------------------------------------------------------------
  // Convergence, up to the choice of asset ids
  // ---------------------------------------------------------------------------------------

  function Strip(a: Approval): Approval {
    a.(assetId := 0)
  }

  ghost predicate Occurs(events: seq<Approval>, e: Approval) {
    exists i :: 0 <= i < |events| && Strip(events[i]) == e
  }

  /** The same set of events, in any order and with any repetition. */
  ghost predicate SameEvents(a: seq<Approval>, b: seq<Approval>) {
    forall e :: Occurs(a, e) <==> Occurs(b, e)
  }

  ghost predicate SameRegister(a: ApprovalTable, b: ApprovalTable) {
    a.Keys == b.Keys && forall key :: key in a ==> Strip(a[key]) == Strip(b[key])
  }

  ghost predicate Maximal(events: seq<Approval>, i: int) {
    && 0 <= i < |events|
    && forall j :: 0 <= j < |events| && events[j].Key() == events[i].Key() ==>
                     events[j].blockTimestamp <= events[i].blockTimestamp
  }

  /** No two different events of one key share the key's maximal timestamp. */
  ghost predicate NoTies(events: seq<Approval>) {
    forall i, j :: Maximal(events, i) && Maximal(events, j) && events[i].Key() == events[j].Key() ==>
                     Strip(events[i]) == Strip(events[j])
  }

  lemma SameEventsShareMaxima(a: seq<Approval>, b: seq<Approval>, i: int) returns (k: int)
    requires SameEvents(a, b) && Maximal(b, i)
    ensures Maximal(a, k) && Strip(a[k]) == Strip(b[i])
  {
    assert Occurs(b, Strip(b[i]));
    k :| 0 <= k < |a| && Strip(a[k]) == Strip(b[i]);
    forall j | 0 <= j < |a| && a[j].Key() == a[k].Key()
      ensures a[j].blockTimestamp <= a[k].blockTimestamp
    {
      assert Occurs(a, Strip(a[j]));
      var m :| 0 <= m < |b| && Strip(b[m]) == Strip(a[j]);
      assert b[m].Key() == b[i].Key();
    }
  }

  lemma SameEventsShareKeys(a: seq<Approval>, b: seq<Approval>, key: ApprovalKey)
    requires SameEvents(a, b) && HasKey(a, key)
    ensures HasKey(b, key)
  {
    var j :| 0 <= j < |a| && a[j].Key() == key;
    assert Occurs(a, Strip(a[j]));
    var m :| 0 <= m < |b| && Strip(b[m]) == Strip(a[j]);
  }

  lemma RegisterConverges(a: seq<Approval>, b: seq<Approval>)
    requires SameEvents(a, b) && NoTies(a)
    ensures SameRegister(Register(a), Register(b))
  {
    forall key
      ensures key in Register(a) <==> key in Register(b)
      ensures key in Register(a) ==> Strip(Register(a)[key]) == Strip(Register(b)[key])
    {
      var i, _ := RegisterHoldsWinner(a, key);
      var j, _ := RegisterHoldsWinner(b, key);
      if HasKey(a, key) {
        SameEventsShareKeys(a, b, key);
        assert Maximal(a, i) && Maximal(b, j);
        var k := SameEventsShareMaxima(a, b, j);
      } else if HasKey(b, key) {
        SameEventsShareKeys(b, a, key);
      }
    }
  }

  /** Delivering a tied event once more, ahead of everything else, makes it win. */
  lemma TiedEventCanWin(events: seq<Approval>, i: int)
    requires Maximal(events, i)
    ensures SameEvents(events, [events[i]] + events)
    ensures events[i].Key() in Register([events[i]] + events)
    ensures Strip(Register([events[i]] + events)[events[i].Key()]) == Strip(events[i])
  {
    var again := [events[i]] + events;
    forall e
      ensures Occurs(events, e) <==> Occurs(again, e)
    {
      if k :| 0 <= k < |events| && Strip(events[k]) == e {
        assert again[k + 1] == events[k];
      }
      if k :| 0 <= k < |again| && Strip(again[k]) == e {
        assert k > 0 ==> again[k] == events[k - 1];
      }
    }
    var key := events[i].Key();
    var winner, _ := RegisterHoldsWinner(again, key);
    assert again[0].Key() == key && HasKey(again, key);
  }

  /** The table is a function of the set of events exactly when no key's newest timestamp is
      shared by different events. Events of one block share its timestamp, so two approvals
      of one key in one block are such a tie. */
  lemma RegisterConvergesIffNoTies(events: seq<Approval>)
    ensures (forall other :: SameEvents(events, other) ==> SameRegister(Register(events), Register(other)))
            <==> NoTies(events)
  {
    if NoTies(events) {
      forall other | SameEvents(events, other)
        ensures SameRegister(Register(events), Register(other))
      {
        RegisterConverges(events, other);
      }
    } else {
      TieBreaksConvergence(events);
    }
  }

  lemma TieBreaksConvergence(events: seq<Approval>)
    requires !NoTies(events)
    ensures exists other :: SameEvents(events, other) && !SameRegister(Register(events), Register(other))
  {
    var i, j :| Maximal(events, i) && Maximal(events, j) && events[i].Key() == events[j].Key()
                && Strip(events[i]) != Strip(events[j]);
    var key := events[i].Key();
    TiedEventCanWin(events, i);
    TiedEventCanWin(events, j);
    var loser := if key in Register(events) && Strip(Register(events)[key]) == Strip(events[i]) then j else i;
    assert !SameRegister(Register(events), Register([events[loser]] + events));
  }

  /** The same rows, in any order and with any repetition. */
  ghost predicate SameRows(a: seq<Approval>, b: seq<Approval>) {
    forall row :: row in a <==> row in b
  }

  /** The key's row is one event as it arrived, its asset included: the winning one. */
  ghost predicate RowIsItsWinner(events: seq<Approval>, key: ApprovalKey) {
    key in Register(events) && exists i :: Wins(events, key, i) && Register(events)[key] == events[i]
  }

  /** No event of the key older than its newest has another asset than a newest one. */
  ghost predicate OlderShareAsset(events: seq<Approval>, key: ApprovalKey) {
    forall i, j | Maximal(events, i) && events[i].Key() == key && 0 <= j < |events| && events[j].Key() == key ::
      events[j].blockTimestamp < events[i].blockTimestamp ==> events[j].assetId == events[i].assetId
  }

  lemma SameRowsShareMaximum(events: seq<Approval>, other: seq<Approval>, i: int) returns (k: int)
    requires SameRows(events, other) && Maximal(other, i)
    ensures Maximal(events, k) && events[k] == other[i]
  {
    assert other[i] in other;
    k :| 0 <= k < |events| && events[k] == other[i];
    forall j | 0 <= j < |events| && events[j].Key() == events[k].Key()
      ensures events[j].blockTimestamp <= events[k].blockTimestamp
    {
      assert events[j] in events;
      var m :| 0 <= m < |other| && other[m] == events[j];
    }
  }

  lemma SharedAssetIsKept(events: seq<Approval>, other: seq<Approval>, key: ApprovalKey)
    requires HasKey(events, key) && OlderShareAsset(events, key) && SameRows(events, other)
    ensures RowIsItsWinner(other, key)
  {
    var f :| 0 <= f < |events| && events[f].Key() == key;
    assert events[f] in events;
    var g :| 0 <= g < |other| && other[g] == events[f];
    assert HasKey(other, key);
    var winner, opener := RegisterHoldsWinner(other, key);
    if opener != winner {
      assert Maximal(other, winner);
      var i := SameRowsShareMaximum(events, other, winner);
      assert other[opener] in other;
      var j :| 0 <= j < |events| && events[j] == other[opener];
      assert events[j].blockTimestamp < events[i].blockTimestamp;
    }
    assert Register(other)[key] == other[winner];
  }

  lemma RowsAgain(events: seq<Approval>, i: nat, j: nat)
    requires i < |events| && j < |events|
    ensures SameRows(events, [events[j], events[i]] + events)
  {
    var other := [events[j], events[i]] + events;
    forall row
      ensures row in events <==> row in other
    {
      if k :| 0 <= k < |events| && events[k] == row {
        assert other[k + 2] == row;
      }
      if k :| 0 <= k < |other| && other[k] == row {
        assert k >= 2 ==> events[k - 2] == row;
      }
    }
  }

  lemma NewestSecondWins(events: seq<Approval>, i: int, j: int)
    requires Maximal(events, i) && 0 <= j < |events| && events[j].blockTimestamp < events[i].blockTimestamp
    ensures var other := [events[j], events[i]] + events;
            forall k :: Wins(other, events[i].Key(), k) ==> k == 1
  {
    var other := [events[j], events[i]] + events;
    forall k | Wins(other, events[i].Key(), k)
      ensures k == 1
    {
      assert other[1] == events[i];
    }
  }

  /** Delivered once more ahead of everything else, an older event with another asset gives
      the row its asset. */
  lemma OlderAssetStays(events: seq<Approval>, key: ApprovalKey, i: int, j: int)
    requires Maximal(events, i) && events[i].Key() == key && 0 <= j < |events| && events[j].Key() == key
    requires events[j].blockTimestamp < events[i].blockTimestamp && events[j].assetId != events[i].assetId
    ensures var other := [events[j], events[i]] + events;
            SameRows(events, other) && !RowIsItsWinner(other, key)
  {
    var other := [events[j], events[i]] + events;
    RowsAgain(events, i, j);
    NewestSecondWins(events, i, j);
    hide Register, SameRows, Maximal, Wins;
    var winner, opener := RegisterHoldsWinner(other, key);
    assert other[0].Key() == key && HasKey(other, key);
    assert opener == 0;
  }

  /** The key has no chain in it and the conflict rule leaves the asset alone, so the row can
      carry the data of one event and the asset of another. Whatever the order and repetition
      of the same events, it carries the asset of the event it describes if and only if no
      event older than the newest has another asset than a newest one. */
  lemma AssetIsTheWinnersIff(events: seq<Approval>, key: ApprovalKey)
    requires HasKey(events, key)
    ensures (forall other :: SameRows(events, other) ==> RowIsItsWinner(other, key)) <==> OlderShareAsset(events, key)
  {
    hide SameRows, RowIsItsWinner, Register;
    if OlderShareAsset(events, key) {
      forall other | SameRows(events, other)
        ensures RowIsItsWinner(other, key)
      {
        SharedAssetIsKept(events, other, key);
      }
    } else {
      var i, j :| Maximal(events, i) && events[i].Key() == key && 0 <= j < |events| && events[j].Key() == key
                  && events[j].blockTimestamp < events[i].blockTimestamp && events[j].assetId != events[i].assetId;
      OlderAssetStays(events, key, i, j);
    }
  }

  function StripTransfer(t: Transfer): Transfer {
    t.(assetId := 0)
  }

  ghost predicate OccursTransfer(rows: seq<Transfer>, t: Transfer) {
    exists i :: 0 <= i < |rows| && StripTransfer(rows[i]) == t
  }

  ghost predicate SameTransfers(a: seq<Transfer>, b: seq<Transfer>) {
    forall t :: OccursTransfer(a, t) <==> OccursTransfer(b, t)
  }

  /** The key identifies the log. */
  ghost predicate KeyIdentifies(rows: seq<Transfer>) {
    forall i, j :: 0 <= i < |rows| && 0 <= j < |rows| && rows[i].Key() == rows[j].Key() ==>
                     StripTransfer(rows[i]) == StripTransfer(rows[j])
  }

  ghost predicate SameTransferTable(a: TransferTable, b: TransferTable) {
    a.Keys == b.Keys && forall key :: key in a ==> StripTransfer(a[key]) == StripTransfer(b[key])
  }

  lemma {:induction false} FirstTransferStays(rows: seq<Transfer>, key: TransferKey) returns (i: int)
    ensures key in InsertTransfers(rows) <==> exists j :: 0 <= j < |rows| && rows[j].Key() == key
    ensures key in InsertTransfers(rows) ==>
              && 0 <= i < |rows| && rows[i].Key() == key && InsertTransfers(rows)[key] == rows[i]
              && (forall j :: 0 <= j < i ==> rows[j].Key() != key)
  {
    i := -1;
    if rows != [] {
      var before := rows[..|rows| - 1];
      i := FirstTransferStays(before, key);
      if key in InsertTransfers(before) {
        assert rows[i] == before[i];
      } else if rows[|rows| - 1].Key() == key {
        i := |rows| - 1;
      }
    }
  }

  /** A row of `a`'s table is, up to its asset, also a row of `b`'s. */
  lemma TransferRowShared(a: seq<Transfer>, b: seq<Transfer>, key: TransferKey)
    requires SameTransfers(a, b) && KeyIdentifies(a)
    requires key in InsertTransfers(a)
    ensures key in InsertTransfers(b)
    ensures StripTransfer(InsertTransfers(a)[key]) == StripTransfer(InsertTransfers(b)[key])
  {
    var i := FirstTransferStays(a, key);
    assert OccursTransfer(a, StripTransfer(a[i]));
    var m :| 0 <= m < |b| && StripTransfer(b[m]) == StripTransfer(a[i]);
    assert b[m].Key() == key;
    var j := FirstTransferStays(b, key);
    assert OccursTransfer(b, StripTransfer(b[j]));
    var n :| 0 <= n < |a| && StripTransfer(a[n]) == StripTransfer(b[j]);
    assert a[n].Key() == a[i].Key();
  }

  lemma KeyIdentifiesShared(a: seq<Transfer>, b: seq<Transfer>)
    requires SameTransfers(a, b) && KeyIdentifies(a)
    ensures KeyIdentifies(b)
  {
    forall i, j | 0 <= i < |b| && 0 <= j < |b| && b[i].Key() == b[j].Key()
      ensures StripTransfer(b[i]) == StripTransfer(b[j])
    {
      assert OccursTransfer(b, StripTransfer(b[i])) && OccursTransfer(b, StripTransfer(b[j]));
      var m :| 0 <= m < |a| && StripTransfer(a[m]) == StripTransfer(b[i]);
      var n :| 0 <= n < |a| && StripTransfer(a[n]) == StripTransfer(b[j]);
      assert a[m].Key() == a[n].Key();
    }
  }

  /** Any two histories of the same transfers leave the same table. */
  lemma TransfersConverge(a: seq<Transfer>, b: seq<Transfer>)
    requires SameTransfers(a, b) && KeyIdentifies(a)
    ensures SameTransferTable(InsertTransfers(a), InsertTransfers(b))
  {
    KeyIdentifiesShared(a, b);
    forall key | key in InsertTransfers(a) {
      TransferRowShared(a, b, key);
    }
    forall key | key in InsertTransfers(b) {
      TransferRowShared(b, a, key);
    }
  }
}
