/** What every schedule of the pipeline guarantees, stated on its own terms. */
module PipelineTheorems {
  import opened ChainData
  import opened ChainWorld
  import opened Crawler
  import opened Cursor
  import opened EventConsumer
  import EventExtraction
  import opened EventTables
  import opened LogMeaning
  import opened LogWindows
  import opened Pipeline
  import opened PipelineSafety
  import opened Wrappers

  /** A reachable state: some schedule of some number of crawlers and consumers leads to it. */
  ghost predicate Reachable(world: World, s: State) {
    exists crawlers: nat, workers: nat, steps: seq<Step> :: s == StateAfter(world, Init(crawlers, workers), steps)
  }

  lemma ReachableInv(world: World, s: State)
    requires world.WellFormed() && Reachable(world, s)
    ensures Inv(world, s)
  {
    var crawlers: nat, workers: nat, steps: seq<Step> :| s == StateAfter(world, Init(crawlers, workers), steps);
    InvHolds(world, crawlers, workers, steps);
  }

  lemma ReachableTables(world: World, s: State)
    requires world.WellFormed() && Reachable(world, s)
    ensures TablesOk(world, s)
  {
    hide CrawlerOk, WorkerOk, NothingLost, TablesOk, Reachable;
    ReachableInv(world, s);
  }

  lemma LogOf(world: World, e: MigrationEvent) returns (b: int, log: Log)
    requires world.WellFormed() && world.FinalEvent(e)
    ensures world.FinalLog(b, log) && e == world.EventOfLog(log)
    ensures log.blockNumber == b && e.blockNumber == b && e.transactionHash == log.transactionHash
            && e.logIndex == log.logIndex
  {
    b, log :| world.FinalLog(b, log) && e == world.EventOfLog(log);
    assert log in world.logsAt(b);
  }

  lemma EventIsHandled(world: World, s: State, b: int, log: Log)
    requires world.WellFormed() && Reachable(world, s)
    requires world.FinalLog(b, log) && 0 <= b <= Committed(s.blocksInfo)
    ensures Handled(world, s, world.EventOfLog(log))
  {
    hide CrawlerOk, WorkerOk, TablesOk, Handled, Committed;
    ReachableInv(world, s);
  }

  lemma FinalLogTells(world: World, b: int, log: Log)
    requires world.WellFormed() && world.FinalLog(b, log)
    ensures log.blockNumber == b && log.topics != [] && MessageTells(world, log, world.EventOfLog(log))
  {
    assert log in world.logsAt(b);
    EventOfLogTells(world, log);
  }

  /** A message about the log waits on the queue. */
  ghost predicate Queued(world: World, s: State, log: Log) {
    exists e :: e in s.queue && MessageTells(world, log, e)
  }

  /** The asset of the log's address on this chain. */
  function AssetKeyOf(world: World, log: Log): AssetKey {
    AssetKey(world.codec.lower(log.address), world.chainId)
  }

  /** The log's row: its own sender, receiver, value, block and time, under its asset. */
  predicate TransferStored(world: World, s: State, log: Log)
    requires TransferLog(world, log)
  {
    var key := TransferKey(log.transactionHash, log.logIndex);
    && key in s.transfers && TransferRowTells(world, log, s.transfers[key])
    && AssetKeyOf(world, log) in s.assets && s.transfers[key].assetId == s.assets[AssetKeyOf(world, log)]
  }

  /** The log is still queued or has its row. */
  ghost predicate TransferKept(world: World, s: State, log: Log)
    requires TransferLog(world, log)
  {
    Queued(world, s, log) || TransferStored(world, s, log)
  }

  /** No loss: after any failures, redeliveries, reorderings and head reports, a convertible
      Transfer log at or below the cursor is kept. */
  lemma NoTransferLost(world: World, s: State, b: int, log: Log)
    requires world.WellFormed() && Reachable(world, s)
    requires world.FinalLog(b, log) && 0 <= b <= Committed(s.blocksInfo) && TransferLog(world, log)
    ensures TransferKept(world, s, log)
  {
    hide Reachable, World.WellFormed, World.FinalLog, Committed;
    EventIsHandled(world, s, b, log);
    FinalLogTells(world, b, log);
    if world.EventOfLog(log) !in s.queue {
      ProcessedTransferIsStored(world, s, log, world.EventOfLog(log));
    }
  }

  lemma ProcessedTransferIsStored(world: World, s: State, log: Log, e: MigrationEvent)
    requires TransferLog(world, log) && MessageTells(world, log, e) && Processed(world, s, e)
    ensures TransferStored(world, s, log)
  {
    LogDescribes(world, log, e);
    EntityMeans(world.codec, e);
    hide ToEntity, DescribesTransfer, DescribesApproval, IsSkipped, TransferLog;
    assert Some(ToEntity(world.codec, e).value.transfer.from) == world.codec.address(log.topics[1]);
  }

  lemma RegisterRow(s: State, world: World, key: ApprovalKey) returns (winner: Approval, opener: Approval)
    requires TablesOk(world, s) && key in s.approvalsNew
    ensures winner in s.upserts && opener in s.upserts && winner.Key() == key && opener.Key() == key
    ensures s.approvalsNew[key] == winner.(assetId := opener.assetId)
    ensures forall a :: a in s.upserts && a.Key() == key ==> a.blockTimestamp <= winner.blockTimestamp
  {
    hide TransferFrom, ApprovalFrom;
    var i, j := RegisterHoldsWinner(s.upserts, key);
    winner, opener := s.upserts[i], s.upserts[j];
  }

  lemma UpsertTells(world: World, s: State, row: Approval) returns (b: int, log: Log)
    requires world.WellFormed() && TablesOk(world, s) && row in s.upserts
    ensures world.FinalLog(b, log) && ApprovalLog(world, log) && ApprovalRowTells(world, log, row)
    ensures AssetKeyOf(world, log) in s.assets && row.assetId == s.assets[AssetKeyOf(world, log)]
  {
    hide Register, TransferFrom, World.WellFormed, World.FinalLog, ToEntity;
    var e := ApprovalOriginOf(world, s, row);
    b, log := LogOf(world, e);
    FinalLogTells(world, b, log);
    LogDescribes(world, log, e);
    EntityMeans(world.codec, e);
  }

  /** The row of a key: one final approval of that key, under the token's asset on this chain. */
  predicate ApprovalStored(world: World, s: State, key: ApprovalKey, log: Log)
    requires ApprovalLog(world, log)
  {
    && key in s.approvalsNew && s.approvalsNew[key].Key() == key && ApprovalRowTells(world, log, s.approvalsNew[key])
    && AssetKeyOf(world, log) in s.assets && s.approvalsNew[key].assetId == s.assets[AssetKeyOf(world, log)]
  }

  /** Nothing invented: every approval row is that of one final log, and under its asset. */
  lemma EveryApprovalIsFinal(world: World, s: State, key: ApprovalKey) returns (b: int, log: Log)
    requires world.WellFormed() && Reachable(world, s) && key in s.approvalsNew
    ensures world.FinalLog(b, log) && ApprovalLog(world, log) && ApprovalStored(world, s, key, log)
    ensures forall a :: a in s.upserts && a.Key() == key ==>
                          a.blockTimestamp <= world.blockAt(log.blockNumber).timestamp
  {
    hide Reachable, World.WellFormed, World.FinalLog, TablesOk, ApprovalLog;
    ReachableTables(world, s);
    var winner, opener := RegisterRow(s, world, key);
    b, log := UpsertTells(world, s, winner);
    var c, first := UpsertTells(world, s, opener);
    assert AssetKeyOf(world, first) == AssetKeyOf(world, log);
  }

  /** The log's key has a row, and it is that of a final approval at least as new. */
  ghost predicate ApprovalKept(world: World, s: State, log: Log)
    requires ApprovalLog(world, log)
  {
    exists key, c, newest ::
      ApprovalKeyTells(world, log, key) && world.FinalLog(c, newest) && ApprovalLog(world, newest)
      && ApprovalStored(world, s, key, newest)
      && world.blockAt(newest.blockNumber).timestamp >= world.blockAt(log.blockNumber).timestamp
  }

  /** The same for approvals. */
  lemma NoApprovalLost(world: World, s: State, b: int, log: Log)
    requires world.WellFormed() && Reachable(world, s)
    requires world.FinalLog(b, log) && 0 <= b <= Committed(s.blocksInfo) && ApprovalLog(world, log)
    ensures Queued(world, s, log) || ApprovalKept(world, s, log)
  {
    hide Reachable, World.WellFormed, World.FinalLog, Committed, ApprovalLog, TablesOk;
    EventIsHandled(world, s, b, log);
    FinalLogTells(world, b, log);
    if world.EventOfLog(log) !in s.queue {
      ReachableTables(world, s);
      var row := ProcessedApprovalIsStored(world, s, log, world.EventOfLog(log));
      var c, newest := EveryApprovalIsFinal(world, s, row.Key());
      assert ApprovalKeyTells(world, log, row.Key());
    }
  }

  lemma ProcessedApprovalIsStored(world: World, s: State, log: Log, e: MigrationEvent) returns (row: Approval)
    requires ApprovalLog(world, log) && MessageTells(world, log, e) && Processed(world, s, e) && TablesOk(world, s)
    ensures row in s.upserts && row.Key() in s.approvalsNew && ApprovalRowTells(world, log, row)
  {
    LogDescribes(world, log, e);
    EntityMeans(world.codec, e);
    hide DescribesTransfer, IsSkipped, TransferFrom, ApprovalFrom, Register;
    row := ToEntity(world.codec, e).value.approval.(assetId := s.assets[AssetOf(world.codec, e)]);
    var j :| 0 <= j < |s.upserts| && s.upserts[j] == row;
    var _, _ := RegisterHoldsWinner(s.upserts, row.Key());
    assert HasKey(s.upserts, row.Key());
  }

  /** The message carries the events of its run's window that have its hash, each as often as
      the window does, and no other. */
  ghost predicate CarriesItsEvents(world: World, m: TransactionMessage, w: Window) {
    forall e :: multiset(m.events)[e] ==
                if e.transactionHash == m.body.hash then multiset(world.EventsIn(w))[e] else 0
  }

  lemma {:induction false} EventsWithHashCount(events: seq<MigrationEvent>, hash: string, e: MigrationEvent)
    ensures multiset(EventExtraction.EventsWithHash(events, hash))[e] ==
            if e.transactionHash == hash then multiset(events)[e] else 0
  {
    if events != [] {
      EventsWithHashCount(events[1..], hash, e);
      assert events == [events[0]] + events[1..];
    }
  }

  lemma MessagesCarryEvents(world: World, w: Window, m: TransactionMessage)
    requires m in world.MessagesIn(w)
    ensures CarriesItsEvents(world, m, w)
  {
    hide World.EventsIn;
    var messages := world.MessagesIn(w);
    var k :| 0 <= k < |messages| && messages[k] == m;
    forall e
      ensures multiset(m.events)[e] == if e.transactionHash == m.body.hash then multiset(world.EventsIn(w))[e] else 0
    {
      EventsWithHashCount(world.EventsIn(w), m.body.hash, e);
    }
  }

  /** No loss for transactions: some message with the transaction and with exactly its events of
      a window that holds its block is on the queue or acknowledged. */
  lemma NoTransactionLost(world: World, s: State, b: int, tx: Transaction) returns (m: TransactionMessage, w: Window)
    requires world.WellFormed() && Reachable(world, s)
    requires tx in world.blockAt(b).transactions && 0 <= b <= Committed(s.blocksInfo)
    ensures BodyTells(world, b, tx, m.body) && w.first <= b <= w.last
    ensures CarriesItsEvents(world, m, w) && HandledTransaction(s, m)
  {
    hide CrawlerOk, WorkerOk, TablesOk, World.MessagesIn, World.EventsIn;
    ReachableInv(world, s);
    var body := EventExtraction.TransactionOf(tx, world.blockAt(b), world.chainId);
    TransactionOfTells(world, b, tx);
    assert TransactionAt(world, b, body);
    m, w :| m.body == body && w.first <= b <= w.last && m in world.MessagesIn(w) && HandledTransaction(s, m);
    MessagesCarryEvents(world, w, m);
  }

  /** Nothing invented: every row is the row of one final log. */
  lemma EveryTransferIsFinal(world: World, s: State, key: TransferKey) returns (b: int, log: Log)
    requires world.WellFormed() && Reachable(world, s) && key in s.transfers
    ensures world.FinalLog(b, log) && log.blockNumber == b && TransferLog(world, log)
    ensures key == TransferKey(log.transactionHash, log.logIndex) && TransferStored(world, s, log)
  {
    hide Reachable, Inv, TransferFrom, ApprovalFrom, World.FinalEvent, World.FinalLog, World.WellFormed, Register;
    ReachableTables(world, s);
    var e := OriginOf(world, s, s.transfers[key]);
    b, log := LogOf(world, e);
    FinalLogTells(world, b, log);
    EntityMeans(world.codec, e);
    LogDescribes(world, log, e);
    hide ToEntity, TransferLog;
    KeyOfTransfer(world, e, s.transfers[key].assetId);
  }

  /** Only messages no consumer can parse are left. */
  ghost predicate Drained(world: World, s: State) {
    forall e :: e in s.queue ==> !CanBeParsed(world.codec, e)
  }

  lemma StoredIsLogged(world: World, s: State, key: TransferKey)
    requires world.WellFormed() && Reachable(world, s)
    requires key in s.transfers && 0 <= s.transfers[key].blockNumber <= Committed(s.blocksInfo)
    ensures LoggedUpTo(world, Committed(s.blocksInfo), key)
  {
    hide Reachable, World.WellFormed, World.FinalLog, TransferLog, Committed;
    var b, log := EveryTransferIsFinal(world, s, key);
    assert LoggedAt(world, b, log, key);
  }

  lemma LoggedIsStored(world: World, s: State, key: TransferKey)
    requires world.WellFormed() && Reachable(world, s) && Drained(world, s)
             && LoggedUpTo(world, Committed(s.blocksInfo), key)
    ensures key in s.transfers && 0 <= s.transfers[key].blockNumber <= Committed(s.blocksInfo)
  {
    hide Reachable, Committed, TransferLog, World.WellFormed, World.FinalLog, IsSkipped, DescribesTransfer,
         DescribesApproval, MessageTells;
    var b, log :| 0 <= b <= Committed(s.blocksInfo) && LoggedAt(world, b, log, key);
    NoTransferLost(world, s, b, log);
    FinalLogTells(world, b, log);
    if e :| e in s.queue && MessageTells(world, log, e) {
      LogDescribes(world, log, e);
    }
  }

  /** Once drained, the rows of blocks up to the cursor are exactly the convertible Transfer
      logs of those blocks. */
  lemma DrainedIsExact(world: World, s: State, key: TransferKey)
    requires world.WellFormed() && Reachable(world, s) && Drained(world, s)
    ensures (key in s.transfers && 0 <= s.transfers[key].blockNumber <= Committed(s.blocksInfo))
            <==> LoggedUpTo(world, Committed(s.blocksInfo), key)
  {
    hide Reachable, World.WellFormed, Drained, LoggedUpTo, Committed;
    if key in s.transfers && 0 <= s.transfers[key].blockNumber <= Committed(s.blocksInfo) {
      StoredIsLogged(world, s, key);
    }
    if LoggedUpTo(world, Committed(s.blocksInfo), key) {
      LoggedIsStored(world, s, key);
    }
  }

  ghost predicate LoggedAt(world: World, b: int, log: Log, key: TransferKey) {
    world.FinalLog(b, log) && TransferLog(world, log) && key == TransferKey(log.transactionHash, log.logIndex)
  }

  ghost predicate LoggedUpTo(world: World, cursor: int, key: TransferKey) {
    exists b, log :: 0 <= b <= cursor && LoggedAt(world, b, log, key)
  }

  // ---------------------------------------------------------------------------------------
  // Convergence of whole runs
  // ---------------------------------------------------------------------------------------

  /** Drained, with nothing stored from beyond the cursor. */
  ghost predicate Settled(world: World, s: State) {
    && Drained(world, s)
    && (forall key :: key in s.transfers ==> 0 <= s.transfers[key].blockNumber <= Committed(s.blocksInfo))
    && (forall a :: a in s.upserts ==> 0 <= a.blockNumber <= Committed(s.blocksInfo))
  }

  /** Whatever failed, repeated or reordered on the way, two settled states with the same
      cursor hold the same transfers, up to asset ids. */
  lemma SettledTransfersAgree(world: World, s: State, t: State)
    requires world.WellFormed() && Reachable(world, s) && Reachable(world, t)
    requires Settled(world, s) && Settled(world, t) && Committed(s.blocksInfo) == Committed(t.blocksInfo)
    ensures SameTransferTable(s.transfers, t.transfers)
  {
    forall key
      ensures key in s.transfers <==> key in t.transfers
      ensures key in s.transfers && key in t.transfers ==>
                StripTransfer(s.transfers[key]) == StripTransfer(t.transfers[key])
    {
      DrainedIsExact(world, s, key);
      DrainedIsExact(world, t, key);
      if key in s.transfers && key in t.transfers {
        var i, x := EveryTransferIsFinal(world, s, key);
        var j, y := EveryTransferIsFinal(world, t, key);
        assert x in world.logsAt(i) && y in world.logsAt(j);
        OneRowTells(world, x, s.transfers[key], t.transfers[key]);
      }
    }
  }

  lemma ApprovalOriginOf(world: World, s: State, row: Approval) returns (e: MigrationEvent)
    requires ApprovalFrom(world, s, row)
    ensures world.FinalEvent(e) && IsApproval(world, e) && row == ApprovalRow(world, e, row.assetId)
    ensures AssetIs(world, s, e, row.assetId)
    ensures e.blockNumber == row.blockNumber
  {
    e :| world.FinalEvent(e) && IsApproval(world, e) && AssetOf(world.codec, e) in s.assets
      && row == ApprovalRow(world, e, s.assets[AssetOf(world.codec, e)]);
  }

  lemma ApprovalOccurs(world: World, t: State, e: MigrationEvent, id: int)
    requires IsApproval(world, e) && Processed(world, t, e)
    ensures Occurs(t.upserts, Strip(ApprovalRow(world, e, id)))
  {
    var same := ApprovalRow(world, e, t.assets[AssetOf(world.codec, e)]);
    var j :| 0 <= j < |t.upserts| && t.upserts[j] == same;
    assert Strip(t.upserts[j]) == Strip(ApprovalRow(world, e, id));
  }

  lemma UpsertOccurs(world: World, s: State, t: State, i: nat)
    requires world.WellFormed() && Reachable(world, s) && Reachable(world, t)
    requires Settled(world, s) && Settled(world, t) && Committed(s.blocksInfo) == Committed(t.blocksInfo)
    requires i < |s.upserts|
    ensures Occurs(t.upserts, Strip(s.upserts[i]))
  {
    hide Reachable, Inv, TransferFrom, ApprovalFrom, World.FinalEvent, World.FinalLog, Register, Processed, Committed,
         Occurs;
    ReachableTables(world, s);
    var row := s.upserts[i];
    assert row in s.upserts && ApprovalFrom(world, s, row);
    var e := ApprovalOriginOf(world, s, row);
    var b, log := LogOf(world, e);
    EventIsHandled(world, t, b, log);
    ApprovalOccurs(world, t, e, row.assetId);
  }

  /** They hold the same approvals too, unless different approvals of one key tie on its
      newest timestamp. */
  lemma SettledApprovalsAgree(world: World, s: State, t: State)
    requires world.WellFormed() && Reachable(world, s) && Reachable(world, t)
    requires Settled(world, s) && Settled(world, t) && Committed(s.blocksInfo) == Committed(t.blocksInfo)
    requires NoTies(s.upserts)
    ensures SameRegister(s.approvalsNew, t.approvalsNew)
  {
    forall e
      ensures Occurs(s.upserts, e) <==> Occurs(t.upserts, e)
    {
      if i :| 0 <= i < |s.upserts| && Strip(s.upserts[i]) == e {
        UpsertOccurs(world, s, t, i);
      }
      if j :| 0 <= j < |t.upserts| && Strip(t.upserts[j]) == e {
        UpsertOccurs(world, t, s, j);
      }
    }
    RegisterConverges(s.upserts, t.upserts);
    hide Reachable, TransferFrom, ApprovalFrom, Register, NoTies, SameEvents, SameRegister;
    ReachableTables(world, s);
    ReachableTables(world, t);
  }
}
