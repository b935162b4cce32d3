/** The invariant holds in every state of every schedule, and what follows from it. */
module PipelineSafety {
  import opened ChainData
  import opened ChainWorld
  import opened Crawler
  import opened Cursor
  import opened EventConsumer
  import opened EventTables
  import opened LogWindows
  import opened Pipeline
  import EventExtraction

  // ---------------------------------------------------------------------------------------
  // What every step keeps
  // ---------------------------------------------------------------------------------------

  /** Nothing is taken back: rows stay, and a message leaves the queue only when its event
      has been processed. */
  ghost predicate Grows(world: World, s: State, t: State) {
    && Committed(s.blocksInfo) <= Committed(t.blocksInfo)
    && (forall key :: key in s.assets ==> key in t.assets && t.assets[key] == s.assets[key])
    && (forall key :: key in s.transfers ==> key in t.transfers && t.transfers[key] == s.transfers[key])
    && s.upserts <= t.upserts
    && s.parsed <= t.parsed
    && (forall e :: e in s.queue ==> Handled(world, t, e))
    && (forall m :: m in s.transactionQueue ==> HandledTransaction(t, m))
  }

  lemma ProcessedStays(world: World, s: State, t: State, e: MigrationEvent)
    requires Grows(world, s, t) && Processed(world, s, e)
    ensures Processed(world, t, e)
  {
    assert forall a :: a in s.upserts ==> a in t.upserts by {
      assert forall i :: 0 <= i < |s.upserts| ==> t.upserts[i] == s.upserts[i];
    }
  }

  lemma HandledStays(world: World, s: State, t: State, e: MigrationEvent)
    requires Grows(world, s, t) && Handled(world, s, e)
    ensures Handled(world, t, e)
  {
    if e !in s.queue {
      ProcessedStays(world, s, t, e);
    }
  }

  lemma EventsHandledStay(world: World, s: State, t: State, w: Window, next: nat, confirmed: set<nat>)
    requires Grows(world, s, t) && EventsHandled(world, s, w, next, confirmed)
    ensures EventsHandled(world, t, w, next, confirmed)
  {
    forall k | 0 <= k < |world.EventsIn(w)| && (k < next || k in confirmed)
      ensures Handled(world, t, world.EventsIn(w)[k])
    {
      HandledStays(world, s, t, world.EventsIn(w)[k]);
    }
  }

  lemma CrawlerStaysOk(world: World, s: State, t: State, crawler: CrawlerState)
    requires Grows(world, s, t) && CrawlerOk(world, s, crawler)
    ensures CrawlerOk(world, t, crawler)
  {
    match crawler
    case PublishingEvents(w, next, confirmed) =>
      EventsHandledStay(world, s, t, w, next, confirmed);
    case PublishingTransactions(w, next, confirmed) =>
      EventsHandledStay(world, s, t, w, |world.EventsIn(w)|, {});
    case Committing(w) =>
      EventsHandledStay(world, s, t, w, |world.EventsIn(w)|, {});
    case _ =>
  }

  lemma WorkerStaysOk(world: World, s: State, t: State, worker: Worker)
    requires Grows(world, s, t) && WorkerOk(world, s, worker)
    ensures WorkerOk(world, t, worker)
  {
    if worker.Saved? {
      ProcessedStays(world, s, t, worker.event);
    }
  }

  lemma NothingLostStays(world: World, s: State, t: State)
    requires Grows(world, s, t) && NothingLost(world, s) && Committed(t.blocksInfo) == Committed(s.blocksInfo)
    ensures NothingLost(world, t)
  {
    forall b, log | world.FinalLog(b, log) && 0 <= b <= Committed(t.blocksInfo)
      ensures Handled(world, t, world.EventOfLog(log))
    {
      HandledStays(world, s, t, world.EventOfLog(log));
    }
    forall b, body | TransactionAt(world, b, body) && 0 <= b <= Committed(t.blocksInfo)
      ensures TransactionCovered(world, t, b, body)
    {
      CoveredStays(world, s, t, b, body);
    }
  }

  lemma CoveredStays(world: World, s: State, t: State, b: int, body: MigrationTransaction)
    requires Grows(world, s, t) && TransactionCovered(world, s, b, body)
    ensures TransactionCovered(world, t, b, body)
  {
    var m: TransactionMessage, w: Window :| m.body == body && w.first <= b <= w.last
      && m in world.MessagesIn(w) && HandledTransaction(s, m);
    assert HandledTransaction(t, m);
  }

  /** The states of all components but the one that moved stay fine by growth alone. */
  lemma InvFromGrowth(world: World, s: State, t: State)
    requires Inv(world, s) && Grows(world, s, t)
    requires |t.crawlers| == |s.crawlers| && |t.workers| == |s.workers|
    requires forall c :: 0 <= c < |s.crawlers| ==> t.crawlers[c] == s.crawlers[c] || CrawlerOk(world, t, t.crawlers[c])
    requires forall w :: 0 <= w < |s.workers| ==> t.workers[w] == s.workers[w] || WorkerOk(world, t, t.workers[w])
    requires TablesOk(world, t)
    requires t.blocksInfo == s.blocksInfo || NothingLost(world, t)
    ensures Inv(world, t)
  {
    forall c | 0 <= c < |t.crawlers|
      ensures CrawlerOk(world, t, t.crawlers[c])
    {
      if t.crawlers[c] == s.crawlers[c] {
        CrawlerStaysOk(world, s, t, s.crawlers[c]);
      }
    }
    forall w | 0 <= w < |t.workers|
      ensures WorkerOk(world, t, t.workers[w])
    {
      if t.workers[w] == s.workers[w] {
        WorkerStaysOk(world, s, t, s.workers[w]);
      }
    }
    if t.blocksInfo == s.blocksInfo {
      NothingLostStays(world, s, t);
    }
  }

  lemma CrawlerMoves(world: World, s: State, t: State, c: nat)
    requires Inv(world, s) && Grows(world, s, t)
    requires c < |s.crawlers| == |t.crawlers| && t.crawlers == s.crawlers[c := t.crawlers[c]] && t.workers == s.workers
    requires CrawlerOk(world, t, t.crawlers[c]) && TablesOk(world, t)
    requires t.blocksInfo == s.blocksInfo || NothingLost(world, t)
    ensures Inv(world, t)
  {
    hide CrawlerOk, WorkerOk, TablesOk, NothingLost, Grows;
    InvFromGrowth(world, s, t);
  }

  lemma WorkerMoves(world: World, s: State, t: State, w: nat)
    requires Inv(world, s) && Grows(world, s, t)
    requires w < |s.workers| == |t.workers| && t.workers == s.workers[w := t.workers[w]] && t.crawlers == s.crawlers
    requires WorkerOk(world, t, t.workers[w]) && TablesOk(world, t)
    requires t.blocksInfo == s.blocksInfo
    ensures Inv(world, t)
  {
    hide CrawlerOk, WorkerOk, TablesOk, NothingLost, Grows;
    InvFromGrowth(world, s, t);
  }

  lemma CrawlerIsOk(world: World, s: State, c: nat)
    requires Inv(world, s) && c < |s.crawlers|
    ensures CrawlerOk(world, s, s.crawlers[c]) && TablesOk(world, s) && NothingLost(world, s)
  {
    hide CrawlerOk, WorkerOk, TablesOk, NothingLost;
  }

  lemma WorkerIsOk(world: World, s: State, w: nat)
    requires Inv(world, s) && w < |s.workers|
    ensures WorkerOk(world, s, s.workers[w]) && TablesOk(world, s)
  {
    hide CrawlerOk, WorkerOk, TablesOk, NothingLost;
  }

  // ---------------------------------------------------------------------------------------
  // Crawler steps
  // ---------------------------------------------------------------------------------------

  lemma SliceIsFinal(world: World, w: Window, next: nat)
    requires world.WellFormed()
    ensures forall e :: e in Slice(world.EventsIn(w), next) ==> world.FinalEvent(e)
  {
    forall k | 0 <= k < |world.EventsIn(w)|
      ensures world.FinalEvent(world.EventsIn(w)[k])
    {
      var _ := PublishedIsFinal(world, w, k);
    }
  }

  lemma CommittedAfter(blocksInfo: seq<Window>, w: Window)
    ensures Committed(blocksInfo + [w]) == if w.last > Committed(blocksInfo) then w.last else Committed(blocksInfo)
  {
    CursorOfAppend(blocksInfo, w);
  }

  /** Committing a fully published window that leaves no gap moves the cursor over handled
      events only. */
  lemma CommitLosesNothing(world: World, s: State, t: State, w: Window)
    requires world.WellFormed() && NothingLost(world, s) && Grows(world, s, t)
    requires t.blocksInfo == s.blocksInfo + [w] && w.first <= Committed(s.blocksInfo) + 1
    requires EventsHandled(world, t, w, |world.EventsIn(w)|, {})
    requires TransactionsHandled(world, t, w, |world.MessagesIn(w)|, {})
    ensures NothingLost(world, t)
  {
    CommittedAfter(s.blocksInfo, w);
    forall b, log | world.FinalLog(b, log) && 0 <= b <= Committed(t.blocksInfo)
      ensures Handled(world, t, world.EventOfLog(log))
    {
      if b <= Committed(s.blocksInfo) {
        HandledStays(world, s, t, world.EventOfLog(log));
      } else {
        WindowPublishes(world, w, b, log);
      }
    }
    forall b, body | TransactionAt(world, b, body) && 0 <= b <= Committed(t.blocksInfo)
      ensures TransactionCovered(world, t, b, body)
    {
      if b <= Committed(s.blocksInfo) {
        CoveredStays(world, s, t, b, body);
      } else {
        WindowCovers(world, t, w, b, body);
      }
    }
  }

  lemma WindowCovers(world: World, t: State, w: Window, b: int, body: MigrationTransaction)
    requires w.first <= b <= w.last && TransactionAt(world, b, body)
    requires TransactionsHandled(world, t, w, |world.MessagesIn(w)|, {})
    ensures TransactionCovered(world, t, b, body)
  {
    var k := WindowCarries(world, w, b, body);
    assert HandledTransaction(t, world.MessagesIn(w)[k]);
  }

  /** A window's messages carry every transaction of its blocks. */
  lemma WindowCarries(world: World, w: Window, b: int, body: MigrationTransaction) returns (k: nat)
    requires w.first <= b <= w.last && TransactionAt(world, b, body)
    ensures k < |world.MessagesIn(w)| && world.MessagesIn(w)[k].body == body
  {
    k := BlocksCarry(world, w.first, w.last, b, body);
  }

  lemma {:induction false} BlocksCarry(world: World, first: int, last: int, b: int, body: MigrationTransaction)
    returns (k: nat)
    requires first <= b <= last && TransactionAt(world, b, body)
    ensures k < |EventExtraction.TransactionsOf(world.BlocksIn(first, last), world.chainId)|
    ensures EventExtraction.TransactionsOf(world.BlocksIn(first, last), world.chainId)[k] == body
    decreases last - first
  {
    var before := world.BlocksIn(first, last - 1);
    TransactionsOfAppend(before, world.blockAt(last), world.chainId);
    if b < last {
      k := BlocksCarry(world, first, last - 1, b, body);
    } else {
      var i :| 0 <= i < |world.blockAt(b).transactions|
               && body == EventExtraction.TransactionOf(world.blockAt(b).transactions[i], world.blockAt(b),
                                                        world.chainId);
      k := |EventExtraction.TransactionsOf(before, world.chainId)| + i;
    }
  }

  lemma {:induction false} TransactionsOfAppend(blocks: seq<Block>, block: Block, chainId: int)
    ensures EventExtraction.TransactionsOf(blocks + [block], chainId) ==
            EventExtraction.TransactionsOf(blocks, chainId) +
              EventExtraction.TransactionsOfBlock(block.transactions, block, chainId)
  {
    if blocks == [] {
      assert blocks + [block] == [block];
      assert [block][1..] == [];
    } else {
      assert (blocks + [block])[1..] == blocks[1..] + [block];
      TransactionsOfAppend(blocks[1..], block, chainId);
    }
  }

  /** Rows keep their origin while asset rows only grow. */
  lemma OriginsStay(world: World, s: State, t: State)
    requires TablesOk(world, s)
    requires forall key :: key in s.assets ==> key in t.assets && t.assets[key] == s.assets[key]
    ensures forall row :: TransferFrom(world, s, row) ==> TransferFrom(world, t, row)
    ensures forall row :: ApprovalFrom(world, s, row) ==> ApprovalFrom(world, t, row)
  {
  }

  lemma TablesStay(world: World, s: State, t: State)
    requires TablesOk(world, s)
    requires forall key :: key in s.assets ==> key in t.assets && t.assets[key] == s.assets[key]
    requires t.transfers == s.transfers && t.upserts == s.upserts && t.approvalsNew == s.approvalsNew
    requires forall e :: e in t.queue ==> world.FinalEvent(e)
    requires forall e :: e in t.issued ==> world.FinalEvent(e)
    ensures TablesOk(world, t)
  {
    OriginsStay(world, s, t);
  }

  /** Growth when nothing is acknowledged and no table but the block info changes. */
  lemma GrowsOnQueues(world: World, s: State, t: State)
    requires Committed(s.blocksInfo) <= Committed(t.blocksInfo)
    requires t.assets == s.assets && t.transfers == s.transfers && t.upserts == s.upserts && s.parsed <= t.parsed
    requires forall e :: e in s.queue ==> e in t.queue
    requires forall m :: m in s.transactionQueue ==> m in t.transactionQueue || m in t.parsed
    ensures Grows(world, s, t)
  {
    hide Processed, Committed;
  }

  /** Growth of the tables, with the queues as they were. */
  lemma GrowsOnTables(world: World, s: State, t: State)
    requires t.blocksInfo == s.blocksInfo && t.queue == s.queue && t.transactionQueue == s.transactionQueue
             && t.parsed == s.parsed
    requires forall key :: key in s.assets ==> key in t.assets && t.assets[key] == s.assets[key]
    requires forall key :: key in s.transfers ==> key in t.transfers && t.transfers[key] == s.transfers[key]
    requires s.upserts <= t.upserts
    ensures Grows(world, s, t)
  {
    hide Processed, Committed;
  }

  /** A crawler that only moves within its own run, with nothing new on the queues. */
  lemma QuietCrawlerStep(world: World, s: State, t: State, c: nat)
    requires Inv(world, s) && c < |s.crawlers| && c < |t.crawlers|
    requires t == SetCrawler(s, c, t.crawlers[c]).(issued := t.issued, issuedTransactions := t.issuedTransactions)
    requires forall e :: e in t.issued ==> world.FinalEvent(e)
    requires CrawlerOk(world, s, t.crawlers[c])
    ensures Inv(world, t)
  {
    hide Processed, Committed, Inv, CrawlerOk, NothingLost, Grows;
    CrawlerIsOk(world, s, c);
    GrowsOnQueues(world, s, t);
    CrawlerStaysOk(world, s, t, t.crawlers[c]);
    TablesStay(world, s, t);
    CrawlerMoves(world, s, t, c);
  }

  lemma PickKeeps(world: World, s: State, c: nat, head: int)
    requires world.WellFormed() && Inv(world, s) && c < |s.crawlers|
    ensures Inv(world, PickStep(world, s, c, head))
  {
    hide Inv, NothingLost, EventsHandled, TransactionsHandled;
    CrawlerIsOk(world, s, c);
    if s.crawlers[c].CursorRead? {
      QuietCrawlerStep(world, s, PickStep(world, s, c, head), c);
    }
  }

  lemma ReadCursorKeeps(world: World, s: State, c: nat)
    requires Inv(world, s) && c < |s.crawlers|
    ensures Inv(world, SetCrawler(s, c, Idle))
    ensures Inv(world, SetCrawler(s, c, CursorRead(LastBlock(s.blocksInfo))))
  {
    hide Inv, NothingLost;
    CrawlerIsOk(world, s, c);
    QuietCrawlerStep(world, s, SetCrawler(s, c, Idle), c);
    QuietCrawlerStep(world, s, SetCrawler(s, c, CursorRead(LastBlock(s.blocksInfo))), c);
  }

  lemma FetchKeeps(world: World, s: State, c: nat)
    requires world.WellFormed() && Inv(world, s) && c < |s.crawlers|
    ensures Inv(world, FetchStep(world, s, c))
  {
    hide Inv, NothingLost, Handled, World.EventsIn;
    CrawlerIsOk(world, s, c);
    if s.crawlers[c].WindowPicked? {
      SliceIsFinal(world, s.crawlers[c].window, 0);
      QuietCrawlerStep(world, s, FetchStep(world, s, c), c);
    }
  }

  lemma ConfirmEventKeeps(world: World, s: State, c: nat, k: nat)
    requires world.WellFormed() && Inv(world, s) && c < |s.crawlers|
    ensures Inv(world, ConfirmEventStep(world, s, c, k))
  {
    hide Inv, NothingLost, Processed, Grows, World.EventsIn, World.FinalEvent, TransferFrom, ApprovalFrom;
    var t := ConfirmEventStep(world, s, c, k);
    if t != s {
      CrawlerIsOk(world, s, c);
      var _ := PublishedIsFinal(world, s.crawlers[c].window, k);
      GrowsOnQueues(world, s, t);
      CrawlerStaysOk(world, s, t, s.crawlers[c]);
      TablesStay(world, s, t);
      CrawlerMoves(world, s, t, c);
    }
  }

  lemma ConfirmTransactionKeeps(world: World, s: State, c: nat, k: nat)
    requires world.WellFormed() && Inv(world, s) && c < |s.crawlers|
    ensures Inv(world, ConfirmTransactionStep(world, s, c, k))
  {
    hide Inv, NothingLost, Processed, Grows, World.EventsIn, World.MessagesIn;
    var t := ConfirmTransactionStep(world, s, c, k);
    if t != s {
      CrawlerIsOk(world, s, c);
      GrowsOnQueues(world, s, t);
      CrawlerStaysOk(world, s, t, s.crawlers[c]);
      TablesStay(world, s, t);
      CrawlerMoves(world, s, t, c);
    }
  }

  /** A confirmed slice extends the handled prefix. */
  lemma SliceDone(world: World, s: State, w: Window, next: nat, confirmed: set<nat>)
    requires EventsHandled(world, s, w, next, confirmed)
    requires SliceConfirmed(next, confirmed, |world.EventsIn(w)|)
    ensures EventsHandled(world, s, w, next + CHUNK_SIZE, {})
  {
    forall k | 0 <= k < |world.EventsIn(w)| && k < next + CHUNK_SIZE
      ensures Handled(world, s, world.EventsIn(w)[k])
    {
      assert k >= next ==> InSlice(next, k, |world.EventsIn(w)|);
    }
  }

  lemma TransactionSliceDone(world: World, s: State, w: Window, next: nat, confirmed: set<nat>)
    requires TransactionsHandled(world, s, w, next, confirmed)
    requires SliceConfirmed(next, confirmed, |world.MessagesIn(w)|)
    ensures TransactionsHandled(world, s, w, next + CHUNK_SIZE, {})
  {
    forall k | 0 <= k < |world.MessagesIn(w)| && k < next + CHUNK_SIZE
      ensures HandledTransaction(s, world.MessagesIn(w)[k])
    {
      assert k >= next ==> InSlice(next, k, |world.MessagesIn(w)|);
    }
  }

  lemma NextSliceKeeps(world: World, s: State, c: nat)
    requires world.WellFormed() && Inv(world, s) && c < |s.crawlers|
    ensures Inv(world, NextSliceStep(world, s, c))
  {
    hide Inv, NothingLost, Processed, Grows, World.EventsIn, World.MessagesIn, World.FinalEvent, TransferFrom,
         ApprovalFrom, Handled, HandledTransaction, Committed;
    var t := NextSliceStep(world, s, c);
    if t != s {
      var crawler := s.crawlers[c];
      CrawlerIsOk(world, s, c);
      SliceIsFinal(world, crawler.window, crawler.next + CHUNK_SIZE);
      if crawler.PublishingEvents? && crawler.next < |world.EventsIn(crawler.window)| {
        SliceDone(world, s, crawler.window, crawler.next, crawler.confirmed);
      }
      QuietCrawlerStep(world, s, t, c);
    }
  }

  lemma NextTransactionSliceKeeps(world: World, s: State, c: nat)
    requires world.WellFormed() && Inv(world, s) && c < |s.crawlers|
    ensures Inv(world, NextTransactionSliceStep(world, s, c))
  {
    hide Inv, NothingLost, Processed, Grows, World.EventsIn, World.MessagesIn, World.FinalEvent, TransferFrom,
         ApprovalFrom, Handled, HandledTransaction, Committed;
    var t := NextTransactionSliceStep(world, s, c);
    if t != s {
      var crawler := s.crawlers[c];
      CrawlerIsOk(world, s, c);
      if crawler.next < |world.MessagesIn(crawler.window)| {
        TransactionSliceDone(world, s, crawler.window, crawler.next, crawler.confirmed);
      }
      QuietCrawlerStep(world, s, t, c);
    }
  }

  lemma CommitKeeps(world: World, s: State, c: nat)
    requires world.WellFormed() && Inv(world, s) && c < |s.crawlers|
    ensures Inv(world, CommitStep(world, s, c))
  {
    hide Inv, NothingLost, Processed, Grows, Committed, World.EventsIn, World.MessagesIn, EventsHandled,
         TransactionsHandled, World.FinalEvent, TransferFrom, ApprovalFrom;
    var t := CommitStep(world, s, c);
    if s.crawlers[c].Committing? {
      var w := s.crawlers[c].window;
      CrawlerIsOk(world, s, c);
      CommittedAfter(s.blocksInfo, w);
      GrowsOnQueues(world, s, t);
      CrawlerStaysOk(world, s, t, s.crawlers[c]);
      CommitLosesNothing(world, s, t, w);
      SliceIsFinal(world, w, 0);
      TablesStay(world, s, t);
      CrawlerMoves(world, s, t, c);
    }
  }

  // ---------------------------------------------------------------------------------------
  // Consumer steps
  // ---------------------------------------------------------------------------------------

  /** A consumer that moves on without touching a table. */
  lemma QuietWorkerStep(world: World, s: State, t: State, w: nat)
    requires Inv(world, s) && w < |s.workers| && w < |t.workers|
    requires t == SetWorker(s, w, t.workers[w])
    requires WorkerOk(world, s, t.workers[w])
    ensures Inv(world, t)
  {
    hide Processed, Committed, Inv, WorkerOk, NothingLost, Grows;
    WorkerIsOk(world, s, w);
    GrowsOnQueues(world, s, t);
    WorkerStaysOk(world, s, t, t.workers[w]);
    TablesStay(world, s, t);
    WorkerMoves(world, s, t, w);
  }

  lemma DeliverKeeps(world: World, s: State, w: nat, e: MigrationEvent)
    requires Inv(world, s) && w < |s.workers| && e in s.queue
    ensures Inv(world, SetWorker(s, w, Delivered(e)))
  {
    hide Inv, NothingLost;
    WorkerIsOk(world, s, w);
    QuietWorkerStep(world, s, SetWorker(s, w, Delivered(e)), w);
  }

  lemma LetGoKeeps(world: World, s: State, w: nat)
    requires Inv(world, s) && w < |s.workers|
    ensures Inv(world, SetWorker(s, w, Waiting))
  {
    hide Inv, NothingLost;
    QuietWorkerStep(world, s, SetWorker(s, w, Waiting), w);
  }

  lemma ParseKeeps(world: World, s: State, w: nat)
    requires Inv(world, s) && w < |s.workers|
    ensures Inv(world, ParseStep(world, s, w))
  {
    hide Inv, NothingLost;
    WorkerIsOk(world, s, w);
    if s.workers[w].Delivered? {
      QuietWorkerStep(world, s, ParseStep(world, s, w), w);
    }
  }

  lemma FindKeeps(world: World, s: State, w: nat)
    requires Inv(world, s) && w < |s.workers|
    ensures Inv(world, FindStep(world, s, w))
    ensures Inv(world, AnnounceStep(world, s, w))
  {
    hide Inv, NothingLost;
    WorkerIsOk(world, s, w);
    if s.workers[w].Finding? {
      QuietWorkerStep(world, s, FindStep(world, s, w), w);
    }
    if s.workers[w].HasAsset? {
      QuietWorkerStep(world, s, SetWorker(s, w, Announced(s.workers[w].event, s.workers[w].id)), w);
    }
  }

  lemma CreateAssetKeeps(world: World, s: State, w: nat, id: int)
    requires world.WellFormed() && Inv(world, s) && w < |s.workers|
    ensures Inv(world, CreateStep(world, s, w, id))
  {
    hide Inv, NothingLost, Processed, Committed, Grows, World.FinalEvent, TransferFrom, ApprovalFrom, ToEntity, AssetOf;
    var t := CreateStep(world, s, w, id);
    if t != s {
      WorkerIsOk(world, s, w);
      GrowsOnTables(world, s, t);
      TablesStay(world, s, t);
      WorkerMoves(world, s, t, w);
    }
  }

  /** A transfer row that is already there for the key is this very event's row. */
  lemma RowsAgree(world: World, s: State, e: MigrationEvent, id: int)
    requires world.WellFormed() && TablesOk(world, s)
    requires world.FinalEvent(e) && IsTransfer(world, e) && AssetIs(world, s, e, id)
    requires TransferRow(world, e, id).Key() in s.transfers
    ensures s.transfers[TransferRow(world, e, id).Key()] == TransferRow(world, e, id)
  {
    var row := s.transfers[TransferRow(world, e, id).Key()];
    assert TransferFrom(world, s, row) && row.Key() == TransferRow(world, e, id).Key();
    var other := OriginOf(world, s, row);
    KeyOfTransfer(world, e, id);
    KeyOfTransfer(world, other, row.assetId);
    FinalEventsAreIdentified(world, e, other);
  }

  lemma OriginOf(world: World, s: State, row: Transfer) returns (e: MigrationEvent)
    requires TransferFrom(world, s, row)
    ensures world.FinalEvent(e) && IsTransfer(world, e) && AssetIs(world, s, e, row.assetId)
    ensures row == TransferRow(world, e, row.assetId)
  {
    e :| world.FinalEvent(e) && IsTransfer(world, e) && AssetOf(world.codec, e) in s.assets
      && row == TransferRow(world, e, s.assets[AssetOf(world.codec, e)]);
  }

  lemma KeyOfTransfer(world: World, e: MigrationEvent, id: int)
    requires IsTransfer(world, e)
    ensures TransferRow(world, e, id).Key() == TransferKey(e.transactionHash, e.logIndex)
  {
  }

  lemma NewTransferOk(world: World, s: State, t: State, row: Transfer)
    requires TablesOk(world, s) && TransferFrom(world, s, row)
    requires t == s.(transfers := s.transfers[row.Key() := row], workers := t.workers)
    ensures TablesOk(world, t)
  {
    hide World.FinalEvent;
    OriginsStay(world, s, t);
    hide TransferFrom, ApprovalFrom;
  }

  lemma InsertTransferKeeps(world: World, s: State, w: nat)
    requires world.WellFormed() && Inv(world, s) && w < |s.workers|
    ensures Inv(world, InsertStep(world, s, w))
  {
    hide Inv, NothingLost, Committed, Grows, TablesOk, World.FinalEvent, ToEntity;
    var t := InsertStep(world, s, w);
    if t != s {
      WorkerIsOk(world, s, w);
      var e, id := s.workers[w].event, s.workers[w].id;
      var row := TransferRow(world, e, id);
      if row.Key() in s.transfers {
        RowsAgree(world, s, e, id);
        assert s.transfers[row.Key() := row] == s.transfers;
      }
      NewTransferOk(world, s, t, row);
      GrowsOnTables(world, s, t);
      WorkerMoves(world, s, t, w);
    }
  }

  lemma AppendApprovalKeeps(world: World, s: State, w: nat)
    requires world.WellFormed() && Inv(world, s) && w < |s.workers|
    ensures Inv(world, AppendStep(world, s, w))
  {
    hide Inv, NothingLost, Processed, Committed, Grows;
    var t := AppendStep(world, s, w);
    if t != s {
      WorkerIsOk(world, s, w);
      GrowsOnQueues(world, s, t);
      TablesStay(world, s, t);
      WorkerMoves(world, s, t, w);
    }
  }

  lemma NewApprovalOk(world: World, s: State, t: State, row: Approval)
    requires TablesOk(world, s) && ApprovalFrom(world, s, row)
    requires t == s.(approvalsNew := Upsert(s.approvalsNew, row), upserts := s.upserts + [row], workers := t.workers)
    ensures TablesOk(world, t)
  {
    hide World.FinalEvent, Upsert;
    OriginsStay(world, s, t);
    hide TransferFrom, ApprovalFrom;
    assert t.upserts[..|t.upserts| - 1] == s.upserts;
  }

  lemma UpsertApprovalKeeps(world: World, s: State, w: nat)
    requires world.WellFormed() && Inv(world, s) && w < |s.workers|
    ensures Inv(world, UpsertStep(world, s, w))
  {
    hide Inv, NothingLost, Committed, Grows, TablesOk, World.FinalEvent, ToEntity, Upsert;
    var t := UpsertStep(world, s, w);
    if t != s {
      WorkerIsOk(world, s, w);
      var e, id := s.workers[w].event, s.workers[w].id;
      var row := ApprovalRow(world, e, id);
      assert t.upserts[|s.upserts|] == row;
      NewApprovalOk(world, s, t, row);
      GrowsOnTables(world, s, t);
      WorkerMoves(world, s, t, w);
    }
  }

  /** A message is dropped from the queue only by the consumer that processed its event. */
  lemma AckKeeps(world: World, s: State, w: nat)
    requires world.WellFormed() && Inv(world, s) && w < |s.workers|
    ensures Inv(world, AckStep(s, w))
  {
    hide Inv, NothingLost, Committed, World.FinalEvent;
    var t := AckStep(s, w);
    if t != s {
      WorkerIsOk(world, s, w);
      var e := s.workers[w].event;
      assert Processed(world, t, e);
      assert forall x :: x in s.queue ==> x == e || x in t.queue;
      assert Grows(world, s, t);
      TablesStay(world, s, t);
      WorkerMoves(world, s, t, w);
    }
  }

  // ---------------------------------------------------------------------------------------
  // Every step, every schedule
  // ---------------------------------------------------------------------------------------

  lemma CrawlerStepKeeps(world: World, s: State, c: nat, action: CrawlerAction)
    requires world.WellFormed() && Inv(world, s) && c < |s.crawlers|
    ensures Inv(world, ApplyCrawler(world, s, c, action))
  {
    hide Inv, PickStep, FetchStep, ConfirmEventStep, NextSliceStep, ConfirmTransactionStep, NextTransactionSliceStep,
         CommitStep;
    match action
    case AbortRun => ReadCursorKeeps(world, s, c);
    case ReadCursor => ReadCursorKeeps(world, s, c);
    case ReadHead(head) => PickKeeps(world, s, c, head);
    case FetchWindow => FetchKeeps(world, s, c);
    case ConfirmEvent(k) => ConfirmEventKeeps(world, s, c, k);
    case NextSlice => NextSliceKeeps(world, s, c);
    case ConfirmTransaction(k) => ConfirmTransactionKeeps(world, s, c, k);
    case NextTransactionSlice => NextTransactionSliceKeeps(world, s, c);
    case Commit => CommitKeeps(world, s, c);
  }

  lemma WorkerStepKeeps(world: World, s: State, w: nat, action: WorkerAction)
    requires world.WellFormed() && Inv(world, s) && w < |s.workers|
    ensures Inv(world, ApplyWorker(world, s, w, action))
  {
    hide Inv, ParseStep, FindStep, CreateStep, AnnounceStep, InsertStep, AppendStep, UpsertStep, AckStep;
    match action
    case FailWorker => LetGoKeeps(world, s, w);
    case Deliver(e) =>
      if e in s.queue {
        DeliverKeeps(world, s, w, e);
      }
    case ParseEvent => ParseKeeps(world, s, w);
    case FindAssetRow => FindKeeps(world, s, w);
    case CreateAssetRow(id) => CreateAssetKeeps(world, s, w, id);
    case AnnounceAsset => FindKeeps(world, s, w);
    case InsertTransferRow => InsertTransferKeeps(world, s, w);
    case AppendApprovalRow => AppendApprovalKeeps(world, s, w);
    case UpsertApprovalRow => UpsertApprovalKeeps(world, s, w);
    case AckEvent => AckKeeps(world, s, w);
  }

  lemma LateArrivalKeeps(world: World, s: State, e: MigrationEvent)
    requires Inv(world, s) && e in s.issued
    ensures Inv(world, s.(queue := s.queue + multiset{e}))
  {
    hide CrawlerOk, WorkerOk, NothingLost, Processed, Committed, Grows, TransferFrom, ApprovalFrom, World.FinalEvent;
    var t := s.(queue := s.queue + multiset{e});
    GrowsOnQueues(world, s, t);
    TablesStay(world, s, t);
    InvFromGrowth(world, s, t);
  }

  lemma TransactionQueueKeeps(world: World, s: State, t: State)
    requires Inv(world, s)
    requires t == s.(transactionQueue := t.transactionQueue, parsed := t.parsed) && s.parsed <= t.parsed
    requires forall m :: m in s.transactionQueue ==> m in t.transactionQueue || m in t.parsed
    ensures Inv(world, t)
  {
    hide CrawlerOk, WorkerOk, NothingLost, Processed, Committed, Grows, TransferFrom, ApprovalFrom, World.FinalEvent;
    GrowsOnQueues(world, s, t);
    TablesStay(world, s, t);
    InvFromGrowth(world, s, t);
  }

  lemma StepKeeps(world: World, s: State, step: Step)
    requires world.WellFormed() && Inv(world, s)
    ensures Inv(world, Apply(world, s, step))
  {
    hide Inv, ApplyCrawler, ApplyWorker;
    match step
    case CrawlerStep(c, action) =>
      if c < |s.crawlers| {
        CrawlerStepKeeps(world, s, c, action);
      }
    case WorkerStep(w, action) =>
      if w < |s.workers| {
        WorkerStepKeeps(world, s, w, action);
      }
    case LateArrival(e) =>
      if e in s.issued {
        LateArrivalKeeps(world, s, e);
      }
    case LateTransaction(_) => TransactionQueueKeeps(world, s, Apply(world, s, step));
    case AckTransaction(_) => TransactionQueueKeeps(world, s, Apply(world, s, step));
  }

  lemma InitOk(world: World, crawlers: nat, workers: nat)
    ensures Inv(world, Init(crawlers, workers))
  {
  }

  /** The invariant holds after any schedule of any number of crawlers and consumers. */
  lemma {:induction false} InvHolds(world: World, crawlers: nat, workers: nat, steps: seq<Step>)
    requires world.WellFormed()
    ensures Inv(world, StateAfter(world, Init(crawlers, workers), steps))
  {
    if steps == [] {
      InitOk(world, crawlers, workers);
    } else {
      InvHolds(world, crawlers, workers, steps[..|steps| - 1]);
      StepKeeps(world, StateAfter(world, Init(crawlers, workers), steps[..|steps| - 1]), steps[|steps| - 1]);
    }
  }
}
