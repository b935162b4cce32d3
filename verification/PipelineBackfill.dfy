/** What recording a window without publishing it does to the no-loss guarantee. */
module PipelineBackfill {
  import opened ChainData
  import opened ChainWorld
  import opened Crawler
  import opened Cursor
  import opened EventConsumer
  import opened EventExtraction
  import opened LogMeaning
  import opened LogWindows
  import opened Pipeline
  import opened PipelineProgress
  import opened PipelineSafety
  import opened PipelineTheorems
  import opened Wrappers

  /** What a backfill over given blocks does: it records its window and publishes nothing. */
  function AfterBackfill(s: State, w: Window): State {
    s.(blocksInfo := s.blocksInfo + [w])
  }

  /** Every convertible Transfer log at or below the cursor is kept. */
  ghost predicate TransfersKept(world: World, s: State) {
    forall b, log | world.FinalLog(b, log) && 0 <= b <= Committed(s.blocksInfo)
      && TransferLog(world, log) ::
      TransferKept(world, s, log)
  }

  /** On this chain, a backfill of the window in this state, if the pipeline can get there, loses
      no transfer. */
  ghost predicate BackfillSafe(world: World, s: State, cursor: int, w: Window) {
    world.WellFormed() && Reachable(world, s) && Committed(s.blocksInfo) == cursor ==>
        TransfersKept(world, AfterBackfill(s, w))
  }

  /** A backfill loses no transfer, on any chain and from any state the pipeline can get to with
      its cursor there, exactly when its window ends at or before the cursor. */
  lemma BackfillIsSafeIff(cursor: int, w: Window)
    requires cursor >= -1
    ensures (forall world: World, s: State :: BackfillSafe(world, s, cursor, w)) <==> w.last <= cursor
  {
    if w.last <= cursor {
      forall world: World, s: State
        ensures BackfillSafe(world, s, cursor, w)
      {
        if world.WellFormed() && Reachable(world, s) && Committed(s.blocksInfo) == cursor {
          BackfillBelowCursor(world, s, w);
        }
      }
    } else {
      BackfillAboveCursor(cursor, w);
    }
  }

  /** Below the cursor nothing at all is lost. */
  lemma BackfillBelowCursor(world: World, s: State, w: Window)
    requires world.WellFormed() && Reachable(world, s) && w.last <= Committed(s.blocksInfo)
    ensures NothingLost(world, AfterBackfill(s, w)) && TransfersKept(world, AfterBackfill(s, w))
  {
    var t := AfterBackfill(s, w);
    CommittedAfter(s.blocksInfo, w);
    assert NothingLost(world, t) by {
      hide CrawlerOk, WorkerOk, TablesOk, NothingLost, Committed, Reachable;
      ReachableInv(world, s);
      GrowsOnQueues(world, s, t);
      NothingLostStays(world, s, t);
    }
    hide Reachable, Committed, TransferKept;
    forall b, log | world.FinalLog(b, log) && 0 <= b <= Committed(t.blocksInfo)
      && TransferLog(world, log)
      ensures TransferKept(world, t, log)
    {
      NoTransferLost(world, s, b, log);
      KeptByBackfill(world, s, w, log);
    }
  }

  lemma KeptByBackfill(world: World, s: State, w: Window, log: Log)
    requires TransferLog(world, log) && TransferKept(world, s, log)
    ensures TransferKept(world, AfterBackfill(s, w), log)
  {
  }

  // ---------------------------------------------------------------------------------------
  // A transfer right above the cursor
  // ---------------------------------------------------------------------------------------

  function LoneLog(block: int): Log {
    Log(block, "", 0, "", [ERC20_TRANSFER_EVENT_HASH, "from", "to"], "1")
  }

  /** A chain whose one log is a decodable transfer in this block, and a step that takes a first
      run exactly up to the block before. */
  function LoneLogWorld(block: nat): World {
    World(Eth, if block > 0 then block - 1 else 0, 1, [ERC20_TRANSFER_EVENT_HASH],
          Codec(x => Some(x), x => Some(x), x => x),
          (b: int) => if b == block then [LoneLog(block)] else [], (b: int) => Block(b, 0, "", []))
  }

  lemma OnlyLoneLog(block: nat, b: int, log: Log)
    ensures log in LoneLogWorld(block).logsAt(b) <==> b == block && log == LoneLog(block)
    ensures LoneLogWorld(block).blockAt(b).number == b
    ensures b != block ==> LoneLogWorld(block).logsAt(b) == []
  {
  }

  lemma LoneLogIdentified(block: nat, a: int, b: int, x: Log, y: Log)
    requires x in LoneLogWorld(block).logsAt(a) && y in LoneLogWorld(block).logsAt(b)
    ensures x == y && x.blockNumber == a
  {
    OnlyLoneLog(block, a, x);
    OnlyLoneLog(block, b, y);
  }

  lemma LoneLogIsWellFormed(block: nat)
    ensures LoneLogWorld(block).WellFormed()
  {
    hide LoneLogWorld;
    var world := LoneLogWorld(block);
    forall b
      ensures world.blockAt(b).number == b
    {
      OnlyLoneLog(block, b, LoneLog(block));
    }
    forall b, log | log in world.logsAt(b)
      ensures log.blockNumber == b
    {
      LoneLogIdentified(block, b, b, log, log);
    }
    forall a, b, x, y | x in world.logsAt(a) && y in world.logsAt(b)
      ensures x.transactionHash == y.transactionHash && x.logIndex == y.logIndex ==> x == y
    {
      LoneLogIdentified(block, a, b, x, y);
    }
  }

  lemma LoneLogIsTransfer(block: nat)
    ensures LoneLogWorld(block).FinalLog(block, LoneLog(block))
    ensures TransferLog(LoneLogWorld(block), LoneLog(block))
  {
    OnlyLoneLog(block, block, LoneLog(block));
  }

  lemma {:induction false} NoLogsBelow(block: nat, last: int)
    requires last < block
    ensures LoneLogWorld(block).LogsIn(0, last) == []
    decreases last + 1
  {
    hide LoneLogWorld;
    if last >= 0 {
      NoLogsBelow(block, last - 1);
      OnlyLoneLog(block, last, LoneLog(block));
    }
  }

  /** The pipeline can get to the cursor right below the log with an empty queue and no row. */
  lemma CursorBelowLog(block: nat) returns (s: State)
    ensures Reachable(LoneLogWorld(block), s) && Committed(s.blocksInfo) == block - 1
    ensures s.queue == multiset{} && s.transfers == map[]
  {
    hide Reachable, Leads, StateAfter, World.EventsIn, World.MessagesIn;
    var world, start := LoneLogWorld(block), Init(1, 0);
    StartIsReachable(world);
    if block == 0 {
      s := start;
    } else {
      var w := Window(0, block - 1);
      assert FollowsCursor(start.blocksInfo, block + 2, Depth(world.network), world.step, w);
      hide LoneLogWorld, FollowsCursor, UpToDate, Depth, LastBlock;
      s := RunCanCommit(world, start, 0, block + 2, w);
      LeadsToReachable(world, start, s);
      NoLogsBelow(block, block - 1);
      NothingFromNoLogs(world, w);
      CursorOfAppend([], w);
    }
  }

  lemma StartIsReachable(world: World)
    ensures Reachable(world, Init(1, 0))
  {
    hide Apply;
    assert StateAfter(world, Init(1, 0), []) == Init(1, 0);
  }

  lemma NothingFromNoLogs(world: World, w: Window)
    requires world.LogsIn(w.first, w.last) == []
    ensures world.EventsIn(w) == []
  {
    NothingToGroup(world.hashes, world.BlocksIn(w.first, w.last), world.chainId);
  }

  lemma BackfillAboveCursor(cursor: int, w: Window)
    requires cursor >= -1 && w.last > cursor
    ensures exists world: World, s: State :: !BackfillSafe(world, s, cursor, w)
  {
    var block: nat := cursor + 1;
    var world := LoneLogWorld(block);
    LoneLogIsWellFormed(block);
    LoneLogIsTransfer(block);
    var s := CursorBelowLog(block);
    CommittedAfter(s.blocksInfo, w);
    hide LoneLogWorld, Reachable, Committed, World.WellFormed, World.FinalLog, TransferLog;
    assert !TransferKept(world, AfterBackfill(s, w), LoneLog(block));
    assert !BackfillSafe(world, s, cursor, w);
  }
}
