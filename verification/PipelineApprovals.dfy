/** The append-only table of approvals: whatever fails, it holds every approval the other table
    was ever updated with. */
module PipelineApprovals {
  import opened ChainData
  import opened ChainWorld
  import opened Cursor
  import opened EventConsumer
  import opened EventTables
  import opened LogMeaning
  import opened Pipeline
  import opened PipelineSafety
  import opened PipelineTheorems

  /** A worker between its two writes has made the first. */
  ghost predicate HasAppended(world: World, s: State, worker: Worker) {
    match worker
    case Appended(e, id) => IsApproval(world, e) && ApprovalRow(world, e, id) in s.approvals
    case _ => true
  }

  ghost predicate AppendsFirst(world: World, s: State) {
    && (forall w :: 0 <= w < |s.workers| ==> HasAppended(world, s, s.workers[w]))
    && (forall a :: a in s.upserts ==> a in s.approvals)
  }

  lemma WorkerAppendsFirst(world: World, s: State, w: nat, action: WorkerAction)
    requires AppendsFirst(world, s) && w < |s.workers|
    ensures AppendsFirst(world, ApplyWorker(world, s, w, action))
  {
    hide ToEntity, Upsert, InsertTransfer;
    var t := ApplyWorker(world, s, w, action);
    assert HasAppended(world, s, s.workers[w]);
    WorkerMovesAlone(world, s, w, action);
    hide ApplyWorker;
    forall v | 0 <= v < |t.workers|
      ensures HasAppended(world, t, t.workers[v])
    {
      if v != w {
        assert HasAppended(world, s, s.workers[v]);
      }
    }
  }

  /** A step that touches neither table and does not put the worker between its two writes. */
  predicate IsQuiet(s: State, t: State, w: nat)
    requires w < |s.workers|
  {
    && t.approvals == s.approvals && t.upserts == s.upserts && |t.workers| == |s.workers|
    && (forall v :: 0 <= v < |s.workers| && v != w ==> t.workers[v] == s.workers[v])
    && (t.workers[w].Appended? ==> t.workers[w] == s.workers[w])
  }

  lemma LookingIsQuiet(world: World, s: State, w: nat)
    requires w < |s.workers|
    ensures IsQuiet(s, ParseStep(world, s, w), w) && IsQuiet(s, FindStep(world, s, w), w)
  {
    hide ToEntity, AssetOf;
  }

  lemma CreatingIsQuiet(world: World, s: State, w: nat, id: int)
    requires w < |s.workers|
    ensures IsQuiet(s, CreateStep(world, s, w, id), w)
  {
    hide AssetOf;
  }

  lemma TransferringIsQuiet(world: World, s: State, w: nat)
    requires w < |s.workers|
    ensures IsQuiet(s, AnnounceStep(world, s, w), w) && IsQuiet(s, InsertStep(world, s, w), w)
  {
    hide IsTransfer, TransferRow, InsertTransfer;
  }

  lemma LettingGoIsQuiet(s: State, w: nat, worker: Worker)
    requires w < |s.workers| && !worker.Appended?
    ensures IsQuiet(s, SetWorker(s, w, worker), w) && IsQuiet(s, AckStep(s, w), w) && IsQuiet(s, s, w)
  {
  }

  lemma QuietMovesAlone(world: World, s: State, t: State, w: nat)
    requires w < |s.workers| && HasAppended(world, s, s.workers[w]) && IsQuiet(s, t, w)
    ensures MovesAlone(world, s, t, w)
  {
    hide ToEntity;
  }

  lemma AppendAppends(world: World, s: State, w: nat)
    requires w < |s.workers| && HasAppended(world, s, s.workers[w])
    ensures MovesAlone(world, s, AppendStep(world, s, w), w)
  {
    hide ToEntity;
  }

  lemma UpsertUpserts(world: World, s: State, w: nat)
    requires w < |s.workers| && HasAppended(world, s, s.workers[w])
    ensures MovesAlone(world, s, UpsertStep(world, s, w), w)
  {
    hide ToEntity, Upsert;
  }

  /** What one step of a worker does to the two tables and to its own state. */
  ghost predicate MovesAlone(world: World, s: State, t: State, w: nat)
    requires w < |s.workers|
  {
    && |t.workers| == |s.workers| && (forall v :: 0 <= v < |s.workers| && v != w ==> t.workers[v] == s.workers[v])
    && (forall a :: a in s.approvals ==> a in t.approvals)
    && (forall a :: a in t.upserts ==> a in s.upserts || a in t.approvals)
    && HasAppended(world, t, t.workers[w])
  }

  lemma WorkerMovesAlone(world: World, s: State, w: nat, action: WorkerAction)
    requires w < |s.workers| && HasAppended(world, s, s.workers[w])
    ensures MovesAlone(world, s, ApplyWorker(world, s, w, action), w)
  {
    hide IsQuiet, MovesAlone, HasAppended, ParseStep, FindStep, CreateStep, AnnounceStep, InsertStep, AckStep,
         AppendStep, UpsertStep, SetWorker;
    var t := ApplyWorker(world, s, w, action);
    match action
    case AppendApprovalRow => AppendAppends(world, s, w);
    case UpsertApprovalRow => UpsertUpserts(world, s, w);
    case ParseEvent => LookingIsQuiet(world, s, w); QuietMovesAlone(world, s, t, w);
    case FindAssetRow => LookingIsQuiet(world, s, w); QuietMovesAlone(world, s, t, w);
    case CreateAssetRow(id) => CreatingIsQuiet(world, s, w, id); QuietMovesAlone(world, s, t, w);
    case AnnounceAsset => TransferringIsQuiet(world, s, w); QuietMovesAlone(world, s, t, w);
    case InsertTransferRow => TransferringIsQuiet(world, s, w); QuietMovesAlone(world, s, t, w);
    case FailWorker => LettingGoIsQuiet(s, w, Waiting); QuietMovesAlone(world, s, t, w);
    case Deliver(e) => LettingGoIsQuiet(s, w, Delivered(e)); QuietMovesAlone(world, s, t, w);
    case AckEvent => LettingGoIsQuiet(s, w, Waiting); QuietMovesAlone(world, s, t, w);
  }

  predicate LeavesApprovals(s: State, t: State) {
    t.workers == s.workers && t.approvals == s.approvals && t.upserts == s.upserts
  }

  lemma EventsLeaveApprovals(world: World, s: State, c: nat, k: nat)
    requires c < |s.crawlers|
    ensures LeavesApprovals(s, ConfirmEventStep(world, s, c, k)) && LeavesApprovals(s, NextSliceStep(world, s, c))
  {
    hide World.EventsIn, World.MessagesIn, Slice, SliceConfirmed, InSlice, Confirm, Advance;
  }

  lemma TransactionsLeaveApprovals(world: World, s: State, c: nat, k: nat)
    requires c < |s.crawlers|
    ensures LeavesApprovals(s, ConfirmTransactionStep(world, s, c, k))
    ensures LeavesApprovals(s, NextTransactionSliceStep(world, s, c))
  {
    hide World.EventsIn, World.MessagesIn, Slice, SliceConfirmed, InSlice, Confirm, Advance;
  }

  lemma FetchLeavesApprovals(world: World, s: State, c: nat, head: int)
    requires c < |s.crawlers|
    ensures LeavesApprovals(s, PickStep(world, s, c, head)) && LeavesApprovals(s, FetchStep(world, s, c))
    ensures LeavesApprovals(s, CommitStep(world, s, c))
  {
    hide World.EventsIn, Slice, PickFrom;
  }

  lemma CrawlerAppendsNothing(world: World, s: State, c: nat, action: CrawlerAction)
    requires c < |s.crawlers|
    ensures LeavesApprovals(s, ApplyCrawler(world, s, c, action))
  {
    hide ConfirmEventStep, NextSliceStep, ConfirmTransactionStep, NextTransactionSliceStep, PickStep, FetchStep,
         CommitStep;
    match action
    case ConfirmEvent(k) => EventsLeaveApprovals(world, s, c, k);
    case NextSlice => EventsLeaveApprovals(world, s, c, 0);
    case ConfirmTransaction(k) => TransactionsLeaveApprovals(world, s, c, k);
    case NextTransactionSlice => TransactionsLeaveApprovals(world, s, c, 0);
    case ReadHead(head) => FetchLeavesApprovals(world, s, c, head);
    case FetchWindow => FetchLeavesApprovals(world, s, c, 0);
    case Commit => FetchLeavesApprovals(world, s, c, 0);
    case AbortRun =>
    case ReadCursor =>
  }

  lemma StepAppendsFirst(world: World, s: State, step: Step)
    requires AppendsFirst(world, s)
    ensures AppendsFirst(world, Apply(world, s, step))
  {
    hide ApplyCrawler, ApplyWorker, IsApproval, ApprovalRow;
    match step
    case CrawlerStep(c, action) =>
      if c < |s.crawlers| {
        CrawlerAppendsNothing(world, s, c, action);
      }
    case WorkerStep(w, action) =>
      if w < |s.workers| {
        WorkerAppendsFirst(world, s, w, action);
      }
    case _ =>
  }

  lemma {:induction false} AlwaysAppendsFirst(world: World, crawlers: nat, workers: nat, steps: seq<Step>)
    ensures AppendsFirst(world, StateAfter(world, Init(crawlers, workers), steps))
  {
    hide Apply, HasAppended;
    if steps == [] {
      NothingAppended(world, crawlers, workers);
    } else {
      AlwaysAppendsFirst(world, crawlers, workers, steps[..|steps| - 1]);
      StepAppendsFirst(world, StateAfter(world, Init(crawlers, workers), steps[..|steps| - 1]), steps[|steps| - 1]);
    }
  }

  lemma NothingAppended(world: World, crawlers: nat, workers: nat)
    ensures AppendsFirst(world, Init(crawlers, workers))
  {
  }

  /** In every reachable state each row of `approvals_new` has, in the append-only table, a line
      with the same data: that of the final log the row tells. */
  lemma EveryApprovalIsAppended(world: World, s: State, key: ApprovalKey) returns (b: int, log: Log, line: Approval)
    requires world.WellFormed() && Reachable(world, s) && key in s.approvalsNew
    ensures world.FinalLog(b, log) && ApprovalLog(world, log) && ApprovalStored(world, s, key, log)
    ensures line in s.approvals && ApprovalRowTells(world, log, line)
  {
    hide AppendsFirst, StateAfter, Init, TablesOk, World.WellFormed, World.FinalLog, ApprovalLog, ApprovalStored;
    var crawlers: nat, workers: nat, steps: seq<Step> :| s == StateAfter(world, Init(crawlers, workers), steps);
    AlwaysAppendsFirst(world, crawlers, workers, steps);
    ReachableTables(world, s);
    b, log := EveryApprovalIsFinal(world, s, key);
    var winner, opener := RegisterRow(s, world, key);
    line := winner;
    UpsertsAreAppended(world, s, line);
    SameDataTells(world, s, key, log, winner, opener);
  }

  lemma UpsertsAreAppended(world: World, s: State, a: Approval)
    requires AppendsFirst(world, s) && a in s.upserts
    ensures a in s.approvals
  {
  }

  lemma SameDataTells(world: World, s: State, key: ApprovalKey, log: Log, winner: Approval, opener: Approval)
    requires ApprovalLog(world, log) && ApprovalStored(world, s, key, log)
    requires s.approvalsNew[key] == winner.(assetId := opener.assetId)
    ensures ApprovalRowTells(world, log, winner)
  {
  }
}
