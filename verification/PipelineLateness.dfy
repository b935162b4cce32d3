/** Messages may land late: whatever a run has emitted can still arrive, even after the run has
    failed. */
module PipelineLateness {
  import opened ChainData
  import opened ChainWorld
  import opened Crawler
  import opened Cursor
  import opened EventConsumer
  import opened EventTables
  import opened Pipeline
  import opened PipelineProgress
  import opened PipelineTheorems

  /** Every message of the slice a crawler is publishing has been emitted. */
  ghost predicate SliceIssued(world: World, s: State, crawler: CrawlerState) {
    match crawler
    case PublishingEvents(w, next, _) => Slice(world.EventsIn(w), next) <= s.issued
    case Republishing(w, next, _) => Slice(world.EventsIn(w), next) <= s.issued
    case PublishingTransactions(w, next, _) => Slice(world.MessagesIn(w), next) <= s.issuedTransactions
    case _ => true
  }

  ghost predicate SlicesIssued(world: World, s: State) {
    forall c :: 0 <= c < |s.crawlers| ==> SliceIssued(world, s, s.crawlers[c])
  }

  /** A step of crawler `c` only emits more, and has emitted the slice it goes on to. */
  ghost predicate Issues(world: World, s: State, t: State, c: nat)
    requires c < |s.crawlers|
  {
    && |t.crawlers| == |s.crawlers| && (forall d :: 0 <= d < |s.crawlers| && d != c ==> t.crawlers[d] == s.crawlers[d])
    && s.issued <= t.issued && s.issuedTransactions <= t.issuedTransactions && SliceIssued(world, t, t.crawlers[c])
  }

  lemma FetchIssues(world: World, s: State, c: nat)
    requires c < |s.crawlers| && SliceIssued(world, s, s.crawlers[c])
    ensures Issues(world, s, FetchStep(world, s, c), c)
  {
    hide World.EventsIn, World.MessagesIn, Slice;
  }

  lemma CommitIssues(world: World, s: State, c: nat)
    requires c < |s.crawlers| && SliceIssued(world, s, s.crawlers[c])
    ensures Issues(world, s, CommitStep(world, s, c), c)
  {
    hide World.EventsIn, World.MessagesIn, Slice;
  }

  lemma NextSliceIssues(world: World, s: State, c: nat)
    requires c < |s.crawlers| && SliceIssued(world, s, s.crawlers[c])
    ensures Issues(world, s, NextSliceStep(world, s, c), c)
  {
    hide World.EventsIn, World.MessagesIn, Slice, SliceConfirmed;
  }

  lemma NextTransactionSliceIssues(world: World, s: State, c: nat)
    requires c < |s.crawlers| && SliceIssued(world, s, s.crawlers[c])
    ensures Issues(world, s, NextTransactionSliceStep(world, s, c), c)
  {
    hide World.EventsIn, World.MessagesIn, Slice, SliceConfirmed;
  }

  lemma ConfirmIssues(world: World, s: State, c: nat, k: nat)
    requires c < |s.crawlers| && SliceIssued(world, s, s.crawlers[c])
    ensures Issues(world, s, ConfirmEventStep(world, s, c, k), c)
    ensures Issues(world, s, ConfirmTransactionStep(world, s, c, k), c)
  {
    hide World.EventsIn, World.MessagesIn, Slice, InSlice;
  }

  lemma LookingIssues(world: World, s: State, c: nat, head: int)
    requires c < |s.crawlers| && SliceIssued(world, s, s.crawlers[c])
    ensures Issues(world, s, PickStep(world, s, c, head), c) && Issues(world, s, s, c)
    ensures Issues(world, s, SetCrawler(s, c, Idle), c)
    ensures Issues(world, s, SetCrawler(s, c, CursorRead(LastBlock(s.blocksInfo))), c)
  {
    hide World.EventsIn, World.MessagesIn, Slice, PickFrom;
  }

  lemma CrawlerIssues(world: World, s: State, c: nat, action: CrawlerAction)
    requires c < |s.crawlers| && SliceIssued(world, s, s.crawlers[c])
    ensures Issues(world, s, ApplyCrawler(world, s, c, action), c)
  {
    hide Issues, SliceIssued, PickStep, FetchStep, ConfirmEventStep, NextSliceStep, ConfirmTransactionStep,
         NextTransactionSliceStep, CommitStep, SetCrawler;
    match action
    case FetchWindow => FetchIssues(world, s, c);
    case Commit => CommitIssues(world, s, c);
    case NextSlice => NextSliceIssues(world, s, c);
    case NextTransactionSlice => NextTransactionSliceIssues(world, s, c);
    case ConfirmEvent(k) => ConfirmIssues(world, s, c, k);
    case ConfirmTransaction(k) => ConfirmIssues(world, s, c, k);
    case ReadHead(head) => LookingIssues(world, s, c, head);
    case ReadCursor => LookingIssues(world, s, c, 0);
    case AbortRun => LookingIssues(world, s, c, 0);
  }

  lemma IssuesKeeps(world: World, s: State, t: State, c: nat)
    requires SlicesIssued(world, s) && c < |s.crawlers| && Issues(world, s, t, c)
    ensures SlicesIssued(world, t)
  {
    hide World.EventsIn, World.MessagesIn, Slice;
    forall d | 0 <= d < |t.crawlers|
      ensures SliceIssued(world, t, t.crawlers[d])
    {
      assert SliceIssued(world, s, s.crawlers[d]);
    }
  }

  predicate LeavesCrawlers(s: State, t: State) {
    t.crawlers == s.crawlers && t.issued == s.issued && t.issuedTransactions == s.issuedTransactions
  }

  lemma LookingLeavesCrawlers(world: World, s: State, w: nat, id: int)
    requires w < |s.workers|
    ensures LeavesCrawlers(s, ParseStep(world, s, w)) && LeavesCrawlers(s, FindStep(world, s, w))
    ensures LeavesCrawlers(s, CreateStep(world, s, w, id))
  {
    hide ToEntity, AssetOf;
  }

  lemma SavingLeavesCrawlers(world: World, s: State, w: nat)
    requires w < |s.workers|
    ensures LeavesCrawlers(s, AnnounceStep(world, s, w)) && LeavesCrawlers(s, InsertStep(world, s, w))
    ensures LeavesCrawlers(s, AppendStep(world, s, w)) && LeavesCrawlers(s, UpsertStep(world, s, w))
  {
    hide ToEntity, InsertTransfer, Upsert;
  }

  lemma MovingLeavesCrawlers(s: State, w: nat, worker: Worker)
    requires w < |s.workers|
    ensures LeavesCrawlers(s, SetWorker(s, w, worker)) && LeavesCrawlers(s, AckStep(s, w)) && LeavesCrawlers(s, s)
  {
  }

  lemma WorkerIssuesNothing(world: World, s: State, w: nat, action: WorkerAction)
    requires w < |s.workers|
    ensures LeavesCrawlers(s, ApplyWorker(world, s, w, action))
  {
    hide LeavesCrawlers, ParseStep, FindStep, CreateStep, AnnounceStep, InsertStep, AppendStep, UpsertStep, AckStep,
         SetWorker;
    match action
    case FailWorker => MovingLeavesCrawlers(s, w, Waiting);
    case Deliver(e) => MovingLeavesCrawlers(s, w, Delivered(e));
    case AckEvent => MovingLeavesCrawlers(s, w, Waiting);
    case ParseEvent => LookingLeavesCrawlers(world, s, w, 0);
    case FindAssetRow => LookingLeavesCrawlers(world, s, w, 0);
    case CreateAssetRow(id) => LookingLeavesCrawlers(world, s, w, id);
    case _ => SavingLeavesCrawlers(world, s, w);
  }

  lemma SameCrawlersKeep(world: World, s: State, t: State)
    requires SlicesIssued(world, s) && LeavesCrawlers(s, t)
    ensures SlicesIssued(world, t)
  {
    hide World.EventsIn, World.MessagesIn, Slice;
    forall d | 0 <= d < |t.crawlers|
      ensures SliceIssued(world, t, t.crawlers[d])
    {
      assert SliceIssued(world, s, s.crawlers[d]);
    }
  }

  lemma CrawlerStepIssues(world: World, s: State, c: nat, action: CrawlerAction)
    requires SlicesIssued(world, s) && c < |s.crawlers|
    ensures SlicesIssued(world, ApplyCrawler(world, s, c, action))
  {
    assert SliceIssued(world, s, s.crawlers[c]);
    hide ApplyCrawler, SliceIssued, Issues, SlicesIssued;
    CrawlerIssues(world, s, c, action);
    IssuesKeeps(world, s, ApplyCrawler(world, s, c, action), c);
  }

  lemma LateEventLeavesCrawlers(world: World, s: State, e: MigrationEvent)
    ensures LeavesCrawlers(s, Apply(world, s, LateArrival(e)))
  {
    hide ApplyCrawler, ApplyWorker;
  }

  lemma LateMessageLeavesCrawlers(world: World, s: State, m: TransactionMessage)
    ensures LeavesCrawlers(s, Apply(world, s, LateTransaction(m)))
  {
    hide ApplyCrawler, ApplyWorker;
  }

  lemma AckedMessageLeavesCrawlers(world: World, s: State, m: TransactionMessage)
    ensures LeavesCrawlers(s, Apply(world, s, AckTransaction(m)))
  {
    hide ApplyCrawler, ApplyWorker;
  }

  lemma StepIssues(world: World, s: State, step: Step)
    requires SlicesIssued(world, s)
    ensures SlicesIssued(world, Apply(world, s, step))
  {
    hide ApplyCrawler, ApplyWorker, SlicesIssued, LeavesCrawlers;
    match step
    case CrawlerStep(c, action) =>
      if c < |s.crawlers| {
        CrawlerStepIssues(world, s, c, action);
      }
    case WorkerStep(w, action) =>
      if w < |s.workers| {
        WorkerIssuesNothing(world, s, w, action);
        SameCrawlersKeep(world, s, ApplyWorker(world, s, w, action));
      }
    case LateArrival(e) =>
      LateEventLeavesCrawlers(world, s, e);
      SameCrawlersKeep(world, s, Apply(world, s, step));
    case LateTransaction(m) =>
      LateMessageLeavesCrawlers(world, s, m);
      SameCrawlersKeep(world, s, Apply(world, s, step));
    case AckTransaction(m) =>
      AckedMessageLeavesCrawlers(world, s, m);
      SameCrawlersKeep(world, s, Apply(world, s, step));
  }

  lemma {:induction false} AlwaysIssued(world: World, crawlers: nat, workers: nat, steps: seq<Step>)
    ensures SlicesIssued(world, StateAfter(world, Init(crawlers, workers), steps))
  {
    hide Apply, SliceIssued;
    if steps == [] {
      NothingIssued(world, crawlers, workers);
    } else {
      AlwaysIssued(world, crawlers, workers, steps[..|steps| - 1]);
      StepIssues(world, StateAfter(world, Init(crawlers, workers), steps[..|steps| - 1]), steps[|steps| - 1]);
    }
  }

  lemma NothingIssued(world: World, crawlers: nat, workers: nat)
    ensures SlicesIssued(world, Init(crawlers, workers))
  {
  }

  /** What a run whose slice of events is being published can leave behind when it fails there:
      any event of the slice on the queue once more, confirmed before or not, and nothing
      recorded. */
  lemma EventCanLandLate(world: World, s: State, c: nat, k: nat) returns (t: State)
    requires Reachable(world, s) && c < |s.crawlers|
    requires s.crawlers[c].PublishingEvents? || s.crawlers[c].Republishing?
    requires s.crawlers[c].next <= k < s.crawlers[c].next + 100 && k < |world.EventsIn(s.crawlers[c].window)|
    ensures Reachable(world, t) && t.crawlers == s.crawlers[c := Idle] && t.blocksInfo == s.blocksInfo
    ensures t.queue == s.queue + multiset{world.EventsIn(s.crawlers[c].window)[k]}
  {
    hide Reachable, StateAfter, Leads, World.EventsIn, World.MessagesIn;
    var e := world.EventsIn(s.crawlers[c].window)[k];
    EmittedIsIssued(world, s, c);
    assert InSlice(s.crawlers[c].next, k, |world.EventsIn(s.crawlers[c].window)|);
    assert e in s.issued;
    t := AbortAndLand(world, s, c, LateArrival(e));
  }

  /** The same for transactions. */
  lemma TransactionCanLandLate(world: World, s: State, c: nat, k: nat) returns (t: State)
    requires Reachable(world, s) && c < |s.crawlers| && s.crawlers[c].PublishingTransactions?
    requires s.crawlers[c].next <= k < s.crawlers[c].next + 100 && k < |world.MessagesIn(s.crawlers[c].window)|
    ensures Reachable(world, t) && t.crawlers == s.crawlers[c := Idle] && t.blocksInfo == s.blocksInfo
    ensures t.transactionQueue == s.transactionQueue + multiset{world.MessagesIn(s.crawlers[c].window)[k]}
  {
    hide Reachable, StateAfter, Leads, World.EventsIn, World.MessagesIn;
    var m := world.MessagesIn(s.crawlers[c].window)[k];
    EmittedIsIssued(world, s, c);
    assert InSlice(s.crawlers[c].next, k, |world.MessagesIn(s.crawlers[c].window)|);
    assert m in s.issuedTransactions;
    t := AbortAndLand(world, s, c, LateTransaction(m));
  }

  lemma EmittedIsIssued(world: World, s: State, c: nat)
    requires Reachable(world, s) && c < |s.crawlers|
    ensures SliceIssued(world, s, s.crawlers[c])
  {
    hide StateAfter, SliceIssued;
    var crawlers: nat, workers: nat, steps: seq<Step> :| s == StateAfter(world, Init(crawlers, workers), steps);
    AlwaysIssued(world, crawlers, workers, steps);
  }

  lemma AbortAndLand(world: World, s: State, c: nat, late: Step) returns (t: State)
    requires Reachable(world, s) && c < |s.crawlers|
    ensures Reachable(world, t) && t == Apply(world, SetCrawler(s, c, Idle), late)
  {
    hide Reachable, Leads;
    var u := SetCrawler(s, c, Idle);
    assert Apply(world, s, CrawlerStep(c, AbortRun)) == u;
    hide Apply;
    t := Apply(world, u, late);
    LeadsByOne(world, s, CrawlerStep(c, AbortRun));
    LeadsByOne(world, u, late);
    LeadsOn(world, s, u, t);
    LeadsToReachable(world, s, t);
  }
}
