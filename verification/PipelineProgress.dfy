/** No state is a dead end: from anywhere a run can still be carried through to its commit,
    and the queue can still be drained. */
module PipelineProgress {
  import opened ChainData
  import opened ChainWorld
  import opened Crawler
  import opened Cursor
  import opened EventConsumer
  import opened EventTables
  import opened LogWindows
  import opened Pipeline
  import opened PipelineTheorems
  import opened Wrappers

  /** Some schedule leads from `s` to `t`. */
  ghost predicate Leads(world: World, s: State, t: State) {
    exists steps: seq<Step> :: t == StateAfter(world, s, steps)
  }

  lemma {:induction false} StateAfterConcat(world: World, s: State, a: seq<Step>, b: seq<Step>)
    ensures StateAfter(world, s, a + b) == StateAfter(world, StateAfter(world, s, a), b)
  {
    hide Apply;
    if b == [] {
      assert a + b == a;
    } else {
      assert (a + b)[..|a + b| - 1] == a + b[..|b| - 1];
      StateAfterConcat(world, s, a, b[..|b| - 1]);
    }
  }

  lemma LeadsOn(world: World, s: State, t: State, u: State)
    requires Leads(world, s, t) && Leads(world, t, u)
    ensures Leads(world, s, u)
  {
    hide StateAfter;
    var a: seq<Step> :| t == StateAfter(world, s, a);
    var b: seq<Step> :| u == StateAfter(world, t, b);
    StateAfterConcat(world, s, a, b);
  }

  lemma LeadsByOne(world: World, s: State, step: Step)
    ensures Leads(world, s, Apply(world, s, step))
  {
    hide Apply;
    assert [step][..0] == [];
    assert StateAfter(world, s, []) == s;
    assert StateAfter(world, s, [step]) == Apply(world, s, step);
  }

  lemma LeadsNowhere(world: World, s: State)
    ensures Leads(world, s, s)
  {
    hide Apply;
    assert StateAfter(world, s, []) == s;
  }

  /** Reachable states lead to reachable states. */
  lemma LeadsToReachable(world: World, s: State, t: State)
    requires Reachable(world, s) && Leads(world, s, t)
    ensures Reachable(world, t)
  {
    hide StateAfter, Init;
    var crawlers: nat, workers: nat, a: seq<Step> :| s == StateAfter(world, Init(crawlers, workers), a);
    var b: seq<Step> :| t == StateAfter(world, s, b);
    StateAfterConcat(world, Init(crawlers, workers), a, b);
  }

  // ---------------------------------------------------------------------------------------
  // A crawler
  // ---------------------------------------------------------------------------------------

  /** What is on the two queues beyond the messages that were on them. */
  datatype Sent = Sent(events: multiset<MigrationEvent>, messages: multiset<TransactionMessage>)

  /** Crawler `c` stands at `crawler` and has put `sent` on the queues since `s`; tables, cursor
      rows and the number of components are those of `s`. */
  predicate At(s: State, t: State, c: nat, crawler: CrawlerState, sent: Sent) {
    && c < |t.crawlers| && t.crawlers[c] == crawler && |t.crawlers| == |s.crawlers| && |t.workers| == |s.workers|
    && t.queue == s.queue + sent.events && t.transactionQueue == s.transactionQueue + sent.messages
    && t.blocksInfo == s.blocksInfo && t.transfers == s.transfers && t.approvalsNew == s.approvalsNew
  }

  lemma StepTo(world: World, s: State, t: State, c: nat, action: CrawlerAction, crawler: CrawlerState, sent: Sent)
    returns (u: State)
    requires Leads(world, s, t) && c < |t.crawlers|
    requires At(s, ApplyCrawler(world, t, c, action), c, crawler, sent)
    ensures Leads(world, s, u) && At(s, u, c, crawler, sent)
  {
    hide ApplyCrawler, Leads;
    u := ApplyCrawler(world, t, c, action);
    assert Apply(world, t, CrawlerStep(c, action)) == u;
    LeadsByOne(world, t, CrawlerStep(c, action));
    LeadsOn(world, s, t, u);
  }

  const NOTHING := Sent(multiset{}, multiset{})

  lemma StartsAt(s: State, c: nat)
    requires c < |s.crawlers|
    ensures At(s, s, c, s.crawlers[c], NOTHING)
  {
    assert s.queue + multiset{} == s.queue && s.transactionQueue + multiset{} == s.transactionQueue;
  }

  /** From anywhere the crawler can get to publishing the window picked for a reported head. */
  lemma CanStartPublishing(world: World, s: State, c: nat, head: int, w: Window) returns (t: State)
    requires c < |s.crawlers| && PickWindow(s.blocksInfo, head, Depth(world.network), world.step) == Ok(w)
    ensures Leads(world, s, t) && At(s, t, c, PublishingEvents(w, 0, {}), NOTHING)
  {
    hide Leads, PickFrom, LastBlock, Depth, World.EventsIn;
    LeadsNowhere(world, s);
    StartsAt(s, c);
    t := StepTo(world, s, s, c, AbortRun, Idle, NOTHING);
    t := StepTo(world, s, t, c, ReadCursor, CursorRead(LastBlock(s.blocksInfo)), NOTHING);
    t := StepTo(world, s, t, c, ReadHead(head), WindowPicked(w), NOTHING);
    t := StepTo(world, s, t, c, FetchWindow, PublishingEvents(w, 0, {}), NOTHING);
  }

  /** The first `n` elements, or all. */
  function Take<T>(s: seq<T>, n: nat): seq<T> {
    if n < |s| then s[..n] else s
  }

  lemma TakeOneMore<T>(s: seq<T>, n: nat)
    requires n < |s|
    ensures multiset(Take(s, n + 1)) == multiset(Take(s, n)) + multiset{s[n]}
  {
    assert Take(s, n + 1) == s[..n] + [s[n]];
  }

  /** The first `n` events of the window have been put on the queue. */
  function EventsSent(world: World, w: Window, n: nat): Sent {
    Sent(multiset(Take(world.EventsIn(w), n)), multiset{})
  }

  /** All events of the window and its first `n` transactions have. */
  function MessagesSent(world: World, w: Window, n: nat): Sent {
    Sent(multiset(world.EventsIn(w)), multiset(Take(world.MessagesIn(w), n)))
  }

  /** A crawler publishing its events, the first time or, on BSC, again after its commit. */
  function EventsCrawler(again: bool, w: Window, next: nat, confirmed: set<nat>): CrawlerState {
    if again then Republishing(w, next, confirmed) else PublishingEvents(w, next, confirmed)
  }

  function AfterEvents(again: bool, w: Window): CrawlerState {
    if again then Idle else PublishingTransactions(w, 0, {})
  }

  lemma ConfirmEventMoves(world: World, s: State, t: State, c: nat, again: bool, w: Window, next: nat,
                          confirmed: set<nat>, k: nat)
    requires At(s, t, c, EventsCrawler(again, w, next, confirmed), EventsSent(world, w, k))
             && InSlice(next, k, |world.EventsIn(w)|)
    ensures At(s, ApplyCrawler(world, t, c, ConfirmEvent(k)), c, EventsCrawler(again, w, next, confirmed + {k}),
               EventsSent(world, w, k + 1))
  {
    hide World.EventsIn, Take;
    TakeOneMore(world.EventsIn(w), k);
    var before, one := EventsSent(world, w, k).events, multiset{world.EventsIn(w)[k]};
    assert s.queue + before + one == s.queue + (before + one);
  }

  lemma {:induction false} CanConfirmEvents(world: World, s: State, t: State, c: nat, again: bool, w: Window, next: nat,
                                            confirmed: set<nat>, j: nat)
    returns (u: State, all: set<nat>)
    requires Leads(world, s, t) && At(s, t, c, EventsCrawler(again, w, next, confirmed), EventsSent(world, w, j))
    requires next <= j <= next + CHUNK_SIZE
    requires forall k :: next <= k < j && InSlice(next, k, |world.EventsIn(w)|) ==> k in confirmed
    ensures Leads(world, s, u)
            && At(s, u, c, EventsCrawler(again, w, next, all), EventsSent(world, w, next + CHUNK_SIZE))
    ensures SliceConfirmed(next, all, |world.EventsIn(w)|)
    decreases |world.EventsIn(w)| - j
  {
    hide Leads, World.EventsIn, ApplyCrawler, At;
    if InSlice(next, j, |world.EventsIn(w)|) {
      ConfirmEventMoves(world, s, t, c, again, w, next, confirmed, j);
      CrawlerIsThere(s, t, c, EventsCrawler(again, w, next, confirmed), EventsSent(world, w, j));
      u := StepTo(world, s, t, c, ConfirmEvent(j), EventsCrawler(again, w, next, confirmed + {j}),
                  EventsSent(world, w, j + 1));
      u, all := CanConfirmEvents(world, s, u, c, again, w, next, confirmed + {j}, j + 1);
    } else {
      u, all := t, confirmed;
      assert EventsSent(world, w, j) == EventsSent(world, w, next + CHUNK_SIZE);
    }
  }

  lemma CrawlerIsThere(s: State, t: State, c: nat, crawler: CrawlerState, sent: Sent)
    requires At(s, t, c, crawler, sent)
    ensures c < |t.crawlers| && t.crawlers[c] == crawler
  {
  }

  lemma NextSliceMoves(world: World, s: State, t: State, c: nat, again: bool, w: Window, next: nat,
                       confirmed: set<nat>, sent: Sent)
    requires At(s, t, c, EventsCrawler(again, w, next, confirmed), sent)
    requires next >= |world.EventsIn(w)| || SliceConfirmed(next, confirmed, |world.EventsIn(w)|)
    ensures At(s, ApplyCrawler(world, t, c, NextSlice), c,
               if next >= |world.EventsIn(w)| then AfterEvents(again, w)
                 else EventsCrawler(again, w, next + CHUNK_SIZE, {}),
               sent)
  {
    hide World.EventsIn, World.MessagesIn, Slice, SliceConfirmed;
  }

  lemma {:induction false} CanFinishEvents(world: World, s: State, t: State, c: nat, again: bool, w: Window, next: nat)
    returns (u: State)
    requires Leads(world, s, t) && At(s, t, c, EventsCrawler(again, w, next, {}), EventsSent(world, w, next))
    ensures Leads(world, s, u) && At(s, u, c, AfterEvents(again, w), MessagesSent(world, w, 0))
    decreases |world.EventsIn(w)| - next
  {
    hide Leads, World.EventsIn, World.MessagesIn, ApplyCrawler, At;
    CrawlerIsThere(s, t, c, EventsCrawler(again, w, next, {}), EventsSent(world, w, next));
    if next >= |world.EventsIn(w)| {
      NextSliceMoves(world, s, t, c, again, w, next, {}, EventsSent(world, w, next));
      AllEventsSent(world, w, next);
      u := StepTo(world, s, t, c, NextSlice, AfterEvents(again, w), MessagesSent(world, w, 0));
    } else {
      var v, all := CanConfirmEvents(world, s, t, c, again, w, next, {}, next);
      CrawlerIsThere(s, v, c, EventsCrawler(again, w, next, all), EventsSent(world, w, next + CHUNK_SIZE));
      NextSliceMoves(world, s, v, c, again, w, next, all, EventsSent(world, w, next + CHUNK_SIZE));
      v := StepTo(world, s, v, c, NextSlice, EventsCrawler(again, w, next + CHUNK_SIZE, {}),
                  EventsSent(world, w, next + CHUNK_SIZE));
      u := CanFinishEvents(world, s, v, c, again, w, next + CHUNK_SIZE);
    }
  }

  lemma AllEventsSent(world: World, w: Window, n: nat)
    requires n >= |world.EventsIn(w)|
    ensures EventsSent(world, w, n) == MessagesSent(world, w, 0)
  {
    hide World.EventsIn, World.MessagesIn;
    assert Take(world.MessagesIn(w), 0) == [];
  }

  lemma ConfirmTransactionMoves(world: World, s: State, t: State, c: nat, w: Window, next: nat, confirmed: set<nat>,
                                k: nat)
    requires At(s, t, c, PublishingTransactions(w, next, confirmed), MessagesSent(world, w, k))
    requires InSlice(next, k, |world.MessagesIn(w)|)
    ensures At(s, ApplyCrawler(world, t, c, ConfirmTransaction(k)), c, PublishingTransactions(w, next, confirmed + {k}),
               MessagesSent(world, w, k + 1))
  {
    hide World.EventsIn, World.MessagesIn, Take;
    TakeOneMore(world.MessagesIn(w), k);
    var before, one := MessagesSent(world, w, k).messages, multiset{world.MessagesIn(w)[k]};
    assert s.transactionQueue + before + one == s.transactionQueue + (before + one);
  }

  lemma {:induction false} CanConfirmTransactions(world: World, s: State, t: State, c: nat, w: Window, next: nat,
                                                  confirmed: set<nat>, j: nat)
    returns (u: State, all: set<nat>)
    requires Leads(world, s, t) && At(s, t, c, PublishingTransactions(w, next, confirmed), MessagesSent(world, w, j))
    requires next <= j <= next + CHUNK_SIZE
    requires forall k :: next <= k < j && InSlice(next, k, |world.MessagesIn(w)|) ==> k in confirmed
    ensures Leads(world, s, u)
            && At(s, u, c, PublishingTransactions(w, next, all), MessagesSent(world, w, next + CHUNK_SIZE))
    ensures SliceConfirmed(next, all, |world.MessagesIn(w)|)
    decreases |world.MessagesIn(w)| - j
  {
    hide Leads, World.EventsIn, World.MessagesIn, ApplyCrawler, At;
    if InSlice(next, j, |world.MessagesIn(w)|) {
      ConfirmTransactionMoves(world, s, t, c, w, next, confirmed, j);
      CrawlerIsThere(s, t, c, PublishingTransactions(w, next, confirmed), MessagesSent(world, w, j));
      u := StepTo(world, s, t, c, ConfirmTransaction(j), PublishingTransactions(w, next, confirmed + {j}),
                  MessagesSent(world, w, j + 1));
      u, all := CanConfirmTransactions(world, s, u, c, w, next, confirmed + {j}, j + 1);
    } else {
      u, all := t, confirmed;
      assert MessagesSent(world, w, j) == MessagesSent(world, w, next + CHUNK_SIZE);
    }
  }

  lemma NextTransactionSliceMoves(world: World, s: State, t: State, c: nat, w: Window, next: nat, confirmed: set<nat>,
                                  sent: Sent)
    requires At(s, t, c, PublishingTransactions(w, next, confirmed), sent)
    requires next >= |world.MessagesIn(w)| || SliceConfirmed(next, confirmed, |world.MessagesIn(w)|)
    ensures At(s, ApplyCrawler(world, t, c, NextTransactionSlice), c,
               if next >= |world.MessagesIn(w)| then Committing(w)
                 else PublishingTransactions(w, next + CHUNK_SIZE, {}), sent)
  {
    hide World.MessagesIn, Slice, SliceConfirmed;
  }

  lemma {:induction false} CanFinishTransactions(world: World, s: State, t: State, c: nat, w: Window, next: nat)
    returns (u: State)
    requires Leads(world, s, t) && At(s, t, c, PublishingTransactions(w, next, {}), MessagesSent(world, w, next))
    ensures Leads(world, s, u) && At(s, u, c, Committing(w), MessagesSent(world, w, |world.MessagesIn(w)|))
    decreases |world.MessagesIn(w)| - next
  {
    hide Leads, World.EventsIn, World.MessagesIn, ApplyCrawler, At;
    CrawlerIsThere(s, t, c, PublishingTransactions(w, next, {}), MessagesSent(world, w, next));
    if next >= |world.MessagesIn(w)| {
      NextTransactionSliceMoves(world, s, t, c, w, next, {}, MessagesSent(world, w, next));
      assert MessagesSent(world, w, next) == MessagesSent(world, w, |world.MessagesIn(w)|);
      u := StepTo(world, s, t, c, NextTransactionSlice, Committing(w), MessagesSent(world, w, next));
    } else {
      var v, all := CanConfirmTransactions(world, s, t, c, w, next, {}, next);
      var sent := MessagesSent(world, w, next + CHUNK_SIZE);
      CrawlerIsThere(s, v, c, PublishingTransactions(w, next, all), sent);
      NextTransactionSliceMoves(world, s, v, c, w, next, all, sent);
      v := StepTo(world, s, v, c, NextTransactionSlice, PublishingTransactions(w, next + CHUNK_SIZE, {}), sent);
      u := CanFinishTransactions(world, s, v, c, w, next + CHUNK_SIZE);
    }
  }

  /** The run recorded window `w` and left every event and every transaction of it on the
      queues, once; no other table changed. */
  predicate Recorded(world: World, s: State, t: State, w: Window) {
    && t.blocksInfo == s.blocksInfo + [w]
    && t.queue == s.queue + multiset(world.EventsIn(w))
    && t.transactionQueue == s.transactionQueue + multiset(world.MessagesIn(w))
    && t.transfers == s.transfers && t.approvalsNew == s.approvalsNew
    && |t.crawlers| == |s.crawlers| && |t.workers| == |s.workers|
  }

  function AfterCommit(world: World, w: Window): CrawlerState {
    match world.network
    case Eth => Idle
    case Bsc => Republishing(w, 0, {})
  }

  lemma CanCommit(world: World, s: State, u: State, c: nat, w: Window) returns (t: State)
    requires Leads(world, s, u) && At(s, u, c, Committing(w), MessagesSent(world, w, |world.MessagesIn(w)|))
    ensures Leads(world, s, t) && Recorded(world, s, t, w)
    ensures |t.crawlers| == |s.crawlers| && t.crawlers[c] == AfterCommit(world, w)
  {
    hide Leads, World.EventsIn, World.MessagesIn, Slice;
    t := ApplyCrawler(world, u, c, Commit);
    assert Apply(world, u, CrawlerStep(c, Commit)) == t;
    LeadsByOne(world, u, CrawlerStep(c, Commit));
    LeadsOn(world, s, u, t);
  }

  /** From every state, whatever any component is doing, a crawler that is told a head past the
      cursor can still publish and record exactly the window picked for it: what the run of the
      crawler module leaves behind when nothing fails. */
  lemma RunCanCommit(world: World, s: State, c: nat, head: int, w: Window) returns (t: State)
    requires c < |s.crawlers| && !UpToDate(s.blocksInfo, head, Depth(world.network))
    requires FollowsCursor(s.blocksInfo, head, Depth(world.network), world.step, w)
    ensures Leads(world, s, t) && Recorded(world, s, t, w)
    ensures |t.crawlers| == |s.crawlers| && t.crawlers[c] == AfterCommit(world, w)
  {
    PickedFollowsCursor(s.blocksInfo, head, Depth(world.network), world.step);
    hide Leads, PickFrom, LastBlock, At, World.EventsIn, World.MessagesIn, Recorded;
    var u := CanStartPublishing(world, s, c, head, w);
    NoEventsSent(world, w);
    u := CanFinishEvents(world, s, u, c, false, w, 0);
    u := CanFinishTransactions(world, s, u, c, w, 0);
    t := CanCommit(world, s, u, c, w);
  }

  /** The run is over: its window is recorded, its transactions were put on their queue once, and
      its events on theirs, once on Ethereum and twice on BSC. */
  predicate Finished(world: World, s: State, t: State, c: nat, w: Window) {
    && |t.crawlers| == |s.crawlers| && c < |t.crawlers| && t.crawlers[c].Idle?
    && t.blocksInfo == s.blocksInfo + [w]
    && t.queue == s.queue + multiset(world.EventsIn(w)) + (if world.network.Bsc? then multiset(world.EventsIn(w))
                                                           else multiset{})
    && t.transactionQueue == s.transactionQueue + multiset(world.MessagesIn(w))
    && t.transfers == s.transfers && t.approvalsNew == s.approvalsNew
  }

  /** And the run can go on to its end, as that of the crawler module does when nothing fails. */
  lemma RunCanFinish(world: World, s: State, c: nat, head: int, w: Window) returns (t: State)
    requires c < |s.crawlers| && !UpToDate(s.blocksInfo, head, Depth(world.network))
    requires FollowsCursor(s.blocksInfo, head, Depth(world.network), world.step, w)
    ensures Leads(world, s, t) && Finished(world, s, t, c, w)
  {
    hide Leads, FollowsCursor, UpToDate, Depth, World.EventsIn, World.MessagesIn, Take;
    var u := RunCanCommit(world, s, c, head, w);
    t := CanRepublish(world, u, c, w);
    LeadsOn(world, s, u, t);
    assert u.transactionQueue + multiset{} == u.transactionQueue;
  }

  /** A run that has committed ends there on Ethereum, and after publishing its events once more
      on BSC. */
  lemma CanRepublish(world: World, u: State, c: nat, w: Window) returns (t: State)
    requires c < |u.crawlers| && u.crawlers[c] == AfterCommit(world, w)
    ensures Leads(world, u, t)
    ensures At(u, t, c, Idle, if world.network.Bsc? then Sent(multiset(world.EventsIn(w)), multiset{}) else NOTHING)
  {
    hide Leads, World.EventsIn, World.MessagesIn, At;
    StartsAt(u, c);
    LeadsNowhere(world, u);
    t := u;
    if world.network.Bsc? {
      NoEventsSent(world, w);
      t := CanFinishEvents(world, u, u, c, true, w, 0);
      NoMessagesSent(world, w);
    }
  }

  lemma NoEventsSent(world: World, w: Window)
    ensures EventsSent(world, w, 0) == NOTHING
  {
    assert Take(world.EventsIn(w), 0) == [];
  }

  lemma NoMessagesSent(world: World, w: Window)
    ensures MessagesSent(world, w, 0) == Sent(multiset(world.EventsIn(w)), multiset{})
  {
    assert Take(world.MessagesIn(w), 0) == [];
  }

  // ---------------------------------------------------------------------------------------
  // A consumer
  // ---------------------------------------------------------------------------------------

  /** Worker `w` stands at `worker`; queue, cursor rows and the converging tables are those of `s`. */
  predicate Holds(s: State, t: State, w: nat, worker: Worker) {
    && w < |t.workers| && t.workers[w] == worker && |t.workers| == |s.workers| && |t.crawlers| == |s.crawlers|
    && t.queue == s.queue && t.blocksInfo == s.blocksInfo
    && t.transfers == s.transfers && t.approvals == s.approvals && t.approvalsNew == s.approvalsNew
  }

  lemma WorkTo(world: World, s: State, t: State, w: nat, action: WorkerAction, worker: Worker) returns (u: State)
    requires Leads(world, s, t) && w < |t.workers|
    requires Holds(s, ApplyWorker(world, t, w, action), w, worker)
    ensures Leads(world, s, u) && Holds(s, u, w, worker) && u == ApplyWorker(world, t, w, action)
  {
    hide ApplyWorker, Leads;
    u := WorkOn(world, s, t, w, action);
  }

  lemma WorkOn(world: World, s: State, t: State, w: nat, action: WorkerAction) returns (u: State)
    requires Leads(world, s, t) && w < |t.workers|
    ensures Leads(world, s, u) && u == ApplyWorker(world, t, w, action)
  {
    hide ApplyWorker, Leads;
    u := ApplyWorker(world, t, w, action);
    assert Apply(world, t, WorkerStep(w, action)) == u;
    LeadsByOne(world, t, WorkerStep(w, action));
    LeadsOn(world, s, t, u);
  }

  lemma {:induction false} FreshId(ids: set<int>) returns (id: int)
    ensures forall i :: i in ids ==> i < id
    decreases ids
  {
    if i :| i in ids {
      var rest := FreshId(ids - {i});
      id := if rest > i then rest else i + 1;
      forall j | j in ids
        ensures j < id
      {
        assert j == i || j in ids - {i};
      }
    } else {
      id := 0;
    }
  }

  /** A worker looking for an asset row can always get hold of one. */
  lemma CanFindAsset(world: World, s: State, t: State, w: nat, e: MigrationEvent) returns (u: State, id: int)
    requires Leads(world, s, t) && Holds(s, t, w, Finding(e))
    ensures Leads(world, s, u) && Holds(s, u, w, HasAsset(e, id)) && AssetIs(world, u, e, id)
  {
    hide Leads;
    var key := AssetOf(world.codec, e);
    u := t;
    if key !in t.assets {
      u := WorkTo(world, s, u, w, FindAssetRow, Creating(e));
      var newId := FreshId(u.assets.Values);
      u := WorkTo(world, s, u, w, CreateAssetRow(newId), Finding(e));
    }
    id := u.assets[key];
    u := WorkTo(world, s, u, w, FindAssetRow, HasAsset(e, id));
  }

  /** The tables after an event is processed under asset `id`: those of the consumer module. */
  function TransfersAfter(world: World, s: State, e: MigrationEvent, id: int): TransferTable {
    if IsTransfer(world, e) then InsertTransfer(s.transfers, TransferRow(world, e, id)) else s.transfers
  }

  function ApprovalsAfter(world: World, s: State, e: MigrationEvent, id: int): ApprovalTable {
    if IsApproval(world, e) then Upsert(s.approvalsNew, ApprovalRow(world, e, id)) else s.approvalsNew
  }

  function AppendsAfter(world: World, s: State, e: MigrationEvent, id: int): seq<Approval> {
    if IsApproval(world, e) then s.approvals + [ApprovalRow(world, e, id)] else s.approvals
  }

  /** Worker `w` is about to acknowledge `e`, processed under asset `id`. */
  predicate Done(world: World, s: State, t: State, w: nat, e: MigrationEvent, id: int) {
    && w < |t.workers| && t.workers[w] == Saved(e) && |t.workers| == |s.workers| && |t.crawlers| == |s.crawlers|
    && t.queue == s.queue && t.blocksInfo == s.blocksInfo
    && t.transfers == TransfersAfter(world, s, e, id) && t.approvalsNew == ApprovalsAfter(world, s, e, id)
    && t.approvals == AppendsAfter(world, s, e, id)
  }

  lemma CanSave(world: World, s: State, t: State, w: nat, e: MigrationEvent, id: int) returns (u: State)
    requires Leads(world, s, t) && Holds(s, t, w, HasAsset(e, id)) && (IsTransfer(world, e) || IsApproval(world, e))
    ensures Leads(world, s, u) && Done(world, s, u, w, e, id) && u.assets == t.assets
  {
    hide Leads, InsertTransfer, Upsert, ToEntity;
    if IsTransfer(world, e) {
      u := WorkTo(world, s, t, w, AnnounceAsset, Announced(e, id));
      u := WorkOn(world, s, u, w, InsertTransferRow);
    } else {
      u := WorkOn(world, s, t, w, AppendApprovalRow);
      u := WorkOn(world, s, u, w, UpsertApprovalRow);
    }
  }

  lemma CanParse(world: World, s: State, w: nat, e: MigrationEvent) returns (t: State)
    requires w < |s.workers| && e in s.queue && ToEntity(world.codec, e).Ok?
    ensures Leads(world, s, t)
            && Holds(s, t, w, if ToEntity(world.codec, e).value.Skipped? then Saved(e) else Finding(e))
  {
    hide Leads, ToEntity;
    LeadsNowhere(world, s);
    t := WorkTo(world, s, s, w, FailWorker, Waiting);
    t := WorkTo(world, s, t, w, Deliver(e), Delivered(e));
    t := WorkTo(world, s, t, w, ParseEvent, if ToEntity(world.codec, e).value.Skipped? then Saved(e) else Finding(e));
  }

  /** `e` was acknowledged once, processed under asset `id`. */
  predicate Acknowledged(world: World, s: State, t: State, e: MigrationEvent, id: int) {
    && t.queue == s.queue - multiset{e} && t.blocksInfo == s.blocksInfo
    && |t.workers| == |s.workers| && |t.crawlers| == |s.crawlers|
    && t.transfers == TransfersAfter(world, s, e, id) && t.approvalsNew == ApprovalsAfter(world, s, e, id)
    && t.approvals == AppendsAfter(world, s, e, id)
    && (IsTransfer(world, e) || IsApproval(world, e) ==>
        AssetOf(world.codec, e) in t.assets && t.assets[AssetOf(world.codec, e)] == id)
  }

  lemma CanAck(world: World, s: State, u: State, w: nat, e: MigrationEvent, id: int) returns (t: State)
    requires Leads(world, s, u) && Done(world, s, u, w, e, id)
    requires IsTransfer(world, e) || IsApproval(world, e) ==> AssetIs(world, u, e, id)
    ensures Leads(world, s, t) && Acknowledged(world, s, t, e, id)
  {
    hide Leads, ToEntity, TransfersAfter, ApprovalsAfter, AppendsAfter;
    t := WorkOn(world, s, u, w, AckEvent);
  }

  /** `e` left the queue, and the tables changed exactly as the consumer module promises for a
      successful attempt at it. */
  ghost predicate Consumed(world: World, s: State, t: State, e: MigrationEvent) {
    && t.queue == s.queue - multiset{e} && t.blocksInfo == s.blocksInfo
    && |t.workers| == |s.workers| && |t.crawlers| == |s.crawlers|
    && (if DescribesTransfer(world.codec, e) then TransferSaved(world.codec, e, t.assets, s.transfers, t.transfers)
        else t.transfers == s.transfers)
    && (if DescribesApproval(world.codec, e)
        then
          && ApprovalSaved(world.codec, e, t.assets, s.approvalsNew, t.approvalsNew)
          && exists row :: t.approvals == s.approvals + [row] && ApprovalTells(world.codec, e, row)
        else t.approvalsNew == s.approvalsNew && t.approvals == s.approvals)
  }

  lemma AcknowledgedIsConsumed(world: World, s: State, t: State, e: MigrationEvent, id: int)
    requires Acknowledged(world, s, t, e, id)
    ensures Consumed(world, s, t, e)
  {
    EntityMeans(world.codec, e);
    hide ToEntity, DescribesTransfer, DescribesApproval, InsertTransfer, Upsert, TransferSaved, ApprovalSaved;
    if DescribesTransfer(world.codec, e) {
      InsertSaves(world.codec, e, t.assets, s.transfers, TransferRow(world, e, id));
    }
    if DescribesApproval(world.codec, e) {
      UpsertSaves(world.codec, e, t.assets, s.approvalsNew, ApprovalRow(world, e, id));
      assert t.approvals == s.approvals + [ApprovalRow(world, e, id)];
    }
  }

  /** From every state, any worker can take any queued event it can parse through to its
      acknowledgement, and then the tables change as the consumer module says. */
  lemma EventCanBeProcessed(world: World, s: State, w: nat, e: MigrationEvent) returns (t: State)
    requires w < |s.workers| && e in s.queue && CanBeParsed(world.codec, e)
    ensures Leads(world, s, t) && Consumed(world, s, t, e)
  {
    EntityMeans(world.codec, e);
    hide Leads, ToEntity, Holds, Done, Acknowledged, Consumed, CanBeParsed;
    var id := 0;
    var u := CanParse(world, s, w, e);
    if ToEntity(world.codec, e).value.Skipped? {
      SkippedIsDone(world, s, u, w, e);
    } else {
      u, id := CanFindAsset(world, s, u, w, e);
      u := CanSave(world, s, u, w, e, id);
    }
    t := CanAck(world, s, u, w, e, id);
    AcknowledgedIsConsumed(world, s, t, e, id);
  }

  lemma SkippedIsDone(world: World, s: State, u: State, w: nat, e: MigrationEvent)
    requires Holds(s, u, w, Saved(e)) && ToEntity(world.codec, e) == Ok(Skipped)
    ensures Done(world, s, u, w, e, 0) && !IsTransfer(world, e) && !IsApproval(world, e)
  {
    hide ToEntity;
  }

  /** From every state with a consumer, the queue can still be drained of everything that can
      be parsed, without touching the cursor. */
  lemma {:induction false} QueueCanDrain(world: World, s: State, w: nat) returns (t: State)
    requires w < |s.workers|
    ensures Leads(world, s, t) && Drained(world, t) && t.blocksInfo == s.blocksInfo
    ensures |t.workers| == |s.workers| && |t.crawlers| == |s.crawlers|
    decreases |s.queue|
  {
    hide Leads, CanBeParsed, TransferSaved, ApprovalSaved;
    if e :| e in s.queue && CanBeParsed(world.codec, e) {
      var u := EventCanBeProcessed(world, s, w, e);
      assert s.queue == u.queue + multiset{e};
      t := QueueCanDrain(world, u, w);
      LeadsOn(world, s, u, t);
    } else {
      t := s;
      LeadsNowhere(world, s);
    }
  }

  // ---------------------------------------------------------------------------------------
  // Catching up with the chain
  // ---------------------------------------------------------------------------------------

  /** Runs told the same head, one after the other, can bring the cursor up to the confirmed
      part of the chain. */
  lemma {:induction false} RunsCanReach(world: World, s: State, c: nat, head: int) returns (t: State)
    requires c < |s.crawlers| && CursorOf(s.blocksInfo) <= head - Depth(world.network)
    ensures Leads(world, s, t) && CursorOf(t.blocksInfo) == head - Depth(world.network)
    ensures |t.workers| == |s.workers|
    decreases head - Depth(world.network) - CursorOf(s.blocksInfo)
  {
    hide Leads, Depth, World.EventsIn, World.MessagesIn;
    if CursorOf(s.blocksInfo) == head - Depth(world.network) {
      t := s;
      LeadsNowhere(world, s);
    } else {
      var w := PickedBehindHead(world, s.blocksInfo, head);
      var u := RunCanCommit(world, s, c, head, w);
      t := RunsCanReach(world, u, c, head);
      LeadsOn(world, s, u, t);
    }
  }

  lemma PickedBehindHead(world: World, rows: seq<Window>, head: int) returns (w: Window)
    requires CursorOf(rows) < head - Depth(world.network)
    ensures !UpToDate(rows, head, Depth(world.network))
    ensures FollowsCursor(rows, head, Depth(world.network), world.step, w)
    ensures CursorOf(rows) < CursorOf(rows + [w]) <= head - Depth(world.network)
  {
    w := PickWindow(rows, head, Depth(world.network), world.step).value;
    PickedFollowsCursor(rows, head, Depth(world.network), world.step);
    CursorOfAppend(rows, w);
  }

  /** From every reachable state with a crawler and a consumer, whatever has happened before,
      the cursor can still be brought up to the confirmed part of the chain and the queue
      drained; and then the stored transfers up to there are exactly those of the chain. */
  lemma CanCatchUp(world: World, s: State, c: nat, w: nat, head: int) returns (t: State)
    requires world.WellFormed() && Reachable(world, s) && c < |s.crawlers| && w < |s.workers|
    requires -1 <= head - Depth(world.network) && CursorOf(s.blocksInfo) <= head - Depth(world.network)
    ensures Reachable(world, t) && Drained(world, t) && CursorOf(t.blocksInfo) == head - Depth(world.network)
    ensures forall key :: (key in t.transfers && 0 <= t.transfers[key].blockNumber <= head - Depth(world.network))
                          <==> LoggedUpTo(world, head - Depth(world.network), key)
  {
    hide Leads, Reachable, World.WellFormed, Drained, LoggedUpTo, CursorOf, Depth;
    var u := RunsCanReach(world, s, c, head);
    t := QueueCanDrain(world, u, w);
    LeadsOn(world, s, u, t);
    LeadsToReachable(world, s, t);
    assert Committed(t.blocksInfo) == head - Depth(world.network);
    forall key
      ensures (key in t.transfers && 0 <= t.transfers[key].blockNumber <= head - Depth(world.network))
              <==> LoggedUpTo(world, head - Depth(world.network), key)
    {
      DrainedIsExact(world, t, key);
    }
  }
}
