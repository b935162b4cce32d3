/** Crawlers, broker and consumers as one state machine. A step is one awaited call; any
    component may fail between any two of its steps, deliveries repeat and reorder freely,
    and every reported head is arbitrary. Runs may even overlap. */
module Pipeline {
  import opened ChainData
  import opened ChainWorld
  import opened Chunks
  import opened Crawler
  import opened Cursor
  import opened EventConsumer
  import EventExtraction
  import opened EventTables
  import opened LogWindows
  import opened Wrappers

  /** Where a crawler stands in its run. `next` is the start of the slice being published
      and `confirmed` the indices of it whose publish has been confirmed. */
  datatype CrawlerState =
    | Idle
    | CursorRead(last: Option<int>)
    | WindowPicked(window: Window)
    | PublishingEvents(window: Window, next: nat, confirmed: set<nat>)
    | PublishingTransactions(window: Window, next: nat, confirmed: set<nat>)
    | Committing(window: Window)
    | Republishing(window: Window, next: nat, confirmed: set<nat>)

  /** Where a consumer stands with the message it holds; the broker keeps the message until
      it is acknowledged. */
  datatype Worker =
    | Waiting
    | Delivered(event: MigrationEvent)
    | Finding(event: MigrationEvent)
    | Creating(event: MigrationEvent)
    | HasAsset(event: MigrationEvent, id: int)
    | Announced(event: MigrationEvent, id: int)
    | Appended(event: MigrationEvent, id: int)
    | Saved(event: MigrationEvent)

  /** `issued` and `issuedTransactions` are the messages whose `emit` was ever started, `upserts` the approvals in the
      order their upserts ran, `parsed` the acknowledged transaction messages. */
  datatype State = State(
    blocksInfo: seq<Window>,
    crawlers: seq<CrawlerState>,
    queue: multiset<MigrationEvent>,
    issued: set<MigrationEvent>,
    transactionQueue: multiset<TransactionMessage>,
    issuedTransactions: set<TransactionMessage>,
    parsed: set<TransactionMessage>,
    workers: seq<Worker>,
    assets: map<AssetKey, int>,
    transfers: TransferTable,
    approvals: seq<Approval>,
    approvalsNew: ApprovalTable,
    upserts: seq<Approval>)

  datatype CrawlerAction =
    | ReadCursor
    | ReadHead(head: int)
    | FetchWindow
    | ConfirmEvent(k: nat)
    | NextSlice
    | ConfirmTransaction(k: nat)
    | NextTransactionSlice
    | Commit
    | AbortRun

  datatype WorkerAction =
    | Deliver(event: MigrationEvent)
    | ParseEvent
    | FindAssetRow
    | CreateAssetRow(id: int)
    | AnnounceAsset
    | InsertTransferRow
    | AppendApprovalRow
    | UpsertApprovalRow
    | AckEvent
    | FailWorker

  /** A late arrival is a message of an emit that its run did not see confirmed. */
  datatype Step =
    | CrawlerStep(c: nat, crawlerAction: CrawlerAction)
    | WorkerStep(w: nat, workerAction: WorkerAction)
    | LateArrival(event: MigrationEvent)
    | LateTransaction(message: TransactionMessage)
    | AckTransaction(acked: TransactionMessage)

  function Init(crawlers: nat, workers: nat): State {
    State([], seq(crawlers, i => Idle), multiset{}, {}, multiset{}, {}, {}, seq(workers, i => Waiting),
          map[], map[], [], map[], [])
  }

  /** Indices of the slice that starts at `next`. */
  predicate InSlice(next: nat, k: nat, length: nat) {
    next <= k < ToField(next, length, CHUNK_SIZE) && k < length
  }

  function Slice<T>(s: seq<T>, next: nat): set<T> {
    set k | 0 <= k < |s| && InSlice(next, k, |s|) :: s[k]
  }

  ghost predicate SliceConfirmed(next: nat, confirmed: set<nat>, length: nat) {
    forall k :: InSlice(next, k, length) ==> k in confirmed
  }

  function SetCrawler(s: State, c: nat, state: CrawlerState): State
    requires c < |s.crawlers|
  {
    s.(crawlers := s.crawlers[c := state])
  }

  function SetWorker(s: State, w: nat, worker: Worker): State
    requires w < |s.workers|
  {
    s.(workers := s.workers[w := worker])
  }

  /** One step; a step that is not enabled changes nothing. */
  ghost function Apply(world: World, s: State, step: Step): State {
    match step
    case CrawlerStep(c, action) => if c < |s.crawlers| then ApplyCrawler(world, s, c, action) else s
    case WorkerStep(w, action) => if w < |s.workers| then ApplyWorker(world, s, w, action) else s
    case LateArrival(e) => if e in s.issued then s.(queue := s.queue + multiset{e}) else s
    case LateTransaction(m) =>
      if m in s.issuedTransactions then s.(transactionQueue := s.transactionQueue + multiset{m}) else s
    case AckTransaction(m) =>
      if m in s.transactionQueue
      then s.(transactionQueue := s.transactionQueue - multiset{m}, parsed := s.parsed + {m})
      else s
  }

  ghost function ApplyCrawler(world: World, s: State, c: nat, action: CrawlerAction): State
    requires c < |s.crawlers|
  {
    match action
    case AbortRun => SetCrawler(s, c, Idle)
    case ReadCursor => if s.crawlers[c].Idle? then SetCrawler(s, c, CursorRead(LastBlock(s.blocksInfo))) else s
    case ReadHead(head) => PickStep(world, s, c, head)
    case FetchWindow => FetchStep(world, s, c)
    case ConfirmEvent(k) => ConfirmEventStep(world, s, c, k)
    case NextSlice => NextSliceStep(world, s, c)
    case ConfirmTransaction(k) => ConfirmTransactionStep(world, s, c, k)
    case NextTransactionSlice => NextTransactionSliceStep(world, s, c)
    case Commit => CommitStep(world, s, c)
  }

  function Confirm(crawler: CrawlerState, k: nat): CrawlerState {
    match crawler
    case PublishingEvents(w, next, confirmed) => PublishingEvents(w, next, confirmed + {k})
    case PublishingTransactions(w, next, confirmed) => PublishingTransactions(w, next, confirmed + {k})
    case Republishing(w, next, confirmed) => Republishing(w, next, confirmed + {k})
    case _ => crawler
  }

  function Advance(crawler: CrawlerState): CrawlerState {
    match crawler
    case PublishingEvents(w, next, _) => PublishingEvents(w, next + CHUNK_SIZE, {})
    case PublishingTransactions(w, next, _) => PublishingTransactions(w, next + CHUNK_SIZE, {})
    case Republishing(w, next, _) => Republishing(w, next + CHUNK_SIZE, {})
    case _ => crawler
  }

  /** The head is read after the cursor, however old either is by then. */
  function PickStep(world: World, s: State, c: nat, head: int): State
    requires c < |s.crawlers|
  {
    if !s.crawlers[c].CursorRead? then s
    else
      SetCrawler(s, c, match PickFrom(s.crawlers[c].last, head, Depth(world.network), world.step)
                       case Err(_) => Idle
                       case Ok(w) => WindowPicked(w))
  }

  function FetchStep(world: World, s: State, c: nat): State
    requires c < |s.crawlers|
  {
    if !s.crawlers[c].WindowPicked? then s
    else
      var w := s.crawlers[c].window;
      SetCrawler(s, c, PublishingEvents(w, 0, {})).(issued := s.issued + Slice(world.EventsIn(w), 0))
  }

  /** One publish of the current slice lands and is confirmed. */
  function ConfirmEventStep(world: World, s: State, c: nat, k: nat): State
    requires c < |s.crawlers|
  {
    var crawler := s.crawlers[c];
    if !(crawler.PublishingEvents? || crawler.Republishing?) then s
    else
      var events := world.EventsIn(crawler.window);
      if !InSlice(crawler.next, k, |events|) then s
      else SetCrawler(s, c, Confirm(crawler, k)).(queue := s.queue + multiset{events[k]})
  }

  /** The next slice of events starts only when all of this one is confirmed. */
  ghost function NextSliceStep(world: World, s: State, c: nat): State
    requires c < |s.crawlers|
  {
    var crawler := s.crawlers[c];
    if !(crawler.PublishingEvents? || crawler.Republishing?) then s
    else
      var events := world.EventsIn(crawler.window);
      if crawler.next >= |events| then
        if crawler.Republishing? then SetCrawler(s, c, Idle)
        else SetCrawler(s, c, PublishingTransactions(crawler.window, 0, {})).(
               issuedTransactions := s.issuedTransactions + Slice(world.MessagesIn(crawler.window), 0))
      else if SliceConfirmed(crawler.next, crawler.confirmed, |events|) then
        SetCrawler(s, c, Advance(crawler)).(
          issued := s.issued + Slice(events, crawler.next + CHUNK_SIZE))
      else s
  }

  function ConfirmTransactionStep(world: World, s: State, c: nat, k: nat): State
    requires c < |s.crawlers|
  {
    var crawler := s.crawlers[c];
    if !crawler.PublishingTransactions? then s
    else
      var messages := world.MessagesIn(crawler.window);
      if !InSlice(crawler.next, k, |messages|) then s
      else SetCrawler(s, c, Confirm(crawler, k)).(
             transactionQueue := s.transactionQueue + multiset{messages[k]})
  }

  ghost function NextTransactionSliceStep(world: World, s: State, c: nat): State
    requires c < |s.crawlers|
  {
    var crawler := s.crawlers[c];
    if !crawler.PublishingTransactions? then s
    else
      var messages := world.MessagesIn(crawler.window);
      if crawler.next >= |messages| then SetCrawler(s, c, Committing(crawler.window))
      else if SliceConfirmed(crawler.next, crawler.confirmed, |messages|) then
        SetCrawler(s, c, Advance(crawler)).(
          issuedTransactions := s.issuedTransactions + Slice(messages, crawler.next + CHUNK_SIZE))
      else s
  }

  /** The cursor row goes in; BSC publishes its events once more. */
  function CommitStep(world: World, s: State, c: nat): State
    requires c < |s.crawlers|
  {
    if !s.crawlers[c].Committing? then s
    else
      var w := s.crawlers[c].window;
      match world.network
      case Eth => SetCrawler(s, c, Idle).(blocksInfo := s.blocksInfo + [w])
      case Bsc => SetCrawler(s, c, Republishing(w, 0, {})).(
                    blocksInfo := s.blocksInfo + [w], issued := s.issued + Slice(world.EventsIn(w), 0))
  }

  function ApplyWorker(world: World, s: State, w: nat, action: WorkerAction): State
    requires w < |s.workers|
  {
    match action
    case FailWorker => SetWorker(s, w, Waiting)
    case Deliver(e) => if s.workers[w].Waiting? && e in s.queue then SetWorker(s, w, Delivered(e)) else s
    case ParseEvent => ParseStep(world, s, w)
    case FindAssetRow => FindStep(world, s, w)
    case CreateAssetRow(id) => CreateStep(world, s, w, id)
    case AnnounceAsset => AnnounceStep(world, s, w)
    case InsertTransferRow => InsertStep(world, s, w)
    case AppendApprovalRow => AppendStep(world, s, w)
    case UpsertApprovalRow => UpsertStep(world, s, w)
    case AckEvent => AckStep(s, w)
  }

  /** An event without a template, or not decodable, goes back to the queue for good. */
  function ParseStep(world: World, s: State, w: nat): State
    requires w < |s.workers|
  {
    if !s.workers[w].Delivered? then s
    else
      var e := s.workers[w].event;
      SetWorker(s, w, match ToEntity(world.codec, e)
                      case Err(_) => Waiting
                      case Ok(Skipped) => Saved(e)
                      case Ok(_) => Finding(e))
  }

  function FindStep(world: World, s: State, w: nat): State
    requires w < |s.workers|
  {
    if !s.workers[w].Finding? then s
    else
      var e := s.workers[w].event;
      var key := AssetOf(world.codec, e);
      SetWorker(s, w, if key in s.assets then HasAsset(e, s.assets[key]) else Creating(e))
  }

  /** A second row for the same (address, chain) violates the table and throws; a new row is
      read back by finding it again. */
  function CreateStep(world: World, s: State, w: nat, id: int): State
    requires w < |s.workers|
  {
    if !s.workers[w].Creating? then s
    else
      var e := s.workers[w].event;
      var key := AssetOf(world.codec, e);
      if key in s.assets then SetWorker(s, w, Waiting)
      else if id in s.assets.Values then s
      else SetWorker(s, w, Finding(e)).(assets := s.assets[key := id])
  }

  function AnnounceStep(world: World, s: State, w: nat): State
    requires w < |s.workers|
  {
    if !s.workers[w].HasAsset? || !IsTransfer(world, s.workers[w].event) then s
    else SetWorker(s, w, Announced(s.workers[w].event, s.workers[w].id))
  }

  function InsertStep(world: World, s: State, w: nat): State
    requires w < |s.workers|
  {
    if !s.workers[w].Announced? || !IsTransfer(world, s.workers[w].event) then s
    else
      var e := s.workers[w].event;
      SetWorker(s, w, Saved(e)).(transfers := InsertTransfer(s.transfers, TransferRow(world, e, s.workers[w].id)))
  }

  function AppendStep(world: World, s: State, w: nat): State
    requires w < |s.workers|
  {
    if !s.workers[w].HasAsset? || !IsApproval(world, s.workers[w].event) then s
    else
      var e, id := s.workers[w].event, s.workers[w].id;
      SetWorker(s, w, Appended(e, id)).(approvals := s.approvals + [ApprovalRow(world, e, id)])
  }

  function UpsertStep(world: World, s: State, w: nat): State
    requires w < |s.workers|
  {
    if !s.workers[w].Appended? || !IsApproval(world, s.workers[w].event) then s
    else
      var e := s.workers[w].event;
      var row := ApprovalRow(world, e, s.workers[w].id);
      SetWorker(s, w, Saved(e)).(approvalsNew := Upsert(s.approvalsNew, row), upserts := s.upserts + [row])
  }

  function AckStep(s: State, w: nat): State
    requires w < |s.workers|
  {
    if !s.workers[w].Saved? then s
    else SetWorker(s, w, Waiting).(queue := s.queue - multiset{s.workers[w].event})
  }

  predicate IsTransfer(world: World, e: MigrationEvent) {
    ToEntity(world.codec, e).Ok? && ToEntity(world.codec, e).value.TransferEntity?
  }

  predicate IsApproval(world: World, e: MigrationEvent) {
    ToEntity(world.codec, e).Ok? && ToEntity(world.codec, e).value.ApprovalEntity?
  }

  function TransferRow(world: World, e: MigrationEvent, id: int): Transfer
    requires IsTransfer(world, e)
  {
    ToEntity(world.codec, e).value.transfer.(assetId := id)
  }

  function ApprovalRow(world: World, e: MigrationEvent, id: int): Approval
    requires IsApproval(world, e)
  {
    ToEntity(world.codec, e).value.approval.(assetId := id)
  }

  /** The state after a schedule of steps. */
  ghost function StateAfter(world: World, s: State, steps: seq<Step>): State {
    if steps == [] then s else Apply(world, StateAfter(world, s, steps[..|steps| - 1]), steps[|steps| - 1])
  }

  // ---------------------------------------------------------------------------------------
  // What it means for an event to be taken care of
  // ---------------------------------------------------------------------------------------

  /** The cursor, never below the block before the first. */
  function Committed(blocksInfo: seq<Window>): int {
    if CursorOf(blocksInfo) < -1 then -1 else CursorOf(blocksInfo)
  }

  /** The event's effect is in the tables; a skipped event has none, and one that cannot be
      parsed is never processed. */
  ghost predicate Processed(world: World, s: State, e: MigrationEvent) {
    match ToEntity(world.codec, e)
    case Err(_) => false
    case Ok(Skipped) => true
    case Ok(TransferEntity(t)) =>
      && AssetOf(world.codec, e) in s.assets && t.Key() in s.transfers
      && s.transfers[t.Key()] == t.(assetId := s.assets[AssetOf(world.codec, e)])
    case Ok(ApprovalEntity(a)) =>
      && AssetOf(world.codec, e) in s.assets
      && a.(assetId := s.assets[AssetOf(world.codec, e)]) in s.upserts
  }

  ghost predicate Handled(world: World, s: State, e: MigrationEvent) {
    e in s.queue || Processed(world, s, e)
  }

  ghost predicate HandledTransaction(s: State, m: TransactionMessage) {
    m in s.transactionQueue || m in s.parsed
  }

  // ---------------------------------------------------------------------------------------
  // The invariant
  // ---------------------------------------------------------------------------------------

  ghost predicate EventsHandled(world: World, s: State, w: Window, next: nat, confirmed: set<nat>) {
    forall k :: 0 <= k < |world.EventsIn(w)| && (k < next || k in confirmed) ==> Handled(world, s, world.EventsIn(w)[k])
  }

  ghost predicate TransactionsHandled(world: World, s: State, w: Window, next: nat, confirmed: set<nat>) {
    forall k :: 0 <= k < |world.MessagesIn(w)| && (k < next || k in confirmed) ==>
        HandledTransaction(s, world.MessagesIn(w)[k])
  }

  ghost predicate CrawlerOk(world: World, s: State, crawler: CrawlerState) {
    match crawler
    case Idle => true
    case CursorRead(last) => last.Some? ==> last.value <= Committed(s.blocksInfo)
    case WindowPicked(w) => w.first <= Committed(s.blocksInfo) + 1
    case PublishingEvents(w, next, confirmed) =>
      w.first <= Committed(s.blocksInfo) + 1 && EventsHandled(world, s, w, next, confirmed)
    case PublishingTransactions(w, next, confirmed) =>
      && w.first <= Committed(s.blocksInfo) + 1
      && EventsHandled(world, s, w, |world.EventsIn(w)|, {}) && TransactionsHandled(world, s, w, next, confirmed)
    case Committing(w) =>
      && w.first <= Committed(s.blocksInfo) + 1
      && EventsHandled(world, s, w, |world.EventsIn(w)|, {})
      && TransactionsHandled(world, s, w, |world.MessagesIn(w)|, {})
    case Republishing(_, _, _) => true
  }

  ghost predicate WorkerOk(world: World, s: State, worker: Worker) {
    match worker
    case Waiting => true
    case Delivered(e) => world.FinalEvent(e)
    case Finding(e) => world.FinalEvent(e)
    case Creating(e) => world.FinalEvent(e)
    case HasAsset(e, id) => world.FinalEvent(e) && AssetIs(world, s, e, id)
    case Announced(e, id) => world.FinalEvent(e) && AssetIs(world, s, e, id)
    case Appended(e, id) => world.FinalEvent(e) && AssetIs(world, s, e, id)
    case Saved(e) => world.FinalEvent(e) && Processed(world, s, e)
  }

  ghost predicate AssetIs(world: World, s: State, e: MigrationEvent, id: int) {
    AssetOf(world.codec, e) in s.assets && s.assets[AssetOf(world.codec, e)] == id
  }

  /** No row without a final log behind it. */
  ghost predicate TransferFrom(world: World, s: State, row: Transfer) {
    exists e :: world.FinalEvent(e) && IsTransfer(world, e) && AssetOf(world.codec, e) in s.assets
                && row == TransferRow(world, e, s.assets[AssetOf(world.codec, e)])
  }

  ghost predicate ApprovalFrom(world: World, s: State, row: Approval) {
    exists e :: world.FinalEvent(e) && IsApproval(world, e) && AssetOf(world.codec, e) in s.assets
                && row == ApprovalRow(world, e, s.assets[AssetOf(world.codec, e)])
  }

  ghost predicate TablesOk(world: World, s: State) {
    && (forall e :: e in s.queue ==> world.FinalEvent(e))
    && (forall e :: e in s.issued ==> world.FinalEvent(e))
    && (forall key :: key in s.transfers ==> s.transfers[key].Key() == key && TransferFrom(world, s, s.transfers[key]))
    && (forall i :: 0 <= i < |s.upserts| ==> ApprovalFrom(world, s, s.upserts[i]))
    && s.approvalsNew == Register(s.upserts)
  }

  /** Every tracked log and every transaction up to the cursor is taken care of. */
  ghost predicate NothingLost(world: World, s: State) {
    && (forall b, log :: world.FinalLog(b, log) && 0 <= b <= Committed(s.blocksInfo) ==>
          Handled(world, s, world.EventOfLog(log)))
    && (forall b, body :: TransactionAt(world, b, body) && 0 <= b <= Committed(s.blocksInfo) ==>
          TransactionCovered(world, s, b, body))
  }

  /** `body` is a transaction of final block `b`. */
  ghost predicate TransactionAt(world: World, b: int, body: MigrationTransaction) {
    exists i :: 0 <= i < |world.blockAt(b).transactions|
                && body == EventExtraction.TransactionOf(world.blockAt(b).transactions[i], world.blockAt(b),
                                                         world.chainId)
  }

  /** Some message with this transaction, sent by a run whose window held its block, is on
      the queue or parsed. */
  ghost predicate TransactionCovered(world: World, s: State, b: int, body: MigrationTransaction) {
    exists m: TransactionMessage, w: Window :: m.body == body && w.first <= b <= w.last
            && m in world.MessagesIn(w) && HandledTransaction(s, m)
  }

  ghost predicate Inv(world: World, s: State) {
    && (forall c :: 0 <= c < |s.crawlers| ==> CrawlerOk(world, s, s.crawlers[c]))
    && (forall w :: 0 <= w < |s.workers| ==> WorkerOk(world, s, s.workers[w]))
    && TablesOk(world, s)
    && NothingLost(world, s)
  }
}
