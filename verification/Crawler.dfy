/** One scheduled run of the chain crawler: fetch, publish in slices of 100, commit. */
module Crawler {
  import opened ChainData
  import opened Chunks
  import opened Cursor
  import opened EventExtraction
  import opened LogWindows
  import opened Wrappers

  const CHUNK_SIZE: nat := 100
  const MIGRATION_STEP: nat := 1

  /** What happens to one `emit`: whether the message reaches the queue and whether the
      publisher sees it confirmed. Only a message that arrived can be confirmed. */
  datatype Sending = Confirmed | LandedUnconfirmed | Lost

  /** Every emit of the run is confirmed. */
  ghost predicate NothingFails(sending: nat -> Sending) {
    forall n: nat :: sending(n).Confirmed?
  }

  predicate Lands(s: Sending) {
    !s.Lost?
  }

  datatype TransactionMessage = TransactionMessage(body: MigrationTransaction, events: seq<MigrationEvent>)

  class Broker {
    var events: seq<MigrationEvent>
    var transactions: seq<TransactionMessage>
    /** Emits so far; the `n`-th one fares as the run's `sending(n)` says. */
    var emits: nat

    method PublishEvent(event: MigrationEvent, sending: nat -> Sending) returns (ok: bool)
      modifies this`events, this`emits
      ensures events == old(events) || events == old(events) + [event]
      ensures ok ==> events == old(events) + [event]
      ensures NothingFails(sending) ==> ok
    {
      var s := sending(emits);
      emits := emits + 1;
      if Lands(s) {
        events := events + [event];
      }
      ok := s.Confirmed?;
    }

    method PublishTransaction(message: TransactionMessage, sending: nat -> Sending) returns (ok: bool)
      modifies this`transactions, this`emits
      ensures transactions == old(transactions) || transactions == old(transactions) + [message]
      ensures ok ==> transactions == old(transactions) + [message]
      ensures NothingFails(sending) ==> ok
    {
      var s := sending(emits);
      emits := emits + 1;
      if Lands(s) {
        transactions := transactions + [message];
      }
      ok := s.Confirmed?;
    }

    /** `Promise.all` over one slice: every message is emitted, and one failure fails it. */
    method PublishSlice(slice: seq<MigrationEvent>, sending: nat -> Sending) returns (ok: bool)
      modifies this`events, this`emits
      ensures ok ==> events == old(events) + slice
      ensures NothingFails(sending) ==> ok
      ensures old(events) <= events
      ensures forall k :: |old(events)| <= k < |events| ==> events[k] in slice
    {
      ok := true;
      for k := 0 to |slice|
        invariant ok ==> events == old(events) + slice[..k]
        invariant NothingFails(sending) ==> ok
        invariant old(events) <= events
        invariant forall j :: |old(events)| <= j < |events| ==> events[j] in slice
      {
        var sent := PublishEvent(slice[k], sending);
        ok := ok && sent;
        assert slice[..k + 1] == slice[..k] + [slice[k]];
      }
      assert slice[..|slice|] == slice;
    }

    /** Slices of 100, each awaited before the next. Success means every event was put on
        the queue once, in order; failure never puts anything else there. */
    method SendAssetEventsToQueue(migrationEvents: seq<MigrationEvent>, sending: nat -> Sending) returns (ok: bool)
      modifies this`events, this`emits
      ensures ok ==> events == old(events) + migrationEvents
      ensures NothingFails(sending) ==> ok
      ensures old(events) <= events
      ensures forall k :: |old(events)| <= k < |events| ==> events[k] in migrationEvents
    {
      var i := 0;
      while i < |migrationEvents|
        invariant 0 <= i
        invariant events == old(events) + migrationEvents[..if i < |migrationEvents| then i else |migrationEvents|]
      {
        var to := ToField(i, |migrationEvents|, CHUNK_SIZE);
        var slice := migrationEvents[i..to];
        label before:
        var sent := PublishSlice(slice, sending);
        if !sent {
          forall k | |old(events)| <= k < |events|
            ensures events[k] in migrationEvents
          {
            if k < |old@before(events)| {
              assert events[k] == old@before(events)[k];
            } else {
              assert events[k] in slice;
            }
          }
          return false;
        }
        assert migrationEvents[..to] == migrationEvents[..i] + slice;
        i := i + CHUNK_SIZE;
      }
      ok := true;
    }
  }

  /** A fetched transaction; the events it carries are assigned just before it is sent. */
  class PendingTransaction {
    const body: MigrationTransaction
    var events: seq<MigrationEvent>

    constructor (body: MigrationTransaction)
      ensures this.body == body && events == []
    {
      this.body := body;
      this.events := [];
    }
  }

  function MessagesOf(bodies: seq<MigrationTransaction>,
                      migrationEvents: seq<MigrationEvent>): (r: seq<TransactionMessage>)
    ensures |r| == |bodies|
    ensures forall i :: 0 <= i < |bodies| ==>
              r[i] == TransactionMessage(bodies[i], EventsWithHash(migrationEvents, bodies[i].hash))
  {
    seq(|bodies|,
        i requires 0 <= i < |bodies| => TransactionMessage(bodies[i], EventsWithHash(migrationEvents, bodies[i].hash)))
  }

  function BodiesOf(transactions: seq<PendingTransaction>): (r: seq<MigrationTransaction>)
    ensures |r| == |transactions|
    ensures forall i :: 0 <= i < |transactions| ==> r[i] == transactions[i].body
  {
    seq(|transactions|, i requires 0 <= i < |transactions| => transactions[i].body)
  }

  /** Sends every transaction with exactly the events that carry its hash. */
  method SendTransactionSlice(broker: Broker, transactions: seq<PendingTransaction>, from: nat, to: nat,
                              migrationEvents: seq<MigrationEvent>, sending: nat -> Sending)
    returns (ok: bool)
    requires from <= to <= |transactions|
    modifies broker`transactions, broker`emits, transactions
    ensures ok ==>
              broker.transactions
              == old(broker.transactions) + MessagesOf(BodiesOf(transactions), migrationEvents)[from..to]
    ensures NothingFails(sending) ==> ok
    ensures forall t :: t in transactions[from..to] ==> t.events == EventsWithHash(migrationEvents, t.body.hash)
    ensures forall t :: t in transactions && t !in transactions[from..to] ==> t.events == old(t.events)
  {
    ok := true;
    ghost var messages := MessagesOf(BodiesOf(transactions), migrationEvents);
    for k := from to to
      invariant ok ==> broker.transactions == old(broker.transactions) + messages[from..k]
      invariant NothingFails(sending) ==> ok
      invariant forall j :: from <= j < k ==>
                  transactions[j].events == EventsWithHash(migrationEvents, transactions[j].body.hash)
      invariant forall t :: t in transactions && t !in transactions[from..to] ==> t.events == old(t.events)
    {
      var transaction := transactions[k];
      assert transactions[from..to][k - from] == transaction;
      transaction.events := EventsWithHash(migrationEvents, transaction.body.hash);
      var sent := broker.PublishTransaction(TransactionMessage(transaction.body, transaction.events), sending);
      ok := ok && sent;
      MessagesStep(messages, from, k);
    }
  }

  lemma MessagesStep(messages: seq<TransactionMessage>, from: nat, k: nat)
    requires from <= k < |messages|
    ensures messages[from..k + 1] == messages[from..k] + [messages[k]]
  {
  }

  method SendTransactionEventsToQueue(broker: Broker, transactions: seq<PendingTransaction>,
                                      migrationEvents: seq<MigrationEvent>, sending: nat -> Sending)
    returns (ok: bool)
    modifies broker`transactions, broker`emits, transactions
    ensures ok ==> broker.transactions == old(broker.transactions) + MessagesOf(BodiesOf(transactions), migrationEvents)
    ensures NothingFails(sending) ==> ok
    ensures ok ==> forall t :: t in transactions ==> t.events == EventsWithHash(migrationEvents, t.body.hash)
  {
    ghost var messages := MessagesOf(BodiesOf(transactions), migrationEvents);
    var i := 0;
    while i < |transactions|
      invariant 0 <= i
      invariant broker.transactions
                == old(broker.transactions) + messages[..if i < |transactions| then i else |transactions|]
      invariant forall j :: 0 <= j < i && j < |transactions| ==>
                  transactions[j].events == EventsWithHash(migrationEvents, transactions[j].body.hash)
    {
      var to := ToField(i, |transactions|, CHUNK_SIZE);
      var sent := SendTransactionSlice(broker, transactions, i, to, migrationEvents, sending);
      if !sent {
        return false;
      }
      forall j | 0 <= j < to
        ensures transactions[j].events == EventsWithHash(migrationEvents, transactions[j].body.hash)
      {
        if transactions[j] !in transactions[i..to] {
          assert transactions[j] in transactions && j < i;
        }
      }
      assert messages[..to] == messages[..i] + messages[i..to];
      i := i + CHUNK_SIZE;
    }
    ok := true;
  }

  /** What the node answers during one run; `None` is a request that throws. A block the
      node does not know comes back as null and fails the run when it is read. */
  datatype Node = Node(head: Option<int>, logs: Window -> Option<seq<Log>>, block: int -> Option<Block>)

  datatype Settings = Settings(network: Network, step: nat, chainId: int, trackedEvents: Option<seq<string>>)

  function LogsOver(node: Node, windows: seq<Window>): Option<seq<Log>> {
    if windows == [] then Some([])
    else
      match (LogsOver(node, windows[..|windows| - 1]), node.logs(windows[|windows| - 1]))
      case (Some(before), Some(logs)) => Some(before + logs)
      case _ => None
  }

  function BlocksOver(node: Node, numbers: seq<int>): Option<seq<Block>> {
    if numbers == [] then Some([])
    else
      match (BlocksOver(node, numbers[..|numbers| - 1]), node.block(numbers[|numbers| - 1]))
      case (Some(before), Some(block)) => Some(before + [block])
      case _ => None
  }

  /** The log windows of one run: one block each, since the migration step is 1. */
  function WindowsOf(w: Window): seq<Window> {
    if w.first <= w.last then SingleBlocks(w.first, w.last)
    else if w.last + 1 == w.first then [w]
    else []
  }

  function SingleBlocks(first: int, last: int): (r: seq<Window>)
    requires first <= last
    ensures |r| == last - first + 1
    ensures forall i :: 0 <= i < |r| ==> r[i] == Window(first + i, first + i)
  {
    seq(last - first + 1, i => Window(first + i, first + i))
  }

  lemma {:induction false} StepOneTiles(windows: seq<Window>, from: int, to: int)
    requires from <= to && Tiles(windows, from, to, 1)
    ensures windows == SingleBlocks(from, to)
  {
    SingleAt(windows, from, to, |windows| - 1);
    forall i | 0 <= i < |windows|
      ensures windows[i] == Window(from + i, from + i)
    {
      SingleAt(windows, from, to, i);
    }
  }

  lemma {:induction false} SingleAt(windows: seq<Window>, from: int, to: int, i: nat)
    requires Tiles(windows, from, to, 1) && i < |windows|
    ensures windows[i] == Window(from + i, from + i)
  {
    if i > 0 {
      SingleAt(windows, from, to, i - 1);
    }
  }

  datatype Fetched = Fetched(window: Window, events: seq<MigrationEvent>, bodies: seq<MigrationTransaction>,
                             blocks: seq<Block>)

  /** What a run that reads `rows` fetches, or `None` when it aborts first. */
  function FetchOf(settings: Settings, node: Node, rows: seq<Window>): Option<Fetched> {
    if node.head.None? then None
    else
      match PickWindow(rows, node.head.value, Depth(settings.network), settings.step)
      case Err(_) => None
      case Ok(w) =>
        match (LogsOver(node, WindowsOf(w)), BlocksOver(node, Range(w.first, w.last)))
        case (Some(logs), Some(blocks)) =>
          if settings.trackedEvents.None? then Some(Fetched(w, [], TransactionsOf(blocks, settings.chainId), blocks))
          else if AllLocated(logs, settings.trackedEvents.value, blocks) then
            Some(Fetched(w, Grouped(logs, settings.trackedEvents.value, blocks, settings.chainId),
                         TransactionsOf(blocks, settings.chainId), blocks))
          else None
        case _ => None
  }

  /** There was something to record, and the window is the one behind the cursor that ends with
      the step or with the last block deep enough below the head. */
  predicate TakenBehind(settings: Settings, head: int, rows: seq<Window>, w: Window) {
    var confirmed := head - (if settings.network.Bsc? then 10 else 3);
    && !(rows != [] && CursorOf(rows) == confirmed)
    && w.first == CursorOf(rows) + 1
    && w.last == if w.first + settings.step <= confirmed then w.first + settings.step else confirmed
  }

  lemma FetchedIsTakenBehind(settings: Settings, node: Node, rows: seq<Window>)
    requires FetchOf(settings, node, rows).Some?
    ensures node.head.Some? && TakenBehind(settings, node.head.value, rows, FetchOf(settings, node, rows).value.window)
  {
    PickedFollowsCursor(rows, node.head.value, Depth(settings.network), settings.step);
    hide PickWindow, LogsOver, BlocksOver;
  }

  method FetchLogs(node: Node, w: Window) returns (r: Option<seq<Log>>)
    ensures r == LogsOver(node, WindowsOf(w))
  {
    var windows := EventsPromises(w.first, w.last, MIGRATION_STEP);
    if w.first <= w.last {
      StepOneTiles(windows, w.first, w.last);
    }
    var logs: seq<Log> := [];
    r := Some([]);
    for k := 0 to |windows|
      invariant r == LogsOver(node, windows[..k])
    {
      assert windows[..k + 1][..k] == windows[..k];
      var more := node.logs(windows[k]);
      r := if r.Some? && more.Some? then Some(r.value + more.value) else None;
    }
    assert windows[..|windows|] == windows == WindowsOf(w);
  }

  method FetchBlocks(node: Node, w: Window) returns (r: Option<seq<Block>>)
    ensures r == BlocksOver(node, Range(w.first, w.last))
  {
    var numbers := Range(w.first, w.last);
    r := Some([]);
    for k := 0 to |numbers|
      invariant r == BlocksOver(node, numbers[..k])
    {
      assert numbers[..k + 1][..k] == numbers[..k];
      var more := node.block(numbers[k]);
      r := if r.Some? && more.Some? then Some(r.value + [more.value]) else None;
    }
    assert numbers[..|numbers|] == numbers;
  }

  method Fetch(settings: Settings, node: Node, rows: seq<Window>) returns (r: Option<Fetched>)
    ensures r == FetchOf(settings, node, rows)
  {
    if node.head.None? {
      return None;
    }
    var picked := PickWindow(rows, node.head.value, Depth(settings.network), settings.step);
    if picked.Err? {
      return None;
    }
    var w := picked.value;
    var logs := FetchLogs(node, w);
    var blocks := FetchBlocks(node, w);
    if logs.None? || blocks.None? {
      return None;
    }
    var bodies := GetMigrationTransactions(blocks.value, settings.chainId);
    var events := GetAssetEventsArray(settings.trackedEvents, logs.value, blocks.value, settings.chainId);
    if events.Err? {
      return None;
    }
    r := Some(Fetched(w, events.value, bodies, blocks.value));
  }

  /** The tables a run writes, in one database transaction. */
  class BlockStore {
    var blocksInfo: seq<Window>
    var blocks: map<int, Block>

    method SaveDataToDb(fetched: Fetched, commits: bool) returns (ok: bool)
      modifies this
      ensures ok == commits
      ensures !ok ==> blocksInfo == old(blocksInfo) && blocks == old(blocks)
      ensures ok ==>
                && blocksInfo == old(blocksInfo) + [fetched.window]
                && blocks == SavedBlocks(old(blocks), fetched.blocks)
    {
      if commits {
        blocksInfo := blocksInfo + [fetched.window];
        blocks := SavedBlocks(blocks, fetched.blocks);
      }
      ok := commits;
    }
  }

  /** Insert, on conflict (number) overwrite. */
  function SavedBlocks(table: map<int, Block>, blocks: seq<Block>): map<int, Block>
    decreases |blocks|
  {
    if blocks == [] then table else SavedBlocks(table[blocks[0].number := blocks[0]], blocks[1..])
  }

  /** The last of these blocks with this number. */
  function LastWithNumber(blocks: seq<Block>, number: int): Option<Block> {
    if blocks == [] then None
    else
      match LastWithNumber(blocks[1..], number)
      case Some(block) => Some(block)
      case None => if blocks[0].number == number then Some(blocks[0]) else None
  }

  /** After a save, the table holds for every number the last saved block with it, and for a
      number none of them has, what it held before. */
  lemma {:induction false} SavedBlocksHold(table: map<int, Block>, blocks: seq<Block>, number: int)
    ensures LastWithNumber(blocks, number).Some? ==>
              number in SavedBlocks(table, blocks)
                && SavedBlocks(table, blocks)[number] == LastWithNumber(blocks, number).value
    ensures LastWithNumber(blocks, number).None? ==>
              && (number in SavedBlocks(table, blocks) <==> number in table)
              && (number in table ==> SavedBlocks(table, blocks)[number] == table[number])
    decreases |blocks|
  {
    if blocks != [] {
      SavedBlocksHold(table[blocks[0].number := blocks[0]], blocks[1..], number);
    }
  }

  method Pending(bodies: seq<MigrationTransaction>) returns (r: seq<PendingTransaction>)
    ensures fresh(r) && BodiesOf(r) == bodies
  {
    r := [];
    for k := 0 to |bodies|
      invariant fresh(r) && |r| == k
      invariant forall j :: 0 <= j < k ==> r[j].body == bodies[j]
    {
      var transaction := new PendingTransaction(bodies[k]);
      r := r + [transaction];
    }
  }

  /** One run of the Ethereum or BSC migration, errors caught. `commits` says whether the
      database transaction goes through. The cursor row appears only after every event and
      every transaction of its window was confirmed on its queue; BSC then publishes the
      events once more. */
  method Web3Migration(settings: Settings, node: Node, store: BlockStore, broker: Broker, sending: nat -> Sending,
                       commits: bool)
    returns (fetched: Option<Fetched>)
    modifies store, broker
    ensures fetched == FetchOf(settings, node, old(store.blocksInfo))
    ensures fetched.Some? ==>
              node.head.Some? && TakenBehind(settings, node.head.value, old(store.blocksInfo), fetched.value.window)
    ensures store.blocksInfo == old(store.blocksInfo)
            || (commits && fetched.Some? && store.blocksInfo == old(store.blocksInfo) + [fetched.value.window])
    ensures store.blocksInfo != old(store.blocksInfo) ==>
              && old(broker.events) + fetched.value.events <= broker.events
              && broker.transactions
                == old(broker.transactions) + MessagesOf(fetched.value.bodies, fetched.value.events)
              && store.blocks == SavedBlocks(old(store.blocks), fetched.value.blocks)
    ensures fetched.Some? && commits && NothingFails(sending) ==>
              && store.blocksInfo == old(store.blocksInfo) + [fetched.value.window]
              && (settings.network.Bsc? ==>
                    broker.events == old(broker.events) + fetched.value.events + fetched.value.events)
    ensures store.blocksInfo != old(store.blocksInfo) && settings.network.Eth? ==>
              broker.events == old(broker.events) + fetched.value.events
    ensures fetched.None? ==> broker.events == old(broker.events) && broker.transactions == old(broker.transactions)
    ensures old(broker.events) <= broker.events
    ensures fetched.Some? ==> forall k :: |old(broker.events)| <= k < |broker.events| ==>
              broker.events[k] in fetched.value.events
  {
    fetched := Fetch(settings, node, store.blocksInfo);
    if fetched.None? {
      return;
    }
    FetchedIsTakenBehind(settings, node, store.blocksInfo);
    var events := fetched.value.events;
    var sent := broker.SendAssetEventsToQueue(events, sending);
    if !sent {
      return;
    }
    var transactions := Pending(fetched.value.bodies);
    var sentTransactions := SendTransactionEventsToQueue(broker, transactions, events, sending);
    if !sentTransactions {
      return;
    }
    var saved := store.SaveDataToDb(fetched.value, commits);
    if saved && settings.network.Bsc? {
      label committed:
      var _ := broker.SendAssetEventsToQueue(events, sending);
      forall k | |old(broker.events)| <= k < |broker.events|
        ensures broker.events[k] in events
      {
        if k < |old@committed(broker.events)| {
          assert broker.events[k] == old@committed(broker.events)[k];
        }
      }
    }
  }
}
