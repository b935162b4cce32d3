/** A final chain and what any run over it fetches and publishes. */
module ChainWorld {
  import opened ChainData
  import opened Crawler
  import opened Cursor
  import opened EventConsumer
  import opened EventExtraction
  import opened LogWindows
  import opened Wrappers

  /** The final contents of every block, with the crawler's settings and the consumer's codec.
      `hashes` are the tracked topics, present and constant. */
  datatype World = World(network: Network, step: nat, chainId: int, hashes: seq<string>, codec: Codec,
                         logsAt: int -> seq<Log>, blockAt: int -> Block)
  {
    /** Blocks and logs carry their own numbers, and (hash, log index) identifies a log. */
    ghost predicate WellFormed() {
      && (forall b :: blockAt(b).number == b)
      && (forall b, log :: log in logsAt(b) ==> log.blockNumber == b)
      && (forall a, b, x, y | x in logsAt(a) && y in logsAt(b) ::
            x.transactionHash == y.transactionHash && x.logIndex == y.logIndex ==> x == y)
    }

    function LogsIn(first: int, last: int): seq<Log>
      decreases last - first
    {
      if last < first then [] else LogsIn(first, last - 1) + logsAt(last)
    }

    function BlocksIn(first: int, last: int): seq<Block>
      decreases last - first
    {
      if last < first then [] else BlocksIn(first, last - 1) + [blockAt(last)]
    }

    /** The events a run over window `w` publishes, in their publishing order. */
    function EventsIn(w: Window): seq<MigrationEvent> {
      Grouped(LogsIn(w.first, w.last), hashes, BlocksIn(w.first, w.last), chainId)
    }

    /** The transaction messages of the same run. */
    function MessagesIn(w: Window): seq<TransactionMessage> {
      MessagesOf(TransactionsOf(BlocksIn(w.first, w.last), chainId), EventsIn(w))
    }

    /** The one event a final log gives rise to, whichever run fetches it. */
    function EventOfLog(log: Log): MigrationEvent {
      EventOf(log, [blockAt(log.blockNumber)], chainId)
    }

    ghost predicate FinalLog(b: int, log: Log) {
      log in logsAt(b) && Tracked(log, hashes)
    }

    ghost predicate FinalEvent(e: MigrationEvent) {
      exists b, log :: FinalLog(b, log) && e == EventOfLog(log)
    }

    function Settings(): Settings {
      Crawler.Settings(network, step, chainId, Some(hashes))
    }

    /** A node that serves this chain; its head may be reported anyhow. */
    function NodeAt(head: int): Node {
      Node(Some(head), (w: Window) => Some(LogsIn(w.first, w.last)), b => Some(blockAt(b)))
    }
  }

  lemma {:induction false} LogsInHolds(world: World, first: int, last: int, log: Log)
    requires world.WellFormed()
    ensures log in world.LogsIn(first, last)
            <==> first <= log.blockNumber <= last && log in world.logsAt(log.blockNumber)
    decreases last - first
  {
    if first <= last {
      LogsInHolds(world, first, last - 1, log);
    }
  }

  lemma {:induction false} BlocksInFinds(world: World, first: int, last: int, b: int)
    requires world.WellFormed()
    ensures FindBlock(world.BlocksIn(first, last), b) == if first <= b <= last then Some(world.blockAt(b)) else None
    decreases last - first
  {
    if first <= last {
      BlocksInFinds(world, first, last - 1, b);
      FindBlockAppend(world.BlocksIn(first, last - 1), world.blockAt(last), b);
    }
  }

  lemma {:induction false} FindBlockAppend(blocks: seq<Block>, block: Block, number: int)
    ensures FindBlock(blocks + [block], number) ==
            match FindBlock(blocks, number)
            case Some(found) => Some(found)
            case None => if block.number == number then Some(block) else None
  {
    if blocks == [] {
      assert blocks + [block] == [block];
    } else {
      assert (blocks + [block])[1..] == blocks[1..] + [block];
      FindBlockAppend(blocks[1..], block, number);
    }
  }

  lemma SameEventAnywhere(world: World, w: Window, log: Log)
    requires world.WellFormed() && w.first <= log.blockNumber <= w.last
    ensures EventOf(log, world.BlocksIn(w.first, w.last), world.chainId) == world.EventOfLog(log)
  {
    BlocksInFinds(world, w.first, w.last, log.blockNumber);
  }

  /** A run over a window publishes the event of every tracked log in it. */
  lemma WindowPublishes(world: World, w: Window, b: int, log: Log)
    requires world.WellFormed() && world.FinalLog(b, log) && w.first <= b <= w.last
    ensures world.EventOfLog(log) in world.EventsIn(w)
  {
    LogsInHolds(world, w.first, w.last, log);
    SameEventAnywhere(world, w, log);
    TrackedIsExtracted(world.LogsIn(w.first, w.last), world.hashes, world.BlocksIn(w.first, w.last), world.chainId,
                       log);
  }

  /** It publishes nothing but events of final logs. */
  lemma PublishedIsFinal(world: World, w: Window, k: nat) returns (log: Log)
    requires world.WellFormed() && k < |world.EventsIn(w)|
    ensures world.FinalEvent(world.EventsIn(w)[k])
    ensures world.FinalLog(log.blockNumber, log) && w.first <= log.blockNumber <= w.last
    ensures world.EventsIn(w)[k] == world.EventOfLog(log)
  {
    log := ExtractedIsTracked(world.LogsIn(w.first, w.last), world.hashes, world.BlocksIn(w.first, w.last),
                                  world.chainId, k);
    LogsInHolds(world, w.first, w.last, log);
    SameEventAnywhere(world, w, log);
    assert world.FinalLog(log.blockNumber, log);
  }

  lemma FinalEventsAreIdentified(world: World, a: MigrationEvent, b: MigrationEvent)
    requires world.WellFormed() && world.FinalEvent(a) && world.FinalEvent(b)
    requires a.transactionHash == b.transactionHash && a.logIndex == b.logIndex
    ensures a == b
  {
    var i, x :| world.FinalLog(i, x) && a == world.EventOfLog(x);
    var j, y :| world.FinalLog(j, y) && b == world.EventOfLog(y);
    assert x in world.logsAt(i) && y in world.logsAt(j);
  }

  // ---------------------------------------------------------------------------------------
  // The run of the crawler module, told these answers, fetches exactly this
  // ---------------------------------------------------------------------------------------

  lemma {:induction false} LogsOverSingles(world: World, head: int, first: int, last: int)
    requires first <= last
    ensures LogsOver(world.NodeAt(head), SingleBlocks(first, last)) == Some(world.LogsIn(first, last))
    decreases last - first
  {
    var singles := SingleBlocks(first, last);
    assert world.LogsIn(last, last) == world.LogsIn(last, last - 1) + world.logsAt(last) == world.logsAt(last);
    if first < last {
      LogsOverSingles(world, head, first, last - 1);
      assert singles[..|singles| - 1] == SingleBlocks(first, last - 1);
    } else {
      assert singles[..|singles| - 1] == [];
    }
  }

  lemma {:induction false} BlocksOverRange(world: World, head: int, first: int, last: int)
    ensures BlocksOver(world.NodeAt(head), Range(first, last)) == Some(world.BlocksIn(first, last))
    decreases last - first
  {
    var numbers := Range(first, last);
    if first <= last {
      BlocksOverRange(world, head, first, last - 1);
      assert numbers[..|numbers| - 1] == Range(first, last - 1);
    }
  }

  /** Whatever head is reported, a run over this chain aborts only when it is synchronized,
      and otherwise fetches the window's events and transactions. */
  lemma FetchIsWorld(world: World, head: int, rows: seq<Window>)
    requires world.WellFormed()
    ensures var r := FetchOf(world.Settings(), world.NodeAt(head), rows);
            && (r.None? <==> UpToDate(rows, head, Depth(world.network)))
            && (r.Some? ==>
                  var w := r.value.window;
                  FollowsCursor(rows, head, Depth(world.network), world.step, w)
                    && r.value == Fetched(w, world.EventsIn(w),
                                          TransactionsOf(world.BlocksIn(w.first, w.last), world.chainId),
                                          world.BlocksIn(w.first, w.last)))
  {
    PickedFollowsCursor(rows, head, Depth(world.network), world.step);
    var picked := PickWindow(rows, head, Depth(world.network), world.step);
    if picked.Ok? {
      var w := picked.value;
      BlocksOverRange(world, head, w.first, w.last);
      LogsOverWindows(world, head, w);
      var logs, blocks := world.LogsIn(w.first, w.last), world.BlocksIn(w.first, w.last);
      AllLocatedMeans(logs, world.hashes, blocks);
      forall log | log in logs && Tracked(log, world.hashes)
        ensures Located(log, blocks)
      {
        LogsInHolds(world, w.first, w.last, log);
        BlocksInFinds(world, w.first, w.last, log.blockNumber);
      }
    }
  }

  lemma LogsOverWindows(world: World, head: int, w: Window)
    ensures LogsOver(world.NodeAt(head), WindowsOf(w)) == Some(world.LogsIn(w.first, w.last))
  {
    if w.first <= w.last {
      LogsOverSingles(world, head, w.first, w.last);
    } else if w.last + 1 == w.first {
      var node := world.NodeAt(head);
      var none: seq<Log> := [];
      assert world.LogsIn(w.first, w.last) == none && none + none == none;
      assert [w][..|[w]| - 1] == [];
      assert LogsOver(node, [w]) == Some(none + none);
    } else {
      assert WindowsOf(w) == [] && world.LogsIn(w.first, w.last) == [];
    }
  }
}
