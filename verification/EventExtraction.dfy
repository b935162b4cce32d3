/** From raw logs and blocks to the messages the crawler publishes: the grouped event
    extraction, the transaction list, and the attachment of events to transactions. */
module EventExtraction {
  import opened ChainData
  import opened Multisets
  import opened Wrappers

  predicate HasTopic(log: Log, hash: string) {
    |log.topics| > 0 && log.topics[0] == hash
  }

  predicate Tracked(log: Log, hashes: seq<string>) {
    |log.topics| > 0 && log.topics[0] in hashes
  }

  /** The first block with this number, if any. */
  function FindBlock(blocks: seq<Block>, number: int): Option<Block> {
    if blocks == [] then None
    else if blocks[0].number == number then Some(blocks[0])
    else FindBlock(blocks[1..], number)
  }

  predicate Located(log: Log, blocks: seq<Block>) {
    FindBlock(blocks, log.blockNumber).Some?
  }

  function TopicAt(topics: seq<string>, i: nat): Option<string> {
    if i < |topics| then Some(topics[i]) else None
  }

  /** The time of the first block with this number. The value for an absent block is never
      used: the extraction fails on such a log. */
  function TimestampOf(blocks: seq<Block>, number: int): int {
    match FindBlock(blocks, number)
    case Some(block) => block.timestamp
    case None => 0
  }

  /** The event of a log, stamped with the time of the log's own block. */
  function EventOf(log: Log, blocks: seq<Block>, chainId: int): MigrationEvent {
    MigrationEvent(
      log.transactionHash, log.address,
      if |log.topics| > 0 then log.topics[0] else "",
      TopicAt(log.topics, 1), TopicAt(log.topics, 2),
      if |log.topics| > 3 then Some(log.topics[3..]) else None,
      log.data, log.blockNumber, TimestampOf(blocks, log.blockNumber), chainId, log.logIndex)
  }

  function FilterByTopic(logs: seq<Log>, hash: string): seq<Log> {
    if logs == [] then []
    else (if HasTopic(logs[0], hash) then [logs[0]] else []) + FilterByTopic(logs[1..], hash)
  }

  lemma {:induction false} FilterByTopicKeeps(logs: seq<Log>, hash: string, log: Log)
    ensures log in FilterByTopic(logs, hash) <==> log in logs && HasTopic(log, hash)
  {
    if logs != [] {
      FilterByTopicKeeps(logs[1..], hash, log);
    }
  }

  /** Every one of these logs has its block at hand. */
  predicate GroupLocated(group: seq<Log>, blocks: seq<Block>) {
    group == [] || (Located(group[0], blocks) && GroupLocated(group[1..], blocks))
  }

  /** Every log whose event would be pushed has its block at hand. */
  predicate AllLocated(logs: seq<Log>, hashes: seq<string>, blocks: seq<Block>) {
    hashes == [] || (GroupLocated(FilterByTopic(logs, hashes[0]), blocks) && AllLocated(logs, hashes[1..], blocks))
  }

  lemma {:induction false} GroupLocatedMeans(logs: seq<Log>, hash: string, blocks: seq<Block>)
    ensures GroupLocated(FilterByTopic(logs, hash), blocks)
            <==> forall log | log in logs && HasTopic(log, hash) :: Located(log, blocks)
  {
    if logs != [] {
      GroupLocatedMeans(logs[1..], hash, blocks);
      if HasTopic(logs[0], hash) {
        assert FilterByTopic(logs, hash)[1..] == FilterByTopic(logs[1..], hash);
        assert GroupLocated(FilterByTopic(logs, hash), blocks) <==>
               Located(logs[0], blocks) && GroupLocated(FilterByTopic(logs[1..], hash), blocks);
      } else {
        assert FilterByTopic(logs, hash) == FilterByTopic(logs[1..], hash);
      }
      assert forall log :: log in logs <==> log == logs[0] || log in logs[1..];
    }
  }

  lemma {:induction false} AllLocatedMeans(logs: seq<Log>, hashes: seq<string>, blocks: seq<Block>)
    ensures AllLocated(logs, hashes, blocks)
            <==> forall log | log in logs && Tracked(log, hashes) :: Located(log, blocks)
  {
    if hashes != [] {
      GroupLocatedMeans(logs, hashes[0], blocks);
      AllLocatedMeans(logs, hashes[1..], blocks);
      assert forall log :: Tracked(log, hashes) <==> HasTopic(log, hashes[0]) || Tracked(log, hashes[1..]);
    }
  }

  function EventsOf(logs: seq<Log>, blocks: seq<Block>, chainId: int): (r: seq<MigrationEvent>) {
    if logs == [] then [] else [EventOf(logs[0], blocks, chainId)] + EventsOf(logs[1..], blocks, chainId)
  }

  /** One group of events per tracked hash, groups in the order of the hashes. */
  function Grouped(logs: seq<Log>, hashes: seq<string>, blocks: seq<Block>, chainId: int): seq<MigrationEvent> {
    if hashes == [] then []
    else EventsOf(FilterByTopic(logs, hashes[0]), blocks, chainId) + Grouped(logs, hashes[1..], blocks, chainId)
  }

  datatype ExtractionError = BlockNotFetched(blockNumber: int)

  type Extraction = Result<seq<MigrationEvent>, ExtractionError>

  /** Pushing one group onto `pushed`: the first log without its block ends it. */
  function PushGroup(pushed: seq<MigrationEvent>, group: seq<Log>, blocks: seq<Block>, chainId: int): Extraction
    decreases |group|
  {
    if group == [] then Ok(pushed)
    else if FindBlock(blocks, group[0].blockNumber).None? then Err(BlockNotFetched(group[0].blockNumber))
    else PushGroup(pushed + [EventOf(group[0], blocks, chainId)], group[1..], blocks, chainId)
  }

  function PushGroups(pushed: seq<MigrationEvent>, logs: seq<Log>, hashes: seq<string>, blocks: seq<Block>,
                      chainId: int): Extraction
    decreases |hashes|
  {
    if hashes == [] then Ok(pushed)
    else
      match PushGroup(pushed, FilterByTopic(logs, hashes[0]), blocks, chainId)
      case Err(e) => Err(e)
      case Ok(more) => PushGroups(more, logs, hashes[1..], blocks, chainId)
  }

  lemma {:induction false} PushGroupMeans(pushed: seq<MigrationEvent>, group: seq<Log>, blocks: seq<Block>,
                                          chainId: int)
    ensures PushGroup(pushed, group, blocks, chainId).Ok? <==> GroupLocated(group, blocks)
    ensures GroupLocated(group, blocks) ==>
              PushGroup(pushed, group, blocks, chainId).value == pushed + EventsOf(group, blocks, chainId)
    decreases |group|
  {
    if group != [] && Located(group[0], blocks) {
      PushGroupMeans(pushed + [EventOf(group[0], blocks, chainId)], group[1..], blocks, chainId);
    }
  }

  lemma {:induction false} PushGroupsMeans(pushed: seq<MigrationEvent>, logs: seq<Log>, hashes: seq<string>,
                                           blocks: seq<Block>, chainId: int)
    ensures PushGroups(pushed, logs, hashes, blocks, chainId).Ok? <==> AllLocated(logs, hashes, blocks)
    ensures AllLocated(logs, hashes, blocks) ==>
              PushGroups(pushed, logs, hashes, blocks, chainId).value == pushed + Grouped(logs, hashes, blocks, chainId)
    decreases |hashes|
  {
    if hashes != [] {
      var group := FilterByTopic(logs, hashes[0]);
      PushGroupMeans(pushed, group, blocks, chainId);
      match PushGroup(pushed, group, blocks, chainId)
      case Err(_) =>
      case Ok(more) => PushGroupsMeans(more, logs, hashes[1..], blocks, chainId);
    }
  }

  /** `setting` is the value of the `tracked_events` row, `None` when the row is missing. */
  method GetAssetEventsArray(setting: Option<seq<string>>, logs: seq<Log>, blocks: seq<Block>, chainId: int)
    returns (r: Extraction)
    ensures setting.None? ==> r == Ok([])
    ensures setting.Some? ==> (r.Ok? <==> AllLocated(logs, setting.value, blocks))
    ensures setting.Some? && r.Ok? ==> r.value == Grouped(logs, setting.value, blocks, chainId)
  {
    if setting.None? || |setting.value| == 0 {
      return Ok([]);
    }
    var hashes := setting.value;
    var migrationEvents: seq<MigrationEvent> := [];
    PushGroupsMeans([], logs, hashes, blocks, chainId);
    for h := 0 to |hashes|
      invariant PushGroups(migrationEvents, logs, hashes[h..], blocks, chainId)
                == PushGroups([], logs, hashes, blocks, chainId)
    {
      assert hashes[h..][1..] == hashes[h + 1..];
      var events := FilterByTopic(logs, hashes[h]);
      ghost var before := migrationEvents;
      for k := 0 to |events|
        invariant PushGroup(migrationEvents, events[k..], blocks, chainId) == PushGroup(before, events, blocks, chainId)
      {
        assert events[k..][1..] == events[k + 1..];
        if FindBlock(blocks, events[k].blockNumber).None? {
          return Err(BlockNotFetched(events[k].blockNumber));
        }
        migrationEvents := migrationEvents + [EventOf(events[k], blocks, chainId)];
      }
    }
    return Ok(migrationEvents);
  }

  // ---------------------------------------------------------------------------------------
  // What the grouped output is, as a multiset
  // ---------------------------------------------------------------------------------------

  function Count(hashes: seq<string>, hash: string): nat {
    if hashes == [] then 0 else (if hashes[0] == hash then 1 else 0) + Count(hashes[1..], hash)
  }

  /** Each tracked log's event, as often as its topic occurs among the hashes. */
  ghost function Weighted(logs: seq<Log>, hashes: seq<string>, blocks: seq<Block>,
                          chainId: int): multiset<MigrationEvent> {
    if logs == [] then multiset{}
    else Copies(logs[0], hashes, blocks, chainId) + Weighted(logs[1..], hashes, blocks, chainId)
  }

  lemma {:induction false} CountPositive(hashes: seq<string>, hash: string)
    ensures hash in hashes <==> Count(hashes, hash) > 0
  {
    if hashes != [] {
      CountPositive(hashes[1..], hash);
    }
  }

  lemma {:induction false} OneGroupCons(logs: seq<Log>, hash: string, blocks: seq<Block>, chainId: int)
    requires logs != []
    ensures multiset(EventsOf(FilterByTopic(logs, hash), blocks, chainId)) ==
            multiset(EventsOf(FilterByTopic(logs[1..], hash), blocks, chainId)) +
            (if HasTopic(logs[0], hash) then multiset{EventOf(logs[0], blocks, chainId)} else multiset{})
  {
    var rest := FilterByTopic(logs[1..], hash);
    if HasTopic(logs[0], hash) {
      assert ([logs[0]] + rest)[1..] == rest;
    } else {
      assert [] + rest == rest;
    }
  }

  /** The copies of one log's event over all groups. */
  ghost function Copies(log: Log, hashes: seq<string>, blocks: seq<Block>, chainId: int): multiset<MigrationEvent> {
    if Tracked(log, hashes)
    then multiset{}[EventOf(log, blocks, chainId) := Count(hashes, log.topics[0])]
    else multiset{}
  }

  lemma CopiesCons(log: Log, hashes: seq<string>, blocks: seq<Block>, chainId: int)
    requires hashes != []
    ensures Copies(log, hashes, blocks, chainId) ==
            (if HasTopic(log, hashes[0]) then multiset{EventOf(log, blocks, chainId)} else multiset{})
            + Copies(log, hashes[1..], blocks, chainId)
  {
    if |log.topics| > 0 {
      CountPositive(hashes[1..], log.topics[0]);
      assert log.topics[0] in hashes <==> log.topics[0] == hashes[0] || log.topics[0] in hashes[1..];
    }
  }

  /** Moving one log out of every group. */
  lemma {:induction false} GroupedCons(logs: seq<Log>, hashes: seq<string>, blocks: seq<Block>, chainId: int)
    requires logs != []
    ensures multiset(Grouped(logs, hashes, blocks, chainId)) ==
            multiset(Grouped(logs[1..], hashes, blocks, chainId)) + Copies(logs[0], hashes, blocks, chainId)
  {
    if hashes != [] {
      GroupedCons(logs, hashes[1..], blocks, chainId);
      OneGroupCons(logs, hashes[0], blocks, chainId);
      CopiesCons(logs[0], hashes, blocks, chainId);
    }
  }

  /** The general law: no distinctness assumed. */
  lemma {:induction false} GroupedIsWeighted(logs: seq<Log>, hashes: seq<string>, blocks: seq<Block>, chainId: int)
    ensures multiset(Grouped(logs, hashes, blocks, chainId)) == Weighted(logs, hashes, blocks, chainId)
  {
    if logs == [] {
      NothingToGroup(hashes, blocks, chainId);
    } else {
      GroupedCons(logs, hashes, blocks, chainId);
      GroupedIsWeighted(logs[1..], hashes, blocks, chainId);
    }
  }

  lemma {:induction false} NothingToGroup(hashes: seq<string>, blocks: seq<Block>, chainId: int)
    ensures Grouped([], hashes, blocks, chainId) == []
  {
    if hashes != [] {
      NothingToGroup(hashes[1..], blocks, chainId);
    }
  }

  /** The tracked logs in their original order, each as one event. */
  function TrackedEvents(logs: seq<Log>, hashes: seq<string>, blocks: seq<Block>, chainId: int): seq<MigrationEvent> {
    if logs == [] then []
    else (if Tracked(logs[0], hashes) then [EventOf(logs[0], blocks, chainId)] else [])
         + TrackedEvents(logs[1..], hashes, blocks, chainId)
  }

  lemma {:induction false} DistinctCountsOne(hashes: seq<string>, hash: string)
    requires Distinct(hashes) && hash in hashes
    ensures Count(hashes, hash) == 1
  {
    if hashes[0] == hash {
      assert hash !in hashes[1..];
      CountPositive(hashes[1..], hash);
    } else {
      DistinctCountsOne(hashes[1..], hash);
    }
  }

  lemma {:induction false} RepeatCountsTwo(hashes: seq<string>, i: nat, j: nat)
    requires i < j < |hashes| && hashes[i] == hashes[j]
    ensures Count(hashes, hashes[i]) >= 2
  {
    if i == 0 {
      assert hashes[j] == hashes[1..][j - 1];
      CountPositive(hashes[1..], hashes[j]);
    } else {
      RepeatCountsTwo(hashes[1..], i - 1, j - 1);
    }
  }

  lemma {:induction false} WeightedIsTracked(logs: seq<Log>, hashes: seq<string>, blocks: seq<Block>, chainId: int)
    requires Distinct(hashes)
    ensures Weighted(logs, hashes, blocks, chainId) == multiset(TrackedEvents(logs, hashes, blocks, chainId))
  {
    if logs != [] {
      WeightedIsTracked(logs[1..], hashes, blocks, chainId);
      if Tracked(logs[0], hashes) {
        DistinctCountsOne(hashes, logs[0].topics[0]);
      }
    }
  }

  /** The grouped output is a permutation of the topic filter. */
  ghost predicate ExtractsEachOnce(hashes: seq<string>, logs: seq<Log>, blocks: seq<Block>, chainId: int) {
    multiset(Grouped(logs, hashes, blocks, chainId)) == multiset(TrackedEvents(logs, hashes, blocks, chainId))
  }

  /** Extraction is the filter by tracked topic, in some order and with each event stamped
      by its own block, for all inputs exactly when no hash is configured twice. */
  lemma {:induction false} ExtractionIsFilterIffDistinct(hashes: seq<string>, chainId: int)
    ensures (forall logs, blocks :: ExtractsEachOnce(hashes, logs, blocks, chainId)) <==> Distinct(hashes)
  {
    if Distinct(hashes) {
      forall logs, blocks
        ensures ExtractsEachOnce(hashes, logs, blocks, chainId)
      {
        GroupedIsWeighted(logs, hashes, blocks, chainId);
        WeightedIsTracked(logs, hashes, blocks, chainId);
      }
    } else {
      var i, j :| 0 <= i < j < |hashes| && hashes[i] == hashes[j];
      RepeatIsNotFilter(hashes, i, j, chainId);
    }
  }

  lemma {:induction false} RepeatIsNotFilter(hashes: seq<string>, i: nat, j: nat, chainId: int)
    requires i < j < |hashes| && hashes[i] == hashes[j]
    ensures exists logs, blocks :: !ExtractsEachOnce(hashes, logs, blocks, chainId)
  {
    RepeatCountsTwo(hashes, i, j);
    var log := Log(0, "", 0, "", [hashes[i]], "");
    var logs, blocks := [log], [Block(0, 0, "", [])];
    GroupedIsWeighted(logs, hashes, blocks, chainId);
    assert Weighted(logs[1..], hashes, blocks, chainId) == multiset{};
    assert Weighted(logs, hashes, blocks, chainId)[EventOf(log, blocks, chainId)] >= 2;
    assert TrackedEvents(logs[1..], hashes, blocks, chainId) == [];
    assert TrackedEvents(logs, hashes, blocks, chainId) == [EventOf(log, blocks, chainId)];
    assert !ExtractsEachOnce(hashes, logs, blocks, chainId);
  }

  lemma {:induction false} EventsOfMember(logs: seq<Log>, blocks: seq<Block>, chainId: int, k: nat)
    requires k < |logs|
    ensures |EventsOf(logs, blocks, chainId)| == |logs|
    ensures EventsOf(logs, blocks, chainId)[k] == EventOf(logs[k], blocks, chainId)
  {
    if k > 0 {
      EventsOfMember(logs[1..], blocks, chainId, k - 1);
    } else if |logs| > 1 {
      EventsOfMember(logs[1..], blocks, chainId, 0);
    }
  }

  /** Every tracked log is extracted. */
  lemma {:induction false} TrackedIsExtracted(logs: seq<Log>, hashes: seq<string>, blocks: seq<Block>, chainId: int,
                                              log: Log)
    requires log in logs && Tracked(log, hashes)
    ensures EventOf(log, blocks, chainId) in Grouped(logs, hashes, blocks, chainId)
  {
    if log.topics[0] == hashes[0] {
      var group := FilterByTopic(logs, hashes[0]);
      FilterByTopicKeeps(logs, hashes[0], log);
      var k :| 0 <= k < |group| && group[k] == log;
      EventsOfMember(group, blocks, chainId, k);
    } else {
      TrackedIsExtracted(logs, hashes[1..], blocks, chainId, log);
    }
  }

  /** Nothing else is. */
  lemma {:induction false} ExtractedIsTracked(logs: seq<Log>, hashes: seq<string>, blocks: seq<Block>, chainId: int,
                                              k: nat)
    returns (log: Log)
    requires k < |Grouped(logs, hashes, blocks, chainId)|
    ensures log in logs && Tracked(log, hashes)
    ensures Grouped(logs, hashes, blocks, chainId)[k] == EventOf(log, blocks, chainId)
  {
    var group := FilterByTopic(logs, hashes[0]);
    var here := EventsOf(group, blocks, chainId);
    if k < |here| {
      if |group| > 0 {
        EventsOfMember(group, blocks, chainId, 0);
      }
      EventsOfMember(group, blocks, chainId, k);
      log := group[k];
      FilterByTopicKeeps(logs, hashes[0], log);
    } else {
      log := ExtractedIsTracked(logs, hashes[1..], blocks, chainId, k - |here|);
    }
  }

  // ---------------------------------------------------------------------------------------
  // Transactions and the events attached to them
  // ---------------------------------------------------------------------------------------

  function TransactionOf(tx: Transaction, block: Block, chainId: int): MigrationTransaction {
    MigrationTransaction(tx.hash, block.number, tx.from, tx.to, tx.input, tx.value, tx.gas, tx.gasPrice,
                         tx.transactionIndex, block.timestamp, chainId)
  }

  function TransactionsOfBlock(txs: seq<Transaction>, block: Block, chainId: int): (r: seq<MigrationTransaction>)
    ensures |r| == |txs|
    ensures forall i :: 0 <= i < |txs| ==> r[i] == TransactionOf(txs[i], block, chainId)
  {
    seq(|txs|, i requires 0 <= i < |txs| => TransactionOf(txs[i], block, chainId))
  }

  function TransactionsOf(blocks: seq<Block>, chainId: int): seq<MigrationTransaction> {
    if blocks == [] then []
    else TransactionsOfBlock(blocks[0].transactions, blocks[0], chainId) + TransactionsOf(blocks[1..], chainId)
  }

  lemma TransactionsStep(blocks: seq<Block>, chainId: int, b: nat)
    requires b < |blocks|
    ensures TransactionsOf(blocks[b..], chainId)
            == TransactionsOfBlock(blocks[b].transactions, blocks[b], chainId) +
              TransactionsOf(blocks[b + 1..], chainId)
  {
    assert blocks[b..][1..] == blocks[b + 1..];
  }

  lemma TransactionsPush(txs: seq<Transaction>, block: Block, chainId: int, t: nat)
    requires t < |txs|
    ensures TransactionsOfBlock(txs[..t + 1], block, chainId)
            == TransactionsOfBlock(txs[..t], block, chainId) + [TransactionOf(txs[t], block, chainId)]
  {
    hide TransactionOf;
  }

  method GetMigrationTransactions(blocks: seq<Block>, chainId: int) returns (result: seq<MigrationTransaction>)
    ensures result == TransactionsOf(blocks, chainId)
  {
    hide TransactionOf, TransactionsOfBlock, TransactionsOf;
    result := [];
    assert [] + TransactionsOf(blocks, chainId) == TransactionsOf(blocks, chainId) && blocks[0..] == blocks;
    for b := 0 to |blocks|
      invariant result + TransactionsOf(blocks[b..], chainId) == TransactionsOf(blocks, chainId)
    {
      var block := blocks[b];
      TransactionsStep(blocks, chainId, b);
      ghost var before := result;
      for t := 0 to |block.transactions|
        invariant result == before + TransactionsOfBlock(block.transactions[..t], block, chainId)
      {
        TransactionsPush(block.transactions, block, chainId, t);
        result := result + [TransactionOf(block.transactions[t], block, chainId)];
      }
      assert block.transactions[..|block.transactions|] == block.transactions;
    }
    NoTransactionsLeft(chainId);
    assert blocks[|blocks|..] == [] && result + [] == result;
  }

  lemma NoTransactionsLeft(chainId: int)
    ensures TransactionsOf([], chainId) == []
  {
  }

  /** The events attached to a transaction: those that carry its hash. */
  function EventsWithHash(events: seq<MigrationEvent>, hash: string): seq<MigrationEvent> {
    if events == [] then []
    else (if events[0].transactionHash == hash then [events[0]] else []) + EventsWithHash(events[1..], hash)
  }

  /** All the events attached to any of these transactions. */
  ghost function Attached(events: seq<MigrationEvent>, hashes: seq<string>): multiset<MigrationEvent> {
    if hashes == [] then multiset{}
    else multiset(EventsWithHash(events, hashes[0])) + Attached(events, hashes[1..])
  }

  lemma {:induction false} AttachedCons(events: seq<MigrationEvent>, hashes: seq<string>)
    requires events != [] && Distinct(hashes)
    ensures Attached(events, hashes) ==
            Attached(events[1..], hashes) +
            (if events[0].transactionHash in hashes then multiset{events[0]} else multiset{})
  {
    if hashes != [] {
      AttachedCons(events, hashes[1..]);
    }
  }

  lemma {:induction false} NothingAttached(hashes: seq<string>)
    ensures Attached([], hashes) == multiset{}
  {
    if hashes != [] {
      NothingAttached(hashes[1..]);
    }
  }

  /** Every event's transaction is among these. */
  ghost predicate Carried(events: seq<MigrationEvent>, hashes: seq<string>) {
    forall e :: e in events ==> e.transactionHash in hashes
  }

  lemma CarriedRest(events: seq<MigrationEvent>, hashes: seq<string>)
    requires events != [] && Carried(events, hashes)
    ensures events[0].transactionHash in hashes && Carried(events[1..], hashes)
  {
    forall e | e in events[1..]
      ensures e.transactionHash in hashes
    {
      assert e in events;
    }
  }

  lemma FirstAndRest(events: seq<MigrationEvent>)
    requires events != []
    ensures multiset(events) == multiset(events[1..]) + multiset{events[0]}
  {
    assert events == [events[0]] + events[1..];
  }

  /** With unique transaction hashes covering the events, the attached lists partition them:
      nothing is dropped and nothing is attached twice. */
  lemma {:induction false} AttachmentPartitions(events: seq<MigrationEvent>, hashes: seq<string>)
    requires Distinct(hashes) && Carried(events, hashes)
    ensures Attached(events, hashes) == multiset(events)
  {
    if events == [] {
      NothingAttached(hashes);
    } else {
      AttachedCons(events, hashes);
      CarriedRest(events, hashes);
      hide Attached, Carried, Distinct;
      AttachmentPartitions(events[1..], hashes);
      FirstAndRest(events);
    }
  }
}
