/** What a final log, a message about it and a stored row must have in common, field by field. */
module LogMeaning {
  import opened ChainData
  import opened ChainWorld
  import opened EventConsumer
  import EventExtraction
  import opened EventTables
  import opened LogWindows
  import opened Wrappers

  // ---------------------------------------------------------------------------------------
  // Messages
  // ---------------------------------------------------------------------------------------

  /** The message carries the log's own fields, its topics by position, and the time of the
      log's block. */
  predicate MessageTells(world: World, log: Log, e: MigrationEvent) {
    && e.transactionHash == log.transactionHash && e.logIndex == log.logIndex && e.blockNumber == log.blockNumber
    && e.address == log.address && e.data == log.data && e.chainId == world.chainId
    && e.blockTimestamp == world.blockAt(log.blockNumber).timestamp
    && (log.topics != [] ==> e.topic1 == log.topics[0])
    && (if |log.topics| > 1 then e.topic2 == Some(log.topics[1]) else e.topic2.None?)
    && (if |log.topics| > 2 then e.topic3 == Some(log.topics[2]) else e.topic3.None?)
    && (if |log.topics| > 3 then e.topics == Some(log.topics[3..]) else e.topics.None?)
  }

  lemma EventOfLogTells(world: World, log: Log)
    requires world.WellFormed()
    ensures MessageTells(world, log, world.EventOfLog(log))
  {
  }

  /** The message body carries the transaction's own fields, and its block's number and time. */
  predicate BodyTells(world: World, b: int, tx: Transaction, body: MigrationTransaction) {
    && body.hash == tx.hash && body.from == tx.from && body.to == tx.to && body.input == tx.input
    && body.value == tx.value && body.gas == tx.gas && body.gasPrice == tx.gasPrice
    && body.index == tx.transactionIndex && body.blockNumber == b && body.timestamp == world.blockAt(b).timestamp
    && body.chainId == world.chainId
  }

  lemma TransactionOfTells(world: World, b: int, tx: Transaction)
    requires world.WellFormed()
    ensures BodyTells(world, b, tx, EventExtraction.TransactionOf(tx, world.blockAt(b), world.chainId))
  {
  }

  /** A run's events are messages about the tracked logs of its window: one about each, and
      none about anything else. */
  lemma WindowIsTold(world: World, w: Window)
    requires world.WellFormed()
    ensures forall b, log | world.FinalLog(b, log) && w.first <= b <= w.last ::
              exists e :: e in world.EventsIn(w) && MessageTells(world, log, e)
    ensures forall e | e in world.EventsIn(w) ::
              exists b, log :: world.FinalLog(b, log) && w.first <= b <= w.last && MessageTells(world, log, e)
  {
    hide World.EventsIn, MessageTells;
    forall b, log | world.FinalLog(b, log) && w.first <= b <= w.last
      ensures exists e :: e in world.EventsIn(w) && MessageTells(world, log, e)
    {
      WindowPublishes(world, w, b, log);
      EventOfLogTells(world, log);
    }
    forall e | e in world.EventsIn(w)
      ensures exists b, log :: world.FinalLog(b, log) && w.first <= b <= w.last && MessageTells(world, log, e)
    {
      var k :| 0 <= k < |world.EventsIn(w)| && world.EventsIn(w)[k] == e;
      var log := PublishedIsFinal(world, w, k);
      EventOfLogTells(world, log);
    }
  }

  // ---------------------------------------------------------------------------------------
  // Rows
  // ---------------------------------------------------------------------------------------

  predicate HasTwoAddresses(world: World, log: Log) {
    && |log.topics| >= 3 && log.topics[1] != "" && log.topics[2] != ""
    && world.codec.address(log.topics[1]).Some? && world.codec.address(log.topics[2]).Some?
  }

  /** A Transfer log that can be stored: two addresses and an amount, all decodable. */
  predicate TransferLog(world: World, log: Log) {
    && HasTwoAddresses(world, log) && log.topics[0] == ERC20_TRANSFER_EVENT_HASH
    && log.data != "0x" && world.codec.uint256(log.data).Some?
  }

  predicate ApprovalLog(world: World, log: Log) {
    HasTwoAddresses(world, log) && log.topics[0] == ERC20_APPROVAL_EVENT_HASH && log.data != "0x"
  }

  /** The row is the log's transfer, from the address in the second topic to the one in the
      third, at the time of the log's block. */
  predicate TransferRowTells(world: World, log: Log, row: Transfer)
    requires TransferLog(world, log)
  {
    && Some(row.from) == world.codec.address(log.topics[1])
    && Some(row.to) == world.codec.address(log.topics[2])
    && Some(row.value) == world.codec.uint256(log.data)
    && row.timestamp == world.blockAt(log.blockNumber).timestamp
    && row.txHash == log.transactionHash && row.blockNumber == log.blockNumber && row.logIndex == log.logIndex
  }

  /** The key is the log's: the owner in the second topic, the spender in the third, and the
      token that emitted the log. */
  predicate ApprovalKeyTells(world: World, log: Log, key: ApprovalKey)
    requires ApprovalLog(world, log)
  {
    && Some(key.userAddress) == world.codec.address(log.topics[1])
    && Some(key.contractAddress) == world.codec.address(log.topics[2])
    && key.tokenAddress == world.codec.lower(log.address)
  }

  predicate ApprovalRowTells(world: World, log: Log, row: Approval)
    requires ApprovalLog(world, log)
  {
    && Some(row.userAddress) == world.codec.address(log.topics[1])
    && Some(row.contractAddress) == world.codec.address(log.topics[2])
    && row.tokenAddress == world.codec.lower(log.address)
    && row.amount == log.data && row.hash == log.transactionHash && row.blockNumber == log.blockNumber
    && row.blockTimestamp == world.blockAt(log.blockNumber).timestamp
  }

  /** A message about a log describes what the log does, so a row tells one when it tells the
      other. */
  lemma LogDescribes(world: World, log: Log, e: MigrationEvent)
    requires log.topics != [] && MessageTells(world, log, e)
    ensures TransferLog(world, log) <==> DescribesTransfer(world.codec, e)
    ensures ApprovalLog(world, log) <==> DescribesApproval(world.codec, e)
    ensures forall row :: TransferLog(world, log) ==>
                            (TransferRowTells(world, log, row) <==> TransferTells(world.codec, e, row))
    ensures forall row :: ApprovalLog(world, log) ==>
                            (ApprovalRowTells(world, log, row) <==> ApprovalTells(world.codec, e, row))
    ensures forall key :: ApprovalLog(world, log) ==>
                            (ApprovalKeyTells(world, log, key) <==> KeyTells(world.codec, e, key))
  {
  }

  /** At most one row tells a log, its asset apart. */
  lemma OneRowTells(world: World, log: Log, x: Transfer, y: Transfer)
    requires TransferLog(world, log) && TransferRowTells(world, log, x) && TransferRowTells(world, log, y)
    ensures StripTransfer(x) == StripTransfer(y)
  {
  }
}
