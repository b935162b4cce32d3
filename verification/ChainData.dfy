/** What the node returns and what the crawler publishes. */
module ChainData {
  import opened Wrappers

  /** A raw log; `topics[0]`, when present, is the event signature hash. */
  datatype Log = Log(blockNumber: int, transactionHash: string, logIndex: int, address: string,
                     topics: seq<string>, data: string)

  datatype Transaction = Transaction(hash: string, from: string, to: Option<string>, input: string, value: string,
                                     gas: int, gasPrice: string, transactionIndex: int)

  datatype Block = Block(number: int, timestamp: int, hash: string, transactions: seq<Transaction>)

  /** The message put on the asset-event queue. Absent topics are `undefined` in the source. */
  datatype MigrationEvent = MigrationEvent(
    transactionHash: string,
    address: string,
    topic1: string,
    topic2: Option<string>,
    topic3: Option<string>,
    topics: Option<seq<string>>,
    data: string,
    blockNumber: int,
    blockTimestamp: int,
    chainId: int,
    logIndex: int)

  /** The body of the message put on the transaction queue, before events are attached. */
  datatype MigrationTransaction = MigrationTransaction(
    hash: string,
    blockNumber: int,
    from: string,
    to: Option<string>,
    input: string,
    value: string,
    gas: int,
    gasPrice: string,
    index: int,
    timestamp: int,
    chainId: int)
}
