# Verified models of the indexing, pricing and history jobs

The repository's `jobs/` folder keeps a DeFi index up to date: it crawls chains, turns logs into
table rows, prices tokens and crawls price histories. This project models the parts of it whose
correctness is not visible from one function, and proves what they guarantee together.

| module | what it models |
|---|---|
| `Wrappers`, `Chunks`, `Multisets`, `Decimals`, `RealArithmetic` | option and result shapes, slicing loops, permutations, powers of ten, products of reals |
| `LogWindows`, `Cursor` | which blocks a crawler run takes and records |
| `ChainData`, `EventExtraction` | from logs and blocks to the published messages |
| `Crawler` | one run of the crawler: fetch, publish in slices of 100, commit |
| `EventTables`, `EventConsumer` | the tables with `on conflict` rules and the consumer that fills them |
| `ChainWorld`, `Pipeline`, `LogMeaning`, `PipelineSafety`, `PipelineTheorems`, `PipelineApprovals`, `PipelineProgress`, `PipelineLateness`, `PipelineBackfill` | crawlers, broker and consumers as one state machine, what a log means for a message and a row, the machine's invariant, what every schedule guarantees, what always remains possible, what may still arrive late, and what recording without publishing loses |
| `Pricing`, `PricingStages`, `FairPricing` | token prices from pool reserves, in stages |
| `SubTransactions`, `TransactionRows`, `TransactionAccounting`, `TransactionFlows`, `TransactionContents` | a transaction's transfers as incoming and outgoing legs, one row per address, and what those rows say of the message |
| `PriceTable`, `HistoryCrawl`, `Retention` | the destructive rewind, the history windows, one price per day, the retention tiers |
| `Multicall`, `JobsRunner` | deduplicated batches of contract calls; interleaved jobs per chain |
| `Coingecko`, `CoingeckoPrices`, `CoingeckoConservation` | price requests in chunks, the matching of their answers, and which assets the result speaks of |

`dafny verify dfyconfig.toml` checks everything.

## Main results

* **Nothing is lost or invented.** In every schedule of any number of crawlers and consumers, with a
  failure possible at every awaited call, arbitrary redelivery and reordering, messages that arrive
  late, overlapping runs and a node whose head goes backwards, every tracked log and every transaction
  at or below the cursor is still on its queue or has had its effect, and every stored transfer and approval
  is that of one final log, field by field (`PipelineTheorems`). Once drained, two such histories with the same cursor
  hold the same transfers, and the same approvals unless two different approvals of one key tie on its
  newest block timestamp.
* **Nothing gets stuck.** From every reachable state the cursor can still be brought up to the confirmed
  part of the chain and the queue drained, after which the stored transfers are exactly those of the chain
  up to there (`PipelineProgress.CanCatchUp`).
* **Fair markets are priced fairly.** When all pools agree on a price vector with stable coins at 1, the
  staged computation returns exactly that vector for every asset it can reach, in order, and the exact
  condition under which the whole run throws is given (`FairPricing.FairMarketIsPricedFairly`).
* **Transfers balance.** The row of an address carries, token by token and in each direction, exactly what
  the message's events and its ether move there (`TransactionFlows.RowCarriesItsMoves`); over all rows a
  token comes in as much as it goes out whenever what moves it has both ends. Repeated attempts leave
  exactly the rows of the last stored one (`TransactionAccounting.LastAttemptWins`).
* **History crawls.** The rewind terminates and clears exactly the unbroken run of days with several
  rows; fetching every window three times over saves the rows of one fetch; a crawl saves its rows
  exactly when no stored row lies on a quoted day (`PriceTable`, `HistoryCrawl`).
* **Every asset once.** Whatever a price service answers or rejects, every asset of a fulfilled request has
  exactly one price row or exactly one missed entry, never both, if and only if no listed asset is
  registered as sharing the price of a listed asset (`CoingeckoConservation.EachOnceIffNoneShared`).
* **Retention.** The three deletions that nobody awaits commute, and over any schedule of cleanings only
  the last one counts, except on its two boundaries (`Retention`).

## What the code does not do

Each of these is proved, with the exact condition where there is one.

* Approvals are not a function of the set of delivered events: two different approvals of one key in the
  same block tie, and the first to arrive stays (`EventTables.RegisterConvergesIffNoTies`).
* The key of `approvals_new` has no chain, and `asset_id` is not updated on conflict, so a row can carry
  the newer event's data with the first event's asset. Over all orders and repetitions of the same events
  the row has the asset of the event it describes exactly when no event of the key older than the newest
  has another asset than a newest one (`EventTables.AssetIsTheWinnersIff`).
* A first run told a head more than one block too shallow records an interval that starts before block 0
  (`Cursor.ShallowStartBreaksCover`). Of two runs that read the same cursor, the recorded windows stay
  disjoint exactly when one of them is told a head with nothing confirmed beyond the cursor
  (`Cursor.OverlappingRunsDisjointIff`).
* A topic configured twice in `tracked_events` publishes its events twice (`EventExtraction.ExtractionIsFilterIffDistinct`).
* The block-range migrations (`ethWeb3MigrationWithBlocks`, `bscMigrationWithBlocks`, which nothing calls)
  record a window and publish nothing: no transfer is lost, from any reachable state with that cursor and
  on any chain, exactly when the window ends at or before the cursor (`PipelineBackfill.BackfillIsSafeIff`).
* One stable coin with a deep pair against an unpriced white-listed coin makes the whole pricing run throw
  (`FairPricing.FairMarketIsPricedFairly`).
* A history crawl inserts its rows in one statement under the key (asset, currency, timestamp) declared in
  `apps/account/src/database/migrations/1638795497689-initialMigration.ts:24`, and swallows its failure:
  when one quoted day is taken, none of the crawled days is saved, although the coin's history timestamp
  has moved on (`HistoryCrawl.HistoryIsSavedIff`).
* An earlier cleaning can take a price that the later one, finding it exactly a week or a month old, would
  have left (`Retention.BoundaryPriceIsLost`).
* An asset registered in `jobs/lambda_external_prices/src/utils/duplicate.assets.prices.map.ts` as sharing
  the price of a requested asset gets a row for it besides its own entry: it can have two price rows, or a
  price row and a missed entry (`CoingeckoConservation.EachOnceIffNoneShared`). The file lists such assets
  on the chains 2 and 10.
* In a request by coingecko ids, assets that share an id with a later asset of the chunk end up neither
  priced nor missed (`CoingeckoConservation.LaterSharedIdWins`).
* A transaction message is acknowledged without a row when the node reports no gas for it; any other
  acknowledged message that touches an address has stored all its rows (`TransactionContents.AcknowledgedIsStoredIff`).
* In a batch of contract calls, a key whose call is repeated gets the object of the last such entry
  (`Multicall.HandleInBatches`).

## Assumptions

* Pipeline: one chain per pipeline; `tracked_events` is present and constant; a block's contents never
  change (`World`); (transaction hash, log index) identifies a log; asset rows are unique per
  (address, chain); a queued message stays until it is acknowledged; a commit is atomic.
* Prices and amounts are exact reals; reserves are positive, so the `|| 1` of the stable price never
  applies (the branch is in the model, and proved dead).
* Of two different contract addresses in one batch, none is the other followed by an underscore and more;
  addresses of a chain never are, and it is exactly then that calls at both can share an id
  (`Multicall.CallsCollideIff`).
* What a node, a price service or a database answers during a call is a parameter, and failing is one of
  the answers. Clocks are parameters.

## Model

| member | source | states |
|---|---|---|
| LogWindows.EventsPromises | jobs/migration_chain_crawler/src/migrations/migration.event.service.ts:73-95 | for from <= to the mutable-cursor loop issues consecutive, non-empty windows of the step's width (the last may be shorter) from `from` to `to`; for an empty range it issues one inverted window or none |
| LogWindows.TilesCoverOnce | jobs/migration_chain_crawler/src/migrations/migration.event.service.ts:78-94 | such windows cover a block exactly when it lies in the range, and never twice |
| LogWindows.RangeHolds | jobs/migration_chain_crawler/src/migrations/migration.utils.ts:9-10 | for any positive step the range holds exactly the numbers of the progression from start that do not pass stop, and none when stop lies before it |
| Chunks.ToField | jobs/migration_chain_crawler/src/utils/utils.ts:48-50 | the end of a slice is its start plus the chunk size when that fits and the length otherwise, and moves past the start |
| Chunks.ChunksConcatenateBack | jobs/migration_chain_crawler/src/migrations/migration.service.ts:33-41 | the slices are non-empty, `size` long but for a shorter last one, and concatenate back to the list |
| Chunks.ToChunkedArray | libs/common/src/utils/transform.ts:7-13 | the index-stepped loop produces exactly those slices |
| Cursor.CursorSafety | jobs/migration_chain_crawler/src/migrations/migration.event.service.ts:110-144 | over all runs, with any heads and failures, the non-empty recorded intervals are pairwise disjoint with union exactly [0, cursor], and the cursor never decreases |
| Cursor.RunsFollowCursor | jobs/migration_chain_crawler/src/migrations/migration.event.service.ts:124-143 | over all runs, each one that commits and is not up to date records exactly one window, from the block after the cursor to the step's end or to the last confirmed block, whichever comes first; any other run records nothing |
| Cursor.RecordsAreConfirmed | jobs/migration_chain_crawler/src/migrations/migration.event.service.ts:119-143 | every recorded interval ends at or below the head its run saw minus the confirmation depth |
| Cursor.ShallowStartBreaksCover | jobs/migration_chain_crawler/src/migrations/migration.event.service.ts:131-140 | the intervals stay exact under every continuation if and only if the first head is at least the depth minus one |
| Cursor.OverlappingRunsDisjointIff | jobs/migration_chain_crawler/src/migrations/migration.event.service.ts:114-144 | of two runs that read the same cursor and any two heads, the recorded windows stay disjoint if and only if one of the heads has nothing confirmed beyond the cursor; either way no gap opens |
| Cursor.LastBlockIsGreatest | jobs/migration_chain_crawler/src/migrations/sql.service.ts:76-78 | the cursor read is the `to_block` of some row and no row has a greater one, whatever order rows were added in |
| EventExtraction.GetAssetEventsArray | jobs/migration_chain_crawler/src/migrations/assets.service.ts:27-75 | the nested loops return one group of events per tracked hash, fail exactly when a tracked log's block was not fetched, and return nothing when the setting is missing |
| EventExtraction.ExtractionIsFilterIffDistinct | jobs/migration_chain_crawler/src/migrations/assets.service.ts:42-74 | for all logs the grouped output is, as a multiset, the filter by tracked topic with each log's own block time, if and only if no hash is configured twice |
| EventExtraction.GroupedIsWeighted | jobs/migration_chain_crawler/src/migrations/assets.service.ts:43-50 | in general each tracked log's event comes out as often as its topic is configured |
| EventExtraction.GetMigrationTransactions | jobs/migration_chain_crawler/src/migrations/migration.event.service.ts:202-225 | the pushed list holds every transaction of every block, in order, with its block's time |
| EventExtraction.AttachmentPartitions | jobs/migration_chain_crawler/src/migrations/migration.service.ts:56-63 | with unique transaction hashes that include every event's, the events attached to the transactions are exactly the events, each once |
| Crawler.Broker.SendAssetEventsToQueue | jobs/migration_chain_crawler/src/migrations/migration.service.ts:30-43 | success means every event was put on the queue once and in order; failure never puts anything else there |
| Crawler.SendTransactionEventsToQueue | jobs/migration_chain_crawler/src/migrations/migration.service.ts:45-69 | success means every transaction was sent once, in order, with exactly the events that carry its hash assigned to it |
| Crawler.SavedBlocksHold | jobs/migration_chain_crawler/src/migrations/sql.service.ts:17-67 | after a save a number's row is the last saved block with that number, and a number that was not saved keeps what it had |
| Crawler.Web3Migration | jobs/migration_chain_crawler/src/migrations/migration.event.service.ts:110-144 | an aborted fetch changes nothing; a fetched window starts after the cursor and ends with the step or with the last block ten (BSC) or three (Ethereum) behind the head; the cursor row appears only after every event and transaction of the window was confirmed on its queue; BSC then publishes its events once more |
| ChainWorld.FetchIsWorld | jobs/migration_chain_crawler/src/migrations/migration.event.service.ts:146-200 | on a final chain a run aborts exactly when it is up to date, and otherwise fetches exactly the events, transactions and blocks of the window that follows the cursor |
| ChainWorld.WindowPublishes | jobs/migration_chain_crawler/src/migrations/assets.service.ts:43-72 | a run over a window publishes the one event of every tracked log in it |
| LogMeaning.WindowIsTold | jobs/migration_chain_crawler/src/migrations/assets.service.ts:52-70 | a run publishes one message about every tracked log of its window, with the log's own topics, data and numbers and its block's time, and no other message |
| EventTables.RegisterHoldsWinner | jobs/migration_events_consumer/src/store/approvals.store.ts:59-80 | after any upserts a key's block number, timestamp, hash and amount all come from one event, the first to arrive among those with the maximal timestamp; its asset id is that of the first event of all |
| EventTables.RegisterConvergesIffNoTies | jobs/migration_events_consumer/src/store/approvals.store.ts:59-80 | the table depends only on the set of events, in every order and repetition, if and only if no key's newest timestamp is shared by different events |
| EventTables.AssetIsTheWinnersIff | jobs/migration_events_consumer/src/store/approvals.store.ts:59-80 | over every order and repetition of a history, a key's row is its winning event, asset id included, if and only if no event of the key older than its newest has another asset than a newest one |
| EventTables.FirstTransferStays | jobs/migration_events_consumer/src/store/assettransfers.store.ts:13-35 | a key's row is the first transfer inserted for it |
| EventTables.TransfersConverge | jobs/migration_events_consumer/src/store/assettransfers.store.ts:13-35 | any two histories of the same transfers leave the same table, up to asset ids |
| EventConsumer.Database.FindOrCreateAsset | jobs/migration_events_consumer/src/migration/migration.service.ts:35-77 | returns the asset row of the event's address and chain, created if missing, whichever awaited call fails |
| EventConsumer.Database.AnnounceAsset | jobs/migration_events_consumer/src/migration/migration.service.ts:83-110 | announces an asset once per cache entry; the entry is set before the announcement |
| EventConsumer.Database.SaveApproval | jobs/migration_events_consumer/src/store/approvals.store.ts:13-83 | appends, then upserts; a failure in between leaves the append alone |
| EventConsumer.EntityMeans | jobs/migration_events_consumer/src/templates/events.template.ts:23-83 | an event is parsed exactly when it belongs to one of the two templates and is incomplete or decodable; sender and owner come from the second topic, receiver and spender from the third, the amount from the data, the token from the lower-cased address |
| EventConsumer.Database.MigrateEvent | jobs/migration_events_consumer/src/migration/migration.service.ts:35-77 | a successful attempt inserts the event's transfer or saves its approval under the asset of its address and chain, read field by field off the event, and changes no other row; a failed one changes neither of the two converging tables |
| EventConsumer.Database.HandleEvent | jobs/migration_events_consumer/src/migration/migration.controller.ts:18-34 | acknowledged exactly such attempts: a transfer's row goes from the second topic's address to the third's with the decoded data, unless its log was stored before; an approval's row takes the event's data when that is newer; anything else is handed back with both tables unchanged |
| PipelineSafety.StepKeeps | jobs/migration_chain_crawler/src/migrations/migration.service.ts:91-107 | every step of every component keeps the invariant: whatever a crawler has passed is handled, whatever a consumer has acknowledged is stored, nothing up to the cursor is lost |
| PipelineSafety.InvHolds | jobs/migration_events_consumer/src/migration/migration.controller.ts:18-34 | the invariant holds after every schedule |
| PipelineSafety.CommitLosesNothing | jobs/migration_chain_crawler/src/migrations/migration.service.ts:99-102 | committing a window whose messages were all handled keeps everything up to the new cursor handled |
| PipelineTheorems.NoTransferLost | jobs/migration_chain_crawler/src/migrations/migration.service.ts:91-107 | in every reachable state a Transfer log at or below the cursor with two decodable addresses and an amount is told by a queued message or has its row: sender from its second topic, receiver from its third, value from its data, its block's time, under the asset of its address |
| PipelineTheorems.NoApprovalLost | jobs/migration_events_consumer/src/migration/migration.service.ts:35-77 | in every reachable state an approval log at or below the cursor is told by a queued message, or its key's row is that of a final approval of the key at least as new |
| PipelineTheorems.NoTransactionLost | jobs/migration_chain_crawler/src/migrations/migration.service.ts:45-69 | every transaction at or below the cursor is in a message, queued or acknowledged, with its own fields and its block's time, that carries exactly the events of its hash of one window holding its block |
| PipelineTheorems.EveryTransferIsFinal | jobs/migration_events_consumer/src/store/assettransfers.store.ts:13-35 | every stored transfer is that of one final tracked log, field by field, under the asset of the log's address |
| PipelineTheorems.EveryApprovalIsFinal | jobs/migration_events_consumer/src/store/approvals.store.ts:59-80 | every approval row is that of one final log, field by field, as new as any delivered for its key, under the asset of the token on this chain |
| PipelineApprovals.EveryApprovalIsAppended | jobs/migration_events_consumer/src/store/approvals.store.ts:13-83 | whatever fails, the append-only table holds a line of that same log |
| PipelineTheorems.DrainedIsExact | jobs/migration_chain_crawler/src/migrations/migration.service.ts:71-107 | once drained, the rows of blocks up to the cursor are exactly the convertible Transfer logs of those blocks |
| PipelineTheorems.SettledTransfersAgree | jobs/migration_events_consumer/src/store/assettransfers.store.ts:17-32 | two settled states with the same cursor hold the same transfers, up to asset ids |
| PipelineTheorems.SettledApprovalsAgree | jobs/migration_events_consumer/src/store/approvals.store.ts:59-80 | and the same approvals, unless different approvals of a key tie on its newest timestamp |
| PipelineBackfill.BackfillIsSafeIff | jobs/migration_chain_crawler/src/migrations/migration.service.ts:109-141 | recording a window without publishing loses no transfer, on any chain and from any reachable state with the given cursor, if and only if the window ends at or before the cursor |
| PipelineProgress.RunCanCommit | jobs/migration_chain_crawler/src/migrations/migration.service.ts:71-107 | from every state, whatever the components are doing, a crawler told a head past the cursor can still record exactly the window picked for it, leaving each of its events and transactions on the queues once |
| PipelineProgress.RunCanFinish | jobs/migration_chain_crawler/src/migrations/migration.service.ts:71-107 | and go on to its end, with its events on the queue once on Ethereum and twice on BSC |
| PipelineProgress.EventCanBeProcessed | jobs/migration_events_consumer/src/migration/migration.controller.ts:18-34 | from every state any worker can take any queued event it can parse through to its acknowledgement, and the tables then change exactly as the consumer's handler promises |
| PipelineProgress.QueueCanDrain | jobs/migration_events_consumer/src/migration/migration.controller.ts:18-34 | from every state with a consumer the queue can be drained of everything that can be parsed |
| PipelineProgress.CanCatchUp | jobs/migration_chain_crawler/src/migrations/migration.service.ts:71-107 | from every reachable state the cursor can be brought up to the head minus the confirmation depth and the queue drained, and the transfers up to there are then exactly those of the chain |
| PipelineLateness.EventCanLandLate | jobs/migration_chain_crawler/src/migrations/migration.service.ts:30-43 | in every reachable state each event of the slice of a hundred a run is publishing can land on the queue once more, confirmed or not, although the run then fails and records nothing |
| PipelineLateness.TransactionCanLandLate | jobs/migration_chain_crawler/src/migrations/migration.service.ts:45-69 | and so can each transaction |
| Pricing.GetTokenPrice | jobs/lambda_prices/src/processor.ts:372-421 | the two accumulating loops return the total value of the retained base reserves over the total retained liquidity, nothing when no pair is retained, and fail exactly when a retained base has no price; prices are positive; what is retained and at what price is stated on raw reserves below |
| Pricing.KeepsByHoldings | jobs/lambda_prices/src/processor.ts:307-370 | a pair is retained by its raw reserve at the token's position, its decimals (18 when absent) and the limit: the base's at its price, at 1 at the base stage when it has none, or the asset's own at the stable stage |
| Pricing.UnitsAreIrrelevant | jobs/lambda_prices/src/utils/index.ts:5-12 | declaring a token with other decimals and rescaling its raw reserves to match leaves the price unchanged |
| Pricing.PriceOf | jobs/lambda_prices/src/processor.ts:423-483 | what one pair adds, times the total liquidity, is its base reserve at the base's price under the stage's rule; the replacement of 0 by 1 never happens |
| Pricing.PriceIsMean | jobs/lambda_prices/src/processor.ts:444-461 | price times retained liquidity equals the retained base value, and the price lies between any bounds on the prices the retained pairs' raw reserves give |
| Pricing.SimplePriceIsDeep | jobs/lambda_prices/src/processor.ts:342-365 | at the simple stage pricing never throws and the price is at least n times the limit over the retained liquidity |
| Pricing.PairOrderIsIrrelevant | jobs/lambda_prices/src/processor.ts:391-418 | permuting an asset's pairs does not change its price |
| Pricing.TokenOrderIsIrrelevant | jobs/lambda_prices/src/processor.ts:288-305 | nor does swapping the tokens inside pairs that hold the asset exactly once |
| PricingStages.BuildPossibleAssetPairs | jobs/lambda_prices/src/processor.ts:127-173 | every protocol is asked for the pair with every base of the asset's kind and for no other |
| PricingStages.PriceBaseCoins | jobs/lambda_prices/src/processor.ts:251-265 | a stage prices its coins one after the other, each seeing the earlier prices, and keeps prices positive |
| PricingStages.GetTokensPricesFromReserves | jobs/lambda_prices/src/processor.ts:238-286 | the staged run returns the list of the specification function, whose fair-market value is given below |
| FairPricing.FairMarketIsPricedFairly | jobs/lambda_prices/src/processor.ts:238-286 | on a market whose raw reserves allow no arbitrage at the tokens' decimals the result is exactly the fair price of every reachable asset, in order, then the wrapped coin's for the zero address; it fails exactly when the wrapped coin has no deep pair, or a deep pair of a stable coin has an unpriced base |
| FairPricing.FairAsset | jobs/lambda_prices/src/processor.ts:372-421 | one asset whose retained bases are fairly priced gets its fair price or none |
| FairPricing.StableCoinIsFair | jobs/lambda_prices/src/processor.ts:330-340 | a stable coin's stage yields its fair price, no price, or a failure, by its deep pairs and their bases |
| SubTransactions.GetModifiedTransactionTransfers | jobs/migration_transactions_consumer/src/parsing_transactions/transactions.parsing.service.ts:266-283 | the loop collects the decoded Transfer events and their addresses; a malformed topic fails it |
| SubTransactions.CollectIsComplete | jobs/migration_transactions_consumer/src/parsing_transactions/transactions.parsing.service.ts:59-69 | the addresses are distinct and hold both ends of every transfer, the ether transfer's included |
| SubTransactions.GetArrayOfSubTransactions | jobs/migration_transactions_consumer/src/parsing_transactions/transactions.parsing.service.ts:177-228 | the legs of every kept transfer, incoming first, in order; the first asset without data or price fails it |
| SubTransactions.GetSubTransactions | jobs/migration_transactions_consumer/src/parsing_transactions/transactions.parsing.service.ts:230-264 | adds one leg when its end is known; an asset without data is reported and fails |
| TransactionRows.Transaction.ModifyTransaction | jobs/migration_transactions_consumer/src/parsing_transactions/transactions.parsing.service.ts:285-302 | lower-cases both ends and sets gas and fee, or leaves everything when the ether price is unusable |
| TransactionRows.Transaction.GetInsertRows | jobs/migration_transactions_consumer/src/parsing_transactions/transactions.parsing.service.ts:84-114 | one row per address with that address's legs, kind and visibility |
| TransactionRows.TransactionTable.Insert | jobs/migration_transactions_consumer/src/parsing_transactions/transactions.parsing.service.ts:116-136 | each row replaces the one with its (hash, address) |
| TransactionRows.ParseTransactions | jobs/migration_transactions_consumer/src/parsing_transactions/transactions.parsing.service.ts:51-82 | the table changes by exactly the message's rows when every step succeeds, and not at all otherwise |
| TransactionAccounting.EverySubInOneRow | jobs/migration_transactions_consumer/src/parsing_transactions/transactions.parsing.service.ts:84-114 | every leg is in exactly one row, its own address's; no two rows share a key |
| TransactionFlows.RowCarriesItsMoves | jobs/migration_transactions_consumer/src/parsing_transactions/transactions.parsing.service.ts:177-283 | the incoming (outgoing) amount of a token in an address's row is the sum over the message's kept Transfer events whose third (second) topic is the address, plus its ether when its lower-cased receiver (sender) is |
| TransactionFlows.RowsCarryTheMessage | jobs/migration_transactions_consumer/src/parsing_transactions/transactions.parsing.service.ts:177-264 | over all rows a token's incoming (outgoing) amounts sum to what the message moves to (from) any address |
| TransactionFlows.TransfersBalance | jobs/migration_transactions_consumer/src/parsing_transactions/transactions.parsing.service.ts:177-283 | per token, incoming equals outgoing over all rows whenever each event that moves it, and the ether, has both ends or none |
| TransactionFlows.RowsAreClassified | jobs/migration_transactions_consumer/src/parsing_transactions/transactions.parsing.service.ts:91-111 | a row is an exchange, a send or a receipt by what the message's events and ether move at its address, and visible exactly when one does |
| TransactionAccounting.LastAttemptWins | jobs/migration_transactions_consumer/src/parsing_transactions/transactions.parsing.service.ts:116-136 | after any history of attempts at any messages, a transaction's rows are exactly those of its last stored attempt |
| TransactionContents.AcknowledgedIsStoredIff | jobs/migration_transactions_consumer/src/parsing_transactions/transactions.parsing.service.ts:51-82 | an acknowledged attempt at a message that touches an address has stored a row for each address it touches if and only if its gas was known, and otherwise has stored none |
| TransactionContents.RowsAreOfTouched | jobs/migration_transactions_consumer/src/parsing_transactions/transactions.parsing.service.ts:59-69 | a stored message has a row for an address exactly when the address is an end of a Transfer event or of its ether |
| TransactionContents.RowTellsMessage | jobs/migration_transactions_consumer/src/parsing_transactions/transactions.parsing.service.ts:84-114 | every row has the message's own fields, its ends lower-cased, chain 1 when none is given, and gas times gas price times the ether price over 10^18 as its fee |
| TransactionContents.LegsTellTheMessage | jobs/migration_transactions_consumer/src/parsing_transactions/transactions.parsing.service.ts:230-264 | every leg is that of one event, or of the ether, with its two ends, its amount in the token's decimals, and the token's symbol and price |
| TransactionContents.ParsedIff | jobs/migration_transactions_consumer/src/parsing_transactions/transactions.parsing.service.ts:51-82 | a message is acknowledged exactly when its receipt is there and it has no gas or has the ether price, decodable topics and, for each kept transfer, a price, the token's data and a proper amount |
| PriceTable.RewindClearsCrowdedDays | jobs/price_crawlers/src/utils/crawlCoin.ts:111-125 | the loop clears exactly the asset's own rows of the unbroken run of days with several of them before the end, each day costing at least two, and stops at the end of the first day with one row or the start of the first with none |
| PriceTable.StartIsSafe | jobs/price_crawlers/src/utils/crawlCoin.ts:92-130 | with a history the start is at or before its timestamp and the end, and every visited day ends with at most one row; without one it is the fixed first day of 2013 |
| PriceTable.OnlyThePeriodIsCleared | jobs/price_crawlers/src/utils/crawlCoin.ts:92-130 | every copy of another coin's row stays, and of the coin's own every one outside the start and the end; none is added; without a history all of the coin's since 2013 go |
| PriceTable.OtherCoinsDoNotMatter | jobs/price_crawlers/src/services/database.service.ts:64-92 | two tables with the same rows of the coin give the same start and leave the same rows of the coin |
| HistoryCrawl.PriceStore.GetRequiredHistoryStartDate | jobs/price_crawlers/src/utils/crawlCoin.ts:92-130 | the do-while returns that start and leaves those rows, every other coin's among them; without a history it clears the coin's since 2013 |
| PriceTable.DailyRowsMean | jobs/price_crawlers/src/utils/crawlCoin.ts:53-74 | a day gets a row exactly when it is quoted and not the first day, with the day's first quoted price |
| PriceTable.DayIsMidnight | jobs/price_crawlers/src/utils/crawlCoin.ts:58-60 | a quote's day is the midnight before its time, rounded to the second first, and before 1970 the midnight after it |
| PriceTable.DailyRowsAreDistinct | jobs/price_crawlers/src/utils/crawlCoin.ts:62-71 | at most one row a day |
| HistoryCrawl.PriceStore.CrawlCoinHistory | jobs/price_crawlers/src/utils/crawlCoin.ts:35-90 | the loop saves those rows in one insert and moves the history timestamp whatever becomes of it |
| HistoryCrawl.PriceStore.SaveTokenPrices | jobs/price_crawlers/src/services/database.service.ts:224-250 | all rows or, on a key conflict, none; the coin stops being new either way |
| HistoryCrawl.SavedKeepsKeysUnique | jobs/price_crawlers/src/services/database.service.ts:224-250 | no two stored rows ever share asset, currency and timestamp, and the insert happens, as a whole, exactly when that stays so |
| HistoryCrawl.HistoryIsSavedIff | jobs/price_crawlers/src/services/database.service.ts:224-250 | the crawl saves all its rows if and only if no stored row of the coin lies on a quoted day other than the first, and none otherwise |
| HistoryCrawl.FreshCrawlIsSaved | jobs/price_crawlers/src/utils/crawlCoin.ts:108-129 | when the crawl starts where the rewind stopped and the quotes stay within the period, all rows are saved |
| HistoryCrawl.HistoryWindowsChain | jobs/price_crawlers/src/jobs/coingecko.job.ts:449-454 | the windows run from start to end without a gap, each a hundred days long but for a shorter last one |
| HistoryCrawl.HistoryWindowsCover | jobs/price_crawlers/src/jobs/coingecko.job.ts:449-454 | every moment of the period is in some window |
| HistoryCrawl.FetchHistory | jobs/price_crawlers/src/jobs/coingecko.job.ts:416-459 | the loop gathers two fetches of every window, the second kept twice |
| HistoryCrawl.TripleFetchIsSingle | jobs/price_crawlers/src/jobs/coingecko.job.ts:449-459 | with repeatable answers the saved rows are those of one fetch per window |
| HistoryCrawl.PriceStore.CrawlCoin | jobs/price_crawlers/src/jobs/coingecko.job.ts:396-478 | one coin's whole crawl: rewind, windows, daily rows, timestamp |
| Retention.DeletionHits | jobs/price_crawlers/src/services/database.service.ts:296-313 | a deletion takes every copy of a price off the grid inside its bounds and keeps every copy of any other |
| Retention.PriceHistory.RemoveExtraPrices | jobs/price_crawlers/src/jobs/common.job.ts:27-52 | one cleaning leaves exactly the prices kept by age |
| Retention.AnyOrderCleans | jobs/price_crawlers/src/jobs/common.job.ts:32-46 | the three deletions leave the same prices in every order and with repetitions |
| Retention.MidnightSurvives | jobs/price_crawlers/src/jobs/common.job.ts:32-46 | a price at midnight survives every cleaning at every age |
| Retention.OnlyTheLastCleaningCounts | jobs/price_crawlers/src/jobs/common.job.ts:27-52 | over any schedule the copies of a price that are left depend on the last cleaning alone, unless it lies on that one's week or month boundary |
| Multicall.IndexCalls | jobs/lambda_protocol_prices/src/chain/multicall.service.ts:13-28 | fails exactly when a call cannot be encoded; otherwise lists each distinct call once, standing for the object of its last entry |
| Multicall.DistinctIsDistinct | jobs/lambda_protocol_prices/src/chain/multicall.service.ts:19-37 | the sent calls are pairwise different and are exactly the entries' calls |
| Multicall.IdsAreInjective | jobs/lambda_protocol_prices/src/chain/multicall.service.ts:24-24 | the joined id identifies the call unless one address is the other followed by an underscore and more |
| Multicall.CallsCollideIff | jobs/lambda_protocol_prices/src/chain/multicall.service.ts:24-24 | different calls at two addresses can share an id if and only if one address is the other followed by an underscore and more |
| Multicall.HandleInBatches | jobs/lambda_protocol_prices/src/chain/multicall.service.ts:13-58 | the sent calls are pairwise different and are exactly the entries' own addresses with their own arguments encoded; every key gets the object of the last entry sent alike, holding the result of running its own call; decoded as its own when entries sent alike decode alike |
| Multicall.CallOne | jobs/lambda_protocol_prices/src/chain/multicall.service.ts:60-63 | a single call returns the decoded result of running it, and succeeds exactly when it can be encoded, the aggregate call answers and the result decodes |
| JobsRunner.SortJobs | jobs/lambda_vaults/src/jobs/jobs.runner.ts:85-94 | the loop groups the jobs by chain, chains by first appearance |
| JobsRunner.GroupingKeepsJobs | jobs/lambda_vaults/src/jobs/jobs.runner.ts:85-94 | every job is in one group, its own chain's, and every chain has one group |
| JobsRunner.Runner.Resume | jobs/lambda_vaults/src/jobs/jobs.runner.ts:103-129 | one settled job keeps the shared descriptions and the worker's results in step |
| JobsRunner.Runner.Update | jobs/lambda_vaults/src/jobs/jobs.runner.ts:82-152 | for every interleaving and every subset of failing jobs the notified list is the same, chain after chain, each success with its own items |
| JobsRunner.EverySuccessIsNotifiedOnce | jobs/lambda_vaults/src/jobs/jobs.runner.ts:134-152 | that list holds a notification exactly as often as jobs of that chain, protocol and feature succeed with those items |
| Coingecko.BuildCoingeckoRequestsMap | jobs/lambda_external_prices/src/processor.ts:231-275 | per chain, in chunks of 175, one request for the assets with an id and one for those without |
| Coingecko.EveryAssetIsAskedForOnce | jobs/lambda_external_prices/src/processor.ts:236-272 | every asset of a chain is in exactly one request |
| Coingecko.RequestTells | jobs/lambda_external_prices/src/processor.ts:246-271 | a request asks, in order, for the ids of assets that have one, or at the given platform for the addresses of assets that have none |
| Coingecko.RequestsAreFew | jobs/lambda_external_prices/src/processor.ts:237-246 | no request asks for more than 175 assets, and there are at most two for every 175 |
| Coingecko.SplitJoin | jobs/lambda_external_prices/src/processor.ts:178-178 | splitting the joined addresses gives them back when none holds a comma |
| CoingeckoPrices.PreparePricesCoingeckoId | jobs/lambda_external_prices/src/utils/modifyData.ts:3-16 | the loop moves every requested id's entry to its address and keeps the others |
| CoingeckoConservation.EntriesOfAsset | jobs/lambda_external_prices/src/processor.ts:165-229 | an asset of a fulfilled request is spoken of once on its own account, and once more for each registration of it with a priced asset of any chain |
| CoingeckoPrices.HandleCoingeckoResponse | jobs/lambda_external_prices/src/processor.ts:157-215 | the nested loops return the response specified request by request, each under its own chain, whose rows and missed entries the members below count |
| CoingeckoConservation.FulfilledRequest | jobs/lambda_external_prices/src/processor.ts:177-211 | a fulfilled request gives every asset of it exactly one outcome, in order: its own key's price or a miss |
| CoingeckoConservation.ChainAddresses | jobs/lambda_external_prices/src/processor.ts:157-275 | whatever the answers hold, a chain's outcomes are, in order, for the assets of its fulfilled requests |
| CoingeckoConservation.EachOnceIffNoneShared | jobs/lambda_external_prices/src/processor.ts:157-275 | over all answers and rejections, every asset of a fulfilled request has exactly one price row or exactly one missed entry, never both, if and only if no listed asset is registered as sharing the price of a listed asset |
| CoingeckoConservation.MissedAreUnquoted | jobs/lambda_external_prices/src/processor.ts:178-200 | a chain's missed entries are exactly the assets of its fulfilled requests without a price, in order |
| CoingeckoConservation.QuotedHasOwnRow | jobs/lambda_external_prices/src/processor.ts:183-207 | a quoted asset of a fulfilled request has a row with its own key's price under its own address and chain |
| CoingeckoConservation.SharedIdsLoseAssets | jobs/lambda_external_prices/src/processor.ts:252-260 | a fulfilled request by ids accounts for all its assets if and only if no two share an id |
| CoingeckoConservation.LaterSharedIdWins | jobs/lambda_external_prices/src/processor.ts:257-259 | an asset of a request by ids is accounted for if and only if no later asset of the request shares its id |

## Left out

- PipelineTheorems.NoTransactionLost: says that the message was acknowledged, not which rows are stored, which depends on answers outside the pipeline: `TransactionContents.AcknowledgedIsStoredIff`.
- JobsRunner.Runner.Update: a job that throws a value without a stack, such as `null`, rejects its worker and the whole update; jobs are taken to throw errors.
- Multicall.HandleInBatches: requires that no address of the batch is another followed by an underscore and more, which chain addresses satisfy; `aggregate` is deterministic and answers in order.
- CoingeckoConservation.FulfilledRequest: requires distinct ids and addresses, no comma, and no unrequested answer key equal to an asset's address; integer-like ids, which JavaScript lists first, only change the order of the rows.
- CoingeckoConservation.EachOnceIffNoneShared: requires each address once in a chain's list and distinct ids in a request; what shared ids do is `CoingeckoConservation.SharedIdsLoseAssets`.
- Pricing.GetTokenPrice: requires positive reserves and base prices; the staged run establishes the latter.
- HistoryCrawl.PriceStore.CrawlCoin: a history request that fails never settles its promise, so such a crawl has no outcome to model.
- The order of concurrent publishes inside one slice is fixed in `Crawler`; the state machine lets them land in any order and number.
- The `eth_blocks` and `bsc_blocks` contents beyond overwrite by number, the empty transactions insert and the SQL texts.
- Currency and chain ids that prices merely carry along, and `reserveUsd`, which nothing reads.
- Fetching pair addresses, pair metadata and reserves for pricing, and the random refresh of an asset's pairs.
- The debank, Solana and Cardano prices, the filter on fresh prices and the chunk loop over debank ids.
- SushiSwap and Uniswap history loops, current-price crawling, and the address chunks they use.
- IEEE-754 and BigNumber rounding, NaN and infinities.
- Loading jobs, configuration, gateways, controllers other than the event consumer's, caches' time to live, logging.
