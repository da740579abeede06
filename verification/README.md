# Exchangely backend: a verified model

Exchangely collects market prices for currency pairs, keeps them as raw, hourly and daily candles in
PostgreSQL, plans and runs the work that fills gaps, and values user portfolios. This Dafny project models
the stateful algorithms of the backend and proves what they keep: over all inputs, over every run of the
protocols, and, where a promise fails, under exactly which condition it holds.

| file | models |
|---|---|
| Common.dfy | UTC truncation, sums over sets, the contract of Go's sort.Slice, map ranging |
| PnLEngine.dfy | FIFO lots, realized and unrealized P&L, the snapshot |
| TransactionHistory.dfy | loading a history page by page, sorting it, and what rows with equal timestamps do to its P&L |
| Consolidate.dfy | raw samples to hourly candles, hourly to daily |
| RealtimeIngest.dfy | the candle tables, realtime ingest, the Kafka market-event consumer with redelivery and crashes |
| IngestPartitions.dfy | several consumers of one topic, one per partition, writing the same tables one store access at a time |
| TaskTable.dfy | the task table, one atomic step per SQL statement; polling and pruning |
| TaskIds.dfy | task identifiers |
| WorkerProtocol.dfy | workers, deliveries, claims, advisory pair locks, crashes and lost connections as one transition system |
| Scheduler.dfy | the round-robin backwards backfill walk |
| GapValidation.dfy | the coverage sweep and what its marks are worth to the walk |
| SyncStatus.dfy | the planner-worker loop through sync_status, as a replay of statements |
| MarketSubscription.dfy | the update bus: pending sets, wake channels, concurrent notifications |
| RateLimiter.dfy | sliding windows and progressive IP bans against the full attempt history |
| Valuation.dfy | allocation percentages with rounding repair; historical values by carry-forward |
| Lease.dfy | the leader lease |

Code that updates state is a class or a method with loops, proved against a specification function; the
properties are lemmas about those functions and about runs of transition systems. Times are integers (Unix
seconds), prices and quantities are real numbers, and every clock reading, random offset, price answer and
delivery is a parameter. Where a Go loop ranges over a map, the model takes the keys in an arbitrary order.

## Where the code and its promises part

Each of these is proved, with the exact condition or a concrete run.

- The sweep requires a raw daily candle, but no caller writes raw rows of interval "1d" (the callers are
  backend/internal/ingest/realtime/service.go:54, backend/internal/worker/realtime_executor.go:115 and
  backend/internal/worker/backfill_executor.go:177, the last for intervals other than "1d" only): in every run of
  these writers no day is ever marked complete (GapValidation.NoDayIsEverCovered).
- Workers never report a window as completing daily backfill, so daily backfill never completes and the
  daily consolidation tasks of the planner are never issued (SyncStatus.DailyNeverCompletes).
- A pair's first hourly window declares its backfill complete, whatever history is missing, if and only if the
  realtime cutover is a whole hour no later than yesterday's start, the cursor has not passed it, and the day before
  it is not covered (SyncStatus.FirstWindowCompletesExactlyWhen).
- Progress stores the end of a window, so the cursor always lags one window behind, and a tick that gives a
  pair one window leaves the cursor where it was (SyncStatus.CursorLagsOneWindow, SyncStatus.OneWindowStandsStill).
- A non-positive limit is described as "unlimited", but the walk has no last turn while a pair is eligible
  (Scheduler.WalksNeverEnd); the share computed for a percentage of zero is such a limit
  (Scheduler.ComputeBackfillTaskCap).
- Pair locks exclude concurrent execution exactly as long as no executing worker loses its connection: the lock
  is released while the worker goes on (WorkerProtocol.PairsExecuteAloneWhileSessionsHold, WorkerProtocol.LossAllowsOverlap).
- A task whose lock attempt fails, whose worker crashes, or whose outcome is not written stays running for good,
  unless it is a live ticker (WorkerProtocol.StrandedExactlyWhen, WorkerProtocol.OrphansStay).
- Portfolio recomputes are published but never enqueued, so no worker ever claims one
  (WorkerProtocol.UnplannedIsNeverClaimed; the publisher is backend/internal/portfolio/transaction_service.go:239-246).
- The intervals from grant to expiry of the lease are disjoint exactly as long as no renewal shortens a running
  lease; tenures that end at the next renewal always are (Lease.RenewalsAreSafeExactlyWhen, Lease.TenuresAreDisjoint).
- Rounded allocations sum to exactly 100.00 if and only if some holding is worth a twenty-thousandth of the
  portfolio; the repaired entry can be negative from 144 priced holdings on, and not before
  (Valuation.SumsToHundredExactlyWhen, Valuation.NonNegativeExactlyUpTo143).
- A live ticker has two owners only if it was enqueued again more than 30 seconds after a claim whose owner was
  still active, and then the next idle worker becomes the second (WorkerProtocol.SharedOnlyIfDisplaced,
  WorkerProtocol.DisplacedIsShared).
- Each page of a transaction history is a query of its own, ordered by time without a tie-breaker
  (backend/internal/storage/postgres/transaction_repository.go:165-179), so the stored P&L can miss a row and count
  another twice. Every choice of orders loads the history exactly if and only if no page boundary falls inside a
  group of tied rows that are not all equal (TransactionHistory.PagingIsExactWhen, TransactionHistory.TiedRowsAcrossPages).
- A comment says transactions are reversed to ascending order; the code sorts without stability. The order is
  unique if and only if rows with equal timestamps are equal; the order of two tied neighbours has no consequence,
  now or later, if and only if an explicit guard on quantities, prices and prior holdings holds
  (TransactionHistory.OrderIsUniqueExactlyWhen, TransactionHistory.OrderMattersExactlyWhen).
- Two symbols can share a group key of market events, for some intervals, if and only if one of them followed by a
  colon begins the other followed by a colon, and a batch of two such candles breaks the hourly index
  (RealtimeIngest.SymbolsShareAKeyExactlyWhen, RealtimeIngest.SharedKeysBreakAgreement). The one publisher sends
  the interval "ticker" only (backend/internal/worker/realtime_executor.go:103 and 142), and then keys are never
  ambiguous, whatever the symbols (RealtimeIngest.ColonFreeIntervalsAreUnambiguous).
- The publisher sets the pair as message key but names no balancer
  (backend/internal/messaging/kafka/market_events.go:24-30). With several partitions the hourly candles settle in
  every interleaving if and only if the choice of partition keeps each pair and hour together; hashing the pair
  would (IngestPartitions.RoutingSettlesExactlyWhen, IngestPartitions.HashingThePairSettles).

## Model

| member | source | states |
|---|---|---|
| PnLEngine.SellLoop | backend/internal/portfolio/pnl_engine.go:103-118 | the in-place loop (split the head lot, pop spent lots, drop what exceeds the holdings) terminates and is the matching function that the closed form is proved about |
| PnLEngine.SellMovesTheCut | backend/internal/portfolio/pnl_engine.go:95-119 | a sell of any size, on a queue that is the lots without their first c units, leaves the lots without their first c + m units, m being the smaller of the sell and what is left, and realizes price times m minus the cost of exactly those units |
| PnLEngine.FifoClosedForm | backend/internal/portfolio/pnl_engine.go:80-125 | after any history with positive buys, the queue is the buy lots with the first C units cut off, and realized P&L is matched proceeds minus the cost of those C units, sells beyond the holdings included |
| PnLEngine.PnLConservation | backend/internal/portfolio/pnl_engine.go:76-143 | realized plus unrealized is the money received for the asset, plus price times units held, minus the money paid: the reference values of its sells (of an uncovered one the share that was held) and of its buys, a missing one counting nothing |
| PnLEngine.CoveredSellEarnsItsWorth | backend/internal/portfolio/pnl_engine.go:95-118 | a sell that the holdings cover adds exactly its reference value to the proceeds, and realizes it minus the cost of the units it takes |
| PnLEngine.AssetsAreIndependent | backend/internal/portfolio/pnl_engine.go:80-125 | one asset's queue and realized P&L depend only on that asset's transactions, and its count is their number |
| PnLEngine.SplittingIsInvisible | backend/internal/portfolio/pnl_engine.go:80-143 | splitting a buy, or a sell, into two at the same unit price, anywhere in a history, changes neither realized nor unrealized P&L |
| PnLEngine.FillQueues | backend/internal/portfolio/pnl_engine.go:75-125 | the three per-asset maps filled by the loop are, for every asset, that asset's book |
| PnLEngine.Mark | backend/internal/portfolio/pnl_engine.go:127-143 | unrealized P&L per asset does not depend on the order in which the map is ranged; unpriced assets contribute nothing |
| PnLEngine.ResolvedAre | backend/internal/portfolio/pnl_engine.go:61-73 | exactly the unresolvable transactions are left out, every other as often as it occurs |
| PnLEngine.Compute | backend/internal/portfolio/pnl_engine.go:55-193 | the snapshot has one line per occurring asset in strict symbol order, each with its own book's figures, totals that are the sums over those assets, and the right exclusion and approximation marks |
| PnLEngine.SnapshotConservation | backend/internal/portfolio/pnl_engine.go:76-188 | when every held asset is priced, each line's total is that asset's money received, plus the value held, minus the money paid, its count the number of its transactions, and the snapshot's total P&L the sum of these |
| TransactionHistory.ListByUser | backend/internal/storage/postgres/transaction_repository.go:125-179 | one page of some order of the rows by descending time, ties in any order; an empty page reports no total |
| TransactionHistory.LoadAllTransactions | backend/internal/portfolio/pnl_engine.go:209-235 | paging ends after the pages that the row count calls for and returns exactly what they held, each cut from an order of its own, sorted by time |
| TransactionHistory.PagingIsExactWhen | backend/internal/portfolio/pnl_engine.go:209-227 | every choice of orders by the queries loads every row exactly as often as stored if and only if no page boundary falls inside a group of tied rows that are not all equal |
| TransactionHistory.TiedRowsAcrossPages | backend/internal/portfolio/pnl_engine.go:209-227 | two different tied rows after 499 newer ones: orders for which one of the two is never loaded |
| TransactionHistory.Engine.ComputeAndStore | backend/internal/portfolio/pnl_engine.go:47-200 | the stored snapshot is the one of what the pages held, in some time order; with clean page boundaries that is every stored transaction as often as stored |
| TransactionHistory.OrderIsUniqueExactlyWhen | backend/internal/portfolio/pnl_engine.go:229-232 | the sorted order is unique if and only if rows with equal timestamps are equal |
| TransactionHistory.OrderMattersExactlyWhen | backend/internal/portfolio/pnl_engine.go:80-143 | after any history, two tied neighbours can change places without consequence for the P&L of any continuation at any price if and only if the guard on their quantities, prices and the prior holdings holds, and equivalently if and only if the two orders leave the same account |
| TransactionHistory.TiesDoNotDetermine | backend/internal/portfolio/pnl_engine.go:229-232 | for instance a buy and a sell with one timestamp, both orders of which are sorted, give different P&L |
| Consolidate.FromRaw | backend/internal/consolidate/consolidate.go:19-101 | for every order of map ranging: one candle per non-empty bucket in strictly increasing time. Its open is the average of the opens at the bucket's first instant and lies within their range, its close that of the closes at the last one, high, low and volume those of the bucket's last samples per time and source; other intervals are rejected |
| Consolidate.OnlyEqualKeysAreOrdered | backend/internal/consolidate/consolidate.go:45-56 | two inputs whose samples of equal timestamp and source come in the same order have the same roll-up |
| Consolidate.RollUpIsDetermined | backend/internal/consolidate/consolidate.go:27-98 | any two results for one input have the same times and the same open, high, low, close and volume |
| Consolidate.RollUpWellFormed | backend/internal/consolidate/consolidate.go:59-98 | low <= open, close <= high holds for every output candle if it holds for every input |
| Consolidate.BarWellFormed | backend/internal/consolidate/consolidate.go:59-98 | the same for one bucket: averages over the first and last instants stay between the extremes |
| Consolidate.DailyFromHourly | backend/internal/consolidate/consolidate.go:106-158 | one candle per day with an hour, in strict time order, each with the first hour's open, last hour's close, the extremes and the summed volume |
| Consolidate.TwoStagesAreOne | backend/internal/consolidate/consolidate.go:19-158 | rolling raw samples up to hours and the hours to days gives each day the open, high, low, close and volume of its deduplicated samples taken directly |
| Consolidate.TwoStagesSummarize | backend/internal/consolidate/consolidate.go:19-158 | in the samples' own fields: a daily candle made in two stages opens at the average of the opens at its day's first instant, closes at that of the closes at the last, and has the samples' high, low and total volume |
| Consolidate.SummariesAgree | backend/internal/consolidate/consolidate.go:59-98 | these conditions determine open, high, low, close and volume |
| Consolidate.TwoStagesSameDays | backend/internal/consolidate/consolidate.go:19-158 | and it yields exactly the days that have a sample |
| Consolidate.Deduplicate | backend/internal/consolidate/consolidate.go:47-51 | the map holds, per timestamp and source, the last sample of the group |
| RealtimeIngest.IngestService.IngestRealtimeCandles | backend/internal/ingest/realtime/service.go:41-131 | upsert raw, reload the hour, consolidate, upsert the hour: the tables after it are those of the ingest function, and the first sample's pair is notified |
| RealtimeIngest.IngestOneHour | backend/internal/ingest/realtime/service.go:41-131 | samples of one pair and hour leave that hour in agreement with its raw rows and change no other hour |
| RealtimeIngest.IngestKeepsAgreement | backend/internal/ingest/realtime/service.go:41-131 | ingesting keeps agreement of every agreeing store if and only if all samples belong to the first one's pair and hour |
| RealtimeIngest.MarketStore.UpsertRawCandles | backend/internal/storage/postgres/market_repository.go:67-107 | the row of each pair, time and source that is upserted carries the prices, volume and flag of its last sample; all other rows are as before |
| RealtimeIngest.UpsertStores | backend/internal/storage/postgres/market_repository.go:67-107 | the same of the specification that the runs use |
| RealtimeIngest.MarketStore.RawCandles | backend/internal/storage/postgres/market_repository.go:109-157 | exactly the rows of the pair in the window, each once, by time and source |
| RealtimeIngest.MarketStore.UpsertCandles | backend/internal/storage/postgres/market_repository.go:21-65 | the row of each pair and time that is upserted is its last candle; all other rows are as before |
| RealtimeIngest.MarketEventConsumer.HandleBatch | backend/internal/messaging/kafka/market_events.go:178-225 | undecodable messages are skipped, the rest is grouped by key and the groups are ingested in order of first appearance |
| RealtimeIngest.GroupsAre | backend/internal/messaging/kafka/market_events.go:178-238 | grouping loses and invents nothing, and with unambiguous keys each group is one pair and hour |
| RealtimeIngest.GroupsComeInOrder | backend/internal/messaging/kafka/market_events.go:178-206 | groups are handled in the order in which their first samples appear |
| RealtimeIngest.BatchUpserts | backend/internal/messaging/kafka/market_events.go:178-225 | after a batch the raw rows are those of upserting its messages in log order |
| RealtimeIngest.ReplayChangesNothing | backend/internal/messaging/kafka/market_events.go:105-137 | handling the latest batch again changes no table |
| RealtimeIngest.RunsRepairAgreement | backend/internal/messaging/kafka/market_events.go:105-225 | over every run of batches and crashes between any two writes, an hour can disagree with its rows only while one of its messages awaits redelivery; once all handled messages are committed every hour agrees |
| RealtimeIngest.RunsAreOnePass | backend/internal/messaging/kafka/market_events.go:105-225 | once all handled messages are committed the raw rows are those of one pass over the log |
| RealtimeIngest.RunsConverge | backend/internal/messaging/kafka/market_events.go:105-225 | two settled runs over one log, batched and crashed differently, end with the same rows and the same bars |
| RealtimeIngest.SymbolsShareAKeyExactlyWhen | backend/internal/messaging/kafka/market_events.go:235-238 | two different symbols share a group key for some intervals if and only if one of them followed by a colon is a prefix of the other followed by a colon |
| RealtimeIngest.SharedKeysBreakAgreement | backend/internal/messaging/kafka/market_events.go:178-238 | whenever candles of two pairs share a group key, a batch of the two breaks agreement |
| RealtimeIngest.ColonFreeIntervalsAreUnambiguous | backend/internal/messaging/kafka/market_events.go:235-238 | intervals without a colon never make keys ambiguous, whatever the symbols |
| RealtimeIngest.NoColonsNoAmbiguity | backend/internal/messaging/kafka/market_events.go:235-238 | nor do symbols without a colon, whatever the intervals |
| RealtimeIngest.PublishedRunsSettle | backend/internal/worker/realtime_executor.go:98-144 | over every run on candles as the publisher sends them, with nothing assumed about symbols, an hour can disagree only while one of its messages awaits redelivery, and settled rows are those of one pass |
| RealtimeIngest.PublishedRunsConverge | backend/internal/worker/realtime_executor.go:98-144 | two settled runs over one published log end with the same rows and bars |
| RealtimeIngest.HoursHoldTheirMessages | backend/internal/messaging/kafka/market_events.go:105-225 | over every run on published messages from empty tables, once all is committed: the bar of an hour summarizes exactly the latest messages of its times and sources, price by price |
| IngestPartitions.PartitionsKeepAgreement | backend/internal/messaging/kafka/market_events.go:105-225 | with any number of partitions and every store access a step of its own: over every interleaving in which no pair and hour is split over partitions, an hour disagrees with its rows only while one of its messages awaits redelivery |
| IngestPartitions.PartitionsSettle | backend/internal/messaging/kafka/market_events.go:105-225 | and once everything handled is committed, every hour agrees |
| IngestPartitions.PartitionsAreOnePass | backend/internal/messaging/kafka/market_events.go:105-225 | over the same interleavings, once the logs are finished each raw row is the last message of its key in its log, and keys without messages are as before |
| IngestPartitions.PartitionsConverge | backend/internal/messaging/kafka/market_events.go:105-225 | two finished runs over the same logs, interleaved, batched and crashed differently, end with the same rows and the same bars |
| IngestPartitions.PartitionsHoldTheirMessages | backend/internal/messaging/kafka/market_events.go:105-225 | the same over every interleaving of several partitions, once the logs are finished |
| IngestPartitions.SplitHoursBreakAgreement | backend/internal/messaging/kafka/market_events.go:24-30 | any two samples of one pair and hour in two partitions, the second with a volume, have a run in which both are committed and the hour disagrees for good |
| IngestPartitions.RoutingSettlesExactlyWhen | backend/internal/messaging/kafka/market_events.go:24-53 | a choice of partition by the candle settles in agreement on every log and interleaving if and only if it sends all candles of one pair and hour to one partition |
| IngestPartitions.HashingThePairSettles | backend/internal/messaging/kafka/market_events.go:46-50 | in particular every function of the message key does |
| TaskTable.TaskRepository.Enqueue | backend/internal/storage/postgres/task_repository.go:41-90 | a task whose id is new in the batch is reported, and its row waits with its window and description and with retries, error, claim and completion cleared, exactly if there was no row, or it was completed, failed, a live ticker running for more than 30 seconds, or cooling down before a retry; all other rows are untouched, and the report is in the batch's order |
| TaskTable.EnqueueMeans | backend/internal/storage/postgres/task_repository.go:41-90 | the same of the specification that the runs use |
| TaskTable.TaskRepository.Claim | backend/internal/storage/postgres/task_repository.go:92-111 | compare-and-set: true exactly if the row was pending or failed, and then it is running |
| TaskTable.TaskRepository.Complete | backend/internal/storage/postgres/task_repository.go:113-125 | the row is completed, every other row unchanged |
| TaskTable.TaskRepository.Fail | backend/internal/storage/postgres/task_repository.go:127-156 | the row goes back to pending with a retry in an hour and the jitter, or fails: pending exactly for hourly tasks below 24 and daily ones below 7 retries; every other row unchanged |
| TaskTable.ReachableWithinBudget | backend/internal/storage/postgres/task_repository.go:41-156 | in every table reachable by any sequence of enqueues, claims, completions, failures and prunings, a pending row has at most 24, 7 or 0 retries behind it |
| TaskTable.ExactlyBudgetRetries | backend/internal/storage/postgres/task_repository.go:127-156 | whoever attempts it and when, a new task goes back to pending, with the retry time and error of the latest attempt, for exactly its first 24, 7 or 0 failures and is failed by the next |
| TaskTable.EnqueueIsIdempotent | backend/internal/storage/postgres/task_repository.go:41-90 | enqueueing a batch again at the same instant changes nothing and reports nothing, repeated ids or not |
| TaskTable.RunningIsNotReopened | backend/internal/storage/postgres/task_repository.go:66-69 | no enqueue, at any time, reopens a running task that is not a live ticker |
| TaskTable.TaskRepository.ActiveBackfillPairs | backend/internal/storage/postgres/task_repository.go:158-184 | exactly the pairs with a running or a pending and due backfill |
| TaskTable.TaskRepository.PendingPoll | backend/internal/storage/postgres/task_repository.go:186-349 | three phases, each the first of its eligible tasks within what the limits leave |
| TaskTable.PollPromises | backend/internal/storage/postgres/task_repository.go:186-349 | a poll returns distinct waiting tasks within both limits, each phase in its order (live tickers oldest first; the others by integrity checks, consolidations, window start and age; then backfills), and what a phase leaves out comes no sooner: a live ticker only behind live tickers at the limit, another non-backfill only for a full batch without backfills, a backfill only at one of the limits |
| TaskTable.TaskRepository.PruneOldTasks | backend/internal/storage/postgres/task_repository.go:484-529 | only finished rows are deleted, and exactly the newest keepMax of those since the cutoff are kept |
| TaskIds.TaskIdInjective | backend/internal/planner/scheduler.go:452-454 | task ids of one type are equal only if symbol, interval, start and end are, colons in symbols included |
| TaskIds.TypeOfTaskId | backend/internal/planner/scheduler.go:452-454 | a task id names its task type |
| TaskIds.TaskIdSpellsItsFields | backend/internal/planner/scheduler.go:452-454 | an id is type, symbol, interval, start and end between colons, the times in decimal without leading zeros |
| WorkerProtocol.Processor.Process | backend/internal/worker/processor.go:59-102 | claim, lock, execute, finish on one task: a waiting or failed task is claimed by this worker and then stays running without its lock, is completed, or has its error recorded and counted; nil error exactly if the claim was refused or everything succeeded |
| WorkerProtocol.ProcessIsFiveSteps | backend/internal/worker/processor.go:59-102 | the protocol's five steps, undisturbed, have the effect of Process and leave the pair lock free |
| WorkerProtocol.ClaimsAreExclusive | backend/internal/worker/processor.go:59-102 | over every run with any workers, duplicate deliveries, re-enqueues, crashes and lost connections, at most one worker is between claim and completion or failure of a task that is not a live ticker, and its row is running |
| WorkerProtocol.PairsExecuteAlone | backend/internal/storage/postgres/pair_lock.go:18-46 | over every run two workers execute for one pair at a time only if the session of one of them was lost |
| WorkerProtocol.SessionsOutliveWorkers | backend/internal/storage/postgres/pair_lock.go:18-46 | while a worker executes, its session closes exactly by the loss of its connection |
| WorkerProtocol.PairsExecuteAloneWhileSessionsHold | backend/internal/storage/postgres/pair_lock.go:18-46 | in every run in which no executing worker loses its connection, no two workers execute for one pair at a time |
| WorkerProtocol.LossAllowsOverlap | backend/internal/storage/postgres/pair_lock.go:18-46 | wherever a worker loses its connection while executing, an idle worker can start to execute for the same pair before it is done |
| WorkerProtocol.LostSessionsOverlap | backend/internal/storage/postgres/pair_lock.go:18-46 | a run in which a lost connection lets two workers execute for one pair |
| WorkerProtocol.ExclusiveUntilDisplaced | backend/internal/storage/postgres/task_repository.go:66-69 | any task, live tickers included, has at most one owner and a running row under it as long as no enqueue reopened it under an owner |
| WorkerProtocol.SharedOnlyIfDisplaced | backend/internal/storage/postgres/task_repository.go:66-69 | two workers own one task only if it is a live ticker that was enqueued again more than 30 seconds after the claim of a worker that still owned it |
| WorkerProtocol.DisplacedIsShared | backend/internal/storage/postgres/task_repository.go:66-69 | whenever that happens, the next idle worker to start the task becomes a second owner |
| WorkerProtocol.LiveTickersAreShared | backend/internal/storage/postgres/task_repository.go:66-69 | such a run exists for every live ticker |
| WorkerProtocol.ClaimsAreEarned | backend/internal/worker/processor.go:59-102 | however often a task is delivered, it is claimed at most once per accepted enqueue or recorded failure |
| WorkerProtocol.StrandedExactlyWhen | backend/internal/worker/processor.go:59-85 | a task in progress loses its owner but stays running exactly by a lock error, a crash or an unwritten outcome |
| WorkerProtocol.OrphansStay | backend/internal/storage/postgres/task_repository.go:41-150 | such a task stays running in every continuation |
| WorkerProtocol.UnplannedIsNeverClaimed | backend/internal/worker/processor.go:59-63 | a task that is delivered but never enqueued is never claimed, in any run |
| Scheduler.BuildInitialBackfillTasksLimited | backend/internal/planner/scheduler.go:83-183 | for a positive limit and an eligible pair the loop ends with exactly limit tasks, and each turn k is the next uncovered window of eligible pair k mod n |
| Scheduler.SkipCovered | backend/internal/planner/scheduler.go:146-161 | the skip loop terminates on the first uncovered window before the cursor |
| Scheduler.CursorsAreEligible | backend/internal/planner/scheduler.go:91-132 | cursors belong to exactly the tracked, inactive pairs whose backfill is not complete, in the order of the catalog |
| Scheduler.WindowsRunBackwards | backend/internal/planner/scheduler.go:139-178 | the windows of one pair run strictly backwards without overlap |
| Scheduler.EmitsExactlyTheUncovered | backend/internal/planner/scheduler.go:147-173 | between a pair's start and its latest window, a window is emitted if and only if its day is not covered |
| Scheduler.PlansExactlyTheUncovered | backend/internal/planner/scheduler.go:83-183 | from the stored state: of the whole windows below a pair's stored cursor, or below the ceiling (yesterday's start or the hour of an earlier cutover) if the cursor is missing or later, and down to its latest planned one, a window is planned if and only if its day is uncovered, for hourly and daily backfill alike |
| Scheduler.PlansOnlyOpenWindows | backend/internal/planner/scheduler.go:83-183 | and every planned task is such a window of a tracked, idle pair with an open backfill |
| Scheduler.FairShares | backend/internal/planner/scheduler.go:135-180 | whatever is covered, each pair in the round gets the number of tasks divided by the number of pairs, rounded up or down |
| Scheduler.IdsAreDistinct | backend/internal/planner/scheduler.go:163-170 | with distinct pairs, all task ids of a walk are distinct |
| Scheduler.BudgetsAreNested | backend/internal/planner/scheduler.go:175-177 | the walk is determined, and a smaller limit gives a prefix of a larger limit's walk |
| Scheduler.WalksNeverEnd | backend/internal/planner/scheduler.go:139-180 | while a pair is eligible there is a walk of every length, so without a limit there is no last turn |
| Scheduler.PlannedWindows | backend/internal/planner/scheduler.go:83-183 | planned windows belong to idle pairs, end by yesterday and, hourly ones, by the known realtime cutover, and are whole hours if the stored cursors are |
| Scheduler.ComputeBackfillTaskCap | backend/internal/planner/runtime.go:262-278 | the share of the worker batch rounded up, at most the batch, zero exactly for non-positive inputs |
| GapValidation.TwentyFourHoursFillADay | backend/internal/worker/gap_validator_executor.go:104-118 | with whole-hour rows, 24 distinct truncated hours in a day mean that all 24 hourly buckets are stored, and conversely |
| GapValidation.CoveredDaysAreFull | backend/internal/worker/gap_validator_executor.go:53-121 | over every run of writers and sweeps from empty tables, a day marked complete has all its hourly buckets stored |
| GapValidation.SkippingIsSafe | backend/internal/planner/scheduler.go:104-161 | in every state of such runs, each hour between a pair's stored cursor (or the ceiling, if that is earlier) and its latest planned window is planned or already stored |
| GapValidation.NoDayIsEverCovered | backend/internal/worker/gap_validator_executor.go:95-102 | with the actual writers of raw rows, no day validates and none is ever marked |
| GapValidation.GapValidatorExecutor.Execute | backend/internal/worker/gap_validator_executor.go:39-90 | marks exactly the checked days that validate, and fails exactly if days were checked and none validated |
| GapValidation.GapValidatorExecutor.ValidateDay | backend/internal/worker/gap_validator_executor.go:92-121 | true exactly with a raw daily row and 24 distinct hours |
| GapValidation.SweepReaches | backend/internal/worker/gap_validator_executor.go:59-80 | a sweep reaches a day if and only if it is uncovered and fewer than 30 uncovered days of the range precede it |
| GapValidation.BuildGapValidationTasks | backend/internal/planner/scheduler.go:189-231 | a sweep is planned for exactly the pairs with a cursor and an uncovered day from that of the cursor to yesterday, over that range, in which it has a day to check, under an id that is stable over one validation interval |
| SyncStatus.ReplayMeans | backend/internal/storage/postgres/sync_repository.go:86-180 | after any sequence of statements with any flags: cursors and cutover are the least values reported, hourly completion is a report that was flagged or reached a cutover recorded before it, daily completion is the last flag, and backfill_completed is both |
| SyncStatus.HourlyCompletionIsFinal | backend/internal/storage/postgres/sync_repository.go:119-124 | hourly completion never reverts |
| SyncStatus.CursorIgnoresOrder | backend/internal/storage/postgres/sync_repository.go:118 | the hourly cursor does not depend on the order in which windows are reported |
| SyncStatus.RunsKeepInv | backend/internal/planner/scheduler.go:97-132 | over every run of planners with stale snapshots, probes, workers and cutovers, all cursors and issued window bounds are whole hours, initial windows end by yesterday and by the cutover known at planning, and probes are the hour before the cursor they were planned from |
| SyncStatus.NeverRevertsInRuns | backend/internal/storage/postgres/sync_repository.go:106-136 | a completed hourly backfill stays complete along every run |
| SyncStatus.DailyNeverCompletes | backend/internal/worker/backfill_executor.go:269-275 | with the actual workers backfill_completed is never set and no consolidation task is issued |
| SyncStatus.CursorLagsOneWindow | backend/internal/worker/backfill_executor.go:134-146 | once the hourly windows that a walk from the stored states gave a pair are reported, in any order, its stored cursor is the end, not the start, of the latest one |
| SyncStatus.OneWindowStandsStill | backend/internal/worker/backfill_executor.go:134-146 | one uncovered window per tick below a stored cursor leaves that cursor where it was |
| SyncStatus.FirstWindowCompletesExactlyWhen | backend/internal/storage/postgres/sync_repository.go:119-124 | the report of a pair's first hourly window completes its hourly backfill if and only if the cutover is a whole hour no later than yesterday's start, the cursor has not passed it, and the day before it is not covered |
| SyncStatus.SyncRepository.UpsertProgress | backend/internal/storage/postgres/sync_repository.go:86-138 | the row after an hourly or daily report, inserted or updated |
| SyncStatus.SyncRepository.MarkRealtimeStarted | backend/internal/storage/postgres/sync_repository.go:140-157 | the earlier of the stored and the new cutover |
| SyncStatus.SyncRepository.MarkBackfillSeeded | backend/internal/storage/postgres/sync_repository.go:159-180 | a new row, or nothing |
| SyncStatus.SyncRepository.States | backend/internal/storage/postgres/sync_repository.go:40-84 | the planner sees every stored pair and no other, its hourly progress as stored, and its daily progress only once hourly backfill is complete: until then no daily cursor and no daily completion |
| MarketSubscription.Subscription.QueuePair | backend/internal/service/market.go:224-233 | the pair is pending and a signal waits, whether or not one did before |
| MarketSubscription.Subscription.DrainPendingPairs | backend/internal/service/market.go:206-221 | every pending pair once, in string order, and nothing stays pending |
| MarketSubscription.MarketService.NotifyUpdate | backend/internal/service/market.go:162-172 | the cached ticker is gone and every subscriber has the pair pending with a signal |
| MarketSubscription.MarketService.Subscribe | backend/internal/service/market.go:176-185 | a new, empty subscription is appended |
| MarketSubscription.MarketService.Unsubscribe | backend/internal/service/market.go:189-198 | exactly the given subscription is removed, if it is there |
| MarketSubscription.WakeupsAreNeverLost | backend/internal/service/market.go:205-233 | under every interleaving, a non-empty pending set means that a signal waits, a producer is about to send, or the subscriber is about to drain |
| MarketSubscription.BatchesAreAlwaysExact | backend/internal/service/market.go:206-233 | in every run each drained batch is exactly what was queued since the previous one, and the pending set what was queued since the last |
| MarketSubscription.QueuedIsDrainedOrPending | backend/internal/service/market.go:206-233 | pairs queued are pairs drained together with pairs pending |
| MarketSubscription.QuietMeansDelivered | backend/internal/httpapi/router/router.go:140-150 | when nothing is in progress, waiting or received, everything queued has been drained |
| MarketSubscription.NotificationsReachEveryone | backend/internal/service/market.go:162-172 | a completed notification has reached every subscriber that was active when it began: pending, or drained since |
| RateLimiter.RateLimiter.Allow | backend/internal/auth/ratelimit.go:55-61 | true exactly if fewer than maxAttempts of all records since the last reset lie within the window, whatever pruning has dropped |
| RateLimiter.RateLimiter.Record | backend/internal/auth/ratelimit.go:65-71 | the record is added to the history |
| RateLimiter.RateLimiter.AllowIP | backend/internal/auth/ratelimit.go:107-138 | answer and new ban are those of the full-history reference; other IPs are untouched |
| RateLimiter.RateLimiter.RecordIP | backend/internal/auth/ratelimit.go:141-147 | the failure is added to the IP's history, its ban and all other IPs unchanged |
| RateLimiter.RateLimiter.ResetIP | backend/internal/auth/ratelimit.go:151-157 | the IP's history and ban are empty, all other IPs unchanged |
| RateLimiter.PrunedCount | backend/internal/auth/ratelimit.go:84-102 | counting what pruning leaves is counting the whole history within the window |
| RateLimiter.BansHold | backend/internal/auth/ratelimit.go:107-138 | once a call is banned at a tier, every call before that tier's duration ends is refused unless a reset comes between |
| RateLimiter.ServedBansLift | backend/internal/auth/ratelimit.go:111-137 | with no failure since, the first call after the ban whose window starts after it is allowed |
| RateLimiter.BansWereImposed | backend/internal/auth/ratelimit.go:129-132 | a ban in force was imposed by an earlier call of that tier, with no reset since |
| RateLimiter.RefusedExactlyWhen | backend/internal/auth/ratelimit.go:13-138 | over every sequence of calls: a call is refused exactly if the failures since the latest reset within its window are 20 or more, or it falls into the ban of an earlier call that met 20, 40 or 60 of them outside a ban itself: 900, 1800 or 3600 seconds, with no reset since |
| Valuation.AdjustAllocationRounding | backend/internal/portfolio/valuation.go:217-237 | for any percentages: without a positive priced one nothing changes; otherwise the first largest priced one takes the residual of 100 and is rounded to hundredths, and nothing else changes |
| Valuation.RoundIsNearest | backend/internal/portfolio/valuation.go:211-213 | rounding is to the nearest integer, away from zero halfway |
| Valuation.ComputeValuation | backend/internal/portfolio/valuation.go:42-106 | the total is the sum of the priced values; a priced holding is worth quantity times price, its unrealized result is that minus quantity times average price, and its percent the gain over the average price; percentages are the repaired shares |
| Valuation.SplittingKeepsTotal | backend/internal/portfolio/valuation.go:52-84 | splitting a holding in two keeps the total |
| Valuation.AllocationsAddUp | backend/internal/portfolio/valuation.go:89-98 | the percentages add up to exactly 100 if and only if some priced holding is worth a twenty-thousandth of the total, and all but the first largest are within half a hundredth of the exact ones |
| Valuation.ResidualIsSmall | backend/internal/portfolio/valuation.go:89-98 | the residual of 100.00 is at most half a hundredth per priced holding |
| Valuation.RepairIsLocal | backend/internal/portfolio/valuation.go:217-237 | one entry changes, by at most half a hundredth per priced holding |
| Valuation.SumsToHundredExactlyWhen | backend/internal/portfolio/valuation.go:89-98 | the percentages sum to exactly 100.00 if and only if some priced holding is worth a twenty-thousandth of the total, and are all zero otherwise |
| Valuation.UpToTwentyThousand | backend/internal/portfolio/valuation.go:89-98 | up to 20000 priced, non-negative holdings of positive total sum to exactly 100.00 |
| Valuation.NonNegativeExactlyUpTo143 | backend/internal/portfolio/valuation.go:233-236 | every portfolio of n priced, non-negative holdings keeps non-negative percentages if and only if n <= 143 |
| Valuation.ComputeHistorical | backend/internal/portfolio/valuation.go:112-186 | points in strictly increasing time, exactly at the union of candle timestamps, each the sum over holdings of quantity times the close at the greatest timestamp at or before it |
| Valuation.OnePoint | backend/internal/portfolio/valuation.go:126-178 | one holding at one timestamp counts its quantity times the close of the last of its latest candles at or before it, or nothing |
| Valuation.PointsAddUp | backend/internal/portfolio/valuation.go:164-178 | the value of two portfolios together is the sum of their values at every timestamp |
| Valuation.TimesAreCandleTimes | backend/internal/portfolio/valuation.go:126-156 | the timestamps are exactly those of the fetched candles of held assets |
| Valuation.ValueOfPoint | backend/internal/portfolio/valuation.go:164-178 | carrying last known prices forward is that direct lookup |
| Lease.LeaseRepository.AcquireOrRenew | backend/internal/storage/postgres/lease_repository.go:19-46 | granted exactly if there is no lease, it has expired, or it is the caller's own; then expiry is now plus the TTL, otherwise nothing changes and the current lease is returned |
| Lease.TenuresAreDisjoint | backend/internal/storage/postgres/lease_repository.go:23-32 | whatever TTLs are asked for, tenures (to expiry, or to the holder's next renewal) of different holders never overlap |
| Lease.LastingRenewalsKeepIntervalsDisjoint | backend/internal/storage/postgres/lease_repository.go:23-32 | if no renewal shortens a running lease, even the whole intervals from grant to expiry never overlap |
| Lease.ShorteningRenewalsCanOverlap | backend/internal/storage/postgres/lease_repository.go:23-32 | after a renewal that does, another holder can be granted the lease inside the interval promised first |
| Lease.RenewalsAreSafeExactlyWhen | backend/internal/storage/postgres/lease_repository.go:23-32 | at each renewal: all continuations keep the whole intervals disjoint if and only if the renewal does not shorten its running lease |
| Lease.RunsKeepInv | backend/internal/storage/postgres/lease_repository.go:19-46 | over every interleaving of callers, with lost answers and failed reads, the grants form such a history, and a caller is told it leads only if it was granted the lease |
| Lease.LeadersAreDisjoint | backend/internal/storage/postgres/lease_repository.go:19-46 | two callers told that they lead have disjoint tenures |

## Left out

- Scheduler.BuildInitialBackfillTasksLimited: requires a positive limit or no eligible pair, because otherwise the source does not return (Scheduler.WalksNeverEnd).
- RealtimeIngest.RunsRepairAgreement: follows one log and its consumer; several partitions with interleaved store accesses are the subject of IngestPartitions.PartitionsSettle and IngestPartitions.PartitionsConverge. A historical backfill may return candles outside its window, and backfill and Kafka writers on one hour at once are not modelled.
- RealtimeIngest.RunsConverge: assumes unambiguous group keys and one interval per row key; both are proved for published candles in RealtimeIngest.PublishedRunsConverge.
- RealtimeIngest.HoursHoldTheirMessages: starts from empty tables, as does IngestPartitions.PartitionsHoldTheirMessages; what runs make of earlier rows is RealtimeIngest.RunsAreOnePass and IngestPartitions.PartitionsAreOnePass.
- IngestPartitions.RoutingSettlesExactlyWhen: a partition has one consumer at a time, and the choice of partition is a function of the candle; the default balancer of the Kafka client is not part of this model, and IngestPartitions.PartitionsSettle covers any logs.
- TransactionHistory.PagingIsExactWhen: the stored rows do not change while the pages are loaded, and rows equal in every modelled column count as equal.
- TransactionHistory.OrderMattersExactlyWhen: requires positive buy quantities, as PnLEngine.FifoClosedForm does.
- PnLEngine.FifoClosedForm: requires positive buy quantities, because a lot of no or negative quantity has no units to cut off; sells may be any quantity. The same holds for PnLEngine.PnLConservation and PnLEngine.SplittingIsInvisible.
- WorkerProtocol.PairsExecuteAlone: is stated per advisory key; two symbols whose 64-bit hashes collide exclude each other as well.
- GapValidation.GapValidatorExecutor.Execute: is stated for tables that nobody else changes; the interleaved reads and marks are the steps of the runs in CoveredDaysAreFull.
- Lease.TenuresAreDisjoint: counts a tenure as over at its holder's next renewal; for the interval up to the first promised expiry the claim is false, see Lease.ShorteningRenewalsCanOverlap.
- Floating point rounding, NaN and infinities: prices, quantities and percentages are real numbers.
- SQL text, transactions' isolation and the schema: each statement is one atomic step on a keyed map. Columns v24h and updated_at of candles are not modelled, and the runs do not follow the Finalized flag of hourly rows, which depends on map order when several sources share the latest timestamp.
- Store errors are represented where they matter to a protocol (crash, lost answer, unwritten outcome, failed lock), not as error values of every method.
- The planner's tick: reading states, planning and enqueueing are separate steps of the runs in SyncStatus and WorkerProtocol, so a leader that loses its lease in mid tick is covered, but the tick itself is not a member.
- The semaphore of the worker's batch runner and the Kafka task consumer: any number of workers may receive any task at any time, which includes both.
- The ticker and sparkline caches under concurrent reads, which can store a stale value after an invalidation.
- Task descriptions, log lines and notification of the dashboard.
- The planner's realtime, news, integrity, cleanup and P&L refresh task lists: stable ids and fixed windows that would only add easy members.
- Catalog replacement and deletion of a pair's data, HTTP handlers, authentication beyond the limiter, wallets, market providers, RSS, configuration and the whole frontend.
