# Verification of the Parallel log indexer

This project models the hard core of an EVM log indexer with exact integer accounting, and proves what its numbers rest
on. Dafny 4.11 verifies it with `dafny verify dfyconfig.toml`; every file is one module.

| module | what it models |
|---|---|
| `Planner` | block ranges, merging coverage rows, the gaps they leave, the coverage report |
| `EvidenceStore` | the durable tables as the class `IndexerDatabase`, the transaction that persists a chunk, coverage reuse |
| `EvidenceHistory` | every history of the tables: commits of any scopes in any interleaving, reuse, and the block rows that snapshot captures add |
| `RunEnvironment` | the unreliable world a run meets: provider, database connection and abort signal, driven by a script |
| `FetchPolicy` | the loop that retries and shrinks log requests until a range is served |
| `RunTraces` | what a run commits chunk by chunk, and the turns each chunk took |
| `Ingestion` | the ingestion run in that world, and provider failover |
| `WorkerPool` | the bounded worker pool under every interleaving, and batched block fetching |
| `SavingsMath` | the fixed-point compound-interest polynomial |
| `YieldIntegration` | segmented-rate integration of a window of vault events |
| `NaturalYield` | when an integrated window's yield is at least zero |
| `YieldReconciliation` | native yield over a block window and its reconciliation |
| `PublishedYield` | the interest query over the stored events, and the yield published from it |
| `YieldIntervals` | chaining stored yield intervals across a range, with a tolerance |
| `PinnedWindows` | resolving a time window to blocks |
| `HolderReplay`, `HolderMeaning` | replaying transfers into balances and activity, and what each row and counter says of the transfers |
| `EventClassification`, `NativeFlows` | classifying events per transaction, totalling native flows per hour or day |
| `SupplyAlignment` | adding up per-chain supply snapshots |
| `Sequences`, `Sorting`, `Sums`, `Text`, `Wrappers` | shared vocabulary |

How the world outside is modelled:

- `World` fixes the finalized chain (a block and a set of logs for each number), the decoder and each scope's addresses.
  All are arbitrary functions; `ValidWorld` says that logs carry their block's number and hash and that
  (transaction hash, log index) identifies a log.
- The provider, the database connection and the abort signal are one `Environment`: a fixed, finite script of turns and the
  position `next` in it, one turn for each remote call. A turn says how a request for logs, any other provider call,
  a chunk's transaction and any other statement to the database would be answered: it serves exactly the chain's logs, or
  fails with a daily quota, range, rate-limit, transient or fatal error, loses or refuses a commit, fails a statement, or
  fires the abort signal. When the script ends, the process is killed at that call. Contracts hold for
  every script, so they hold at every crash point; they also name the turns, or the property of the request or the tables,
  that made a run stop. The ghost journal `runs` records each run of the process with its options and its outcome, which is
  how a caller's contract can speak of the runs it started.
- The pooled fetch of block headers (`WorkerPool.BlocksByNumber`) runs after its turn has been answered; the pool's
  interleavings are chosen arbitrarily.
- In `PublishedYield` the decoder names savings accruals only for addresses that the scope scans (`ScansAccruals`), as it picks
  the role by address.
- A prefetched range is evaluated when the run awaits it. What a provider can answer does not depend on the moment of the
  call, so every outcome of a concurrent prefetch is an outcome of some script.
- One writer per scope is assumed, as the advisory lock provides; writers of different scopes interleave freely in
  `EvidenceHistory`.

Facts about the code that a reader should know:

- The resume rule takes the later of the stored checkpoint and the requested start. A run that asks for an earlier start than
  a finished one therefore ends "noop" without scanning its first blocks (`Ingestion.SteppingBackLeavesGap`).
  `Ingestion.FinishedRunCovers` gives the exact condition under which a finished run covers its whole request.
- The field `accruedVariance` of a resolved reconciliation record (src/analytics/yield-reconciliation.ts:353) is emitted minus
  recorded interest, which is zero on a verified row; the variance of `integrateSegmentedRateWindow` is emitted minus
  predicted interest. The model's `Summary.accruedVariance` is the latter.
- A segmented row is verified without comparing the end snapshot's last update, which the code only reports as a delta. A
  verified row therefore joins to every verified row that can follow it exactly when that last update is the integrated one,
  or lies after the snapshot (`YieldReconciliation.RowAlwaysJoinsExactlyWhen`, for rows that integration decides).
  `UncheckedLastUpdateBreaksJoining` gives the failing input behind every other row, and `ClaimedUpdateVerifies` such rows.
- A withdrawal or a rate change before the first accrual of a window can make the integrated yield negative.
  `NaturalYield.NaturalYieldExactlyWhen` has the schedules for which no amounts can.
- Coverage reuse does not compare the addresses of the two scopes. `EvidenceHistory.ReuseIsSafeExactlyWhen` proves that reuse
  is safe for every chain, history and window exactly when the source scans every address of the target;
  `EvidenceHistory.UnscannedAddressIsMissed` is the failing input, and `EvidenceHistory.ReuseIsHonestExactlyWhen` says which
  single reuses are honest. The history theorems take this inclusion as the condition of a legal reuse.
- The segmented integration sorts by (timestamp, log index), and log indices restart with each block. When two blocks share a
  second and the later one has the smaller index, events are replayed out of chain order
  (`YieldIntegration.ChainOrderSurvivesExactlyWhen`), which can make a possible withdrawal throw
  (`YieldIntegration.InvertedSecondThrows`).
- "Complete" in the supply aggregate compares two counts. `SupplyAlignment.CompleteIsTrustedExactlyWhen` has the condition on
  the request under which it means that nothing is missing, stale or failed, whatever times the components carry.
- The greedy pick of yield intervals selects an exact tiling exactly when no usable interval overtakes one of its pieces
  (`YieldIntervals.TilingIsSelectedExactlyWhen`). Usable intervals have distinct windows, as the store's query
  (src/analytics/range-analytics.ts:346) returns one row for each window.

## Model

| member | source | states |
|---|---|---|
| `Planner.PlanBlockRange` | src/indexer/planner.ts:8-21 | the planned range is non-empty, starts at the given block, never passes the end, has the full chunk size unless it ends the request, and fails exactly for a non-positive size or reversed bounds |
| `Planner.ReduceChunkSize` | src/indexer/planner.ts:23-26 | the size is halved, rounded down, and stays at least one |
| `Planner.ShouldRetryRpcError` | src/indexer/planner.ts:84-95 | before the limit exactly rate-limit and transient errors are retried, at the limit exactly rate-limit errors under the indefinite setting |
| `Planner.MergeCoverage` | src/indexer/planner.ts:97-111 | the merged list is ascending with an uncovered block between neighbours and covers the same blocks |
| `Planner.DetachedIsCanonical` | src/indexer/planner.ts:97-111 | only one such list exists for a set of blocks, so the merge returns the maximal runs |
| `Planner.CoverageGaps` | src/indexer/planner.ts:113-131 | the gaps are, in order, exactly the maximal uncovered runs of the window; reversed bounds fail |
| `Planner.GapsAreDetermined` | src/indexer/planner.ts:113-131 | the gap list is fully determined by the covered blocks |
| `Planner.WindowFilterKeepsCoverage` | src/indexer/status.ts:13-19 | querying only overlapping rows changes no block's answer in the window |
| `Planner.VerifyCoverage` | src/indexer/status.ts:6-37 | the report is complete exactly when every block of the window is covered by the scope's rows, and lists exactly the gaps |
| `Planner.CoverageComposes` | src/indexer/planner.ts:113-131 | gap-free windows that share a boundary block compose |
| `EvidenceStore.IndexerDatabase.InsertBlocks` | src/indexer/service.ts:174-219 | refuses exactly when a stored number has another hash; otherwise adds only new numbers, the last of duplicates winning |
| `EvidenceStore.IndexerDatabase.InsertRawLogs` | src/indexer/service.ts:396-427 | inserts each new key once, first log wins, and returns exactly the inserted keys |
| `EvidenceStore.IndexerDatabase.InsertDecodedEvents` | src/indexer/service.ts:421-471 | adds one event for each inserted log that decodes; `EvidenceHistory.EventsStandUnderTheirKeys` and `ExactEvidence` say field by field what it holds |
| `EvidenceStore.IndexerDatabase.PersistChunk` | src/indexer/service.ts:354-512 | blocks, logs, events, coverage row and checkpoint change together or not at all, as `EvidenceHistory.CommitAddsBlocks`, `CommitAddsLogs` and `CommitTouchesOneScope` spell out; a lost acknowledgement may hide a commit |
| `EvidenceStore.IndexerDatabase.InsertClippedRows` | src/analytics/savings-history.ts:182-201 | adds exactly the source rows that overlap the window, clipped to it, to the target scope |
| `EvidenceStore.IndexerDatabase.ReuseSavingsHistoryCoverage` | src/analytics/savings-history.ts:161-221 | reuses exactly when the source has no gap, and never reports that the reused coverage is incomplete |
| `EvidenceStore.ClippedRowsCover` | src/analytics/savings-history.ts:182-201 | clipped rows cover exactly the covered blocks of the window |
| `EvidenceStore.ReuseCompletes` | src/analytics/savings-history.ts:202-212 | after reuse the target has no gap in the window, whatever rows it had |
| `EvidenceHistory.CommitKeepsEvidence` | src/indexer/service.ts:354-512 | persisting an exactly served chunk keeps the evidence invariant and never meets a block-hash drift |
| `EvidenceHistory.EventsStandUnderTheirKeys` | src/indexer/service.ts:421-471 | every stored event stands under its own transaction hash and log index, beside the raw log of its block |
| `EvidenceHistory.DriftExactlyWhen` | src/indexer/service.ts:174-219 | a transaction is refused for drift exactly when the last block it brings under some number has another hash than the stored one |
| `EvidenceHistory.CommitAddsBlocks` | src/indexer/service.ts:174-219 | a commit keeps every stored block and adds, under each new number, the last block it brought |
| `EvidenceHistory.CommitAddsLogs` | src/indexer/service.ts:396-471 | a commit keeps every stored log and event and adds, at each new place, the first log it brought |
| `EvidenceHistory.CommitTouchesOneScope` | src/indexer/service.ts:474-504 | a commit adds its range to its own scope and sets that checkpoint behind it; no other scope changes |
| `EvidenceHistory.ReuseIsHonestExactlyWhen` | src/analytics/savings-history.ts:182-201 | reuse keeps the evidence invariant if and only if every log the target wants from the reused blocks is already stored |
| `EvidenceHistory.ReuseKeepsEvidence` | src/analytics/savings-history.ts:161-221 | reuse into a scope with no further addresses keeps the evidence invariant |
| `EvidenceHistory.CaptureKeepsEvidence` | src/analytics/multichain-snapshots.ts:297-319 | a captured block never meets another hash under its number, and its row keeps the evidence invariant |
| `EvidenceHistory.ReuseIsSafeExactlyWhen` | src/analytics/savings-history.ts:161-221 | for given address sets, reuse keeps the evidence invariant on every chain, history and window if and only if the source scans every address of the target |
| `EvidenceHistory.UnscannedAddressIsMissed` | src/analytics/savings-history.ts:161-221 | for any address that the source does not scan, a concrete chain and history after which the reused window lacks a log |
| `EvidenceHistory.EvidenceAlwaysHolds` | src/indexer/service.ts:541-772 | the evidence invariant holds at every state of every history |
| `EvidenceHistory.CompleteTablesAreExact` | src/indexer/planner.ts:113-131 | under the invariant, a gap-free window stores exactly the chain's logs of the scope, each that decodes with an event of its own block number, transaction hash, log index and decoded fields, and no other event, and their true block rows |
| `EvidenceHistory.ExactEvidence` | src/indexer/service.ts:541-772 | at every reachable state "no gaps" implies exact evidence |
| `EvidenceHistory.CompleteHistoriesAgree` | src/indexer/service.ts:541-772 | two histories that leave a window gap-free store the same logs and events in it |
| `EvidenceHistory.GapFreeCheckpoint` | src/indexer/service.ts:487-504 | with starts that never fall within a scope, the blocks from the latest start to the checkpoint have no gap at any reachable state |
| `EvidenceHistory.CheckpointNeverGoesBack` | src/indexer/service.ts:487-504 | no history moves a stored checkpoint backwards |
| `RunEnvironment.Environment.GetLogs` | src/indexer/service.ts:137-143 | the call is answered as its turn says: a failing turn's own failure, or exactly the chain's logs of the scope's addresses in the range |
| `FetchPolicy.ShrinkStep` | src/indexer/service.ts:147-154 | each range failure shrinks the size, and by the budget that pays for its retries |
| `FetchPolicy.SpentExactlyWhen` | src/indexer/service.ts:145-172 | the attempt counter reaches the limit exactly when that many passing failures in a row, uninterrupted by a shrink, came before |
| `FetchPolicy.FailureIsAnswered` | src/indexer/service.ts:145-172 | the policy gives up on a failure exactly when the calls so far make it one beyond remedy, and otherwise goes on at the size they leave |
| `FetchPolicy.KeepsTrying` | src/indexer/service.ts:120-172 | one more failure either leaves a state whose size, retries and budgets are what the calls so far demand, or gives up with that failure's error |
| `FetchPolicy.FetchLogsWithPolicy` | src/indexer/service.ts:120-172 | returns a non-empty prefix of the request with exactly its logs, at the size its range failures leave; goes on after every bearable failure and gives up only on the last one: a passing error at the end of more passing failures in a row than retries, a range error at size one, any other at once; with finite retries makes at most size times (retries + 1) calls, and digits-of-size times (retries + 1) when no failure advertises a limit |
| `FetchPolicy.BitsIsLogarithm` | src/indexer/planner.ts:23-26 | the digit count in that bound is the binary logarithm, rounded down, plus one |
| `Ingestion.FetchBlocks` | src/indexer/service.ts:696-723 | fetches exactly the blocks that the chunk's logs name, one for each number, through the pooled header fetch |
| `Ingestion.FetchChunk` | src/indexer/service.ts:690-733 | a ready chunk is exactly served, of the full size that its turns' range failures leave, and anchored exactly when it ends the request or an anchor is due, with no failed call passed over; it is cut off only at the last turn, and throws only for a failed turn it took, a passing log failure only after more of them in a row than retries, or the signal |
| `Ingestion.StoreChunk` | src/indexer/service.ts:736-755 | the chunk is committed exactly when a turn is left, no stored block has another hash and the commit was not refused; it counts as stored exactly when commit and run update were both acknowledged; a drift error comes exactly from a drift |
| `Ingestion.PlanBatch` | src/indexer/service.ts:654-667 | the batch is a chain of consecutive ranges of the full size that fills the concurrency or ends the request |
| `Ingestion.RunStateStep` | src/indexer/service.ts:736-754 | one more stored chunk keeps the run's invariant |
| `RunTraces.RunTurnsAppend` | src/indexer/service.ts:690-755 | one more fetched and committed chunk extends the account of the turns that each chunk took |
| `RunTraces.TurnsAfterChunk` | src/indexer/service.ts:736-755 | where a run goes on after a chunk was tried: behind it when its commit was acknowledged, and else at it, with the size its failures left |
| `Ingestion.StoreInRun` | src/indexer/service.ts:736-755 | an acknowledged chunk joins the run's trace, an unacknowledged one exactly when it was committed; the run's invariant holds either way, and a chunk that is not stored has its reason |
| `Ingestion.ConsumeOne` | src/indexer/service.ts:690-755 | one consumed result keeps the run's invariant and the account of its turns; the reported next block and size are exactly those of the trace, but for a chunk whose commit was not acknowledged; not storing has its reason |
| `Ingestion.ConsumeBatch` | src/indexer/service.ts:690-758 | a batch, even one broken by a shortened range, leaves a contiguous trace whose chunks carry anchors exactly where they belong and the size that the range failures before them left, and advances, or stops for a reason; it takes at most five serving turns for each block |
| `Ingestion.CheckRun` | src/indexer/service.ts:572-606 | the checks pass exactly when the head was answered and reaches the request, the request is in order and the checkpoint hash matches; each refusal comes exactly under its own condition, the earlier check first, and the run is killed only at the last turn |
| `Ingestion.RunBatches` | src/indexer/service.ts:649-759 | replanning reaches the request's end, or stops for a reason, with every turn accounted for; an early abort and a non-positive size stop it before any call |
| `Ingestion.FinishRun` | src/indexer/service.ts:649-772 | a run that has begun completes with its trace at the end and no failed statement passed over, is interrupted only under the signal, and throws only without it and for a reason |
| `Ingestion.UnobstructedFinishes` | src/indexer/service.ts:541-772 | a run that stops only for reasons ends "noop" or "completed" although requests for logs fail, as long as no more of them fail in a row than there are retries, nothing else fails, enough turns serve, the request is in order within the head and the tables are honest |
| `Ingestion.DriftMeansDishonest` | src/indexer/service.ts:191-197 | a run that meets a block-hash drift started on dishonest tables |
| `Ingestion.IngestLogs` | src/indexer/service.ts:541-772 | whatever happens, the tables are the old ones moved by a contiguous trace of exact, full-sized chunks from the resume point, with an anchor on the last chunk of the request and after every interval of chunks; the turns it took are accounted for, each chunk at the size its range failures leave; "noop" is the outcome exactly when all checks pass and nothing is left to do, each refusal exactly under its condition, and "completed" means that the trace passes the end and leaves the anchor there; an interrupted run reports exactly where its trace goes on; a run is killed only at its last turn, throws only for a stated reason, and finishes when nothing but bearable log failures obstructs it |
| `Ingestion.LastAnchorIsKept` | src/indexer/service.ts:487-504 | the checkpoint holds the last anchor of the trace |
| `Ingestion.EarlierAnchorIsKept` | src/indexer/service.ts:487-504 | a trace without anchors leaves the earlier anchor |
| `Ingestion.UnfinishedRunKeepsAnchor` | src/indexer/service.ts:724-754 | a run cut off before its end leaves the anchor of the last chunk that filled an interval, or the earlier anchor when none did |
| `Ingestion.CommitAllCoverage` | src/indexer/service.ts:474-486 | a trace adds exactly its own blocks to the scope's coverage |
| `Ingestion.TraceTiles` | src/indexer/service.ts:649-759 | a trace scans exactly the blocks from its start to its end |
| `Ingestion.FinishedRunCovers` | src/indexer/service.ts:607-627 | a finished run covers its request if and only if the blocks between the requested start and the resume point were covered before |
| `Ingestion.TraceKeepsEvidence` | src/indexer/service.ts:354-512 | a whole trace of exact chunks keeps the evidence invariant |
| `Ingestion.FinishedRunIsExact` | src/indexer/service.ts:541-772 | after any history, a finished run, failovers included, that asks for no earlier start covers its whole request with exact evidence |
| `Ingestion.SteppingBackLeavesGap` | src/indexer/service.ts:607-627 | a concrete earlier start ends "noop" with a gap |
| `Ingestion.RunIsLegalHistory` | src/indexer/service.ts:649-759 | a run's trace is a legal stretch of history, and its resume point afterwards is its end |
| `Ingestion.TraceContinues` | src/rpc/provider-failover.ts:45-48 | the next provider resumes where the trace ended, so the two traces are one |
| `Ingestion.RunWithProviderFailover` | src/rpc/provider-failover.ts:37-62 | the journal shows one run for each provider in turn, all but the last ending in an exhausted quota, and the last ending otherwise unless no provider is left; switching continues one contiguous trace |
| `WorkerPool.EveryInterleavingMaps` | src/indexer/service.ts:221-241 | under every interleaving the finished pool holds each value's own answer exactly when some worker ran or there was nothing to do, after one turn for each value and worker |
| `WorkerPool.MapWithConcurrency` | src/indexer/service.ts:221-241 | the pool run with arbitrarily chosen turns ends, and returns each value's own answer in order |
| `WorkerPool.PossibleIsConsistent` | src/indexer/service.ts:221-241 | every claimed index is answered or in flight at exactly one worker, in every reachable pool |
| `WorkerPool.NeverStuck` | src/indexer/service.ts:221-241 | an unfinished pool can always take a turn |
| `WorkerPool.WidthsSuffice` | src/analytics/usdp-supply.ts:518-537 | the indexer's pool always has a worker for its work; the supply pool exactly for positive concurrency |
| `WorkerPool.SliceBatches` | src/indexer/service.ts:344-346 | the batches flatten to the requested numbers and respect the batch size |
| `WorkerPool.BatchedBlocksKeepOrder` | src/indexer/service.ts:337-352 | however the batches interleave, the flattened answers are the requested numbers' blocks in request order |
| `WorkerPool.BlocksByNumber` | src/indexer/service.ts:696-723 | fetches each named number once, singly or in batches, and pairs every number with its own block |
| `SavingsMath.ClosedForm` | src/protocol/savings-math.ts:4-25 | updated assets are the floor of balance times polynomial over base: the inner divisions lose nothing |
| `SavingsMath.GrowthMeans` | src/protocol/savings-math.ts:1-25 | the polynomial written out, over ten to the 27th |
| `SavingsMath.PowerRounding` | src/protocol/savings-math.ts:13-15 | both powers of the rate are rounded to the nearest, ties upward |
| `SavingsMath.UpdatedAssetsMonotone` | src/protocol/savings-math.ts:9-24 | assets never fall with elapsed time and start at the balance |
| `SavingsMath.SplitAccrualBound` | src/protocol/savings-math.ts:4-25 | accruing once exceeds accruing in two steps by less than a stated bound |
| `YieldIntegration.FoldConserves` | src/analytics/yield-reconciliation.ts:73-99 | along the replayed events, emitted interest is the sum of the accruals, the actual assets move by exactly interest, deposits and withdrawals, and counted yield grows as predicted interest does |
| `YieldIntegration.IntegrateSegmentedRateWindow` | src/analytics/yield-reconciliation.ts:46-120 | the loop computes the fold of the sorted events, with the same errors |
| `YieldIntegration.IntegrationInClosedForm` | src/analytics/yield-reconciliation.ts:60-119 | every field of the result as a sum over the ordered events: each accrual predicts what the balance before it earns at the last rate since the accrual before it |
| `YieldIntegration.FirstFaultIsThrown` | src/analytics/yield-reconciliation.ts:73-99 | the first event out of time or overdrawing the balance is what is thrown |
| `YieldIntegration.IntegrationSucceedsExactlyWhen` | src/analytics/yield-reconciliation.ts:51-99 | integration succeeds if and only if the boundaries are in order and no event is at fault |
| `YieldIntegration.ExactAccrualsHaveNoVariance` | src/analytics/yield-reconciliation.ts:79-90 | a window whose accruals all are what was earned since the one before has no variance |
| `YieldIntegration.IntegrationForgetsInputOrder` | src/analytics/yield-reconciliation.ts:66-70 | with keys that tell events apart the input order does not matter |
| `YieldIntegration.ReplayForgetsOrderExactlyWhen` | src/analytics/yield-reconciliation.ts:66-70 | every input order is replayed alike if and only if the keys tell the events apart |
| `YieldIntegration.TiedKeysExposeInputOrder` | src/analytics/yield-reconciliation.ts:66-70 | with equal keys it can matter |
| `YieldIntegration.ChainOrderSurvivesExactlyWhen` | src/analytics/yield-reconciliation.ts:66-70 | events in block order are replayed in that order if and only if no later event of the same second has a smaller log index |
| `YieldIntegration.InvertedSecondThrows` | src/analytics/yield-reconciliation.ts:66-99 | a concrete inverted second that succeeds in chain order and throws in the replay |
| `YieldIntegration.WindowSplitLaw` | src/analytics/yield-reconciliation.ts:46-120 | cutting a window in two gives the same errors, the same end state and exactly adding yields and accruals |
| `YieldIntegration.ReconciliationIdentity` | src/analytics/yield-reconciliation.ts:60-119 | yield plus variance is emitted interest plus the change in pending yield, and assets move by interest, deposits and withdrawals |
| `NaturalYield.ApplyNeverShrinks` | src/analytics/yield-reconciliation.ts:79-99 | an accrual or a deposit, or any event at the latest accrual, never lowers the yield counted to its time |
| `NaturalYield.YieldNeverShrinks` | src/analytics/yield-reconciliation.ts:60-108 | along the whole fold that yield never falls, when withdrawals and rate changes come at the latest accrual |
| `NaturalYield.IntegratedYieldIsNatural` | src/analytics/yield-reconciliation.ts:60-108 | a window that opens on the predicted total has a yield of at least zero, if it opens on its last update or some accrual precedes every withdrawal and rate change |
| `NaturalYield.NaturalYieldExactlyWhen` | src/analytics/yield-reconciliation.ts:60-108 | a schedule in key order guarantees that for all opening states on their prediction and all natural amounts if and only if that condition holds |
| `NaturalYield.EarlyLoweringLosesYield` | src/analytics/yield-reconciliation.ts:60-108 | for every other schedule and every opening state with something pending, natural amounts with a negative yield |
| `NaturalYield.UnaccruedRateCutLosesYield` | src/analytics/yield-reconciliation.ts:97-99 | without the accrual a rate cut makes the yield negative |
| `YieldReconciliation.InterestTelescopes` | src/analytics/multichain-yield.ts:83-95 | interest over half-open block windows telescopes |
| `YieldReconciliation.AdjacentWindowsAdd` | src/analytics/multichain-yield.ts:83-102 | two published adjacent windows make a publishable union with exactly the summed yield |
| `YieldReconciliation.SavingsYieldExactlyWhen` | src/analytics/multichain-yield.ts:42-102 | which result a window of given rows, snapshots and accruals gets, in which order the reasons against it count, and what is published otherwise |
| `PublishedYield.StoredInterestIsTheChains` | src/analytics/multichain-yield.ts:83-95 | over a gap-free window the interest query sums exactly the chain's accruals |
| `PublishedYield.PublishedYieldIsTheChains` | src/analytics/multichain-yield.ts:42-102 | end to end: whatever history filled the tables, a published yield is the chain's interest plus the change in pending yield |
| `PublishedYield.PublishedExactlyWhen` | src/analytics/multichain-yield.ts:42-102 | which result a window gets, by conditions on the request, the coverage, the snapshots and the chain alone |
| `PublishedYield.ChainAccrualsAre` | src/analytics/multichain-yield.ts:83-95 | the accruals summed are the chain's "Accrued" events of the savings role behind the start block and up to the end block |
| `PublishedYield.HistoriesPublishAlike` | src/analytics/multichain-yield.ts:42-102 | two histories publish a window alike, unless one still has a gap in it |
| `YieldReconciliation.YieldAggregate.Reconcile` | src/analytics/yield-reconciliation.ts:313-371 | the stored status is the verdict's, never "candidate"; a thrown integration stores nothing |
| `YieldReconciliation.VerifiedSegmentedMeaning` | src/analytics/yield-reconciliation.ts:322-337 | a verified segmented row's yield delta is minus the accrual variance, it is exact exactly when that is zero, its assets balance, and its end rate and pending yield are the predicted ones |
| `YieldReconciliation.SegmentedVerdictExactlyWhen` | src/analytics/yield-reconciliation.ts:313-337 | a row without a stable basis is verified if and only if predicted total, actual assets and rate agree with the end snapshot and the emitted interest with the recorded one, exact or not in its yield, and throws what the integration throws |
| `YieldReconciliation.ConstantVerdictExactlyWhen` | src/analytics/yield-reconciliation.ts:122-172 | a row with a stable basis is verified if and only if its boundaries are in order, both totals are predicted and their difference is the yield |
| `YieldReconciliation.VariantRowVerifies` | src/analytics/yield-reconciliation.ts:323-334 | a verified row for every accrual variance |
| `YieldReconciliation.VerifiedRowsCompose` | src/analytics/yield-reconciliation.ts:313-337 | two adjacent rows that the code verified by integration make a row that it verifies, with added yield deltas, when the shared snapshot has the integrated last update |
| `YieldReconciliation.StableRowsCompose` | src/analytics/yield-reconciliation.ts:122-172 | two adjacent rows that the constant-rate check verified make one that it verifies |
| `YieldReconciliation.StableRowJoinsNext` | src/analytics/yield-reconciliation.ts:122-172 | an eventless row that the constant-rate check verified joins to every row that integration verified |
| `YieldReconciliation.RowJoinsStableNext` | src/analytics/yield-reconciliation.ts:122-172 | a row that integration verified joins to an eventless row that the constant-rate check verified, when the shared snapshot has the integrated last update |
| `YieldReconciliation.RowAlwaysJoinsExactlyWhen` | src/analytics/yield-reconciliation.ts:313-371 | a verified row joins to every verified row that can follow it if and only if its end snapshot's last update is the integrated one or lies after the snapshot |
| `YieldReconciliation.UncheckedLastUpdateBreaksJoining` | src/analytics/yield-reconciliation.ts:313-371 | behind every other verified row, a concrete verified row from its own snapshots and natural events whose join the code finds invalid |
| `YieldReconciliation.ClaimedUpdateVerifies` | src/analytics/yield-reconciliation.ts:313-371 | for every balance and rate, a verified row of that kind |
| `YieldReconciliation.VerifiedConstantIsSegmentedOfNothing` | src/analytics/yield-reconciliation.ts:122-172 | on a stable basis the constant-rate check verifies exactly when the start total is predicted and integrating no events is exact |
| `YieldIntervals.AggregateContiguousYieldIntervals` | src/analytics/range-analytics.ts:90-142 | the result is the summary of the greedy pick from the usable intervals in order |
| `YieldIntervals.PickInOrder` | src/analytics/range-analytics.ts:109-122 | the loop with its skips and exits computes the greedy pick |
| `YieldIntervals.CompleteIsTolerantTiling` | src/analytics/range-analytics.ts:96-137 | picks start, join and end within the tolerance, advance by more than it, use no invalid interval, and their durations add up within one tolerance per pick |
| `YieldIntervals.SummaryMeans` | src/analytics/range-analytics.ts:123-142 | status, completeness, verification, sum, identifiers and covered end of the picks, each exactly under its condition |
| `YieldIntervals.PicksAreForced` | src/analytics/range-analytics.ts:96-122 | complete or not, each pick is the first usable interval, and the longest of those, that continues from the end of the one before; picking ends only at the end of the range or where nothing continues |
| `YieldIntervals.PicksAreLongest` | src/analytics/range-analytics.ts:104-122 | every pick is the longest usable interval with its start |
| `YieldIntervals.TilingIsSelectedExactlyWhen` | src/analytics/range-analytics.ts:96-137 | an exact tiling with pieces longer than the tolerance, however shuffled or repeated, is selected whole if and only if no usable interval overtakes one of its pieces |
| `YieldIntervals.SelectedTilingIsComplete` | src/analytics/range-analytics.ts:123-142 | such a tiling is published complete, with its whole sum |
| `YieldIntervals.GreedyMissesOverlappedTiling` | src/analytics/range-analytics.ts:109-122 | among overlapping intervals an existing tiling can be missed |
| `PinnedWindows.FindBlockAtOrAfterTimestamp` | src/indexer/service.ts:774-788 | with non-decreasing timestamps the search returns the least block at or after the target, or the head |
| `PinnedWindows.SearchIsPinned` | src/indexer/service.ts:774-788 | a later head gives the same block if and only if the earlier head had reached the target |
| `PinnedWindows.ResolveAlignedSavingsHistoryRanges` | src/analytics/savings-history.ts:73-143 | all chains share one window no later than any finalized head, each resolved to its own first blocks; each error is returned exactly under its condition |
| `PinnedWindows.PinnedWindowIsStable` | src/analytics/savings-history.ts:106-126 | a pinned window resolves to the same blocks under any later head |
| `PinnedWindows.AdjacentPinnedWindowsAdd` | src/analytics/savings-history.ts:113-126 | adjacent windows share their boundary block and their yields add exactly |
| `HolderReplay.ReplayHolderTransfers` | src/analytics/holders.ts:50-173 | the replay returns, row by row and counter by counter, what the ordered transfers mean, or the first fault |
| `HolderReplay.MovesAgree` | src/analytics/holders.ts:106-131 | on the ledger that the earlier transfers mean, a debit is refused exactly when the balance does not cover it, and otherwise debit and credit together give the next ledger, with a holder turning positive exactly when the reference says so |
| `HolderReplay.LedgerStep` | src/analytics/holders.ts:106-131 | debiting the sender and crediting the recipient turns the reference ledger of a prefix into the one of the longer prefix |
| `HolderReplay.CountedIsMetric` | src/analytics/holders.ts:89-146 | the counters step turns a prefix's metric into the longer prefix's |
| `HolderReplay.ThrowsAtFirstFault` | src/analytics/holders.ts:85-120 | the replay succeeds if and only if every transfer is well formed and every debit covered at that moment, and otherwise throws for the first that is not |
| `HolderReplay.BalancesTotal` | src/analytics/holders.ts:130-137 | balances over all participants total minted minus burned |
| `HolderReplay.ReplayConserves` | src/analytics/holders.ts:85-147 | every row is inflow minus outflow and at least zero, and each asset's rows total minted minus burned |
| `HolderReplay.ReplayCounts` | src/analytics/holders.ts:149-172 | rows equal unique participants, who are the senders and receivers; active holders are at most new holders, who are at most unique receivers |
| `HolderReplay.ReplayForgetsInputOrder` | src/analytics/holders.ts:79-83 | with distinct positions the whole result is the same for every input order |
| `HolderMeaning.RowsMean` | src/analytics/holders.ts:106-147 | exactly the non-zero parties of the transfers have a row; it holds the sum received less the sum sent, the block of the first transfer that left it positive, and the block of the last that touched it |
| `HolderMeaning.CountersMean` | src/analytics/holders.ts:89-172 | every counter as a sum or count over the transfers as given, and the tight window of the asset's timestamps |
| `HolderMeaning.CountedSets` | src/analytics/holders.ts:106-163 | who is counted as sender, receiver, new and active holder |
| `HolderMeaning.OrderMeans` | src/analytics/holders.ts:79-83 | the replay goes by block and then by log index |
| `HolderMeaning.FaultMeans` | src/analytics/holders.ts:85-120 | which fault a transfer is, by its value, its addresses and the sums before it |
| `EventClassification.GroupTransactions` | src/analytics/economic-events.ts:217-224 | the grouping loop holds every transaction's events in order, under its lower-case hash, in order of first appearance |
| `Text.LoweredExactlyForgetsCase` | src/analytics/economic-events.ts:218-221 | lowering identifies exactly the texts that differ only in letter case |
| `EventClassification.ClassifyProtocolTransactions` | src/analytics/economic-events.ts:217-244 | the loops emit transaction by transaction in log order, or the first malformed event |
| `EventClassification.GroupingPermutes` | src/analytics/economic-events.ts:217-229 | grouping, sorting and flattening permute the events |
| `EventClassification.TransactionsStayTogether` | src/analytics/economic-events.ts:226-229 | events are emitted transaction by transaction in order of first appearance, and inside one in log order |
| `EventClassification.EventsKnowTheirTransaction` | src/analytics/economic-events.ts:228-242 | every emitted event carries the number and the ordered names of all events of its own transaction |
| `EventClassification.GroupingKeepsEveryEvent` | src/analytics/economic-events.ts:217-244 | classification throws exactly when an event is malformed, and otherwise emits what classifying events in place would, in some order |
| `EventClassification.FlowsForgetTransactions` | src/analytics/economic-events.ts:217-308 | flow rows depend neither on event order nor on transaction grouping |
| `NativeFlows.BucketStart` | src/analytics/economic-events.ts:252-257 | the start is aligned to the width and the time lies in its bucket |
| `NativeFlows.AggregateNativeFlows` | src/analytics/economic-events.ts:259-308 | each row holds its bucket's total, count and number of participants; the first native flow without an amount throws |
| `NativeFlows.RowsInPlainTerms` | src/analytics/economic-events.ts:259-308 | which rows there are, and each as plain sums and a set of lower-case names over the events |
| `NativeFlows.FirstMissingAmountThrows` | src/analytics/economic-events.ts:274-277 | the first native event without an amount is what is thrown, and nothing else is |
| `NativeFlows.DaysAreTheirHours` | src/analytics/economic-events.ts:252-308 | a day's amount and count are its hours' sums, its participants lie between the hourly maximum and sum, and every hour lies in a day |
| `NativeFlows.GrandTotal` | src/analytics/economic-events.ts:272-291 | at either granularity the rows together hold exactly the native amounts and their number |
| `NativeFlows.FlowsForgetInputOrder` | src/analytics/economic-events.ts:259-308 | success and rows are the same for every input order |
| `SupplyAlignment.ExpectedIsPartitioned` | src/analytics/usdp-supply.ts:344-381 | expected chains are exactly the included, the missing, and the stale or failed, without overlap |
| `SupplyAlignment.CompleteIsACount` | src/analytics/usdp-supply.ts:382-387 | for distinct chains "complete" means as many unexpected chains included as expected ones left out |
| `SupplyAlignment.CompleteMeansNothingExcluded` | src/analytics/usdp-supply.ts:382-387 | on well-posed requests "complete" means that the three exclusion lists are empty |
| `SupplyAlignment.UnexpectedChainHidesMissing` | src/analytics/usdp-supply.ts:382-387 | a component from an unexpected chain can hide a missing one |
| `SupplyAlignment.CompleteIsTrustedExactlyWhen` | src/analytics/usdp-supply.ts:344-387 | for distinct chains and any age and skew limits, "complete" means three empty exclusion lists for all component times if and only if there are fewer verified components than expected chains, or nothing failed and every component is verified and expected |
| `SupplyAlignment.TotalIsTheIncludedChains` | src/analytics/usdp-supply.ts:388-391 | the total is the sum, over the included chains, of what each reported |
| `SupplyAlignment.IncludedAreAligned` | src/analytics/usdp-supply.ts:382-420 | the reported skew is the whole seconds between the extremes and at most twice the allowed offset plus one, the reported age is that of the oldest included component and within the allowed age, and the status is "complete" exactly on equal counts and "unavailable" exactly when nothing was included but something expected |
| `SupplyAlignment.StaleMeans` | src/analytics/usdp-supply.ts:344-360 | a component is stale exactly when it is older than the allowed age or further off than the allowed skew, in whole seconds |
| `SupplyAlignment.ListsAscend` | src/analytics/usdp-supply.ts:344-381 | the four chain lists ascend |
| `SupplyAlignment.IncludedKeepOrder` | src/analytics/usdp-supply.ts:361-381 | the included components are all verified, fresh ones, in the order given |
| `SupplyAlignment.SkewBoundIsMet` | src/analytics/usdp-supply.ts:344-360 | the skew bound is reached for every allowed offset |
| `SupplyAlignment.AggregateForgetsOrder` | src/analytics/usdp-supply.ts:336-436 | apart from the order of the included list the aggregate ignores the order of its components |

## Left out

- RPC clients, HTTP batching, ABI decoding: the decoder is an arbitrary function, the provider a script of answers.
- Error messages: only the resulting class and a positive optional advertised limit are modelled.
- Retry delays, request spacing, timeouts and wall clocks: they decide when a call happens, not what is stored.
- `Ingestion.FetchBlocks`: the retries of a header or header batch, and the failure of any one of them, collapse into one turn before the fetch, which succeeds or fails with the final error.
- The `indexer_runs` rows, progress callbacks and run counters, other than the chunk count that places anchors.
- A failing update of the run record inside the error handlers, which would replace the reported outcome but not the tables.
- Logs without a mined position and the `removed` flag: the chain's finalized logs are complete.
- Several chains in one database: the tables are those of one chain, as every statement fixes the chain identifier.
- Hashes and addresses in mixed case inside the tables: they are taken as already lower-case; the holder replay and the classification do lower theirs.
- Fractional chunk sizes: sizes are integers, positive or not.
- The payload field that holds the interest: an arbitrary reader of decoded payloads.
- The choice among snapshots of one block and the insert of the yield row: a block has at most one snapshot, and the window's result is a value.
- `classifyEvent`: an arbitrary function that may throw, pass over or classify; its payload branching is flat.
- The presentation order of flow rows, balances and activity: they are maps. `Ingestion.FetchBlocks` and `Planner.VerifyCoverage` list rows in no fixed order, which their readers do not observe.
- Greedy interval picking when the usable intervals hold no exact tiling: `YieldIntervals.PicksAreForced` says what is picked, and nothing is claimed of how much of the range another choice would cover; the last pick may run past the range's end.
- `WorkerPool.MapWithConcurrency`: a mapper that fails, which rejects the whole call, is not modelled.
- `Ingestion.RunWithProviderFailover`: a provider differs from another only in its chunk size; the failover callback is left out.
- Persisting the global supply snapshot, payload and dashboard builders, health labels, configuration and address registries: flat branching or constant data.
