# Transaction monitoring: verified models of the backend's core

Dafny models of the Cardano transaction-monitoring backend: the circular-transfer detector, the scoring engine and the
rollback purge that meets it in the warehouse, the two lookup caches, the grouped alerts and KPI read paths, the guards
on learned baselines, the dedup migration, the Plutus datum walk and the rate limiter. `dafny verify dfyconfig.toml`
checks everything.

ClickHouse and Postgres tables are sequences, sets and maps. Python floats are reals. Queries, clocks, the raw store,
scorers and failures are inputs, so a theorem about a run holds for every answer, delay and failure they can have.
Loops and objects that change state in the source are methods and classes here, each tied by its `ensures` to a function
of the old state; the properties are lemmas about those functions. What such a function means is also stated in the
fields of its inputs, without naming it, so that the function and the method cannot be wrong alike.

| file | models |
|---|---|
| `SubsetSums.dfy`, `ClosingReading.dfy` | which amount of a closing transaction counts as its ring leg |
| `CycleSearch.dfy` | the bounded search for a circular transfer and the recovery of the ring |
| `Engine.dfy`, `EngineRuns.dfy` | one tick of the scoring engine, and runs of ticks |
| `RollbackPurge.dfy`, `RollbackRaces.dfy` | purge, insert and repurge alone, and interleaved with the engine |
| `LookupCaches.dfy`, `PolicyCache.dfy` | caches whose table read happens outside the lock |
| `GroupedPage.dfy`, `Verdicts.dfy`, `GroupReconcile.dfy`, `KpiReconcile.dfy` | the grouped page, and the patches that add sidecar verdicts to groups and KPIs |
| `Baselines.dfy` | normalisation, caps on learned baselines, the drift guard |
| `DedupMigration.dfy` | the crash-safe migration of a table |
| `DatumTree.dfy` | the budgeted walk of a datum |
| `RateLimit.dfy` | the sliding-window limiter and its cleanup |
| `Collections.dfy` | shared vocabulary |

## What turned out to hold only under a condition

Each of these is stated as an if-and-only-if with the condition, or as a concrete case in which the promise fails.

- The closing reading's candidates skip a zero output's own sum 0. Up to the output limit it beats every non-empty part of
  the payment exactly when no output is zero, the other hops are empty, or the total, the matched row or some positive
  output fits at least as well as 0 (`ClosingReading.BestOfEveryPart`; `ClosingReading.ZeroOutputMissed` is a case).
- With a bounded rescan window, a transaction that the cursor has passed and the window no longer reaches is never
  fetched again (`EngineRuns.NextPollReaches`, `EngineRuns.BeyondReach`); two ticks from start-up get there
  (`EngineRuns.TransactionLost`).
- The cursor passes a transaction only after it was fetched, unless a bounded rescan does not look back to it
  (`EngineRuns.PassedOnlyIfFetched`); such a rescan takes the cursor past an unscored backlog older than the window, which
  is then lost (`EngineRuns.RescanSkips`, `EngineRuns.BacklogLost`).
- A payload column that is empty and not flagged as truncated is scored without its payload and without a marker
  (`EngineRuns.SilentlyIncomplete`, `EngineRuns.SilentRowWritten`).
- The payload attempt budget starts afresh inside every scoring attempt, so the bound on deferral is the product of the
  two budgets, and it is reached (`EngineRuns.BoundIsExact`). A failed insert of the row gives both budgets back
  (`EngineRuns.FailedInsertStartsOver`).
- If persisting the repurge hashes fails after the purge went through, the rollback that is sent again selects nothing
  and the repurge is lost (`RollbackRaces.PersistFailureBlocks`, reached by `RollbackRaces.PersistFailureRun`); a batch
  held longer than the repurge delay has the same effect (`RollbackRaces.LateBatchBlocks`, `RollbackRaces.LateBatchRun`),
  and so has a second purge of a transaction between the first repurge's delete and its clearing, when the process
  restarts before the second repurge (`RollbackRaces.SecondPurgeBlocks`, `RollbackRaces.SecondPurgeRun`). Without these
  three, and without a restart between purge and persist, no run blocks a transaction
  (`RollbackRaces.NothingBlocksRescoring`).
- An insert in flight during a purge of its own transaction leaves an orphan (`RollbackRaces.OverlapOrphans`,
  `RollbackRaces.OverlapRun`); chain sync takes turns, the address backfill does not.
- A datum whose maps repeat a key loses the earlier values in the CBOR decoder and keeps them in the JSON form
  (`DatumTree.NormalIffDistinct`, `DatumTree.SameTree`).
- A lookup after `insert_baselines` sees the insert exactly when no fill in flight had read the table before
  (`LookupCaches.InsertSeenIffNoOverlap`, `LookupCaches.InsertMissed`).
- A row that still carries the legacy band label passes the Python filter for Informational but not the SQL one, so its
  group is short by it (`GroupReconcile.CountExact`, `GroupReconcile.LegacyLabelUndercounts`).
- The guard on a baseline's tail does not bound a step from a tail of 0 (`Baselines.TailGuardedIffPositive`), and a
  lookup that misses a stored baseline bounds nothing (`Baselines.MissedPriorUnguarded`).
- `argMax` picks each column on its own, so the collapsed row is determined exactly when a key's newest rows agree
  (`DedupMigration.DeterminedIffAgree`).
- Legacy rows stranded under the working name survive an applied migration exactly when the live table needs no rebuild;
  a v2 table with narrow count columns does (`DedupMigration.StrandedKeptIffNoRebuild`).

## Model

| member | source | states |
|---|---|---|
| SubsetSums.AllSubsetSums | backend/app/analysis/graph.py:580-585 | the set holds a number exactly when some selection of the amounts adds up to it |
| SubsetSums.NearestSubsetSums | backend/app/analysis/graph.py:588-609 | the two answers are the largest positive subset sum at or below the target and the smallest at or above it over the whole exponential family, absent exactly when there is none |
| SubsetSums.MeetingIsAllSums | backend/app/analysis/graph.py:588-609 | the pairs of half sums that the bisections range over are exactly the subset sums of the undivided list |
| SubsetSums.LowerAnswerExact | backend/app/analysis/graph.py:588-609 | the lower answer is the largest non-empty subset sum exactly when something was found or no amount is zero |
| SubsetSums.UpperAnswerExact | backend/app/analysis/graph.py:588-609 | the upper answer is the smallest non-empty subset sum whatever the amounts |
| ClosingReading.SimilarityFromUnevenness | backend/app/analysis/graph.py:786-796 | every clipped 1 - CV lies in [0, 1], and its squared distance from 1 is a rational function of the hops' sum and sum of squares |
| ClosingReading.LessUnevenIsMoreSimilar | backend/app/analysis/graph.py:786-796 | comparing that root-free quantity orders the similarities, in both directions |
| ClosingReading.EvenestAtPeak | backend/app/analysis/graph.py:546-577 | moving the last hop away from sum of squares over sum, on either side, never makes the hops more even |
| ClosingReading.NearerIsMoreEven | backend/app/analysis/graph.py:546-577 | of two last hops on the same side of that peak, the nearer reads at least as similar |
| ClosingReading.NearestSumsSuffice | backend/app/analysis/graph.py:566-577 | a candidate that beats the nearest sum on each side of the peak beats every positive subset sum |
| ClosingReading.FirstBestFit | backend/app/analysis/graph.py:546-577 | the choice among candidates is one of them, at least as similar as each, and the first of them on a tie |
| ClosingReading.ClampedIsNearest | backend/app/analysis/graph.py:546-577 | the candidate past the output limit is at most the total, at least some output, and of the whole amounts from any output up to the total none is nearer to sum of squares over sum |
| ClosingReading.Reading | backend/app/analysis/graph.py:546-577 | the reading is at least as similar as the total, the matched row and, up to the output limit, every positive subset sum, or past it the rounded peak kept between the least output and the total; a tie with the total goes to the total; it is one of these |
| ClosingReading.FitIsSimilarity | backend/app/analysis/graph.py:786-796 | fitting at least as well, as the methods compare, is having at least the similarity |
| ClosingReading.BestOfEveryPart | backend/app/analysis/graph.py:546-577 | up to the output limit the reading beats every non-empty part of the payment exactly when a zero output's own sum is covered, a test on the inputs alone |
| ClosingReading.NothingToMatch | backend/app/analysis/graph.py:546-577 | when the other hops carry nothing, all closing amounts read alike, so taking the total loses nothing |
| ClosingReading.ZeroOutputMissed | backend/app/analysis/graph.py:546-577 | with outputs 0 and 1000, matched row and total 1000 and hops of 10, the reading is 1000 although the part 0 reads better |
| ClosingReading.ClosingLegAmounts | backend/app/analysis/graph.py:478-543 | total, reading and failure flag on every path; the reading is the one above for the outputs read, and falls back to the matched row when they cannot be |
| CycleSearch.HopRowsMeaning | backend/app/analysis/graph.py:138-170 | the hop rows are exactly what other in-window transactions spending from the frontier paid, one per address paid |
| CycleSearch.PaidToAddsUp | backend/app/analysis/graph.py:138-170 | a row pays its address the sum of exactly the transaction's outputs there |
| CycleSearch.AnswerIsFirstRows | backend/app/analysis/graph.py:138-170 | on a ledger listed by slot and hash the answer is in (slot, hash, address) order, and a row the limit cuts off comes after all that are kept |
| CycleSearch.ClosesIsChain | backend/app/analysis/graph.py:369-473 | the chains searched for are lists of ledger transactions, the origin first, each later one in the window and spending an address the one before pays, the last paying an address the origin spent from |
| CycleSearch.LeavingAndChange | backend/app/analysis/graph.py:355-361 | however the origin's outputs are divided into those to its own addresses and the others, the first hop's amount is the sum of the others, and with the change it is all that was paid |
| CycleSearch.FreshDisjoint | backend/app/analysis/graph.py:369-473 | each step reaches addresses that no other step does, and none of the origin's |
| CycleSearch.FreshIsReached | backend/app/analysis/graph.py:369-473 | an address first reached by step n ends a real chain of n spends, whatever the caps cut |
| CycleSearch.RowCloses | backend/app/analysis/graph.py:369-473 | a row that pays the origin completes a real chain, whatever the caps cut |
| CycleSearch.OpenSearchHasNoCycle | backend/app/analysis/graph.py:369-473 | a search that no cap cut and no row closed proves there is no chain that short |
| CycleSearch.ExhaustedSearchHasNoCycle | backend/app/analysis/graph.py:369-473 | one that reaches nothing new, when no cap bound, proves there is no chain of any length |
| CycleSearch.FrontiersAreLayers | backend/app/analysis/graph.py:369-473 | while no cap binds, the capped search goes through the breadth-first layers |
| CycleSearch.SmallLedgerUncapped | backend/app/analysis/graph.py:369-473 | on a ledger that pays no more addresses than the fan-out caps and has no more outputs than the row limit, no cap binds |
| CycleSearch.ClosingIsShortest | backend/app/analysis/graph.py:369-473 | the chain closed first is a shortest one when no cap binds |
| CycleSearch.NoCycleWithinHops | backend/app/analysis/graph.py:369-475 | answering none, when no cap binds, proves there is no chain within the hop limit |
| CycleSearch.ScanRows | backend/app/analysis/graph.py:369-473 | one pass over a hop's rows finds the first closing row, the addresses newly reached, who first paid each and how much |
| CycleSearch.NextState | backend/app/analysis/graph.py:369-473 | the search's variables after a hop describe a search one frontier longer |
| CycleSearch.CreatorCarries | backend/app/analysis/graph.py:658-684 | the transaction that first paid an address leading to the close is spent from the frontier below and leads there too |
| CycleSearch.LevelBelow | backend/app/analysis/graph.py:658-684 | one step back along the creators: every lookup is defined and the transactions one level down lead to the close |
| CycleSearch.MeetingDisjointSets | backend/app/analysis/graph.py:658-684 | a set meeting pairwise disjoint frontiers has at least as many elements as there are frontiers |
| CycleSearch.RingPath | backend/app/analysis/graph.py:658-684 | the path avoids the origin, meets every frontier, has at least as many addresses as frontiers, and only addresses on a chain from origin to close |
| CycleSearch.DetectCycle | backend/app/analysis/graph.py:293-475 | any cycle returned is backed by a real chain of its length and closed by an in-window transaction's payment to the origin; its first amount is the sum of the origin's outputs to others, each later one what a hop paid to addresses not seen before, and what came back is read off all outputs of the closing transaction to the origin's addresses; when no cap binds, a cycle is returned exactly when some chain within the hop limit leads back, and it is a shortest |
| CycleSearch.Closure | backend/app/analysis/graph.py:369-475 | the returned cycle's length, amounts, reading and recovered path for the closing row found |
| Engine.BudgetIsPaced | backend/app/analysis/engine.py:312-396 | over any history of events a budget's count stays under the maximum and its last counted attempt is that many retry intervals past its first |
| Engine.GivesUpNoEarlier | backend/app/analysis/engine.py:312-396 | a budget that gives up does so no earlier than max - 1 retry intervals after its first counted failure |
| Engine.ScoringEngine.PollSince | backend/app/analysis/engine.py:261-286 | the poll bound and whether it is a rescan, without changing anything |
| Engine.ScoringEngine.AdvanceWatermark | backend/app/analysis/engine.py:289-309 | the cursor becomes the newest row less the overlap, only if that is higher |
| Engine.ScoringEngine.ResolveRawData | backend/app/analysis/engine.py:312-396 | the rows kept, how each is marked, and the whole new attempt table |
| Engine.ScoringEngine.HandleIncompleteScoring | backend/app/analysis/engine.py:406-484 | the results kept, their markers, and the whole new attempt table, with deferral on or off |
| Engine.ScoringEngine.RunOnce | backend/app/analysis/engine.py:487-611 | the whole state and outcome of a tick under any poll, enrichment, insert or notification failure |
| Engine.WatermarkMoves | backend/app/analysis/engine.py:289-309 | the cursor never falls, stays put in a tick that raises, and moves only once every row of the batch is persisted |
| Engine.WatermarkOnlyRises | backend/app/analysis/engine.py:487-611 | over every run the cursor is monotone |
| Engine.CursorKeepsUp | backend/app/analysis/engine.py:289-309 | after a tick that reached scoring and did not raise, rows written or all deferred, the cursor is set and at most the overlap behind every fetched row |
| Engine.ClockArmed | backend/app/analysis/engine.py:487-611 | the rescan clock is armed exactly by a finished rescan or by a failed rescan poll with a cursor to fall back to |
| Engine.NextRescan | backend/app/analysis/engine.py:261-286 | after a finished rescan, ticks that start within the interval read from the cursor and later ones rescan, bounded by the window if there is one |
| Engine.OutcomeTells | backend/app/analysis/engine.py:487-611 | the count a tick returns, and exactly when it raises |
| EngineRuns.NothingIsDropped | backend/app/analysis/engine.py:487-611 | after a tick that does not raise, every fetched transaction has a row or a counted attempt |
| EngineRuns.CursorPassesNoOther | backend/app/db/clickhouse_scores.py:1032-1097 | the query answering the oldest candidates first, a cursor that moves stays at least the overlap behind every candidate it did not return |
| EngineRuns.PassedOnlyIfFetched | backend/app/analysis/engine.py:261-309 | over every run in which no bounded rescan misses it, whatever else the tables gain or lose, the cursor passes a ready row-less transaction only after a tick fetched it |
| EngineRuns.RescanSkips | backend/app/analysis/engine.py:261-309 | a bounded rescan that misses a transaction by more than the overlap takes the cursor past it whenever it moves the cursor |
| EngineRuns.BacklogLost | backend/app/analysis/engine.py:261-309 | one tick from start-up that does so, and every run after it leaves the transaction unfetched and without a row |
| EngineRuns.RunsAreHonest | backend/app/analysis/engine.py:406-484 | over every run each row's marker names exactly what failed for its transaction |
| EngineRuns.SilentlyIncomplete | backend/app/analysis/engine.py:312-484 | over every run, exactly which rows are neither complete nor marked |
| EngineRuns.SilentRowWritten | backend/app/analysis/engine.py:312-396 | a run from start-up that writes such a row |
| EngineRuns.BoundedPollIsExact | backend/app/db/clickhouse_scores.py:1032-1097 | bounding all three sides of the anti-join by time returns the unbounded answer restricted to transactions at or after the bound |
| EngineRuns.NextPollReaches | backend/app/analysis/engine.py:261-286 | exactly when the next poll can return a given row-less transaction |
| EngineRuns.StaysCandidate | backend/app/analysis/engine.py:261-286 | over every run, and whatever becomes of the transactions table meanwhile, a ready transaction still in it is an unbounded rescan's candidate exactly when the engine wrote it no row |
| EngineRuns.BeyondReach | backend/app/analysis/engine.py:261-286 | one passed by the cursor and outside the window is fetched by no later tick and never gets a row |
| EngineRuns.TransactionLost | backend/app/analysis/engine.py:261-309 | two ticks from start-up that leave a transaction without a row in that state, and every run after them |
| EngineRuns.HistoriesExplain | backend/app/analysis/engine.py:487-611 | after any run the attempt tables are what each transaction's own history of events makes of a fresh budget |
| EngineRuns.PayloadGivenUpNoEarlier | backend/app/analysis/engine.py:312-396 | over every run a payload is given up no earlier than max - 1 retry intervals after its first counted failure |
| EngineRuns.ScoringGivenUpNoEarlier | backend/app/analysis/engine.py:406-484 | the same for incomplete scoring |
| EngineRuns.PollSpends | backend/app/analysis/engine.py:312-484 | a poll outside both retry windows writes the row or lowers the lexicographic measure, by exactly one when everything fails |
| EngineRuns.TickSpends | backend/app/analysis/engine.py:312-484 | the same for a tick that fetches any number of versions of the transaction |
| EngineRuns.SuccessResets | backend/app/analysis/engine.py:312-484 | a payload recovered, or a complete scoring, leaves no attempts counted, and a complete one that inserts has its row at once |
| EngineRuns.DeferralIsBounded | backend/app/analysis/engine.py:312-484 | a transaction polled at least both retry intervals apart, in however many versions a batch holds, has a row after at most the product of the two budgets |
| EngineRuns.FailedInsertStartsOver | backend/app/analysis/engine.py:406-587 | a failed insert of a degraded row leaves no row and both budgets unspent |
| EngineRuns.BoundIsExact | backend/app/analysis/engine.py:312-484 | while everything fails, the row appears with exactly that poll |
| RollbackPurge.Warehouse.DeleteRolledBackTxs | backend/app/db/clickhouse.py:399-436 | every table after any number of statements succeeded; the hashes returned are exactly those past the slot, and nothing of any other transaction changes |
| RollbackPurge.Warehouse.DeleteScoreRows | backend/app/db/clickhouse.py:444-457 | the scores of the hashes are gone and nothing else changed |
| RollbackPurge.Warehouse.InsertTransactionsBatch | backend/app/db/clickhouse.py:192-352 | every table after any number of the insert's statements succeeded |
| RollbackPurge.PurgeKeepsFacts | backend/app/db/clickhouse.py:377-436 | a purge cut anywhere keeps every fact row under a transactions row; a whole one leaves no row past the slot in any table and removes nothing else |
| RollbackPurge.PurgeSpares | backend/app/db/clickhouse.py:399-436 | however many statements succeed, a transaction without a slot or at most at the rollback slot keeps its row, its score and its facts |
| RollbackPurge.PurgeRemoves | backend/app/db/clickhouse.py:399-436 | a whole purge leaves nothing of a transaction past the slot in any table |
| RollbackPurge.RetryCompletes | backend/app/db/clickhouse.py:399-436 | a failed purge followed by a whole one does what one whole purge does |
| RollbackPurge.RetriesComplete | backend/app/db/clickhouse.py:399-436 | and so after any number of partial failures |
| RollbackPurge.InsertKeepsFacts | backend/app/db/clickhouse.py:231-296 | an insert cut anywhere keeps every fact row under a transactions row |
| RollbackPurge.InsertAddsExactly | backend/app/db/clickhouse.py:192-352 | a whole insert gives each table exactly the transactions that bring rows for it and each transaction the slot of its last record, and changes nothing else |
| RollbackRaces.FactsStayExactly | backend/app/db/clickhouse.py:377-436 | of all interleaved steps, exactly those that break that invariant |
| RollbackRaces.TurnsKeepFacts | backend/app/db/clickhouse.py:377-436 | every run in which inserts and purges take turns keeps it, with any statement failing |
| RollbackRaces.OverlapOrphans | backend/app/ingestion/address_backfill.py:427 | an insert overlapping a purge of its transaction leaves an orphan |
| RollbackRaces.OverlapRun | backend/app/ingestion/address_backfill.py:427 | a run from an empty store that does |
| RollbackRaces.CoverExactly | backend/app/ingestion/ogmios_client.py:755-845 | every step keeps stale scores due for deletion except exactly these: persisting fails, or pending hashes are cleared, while one of theirs is left or in flight; or the process restarts with a written one's hashes not yet persisted |
| RollbackRaces.NothingBlocksRescoring | backend/app/ingestion/ogmios_client.py:755-845 | from an empty store, if pending hashes are cleared only after a repurge made while the engine held no older batch of them, no other purge of one of them completes between that repurge and the clearing, and neither a persist failure nor a restart comes between a purge and the persisting of its hashes, no run ever leaves a transaction blocked by a stale score |
| RollbackRaces.RepurgeInTime | backend/app/ingestion/ogmios_client.py:815-845 | a repurge made after the engine let the transactions go leaves nothing stale, and its hashes may be cleared at any later time before another purge of one |
| RollbackRaces.StaysBlocked | backend/app/ingestion/ogmios_client.py:755-845 | a blocked transaction is never fetched and stays blocked over every run in which no repurge deletes its score and no purge holds it |
| RollbackRaces.PersistFailureBlocks | backend/app/ingestion/ogmios_client.py:755-781 | a failure to persist the hashes after a purge leaves a re-confirmed transaction blocked for good |
| RollbackRaces.PersistFailureRun | backend/app/ingestion/ogmios_client.py:755-781 | a run from an empty store that ends so |
| RollbackRaces.LateBatchBlocks | backend/app/ingestion/ogmios_client.py:815-845 | so does a batch scored after the repurge cleared its hashes |
| RollbackRaces.LateBatchRun | backend/app/ingestion/ogmios_client.py:815-845 | a run from an empty store that ends so |
| RollbackRaces.SecondPurgeBlocks | backend/app/ingestion/ogmios_client.py:755-845 | so does clearing a purge's saved hashes on account of an earlier repurge, while what the engine fetched in between is unscored and a restart ends the purge's own repurge |
| RollbackRaces.SecondPurgeRun | backend/app/ingestion/ogmios_client.py:755-845 | a run from an empty store that ends so, with no older batch held at the repurge and nothing unsaved at the restart |
| LookupCaches.BaselineCache.Lookup | backend/app/db/clickhouse.py:702-718 | hit or miss and the new cache, an expired slot dropped |
| LookupCaches.BaselineCache.Fill | backend/app/db/clickhouse.py:738-748 | the new cache, a full one emptied first |
| LookupCaches.BaselineCache.Clear | backend/app/db/clickhouse.py:697-699 | the cache is empty |
| LookupCaches.SlotLives | backend/app/db/clickhouse.py:702-748 | a stored answer is served for exactly the TTL and dropped by the first lookup after it |
| LookupCaches.FillKeepsLimit | backend/app/db/clickhouse.py:738-748 | a fill with room left keeps every other slot, and keeps the cache within its limit |
| LookupCaches.RunsStayWithinLimit | backend/app/db/clickhouse.py:702-749 | so it is over every run |
| LookupCaches.AnswersAreRecent | backend/app/db/clickhouse.py:702-749 | however threads and writers interleave, every answer was the table's value at an instant within the TTL plus the duration of the fill |
| LookupCaches.InsertSeenIffNoOverlap | backend/app/db/clickhouse.py:752-772 | every later lookup in every run sees an insert exactly when no fill in flight had read before it |
| LookupCaches.StaleHit | backend/app/db/clickhouse.py:752-772 | the two steps by which an overlapping fill makes a lookup miss the insert |
| LookupCaches.InsertMissed | backend/app/db/clickhouse.py:752-772 | a run from start-up that reaches the overlap and then misses the insert |
| PolicyCache.FirstSeenCache.Ask | backend/app/db/clickhouse.py:631-657 | the call's policies split into the cached slots and the misses, in order |
| PolicyCache.FirstSeenCache.Remember | backend/app/db/clickhouse.py:669-676 | the new cache, a full one emptied first, unchanged when nothing was found |
| PolicyCache.RememberedExactly | backend/app/db/clickhouse.py:669-676 | what was found is remembered, with room left nothing is forgotten, and the limit is exceeded by less than one call adds |
| PolicyCache.AnswersFailTowardDetection | backend/app/db/clickhouse.py:631-678 | however calls and sightings interleave, no answer is below the table's current minimum and no policy known before the call is absent |
| PolicyCache.AnswersAreSightings | backend/app/db/clickhouse.py:631-678 | over every run each slot answered was in the table at the start or is a sighting of that very policy |
| GroupedPage.SortIsStable | backend/app/api/analysis.py:376-384 | the sort is descending and keeps, key by key, its rows in their order |
| GroupedPage.OrderedListUnique | backend/app/api/analysis.py:376-384 | that determines the sorted list |
| GroupedPage.SortIsMerge | backend/app/api/analysis.py:374-384 | sorting the groups followed by sorted alerts is merging the two lists, groups first on ties |
| GroupedPage.MergePrefix | backend/app/api/analysis.py:347-373 | the first m rows of a merge need only the first m alerts |
| GroupedPage.MergeSkip | backend/app/api/analysis.py:385-391 | past all groups, dropping alerts shifts the merge by their number |
| GroupedPage.WindowedPage | backend/app/api/analysis.py:347-391 | for every offset and limit the page cut from the window's merge is the page of the full merge |
| GroupedPage.PageIsWindowed | backend/app/api/analysis.py:347-391 | the same for sorting, ties included |
| GroupedPage.SortedPageIsPage | backend/app/api/analysis.py:376-391 | the page is what stands from the offset on, up to the limit, in a list of exactly the given rows by score then date, or by date then score |
| GroupedPage.AlertTotalCountsEach | backend/app/api/analysis.py:330-347 | the total counts every row's alerts once: changing one row's number changes it by as much |
| GroupedPage.ListGroups | backend/app/api/analysis.py:330-400 | the page is that part of an ordered list of all groups and lone alerts, by score then date or by date then score; totals count all of them; at most groups + limit alerts are fetched |
| Verdicts.BandRises | backend/app/analysis/normalise.py:170-184 | bands rise with scores |
| Verdicts.BandsStart | backend/app/analysis/normalise.py:148-184 | the bands start at 80, at 60 and just above 30 |
| Verdicts.ResolvesToHighest | backend/app/analysis/contract_anomaly.py:121-140 | the verdict taken is the first of the highest-scoring ones |
| Verdicts.MergedIsShown | backend/app/api/contract_anomaly_read.py:86-129 | an alert shows its stored score, class and contract unless a verdict scores higher, and then that verdict's |
| Verdicts.WindowsMeet | backend/app/api/contract_anomaly_read.py:194-217 | time windows that meet share no time and lose none |
| Verdicts.FilterParts | backend/app/api/contract_anomaly_read.py:175-217 | a filter is the conjunction of its limits, each inclusive and each absent when empty or zero |
| Verdicts.FiltersDiffer | backend/app/api/contract_anomaly_read.py:175-217 | a row that passes the Python filter fails the SQL one exactly when it has the legacy label under a filter for Informational |
| GroupReconcile.FoldRowKeeps | backend/app/api/contract_anomaly_read.py:674-752 | folding in one flagged row keeps every group's count, worst alert, classes and newest time those of the rows folded so far |
| GroupReconcile.Augment | backend/app/api/contract_anomaly_read.py:610-752 | the reconciled groups tally stored and flagged rows and show their worst score with its band, class and un-clusterable flag, all their classes and the newest time; the rehomed transactions are exactly the lone rows that now belong to a group |
| GroupReconcile.MembersMean | backend/app/api/contract_anomaly_read.py:610-752 | which alerts are a contract's members, in terms of stored rows, verdicts and filter |
| GroupReconcile.MembersSplit | backend/app/api/contract_anomaly_read.py:610-752 | a contract's members are those SQL counts, those the loop adds and those missed, without overlap |
| GroupReconcile.CountIsMembersLessMissed | backend/app/api/contract_anomaly_read.py:610-752 | the patched count is the size of the union of stored and effective members less the missed ones, and a group exists exactly when it has members |
| GroupReconcile.CountExact | backend/app/api/contract_anomaly_read.py:610-752 | the count is exact if and only if no member carries the legacy label under a filter for Informational |
| GroupReconcile.LegacyLabelUndercounts | backend/app/api/contract_anomaly_read.py:674-752 | a row for which it is not |
| GroupReconcile.ListedOnce | backend/app/api/analysis.py:296-386 | no alert is both in a group and a lone row, and every alert of the flat list is one of the two |
| KpiReconcile.Tally | backend/app/api/contract_anomaly_read.py:334-373 | the loop's counts, score deltas and entering findings are the differences between effective and stored totals |
| KpiReconcile.Augment | backend/app/api/contract_anomaly_read.py:334-373 | patched counts and findings are recomputed ones, and mean times findings is the sum of the effective scores |
| KpiReconcile.CountsAreSizes | backend/app/api/contract_anomaly_read.py:334-373 | findings are the rows whose higher score is at least 1, and each row is counted in the more severe of its two bands |
| KpiReconcile.SumTakesEach | backend/app/api/contract_anomaly_read.py:334-373 | the findings' sum takes each at its higher score once: replacing a row changes it by the difference |
| KpiReconcile.NoFindingsNoSum | backend/app/api/contract_anomaly_read.py:334-373 | and without findings it is 0 |
| KpiReconcile.TotalConserved | backend/app/api/contract_anomaly_read.py:334-373 | no row is lost or counted twice between the bands |
| KpiReconcile.PatchedIsEffective | backend/app/api/contract_anomaly_read.py:334-373 | exactly when the patched band is the one the merged alert shows |
| KpiReconcile.CountsAreEffective | backend/app/api/contract_anomaly_read.py:334-373 | with stored bands that match their scores, patched counts are the counts of effective bands |
| Baselines.ResolvedOrBootstrap | backend/app/analysis/scorer_config.py:1013-1043 | the tier used, or bootstrap; a learned pair's tail is cut to the multiple of the anchor's and its median to the anchor-relative reach and to what leaves a usable spread, no further; the result scores every value at least as high as the bounds do |
| Baselines.TierOrder | backend/app/analysis/normalise.py:66-128 | the narrower tier is used whenever it has the samples and a usable spread, the global one only when the narrower does not |
| Baselines.ScoreIsLinear | backend/app/analysis/normalise.py:20-32 | the score runs in a straight line from 0 at the median to 1 past the tail, flat on either side, and 0 without spread |
| Baselines.CappedIsUsable | backend/app/analysis/scorer_config.py:1023-1041 | capping a usable pair gives a usable pair |
| Baselines.LowerPairScoresHigher | backend/app/analysis/normalise.py:20-32 | lowering either percentile of a proper pair never lowers the score of any value |
| Baselines.FilterDrifted | backend/app/analysis/baselines.py:427-530 | the rows kept are, in their order, exactly those that go through: no history, or neither percentile further than its threshold from the prior in a guarded direction |
| Baselines.DriftIsBeyond | backend/app/analysis/baselines.py:405-420 | a value drifted exactly when it is further from the old one than the threshold times the old one's guarded size, or rises from 0 |
| Baselines.KeptGoesThrough | backend/app/analysis/baselines.py:427-530 | the rows that go through, for plain and inverted consumers, in both directions of change |
| Baselines.StepBound | backend/app/analysis/baselines.py:405-420 | a percentile that is not held moved by at most the threshold, on the guarded scale |
| Baselines.MedianRatchet | backend/app/analysis/baselines.py:427-530 | over any series of recomputes, each filtered against priors as old as the cache may answer and then inserted, a key's stored median grows at most by (1 + t) per recompute that wrote the key |
| Baselines.TailRatchet | backend/app/analysis/baselines.py:427-530 | so does its tail while the prior tails are positive |
| Baselines.InvertedFloor | backend/app/analysis/baselines.py:427-530 | for features with an inverted consumer both percentiles shrink at most by (1 - t) per such recompute |
| Baselines.MissedPriorUnguarded | backend/app/analysis/baselines.py:427-530 | a recompute whose lookup misses the stored baseline stores any pair |
| Baselines.SaferAlwaysApplies | backend/app/analysis/baselines.py:427-450 | without one, a recompute in which neither percentile rises is never held |
| Baselines.TailGuardedIffPositive | backend/app/analysis/baselines.py:427-450 | the tail's step bound holds for all recomputes exactly when the prior tail is positive |
| DedupMigration.Server.MigrateTable | backend/scripts/migrate_dedup_schema.py:108-219 | the catalog and outcome after a call that crashes before any statement, fails verification, or completes |
| DedupMigration.BucketCollapses | backend/scripts/migrate_dedup_schema.py:184-201 | a row collapsed within its bucket is collapsed over the whole table |
| DedupMigration.BucketsAreCollapse | backend/scripts/migrate_dedup_schema.py:184-201 | the buckets' answers together are the collapse of the table: one row per key, newest version, each column from a newest row |
| DedupMigration.CollapseCounts | backend/scripts/migrate_dedup_schema.py:203-208 | a collapse has exactly as many rows as there are distinct keys, so verification passes |
| DedupMigration.NewestSurvives | backend/scripts/migrate_dedup_schema.py:169-200 | under distinct versions the surviving row is the key's newest row |
| DedupMigration.DeterminedIffAgree | backend/scripts/migrate_dedup_schema.py:169-200 | the surviving row is determined exactly when the newest rows agree |
| DedupMigration.LegacyIsKept | backend/scripts/migrate_dedup_schema.py:108-219 | whatever the SELECTs return and wherever the call stops, the legacy rows are kept and no other table changes |
| DedupMigration.LiveIsWhole | backend/scripts/migrate_dedup_schema.py:108-219 | the live name always holds all legacy rows or their full collapse |
| DedupMigration.RerunCompletes | backend/scripts/migrate_dedup_schema.py:122-219 | from any such state an applied call that is not cut short ends with a v2 live table with wide columns, the old table whole under the legacy name, and nothing under the working name |
| DedupMigration.DryRunChangesNothing | backend/scripts/migrate_dedup_schema.py:122-165 | without the apply switch a call changes nothing |
| DedupMigration.MiscountNeverSwaps | backend/scripts/migrate_dedup_schema.py:203-213 | whatever the buckets return, the live table is exchanged only for as many rows as it has distinct keys |
| DedupMigration.CrashesAreSafe | backend/scripts/migrate_dedup_schema.py:108-219 | both hold after any number of calls, each crashing anywhere |
| DedupMigration.CrashesRecover | backend/scripts/migrate_dedup_schema.py:108-219 | and one more whole call swaps |
| DedupMigration.StrandedKeptIffNoRebuild | backend/scripts/migrate_dedup_schema.py:122-165 | rows only under the working name survive an applied call exactly when the live table needs no rebuild |
| DatumTree.Budget.Take | backend/app/analysis/plutus_structure.py:152-157 | one node is granted while any remain; otherwise the budget records the refusal |
| DatumTree.WalkCbor | backend/app/analysis/plutus_structure.py:160-227 | tree and budget of a walk, for any value, depth and allowance |
| DatumTree.WalkPlutusJson | backend/app/analysis/plutus_structure.py:230-296 | the same for the JSON form, every branch |
| DatumTree.WalkAccounts | backend/app/analysis/plutus_structure.py:160-227 | the nodes charged are those other than truncated and map_entry, and the budget is hit exactly when a truncated node is made |
| DatumTree.JsonAccounts | backend/app/analysis/plutus_structure.py:230-296 | the same for the JSON form |
| DatumTree.WalkPrunes | backend/app/analysis/plutus_structure.py:160-227 | whatever the limits, the walk shows the datum's whole tree with some subtrees elided and every other node in place |
| DatumTree.KindTells | backend/app/analysis/plutus_structure.py:160-227 | which value each kind of node stands for, and exactly when a node is elided |
| DatumTree.JsonKindTells | backend/app/analysis/plutus_structure.py:230-296 | which key decides an object's kind, and that bytes that are no hexadecimal are shown as they stand |
| DatumTree.BooleansShown | backend/app/analysis/plutus_structure.py:160-241 | booleans are not shown as integers, but count as constructor index 0 or 1 |
| DatumTree.DecodeDatum | backend/app/analysis/plutus_structure.py:299-327 | what is undecodable is an error without a tree and never an empty one; truncated is set exactly when the tree has a truncated node, and at most max_nodes nodes are charged |
| DatumTree.WalkFits | backend/app/analysis/plutus_structure.py:160-227 | exactly when an encoded datum is walked whole, and then its tree and cost |
| DatumTree.RecoverTree | backend/app/analysis/plutus_structure.py:27-37 | the datum is recovered from its tree |
| DatumTree.NormalIffDistinct | backend/app/analysis/plutus_structure.py:160-227 | turning every map into a dictionary keeps the datum exactly when none of its maps repeats a key |
| DatumTree.RepeatedKeyDropped | backend/app/analysis/plutus_structure.py:160-227 | a map that gives one key twice and keeps only the later value |
| DatumTree.DecodeLossless | backend/app/analysis/plutus_structure.py:127-227 | for every datum, as the decoder returns it: the walk is whole exactly when size and depth fit, a whole walk gives back the decoded datum, and so the datum itself exactly when no map repeats a key |
| DatumTree.SameTree | backend/app/analysis/plutus_structure.py:230-296 | without repeated keys the JSON form gives the same tree and truncation as the CBOR form; with them two whole trees differ |
| RateLimit.RateLimiter.Check | backend/app/rate_limit.py:69-88 | the answer and the deques after a check |
| RateLimit.RateLimiter.Cleanup | backend/app/rate_limit.py:90-105 | the deques after a cleanup pass |
| RateLimit.RunKeeps | backend/app/rate_limit.py:69-105 | over every run a deque holds the newest allowed times of its key and misses none still in the window |
| RateLimit.WindowNeverOverfull | backend/app/rate_limit.py:69-88 | over every run no half-open window holds more allowed checks of a key than the limit |
| RateLimit.AllowedIffRoom | backend/app/rate_limit.py:69-88 | over every run a check is allowed exactly when fewer checks of its key than the limit were allowed in the window that ends with it |
| RateLimit.CleanupInvisible | backend/app/rate_limit.py:90-105 | cleanups at any moments change no answer |
| RateLimit.SweepDropsDead | backend/app/rate_limit.py:90-105 | a cleanup drops exactly the keys without a time left in the window |
| RateLimit.RetryAfterSuffices | backend/app/rate_limit.py:69-88 | a refused caller that waits retry_after is allowed, whatever other keys and cleanups do meanwhile |
| RateLimit.RetryAfterTight | backend/app/rate_limit.py:69-88 | one that comes back more than a second before retry_after is refused again |

## Left out

- CycleSearch.DetectCycle: the hop query is complete over the address index it prefilters with; representatives, prior cycles and the evidence text are not modelled, because they do not steer the search.
- ClosingReading.Reading: past the output limit no optimality over the subset sums is claimed; the source takes a fitting subset for granted there.
- Engine.ScoringEngine.RunOnce: what scorers compute, metadata parsing and enrichment contents; a tick takes which of them fail as input. One instance is one network; a restart is a fresh instance.
- EngineRuns.DeferralIsBounded: asks that the transaction's own polls insert; EngineRuns.FailedInsertStartsOver shows that a failed insert voids the bound.
- EngineRuns.PassedOnlyIfFetched: asks for an overlap of at least 0, which the setting does not enforce; one version of a transaction's row at a time.
- EngineRuns.BeyondReach: asks that the wall clock does not fall; a clock set back would let a rescan reach further.
- RollbackPurge.Warehouse.InsertTransactionsBatch: the columns of fact rows, and which transactions yield feature rows, are inputs.
- RollbackRaces.TurnsKeepFacts: the sidecar's own tables and the Postgres lifecycle rows.
- RollbackRaces.NothingBlocksRescoring: the delay before a repurge is not modelled as time; that the engine has let go of older batches by then is its premise. A repurge scheduled in memory (backend/app/ingestion/ogmios_client.py:782) is no state of the machine: `Blocked` counts only hashes that are persisted or about to be, so a transaction that only such a task would still repurge counts as blocked.
- LookupCaches.AnswersAreRecent: a lookup's clock is read once per critical section.
- GroupReconcile.Augment: SQL groups are not truncated at the contract limit; a group's class list is a set.
- GroupedPage.ListGroups: assumes the database orders lone alerts by the list's own key; the rescue of flagged rows onto the first page, which is best-effort.
- Baselines.FilterDrifted: the drift events recorded for review and their log lines.
- Baselines.TailRatchet: asks for positive prior tails; Baselines.TailGuardedIffPositive shows why.
- DedupMigration.NewestSurvives: NULL cells, which argMax skips, and computed columns.
- DatumTree.DecodeDatum: parsing of hexadecimal and CBOR bytes, of which only success, failure and the treatment of repeated keys enter; scalar renderings are symbolic, and the printable text of a bytes leaf comes with its bytes.
- RateLimit.RateLimiter.Check: over a run times do not fall; the source reads the clock just before it takes the lock. Start and stop of the cleanup task.
- Entropy features, float rounding and the rounding of stored evidence.
- SQL text, merge behaviour and projections of the warehouse; network, mail, webhooks, HTTP wiring and the frontend.
- Leader and admin locks, the magic-link budget, job store, address parsing, era conversion and sandwich legs: short invariants that would add only easy members.
