# Verified model of the market-analysis backend

A Dafny model of the parts of the backend whose behaviour is hardest to see from
one body, with proofs about all inputs, all runs and all interleavings.
`dafny verify dfyconfig.toml` checks it.

- **Connection limiter** (`Limiter`, `LimiterObjects`, `LimiterRuns`,
  `LimiterStuck`, `LimiterLeaks`, `SocketRuns`): the two Lua scripts and the
  in-process fallback as objects and as value functions; a state machine of any
  number of workers, Redis failing and recovering between any two steps, worker
  clocks apart by at most the 60 seconds of the key buffer; on top of it the
  endpoint loop with its clock.
- **Analysis lifecycle** (`Pipeline`, `PipelineObjects`, `AnalysisRuns`,
  `AnalysisSockets`, `AnalysisSchedule`): the pipeline coroutine cut at its awaits, the bounded task
  map, the semaphore, the status cache and the polling sockets, in every
  interleaving.
- **Levels and plans** (`SupportResistance`, `SupportResistanceLaws`,
  `StopTakeProfit`, `StopTakeProfitBounds`, `StopTakeProfitTargets`,
  `ReportBuilder`): greedy clustering,
  stop and take profits, and the risk/reward filter, on `real` prices with
  Python's `round` as half-to-even (`Rounding`).
- **Caches** (`OhlcvCache`, `OhlcvCacheLaws`, `TwoStoreCache`,
  `TwoStoreCacheObjects`, `TwoStoreCacheRuns`): the candle table as one map, and
  Redis with its in-memory fallback.
- **Scanners and evaluators** (`IkiDetector`, `SignalOutcome`, `Calibration`,
  `CalibrationLaws`, `Resampling`).
- **Scoring** (`MarketSignals`, `MarketMirror`, `MarketMeaning`): one antisymmetry
  through summary, aggregator, score, direction and confidence, and what each of
  them says of its inputs.
- **Log sanitizer** (`LogText`, `LogUrlPass`, `LogKeyValuePass`, `LogSanitizer`,
  `LogMasking`, `LogWords`, `LogExposure`, `LogRepetition`): both substitutions on
  strings, what they mask, said of characters, and what repeating them does.

Where the code and its own words differ, the model follows the code:

- `logging_config.py:102` calls the sanitizer idempotent. Each pass is; their
  composition is not. `LogRepetition.SanitizeIdempotentIff` says exactly when it
  is, by the key matches in the output of the URL pass. It is without an `@` in the
  message, and without a key match behind a `letter...://` of its own word. Where it
  fails, a match takes the `@` behind a masked secret while an earlier one stays
  (`LogRepetition.NotIdempotent`), or the space that ended the word with an `@`
  behind it (`LogRepetition.NotIdempotentAcrossSpace`).
- `sl_tp_calculator.py:157-159` calls a guard unreachable.
  `StopTakeProfitBounds.PlanGuardReached` says exactly when a plan reaches it: with
  a positive risk, when the nearest level that pays the risk occurs twice and pays
  twice the risk; without risk (no ATR and no adverse level) when that nearest
  level occurs twice or at most one favourable level exists. The promised reward of
  1:2 for TP2 holds exactly under the condition in
  `StopTakeProfitBounds.TakeProfitRewards`, and `RewardsFallShort` is a plan without.
- `report_builder.py:72` drops ratios above 1.0; because ratios are rounded first,
  a risk up to 1.005 times the reward passes (`ReportBuilder.FavourableIff`).
- The websocket of `analysis.py:190-237` is documented to push updates until
  completion. The loop compares the status object after an awaited send, so a
  final status that appears during that send ends the loop unsent, and only then
  (`AnalysisSockets.FinalStatusLost`, `AnalysisSockets.FinalStatusSentIff`).
- A report that cannot be dumped is not cached, and its run is COMPLETED all the
  same (`AnalysisRuns.CompletedWithoutWriteIff`).
- A run that raises stores the error text, but `_run_pipeline` replaces it by
  "Pipeline returned no report" before anybody can see it
  (`AnalysisRuns.ShownStatuses`).
- A `RedisCache` write that lands in one store leaves an older value readable in
  the other (`TwoStoreCacheRuns.ReadAfterWrite`, `TwoStoreCacheRuns.StaleRead`), and
  an invalidation that cannot reach Redis leaves Redis as it was
  (`TwoStoreCacheRuns.InvalidateIff`, `TwoStoreCacheRuns.LostInvalidation`).
- The acquire script calls `table.unpack`, which the Lua 5.1 interpreter of Redis
  does not have. The parameter `unpacks` says whether it does. Without it the
  script raises before its first write exactly when there is an expired entry to
  prune (`LimiterObjects.RedisServer.RunAcquire`), so it never prunes
  (`Limiter.AttemptPrunesIff`): the call falls back to the in-process store, and an
  entry that nobody releases keeps Redis from deciding until its key expires
  (`LimiterStuck.StuckUntilExpire`).
- `_memory_conn_ids` is meant to hold the ids of `_memory`. Pruning forgets it, and
  nothing else does (`LimiterLeaks.StepTightIff`); what pruning leaves behind
  accumulates (`LimiterLeaks.ConnIdsUnbounded`).

Reading the model: `hide` statements in proofs only keep definitions away from the
solver. A status of `analysis_tasks` is an object that the pipeline changes in
place, so `Run.published` says whether the entry is in the cache, and the status
itself is always the current one. A week is counted from Monday, which is in
one-to-one correspondence with the pairs of ISO year and week (ISO 8601:2004,
section 4.1.4).

## Model

| member | source | states |
|---|---|---|
| LimiterObjects.RedisServer.RunAcquire | backend/app/core/ws_connection_limiter.py:44-73 | the acquire script raises exactly if it has expired entries to unpack and the interpreter has no `table.unpack`, and then writes nothing; else it grants exactly if fewer than the maximum of the stored ids are unexpired, and prunes and stores step by step |
| Limiter.AttemptPrunesIff | backend/app/core/ws_connection_limiter.py:52-60 | an attempt leaves no entry expired on the caller clock exactly if the script does not raise |
| LimiterObjects.RedisServer.RunRelease | backend/app/core/ws_connection_limiter.py:78-86 | afterwards the id is gone from its hash, every other entry of the hash is as before, the key is there exactly if entries are left, and other IPs are untouched |
| LimiterObjects.WebSocketConnectionLimiter.Acquire | backend/app/core/ws_connection_limiter.py:125-147 | a reachable Redis whose script does not raise decides, and nothing in process changes; otherwise the in-process store decides and Redis is untouched |
| LimiterObjects.WebSocketConnectionLimiter.Release | backend/app/core/ws_connection_limiter.py:149-165 | an id admitted in process is released there whatever Redis does; any other id is released in Redis or left to expire |
| LimiterObjects.WebSocketConnectionLimiter.AcquireMemory | backend/app/core/ws_connection_limiter.py:167-184 | granted exactly if fewer than the maximum of the ids in the dictionary of the IP are unexpired; pruning, and the early write-back of the pruned dictionary on refusal |
| LimiterObjects.WebSocketConnectionLimiter.ReleaseMemory | backend/app/core/ws_connection_limiter.py:186-195 | the early return that leaves an id in `_memory_conn_ids`, and the removal of an empty dictionary |
| Limiter.ReleaseUndoesShared | backend/app/core/ws_connection_limiter.py:44-86 | a granted script acquire and its release leave exactly the entries that were unexpired |
| Limiter.ReleaseUndoesLocal | backend/app/core/ws_connection_limiter.py:167-195 | so do a granted in-process acquire and its release, which forgets the id as well |
| LimiterRuns.CloseFrees | backend/app/core/ws_connection_limiter.py:149-165 | closing takes the id out of the store that admitted it, and no other id out of any store |
| LimiterRuns.StepInv | backend/app/core/ws_connection_limiter.py:44-86 | every step of every worker, clock tick, abandoned handshake and crash keeps the invariant that ties all stores to the admissions |
| LimiterRuns.StoresWithinCap | backend/app/core/ws_connection_limiter.py:44-73 | over every interleaving and failure schedule, no hash and no per-worker dictionary exceeds the maximum, and every id in `_memory` is in `_memory_conn_ids` |
| LimiterRuns.LiveWithinCap | backend/app/core/ws_connection_limiter.py:125-196 | with W workers, at most (W+1) times the maximum of admitted, unreleased, unexpired connections per IP, those of abandoned handshakes and of crashed workers in Redis included |
| LimiterRuns.OpenSocketsWithinCap | backend/app/core/ws_connection_limiter.py:125-196 | in a state in which every open socket is younger than the TTL by the buffer, the same bound holds of the sockets really open |
| SocketRuns.SocketAge | backend/app/api/v1/analysis.py:186-243 | the endpoint loop on its monotonic clock: with every await bounded by d, a socket that holds a slot is at most 60 seconds and seven awaits old |
| SocketRuns.OpenSocketsWithinCap | backend/app/api/v1/analysis.py:186-243 | hence, with the deployed 300 seconds and awaits of at most 25, the bound on open sockets holds in every run |
| LimiterRuns.ExpireDropsOnlyDead | backend/app/core/ws_connection_limiter.py:31-34 | the key EXPIRE removes no entry that some worker still regards as live, clocks differing by at most the buffer |
| LimiterRuns.DeniedOnlyByRecent | backend/app/core/ws_connection_limiter.py:52-68 | where the script decides, it refuses only because of enough admissions that are at most TTL plus tolerance old |
| LimiterRuns.LocalDeniedOnlyByRecent | backend/app/core/ws_connection_limiter.py:167-178 | an in-process acquire is refused only because of that many in-process admissions of this worker and IP, at most TTL old |
| LimiterStuck.StuckUntilExpire | backend/app/core/ws_connection_limiter.py:52-60 | without `table.unpack`: once every clock has passed an entry that nobody releases, until the key expires no acquire of that IP is decided by Redis and the hash changes only by releases |
| LimiterStuck.StuckReached | backend/app/core/ws_connection_limiter.py:52-60 | a run that reaches such a hash |
| LimiterLeaks.AcquireTightIff | backend/app/core/ws_connection_limiter.py:167-184 | `_memory_conn_ids` holding just the ids of `_memory`, an in-process acquire of a fresh id keeps that exactly if it prunes nothing |
| LimiterLeaks.ReleaseDiscardsIff | backend/app/core/ws_connection_limiter.py:186-195 | a release discards its id exactly if its IP still has a dictionary, else the early return leaves it |
| LimiterLeaks.StepTightIff | backend/app/core/ws_connection_limiter.py:125-196 | in every reachable state a step of the whole system keeps it for a worker exactly if it is not a pruning acquire of that worker |
| LimiterLeaks.TightWithoutPruning | backend/app/core/ws_connection_limiter.py:125-196 | so in every run without pruning in-process acquires the set never outgrows the dictionaries |
| LimiterLeaks.LeftForEver | backend/app/core/ws_connection_limiter.py:186-195 | an id left behind by pruning whose socket is gone stays in every continuation without a crash of its worker |
| LimiterLeaks.ConnIdsUnbounded | backend/app/core/ws_connection_limiter.py:167-184 | by pruning alone, for every k a run that ends with k ids in the set and `_memory` empty |
| PipelineObjects.AnalysisPipeline.constructor | backend/app/orchestration/pipeline.py:91-111 | a new pipeline has published PENDING before anybody decides on its task |
| PipelineObjects.AnalysisPipeline.UpdateStatus | backend/app/orchestration/pipeline.py:117-122 | RUNNING, progress capped at 99, the step shown, published |
| PipelineObjects.AnalysisPipeline.CompleteStep | backend/app/orchestration/pipeline.py:124-125 | appends the step in place, without publishing |
| PipelineObjects.AnalysisPipeline.Fail | backend/app/orchestration/pipeline.py:127-130 | FAILED with the message, published, progress and steps kept |
| PipelineObjects.AnalysisPipeline.Complete | backend/app/orchestration/pipeline.py:132-141 | COMPLETED at 100 percent, published |
| PipelineObjects.AnalysisPipeline.StartAnalysis | backend/app/orchestration/pipeline.py:202-211 | the analysis phase up to its first await, with the guard on a missing fetch bundle |
| PipelineObjects.AnalysisPipeline.Aggregate | backend/app/orchestration/pipeline.py:243-278 | steps 5 and 6 up to the await of persisting, with both places that can raise |
| PipelineObjects.AnalysisPipeline.Resume | backend/app/orchestration/pipeline.py:143-279 | resuming a suspended run on the object is one step of the transition function `Advance`, whatever the outcome |
| Pipeline.AdvanceOk | backend/app/orchestration/pipeline.py:143-279 | from every suspension, every outcome leads to the status that the next suspension calls for |
| Pipeline.AdvanceForward | backend/app/orchestration/pipeline.py:117-141 | one resumption never lowers progress, never drops completed steps, and reaches 100 only as COMPLETED |
| Pipeline.CompletesIff | backend/app/api/v1/analysis.py:80-97 | COMPLETED is published exactly on resuming from the cache write, or from persisting with a report that cannot be dumped |
| Pipeline.FailsIff | backend/app/orchestration/pipeline.py:143-200 | a resumption fails the run exactly if something raises, other than the cache write, or there is no market data |
| Pipeline.FailedShows | backend/app/orchestration/pipeline.py:127-130 | the status of a failed run, for each place that can raise: its step, progress and completed steps, and one message |
| Pipeline.AdvancePublishes | backend/app/orchestration/pipeline.py:117-141 | a resumption leaves the status in the cache exactly if it was there or changes |
| Pipeline.NextSuspension | backend/app/orchestration/pipeline.py:143-279 | from each of the ten awaits a run goes to the next one or ends |
| Pipeline.ShownWhileSuspended | backend/app/orchestration/pipeline.py:117-125 | the status shown at each await, written out: step name, progress and completed steps |
| Pipeline.GuardNotTaken | backend/app/orchestration/pipeline.py:207-211 | the guard on a missing bundle is never taken by a run; taken, it would turn FAILED into RUNNING |
| AnalysisRuns.StepInv | backend/app/api/v1/analysis.py:61-97 | triggers, resumptions, evictions and socket steps in any order keep the invariant on tasks, slots, histories and sockets |
| AnalysisRuns.TasksAreActiveRuns | backend/app/api/v1/analysis.py:61-97 | the task map holds exactly the started unfinished runs, at most 100; at most 5 are inside, and the semaphore counter is the rest |
| AnalysisRuns.TriggerAnswers | backend/app/api/v1/analysis.py:61-70 | with fresh ids 409 is never answered; 503 exactly when 100 runs are active, leaving a PENDING status without a task |
| AnalysisRuns.StepForward | backend/app/api/v1/analysis.py:80-97 | in every step of every interleaving a terminal status is never left and progress never falls |
| AnalysisRuns.HistoryForward | backend/app/orchestration/pipeline.py:117-141 | the same between any two statuses of a whole run |
| AnalysisRuns.ShownStatuses | backend/app/api/v1/analysis.py:80-97 | every status ever shown: 100 means COMPLETED means all steps; steps are a prefix; every failure carries one and the same message |
| AnalysisRuns.CompletedIff | backend/app/api/v1/analysis.py:80-97 | a run is COMPLETED exactly if its cache write returned or raised, or its dump raised, and never both |
| AnalysisRuns.CompletedWithoutWriteIff | backend/app/api/v1/analysis.py:84-90 | over every run: COMPLETED without any cache write exactly if the dump of that report raised |
| AnalysisSchedule.AwaitsInOrder | backend/app/orchestration/pipeline.py:143-279 | over every interleaving a run that was resumed n times awaits the n-th step of the list written out, none is skipped, and it completes at exactly the tenth resumption, or the ninth if its dump raises |
| AnalysisRuns.SocketSends | backend/app/api/v1/analysis.py:189-218 | each socket sends a subsequence of the status history, in order, without equal neighbours |
| AnalysisRuns.PollCatchesUp | backend/app/api/v1/analysis.py:206-220 | after every look at a published status that status is the last one sent, and a send is awaited exactly if it differs from the one before; the loop ends exactly on a terminal one already sent |
| AnalysisSockets.FinalStatusSentIff | backend/app/api/v1/analysis.py:198-218 | for a run finished in state s and anything later: a socket that ends on it has sent the final status exactly if it was not awaiting a send in s |
| AnalysisSockets.FinalStatusLost | backend/app/api/v1/analysis.py:213-218 | a reachable state in which a socket ended on FAILED after sending only PENDING |
| AnalysisRuns.EveryRunLeaves | backend/app/api/v1/analysis.py:80-97 | at most ten resumptions per trigger along any run, and when none is possible the task map is empty: no deadlock |
| SupportResistance.ClusterLevels | backend/app/modules/pattern_recognition/support_resistance.py:77-106 | the two loops compute the published levels of the greedy partition of the stably sorted prices |
| SupportResistance.SortedPermutes | backend/app/modules/pattern_recognition/support_resistance.py:88 | the sort is ascending and a permutation |
| SupportResistance.SortedStable | backend/app/modules/pattern_recognition/support_resistance.py:88 | touches of equal price keep their order |
| SupportResistance.GreedyPartition | backend/app/modules/pattern_recognition/support_resistance.py:88-96 | the scan cuts the list into consecutive clusters, each touch near the mean of those before it, each new cluster not near the mean before |
| SupportResistance.GreedyUnique | backend/app/modules/pattern_recognition/support_resistance.py:88-96 | that description has one solution, so it determines the scan |
| SupportResistanceLaws.ClusterSpread | backend/app/modules/pattern_recognition/support_resistance.py:91-96 | on positive prices a touch is within the tolerance of the mean before it exactly if it does not begin a cluster |
| SupportResistanceLaws.LevelSays | backend/app/modules/pattern_recognition/support_resistance.py:98-104 | a level is a resistance exactly if its resistances are at least as many as its supports; its price is the mean to within half of the fourth place |
| SupportResistanceLaws.MeanBetween | backend/app/modules/pattern_recognition/support_resistance.py:91-96 | the mean of a cluster lies between any bounds of its prices |
| SupportResistanceLaws.MeansApart | backend/app/modules/pattern_recognition/support_resistance.py:91-96 | consecutive unrounded means of positive prices differ by a factor above 1 + tolerance/100 |
| SupportResistanceLaws.AllMeansApart | backend/app/modules/pattern_recognition/support_resistance.py:91-96 | so do any two means |
| SupportResistanceLaws.ReclusteringIsIdle | backend/app/modules/pattern_recognition/support_resistance.py:91-96 | clustering the means again gives singletons |
| SupportResistanceLaws.EqualPricesTogether | backend/app/modules/pattern_recognition/support_resistance.py:91-96 | prices of different clusters differ strictly, so equal prices share a cluster |
| SupportResistanceLaws.LevelsPermute | backend/app/modules/pattern_recognition/support_resistance.py:77-106 | permuting the input changes no published price, vote or count |
| SupportResistanceLaws.LevelsAccount | backend/app/modules/pattern_recognition/support_resistance.py:98-104 | touch counts add up to the number of extrema, and published prices do not decrease |
| StopTakeProfit.CalculateAtr | backend/app/modules/strategy_generator/sl_tp_calculator.py:21-38 | the loop computes the mean of the last true ranges |
| StopTakeProfitTargets.TrueRangeIs | backend/app/modules/strategy_generator/sl_tp_calculator.py:21-38 | a true range is the greatest of the height of the candle and the distances of its extremes from the close before |
| StopTakeProfitTargets.AtrWindow | backend/app/modules/strategy_generator/sl_tp_calculator.py:21-38 | the ATR of a plan is the mean of the last fourteen true ranges, or of all of them if there are fewer |
| StopTakeProfit.CalculateTp | backend/app/modules/strategy_generator/sl_tp_calculator.py:106-166 | both scans, the fallbacks and the guard, as a function of the sorted targets |
| StopTakeProfit.CalculateSlTp | backend/app/modules/strategy_generator/sl_tp_calculator.py:53-79 | the rounded plan |
| StopTakeProfit.AtrMirror | backend/app/modules/strategy_generator/sl_tp_calculator.py:21-38 | the average true range of the negated market is the same |
| StopTakeProfit.UnroundedMirror | backend/app/modules/strategy_generator/sl_tp_calculator.py:82-166 | negating prices and flipping the kind of every level negates the unrounded plan and swaps LONG and SHORT |
| StopTakeProfit.PlanMirror | backend/app/modules/strategy_generator/sl_tp_calculator.py:53-79 | the same through candles and half-even rounding |
| StopTakeProfitBounds.StopBehindNearest | backend/app/modules/strategy_generator/sl_tp_calculator.py:82-103 | the stop is half an ATR behind the adverse level nearest to the entry, or 1.5 ATR from the entry if there is none |
| StopTakeProfitBounds.NearestPayingLevel | backend/app/modules/strategy_generator/sl_tp_calculator.py:119-125 | TP1 is the nearest eligible level with reward at least the risk, if some level pays it, and three ATR away otherwise |
| StopTakeProfitTargets.SecondTarget | backend/app/modules/strategy_generator/sl_tp_calculator.py:119-155 | TP2 is the nearest other level that pays twice the risk, a second one at the price of TP1 included; without one the farther of six ATR and TP1 with the risk on top |
| StopTakeProfitTargets.GuardedTarget | backend/app/modules/strategy_generator/sl_tp_calculator.py:157-164 | a TP2 that is not behind TP1 is replaced by TP1 with the risk on top |
| StopTakeProfitTargets.PlanRounded | backend/app/modules/strategy_generator/sl_tp_calculator.py:75-79 | the published prices are those of the plan to five places |
| StopTakeProfitBounds.TakeProfitRewards | backend/app/modules/strategy_generator/sl_tp_calculator.py:113-164 | the order of the targets; TP1 pays the risk and TP2 twice the risk exactly when some level pays the risk or the risk is at most three ATR |
| StopTakeProfitBounds.RewardsFallShort | backend/app/modules/strategy_generator/sl_tp_calculator.py:113-164 | a concrete plan whose take profits pay less than that |
| StopTakeProfitBounds.PlanOrder | backend/app/modules/strategy_generator/sl_tp_calculator.py:82-166 | stop, entry, TP1, TP2 in order for every level list, strictly exactly when ATR is positive or a level pays a positive risk |
| StopTakeProfitBounds.RoundedOrder | backend/app/modules/strategy_generator/sl_tp_calculator.py:75-79 | the weak order survives rounding, on any candles |
| StopTakeProfitBounds.GuardReached | backend/app/modules/strategy_generator/sl_tp_calculator.py:157-164 | the guard called unreachable, for every risk: it fires exactly when the nearest paying level occurs twice and pays twice the risk, or there is no risk and that level alone, at least six ATR away; without a paying level, exactly when risk and ATR are 0 |
| StopTakeProfitBounds.PlanGuardReached | backend/app/modules/strategy_generator/sl_tp_calculator.py:53-79 | on a plan, by its inputs: with risk exactly when the nearest paying level is there twice and pays twice the risk; without ATR and adverse levels also when at most one favourable level is there |
| StopTakeProfitBounds.GuardReachedExample | backend/app/modules/strategy_generator/sl_tp_calculator.py:157-164 | a concrete plan with risk that takes the guard |
| StopTakeProfitBounds.GuardReachedWithoutRisk | backend/app/modules/strategy_generator/sl_tp_calculator.py:157-164 | a concrete plan without candles that takes it on a single level |
| ReportBuilder.BuildStrategies | backend/app/modules/strategy_generator/report_builder.py:142-167 | one strategy per entry point, in order, with its plan and both ratios |
| ReportBuilder.BuildReport | backend/app/modules/strategy_generator/report_builder.py:60-80 | the published strategies are the favourable ones in order, and the skip reason |
| ReportBuilder.KeptExactly | backend/app/modules/strategy_generator/report_builder.py:72-75 | the filter keeps exactly the strategies without a ratio above 1.0 |
| ReportBuilder.KeptInOrder | backend/app/modules/strategy_generator/report_builder.py:72-75 | the published strategies stand, in order, at exactly the places of favourable ones |
| ReportBuilder.RatioIs | backend/app/modules/strategy_generator/report_builder.py:104-116 | a ratio is risk over reward to within half of a hundredth, and there is none exactly without a price or without reward |
| ReportBuilder.FavourableIff | backend/app/modules/strategy_generator/report_builder.py:104-116 | published exactly if the rounded reward is below the epsilon or the rounded risk is at most 1.005 times the reward |
| ReportBuilder.SecondRatioNoWorse | backend/app/modules/strategy_generator/report_builder.py:162-163 | the ratio of TP2 never exceeds that of TP1 |
| OhlcvCache.CachedOhlcv | backend/app/modules/data_acquisition/ohlcv_cache.py:30-48 | the rows of one pair, strictly ascending, all of them and no others |
| OhlcvCache.LatestTimestamp | backend/app/modules/data_acquisition/ohlcv_cache.py:51-59 | the greatest timestamp of the pair, if it has any |
| OhlcvCache.LatestFetchedAt | backend/app/modules/data_acquisition/ohlcv_cache.py:62-67 | the greatest fetch time among the rows of the pair, if it has any |
| OhlcvCache.OhlcvCacheService.UpsertOhlcv | backend/app/modules/data_acquisition/ohlcv_cache.py:70-107 | the chunk loop, for any chunk size and any clock readings, ends in the last-wins merge `Upserted` |
| OhlcvCache.OhlcvCacheService.ClearCache | backend/app/modules/data_acquisition/ohlcv_cache.py:110-113 | exactly the rows of other pairs remain, unchanged, and the pair has no latest timestamp, so that the next call is a full fetch |
| OhlcvCache.OhlcvCacheService.GetOhlcv | backend/app/modules/data_acquisition/ohlcv_cache.py:132-177 | the table after a call and the answer, on miss, stale and hit, with a fetch that returns or raises |
| OhlcvCacheLaws.FullFetchIff | backend/app/modules/data_acquisition/ohlcv_cache.py:116-160 | a call fetches everything exactly if the pair has no row, or its timeframe is M15, H1 or H4 and every row of it was fetched more than 300 seconds ago |
| OhlcvCacheLaws.FullFetchAnswer | backend/app/modules/data_acquisition/ohlcv_cache.py:143-160 | then a non-empty fetch is stored and answered as it came, and an empty one leaves the table and is answered by it |
| OhlcvCacheLaws.ChunksDoNotMatter | backend/app/modules/data_acquisition/ohlcv_cache.py:92-104 | chunked upsert leaves the bars of one row-by-row statement |
| OhlcvCacheLaws.UpsertedRow | backend/app/modules/data_acquisition/ohlcv_cache.py:92-104 | each written timestamp holds its last bar; every other row is the row it was |
| OhlcvCacheLaws.DeltaIsFullIff | backend/app/modules/data_acquisition/ohlcv_cache.py:163-172 | a delta fetch equals a full upsert exactly if the provider agrees with the cache below the latest timestamp |
| OhlcvCacheLaws.RaisingFetch | backend/app/modules/data_acquisition/ohlcv_cache.py:143-175 | a raising fetch changes nothing, and surfaces exactly on miss or stale |
| OhlcvCacheLaws.HitKeepsOlder | backend/app/modules/data_acquisition/ohlcv_cache.py:161-177 | a hit alters no row older than the latest and no other pair, and returns the whole table of the pair |
| OhlcvCacheLaws.FetchedIsCached | backend/app/modules/data_acquisition/ohlcv_cache.py:143-172 | every fetched candle at or after the latest timestamp is cached afterwards |
| OhlcvCacheLaws.LatestNeverDecreases | backend/app/modules/data_acquisition/ohlcv_cache.py:132-177 | over any run of calls without clearing the pair, its latest timestamp never decreases |
| OhlcvCacheLaws.OtherPairsUntouched | backend/app/modules/data_acquisition/ohlcv_cache.py:70-113 | no run of calls for other pairs touches a row |
| TwoStoreCache.BuildKeyInjective | backend/app/modules/data_acquisition/redis_cache.py:21-23 | different keys of one cache never share a Redis key |
| TwoStoreCacheObjects.InMemoryCache.Set | backend/app/modules/data_acquisition/cache.py:25-30 | expired entries go, then a victim if a new key needs room; the entry gets the global TTL |
| TwoStoreCacheObjects.RedisCache.Get | backend/app/modules/data_acquisition/redis_cache.py:25-46 | a reachable Redis alone answers; otherwise the fallback does |
| TwoStoreCacheObjects.RedisCache.Set | backend/app/modules/data_acquisition/redis_cache.py:48-69 | exactly one store is written, and which one |
| TwoStoreCacheObjects.RedisCache.Invalidate | backend/app/modules/data_acquisition/redis_cache.py:71-80 | Redis if reachable, the fallback always |
| TwoStoreCacheRuns.ReadsWereWritten | backend/app/modules/data_acquisition/redis_cache.py:25-80 | under any failure schedule, what a read returns was written for that key less than the larger TTL ago; the fallback stays within 256 entries |
| TwoStoreCacheRuns.ReadAfterWrite | backend/app/modules/data_acquisition/redis_cache.py:25-69 | right after a write a read sees the new value exactly if it meets the store the write reached, else what it saw before |
| TwoStoreCacheRuns.ReadUntil | backend/app/modules/data_acquisition/redis_cache.py:48-69 | the written value can be read in its store exactly until its time to live is over: the given one in Redis, None and 0 standing for the default, and always the default in the fallback |
| TwoStoreCacheRuns.FallbackLoses | backend/app/modules/data_acquisition/cache.py:25-30 | a fallback write loses a live entry of another key only as victim, and only for a new key when 256 are live |
| TwoStoreCacheRuns.StaleRead | backend/app/modules/data_acquisition/redis_cache.py:25-69 | a run in which a read returns the value that was overwritten |
| TwoStoreCacheRuns.ReadBack | backend/app/modules/data_acquisition/redis_cache.py:25-69 | the value stays readable there, whatever happens, until it expires, is overwritten, invalidated or evicted |
| TwoStoreCacheRuns.InvalidatedMisses | backend/app/modules/data_acquisition/redis_cache.py:71-80 | after an invalidation that reached Redis every read misses until the next write of the key |
| TwoStoreCacheRuns.InvalidateIff | backend/app/modules/data_acquisition/redis_cache.py:71-80 | an invalidation leaves nothing readable exactly if it reached Redis or Redis held nothing live |
| TwoStoreCacheRuns.LostInvalidation | backend/app/modules/data_acquisition/redis_cache.py:71-80 | a run in which a read returns the value that was invalidated |
| IkiDetector.AtrByArray | backend/app/modules/pattern_recognition/iki_detector.py:142-161 | the array of true ranges gives the average true range of the stop-loss calculator |
| IkiDetector.FindIki | backend/app/modules/pattern_recognition/iki_detector.py:65-139 | returns a pattern satisfying the declarative description, or none exists from that start |
| IkiDetector.IkiInPrices | backend/app/modules/pattern_recognition/iki_detector.py:65-139 | a bullish pattern in prices, without functions of the detector: rise, retracement of 38.2 to 61.8 percent, second rise, their windows and first occurrences, and the confidence; bearish ones are these on the mirrored market |
| IkiDetector.DetectIkiPattern | backend/app/modules/pattern_recognition/iki_detector.py:13-62 | per direction the pattern with the greatest start in the scanned range, if any; at most one each |
| IkiDetector.ScannedStarts | backend/app/modules/pattern_recognition/iki_detector.py:36-62 | the answer is the latest pattern among starts from the ATR period on, in the last sixty candles but ten, at twice the ATR |
| IkiDetector.DetectionBounds | backend/app/modules/pattern_recognition/iki_detector.py:73-137 | start < impulse end < correction end < second end < n, reach 32, impulse at least the threshold, confidence in [0.65, 1] |
| IkiDetector.IkiUnique | backend/app/modules/pattern_recognition/iki_detector.py:73-137 | one start has at most one pattern of a direction |
| IkiDetector.IkiMirror | backend/app/modules/pattern_recognition/iki_detector.py:65-139 | patterns of the market upside down are the patterns with the direction flipped |
| IkiDetector.LatestMirror | backend/app/modules/pattern_recognition/iki_detector.py:46-62 | so is the latest pattern of a range of starts |
| IkiDetector.LatestUnique | backend/app/modules/pattern_recognition/iki_detector.py:46-62 | the description of the answer determines it |
| IkiDetector.DetectionMirror | backend/app/modules/pattern_recognition/iki_detector.py:13-62 | of two answers of the detector, on a market and on its mirror image, each direction of one is the flipped other direction of the other |
| SignalOutcome.LabelSignalOutcome | backend/app/modules/signal_aggregation/threshold_calibration.py:149-204 | the early-return loop computes `Label`; missing data is unknown |
| SignalOutcome.OutcomeIff | backend/app/modules/signal_aggregation/threshold_calibration.py:169-204 | won (lost) exactly if some candle hits the target (stop) alone and no earlier candle hits either |
| SignalOutcome.OutcomeInPrices | backend/app/modules/signal_aggregation/threshold_calibration.py:178-204 | the same in highs and lows: LONG wins on the first high at the take profit, loses on the first low at the stop, and SHORT the other way round |
| SignalOutcome.PrefixDecides | backend/app/modules/signal_aggregation/threshold_calibration.py:178-204 | a hit, even an ambiguous one, fixes the label under any continuation |
| SignalOutcome.LabelMirror | backend/app/modules/signal_aggregation/threshold_calibration.py:182-189 | negating prices and swapping high and low swaps LONG and SHORT |
| SignalOutcome.EasingKeepsWins | backend/app/modules/signal_aggregation/threshold_calibration.py:178-204 | an easier target and a looser stop never spoil a win |
| Calibration.CandidateMetrics.AccumulateMetrics | backend/app/modules/signal_aggregation/threshold_calibration.py:255-299 | one sample moves the counters of its direction and outcome, and the total |
| Calibration.EvaluateCandidates | backend/app/modules/signal_aggregation/threshold_calibration.py:224-252 | one metrics object per candidate, in order, with the tally of all samples |
| Calibration.RecommendCandidate | backend/app/modules/signal_aggregation/threshold_calibration.py:302-329 | none exactly if nothing is viable, else the first lexicographic minimum of false rate and negated coverage |
| CalibrationLaws.BetterInCounts | backend/app/modules/signal_aggregation/threshold_calibration.py:302-329 | of two viable candidates the better one has fewer wrong signals per settled one, or as many and more settled ones per sample |
| CalibrationLaws.RecommendedInCounts | backend/app/modules/signal_aggregation/threshold_calibration.py:302-329 | no viable candidate beats the recommended one in these counts |
| CalibrationLaws.CountersCount | backend/app/modules/signal_aggregation/threshold_calibration.py:207-299 | every counter is the number of samples of its kind, by score and thresholds |
| CalibrationLaws.Conservation | backend/app/modules/signal_aggregation/threshold_calibration.py:255-299 | total = long + short + neutral, long + short = resolved + unknown |
| CalibrationLaws.RatesAreComplements | backend/app/modules/signal_aggregation/threshold_calibration.py:101-126 | coverage + neutral rate = 1 and precision + false rate = 1 when defined |
| CalibrationLaws.WideningFindsFewer | backend/app/modules/signal_aggregation/threshold_calibration.py:207-221 | widening an ordered pair never adds signals of either direction |
| CalibrationLaws.WideningNeedsOrder | backend/app/modules/signal_aggregation/threshold_calibration.py:207-221 | widening a pair adds no signal of either direction, on any samples, exactly if the pair is in order |
| CalibrationLaws.TallyPermutes | backend/app/modules/signal_aggregation/threshold_calibration.py:224-252 | the order of the samples does not matter |
| MarketSignals.CalculateSummaries | backend/app/modules/technical_analysis/summary.py:4-62 | the counting loops compute the three tallies and answers |
| MarketMeaning.OverallIs | backend/app/modules/technical_analysis/summary.py:4-62 | the overall tally counts buys with strong buys and sells with strong sells over all indicators and both signals of every average, and the overall answer is decided on it |
| MarketSignals.NormalizeTaSignal | backend/app/modules/signal_aggregation/aggregator.py:52-70 | the summary score, or the mean of all scores |
| MarketMeaning.TaSignalIs | backend/app/modules/signal_aggregation/aggregator.py:52-70 | without a summary: a point per strong buy and half a one per buy, less the same for sells, per signal |
| MarketSignals.NormalizePatternSignal | backend/app/modules/signal_aggregation/aggregator.py:72-98 | the accumulated signed sum over the maximal weight |
| MarketMeaning.WeightsCounted | backend/app/modules/signal_aggregation/aggregator.py:72-98 | the maximal weight counts 1, 1.3 or 1.6 per pattern by reliability |
| MarketMeaning.NextPattern | backend/app/modules/signal_aggregation/aggregator.py:72-98 | one more pattern moves the weighted sum by its relevance, or else its confidence, times its weight, up if bullish and down if not |
| MarketSignals.CalculateWeightedScore | backend/app/modules/signal_aggregation/scoring.py:22-42 | the weighted loop over the three sources, for any weights |
| MarketMeaning.ScoreIs | backend/app/modules/signal_aggregation/scoring.py:22-42 | for any weights: within [-1, 1], the weighted mean when that is, and 0 when the weights cancel out |
| MarketMeaning.DirectionIs | backend/app/modules/signal_aggregation/scoring.py:45-68 | LONG exactly at or above the upper threshold, SHORT exactly at or below the lower one otherwise; the defaults are 0.15 and -0.15 |
| MarketSignals.ConfirmPatterns | backend/app/modules/strategy_generator/confidence_scorer.py:100-133 | the accumulated confirmation of a direction |
| MarketMeaning.SummaryAgreement | backend/app/modules/strategy_generator/confidence_scorer.py:65-77 | the technical agreement is the share of the signals of the summary that point in the direction |
| MarketMeaning.IndicatorAgreement | backend/app/modules/strategy_generator/confidence_scorer.py:79-86 | without a summary, the share of the indicators that do |
| MarketMeaning.FundamentalIs | backend/app/modules/strategy_generator/confidence_scorer.py:136-144 | the fundamental score as a signal and as agreement with either direction |
| MarketMeaning.AdxIs | backend/app/modules/strategy_generator/confidence_scorer.py:147-153 | a fiftieth of the first ADX reading, at most 1, and a half without any |
| MarketSignals.CalculateConfidence | backend/app/modules/strategy_generator/confidence_scorer.py:24-62 | the four factors, weighed, clamped and rounded |
| MarketMirror.OverallSignalIff | backend/app/modules/technical_analysis/summary.py:74-87 | each of the five answers, as an exact bound on the counts |
| MarketMirror.SummaryMirror | backend/app/modules/technical_analysis/summary.py:4-87 | swapping buy and sell in all signals mirrors the summary |
| MarketMirror.PatternClampIdle | backend/app/modules/signal_aggregation/aggregator.py:98 | the clamp of the pattern signal never fires |
| MarketMirror.ConfirmationIsPositivePart | backend/app/modules/strategy_generator/confidence_scorer.py:100-133 | the confirmation is the positive part of the pattern signal (LONG) or of its negation (SHORT) |
| MarketMirror.ScoreMirror | backend/app/modules/signal_aggregation/scoring.py:22-42 | mirroring all inputs negates the score, for any weights |
| MarketMirror.ScoreClampIdle | backend/app/modules/signal_aggregation/scoring.py:40-42 | with the default weights the score is the plain weighted mean, within [-1, 1] |
| MarketMirror.DirectionMirror | backend/app/modules/signal_aggregation/scoring.py:45-68 | negated score and thresholds flip the direction, thresholds being ordered |
| MarketMirror.DecisionMirror | backend/app/modules/signal_aggregation/scoring.py:45-68 | the decision on the mirrored market is the opposite one |
| MarketMirror.ConfidenceMirror | backend/app/modules/strategy_generator/confidence_scorer.py:24-153 | a direction is as certain as its opposite on the mirrored market |
| MarketMirror.ConfidenceClampIdle | backend/app/modules/strategy_generator/confidence_scorer.py:24-62 | the confidence is the rounded weighted mean of four factors in [0, 1], as a percentage; its clamp and guard never fire |
| MarketMirror.AnswerMirror | backend/app/modules/signal_aggregation/scoring.py:22-68 | from raw signals to answer: opposite direction, same confidence |
| LogUrlPass.UrlParts | backend/app/core/logging_config.py:43-47 | a match decomposes into protocol, credentials, rest of the word and rest of the text, cut at the last @ of the word |
| LogUrlPass.UrlIs | backend/app/core/logging_config.py:43-47 | conversely every text of that shape is a match with those parts |
| LogUrlPass.UrlMaskedAgain | backend/app/core/logging_config.py:50-68 | a masked match is matched again, with the same secret |
| LogUrlPass.UrlPassIdempotent | backend/app/core/logging_config.py:50-68 | the URL pass is idempotent on every text |
| LogKeyValuePass.TailShape | backend/app/core/logging_config.py:77-81 | a tail is spaces, a separator, spaces and the start of a value |
| LogKeyValuePass.PlainTail | backend/app/core/logging_config.py:77-81 | a value is taken up to the first character that cannot be part of it |
| LogKeyValuePass.BearerTail | backend/app/core/logging_config.py:77-81 | behind Bearer and spaces the token is taken as well |
| LogKeyValuePass.KeyUnique | backend/app/core/logging_config.py:78 | at most one alternative matches with a tail, so their order is irrelevant |
| LogMasking.ValueMasked | backend/app/core/logging_config.py:77-84 | said of characters: for each of the nine names, in any case of its letters, behind text without a separator, blanks and a separator, the printable value up to a blank or delimiter becomes three stars |
| LogMasking.ValueMaskedInside | backend/app/core/logging_config.py:77-84 | the same behind any text, wherever the scan comes to the name |
| LogMasking.BearerMasked | backend/app/core/logging_config.py:77-84 | the same of a token behind Bearer in any case |
| LogMasking.UrlMaskedWithUser | backend/app/core/logging_config.py:43-68 | said of characters: a URL keeps protocol, user and host and loses its secret, up to the last @ of the word |
| LogMasking.UrlMaskedWithoutUser | backend/app/core/logging_config.py:43-68 | without a user the whole credentials go |
| LogMasking.PlainMessageKept | backend/app/core/logging_config.py:87-107 | a message without @, = and : is returned as it is |
| LogMasking.DocumentedExamples | backend/app/core/logging_config.py:94-98 | the two documented examples |
| LogKeyValuePass.KeyValuePassIdempotent | backend/app/core/logging_config.py:77-84 | the key=value pass is idempotent on every text |
| LogSanitizer.UrlsMaskedIff | backend/app/core/logging_config.py:50-68 | the fixed points of the URL pass are the texts whose URL secrets are all masked |
| LogSanitizer.ValuesMaskedIff | backend/app/core/logging_config.py:77-84 | the fixed points of the key=value pass are the texts whose values are all masked |
| LogSanitizer.SanitizeMasks | backend/app/core/logging_config.py:87-107 | after the URL pass no URL secret, after both passes no value is left unmasked |
| LogSanitizer.NoUndo | backend/app/core/logging_config.py:104-107 | the key=value pass cannot undo a change of the URL pass |
| LogSanitizer.SecondCallIff | backend/app/core/logging_config.py:87-107 | a second call changes a sanitized text exactly if the first left an unmasked URL secret in it |
| LogWords.WordByWord | backend/app/core/logging_config.py:43-68 | a text has all URL secrets masked exactly if each word has |
| LogExposure.KeptHeadIff | backend/app/core/logging_config.py:77-84 | behind the key=value pass a word starts with protocol and :// exactly if the input had them and no key matches in the protocol |
| LogExposure.PassMasked | backend/app/core/logging_config.py:77-84 | on a text with all URL secrets masked, the key=value pass keeps them masked exactly if nowhere a match behind a kept :// in its word leaves an @ with an unmasked secret |
| LogRepetition.SanitizeIdempotentIff | backend/app/core/logging_config.py:87-107 | a second call changes nothing exactly if that is so of the output of the URL pass |
| LogRepetition.SanitizeIdempotentIfApart | backend/app/core/logging_config.py:87-107 | in particular if no key matches behind a kept :// in its own word |
| LogRepetition.SecondCallCauses | backend/app/core/logging_config.py:87-107 | whenever it changes something, such a match takes the space that ended the word or the @ that ended the credentials |
| LogSanitizer.SanitizeIdempotentWithoutAt | backend/app/core/logging_config.py:87-107 | on messages without @ the whole sanitizer is idempotent |
| LogRepetition.NotIdempotent | backend/app/core/logging_config.py:102 | a message on which the documented idempotence fails because the masked @ is taken |
| LogRepetition.NotIdempotentAcrossSpace | backend/app/core/logging_config.py:102 | one on which it fails because a space is taken, with one @ and no credentials |
| Resampling.ResampleToWeekly | backend/app/modules/data_acquisition/providers/fmp_provider.py:95-119 | the bucket loop builds one candle per run of equal weeks |
| Resampling.SameWeekIff | backend/app/modules/data_acquisition/providers/fmp_provider.py:103-117 | two candles share a week exactly if they are in the seven days from one Monday on |
| Resampling.OpensAndCloses | backend/app/modules/data_acquisition/providers/fmp_provider.py:84-92 | the candle of a bucket opens with its first and closes with its last candle |
| Resampling.ResampleTo4h | backend/app/modules/data_acquisition/providers/yfinance_provider.py:123-147 | the bucket loop builds one candle per complete group of four |
| Resampling.Extremes | backend/app/modules/data_acquisition/providers/fmp_provider.py:84-92 | high and low of a bucket bound it and are reached in it |
| Resampling.VolumeConserved | backend/app/modules/data_acquisition/providers/fmp_provider.py:84-119 | building consecutive buckets conserves the volume |
| Resampling.ExtremesKept | backend/app/modules/data_acquisition/providers/fmp_provider.py:84-119 | and the highest high and lowest low |
| Resampling.WellFormedKept | backend/app/modules/data_acquisition/providers/fmp_provider.py:84-92 | and well-formedness of candles |
| Resampling.WeeksPartition | backend/app/modules/data_acquisition/providers/fmp_provider.py:103-117 | the weekly buckets concatenate back to the input, share a week inside and change it between |
| Resampling.OneCandlePerWeek | backend/app/modules/data_acquisition/providers/fmp_provider.py:103-117 | on candles in order each week gets exactly one candle |
| Resampling.WeeksOfParts | backend/app/modules/data_acquisition/providers/fmp_provider.py:95-119 | resampling two stretches apart and together agree exactly if the week changes between them |
| Resampling.FoursCover | backend/app/modules/data_acquisition/providers/yfinance_provider.py:131-147 | floor(n/4) groups, which are the input without at most three last candles |
| Resampling.FourHoursOfParts | backend/app/modules/data_acquisition/providers/yfinance_provider.py:123-147 | cut at a multiple of four, data can be resampled piece by piece |
| Rounding.HalfEvenUnique | backend/app/modules/strategy_generator/sl_tp_calculator.py:75-79 | round-half-to-even is determined by nearness and the even tie |
| Rounding.RoundNear | backend/app/modules/strategy_generator/sl_tp_calculator.py:75-79 | a rounded number is a multiple of the unit, at most half a unit away |
| Rounding.RoundMonotone | backend/app/modules/strategy_generator/sl_tp_calculator.py:75-79 | rounding never reverses an order |
| Rounding.RoundOdd | backend/app/modules/strategy_generator/sl_tp_calculator.py:75-79 | rounding commutes with negation |

## Left out

- IEEE 754 rounding error, NaN and infinities: prices, scores and clocks are `real`; only the explicit `round` calls round. A division by a zero cluster mean, which numpy answers with a non-number, is a comparison that fails.
- Redis losing data under the limiter, a script that takes effect and then reports an error, and asyncio cancellation: assumed away. The two-store cache does let Redis evict entries.
- SupportResistanceLaws.MeansApart: assumes positive prices, as do the other separation and permutation laws, because with a zero or negative mean the percentage has no meaning; the partition itself is proved for all prices and tolerances.
- AnalysisRuns.TriggerAnswers: analysis ids are fresh, as version-4 UUIDs are taken to be; a collision would replace the status of a live run.
- AnalysisRuns.EveryRunLeaves: assumes that every await returns or raises.
- OhlcvCache.OhlcvCacheService.GetOhlcv: one session at a time; other writers between the query and the upsert, failing transactions and partially committed chunks are not modelled, nor are database errors swallowed by the hit branch.
- TwoStoreCacheObjects.RedisCache.Get: JSON is taken to return what was stored; None values, tuples and non-string keys, and corrupted Redis data are not modelled.
- TwoStoreCacheObjects.InMemoryCache.Set: the evicted entry is any live one, where cachetools has an order.
- Calibration.RecommendCandidate: works on what the metrics objects hold, not on the objects, so the identity of the returned object is not captured.
- MarketMirror.ConfidenceClampIdle: assumes ADX readings that are not negative, as the indicator has them; the code has no lower clamp on that factor.
- MarketSignals.CalculateWeightedScore: an empty weight dictionary counts as no dictionary, as in the code; weights for unknown sources are dropped.
- Regex extraction of prices from description strings: levels enter as pairs of price and kind.
- Extrema detection, indicator values, TA-Lib, numpy polynomial fits: any inputs.
- HTTP clients, retries, provider symbol tables and payload parsing, schedules of real I/O.
- Authentication, CORS, rate limiting by route, correlation ids, settings, migrations, the user interface.
- Texts of descriptions and entry conditions, pivot formulas, single-threshold ratings: they would add only easy members.
- SocketRuns.SocketAge: that each await of the endpoint, the 0.5 second sleep included, ends within d seconds is assumed; the code sets no such bound on sends.
- AnalysisSockets.FinalStatusSentIff: heartbeat frames and the duration limit are one event that drops the socket, and the sleep is any delay; their clock is in `SocketRuns`.
- Limiter.AttemptPrunesIff: whether the interpreter has `table.unpack` is a parameter, because Redis and its Lua are not part of the repository.
- The REST endpoints that read a finished report back from cache or database.
- LogMasking.ValueMasked: values and URLs of printable ASCII; for other text the same is said through the character classes (`LogKeyValuePass.PlainTail`, `LogUrlPass.UrlParts`).
