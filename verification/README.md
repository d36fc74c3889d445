# Feature store verification

A Dafny model of the feature store's logic, with proofs about it: how windowed features are computed and joined,
what the online and the offline store hold after any run of writes, refreshes and faults, when the two agree, and what
the consistency, divergence and drift figures can and cannot report. `dafny verify dfyconfig.toml` checks everything.

## What is modelled

**Windowed features.** Events, window assignment and mergeable accumulators are in `Windows.dfy`; the five feature
columns in `Features.dfy`; the chain of left joins in `FeatureJoin.dfy`; the 24-hour anomaly score in `Anomaly.dfy`.
`FeatureValues.dfy` says in plain terms what all of them amount to: which windows, in seconds, have an entry, which of the
user's events give its number, and which combinations of these numbers are delivered.
Grouping is a map from (user, window start) to an accumulator. A stream is a list of micro-batches whose accumulators are
merged, a backfill is one aggregation over all events, and both yield the same tables. Output order, which Spark leaves
open, is an argument: every result holds for each duplicate-free listing of a table.

**The two stores.** `OnlineStore.dfy` has the Redis hashes with their expiry and the active-user index as an object that
commands change, and its three writers as the loops that queue those commands; `OnlineRuns.dfy` reasons about whole
histories of them and `CacheRefresh.dfy` about the sweeps that extend lifetimes. `OfflineStore.dfy` has the Delta table,
its merge, the first overwrite and the fallback files. `Agreement.dfy` runs both sinks over one list of batches, with
replays, faults and waiting interleaved in any way, and carries the outcome into the report of `Validator.dfy`.
`RepeatedUsers.dfy` and `Pipeline.dfy` feed the sinks with batches in which users repeat, as the joins really produce them.

**Divergence and drift.** `Histogram.dfy`, `Psi.dfy` and `StatisticalTests.dfy` are the binned divergences and the z-score;
`Drift.dfy` is the detector built on them. The logarithm is any function that turns products into sums and satisfies
ln x <= x - 1; the square root is any function that is non-negative and squares back. Everything else is derived.

**Two stateful loops.** `EventGenerator.dfy` assigns sessions to generated events, `SeedData.dfy` seeds the registry with
dictionaries whose lineage is taken out and put back, including inserts that fail halfway.

Objects whose methods change state are classes (`Redis`, `SyncRedisClient`, `DeltaSink`, `EventStream`, `Seed`,
`Session`), and each method is proved against a function of the old state; the lemmas are about those functions. Numbers are reals, time is
in whole seconds, and `round(x, d)` is rounding to the nearest multiple with ties to even.

## Findings

Where the code does less than its documentation says, the model follows the code and the exact condition is proved.

- `compute_all_features` promises a single row per user per window. The joins drop the window, so each base row comes out once
  per combination of the user's rows in the four other tables, at least twelve times. The promise holds exactly when the
  batch has no purchase (`FeatureJoin.OneRowPerWindowIffNoPurchase`).
- The micro-batches the processor makes therefore always repeat their purchasers, and Delta refuses such a merge exactly if
  one of them already has a row of the day (`Pipeline.RefusedIffPurchaserKnown`). So each purchaser is stored by the first
  batch of the day that lands and by no other, and later ones go to the fallback files (`Pipeline.BatchLandsIff`,
  `Pipeline.FirstPurchaseOfDayWins`), while the online store moves on (`Pipeline.PurchaserAgreement`).
- The scorer's comment that windows overlap for the same user holds exactly for users whose purchases all lie in one
  five-minute pane (`Anomaly.JoinedWindowsContainIffOnePane`); outside, the score has no bound at all.
- `offline_value == online_value` holds for a user exactly if some dated row of the user has landed and every row that landed
  last for its latest day carries the six features of the row delivered last (`Agreement.StoresAgree`). Among the runs in
  which it fails are those with a lost delivery (`Agreement.UnrepairedFaultBreaksAgreement`), those with a date that goes
  backwards (`Agreement.EarlierDayBreaksAgreement`), and, with no fault at all, those with different rows of the user in one
  batch (`Agreement.RowsOfOneBatchBreakAgreement`). The last is the ordinary case: the joins give every purchaser whose
  one-hour averages differ such rows (`Pipeline.VaryingSpendBreaksAgreement`).
- The streaming sink calls `row.get` (`streaming/redis_sink.py:41-47`) on collected PySpark rows, which have no such method, so
  every non-empty batch would raise there. The model reads the rows as the dictionaries the code takes them for.
- The refresh job runs every 300 seconds with a threshold of 60 and a lifetime of 300, so a key that is not rewritten never
  lives to see the second sweep after its write (`CacheRefresh.ScheduledRefreshIsTooRare`).
- The health check compares a rounded rate: it tolerates slightly more than 1% (`Validator.HealthyIff`).
- A baseline of equal values has index 0 against anything and can never raise a critical alert
  (`Drift.AlertReachableIff`).
- If the insert of a seed fails, that seed keeps no lineage in memory, so a caller that survives the failure and retries in
  the same process registers the feature without any lineage (`SeedData.RetryLosesLineage`). The service itself calls the
  loop once at startup, where the failure ends the process.

## Model

| member | source | states |
|---|---|---|
| Windows.EventInExactlyItsWindows | streaming/feature_definitions.py:33 | a sliding window assignment puts each event into exactly size/slide windows (12 for one hour, 288 for a day), each once, and those are exactly the aligned windows that contain it |
| Windows.WindowByPane | streaming/feature_definitions.py:33 | which windows contain an event depends only on the five-minute pane the event lies in |
| Windows.KeySetIsNonEmptyGroups | streaming/feature_definitions.py:18-23 | a group exists exactly for the aligned windows that hold an event of the user |
| Windows.TotalsMeaning | streaming/feature_definitions.py:67-74 | the accumulated sums are the counts of events, carts and purchases and the count, sum and sum of squares of the non-null amounts |
| Windows.AggregateConcat | streaming/feature_definitions.py:14-100 | aggregating two lists separately and merging equals aggregating them together |
| Windows.AggregatePermuted | streaming/feature_definitions.py:14-100 | the order of events does not matter |
| Windows.StreamEqualsBatch | streaming/feature_processor.py:78-81 | for any order of the events and any split into micro-batches the merged stream state equals the batch aggregation |
| Windows.SlidingWindowRefinesPanes | streaming/feature_definitions.py:27-37 | the accumulator of a sliding window equals its consecutive panes merged |
| Windows.WindowCountsConserveEvents | streaming/feature_definitions.py:14-24 | a user's counts over all windows add up to the number of events times the windows per event |
| Features.StreamingEqualsBackfill | offline_store/backfill.py:72 | all five feature tables are the same in the streaming job and in the backfill, for any order and batching of the same events; what their entries are is stated by the five `FeatureValues` tables below |
| Features.AvgAmountIsMean | streaming/feature_definitions.py:27-37 | avg_spend_1h is the mean of the non-null amounts of the group, null if there are none |
| Features.SessionRateRange | streaming/feature_definitions.py:40-57 | the rate times the number of distinct sessions is the number of events; it is at least 1, or 0 when every session is null |
| Features.CartRatioRange | streaming/feature_definitions.py:60-87 | the ratio lies in [0, 1], is 0 exactly when purchases cover carts, 1 exactly when nothing was bought, and otherwise is the unbought share |
| FeatureValues.TxnTable | streaming/feature_definitions.py:14-24 | txn_count_5m has an entry exactly for the five minutes, from any multiple of 300 seconds, that hold a purchase of the user, and it is the number of those purchases |
| FeatureValues.SpendTable | streaming/feature_definitions.py:27-37 | avg_spend_1h has one for any 3600 seconds, from a multiple of 300, that hold a purchase, and it is the mean of their known amounts, null without any |
| FeatureValues.SessionTable | streaming/feature_definitions.py:40-57 | session_activity_rate has one for any 300 seconds with an event of any kind, and it times the number of distinct known sessions is the number of events, 0 without known sessions |
| FeatureValues.CartTable | streaming/feature_definitions.py:60-87 | cart_abandon_ratio has one for any 1800 seconds with a cart addition or a purchase, and it is 0 if purchases cover the carts, else the share of the carts left over |
| FeatureValues.ViewTable | streaming/feature_definitions.py:90-100 | product_interaction_freq has one for any 3600 seconds, from a full hour, with a page view, and it is the number of page views |
| FeatureJoin.ChainRows | streaming/feature_definitions.py:115-136 | the join output is exactly the base rows paired with every combination of the user's values in the four tables |
| FeatureJoin.BaseRowsRepeated | streaming/feature_definitions.py:108-152 | every base row is kept, with its count value, as often as the product of the user's row counts (an absent user counting once) |
| FeatureJoin.SlidingTableFanout | streaming/feature_definitions.py:27-37 | one purchase alone puts twelve rows of its user into the table behind the first join |
| FeatureJoin.OneRowPerWindowIffNoPurchase | streaming/feature_definitions.py:103-106 | "a single row per user per window" holds if and only if no event is a purchase |
| FeatureJoin.DeliveredRanges | streaming/feature_definitions.py:108-152 | every output row has its window's own count of at least 1, ratio in [0, 1], rate of at least 1 for known sessions, and average spend between the user's least and greatest purchase |
| FeatureJoin.OnlyViewsAreFilled | streaming/feature_definitions.py:140 | with known amounts only product_interaction_freq is ever filled with 0, exactly for users without page views |
| FeatureJoin.TxnCountsAddUp | streaming/feature_definitions.py:14-24 | a user's txn_count_5m values add up to the user's purchases |
| FeatureJoin.RowsIgnoreOrder | streaming/feature_definitions.py:115-136 | the delivered rows are the same multiset whatever the order in which the five tables are held |
| Anomaly.ScorerStreamingEqualsBackfill | offline_store/backfill.py:73 | for any order and batching of the same events the stream holds the backfill's 5-minute and 24-hour accumulators, hence the same means and deviations, and emits the same multiset of scored rows whatever the listing order |
| Pipeline.DeliveredRowsEqual | offline_store/backfill.py:72-78 | end to end: the streaming job and the backfill deliver the same multiset of joined rows with their anomaly scores, for any order and batching of the same events and any listing of the tables |
| Anomaly.ScoredRowsAre | streaming/anomaly_scorer.py:43-57 | the scored rows are exactly all pairs of a pane and a day window of the same user, with the score of their two accumulators |
| Anomaly.ScoredGroupsAre | streaming/anomaly_scorer.py:17-57 | in terms of the purchases: every pane and every day window that hold one, scored by the purchases in the two windows |
| Anomaly.VarianceIsSpread | streaming/anomaly_scorer.py:26-29 | the variance computed from count, sum and sum of squares is the sum of squared distances from the mean over n - 1 |
| Anomaly.AnomalyScoreBound | streaming/anomaly_scorer.py:20-57 | k amounts scored against a day window of n amounts that contains them: score^2 * n * k <= (n - 1) * (n - k), including n = 1 and zero deviation |
| Anomaly.ConstantSpenderScoresZero | streaming/anomaly_scorer.py:43-57 | a user whose purchases are all equal scores 0 in every row |
| Anomaly.JoinedWindowsContainIffOnePane | streaming/anomaly_scorer.py:42-45 | every paired day window contains the scored pane if and only if all of the user's purchases share one pane, and then every score is 0 |
| Anomaly.ScoreUnboundedOutsideDay | streaming/anomaly_scorer.py:43-57 | otherwise there is no bound: for any given number some two purchases score higher |
| FeatureValues.ScoredWindows | streaming/anomaly_scorer.py:20-40 | scored are the 300 seconds and compared with are the 86400 seconds, both from any multiple of 300, that hold a purchase of the user |
| FeatureValues.ScoreIs | streaming/anomaly_scorer.py:43-57 | the score times (deviation of the day plus a millionth) is the distance between the mean amounts of the five minutes and of the day; 0 without amounts in the day, null without amounts in the five minutes |
| FeatureValues.RowCombines | streaming/feature_definitions.py:108-152 | every delivered row takes its seven columns from a five-minute window, the user's values in the four other tables, the user's scores and the clock, each in its place and 0 for null |
| FeatureValues.CombinationDelivered | streaming/feature_definitions.py:115-136 | and every such combination is delivered |
| FeatureValues.DeliveredValues | streaming/feature_processor.py:78-92 | the numbers of a delivered row in terms of the events: a purchase count, a mean spend, a session rate, a cart ratio and a page-view count of windows of the user, 0 page views only for users without any |
| FeatureValues.DeliveredScore | streaming/feature_processor.py:78-92 | with the scorer's rows joined in, the delivered anomaly_score is the score of some five minutes of the user's purchases against some day of them, 0 for null |
| OnlineStore.Redis.Execute | online_store/redis_client.py:53-58 | executing a pipeline leaves the state that its commands, applied in order, leave |
| OnlineStore.SyncRedisClient.WriteFeatures | online_store/redis_client.py:43-58 | the new state is the old one with the given features and the time stamp of `OnlineStore.WriteThenRead` overlaid, a full lifetime, and the user indexed |
| OnlineStore.WriteThenRead | online_store/redis_client.py:43-82 | a write is read back as the given numbers and a time stamp over what the key held, the stamp being the given one, or the clock of the write if it is missing or 0, with the ttl counting down, until exactly ttl seconds have passed, then nothing and -2; other users read what they would have read without it |
| OnlineStore.SyncRedisClient.BatchWriteFeatures | online_store/redis_client.py:65-79 | the new state is the old one with the present fields of every record written in order |
| OnlineStore.WriteFeaturesToRedis | streaming/redis_sink.py:28-54 | the new state is the old one with all seven fields of every row written in order, null or zero values as 0.0 |
| OnlineStore.EffectOfWrites | streaming/redis_sink.py:37-53 | a pipeline changes only its own users: each ends with its payloads overlaid in order and one lifetime, others keep key, fields and deadline |
| OnlineStore.SinkThenRead | streaming/redis_sink.py:37-53 | after the sink has written its rows a user is read back, for one lifetime, with all six features and the time stamp of the last row of that user, 0 for null, the write's clock for a missing or zero time |
| OnlineStore.BatchThenRead | online_store/redis_client.py:65-79 | after a batch write of one record a read finds each of the six fields the record has, null as the text "None", the others as before, and the record's time stamp or the clock |
| OnlineRuns.RecordAndRowPayloads | online_store/redis_client.py:69-75 | batch writer and sink store the same payload exactly for records with six non-null features and a usable time stamp |
| OnlineRuns.OneByOneIsSink | streaming/redis_sink.py:37-53 | writing the rows one at a time at one instant leaves the same state as the sink's pipeline |
| OnlineRuns.WritersAgree | online_store/redis_client.py:43-79 | on such records all three writers leave the same hashes, deadlines and index |
| OnlineRuns.RepeatedWritesChangeNothing | streaming/redis_sink.py:37-53 | writing a whole list again at the same instant changes nothing |
| OnlineRuns.LastRowWins | streaming/redis_sink.py:37-53 | of several rows of a user the last decides all seven fields |
| OnlineRuns.RunsAreConsistent | online_store/redis_client.py:43-79 | in every run from an empty store each live key's user is indexed, its remaining life lies in (0, T] and it carries computed_at |
| OnlineRuns.FieldHoldsLastWrite | online_store/redis_client.py:53-63 | in every run a live hash holds a value for a field if and only if it was the last one written since the key was last absent |
| CacheRefresh.FindStaleUsers | online_store/cache_refresh.py:16-24 | the sampled users with remaining life strictly between 0 and the threshold, in order |
| CacheRefresh.RefreshFeaturesForUsers | online_store/cache_refresh.py:27-48 | writes or extends user by user, skipping failures, and counts exactly the successes |
| CacheRefresh.SuccessesAre | online_store/cache_refresh.py:34-48 | the count is that of all listed users without a function, and of those for whom it returns otherwise |
| CacheRefresh.PlaceholderRefresh | online_store/cache_refresh.py:40-44 | without a function the listed live users get one full lifetime and nothing else changes |
| CacheRefresh.RecomputedRefresh | online_store/cache_refresh.py:34-45 | after a recomputation that succeeds the user's hash carries the recomputed numbers, the clock as computed_at and one full lifetime |
| CacheRefresh.SweepLifts | online_store/cache_refresh.py:16-45 | a sweep never shortens a lifetime, lifts every sampled live user to the threshold, and keeps the store consistent |
| CacheRefresh.LifetimeShrinksByTimeOnly | online_store/cache_refresh.py:16-48 | over any run a lifetime shrinks by no more than the time passed |
| CacheRefresh.FrequentSweepsKeepAlive | online_store/cache_refresh.py:13-24 | if sweeps that include a user come less than the threshold apart, the user's key survives any run in between |
| CacheRefresh.SafeSpacingIffBelowThreshold | online_store/cache_refresh.py:13-24 | spacing sweeps by at most g seconds keeps a key alive in every such run if and only if g is below the threshold |
| CacheRefresh.ScheduledRefreshIsTooRare | airflow/dags/feature_refresh_dag.py:26-48 | the scheduled job's own figures keep no unwritten key alive |
| OfflineStore.RowsAfterWrite | streaming/delta_sink.py:31-63 | for any row: a refused or failed write keeps every table row and appends the whole batch to the fallback, any other leaves the batch's rows and the unmatched old ones, and the fallback as it was |
| OfflineStore.EventDateIs | streaming/delta_sink.py:25 | the date of a row is the day of its time stamp, cut towards zero to whole seconds, null without one |
| OfflineStore.DeltaSink.WriteFeatures | streaming/delta_sink.py:13-65 | the whole new table and fallback: empty batches ignored, merge or first overwrite, all rows appended to the fallback after any error |
| OfflineStore.MergedRows | streaming/delta_sink.py:36-43 | after an accepted merge the table holds exactly the batch's rows and the old rows no batch row matches |
| OfflineStore.MergeKeepsKeysUnique | streaming/delta_sink.py:36-43 | unique (user, date) keys on both sides are accepted and stay unique |
| OfflineStore.ReplayHarmlessIffUniqueAndDated | streaming/delta_sink.py:20-63 | replaying a batch that did not fall back changes nothing if and only if its keys are unique and its dates non-null |
| OfflineStore.NothingIsLost | streaming/delta_sink.py:20-63 | over any run with faults, every delivered row is in the table or the fallback, or was replaced by a later row for the same user and date; rows of the latest batch are always there |
| OfflineStore.KeysStayUnique | streaming/delta_sink.py:33-53 | batches with unique keys keep the table's keys unique, and without outside faults nothing ever falls back |
| Validator.CompareUsers | validation/consistency_validator.py:57-75 | the outer loop counts exactly the users with some deviation above the threshold and collects all deviations per feature in order |
| Validator.CompareUser | validation/consistency_validator.py:61-72 | the inner loop flags the user exactly if some feature deviates, and appends one deviation to each list |
| Validator.ValidateConsistency | validation/consistency_validator.py:49-110 | the report as the means, the worst feature, the counts and the rounded rate of the sample; `Validator.ReportIs` says what these are |
| Validator.DeviationIs | validation/consistency_validator.py:44-46 | the deviation times (absolute offline value plus a millionth) is the distance of the two values |
| Validator.InconsistentIffFarOff | validation/consistency_validator.py:61-75 | a user is inconsistent if and only if for one of the six features the two values, 0 where missing, are further apart than threshold times (absolute offline value plus a millionth) |
| Validator.MissingOnlineDeviates | validation/consistency_validator.py:62-68 | a value that is missing online deviates by less than 1: times (absolute offline value plus a millionth) by that absolute value |
| Validator.ReportIs | validation/consistency_validator.py:57-94 | the counts are those of the sample and of the users that are far off; the rounded mean of a feature is within half a millionth of the mean of its relative deviations, 0 for an empty sample |
| Validator.FirstGreatestIs | validation/consistency_validator.py:82-83 | the worst feature is the first one with the greatest rounded mean deviation |
| Validator.InconsistencyNeedsDeviation | validation/consistency_validator.py:57-84 | threshold * inconsistent users / sample size <= number of features * (max_deviation + 0.0000005) for every non-empty sample |
| Validator.NobodyInconsistentIff | validation/consistency_validator.py:61-80 | no user is inconsistent if and only if every single deviation is within the threshold; then so is every feature's mean |
| Validator.EqualSidesReportZero | validation/consistency_validator.py:49-94 | equal values on both sides give rate 0, deviation 0 and a healthy report |
| Validator.HealthyIff | validation/consistency_validator.py:39-41 | a non-empty report is healthy if and only if the unrounded rate is at most 1.00005% |
| Validator.NoSkewIff | validation/skew_detector.py:12-25 | severity "none" means at most one inconsistent user in two million: smaller rates round to 0 |
| Validator.SkewLevels | validation/skew_detector.py:12-25 | all five levels in terms of the counts: more than 10%, 5%, 2% and 0% of the users, each but for half a millionth |
| Agreement.RunsAreSound | streaming/redis_sink.py:37-53 | for any batches, in every interleaving of deliveries, replays, faults, waiting and key extension: each live hash is its user's last delivered row, and the table is exactly the rows of landed batches that no later landed batch replaces |
| Agreement.LatestIff | streaming/delta_sink.py:29-63 | for any batches and faults a row is a latest offline row of its user if and only if it is dated, some landed batch holds it, no later landed batch matches it, and no landed row of the user has a later date |
| Agreement.LatestRowsAre | streaming/delta_sink.py:36-53 | the latest rows of a user are exactly the rows of one landed batch for that user and date, so there may be several |
| Agreement.LastIsLatestIff | streaming/delta_sink.py:36-43 | when no delivery was lost the last delivered row is a latest offline row if and only if it is dated and no delivered row of the user is of a later date |
| Agreement.StoresAgree | docs/architecture.md:114 | after any run on any batches every live hash has the six features and the time stamp of its user's last delivered row; the user has latest offline rows and all of them have the same six values if and only if some dated row of the user has landed and every row that landed last for its latest day carries that row's features; and that row is itself a latest one if and only if a landed batch holds it, none later replaces it, and nothing landed is of a later date |
| Agreement.LatestBatchDecides | docs/architecture.md:114 | given one latest row from batch k, the online values equal those of every latest offline row if and only if all the user's rows of batch k for that day have the features of the last delivered row |
| Agreement.ValidationReportsZero | validation/consistency_validator.py:61-84 | validating any sample of users that agree, with any choice of their latest rows, reports no inconsistency, deviation 0, healthy, no skew, at every threshold |
| Agreement.ValidationZeroIff | validation/consistency_validator.py:61-84 | and only those: at threshold 0 no choice of latest rows yields an inconsistent user if and only if every user of the sample agrees |
| Agreement.UniqueLandsIff | streaming/delta_sink.py:31-63 | a batch with unique (user, date) keys lands if and only if no fault strikes or it is empty |
| Agreement.UnrepairedFaultBreaksAgreement | streaming/delta_sink.py:54-63 | a witness for the fault half: one unreplayed fault leaves an online value and no offline row, hence no agreement |
| Agreement.EarlierDayBreaksAgreement | streaming/delta_sink.py:33-44 | a witness for the date half: for any second row of an earlier date the online store shows it while the first stays the latest offline, so that the values agree only if the two rows have equal features |
| Agreement.RowsOfOneBatchBreakAgreement | streaming/delta_sink.py:45-53 | a witness for repeated users: any two rows of a user and day with different features, delivered in one batch without any fault, leave a latest offline row that differs from the online values |
| Pipeline.BatchCleanIffNoPurchase | streaming/feature_processor.py:78-104 | the processor's micro-batches have one row per user if and only if they contain no purchase |
| Pipeline.RefusedIffPurchaserKnown | streaming/delta_sink.py:33-63 | without an outside fault a processor batch is refused if and only if the table already has a row of the day for one of its purchasers |
| Pipeline.BatchLandsIff | streaming/delta_sink.py:33-63 | in any run of the processor the next batch lands if and only if none of its purchasers bought in a landed batch of the same day |
| Pipeline.FirstPurchaseOfDayWins | streaming/delta_sink.py:33-63 | in any run, with faults and replays, no purchaser is stored by two batches of one day |
| Pipeline.PurchaserAgreement | docs/architecture.md:114 | for the processor's own batches: a live hash has its user's last row with its time stamp; there are latest offline rows and they have its values if and only if a purchase has landed and all the user's rows in the landed batch of its last purchase day carry the same six features; the row is in the table if and only if a batch holding it has landed, and is a latest one if and only if moreover nothing landed is of a later day |
| Pipeline.VaryingSpendBreaksAgreement | streaming/feature_definitions.py:115-119 | a purchaser whose one-hour averages differ between windows of its last landed purchase day is stored in disagreement, without any fault |
| Pipeline.SecondBatchOfTheDayFallsBack | streaming/delta_sink.py:33-63 | the first batch is stored with its duplicates, a second one of the day sharing a purchaser leaves the table alone and falls back |
| Histogram.ExactlyOneBin | validation/psi_calculator.py:37-38 | a value between the outer edges lies in exactly one bin, the last one closed, any other in none |
| Histogram.CountsConserveValues | validation/psi_calculator.py:37-38 | the counts add up to the number of values between the outer edges |
| Histogram.LinspaceIncreasing | drift_detection/statistical_tests.py:74 | the edges increase strictly from the lower to the upper bound |
| Histogram.EdgeOpensBin | validation/psi_calculator.py:37-38 | an inner edge lies in the bin it opens, not in the one it closes |
| Psi.ComputePsi | validation/psi_calculator.py:10-48 | the array computation equals the index as a function of the two samples |
| Psi.CountsOfSamples | validation/psi_calculator.py:28-38 | every expected value is counted once; exactly the actual values inside the edges are |
| Psi.BinsOfExpected | validation/psi_calculator.py:28-35 | the edges cut the range of the expected sample into equal parts, the last one moved up by a millionth |
| Psi.ShareOfBin | validation/psi_calculator.py:40-45 | a share times (sample size plus a millionth) is the count of its bin; an empty bin has a millionth |
| Psi.RawPsiIsTwoDivergences | validation/psi_calculator.py:47 | the sum is the divergence of the actual shares from the expected ones plus that of the expected from the actual |
| Psi.RawPsiSign | validation/psi_calculator.py:47 | the sum before the clamp is never negative, and 0 exactly when both samples have the same share in every bin |
| Psi.ClampIsIdle | validation/psi_calculator.py:48 | max(0.0, ...) never changes the value |
| Psi.RawPsiBound | validation/psi_calculator.py:34-47 | the sum is at most (2 + 2 * bins * EPSILON) * ln(1/d) for d the least share samples of these sizes can have |
| Psi.PsiIgnoresOrder | validation/psi_calculator.py:24-48 | permuting either sample changes nothing |
| Psi.PsiIgnoresTranslation | validation/psi_calculator.py:28-48 | shifting both samples by the same amount changes nothing |
| Psi.PsiOfSameSample | validation/psi_calculator.py:21-48 | a sample compared with itself has index 0 |
| StatisticalTests.Normalise | drift_detection/statistical_tests.py:82-83 | the in-place division leaves the old entries divided by their old sum |
| StatisticalTests.Smooth | drift_detection/statistical_tests.py:75-80 | a new array with the smoothed density histogram of the sample |
| StatisticalTests.KlDivergence | drift_detection/statistical_tests.py:63-85 | the array computation equals the divergence as a function of the two samples |
| StatisticalTests.Gibbs | drift_detection/statistical_tests.py:85 | the divergence of two positive distributions is never negative, and 0 exactly when they are equal |
| StatisticalTests.KlIsCrossEntropy | drift_detection/statistical_tests.py:85 | the divergence is the sum of p ln p less the sum of p ln q: the first distribution does the weighing |
| StatisticalTests.CommonBinsAre | drift_detection/statistical_tests.py:71-74 | the edges cut the range of all values of both samples, and a billionth more, into equal parts |
| StatisticalTests.HistogramIs | drift_detection/statistical_tests.py:75-83 | an entry of the histogram is the count over bin width and sample size, plus 1e-10, divided by the sum of all |
| StatisticalTests.KlOfSamples | drift_detection/statistical_tests.py:68-85 | the divergence of two samples is that difference of sums, for their two histograms over the common bins |
| StatisticalTests.KlNonNegative | drift_detection/statistical_tests.py:68-85 | smoothing and normalising makes positive histograms of sum 1 out of any non-empty samples, and their divergence is never negative |
| StatisticalTests.KlZeroIffSameProportions | drift_detection/statistical_tests.py:68-85 | it is 0 if and only if every bin holds the same proportion of both samples |
| StatisticalTests.KlOfRearrangement | drift_detection/statistical_tests.py:63-85 | it is 0 for a rearrangement of the same values |
| StatisticalTests.ZScoreIs | drift_detection/statistical_tests.py:48-60 | z times (deviation of the baseline plus a millionth) is the distance of the two means, the alarm says that this distance exceeds threshold times that deviation, and the four reported numbers are the exact ones rounded to four places |
| StatisticalTests.KsIs | drift_detection/statistical_tests.py:31-36 | the flag compares the p-value before rounding with alpha; what is reported lies within half a millionth |
| StatisticalTests.ResampleScoreBound | drift_detection/statistical_tests.py:48-53 | k of n baseline values give an unrounded z with k * z^2 <= n - k; what z is `StatisticalTests.ZScoreIs` says |
| StatisticalTests.ResampleCannotAlarm | drift_detection/statistical_tests.py:48-60 | at threshold 3 no k-element part of n baseline values with n <= 10 k is anomalous |
| Drift.DetectDrift | drift_detection/drift_detector.py:55-104 | the loop's two lists: one result per feature with current values in schema order, and the names of the drifting ones; `Drift.ReportCompares` says what the results are |
| Drift.CompareFeature | drift_detection/drift_detector.py:74-94 | one turn of the loop yields the result that a feature's two lists have as a function of them |
| Drift.ReportCompares | drift_detection/drift_detector.py:64-95 | each result compares the current values with the stored list if there is one and it is not empty, else with themselves: index, distribution test, z-score, divergence and both sizes |
| Drift.SeverityAtDefaults | drift_detection/drift_detector.py:74-82 | with the configured thresholds: alert from 0.2, warning from 0.1 or for a p-value below 0.05, else ok |
| Drift.DriftingIff | drift_detection/drift_detector.py:64-98 | a feature is listed if and only if it has values and its index against the stored list, or against themselves without one, reaches the warning level or the raw p-value lies below alpha |
| Drift.CriticalIff | drift_detection/drift_detector.py:50-52 | a report is critical if and only if some feature's index reaches the alert level; the distribution test alone never makes it so |
| Drift.RoundedThreshold | validation/psi_calculator.py:48-56 | comparing the rounded index with an even threshold lets exactly half a millionth less through |
| Drift.NoBaselineNeverDrifts | drift_detection/drift_detector.py:69-98 | without a baseline all scores are 0 and the feature is not listed, given p-value 1 on equal samples |
| Drift.ReportIgnoresOrder | drift_detection/drift_detector.py:74-94 | a feature's whole result is the same for any order of current and baseline values, if the distribution test is |
| Drift.DisplacedSampleIsCritical | drift_detection/drift_detector.py:74-75 | current values all outside the range of a baseline that is not constant are always reported as critical |
| Drift.DisplacedIsReported | drift_detection/drift_detector.py:64-104 | so in the report: values outside the range of the stored list make it critical and list the feature |
| Drift.AlertReachableIff | validation/psi_calculator.py:31-32 | some non-empty current sample is critical against a baseline if and only if the baseline is not constant |
| EventGenerator.EventStream.NextBatch | ingestion/event_generator.py:85-114 | the events of a batch and the session map behind it, as functions of the draws and the old map |
| EventGenerator.BatchesAreOneStream | ingestion/event_generator.py:81-114 | successive batches together are one stream: cutting the draws differently changes no event |
| EventGenerator.SameSessionIff | ingestion/event_generator.py:95-97 | with fresh ids two events share a session if and only if they are the same user's with no restart of that user in between |
| EventGenerator.GeneratedFeatures | ingestion/event_generator.py:99-113 | features computed from any generated events have a session rate of at least 1 and an average spend in [1, 20000] |
| EventGenerator.AmountFollowsSample | ingestion/event_generator.py:67-74 | the amount of a purchase is in whole cents and within half a cent of the drawn sample, taken into [1, 2000], and ten times that for a fraud |
| EventGenerator.EventIsDrawn | ingestion/event_generator.py:99-113 | user, kind and time of a generated event are those of its draw, its amount is 0 unless it is a purchase |
| SeedData.SeedFeatures | registry/seed_data.py:101-121 | seed objects, registry and outcome after the loop, including the pass that a failing insert cuts short and rolls back |
| SeedData.SeededFeatures | registry/seed_data.py:102-114 | a successful pass adds each missing feature from its first seed and leaves existing ones as they were |
| SeedData.SeededLineage | registry/seed_data.py:111-119 | it adds all lineage steps of such a feature once and in order, and none to existing features |
| SeedData.SeedsRestored | registry/seed_data.py:111-119 | the seed list is as it was if and only if the pass went through |
| SeedData.SucceedsIff | registry/seed_data.py:114 | a pass goes through if and only if the insert of every missing feature does |
| SeedData.SecondPassAddsNothing | registry/seed_data.py:103-109 | a second pass changes neither registry nor seeds |
| SeedData.LostLineage | registry/seed_data.py:111-119 | a failed pass takes the lineage of exactly the seed whose insert failed |
| SeedData.RetryRegistersAll | registry/seed_data.py:101-121 | a retry that goes through, by a caller that survived the failure, registers the same features as a pass that never failed |
| SeedData.RetryLosesLineage | registry/seed_data.py:111-119 | and the same lineage, except that the feature that failed gets none of its steps |

## Left out

- Floating point: values are reals, so rounding errors of sums and comparisons are not modelled; for the same reason the refresh threshold is a parameter, since `int(300 * (1 - 0.8))` is 59 in floating point and 60 in the reals.
- Rows are dictionaries with `get`, as the sink treats them (see Findings).
- The two streaming queries read Kafka and cut micro-batches independently; the model gives both sinks one list of batches, each at its own position in it.
- The round trip of numbers through `str` and `float`, JSON and Redis strings is taken as exact.
- Watermarks and late events: every event counts; events with null timestamps, which `window` drops, do not occur.
- Pipeline.BatchCleanIffNoPurchase: a micro-batch is the queries evaluated once on one event list, because the rows that update mode would emit from running state through these joins are the engine's choice; the list may be any, such as all events so far.
- The scores a micro-batch joins are an arbitrary list in the results about the sinks; only Pipeline.DeliveredRowsEqual and FeatureValues.DeliveredScore take the scorer's own.
- Restrictions of the streaming engine on queries such as distinct counts in update mode and chained joins.
- Redis eviction, connection pools, timeouts and the retry decorator; a command either happens or the run is a different one.
- Delta partitions, `user_prefix`, time travel and concurrent writers; dates are UTC days; an error of the fallback append itself.
- Backfill's own append and its `computed_at`, which it overwrites with the window start.
- Reading the offline side back: the validator's input is the user's row with the greatest date, its non-null fields as a dictionary.
- `scipy.stats.ks_2samp` is a parameter; only the properties a lemma names are asked of it.
- Histograms with a negative number of bins; with zero bins the functions are defined but the theorems ask for one or more.
- `computed_at` of reports and drift results, logging and alerts sent to Kafka.
- The random distributions of the generator: draws are arbitrary inputs; its locations, products and devices carry no logic, and its sending loop only counts.
- Session ids never repeat: 12 hexadecimal digits of a UUID are taken as unique.
- Registry columns with defaults, metrics, and the flush that a later query triggers by itself.
- Root cause analysis, HTTP routes, dashboards, Airflow wiring and monitoring: configuration or calls into other systems.
