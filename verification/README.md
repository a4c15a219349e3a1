# Checkstack in Dafny

A Dafny model of the parts of Checkstack that carry state or fold data, with proofs of
what they keep. Each module models one component, in the form that component has: loops
over maps and lists are methods proved against a specification function, stores are
classes, formulas are functions. What the component is for is then proved as lemmas about
the specification, over all inputs or all reachable states. The main operations also state
what they compute in terms of their inputs alone, without their specification function
(`Describes`, `Answers`, `RolledAt`, `Arrives`, `EditRows`, `RowsOpen`, `Judges` and so on).

## What is modelled

**Health-check time series.** Runs are counted into hourly rows by a read and an upsert
that other workers may separate (`HourlyRows`). A daily job rolls old hourly rows up into
daily rows and expires those (`Retention`); `Ledger` proves that every stored row counts
exactly the runs of its hour or day. A query buckets raw runs (`RawRuns`), merges raw,
hourly and daily buckets by priority (`Tiers`), regroups them to the target interval
(`Buckets`, `Regrouping`, with `AggregatedResults`, `ResultSums` and `FieldStates` for the
attached results) and answers a chart (`Charts`). It counts every raw run of the range, and
each finished run once, twice or not at all under exact conditions (`Ledger`): a raw row and
the count of its run carry times of different clocks. `Availability` and `StateEvaluator`
model the two other readers of this data.

**Versioned migrations** (`Migrations`): the validated chain is the applied chain, and
migrating in two steps or one makes no difference.

**Webhook delivery** (`Delivery`): a log table and a job queue as a state machine in which
every awaited call is one step, its invariant over every interleaving, a termination
measure, and what each excluded fault would break.

**Access** (`AccessRules`, `ResourceAccess`): the grant tables under default-rule syncs and
role edits; the middleware whose bulk filter refines the decision for one resource.

**Stores and indexes** (`Connections`, `PluginRegistry`, `Changesets`): a cache against a
full scan, derived indexes against a plugin list, a printer against a parser.

## Where the code does not keep what one would expect

Each of these is proved: an exact condition, or a concrete run or input.

- Interleaved workers can lose the maximum latency of an hour (`HourlyRows.InterleavingLosesMaximum`,
  exact step condition in `WriteKeepsTruth`).
- A minmax state seeded by an absent value carries a 0 (`FieldStates.FoldMinMaxExact`,
  `MinMaxHomomorphismIff`, `InitialMinMaxNeutral`). So does a field that the first two of
  several merged results lack (`AggregatedResults.FoldedFields`).
- A single result is passed on as it is, several merge to nothing when they hold nothing. So
  results without content, such as the empty collector map that a check without collectors
  stores, merge differently in two steps and at once (`ResultSums.EmptyResultsBreakRegrouping`,
  exact condition in `TwoStepsIff` and `Regrouping.RegroupingComposesFully`).
- Validation of a migration chain stops at the first migration that overshoots. Without the
  one-step rule the list order can decide (`Migrations.OrderIrrelevantIff`), and a migration
  hidden behind that point can be run unvalidated (`RunsTheValidatedIff`, `HiddenStepIsRun`).
- Availability misses hourly rows: of part of one day just after a job, of almost two days
  just before the next (`Availability.MissedAfterJob`).
- The overview and the detail view can show different statuses
  (`StateEvaluator.OverviewAgreesWithDetail`), and in consecutive mode one more failure can
  improve the status (`ConsecutiveImprovesIff`).
- A success signal that throws, a provider that stays away, a deleted log and overlapping
  manual retries each break a delivery guarantee, a failure signal that throws leads to a
  fourth call: each exactly under the condition that `Delivery.StepKeepsInvIff`,
  `MissingProviderStrandsIff` and `FourthCallIff` state. The third retry delay is never used.
- A rejected role edit has already changed the disabled table
  (`AccessRules.UnreplacedEditKeepsInvIff`); an orphaned rule that was switched off makes
  every full sync throw (`FullSyncCompletes`).
- The list filter opens team-only resources to global access while the auth service cannot
  be reached (`ResourceAccess.UnreachableServiceOpensTeamOnly`). The comment at
  `core/backend-api/src/rpc.ts:87-91` promises team grants only.
- The rule that list and single requests share, as `core/common/src/access-utils.ts:250-257`
  builds it, names both an id parameter and a list key. The pre-check skips rules with a list
  key, so a request for one system is never refused by its grants; the list filter then finds
  no list in a single reply and answers with an internal error
  (`ResourceAccess.SharedRuleNeverRefuses`).
- The pre-check also skips requests whose input has no id at the rule's path: updating and
  deleting a system is open to every known caller (`ResourceAccess.ManageIsNeverRefused`,
  exact condition in `PreCheckedIff`).
- A run whose raw row is stamped before a full hour and that is counted after it can be shown
  twice (`Ledger.HourTurnShowsTwice`, exact condition in `ChartCountsEach`).
- A stored hour that the slot of one raw run reaches into is hidden as a whole, so that its
  expired raw runs vanish from the chart (`Charts.StoredRowShownIff`, `Ledger.ChartShowsExactly`).
- Qualified provider ids that differ only in the place of a dot share an index
  (`Connections.DottedIdsCollide`, exact condition in `CreatorOwnsIff`).
- Extensions are removed by id: a plugin that shares an id with an earlier one takes that
  one's extension down (`PluginRegistry.SlotRightIff`).
- A plugin whose route is rejected stays registered (`PluginRegistry.Registry.Register`).
- The release hook computes the highest bump and then always injects a minor one
  (`Changesets.InjectRelease`).

## Conventions

Times are whole milliseconds and intervals whole and positive; days have 24 hours.
Measurements that the code keeps as floating point are exact reals, latencies integers,
and `Math.round` is the floor of x + 1/2. One awaited database call is one atomic step. Random
identifiers, the clock and the answers of external calls are parameters. Database calls
succeed. Deliveries run on the default queue, which keeps jobs in memory and puts a job that
throws back three times (`plugins/queue-memory-backend/src/memory-queue.ts:199,464-486`).

To verify: `dafny verify dfyconfig.toml`.

## Model

| member | source | states |
|---|---|---|
| `Regrouping.RegroupingComposes` | core/healthcheck-backend/src/aggregation-utils.ts:593-662 | for every list of buckets, interval and factor k: regrouping to the interval and then to k intervals gives the buckets of regrouping to k intervals at once, in starts, ends, counts, latency sum, min, max, p95 and tier |
| `Regrouping.RegroupingComposesFully` | core/healthcheck-backend/src/aggregation-utils.ts:476-662 | for results the code stores, empty ones included: regrouping in two steps and at once give equal buckets, merged results included, exactly when no target slot is spoilt by an odd result left alone |
| `Regrouping.RegroupingWithoutOddResults` | core/healthcheck-backend/src/aggregation-utils.ts:476-662 | so they are equal whenever no result is without content or has an empty collector map |
| `Regrouping.ReaggregateConserves` | core/healthcheck-backend/src/aggregation-utils.ts:616-661 | run, status and latency totals, min, max, largest p95 and lowest tier of the output are those of the input; what these numbers are bucket by bucket is Buckets.StatsDescribe |
| `Regrouping.ReaggregateApart` | core/healthcheck-backend/src/aggregation-utils.ts:632-661 | output starts strictly increase and the intervals do not overlap, the last bucket stretched to the range end included |
| `Regrouping.PlacedIn` | core/healthcheck-backend/src/aggregation-utils.ts:622-656 | every source bucket starts inside a target bucket of the output; the bucket of the last slot reaches the range end |
| `Regrouping.FilledBy` | core/healthcheck-backend/src/aggregation-utils.ts:622-656 | every target bucket got a source bucket of its slot: there are no empty buckets |
| `Regrouping.SlotUnique` | core/healthcheck-backend/src/aggregation-utils.ts:623-624 | floor division puts a time into the one slot whose half-open interval contains it |
| `Regrouping.CoarseSlot` | core/healthcheck-backend/src/aggregation-utils.ts:623-624 | the slot at k times the interval is the fine slot divided by k, also for negative offsets |
| `Regrouping.GroupBySlot` | core/healthcheck-backend/src/aggregation-utils.ts:619-630 | the map holds, for each slot met, exactly the buckets of that slot in input order |
| `Regrouping.ReaggregateBuckets` | core/healthcheck-backend/src/aggregation-utils.ts:593-662 | the map-and-sort form returns the list of slots in order, and every bucket of it is one interval from the range start on (the last one to the range end), not empty, and described by exactly the source buckets that start in it |
| `Regrouping.OutputAnswers` | core/healthcheck-backend/src/aggregation-utils.ts:616-661 | each output bucket in terms of the source buckets: a whole number of intervals from the range start, one interval long unless nothing starts after it, the counts, latency sum, min, max, p95 and tier of exactly the source buckets that start in it, and their merged result |
| `Buckets.CombineBuckets` | core/healthcheck-backend/src/aggregation-utils.ts:476-581 | run and status counts are plain sums, the latency sum adds the sums present and is absent without any, min is present exactly when some bucket has one and is then the least of them, max and p95 the greatest, the tier is the lowest priority there is, and the result merges the results in order |
| `Buckets.SumBuckets` | core/healthcheck-backend/src/aggregation-utils.ts:510-555 | the accumulating loop computes these numbers and collects the results in order |
| `Buckets.StatsDescribe` | core/healthcheck-backend/src/aggregation-utils.ts:510-580 | for every list of buckets the combined statistics are these sums, least and greatest values and tier of the buckets, stated without the combining operation |
| `Buckets.AddStatsLaws` | core/healthcheck-backend/src/aggregation-utils.ts:510-580 | combining is commutative and associative with the empty bucket as unit |
| `Buckets.ListMinIsLeast` | core/healthcheck-backend/src/aggregation-utils.ts:573 | the reported minimum is an element and a lower bound of the pushed values |
| `Buckets.ListMaxIsGreatest` | core/healthcheck-backend/src/aggregation-utils.ts:574-576 | the reported maximum is an element and an upper bound of the pushed values |
| `AggregatedResults.MergeAggregatedBucketResults` | core/healthcheck-backend/src/aggregation-utils.ts:182-317 | undefined results are skipped, a single one is returned as it is, of several the strategy fields and collectors are merged separately and an empty collector map is left out |
| `AggregatedResults.MergeStrategyFields` | core/healthcheck-backend/src/aggregation-utils.ts:203-238 | an unregistered strategy keeps the fields of the first result; a registered one takes the only non-empty field set, or merges each registered field over all of them, in order |
| `AggregatedResults.MergeCollectorFields` | core/healthcheck-backend/src/aggregation-utils.ts:240-302 | each collector instance merges its data over all results; without an id it is dropped, without a merger the first data stays |
| `AggregatedResults.MergeAggregatedResults` | core/backend-api/src/aggregated-result.ts:324-386 | every registered field is merged by its kind, taken over when only one side has it, and initial when none has |
| `AggregatedResults.FoldedFields` | core/backend-api/src/aggregated-result.ts:324-386 | folding two or more field sets gives exactly the registered fields, each merged over the sets that have it, in order; a field that the first two sets lack starts from the initial state |
| `AggregatedResults.NamedCollector` | core/healthcheck-backend/src/aggregation-utils.ts:256-302 | a collector instance stays exactly when the first id any record gives for it is not empty; unregistered it stays as in its first record, registered its fields are merged |
| `AggregatedResults.NamelessCollector` | core/healthcheck-backend/src/aggregation-utils.ts:260-273 | an instance for which no record gives an id is dropped |
| `ResultSums.MergeResultsIsSum` | core/healthcheck-backend/src/aggregation-utils.ts:182-317 | on complete results the two nested loops compute a sum in a commutative monoid |
| `ResultSums.PlusLaws` | core/backend-api/src/aggregated-result.ts:330-386 | that addition of results is commutative and associative, and nothing is its unit |
| `ResultSums.MergedForgets` | core/healthcheck-backend/src/aggregation-utils.ts:182-317 | a merged result is complete again and stands for the sum of what it was merged from |
| `ResultSums.TwoStepsIff` | core/healthcheck-backend/src/aggregation-utils.ts:182-317 | merging complete or empty results group by group and then once more equals merging them at once exactly when no odd record is left alone in a group while all other groups vanish |
| `ResultSums.EmptyResultsBreakRegrouping` | core/healthcheck-backend/src/aggregation-utils.ts:196-201 | for any registry, three results with an empty collector map, as a check without collectors stores them: merged in two steps they leave one, merged at once none |
| `FieldStates.CounterHomomorphism` | core/backend-api/src/incremental-aggregation.ts:46-56 | folding two batches of runs equals merging the two folded counters |
| `FieldStates.AverageHomomorphism` | core/backend-api/src/incremental-aggregation.ts:94-118 | the same for averages, the rounded average included |
| `FieldStates.RateHomomorphism` | core/backend-api/src/incremental-aggregation.ts:156-179 | the same for rates, the rounded percentage included |
| `FieldStates.MinMaxHomomorphismIff` | core/backend-api/src/incremental-aggregation.ts:212-235 | for minmax it holds exactly when the second batch starts with a value or the range of both contains 0 |
| `FieldStates.FoldMinMaxExact` | core/backend-api/src/incremental-aggregation.ts:212-235 | a folded minmax state holds the true extremes exactly when the stream starts with a value or its values reach both sides of 0 |
| `FieldStates.TrueExtremesMeaning` | core/backend-api/src/incremental-aggregation.ts:212-235 | the reference extremes are values of the stream and bound all of them |
| `FieldStates.MergeStatesLaws` | core/backend-api/src/incremental-aggregation.ts:246-308 | the four state merges are commutative and associative, and keep the kind |
| `FieldStates.MergeKeepsConsistency` | core/backend-api/src/incremental-aggregation.ts:261-292 | merged averages and rates again have the derived field their sums call for; the initial state is neutral for every kind but minmax |
| `FieldStates.InitialMinMaxNeutral` | core/backend-api/src/aggregated-result.ts:247-275 | the initial minmax state is neutral exactly when the range contains 0 |
| `FieldStates.FoldedRateInRange` | core/backend-api/src/incremental-aggregation.ts:156-179 | a rate folded from runs is between 0 and 100 |
| `FieldStates.CounterMeaning` | core/backend-api/src/incremental-aggregation.ts:46-56 | a folded counter is the number of true flags plus the sum of the amounts |
| `FieldStates.AverageMeaning` | core/backend-api/src/incremental-aggregation.ts:94-118 | a folded average holds the sum and the number of the values present, and the tenth nearest to their quotient |
| `FieldStates.RateMeaning` | core/backend-api/src/incremental-aggregation.ts:156-179 | a folded rate counts the runs with outcome true among those with an outcome, and the whole percent nearest to their share |
| `FieldStates.MergedIsFolded` | core/backend-api/src/incremental-aggregation.ts:246-308 | the merge that a field's kind selects turns the states of two batches of runs into the state of both, for minmax under its condition; a state of another kind spoils the field |
| `Percentiles.NearestRank` | core/healthcheck-backend/src/aggregation-utils.ts:11-18 | the percentile is an element v with count(<= v) >= p/100*n and count(< v) < p/100*n, for 0 < p <= 100 |
| `Percentiles.MaxOfGroupPercentilesBounds` | core/healthcheck-backend/src/aggregation-utils.ts:575-576 | any bound of the groups' percentiles, so their maximum, bounds the percentile of all values together |
| `RawRuns.CombinedP95IsUpperBound` | core/healthcheck-backend/src/aggregation-utils.ts:545-576 | buckets carrying the p95 of their latencies combine to a p95 that is at least the p95 of all latencies |
| `RawRuns.RawPipelineIsDirect` | core/healthcheck-backend/src/service.ts:808-925 | bucketing raw runs and regrouping at the same interval gives one bucket per slot with runs, with the statistics computed directly from the runs whose time lies in the slot |
| `RawRuns.NormalizedShape` | core/healthcheck-backend/src/service.ts:823-925 | raw buckets are not empty and do not overlap |
| `RawRuns.RawStatsDescribe` | core/healthcheck-backend/src/aggregation-utils.ts:31-93 | the statistics of a raw bucket, run by run: counts of each status, the sum, least and greatest of the latencies present, and as p95 a latency of a run that at least 95 in 100 of the timed runs do not exceed and fewer than 95 in 100 stay below |
| `RawRuns.NormalizeAnswers` | core/healthcheck-backend/src/service.ts:823-925 | every raw bucket describes exactly the runs whose time lies in its interval, and every run lies in some bucket |
| `RawRuns.NormalizeRawRuns` | core/healthcheck-backend/src/service.ts:808-925 | one bucket per slot met, in order of first appearance; each one interval long from a whole number of intervals on, not empty and described by exactly the runs in it; every run is in one |
| `RawRuns.GroupRuns` | core/healthcheck-backend/src/service.ts:823-850 | the bucket map holds exactly the runs of each slot, in order |
| `RawRuns.CountStatuses` | core/healthcheck-backend/src/aggregation-utils.ts:31-56 | the three counters are the numbers of runs of each status |
| `RawRuns.StatusesCoverRuns` | core/healthcheck-backend/src/aggregation-utils.ts:31-56 | for runs of the three known statuses the counters add up to the number of runs |
| `Tiers.MergeTieredBuckets` | core/healthcheck-backend/src/aggregation-utils.ts:357-467 | the passes with merged coverage and early exits select and sort the buckets of the specification |
| `Tiers.MergeTiersMembers` | core/healthcheck-backend/src/aggregation-utils.ts:400-461 | exactly these survive: all raw buckets, hourly ones that overlap no raw one, daily ones that overlap neither a raw nor an hourly input bucket |
| `Tiers.MergeTiersDisjoint` | core/healthcheck-backend/src/aggregation-utils.ts:357-467 | if no tier overlaps itself the merged list is sorted and overlaps nowhere |
| `Tiers.MergeTiersIdempotent` | core/healthcheck-backend/src/aggregation-utils.ts:357-467 | splitting the merged list by tier and merging again gives the same list |
| `Tiers.CoveragePoints` | core/healthcheck-backend/src/aggregation-utils.ts:384-398 | the merged coverage contains exactly the instants of the raw ranges |
| `Tiers.CoverageExact` | core/healthcheck-backend/src/aggregation-utils.ts:400-417 | a non-empty range overlaps the coverage exactly when it overlaps some raw range |
| `Tiers.EmptyRangeFlaggedIff` | core/healthcheck-backend/src/aggregation-utils.ts:384-417 | a range of no length is flagged exactly when the instant before it and its own are both covered, be it by two raw ranges that only touch |
| `Tiers.BuildCoverage` | core/healthcheck-backend/src/aggregation-utils.ts:384-398 | the sweep extends the last range or opens a new one |
| `Tiers.Scan` | core/healthcheck-backend/src/aggregation-utils.ts:402-417 | the scan with its early exit is right on ranges with ascending starts |
| `Tiers.SelectHourly` | core/healthcheck-backend/src/aggregation-utils.ts:422-427 | hourly buckets are kept exactly when they do not overlap the coverage |
| `Tiers.SelectDaily` | core/healthcheck-backend/src/aggregation-utils.ts:429-461 | daily buckets are tested against the coverage and all hourly input |
| `HourlyRows.InterleavingsKeepInv` | core/healthcheck-backend/src/realtime-aggregation.ts:95-211 | under every interleaving of reads and upserts: run count and status counts are those of the completed upserts, the latency sum is exact, stored min <= max are latencies of completed runs, average and p95 are those of the last completed run with a latency |
| `HourlyRows.CountsAddUp` | core/healthcheck-backend/src/realtime-aggregation.ts:114-117 | healthy + degraded + unhealthy = run count = completed upserts, in every reachable state |
| `HourlyRows.WriteKeepsTruth` | core/healthcheck-backend/src/realtime-aggregation.ts:119-154 | an upsert keeps true extremes true exactly when its view is current or its latency reaches past the stored extremes |
| `HourlyRows.UninterruptedExtremesAreTrue` | core/healthcheck-backend/src/realtime-aggregation.ts:95-211 | when no read is separated from its upsert the stored extremes are the true ones |
| `HourlyRows.InterleavingLosesMaximum` | core/healthcheck-backend/src/realtime-aggregation.ts:95-211 | a run of two interleaved workers after which the true maximum is lost |
| `HourlyRows.HourlyRow.Write` | core/healthcheck-backend/src/realtime-aggregation.ts:165-211 | if the row records some completed runs (counts, sum, plausible extremes) and the view came from some of them, then after the upsert it records exactly one run more; the view need not be current |
| `HourlyRows.FreshWriteKeepsTruth` | core/healthcheck-backend/src/realtime-aggregation.ts:95-154 | an upsert whose view is the row as it stands keeps true extremes true, with or without a latency |
| `HourlyRows.HourlyRow.Increment` | core/healthcheck-backend/src/realtime-aggregation.ts:79-212 | without interference the row records one run more, and true extremes stay true |
| `HourlyRows.RecordedMeans` | core/healthcheck-backend/src/realtime-aggregation.ts:165-211 | such a row column by column: the numbers of completed runs of each status, the sum of the latencies present, min and max among them (least and greatest if true), the average as the sum up to the last timed run divided by all runs up to it and truncated, and that run's p95 |
| `Retention.StorageInvariant` | core/healthcheck-backend/src/retention-job.ts:147-284 | over every run of in-time increments and retention jobs: unique keys, daily rows before hourly rows, no day rolled up twice, stored plus expired totals equal all increments |
| `Retention.DailyBeforeHourly` | core/healthcheck-backend/src/retention-job.ts:150-165 | in every such state a daily row's day ends before any hourly row starts |
| `Retention.PromptIsInTime` | core/healthcheck-backend/src/retention-job.ts:150-152 | with a clock that never goes back every increment is in time, whatever the retention settings |
| `Retention.RollKeepsInv` | core/healthcheck-backend/src/retention-job.ts:189-256 | the roll-up never meets an existing daily row, and keeps the totals of the table |
| `Retention.RollDaysKeep` | core/healthcheck-backend/src/retention-job.ts:189-256 | the day loop keeps totals and extremes and replaces exactly the old rows of its days |
| `Retention.RollRowKeepsTally` | core/healthcheck-backend/src/retention-job.ts:195-247 | a daily row keeps the totals and extremes of its rows exactly when the latency total is not negative or its rounded average gives it back |
| `Retention.SumUp` | core/healthcheck-backend/src/retention-job.ts:190-229 | the accumulating loop computes the daily row of the group; counts and latencies are sums, the average is rounded to the nearest integer, min, max and p95 are the least and greatest values present |
| `Retention.RollRowSumsUp` | core/healthcheck-backend/src/retention-job.ts:190-247 | the daily row of any rows, stated without the fold: sums of counts and latencies (average times count where no sum is stored), the nearest integer average, least min, greatest max and p95, the sum stored only when positive |
| `Retention.GroupByDay` | core/healthcheck-backend/src/retention-job.ts:169-187 | the day map holds exactly the old rows of each day |
| `Retention.AggregateTable.RollupHourlyAggregates` | core/healthcheck-backend/src/retention-job.ts:147-256 | the whole roll-up: for the midnight the hourly retention reaches back to, it fails exactly when some old hourly row's day has a daily row; hourly rows from that midnight on and all daily rows stay, and on success each older hourly row gives way to the one daily row that sums up exactly the old rows of its day |
| `Retention.RollupMeaning` | core/healthcheck-backend/src/retention-job.ts:147-256 | for any table and any midnight the roll-up does exactly that to every row |
| `Retention.AggregateTable.IncrementHourlyAggregate` | core/healthcheck-backend/src/realtime-aggregation.ts:79-212 | the totals of the table grow by exactly the run, the rows of all other keys stay as they are and in order, and its full hour has exactly one row, new or the old one updated with its own extremes at hand |
| `Retention.AggregateTable.DeleteExpiredAggregates` | core/healthcheck-backend/src/retention-job.ts:268-284 | exactly the daily rows before the cutoff are gone, no hourly row is, and the totals fall by exactly theirs |
| `Retention.AggregateTable.RunRetentionJob` | core/healthcheck-backend/src/retention-job.ts:85-135 | raw runs before their cutoff go; then the roll-up of RollupMeaning at the midnight its retention reaches back to, and unless it failed exactly the daily rows before theirs |
| `Retention.JobIsStep` | core/healthcheck-backend/src/retention-job.ts:85-135 | the job is the step of the runs of the storage invariant, and in every state they reach its roll-up does not fail |
| `Ledger.RowsAreExact` | core/healthcheck-backend/src/retention-job.ts:147-256 | over every such run each stored row carries exactly the counts of the runs of its hour or day |
| `Ledger.DailyRowIsExact` | core/healthcheck-backend/src/retention-job.ts:189-247 | the daily row of a rolled day counts exactly the runs of that day |
| `Ledger.ChartCountsEach` | core/healthcheck-backend/src/service.ts:622-803 | after any such run and for any query, with a raw stamp and a counted time of its own for each finished run: the chart counts each run once, except that it counts twice exactly those it both reads raw and counted in a row it shows, and not at all those that are neither |
| `Ledger.SameHourIsOnce` | core/healthcheck-backend/src/queue-executor.ts:556-571 | a run whose raw row was stamped in the hour it was counted in is never shown twice |
| `Ledger.ChartNeverOvercounts` | core/healthcheck-backend/src/service.ts:622-803 | so as long as every kept run was stamped in the hour it was counted in, the chart never shows more runs than finished, for any query, registry and attached results |
| `Ledger.HourTurnShowsTwice` | core/healthcheck-backend/src/schema.ts:111 | a run stamped by the database just before the full hour and counted by the worker just after it is shown twice |
| `Ledger.ChartShowsExactly` | core/healthcheck-backend/src/service.ts:622-803 | the chart total is the number of raw runs still kept in its range plus the number of runs counted in the stored rows it shows |
| `Charts.StoredRowShownIff` | core/healthcheck-backend/src/aggregation-utils.ts:400-461 | a stored row is shown exactly when the slot of no raw run reaches into it and, for a daily row, no hourly row either; otherwise it is hidden as a whole |
| `Charts.MergedShowsExactly` | core/healthcheck-backend/src/aggregation-utils.ts:357-467 | for tiers that do not overlap themselves and claim exactly the runs that happened, the merged tiers count the raw runs and the runs of the shown rows |
| `Charts.ChartShowsRawRuns` | core/healthcheck-backend/src/service.ts:659-765 | whatever is stored, the chart counts every raw run of the range |
| `Charts.MergedCountsOnce` | core/healthcheck-backend/src/aggregation-utils.ts:357-467 | for tiers that do not overlap themselves and claim no more runs than happened, the merged tiers show each run at most once |
| `Charts.ShownConserves` | core/healthcheck-backend/src/service.ts:751-765 | regrouped for a known configuration or returned as merged for an unknown one, the shown totals are those of the merged tiers |
| `Charts.RatesAreConserved` | core/healthcheck-backend/src/service.ts:767-803 | the success rates of the points, weighted by their runs, add up to all healthy runs |
| `Charts.HitOnce` | core/healthcheck-backend/src/aggregation-utils.ts:419-466 | non-overlapping buckets cover a run at most once |
| `Charts.GetAggregatedHistory` | core/healthcheck-backend/src/service.ts:622-803 | the three selects with the stored results, raw bucketing, tier merge, regrouping if the configuration is known, and the output points, with the meaning of Charts.ChartMeaning |
| `Charts.ChartMeaning` | core/healthcheck-backend/src/service.ts:622-803 | from raw runs and stored rows to points: exactly the runs and rows in range, ends included and in order, are read; the merged tiers hold only raw buckets and stored rows of the range and a raw bucket around every run; each point plots a merged bucket or, with a configuration, the answer for one slot |
| `Charts.PointPlots` | core/healthcheck-backend/src/service.ts:767-803 | a point carries the bucket's bounds, counts, min, max and p95; success rate times runs is the healthy runs; the average is the nearest integer to latency sum over runs, absent without either |
| `Availability.GetAvailabilityStats` | core/healthcheck-backend/src/service.ts:938-1046 | the runs of exactly the hourly rows from the retention limit on and the daily rows of the 365 days before it, and of those of the last 31 days; each percentage times the runs is 100 times the healthy runs, and null without runs |
| `Availability.ShortBy` | core/healthcheck-backend/src/service.ts:961-1028 | the 365-day count falls short of what is stored by exactly the missed rows |
| `Availability.MissedAfterJob` | core/healthcheck-backend/src/service.ts:961-1000 | at any time after a job and any increments since, the missed rows are exactly the hourly rows from midnight of the job's retention day up to the retention limit of the query, and daily rows inside the hourly retention; up to a day after the job that is less than two days |
| `Availability.StoredButNotCounted` | core/healthcheck-backend/src/service.ts:961-982 | two runs on two days and a job after which, just before the next job, both are stored and neither is counted |
| `Migrations.ValidationIsExact` | core/backend-api/src/config-versioning.ts:278-309 | with one-step migrations, validation succeeds exactly when the record is not newer than the target and each version between has exactly one migration |
| `Migrations.ApplicableIsSegment` | core/backend-api/src/config-versioning.ts:247-252 | the separately filtered and sorted list is exactly the validated segment, in order |
| `Migrations.MigrateMeaning` | core/backend-api/src/config-versioning.ts:237-276 | a needed migration runs exactly the segment; the result has the target version and the first version the record had |
| `Migrations.MigrateArrives` | core/backend-api/src/config-versioning.ts:237-276 | a needed one-step migration succeeds exactly when each version between has one migration and there is a list of data, the first the input's, in which each migration turns one into the next; the result holds the last of them; else the error names the chain's fault or the first migration that throws on the data reached |
| `Migrations.RunIsChain` | core/backend-api/src/config-versioning.ts:255-272 | running a list of migrations succeeds exactly along such a list of data, or ends with the first that throws, whatever the list |
| `Migrations.MigrateComposes` | core/backend-api/src/config-versioning.ts:237-276 | migrating to a version between and on from there succeeds exactly when migrating at once does, with the same record |
| `Migrations.RegistrationOrderIrrelevant` | core/backend-api/src/config-versioning.ts:247-252 | the order in which migrations are registered does not matter |
| `Migrations.OrderIrrelevantIff` | core/backend-api/src/config-versioning.ts:278-309 | for any migrations: validation judges every order of the list alike exactly when neither the last step nor the first group behind the chain mixes overshooting migrations with others |
| `Migrations.AcceptedIff` | core/backend-api/src/config-versioning.ts:278-309 | for any migrations, one-step or not: exactly which lists validation accepts, by the migrations of each version |
| `Migrations.EnoughForOrder` | core/backend-api/src/config-versioning.ts:278-309 | one-step migrations, or at most one per version, are each enough for that |
| `Migrations.RunsTheValidatedIff` | core/backend-api/src/config-versioning.ts:237-309 | for any validated list: the migrations that are run are the ones that were validated exactly when no other one lies in range |
| `Migrations.HiddenStepIsRun` | core/backend-api/src/config-versioning.ts:237-309 | a migration back down, hidden behind one that overshoots, is run unvalidated |
| `Migrations.OrderMattersWithoutOneStep` | core/backend-api/src/config-versioning.ts:284-301 | a pair of migrations that validation accepts in one order and rejects in the other |
| `Migrations.ValidateMigrationChain` | core/backend-api/src/config-versioning.ts:278-309 | the loop with skip, break and two errors: accepted means each version between has exactly one migration; a rejection names a version in range that has none, or the first of two, or the version the chain ends at |
| `Migrations.RejectionExplains` | core/backend-api/src/config-versioning.ts:278-309 | every rejection is explained by the migrations themselves |
| `Migrations.MigrateToVersion` | core/backend-api/src/config-versioning.ts:237-276 | validate, filter, sort and fold: a record of the target version comes back unchanged, and with one-step migrations the result is that of Migrations.MigrateArrives, data and error included |
| `Delivery.DeliveriesSettle` | core/integration-backend/src/delivery-coordinator.ts:136-263 | in every reachable state: at most three attempts and calls, failed means exactly three, a pending or retrying log is held by exactly one job; with no job left every log is delivered or failed |
| `Delivery.InvariantOverRuns` | core/integration-backend/src/delivery-coordinator.ts:136-388 | every interleaving of routing, workers, manual retries and deletions keeps the log, job and attempt invariant of a regime, as long as the regime tolerates each fault |
| `Delivery.CallsAreBounded` | core/integration-backend/src/delivery-coordinator.ts:136-263 | however often providers are gone, queues are full and success signals throw, no delivery makes a fourth call; with throwing failure signals none makes a seventh |
| `Delivery.StepKeepsInvIff` | core/integration-backend/src/delivery-coordinator.ts:136-388 | from any state sound in a regime a step keeps that exactly when the regime tolerates it; where every throw is to be made up for, a missing provider or a full queue is tolerated exactly while the job threw less than three times before |
| `Delivery.CloseKeepsInvIff` | plugins/queue-memory-backend/src/memory-queue.ts:464-486 | an exception of the failure signal does no harm exactly when the queue gives the job up or may run it again |
| `Delivery.DeleteKeepsInvIff` | core/integration-backend/src/schema.ts:50 | deleting a log keeps the invariant exactly when no job works on it |
| `Delivery.AskRetryKeepsInvIff` | core/integration-backend/src/delivery-coordinator.ts:334-388 | so does a manual retry |
| `Delivery.DeliveriesEnd` | core/integration-backend/src/delivery-coordinator.ts:136-263 | in every regime, however deliveries interleave: one delivery takes at most 38 steps where every throw is made up for, else 44 or 86 and less than as many again each time its log is renewed while its failure waits to be signalled |
| `Delivery.StepsUseUpRank` | core/integration-backend/src/delivery-coordinator.ts:136-263 | in every regime the steps a job takes are bounded by the fall of its remaining-attempts measure, which only a renewal of its log raises |
| `Delivery.QuietRunsEnd` | core/integration-backend/src/delivery-coordinator.ts:136-263 | in every regime, without new events and manual retries every run ends: after at most 38, 86 or 170 steps per job and one deletion per log |
| `Delivery.NeverStuck` | core/integration-backend/src/delivery-coordinator.ts:136-263 | as long as a job is left some step of it is possible |
| `Delivery.LongestDelayIsFiveMinutes` | core/integration-backend/src/delivery-coordinator.ts:83 | over every run: a queued job that never threw has its log and waits 0, 1 or 5 minutes exactly as that has 0, 1 or 2 attempts; after one, two or three throws it waits at most 2, 4 or 8 seconds; the third entry of the delay table is never used |
| `Delivery.ThrownIsPutBack` | plugins/queue-memory-backend/src/memory-queue.ts:464-486 | a job that throws is queued again after at most 2, 4 and 8 seconds, and after its fourth throw no more |
| `Delivery.ThrowingSignalUndoesSuccess` | core/integration-backend/src/delivery-coordinator.ts:183-202 | when the success signal throws, the log leaves success and is sent again unless the attempts are used up |
| `Delivery.MissingProviderStrandsIff` | plugins/queue-memory-backend/src/memory-queue.ts:464-486 | a provider that is gone strands the log for ever, over every run that does not delete it, exactly when its job threw three times before and no signal is left that could put it back; before that the job is queued again and the log unchanged |
| `Delivery.ReturnedProviderDelivers` | core/integration-backend/src/delivery-coordinator.ts:136-200 | a queued job delivers as soon as the provider is there and answers |
| `Delivery.FourthCallIff` | core/integration-backend/src/delivery-coordinator.ts:240-262 | after a failed delivery an exception of the failure signal leads to a fourth call exactly when the job threw less than three times before; without the exception none follows |
| `Delivery.SixCallsHappen` | plugins/queue-memory-backend/src/memory-queue.ts:464-486 | the bound of six is met: a failed job that never threw and three exceptions of its failure signal make six calls |
| `Delivery.DeletedLogRetriesForever` | core/integration-backend/src/delivery-coordinator.ts:206-233 | for any n, a run from the empty start in which the log row is deleted while its job waits, and the failing delivery has made n + 1 calls and is still queued |
| `Delivery.OverlappingRetriesDuplicate` | core/integration-backend/src/delivery-coordinator.ts:337-385 | two overlapping manual retries leave one log with two jobs |
| `Delivery.RoutedMeaning` | core/integration-backend/src/delivery-coordinator.ts:283-316 | routing adds exactly one pending log and one queued job per subscription and touches nothing else |
| `Delivery.Coordinator.RouteEvent` | core/integration-backend/src/delivery-coordinator.ts:266-317 | exactly the matching subscriptions are routed, by steps of the state machine: each gets one pending log and one queued job, nothing else changes, and exactly those subscriptions match that are on, wait for the event, watch its system and have a provider that supports it |
| `Delivery.MatchingOrPassedOver` | core/integration-backend/src/delivery-coordinator.ts:88-131 | a subscription is passed over exactly when it is off, waits for another event, filters systems and the event has none of them, or its provider is unknown or lists other events only |
| `Delivery.Coordinator.ExecuteDelivery` | core/integration-backend/src/delivery-coordinator.ts:136-263 | one more attempt, then success, retry after one minute following the first attempt and five following the second, or failure after the third; a missing provider, a full queue or a throwing failure signal throws, and the queue puts the job back up to three times; a path of the state machine |
| `Delivery.Coordinator.HandleFailure` | core/integration-backend/src/delivery-coordinator.ts:202-262 | the attempts decide between retry, after one minute for 1 and five for 2, and failure; a missing log reads as one attempt; it throws when the queue is full or the failure signal throws |
| `Delivery.Coordinator.RetryDelivery` | core/integration-backend/src/delivery-coordinator.ts:334-388 | the three refusals, or a reset log and a new job |
| `AccessRules.DisabledDefaultsAreNeverGranted` | core/auth-backend/src/index.ts:54-286 | over every run of syncs and of edits, rejected ones too unless they leave a removed default granted, no switched-off default is granted to the users role, nor a switched-off public default to the anonymous role |
| `AccessRules.SwitchedOffStaysOff` | core/auth-backend/src/index.ts:157-189 | a default an administrator switched off stays off through any syncs until an edit submits it again |
| `AccessRules.FullSyncCompletes` | core/auth-backend/src/index.ts:126-147 | with distinct ids a full sync completes exactly when no orphaned rule is in a disabled table |
| `AccessRules.FullSyncSettlesDefaults` | core/auth-backend/src/index.ts:126-162 | then each registered default is granted or switched off and not both, the admin role holds exactly the registered rules, and only those exist |
| `AccessRules.SecondSyncChangesNothing` | core/auth-backend/src/index.ts:54-162 | a second full sync with the same rules completes and changes nothing |
| `AccessRules.EditRejectedExactly` | core/auth-backend/src/router.ts:395-423 | an edit is rejected exactly when the grants may be changed and the submitted list repeats a registered rule |
| `AccessRules.UnreplacedEditKeepsInvIff` | core/auth-backend/src/router.ts:324-423 | when the grants stay but the disabled table has changed, the result survives exactly when no removed default was granted |
| `AccessRules.EditKeepsInvIff` | core/auth-backend/src/router.ts:287-424 | over the whole of an edit it survives exactly when there is no such role, the grants are replaced, or no removed default was granted |
| `AccessRules.AccessDatabase.SyncAccessRules` | core/auth-backend/src/index.ts:54-162 | completes exactly under the stated condition; then, row by row: registered rules exist with the description of the last of their id, all others too unless the sync is full, and which role holds which rule; a sync that throws has done part of that |
| `AccessRules.SyncMeansRows` | core/auth-backend/src/index.ts:54-162 | that, for every completed sync: the admin role gets every registered rule, and in a full sync the users and anonymous roles get the defaults not switched off and rules no longer registered lose their grants |
| `AccessRules.AccessDatabase.RemoveOrphans` | core/auth-backend/src/index.ts:126-147 | all orphans go, or the first that is still referenced by a disabled table ends the sync |
| `AccessRules.AccessDatabase.GrantDefaults` | core/auth-backend/src/index.ts:168-229 | the defaults that are not switched off are granted; a repeated id violates the primary key |
| `AccessRules.AccessDatabase.UpdateRole` | core/auth-backend/src/router.ts:287-424 | the whole effect of an edit: when done, its role holds exactly the submitted registered rules if the grants may change, no other role's grants change, removed defaults are off and submitted ones on; in every other outcome no grant changes; name and description too |
| `AccessRules.EditMeansRows` | core/auth-backend/src/router.ts:287-424 | that, for every edit and every grant and disabled row |
| `AccessRules.AccessDatabase.TrackDisabled` | core/auth-backend/src/router.ts:325-356 | removed defaults are switched off, submitted ones switched on; an unknown rule violates the foreign key |
| `AccessRules.AccessDatabase.ReplaceGrants` | core/auth-backend/src/router.ts:395-423 | the role gets exactly the submitted rules and every other role keeps its own, or nothing changes |
| `ResourceAccess.ListReplyIsExact` | core/backend-api/src/rpc.ts:231-354 | a reply to anyone but a service, anonymous callers and public endpoints included, shows exactly the items, in order, that every list rule on the key lets through |
| `ResourceAccess.ListAgreesWithSingle` | core/backend-api/src/rpc.ts:231-354 | for a separate rule that names the resource by id only: an item is shown exactly when a request for that one resource would not be refused |
| `ResourceAccess.SharedRuleNeverRefuses` | core/common/src/access-utils.ts:250-257 | for the rule the code shares between list and single requests, and for any input: a request for one resource is never refused, whatever the grants |
| `ResourceAccess.PreCheckedIff` | core/backend-api/src/rpc.ts:118-237 | some caller can be refused exactly when the rule carries neither a list key nor a record key and the input has an id at the rule's path; then the decision for that id decides |
| `ResourceAccess.ManageIsNeverRefused` | core/catalog-common/src/rpc-contract.ts:97-111 | the catalog's manage rule looks at "systemId", its update request sends "id", its deletion a bare string: every known caller passes |
| `ResourceAccess.RecordReplyIsExact` | core/backend-api/src/rpc.ts:231-435 | a record reply to anyone but a service, public endpoints included, keeps exactly the keys that every record rule on it grants |
| `ResourceAccess.GlobalAccessNeverShrinks` | core/backend-api/src/rpc.ts:334-352 | what a caller with fewer access rules sees is a filter of what one with more sees |
| `ResourceAccess.GetAccessibleResourceIds` | core/auth-backend/src/router.ts:1623-1696 | an id is returned exactly when, by the raw rows: no grant row names the resource and the caller has global access; or one does, global access suffices and the resource is not for teams only; or a grant row for it names a team of the caller (user or application table) and carries canManage for Manage, canRead for Read |
| `ResourceAccess.CheckIsRowsOpen` | core/auth-backend/src/router.ts:1579-1619 | the decision for one resource is that of the raw rows, for every database and query |
| `ResourceAccess.ReadOnlyNeverManages` | core/auth-backend/src/router.ts:1615-1618 | where grants decide, grants that only carry reading never open managing |
| `ResourceAccess.TeamOnlyIgnoresGlobal` | core/auth-backend/src/router.ts:1579-1619 | a team-only resource with some grant row is open exactly when a row for it names a team of the caller and carries the level asked for |
| `ResourceAccess.UnreachableServiceOpensTeamOnly` | core/backend-api/src/rpc.ts:475-525 | when the auth service cannot be reached such a resource is open exactly to holders of global access |
| `ResourceAccess.ListsMeaning` | core/backend-api/src/rpc.ts:289-353 | rules applied one after another keep the items that pass all rules on the key |
| `ResourceAccess.RecordsMeaning` | core/backend-api/src/rpc.ts:365-434 | the same for record rules |
| `ResourceAccess.GroupGrants` | core/auth-backend/src/router.ts:1679-1684 | the map holds each resource's grants in order |
| `ResourceAccess.FilterItems` | core/backend-api/src/rpc.ts:311-352 | the set of accessible ids filters the items as the one-resource decision would |
| `ResourceAccess.FilterEntries` | core/backend-api/src/rpc.ts:394-433 | the same for the keys of a record |
| `ResourceAccess.AutoAuth` | core/backend-api/src/rpc.ts:95-438 | the whole order of checks, and its answer by raw rows: exactly which requests are unauthorized, forbidden or fail for a misshapen answer, and exactly which items and keys every other reply keeps |
| `ResourceAccess.RefusedExactly` | core/backend-api/src/rpc.ts:95-237 | a request is forbidden exactly for the wrong kind of caller, a missing rule that is not about resources, or a single resource named in the input that the rows do not open |
| `ResourceAccess.RepliesAreRows` | core/backend-api/src/rpc.ts:231-438 | a reply keeps of a list exactly the items, and of a record exactly the keys, that every rule on it opens by the raw rows, and leaves the rest; services and open endpoints get the handler's own answer |
| `ResourceAccess.FailsExactly` | core/backend-api/src/rpc.ts:289-434 | an allowed request fails exactly when a rule speaks of a list or record that the answer does not have |
| `Connections.CachedLookupIsScan` | core/integration-backend/src/connection-store.ts:444-461 | the cache answers exactly as the full index scan would |
| `Connections.ScanFindsOwner` | core/integration-backend/src/connection-store.ts:449-460 | whoever's index lists a connection is whom the scan finds |
| `Connections.CreateThenLookup` | core/integration-backend/src/connection-store.ts:348-375 | creation adds the connection, every other id holds what it held, and the invariants stay |
| `Connections.DeleteThenLookup` | core/integration-backend/src/connection-store.ts:415-442 | deletion removes exactly that connection, and the invariants stay |
| `Connections.UpdateThenLookup` | core/integration-backend/src/connection-store.ts:402-412 | an update changes what its id holds and nothing else |
| `Connections.CreateDeleteRoundTrip` | core/integration-backend/src/connection-store.ts:348-442 | creating and deleting a connection leaves every lookup as it was |
| `Connections.ListingIsComplete` | core/integration-backend/src/connection-store.ts:260-291 | a listing misses nothing: it is what looking up each indexed id gives, in order |
| `Connections.CreatorOwnsIff` | core/integration-backend/src/connection-store.ts:348-461 | for any registry and any stored data: a new connection belongs to the provider it was created for exactly when that is the first schema provider with its sanitized id; every schema provider with that id lists it |
| `Connections.AllCreatorsOwnIff` | core/integration-backend/src/connection-store.ts:62-65 | that holds for all providers exactly when no two schema providers share a sanitized id |
| `Connections.DottedIdsCollide` | core/integration-backend/src/provider-registry.ts:57 | two qualified ids, "a_b.c" and "a.b_c", that share an index: the wrong owner is found |
| `Connections.KeyChars` | core/integration-backend/src/connection-store.ts:62-65 | the sanitized id replaces each dot by an underscore and keeps every other character |
| `Connections.ConnectionStore.FindConnectionProvider` | core/integration-backend/src/connection-store.ts:444-461 | cached or not, the owner is that of the full scan |
| `Connections.ConnectionStore.GetConnection` | core/integration-backend/src/connection-store.ts:293-320 | the stored connection, found without trusting the cache |
| `Connections.ConnectionStore.ListConnections` | core/integration-backend/src/connection-store.ts:260-291 | the indexed connections, or none for a provider without a schema |
| `Connections.ConnectionStore.CreateConnection` | core/integration-backend/src/connection-store.ts:348-375 | the new connection, or an error that no lookup notices |
| `Connections.ConnectionStore.UpdateConnection` | core/integration-backend/src/connection-store.ts:377-413 | name and merged settings of a known connection, or an error for an unknown one and for stored settings the schema rejects on reading |
| `Connections.ConnectionStore.DeleteConnection` | core/integration-backend/src/connection-store.ts:415-442 | true exactly for a known connection, which is then gone |
| `StateEvaluator.TruncationIsExact` | core/healthcheck-backend/src/state-evaluator.ts:21-105 | evaluating only the newest runs is right for every history exactly when the thresholds fit the limit |
| `StateEvaluator.OverviewAgreesWithDetail` | core/healthcheck-backend/src/service.ts:396-467 | for all well-formed thresholds: the overview, which reads 25 runs, and the detail view, which reads 100, agree for every history exactly when the thresholds are reached within 25 runs or, in consecutive mode, out of reach of both |
| `StateEvaluator.StreakIsMaximal` | core/healthcheck-backend/src/state-evaluator.ts:46-65 | the streak is the longest leading run of equal results |
| `StateEvaluator.CountStreaks` | core/healthcheck-backend/src/state-evaluator.ts:46-65 | the loop with its breaks counts the leading failures and successes |
| `StateEvaluator.WindowIsMonotone` | core/healthcheck-backend/src/state-evaluator.ts:86-105 | in window mode turning a healthy run into a failing one never improves the verdict |
| `StateEvaluator.ConsecutiveImprovesIff` | core/healthcheck-backend/src/state-evaluator.ts:67-79 | in consecutive mode it does in exactly one case: an unhealthy newest run decided alone and the longer streak reaches degraded but not unhealthy |
| `StateEvaluator.EvaluateHealthStatus` | core/healthcheck-backend/src/state-evaluator.ts:21-105 | the verdict under the given thresholds, or 1, 2 and 5 in a row by default: by the failures among the newest runs of the window, or by the leading failures and successes, and else the newest run |
| `StateEvaluator.EvaluateJudges` | core/healthcheck-backend/src/state-evaluator.ts:21-105 | that, for all runs and thresholds, in terms of the runs' statuses alone |
| `StateEvaluator.GetSystemHealthStatus` | core/healthcheck-backend/src/service.ts:303-390 | the status is unhealthy if any verdict is, else degraded if any is; each verdict judges the newest 100 runs of its check, and where the thresholds fit 100 runs it is that of the whole history |
| `StateEvaluator.EvaluateChecks` | core/healthcheck-backend/src/service.ts:414-448 | one verdict per check, in order, on its newest runs up to the limit |
| `StateEvaluator.WorstStatus` | core/healthcheck-backend/src/service.ts:372-383 | the loop with its break finds unhealthy if it is there, else degraded if that is, else healthy |
| `PluginRegistry.SlotRightIff` | core/frontend-api/src/plugin-registry.ts:127-140 | removing a plugin's extensions by id leaves in a slot exactly what the other plugins put there, in order, if and only if no earlier-registered plugin shares an id in it |
| `PluginRegistry.SlotsRightIff` | core/frontend-api/src/plugin-registry.ts:127-140 | the same for all slots of the index at once |
| `PluginRegistry.DropsOwnIff` | core/frontend-api/src/plugin-registry.ts:131-137 | on one list: dropping by id hits exactly the plugin's own entries if and only if none before them shares an id |
| `PluginRegistry.RoutesRightIff` | core/frontend-api/src/plugin-registry.ts:75-81 | removing its route ids leaves exactly the other plugins' routes if and only if none of them uses one of the ids |
| `PluginRegistry.AgreeAfterRegister` | core/frontend-api/src/plugin-registry.ts:83-106 | after registration each slot is the in-order concatenation over the plugins, and the route map holds exactly their routes |
| `PluginRegistry.RegisterUnregisterRoundTrip` | core/frontend-api/src/plugin-registry.ts:83-145 | registering any plugin, accepted or rejected, and unregistering it restores a slot exactly when none of its ids was in it, and the route map exactly when none of its route ids was in use |
| `PluginRegistry.Registry.Register` | core/frontend-api/src/plugin-registry.ts:83-106 | the new lists, version and paths; a rejected plugin stays listed with its extensions and the routes before the rejected one, and the version does not move |
| `PluginRegistry.PutResolves` | core/frontend-api/src/plugin-registry.ts:52-69 | routes of distinct ids all resolve to a path that starts at their plugin with one slash between the two parts, and other routes stay |
| `PluginRegistry.Registry.Unregister` | core/frontend-api/src/plugin-registry.ts:112-145 | for any registry, one with a rejected plugin included: the first plugin with the id, its ids in the slots and its route ids go, and the slots stay right exactly when no earlier plugin shares an id |
| `Changesets.RoundTripIff` | scripts/inject-release.ts:22-58 | parsing a printed changeset gives it back exactly when its names are non-empty without quotes, colons and newlines and its summary is trimmed |
| `Changesets.ReprintIsStable` | scripts/inject-release.ts:22-58 | for any file at all, parsing, printing and parsing again gives what the first parse gave |
| `Changesets.ParseIsWellFormed` | scripts/inject-release.ts:22-50 | whatever the file holds, the parsed names and summary are well formed |
| `Changesets.MatchIff` | scripts/inject-release.ts:40-45 | a line is a package entry exactly when it reads as an optional quote, a name without quotes and colons, an optional quote, a colon, white space and one of the three words |
| `Changesets.EntryReads` | scripts/inject-release.ts:53-55 | a printed entry is the name in double quotes, a colon, a blank and the word of its bump |
| `Changesets.MarkerIff` | scripts/inject-release.ts:29 | a marker line is three dashes with white space around them or not |
| `Changesets.ParseFramed` | scripts/inject-release.ts:22-50 | a file with at least two marker lines holds the packages of the matching lines between the first two, in order, and the trimmed text after the second |
| `Changesets.ParseUnframed` | scripts/inject-release.ts:22-50 | with one marker every line after it is read for packages and the summary is the whole text, with none there are no packages |
| `Changesets.InjectedParses` | scripts/inject-release.ts:117-124 | the injected file still lists its packages in order, then "@checkstack/release" as minor, with the same summary |
| `Changesets.InjectionIsFinal` | scripts/inject-release.ts:86-124 | a second run of the hook changes nothing |
| `Changesets.ParseFrontmatter` | scripts/inject-release.ts:22-50 | the line loop finds the packages between the markers and the summary after them |
| `Changesets.InjectRelease` | scripts/inject-release.ts:66-124 | unless a file lists the release package, the first file with packages gets it, always as a minor bump |

## Left out

- GetAggregatedHistory: the choice of the interval from the number of points, which need not be whole, is not modelled; the result stored with a row is a parameter.
- NormalizeRawRuns: the strategy's and the collectors' own merge code is a parameter that maps the runs of a bucket to a result.
- CountStatuses: statuses other than the three known ones, which the code ignores, are not modelled.
- Write: the t-digest and the merged collector data of an hourly row are opaque values chosen by the worker, because the digest library is not part of this model.
- StorageInvariant: a crash between the insert of a daily row and the deletes of its hourly rows is not modelled; neither are time zones and daylight saving.
- MergeTieredBuckets: that every instant stays covered is not claimed: daily buckets are tested against all hourly input, also against hourly buckets that were dropped for raw data.
- MigrateToVersion: schema validation of the migrated data and the time stamp of the record are not modelled.
- RouteEvent: payload, provider configuration and subscription names that travel with a job are not modelled; a queue that is full while an event is routed is a step of the state machine only (`Refuse`), as it is for RetryDelivery.
- ExecuteDelivery: the external identifier and the error text written to the log are not modelled; other queues than the default one, which may treat a job that throws differently, and database calls that throw are not either.
- SyncAccessRules: which orphans were deleted before a full sync throws depends on the order of the table and is left open.
- AutoAuth: nested input paths are resolved by a map from path to value, and qualified ids are given with the rules.
- ListConnections: secret redaction and decryption of configurations are not modelled.
- UpdateConnection: settings are one map of strings; that the configuration service keeps a stored secret when the new value is blank is not modelled.
- Registry: listeners, `reset`, and the substitution of route parameters are not modelled.
- GetSystemHealthStatus: runs with equal time stamps keep table order, which the database does not promise; association lookup and threshold parsing are parameters.
- Role synchronisation of external users, team management, creation and deletion of roles: short set facts.
- Executing a health check (connections, collectors, time-outs), encryption, OAuth, queues, web sockets, pages and e-mail: external effects.
- Catalog, incident and notification handlers, command search and the release-notes script: short set or sum facts.
