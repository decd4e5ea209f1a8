# Behavior Analytics: a verified model of its detection core

Behavior Analytics watches a SIEM. It collects event counts in five-minute buckets, learns what is normal
for each log source, decides bucket by bucket whether something is wrong, keeps incidents and alerts,
and delivers notifications. This project models the code those promises rest on and proves what it
keeps over whole runs.

| part | files |
|---|---|
| Incident machine: hysteresis, lifecycle, incident rows, audit trail | `Lifecycle`, `IncidentEngine`, `IncidentRuns`, `Detector`, `Readings` |
| Evaluation loop: watermark, savepoints, giving a bucket up after K attempts | `EvaluationLoop` |
| Silence, volume, statistics, baselines | `Silence`, `Volume`, `Statistics`, `Baseline` |
| Bisection search under a budget and its watermark | `KeyedSearch`, `KeyedRun`, `Buckets`, `GeoFold`, `GeoCollector`, `GeoCatchUp`, `GeoTogether` |
| Test-shard scheduler | `Shards` |
| Alert store, search alerts, delivery | `Alerts`, `AlertStore`, `SearchAlerts`, `Delivery` |
| Contributors to an anomaly, sender admission | `Explanation`, `SenderFold`, `Tally` |
| Shared | `Sorting`, `Reals`, `Rounding`, `Wrappers` |

Code that changes state in place is a class whose methods are proved equal to a function on values;
the laws are then lemmas about that function. Times are integers (seconds), except in delivery where
delays are fractions; floating point is exact `real` arithmetic. Providers, notifiers and exceptions
are arbitrary functions of the call: a lemma that quantifies over them covers every pattern of failure,
truncation, rejection or exception.

`dafny verify dfyconfig.toml` checks the whole project.

What the proofs found, beyond confirming the promises:

- The catch-all report's `splits` (distinct searched windows, halved) equals the number of splits exactly
  when the first search is not divided, or three searches were left and neither half is divided:
  `KeyedRun.ReportedSplitsAgree`. When every answer is truncated a window of n buckets reports n / 2
  instead of n - 1: `KeyedRun.TruncationHidesSplits`.
- A silence grace above 12 buckets, which the policy table admits up to 48, never ends, because the
  streak looks back 12 rows: `Silence.GraceIsHonouredIff`, `Silence.OutageOpensOnTime`.
- Before the first watermark the give-up bound does not hold: a source that gains a bucket every tick
  can fail for ever (`EvaluationLoop.NewBucketsStarveTheFirstMark`); `NoMarkIff` says exactly which runs
  leave it without a watermark.
- The normal bucket that begins a recovery lies in the span its incident excludes, because the end is set
  to that bucket's start and spans are closed; the later buckets of the recovery do not
  (`IncidentRuns.OnlyFirstRecoveryIsExcluded`, `Baseline.RecoveryTrainsIff`). The rebuild's own text
  (backend/app/anomaly/baseline.py:213-216) takes the buckets after the end for all those that recovery is
  judged on.
- The geo directions share one budget in a fixed order. A direction is sure to be served exactly when the
  budget covers 2n - 1 searches for each direction before it and floor(log2 n) + 1 of its own
  (`GeoTogether.AlwaysServedIff`); on the first tick of two directions that is 27 searches where the
  default is 16 (backend/app/core/config.py:301). When a tick brings so many new buckets that their 2n - 1
  searches use up the budget, as a cadence of one hour does at the defaults, a provider that truncates
  every answer about the first direction keeps the second from ever collecting anything
  (`GeoTogether.FirstStarvesTheRest`).
- An anomalous bucket can train its own baseline: exactly when it lifts a suppression outside the span of
  every incident that was there before it (`Baseline.AnomalousTrainsIff`). Such a bucket exists
  (`Baseline.LiftingBucketTrains`), and so does a lifting bucket that an earlier incident, resolved late,
  still excludes (`IncidentRuns.LateResolutionExcludes`).
- The observation on record for an incident is its worst for every possible series of observations exactly
  when no anomalous bucket left it a candidate or came in maintenance while it recovered
  (`Readings.RecordsWorstIff`). Confirmation after at most two buckets guarantees that outside maintenance
  (`Readings.QuickOpeningMissesNothing`); confirmation after three, the rule for sources of low
  criticality, does not (`Readings.SlowOpeningMisses`).
- A spike and a drop can both be called for one rate exactly when no guard separates them: at the median,
  with no delta asked for, a spike ratio of at most 1, a drop ratio of at least 1 and a score threshold of at
  most 0; or beside the median, with the delta and the score threshold negative, ratios that overlap, and a
  minimum volume small enough for the delta (`Volume.NeverBothIff`). The settings exclude it, since they only
  admit a spike ratio above 1 and a drop ratio below 1 (backend/app/core/config.py:509-510); only a source's
  `custom_thresholds`, which override the settings unchecked
  (backend/app/anomaly/thresholds.py:110-124), can reach it.
- A geo direction whose catch-up window exceeds the 168-hour safety bound is stuck for ever
  (`GeoCatchUp.RefusedForEver`), and with it every other direction of the instance
  (`GeoTogether.OneRefusalStopsAll`); `GeoCatchUp.NeverRefusedIff` says exactly which configurations cannot
  get there. The backfill setting has no upper bound (backend/app/core/config.py:388).
- Graham's bound holds for all weights from some least weight up if and only if that weight is not
  negative: `Shards.BoundHoldsIff`.

Where code and text disagree the code is followed. The alert service's header says that a notification
is queued once per (alert, transition, channel); the unique constraint and the dispatcher also count the
target, and so does `Delivery`. The statistics module says that the MAD is zero when more than half of
the samples are identical; `Statistics.MadIsZeroIff` has it that way and the other way round.

## Model

| member | source | states |
|---|---|---|
| Lifecycle.NextStateIsLegal | backend/app/anomaly/lifecycle.py:69-158 | every decision is a move of the lifecycle diagram, whatever the counters and thresholds |
| Lifecycle.UnknownHolds | backend/app/anomaly/lifecycle.py:69-101 | a bucket without a verdict never opens, closes or recovers anything |
| Lifecycle.CountersAreTrailingRuns | backend/app/anomaly/lifecycle.py:54-66 | advancing the counters keeps them equal to the trailing runs of the verdicts with the unknown ones removed |
| IncidentEngine.TargetIsLegal | backend/app/anomaly/engine.py:553-604 | the state the engine asks for is a legal move; maintenance neither creates nor opens an incident |
| IncidentEngine.MoveTracks | backend/app/anomaly/engine.py:606-692 | a move touches only the attached incident, keeps its id, creates at most one, and gives a new one a fresh id |
| IncidentEngine.StepKeepsOneActive | backend/app/anomaly/engine.py:553-692 | after one bucket at most one incident is CANDIDATE, OPEN or RECOVERING; it is the attached one and in the detector's state |
| IncidentEngine.StepKeepsOpenFlag | backend/app/anomaly/engine.py:606-765 | the open flag says exactly OPEN or RECOVERING, and the open id is the attached one then |
| IncidentEngine.StepKeepsAudit | backend/app/anomaly/engine.py:606-692 | every incident's own audit rows chain and end in its state |
| IncidentEngine.StepKeepsCalls | backend/app/anomaly/engine.py:736-789 | an alert stands asserted only while the incident is open |
| IncidentEngine.RunIsSound | backend/app/anomaly/engine.py:553-765 | all of the above over any sequence of buckets, thresholds and maintenance windows |
| IncidentEngine.AlertFollowsIncident | backend/app/anomaly/engine.py:736-789 | while no policy withholds alerts, the alert is asserted exactly while the incident is open |
| IncidentEngine.IncidentIdentity | backend/app/anomaly/engine.py:606-765 | a relapse reuses its incident, a recurrence after resolution gets a new one, maintenance creates and opens none |
| IncidentEngine.CountersFollowTrace | backend/app/anomaly/engine.py:574-600 | over any run the counters are the trailing runs of the effective verdicts, unknown ones left out |
| IncidentEngine.HysteresisHolds | backend/app/anomaly/lifecycle.py:104-158 | OPEN is entered other than by relapse only after `open_after` anomalous verdicts in a row, RESOLVED only after `resolve_after` healthy ones |
| IncidentRuns.UnknownBucketsChangeNothing | backend/app/anomaly/engine.py:574-600 | inserting a bucket without a verdict anywhere outside suppression and maintenance changes no state (up to NORMAL against INSUFFICIENT_DATA), counter, incident, audit row, announcement or withdrawal of the rest of the run; the one call it adds is a refresh of the alert when it finds the incident open and no policy withholds it |
| IncidentRuns.ChargesStayCovered | backend/app/anomaly/engine.py:664-692 | whatever follows, every anomalous bucket charged to an incident stays inside that incident's exclusion span for every later window end |
| IncidentRuns.ChargedUnlessSuppressed | backend/app/anomaly/engine.py:606-692 | an anomalous bucket is charged to an incident if and only if the detector was not suppressed |
| IncidentRuns.RunOnlyLater | backend/app/anomaly/engine.py:606-734 | from a machine without an attached incident, no later run changes an incident that was there, and every one it adds starts after the last bucket then |
| IncidentRuns.SpanIsSettled | backend/app/anomaly/seasonal.py:72-94 | a span holds a bucket at every rebuild that can see it, or at none |
| IncidentRuns.LiftedOnlyByEarlier | backend/app/anomaly/engine.py:606-692 | whatever follows, a bucket that lifts a suppression is excluded if and only if an incident from before it excludes it |
| IncidentRuns.AnomalousIsExcludedIff | backend/app/anomaly/engine.py:664-692 | an anomalous bucket is excluded after any later run if and only if the detector was not suppressed or an earlier incident excludes it |
| IncidentRuns.LiftingBucketIsNotExcluded | backend/app/anomaly/lifecycle.py:69-101 | a concrete bucket after maintenance that is counted as anomalous and that no incident of any later run excludes |
| IncidentRuns.LateResolutionExcludes | backend/app/anomaly/engine.py:983-999 | a concrete bucket that lifts a suppression inside the span of an incident resolved late |
| IncidentRuns.LaterIsARun | backend/app/anomaly/engine.py:553-604 | a run cut at a bucket is the run over the whole series, which is what the statements about earlier and later buckets speak of |
| IncidentRuns.RecoverySpan | backend/app/anomaly/engine.py:664-671 | over every run, a recovering incident excludes exactly the times from its detection to the start of the bucket that began the recovery, both included |
| IncidentRuns.OnlyFirstRecoveryIsExcluded | backend/app/anomaly/seasonal.py:72-94 | of the buckets of a recovery the incident excludes the first and no other, for every run |
| IncidentRuns.FirstRecoveryIsExcluded | backend/app/anomaly/baseline.py:213-216 | a concrete normal bucket that counts towards recovery and that the recovering incident excludes |
| Detector.DetectorRow.ApplyHysteresis | backend/app/anomaly/engine.py:553-604 | the in-place update equals one step of the machine, keeps it sound, and ignores a bucket already folded in |
| Detector.DetectorRow.ApplyTransition | backend/app/anomaly/engine.py:606-692 | the in-place move equals the machine's move for every pair of states |
| Detector.DetectorRow.CreateIncident | backend/app/anomaly/engine.py:694-734 | appends one CANDIDATE incident detected at the bucket and attaches it |
| Detector.DetectorRow.PromoteToOpen | backend/app/anomaly/engine.py:736-789 | the attached incident becomes OPEN, its end is cleared and remeasured, and the alert is announced unless maintenance or policy withholds it |
| Detector.DetectorRow.Touch | backend/app/anomaly/engine.py:791-819 | only the attached incident is remeasured; its end moves only on an anomalous bucket |
| Detector.DetectorRow.Resolve | backend/app/anomaly/engine.py:983-999 | closes the incident once, detaches it and withdraws the alert |
| Readings.RecordStep | backend/app/anomaly/engine.py:791-819 | what one bucket does to the observation on record for each incident |
| Readings.RecordIsWorstCounted | backend/app/anomaly/engine.py:791-819 | over any run the record is the worst of the observation the incident was created with and those of the anomalous buckets that opened it or found it open |
| Readings.MissedIs | backend/app/anomaly/engine.py:606-650 | the anomalous buckets that are not compared are those that leave a candidate one and those in maintenance during a recovery |
| Readings.RecordsWorstIff | backend/app/anomaly/engine.py:791-819 | the record is the worst of all the incident's anomalous buckets for every series of observations if and only if none is missed |
| Readings.QuickOpeningMissesNothing | backend/app/anomaly/lifecycle.py:104-133 | with confirmation after at most two buckets and no maintenance none is missed |
| Readings.SlowOpeningMisses | backend/app/anomaly/thresholds.py:53-58 | with confirmation after three, a run whose second bucket is never on record |
| Readings.RecordBook.Observe | backend/app/anomaly/engine.py:694-819 | creating and comparing in place equals the specified record |
| EvaluationLoop.PassedKeeps | backend/app/anomaly/engine.py:261-286 | a judged bucket extends the judged history in order and the verdict state by exactly that bucket |
| EvaluationLoop.RecordedKeeps | backend/app/anomaly/engine.py:299-352 | recording a failure, kept or lost, keeps the attempt counts and the give-up rule |
| EvaluationLoop.WalkKeeps | backend/app/anomaly/engine.py:238-286 | one pass over pending buckets keeps the history in turn, and every pending bucket the watermark reaches was judged or given up |
| EvaluationLoop.TickSettles | backend/app/anomaly/engine.py:183-286 | one tick, whatever raises: every live bucket between the old and the new watermark was judged or given up, and the watermark never goes back |
| EvaluationLoop.RunKeeps | backend/app/anomaly/engine.py:183-286 | over any ticks each bucket is judged at most once or given up, never both, in order; a given-up bucket has exactly K recorded failures and one still ahead has fewer; the verdict state is the fold of the judged buckets |
| EvaluationLoop.NothingIsSkipped | backend/app/anomaly/engine.py:226-286 | a bucket that is live whenever the loop looks is never passed over |
| EvaluationLoop.TickProgresses | backend/app/anomaly/engine.py:238-286 | with a watermark, pending work and working bookkeeping, a tick leaves fewer of the buckets pending or counts one more attempt on the oldest, however many newer ones arrived |
| EvaluationLoop.PendingIsCleared | backend/app/anomaly/faults.py:20-32 | as many ticks as (pending, attempts left on the oldest) amount to leave every one of these live buckets judged or given up, while newer ones keep arriving |
| EvaluationLoop.FirstMarkIff | backend/app/anomaly/engine.py:190-224 | without a watermark a tick sets one if and only if the newest bucket is judged or its recorded failures reach the limit |
| EvaluationLoop.NoMarkIff | backend/app/anomaly/engine.py:190-224 | over any run of a fresh source there is no watermark if and only if in every tick with live buckets the newest one raised and its recorded failures up to then number fewer than K, or that tick's was lost |
| EvaluationLoop.SteadyNewestStarts | backend/app/anomaly/engine.py:190-224 | while the newest bucket stays the same every tick counts an attempt on it, so K ticks are enough |
| EvaluationLoop.NewBucketsStarveTheFirstMark | backend/app/anomaly/engine.py:190-224 | a run of any length in which each tick has a newer bucket, all evaluations raise, and no watermark is ever set |
| EvaluationLoop.CleanTickClosesFaults | backend/app/anomaly/engine.py:354-365 | a tick that judges something and in which nothing raises leaves no fault awaiting a retry |
| EvaluationLoop.MachineSeesJudgedBuckets | backend/app/anomaly/engine.py:261-286 | the incident machine's state is its own run over the judged buckets alone, each new to it, and so it is sound |
| EvaluationLoop.Evaluator.EvaluatePending | backend/app/anomaly/engine.py:183-286 | one tick in place equals the tick function, or changes nothing for a source that is not monitored; given-up and failed counts of the report add up |
| EvaluationLoop.Evaluator.EvaluateInOrder | backend/app/anomaly/engine.py:250-286 | the loop with its break and continue equals the walk over the pending buckets |
| EvaluationLoop.Evaluator.JudgeBucket | backend/app/anomaly/engine.py:251-257 | an evaluation that raises leaves the state, the watermark and the history as they were |
| EvaluationLoop.Evaluator.RecordFailure | backend/app/anomaly/engine.py:299-352 | one more attempt and the give-up decision, or the savepoint restored and the bucket held |
| EvaluationLoop.Evaluator.ClearFailure | backend/app/repositories/anomaly_faults.py:97-108 | closes every open fault row of the source and leaves given-up rows as they are |
| Silence.PrecedingEmptyBuckets | backend/app/anomaly/engine.py:448-479 | the streak is the trailing run of complete empty rows, cut off at the limit |
| Silence.ShortGraceIsHonoured | backend/app/anomaly/detectors.py:98-177 | for a grace of at most 12, NO_EVENTS is anomalous exactly from the (grace + 1)-th complete empty bucket in a row |
| Silence.LongGraceNeverEnds | backend/app/anomaly/engine.py:448-479 | for a longer grace NO_EVENTS is never anomalous |
| Silence.GraceIsHonouredIff | backend/alembic/versions/0019_outage_alert_policy.py:53-57 | of the graces the policy admits, those honoured on every history are exactly 0 to 12 |
| Silence.OutageOpensOnTime | backend/app/anomaly/detectors.py:98-177 | a source that falls silent, after any history ending in a bucket that is not a complete empty one and from any machine without an incident, a suppression or an anomalous run, opens its incident at exactly the (grace + open_after)-th empty bucket when the grace is at most 12, and never otherwise |
| Silence.RunDetectors | backend/app/anomaly/engine.py:521-550 | unsupported verdicts are dropped; when silence is found the detectors it makes meaningless, and only those, become unknown |
| Silence.WithheldChangesNothing | backend/app/anomaly/engine.py:538-549 | a withheld verdict advances no counter and changes no state except among the idle and suppressed ones |
| Volume.SpikeIsUpwardClosed | backend/app/anomaly/detectors.py:190-380 | a spike at some rate is a spike at every higher rate, with the score or with the band |
| Volume.DropIsDownwardClosed | backend/app/anomaly/detectors.py:190-380 | a drop at some rate is a drop at every lower rate |
| Volume.VerdictsTakeSides | backend/app/anomaly/detectors.py:300-310 | with a positive minimum delta a spike lies above the median and a drop below it |
| Volume.SeparateRatiosExcludeBoth | backend/app/anomaly/detectors.py:275-298 | ratio thresholds that do not overlap, as the settings demand, exclude a spike and a drop at one rate, whatever the other thresholds |
| Volume.NeverBothIff | backend/app/anomaly/detectors.py:190-380 | for all thresholds, no context and rate give both if and only if the thresholds do not overlap: neither at the median, nor above it at the spike ratio, nor below it at the drop ratio |
| Volume.AnyGuardExcludesBoth | backend/app/anomaly/detectors.py:190-380 | for a minimum delta of at least 0 they give both never if and only if the delta is positive, the spike ratio exceeds 1, the drop ratio is below 1 or the score threshold is positive |
| Volume.NoGuardLetsBothFire | backend/app/anomaly/thresholds.py:110-124 | for all thresholds that overlap at the median, which a source's overrides can set, a context in which the median itself is both |
| Volume.StricterNeverCreates | backend/app/anomaly/detectors.py:190-380 | stricter thresholds never create a verdict |
| Volume.SteadySourceIsJudgedByItsBand | backend/app/anomaly/detectors.py:326-350 | when most samples equal the median the verdict is the guards and the expected band alone, and the band contains the median |
| Volume.MissingPercentilesLeaveABand | backend/app/anomaly/detectors.py:383-397 | without percentiles the band is symmetric about the median and strictly wider than it |
| Statistics.MedianIsPercentile50 | backend/app/anomaly/statistics.py:20-47 | the median is the 50th percentile, also for the empty sequence's error |
| Statistics.PercentileIsMonotone | backend/app/anomaly/statistics.py:34-47 | a higher quantile is never lower |
| Statistics.PercentileIsWithin | backend/app/anomaly/statistics.py:34-47 | every quantile lies between two of the samples |
| Statistics.PercentileExtremes | backend/app/anomaly/statistics.py:34-47 | quantiles 0 and 100 bound every sample |
| Statistics.OrderDoesNotMatter | backend/app/anomaly/statistics.py:20-47 | median and percentiles do not depend on the order of the samples |
| Statistics.MajorityBoundsMedian | backend/app/anomaly/statistics.py:20-23 | a bound that more than half of the samples respect is respected by the median |
| Statistics.MedianResists | backend/app/anomaly/statistics.py:20-23 | changing fewer than half of the samples keeps the median within the range of the others |
| Statistics.HalfChangedIsTooMany | backend/app/anomaly/statistics.py:20-23 | changing half of them does not |
| Statistics.MadIsZeroIff | backend/app/anomaly/statistics.py:26-31 | the MAD is never negative and is zero if and only if more than half of the samples equal the centre |
| Statistics.EffectiveScale | backend/app/anomaly/statistics.py:50-62 | the denominator is positive and at least both the scaled MAD and the floor |
| Statistics.RobustZIsMonotone | backend/app/anomaly/statistics.py:65-91 | the score rises with the value and has the sign of its deviation |
| Statistics.SummaryIsCoherent | backend/app/anomaly/seasonal.py:48-60 | a cell has p05 <= median <= p95, a zero MAD only for a majority at the median, is reliable from the minimum sample count on, and stores the last 200 samples rounded to four places |
| Baseline.KeptIffClean | backend/app/anomaly/baseline.py:168-254 | a bucket is kept if and only if it is finished, complete, outside maintenance, in hours and in no incident span |
| Baseline.EveryCandidateAccounted | backend/app/anomaly/baseline.py:168-188 | kept buckets and the tally add up to the candidates |
| Baseline.KeptAreClean | backend/app/anomaly/baseline.py:168-188 | the observations are exactly those of the clean candidates |
| Baseline.LoadClean | backend/app/anomaly/baseline.py:142-188 | the loop keeps and charges each candidate as specified, and accounts for all of them |
| Baseline.GroupCells | backend/app/anomaly/baseline.py:111-118 | each cell holds the values of its weekday and hour, oldest first, and no other cell exists |
| Baseline.SeasonalKey | backend/app/anomaly/seasonal.py:43-45 | the key is an ISO weekday from 1 to 7 and an hour from 0 to 23 |
| Baseline.CellsPartition | backend/app/anomaly/baseline.py:111-118 | the 168 cells of a metric share the observations out, each to exactly one |
| Baseline.FractionIsShare | backend/app/anomaly/seasonal.py:63-69 | completeness lies in [0, 1] and is 1 exactly when nothing was dropped |
| Baseline.BaselineBuilder.RebuildForSource | backend/app/anomaly/baseline.py:99-140 | every cell with observations is recomputed from exactly its values, every other stored cell stays |
| Baseline.ExcludedNeverTrains | backend/app/anomaly/baseline.py:190-254 | a bucket in the span of an incident row does not train the baseline |
| Baseline.ChargedBucketNeverTrains | backend/app/anomaly/baseline.py:161-254 | no anomalous bucket charged to an incident trains any later rebuild, whatever else is stored and however the source is configured |
| Baseline.SpansExclude | backend/app/anomaly/baseline.py:190-229 | the spans of a rebuild hold a bucket before its end exactly when some incident row excludes it |
| Baseline.TrainsIffNotExcluded | backend/app/anomaly/baseline.py:142-254 | an otherwise eligible candidate trains the baseline if and only if no incident's span holds it |
| Baseline.AnomalousTrainsIff | backend/app/anomaly/baseline.py:142-254 | for any run before and after, any stored rows and any rebuild, an anomalous bucket trains if and only if it is eligible, lifted a suppression, and no earlier incident nor another detector's holds it |
| Baseline.RecoveryTrainsIff | backend/app/anomaly/baseline.py:190-254 | for any run and stored rows, a bucket of a recovery trains a rebuild made then if and only if it is eligible, did not begin the recovery, and no other incident holds it |
| Baseline.LiftingBucketTrains | backend/app/anomaly/baseline.py:142-254 | a concrete anomalous bucket that trains the next rebuild whatever its detector sees in between |
| KeyedSearch.BisectTiles | backend/app/catchall/keyed_search.py:150-188 | the leaf windows cover every bucket of the window exactly once, in order |
| KeyedSearch.LeavesAreSound | backend/app/catchall/keyed_search.py:107-188 | unmeasured windows hold no rows and a lower bound is a one-bucket window |
| KeyedSearch.BudgetIsKept | backend/app/catchall/keyed_search.py:150-153 | at most 2n - 1 searches are sent and never more than the budget |
| KeyedSearch.SearchesAreAccounted | backend/app/catchall/keyed_search.py:150-188 | the searches sent are the divisions plus the leaves searched |
| KeyedSearch.UncollectedIsSuffix | backend/app/catchall/keyed_search.py:150-188 | what was not collected comes last, and only once the budget is spent |
| KeyedSearch.EnoughBudget | backend/app/catchall/keyed_search.py:150-188 | with 2n - 1 searches in hand nothing is left uncollected |
| KeyedSearch.OldestIsMeasured | backend/app/catchall/keyed_search.py:150-188 | with an answering provider floor(log2 n) + 1 searches measure the oldest bucket |
| KeyedSearch.OldestNeedsLog2 | backend/app/catchall/keyed_search.py:150-188 | no smaller number does: a provider that truncates every answer leaves it out |
| KeyedSearch.MeasuredIsExact | backend/app/catchall/keyed_search.py:142-188 | a measured window holds, bucket by bucket, what a search of each bucket alone would return |
| KeyedRun.SearchBudget.TryTake | backend/app/ips/keyed_search.py:35-52 | takes one search while fewer than the limit were taken, and never more |
| KeyedRun.Run.Emit | backend/app/catchall/keyed_search.py:107-140 | every bucket of a decided window gets its outcome, no other changes |
| KeyedRun.Run.Search | backend/app/catchall/keyed_search.py:150-188 | the recursive search over the shared dictionary and budget equals the bisection; splits are the leaves minus one |
| KeyedRun.RunSearch | backend/app/catchall/keyed_search.py:89-189 | a refused window searches nothing; otherwise the outcomes are those of the bisection, in order |
| KeyedRun.OutcomesAreSound | backend/app/catchall/keyed_search.py:89-189 | one outcome per bucket in order; unmeasured ones hold nothing; only uncollected ones have no provenance |
| KeyedRun.OutcomesAreExact | backend/app/collectors/geo_collector.py:106-200 | every measured outcome is what a search of that bucket alone would give, whatever fails around it |
| KeyedRun.EnoughBudgetEqualsOneByOne | backend/app/collectors/geo_collector.py:106-200 | with budget enough and no failure the list is exactly the bucket-by-bucket one |
| KeyedRun.OldestOutcomeIsMeasured | backend/app/collectors/geo_collector.py:151-200 | the progress bound, on the returned list |
| KeyedRun.ReportedSplitsAgree | backend/app/collectors/catchall_collector.py:464-473 | the catch-all split count equals leaves minus one if and only if no search is left, the first reply does not divide the window, or three searches are left and neither half's reply divides it |
| KeyedRun.TruncationHidesSplits | backend/app/collectors/catchall_collector.py:464-473 | when every answer is truncated and the budget lasts, n buckets are divided n - 1 times and n / 2 is reported |
| KeyedRun.TruncationSpends | backend/app/catchall/keyed_search.py:150-188 | when every answer is truncated, all that the budget has of 2n - 1 searches is spent |
| KeyedRun.RunCatchallSearch | backend/app/catchall/keyed_search.py:89-189 | the window is checked first, then that there is a device type; then the outcomes are those of the bisection, each with the device types and the bucket width asked about when a query was sent for it |
| KeyedRun.TypesAreListed | backend/app/catchall/keyed_search.py:102 | the device types asked about are those given, each once, in ascending order |
| KeyedRun.TypesForgetListing | backend/app/catchall/keyed_search.py:102 | how they were listed makes no difference |
| Buckets.FloorIsAligned | backend/app/collectors/catchall_collector.py:242-244 | flooring gives the aligned start of the bucket that contains the moment, negative times included |
| Buckets.FloorIsMonotone | backend/app/collectors/catchall_collector.py:242-244 | a later moment never floors to an earlier bucket |
| Buckets.WindowIsWhole | backend/app/collectors/bucketed_metrics.py:14-39 | the window of the listed buckets is refused only for being longer than the safety bound |
| Buckets.ListStarts | backend/app/collectors/geo_collector.py:362-387 | the loop lists the consecutive starts from the first, settled by the boundary, up to the limit |
| GeoFold.FoldConserves | backend/app/geo/fold.py:168-202 | a folded bucket keeps every event and at most the allowed countries |
| GeoFold.FoldForgetsOrder | backend/app/geo/fold.py:168-202 | the fold does not depend on the order of the rows |
| GeoFold.FoldBucket | backend/app/geo/fold.py:168-202 | the counting loop and its cap equal the fold, with the number of distinct unreadable keys |
| GeoFold.BucketRowsKeepTheBucket | backend/app/collectors/geo_collector.py:400-441 | a measured bucket stores between 1 and cap + 3 rows, one per slot, with all its events |
| GeoCollector.RequestIsWhole | backend/app/collectors/geo_collector.py:362-387 | a tick asks for whole, aligned, settled buckets, the first right after the watermark |
| GeoCollector.TickKeepsWatermark | backend/app/collectors/geo_collector.py:476-503 | one tick keeps every covered bucket stored, moves the watermark only forward by the buckets it counted, and never past the settle boundary |
| GeoCollector.RunCoversEveryBucket | backend/app/collectors/geo_collector.py:266-503 | over any ticks the buckets from the anchor to the watermark were all measured and stored, none skipped, and their number is `intervals_collected` |
| GeoCollector.RunKeepsTheAnchor | backend/app/collectors/geo_collector.py:476-503 | from the first advance on the anchor never moves and the watermark never decreases |
| GeoCollector.AnsweredTickAdvances | backend/app/collectors/geo_collector.py:266-360 | a tick with work, an answering provider and a logarithmic budget moves the watermark |
| GeoCollector.RunStoresTruth | backend/app/collectors/geo_collector.py:266-503 | over any ticks every stored bucket is stored as a search of that bucket alone would store it |
| GeoCatchUp.CapableTickAdvances | backend/app/collectors/geo_collector.py:266-360 | a tick behind the target with an answering provider and searches enough moves the watermark on by a bucket at least |
| GeoCatchUp.CatchesUp | backend/app/collectors/geo_collector.py:266-387 | over such ticks the watermark gains a bucket each until it reaches the target, so as many ticks as buckets are missing bring it there |
| GeoCatchUp.RefusedForEver | backend/app/collectors/bucketed_metrics.py:14-39 | once a tick's window is refused as too long every later tick's is refused as well, and the direction never changes |
| GeoCatchUp.NeverRefusedIff | backend/app/collectors/geo_collector.py:296-317 | no direction that keeps the watermark invariant is ever refused if and only if both the largest catch-up window and the first one fit the bound |
| GeoTogether.EachRunsAlone | backend/app/collectors/geo_collector.py:266-360 | in any run of several directions each goes through a run of its own, so that what holds of every run of one holds of each |
| GeoTogether.TogetherStoresTruth | backend/app/collectors/geo_collector.py:266-503 | over any ticks of any number of directions each keeps its watermark covered and stores every bucket as a search of that bucket alone would |
| GeoTogether.SpentFits | backend/app/collectors/geo_collector.py:299-322 | however the provider answers, the directions together keep to the budget and to 2n - 1 searches each |
| GeoTogether.AlwaysServedIff | backend/app/collectors/geo_collector.py:299-322 | an answering provider moves a direction with work on, whatever happens to those before it, if and only if the budget covers their 2n - 1 searches each and floor(log2 n) + 1 more |
| GeoTogether.FirstTickServesBothIff | backend/app/core/config.py:300-301 | on the first tick of two directions the second is sure to be served if and only if there are 27 searches or more |
| GeoTogether.FirstStarvesTheRest | backend/app/collectors/geo_collector.py:299-322 | for any number of ticks at least c buckets apart and a budget of at most 2c - 1, truncated answers about the first direction leave every other one without a single bucket |
| GeoTogether.OneRefusalStopsAll | backend/app/workers/tasks.py:227-232 | once one direction's window is too long no later tick changes any direction |
| GeoTogether.GeoCollection.Collect | backend/app/collectors/geo_collector.py:266-360 | one tick of all directions in turn on one budget equals the joint tick; a refused window puts every direction back as it was; the searches sent are those of the turns and fit the budget |
| GeoCollector.GeoDirection.Collect | backend/app/collectors/geo_collector.py:266-360 | one tick of a direction in place equals the tick function; the report's counts add up, unreadable keys included, the lag is that of the new watermark and the budget is kept |
| GeoCollector.GeoDirection.AdvanceWatermark | backend/app/collectors/geo_collector.py:476-503 | the watermark is the last of the contiguous measured prefix, the interval count grows by its length, failures count incomplete ticks |
| GeoCollector.GeoDirection.Write | backend/app/collectors/geo_collector.py:443-474 | exactly the measured buckets are replaced |
| Shards.ListSchedulingBound | backend/scripts/ci_shard.py:74-88 | any greedy order stays within (2 - 1/m) of any other split's heaviest shard |
| Shards.GrahamBound | backend/scripts/ci_shard.py:74-88 | heaviest first stays within (4/3 - 1/(3m)) of any other split's heaviest shard |
| Shards.GrahamBoundIsTight | backend/scripts/ci_shard.py:74-88 | for every number of shards m, 2m + 1 files (two each of weight 2m - 1 down to m + 1, three of weight m) attain the bound |
| Shards.NegativeWeightsPileUp | backend/scripts/ci_shard.py:74-88 | on two or more shards as many files of weight -1 as shards break the bound |
| Shards.BoundHoldsIff | backend/scripts/ci_shard.py:74-88 | on two or more shards the bound holds for all lists of weights from a least weight up if and only if it is not negative |
| Shards.SpreadBound | backend/scripts/ci_shard.py:74-88 | no two shards differ by more than the largest weight |
| Shards.FallbackIsMedian | backend/scripts/ci_shard.py:54-62 | at least half of the known weights lie on either side of the fallback |
| Shards.Lightest | backend/scripts/ci_shard.py:82-86 | the index of the first of the lightest shards |
| Shards.PlaceInTurn | backend/scripts/ci_shard.py:80-87 | every path is placed exactly once, each on the lightest shard at its turn, and totals equal the shards' sums |
| Shards.ShardFiles | backend/scripts/ci_shard.py:65-88 | every file is in exactly one shard, each shard is sorted, and for non-negative weights the split is within Graham's factor of every other split and balanced |
| Shards.FileOrderDoesNotMatter | backend/scripts/ci_shard.py:65-88 | the split does not depend on the order the files were listed in |
| Alerts.SortedUnionIsUnion | backend/app/alerts/service.py:78-81 | merged anomaly ids are those of both, once each, sorted |
| Alerts.CallKeepsOneActive | backend/app/alerts/service.py:68-156 | every call keeps at most one active alert per condition |
| Alerts.CallFollows | backend/app/alerts/service.py:68-156 | one call moves the condition it is about one step along the protocol and no other condition |
| Alerts.HistoryFollows | backend/app/alerts/service.py:68-156 | over any calls of any workers, lost insert races included, each condition's announcements follow (OPENED, at most one ACKNOWLEDGED, RESOLVED)* and the table says where it stands and how often it was asserted |
| Alerts.ResolvedAlertsStay | backend/app/alerts/service.py:134-148 | a resolved alert never changes again and no row disappears |
| Alerts.DetectionsMerge | backend/app/alerts/service.py:68-118 | however often a quiet condition is detected in one call it gets one alert: it counts the detections, keeps every anomaly id and the last evidence, takes the last severity, and no other row changes |
| Alerts.RefreshCommutes | backend/app/alerts/service.py:199-219 | refreshing an alert that was active commutes with asserting another condition |
| Alerts.TwoPassesAreOne | backend/app/alerts/service.py:199-293 | the two passes leave the table that one pass in input order would |
| Alerts.SecondPassSeesTheSame | backend/app/alerts/service.py:230-293 | the second pass looks up what the one-by-one pass would |
| AlertStore.AlertService.Insert | backend/app/models/alert.py:45-51 | the partial unique index refuses exactly a second active alert of a condition |
| AlertStore.AlertService.OpenOrUpdate | backend/app/alerts/service.py:68-118 | refresh or create; when a rival's row lands in between, only its count and last-seen time are bumped |
| AlertStore.AlertService.AcknowledgeAlert | backend/app/alerts/service.py:120-132 | only an open alert becomes acknowledged; an unknown id is an error |
| AlertStore.AlertService.ResolveAlert | backend/app/alerts/service.py:134-148 | an alert is resolved once; an unknown id is an error |
| AlertStore.AlertService.ResolveByFingerprint | backend/app/alerts/service.py:150-156 | resolves the active alert of the condition, if there is one |
| AlertStore.AlertService.RefreshKnown | backend/app/alerts/service.py:199-221 | the first pass applies exactly the inputs whose alert was open, in order |
| AlertStore.AlertService.OpenNew | backend/app/alerts/service.py:230-295 | a condition without an active alert gets a new one, or the rival's that landed first, with this assertion counted on it |
| AlertStore.AlertService.OpenTheRest | backend/app/alerts/service.py:230-295 | after the second pass table and results are those of the one-by-one calls, lost insert races included |
| AlertStore.AlertService.ApplyBulk | backend/app/alerts/service.py:158-308 | bulk equals sequential: same table, same ordered results, with duplicate conditions and with rivals that win the insert of their condition |
| AlertStore.RacedIsEntered | backend/app/alerts/service.py:104-115 | losing the insert to a rival is the rival's call followed by the lost race |
| AlertStore.BulkIsARun | backend/app/alerts/service.py:158-308 | a bulk operation, rivals included, is a run of single calls |
| SearchAlerts.RecordedCounts | backend/app/alerts/search_alerts.py:70-159 | what one execution does to the two alerts' assertion counts, the one never touching the other |
| SearchAlerts.BreachesSayLast | backend/app/alerts/search_alerts.py:70-88 | breaches since the last clear are positive exactly when the last conclusive execution breached |
| SearchAlerts.AlertsFollowExecutions | backend/app/alerts/search_alerts.py:54-159 | after any executions the threshold alert is active iff the last conclusive one breached, with that many occurrences; the failure alert iff the last `alert_after` all failed |
| SearchAlerts.Evaluator.Record | backend/app/services/search_scheduler.py:884-890 | counting and evaluating one execution in place equals the specified step and returns its results |
| SearchAlerts.Evaluator.EvaluateThreshold | backend/app/alerts/search_alerts.py:70-117 | only a completed execution is judged, and a truncated one without a breach changes nothing |
| SearchAlerts.Evaluator.EvaluateFailure | backend/app/alerts/search_alerts.py:119-159 | a success resolves, enough failures in a row assert, fewer do nothing |
| Delivery.EnqueueOnce | backend/app/alerts/dispatcher.py:68-98 | queueing keeps the rows there were and leaves exactly one row per route for the transition, none for a recovery that is disabled |
| Delivery.EnqueueAgainAddsNothing | backend/app/alerts/dispatcher.py:68-98 | queueing the same transition again adds nothing |
| Delivery.BackoffIsBounded | backend/app/services/backoff.py:14-29 | a retry comes after at most the cap and at most the exponential delay |
| Delivery.ChosenAreDue | backend/app/alerts/dispatcher.py:100-119 | a dispatch takes due rows only, none twice, as many as the limit allows |
| Delivery.EarliestFirst | backend/app/alerts/dispatcher.py:100-119 | a due row passed over is due no earlier than any taken |
| Delivery.EachTriedOnce | backend/app/alerts/dispatcher.py:120-125 | a dispatch tries exactly the chosen rows, once each |
| Delivery.QueueStaysSane | backend/app/alerts/dispatcher.py:68-169 | over any run each (alert, transition, channel, target) is queued once, tried at most `max_attempts` times, and by then sent or parked |
| Delivery.FinalStays | backend/app/alerts/dispatcher.py:100-169 | once sent or parked a notification never changes again |
| Delivery.EverythingSettles | backend/app/alerts/dispatcher.py:100-169 | after as many dispatches as tries are left, spaced by the longest backoff, every notification is sent or parked, whatever the notifiers do |
| Delivery.Dispatcher.Enqueue | backend/app/alerts/dispatcher.py:68-98 | the loop over routes with its savepoint equals the queue function; what it returns is what it added |
| Delivery.Dispatcher.DispatchDue | backend/app/alerts/dispatcher.py:100-125 | the loop equals the dispatch function and the statistics add up to the rows tried |
| Delivery.Dispatcher.Attempt | backend/app/alerts/dispatcher.py:127-169 | one try changes one row as specified and counts it under its new status |
| Rounding.Round | backend/app/anomaly/explanation.py:138-140 | the nearest integer, and the even one of two that are equally near |
| Rounding.RoundIsUnique | backend/app/anomaly/explanation.py:138-140 | no other integer meets that |
| Explanation.CountsAndRanks | backend/app/anomaly/explanation.py:114-119 | a value's count is its own, scaled, and its rank is its place in the provider's list |
| Explanation.ContributionsAddUp | backend/app/anomaly/explanation.py:114-154 | over all values the sizes of the contribution shares sum to 1 and the signed ones to the change of totals over total movement |
| Explanation.ContributionIsAShare | backend/app/collectors/explanation_collector.py:364-370 | every share lies in [-1, 1], the clamp changes nothing, and no share is defined exactly when nothing moved |
| Explanation.RankingIsByMovement | backend/app/anomaly/explanation.py:156-160 | ranks are 1 to min(top_n, n), in order of movement and then value, no value twice, and no value left out comes before one that is in |
| Explanation.ComparisonForgetsOrder | backend/app/anomaly/explanation.py:79-186 | the comparison is the same whatever order the set of values is iterated in |
| Explanation.CompareDimension | backend/app/anomaly/explanation.py:79-186 | the loops equal the specified comparison, with labels and details, unavailable and failed dimensions included |
| Explanation.RankInPlace | backend/app/anomaly/explanation.py:158-160 | the loop numbers the first rows and keeps them |
| SenderFold.SanitizedIsStable | backend/app/catchall/fold.py:37-44 | a stored sender is not padded, printable, of 1 to 255 characters, and its own stored form |
| SenderFold.DecisionPartitions | backend/app/waf/admission.py:90-105 | every unseen sender is admitted or refused, with all their events, and the quota is kept |
| SenderFold.AdmissionIsByRank | backend/app/waf/admission.py:76-105 | admitted ones reach the minimum and rank before every refused eligible one, which exist only when the quota is used up |
| SenderFold.FoldConserves | backend/app/catchall/fold.py:92-148 | tracked and untracked events add up to all events, senders likewise |
| SenderFold.TrackedSendersAreKept | backend/app/catchall/fold.py:122-132 | a tracked sender is never dropped and has the total of its rows |
| SenderFold.TrackedAreKnownOrAdmitted | backend/app/catchall/fold.py:122-132 | every tracked sender was tracked before or is admitted now, and not both |
| SenderFold.TopIsTheHead | backend/app/catchall/fold.py:134-135 | the top list is the busiest tracked senders in order, and those left out rank after them |
| SenderFold.LedgerIsBounded | backend/app/catchall/fold.py:122-132 | the ledger grows by at most the quota and never beyond the ceiling or its starting size |
| SenderFold.LedgerStaysBounded | backend/app/catchall/fold.py:92-148 | over any buckets no tracked sender is forgotten and the ceiling holds |
| SenderFold.FoldForgetsOrder | backend/app/catchall/fold.py:92-148 | every number, the top list and the admitted names are the same for any order of the rows |
| SenderFold.FoldSourceBucket | backend/app/catchall/fold.py:92-148 | the loop and the update of the ledger equal the fold, the fact carries its measurement and says of a truncated bucket that its senders are a lower bound; a top list of less than one is an error |

## Left out

- Detector.DetectorRow.PromoteToOpen: the severity and the pending mark of the explanation package are left out; no decision of the machine reads them.
- Detector.DetectorRow.Touch: the worst observation is modelled beside the row, in `Readings`; the figures copied with it (score, ratio, details) are left out.
- Detector.DetectorRow.Refresh: when a policy stops withholding alerts while an incident is open, the next refresh asserts the alert without announcing it; the calls record that, the contents of the alert are left out.
- EvaluationLoop.Evaluator.EvaluatePending: an exception outside both savepoints (while clearing a fault) aborts the caller's transaction and is not modelled; the report's lists of opened and resolved types are left out.
- EvaluationLoop.CleanTickClosesFaults: a fault row of an older bucket left open by a tick that gave another bucket up is closed only by a later clean tick, which is what is stated.
- AlertStore.AlertService.OpenOrUpdate: does not model that a lost race rolls back the caller's other pending work; the rival commits one row.
- AlertStore.AlertService.ApplyBulk: a rival wins the insert of its own condition; a row committed during the call for a condition that a later input or resolution of the same call names is not modelled, and one clock value serves the call.
- KeyedRun.RunSearch: the query text is not modelled; geo and catch-all share this search.
- KeyedRun.RunCatchallSearch: the bucket key of the provenance is its width in milliseconds, without the text around it.
- GeoCollector.GeoDirection.Collect: the turn of one direction; `GeoTogether.GeoCollection.Collect` runs them all on one budget and rolls them back together.
- GeoTogether.GeoCollection.Collect: the advisory lock and the check that the provider can search, which both leave before anything is read, are left out.
- GeoFold.FoldBucket: the parsing of a key into a country or a remainder is a parameter.
- Silence.RunDetectors: the detectors run once each, as the fixed list in the source does; which inputs a detector needs is a parameter.
- Volume.NeverBothIff: rates are not negative; `SeparateRatiosExcludeBoth` covers every number.
- Volume.SpikeIsUpwardClosed: assumes a bucket with a width and a non-negative median, which is what rates and stored cells are.
- SenderFold.SanitizedIsStable: white space and printability are parameters, not the Unicode tables.
- Delivery.EarliestFirst: ties on the due time, which SQL leaves open, go by row number.
- Floating point rounding, SQL, advisory locks, HTTP, Redis and Celery: replaced by exact arithmetic, values in memory and a single writer.
- The other detectors (delay, parsing, cardinality, payload, collection errors): single comparisons that a reading settles.
- Severity, confidence, message texts and evidence rounding: no verdict depends on them.
- WAF, IPS and property-watch pipelines and the history backfill of the catch-all collector: they reuse the search, admission and lifecycle modelled here over state of their own.
- The catch-all collector's own tick: its windows, search and watermark follow the protocol proved for the geo collector; its fold is `SenderFold`.
- Provider rows are given: their parsing (`fold_log_source_metric_buckets`, keys, JSON) is left out.
- Business hours: an arbitrary predicate on the bucket's start.
- Fingerprints: conditions are identified injectively, so a hash collision is not considered.
