# A verified model of slo-sentinel

slo-sentinel watches capacities and error budgets. It extrapolates each metric to its ceiling,
turns the arrival time into a severity, tells people about changes of severity without repeating
itself, keeps a ledger of wasted resources, prices them through a cache, and reloads its
definitions when their files change. This project models those parts in Dafny and proves what
they keep over every input and every run.

`dafny verify dfyconfig.toml` checks the whole project.

## Layout

| file | component |
|---|---|
| `Engine.dfy`, `Medians.dfy` | the numerical tools and the in-place sort |
| `Robustness.dfy`, `Regression.dfy`, `Decimation.dfy`, `Gaps.dfy` | the theory of those tools |
| `Forecasting.dfy`, `Exactness.dfy`, `Severity.dfy` | the pipeline from samples to a severity, and what it gets right |
| `WindowReports.dfy` | what a window's evaluation depends on and reports, and when a forecast is refused |
| `CapacitySensor.dfy`, `CapacityReports.dfy`, `BudgetSensor.dfy` | the two kinds of sensors over their polls |
| `Notification.dfy`, `NotificationRuns.dfy`, `NotificationHistory.dfy` | deduplication, backoff, hand-off to triage; all runs of them |
| `WasteTracker.dfy`, `WasteRuns.dfy`, `WasteHistory.dfy` | the waste candidates' life cycle and ledger; all runs of them |
| `Signing.dfy`, `PriceCache.dfy` | the signed price queries and the cache in front of them |
| `Watcher.dfy` | the debounced directory watcher as a concurrent protocol |
| `StringOrder.dfy`, `Cutting.dfy`, `Sequences.dfy`, `Wrappers.dfy` | sorted map keys, cutting at a separator, small helpers |

Where the original changes things step by step, so does the model: arrays sorted in place, loops
with invariants, and classes (`Sensor`, `Dedupe`, `Daemon`, `Tracker`, `FileCache`, `Catalog`)
whose methods are proved against a function of the old state. The theorems are about those
functions, so they hold of the methods. Beside them, each operation is told once more without
its function: from the input's fields, from the answers of the environment, or from the calls and
outcomes before it, with every constant written out (`WindowReports`, `CapacityReports`,
`NotificationHistory`, `WasteHistory`, and the last parts of `BudgetSensor`, `PriceCache` and
`Watcher`).

## Conventions

- Values, slopes and amounts are exact reals; instants and durations are integers in nanoseconds.
- The environment is a parameter. Answers of metric queries, of the triage gate, the notifier, the
  price source, the disk and the clock, the order a Go map is iterated in (`order`), the keyed hash
  (`mac`) and the results of out-of-range conversions from float to integer (`outOfRange`) are all
  universally quantified.
- Strings are sequences of bytes where bytes matter (`IsBytes`).

## Where the code and its promises part

Each of these is stated as an exact condition or with a concrete run.

1. A severity can be wrong where an arrival time does not fit a 64-bit duration: with conversions
   that yield the smallest integer, slow steady growth over an hour is reported critical
   (`Severity.LevelFollowsTable`, `Severity.SlowGrowthReportedCritical`,
   `Severity.OverflowRaisesFalseAlarm`).
2. Fully sampled error budgets have all their horizons evaluated only for windows of 3 to 34 days.
   From 35 days on the adapted query step exceeds the five-minute gap limit, so whatever the query
   returns no slope is computed and no warning raised (`BudgetSensor.HorizonsUsableIff`,
   `BudgetSensor.LongSlosNeverWarn`).
3. A delivery through the triage gate does not clear the failure count, although a success is meant
   to. The next transition is then held back by an old backoff
   (`NotificationRuns.NextIsImmediateIff`, `NotificationRuns.GateDeliveryKeepsBackoff`).
4. The reported saving stops being the sum over resolved entries when a resolved entry is observed
   again or dismissed (`WasteRuns.LedgerKeptIff`).
5. The accrued waste is the cost of the time that passed if and only if every observation but the
   last moved the last notification or was made at it (`WasteRuns.WasteExactIff`); silent
   observations charge the time since the last notification again each time.
6. Parameters whose names contain `=` do not survive signing, nor does one named like the signature
   (`Signing.ParametersKeptIff`).
7. Queries share cache keys: any query of two or more attributes does, as does any with an `=` in a
   name or a value, with some other query, whose price it can then be given
   (`PriceCache.KeySharedIff`, `PriceCache.ForeignPriceIff`). Queries free of `|`, with names free of
   `=`, never share keys among themselves (`PriceCache.KeyInjective`); the theorems about the cache
   are about runs of such queries.
8. Two resources can share one tracked entry, and the second is then never announced, exactly where
   a sensor's or a resource's name holds a slash (`WasteHistory.EntrySharedIff`,
   `WasteHistory.SharedNotAnnounced`).
9. `onChange` may still begin after `stop` has returned (`Watcher.CallAfterStopIff`,
   `Watcher.CallAfterStopHappens`).

The documentation's severity table says healthy needs two calm polls; for error budgets, which pass
no previous state, one is enough (`Forecasting.NoHysteresisWhenUnset`). The model follows the code.

## Model

| member | source | states |
|---|---|---|
| Medians.SortSlice | internal/budget/evaluate.go:172-178 | the insertion sort by adjacent swaps leaves, in place, the sorted permutation of what the array held |
| Medians.Sink | internal/budget/evaluate.go:174-176 | the inner loop moves one element into place among the ascending ones before it, permutes, and touches nothing after it |
| Medians.SortedSorts | internal/budget/engine.go:88 | sorting yields an ascending permutation |
| Medians.AscendingUnique | internal/budget/engine.go:88 | an ascending sequence is determined by its elements, so the library sort and the hand-written one agree |
| Medians.MediansWithin | internal/budget/evaluate.go:152-154 | the median and the upper middle element lie between any bounds on the elements |
| Medians.MedianOfMajority | internal/budget/engine.go:88-93 | more than half the slopes in an interval put the median there, for odd and even counts |
| Medians.UpperMedianOfMajority | internal/budget/evaluate.go:153-154 | the same holds of the upper middle element, which a window takes of its runs |
| Medians.UpperMedianRank | internal/budget/evaluate.go:153-154 | of two middle elements the upper one is taken: at most half the list is below it, more than half at or below it |
| Medians.MedianHalves | internal/budget/engine.go:88-93 | the median splits every list in halves |
| Medians.MedianEscapes | internal/budget/engine.go:88-93 | with at most half the slopes at or below a bound, the median rises above the middle of the floor and the bound |
| Medians.MedianAffine | internal/budget/engine.go:88-93 | the median commutes with every affine map, order-reversing ones included |
| Engine.TheilSenSlope | internal/budget/engine.go:70-94 | the nested loops, sort and median compute the Theil–Sen estimate: none exactly when no pair has distinct ascending times |
| Engine.SlopesFrom | internal/budget/engine.go:77-83 | the inner loop collects the slopes from one sample to every later one, skipping pairs not ascending in time |
| Engine.MiddleSlope | internal/budget/engine.go:88-93 | sorting an array of the slopes in place and indexing its middle, for odd and even counts, gives the median: at least half the slopes are at or below it and at least half at or above |
| Engine.OLSSlope | internal/budget/engine.go:98-115 | the accumulators give the quotient of the two centred moments, or nothing when the time moment vanishes |
| Engine.DecimateUniformly | internal/budget/engine.go:118-128 | the loop picks the samples at the rounded indices, and never more than the maximum |
| Engine.SplitByGaps | internal/budget/engine.go:132-146 | the loop builds the runs defined by cutting after every gap wider than the limit |
| Engine.CeilingJumpedIff | internal/budget/engine.go:159-164 | the ceiling has jumped exactly when it and the previous one are positive and it left the band from 99% to 101% of that one; a first observation never jumps |
| Robustness.Breakdown | internal/budget/engine.go:70-94 | if more than half of all pairs are pairs of clean samples, the estimate lies within the clean pairs' slopes, whatever the other samples are |
| Robustness.BreakdownOnLine | internal/budget/engine.go:70-94 | if the clean samples lie on a line, the estimate is exactly its slope |
| Robustness.TwentyNineOutliers | internal/budget/evaluate.go:141 | at the cap of 100 points, 29 arbitrary outliers change nothing |
| Robustness.BreakdownIsSharp | internal/budget/engine.go:70-94 | whenever the clean pairs are at most half of all, some values at the same times drive the estimate above any target, so the condition cannot be weakened |
| Robustness.PairsLength | internal/budget/engine.go:75-84 | with strictly increasing times the nested loops meet n(n-1)/2 slopes |
| Robustness.TheilSenWithin | internal/budget/engine.go:70-94 | the estimate lies between any bounds on the slopes it was taken from |
| Robustness.TheilSenEquivariant | internal/budget/engine.go:70-94 | replacing every value v at time t by k·v + a + c·t maps the estimate to k times it plus c, for every real k, decimation included |
| Robustness.TheilSenShift | internal/budget/engine.go:70-94 | shifting all times leaves the estimate, and whether there is one, unchanged |
| Decimation.DecimationIndices | internal/budget/engine.go:122-126 | the kept indices start at 0, end at n-1, are in bounds and strictly increase, and neighbours differ by at most the whole stride plus one |
| Decimation.IndexIsNearest | internal/budget/engine.go:122-126 | each kept index is the integer nearest to its share of the way, halves rounded up |
| Decimation.DecimateSelects | internal/budget/engine.go:118-128 | decimation picks samples in their order |
| Decimation.DecimateKeepsOrder | internal/budget/engine.go:118-128 | strictly increasing times stay so, and non-decreasing ones too |
| Regression.Lagrange | internal/budget/engine.go:102-114 | n·Σxy − Σx·Σy is the sum of (xj−xi)(yj−yi) over all pairs |
| Regression.LeastSquaresFailsIff | internal/budget/engine.go:98-115 | least squares gives nothing exactly for fewer than two samples or all of them at one instant |
| Regression.LeastSquaresIsWeightedMean | internal/budget/engine.go:98-115 | on time-ordered samples it is the mean of the same pairwise slopes Theil–Sen uses, weighted by squared time distance |
| Regression.LeastSquaresWithin | internal/budget/engine.go:98-115 | so it lies between any bounds on the pairwise slopes |
| Regression.EstimatorsAgreeOnLine | internal/budget/engine.go:70-115 | on collinear samples both estimators return the slope of the line, decimated or not |
| Gaps.RunsPartition | internal/budget/engine.go:132-146 | the runs concatenate to the input, none is empty, no gap inside is too wide and every gap between them is |
| Gaps.PartitionUnique | internal/budget/engine.go:132-146 | any list of runs with those facts is the engine's result |
| Gaps.PartitionIff | internal/budget/engine.go:132-146 | both directions: being such a partition characterises the result |
| Forecasting.EvalWindow | internal/budget/evaluate.go:118-166 | one window's evaluation: too few samples, ceiling jump, no slope, no growth and arrival time, in that order |
| Forecasting.CollectSlopes | internal/budget/evaluate.go:133-147 | the loop collects one slope per run that has one and counts all samples |
| Forecasting.PickMiddle | internal/budget/evaluate.go:153-154 | sorting in place and indexing picks the upper middle slope |
| Forecasting.RunsLength | internal/budget/evaluate.go:132-147 | the reported sample count is the window's: splitting loses and repeats none |
| Forecasting.Evaluate | internal/budget/evaluate.go:60-115 | the whole forecast or the first validation error, in the source's order |
| Forecasting.EvalWindows | internal/budget/evaluate.go:90-98 | the first loop fills every window's evaluation, and the one-hour window gives the aggressive estimate |
| Forecasting.LongestEta | internal/budget/evaluate.go:100-111 | the second loop ends with the estimate of the longest positive window |
| Forecasting.NoHysteresisWhenUnset | internal/budget/evaluate.go:220-222 | without a previous state the reported state is the raw severity |
| Exactness.RunSlopeIff | internal/budget/evaluate.go:135-145 | with strictly increasing times a run has a slope exactly when it has two samples, whichever estimator is used |
| Exactness.LongRunIff | internal/budget/evaluate.go:132-147 | some run has two samples exactly when two neighbouring samples are no further apart than the gap limit |
| Exactness.WindowValidIff | internal/budget/evaluate.go:118-166 | a window over time-ordered samples is valid exactly with enough samples, no ceiling jump and one pair of close neighbours |
| Exactness.WindowSlopeWithin | internal/budget/evaluate.go:118-166 | through splitting, decimation, estimation and the middle pick, the window's slope stays within the bounds on its samples' slopes |
| Exactness.WindowBreakdown | internal/budget/evaluate.go:118-166 | outliers at both levels: when more than half the runs of two or more samples have a majority of clean pairs among the points the estimator sees, the window's slope stays within the clean bounds, whatever all other samples and runs are |
| Exactness.SlopeGivesEta | internal/budget/evaluate.go:152-165 | whatever the samples, a window with a slope reports all of them, and an arrival time exactly for growth above epsilon: when the value meets the ceiling at that slope |
| Exactness.ExactOnLine | internal/budget/evaluate.go:118-166 | for collinear samples of any length with any gaps, a usable window yields exactly the slope, an arrival time iff it exceeds epsilon, and value + slope·time = ceiling |
| Exactness.NoEtaWithoutGrowth | internal/budget/evaluate.go:158-161 | values that never rise give a valid window and no arrival time |
| Exactness.ChosenWindows | internal/budget/evaluate.go:75-111 | the windows are those asked for, or one hour, six hours and three days; the aggressive estimate is the one-hour window's, the conservative one the longest window's, and each is absent when there is no such window |
| Exactness.ForecastMeetsCeiling | internal/budget/evaluate.go:60-115 | a forecast whose longest window grows steadily predicts the moment the ceiling is met |
| WindowReports.WindowIsLocal | internal/budget/evaluate.go:118-170 | a window is evaluated on its own samples, the value, the ceiling, the interval and the estimator; what other windows hold makes no difference |
| WindowReports.ForecastIsLocal | internal/budget/evaluate.go:90-93 | so it is between any two forecasts, whatever else their inputs differ in |
| WindowReports.AbsentIsEmpty | internal/budget/evaluate.go:120 | a window no samples were handed in for counts as empty and is never valid |
| WindowReports.TooFewIff | internal/budget/engine.go:149-155 | a window of any length lacks samples exactly when it holds fewer than 83% of its intervals, their number rounded to the nearest and the share truncated |
| WindowReports.NoIntervalNoNeed | internal/budget/engine.go:150-152 | without a positive interval no number of samples is too few |
| WindowReports.ReasonIs | internal/budget/evaluate.go:122-151 | over time-ordered samples each reason has its exact condition, in the order they are looked for, and an invalid window reports nothing else |
| WindowReports.GapFreeWindow | internal/budget/evaluate.go:132-154 | samples with no gap over five minutes are estimated as a whole, by least squares if asked for, else by Theil–Sen over at most 100 points |
| WindowReports.FasterStretchCounts | internal/budget/evaluate.go:152-154 | of two steady stretches with a gap between them the window takes the larger slope |
| WindowReports.SlopeOfTwoSamples | internal/budget/engine.go:79-83 | times count in nanoseconds and slopes in units a second, for both estimators |
| WindowReports.RefusedIff | internal/budget/evaluate.go:61-73 | an input is refused for the first thing wrong with its thresholds, its name or its ceiling, each with its exact condition, and otherwise forecast |
| WindowReports.DocumentedThresholds | internal/budget/evaluate.go:61-63 | without thresholds the forecast is the one with 72 hours, 6 hours, 80% and 95% |
| WindowReports.Figures | internal/budget/evaluate.go:80-89 | value, ceiling, headroom and utilization of a forecast from its input, and when it saw the ceiling jump |
| Severity.SoonerCorrectIff | internal/budget/evaluate.go:190-207 | an arrival time is compared correctly with a limit exactly when it fits a 64-bit duration or the platform's out-of-range value falls on the right side |
| Severity.FitsIff | internal/budget/evaluate.go:191 | an arrival time fits exactly between the integers next to the two ends of the 64-bit range |
| Severity.LevelFollowsTable | docs/engine-budget-capacity.md:98-106 | the computed severity is the documented one exactly when utilization alone is critical, or no arrival time out of range is misread; the four ways to misread one are listed |
| Severity.SaturationFollowsTable | internal/budget/evaluate.go:190-207 | where conversions saturate, the documented table is followed for all arrival times |
| Severity.SlowGrowthReportedCritical | internal/budget/evaluate.go:190-207 | for every input: steady growth in the one-hour window, too slow for its arrival to fit, is reported critical where such arrivals are converted below the critical limit, while the table leaves that to the utilization |
| Severity.OverflowRaisesFalseAlarm | internal/budget/evaluate.go:60-115 | one such input at the default horizons and thresholds: an empty disk that fills up in three thousand years is reported critical, though the table says healthy |
| CapacitySensor.Sensor.constructor | internal/capacity/sensor.go:34-35 | a new sensor remembers healthy, no ceiling and no streak |
| CapacitySensor.New | internal/capacity/sensor.go:27-36 | a definition without a value or a ceiling query is refused, and no other |
| CapacitySensor.Sensor.Poll | internal/capacity/sensor.go:39-91 | the first failing query decides the error, a window listed twice is asked for twice; the four carried fields are replaced on success and untouched on failure |
| CapacitySensor.HysteresisClosedForm | internal/budget/evaluate.go:182-225 | over any run of polls, failed ones included, the reported states are a two-poll function of the raw severities, and the streak counts the calm polls since the last alarm |
| CapacitySensor.EscalationAndRecovery | internal/budget/evaluate.go:180-225 | an alarm is reported in the poll that raises it, and healthy exactly after two calm polls |
| CapacitySensor.LevelIsRaw | internal/budget/evaluate.go:182-207 | the severity of a forecast does not depend on the state and streak handed in |
| CapacitySensor.FailedPollsLeaveNoTrace | internal/capacity/sensor.go:42-80 | dropping the failed polls of a run changes neither its forecasts nor the memory |
| CapacitySensor.ResizeLeavesUtilization | internal/capacity/sensor.go:71-83 | in the poll that finds the ceiling moved by more than 1% since the last successful one, only the utilization can raise an alarm |
| CapacityReports.PollFailsIff | internal/capacity/sensor.go:42-80 | a poll fails for its first failing query or for the first thing wrong with what was answered, each with its exact condition on the answers, and otherwise succeeds |
| CapacityReports.PollFigures | internal/capacity/sensor.go:42-77 | value, ceiling, utilization and headroom of the forecast are those of the two answers, and a jump is judged against the remembered ceiling |
| CapacityReports.WindowOfSeries | internal/capacity/sensor.go:51-76 | each window is evaluated on the last series answered for it, at one sample a minute, and on nothing else answered but value and ceiling |
| CapacityReports.WindowWithoutSeries | internal/capacity/sensor.go:58-60 | a window without a series is evaluated as empty |
| CapacityReports.ResizesSeen | internal/capacity/sensor.go:71-84 | over any run a jump is reported exactly where a ceiling left the 1% band around that of the successful poll before, and never in the first |
| BudgetSensor.Poll | cmd/sentinel/daemon.go:263-305 | one poll of an error budget: the adapted step, the query failures in order, and the forecast without a previous state |
| BudgetSensor.SameSeries | cmd/sentinel/daemon.go:282-285 | every default horizon is handed the same series |
| BudgetSensor.QueryWithinLimit | cmd/sentinel/daemon.go:265-273 | no window makes the query exceed 11,000 points |
| BudgetSensor.StepFitsGapIff | cmd/sentinel/daemon.go:269-273 | the adapted step stays within the gap limit exactly up to 34 days |
| BudgetSensor.OneRun | internal/budget/engine.go:132-146 | a fully sampled series whose step fits the gap limit is one run |
| BudgetSensor.HorizonsUsableIff | cmd/sentinel/daemon.go:265-304 | with every sample present, all default horizons are evaluated exactly for windows of 3 to 34 days |
| BudgetSensor.LongSlosNeverWarn | cmd/sentinel/daemon.go:265-304 | for a window of 35 days or more, whatever samples the query returns at the adapted step, there is no arrival time and the state is never a warning |
| BudgetSensor.StepIs | cmd/sentinel/daemon.go:269-273 | the step is a ten-thousandth of the window in whole seconds, at least sixty |
| BudgetSensor.PollFailsIff | cmd/sentinel/daemon.go:274-304 | each error of a poll with its exact condition on the answers and the objective |
| BudgetSensor.PollFigures | cmd/sentinel/daemon.go:258-304 | the ceiling is (100 − objective) / 100, the value the instant answer or zero, no ceiling ever jumps and the severity is reported raw |
| BudgetSensor.WindowOfSeries | cmd/sentinel/daemon.go:278-303 | each of the three windows is evaluated on the one series at the step it was queried with |
| Notification.Dedupe.Peek | internal/alert/dedupe.go:22-37 | a state is worth a message exactly for an alarm out of healthy, an escalation, or a recovery |
| Notification.Dedupe.Commit | internal/alert/dedupe.go:40-45 | the delivered state of that sensor is remembered and nothing else changes |
| Notification.Daemon.constructor | cmd/sentinel/daemon.go:154-172 | a new daemon has delivered, failed and published nothing |
| Notification.Daemon.AllowNotify | cmd/sentinel/daemon.go:191-205 | below three failures every attempt passes, afterwards every fifth; only that sensor's counter moves |
| Notification.Daemon.MarkNotifyResult | cmd/sentinel/daemon.go:208-219 | a success clears the sensor's counters, a failure adds one |
| Notification.Daemon.TriageHandled | cmd/sentinel/triage.go:30-104 | an alarm, or a recovery whose alarm the gate knows, is published; the firing flag follows a publication that succeeded |
| Notification.Daemon.Attempt | cmd/sentinel/daemon.go:357-372 | the gate is tried first, the full card if it did not take the alarm, and a state is committed exactly when one of them succeeded |
| Notification.Daemon.Notify | cmd/sentinel/daemon.go:343-373 | the notification block changes the world as one step of that sensor alone |
| Notification.Daemon.RunOnePoll | cmd/sentinel/daemon.go:315-399 | a poll is the sequence of its sensors' steps, failed polls doing nothing |
| NotificationRuns.SensorsIndependent | cmd/sentinel/daemon.go:315-373 | in the interleaved run of all sensors each fares as in a run of its own turns alone |
| NotificationRuns.CyclesExtend | internal/alert/dedupe.go:22-37 | a word of the language (warning, critical or warning critical, then healthy) goes on with exactly the transitions deduplication lets through |
| NotificationRuns.DeliveredLanguage | cmd/sentinel/daemon.go:354-373 | in every run, whatever fails, the delivered states form a word of that language, each commit is a successful publication or full card of that turn, and the remembered state is the last delivered |
| NotificationRuns.EveryWordIsDelivered | internal/alert/dedupe.go:22-45 | and every word of the language is delivered by some run |
| NotificationRuns.IncidentSafety | cmd/sentinel/triage.go:30-93 | in every run the flag says whether the last publication was firing, and resolved is published only directly after firing |
| NotificationRuns.RecoveryClearsFlag | cmd/sentinel/triage.go:83-93 | a delivered recovery of a capacity sensor leaves the flag set only if its publication failed |
| NotificationRuns.AttemptedWithinFive | cmd/sentinel/daemon.go:191-205 | after any history, a transition that stays pending for five polls is attempted |
| NotificationRuns.WorkingNotifierDelivers | cmd/sentinel/daemon.go:354-373 | so a working notifier has delivered something by then |
| NotificationRuns.BackoffSchedule | cmd/sentinel/daemon.go:85-88 | with everything failing from the start, n pending polls make n attempts up to three and then one in five |
| NotificationRuns.NextIsImmediateIff | cmd/sentinel/daemon.go:357-371 | after a delivery the next transition is attempted at once, unless it went through the gate while the backoff was in force |
| NotificationRuns.GateDeliveryKeepsBackoff | cmd/sentinel/daemon.go:357-358 | a history in which notifier and gate work again and a recovery is still held back |
| NotificationRuns.EverySensorOfEveryRun | cmd/sentinel/daemon.go:315-373 | the language and the incident guarantee hold of each sensor in the daemon's interleaved run |
| NotificationHistory.EveryTurnTold | cmd/sentinel/daemon.go:343-373 | in every run each turn is told by its own event and the outcomes before it: pending exactly for an unsilenced alarm out of healthy, escalation or recovery since the last delivery; attempted with fewer than three failures since the last card, or after four pending turns without an attempt; published, sent and committed exactly as gate and notifier answer |
| NotificationHistory.EveryTurnOfEverySensorTold | cmd/sentinel/daemon.go:315-373 | so it is for each sensor of the daemon's interleaved run |
| NotificationHistory.SilencedTurn | cmd/sentinel/daemon.go:344-354 | a silenced turn attempts, publishes, sends and commits nothing and leaves the sensor's view as it was |
| NotificationHistory.SilenceLeavesNoTrace | cmd/sentinel/daemon.go:344-354 | dropping the silenced turns of a run changes neither the view nor the outcome of any other turn |
| NotificationHistory.SilenceChangesNoDelivery | cmd/sentinel/daemon.go:344-354 | nor the states committed and the alerts published |
| WasteTracker.Tracker.constructor | internal/waste/tracker.go:47-54 | tracking starts with no entry and no saving |
| WasteTracker.Tracker.Entries | internal/waste/tracker.go:57-70 | the snapshot lists every entry in key order, whatever order the map is iterated in |
| WasteTracker.Tracker.Restore | internal/waste/tracker.go:74-89 | entries are filed under their keys, later ones winning, and the saving becomes the larger of the old and the recomputed one |
| WasteTracker.Tracker.Observe | internal/waste/tracker.go:94-131 | a new candidate is announced; a tracked one accrues waste and is revived, reminded or left silent |
| WasteTracker.Tracker.Dismiss | internal/waste/tracker.go:141-153 | the first entry of the resource in iteration order is dismissed, and it fails exactly when there is none |
| WasteTracker.Tracker.Resolve | internal/waste/tracker.go:156-167 | the first unresolved entry of the resource is resolved and its waste added to the saving, and it fails exactly when there is none |
| WasteTracker.FirstMatch | internal/waste/tracker.go:144-151 | the entry chosen matches and is in the map, and none is chosen only when nothing matches |
| WasteRuns.ReminderBound | internal/waste/tracker.go:94-131 | in any run under a clock that never goes back, from an empty tracker or a restored one, an entry is announced only if new, reminded at most once a period since its last notification at the start, and revived at most once per timed dismissal, one in force at the start included |
| WasteRuns.DismissedForGood | internal/waste/tracker.go:115-123 | from any book, an entry dismissed without a deadline stays silent over any run that neither dismisses nor resolves it |
| WasteHistory.DismissLands | internal/waste/tracker.go:141-153 | a dismissal puts its reason and deadline on the first entry of that very resource in iteration order and changes nothing else; without such an entry it changes nothing |
| WasteHistory.ResolveLands | internal/waste/tracker.go:156-167 | a resolution lands on the first entry of the resource not yet resolved and adds its waste to the saving |
| WasteHistory.DismissedUntil | internal/waste/tracker.go:115-153 | after a call that dismisses an entry until d, with no further call on it, every observation up to d is silent and the first one later is answered as a revival |
| WasteHistory.DismissedWithoutDeadline | internal/waste/tracker.go:115-153 | after a call without a deadline every observation is silent |
| WasteHistory.AnnouncedThenReminded | internal/waste/tracker.go:94-139 | a new candidate is announced and filed under its label or its alert's name; afterwards an observation is a reminder exactly when the period it was filed with has passed since it was last spoken of |
| WasteHistory.RevivedThenReminded | internal/waste/tracker.go:115-131 | so it goes on after a revival |
| WasteHistory.ObservedEntry | internal/waste/tracker.go:109-131 | a later observation leaves an entry as it was but for its waste, its state renoted by a message, its last notification moved by a message or a standing dismissal, and its deadline lifted by a revival |
| WasteHistory.IdentityKept | internal/waste/tracker.go:94-167 | over any run an entry stays and keeps the names, the reason, the first sight and the period it was filed with |
| WasteHistory.SnapshotInOrder | internal/waste/tracker.go:57-70 | a snapshot lists the entries in byte order of their keys |
| WasteHistory.RestoredEntry | internal/waste/tracker.go:74-89 | a restored entry is the last of its key in the list, and what the list has no entry for stays |
| WasteHistory.RestoredSaving | internal/waste/tracker.go:74-89 | the saving becomes the larger of the old one and the sum over the list's resolved entries |
| WasteHistory.EntrySharedIff | internal/waste/tracker.go:100 | a resource shares its entry with another exactly when its name or its sensor's holds a slash |
| WasteHistory.SharedNotAnnounced | internal/waste/tracker.go:100-109 | of two resources that share an entry the second is never announced |
| WasteHistory.WholeDaysCharged | internal/waste/tracker.go:110-113 | an observation n days after the last notification charges n daily rates |
| WasteHistory.NothingCharged | internal/waste/tracker.go:110-113 | a cost that is not positive, or an observation no later than the last notification, charges nothing |
| WasteRuns.AccruedWaste | internal/waste/tracker.go:109-130 | for every entry and every list of observation times that never goes back, the accrued waste is the cost of the time that passed plus what every observation but the last left between itself and the last notification |
| WasteRuns.WasteExactIff | internal/waste/tracker.go:109-130 | so it is never too low, and exact if and only if every observation but the last moved the last notification or was made at it |
| WasteRuns.DismissedWasteTelescopes | internal/waste/tracker.go:109-123 | across a dismissal, with or without a deadline and up to the observation that finds it passed, the accrued waste is the cost of exactly the time that passed |
| WasteRuns.SilentObservationsOverlap | internal/waste/tracker.go:109-130 | any list of silent observations charges, each of them, all the time since the last notification; exact only if all but the last were made at that instant |
| WasteRuns.LedgerKeptIff | internal/waste/tracker.go:94-167 | a call keeps the saving equal to the sum over resolved entries exactly when it does not change a resolved entry's worth |
| WasteRuns.LedgerBalances | internal/waste/tracker.go:94-167 | so it stays equal over every run without such a call |
| WasteRuns.ResolvedOnce | internal/waste/tracker.go:115-167 | over any run an entry's waste is counted once for each time a reminder or a dismissal opened it again, and once more if it ends resolved |
| WasteRuns.RestoreBalancesIff | internal/waste/tracker.go:74-89 | restoring distinct entries into a fresh tracker gives the sum over resolved entries exactly when it is not negative |
| WasteRuns.SnapshotRestores | internal/waste/tracker.go:57-89 | restoring a snapshot into a fresh tracker brings back every entry and recomputes their sum |
| WasteRuns.RestoredFiled | internal/waste/tracker.go:74-89 | a restored tracker files its entries under their own sensor and resource, whatever list it was given |
| WasteRuns.AlwaysFiled | internal/waste/tracker.go:94-167 | and every run, from an empty tracker or a restored one, keeps it so, which is what a snapshot relies on |
| WasteRuns.RestartRoundTripIff | internal/waste/tracker.go:57-89 | entries and saving both come back exactly for a balanced, non-negative ledger, or for a zero saving over a negative sum |
| WasteRuns.LedgerSurvivesRestart | internal/waste/tracker.go:74-167 | after a restore of distinct entries of non-negative waste and any further undistorting run, the saving is the sum over resolved entries |
| WasteRuns.SecondRestart | cmd/sentinel/daemon.go:451-454 | restored, run so and restarted again, the tracker comes back whole: all entries and the saving |
| StringOrder.InOrderUnique | internal/waste/tracker.go:64 | a sorted list of strings is determined by its elements |
| StringOrder.SortForgetsOrder | internal/pricing/cache.go:71-75 | sorting a map's keys gives the same list whatever order they were met in |
| StringOrder.LexIsByteOrder | internal/pricing/alicloud_sku.go:150 | one string is sorted before another exactly when it is a prefix of it or has the smaller byte where they first differ |
| StringOrder.SortedKeysIff | internal/pricing/alicloud_sku.go:150 | the sorted keys are the one enumeration in that order |
| Signing.PopEncode | internal/pricing/alicloud_sku.go:172-184 | the loop writes the percent-encoding of the bytes |
| Signing.DecodeEncode | internal/pricing/alicloud_sku.go:172-184 | percent-decoding (sections 2.1 and 2.3 of RFC 3986) inverts it on every byte string |
| Signing.EncodedIsPlain | internal/pricing/alicloud_sku.go:172-184 | an encoding holds unreserved characters and percent signs only, so neither & nor = |
| Signing.EncodedBytes | internal/pricing/alicloud_sku.go:172-184 | every byte is written for itself wherever it stands: letters, digits, hyphen, underscore, period and tilde as they are, others as a percent sign and two upper-case hexadecimal digits |
| Signing.BuildPairs | internal/pricing/alicloud_sku.go:152-157 | the loop builds the raw and the canonical pairs of the sorted keys |
| Signing.CutAll | internal/pricing/alicloud_sku.go:163-167 | the loop cuts every pair at its first =, later pairs replacing earlier ones |
| Signing.RpcSign | internal/pricing/alicloud_sku.go:145-169 | the signed parameters depend on the parameters and the keyed hash of their string to sign, not on iteration order |
| Signing.QueryRoundTrip | internal/pricing/alicloud_sku.go:152-159 | parsing the joined canonical pairs gives back the parameters under those keys |
| Signing.StringToSignIs | internal/pricing/alicloud_sku.go:150-159 | the string to sign, literally: the prefix and the re-encoded join of the encoded parameters in byte order of their names |
| Signing.StringToSignReadsBack | internal/pricing/alicloud_sku.go:150-159 | the whole parameter map can be read back from its string to sign |
| Signing.StringToSignInjective | internal/pricing/alicloud_sku.go:150-159 | so equal strings to sign mean equal parameters |
| Signing.ParametersKeptIff | internal/pricing/alicloud_sku.go:152-168 | every parameter comes out encoded under its own name exactly when no name contains = and none is named Signature with another value; the signature is then the only addition |
| Signing.NameWithEqualsLost | internal/pricing/alicloud_sku.go:164-167 | a name that contains = is never a name of the result |
| PriceCache.CacheKey | internal/pricing/cache.go:70-81 | the key is a function of the query, independent of iteration order |
| PriceCache.KeyReadsBack | internal/pricing/cache.go:70-81 | a query free of separators can be read back from its key |
| PriceCache.KeyInjective | internal/pricing/cache.go:70-81 | so among such queries no two share a key |
| PriceCache.KeysCollide | internal/pricing/cache.go:76-79 | every query of two or more attributes shares its key with one that holds the others in the value of the first |
| PriceCache.KeyCutElsewhere | internal/pricing/cache.go:76-79 | a query of one attribute with another = shares its key with the one cut there |
| PriceCache.KeySharedIff | internal/pricing/cache.go:70-81 | and no other: among families without a bar, a query shares its key with some other query if and only if it has two or more attributes, or an = in a name or a value |
| PriceCache.ForeignPriceIff | internal/pricing/catalog.go:36-60 | exactly those queries can be answered, as fresh, with the price of another query |
| PriceCache.FileCache.Store | internal/pricing/cache.go:31-43 | the file of the key holds the new payload and instant, or what the failed write left; no other file changes |
| PriceCache.FileCache.Load | internal/pricing/cache.go:53-67 | the stored payload with its freshness under the given TTL, or nothing |
| PriceCache.Catalog.GetQuote | internal/pricing/catalog.go:30-61 | fresh hit, else the source's answer stored, else the stale fallback, else the source's error |
| PriceCache.FileOrigin | internal/pricing/cache.go:31-67 | over any run, every cached file holds the answer of the last turn that wrote it |
| PriceCache.HitIsEarlierAnswer | internal/pricing/catalog.go:38-53 | over any run of clean queries, a cached payload is the source's latest stored answer to the same query |
| PriceCache.AskedIff | internal/pricing/catalog.go:31-45 | the source is asked exactly when no stored answer is young enough |
| PriceCache.YoungAnswerReturned | internal/pricing/catalog.go:38-43 | a stored answer that is young enough is returned without asking, whatever the source would have said |
| PriceCache.QuoteAgreesWithSource | internal/pricing/catalog.go:30-61 | over any run, exactly: the last stored answer while younger than the TTL, or than 24 hours where none is set; else the source's answer of this call; if the source fails, the stored answer of any age marked stale; and the source's error only with nothing stored |
| Watcher.InvariantStep | internal/watch/watch.go:41-94 | every atomic step of event loop, timer, fire goroutines, stop and cancellation keeps the protocol's invariant |
| Watcher.Reachable | internal/watch/watch.go:41-94 | so every reachable state satisfies it |
| Watcher.StateRecounted | internal/watch/watch.go:41-94 | clock, flags and counters are what the actions made them; in particular the state is stopped exactly since the first stop or cancellation |
| Watcher.ChangeArmsTimer | internal/watch/watch.go:64-77 | until cancelled, every change of a yaml file re-arms the timer for 500 ms later; no other event does anything |
| Watcher.NoUpdateLost | internal/watch/watch.go:57-77 | while not stopped, a handled event no call has begun for has a timer armed for 500 ms after the latest event, or a goroutine on its way |
| Watcher.OneCallPerBurst | internal/watch/watch.go:71-77 | calls never exceed the bursts the received changes come in, half a second apart, counted from the actions themselves |
| Watcher.UpdateCanBeDelivered | internal/watch/watch.go:47-77 | from every such state the next call can begin within the time left to 500 ms after the latest event, without any further event |
| Watcher.RestMeansDelivered | internal/watch/watch.go:47-77 | and however timer and goroutines go on without a further event or a stop, once they come to rest a call has begun and nothing is pending |
| Watcher.StopLeavesOnlyPassed | internal/watch/watch.go:47-54 | after a stop only goroutines already past the flag check can still call, each at most once |
| Watcher.StopIsFinal | internal/watch/watch.go:47-63 | after any stop or cancellation the state is stopped for good and only the goroutines already past the check can call |
| Watcher.CallAfterStopIff | internal/watch/watch.go:47-54 | a call after the stop is possible exactly when some goroutine had passed the check |
| Watcher.CallAfterStopHappens | internal/watch/watch.go:47-54 | a run in which that happens |

## Left out

- Floating point: rounding, NaN and infinities are not modelled; values are exact reals and times unbounded integers. The one conversion modelled at 64 bits is the arrival time in the severity decision. `time.Time.Sub` saturation and SLO windows past 106,751 days are not modelled.
- Engine.TheilSenSlope: excludes a maximum of 1 on two or more samples, as decimation does.
- Engine.DecimateUniformly: excludes a maximum of 1 on two or more samples, where the source converts the result of a division by zero to an index, which is left to the platform; its only caller passes 100.
- Forecasting.Evaluate: the per-window table is keyed by the duration itself, not its printed form; the poll instant and the wording of reasons and errors are omitted.
- CapacitySensor.Sensor.Poll: query failures and empty answers of an instant query are both a missing reading; the clock and logging are omitted.
- CapacitySensor.Sensor.constructor: the check of the definition is in `New`, which the source does in the same function.
- Severity.LevelFollowsTable: assumes positive limits of at most a 64-bit duration, the critical one below the warning one; with a limit of zero or less the truncation to whole nanoseconds would matter too.
- Notification.Daemon.RunOnePoll: one sensor's turn is taken as one step; recovery from panics, persistence of predictions and states, metrics, cards, alert labels other than the sensor, status and severity, and the text and success of the short local note are omitted.
- Notification.Daemon.TriageHandled: labels other than the sensor, status and severity, the annotations and the short local note are omitted.
- NotificationRuns.DeliveredLanguage: speaks of runs between restarts, since deduplication, retries and firing flags are in memory only; reloading sensor definitions while running is not modelled.
- `Dedupe.ShouldNotify` and `Dedupe.MarkHealthy`: the notification block of the daemon does not use them.
- WasteTracker.Tracker.Observe: entries are values in a map field, so the pointer the source returns, and what a caller could do through it, is not captured; message texts and idle days are omitted.
- WasteRuns.LedgerSurvivesRestart: the store between the two trackers is taken to return what it was given; its truncation of the reminder period to seconds is not modelled.
- PriceCache.KeySharedIff: is about families without `|`, as all the source's families are (internal/pricing/types.go:12-14).
- PriceCache.Catalog.GetQuote: the price source is a parameter; file names are taken as injective in the key and the JSON of a payload as read back unchanged, a damaged file being one that cannot be read.
- Signing.RpcSign: HMAC-SHA1 and Base64 are one arbitrary function of secret and string.
- Watcher: goroutines are counted and their steps atomic, on values rather than in a class; the registration of directories and the error channel are omitted.
- Resolving prices from the providers' interfaces, AWS offer files, month-end projection, classification rules, report and card formatting, the UI, the command line and configuration files: not part of this model.
