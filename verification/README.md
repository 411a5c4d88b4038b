# Boomer's worker, modelled and verified

Boomer is a load generator: it picks tasks by weight, limits how often they run, counts what happens,
reports the counts periodically and obeys a master. This project models those four parts in Dafny and
proves what they promise over whole runs.

| part | files |
|---|---|
| picking tasks by weight | `Tasks`, `RoundRobin`, `Weighing`, `Schedulers` |
| counting requests | `Remainders`, `Rounding`, `Counters`, `StatsModel`, `ErrorRecords`, `LiveStats`, `Tallies`, `StatsRuns`, `StampRuns`, `Minimums`, `EntryMinima` |
| percentiles and the running summary | `Percentiles`, `OutputRows`, `RowOrder`, `Summary`, `RowTallies`, `SummaryRuns`, `ErrorRuns`, `SharedErrors`, `LocalRunner` |
| what the summary shows of a run | `ReportPoints`, `MinimumRuns`, `RowHistory`, `HistoryRuns`, `FailureRuns`, `Attribution` |
| rate limiters | `RateLimiter`, `LimiterRuns` |
| protocol with the master | `Worker`, `WorkerRuns`, `WorkerHistory`, `StopRuns` |
| machine integers, optional values | `GoInts`, `Options` |

`dafny verify dfyconfig.toml` checks everything.

## How the model is built

Objects that the source updates in place are classes with the same fields. Every method is proved
equal to a function on values (`ensures View() == F(old(View()))`), and the promises are lemmas about
those functions over every sequence of steps.

* **Task sets.** `SmoothRoundRobinTaskSet` keeps its entries as shared objects, as the source does. The
  proof of exact fairness rests on one reading of a current weight: after n calls it is n times the
  task's weight less the total weight for every pick of it. It never falls to minus the total weight,
  so after one cycle no task can have been picked too often, and the picks add up.
* **Statistics.** The maps of an entry and the records of reported errors are heap objects, because a
  report hands them over by reference while the statistics go on with new ones. The contract of
  `RequestStats.Start` reads all reports at the end of the run and finds in them what they held when they
  were sent.
  Each turn of the event loop carries its own readings of the clock, one for each place that reads it,
  and a report turn carries the order in which the entries happen to be visited. Both are arbitrary.
* **Reference for the statistics.** A `Book` is a plain list of the events since the last report or
  clearing, and of those reported, each with the seconds its entry read off the clock. Entries, total and
  summary are all compared with it through a `Tally`, whose `Join` is associative and commutative, so
  that report points and the order of entries cannot matter. The minimum is the one number that does not
  join; `Minimums.Fits` says what is known of it, and is kept by every way of putting lists of times together.
* **Rate limiters and the worker** are step systems. One step is one atomic action: the decrement in
  `Acquire`, a caller starting to wait, a timer looking at its quit channel, a timer waking up (generation
  check and write together), one message, one round of the spawning loop, the completion call.

## What turned out false, and when it holds

* **Names and methods.** Entries are keyed by name followed by method, and the first request with a key
  names the entry. A request named `ab` with method `c` is counted in an entry named `a` if a request named
  `a` with method `bc` came first (`Attribution.CollisionExample`). Between two clearings every request is
  counted under its own name exactly when no two of them have the same concatenation and different names
  (`Attribution.OwnNamesIffNoCollision`). The theorems on the summary speak of the name a request is
  counted under, and so hold in either case.
* **Minimum.** Zero stands for a minimum not set yet. An entry shows the real minimum of its times exactly
  when no time is zero, or the last one is, or one is negative (`Minimums.MinimumIsExactIff`). The same
  condition, on the times delivered under a name, is exactly when the summary's minimum is the same wherever
  the reports fall (`MinimumRuns.MinimumIgnoresReportsIff`). Two runs with the same requests, a 0 and then
  a 5, show 5 if reported at once and 0 if also reported in between (`MinimumRuns.ZeroTimeShowsReportPoints`).
* **What else depends on the report points.** No other number that a row shows does, requests and failures
  per second included (`ReportPoints.ReportPointsAreInvisible`), but some of what it holds does. Its method,
  its start and the time of its last request are those of the first entry ever reported under its name
  (`RowHistory.RowHasFirstStamps`). So the time of the last request is the real one exactly when the last
  request of that entry, the first visited in the first report with the name, read the same second as the
  last one delivered under the name (`HistoryRuns.LastRequestIff`). Merging also overwrites failures of a
  second that was reported before: they add up to the row's failures exactly when no second with failures
  occurs in two of the reported entries (`HistoryRuns.FailuresBySecondAddUpIff`).
  `FailureRuns.TwoFailuresShowReports` has two runs of the same two failures that differ in both.
* **Absorbed reports.** The entries of a report never change again, but its errors can: the record of an
  error changes exactly when its report is the first with the error and a later report has it too
  (`SharedErrors.ReportedErrorChangesIff`); it then counts the occurrences of all reports. `LocalRunner.Deliver`
  is proved to leave every record of every report as this says, and `FailureRuns.FirstRecordChanges` is a run.
* **Ramp-up.** For any maximum the threshold grows linearly up to it exactly when the step is not negative
  (`RateLimiter.RampIsLinearIff`); a negative step is taken for an overflow. A start begins the ramp anew
  exactly when it finds the next threshold at zero, or a single step reaches the maximum
  (`LimiterRuns.RestartRampsIff`). What a stop guarantees depends on the updater of the current generation:
  the next threshold stays at zero until the next start exactly when the stop finds that updater awake or
  already gone, or a step from zero leads nowhere (`LimiterRuns.StopKeepsZeroIff`), and every later start
  begins the ramp anew exactly under that guard or if a single step reaches the maximum
  (`LimiterRuns.StopRampsAnewIff`). `LimiterRuns.OldUpdaterBreaksRamp` is a run with an updater asleep
  during the stop that wakes up before the next start.
* **Percentile above 100.** The configured percentile is not checked; if its rank lies past the last
  sample, the walk returns zero (`Percentiles.PercentileIsOrderStatistic`).
* **Stop channel.** It is open exactly while the worker is spawning or running, after every step, if and
  only if every step is benign (`WorkerRuns.LifecycleIff`): no stale or malformed spawn message, no second
  acknowledgement, no completion while idle. `WorkerRuns.StaleSpawnBreaks` and
  `WorkerRuns.LateCompletionBreaks` show that after one of the others the next stop message panics;
  `WorkerRuns.StaleSpawnRun` and `WorkerRuns.LateCompletionRun` are runs from start-up that do.
* **Replies to a stop.** A goroutine may report its completion between the two sends of a stop. `client_ready`
  follows every `client_stopped` at once exactly when none does (`StopRuns.AdjacentIff`), and
  `StopRuns.CompletionIntrudes` is a run from start-up in which one does. Of what the message loop itself
  sends, it always follows at once (`StopRuns.SpokenArePaired`).
* **Stopping a limiter** panics exactly when there was no start since the last stop
  (`LimiterRuns.PanicsIffStopUnarmed`).

## Model

| member | source | states |
|---|---|---|
| RoundRobin.SmoothRoundRobinTaskSet.AddTask | taskset.go:58-65 | a task of positive weight joins with no current weight and its full effective weight; others are ignored |
| RoundRobin.SmoothRoundRobinTaskSet.GetTask | taskset.go:67-98 | raises every entry, picks the first of the largest current weights and takes the total weight from it; one task or none is left alone |
| RoundRobin.LeaderIsFirstMaximum | taskset.go:89-91 | the picked entry has the largest raised weight, and no earlier entry has as much |
| RoundRobin.ReachableIsBalanced | taskset.go:58-98 | in every state reached by adding and picking, current weights sum to zero, effective weights equal weights, and no current weight falls to minus the total |
| RoundRobin.SmoothnessBounds | taskset.go:83-93 | every current weight lies between 1-W and (k-1)(W-1) in every reachable state |
| RoundRobin.CurrentIsCredit | taskset.go:83-93 | a current weight is n times the task's weight less W for each time the task was picked in n calls |
| RoundRobin.NeverAheadOfShare | taskset.go:67-98 | at every number of calls no task is a full pick ahead of its share |
| RoundRobin.NeverFarBehindShare | taskset.go:67-98 | at every number of calls a task of k is behind its share by at most (k-1)(W-1)/W picks |
| RoundRobin.ExactFairness | taskset.go:67-98 | for weights with common divisor g, W/g calls pick each task exactly w/g times and restore the initial state |
| RoundRobin.SchedulePeriodic | taskset.go:67-98 | the schedule repeats after every such cycle |
| RoundRobin.EveryWindowIsFair | taskset.go:67-98 | any W consecutive calls, at any offset, pick task i exactly w(i) times |
| Weighing.WeighingTaskSet.AddTask | legacy.go:106-115 | positive tasks are appended and the index stays the list of prefix sums; others are ignored |
| Weighing.WeighingTaskSet.BinarySearch | legacy.go:117-138 | terminates, reads in range, never returns nil for a roll below the offset, and finds the first task whose prefix sum exceeds the roll |
| Weighing.WeighingTaskSet.GetTask | legacy.go:141-149 | rolls outside the range give nil, all others the task of the linear scan |
| Weighing.IntervalIsUnique | legacy.go:127-129 | a roll falls on task i if and only if it lies between the prefix sums before and after i |
| Weighing.ScanNeverFallsOff | runner.go:270-279 | a roll below a positive total always falls on a task, negative weights included |
| Weighing.TaskRunner.SetTasks | runner.go:244-252 | stores the tasks and the sum of their weights |
| Weighing.TaskRunner.GetTask | runner.go:254-280 | the fast path, the uniform draw without weights, the weighted scan, and the panic on an empty list |
| Weighing.RunnerAlwaysChooses | runner.go:254-280 | a task is delivered if and only if the list is not empty, and never nil |
| Schedulers.RollsMatchWeights | runner.go:270-277 | exactly w(i) of the W rolls fall on task i |
| Schedulers.SchedulersAgree | taskset.go:67-98 | all W rolls together pick the same multiset of tasks as one W-call round-robin cycle |
| Schedulers.DrawsAreUniform | runner.go:262-268 | without a positive total weight, as many consecutive values of the random source as there are tasks choose every task of the list once |
| Schedulers.DrawsMatchWeights | runner.go:270-277 | with positive weights, any W consecutive values of the random source choose task i exactly w(i) times |
| Schedulers.ScanAndSearchAgree | legacy.go:117-149 | the binary search and the runner's scan send a draw to the same task |
| Rounding.BucketIff | stats.go:252-264 | a time is counted under r if and only if r is the time itself below 100, or else the nearest multiple of 10, 100 or 1000, the greater of two equally near ones |
| Rounding.BucketExamples | stats.go:252-255 | 147 is counted as 150, 3432 as 3400 and 58760 as 59000; halves round up |
| Rounding.BucketMonotone | stats.go:256-264 | rounding keeps the order of response times across all four ranges |
| Rounding.BucketWithinFivePercent | stats.go:252-264 | the rounded value is within 5% of a non-negative time |
| Percentiles.GetMedianResponseTime | output.go:150-170 | the median walk gives the 50th percentile, for all inputs |
| Percentiles.GetPercentResponseTime | output.go:188-208 | the walk over the sorted keys from the truncated rank |
| Percentiles.PercentileIsOrderStatistic | output.go:188-208 | over a histogram of samples the walk returns the rounded sample at the rank in the sorted list, or zero past its end |
| Percentiles.PercentileWithinFivePercent | output.go:188-208 | for percentiles up to 100 of non-negative samples the result is within 5% of the exact sample |
| LiveStats.StatsEntry.Log | stats.go:215-272 | one request is counted in every number and second of the entry, and under the one multiple its time rounds to |
| LiveStats.StatsEntry.LogError | stats.go:274-283 | one failure is counted in the entry and in its second |
| LiveStats.StatsEntry.Reset | stats.go:199-211 | all numbers start afresh and the maps are new objects |
| LiveStats.StatsEntry.GetStrippedReport | stats.go:306-310 | the report keeps the old maps with the old contents while the entry starts with new ones |
| LiveStats.RequestStats.Get | stats.go:80-94 | finds the entry of name and method or creates a blank one |
| LiveStats.RequestStats.LogRequest | stats.go:57-60 | the total and the entry log the request, each at its own reading of the clock |
| LiveStats.RequestStats.LogError | stats.go:62-78 | the total, the entry and the error with this digest count the failure |
| LiveStats.RequestStats.ClearAll | stats.go:96-106 | everything is replaced by fresh objects |
| LiveStats.RequestStats.SerializeStats | stats.go:108-116 | entries with something to report hand it over and are reset; the others are skipped and kept |
| LiveStats.RequestStats.CollectReportData | stats.go:126-133 | the report holds entries, total and errors as they were, shares no map with the statistics any more, has new error records of its own, and the errors are forgotten |
| LiveStats.RequestStats.Start | stats.go:135-156 | after any run the statistics are as modelled, and every report sent still has the contents it was sent with |
| StatsRuns.StatsMirrorBook | stats.go:57-156 | in every reachable state the entries of any name, and the total but for its own reading of the seconds, hold exactly the events since the last report or clearing |
| StatsRuns.TotalIsSumOfParts | stats.go:57-133 | the total's counts, sums and buckets are the sums over the entries; every entry's histogram and seconds each count its requests once, and failures do not exceed requests |
| StampRuns.TotalKeepsReadings | stats.go:199-233 | in every reachable state the total counts each request since its last reset in the second it read for it, failures likewise; its last request is the last of these readings and its start that of the reset |
| StampRuns.EntriesKeepReadings | stats.go:80-94 | an entry is there if and only if its key was asked for since the last clearing; the key is its name and method, and its seconds and time stamps are its own readings since its last reset |
| ErrorRuns.StatsTellErrors | stats.go:62-78 | an error is known if and only if some unreported failure has its digest, and it tells the name, method and text of the first of them and how many there are |
| StatsRuns.ErrorsAreConserved | stats.go:62-133 | the occurrences of all errors add up to the total's failures even under digest collisions, and per digest to its unreported failures |
| Minimums.MinimumIsExactIff | stats.go:238-244 | for any integer times the minimum shown is the real one if and only if none is zero, or the last one is, or one is negative |
| Minimums.FitsTogether | output.go:355-357 | minima kept for two lists of times combine into one for both, sure whenever the joined list is |
| EntryMinima.EntriesHoldTimes | stats.go:238-244 | in every reachable state each entry shows the minimum of the pending times of its key |
| EntryMinima.TotalHoldsTimes | stats.go:238-244 | in every reachable state the total shows the minimum of all pending times |
| Attribution.NothingIsLost | stats.go:139-150 | between clearings the booked events are all requests in order, and after a report all of them are delivered |
| Attribution.OwnNamesIffNoCollision | stats.go:80-94 | between two clearings, requests are counted under their own names if and only if no two have equal name-and-method texts with different names |
| Attribution.CollisionExample | stats.go:81-90 | after two requests whose texts collide the statistics have one entry, under the first one's name, with both |
| Attribution.RowsOfUnclearedRun | output.go:340-394 | for a run without clearing and collisions that ends in a report, every name shows what one entry fed all its requests shows |
| OutputRows.StatsEntryOutput.constructor | output.go:548-570 | a decoded entry gets every derived number computed from its own counts; rates, averages and lengths are the quotients of these counts |
| OutputRows.StatsEntryOutput.Absorb | output.go:349-387 | a reported entry is merged and the derived numbers are those of the merged counts; failures per second are overwritten |
| OutputRows.RowOfOwnNumbers | output.go:172-240 | rps times the seconds on record, less one if more than two, is at most the requests and less than one rps short of them; averages times requests give the sums they come from |
| OutputRows.MergeCounts | output.go:363-369 | counts are added key by key |
| RowOrder.SortOutput | output.go:444-458 | the in-place bubble sort ends in name order with rows of equal name in their old order |
| RowOrder.BeforeIff | output.go:450 | one name comes before another if and only if, where they first differ, it has ended or has the lesser character |
| RowOrder.StableSortIsUnique | output.go:444-458 | name order and unchanged groups determine the arrangement |
| Summary.SameGroupsIsPermutation | output.go:444-458 | unchanged groups mean the same rows, each as often as before |
| Summary.DataOutput.MergeItem | output.go:346-394 | a row is merged into the first row of its name or appended |
| Summary.DataOutput.AddErrors | output.go:404-423 | known errors count on in the kept record, new ones are kept as the record of the report |
| RowTallies.FailuresPerSecondAddUpIff | output.go:377-379 | a merged row's failures by second add up if and only if both parts' did and no second is repeated |
| Summary.DataOutput.Build | output.go:340-442 | all rows are merged, totals and errors added, and the sums over the rows recomputed; new errors are taken over with the report's own records |
| Summary.Output.ConvertData | output.go:506-546 | every entry of a report becomes a row of its own, with new objects; the total rate and fail ratio are the quotients of the total's counts |
| Summary.Output.OnEvent | output.go:80-90 | a report is decoded, sorted, merged into the summary, and the summary sorted |
| ReportPoints.NeverResetHoldsTimes | stats.go:235-272 | an entry fed all bookings of a name holds their times: number, histogram, and the minimum they show |
| ReportPoints.ReportPointsAreInvisible | output.go:340-394 | a summary row counts and shows what one never-reset entry does when fed all delivered events of the name: requests by second and all derived numbers included, and the minimum if the name's times are sure |
| RowHistory.RowIsHistory | output.go:346-394 | in every summary the row of a name is the merge, in order, of all rows reported under it |
| RowHistory.RowHasFirstStamps | output.go:349-387 | a name has a row once an entry is reported under it, and the row's method, start and last request are those of the first such entry, whatever follows |
| HistoryRuns.LastRequestIff | output.go:349-394 | over a run, the row's last request is that of the first visited entry of the first report with the name, and equals a never-reset entry's if and only if that second is also the one of the last request delivered |
| HistoryRuns.FailuresBySecondAddUpIff | output.go:377-379 | over a run, a row's failures by second add up to its failures if and only if no second with failures occurs in two of the entries reported under its name |
| FailureRuns.TwoFailuresShowReports | output.go:349-387 | the same two failures, reported together and apart: the last request differs, and apart in one second a count is lost |
| ReportPoints.SummaryPercentileIsOrderStatistic | output.go:380-382 | a percentile in the summary is the rounded element at its rank in the sorted list of all delivered times of the name |
| SummaryRuns.SummaryIsConsistent | output.go:340-442 | names are distinct, every row's rates and averages are the quotients of its own counts, requests add up over the seconds, row totals and rates add up to the summary's, the user count is the last one, the fail ratio is in [0,1], and errors are conserved per key and altogether |
| MinimumRuns.MinimumIgnoresReportsIff | output.go:355-357 | the summary shows the minimum of one entry fed the times in every session that delivers them, if and only if none is zero, or the last one is, or one is negative |
| MinimumRuns.ExtraReportShows | output.go:355-357 | for all other times, one more report after a zero makes the minimum of the same requests differ |
| MinimumRuns.ZeroTimeShowsReportPoints | output.go:355-357 | a 0 and a 5 show 5 in one report and 0 in two |
| LocalRunner.Deliver | runner.go:334-348 | an output fed the reports one by one goes through exactly the modelled summaries, leaves the entries of all reports alone, and leaves of their error records those of an error's first report with the occurrences of all reports, all others as they were sent |
| ErrorRuns.SummaryTellsErrors | output.go:407-423 | after any reports the summary knows exactly the errors of the delivered failures, each as the first such failure tells it, however the reports were cut |
| SharedErrors.SummaryErrorIs | output.go:407-423 | the summary keeps an error as its first report has it, with the occurrences of all reports so far |
| SharedErrors.RecordChangesIff | output.go:407-423 | a record comes out changed if and only if its report is the first with the error and a later one counts some occurrence |
| SharedErrors.ReportedErrorChangesIff | output.go:407-423 | of the reports of a run, a record changes if and only if its report is the first with the error and a later report has the error |
| FailureRuns.FirstRecordChanges | output.go:407-423 | a run in which the first of two records ends up with both failures and the second keeps its one |
| LocalRunner.Session | runner.go:327-356 | end to end, what is shown after a standalone session is what never-reset entries show, the minimum under its condition |
| RateLimiter.StableRateLimiter.WakeUp | ratelimiter.go:76-85 | an outdated generation ends; the current one refills the bucket and releases the waiting |
| RateLimiter.StableRateLimiter.Acquire | ratelimiter.go:92-102 | a token is taken, and the caller is blocked if and only if none was left |
| RateLimiter.RampUpRateLimiter.GetNextThreshold | ratelimiter.go:172-182 | the wrapped sum, replaced by the largest int64 if negative and capped at the maximum |
| RateLimiter.RampUpRateLimiter.Start | ratelimiter.go:185-191 | a new generation with a new quit channel, and the next threshold installed |
| RateLimiter.RampUpRateLimiter.Stop | ratelimiter.go:247-250 | the next threshold restarts from zero and the quit channel is closed, or the call panics |
| RateLimiter.RampUpRateLimiter.UpdateThreshold | ratelimiter.go:213-229 | an updater waking up in the current generation stores the next threshold after the one installed; an outdated one ends |
| RateLimiter.NextThresholdInRange | ratelimiter.go:172-182 | for any int64 step the next threshold stays between zero and the maximum |
| RateLimiter.NextThresholdSaturates | ratelimiter.go:173-177 | for a non-negative step the sign test finds every overflow |
| RateLimiter.RampIsLinearIff | ratelimiter.go:172-182 | for any maximum the ramp is min(max, (k+1)*step) for all k if and only if the step is not negative |
| LimiterRuns.RunsAreSafe | ratelimiter.go:66-107 | channels, tokens, callers and thresholds stay in order in every interleaving of starts, stops, timers and callers |
| LimiterRuns.RefillReleasesAll | ratelimiter.go:82-85 | a refill closes the channel of everyone waiting, so each can go on, and never closes a channel twice |
| LimiterRuns.GrantsPerPeriod | ratelimiter.go:92-102 | since the last installation, grants are the lesser of attempts and threshold, and the counter cannot wrap around |
| LimiterRuns.NothingBeforeStart | ratelimiter.go:130-145 | a ramp-up limiter grants nothing before its first start, and then starts from zero |
| LimiterRuns.StartInstalls | ratelimiter.go:185-191 | a start fills the bucket with the threshold it installs, the lesser of the maximum and one step above the one it finds |
| LimiterRuns.BucketFollowsRamp | ratelimiter.go:185-210 | after a start from zero, calls are granted up to min(max, step) before the first refill, and every refill fills the bucket with the ramp's value at that moment |
| LimiterRuns.StartedLimiterTicks | ratelimiter.go:66-87 | as long as there was a start since the last stop, two steps of the current timer refill the bucket and release everyone waiting, and two of the updater raise the next threshold |
| LimiterRuns.TaskRunsAreBounded | runner.go:152-170 | tasks run at most as often as tokens were granted, and tokens at most up to the sum of installed thresholds |
| LimiterRuns.OldGenerationsNeverWrite | ratelimiter.go:199-229 | once outdated, a generation's timers change nothing in any later state |
| LimiterRuns.AtMostOneRefillAfterStop | ratelimiter.go:70-87 | after any reachable stop that does not panic, and until the next start, there is at most one more refill |
| LimiterRuns.PanicsIffStopUnarmed | ratelimiter.go:105-107 | a run panics if and only if some stop has no start since the stop before |
| LimiterRuns.RampClosedForm | ratelimiter.go:185-231 | k updates after any start that finds the next threshold at zero it is min(max, (k+1)*step), in every interleaving |
| LimiterRuns.RestartRampsIff | ratelimiter.go:185-250 | a start, wherever it comes, begins the ramp anew if and only if it finds zero or a single step reaches the maximum |
| LimiterRuns.StopKeepsZeroIff | ratelimiter.go:213-250 | after a reachable stop the next threshold stays zero until the next start, if and only if the stop finds the current updater awake or gone, or a step from zero leads nowhere |
| LimiterRuns.StopRampsAnewIff | ratelimiter.go:185-250 | every start after a reachable stop begins the ramp anew, if and only if the stop finds the current updater awake or gone, or one step reaches the maximum, or the step is zero |
| LimiterRuns.OldUpdaterBreaksRamp | ratelimiter.go:213-231 | an updater asleep during a stop raises the threshold before the next start |
| Worker.SlaveRunner.SumUsersAmount | runner.go:431-449 | castable class counts are saved and summed in machine integers; others are skipped |
| Worker.SlaveRunner.OnSpawnData | runner.go:455-470 | a stale message is discarded; others are noted, answered, and start a group of workers |
| Worker.SlaveRunner.Stop | runner.go:295-303 | the open stop channel is closed; without one the call panics |
| Worker.SlaveRunner.HandleMessage | runner.go:499-567 | the state machine, state by state and message by message |
| Worker.SlaveRunner.SpawnRound | runner.go:142-151 | a group whose channel is closed ends; otherwise one more client is counted |
| Worker.SlaveRunner.Complete | runner.go:404-410 | completion reports the clients and the saved class counts and sets the state to running |
| WorkerRuns.LifecycleStepIff | runner.go:499-567 | a step keeps channel, state and live groups in agreement if and only if it is benign |
| WorkerRuns.LifecycleIff | runner.go:499-567 | a run is in order throughout if and only if each of its steps is benign |
| WorkerRuns.StopClosesOpenChannel | runner.go:539-550 | in order, stop and quit close an open channel, leave no group live, and end in ready |
| WorkerRuns.StaleSpawnBreaks | runner.go:535-538 | a stale spawn stops all workers, starts none, and makes the next stop panic |
| WorkerRuns.LateCompletionBreaks | runner.go:175-177 | a completion after a stop leaves the state running without workers, and the next stop panics |
| WorkerRuns.StaleSpawnRun | runner.go:455-470 | from start-up: the same spawn twice and a stop panic |
| WorkerRuns.LateCompletionRun | runner.go:404-410 | from start-up: a spawn of no workers, a stop, its completion and a stop panic |
| WorkerRuns.ReplayStartsNothing | runner.go:456-465 | accepted timestamps strictly increase to the last received one, and replaying any of them starts no workers |
| WorkerHistory.SpawnStartsIff | runner.go:455-470 | in every run a spawn message starts a group and answers if and only if its timestamp is positive and later than all accepted ones, or unreadable, and it has a table; it stops the group before it, and panics otherwise unless it is stale |
| WorkerHistory.SavedIff | runner.go:431-449 | the saved class counts are exactly the readable pairs of the table |
| WorkerHistory.CastIff | utils.go:19-30 | a signed integer is read as it is, an unsigned one as the int64 that differs by a multiple of 2^64, anything else not at all |
| GoInts.Wrap32Iff | runner.go:150 | the client count is the 32-bit integer that differs from the exact count by a multiple of 2^32 |
| GoInts.Wrap64Iff | utils.go:24-27 | the conversion to int64 gives the one number in range that differs by a multiple of 2^64 |
| WorkerHistory.AlwaysRests | runner.go:499-567 | in every run, panics included, the worker is ready, spawning or running after each step |
| WorkerHistory.ClearedPerIdleSpawn | runner.go:526-529 | in every run the statistics are cleared once for each spawn message received while idle, and by nothing else |
| WorkerHistory.ClearedPerWaking | runner.go:526-529 | in an orderly run they are cleared exactly when the worker goes from idle to active |
| WorkerHistory.AckPanicsIff | runner.go:480-497 | at most the last client_ready awaits an acknowledgement; one received while idle panics if and only if that has been acknowledged, and while active it is ignored |
| WorkerHistory.QuitsAreAnswered | runner.go:412-416 | every quit message that does not panic is answered once, and nothing else is answered so |
| WorkerRuns.RepliesArePaired | runner.go:539-545 | client_ready is sent once more often than client_stopped, each of which it follows at once, when nothing comes between the sends of one message |
| StopRuns.HalvesMakeWhole | runner.go:539-545 | the two sends of a stop with nothing in between are the one step of the coarser model |
| StopRuns.SpokenArePaired | runner.go:539-545 | with completions in between: of what the message loop sends, client_ready comes once more often than client_stopped and follows each at once |
| StopRuns.AdjacentIff | runner.go:404-410 | every client_stopped is followed at once by client_ready, if and only if no completion is reported between the two sends of a stop |
| StopRuns.CompletionIntrudes | runner.go:175-177 | from start-up: a run in which spawning_complete falls between client_stopped and client_ready |
| WorkerRuns.AmountIsSumOfSaved | runner.go:435-448 | the requested number of workers is the sum of the saved class counts as a machine integer |
| WorkerRuns.CompletionReportsRequest | runner.go:404-410 | the completing group reports the class counts it was asked for and as many clients as they add up to |

## Left out

- Sockets, message encoding and the event bus: the link to the master is the sequence of messages received and replies sent. The quit subscriber is called directly.
- Console tables, JSON files, Prometheus gauges, CPU and memory monitoring, profiling, flags and signals: output only.
- `parseRampUpRate`: step and period are inputs.
- `newSpawnWorkers`: its bounds come from libraries that are not part of this model; the worker runs with the older spawning loop, the only one that reports completion.
- Running a task: which task is picked is modelled, what its function does is not.
- Overflow of weights, counters and sums of times: they are unbounded integers. Thresholds, class counts and client counts are machine integers.
- Rounding and averages in floating point: rounding is exact half-up on integers, averages and ratios are reals.
- Data races below one atomic step, and the wrap-around of timer generations after 2^64 starts.
- LiveStats.StatsEntry: the three maps of an entry, always replaced together, are one object; the constant count of requests without a response time is not kept.
- RequestStats.Start: the channels are the given sequence of turns; the ticker may fire between any two events.
- Output: one output with one percentile setting; several outputs would share the same summary. The type checks of `convertData` cannot fail on typed reports.
- Summary.DataOutput.Build: the total entry kept beside the rows is reduced to its two counts, the only ones the source adds up.
- LocalRunner.Session: the reports are delivered after the loop has run. The loop no longer touches them, and taking one in changes no report that still waits, so delivering them earlier would show the same.
- Reports that the distributed worker drops while ready or stopped, heartbeats, and the waiting for acknowledgements with a timeout.
- RateLimiter.StableRateLimiter.Acquire: the contract covers the decrement; waiting for the bucket to be refilled is the steps `Park` and `Release` of `LimiterRuns`.
- WorkerRuns.RepliesArePaired: one message is one step here; `StopRuns` takes the two sends of a stop apart, the other messages send at most one reply.
