# EtherTime: a verified model

EtherTime runs clock-synchronization benchmarks on clusters of machines and analyses the offset logs they leave. This project
models its decision-making parts in Dafny and proves what they promise for every input, every history and every cancellation.

| file | what it models |
|---|---|
| `Sequences.dfy` | filters, counts and the stable sort that stand for Python lists and database queries |
| `Planning.dfy` | `queue_benchmarks`: quotas, nested loops, interleaving by a stable sort, the trailing pause |
| `TaskQueue.dfy` | the stored task queue, the serial run loop, crashes and edits, completion estimates |
| `ClockAnalysis.dfy` | clock step detection, the sliding convergence window, convergence detection and statistics |
| `EndpointAnalysis.dfy` | `process_timeseries_data` with its crops and fault statistics, and the reload of stored samples |
| `Segmentation.dfy` | cutting a series at midpoints, the nearest-cut alignment, modular wrapping |
| `Stitching.dfy` | merging series end to end |
| `Invocation.dfy` | the monitor task of a child process as a step machine (module `ProcessInvocation`) |
| `Orchestration.dfy` | background tasks, their exit stack, and the benchmark lifecycle |
| `Summaries.dfy` | profile conversion and the summary cache |
| `TickFormatter.dfy` | the mixed-unit tick labels of the interactive charts |
| `StructuralDifference.dfy` | differences of nested metric records |

Verify everything with `dafny verify dfyconfig.toml`.

## How the model reads the source

- Times are integer nanoseconds and offsets are integers, so a jump of one second is exactly 1 000 000 000. Rates, ratios and
  metric values are reals. `NaN` and `NaT` are `None`.
- Objects that the source updates in place are classes (`Database`, `ScheduleTask`, `Endpoint`, `Invocation`,
  `MultiTaskController`, `Profile`), and loops that build a value are methods. Each is proved equal to a function of the old
  state, and the theorems are about those functions. Whole-series pandas expressions are functions.
- What other software decides is a parameter: clocks, how a command ends, what each awaited task does meanwhile, how a conversion
  ends. Histories are arbitrary sequences of events; an event that cannot happen in a state leaves the state unchanged.
- Database rows of the task queue sit at the position of their key: keys grow and rows are not deleted.
- The scaled tick of a chart label is a parameter, because it is a rounded double product; doubles are mantissas of 53 bits times
  powers of two, each result within half a unit in the last place.
- Concatenated series share a sorted time level, except that identical indexes, as of a single endpoint, keep their distinct times
  in row order.
- A cut series is a list of values with a label beside each; a label is a time or a number. `NaT` is sorted behind all times, and
  is the least 64-bit integer when it is turned into one.
- The order in which a set of finished tasks is visited is that of a ranking, which is a parameter.
- `np.searchsorted` is a binary search, `list.sort` and `order_by` are a stable insertion sort, `rolling(n)` adds the entering and
  removes the leaving element, the quotient of a timedelta by two is rounded toward zero.

## What the proofs found out

- A batch keeps its planned order through every history exactly when its priority is at most 999 or it is a single task. Above 999
  the promotion to 999 is a demotion: after a crash the second task overtakes the first (`PlannedOrderIff`).
- Completed runs count towards `--target-count` only for analysed vendors (`FinishedRunsCountIff`). No cluster in `config.py`
  supports another vendor, so one would have to be configured first.
- Repeating `--vendor` or `--cluster` multiplies the quota (`SelectionsMultiply`, `BatchMeetsQuotas`).
- With exactly five sign changes the convergence lookup fails with an index error, which leaves the profile unprocessed instead of
  corrupt (`OutcomeByNumberOfChanges`).
- The stored "converged" samples are not the analysed ones: the reload repeats the sample at the convergence timestamp, always
  when the convergence took longer than 10 s (`ReloadAgreement`, `ReloadRepeatsTheConvergenceSample`).
- Only `keep_alive` at the exit decides whether a process comes up again; `restart()` has no influence on it, although
  `test_process_restart` expects it (`FurtherChildIff`, `ChildrenAreCounted`, `RestartEndsTheTask`).
- A cancelled process surfaces as `InvocationFailedException` rather than as a cancellation exactly when its return code is checked
  and not accepted, terminated and killed processes included (`CancelledTaskOutcome`); a worker session that exits with another code
  or has to be killed fails the benchmark (`SuccessByExitCodes`).
- `run_for` swallows a `TimeoutError` of a finished task, and with it the results it has not yet asked for. A set has no order, so
  next to such a task the failure of another can be hidden, and the profile stored as successful (`PassingOverAllOrders`,
  `SuccessOverAllOrders`).
- A queued command that obeys its timeout and exits with code 0 takes the scheduler down with a `TimeoutError` and is run again
  first after every restart; one that has to be killed is recorded as failed (`TimeoutOutcomeIff`, `ObedientCommandIsRepeated`).
- Midpoint segmentation is nearest for every sample exactly when no two neighbouring alignment points add up to a negative odd
  number (`SegmentIsNearestIff`).
- `segment_and_align` looks cuts up by the labels of the series it is given. Only a series labelled with its own values, or an
  index of times, gets every row to its nearest cut (`ClosestIsNearestIff`); with the default labels 0, 1, ... every new time is lost
  (`DefaultLabelsLoseTheTimes`).
- It subtracts cuts from the index level, which is sorted unless all endpoints have the same index, so rows of endpoints that
  interleave in time get each other's times (`AlignmentRestoresTimesIff`).
- An empty series in a stitched merge turns all later times into `NaT` (`EmptySeriesPoisonsTheRest`).
- Tick labels do not show every whole number of nanoseconds: scaling a tick to nanoseconds in doubles can fall short, and then the
  label is one nanosecond low, as for 249 ns (`RoundingLosesAtMostOne`, `NanosecondIsLost`); neighbours can share a label
  (`OnlyNeighboursShareALabel`). Ticks below a nanosecond print no number at all (`SubNanosecondTicksAreBlank`).
- Structural differences add up along a chain exactly when no snapshot in between loses or adds a container
  (`DifferencesComposeIff`).
- A forced analysis without summarising leaves a summary stale exactly when finished profiles contributed to it and every finished
  profile of its key raises (`AnalysisKeepsCoherenceIff`, `ForcedAnalysisIsSafeIff`); clearing a contributing profile without
  invalidating its key always does (`ClearingKeepsCoherenceIff`).

## Model

| member | source | states |
|---|---|---|
| Planning.StableSortReadsColumns | ptp_perf/scheduler.py:156-172 | the stable sort by iteration index turns the row-by-row list of copies into the ragged quota table read column by column |
| Planning.QueueBenchmarks | ptp_perf/scheduler.py:116-190 | the queued batch is the quota table of the eligible combinations read column by column, with the pause last when requested and the batch is not empty; nothing is queued when five or more tasks are declined |
| Planning.IndexVendors | ptp_perf/scheduler.py:127-167 | the innermost loops append, for every supported vendor in order, all missing copies with their iteration index |
| Planning.RowsAreTheEligibleCombinations | ptp_perf/scheduler.py:122-129 | the quota table has a row for a combination if and only if the cluster supports the benchmark and the vendor |
| Planning.QuotaMet | ptp_perf/scheduler.py:149-156 | every row is planned exactly as often as it is needed |
| Planning.PrefixFairness | ptp_perf/scheduler.py:169-172 | in every prefix of the plan row a has at least the minimum of its need and the copies of row b less one |
| Planning.BatchIsFair | ptp_perf/scheduler.py:121-172 | wherever the batch is cut off it has been through k whole rounds and part of the next: every combination selected m times has had between m times min(need, k) and m times min(need, k + 1) runs, repeated options included |
| Planning.SingleSelectionsAreFair | ptp_perf/scheduler.py:169-172 | between combinations selected once, the one has had its quota or at most one run fewer than the other in every prefix |
| Planning.BatchMeetsQuotas | ptp_perf/scheduler.py:121-172 | the whole batch gives every combination its quota times the number of its rows |
| Planning.SelectionsMultiply | ptp_perf/scheduler.py:122-129 | a combination has as many rows as the product of how often its benchmark, cluster and vendor were selected |
| Planning.BatchShape | ptp_perf/scheduler.py:158-182 | all tasks carry the requested priority, the pause is the last task and only there, and the batch is empty exactly when nothing is needed |
| Planning.FinishedRunsCountIff | ptp_perf/scheduler.py:149-152 | the quota of an eligible combination is the target less its finished runs if and only if its vendor is analysed, or it has no finished runs, or the target is not positive |
| TaskQueue.NextTaskIsTheForemost | ptp_perf/scheduler.py:25-39 | the next task is exactly the unpaused incomplete task that no other such task outranks by priority and then by key; there is none exactly when none is pending |
| TaskQueue.FinishingAdvancesTheQueue | ptp_perf/scheduler.py:33-39 | completing the foremost task leaves all others in their order |
| TaskQueue.PromotionKeepsOrder | ptp_perf/models/schedule_task.py:25-28 | promoting the running task to 999 keeps the whole order if and only if it still ranks first, always when its priority was at most 999 |
| TaskQueue.ScheduleTask.Run | ptp_perf/models/schedule_task.py:25-39 | the row is saved as started with priority 999, then as finished with outcome and completion time together; an escaping exception leaves it started |
| TaskQueue.RunScheduler | ptp_perf/scheduler.py:47-54 | polling the queue serves the next task of the current rows until an attempt takes the scheduler down |
| TaskQueue.LoopServesInOrder | ptp_perf/scheduler.py:47-54 | without aborts the i-th poll completes the i-th pending task, all pending tasks get done, and no other row changes |
| TaskQueue.LoopIsAHistory | ptp_perf/scheduler.py:47-54 | the run loop is a history of begin, complete and crash events, so the theorems about all histories apply to it |
| TaskQueue.CrashResume | ptp_perf/scheduler.py:25-54 | over every history with priorities below 999 and the started task left alone, at most one task is started but incomplete, it is the next task, and outcome and completion are set together on started tasks only |
| TaskQueue.TimeoutOutcomeIff | ptp_perf/models/schedule_task.py:29-35 | a command that runs into its timeout never succeeds, and takes the scheduler down if and only if it was not launched, kept alive, or obeyed the signals with code 0 |
| TaskQueue.TimelyOutcomeIff | ptp_perf/models/schedule_task.py:29-35 | a command that ends in time and undisturbed succeeds with code 0 and fails with any other |
| TaskQueue.ObedientCommandIsRepeated | ptp_perf/models/schedule_task.py:25-39 | a launched command that obeys its timeout with code 0 leaves its task started and is served first again after the restart; with any other code the task is completed as failed |
| TaskQueue.BatchComplete | ptp_perf/models/schedule_task.py:36-39 | completing a batch task moves the batch on by exactly one: the number of incomplete batch tasks is a termination measure |
| TaskQueue.BatchCompletesInPlannedOrder | ptp_perf/scheduler.py:25-54 | whatever else is queued, edited, run or crashed, after every history the completed tasks of an unedited batch of one priority up to 999 are its first ones in list order, each once, and as many as the history completed |
| TaskQueue.BatchCompletes | ptp_perf/scheduler.py:25-54 | once a history holds as many completions as there were tasks before the batch, in it, or let in ahead of it, the whole batch is complete in list order, whatever interleaved |
| TaskQueue.BatchProgress | ptp_perf/scheduler.py:25-54 | until the batch is done every completion brings it nearer, and only tasks queued or edited ahead of it set it back |
| TaskQueue.LoopCompletesTheBatch | ptp_perf/scheduler.py:47-54 | after any history the undisturbed run loop completes the rest of the batch, with one poll per pending task |
| TaskQueue.PlannedBatchCompletes | ptp_perf/scheduler.py:174-190 | the planned batch is completed in the interleaved order, and its last task is the manual pause exactly when one was requested |
| TaskQueue.PlannedOrderIff | ptp_perf/models/schedule_task.py:27-27 | every history keeps the planned order if and only if the priority is at most 999 or the batch has at most one task |
| TaskQueue.Info | ptp_perf/scheduler.py:77-85 | the printed estimates are the running sums of the remaining estimates in queue order |
| TaskQueue.EtasAreFinishTimes | ptp_perf/scheduler.py:77-93 | every estimate equals the completion time of that task in a simulated run of the serial loop in which each task takes its remaining estimate |
| ClockAnalysis.ClockStepIsTheFirstJump | ptp_perf/profiles/analysis.py:17-39 | the detected time is that of the first jump of a second or more, or lies before the series exactly when there is no jump; the magnitude is that of the jump |
| ClockAnalysis.StepCropLeavesFewerJumps | ptp_perf/profiles/analysis.py:19-30 | with at most m permitted steps, m at least 1, at most m - 1 jumps are left after the step crop |
| ClockAnalysis.SlideIsDirect | ptp_perf/profiles/analysis.py:86-86 | the sliding sum and observation count equal the direct ones over the window at every index |
| ClockAnalysis.FlagsAreWindowSums | ptp_perf/profiles/analysis.py:77-98 | a sample is flagged converged if and only if fifteen changes end at it and their magnitudes sum to more than 3 |
| ClockAnalysis.FlaggedWindowHasFourChanges | ptp_perf/profiles/analysis.py:88-91 | every flagged window holds at least four sign changes |
| ClockAnalysis.OutcomeByNumberOfChanges | ptp_perf/profiles/analysis.py:102-106 | fewer than five sign changes mean no convergence, exactly five an index error, more a result |
| ClockAnalysis.ConvergenceFollowsFiveChanges | ptp_perf/profiles/analysis.py:100-128 | the timestamp is the first sample plus the duration, the duration is at least 10 s, and exactly five sign changes precede it unless it was raised to 10 s |
| ClockAnalysis.StatisticsAreDefined | ptp_perf/profiles/data_container.py:132-147 | for every detected convergence the phase is not empty, the statistics exist, the maximum bounds all offsets and equals rate times duration |
| ClockAnalysis.RatioIsTheShareOfFlags | ptp_perf/profiles/analysis.py:48-65 | the ratio is the share of set flags among the samples after the convergence time and missing exactly when there are none; the number of converged samples is the length of that tail, whatever the flags |
| EndpointAnalysis.Endpoint.ProcessTimeseriesData | ptp_perf/models/endpoint.py:204-377 | fields and outcome are those of the analysis function, and the database row changes only when the whole analysis goes through |
| EndpointAnalysis.CropZerosIsSuffix | ptp_perf/models/endpoint.py:251-254 | keeping samples with a non-zero cumulative count cuts off exactly the leading zeros |
| EndpointAnalysis.CropsPartitionTheSeries | ptp_perf/models/endpoint.py:251-294 | leading zeros, everything up to the clock step, the convergence phase and the converged rest are contiguous and make up the series |
| EndpointAnalysis.StepCropIsSound | ptp_perf/models/endpoint.py:256-264 | the series searched for convergence has at most m - 1 jumps of a second or more |
| EndpointAnalysis.AnalysedRowHoldsTheCuts | ptp_perf/models/endpoint.py:256-294 | a successful analysis stores the step and convergence it cut at, the maximum offset and rate of the convergence phase and the size of the converged series, and no analysis ever fails for want of convergence statistics |
| EndpointAnalysis.ReloadAgreement | ptp_perf/models/endpoint.py:155-190 | reloading yields the converged series preceded by the sample exactly on the convergence timestamp, if any, the clock-step filter removes nothing, and the two series agree if and only if there is no such sample |
| EndpointAnalysis.ReloadRepeatsTheConvergenceSample | ptp_perf/models/endpoint.py:161-164 | a convergence longer than 10 s is always reloaded with one sample too many |
| EndpointAnalysis.AnalysedRowDescribesFault | ptp_perf/models/endpoint.py:304-370 | after a successful analysis with one fault, the row holds the measured duration, the maxima during and after the fault and the return to normal of the converged series, phase by phase, or what it held before where a phase is empty |
| EndpointAnalysis.FaultInOrderIff | ptp_perf/models/endpoint.py:313-330 | once convergence and path delays are there, the analysis of a profile with one fault goes through if and only if the fault sets in after the convergence, ends later and, on its own endpoint, within the recorded data; otherwise the profile is corrupt |
| EndpointAnalysis.FaultPhasesPartition | ptp_perf/models/endpoint.py:332-368 | the phases before, during and after a fault are contiguous and make up the series, and the measured duration is at least the scheduled one |
| EndpointAnalysis.FaultMaxima | ptp_perf/models/endpoint.py:355-370 | the stored maxima are the greatest offsets during and after the fault, kept from before when there are no samples |
| EndpointAnalysis.RankBelow | ptp_perf/models/endpoint.py:359-362 | the k-th smallest value is below a threshold exactly when more than k values are |
| EndpointAnalysis.DoubledMedianIsTheMiddle | ptp_perf/models/endpoint.py:415-418 | twice the median is the sum of the two middle order statistics |
| EndpointAnalysis.ReturnToNormalIsEarliest | ptp_perf/models/endpoint.py:358-366 | the return to normal is the earliest sample, fifth or later, whose last five include at least three below twice the median from before the fault |
| Segmentation.SegmentIsNearest | ptp_perf/profiles/data_container.py:333-345 | when no neighbouring points add up to a negative odd number, every sample goes to a nearest alignment point, the lower one on ties |
| Segmentation.SegmentIsNearestIff | ptp_perf/profiles/data_container.py:333-345 | the assignment is nearest for every time if and only if no two neighbouring points add up to a negative odd number |
| Segmentation.SegmentKeepsSamples | ptp_perf/profiles/data_container.py:359-370 | segmenting succeeds exactly when the shifted times are distinct, and then holds the shifted samples in time order |
| Segmentation.SegmentRestoresRows | ptp_perf/profiles/data_container.py:345-370 | when no neighbouring points add up to a negative odd number, every segmented sample comes from a row of its own: its time plus the lowest nearest alignment point is the row's time and its value is the row's value |
| Segmentation.NonNegativePointsRestoreRows | ptp_perf/profiles/data_container.py:328-370 | for increasing non-negative alignment points the same holds without further condition |
| Segmentation.NearestIndexIsNearest | ptp_perf/models/sample_query.py:109-109 | the nearest lookup finds a nearest cut, the upper one on ties |
| Segmentation.AssignmentsAgreeExceptOnTies | ptp_perf/models/sample_query.py:109-109 | midpoint assignment and nearest lookup agree on a time if and only if no two points are equally near to it |
| Segmentation.WrapIsTheCentredRepresentative | ptp_perf/models/sample_query.py:117-121 | the wrapped value is the one number congruent modulo the interval within half an interval of zero |
| Segmentation.CutIndexIsNearest | ptp_perf/models/sample_query.py:123-123 | the stored cut index is that of the nearest cut if and only if the lookup by label returns that cut |
| Segmentation.OwnLabelsIff | ptp_perf/models/sample_query.py:109-109 | every cut is found under its own value if and only if every label of the cut series is the value beside it |
| Segmentation.ClosestIsNearestIff | ptp_perf/models/sample_query.py:109-109 | the closest cut is the nearest one for every time if and only if the cuts are labelled with their own values |
| Segmentation.DefaultLabelsLoseTheTimes | ptp_perf/models/sample_query.py:104-124 | with default labels no cut is found for any row: every cut index is past the end and every new time is NaT, or one fixed number when wrapping |
| Segmentation.AlignmentRestoresTimes | ptp_perf/models/sample_query.py:104-124 | with cuts labelled by their own values, rows in ascending order, and distinct rows of a single endpoint in any order, are always aligned, each to a nearest cut, and cut plus new time restores the time, up to the interval when wrapping |
| Segmentation.AlignmentRestoresTimesIff | ptp_perf/models/sample_query.py:109-115 | without wrapping the times are restored if and only if the rows ascend or all endpoints have the same index, and the nearest cut of every row is a label of the cut series |
| Segmentation.LevelIsTimesIff | ptp_perf/models/sample_query.py:58-62 | when the time level of the concatenated series is as long as the rows, it repeats their times if and only if they ascend or all indexes are the same |
| Stitching.MergeSeries | ptp_perf/profiles/data_container.py:385-407 | the loop concatenates the moved frames, and the result passes the uniqueness and order checks or fails as they say |
| Stitching.StitchedAt | ptp_perf/profiles/data_container.py:397-401 | sample j of series i lands at the start of series i plus its distance from that series' first sample, with its value and label |
| Stitching.StitchingSucceeds | ptp_perf/profiles/data_container.py:391-407 | stitching non-empty series always succeeds with a strictly increasing timeline from 0 to the sum of the spans plus one second per gap |
| Stitching.StitchingKeepsDifferences | ptp_perf/profiles/data_container.py:397-401 | differences inside a series survive and neighbouring series are exactly one second apart |
| Stitching.EmptySeriesPoisonsTheRest | ptp_perf/profiles/data_container.py:398-406 | with an empty series on the way the merge succeeds if and only if at most one sample follows it |
| ProcessInvocation.ChildProcessSafety | ptp_perf/invoke/invocation.py:235-253 | over every run all earlier children have exited before a start, every child has exited or was sent kill at the end, a normal end means keep_alive was off and the code accepted or unchecked, and a checked end fails exactly when the code was not accepted |
| ProcessInvocation.OutputIsEverythingHeard | ptp_perf/invoke/invocation.py:134-156 | captured output is everything read so far in order, across restarts |
| ProcessInvocation.ChildrenAreCounted | ptp_perf/invoke/invocation.py:235-253 | over every run there is one child for the first start and one for every undisturbed exit with keep_alive on whose delay and start are not prevented |
| ProcessInvocation.FurtherChildIff | ptp_perf/invoke/invocation.py:243-252 | at any undisturbed exit of any run the task goes into the restart delay if and only if keep_alive is on, and a further child is started if and only if besides the delay is not cancelled and the start goes through |
| ProcessInvocation.NoSecondChildWithoutKeepAlive | ptp_perf/invoke/invocation.py:214-253 | while keep_alive stays off no run starts a second child, whatever calls restart |
| ProcessInvocation.RestartEndsTheTask | ptp_perf/test/functional/test_invocation.py:17-24 | the run of the restart test ends in InvocationFailed after one child and without output |
| ProcessInvocation.CancelledRunsEnd | ptp_perf/invoke/invocation.py:163-197 | after a cancellation at any point of any run, and whatever else happens, the task is done two shutdown timeouts later with every child exited or sent kill |
| ProcessInvocation.CancelledTaskOutcome | ptp_perf/invoke/invocation.py:163-212 | for any run before and any events after a cancellation, the task ends as InvocationFailed if and only if it had a child whose code is checked and not accepted, signalled children included, and otherwise as cancelled unless reading fails |
| ProcessInvocation.NormalEndIff | ptp_perf/invoke/invocation.py:195-212 | a task returns normally if and only if its last child was finalized with keep_alive off and an accepted or unchecked code and nothing else ended it |
| ProcessInvocation.OrdinaryEnd | ptp_perf/invoke/invocation.py:235-253 | without failing launches, failing readers and cancellations the task ends as InvocationFailed when the code is rejected and normally otherwise |
| ProcessInvocation.Invocation.Terminate | ptp_perf/invoke/invocation.py:243-248 | keep_alive overwrites the restart flag, then a running child is sent terminate and an exited one is finalized |
| ProcessInvocation.Invocation.Restart | ptp_perf/invoke/invocation.py:214-232 | a running child is killed and the flag set; without a running child it raises |
| ProcessInvocation.Invocation.Deliver | ptp_perf/invoke/invocation.py:96-253 | the object's steps are exactly the transitions of the step machine |
| Orchestration.CloseStackFinishesAll | ptp_perf/utilities/multi_task_controller.py:31-54 | closing the stack finishes every task even when stopping one raises, keeps finished results, and raises exactly when a cancelled task raised something other than a cancellation |
| Orchestration.MultiTaskController.RunFor | ptp_perf/utilities/multi_task_controller.py:16-29 | the wait goes through exactly when there are tasks, it is not interrupted, and every failed task is asked for its result after one that ended in a TimeoutError |
| Orchestration.AskPassesIff | ptp_perf/utilities/multi_task_controller.py:22-29 | asking for results in a given order raises nothing if and only if every failure comes after a TimeoutError, which is swallowed together with the results behind it |
| Orchestration.PassingOverAllOrders | ptp_perf/utilities/multi_task_controller.py:23-27 | the results pass in every order of the set if and only if no finished task failed, and in some order if and only if none failed or one ended in a TimeoutError |
| Orchestration.EveryOrderIsRanked | ptp_perf/utilities/multi_task_controller.py:23-27 | every order of the finished tasks is that of some ranking, so the statements over rankings leave out no order |
| Orchestration.MultiTaskController.CancelPendingTasks | ptp_perf/utilities/multi_task_controller.py:31-46 | every task added is done afterwards, with the outcome and exception of closing the stack last in, first out |
| Orchestration.DoBenchmark | ptp_perf/orchestrator.py:45-96 | however the guarded block is left the profile is not running and all tasks are done, and success, a normal return, and waits and cleanup that go through coincide |
| Orchestration.SuccessCondition | ptp_perf/orchestrator.py:47-59 | success in terms of the tasks: setup and waits undisturbed, every failure asked for after a TimeoutError, and every cancelled task ended by cancellation or normally |
| Orchestration.SuccessOverAllOrders | ptp_perf/orchestrator.py:77-92 | the benchmark is successful in every order of asking if and only if no task failed by the end of the waits and no cancelled one raised, and in some order if and only if after each wait none had failed or one had timed out |
| Orchestration.FinishedSession | ptp_perf/orchestrator.py:60-70 | a session that ends by itself fails unless its launch timed out or it ended with code 0, keep_alive off and nothing else raised; undisturbed, it fails exactly when its code is not 0 |
| Orchestration.CancelledSession | ptp_perf/orchestrator.py:60-70 | a cancelled session raises nothing else if and only if it had no process yet, was kept alive, or ended with code 0, with its output read |
| Orchestration.SuccessByExitCodes | ptp_perf/orchestrator.py:68-92 | in every order of asking the benchmark is successful if and only if the waits are undisturbed, every session that ended during them ended well, every cancelled one stopped well, and so for the fault controller |
| Summaries.RecomputeIgnores | ptp_perf/models/sample_query.py:76-98 | a profile that contributes neither before nor after a change does not affect a summary |
| Summaries.DeleteKey | ptp_perf/models/benchmark_summary.py:212-222 | deleting a key leaves none of its summaries and all others |
| Summaries.CreationBringsUpToDate | ptp_perf/models/benchmark_summary.py:93-100 | creating a missing summary makes its key up to date and keeps the others as they are |
| Summaries.AnalysisKeepsCoherenceIff | ptp_perf/django_data/app/management/commands/analyze.py:17-36 | from a coherent start an analysis, forced or not, leaves a key coherent if and only if it had no summary, or one of its selected profiles converts without raising, or no selected profile contributed to it |
| Summaries.Database.Analyze | ptp_perf/django_data/app/management/commands/analyze.py:17-36 | exactly the finished profiles, all or the unprocessed ones, are converted, exactly the summaries of keys with a successful conversion are deleted, corrupted profiles stay processed, and coherence is kept under the exact condition |
| Summaries.Database.RunAnalysis | ptp_perf/django_data/app/management/commands/analyze.py:93-101 | every analysis ends with exactly one summary per analysed key, equal to recomputation over the processed uncorrupted profiles; a forced one needs no coherence to start from |
| Summaries.ForcedAnalysisIsSafeIff | ptp_perf/django_data/app/management/commands/analyze.py:25-33 | a forced analysis is sure to leave a key coherent however its conversions end if and only if the key has no summary or no finished profile contributes to it |
| Summaries.ClearingKeepsCoherenceIff | ptp_perf/models/profile.py:37-45 | clearing a profile without invalidation keeps its up-to-date key coherent if and only if the profile did not contribute |
| TickFormatter.FormatTick | ptp_perf/charts/interactive_timeseries_chart.py:67-86 | the loop prints the sign or zero and then every unit that goes into the remainder |
| TickFormatter.ParseFormatted | ptp_perf/charts/interactive_timeseries_chart.py:67-86 | every label reads back as the whole nanoseconds it was printed from, with their sign |
| TickFormatter.LabelReadsBackIff | ptp_perf/charts/interactive_timeseries_chart.py:72-72 | a label reads back as n nanoseconds if and only if the scaled tick lies in the interval from n to n + 1 |
| TickFormatter.LabelsAgreeIff | ptp_perf/charts/interactive_timeseries_chart.py:67-86 | two labels are equal if and only if sign and whole nanoseconds of the ticks are |
| TickFormatter.RoundingLosesAtMostOne | ptp_perf/charts/interactive_timeseries_chart.py:68-72 | for the double nearest to a whole number of nanoseconds, up to 26 days, the label reads back as that number, or as one less exactly when the double product falls short |
| TickFormatter.OnlyNeighboursShareALabel | ptp_perf/charts/interactive_timeseries_chart.py:68-72 | two different whole numbers of nanoseconds share a label if and only if they are neighbours and only the larger one's product falls short |
| TickFormatter.NanosecondIsLost | ptp_perf/charts/interactive_timeseries_chart.py:72-72 | the label of 249 ns reads 248ns |
| TickFormatter.DoubleQuotientFloors | ptp_perf/charts/interactive_timeseries_chart.py:78-84 | for remainders up to 26 days the floor of the double quotient by a factor is the whole quotient, so the loop splits the remainder exactly |
| TickFormatter.LabelShape | ptp_perf/charts/interactive_timeseries_chart.py:69-84 | minutes and seconds are below 60, smaller units below 1000, zero units are left out, and the units add up to the tick |
| TickFormatter.SubNanosecondTicksAreBlank | ptp_perf/charts/interactive_timeseries_chart.py:72-77 | a non-zero tick prints no number exactly when its scaled value is below one nanosecond |
| StructuralDifference.HierarchicalApply | ptp_perf/utilities/psutil_utilities.py:22-52 | the recursion with its appending loop computes the recursive function on all values and terminates |
| StructuralDifference.DifferenceIsAntisymmetric | ptp_perf/utilities/psutil_utilities.py:22-52 | swapping any two values negates the difference, missing keys, unequal lists and mismatched types included |
| StructuralDifference.DifferencesComposeIff | ptp_perf/utilities/psutil_utilities.py:22-52 | the difference from a to c is the sum of those from a to b and from b to c if and only if b neither loses nor adds containers between them |
| StructuralDifference.DifferencesTelescope | ptp_perf/models/endpoint.py:658-665 | along snapshots of one shape the last minus the first is the sum of all consecutive differences |

## Left out

- Django storage, SQL, admin views, migrations, command-line parsing, SSH, rsync, RPC and power strips: foreign calls.
- Deleting queued tasks, and the "re-run" copies that keep the paused flag: keys stay dense in the model.
- When the timeout of a queued command expires: its run is split into the events before and after.
- Quantiles other than the median, standard deviations, bootstrap intervals and the ratios computed from them: floating-point
  library behaviour; medians are kept as doubled integers.
- Rounding of offsets converted from nanoseconds to seconds: the thresholds are compared in integer nanoseconds.
- Missing-sample counts and resource metrics of an endpoint: single assignments.
- Ticks that are not numbers, and underflow: the scaled tick is a non-negative number.
- RoundingLosesAtMostOne: stated up to 2 to the power of 51 nanoseconds (26 days); towards 2 to the power of 53 doubles no longer
  hold fractions of a nanosecond, and then not every whole one.
- DoubleQuotientFloors: stated for the same range; larger remainders are divided exactly in the model only.
- Log texts, warnings, chart files and JSON export.
- Log parsing of the vendors, and `process_fault_data`: the parsed samples and faults are inputs.
- Signals that cannot be delivered, and the launch of the process itself: a started child always receives what it is sent.
- Cancellation of the cleanup itself, and tasks that never finish after being cancelled: cancelled tasks end.
- Exceptions from creating a summary: creation succeeds.
- Changes of the wrap interval to negative values in `segment_and_align`: intervals are natural numbers.
- Labels of the alignment points in `Timeseries.segment`: they are 0 to n - 1, as a new series has them, because the segment
  numbers are looked up by label.
- `Timeseries.summarize` and its cache: the miss path passes a keyword that its class does not have.
- `timestamp_merge_append` in `SampleQuery.run`: it has no effect on the result.
- Stitching.MergeSeries: series are taken in increasing time order, because the `data_frame` accessor refuses any other.
