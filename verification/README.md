# Recommendation engine

A Dafny model of the recommendation engine that the executor runs over an instance's load: how a list of
timestamped load rows becomes a list of actions, weekly schedules and instance types, and how the results are
stored and read back. Each module follows one part of the engine.

| module | models |
|---|---|
| ScheduleItems, TimeTexts, TimePoints | schedule entries, printed times, the time points of a day and their runs |
| FrequencyMaps, PeriodCounters | shutdown counters per weekday and time point, and the active periods read off them |
| DayGrouping, ScheduleService | grouping similar days, and the schedule generator |
| ScheduleCoverage, ScheduleProbability | what a schedule guarantees end to end, and what its probability means |
| TimeRanges, DayClusters | cutting rows into uninterrupted ranges, and the load classes of a day |
| Autoscaling, InstanceTypes | the scaling action and step of an autoscaling group, and its target instance type |
| GeneralActions, InstanceActions | the actions of one instance, and the way there from its clustered days |
| ResourceGroups | the contradiction filter of a group |
| ResizeTrends, ShapeRules, ShapeFeedback, ShapeTiers, ResizeService | the search for a better fitting shape |
| ResizeResults | which shapes the search finds, in which order, and when it fails |
| MetricKeys, ReportKeys | which metric files are downloaded, and the key a report is written under and read from |
| Runtimes | how long a schedule keeps an instance up |
| Actions, Wrappers, Sequences, Strings, Rounding | shared types and the library operations the code relies on |

Objects that the code changes in place are classes: the days of the frequency map, the reports of a group, the
resize trend. Loops are methods proved against functions, and the lemmas are about those functions. Floats are exact
reals with an explicit round-half-even. Times of day are minutes after midnight; a timestamp is a number of minutes
after some Monday midnight. Exceptions are `None` or `Failure`.

## Findings

Each of these is stated by a lemma, with the exact condition where one exists.

- A group of day schedules need not cover all of its members when the minimum day duration is 60 minutes or less,
  because a stop at 00:00 counts as the smallest stop (`DayGrouping.AllCoveredIffLong`, `DayGrouping.WholeDayIsLost`).
- A range whose first gap is the step plus 24 hours is taken to be on the step already and not filled. That takes a
  local date of 25 hours, at the end of summer time (`TimeRanges.RangeOfADateUniformIff`, `TimeRanges.LongDateKeepsItsGap`).
- A day schedule over the whole day is given a probability of a half as soon as any shutdown later than midnight was
  counted, although no point lies outside it, because its stop at 00:00 is looked up as the first point. Schedules that
  start later are not affected on the service's data (`ScheduleProbability.ServiceProbabilityIff`,
  `ScheduleProbability.WholeDayAfterOneShutdown`; for any data `ScheduleProbability.ProbabilityIsOutsideIff`).
- A busy instance with no two neighbouring rows of one load class a step apart has no range and is told to shut down
  (`InstanceActions.QuietInstanceActions`, `InstanceActions.AlternatingLoadShutsDown`).
- A current size below one is not a bound for the range of a low load (`ResizeTrends.LowLoadCapsIff`).
- The current shape, left out of its own series, is a candidate again with its family unless changing the series is
  forbidden. It is dropped in the end, so that one of the recommended places can be lost to it
  (`ShapeTiers.CurrentShapeReturnsIff`, `ResizeService.CurrentShapeCostsAPlace`).
- A report whose schedule is too short for its group keeps the action SCHEDULE: the reset actions are stored inside
  its recommendation (`ResourceGroups.AfterActions`).
- The series prefix of an Azure name loses its last letter where the second piece of the name is letters only
  (`ShapeTiers.AzurePrefixIs`).
- Shapes whose probabilities sum to one are reported as a split even if splits are not allowed
  (`GeneralActions.SplitIsNotAskedFor`).
- An instance with keys below different paths can be reported as unchanged and downloaded in part
  (`MetricKeys.AllOrNoneIff`, `MetricKeys.PathsApart`).
- The readers do not find a key under a storage prefix that ends in a slash (`ReportKeys.ReaderListsKeyIff`).

Three properties hold only because of what their inputs are, and the boundary is stated: the generator finds a
processed day because loading fills gaps (`ScheduleService.WindowSpansADay`, `InstanceActions.GapShutsDown`), the
scaling direction is kept because thresholds do not exceed 100 (`Autoscaling.WellPlacedReserve`,
`Autoscaling.DirectionIsLostAbove100`), and an uploaded key is the report's own path because the reports folder lies
below the job's folder (`ReportKeys.FolderDoesNotRecur`, `ReportKeys.UploadKeyIff`).

## Model

| member | source | states |
|---|---|---|
| ScheduleItems.GetCommonStartStop | docker/services/schedule/schedule_item.py:69-85 | the start is the least start of the items and the stop the greatest stop by clock time, where 00:00 is the least stop of all |
| TimeTexts.TextOrder | docker/services/schedule/schedule_service.py:184-184 | sorting, comparing and looking up the printed `%H:%M` texts is the same as doing so with the times |
| TimeTexts.StartsWithHour23 | docker/services/recomendation_service.py:1038-1040 | the test `startswith('23:')` holds exactly from 23:00 on |
| TimePoints.GetDayTimePoints | docker/services/schedule/schedule_service.py:220-229 | the time points of a day are the multiples of the step, as many whole steps as fit into 24 hours |
| TimePoints.DayTimePointsAreGrid | docker/services/schedule/schedule_service.py:220-229 | for every step of 1 to 60 minutes they start at midnight, increase by one step and leave no multiple of the step out up to the last |
| TimePoints.RunsAreMaximalRuns | docker/services/schedule/frequency_map.py:83-106 | a run is found if and only if it is a stretch of two or more consecutive active grid points that cannot be extended on either side |
| TimePoints.RunsInOrder | docker/services/schedule/frequency_map.py:83-106 | the runs come in order and at least one inactive point separates any two |
| TimePoints.DroppedPointsAreIsolated | docker/services/schedule/frequency_map.py:83-106 | two neighbouring active points are always inside one run, so a dropped active point has no active neighbour |
| FrequencyMaps.SecondQuartileIsMedian | docker/services/schedule/frequency_map.py:69-71 | the threshold read off `quantiles(n=4)[1]` is a median: half of the sorted counts lie at or below it and half at or above |
| FrequencyMaps.ShutDownIff | docker/services/schedule/frequency_map.py:69-81 | from the counts alone: a point is not active exactly if 28 times its count is at least 3 times the processed days and twice its count is at least the sum of the two middle counts of the day |
| FrequencyMaps.MoreCountsShutDown | docker/services/schedule/frequency_map.py:73-81 | a point counted at least as often as one that is shut down is shut down too |
| FrequencyMaps.MostCountedIsDown | docker/services/schedule/frequency_map.py:43-81 | the point of the greatest count lies inside no day schedule, once its count reaches its share of the processed weeks |
| ScheduleCoverage.ShutDownOnIff | docker/services/schedule/schedule_service.py:116-143 | from the shutdown periods: a point is shut down on a weekday exactly if the periods spanning it reach their share of the processed weeks and twice their number the sum of the two middle numbers of the day |
| FrequencyMaps.CutIntoPeriods | docker/services/schedule/frequency_map.py:83-106 | the one-pass loop over the active points yields the runs in order, the run reaching the last point of the day with stop 00:00 |
| FrequencyMaps.PeriodsAreMaximalRuns | docker/services/schedule/frequency_map.py:83-106 | a period is returned if and only if it is a maximal run of active points, with stop 00:00 exactly for the run reaching the last point |
| FrequencyMaps.PeriodsAreDayPeriods | docker/services/schedule/frequency_map.py:83-106 | every period carries its one weekday, has both ends on the time points and ends after it starts |
| FrequencyMaps.PeriodProbabilityRange | docker/services/schedule/frequency_map.py:112-124 | a mean of recorded probabilities in the unit interval stays in it through the rounding, also when nothing is recorded outside the period |
| FrequencyMaps.FrequencyMapDay.Record | docker/services/schedule/schedule_service.py:136-141 | recording raises the count of one point by one, appends one probability there, and changes no other point |
| FrequencyMaps.FrequencyMapDay.ToDaySchedule | docker/services/schedule/frequency_map.py:83-106 | the method returns the periods characterised by PeriodsAreMaximalRuns |
| FrequencyMaps.FrequencyMapDay.AddProbability | docker/services/schedule/frequency_map.py:53-67 | each period keeps its weekdays and times and gets the rounded mean of what was recorded at the points that do not lie between its start and its stop by the clock |
| FrequencyMaps.OutsideIsOffClock | docker/services/schedule/frequency_map.py:112-124 | excluding the slice between the two looked-up positions excludes exactly the points between the two clock times |
| FrequencyMaps.OpenPeriodAveragesTheDay | docker/services/schedule/frequency_map.py:55-66 | a period open until midnight gets the mean over the whole day, without the first point where it starts there |
| ScheduleProbability.ProbabilityIsOutsideIff | docker/services/schedule/frequency_map.py:53-67 | for a run, the probability is the mean over the points outside it, whatever was recorded, if and only if the run stops before the last point of the day |
| ScheduleProbability.ServiceProbabilityIff | docker/services/schedule/frequency_map.py:53-67 | with the one probability the service records, and a processed day, it is that mean for every maximal run except one over the whole day after a shutdown later than midnight |
| ScheduleProbability.WholeDayAfterOneShutdown | docker/services/schedule/frequency_map.py:43-67 | the failing day: one shutdown on one of fourteen processed days leaves a whole-day schedule with nothing outside it and a probability of a half |
| FrequencyMaps.FrequencyMapDay.GetDaySchedule | docker/services/schedule/frequency_map.py:43-51 | the day schedule is the filled periods of the active points that last long enough, each with its probability; which points are active is ShutDownIff |
| PeriodCounters.SliceIsSpan | docker/services/schedule/schedule_service.py:128-133 | the index slice of a period holds a point if and only if the point lies in its time interval, a stop at index 0 read as the last point |
| PeriodCounters.GenerateFrequencyMap | docker/services/schedule/schedule_service.py:116-143 | every counter of the finished map equals the periods of its weekday that span its point, one count and one probability each; a time off the points is the only failure |
| PeriodCounters.CountPeriod | docker/services/schedule/schedule_service.py:133-141 | one pass of the outer loop adds one period to every counter it spans and to no other |
| PeriodCounters.CountsAreConserved | docker/services/schedule/schedule_service.py:133-141 | the counts of a weekday add up to the summed slice lengths of its periods |
| DayGrouping.GroupByDays | docker/services/schedule/schedule_service.py:182-218 | the greedy loop with its two skip tests yields one group per schedule that is similar to no earlier leader, sorted by falling duration |
| DayGrouping.SkipsIfLed | docker/services/schedule/schedule_service.py:190-194 | the two skip tests together hold exactly when the schedule is similar to an earlier leader |
| DayGrouping.SimilarIff | docker/services/schedule/schedule_item.py:44-55 | two schedules are similar exactly if both ends are 60 minutes apart at most by clock time |
| DayGrouping.LeaderStartsFirst | docker/services/schedule/schedule_service.py:184-216 | every schedule is in the group of a leader that starts no later than it does |
| DayGrouping.LongestComeFirst | docker/services/schedule/schedule_service.py:218-218 | the groups come by falling duration over all of their weekdays, a stop at 00:00 counted as the end of the day |
| DayGrouping.GroupProbabilityIs | docker/services/schedule/schedule_service.py:199-213 | the probability of a group is the mean of its members' to two decimals |
| DayGrouping.LeadersDissimilar | docker/services/schedule/schedule_service.py:189-216 | no two leaders are similar |
| DayGrouping.EveryScheduleIsLed | docker/services/schedule/schedule_service.py:189-216 | every schedule is similar to some leader |
| DayGrouping.GroupWidensLittle | docker/services/schedule/schedule_service.py:195-213 | neither end of a group is more than 7200 seconds away from the same end of any member, by clock time |
| DayGrouping.GroupCoversIffUnmixed | docker/services/schedule/schedule_service.py:195-213 | a group covers all of its members if and only if it does not mix stops at 00:00 with stops during the day |
| DayGrouping.AllCoveredIffLong | docker/services/schedule/schedule_service.py:182-218 | every list of day schedules that passed the minimum duration is covered by its groups, for all such lists, if and only if that minimum exceeds 60 minutes |
| DayGrouping.WholeDayIsLost | docker/services/schedule/schedule_service.py:195-213 | the failing inputs for 60 minutes and less: 00:00 to 01:00 and the whole day are grouped and the group stops at 01:00 |
| Sequences.SortStable | docker/services/schedule/schedule_service.py:218-218 | sorting keeps the order of elements that compare equal, as groups of the same duration do |
| DayGrouping.SameTimesMakeOneGroup | docker/services/schedule/schedule_service.py:182-218 | schedules that differ in the weekday only become a single item for all of their weekdays |
| ScheduleService.ActivePeriodSpansIff | docker/services/schedule/schedule_service.py:145-164 | a shutdown range of one date is counted at exactly the points from its first to its last row on its weekday, and at those after it if the last row is at 23:50 |
| ScheduleService.ShutdownRowsAreCounted | docker/services/schedule/schedule_service.py:97-143 | every row of a shutdown range raises the count at its own weekday and time |
| ScheduleService.GenerateDailySchedule | docker/services/schedule/schedule_service.py:166-180 | the day schedules of Monday to Sunday in order, for the number of days the rows span |
| ScheduleService.GenerateSchedule | docker/services/schedule/schedule_service.py:29-85 | the method computes the schedule function, with its two early returns, the window of recent days and the failing lookup |
| ScheduleService.GeneratedScheduleIs | docker/services/schedule/schedule_service.py:29-85 | always-on after a don't-recommend or too few covered days; otherwise an error exactly if a shutdown range of the window has its first row, or its last one unless at 23:50, off the multiples of the record step, and else the schedule of the week from the window |
| ScheduleService.CoveredDaysIff | docker/services/schedule/schedule_service.py:40-49 | the days covered are at least a number exactly from half a day before it on, a half rounded to the even number |
| ScheduleService.WindowIs | docker/services/schedule/schedule_service.py:51-58 | of a frame that covers more days than allowed, the rows from a midnight on stay, that of as many days before its last date, and a shutdown range stays whole if any row of it does |
| ScheduleService.EntriesAre | docker/services/schedule/schedule_item.py:57-67 | each entry has the weekdays and the start of its group, its stop with 23:50 for 00:00, and its probability unless that is zero |
| ScheduleService.NoCountsActivity | docker/services/schedule/frequency_map.py:69-81 | without any count all points are active if at least one day was processed and none is otherwise |
| ScheduleService.NoShutdownPeriodsSchedule | docker/services/schedule/schedule_service.py:36-85 | without shutdown periods, for every record step, the schedule is always-on, one seven-day entry from 00:00 to 23:50, or empty exactly when no whole day was processed |
| ScheduleCoverage.ActivePointsStayUp | docker/services/schedule/schedule_service.py:60-85 | from counts to entries: for a minimum duration above an hour, every point of a long enough maximal active run lies inside an entry for its weekday |
| ScheduleCoverage.EntriesStayNearRuns | docker/services/schedule/schedule_service.py:60-85 | the other half: for each of its weekdays an entry exceeds some long enough maximal active run by two hours at most at either end, and for a minimum above an hour keeps up until midnight only runs that reach it |
| ScheduleService.WindowSpansADay | docker/services/schedule/schedule_service.py:51-58 | of a frame without a gap of a day the window of recent dates keeps a rounded day at least |
| ScheduleService.GapEmptiesTheWindow | docker/services/schedule/schedule_service.py:51-58 | a frame with a gap, which loading does not produce, for which the window holds a single row |
| TimeRanges.CutRanges | docker/services/metrics_service.py:446-470 | the single pass cuts the ordered rows into exactly the segments of the tiling |
| TimeRanges.SegmentsTile | docker/services/metrics_service.py:446-470 | the segments are consecutive slices from the first row on, each of isolated rows followed by one maximal run of two or more, and no two rows of the rest are a step apart |
| TimeRanges.TilingIsUnique | docker/services/metrics_service.py:446-470 | there is no other such tiling |
| TimeRanges.LoadAtIsLatest | docker/services/metrics_service.py:475-477 | a filled grid point carries the load of the latest row at or before it |
| TimeRanges.GridIsUniform | docker/services/metrics_service.py:475-477 | resampling gives a uniform grid of the step from the first row on, up to less than a step before the last |
| TimeRanges.GetTimeRanges | docker/services/metrics_service.py:442-478 | sorting, cutting by time and resampling; filling fails exactly for a range off the step with a repeated time, and rows of distinct times give the ranges that RangeIsFilled describes row by row |
| TimeRanges.RangeIsFilled | docker/services/metrics_service.py:472-478 | each range is its own rows where their first gap is the smallest step, whole days aside, and otherwise one row a step from its first row to less than a step before its last, each with the load of the latest row at or before it |
| TimeRanges.RangeReachesItsEnd | docker/services/metrics_service.py:442-478 | filled or not, a range begins at the first row of its segment, ends less than the smallest step before the last, and carries at each time the load of the latest row of the segment at or before it |
| TimeRanges.RangeUniformIff | docker/services/metrics_service.py:472-478 | with one step option a range is a uniform grid if and only if its first gap is the step itself or differs from it by more than whole days |
| TimeRanges.RangeOfADateUniformIff | docker/services/metrics_service.py:442-478 | with one step option and rows within a local date, of 25 hours at most, a range is a uniform grid if and only if its first gap is not the step plus 24 hours |
| TimeRanges.RangesOfADayAreUniform | docker/services/metrics_service.py:442-478 | rows that span less than 24 hours and a step, so every date of 23 or 24 hours, give uniform grids of the step only |
| TimeRanges.LongDateKeepsItsGap | docker/services/metrics_service.py:472-478 | the failing input: midnight and two rows in the 25th hour of a date stay one range that is no grid |
| DayClusters.ClassifyClusters | docker/services/metrics_service.py:387-406 | in numbers: a row is in the shutdown list exactly if the first metric of its centroid is below the first threshold, in the low list from there to below the second, in the good list from there to below the third, and in the over list from the third on |
| DayClusters.ClassesPartition | docker/services/metrics_service.py:387-406 | each row of a cluster that is not empty goes to exactly one of the four lists |
| DayClusters.ClassIsSorted | docker/services/metrics_service.py:451-452 | sorting the concatenated clusters of a class gives the rows of the class in the order of the frame |
| DayClusters.ProcessDay | docker/services/metrics_service.py:373-424 | the four results are the ranges of the four classes; each begins at a row, and carries only loads of rows, whose centroid lies between the two thresholds of the class, below the first one for a shutdown range |
| DayClusters.StepOptionsIff | docker/services/metrics_service.py:408-417 | the steps are the record step and, with a threshold of days, the optimized one, narrowed to the day's own first gap if it is one of them |
| DayClusters.DateRangeUniformIff | docker/services/metrics_service.py:408-422 | for a local date that begins with an allowed step, a range of any class is a uniform grid of that step if and only if its first gap is not the step plus 24 hours |
| DayClusters.DayRangesAreUniform | docker/services/metrics_service.py:408-422 | a date of 23 or 24 hours that begins with an allowed step yields uniform ranges of that step only |
| GeneralActions.IsShutdownForbidden | docker/services/recommendation_history_service.py:252-262 | shutdown is forbidden exactly if a past shutdown was answered with don't-recommend or wrong |
| GeneralActions.GetGeneralAction | docker/services/recomendation_service.py:991-1026 | each action is in the list exactly when its own condition on status, schedule, shapes, allowed actions and feedback holds, and the list is a single action or a schedule followed by a resize |
| GeneralActions.GeneralActionIs | docker/services/recomendation_service.py:991-1026 | the list in full for every combination of status, schedule, shapes, resize action, allowed actions and feedback |
| GeneralActions.AlwaysRunIff | docker/services/recomendation_service.py:1029-1040 | a schedule always runs exactly if it is one entry of seven weekdays printed from 00:00 to a text that starts with 23: or is 00:00 |
| GeneralActions.GeneralActionIsDetermined | docker/services/recomendation_service.py:991-1026 | those conditions leave one list only |
| GeneralActions.SplitIsNotAskedFor | docker/services/recomendation_service.py:1017-1023 | shapes whose probabilities sum to one make the action a split even where splits are not allowed, and no other resize appears |
| InstanceActions.DivideOnPeriods | docker/services/metrics_service.py:300-324 | the four lists are the ranges of the four classes, day after day |
| InstanceActions.RangeLiesInItsClass | docker/services/metrics_service.py:300-324 | every range collected begins at a row of some day, and carries only loads of rows, whose centroid lies between the two thresholds of its class |
| InstanceActions.RangesOverIff | docker/services/metrics_service.py:300-324 | a class has a range if and only if two neighbouring rows of it are a step apart on some day |
| InstanceActions.QuietInstanceActions | docker/services/recomendation_service.py:166-178 | end to end, without shutdown ranges, for the settings the service accepts and a frame without a gap of a day: never a schedule, and a shutdown, where allowed, exactly if no class other than shutdown has two neighbouring rows a step apart |
| InstanceActions.UnloadedInstanceActions | docker/services/recomendation_service.py:166-167 | without a load range, whatever the shutdown ranges: no schedule, and a shutdown exactly where it is allowed and was not rejected |
| InstanceActions.AlternatingLoadShutsDown | docker/services/recomendation_service.py:166-167 | the failing input: days whose five-minute rows alternate between a low and a good cluster have no range at all and are answered with a shutdown |
| InstanceActions.NoShutdownPeriodsActions | docker/services/recomendation_service.py:168-178 | with a load range but no shutdown range, for any settings and any frame, gaps included: never a schedule, and a shutdown exactly when the window spans no whole rounded day and shutdowns are not ruled out |
| InstanceActions.GapShutsDown | docker/services/recomendation_service.py:168-178 | at that boundary: two rows twenty days apart, handed to the generator as they are, are answered with a shutdown |
| ResourceGroups.FilterResize | docker/services/resource_group_service.py:129-159 | in place, every report without an acceptable action loses shapes, savings and actions, the others stay as they are, for lists that may repeat a report |
| ResourceGroups.ResizeFilteredIs | docker/services/resource_group_service.py:129-159 | a report with a change of shape, with SCALE_UP in a group that scales up, or with SCALE_DOWN or SHUTDOWN in one that does not, stays; of any other the actions, shapes and savings go and the schedule stays |
| ResourceGroups.ResizeFilterIsIdempotent | docker/services/resource_group_service.py:129-159 | filtering the filtered reports again changes nothing |
| ResourceGroups.NothingToDiscard | docker/services/resource_group_service.py:145-156 | without SCALE_UP the filter changes no report that came from a single instance |
| Runtimes.GetRuntimeMinutes | docker/services/schedule/schedule_service.py:239-253 | the minutes from start up to stop of each entry times its weekdays, added up; a time off the five-minute points is the only failure |
| Runtimes.CoveredPoints | docker/services/schedule/schedule_service.py:246-250 | the points sliced from the start's index to the stop's make up the minutes between them, and none for a stop at 00:00 |
| ResourceGroups.FilterSchedule | docker/services/resource_group_service.py:87-127 | in place, custom schedules below 95 percent of the longest runtime are replaced, the rest is unchanged, and the order returned is custom by falling runtime, then always-run |
| ResourceGroups.ScheduleFilteredIs | docker/services/resource_group_service.py:112-125 | a custom schedule of fewer than 95 minutes for each 100 of the longest gives way to running always, with the actions in the recommendation and the savings reset; the report's own actions and shapes stay |
| ResourceGroups.LongestRunFirst | docker/services/resource_group_service.py:107-127 | the custom reports come out by falling runtime, before those that always run |
| ResourceGroups.ScheduleFilterIsIdempotent | docker/services/resource_group_service.py:107-125 | a second pass replaces nothing more although the longest schedule may have changed |
| ResourceGroups.Classify | docker/services/resource_group_service.py:68-80 | the four lists hold the idle reports once and every other report once per action of the kind |
| ResourceGroups.FilterGroup | docker/services/resource_group_service.py:61-85 | every report of the group ends as the two filters one after the other leave it, and the returned list is idle, resize, schedule and split reports in this order |
| ResourceGroups.AfterActions | docker/services/resource_group_service.py:119-125 | only the resize filter touches the actions of a report: the reset of a short schedule lands inside the recommendation |
| ResourceGroups.NoCollision | docker/services/resource_group_service.py:61-85 | for action lists of single instances, a filtered group with SCALE_UP anywhere holds no SCALE_DOWN or SHUTDOWN |
| ResourceGroups.CollisionIff | docker/services/resource_group_service.py:145-156 | for any lists, an action to discard is left exactly in reports that combine it with an acceptable one |
| ResourceGroups.NoReportIsLost | docker/services/resource_group_service.py:61-85 | every report comes out of the group filter, provided the runtime lookups succeed |
| Autoscaling.MiddleIsInsideIff | docker/services/recomendation_service.py:1312-1318 | the rounded middle lies strictly between the algorithm's thresholds if and only if they are at least two apart |
| Autoscaling.GetScaleStep | docker/services/recomendation_service.py:1320-1353 | the step is fixed or the distance to the desired count, a number in which the shape's CPU and memory no longer occur |
| Autoscaling.DesiredCountIs | docker/services/recomendation_service.py:1341-1353 | the desired count is the total load times 100 over the aim, that to two decimals, to the nearest whole instance |
| Autoscaling.SizeCancels | docker/services/recomendation_service.py:1337-1349 | the size of the shape cancels from the required instances |
| Autoscaling.HighLoadNeedsNoFewer | docker/services/recomendation_service.py:1341-1353 | a mean load at or above the upper threshold never asks for fewer instances, through both roundings |
| Autoscaling.LowLoadNeedsNoMore | docker/services/recomendation_service.py:1341-1353 | a mean load at or below the lower threshold never asks for more, through both roundings |
| Autoscaling.WellPlacedReserve | docker/services/recomendation_service.py:1341-1343 | for whole thresholds in order up to 100 the rounded reserve makes the upper threshold worth at least one instance and the lower at most one |
| Autoscaling.HighLoadDirectionIff | docker/services/recomendation_service.py:1274-1288 | for loads of any number and size, a high load keeps its direction if and only if the upper threshold times the rounded reserve is worth a full instance |
| Autoscaling.LowLoadDirectionIff | docker/services/recomendation_service.py:1274-1288 | likewise a low load keeps its direction if and only if the lower threshold times the rounded reserve is worth at most a full instance |
| Autoscaling.DirectionIsLostAbove100 | docker/services/recomendation_service.py:1341-1353 | thresholds in order alone are not enough: 159, 160 and 161, which the settings do not accept, lose the direction of a high load |
| Autoscaling.GetScaleAction | docker/services/recomendation_service.py:1255-1288 | with thresholds in the policy SCALE_DOWN exactly up to its minimum and SCALE_UP exactly from its maximum on and above the minimum, without them by the two limits of the algorithm; the step is the policy's number or the distance to the count for the aim, which is the policy's desired load or the even-rounded middle of the limits |
| Autoscaling.GuardKeepsOneIff | docker/services/recomendation_service.py:463-474 | after the guard scaling down leaves between one and all instances if and only if the step is not negative |
| Autoscaling.GuardedCountIs | docker/services/recomendation_service.py:463-474 | a step that would take the whole group stops at one instance if it is auto-detected and is dropped otherwise; a smaller one is taken |
| Autoscaling.ScaleGroup | docker/services/recomendation_service.py:455-474 | with an auto-detected step the group is resized to the desired count for its aim, never below one, down up to the lower limit and up from the upper one, both limits the policy's own where it has them |
| InstanceTypes.FindNonMatching | docker/services/recomendation_service.py:1124-1168 | a target is returned exactly when one type outnumbers every other, with its resources; target and non-matching resources are a permutation of all |
| InstanceTypes.TargetIsUnique | docker/services/recomendation_service.py:1124-1168 | at most one type outnumbers every other |
| InstanceTypes.TieMeansNone | docker/services/recomendation_service.py:1155-1161 | a tie with the first of the sorted types means that no type outnumbers every other |
| MetricKeys.FilterKeysByOccurrenceCount | docker/services/storage_service.py:329-349 | an instance keeps all of its keys, in order, if it has enough of them and is listed as insufficient with all of them otherwise |
| MetricKeys.FilterKeysWithoutUpdates | docker/services/storage_service.py:351-379 | for every instance the kept keys are its well-formed keys, largest first, from the first one dated after the captured date on; it is unchanged exactly if its largest key is not |
| MetricKeys.AllOrNoneIff | docker/services/storage_service.py:357-376 | for every captured date all keys are kept if one is newer and none otherwise, if and only if the largest key has the newest date |
| MetricKeys.SharedPathKeepsAllOrNone | docker/services/storage_service.py:357-376 | an instance whose well-formed keys share their path up to a zero-padded date keeps all of them or none, whatever its captured date |
| MetricKeys.PaddedDatesOrder | docker/services/storage_service.py:382-387 | zero-padded dates are ordered as strings exactly as they are as dates |
| MetricKeys.DateIsReadIff | docker/services/storage_service.py:382-386 | a date folder is read exactly if the day exists in the calendar, leap years included |
| MetricKeys.KeyParts | docker/services/storage_service.py:382-386 | the instance is the file name without its extension and the day the folder above |
| MetricKeys.SelectKeys | docker/services/storage_service.py:157-175 | with past recommendations and enough files: a key is downloaded exactly if some key of its instance, at or above it in the order of the strings, is dated after the capture of the first past recommendation, and an instance is unchanged exactly if its largest key is not; the last step takes no insufficient instance out because none is there |
| MetricKeys.ExactlyOneIff | docker/services/storage_service.py:157-175 | an instance with enough well-formed keys is unchanged or downloaded, and never both whatever the captured date if and only if its largest key has the newest date |
| MetricKeys.ExactlyOneOutcome | docker/services/storage_service.py:157-175 | an instance with well-formed keys below one path is exactly one of insufficient, unchanged and downloaded, whatever its captured date |
| MetricKeys.PathsApart | docker/services/storage_service.py:357-376 | two keys with different paths for which one instance is reported unchanged and downloaded in part |
| ReportKeys.UploadKeyIff | docker/services/storage_service.py:218-239 | the uploaded key is the report's path below the job's folder if and only if the reports folder does not come up in that path again |
| ReportKeys.UploadsStayApart | docker/services/storage_service.py:233-242 | no upload overwrites another: the reports of different places get different keys |
| ReportKeys.UploadReports | docker/services/storage_service.py:218-242 | the reports of different places, written and uploaded one by one, get different keys, each of them the prefix, job, customer, cloud, tenant and file named after the region, from which both readers recover their places |
| ReportKeys.ReportPathIs | docker/services/recomendation_service.py:716-720 | the report is written below customer, cloud and tenant in a file named after the region |
| ReportKeys.ReportKeyRoundTrip | src/services/storage_service.py:261-274 | unless the reports folder recurs, both readers recover customer, cloud, tenant and region from the uploaded key if and only if the region does not contain `.jsonl` |
| ReportKeys.FolderDoesNotRecur | docker/services/os_service.py:19-46 | a reports folder below the job's folder does not recur unless the job id is also the customer, the cloud or the tenant |
| ReportKeys.JobReportRoundTrip | docker/services/storage_service.py:218-239 | what the executor uploads from its own reports folder, both readers recover |
| ReportKeys.ParseFromRightOfKey | src/services/report_service.py:96-101 | reading the key from the right recovers the four whatever folders come before them |
| ReportKeys.ReaderListsKeyIff | src/services/storage_service.py:123-133 | the readers' listing prefix starts the written key if and only if the storage prefix does not end in a slash |
| ReportKeys.FilterResultFiles | src/services/storage_service.py:247-259 | exactly the keys whose four values match every given filter value are kept, and one key with too few folders fails the whole call |
| ReportKeys.GetDownloadReport | src/services/report_service.py:88-117 | the loop returns the parsed places of the keys that match customer, tenant and region |
| ReportKeys.UploadedKeyIsSelected | src/services/storage_service.py:247-259 | a key is kept exactly if each of the four filter values is empty or the written one |
| ResizeTrends.ResultDirection | docker/services/resize/resize_trend.py:136-151 | with data, the direction is negative exactly below 30 and positive exactly above 70, one of five values, and of magnitude one exactly up to 20 and from 80 on |
| ResizeTrends.ResizeTrend.AddMetricTrend | docker/services/resize/resize_trend.py:33-47 | adds one entry with its direction and keeps every entry's direction in line with its threshold |
| ResizeTrends.ResizeTrend.DiscardOptionalRequirements | docker/services/resize/resize_trend.py:49-64 | the assignments, some of them to one entry that absent metrics share, leave the state the lemma below describes |
| ResizeTrends.DiscardedIs | docker/services/resize/resize_trend.py:49-64 | sharing one entry does no harm: disk and network end without direction, CPU and memory as if each had its own entry, and one threshold alone becomes 60, that of CPU where its low load stands against a high memory load and that of memory otherwise |
| ResizeTrends.DiscardedKeepsData | docker/services/resize/resize_trend.py:49-64 | no mean and no percentile changes |
| ResizeTrends.RangeIsOrdered | docker/services/resize/resize_trend.py:97-122 | the minimum of a range never exceeds its maximum and is at least one |
| ResizeTrends.RangeIs | docker/services/resize/resize_trend.py:97-122 | in numbers: the load of five percent at least is 70 percent of the minimum and 30 percent of the maximum, neither below one and both to two decimals |
| ResizeTrends.RangeFollowsLoad | docker/services/resize/resize_trend.py:97-122 | through the raising to one and both roundings, a low load caps the range at the current size, a high load starts it there, and a load in between keeps the current size inside |
| ResizeTrends.LowLoadCapsIff | docker/services/resize/resize_trend.py:114-122 | every low load caps the range at the current size if and only if that size is at least one |
| ResizeTrends.ResizeActionOf | docker/services/resize/resize_trend.py:67-86 | each action exactly under its condition on the four directions, written out: none where CPU and memory have none and network and disk do not point up |
| ResizeService.SuitableFollowsTrend | docker/services/resize/resize_service.py:379-411 | a strictly suitable shape is no larger than the current one on a metric that points down and no smaller on one that points up |
| ResizeService.CalculateShapeProbability | docker/services/resize/resize_service.py:194-217 | the probability is the rounded mean over the metrics known for both shapes; with no such metric the division fails |
| ResizeService.ProbabilityIsShare | docker/services/resize/resize_service.py:194-229 | it is a share between zero and one |
| ResizeService.SameDataSameProbability | docker/services/resize/resize_service.py:194-217 | it does not change when requirements are discarded |
| ResizeService.FindSuitableShapes | docker/services/resize/resize_service.py:379-411 | the shapes of all tiers, tier by tier, that satisfy every range present |
| ResizeService.RemoveShapeDuplicates | docker/services/resize/resize_service.py:231-239 | the first occurrence of each entry, cut to the maximum |
| ResizeService.RecommendSize | docker/services/resize/resize_service.py:35-192 | the method computes the recommendation that the lemmas of ResizeResults describe, and relaxes the trend exactly when too few strict matches are found; it recurses at most once |
| ResizeService.RecommendationIsSound | docker/services/resize/resize_service.py:35-192 | except for splits: at most the maximum, pairwise distinct names, every shape passes rules, compatibility and feedback, strict matches form a prefix ahead of relaxed ones, and a short result holds every strict match |
| ResizeResults.RelaxedMatchesAreFound | docker/services/resize/resize_service.py:140-176 | where the relaxed trend asks for a resize, a result short of both limits holds exactly the listed shapes that suit the strict or the relaxed requirements, so it is empty only if none suits either |
| ResizeResults.EnoughStrictMatches | docker/services/resize/resize_service.py:154-192 | enough strict matches are the result, as many as asked for, without relaxing; for a split each has the share of the load as its probability |
| ResizeResults.NoResizeNeeded | docker/services/resize/resize_service.py:35-60 | without need for a resize a split gives the current shape and anything else nothing |
| ResizeResults.RecommendationFailsIff | docker/services/resize/resize_service.py:35-192 | the call raises exactly if the shapes cannot be listed or a shape found, strictly or in a relaxed pass that takes place, shares no metric |
| ResizeResults.StrictMatchesByTier | docker/services/resize/resize_service.py:379-411 | strict matches come by tier, the customer's choice before series, family and others, and within the last three by CPU, then memory |
| ResizeResults.ListedIff | docker/services/resize/resize_service.py:432-463 | a shape is tried exactly if it passes the filters and, where a flag is set, is of the customer's choice, of the series, or, unless changing the series is forbidden, of the family |
| ResizeResults.SuitsIff | docker/services/resize/resize_service.py:379-411 | CPU and memory lie within their ranges, network and disk reach their minimum where the trend has a direction and the current shape the number |
| ResizeResults.MetricProbabilityIs | docker/services/resize/resize_service.py:219-229 | on one metric, the share of percentiles that would load the shape by 30 to 70 percent, to the nearest percent |
| ResizeResults.ProbabilityIs | docker/services/resize/resize_service.py:194-217 | the mean, to two decimals, over the metrics of CPU, memory, network and disk that have load data and a size in both shapes |
| ShapeFeedback.ApplyAdjustment | docker/services/resize/resize_service.py:271-287 | the handlers run one after the other; a size complaint without numbers fails |
| ShapeFeedback.AdjustedMembers | docker/services/resize/resize_service.py:271-351 | a shape is left exactly if it passes every single feedback, whatever their order |
| ShapeFeedback.SizePassesIff | docker/services/resize/resize_service.py:289-339 | after TOO_SMALL a shape is left exactly if it is at least as large as each of the first three past shapes and larger than all of them in CPU or in memory, after TOO_LARGE the reverse |
| ShapeFeedback.OtherAnswers | docker/services/resize/resize_service.py:271-351 | don't-recommend leaves nothing, a wrong shape leaves out the names of the first three, and a size complaint fails exactly if they carry no CPU or no memory |
| ShapeTiers.DivideByPriority | docker/services/resize/resize_service.py:413-463 | the four tiers, or the failure for an Azure name without an underscore |
| ShapeTiers.OwnSeriesIff | docker/services/resize/resize_service.py:465-477 | the series prefix of a name starts that name itself, except for an AWS name without a dot |
| ShapeTiers.SeriesPrefixIs | docker/services/resize/resize_service.py:465-477 | for AWS the name up to and with its first dot, for Google up to its first hyphen |
| ShapeTiers.AzurePrefixIs | docker/services/resize/resize_service.py:465-477 | for Azure the first piece with the letters the second one starts with, of which the last is left out where the piece has nothing else |
| ShapeTiers.PrioritisedIff | docker/services/resize/resize_service.py:421-431 | the customer's choice is what a prioritising rule of the cloud matches, and everything where the cloud has rules of which none prioritises |
| ShapeTiers.TiersPartition | docker/services/resize/resize_service.py:432-463 | with neither flag set, series, family and others partition the names of the list and each is sorted by CPU, then memory |
| ShapeTiers.TiersAreSizes | docker/services/resize/resize_service.py:413-463 | no tier holds a shape that is not on the list |
| ShapeTiers.CurrentShapeReturnsIff | docker/services/resize/resize_service.py:432-463 | without a split the current shape is never in its own series, and is in its family, and so among the three tiers, if and only if changing the series is not forbidden |
| ResizeService.CleanupRecommendedShapes | docker/services/recomendation_service.py:1069-1083 | each shape once, and the current one only for a split |
| ResizeService.CurrentShapeCostsAPlace | docker/services/recomendation_service.py:228-232 | the current shape never comes out of a recommendation that is no split, and one shape less comes out exactly if it had been recommended |
| ShapeRules.GetAllowedInstanceTypes | docker/services/customer_preferences_service.py:34-56 | the loops compute the shapes the allow and deny rules leave |
| ShapeRules.AllowedMembers | docker/services/customer_preferences_service.py:34-83 | a shape is left exactly if there is no allow rule or one matches it, and no deny rule matches it |
| ShapeRules.RuleOrderIsIrrelevant | docker/services/customer_preferences_service.py:34-83 | the same rules in any order and number leave the same shapes |
| ShapeRules.ProcessSelectingFilters | docker/services/customer_preferences_service.py:58-68 | without rules every shape passes, otherwise the matches of each rule in turn |
| ShapeRules.ProcessExcludeFilters | docker/services/customer_preferences_service.py:70-83 | the shapes whose name no deny rule's match carries |
| ShapeRules.ApplyCompatibilityFilter | docker/services/resize/shape_compatibility_filter.py:16-66 | the shapes compatible with the current one under the chosen rule, in order |
| ShapeRules.SameIsCompatible | docker/services/resize/shape_compatibility_filter.py:24-66 | whatever the same-shape rule keeps, the compatibility rule keeps |
| ShapeRules.RulesAgreeIff | docker/services/resize/shape_compatibility_filter.py:24-91 | the two rules agree on all shapes if and only if the current shape is of neither Intel nor AMD |
| ShapeRules.CompatibleIff | docker/services/resize/shape_compatibility_filter.py:24-91 | in the texts of the shapes: an architecture of 32 or of 64 bits, not both, must be the same, and so must a known manufacturer, where the weaker rule takes Intel and AMD for each other |

## Left out

- Clients for storage, parameter, license and notification services, the database queries, the command line, logging
  and profiling: input and output around the modelled logic.
- K-means, knee detection, CSV reading, timezone conversion and the computation of column quantiles: cluster labels,
  centroids, thresholds and percentiles are inputs.
- The field, condition and value of a shape rule: a rule is a predicate on shapes.
- Binary floating point error: reals are exact.
- Shapes without CPU or memory, on which sorting the tiers raises.
- Variants of dates that `strptime` also accepts: a day with a leading blank, and digits outside ASCII.
- Listing the reports folder on disk: the paths found there are taken as written.
- Timestamps finer than a minute, and dates of 23 or 25 hours in the schedule generator, where every date has 24 hours.
- The upload's filter by the tenant folder of a path.
- Several load trends of one instance: the comparison that drops equal trends, and the split action they stand for.
- Prices, savings, history items and the final sorting of shapes, which do not change the modelled choices.
- The stored form of a report, which keeps the five schedule entries of least weight.
- ResizeTrends.ResizeTrend.AddMetricTrend: takes the mean, threshold and percentiles as inputs instead of a column.
- FrequencyMaps.FrequencyMapDay.Record: the counter of a point is a value replaced in the day's map, so that two points
  sharing one counter object, which the code never creates, cannot be expressed.
- ResizeService.RecommendationIsSound: says nothing of splits, whose two passes set the probability of a shape differently;
  what is found for a split is in ResizeResults.EnoughStrictMatches and ResizeResults.RelaxedMatchesAreFound.
- ResourceGroups.FilterGroup: a report of several actions is returned once for each of them, and nothing is said of the
  history items that are synchronised afterwards.
- TimePoints.GetDayTimePoints: steps of 1 to 60 minutes only, the range the settings allow.
- TimeRanges.GetTimeRanges: sorts rows of one timestamp stably, an order pandas does not promise for its default sort.
- ReportKeys.UploadKeyIff: the reports folder is a path of two characters or more without a slash at its end, as the
  executor builds it.
