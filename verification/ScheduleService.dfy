/** The schedule generator: from a load frame and its shutdown periods to grouped weekly schedules.

    A timestamp is a number of minutes after some Monday midnight in the frame's own time zone. */
module ScheduleService {
  import opened Wrappers
  import Actions
  import opened ScheduleItems
  import opened TimePoints
  import opened FrequencyMaps
  import opened PeriodCounters
  import opened DayGrouping
  import Rounding
  import Sequences

  datatype ScheduleSettings = ScheduleSettings(
    recordStepMinutes: int, minAllowedDays: int, maxAllowedDays: int, minScheduleDayDuration: int)

  function DateOf(t: int): int {
    t / MINUTES_IN_DAY
  }

  function TimeOf(t: int): (m: Minute) {
    t % MINUTES_IN_DAY
  }

  function WeekdayOf(t: int): (d: Weekday) {
    DateOf(t) % 7
  }

  /** `df.index.min()` */
  function Earliest(rows: seq<int>): (t: int)
    requires rows != []
    ensures t in rows && forall r | r in rows :: t <= r
  {
    if |rows| == 1 then rows[0]
    else
      var t := Earliest(rows[1..]);
      assert rows == [rows[0]] + rows[1..];
      if rows[0] < t then rows[0] else t
  }

  /** `df.index.max()` */
  function Latest(rows: seq<int>): (t: int)
    requires rows != []
    ensures t in rows && forall r | r in rows :: r <= t
  {
    if |rows| == 1 then rows[0]
    else
      var t := Latest(rows[1..]);
      assert rows == [rows[0]] + rows[1..];
      if rows[0] > t then rows[0] else t
  }

  /** The days between the first and the last row, rounded. */
  function CoveredDays(rows: seq<int>): (days: int)
    requires rows != []
  {
    Rounding.Round((Latest(rows) - Earliest(rows)) as real / MINUTES_IN_DAY as real)
  }

  type Rows = r: seq<int> | r != [] witness [0]

  /** `_get_active_schedule_period`: a period reaching 23:50 is taken to the end of the day. */
  function ActivePeriod(rows: Rows): ActiveSchedulePeriod {
    var timeTo := TimeOf(Latest(rows));
    ActiveSchedulePeriod(WeekdayOf(Earliest(rows)), TimeOf(Earliest(rows)),
                         if timeTo == LAST_POINT_TEXT then 0 else timeTo, "shutdown", 0.5)
  }

  function ActivePeriods(shutdownPeriods: seq<Rows>): (periods: seq<ActiveSchedulePeriod>)
    ensures |periods| == |shutdownPeriods|
    ensures forall i | 0 <= i < |periods| :: periods[i] == ActivePeriod(shutdownPeriods[i])
  {
    Sequences.Map(shutdownPeriods, r => ActivePeriod(r))
  }

  /** A range of rows of one date, as the period splitter returns them. */
  ghost predicate IsRangeOfADate(rows: Rows) {
    Earliest(rows) < Latest(rows) && DateOf(Earliest(rows)) == DateOf(Latest(rows))
  }

  /** Rounding 23:50 up to midnight only ever adds points after it: the period spans the times from its first
      to its last row, and the rest of the day if that last row is at 23:50. */
  lemma ActivePeriodSpansIff(rows: Rows, weekday: Weekday, p: Minute, lastPoint: Minute)
    requires IsRangeOfADate(rows) && p <= lastPoint
    ensures Spanning(ActivePeriod(rows), weekday, p, lastPoint) <==>
            && weekday == WeekdayOf(Earliest(rows))
            && TimeOf(Earliest(rows)) <= p
            && (p <= TimeOf(Latest(rows)) || TimeOf(Latest(rows)) == LAST_POINT_TEXT)
  {
    hide Earliest, Latest;
  }

  lemma TimesOfADate(a: int, b: int)
    requires a <= b && DateOf(a) == DateOf(b)
    ensures TimeOf(a) <= TimeOf(b) && WeekdayOf(a) == WeekdayOf(b)
  {}

  /** Every shutdown row raises the count of its own weekday and time. */
  lemma ShutdownRowsAreCounted(shutdownPeriods: seq<Rows>, i: nat, t: int, points: seq<Minute>)
    requires i < |shutdownPeriods| && IsRangeOfADate(shutdownPeriods[i]) && t in shutdownPeriods[i]
    requires points != [] && TimeOf(t) <= points[|points| - 1]
    ensures var lastPoint := points[|points| - 1];
            CounterAt(ActivePeriods(shutdownPeriods), WeekdayOf(t), TimeOf(t), lastPoint, "shutdown").count >= 1
  {
    var rows := shutdownPeriods[i];
    hide Earliest, Latest, TimeOf, WeekdayOf, Spanning, ActivePeriod;
    DatesBetween(Earliest(rows), t, Latest(rows));
    TimesOfADate(Earliest(rows), t);
    TimesOfADate(t, Latest(rows));
    ActivePeriodSpansIff(rows, WeekdayOf(t), TimeOf(t), points[|points| - 1]);
    assert ActivePeriods(shutdownPeriods)[i] == ActivePeriod(rows);
    assert ActivePeriod(rows) in
           SpanningPeriods(ActivePeriods(shutdownPeriods), WeekdayOf(t), TimeOf(t), points[|points| - 1]);
  }

  lemma DatesBetween(a: int, t: int, b: int)
    requires a <= t <= b && DateOf(a) == DateOf(b)
    ensures DateOf(t) == DateOf(a)
  {}

  predicate IsScheduleDisabled(past: seq<Actions.Feedback>) {
    exists r | r in past :: r.recommendation == Actions.Action.Schedule && r.status == Actions.DontRecommend
  }

  const ALWAYS_RUN: seq<ScheduleEntry> := [ScheduleEntry(WEEK_DAYS, 0, 0, None)]

  // ----- the schedule of a week as a function of its periods

  function CountersOf(periods: seq<ActiveSchedulePeriod>, weekday: Weekday, points: seq<Minute>): (items: PointMap)
    requires points != []
    ensures forall p :: p in items <==> p in points
  {
    map p: Minute | p in points :: CounterAt(periods, weekday, p, points[|points| - 1], "shutdown")
  }

  function WeekdaySchedules(periods: seq<ActiveSchedulePeriod>, weekday: Weekday, step: int,
                            processedDays: int, minimumDuration: int): seq<DaySchedule>
    requires 1 <= step <= MAX_STEP
  {
    var points := DayTimePoints(step);
    DayTimePointsAreGrid(step);
    DaySchedules(CountersOf(periods, weekday, points), points, step, weekday, processedDays, minimumDuration)
  }

  /** The schedules of the first `n` weekdays, Monday first. */
  function DailySchedules(periods: seq<ActiveSchedulePeriod>, n: nat, step: int,
                          processedDays: int, minimumDuration: int): seq<DaySchedule>
    requires n <= 7 && 1 <= step <= MAX_STEP
  {
    if n == 0 then []
    else DailySchedules(periods, n - 1, step, processedDays, minimumDuration)
         + WeekdaySchedules(periods, n - 1, step, processedDays, minimumDuration)
  }

  function Entries(items: seq<ScheduleItem>): (entries: seq<ScheduleEntry>)
    requires forall s | s in items :: s.stop.Some? && s.probability.Some?
    ensures |entries| == |items|
    ensures forall i | 0 <= i < |items| :: entries[i] == AsEntry(items[i])
  {
    assert forall i | 0 <= i < |items| :: items[i] in items;
    seq(|items|, i requires 0 <= i < |items| => AsEntry(items[i]))
  }

  lemma GroupedAreFilled(ds: seq<DaySchedule>)
    ensures forall s | s in GroupedByDays(ds) :: s.stop.Some? && s.probability.Some?
  {
    forall s | s in GroupedByDays(ds) ensures s.stop.Some? && s.probability.Some? {
      var l := ResultIsLeadersGroup(ds, s);
    }
  }

  function WeekSchedule(periods: seq<ActiveSchedulePeriod>, step: int, processedDays: int, minimumDuration: int)
    : seq<ScheduleEntry>
    requires 1 <= step <= MAX_STEP
  {
    var ds := DailySchedules(periods, 7, step, processedDays, minimumDuration);
    GroupedAreFilled(ds);
    Entries(GroupedByDays(ds))
  }

  /** What is printed of a group: its weekdays and start, its stop with 23:50 for midnight, and its probability
      unless that is zero. */
  lemma EntriesAre(periods: seq<ActiveSchedulePeriod>, step: int, processedDays: int, minimumDuration: int)
    requires 1 <= step <= MAX_STEP
    ensures var groups := GroupedByDays(DailySchedules(periods, 7, step, processedDays, minimumDuration));
            var entries := WeekSchedule(periods, step, processedDays, minimumDuration);
            && |entries| == |groups|
            && forall i | 0 <= i < |groups| ::
                 && groups[i].stop.Some? && groups[i].probability.Some?
                 && entries[i].weekdays == groups[i].weekdays && entries[i].start == groups[i].start
                 && entries[i].stop == (if groups[i].stop.value == 0 then 23 * 60 + 50 else groups[i].stop.value)
                 && (entries[i].probability.None? <==> groups[i].probability.value == 0.0)
                 && (entries[i].probability.Some? ==> entries[i].probability == groups[i].probability)
  {
    hide DailySchedules, GroupedByDays;
    var ds := DailySchedules(periods, 7, step, processedDays, minimumDuration);
    GroupedAreFilled(ds);
    assert forall i | 0 <= i < |GroupedByDays(ds)| :: GroupedByDays(ds)[i] in GroupedByDays(ds);
  }

  /** The rows and periods left after dropping the dates before the window. */
  function RecentRows(rows: Rows, maxDays: int): (recent: Rows)
    requires maxDays >= 0
    ensures forall t | t in recent :: t in rows
    ensures Latest(rows) in recent
  {
    if CoveredDays(rows) <= maxDays then rows
    else Sequences.Filter(rows, t => DateOf(t) >= DateOf(Latest(rows)) - maxDays)
  }

  function RecentPeriods(shutdownPeriods: seq<Rows>, rows: Rows, maxDays: int): seq<Rows> {
    if CoveredDays(rows) <= maxDays then shutdownPeriods
    else Sequences.Filter(shutdownPeriods, (p: Rows) => DateOf(Latest(p)) >= DateOf(Latest(rows)) - maxDays)
  }

  // ----- the methods

  method GetActiveSchedulePeriods(shutdownPeriods: seq<Rows>) returns (periods: seq<ActiveSchedulePeriod>)
    ensures periods == ActivePeriods(shutdownPeriods)
  {
    periods := [];
    for i := 0 to |shutdownPeriods|
      invariant |periods| == i && forall k | 0 <= k < i :: periods[k] == ActivePeriod(shutdownPeriods[k])
    {
      periods := periods + [ActivePeriod(shutdownPeriods[i])];
    }
  }

  method GenerateDailySchedule(map_: FrequencyMap, rows: Rows, minimumDuration: int, ghost step: int,
                               ghost periods: seq<ActiveSchedulePeriod>)
    returns (schedules: seq<DaySchedule>)
    requires 1 <= step <= MAX_STEP && Counts(map_, DayTimePoints(step), step, "shutdown", periods)
    ensures schedules == DailySchedules(periods, 7, step, CoveredDays(rows), minimumDuration)
  {
    var processedDays := CoveredDays(rows);
    schedules := [];
    for day := 0 to 7
      invariant schedules == DailySchedules(periods, day, step, processedDays, minimumDuration)
    {
      var scheduleDay := map_.days[day].GetDaySchedule(processedDays, minimumDuration);
      DayCountersAre(map_.days[day].items, map_.days[day].timePoints, day, periods);
      schedules := schedules + scheduleDay;
    }
  }

  lemma DayCountersAre(items: PointMap, points: seq<Minute>, weekday: Weekday, periods: seq<ActiveSchedulePeriod>)
    requires DayCounts(items, points, weekday, "shutdown", periods) && forall p :: p in items <==> p in points
    ensures items == CountersOf(periods, weekday, points)
  {}

  method GenerateSchedule(settings: ScheduleSettings, shutdownPeriods: seq<Rows>, rows: Rows,
                          past: seq<Actions.Feedback>)
    returns (schedule: Option<seq<ScheduleEntry>>)
    requires 1 <= settings.recordStepMinutes <= MAX_STEP && settings.maxAllowedDays >= 0
    ensures schedule == GeneratedSchedule(settings, shutdownPeriods, rows, past)
  {
    hide CoveredDays, RecentRows, RecentPeriods, DailySchedules, GroupedByDays, IsScheduleDisabled, OnPoints,
         DayTimePoints, Counts, CountersOf, ALWAYS_RUN;
    if IsScheduleDisabled(past) {
      return Some(ALWAYS_RUN);
    }
    var coveredDays := CoveredDays(rows);
    if coveredDays < settings.minAllowedDays {
      return Some(ALWAYS_RUN);
    }
    var recentRows := RecentRows(rows, settings.maxAllowedDays);
    var recentPeriods := RecentPeriods(shutdownPeriods, rows, settings.maxAllowedDays);
    var periods := GetActiveSchedulePeriods(recentPeriods);
    var frequencyMap := GenerateFrequencyMap(periods, "shutdown", settings.recordStepMinutes);
    if frequencyMap.None? {
      return None;
    }
    var daySchedules := GenerateDailySchedule(frequencyMap.value, recentRows, settings.minScheduleDayDuration,
                                              settings.recordStepMinutes, periods);
    var grouped := GroupByDays(daySchedules);
    GroupedAreFilled(daySchedules);
    schedule := Some(Entries(grouped));
  }

  /** `generate_schedule`; None where a shutdown period begins or ends off the day's time points. */
  function GeneratedSchedule(settings: ScheduleSettings, shutdownPeriods: seq<Rows>, rows: Rows,
                             past: seq<Actions.Feedback>)
    : Option<seq<ScheduleEntry>>
    requires 1 <= settings.recordStepMinutes <= MAX_STEP && settings.maxAllowedDays >= 0
  {
    if IsScheduleDisabled(past) || CoveredDays(rows) < settings.minAllowedDays then Some(ALWAYS_RUN)
    else
      var recentRows := RecentRows(rows, settings.maxAllowedDays);
      var periods := ActivePeriods(RecentPeriods(shutdownPeriods, rows, settings.maxAllowedDays));
      var points := DayTimePoints(settings.recordStepMinutes);
      if exists q | q in periods :: !OnPoints(q, points) then None
      else
        var processedDays := CoveredDays(recentRows);
        Some(WeekSchedule(periods, settings.recordStepMinutes, processedDays, settings.minScheduleDayDuration))
  }

  // ----- the outcome in numbers

  lemma RoundReachesIff(x: real, n: int)
    ensures Rounding.Round(x) >= n <==> if n % 2 == 0 then x >= n as real - 0.5 else x > n as real - 0.5
  {
    if x == n as real - 0.5 {
      assert x.Floor == n - 1;
    } else if x > n as real - 0.5 {
      assert x.Floor >= n - 1;
    }
  }

  /** The covered days from the two outermost rows: half a day more or less decides, and of two whole
      numbers equally near the even one is taken. */
  lemma CoveredDaysIff(rows: Rows, first: int, last: int, days: int)
    requires first in rows && last in rows && forall t | t in rows :: first <= t <= last
    ensures CoveredDays(rows) >= days <==>
            if days % 2 == 0 then last - first >= days * 1440 - 720 else last - first > days * 1440 - 720
  {
    hide Earliest, Latest, Rounding.Round;
    assert Earliest(rows) == first && Latest(rows) == last;
    RoundReachesIff((last - first) as real / 1440.0, days);
  }

  /** A frame covering more days than allowed keeps the rows from a midnight on, that of as many days before
      its last date. A shutdown period is kept whole if any of its rows is late enough. */
  lemma WindowIs(shutdownPeriods: seq<Rows>, rows: Rows, maxDays: int, last: int)
    requires maxDays >= 0 && last in rows && forall t | t in rows :: t <= last
    ensures var midnight := (last / 1440 - maxDays) * 1440;
            && (forall t :: t in RecentRows(rows, maxDays) <==>
                            t in rows && (CoveredDays(rows) <= maxDays || t >= midnight))
            && (forall p :: p in RecentPeriods(shutdownPeriods, rows, maxDays) <==>
                            && p in shutdownPeriods
                            && (CoveredDays(rows) <= maxDays || exists t :: t in p && t >= midnight))
  {
    hide CoveredDays, Earliest, Latest;
    assert Latest(rows) == last;
    forall p: Rows ensures (exists t :: t in p && t >= (last / 1440 - maxDays) * 1440) <==>
                           Latest(p) >= (last / 1440 - maxDays) * 1440 {}
  }

  /** A whole number of steps after midnight, with room for one more. */
  ghost predicate IsPoint(m: int, step: int) {
    step >= 1 && m % step == 0 && m + step <= MINUTES_IN_DAY
  }

  lemma PointsAreSteps(step: int, m: Minute)
    requires 1 <= step <= MAX_STEP
    ensures m in DayTimePoints(step) <==> IsPoint(m, step)
  {
    var n := PointCount(step);
    if m in DayTimePoints(step) {
      var i :| 0 <= i < n && DayTimePoints(step)[i] == m;
      MultipleIsWhole(i, n, step);
    }
    if IsPoint(m, step) {
      WholeIsMultiple(m, n, step);
      assert DayTimePoints(step)[m / step] == m;
    }
  }

  lemma MultipleIsWhole(i: nat, n: nat, step: int)
    requires step >= 1 && i < n && n * step <= MINUTES_IN_DAY
    ensures i * step % step == 0 && i * step + step <= MINUTES_IN_DAY
  {
    ProductIsNat(n - 1 - i, step);
    assert (n - 1 - i) * step == n * step - step - i * step;
    NoRemainder(i * step, i, step);
  }

  lemma NoRemainder(m: int, i: int, step: int)
    requires step >= 1 && m == i * step
    ensures m % step == 0
  {
    var q, r := m / step, m % step;
    assert (i - q) * step == r;
    if i != q {
      ProductIsNat(Rounding.Abs(i - q) - 1, step);
    }
  }

  lemma WholeIsMultiple(m: Minute, n: nat, step: int)
    requires IsPoint(m, step) && MINUTES_IN_DAY < n * step + step
    ensures m / step * step == m && m / step < n
  {
    var i := m / step;
    assert i * step == m;
    if i >= n {
      ProductIsNat(i - n, step);
    }
  }

  /** The first row, and the last one unless it is at 23:50, lie on the points of the day. */
  ghost predicate FitsSteps(rows: Rows, step: int) {
    && IsPoint(Earliest(rows) % 1440, step)
    && (Latest(rows) % 1440 == 1430 || IsPoint(Latest(rows) % 1440, step))
  }

  lemma FitsStepsIff(rows: Rows, step: int)
    requires 1 <= step <= MAX_STEP
    ensures OnPoints(ActivePeriod(rows), DayTimePoints(step)) <==> FitsSteps(rows, step)
  {
    hide Earliest, Latest, DayTimePoints;
    PointsAreSteps(step, Earliest(rows) % 1440);
    PointsAreSteps(step, Latest(rows) % 1440);
    PointsAreSteps(step, 0);
  }

  /** Always on after a don't-recommend or too few covered days; no schedule at all, for an error, exactly if
      a shutdown period of the window does not fit the record step; the week's schedule otherwise. */
  lemma GeneratedScheduleIs(settings: ScheduleSettings, shutdownPeriods: seq<Rows>, rows: Rows,
                            past: seq<Actions.Feedback>)
    requires 1 <= settings.recordStepMinutes <= MAX_STEP && settings.maxAllowedDays >= 0
    ensures var schedule := GeneratedSchedule(settings, shutdownPeriods, rows, past);
            var step := settings.recordStepMinutes;
            var recent := RecentPeriods(shutdownPeriods, rows, settings.maxAllowedDays);
            if (exists f :: f in past && f == Actions.Feedback(Actions.Schedule, Actions.DontRecommend)) ||
               CoveredDays(rows) < settings.minAllowedDays
            then schedule == Some([ScheduleEntry([0, 1, 2, 3, 4, 5, 6], 0, 0, None)])
            else
              && (schedule == None <==> exists p :: p in recent && !FitsSteps(p, step))
              && (schedule.Some? ==>
                    schedule.value == WeekSchedule(ActivePeriods(recent), step,
                                                   CoveredDays(RecentRows(rows, settings.maxAllowedDays)),
                                                   settings.minScheduleDayDuration))
  {
    hide CoveredDays, RecentPeriods, RecentRows, WeekSchedule, DayTimePoints, OnPoints, FitsSteps, ActivePeriod;
    assert IsScheduleDisabled(past) <==>
           exists f :: f in past && f == Actions.Feedback(Actions.Schedule, Actions.DontRecommend);
    var recent := RecentPeriods(shutdownPeriods, rows, settings.maxAllowedDays);
    forall p: Rows ensures OnPoints(ActivePeriod(p), DayTimePoints(settings.recordStepMinutes)) <==>
                           FitsSteps(p, settings.recordStepMinutes) {
      FitsStepsIff(p, settings.recordStepMinutes);
    }
    var periods := ActivePeriods(recent);
    assert forall i | 0 <= i < |recent| :: periods[i] in periods && recent[i] in recent;
  }

  // ----- no shutdown periods at all

  lemma NoPeriodsNoCounts(weekday: Weekday, points: seq<Minute>)
    requires |points| >= 2
    ensures var items := CountersOf([], weekday, points);
            forall p | p in points ::
                p in items && items[p] == FrequencyMapItem("shutdown", [], 0) && Recorded(items, p) == []
  {}

  /** Without counts the threshold is zero, so only the share of processed days can keep a point running. */
  lemma NoCountsActivity(items: PointMap, points: seq<Minute>, processedDays: int)
    requires Covers(items, points) && |points| >= 2
    requires forall p | p in points :: items[p] == FrequencyMapItem("shutdown", [], 0)
    ensures ActivePoints(items, points, processedDays) == if processedDays >= 1 then points else []
  {
    var counts := CountsOf(items, points);
    SecondQuartileOfZeros(counts);
    if processedDays >= 1 {
      Sequences.FilterAll(points, (p: Minute) => !IsShutdownPoint(items, 0.0, processedDays, p));
    } else {
      Sequences.FilterNone(points, (p: Minute) => !IsShutdownPoint(items, 0.0, processedDays, p));
    }
  }

  lemma WholeDayIsOneRun(step: int)
    requires 1 <= step <= MAX_STEP
    ensures var points := DayTimePoints(step);
            Runs(points, step, 0) == [Run(0, points[|points| - 1])]
  {
    var points := DayTimePoints(step);
    forall k | 0 <= k < |points| - 1 ensures AdjacentAt(points, k, step) {
      assert points[k + 1] - points[k] == (k + 1) * step - k * step == step;
    }
    RunCloses(points, step, 0, |points| - 1);
  }

  function OpenDay(weekday: Weekday): DaySchedule {
    ScheduleItem([weekday], 0, Some(0), Some(0.0))
  }

  /** One quiet day: open all day if it was processed, shut down otherwise. */
  lemma QuietDaySchedules(items: PointMap, points: seq<Minute>, step: int, weekday: Weekday,
                          processedDays: int, minimumDuration: int)
    requires IsDayGrid(points, step) && Covers(items, points) && minimumDuration <= MINUTES_IN_DAY
    requires forall p | p in points :: Recorded(items, p) == []
    requires Runs(points, step, 0) == [Run(0, points[|points| - 1])]
    requires ActivePoints(items, points, processedDays) == if processedDays >= 1 then points else []
    ensures DaySchedules(items, points, step, weekday, processedDays, minimumDuration) ==
            if processedDays >= 1 then [OpenDay(weekday)] else []
  {
    hide ActivePoints, OnStep, Recorded, PeriodProbability;
    if processedDays >= 1 {
      var period := ScheduleItem([weekday], 0, Some(0), None);
      assert PeriodsOf(points, points, step, weekday) == [period];
      assert DurationMinutes(period) == MINUTES_IN_DAY;
      Sequences.FilterAll([period], s => DurationMinutes(s) >= minimumDuration);
      NothingRecorded(items, points, 0, 0);
    } else {
      assert Runs([], step, 0) == [];
    }
  }

  lemma QuietDayOn(points: seq<Minute>, weekday: Weekday, step: int, processedDays: int, minimumDuration: int)
    requires IsDayGrid(points, step) && minimumDuration <= MINUTES_IN_DAY
    requires Runs(points, step, 0) == [Run(0, points[|points| - 1])]
    ensures DaySchedules(CountersOf([], weekday, points), points, step, weekday, processedDays, minimumDuration) ==
            if processedDays >= 1 then [OpenDay(weekday)] else []
  {
    var items := CountersOf([], weekday, points);
    NoPeriodsNoCounts(weekday, points);
    hide CountersOf, ActivePoints, DaySchedules, OnStep, Runs, Recorded, OpenDay;
    NoCountsActivity(items, points, processedDays);
    QuietDaySchedules(items, points, step, weekday, processedDays, minimumDuration);
  }

  lemma QuietDay(weekday: Weekday, step: int, processedDays: int, minimumDuration: int)
    requires 1 <= step <= MAX_STEP && minimumDuration <= MINUTES_IN_DAY
    ensures WeekdaySchedules([], weekday, step, processedDays, minimumDuration) ==
            if processedDays >= 1 then [OpenDay(weekday)] else []
  {
    hide DaySchedules, Runs, DayTimePoints, CountersOf, OpenDay;
    DayTimePointsAreGrid(step);
    WholeDayIsOneRun(step);
    QuietDayOn(DayTimePoints(step), weekday, step, processedDays, minimumDuration);
  }

  lemma {:induction false} QuietWeek(n: nat, step: int, processedDays: int, minimumDuration: int)
    requires n <= 7 && 1 <= step <= MAX_STEP && minimumDuration <= MINUTES_IN_DAY
    ensures var ds := DailySchedules([], n, step, processedDays, minimumDuration);
            if processedDays >= 1 then |ds| == n && forall d | 0 <= d < n :: ds[d] == OpenDay(d) else ds == []
  {
    hide WeekdaySchedules;
    if n > 0 {
      QuietWeek(n - 1, step, processedDays, minimumDuration);
      QuietDay(n - 1, step, processedDays, minimumDuration);
    }
  }

  /** Seven open days are grouped into one item for the whole week. */
  lemma OpenWeekIsOneItem(ds: seq<DaySchedule>)
    requires |ds| == 7 && forall d | 0 <= d < 7 :: ds[d] == OpenDay(d)
    ensures GroupedByDays(ds) == [ScheduleItem(WEEK_DAYS, 0, Some(0), Some(0.0))]
  {
    hide GroupedByDays, WeekdaysOf, RoundedMean;
    SameTimesMakeOneGroup(ds, 0, 0);
    forall day: Weekday | day in WEEK_DAYS ensures day in WeekdaysOf(ds) {
      WeekdaysOfMember(ds, ds[day], day);
    }
    AllWeekdays(ds);
    RoundedMeanOfZeros(ProbabilitiesOf(ds));
  }

  lemma NothingToGroup()
    ensures GroupedByDays([]) == []
  {}

  lemma AllWeekdays(ds: seq<DaySchedule>)
    requires forall day: Weekday | day in WEEK_DAYS :: day in WeekdaysOf(ds)
    ensures WeekdaysOf(ds) == WEEK_DAYS
  {
    var days := Sequences.Flatten(Sequences.Map(ds, (d: DaySchedule) => d.weekdays));
    Sequences.FilterAll(WEEK_DAYS, day => day in days);
  }

  const WHOLE_WEEK: seq<ScheduleEntry> := [ScheduleEntry(WEEK_DAYS, 0, LAST_POINT_TEXT, None)]

  /** Without shutdown periods every record step gives the same result: the whole week when at least
      one day was processed, nothing at all otherwise. */
  lemma QuietSchedule(step: int, processedDays: int, minimumDuration: int)
    requires 1 <= step <= MAX_STEP && minimumDuration <= MINUTES_IN_DAY
    ensures WeekSchedule([], step, processedDays, minimumDuration) == if processedDays >= 1 then WHOLE_WEEK else []
  {
    hide WeekdaySchedules, DailySchedules, GroupedByDays, OpenDay;
    QuietWeek(7, step, processedDays, minimumDuration);
    GroupedAreFilled(DailySchedules([], 7, step, processedDays, minimumDuration));
    OpenOrNothing(DailySchedules([], 7, step, processedDays, minimumDuration));
  }

  lemma OpenOrNothing(ds: seq<DaySchedule>)
    requires ds == [] || (|ds| == 7 && forall d | 0 <= d < 7 :: ds[d] == OpenDay(d))
    ensures GroupedByDays(ds) == if ds == [] then [] else [ScheduleItem(WEEK_DAYS, 0, Some(0), Some(0.0))]
  {
    if ds == [] {
      NothingToGroup();
    } else {
      OpenWeekIsOneItem(ds);
    }
  }

  /** End to end: with no shutdown periods the generator yields an always-on schedule exactly when
      scheduling is off, too few days are covered, or the window holds at least one day. */
  lemma NoShutdownPeriodsSchedule(settings: ScheduleSettings, rows: Rows, past: seq<Actions.Feedback>)
    requires 1 <= settings.recordStepMinutes <= MAX_STEP && settings.maxAllowedDays >= 0
    requires settings.minScheduleDayDuration <= MINUTES_IN_DAY
    ensures var schedule := GeneratedSchedule(settings, [], rows, past);
            schedule ==
            if IsScheduleDisabled(past) || CoveredDays(rows) < settings.minAllowedDays then Some(ALWAYS_RUN)
            else if CoveredDays(RecentRows(rows, settings.maxAllowedDays)) >= 1 then Some(WHOLE_WEEK)
            else Some([])
  {
    hide CoveredDays, IsScheduleDisabled, WeekSchedule, DayTimePoints, RecentRows, ALWAYS_RUN, WHOLE_WEEK;
    var processedDays := CoveredDays(RecentRows(rows, settings.maxAllowedDays));
    QuietSchedule(settings.recordStepMinutes, processedDays, settings.minScheduleDayDuration);
    assert ActivePeriods(RecentPeriods([], rows, settings.maxAllowedDays)) == [];
  }

  // ----- the window of recent days

  /** Some row lies in the 24 hours up to `t`. */
  ghost predicate HasRowBefore(rows: Rows, t: int) {
    exists r | r in rows :: t - MINUTES_IN_DAY < r <= t
  }

  /** No two neighbouring rows are a day or more apart, as after loading, which fills every gap. */
  ghost predicate HasNoDayGap(rows: Rows) {
    forall t | Earliest(rows) <= t <= Latest(rows) :: HasRowBefore(rows, t)
  }

  lemma LongSpanIsADay(rows: Rows)
    requires Latest(rows) - Earliest(rows) >= MINUTES_IN_DAY
    ensures CoveredDays(rows) >= 1
  {
    hide Earliest, Latest, Rounding.Round;
    Rounding.RoundMonotone(1.0, (Latest(rows) - Earliest(rows)) as real / MINUTES_IN_DAY as real);
    Rounding.RoundOfInteger(1);
  }

  lemma ManyDaysAreALongSpan(rows: Rows, days: int)
    requires CoveredDays(rows) >= days
    ensures 2 * (Latest(rows) - Earliest(rows)) >= (2 * days - 1) * MINUTES_IN_DAY
  {
    hide Earliest, Latest, Rounding.Round;
    var span := (Latest(rows) - Earliest(rows)) as real / MINUTES_IN_DAY as real;
    assert span >= days as real - 0.5;
  }

  lemma WindowEnds(rows: Rows, maxDays: int, r: int)
    requires maxDays >= 0 && CoveredDays(rows) > maxDays
    requires r in rows && DateOf(r) >= DateOf(Latest(rows)) - maxDays
    ensures Latest(RecentRows(rows, maxDays)) == Latest(rows) && Earliest(RecentRows(rows, maxDays)) <= r
  {
    hide CoveredDays, Latest, Earliest;
  }

  /** Of a frame without such gaps the window keeps more than a day, so the processed days are never zero. */
  lemma WindowSpansADay(rows: Rows, maxDays: int)
    requires HasNoDayGap(rows) && maxDays >= 2 && CoveredDays(rows) >= 1
    ensures CoveredDays(RecentRows(rows, maxDays)) >= 1
  {
    hide CoveredDays, Earliest, Latest;
    if CoveredDays(rows) > maxDays {
      ManyDaysAreALongSpan(rows, maxDays + 1);
      var firstDate := DateOf(Latest(rows)) - maxDays;
      var t := firstDate * MINUTES_IN_DAY + MINUTES_IN_DAY - 1;
      assert HasRowBefore(rows, t);
      var r :| r in rows && t - MINUTES_IN_DAY < r <= t;
      assert DateOf(r) == firstDate;
      WindowEnds(rows, maxDays, r);
      LongSpanIsADay(RecentRows(rows, maxDays));
    }
  }

  /** A frame with a gap handed to the generator directly: its window can hold a single row. */
  lemma GapEmptiesTheWindow(rows: Rows, maxDays: int)
    requires |rows| == 2 && rows[0] == 0 && rows[1] == 20 * MINUTES_IN_DAY && maxDays == 14
    ensures CoveredDays(rows) == 20 && CoveredDays(RecentRows(rows, maxDays)) == 0 && !HasNoDayGap(rows)
  {
    assert rows[1..] == [rows[1]];
    assert Earliest(rows) == 0 && Latest(rows) == 20 * MINUTES_IN_DAY;
    Rounding.RoundOfInteger(20);
    Rounding.RoundOfInteger(0);
    assert RecentRows(rows, maxDays) == [rows[1]];
    assert !HasRowBefore(rows, MINUTES_IN_DAY);
  }
}
