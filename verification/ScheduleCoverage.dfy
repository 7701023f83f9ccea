/** The generated schedule keeps an instance up whenever it was active for long enough. */
module ScheduleCoverage {
  import opened Sequences
  import opened ScheduleItems
  import opened TimePoints
  import opened FrequencyMaps
  import opened PeriodCounters
  import opened DayGrouping
  import opened ScheduleService

  /** The active points of a weekday, as counted from the shutdown periods. */
  function ActiveOn(periods: seq<ActiveSchedulePeriod>, weekday: Weekday, step: int, processedDays: int): seq<Minute>
    requires 1 <= step <= MAX_STEP
  {
    var points := DayTimePoints(step);
    DayTimePointsAreGrid(step);
    ActivePoints(CountersOf(periods, weekday, points), points, processedDays)
  }

  /** How many of the periods span a point. */
  function SpanningAt(periods: seq<ActiveSchedulePeriod>, weekday: Weekday, step: int, p: Minute): nat
    requires 1 <= step <= MAX_STEP
  {
    |SpanningPeriods(periods, weekday, p, DayTimePoints(step)[PointCount(step) - 1])|
  }

  lemma CountsAreSpanning(periods: seq<ActiveSchedulePeriod>, weekday: Weekday, step: int, counts: seq<int>)
    requires 1 <= step <= MAX_STEP && |counts| == PointCount(step)
    requires forall i | 0 <= i < |counts| :: counts[i] == SpanningAt(periods, weekday, step, DayTimePoints(step)[i])
    ensures var items := CountersOf(periods, weekday, DayTimePoints(step));
            Covers(items, DayTimePoints(step)) && counts == CountsOf(items, DayTimePoints(step))
  {
    hide DayTimePoints, PointCount, SpanningPeriods;
    var points := DayTimePoints(step);
    assert forall i | 0 <= i < |points| :: points[i] in points;
  }

  /** From the periods: a point is shut down on a weekday exactly if the periods spanning it are at least three
      quarters of one per processed week, and at least as many as in the middle of the day's points. */
  lemma ShutDownOnIff(periods: seq<ActiveSchedulePeriod>, weekday: Weekday, step: int, processedDays: int,
                      counts: seq<int>, sorted: seq<int>, p: Minute)
    requires 1 <= step <= MAX_STEP && |counts| == PointCount(step) && p in DayTimePoints(step)
    requires forall i | 0 <= i < |counts| :: counts[i] == SpanningAt(periods, weekday, step, DayTimePoints(step)[i])
    requires Ascending(sorted) && multiset(sorted) == multiset(counts)
    ensures |sorted| == |counts|
    ensures var n := SpanningAt(periods, weekday, step, p);
            p !in ActiveOn(periods, weekday, step, processedDays) <==>
            && 28 * n >= 3 * processedDays
            && 2 * n >= sorted[(|sorted| - 1) / 2] + sorted[|sorted| / 2]
  {
    hide DayTimePoints, PointCount, SpanningPeriods, ActivePoints, Ascending, IsDayGrid;
    var points := DayTimePoints(step);
    DayTimePointsAreGrid(step);
    CountsAreSpanning(periods, weekday, step, counts);
    var items := CountersOf(periods, weekday, points);
    assert counts == seq(|points|, i requires 0 <= i < |points| => items[points[i]].count);
    SameSize(sorted, counts);
    ShutDownIff(items, points, processedDays, sorted, p);
  }

  /** A long enough maximal run of active points is a day schedule. */
  lemma RunIsDaySchedule(items: PointMap, points: seq<Minute>, step: int, weekday: Weekday, processedDays: int,
                         minimumDuration: int, r: Run)
    returns (d: DaySchedule)
    requires IsDayGrid(points, step) && Covers(items, points)
    requires IsMaximalRun(ActivePoints(items, points, processedDays), step, r)
    requires DurationMinutes(PeriodUpTo(r, points[|points| - 1], weekday)) >= minimumDuration
    ensures d in DaySchedules(items, points, step, weekday, processedDays, minimumDuration)
    ensures d.weekdays == [weekday] && d.start == r.first && EndOf(d.stop.value) >= r.last
  {
    hide IsMaximalRun, ActivePoints, DurationMinutes, PeriodProbability, Covers, OnStep;
    var active := ActivePoints(items, points, processedDays);
    ActivePointsOnGrid(items, points, step, processedDays);
    var period := PeriodUpTo(r, points[|points| - 1], weekday);
    PeriodsAreMaximalRuns(active, points, step, weekday, period);
    var long := Filter(PeriodsOf(active, points, step, weekday), s => DurationMinutes(s) >= minimumDuration);
    assert period in long;
    var i :| 0 <= i < |long| && long[i] == period;
    var schedules := DaySchedules(items, points, step, weekday, processedDays, minimumDuration);
    d := schedules[i];
  }

  lemma {:induction false} WeekdayIsListed(periods: seq<ActiveSchedulePeriod>, n: nat, step: int, processedDays: int,
                                           minimumDuration: int, weekday: Weekday, d: DaySchedule)
    requires weekday < n <= 7 && 1 <= step <= MAX_STEP
    requires d in WeekdaySchedules(periods, weekday, step, processedDays, minimumDuration)
    ensures d in DailySchedules(periods, n, step, processedDays, minimumDuration)
  {
    hide WeekdaySchedules;
    if weekday < n - 1 {
      WeekdayIsListed(periods, n - 1, step, processedDays, minimumDuration, weekday, d);
    }
  }

  lemma {:induction false} DailySchedulesAreAdmissible(periods: seq<ActiveSchedulePeriod>, n: nat, step: int,
                                                       processedDays: int, minimumDuration: int)
    requires n <= 7 && 1 <= step <= MAX_STEP
    ensures Admissible(DailySchedules(periods, n, step, processedDays, minimumDuration), minimumDuration)
  {
    hide WeekdaySchedules, Admissible;
    if n == 0 {
      NoneAreAdmissible(minimumDuration);
    } else {
      DailySchedulesAreAdmissible(periods, n - 1, step, processedDays, minimumDuration);
      WeekdaySchedulesAreAdmissible(periods, n - 1, step, processedDays, minimumDuration);
      BothAreAdmissible(DailySchedules(periods, n - 1, step, processedDays, minimumDuration),
                        WeekdaySchedules(periods, n - 1, step, processedDays, minimumDuration), minimumDuration);
    }
  }

  lemma NoneAreAdmissible(minimumDuration: int)
    ensures Admissible([], minimumDuration)
  {}

  lemma BothAreAdmissible(a: seq<DaySchedule>, b: seq<DaySchedule>, minimumDuration: int)
    requires Admissible(a, minimumDuration) && Admissible(b, minimumDuration)
    ensures Admissible(a + b, minimumDuration)
  {
    hide DurationMinutes, EndOf;
  }

  lemma WeekdaySchedulesAreAdmissible(periods: seq<ActiveSchedulePeriod>, weekday: Weekday, step: int,
                                      processedDays: int, minimumDuration: int)
    requires 1 <= step <= MAX_STEP
    ensures Admissible(WeekdaySchedules(periods, weekday, step, processedDays, minimumDuration), minimumDuration)
  {
    hide CountersOf, DaySchedules, DurationMinutes, IsDayGrid, OnStep;
  }

  predicate KeepsUp(e: ScheduleEntry, weekday: Weekday, p: Minute) {
    weekday in e.weekdays && e.start <= p && (p <= e.stop || e.stop == LAST_POINT_TEXT)
  }

  lemma CoveringEntryKeepsUp(items: seq<ScheduleItem>, g: DaySchedule, d: DaySchedule, weekday: Weekday, p: Minute)
    returns (e: ScheduleEntry)
    requires g in items && forall s | s in items :: s.stop.Some? && s.probability.Some?
    requires CoversSchedule(g, d) && d.weekdays == [weekday] && d.start <= p <= EndOf(d.stop.value)
    ensures e in Entries(items) && KeepsUp(e, weekday, p)
  {
    var i :| 0 <= i < |items| && items[i] == g;
    e := Entries(items)[i];
    assert weekday in d.weekdays;
    assert e.stop == if g.stop.value == 0 then LAST_POINT_TEXT else g.stop.value;
  }

  /** From counts to entries: for a minimum duration above an hour, every point of a maximal active run that
      lasts that long is inside a schedule entry for its weekday. Only after 23:50, which stands for the end
      of the day, may the printed stop come before the point. */
  lemma ActivePointsStayUp(periods: seq<ActiveSchedulePeriod>, weekday: Weekday, step: int, processedDays: int,
                           minimumDuration: int, r: Run, p: Minute)
    returns (e: ScheduleEntry)
    requires 1 <= step <= MAX_STEP && minimumDuration > 60
    requires IsMaximalRun(ActiveOn(periods, weekday, step, processedDays), step, r) && r.first <= p <= r.last
    requires DurationMinutes(PeriodUpTo(r, DayTimePoints(step)[PointCount(step) - 1], weekday)) >= minimumDuration
    ensures e in WeekSchedule(periods, step, processedDays, minimumDuration) && KeepsUp(e, weekday, p)
  {
    hide CountersOf, DaySchedules, DurationMinutes, IsDayGrid, OnStep, IsMaximalRun, ActivePoints, DailySchedules,
         GroupedByDays, Admissible, CoversSchedule, KeepsUp, Entries, PeriodUpTo, EndOf;
    DayTimePointsAreGrid(step);
    var points := DayTimePoints(step);
    var items := CountersOf(periods, weekday, points);
    var d := RunIsDaySchedule(items, points, step, weekday, processedDays, minimumDuration, r);
    WeekdayIsListed(periods, 7, step, processedDays, minimumDuration, weekday, d);
    DailySchedulesAreAdmissible(periods, 7, step, processedDays, minimumDuration);
    var ds := DailySchedules(periods, 7, step, processedDays, minimumDuration);
    AllCoveredWhenLong(ds, minimumDuration);
    var g :| g in GroupedByDays(ds) && CoversSchedule(g, d);
    GroupedAreFilled(ds);
    e := CoveringEntryKeepsUp(GroupedByDays(ds), g, d, weekday, p);
  }

  // ----- and no more than two hours beyond

  lemma {:induction false} WeekdayOfSchedule(periods: seq<ActiveSchedulePeriod>, n: nat, step: int, processedDays: int,
                                             minimumDuration: int, d: DaySchedule)
    returns (weekday: Weekday)
    requires n <= 7 && 1 <= step <= MAX_STEP && d in DailySchedules(periods, n, step, processedDays, minimumDuration)
    ensures d in WeekdaySchedules(periods, weekday, step, processedDays, minimumDuration)
  {
    hide WeekdaySchedules;
    if d in DailySchedules(periods, n - 1, step, processedDays, minimumDuration) {
      weekday := WeekdayOfSchedule(periods, n - 1, step, processedDays, minimumDuration, d);
    } else {
      weekday := n - 1;
    }
  }

  /** A day schedule comes from a long enough maximal run of its weekday. */
  lemma DayScheduleIsRun(items: PointMap, points: seq<Minute>, step: int, weekday: Weekday, processedDays: int,
                         minimumDuration: int, d: DaySchedule)
    returns (r: Run)
    requires IsDayGrid(points, step) && Covers(items, points)
    requires d in DaySchedules(items, points, step, weekday, processedDays, minimumDuration)
    ensures IsMaximalRun(ActivePoints(items, points, processedDays), step, r)
    ensures DurationMinutes(PeriodUpTo(r, points[|points| - 1], weekday)) >= minimumDuration
    ensures d.weekdays == [weekday] && d.start == r.first
    ensures d.stop.value == if r.last == points[|points| - 1] then 0 else r.last
  {
    hide IsMaximalRun, ActivePoints, DurationMinutes, PeriodProbability, Covers, OnStep, PeriodsOf;
    var active := ActivePoints(items, points, processedDays);
    ActivePointsOnGrid(items, points, step, processedDays);
    var long := Filter(PeriodsOf(active, points, step, weekday), s => DurationMinutes(s) >= minimumDuration);
    var schedules := DaySchedules(items, points, step, weekday, processedDays, minimumDuration);
    var i :| 0 <= i < |schedules| && schedules[i] == d;
    assert long[i] in long;
    PeriodsAreMaximalRuns(active, points, step, weekday, long[i]);
    r :| IsMaximalRun(active, step, r) && long[i] == PeriodUpTo(r, points[|points| - 1], weekday);
  }

  /** The member of an entry's group that brought a weekday in. */
  lemma MemberOfEntry(ds: seq<DaySchedule>, e: ScheduleEntry, weekday: Weekday, minimumDuration: int)
    returns (d: DaySchedule, stop: Minute)
    requires Admissible(ds, minimumDuration)
    requires forall s | s in GroupedByDays(ds) :: s.stop.Some? && s.probability.Some?
    requires e in Entries(GroupedByDays(ds)) && weekday in e.weekdays
    ensures d in ds && weekday in d.weekdays
    ensures e.stop == if stop == 0 then LAST_POINT_TEXT else stop
    ensures 0 <= d.start - e.start <= 120 && 0 <= stop - d.stop.value <= 120
    ensures minimumDuration > 60 && d.stop.value == 0 ==> stop == 0
  {
    hide GroupedByDays, GroupOf, Admissible, Members, DurationMinutes, Sort, Mixed, StartsNoLater;
    var items := GroupedByDays(ds);
    var i :| 0 <= i < |items| && Entries(items)[i] == e;
    var g := items[i];
    var sorted := Sort(ds, StartsNoLater);
    var l := ResultIsLeadersGroup(ds, g);
    SortMembers(ds, StartsNoLater);
    SortedAreAdmissible(ds, minimumDuration);
    GroupSpans(l, sorted);
    d :| d in Members(l, sorted) && weekday in d.weekdays;
    stop := g.stop.value;
    GroupWidensLittle(l, sorted, d);
    if minimumDuration > 60 {
      LongSchedulesNeverMix(l, sorted, minimumDuration);
      GroupCoversIffUnmixed(l, sorted);
      assert CoversSchedule(GroupOf(l, sorted), d);
    }
  }

  lemma SortedAreAdmissible(ds: seq<DaySchedule>, minimumDuration: int)
    requires Admissible(ds, minimumDuration)
    ensures Admissible(Sort(ds, StartsNoLater), minimumDuration)
  {
    hide Sort, DurationMinutes, EndOf;
    SortMembers(ds, StartsNoLater);
  }

  /** The other half: an entry runs an instance no more than two hours longer, at either end, than some long
      enough maximal active run of each of its weekdays. Midnight, 00:00 on the clock, is printed as 23:50;
      for a minimum duration above an hour only runs to the end of the day are kept up until then. */
  lemma EntriesStayNearRuns(periods: seq<ActiveSchedulePeriod>, weekday: Weekday, step: int, processedDays: int,
                            minimumDuration: int, e: ScheduleEntry)
    returns (r: Run, stop: Minute)
    requires 1 <= step <= MAX_STEP
    requires e in WeekSchedule(periods, step, processedDays, minimumDuration) && weekday in e.weekdays
    ensures IsMaximalRun(ActiveOn(periods, weekday, step, processedDays), step, r)
    ensures DurationMinutes(PeriodUpTo(r, DayTimePoints(step)[PointCount(step) - 1], weekday)) >= minimumDuration
    ensures e.stop == if stop == 0 then LAST_POINT_TEXT else stop
    ensures e.start <= r.first <= e.start + 120
    ensures var last := if r.last == DayTimePoints(step)[PointCount(step) - 1] then 0 else r.last;
            last <= stop <= last + 120 && (minimumDuration > 60 && last == 0 ==> stop == 0)
  {
    hide CountersOf, DaySchedules, DurationMinutes, IsDayGrid, OnStep, IsMaximalRun, ActivePoints, DailySchedules,
         GroupedByDays, Admissible, Entries, PeriodUpTo, EndOf;
    var ds := DailySchedules(periods, 7, step, processedDays, minimumDuration);
    DailySchedulesAreAdmissible(periods, 7, step, processedDays, minimumDuration);
    GroupedAreFilled(ds);
    var d: DaySchedule;
    d, stop := MemberOfEntry(ds, e, weekday, minimumDuration);
    var w := WeekdayOfSchedule(periods, 7, step, processedDays, minimumDuration, d);
    DayTimePointsAreGrid(step);
    var points := DayTimePoints(step);
    r := DayScheduleIsRun(CountersOf(periods, w, points), points, step, w, processedDays, minimumDuration, d);
    assert w == weekday;
  }
}
