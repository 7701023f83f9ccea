/** `process_instance`: from the clustered days of an instance to its schedule and its actions. */
module InstanceActions {
  import opened Wrappers
  import opened Actions
  import opened GeneralActions
  import opened ScheduleService
  import opened TimeRanges
  import DayClusters
  import ScheduleItems

  /** A day's rows with the cluster labels in them, and the centroids. */
  datatype Day = Day(rows: seq<Row>, centroids: seq<seq<real>>)

  ghost predicate IsDay(d: Day) {
    |d.rows| >= 2 && Ordered(d.rows)
  }

  type ClusterSettings = s: DayClusters.DaySettings | s.recordStep >= 1 && s.optimizedStep >= 0
    witness DayClusters.DaySettings((10.0, 30.0, 70.0), 5, 14, 15)

  type LoadClass = DayClusters.Load

  function RowsOfClass(d: Day, s: ClusterSettings, load: LoadClass): seq<Row> {
    DayClusters.ClassRows(d.rows, d.centroids, s.thresholds, load)
  }

  /** The ranges of one class of a day. */
  function RangesOfDay(d: Day, s: ClusterSettings, load: LoadClass): (ranges: seq<seq<Row>>)
    requires IsDay(d)
  {
    DayClusters.StepOptionsValid(d.rows, s);
    RangesOf(RowsOfClass(d, s, load), DayClusters.StepOptions(d.rows, s))
  }

  /** The ranges of one class, day after day. */
  function RangesOver(days: seq<Day>, s: ClusterSettings, load: LoadClass): seq<seq<Row>>
    requires forall d | d in days :: IsDay(d)
  {
    if days == [] then []
    else
      var last := days[|days| - 1];
      assert last in days;
      RangesOver(days[..|days| - 1], s, load) + RangesOfDay(last, s, load)
  }

  /** The loop of `divide_on_periods` over the days. */
  method DivideOnPeriods(days: seq<Day>, s: ClusterSettings)
    returns (shutdown: seq<seq<Row>>, low: seq<seq<Row>>, good: seq<seq<Row>>, over: seq<seq<Row>>)
    requires forall d | d in days :: IsDay(d)
    ensures shutdown == RangesOver(days, s, DayClusters.Load.Shutdown)
    ensures low == RangesOver(days, s, DayClusters.Load.Low)
    ensures good == RangesOver(days, s, DayClusters.Load.Good)
    ensures over == RangesOver(days, s, DayClusters.Load.Over)
  {
    hide RangesOf, DayClusters.ClassRows, DayClusters.StepOptions, Ordered;
    shutdown, low, good, over := [], [], [], [];
    for i := 0 to |days|
      invariant shutdown == RangesOver(days[..i], s, DayClusters.Load.Shutdown)
      invariant low == RangesOver(days[..i], s, DayClusters.Load.Low)
      invariant good == RangesOver(days[..i], s, DayClusters.Load.Good)
      invariant over == RangesOver(days[..i], s, DayClusters.Load.Over)
    {
      assert days[..i + 1][..i] == days[..i];
      assert days[i] in days;
      var dayShutdown, dayLow, dayGood, dayOver := DayClusters.ProcessDay(days[i].rows, days[i].centroids, s);
      shutdown, low := shutdown + dayShutdown, low + dayLow;
      good, over := good + dayGood, over + dayOver;
    }
    assert days[..|days|] == days;
  }

  // ----- when there is a range

  /** Two neighbouring rows of the class are a step apart on some day. */
  ghost predicate HasNeighbours(days: seq<Day>, s: ClusterSettings, load: LoadClass)
    requires forall d | d in days :: IsDay(d)
  {
    exists d | d in days :: DayHasNeighbours(d, s, load)
  }

  ghost predicate DayHasNeighbours(d: Day, s: ClusterSettings, load: LoadClass)
    requires IsDay(d)
  {
    var rows := RowsOfClass(d, s, load);
    exists k :: 0 <= k < |rows| - 1 && StepAt(rows, k, DayClusters.StepOptions(d.rows, s))
  }

  lemma SegmentsIff(rows: seq<Row>, options: seq<int>)
    ensures Segments(rows, options, 0) != [] <==> exists k :: 0 <= k < |rows| - 1 && StepAt(rows, k, options)
  {
    hide StepAt;
    if k :| 0 <= k < |rows| - 1 && StepAt(rows, k, options) {
      assert FirstStep(rows, options, 0) <= k;
    }
  }

  lemma RangesOfDayIff(d: Day, s: ClusterSettings, load: LoadClass)
    requires IsDay(d)
    ensures RangesOfDay(d, s, load) != [] <==> DayHasNeighbours(d, s, load)
  {
    hide Segments, StepAt, DayClusters.ClassRows, DayClusters.StepOptions;
    SegmentsIff(RowsOfClass(d, s, load), DayClusters.StepOptions(d.rows, s));
    DayClusters.StepOptionsValid(d.rows, s);
  }

  /** A class has a range exactly if two neighbouring rows of it are a step apart. */
  lemma {:induction false} RangesOverIff(days: seq<Day>, s: ClusterSettings, load: LoadClass)
    requires forall d | d in days :: IsDay(d)
    ensures RangesOver(days, s, load) != [] <==> HasNeighbours(days, s, load)
  {
    hide DayHasNeighbours, RangesOfDay, IsDay;
    if days != [] {
      var front, last := days[..|days| - 1], days[|days| - 1];
      assert days == front + [last];
      assert last in days;
      RangesOverIff(front, s, load);
      RangesOfDayIff(last, s, load);
    }
  }

  lemma {:induction false} RangesAreNotEmpty(days: seq<Day>, s: ClusterSettings, load: LoadClass)
    requires forall d | d in days :: IsDay(d)
    ensures forall range | range in RangesOver(days, s, load) :: range != []
  {
    if days != [] {
      var last := days[|days| - 1];
      RangesAreNotEmpty(days[..|days| - 1], s, load);
      assert last in days;
      hide DayClusters.ClassRows, DayClusters.StepOptions;
      DayClusters.StepOptionsValid(last.rows, s);
      ClassIsOrdered(last, s, load);
      NoEmptyRange(RowsOfClass(last, s, load), DayClusters.StepOptions(last.rows, s));
    }
  }

  lemma ClassIsOrdered(d: Day, s: ClusterSettings, load: LoadClass)
    requires IsDay(d)
    ensures Ordered(RowsOfClass(d, s, load))
  {
    DayClusters.ClassSpan(d.rows, d.centroids, s.thresholds, load);
  }

  lemma NoEmptyRange(rows: seq<Row>, options: seq<int>)
    requires Options(options) && Ordered(rows)
    ensures forall range | range in RangesOf(rows, options) :: range != []
  {
    hide Segments, Grid;
    var ranges := RangesOf(rows, options);
    forall k | 0 <= k < |ranges| ensures ranges[k] != [] {
      var seg := Segments(rows, options, 0)[k];
      var slice := SegmentRows(seg, rows);
      assert slice[0].time <= slice[|slice| - 1].time;
      GridIsUniform(slice, slice[0].time, slice[|slice| - 1].time, MinOf(options));
    }
  }

  lemma {:induction false} DayOfRange(days: seq<Day>, s: ClusterSettings, load: LoadClass, range: seq<Row>)
    returns (d: Day)
    requires forall d | d in days :: IsDay(d)
    requires range in RangesOver(days, s, load)
    ensures d in days && range in RangesOfDay(d, s, load)
  {
    hide RangesOfDay, IsDay;
    var front, last := days[..|days| - 1], days[|days| - 1];
    assert last in days;
    if range in RangesOver(front, s, load) {
      d := DayOfRange(front, s, load, range);
    } else {
      d := last;
    }
  }

  /** A range begins at a row of some day, and each of its loads is that of one, whose cluster's first metric lies
      between the two thresholds of the class: a shutdown range lies below the first of them. */
  lemma RangeLiesInItsClass(days: seq<Day>, s: ClusterSettings, load: LoadClass, range: seq<Row>)
    requires forall d | d in days :: IsDay(d)
    requires range in RangesOver(days, s, load)
    ensures exists d | d in days ::
              match load
              case Shutdown => DayClusters.IsOfRows(range, d.rows, d.centroids, None, Some(s.thresholds.0))
              case Low =>
                DayClusters.IsOfRows(range, d.rows, d.centroids, Some(s.thresholds.0), Some(s.thresholds.1))
              case Good =>
                DayClusters.IsOfRows(range, d.rows, d.centroids, Some(s.thresholds.1), Some(s.thresholds.2))
              case Over => DayClusters.IsOfRows(range, d.rows, d.centroids, Some(s.thresholds.2), None)
  {
    var d := DayOfRange(days, s, load, range);
    hide DayClusters.IsOfRows, DayClusters.ClassRows, RangesOf, RangesOver;
    DayClusters.StepOptionsValid(d.rows, s);
    DayClusters.DayRangesAreOfRows(d.rows, d.centroids, s.thresholds, DayClusters.StepOptions(d.rows, s));
  }

  // ----- the schedule of an instance

  /** The rows' times, as the schedule generator takes them. */
  function TimesOf(ranges: seq<seq<Row>>): (times: seq<Rows>)
    requires forall range | range in ranges :: range != []
    ensures |times| == |ranges|
    ensures forall i, t | 0 <= i < |ranges| :: t in times[i] <==> exists r | r in ranges[i] :: r.time == t
  {
    if ranges == [] then []
    else
      var last := ranges[|ranges| - 1];
      var front := ranges[..|ranges| - 1];
      assert forall range | range in front :: range in ranges;
      assert last in ranges;
      TimesOf(front) + [TimesOfRange(last)]
  }

  function TimesOfRange(range: seq<Row>): (times: Rows)
    requires range != []
    ensures forall t :: t in times <==> exists r | r in range :: r.time == t
  {
    var times := seq(|range|, i requires 0 <= i < |range| => range[i].time);
    assert forall i | 0 <= i < |range| :: times[i] in times && range[i] in range;
    times
  }

  /** Some class other than shutdown has a range. */
  predicate IsLoaded(days: seq<Day>, s: ClusterSettings)
    requires forall d | d in days :: IsDay(d)
  {
    || RangesOver(days, s, DayClusters.Load.Low) != []
    || RangesOver(days, s, DayClusters.Load.Good) != []
    || RangesOver(days, s, DayClusters.Load.Over) != []
  }

  /** The frame is loaded exactly if some class other than shutdown has two neighbouring rows a step apart. */
  lemma IsLoadedIff(days: seq<Day>, s: ClusterSettings)
    requires forall d | d in days :: IsDay(d)
    ensures IsLoaded(days, s) <==>
            exists load: LoadClass :: load != DayClusters.Load.Shutdown && HasNeighbours(days, s, load)
  {
    hide HasNeighbours, IsDay, RangesOver;
    forall load: LoadClass ensures RangesOver(days, s, load) != [] <==> HasNeighbours(days, s, load) {
      RangesOverIff(days, s, load);
    }
  }

  /** The settings of one algorithm: for clustering and for schedules. */
  datatype Algorithm = Algorithm(clusters: ClusterSettings, schedules: ScheduleSettings)

  predicate IsAccepted(a: Algorithm) {
    1 <= a.schedules.recordStepMinutes <= 60 && a.schedules.maxAllowedDays >= 0
  }

  /** What `process_instance` takes for the schedule; None where a period lies off the time points. */
  function InstanceSchedule(days: seq<Day>, a: Algorithm, allowed: seq<Action>, rows: Rows, past: seq<Feedback>)
    : Option<seq<ScheduleItems.ScheduleEntry>>
    requires IsAccepted(a) && forall d | d in days :: IsDay(d)
  {
    if !IsLoaded(days, a.clusters) then Some([])
    else if Schedule in allowed then
      RangesAreNotEmpty(days, a.clusters, DayClusters.Load.Shutdown);
      GeneratedSchedule(a.schedules, TimesOf(RangesOver(days, a.clusters, DayClusters.Load.Shutdown)), rows, past)
    else Some(ALWAYS_RUN)
  }

  ghost predicate GeneratesNothing(settings: ScheduleSettings, rows: Rows, past: seq<Feedback>)
    requires settings.maxAllowedDays >= 0
  {
    && !IsScheduleDisabled(past)
    && CoveredDays(rows) >= settings.minAllowedDays
    && CoveredDays(RecentRows(rows, settings.maxAllowedDays)) < 1
  }

  /** Shutdowns are allowed and none was rejected before. */
  ghost predicate MayShutDown(i: Inputs) {
    i.status == Ok && Shutdown in i.allowed && !ShutdownRejected(i.past)
  }

  /** Without a load range the schedule is empty, and whatever the shutdown ranges, a shutdown follows if it may. */
  lemma UnloadedInstanceActions(actions: seq<Action>, i: Inputs, days: seq<Day>, a: Algorithm, rows: Rows,
                                past: seq<Feedback>)
    requires IsAccepted(a) && forall d | d in days :: IsDay(d)
    requires !IsLoaded(days, a.clusters)
    requires InstanceSchedule(days, a, i.allowed, rows, past) == Some(i.schedule)
    requires IsGeneralAction(actions, i)
    ensures Schedule !in actions && (Shutdown in actions <==> MayShutDown(i))
  {
    hide IsLoaded, GeneratedSchedule, IsAlwaysRun, ShutdownRejected;
  }

  /** With a load range but no shutdown range: never a schedule, and a shutdown exactly when the generator saw at
      most half a day of rows in its window and shutdowns are not ruled out. */
  lemma NoShutdownPeriodsActions(actions: seq<Action>, i: Inputs, days: seq<Day>, a: Algorithm, rows: Rows,
                                 past: seq<Feedback>)
    requires IsAccepted(a) && forall d | d in days :: IsDay(d)
    requires a.schedules.minScheduleDayDuration <= ScheduleItems.MINUTES_IN_DAY
    requires IsLoaded(days, a.clusters) && !HasNeighbours(days, a.clusters, DayClusters.Load.Shutdown)
    requires InstanceSchedule(days, a, i.allowed, rows, past) == Some(i.schedule)
    requires IsGeneralAction(actions, i)
    ensures Schedule !in actions
    ensures Shutdown in actions <==>
            MayShutDown(i) && Schedule in i.allowed && GeneratesNothing(a.schedules, rows, past)
  {
    assert IsAlwaysRun(ALWAYS_RUN) && IsAlwaysRun(WHOLE_WEEK);
    hide GeneratedSchedule, CoveredDays, RecentRows, IsScheduleDisabled, IsAlwaysRun, ShutdownRejected, HasNeighbours,
         IsLoaded, RangesOver, ALWAYS_RUN, WHOLE_WEEK;
    RangesOverIff(days, a.clusters, DayClusters.Load.Shutdown);
    NoShutdownPeriodsSchedule(a.schedules, rows, past);
  }

  /** End to end, without shutdown ranges, for the settings the service accepts and a frame without gaps of a day,
      which is what loading gives: no schedule ever, and a shutdown, where allowed, exactly if no class other than
      shutdown has two neighbouring rows a step apart. */
  lemma QuietInstanceActions(actions: seq<Action>, i: Inputs, days: seq<Day>, a: Algorithm, rows: Rows,
                             past: seq<Feedback>)
    requires IsAccepted(a) && forall d | d in days :: IsDay(d)
    requires a.schedules.minScheduleDayDuration <= 360
    requires a.schedules.minAllowedDays >= 7 && a.schedules.maxAllowedDays >= 14
    requires HasNoDayGap(rows) && !HasNeighbours(days, a.clusters, DayClusters.Load.Shutdown)
    requires InstanceSchedule(days, a, i.allowed, rows, past) == Some(i.schedule)
    requires IsGeneralAction(actions, i)
    ensures Schedule !in actions
    ensures Shutdown in actions <==>
            MayShutDown(i) &&
            !exists load: LoadClass :: load != DayClusters.Load.Shutdown && HasNeighbours(days, a.clusters, load)
  {
    hide InstanceSchedule, IsGeneralAction, CoveredDays, RecentRows, IsScheduleDisabled, HasNoDayGap, HasNeighbours,
         IsLoaded, MayShutDown;
    IsLoadedIff(days, a.clusters);
    if IsLoaded(days, a.clusters) {
      NoShutdownPeriodsActions(actions, i, days, a, rows, past);
      if GeneratesNothing(a.schedules, rows, past) {
        WindowSpansADay(rows, a.schedules.maxAllowedDays);
      }
    } else {
      UnloadedInstanceActions(actions, i, days, a, rows, past);
    }
  }

  /** At the boundary of the window: two rows twenty days apart, handed to the generator as they are. */
  lemma GapShutsDown(actions: seq<Action>, i: Inputs, days: seq<Day>, a: Algorithm, rows: Rows)
    requires a.schedules == ScheduleSettings(5, 7, 14, 90) && forall d | d in days :: IsDay(d)
    requires |rows| == 2 && rows[0] == 0 && rows[1] == 20 * ScheduleItems.MINUTES_IN_DAY
    requires IsLoaded(days, a.clusters) && !HasNeighbours(days, a.clusters, DayClusters.Load.Shutdown)
    requires i.status == Ok && i.past == [] && Schedule in i.allowed && Shutdown in i.allowed
    requires InstanceSchedule(days, a, i.allowed, rows, []) == Some(i.schedule)
    requires IsGeneralAction(actions, i)
    ensures Shutdown in actions
  {
    hide InstanceSchedule, IsGeneralAction, CoveredDays, RecentRows, HasNeighbours, IsLoaded;
    GapEmptiesTheWindow(rows, 14);
    NoShutdownPeriodsActions(actions, i, days, a, rows, []);
  }

  // ----- a busy day without a range

  /** Five-minute rows that alternate between two clusters. */
  ghost predicate Alternates(rows: seq<Row>) {
    forall k | 0 <= k < |rows| :: rows[k].time == 5 * k && rows[k].cluster == k % 2
  }

  /** One such day of `n` rows. */
  function AlternatingRows(n: nat): (rows: seq<Row>)
    ensures |rows| == n && Alternates(rows) && Ordered(rows)
  {
    seq(n, k requires 0 <= k < n => Row(5 * k, if k % 2 == 0 then 20.0 else 50.0, k % 2))
  }

  const SERVICE_SETTINGS: ClusterSettings := DayClusters.DaySettings((10.0, 30.0, 70.0), 5, 14, 15)
  const LOW_AND_GOOD: seq<seq<real>> := [[20.0], [50.0]]

  lemma AlternatingClassTimes(rows: seq<Row>, load: LoadClass, r: Row)
    requires Alternates(rows) && r in RowsOfClass(Day(rows, LOW_AND_GOOD), SERVICE_SETTINGS, load)
    ensures r.time % 10 == if load == DayClusters.Load.Low then 0 else 5
  {
    var k :| 0 <= k < |rows| && rows[k] == r;
  }

  /** Rows of one class are ten minutes apart or more, so no class has a range at a step of five minutes. */
  lemma AlternatingDayHasNoNeighbours(rows: seq<Row>, load: LoadClass)
    requires |rows| >= 2 && Alternates(rows) && IsDay(Day(rows, LOW_AND_GOOD))
    ensures !DayHasNeighbours(Day(rows, LOW_AND_GOOD), SERVICE_SETTINGS, load)
  {
    var day := Day(rows, LOW_AND_GOOD);
    var class_ := RowsOfClass(day, SERVICE_SETTINGS, load);
    assert DayClusters.StepOptions(rows, SERVICE_SETTINGS) == [5];
    hide DayClusters.ClassRows, Ordered, Alternates, DayClusters.StepOptions, StepAt;
    var rest := if load == DayClusters.Load.Low then 0 else 5;
    forall r | r in class_ ensures r.time % 10 == rest {
      AlternatingClassTimes(rows, load, r);
    }
    TenMinutesApart(class_, rest);
  }

  lemma TenMinutesApart(rows: seq<Row>, rest: int)
    requires forall r | r in rows :: r.time % 10 == rest
    ensures forall k | 0 <= k < |rows| - 1 :: !StepAt(rows, k, [5])
  {
    forall k | 0 <= k < |rows| - 1 ensures !StepAt(rows, k, [5]) {
      assert rows[k] in rows && rows[k + 1] in rows;
    }
  }

  /** An instance whose load alternates between low and good from row to row is told to shut down. */
  lemma AlternatingLoadShutsDown(actions: seq<Action>, i: Inputs, days: seq<Day>, a: Algorithm, rows: Rows)
    requires IsAccepted(a) && a.clusters == SERVICE_SETTINGS
    requires forall d | d in days :: IsDay(d) && Alternates(d.rows) && d.centroids == LOW_AND_GOOD
    requires MayShutDown(i) && InstanceSchedule(days, a, i.allowed, rows, []) == Some(i.schedule)
    requires IsGeneralAction(actions, i)
    ensures Shutdown in actions
  {
    hide InstanceSchedule, IsGeneralAction, MayShutDown, DayHasNeighbours, Alternates, Ordered, IsLoaded;
    forall d, load: LoadClass | d in days ensures !DayHasNeighbours(d, a.clusters, load) {
      assert d == Day(d.rows, LOW_AND_GOOD);
      AlternatingDayHasNoNeighbours(d.rows, load);
    }
    IsLoadedIff(days, a.clusters);
    UnloadedInstanceActions(actions, i, days, a, rows, []);
  }
}
