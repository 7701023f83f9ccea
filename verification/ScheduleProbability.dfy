/** When the probability of a day schedule is the mean over the points outside it. */
module ScheduleProbability {
  import opened ScheduleItems
  import opened TimePoints
  import opened FrequencyMaps
  import opened PeriodCounters
  import opened ScheduleService
  import ScheduleCoverage
  import Rounding
  import Sequences
  import Wrappers

  /** The probability a run gets as a period; the stop is 0 for the run reaching the last point. */
  function ProbabilityOf(items: PointMap, points: seq<Minute>, r: Run): real
    requires points != [] && 0 in points && r.first in points && r.last in points
  {
    PeriodProbability(items, points, r.first, if r.last == points[|points| - 1] then 0 else r.last)
  }

  /** The mean over the points outside the run. */
  function MeanOutside(items: PointMap, points: seq<Minute>, r: Run): real {
    MeanOffClock(items, points, r.first, r.last)
  }

  predicate AnyRecorded(items: PointMap, points: seq<Minute>) {
    exists p | p in points :: Recorded(items, p) != []
  }

  lemma RecordedAtMembers(items: PointMap, points: seq<Minute>)
    ensures forall x | x in RecordedAt(items, points) :: exists p | p in points :: x in Recorded(items, p)
    ensures RecordedAt(items, points) != [] <==> AnyRecorded(items, points)
  {
    hide Recorded;
    var lists := Sequences.Map(points, p => Recorded(items, p));
    forall x | x in RecordedAt(items, points) ensures exists p | p in points :: x in Recorded(items, p) {
      var i :| 0 <= i < |lists| && x in lists[i];
      assert points[i] in points;
    }
    if p :| p in points && Recorded(items, p) != [] {
      var i :| 0 <= i < |points| && points[i] == p;
      var x := Recorded(items, p)[0];
      assert x in lists[i];
      assert x in RecordedAt(items, points);
    }
    if RecordedAt(items, points) != [] {
      var x := RecordedAt(items, points)[0];
      assert x in RecordedAt(items, points);
      var p :| p in points && x in Recorded(items, p);
      assert Recorded(items, p) != [];
    }
  }

  lemma {:induction false} SumOfSame(xs: seq<real>, c: real)
    requires forall x | x in xs :: x == c
    ensures Sum(xs) == |xs| as real * c
  {
    if xs != [] {
      assert forall x | x in xs[1..] :: x in xs;
      assert xs[0] in xs;
      SumOfSame(xs[1..], c);
      assert |xs| as real == |xs[1..]| as real + 1.0;
    }
  }

  lemma QuotientOfSame(sum: real, n: real, c: real)
    requires n != 0.0 && sum == n * c
    ensures sum / n == c
  {}

  /** The mean of equal numbers is the number, and of none at all zero. */
  lemma MeanOfSame(items: PointMap, points: seq<Minute>, c: real)
    requires Rounding.TwoDecimals(c) && forall p, x | p in points && x in Recorded(items, p) :: x == c
    ensures RoundedMean(RecordedAt(items, points)) == if AnyRecorded(items, points) then c else 0.0
  {
    RecordedAtMembers(items, points);
    hide RecordedAt, Recorded, AnyRecorded, Sum, Rounding.Round2, Rounding.TwoDecimals;
    var xs := RecordedAt(items, points);
    if xs != [] {
      SumOfSame(xs, c);
      QuotientOfSame(Sum(xs), |xs| as real, c);
      Rounding.Round2OfTwoDecimals(c);
    }
  }

  lemma LastIsLargest(points: seq<Minute>, step: int)
    requires IsDayGrid(points, step)
    ensures 0 in points && 0 < points[|points| - 1]
    ensures forall p | p in points :: p <= points[|points| - 1]
  {
    assert points[0] in points;
  }

  /** For any recorded probabilities the period gets the mean over the points outside it exactly when it
      stops before the end of the day. */
  lemma ProbabilityIsOutsideIff(points: seq<Minute>, step: int, r: Run)
    requires IsDayGrid(points, step) && 0 in points && r.first in points && r.last in points && r.first < r.last
    ensures (forall items: PointMap :: ProbabilityOf(items, points, r) == MeanOutside(items, points, r))
            <==> r.last != points[|points| - 1]
  {
    hide OnStep, RecordedOutside, RecordedAt, OffClock, RoundedMean;
    LastIsLargest(points, step);
    var last := points[|points| - 1];
    if r.last != last {
      forall items: PointMap ensures ProbabilityOf(items, points, r) == MeanOutside(items, points, r) {
        OutsideIsOffClock(items, points, r.first, r.last);
      }
    } else {
      var items := OnlyAt(points, last);
      OutsideIsOffClock(items, points, r.first, 0);
      OnlyAtMeans(points, last, r.first);
      assert ProbabilityOf(items, points, r) != MeanOutside(items, points, r);
    }
  }

  /** One certain shutdown at a single point. */
  function OnlyAt(points: seq<Minute>, at: Minute): PointMap {
    map p: Minute | p in points :: FrequencyMapItem("shutdown", if p == at then [1.0] else [], if p == at then 1 else 0)
  }

  lemma OnlyAtMeans(points: seq<Minute>, at: Minute, start: Minute)
    requires at in points && 0 < at && start <= at
    ensures MeanOffClock(OnlyAt(points, at), points, start, 0) == 1.0
    ensures MeanOffClock(OnlyAt(points, at), points, start, at) == 0.0
  {
    var items := OnlyAt(points, at);
    assert Rounding.TwoDecimals(1.0);
    MeanOfSame(items, OffClock(points, start, 0), 1.0);
    MeanOfSame(items, OffClock(points, start, at), 1.0);
    assert at in OffClock(points, start, 0) && Recorded(items, at) == [1.0];
  }

  // ----- with the one probability the service records

  const SERVICE_PROBABILITY := 0.5

  ghost predicate AllAtService(periods: seq<ActiveSchedulePeriod>) {
    forall q | q in periods :: q.probability == SERVICE_PROBABILITY
  }

  lemma ServiceProbabilities(shutdownPeriods: seq<Rows>)
    ensures AllAtService(ActivePeriods(shutdownPeriods))
  {
    hide Earliest, Latest, TimeOf, WeekdayOf;
  }

  lemma RecordedAtService(periods: seq<ActiveSchedulePeriod>, weekday: Weekday, points: seq<Minute>, p: Minute)
    requires AllAtService(periods) && points != [] && p in points
    ensures forall x | x in Recorded(CountersOf(periods, weekday, points), p) :: x == SERVICE_PROBABILITY
    ensures |Recorded(CountersOf(periods, weekday, points), p)| == CountersOf(periods, weekday, points)[p].count
  {
    var spanning := SpanningPeriods(periods, weekday, p, points[|points| - 1]);
    assert forall i | 0 <= i < |spanning| :: spanning[i] in spanning;
  }

  /** A mean of what the service records is a half, or zero where nothing is recorded. */
  lemma ServiceMean(periods: seq<ActiveSchedulePeriod>, weekday: Weekday, points: seq<Minute>, start: Minute,
                    stop: Minute)
    requires AllAtService(periods) && points != []
    ensures var items := CountersOf(periods, weekday, points);
            MeanOffClock(items, points, start, stop) ==
            if AnyRecorded(items, OffClock(points, start, stop)) then SERVICE_PROBABILITY else 0.0
  {
    hide Recorded, CountersOf, RecordedAt, AnyRecorded, RoundedMean;
    var items := CountersOf(periods, weekday, points);
    forall p, x | p in OffClock(points, start, stop) && x in Recorded(items, p) ensures x == SERVICE_PROBABILITY {
      RecordedAtService(periods, weekday, points, p);
    }
    assert Rounding.TwoDecimals(SERVICE_PROBABILITY);
    MeanOfSame(items, OffClock(points, start, stop), SERVICE_PROBABILITY);
  }

  /** The point before a run that does not begin the day was counted. */
  lemma CountedBeforeRun(periods: seq<ActiveSchedulePeriod>, weekday: Weekday, points: seq<Minute>, step: int,
                         processedDays: int, r: Run) returns (p: Minute)
    requires AllAtService(periods) && 1 <= step <= MAX_STEP && points == DayTimePoints(step) && IsDayGrid(points, step)
    requires processedDays >= 1
    requires IsMaximalRun(ActivePoints(CountersOf(periods, weekday, points), points, processedDays), step, r)
    requires r.first > 0
    ensures p in points && p < r.first && Recorded(CountersOf(periods, weekday, points), p) != []
  {
    hide OnStep, SecondQuartile, CountersOf, Recorded, CountsOf, IsDayGrid;
    var items := CountersOf(periods, weekday, points);
    var active := ActivePoints(items, points, processedDays);
    assert r.first in points;
    var i :| 0 <= i < |points| && points[i] == r.first;
    assert i > 0;
    p := points[i - 1];
    assert p + step == r.first by {
      assert points[i] == i * step && points[i - 1] == (i - 1) * step;
    }
    assert p in points && p !in active;
    assert items[p].count as real >= 0.75 * processedDays as real / 7.0;
    RecordedAtService(periods, weekday, points, p);
  }

  /** A run over the whole day after a shutdown later than midnight. */
  ghost predicate IsInterruptedDay(items: PointMap, points: seq<Minute>, r: Run)
    requires points != []
  {
    r.first == 0 && r.last == points[|points| - 1] && exists p | p in points :: p > 0 && Recorded(items, p) != []
  }

  /** The points outside a run and the points excluded by clock, when the run is open until midnight. */
  lemma OpenRunRecords(items: PointMap, points: seq<Minute>, step: int, r: Run)
    requires IsDayGrid(points, step) && 0 <= r.first < r.last == points[|points| - 1]
    requires r.first > 0 ==> exists p | p in points :: p < r.first && Recorded(items, p) != []
    ensures AnyRecorded(items, OffClock(points, r.first, 0)) == AnyRecorded(items, OffClock(points, r.first, r.last))
            <==> !IsInterruptedDay(items, points, r)
    ensures IsInterruptedDay(items, points, r) ==> AnyRecorded(items, OffClock(points, r.first, 0))
  {
    hide OnStep, Recorded;
    LastIsLargest(points, step);
    hide IsDayGrid;
    if r.first > 0 {
      var p :| p in points && p < r.first && Recorded(items, p) != [];
      assert p in OffClock(points, r.first, 0) && p in OffClock(points, r.first, r.last);
    } else {
      assert forall p :: p in OffClock(points, 0, 0) <==> p in points && p > 0;
      assert forall p :: p !in OffClock(points, 0, r.last);
    }
  }

  /** On the service's data the probability of a maximal run is the mean over the points outside it, except for
      a run over the whole day after any shutdown later than midnight: nothing lies outside, yet it gets a half. */
  lemma ServiceProbabilityIff(periods: seq<ActiveSchedulePeriod>, weekday: Weekday, step: int, processedDays: int,
                              r: Run)
    requires AllAtService(periods) && 1 <= step <= MAX_STEP && processedDays >= 1
    requires IsMaximalRun(ScheduleCoverage.ActiveOn(periods, weekday, step, processedDays), step, r)
    ensures var points := DayTimePoints(step);
            var items := CountersOf(periods, weekday, points);
            && 0 in points && r.first in points && r.last in points
            && (ProbabilityOf(items, points, r) == MeanOutside(items, points, r) <==>
                !IsInterruptedDay(items, points, r))
  {
    hide OnStep, CountersOf, Recorded, RecordedOutside, ActivePoints, MeanOffClock, DayTimePoints, AnyRecorded,
         OffClock, IsDayGrid, IsInterruptedDay, PeriodProbability;
    var points := DayTimePoints(step);
    var items := CountersOf(periods, weekday, points);
    DayTimePointsAreGrid(step);
    LastIsLargest(points, step);
    assert r.first in points && r.last in points && r.first < r.last;
    hide IsMaximalRun;
    if r.last == points[|points| - 1] {
      ProbabilityIsMeanOffClock(items, points, step, r.first, 0);
      ServiceMean(periods, weekday, points, r.first, 0);
      ServiceMean(periods, weekday, points, r.first, r.last);
      if r.first > 0 {
        var p := CountedBeforeRun(periods, weekday, points, step, processedDays, r);
      }
      OpenRunRecords(items, points, step, r);
    } else {
      ProbabilityIsMeanOffClock(items, points, step, r.first, r.last);
      NotInterrupted(items, points, r);
    }
  }

  lemma NotInterrupted(items: PointMap, points: seq<Minute>, r: Run)
    requires points != [] && r.last != points[|points| - 1]
    ensures !IsInterruptedDay(items, points, r)
  {}

  lemma ProbabilityIsMeanOffClock(items: PointMap, points: seq<Minute>, step: int, start: Minute, stop: Minute)
    requires IsDayGrid(points, step) && start in points && stop in points
    ensures PeriodProbability(items, points, start, stop) == MeanOffClock(items, points, start, stop)
  {
    hide OnStep, RecordedOutside, RecordedAt, OffClock, RoundedMean;
    OutsideIsOffClock(items, points, start, stop);
  }

  // ----- the day that goes wrong

  /** Few shutdowns among many processed days leave every point active. */
  lemma FewCountsKeepAllActive(items: PointMap, points: seq<Minute>, processedDays: int)
    requires Covers(items, points) && |points| >= 2
    requires forall p | p in points :: items[p].count as real < 0.75 * processedDays as real / 7.0
    ensures ActivePoints(items, points, processedDays) == points
  {
    hide SecondQuartile;
    var threshold := SecondQuartile(CountsOf(items, points));
    Sequences.FilterAll(points, (p: Minute) => !IsShutdownPoint(items, threshold, processedDays, p));
  }

  /** A day all of whose points are active is one schedule from midnight to midnight. */
  lemma ActiveDaySchedules(items: PointMap, points: seq<Minute>, step: int, weekday: Weekday,
                           processedDays: int, minimumDuration: int)
    requires IsDayGrid(points, step) && Covers(items, points) && minimumDuration <= MINUTES_IN_DAY && 0 in points
    requires Runs(points, step, 0) == [Run(0, points[|points| - 1])]
    requires ActivePoints(items, points, processedDays) == points
    ensures DaySchedules(items, points, step, weekday, processedDays, minimumDuration) ==
            [ScheduleItem([weekday], 0, Wrappers.Some(0), Wrappers.Some(PeriodProbability(items, points, 0, 0)))]
  {
    hide ActivePoints, OnStep, Recorded, PeriodProbability;
    var period := ScheduleItem([weekday], 0, Wrappers.Some(0), Wrappers.None);
    assert PeriodsOf(points, points, step, weekday) == [period];
    assert DurationMinutes(period) == MINUTES_IN_DAY;
    Sequences.FilterAll([period], s => DurationMinutes(s) >= minimumDuration);
  }

  /** One shutdown on one of fourteen processed days: the weekday stays open around the clock, with nothing
      outside that time, and is given a half. */
  lemma WholeDayAfterOneShutdown(q: ActiveSchedulePeriod, step: int, minimumDuration: int)
    requires 1 <= step <= MAX_STEP && minimumDuration <= MINUTES_IN_DAY
    requires q.action != "" && q.probability == SERVICE_PROBABILITY
    requires var points := DayTimePoints(step);
             exists p | p in points :: p > 0 && Spanning(q, q.weekday, p, points[|points| - 1])
    ensures var points := DayTimePoints(step);
            var day := ScheduleItem([q.weekday], 0, Wrappers.Some(0), Wrappers.Some(SERVICE_PROBABILITY));
            && WeekdaySchedules([q], q.weekday, step, 14, minimumDuration) == [day]
            && OffClock(points, 0, points[|points| - 1]) == []
  {
    hide OnStep, Recorded, RecordedOutside, Runs, SecondQuartile, DayTimePoints, Spanning, CountersOf, DaySchedules,
         ActivePoints, OffClock, MeanOffClock, PeriodProbability, AnyRecorded, IsDayGrid;
    var points := DayTimePoints(step);
    var last := points[|points| - 1];
    DayTimePointsAreGrid(step);
    LastIsLargest(points, step);
    var items := CountersOf([q], q.weekday, points);
    OneShutdownCounts(q, points);
    FewCountsKeepAllActive(items, points, 14);
    WholeDayIsOneRun(step);
    ActiveDaySchedules(items, points, step, q.weekday, 14, minimumDuration);
    ProbabilityIsMeanOffClock(items, points, step, 0, 0);
    ServiceMean([q], q.weekday, points, 0, 0);
    RecordedOffMidnight(q, points);
    NothingOutsideTheDay(points, step);
  }

  lemma OneShutdownCounts(q: ActiveSchedulePeriod, points: seq<Minute>)
    requires points != []
    ensures forall p | p in points :: CountersOf([q], q.weekday, points)[p].count <= 1
  {
    hide Spanning;
  }

  lemma RecordedOffMidnight(q: ActiveSchedulePeriod, points: seq<Minute>)
    requires points != [] && exists p | p in points :: p > 0 && Spanning(q, q.weekday, p, points[|points| - 1])
    ensures AnyRecorded(CountersOf([q], q.weekday, points), OffClock(points, 0, 0))
  {
    hide Spanning;
    var p :| p in points && p > 0 && Spanning(q, q.weekday, p, points[|points| - 1]);
    assert q in SpanningPeriods([q], q.weekday, p, points[|points| - 1]);
    assert p in OffClock(points, 0, 0);
  }

  lemma NothingOutsideTheDay(points: seq<Minute>, step: int)
    requires IsDayGrid(points, step)
    ensures OffClock(points, 0, points[|points| - 1]) == []
  {
    hide OnStep;
    LastIsLargest(points, step);
    var start: Minute, stop: Minute := 0, points[|points| - 1];
    Sequences.FilterNone(points, p => !(start <= p <= stop));
  }
}
