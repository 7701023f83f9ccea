/** `_generate_frequency_map`: shutdown periods counted per weekday and time point. */
module PeriodCounters {
  import opened Wrappers
  import opened Sequences
  import opened ScheduleItems
  import opened TimePoints
  import opened FrequencyMaps

  datatype ActiveSchedulePeriod = ActiveSchedulePeriod(
    weekday: Weekday, timeFrom: Minute, timeTo: Minute, action: string, probability: real)

  /** Both ends are among the day's points; the code raises ValueError otherwise. */
  predicate OnPoints(period: ActiveSchedulePeriod, points: seq<Minute>) {
    period.action != "" ==> period.timeFrom in points && period.timeTo in points
  }

  /** The period's time interval contains the point; a stop at midnight means the day's last point. */
  predicate Spanning(period: ActiveSchedulePeriod, weekday: Weekday, p: Minute, lastPoint: Minute) {
    && period.action != "" && period.weekday == weekday
    && period.timeFrom <= p <= if period.timeTo == 0 then lastPoint else period.timeTo
  }

  function SpanningPeriods(periods: seq<ActiveSchedulePeriod>, weekday: Weekday, p: Minute, lastPoint: Minute)
    : seq<ActiveSchedulePeriod>
  {
    Filter(periods, q => Spanning(q, weekday, p, lastPoint))
  }

  function ProbabilitiesIn(periods: seq<ActiveSchedulePeriod>): (r: seq<real>)
    ensures |r| == |periods|
    ensures forall i | 0 <= i < |periods| :: r[i] == periods[i].probability
  {
    seq(|periods|, i requires 0 <= i < |periods| => periods[i].probability)
  }

  /** The counter of one point: one count and one probability per spanning period. */
  function CounterAt(periods: seq<ActiveSchedulePeriod>, weekday: Weekday, p: Minute, lastPoint: Minute, action: string)
    : FrequencyMapItem
  {
    var spanning := SpanningPeriods(periods, weekday, p, lastPoint);
    FrequencyMapItem(action, ProbabilitiesIn(spanning), |spanning|)
  }

  lemma CounterNext(periods: seq<ActiveSchedulePeriod>, n: nat, weekday: Weekday, p: Minute, lastPoint: Minute,
                    action: string)
    requires n < |periods|
    ensures var (before, after) := (CounterAt(periods[..n], weekday, p, lastPoint, action),
                                    CounterAt(periods[..n + 1], weekday, p, lastPoint, action));
            if Spanning(periods[n], weekday, p, lastPoint)
            then after == FrequencyMapItem(action, before.probabilities + [periods[n].probability], before.count + 1)
            else after == before
  {
    FilterNext(periods, n, q => Spanning(q, weekday, p, lastPoint));
    var spanning := SpanningPeriods(periods[..n], weekday, p, lastPoint);
    assert Spanning(periods[n], weekday, p, lastPoint) ==>
        ProbabilitiesIn(spanning + [periods[n]]) == ProbabilitiesIn(spanning) + [periods[n].probability];
  }

  /** `day_time_points[start_index: end_index + 1]` */
  function PeriodPoints(period: ActiveSchedulePeriod, points: seq<Minute>): seq<Minute>
    requires period.timeFrom in points && period.timeTo in points
  {
    var endIndex := IndexOf(points, period.timeTo);
    Slice(points, IndexOf(points, period.timeFrom), (if endIndex == 0 then |points| - 1 else endIndex) + 1)
  }

  /** The points of a period's slice are the points it spans. */
  lemma SliceIsSpan(points: seq<Minute>, step: int, period: ActiveSchedulePeriod, p: Minute)
    requires IsDayGrid(points, step) && period.action != "" && OnPoints(period, points) && p in points
    ensures p in PeriodPoints(period, points) <==> Spanning(period, period.weekday, p, points[|points| - 1])
  {
    var a, b := PeriodBounds(period, points, step);
    SplitInThree(points, a, b);
    assert p in points[..a] + points[a..b] + points[b..];
  }

  /** A period's slice by position, and its end points by value. */
  lemma PeriodBounds(period: ActiveSchedulePeriod, points: seq<Minute>, step: int) returns (a: nat, b: nat)
    requires IsDayGrid(points, step) && period.action != "" && OnPoints(period, points)
    ensures a <= b <= |points| && PeriodPoints(period, points) == points[a..b]
    ensures var to := if period.timeTo == 0 then points[|points| - 1] else period.timeTo;
            && (forall p | p in points[..a] :: p < period.timeFrom)
            && (forall p | p in points[a..b] :: period.timeFrom <= p <= to)
            && (forall p | p in points[b..] :: p > to)
  {
    hide OnStep;
    a := IndexOf(points, period.timeFrom);
    var k := IndexOf(points, period.timeTo);
    var e := if k == 0 then |points| - 1 else k;
    assert k == 0 <==> period.timeTo == 0;
    b := if a <= e then e + 1 else a;
    PointsBetween(points, a, b, period.timeFrom, points[e]);
  }

  lemma PeriodCounts(periods: seq<ActiveSchedulePeriod>, n: nat, points: seq<Minute>, step: int,
                     weekday: Weekday, p: Minute, action: string)
    requires n < |periods| && periods[n].action != "" && OnPoints(periods[n], points)
    requires IsDayGrid(points, step) && p in points
    ensures var before := CounterAt(periods[..n], weekday, p, points[|points| - 1], action);
            CounterAt(periods[..n + 1], weekday, p, points[|points| - 1], action) ==
            if weekday == periods[n].weekday && p in PeriodPoints(periods[n], points)
            then WithOneMore(before, periods[n].probability) else before
  {
    hide OnStep, PeriodPoints;
    CounterNext(periods, n, weekday, p, points[|points| - 1], action);
    SliceIsSpan(points, step, periods[n], p);
  }

  /** One weekday's counters agree with the periods. */
  ghost predicate DayCounts(items: PointMap, points: seq<Minute>, weekday: Weekday, action: string,
                            periods: seq<ActiveSchedulePeriod>) {
    && points != []
    && forall p | p in points :: p in items && items[p] == CounterAt(periods, weekday, p, points[|points| - 1], action)
  }

  lemma DayCountsNext(before: PointMap, after: PointMap, points: seq<Minute>, step: int, weekday: Weekday,
                      action: string,
                      periods: seq<ActiveSchedulePeriod>, n: nat)
    requires n < |periods| && periods[n].action != "" && OnPoints(periods[n], points) && IsDayGrid(points, step)
    requires DayCounts(before, points, weekday, action, periods[..n])
    requires forall p | p in points ::
               p in after && after[p] == if weekday == periods[n].weekday && p in PeriodPoints(periods[n], points)
                                         then WithOneMore(before[p], periods[n].probability) else before[p]
    ensures DayCounts(after, points, weekday, action, periods[..n + 1])
  {
    forall p | p in points ensures after[p] == CounterAt(periods[..n + 1], weekday, p, points[|points| - 1], action) {
      PeriodCounts(periods, n, points, step, weekday, p, action);
    }
  }

  lemma DayCountsSkip(items: PointMap, points: seq<Minute>, weekday: Weekday, action: string,
                      periods: seq<ActiveSchedulePeriod>, n: nat)
    requires n < |periods| && periods[n].action == ""
    requires DayCounts(items, points, weekday, action, periods[..n])
    ensures DayCounts(items, points, weekday, action, periods[..n + 1])
  {
    forall p | p in points ensures items[p] == CounterAt(periods[..n + 1], weekday, p, points[|points| - 1], action) {
      CounterNext(periods, n, weekday, p, points[|points| - 1], action);
    }
  }

  /** Every counter of the map agrees with the periods. */
  ghost predicate Counts(map_: FrequencyMap, points: seq<Minute>, step: int, action: string,
                         periods: seq<ActiveSchedulePeriod>)
    reads map_, map_.days
  {
    map_.Valid(points, step) && forall d | 0 <= d < 7 :: DayCounts(map_.days[d].items, points, d, action, periods)
  }

  method GenerateFrequencyMap(periods: seq<ActiveSchedulePeriod>, action: string, recordStepMinutes: int)
    returns (r: Option<FrequencyMap>)
    requires 1 <= recordStepMinutes <= MAX_STEP
    ensures r.None? <==> exists q :: q in periods && !OnPoints(q, DayTimePoints(recordStepMinutes))
    ensures r.Some? ==> Counts(r.value, DayTimePoints(recordStepMinutes), recordStepMinutes, action, periods)
  {
    var points := GetDayTimePoints(recordStepMinutes);
    DayTimePointsAreGrid(recordStepMinutes);
    var map_ := new FrequencyMap(action, points, recordStepMinutes);
    for n := 0 to |periods|
      invariant fresh(map_) && fresh(map_.days)
      invariant forall q | q in periods[..n] :: OnPoints(q, points)
      invariant Counts(map_, points, recordStepMinutes, action, periods[..n])
    {
      var period := periods[n];
      assert periods[..n + 1] == periods[..n] + [period];
      assert period in periods;
      if period.action == "" {
        forall d | 0 <= d < 7 ensures DayCounts(map_.days[d].items, points, d, action, periods[..n + 1]) {
          DayCountsSkip(map_.days[d].items, points, d, action, periods, n);
        }
        continue;
      }
      if period.timeFrom !in points || period.timeTo !in points {
        return None;
      }
      CountPeriod(map_, points, recordStepMinutes, action, periods, n);
    }
    assert periods[..|periods|] == periods;
    r := Some(map_);
  }

  /** The inner loop: one more count for every point of the period's slice. */
  method CountPeriod(map_: FrequencyMap, points: seq<Minute>, step: int, action: string,
                     periods: seq<ActiveSchedulePeriod>, n: nat)
    requires n < |periods| && IsDayGrid(points, step)
    requires periods[n].action != "" && OnPoints(periods[n], points)
    requires Counts(map_, points, step, action, periods[..n])
    modifies map_.days[periods[n].weekday]
    ensures Counts(map_, points, step, action, periods[..n + 1])
  {
    var period := periods[n];
    var periodPoints := PeriodPoints(period, points);
    PeriodPointsDistinct(period, points);
    hide PeriodPoints, OnStep, DayCounts, Distinct, IsDayGrid;
    RecordPeriod(map_, points, step, period.weekday, periodPoints, period.probability);
    forall d | 0 <= d < 7 ensures DayCounts(map_.days[d].items, points, d, action, periods[..n + 1]) {
      DayCountsNext(old(map_.days[d].items), map_.days[d].items, points, step, d, action, periods, n);
    }
  }

  method RecordPeriod(map_: FrequencyMap, points: seq<Minute>, step: int, weekday: Weekday,
                      periodPoints: seq<Minute>, probability: real)
    requires map_.Valid(points, step) && Distinct(periodPoints) && forall p | p in periodPoints :: p in points
    modifies map_.days[weekday]
    ensures map_.Valid(points, step)
    ensures forall d, p | 0 <= d < 7 && p in points ::
              map_.days[d].items[p] == if d == weekday && p in periodPoints
                                       then WithOneMore(old(map_.days[d].items[p]), probability)
                                       else old(map_.days[d].items[p])
  {
    hide OnStep, Distinct, IsDayGrid;
    RecordAll(map_.days[weekday], periodPoints, probability);
  }

  lemma PeriodPointsDistinct(period: ActiveSchedulePeriod, points: seq<Minute>)
    requires StrictlyIncreasing(points) && period.timeFrom in points && period.timeTo in points
    ensures Distinct(PeriodPoints(period, points))
    ensures forall p | p in PeriodPoints(period, points) :: p in points
  {
    var slice := PeriodPoints(period, points);
    assert forall i | 0 <= i < |slice| :: slice[i] == points[IndexOf(points, period.timeFrom) + i];
  }

  method RecordAll(day: FrequencyMapDay, points: seq<Minute>, probability: real)
    requires day.Valid() && Distinct(points) && forall p | p in points :: p in day.timePoints
    modifies day
    ensures day.Valid()
    ensures forall p | p in day.timePoints ::
              day.items[p] == if p in points then WithOneMore(old(day.items)[p], probability) else old(day.items)[p]
  {
    for k := 0 to |points|
      invariant day.Valid()
      invariant forall p | p in day.timePoints ::
                  day.items[p] ==
                  if p in points[..k] then WithOneMore(old(day.items)[p], probability) else old(day.items)[p]
    {
      assert points[..k + 1] == points[..k] + [points[k]];
      assert points[k] !in points[..k];
      day.Record(points[k], probability);
    }
    assert points[..|points|] == points;
  }

  function WithOneMore(item: FrequencyMapItem, probability: real): FrequencyMapItem {
    FrequencyMapItem(item.action, item.probabilities + [probability], item.count + 1)
  }

  // ----- conservation: the counters of a weekday add up to the lengths of its periods

  function TotalCount(periods: seq<ActiveSchedulePeriod>, weekday: Weekday, points: seq<Minute>, lastPoint: Minute)
    : nat
  {
    if points == [] then 0
    else
      |SpanningPeriods(periods, weekday, points[0], lastPoint)|
      + TotalCount(periods, weekday, points[1..], lastPoint)
  }

  function TotalLength(periods: seq<ActiveSchedulePeriod>, weekday: Weekday, points: seq<Minute>): nat
    requires forall q | q in periods :: OnPoints(q, points)
  {
    if periods == [] then 0
    else
      var last := periods[|periods| - 1];
      assert last in periods && OnPoints(last, points);
      TotalLength(periods[..|periods| - 1], weekday, points)
      + if last.action != "" && last.weekday == weekday then |PeriodPoints(last, points)| else 0
  }

  function SpannedBy(period: ActiveSchedulePeriod, weekday: Weekday, points: seq<Minute>, lastPoint: Minute)
    : seq<Minute>
  {
    Filter(points, (p: Minute) => Spanning(period, weekday, p, lastPoint))
  }

  lemma {:induction false} TotalCountNext(periods: seq<ActiveSchedulePeriod>, n: nat, weekday: Weekday,
                                          points: seq<Minute>, lastPoint: Minute)
    requires n < |periods|
    ensures TotalCount(periods[..n + 1], weekday, points, lastPoint) ==
            TotalCount(periods[..n], weekday, points, lastPoint) + |SpannedBy(periods[n], weekday, points, lastPoint)|
  {
    if points != [] {
      TotalCountNext(periods, n, weekday, points[1..], lastPoint);
      FilterNext(periods, n, q => Spanning(q, weekday, points[0], lastPoint));
    }
  }

  lemma {:induction false} TotalCountOfNone(weekday: Weekday, points: seq<Minute>, lastPoint: Minute)
    ensures TotalCount([], weekday, points, lastPoint) == 0
  {
    if points != [] {
      TotalCountOfNone(weekday, points[1..], lastPoint);
    }
  }

  /** A period spans exactly the points of its slice. */
  lemma SpannedPoints(points: seq<Minute>, step: int, period: ActiveSchedulePeriod)
    requires IsDayGrid(points, step) && period.action != "" && OnPoints(period, points)
    ensures SpannedBy(period, period.weekday, points, points[|points| - 1]) == PeriodPoints(period, points)
  {
    var a, b := PeriodBounds(period, points, step);
    hide OnStep;
    FilterIsMiddle(points[..a], points[a..b], points[b..],
                   (p: Minute) => Spanning(period, period.weekday, p, points[|points| - 1]));
    SplitInThree(points, a, b);
  }

  /** Nothing is counted twice or lost: the counters of a weekday add up to the summed slice lengths of its periods. */
  lemma {:induction false} CountsAreConserved(periods: seq<ActiveSchedulePeriod>, weekday: Weekday,
                                              points: seq<Minute>, step: int)
    requires IsDayGrid(points, step) && forall q | q in periods :: OnPoints(q, points)
    ensures TotalCount(periods, weekday, points, points[|points| - 1]) == TotalLength(periods, weekday, points)
  {
    var lastPoint := points[|points| - 1];
    if periods == [] {
      TotalCountOfNone(weekday, points, lastPoint);
    } else {
      var n := |periods| - 1;
      var q := periods[n];
      assert periods[..n + 1] == periods;
      CountsAreConserved(periods[..n], weekday, points, step);
      TotalCountNext(periods, n, weekday, points, lastPoint);
      if q.action != "" && q.weekday == weekday {
        SpannedPoints(points, step, q);
      } else {
        FilterNone(points, (p: Minute) => Spanning(q, weekday, p, lastPoint));
      }
    }
  }
}
