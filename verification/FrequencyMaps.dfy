/** Shutdown counters per time point and the active day schedules read off them. */
module FrequencyMaps {
  import opened Wrappers
  import opened Sequences
  import opened ScheduleItems
  import opened TimePoints
  import Rounding

  datatype FrequencyMapItem = FrequencyMapItem(action: string, probabilities: seq<real>, count: nat)

  type PointMap = map<Minute, FrequencyMapItem>

  ghost predicate Covers(items: PointMap, points: seq<Minute>) {
    forall p | p in points :: p in items
  }

  // ----- the two shutdown thresholds

  function CountsOf(items: PointMap, points: seq<Minute>): (counts: seq<int>)
    requires Covers(items, points)
    ensures |counts| == |points|
    ensures forall i | 0 <= i < |points| :: counts[i] == items[points[i]].count
  {
    seq(|points|, i requires 0 <= i < |points| => items[points[i]].count)
  }

  predicate AtMost(a: int, b: int) {
    a <= b
  }

  /** `statistics.quantiles(data, n=4)[1]` on sorted data, by the default exclusive method. */
  function MiddleQuantile(sorted: seq<int>): real
    requires |sorted| >= 2
  {
    var m := |sorted| + 1;
    var k := 2 * m / 4;
    var j := if k < 1 then 1 else if k > |sorted| - 1 then |sorted| - 1 else k;
    var delta := 2 * m - 4 * j;
    (sorted[j - 1] * (4 - delta) + sorted[j] * delta) as real / 4.0
  }

  function SecondQuartile(data: seq<int>): real
    requires |data| >= 2
  {
    MiddleQuantile(Sort(data, AtMost))
  }

  lemma MiddleQuantileIsMiddle(sorted: seq<int>)
    requires |sorted| >= 2
    ensures MiddleQuantile(sorted) == (sorted[(|sorted| - 1) / 2] + sorted[|sorted| / 2]) as real / 2.0
  {
    var n := |sorted|;
    var k := 2 * (n + 1) / 4;
    var h := n / 2;
    if n == 2 * h {
      assert k == h && (n - 1) / 2 == h - 1;
      assert MiddleQuantile(sorted) == (sorted[h - 1] * 2 + sorted[h] * 2) as real / 4.0;
    } else {
      assert n == 2 * h + 1 && k == h + 1 && (n - 1) / 2 == h;
      assert k <= n - 1;
      assert MiddleQuantile(sorted) == (sorted[h] * 4 + sorted[h + 1] * 0) as real / 4.0;
    }
  }

  /** The threshold is a median: half of the sorted counts, the middle one included, lie on either side. */
  lemma SecondQuartileIsMedian(data: seq<int>)
    requires |data| >= 2
    ensures var sorted := Sort(data, AtMost);
            && (forall i | 0 <= i < (|data| + 1) / 2 :: sorted[i] as real <= SecondQuartile(data))
            && (forall i | |data| / 2 <= i < |data| :: SecondQuartile(data) <= sorted[i] as real)
  {
    SortSorted(data, AtMost);
    MedianOfSorted(Sort(data, AtMost));
  }

  lemma MedianOfSorted(sorted: seq<int>)
    requires |sorted| >= 2 && forall i, j | 0 <= i < j < |sorted| :: sorted[i] <= sorted[j]
    ensures forall i | 0 <= i < (|sorted| + 1) / 2 :: sorted[i] as real <= MiddleQuantile(sorted)
    ensures forall i | |sorted| / 2 <= i < |sorted| :: MiddleQuantile(sorted) <= sorted[i] as real
  {
    MiddleQuantileIsMiddle(sorted);
    var n := |sorted|;
    var (lo, hi) := (sorted[(n - 1) / 2], sorted[n / 2]);
    assert lo <= hi;
    assert lo as real <= (lo + hi) as real / 2.0 <= hi as real;
  }

  lemma {:induction false} SecondQuartileOfZeros(data: seq<int>)
    requires |data| >= 2 && forall x | x in data :: x == 0
    ensures SecondQuartile(data) == 0.0
  {
    SortMembers(data, AtMost);
    MiddleQuantileIsMiddle(Sort(data, AtMost));
    var (sorted, n) := (Sort(data, AtMost), |data|);
    assert sorted[(n - 1) / 2] in sorted && sorted[n / 2] in sorted;
  }

  predicate IsShutdownPoint(items: PointMap, threshold: real, processedDays: int, p: Minute) {
    p in items && items[p].count as real >= threshold && items[p].count as real >= 0.75 * processedDays as real / 7.0
  }

  /** `__get_action_period` */
  function ActivePoints(items: PointMap, points: seq<Minute>, processedDays: int): (active: seq<Minute>)
    requires Covers(items, points) && |points| >= 2
    ensures forall p | p in active :: p in points
  {
    var threshold := SecondQuartile(CountsOf(items, points));
    Filter(points, (p: Minute) => !IsShutdownPoint(items, threshold, processedDays, p))
  }

  lemma {:induction false} FilterOnGrid(points: seq<Minute>, step: int, keep: Minute -> bool)
    requires step >= 1 && OnGrid(points, step)
    ensures OnGrid(Filter(points, keep), step)
  {
    if points != [] {
      FilterOnGrid(points[1..], step, keep);
      var rest := Filter(points[1..], keep);
      forall j | 0 <= j < |rest| ensures points[0] < rest[j] && OnStep(rest[j], step) {
        assert rest[j] in points[1..];
      }
    }
  }

  lemma ActivePointsOnGrid(items: PointMap, points: seq<Minute>, step: int, processedDays: int)
    requires IsDayGrid(points, step) && Covers(items, points)
    ensures OnGrid(ActivePoints(items, points, processedDays), step)
  {
    var threshold := SecondQuartile(CountsOf(items, points));
    FilterOnGrid(points, step, (p: Minute) => !IsShutdownPoint(items, threshold, processedDays, p));
  }

  // ----- the probability of a period

  function Sum(xs: seq<real>): real {
    if xs == [] then 0.0 else xs[0] + Sum(xs[1..])
  }

  lemma {:induction false} SumBounds(xs: seq<real>)
    requires forall x | x in xs :: 0.0 <= x <= 1.0
    ensures 0.0 <= Sum(xs) <= |xs| as real
  {
    if xs != [] {
      assert forall x | x in xs[1..] :: x in xs;
      SumBounds(xs[1..]);
      assert |xs| as real == |xs[1..]| as real + 1.0;
      assert xs[0] in xs;
    }
  }

  lemma {:induction false} SumOfZeros(xs: seq<real>)
    requires forall x | x in xs :: x == 0.0
    ensures Sum(xs) == 0.0
  {
    if xs != [] {
      assert forall x | x in xs[1..] :: x in xs;
      assert xs[0] in xs;
      SumOfZeros(xs[1..]);
    }
  }

  /** The mean, rounded to two decimals, of a list that may be empty. */
  function RoundedMean(xs: seq<real>): real {
    if xs == [] then 0.0 else Rounding.Round2(Sum(xs) / |xs| as real)
  }

  lemma MeanOfShares(sum: real, n: real)
    requires 0.0 <= sum <= n && n > 0.0
    ensures 0.0 <= sum / n <= 1.0
  {
    var mean := sum / n;
    assert mean * n == sum;
  }

  lemma RoundedMeanRange(xs: seq<real>)
    requires forall x | x in xs :: 0.0 <= x <= 1.0
    ensures 0.0 <= RoundedMean(xs) <= 1.0
  {
    if xs != [] {
      hide Rounding.Round;
      SumBounds(xs);
      MeanOfShares(Sum(xs), |xs| as real);
      var mean := Sum(xs) / |xs| as real;
      Rounding.Round2Monotone(0.0, mean);
      Rounding.Round2Monotone(mean, 1.0);
      Rounding.Round2OfTwoDecimals(0.0);
      Rounding.Round2OfTwoDecimals(1.0);
    }
  }

  lemma RoundedMeanOfZeros(xs: seq<real>)
    requires forall x | x in xs :: x == 0.0
    ensures RoundedMean(xs) == 0.0
  {
    if xs != [] {
      SumOfZeros(xs);
      Rounding.Round2OfTwoDecimals(0.0);
    }
  }

  function IndexOf(points: seq<Minute>, p: Minute): (i: nat)
    requires p in points
    ensures i < |points| && points[i] == p
    ensures forall k | 0 <= k < i :: points[k] != p
  {
    if points[0] == p then 0 else 1 + IndexOf(points[1..], p)
  }

  /** `xs[a:b]` */
  function Slice<T>(xs: seq<T>, a: nat, b: nat): seq<T> {
    var hi := if b < |xs| then b else |xs|;
    if a <= hi then xs[a..hi] else []
  }

  function Recorded(items: PointMap, p: Minute): seq<real> {
    if p in items then items[p].probabilities else []
  }

  /** What was recorded at some points, point after point. */
  function RecordedAt(items: PointMap, points: seq<Minute>): seq<real> {
    Flatten(Map(points, p => Recorded(items, p)))
  }

  /** The shutdown probabilities recorded outside the slice from start to stop; a stop at `'00:00'` is point 0. */
  function RecordedOutside(items: PointMap, points: seq<Minute>, start: Minute, stop: Minute): seq<real>
    requires start in points && stop in points
  {
    var inside := Slice(points, IndexOf(points, start), IndexOf(points, stop) + 1);
    RecordedAt(items, Filter(points, p => p !in inside))
  }

  /** The points that do not lie between two times of the clock. */
  function OffClock(points: seq<Minute>, start: Minute, stop: Minute): seq<Minute> {
    Filter(points, p => !(start <= p <= stop))
  }

  lemma SliceByClock(points: seq<Minute>, start: Minute, stop: Minute, p: Minute)
    requires StrictlyIncreasing(points) && start in points && stop in points && p in points
    ensures p in Slice(points, IndexOf(points, start), IndexOf(points, stop) + 1) <==> start <= p <= stop
  {
    var a, b := IndexOf(points, start), IndexOf(points, stop) + 1;
    hide IndexOf;
    if a <= b {
      PointsBetween(points, a, b, start, stop);
      hide StrictlyIncreasing;
      var k :| 0 <= k < |points| && points[k] == p;
      assert if k < a then p in points[..a] else if k < b then p in points[a..b] else p in points[b..];
    } else {
      assert points[b - 1] < points[a];
    }
  }

  /** By position or by clock time, the points outside are the same. */
  lemma OutsideIsOffClock(items: PointMap, points: seq<Minute>, start: Minute, stop: Minute)
    requires StrictlyIncreasing(points) && start in points && stop in points
    ensures RecordedOutside(items, points, start, stop) == RecordedAt(items, OffClock(points, start, stop))
  {
    hide RecordedAt, Slice, IndexOf, StrictlyIncreasing, Filter;
    var inside := Slice(points, IndexOf(points, start), IndexOf(points, stop) + 1);
    forall p | p in points ensures p !in inside <==> !(start <= p <= stop) {
      SliceByClock(points, start, stop, p);
    }
    FilterSame(points, p => p !in inside, p => !(start <= p <= stop));
  }

  /** The rounded mean of what was recorded at the points not between two times of the clock. */
  function MeanOffClock(items: PointMap, points: seq<Minute>, start: Minute, stop: Minute): real {
    RoundedMean(RecordedAt(items, OffClock(points, start, stop)))
  }

  /** A period open until midnight stops at the first point by the clock: what is averaged is the whole day,
      without its first point where the period starts there. */
  lemma OpenPeriodAveragesTheDay(items: PointMap, points: seq<Minute>, step: int, start: Minute)
    requires IsDayGrid(points, step) && start in points
    ensures 0 in points && PeriodProbability(items, points, start, 0) ==
                           RoundedMean(RecordedAt(items, if start > 0 then points else points[1..]))
  {
    hide OnStep, RecordedAt, RecordedOutside, RoundedMean;
    assert points[0] == 0 && points[0] in points;
    var stop: Minute := 0;
    OutsideIsOffClock(items, points, start, stop);
    if start > 0 {
      FilterAll(points, p => !(start <= p <= stop));
    } else {
      FilterIsMiddle([points[0]], points[1..], [], p => !(start <= p <= stop));
      assert points == [points[0]] + points[1..] + [];
    }
  }

  lemma RecordedOutsideIsRecorded(items: PointMap, points: seq<Minute>, start: Minute, stop: Minute, x: real)
    requires start in points && stop in points && x in RecordedOutside(items, points, start, stop)
    ensures exists p :: p in points && x in Recorded(items, p)
  {
    var inside := Slice(points, IndexOf(points, start), IndexOf(points, stop) + 1);
    var outside := Filter(points, p => p !in inside);
    var lists := Map(outside, p => Recorded(items, p));
    var i :| 0 <= i < |lists| && x in lists[i];
    assert outside[i] in outside;
  }

  function PeriodProbability(items: PointMap, points: seq<Minute>, start: Minute, stop: Minute): real
    requires start in points && stop in points
  {
    RoundedMean(RecordedOutside(items, points, start, stop))
  }

  lemma PeriodProbabilityRange(items: PointMap, points: seq<Minute>, start: Minute, stop: Minute)
    requires start in points && stop in points
    requires forall p, x | p in points && x in Recorded(items, p) :: 0.0 <= x <= 1.0
    ensures 0.0 <= PeriodProbability(items, points, start, stop) <= 1.0
  {
    hide Recorded, RoundedMean;
    forall x | x in RecordedOutside(items, points, start, stop) ensures 0.0 <= x <= 1.0 {
      RecordedOutsideIsRecorded(items, points, start, stop, x);
    }
    RoundedMeanRange(RecordedOutside(items, points, start, stop));
  }

  lemma NothingRecorded(items: PointMap, points: seq<Minute>, start: Minute, stop: Minute)
    requires start in points && stop in points
    requires forall p | p in points :: Recorded(items, p) == []
    ensures PeriodProbability(items, points, start, stop) == 0.0
  {
    var outside := RecordedOutside(items, points, start, stop);
    hide RecordedOutside, Recorded;
    if outside != [] {
      RecordedOutsideIsRecorded(items, points, start, stop, outside[0]);
    }
  }

  // ----- from runs to day schedules

  /** A run reaching the last point of the day is open-ended. */
  function PeriodUpTo(r: Run, lastPoint: Minute, weekday: Weekday): (s: ScheduleItem)
    ensures s.stop.Some?
  {
    ScheduleItem([weekday], r.first, Some(if r.last == lastPoint then 0 else r.last), None)
  }

  function PeriodsOf(active: seq<Minute>, points: seq<Minute>, step: int, weekday: Weekday)
    : (periods: seq<ScheduleItem>)
    requires points != []
  {
    Map(Runs(active, step, 0), r => PeriodUpTo(r, points[|points| - 1], weekday))
  }

  /** A period of one weekday, on the day's points, that ends after it starts. */
  ghost predicate IsDayPeriod(s: ScheduleItem, points: seq<Minute>, weekday: Weekday) {
    && s.weekdays == [weekday] && s.stop.Some? && s.start < EndOf(s.stop.value)
    && s.start in points && s.stop.value in points
  }

  lemma PeriodsAreDayPeriods(active: seq<Minute>, points: seq<Minute>, step: int, weekday: Weekday)
    requires IsDayGrid(points, step) && OnGrid(active, step) && forall p | p in active :: p in points
    ensures forall s | s in PeriodsOf(active, points, step, weekday) :: IsDayPeriod(s, points, weekday)
  {
    var runs := Runs(active, step, 0);
    var periods := PeriodsOf(active, points, step, weekday);
    forall i | 0 <= i < |periods| ensures IsDayPeriod(periods[i], points, weekday) {
      RunsAreMaximalRuns(active, step, runs[i]);
      assert points[0] in points;
    }
  }

  /** The periods are the maximal runs of active points; the run reaching the day's last point runs to its end. */
  lemma PeriodsAreMaximalRuns(active: seq<Minute>, points: seq<Minute>, step: int, weekday: Weekday, s: ScheduleItem)
    requires IsDayGrid(points, step) && OnGrid(active, step)
    ensures s in PeriodsOf(active, points, step, weekday) <==>
            exists r :: IsMaximalRun(active, step, r) && s == PeriodUpTo(r, points[|points| - 1], weekday)
  {
    var runs := Runs(active, step, 0);
    var periods := PeriodsOf(active, points, step, weekday);
    if s in periods {
      var i :| 0 <= i < |periods| && periods[i] == s;
      RunsAreMaximalRuns(active, step, runs[i]);
    }
    if r :| IsMaximalRun(active, step, r) && s == PeriodUpTo(r, points[|points| - 1], weekday) {
      RunsAreMaximalRuns(active, step, r);
      var i :| 0 <= i < |runs| && runs[i] == r;
      assert periods[i] == s;
    }
  }

  /** `__add_probability` */
  function AddedProbability(s: ScheduleItem, items: PointMap, points: seq<Minute>): (d: DaySchedule)
    requires s.stop.Some? && s.start in points && s.stop.value in points
  {
    s.(probability := Some(PeriodProbability(items, points, s.start, s.stop.value)))
  }

  /** Weekdays and times stay; the probability is the mean over the points outside, by the clock. */
  lemma AddedProbabilityIs(s: ScheduleItem, items: PointMap, points: seq<Minute>, step: int)
    requires IsDayGrid(points, step) && s.stop.Some? && s.start in points && s.stop.value in points
    ensures AddedProbability(s, items, points) ==
            s.(probability := Some(MeanOffClock(items, points, s.start, s.stop.value)))
  {
    hide RecordedOutside, RecordedAt, OffClock, RoundedMean;
    OutsideIsOffClock(items, points, s.start, s.stop.value);
  }

  /** `get_day_schedule`: the active periods of the day that last long enough. */
  function DaySchedules(items: PointMap, points: seq<Minute>, step: int, weekday: Weekday,
                        processedDays: int, minimumDuration: int): (schedules: seq<DaySchedule>)
    requires IsDayGrid(points, step) && Covers(items, points)
    ensures forall d | d in schedules :: IsDayPeriod(d, points, weekday) && DurationMinutes(d) >= minimumDuration
  {
    var active := ActivePoints(items, points, processedDays);
    ActivePointsOnGrid(items, points, step, processedDays);
    PeriodsAreDayPeriods(active, points, step, weekday);
    var periods := Filter(PeriodsOf(active, points, step, weekday), s => DurationMinutes(s) >= minimumDuration);
    assert forall i | 0 <= i < |periods| :: periods[i] in periods;
    seq(|periods|, i requires 0 <= i < |periods| => AddedProbability(periods[i], items, points))
  }

  // ----- which points are shut down, from the counts alone

  ghost predicate Ascending(sorted: seq<int>) {
    forall i, j | 0 <= i < j < |sorted| :: sorted[i] <= sorted[j]
  }

  /** The counts of the points in ascending order. */
  ghost predicate IsSortedCounts(sorted: seq<int>, items: PointMap, points: seq<Minute>)
    requires Covers(items, points)
  {
    && Ascending(sorted)
    && multiset(sorted) == multiset(seq(|points|, i requires 0 <= i < |points| => items[points[i]].count))
  }

  lemma LeastComesFirst(a: seq<int>, b: seq<int>)
    requires a != [] && b != [] && Ascending(a) && multiset(a) == multiset(b)
    ensures a[0] <= b[0]
  {
    assert b[0] in multiset(b);
    assert b[0] in a;
  }

  lemma WithoutFirst(a: seq<int>)
    requires a != []
    ensures multiset(a[1..]) == multiset(a) - multiset{a[0]}
    ensures Ascending(a) ==> Ascending(a[1..])
  {
    assert a == [a[0]] + a[1..];
  }

  lemma {:induction false} SortedIsUnique(a: seq<int>, b: seq<int>)
    requires Ascending(a) && Ascending(b) && multiset(a) == multiset(b)
    ensures a == b
  {
    hide Ascending;
    SameSize(a, b);
    if a != [] {
      LeastComesFirst(a, b);
      LeastComesFirst(b, a);
      WithoutFirst(a);
      WithoutFirst(b);
      SortedIsUnique(a[1..], b[1..]);
      assert a == [a[0]] + a[1..] && b == [b[0]] + b[1..];
    }
  }

  lemma SameSize(a: seq<int>, b: seq<int>)
    requires multiset(a) == multiset(b)
    ensures |a| == |b|
  {
    assert |multiset(a)| == |a| && |multiset(b)| == |b|;
  }

  lemma SortedCounts(sorted: seq<int>, items: PointMap, points: seq<Minute>)
    requires Covers(items, points) && IsSortedCounts(sorted, items, points)
    ensures sorted == Sort(CountsOf(items, points), AtMost)
  {
    var counts := CountsOf(items, points);
    assert counts == seq(|points|, i requires 0 <= i < |points| => items[points[i]].count);
    SortSorted(counts, AtMost);
    SortedIsUnique(sorted, Sort(counts, AtMost));
  }

  /** A point is left out exactly if its count reaches three quarters of a count per processed week, and the
      middle of the day's counts: twice the count is at least the sum of the two middle ones. */
  lemma ShutDownIff(items: PointMap, points: seq<Minute>, processedDays: int, sorted: seq<int>, p: Minute)
    requires Covers(items, points) && |points| >= 2 && p in points && IsSortedCounts(sorted, items, points)
    ensures |sorted| == |points|
    ensures p !in ActivePoints(items, points, processedDays) <==>
            && 28 * items[p].count >= 3 * processedDays
            && 2 * items[p].count >= sorted[(|sorted| - 1) / 2] + sorted[|sorted| / 2]
  {
    SortedCounts(sorted, items, points);
    hide Sort, SecondQuartile, IsSortedCounts;
    SecondQuartileIsMiddle(items, points);
  }

  lemma SecondQuartileIsMiddle(items: PointMap, points: seq<Minute>)
    requires Covers(items, points) && |points| >= 2
    ensures var sorted := Sort(CountsOf(items, points), AtMost);
            |sorted| == |points| &&
            SecondQuartile(CountsOf(items, points)) == (sorted[(|sorted| - 1) / 2] + sorted[|sorted| / 2]) as real / 2.0
  {
    MiddleQuantileIsMiddle(Sort(CountsOf(items, points), AtMost));
  }

  /** The counts always have an ascending order. */
  lemma CountsCanBeSorted(items: PointMap, points: seq<Minute>) returns (sorted: seq<int>)
    requires Covers(items, points)
    ensures IsSortedCounts(sorted, items, points)
  {
    var counts := CountsOf(items, points);
    assert counts == seq(|points|, i requires 0 <= i < |points| => items[points[i]].count);
    SortSorted(counts, AtMost);
    sorted := Sort(counts, AtMost);
  }

  /** What is counted at least as often as a point that is shut down is shut down too. */
  lemma MoreCountsShutDown(items: PointMap, points: seq<Minute>, processedDays: int, p: Minute, q: Minute)
    requires Covers(items, points) && |points| >= 2 && p in points && q in points
    requires items[q].count >= items[p].count && p !in ActivePoints(items, points, processedDays)
    ensures q !in ActivePoints(items, points, processedDays)
  {
    hide ActivePoints, IsSortedCounts;
    var sorted := CountsCanBeSorted(items, points);
    ShutDownIff(items, points, processedDays, sorted, p);
    ShutDownIff(items, points, processedDays, sorted, q);
  }

  lemma GreatestReachesMiddle(items: PointMap, points: seq<Minute>, sorted: seq<int>, greatest: int)
    requires Covers(items, points) && IsSortedCounts(sorted, items, points)
    requires forall p | p in points :: items[p].count <= greatest
    ensures forall i | 0 <= i < |sorted| :: sorted[i] <= greatest
  {
    var counts := seq(|points|, i requires 0 <= i < |points| => items[points[i]].count);
    forall i | 0 <= i < |sorted| ensures sorted[i] <= greatest {
      assert sorted[i] in multiset(counts);
      var k :| 0 <= k < |counts| && counts[k] == sorted[i];
      assert points[k] in points;
    }
  }

  /** The point counted most often lies inside no day schedule, once its count reaches its share of the weeks. */
  lemma MostCountedIsDown(items: PointMap, points: seq<Minute>, step: int, weekday: Weekday, processedDays: int,
                          minimumDuration: int, q: Minute, d: DaySchedule)
    requires IsDayGrid(points, step) && Covers(items, points) && q in points
    requires forall p | p in points :: items[p].count <= items[q].count
    requires 28 * items[q].count >= 3 * processedDays
    requires d in DaySchedules(items, points, step, weekday, processedDays, minimumDuration)
    ensures !(d.start <= q <= if d.stop.value == 0 then points[|points| - 1] else d.stop.value)
  {
    hide OnStep, ActivePoints, IsSortedCounts, DurationMinutes, PeriodProbability, PeriodsOf;
    var active := ActivePoints(items, points, processedDays);
    var sorted := CountsCanBeSorted(items, points);
    ShutDownIff(items, points, processedDays, sorted, q);
    GreatestReachesMiddle(items, points, sorted, items[q].count);
    ActivePointsOnGrid(items, points, step, processedDays);
    var long := Filter(PeriodsOf(active, points, step, weekday), s => DurationMinutes(s) >= minimumDuration);
    var schedules := DaySchedules(items, points, step, weekday, processedDays, minimumDuration);
    var i :| 0 <= i < |schedules| && schedules[i] == d;
    assert long[i] in long;
    PeriodsAreMaximalRuns(active, points, step, weekday, long[i]);
    var r :| IsMaximalRun(active, step, r) && long[i] == PeriodUpTo(r, points[|points| - 1], weekday);
    assert OnStep(q, step);
  }

  /** One pass over the active points, closing a period wherever the next point is not adjacent. */
  method CutIntoPeriods(actionPeriod: seq<Minute>, step: int, weekday: Weekday, lastPoint: Minute)
    returns (periods: seq<ScheduleItem>)
    requires forall i | 0 <= i < |actionPeriod| - 1 :: actionPeriod[i] != lastPoint
    ensures periods == Map(Runs(actionPeriod, step, 0), r => PeriodUpTo(r, lastPoint, weekday))
  {
    hide Runs;
    periods := [];
    var period: Option<ScheduleItem> := None;
    var prev: Minute := 0;
    ghost var s: nat := 0;
    for n := 0 to |actionPeriod|
      invariant if n == 0 then period == None && s == 0 else
                && s < n && prev == actionPeriod[n - 1]
                && period ==
                   Some(ScheduleItem([weekday], actionPeriod[s], if s < n - 1 then Some(prev) else None, None))
      invariant forall k | s <= k < n - 1 :: AdjacentAt(actionPeriod, k, step)
      invariant Closed(periods, actionPeriod, step, s, weekday, lastPoint)
    {
      var timePoint := actionPeriod[n];
      if period.None? {
        period := Some(ScheduleItem([weekday], timePoint, None, None));
      } else if Adjacent(prev, timePoint, step) {
        period := Some(period.value.(stop := Some(timePoint)));
      } else {
        RunCloses(actionPeriod, step, s, n - 1);
        if period.value.stop.Some? {
          periods := periods + [period.value];
        }
        period := Some(ScheduleItem([weekday], timePoint, None, None));
        s := n;
      }
      prev := timePoint;
    }
    if period.Some? {
      RunCloses(actionPeriod, step, s, |actionPeriod| - 1);
    }
    if period.Some? && period.value.stop.Some? {
      if period.value.stop.value == lastPoint {
        period := Some(period.value.(stop := Some(0)));
      }
      periods := periods + [period.value];
    }
    NoRunsAtEnd(actionPeriod, step);
  }

  /** The periods closed so far are those of the runs before index `s`. */
  ghost predicate Closed(periods: seq<ScheduleItem>, a: seq<Minute>, step: int, s: nat, weekday: Weekday,
                         lastPoint: Minute)
    requires s <= |a|
  {
    var runs := Runs(a, step, 0);
    && |periods| <= |runs| && runs[|periods|..] == Runs(a, step, s)
    && forall k | 0 <= k < |periods| :: periods[k] == PeriodUpTo(runs[k], lastPoint, weekday)
  }

  class FrequencyMapDay {
    const timePoints: seq<Minute>
    const weekday: Weekday
    const stepMinutes: int
    var items: PointMap

    ghost predicate Valid()
      reads this
    {
      IsDayGrid(timePoints, stepMinutes) && forall p :: p in items <==> p in timePoints
    }

    constructor (action: string, timePoints: seq<Minute>, weekday: Weekday, stepMinutes: int)
      requires IsDayGrid(timePoints, stepMinutes)
      ensures Valid() && this.timePoints == timePoints && this.stepMinutes == stepMinutes && this.weekday == weekday
      ensures forall p | p in items :: items[p] == FrequencyMapItem(action, [], 0)
    {
      this.timePoints := timePoints;
      this.weekday := weekday;
      this.stepMinutes := stepMinutes;
      this.items := map p: Minute | p in timePoints :: FrequencyMapItem(action, [], 0);
    }

    /** One more shutdown period covers the point. */
    method Record(point: Minute, probability: real)
      requires Valid() && point in timePoints
      modifies this
      ensures Valid()
      ensures items == old(items)[point := FrequencyMapItem(old(items[point].action),
                                                            old(items[point].probabilities) + [probability],
                                                            old(items[point].count) + 1)]
    {
      var item := items[point];
      item := item.(count := item.count + 1);
      item := item.(probabilities := item.probabilities + [probability]);
      items := items[point := item];
    }

    method GetDaySchedule(processedDays: int, minimumDuration: int) returns (periods: seq<DaySchedule>)
      requires Valid()
      ensures periods == DaySchedules(items, timePoints, stepMinutes, weekday, processedDays, minimumDuration)
    {
      var actionPeriod := ActivePoints(items, timePoints, processedDays);
      ActivePointsOnGrid(items, timePoints, stepMinutes, processedDays);
      var all := ToDaySchedule(actionPeriod);
      PeriodsAreDayPeriods(actionPeriod, timePoints, stepMinutes, weekday);
      var long := Filter(all, s => DurationMinutes(s) >= minimumDuration);
      assert forall i | 0 <= i < |long| :: long[i] in long;
      periods := AddProbability(long);
    }

    method ToDaySchedule(actionPeriod: seq<Minute>) returns (periods: seq<ScheduleItem>)
      requires Valid() && OnGrid(actionPeriod, stepMinutes) && forall p | p in actionPeriod :: p in timePoints
      ensures periods == PeriodsOf(actionPeriod, timePoints, stepMinutes, weekday)
    {
      forall i | 0 <= i < |actionPeriod| - 1 ensures actionPeriod[i] != timePoints[|timePoints| - 1] {
        assert actionPeriod[i] < actionPeriod[i + 1] && actionPeriod[i + 1] in timePoints;
      }
      periods := CutIntoPeriods(actionPeriod, stepMinutes, weekday, timePoints[|timePoints| - 1]);
    }

    method AddProbability(periods: seq<ScheduleItem>) returns (result: seq<DaySchedule>)
      requires Valid()
      requires forall i | 0 <= i < |periods| ::
                 periods[i].stop.Some? && periods[i].start in timePoints && periods[i].stop.value in timePoints
      ensures |result| == |periods|
      ensures forall i | 0 <= i < |periods| :: result[i] == AddedProbability(periods[i], items, timePoints)
      ensures forall i | 0 <= i < |periods| ::
                result[i] == periods[i].(probability :=
                  Some(MeanOffClock(items, timePoints, periods[i].start, periods[i].stop.value)))
    {
      hide AddedProbability, MeanOffClock, IsDayGrid;
      result := [];
      for i := 0 to |periods|
        invariant |result| == i
        invariant forall k | 0 <= k < i :: result[k] == AddedProbability(periods[k], items, timePoints)
        invariant forall k | 0 <= k < i ::
            result[k] == periods[k].(probability :=
              Some(MeanOffClock(items, timePoints, periods[k].start, periods[k].stop.value)))
      {
        AddedProbabilityIs(periods[i], items, timePoints, stepMinutes);
        result := result + [AddedProbability(periods[i], items, timePoints)];
      }
    }
  }

  /** One day map per weekday, Monday first. */
  class FrequencyMap {
    var days: seq<FrequencyMapDay>

    ghost predicate Valid(points: seq<Minute>, step: int)
      reads this, days
    {
      && |days| == 7
      && (forall i, j | 0 <= i < j < 7 :: days[i] != days[j])
      && forall i | 0 <= i < 7 ::
           days[i].Valid() && days[i].weekday == i && days[i].timePoints == points && days[i].stepMinutes == step
    }

    constructor (action: string, timePoints: seq<Minute>, stepMinutes: int)
      requires IsDayGrid(timePoints, stepMinutes)
      ensures Valid(timePoints, stepMinutes) && fresh(days)
      ensures forall i, p | 0 <= i < 7 && p in days[i].items :: days[i].items[p] == FrequencyMapItem(action, [], 0)
    {
      days := [];
      new;
      for weekday := 0 to 7
        invariant |days| == weekday && fresh(days)
        invariant forall i, j | 0 <= i < j < weekday :: days[i] != days[j]
        invariant forall i | 0 <= i < weekday ::
                    && days[i].Valid() && days[i].weekday == i
                    && days[i].timePoints == timePoints && days[i].stepMinutes == stepMinutes
        invariant forall i, p | 0 <= i < weekday && p in days[i].items ::
                  days[i].items[p] == FrequencyMapItem(action, [], 0)
      {
        var day := new FrequencyMapDay(action, timePoints, weekday, stepMinutes);
        days := days + [day];
      }
    }
  }
}
