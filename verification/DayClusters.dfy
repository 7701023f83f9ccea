/** `process_day`: sorting a day's clusters into four load classes and cutting each class into ranges.

    Cluster labels and centroids are inputs. */
module DayClusters {
  import opened Wrappers
  import opened TimeRanges
  import Sequences
  import ScheduleItems

  datatype Load = Shutdown | Low | Good | Over

  type Thresholds = (real, real, real)

  /** The class of a centroid by its first metric. */
  function LoadOf(centroid: seq<real>, t: Thresholds): Load
    requires centroid != []
  {
    if centroid[0] < t.0 then Shutdown
    else if centroid[0] < t.1 then Low
    else if centroid[0] < t.2 then Good
    else Over
  }

  /** The row's cluster exists, is not empty and is of the given class. */
  predicate InClass(r: Row, centroids: seq<seq<real>>, t: Thresholds, load: Load) {
    0 <= r.cluster < |centroids| && centroids[r.cluster] != [] && LoadOf(centroids[r.cluster], t) == load
  }

  function ClassRows(rows: seq<Row>, centroids: seq<seq<real>>, t: Thresholds, load: Load): seq<Row> {
    Sequences.Filter(rows, (r: Row) => InClass(r, centroids, t, load))
  }

  predicate HasCentroid(r: Row, centroids: seq<seq<real>>) {
    0 <= r.cluster < |centroids| && centroids[r.cluster] != []
  }

  function ClusterRows(rows: seq<Row>, index: int): seq<Row> {
    Sequences.Filter(rows, (r: Row) => r.cluster == index)
  }

  /** The clusters of a class one after the other, as `concat` builds them. */
  function ConcatOfClass(rows: seq<Row>, centroids: seq<seq<real>>, n: nat, t: Thresholds, load: Load): seq<Row>
    requires n <= |centroids|
  {
    if n == 0 then []
    else
      var before := ConcatOfClass(rows, centroids, n - 1, t, load);
      if centroids[n - 1] != [] && LoadOf(centroids[n - 1], t) == load then before + ClusterRows(rows, n - 1)
      else before
  }

  datatype DaySettings = DaySettings(
    thresholds: Thresholds, recordStep: int, optimizedThresholdDays: int, optimizedStep: int)

  /** The allowed steps, narrowed to the day's own first gap where that is one of them. */
  function StepOptions(rows: seq<Row>, s: DaySettings): seq<int>
    requires |rows| >= 2
  {
    var optimized := if s.optimizedThresholdDays != 0 && s.optimizedStep != 0 then [s.optimizedStep] else [];
    var options := [s.recordStep] + optimized;
    var actual := rows[1].time - rows[0].time;
    if actual in options then [actual] else options
  }

  method ProcessDay(rows: seq<Row>, centroids: seq<seq<real>>, s: DaySettings)
    returns (shutdown: seq<seq<Row>>, low: seq<seq<Row>>, good: seq<seq<Row>>, over: seq<seq<Row>>)
    requires |rows| >= 2 && Ordered(rows) && s.recordStep >= 1 && s.optimizedStep >= 0
    ensures var options := StepOptions(rows, s);
            && Options(options)
            && shutdown == RangesOf(ClassRows(rows, centroids, s.thresholds, Shutdown), options)
            && low == RangesOf(ClassRows(rows, centroids, s.thresholds, Low), options)
            && good == RangesOf(ClassRows(rows, centroids, s.thresholds, Good), options)
            && over == RangesOf(ClassRows(rows, centroids, s.thresholds, Over), options)
    ensures forall range | range in shutdown :: IsOfRows(range, rows, centroids, None, Some(s.thresholds.0))
    ensures forall range | range in low ::
              IsOfRows(range, rows, centroids, Some(s.thresholds.0), Some(s.thresholds.1))
    ensures forall range | range in good ::
              IsOfRows(range, rows, centroids, Some(s.thresholds.1), Some(s.thresholds.2))
    ensures forall range | range in over :: IsOfRows(range, rows, centroids, Some(s.thresholds.2), None)
  {
    var shutdownRows, lowRows, goodRows, overRows := ClassifyClusters(rows, centroids, s.thresholds);
    var options := StepOptions(rows, s);
    StepOptionsValid(rows, s);
    shutdown := RangesOfClass(shutdownRows, rows, centroids, s.thresholds, Shutdown, options);
    low := RangesOfClass(lowRows, rows, centroids, s.thresholds, Low, options);
    good := RangesOfClass(goodRows, rows, centroids, s.thresholds, Good, options);
    over := RangesOfClass(overRows, rows, centroids, s.thresholds, Over, options);
    DayRangesAreOfRows(rows, centroids, s.thresholds, options);
  }

  /** A row whose centroid's first metric is at least `from` and below `to`. */
  ghost predicate IsBetween(r: Row, centroids: seq<seq<real>>, from: Option<real>, to: Option<real>) {
    && HasCentroid(r, centroids)
    && (from.Some? ==> from.value <= centroids[r.cluster][0])
    && (to.Some? ==> centroids[r.cluster][0] < to.value)
  }

  /** The range begins at such a row of the day, and every load in it is that of one. */
  ghost predicate IsOfRows(range: seq<Row>, rows: seq<Row>, centroids: seq<seq<real>>, from: Option<real>,
                           to: Option<real>) {
    && range != []
    && (exists r :: r in rows && r.time == range[0].time && IsBetween(r, centroids, from, to))
    && forall x | x in range :: exists r :: r in rows && r.load == x.load && IsBetween(r, centroids, from, to)
  }

  lemma RangeIsOfRows(rows: seq<Row>, centroids: seq<seq<real>>, t: Thresholds, load: Load, options: seq<int>,
                      range: seq<Row>, from: Option<real>, to: Option<real>)
    requires Ordered(rows) && Options(options) && range in RangesOf(ClassRows(rows, centroids, t, load), options)
    requires forall r | r in ClassRows(rows, centroids, t, load) :: IsBetween(r, centroids, from, to)
    ensures IsOfRows(range, rows, centroids, from, to)
  {
    var class_ := ClassRows(rows, centroids, t, load);
    FilterKeepsOrder(rows, (r: Row) => InClass(r, centroids, t, load));
    assert forall r | r in class_ :: r in rows;
    hide Segments, RangesOf, ClassRows, IsBetween, Ordered, CarriesLatest, IsOfRows;
    var ranges := RangesOf(class_, options);
    var k :| 0 <= k < |ranges| && ranges[k] == range;
    RangeReachesItsEnd(class_, options, k, MinOf(options));
    var segment := Segments(class_, options, 0)[k];
    LatestIsOfRows(range, class_, segment.lo, segment.hi, rows, centroids, from, to);
  }

  lemma LatestIsOfRows(range: seq<Row>, class_: seq<Row>, lo: nat, hi: nat, rows: seq<Row>, centroids: seq<seq<real>>,
                       from: Option<real>, to: Option<real>)
    requires forall r | r in class_ :: r in rows && IsBetween(r, centroids, from, to)
    requires lo <= hi < |class_| && range != [] && range[0].time == class_[lo].time
    requires forall x | x in range :: CarriesLatest(x, class_, lo, hi)
    ensures IsOfRows(range, rows, centroids, from, to)
  {
    hide IsBetween;
    assert class_[lo] in class_;
    forall x | x in range ensures exists r :: r in rows && r.load == x.load && IsBetween(r, centroids, from, to) {
      var i :| lo <= i <= hi && x.load == class_[i].load;
      assert class_[i] in class_;
    }
  }

  lemma DayRangesAreOfRows(rows: seq<Row>, centroids: seq<seq<real>>, t: Thresholds, options: seq<int>)
    requires Ordered(rows) && Options(options)
    ensures forall range | range in RangesOf(ClassRows(rows, centroids, t, Shutdown), options) ::
              IsOfRows(range, rows, centroids, None, Some(t.0))
    ensures forall range | range in RangesOf(ClassRows(rows, centroids, t, Low), options) ::
              IsOfRows(range, rows, centroids, Some(t.0), Some(t.1))
    ensures forall range | range in RangesOf(ClassRows(rows, centroids, t, Good), options) ::
              IsOfRows(range, rows, centroids, Some(t.1), Some(t.2))
    ensures forall range | range in RangesOf(ClassRows(rows, centroids, t, Over), options) ::
              IsOfRows(range, rows, centroids, Some(t.2), None)
  {
    hide RangesOf, Ordered, IsOfRows;
    forall range | range in RangesOf(ClassRows(rows, centroids, t, Shutdown), options)
      ensures IsOfRows(range, rows, centroids, None, Some(t.0))
    {
      RangeIsOfRows(rows, centroids, t, Shutdown, options, range, None, Some(t.0));
    }
    forall range | range in RangesOf(ClassRows(rows, centroids, t, Low), options)
      ensures IsOfRows(range, rows, centroids, Some(t.0), Some(t.1))
    {
      RangeIsOfRows(rows, centroids, t, Low, options, range, Some(t.0), Some(t.1));
    }
    forall range | range in RangesOf(ClassRows(rows, centroids, t, Good), options)
      ensures IsOfRows(range, rows, centroids, Some(t.1), Some(t.2))
    {
      RangeIsOfRows(rows, centroids, t, Good, options, range, Some(t.1), Some(t.2));
    }
    forall range | range in RangesOf(ClassRows(rows, centroids, t, Over), options)
      ensures IsOfRows(range, rows, centroids, Some(t.2), None)
    {
      RangeIsOfRows(rows, centroids, t, Over, options, range, Some(t.2), None);
    }
  }

  /** The times of a day's frame are its index, so no class has a time twice and every range can be filled. */
  method RangesOfClass(concat: seq<Row>, ghost rows: seq<Row>, ghost centroids: seq<seq<real>>, ghost t: Thresholds,
                       ghost load: Load, options: seq<int>) returns (ranges: seq<seq<Row>>)
    requires Ordered(rows) && Options(options) && concat == ConcatOfClass(rows, centroids, |centroids|, t, load)
    ensures ranges == RangesOf(ClassRows(rows, centroids, t, load), options)
  {
    hide RangesOf, ConcatOfClass, ClassRows, Ordered, DistinctTimes, Sequences.Sort;
    hide AreResampled, CutsHaveTwoRows, Segments;
    ClassIsSorted(rows, centroids, t, load);
    var result := GetTimeRanges(concat, options);
    ranges := result.value;
  }

  lemma StepOptionsValid(rows: seq<Row>, s: DaySettings)
    requires |rows| >= 2 && s.recordStep >= 1 && s.optimizedStep >= 0
    ensures Options(StepOptions(rows, s))
  {}

  method ClassifyClusters(rows: seq<Row>, centroids: seq<seq<real>>, t: Thresholds)
    returns (shutdown: seq<Row>, low: seq<Row>, good: seq<Row>, over: seq<Row>)
    ensures shutdown == ConcatOfClass(rows, centroids, |centroids|, t, Shutdown)
    ensures low == ConcatOfClass(rows, centroids, |centroids|, t, Low)
    ensures good == ConcatOfClass(rows, centroids, |centroids|, t, Good)
    ensures over == ConcatOfClass(rows, centroids, |centroids|, t, Over)
    ensures forall r :: r in shutdown <==>
                        r in rows && HasCentroid(r, centroids) && centroids[r.cluster][0] < t.0
    ensures forall r :: r in low <==>
                        r in rows && HasCentroid(r, centroids) && t.0 <= centroids[r.cluster][0] < t.1
    ensures forall r :: r in good <==>
                        && r in rows && HasCentroid(r, centroids)
                        && t.0 <= centroids[r.cluster][0] && t.1 <= centroids[r.cluster][0] < t.2
    ensures forall r :: r in over <==>
                        && r in rows && HasCentroid(r, centroids) && t.0 <= centroids[r.cluster][0]
                        && t.1 <= centroids[r.cluster][0] && t.2 <= centroids[r.cluster][0]
  {
    hide ClusterRows;
    shutdown, low, good, over := [], [], [], [];
    for index := 0 to |centroids|
      invariant shutdown == ConcatOfClass(rows, centroids, index, t, Shutdown)
      invariant low == ConcatOfClass(rows, centroids, index, t, Low)
      invariant good == ConcatOfClass(rows, centroids, index, t, Good)
      invariant over == ConcatOfClass(rows, centroids, index, t, Over)
    {
      var centroid := centroids[index];
      if centroid == [] {
        continue;
      }
      var cluster := ClusterRows(rows, index);
      if centroid[0] < t.0 {
        shutdown := shutdown + cluster;
      } else if t.0 <= centroid[0] < t.1 {
        low := low + cluster;
      } else if t.1 <= centroid[0] < t.2 {
        good := good + cluster;
      } else {
        over := over + cluster;
      }
    }
    ClassesByCentroid(rows, centroids, t);
  }

  lemma ClassesByCentroid(rows: seq<Row>, centroids: seq<seq<real>>, t: Thresholds)
    ensures forall load, r :: r in ConcatOfClass(rows, centroids, |centroids|, t, load) <==>
                              r in rows && HasCentroid(r, centroids) && LoadOf(centroids[r.cluster], t) == load
  {
    forall load, r ensures r in ConcatOfClass(rows, centroids, |centroids|, t, load) <==>
                           r in rows && HasCentroid(r, centroids) && LoadOf(centroids[r.cluster], t) == load {
      ConcatMembers(rows, centroids, |centroids|, t, load, r);
    }
  }

  // ----- concatenating the clusters and sorting gives the class's rows in their original order

  lemma ClusterMember(rows: seq<Row>, index: int, r: Row)
    ensures r in ClusterRows(rows, index) <==> r in rows && r.cluster == index
  {}

  lemma {:induction false} ConcatMembers(rows: seq<Row>, centroids: seq<seq<real>>, n: nat, t: Thresholds,
                                         load: Load, r: Row)
    requires n <= |centroids|
    ensures r in ConcatOfClass(rows, centroids, n, t, load) <==>
            r in rows && r.cluster < n && InClass(r, centroids, t, load)
  {
    hide LoadOf, ClusterRows;
    if n > 0 {
      ClusterMember(rows, n - 1, r);
      ConcatMembers(rows, centroids, n - 1, t, load, r);
    }
  }

  lemma {:induction false} FilterKeepsOrder(rows: seq<Row>, p: Row -> bool)
    requires Ordered(rows)
    ensures Ordered(Sequences.Filter(rows, p))
  {
    if rows != [] {
      FilterKeepsOrder(rows[1..], p);
      var rest := Sequences.Filter(rows[1..], p);
      forall j | 0 <= j < |rest| ensures rows[0].time < rest[j].time {
        assert rest[j] in rows[1..];
      }
    }
  }

  lemma OrderedAreDistinct(rows: seq<Row>)
    requires Ordered(rows)
    ensures DistinctTimes(rows)
  {}

  lemma AppendKeepsTimesDistinct(a: seq<Row>, b: seq<Row>)
    requires DistinctTimes(a) && DistinctTimes(b)
    requires forall x, y | x in a && y in b :: x.time != y.time
    ensures DistinctTimes(a + b)
  {
    var all := a + b;
    forall i, j | 0 <= i < j < |all| ensures all[i].time != all[j].time {
      if i < |a| <= j {
        assert all[i] in a && all[j] in b;
      }
    }
  }

  /** Rows of different clusters have different times, being different rows of the frame. */
  lemma ClustersApart(rows: seq<Row>, x: Row, y: Row)
    requires Ordered(rows) && x in rows && y in rows && x != y
    ensures x.time != y.time
  {
    var i :| 0 <= i < |rows| && rows[i] == x;
    var j :| 0 <= j < |rows| && rows[j] == y;
    assert i < j || j < i;
  }

  lemma NextCluster(rows: seq<Row>, before: seq<Row>, index: int)
    requires Ordered(rows) && DistinctTimes(before) && forall x | x in before :: x in rows && x.cluster < index
    ensures DistinctTimes(before + ClusterRows(rows, index))
  {
    var cluster := ClusterRows(rows, index);
    FilterKeepsOrder(rows, (r: Row) => r.cluster == index);
    OrderedAreDistinct(cluster);
    forall x, y | x in before && y in cluster ensures x.time != y.time {
      ClustersApart(rows, x, y);
    }
    hide ClusterRows, DistinctTimes, Ordered;
    AppendKeepsTimesDistinct(before, cluster);
  }

  lemma {:induction false} ConcatDistinct(rows: seq<Row>, centroids: seq<seq<real>>, n: nat, t: Thresholds, load: Load)
    requires Ordered(rows) && n <= |centroids|
    ensures DistinctTimes(ConcatOfClass(rows, centroids, n, t, load))
  {
    assert DistinctTimes([]);
    hide LoadOf, ClusterRows, Ordered, DistinctTimes;
    if n > 0 {
      ConcatDistinct(rows, centroids, n - 1, t, load);
      ConcatBelow(rows, centroids, n - 1, t, load);
      NextCluster(rows, ConcatOfClass(rows, centroids, n - 1, t, load), n - 1);
    }
  }

  lemma ConcatBelow(rows: seq<Row>, centroids: seq<seq<real>>, n: nat, t: Thresholds, load: Load)
    requires n <= |centroids|
    ensures forall x | x in ConcatOfClass(rows, centroids, n, t, load) :: x in rows && x.cluster < n
  {
    forall x | x in ConcatOfClass(rows, centroids, n, t, load) ensures x in rows && x.cluster < n {
      ConcatMembers(rows, centroids, n, t, load, x);
    }
  }

  /** Two ordered lists of the same rows are the same list. */
  lemma {:induction false} OrderedAreEqual(a: seq<Row>, b: seq<Row>)
    requires Ordered(a) && Ordered(b) && forall r :: r in a <==> r in b
    ensures a == b
    decreases |a|
  {
    if a == [] {
      if b != [] {
        FirstIsMember(b);
      }
    } else {
      assert a[0] in b && b != [] && b[0] in a;
      assert a[0] == b[0];
      forall r ensures r in a[1..] <==> r in b[1..] {
        TailMember(a, r);
        TailMember(b, r);
      }
      OrderedAreEqual(a[1..], b[1..]);
      assert a == [a[0]] + a[1..] && b == [b[0]] + b[1..];
    }
  }

  lemma FirstIsMember(a: seq<Row>)
    requires a != []
    ensures a[0] in a
  {}

  lemma TailMember(a: seq<Row>, r: Row)
    requires Ordered(a) && a != []
    ensures r in a[1..] <==> r in a && r != a[0]
  {
    assert a == [a[0]] + a[1..];
  }

  lemma ClassIsSorted(rows: seq<Row>, centroids: seq<seq<real>>, t: Thresholds, load: Load)
    requires Ordered(rows)
    ensures var concat := ConcatOfClass(rows, centroids, |centroids|, t, load);
            DistinctTimes(concat) && Sequences.Sort(concat, NoLater) == ClassRows(rows, centroids, t, load)
  {
    var concat := ConcatOfClass(rows, centroids, |centroids|, t, load);
    ConcatDistinct(rows, centroids, |centroids|, t, load);
    SortOrders(concat);
    Sequences.SortMembers(concat, NoLater);
    FilterKeepsOrder(rows, (r: Row) => InClass(r, centroids, t, load));
    forall r ensures r in Sequences.Sort(concat, NoLater) <==> r in ClassRows(rows, centroids, t, load) {
      ConcatMembers(rows, centroids, |centroids|, t, load, r);
    }
    hide Sequences.Sort, ConcatOfClass, InClass;
    OrderedAreEqual(Sequences.Sort(concat, NoLater), ClassRows(rows, centroids, t, load));
  }

  // ----- what a day's ranges are

  /** Each row of a cluster that is not empty goes to exactly one of the four lists, that of its own centroid. */
  lemma ClassesPartition(rows: seq<Row>, centroids: seq<seq<real>>, t: Thresholds, r: Row, load: Load)
    requires r in rows && 0 <= r.cluster < |centroids| && centroids[r.cluster] != []
    ensures r in ConcatOfClass(rows, centroids, |centroids|, t, load) <==> load == LoadOf(centroids[r.cluster], t)
  {
    hide ConcatOfClass;
    ConcatMembers(rows, centroids, |centroids|, t, load, r);
  }

  /** The day begins with one of the allowed steps. */
  predicate BeginsOnStep(rows: seq<Row>, s: DaySettings)
    requires |rows| >= 2
  {
    var gap := rows[1].time - rows[0].time;
    gap == s.recordStep || (s.optimizedThresholdDays != 0 && gap == s.optimizedStep)
  }

  /** The steps looked for: the day's own first gap if it is allowed, else the record step and the optimized one,
      which counts only with a threshold of days. */
  lemma StepOptionsIff(rows: seq<Row>, s: DaySettings, step: int)
    requires |rows| >= 2
    ensures var gap := rows[1].time - rows[0].time;
            var optimized := s.optimizedThresholdDays != 0 && s.optimizedStep != 0;
            step in StepOptions(rows, s) <==>
            && (step == s.recordStep || (optimized && step == s.optimizedStep))
            && (gap == s.recordStep || (optimized && gap == s.optimizedStep) ==> step == gap)
  {}

  lemma NarrowedOptions(rows: seq<Row>, s: DaySettings)
    requires |rows| >= 2 && Ordered(rows) && BeginsOnStep(rows, s)
    ensures StepOptions(rows, s) == [rows[1].time - rows[0].time] && rows[1].time > rows[0].time
  {}

  /** The rows of a class span no more than the day. */
  lemma ClassSpan(rows: seq<Row>, centroids: seq<seq<real>>, t: Thresholds, load: Load)
    requires rows != [] && Ordered(rows)
    ensures var class_ := ClassRows(rows, centroids, t, load);
            && Ordered(class_)
            && (class_ != [] ==> class_[|class_| - 1].time - class_[0].time <= rows[|rows| - 1].time - rows[0].time)
  {
    var class_ := ClassRows(rows, centroids, t, load);
    FilterKeepsOrder(rows, (r: Row) => InClass(r, centroids, t, load));
    if class_ != [] {
      assert class_[0] in class_ && class_[|class_| - 1] in class_;
      FirstAndLast(rows, class_[0]);
      FirstAndLast(rows, class_[|class_| - 1]);
    }
  }

  /** A local date, of 25 hours at most, that begins with an allowed step yields uniform ranges of that step,
      except for a range whose first gap is the step plus 24 hours. */
  lemma DateRangeUniformIff(rows: seq<Row>, centroids: seq<seq<real>>, s: DaySettings, load: Load, k: nat)
    requires |rows| >= 2 && Ordered(rows) && s.recordStep >= 1 && s.optimizedStep >= 0 && BeginsOnStep(rows, s)
    requires rows[|rows| - 1].time - rows[0].time < 2 * ScheduleItems.MINUTES_IN_DAY
    requires k < |RangesOf(ClassRows(rows, centroids, s.thresholds, load), [rows[1].time - rows[0].time])|
    ensures var step := rows[1].time - rows[0].time;
            var class_ := ClassRows(rows, centroids, s.thresholds, load);
            var segment := Segments(class_, [step], 0)[k];
            && StepOptions(rows, s) == [step]
            && (Uniform(RangesOf(class_, [step])[k], step) <==>
                class_[segment.lo + 1].time - class_[segment.lo].time != step + ScheduleItems.MINUTES_IN_DAY)
  {
    hide ClassRows, RangesOf, Segments, Uniform;
    NarrowedOptions(rows, s);
    ClassSpan(rows, centroids, s.thresholds, load);
    RangeOfADateUniformIff(ClassRows(rows, centroids, s.thresholds, load), rows[1].time - rows[0].time, k);
  }

  /** On dates of 24 hours or less there is no such gap. */
  lemma DayRangesAreUniform(rows: seq<Row>, centroids: seq<seq<real>>, s: DaySettings, load: Load, k: nat)
    requires |rows| >= 2 && Ordered(rows) && s.recordStep >= 1 && s.optimizedStep >= 0 && BeginsOnStep(rows, s)
    requires rows[|rows| - 1].time - rows[0].time < ScheduleItems.MINUTES_IN_DAY + (rows[1].time - rows[0].time)
    requires k < |RangesOf(ClassRows(rows, centroids, s.thresholds, load), [rows[1].time - rows[0].time])|
    ensures Uniform(RangesOf(ClassRows(rows, centroids, s.thresholds, load), StepOptions(rows, s))[k],
                    rows[1].time - rows[0].time)
  {
    hide ClassRows, RangesOf, Uniform;
    NarrowedOptions(rows, s);
    ClassSpan(rows, centroids, s.thresholds, load);
    RangesOfADayAreUniform(ClassRows(rows, centroids, s.thresholds, load), rows[1].time - rows[0].time, k);
  }

  lemma FirstAndLast(rows: seq<Row>, r: Row)
    requires Ordered(rows) && r in rows
    ensures rows[0].time <= r.time <= rows[|rows| - 1].time
  {
    var i :| 0 <= i < |rows| && rows[i] == r;
    assert i > 0 ==> rows[0].time < rows[i].time;
    assert i < |rows| - 1 ==> rows[i].time < rows[|rows| - 1].time;
  }
}
