/** `get_time_ranges`: cutting a cluster's rows into stretches of uninterrupted time.

    Timestamps are whole minutes. */
module TimeRanges {
  import opened Wrappers
  import opened Sequences
  import ScheduleItems

  datatype Row = Row(time: int, load: real, cluster: int)

  ghost predicate Ordered(rows: seq<Row>) {
    forall i, j | 0 <= i < j < |rows| :: rows[i].time < rows[j].time
  }

  predicate NoLater(a: Row, b: Row) {
    a.time <= b.time
  }

  /** The gap after row `k` is one of the allowed steps. */
  predicate StepAt(rows: seq<Row>, k: int, options: seq<int>)
    requires 0 <= k < |rows| - 1
  {
    rows[k + 1].time - rows[k].time in options
  }

  // ----- the segments, by index

  /** Rows `lo` to `hi`: isolated ones up to `mid`, then one run. */
  datatype Segment = Segment(lo: nat, mid: nat, hi: nat)

  function FirstStep(rows: seq<Row>, options: seq<int>, i: nat): (m: nat)
    requires i <= |rows|
    ensures i <= m <= |rows|
    ensures forall k | i <= k < m && k < |rows| - 1 :: !StepAt(rows, k, options)
    ensures m < |rows| ==> m < |rows| - 1 && StepAt(rows, m, options)
    decreases |rows| - i
  {
    if i + 1 >= |rows| then |rows|
    else if StepAt(rows, i, options) then i
    else FirstStep(rows, options, i + 1)
  }

  function LastStep(rows: seq<Row>, options: seq<int>, i: nat): (h: nat)
    requires i < |rows|
    ensures i <= h < |rows|
    ensures forall k | i <= k < h :: StepAt(rows, k, options)
    ensures h < |rows| - 1 ==> !StepAt(rows, h, options)
    decreases |rows| - i
  {
    if i + 1 < |rows| && StepAt(rows, i, options) then LastStep(rows, options, i + 1) else i
  }

  function Segments(rows: seq<Row>, options: seq<int>, i: nat): seq<Segment>
    requires i <= |rows|
    decreases |rows| - i
  {
    var m := FirstStep(rows, options, i);
    if m == |rows| then []
    else
      var h := LastStep(rows, options, m);
      [Segment(i, m, h)] + Segments(rows, options, h + 1)
  }

  /** What a segment is: isolated rows, then exactly one maximal run of two rows or more. */
  ghost predicate IsSegment(s: Segment, rows: seq<Row>, options: seq<int>) {
    && s.lo <= s.mid < s.hi < |rows|
    && (forall k | s.lo <= k < s.mid :: !StepAt(rows, k, options))
    && (forall k | s.mid <= k < s.hi :: StepAt(rows, k, options))
    && (s.hi < |rows| - 1 ==> !StepAt(rows, s.hi, options))
  }

  /** The segments tile the rows from `i` on, each starting right after the one before it, and what is
      left over holds no two rows a step apart. */
  ghost predicate IsTiling(segs: seq<Segment>, rows: seq<Row>, options: seq<int>, i: nat)
    decreases |segs|
  {
    && i <= |rows|
    && if segs == [] then forall k | i <= k < |rows| - 1 :: !StepAt(rows, k, options)
       else segs[0].lo == i && IsSegment(segs[0], rows, options) && IsTiling(segs[1..], rows, options, segs[0].hi + 1)
  }

  lemma TilingCons(s: Segment, rest: seq<Segment>, rows: seq<Row>, options: seq<int>)
    requires IsSegment(s, rows, options) && IsTiling(rest, rows, options, s.hi + 1)
    ensures IsTiling([s] + rest, rows, options, s.lo)
  {
    assert s.lo <= |rows|;
    hide IsSegment;
    assert ([s] + rest)[1..] == rest;
  }

  lemma {:induction false} SegmentsTile(rows: seq<Row>, options: seq<int>, i: nat)
    requires i <= |rows|
    ensures IsTiling(Segments(rows, options, i), rows, options, i)
    decreases |rows| - i
  {
    hide StepAt, FirstStep, LastStep;
    var m := FirstStep(rows, options, i);
    if m < |rows| {
      var h := LastStep(rows, options, m);
      var rest := Segments(rows, options, h + 1);
      SegmentsTile(rows, options, h + 1);
      TilingCons(Segment(i, m, h), rest, rows, options);
      assert Segments(rows, options, i) == [Segment(i, m, h)] + rest;
    }
  }

  /** The tiling is the only one. */
  lemma {:induction false} TilingIsUnique(segs: seq<Segment>, rows: seq<Row>, options: seq<int>, i: nat)
    requires IsTiling(segs, rows, options, i)
    ensures segs == Segments(rows, options, i)
    decreases |segs|
  {
    if segs == [] {
      NoStepLeft(rows, options, i);
    } else {
      var s := segs[0];
      SegmentCloses(rows, options, s);
      TilingIsUnique(segs[1..], rows, options, s.hi + 1);
      assert segs == [s] + segs[1..];
      var all := Segments(rows, options, i);
      assert all == [all[0]] + all[1..];
    }
  }

  lemma {:induction false} TilingSegment(segs: seq<Segment>, rows: seq<Row>, options: seq<int>, i: nat, k: nat)
    requires IsTiling(segs, rows, options, i) && k < |segs|
    ensures IsSegment(segs[k], rows, options)
    ensures segs[k].lo == if k == 0 then i else segs[k - 1].hi + 1
    decreases k
  {
    if k > 0 {
      TilingSegment(segs[1..], rows, options, segs[0].hi + 1, k - 1);
    }
  }

  lemma {:induction false} FirstStepIs(rows: seq<Row>, options: seq<int>, i: nat, m: nat)
    requires i <= m < |rows| - 1 && StepAt(rows, m, options)
    requires forall k | i <= k < m :: !StepAt(rows, k, options)
    ensures FirstStep(rows, options, i) == m
    decreases m - i
  {
    if i < m {
      FirstStepIs(rows, options, i + 1, m);
    }
  }

  lemma {:induction false} NoStepLeft(rows: seq<Row>, options: seq<int>, i: nat)
    requires i <= |rows| && forall k | i <= k < |rows| - 1 :: !StepAt(rows, k, options)
    ensures Segments(rows, options, i) == []
    decreases |rows| - i
  {}

  lemma {:induction false} LastStepIs(rows: seq<Row>, options: seq<int>, i: nat, h: nat)
    requires i <= h < |rows|
    requires forall k | i <= k < h :: StepAt(rows, k, options)
    requires h < |rows| - 1 ==> !StepAt(rows, h, options)
    ensures LastStep(rows, options, i) == h
    decreases h - i
  {
    if i < h {
      LastStepIs(rows, options, i + 1, h);
    }
  }

  /** Closing the segment that starts at `lo`. */
  lemma SegmentCloses(rows: seq<Row>, options: seq<int>, s: Segment)
    requires IsSegment(s, rows, options)
    ensures Segments(rows, options, s.lo) != [] && Segments(rows, options, s.lo)[0] == s
    ensures Segments(rows, options, s.lo)[1..] == Segments(rows, options, s.hi + 1)
  {
    FirstStepIs(rows, options, s.lo, s.mid);
    LastStepIs(rows, options, s.mid, s.hi);
  }

  lemma AllAreSegments(rows: seq<Row>, options: seq<int>)
    ensures forall k | 0 <= k < |Segments(rows, options, 0)| :: IsSegment(Segments(rows, options, 0)[k], rows, options)
  {
    var segs := Segments(rows, options, 0);
    SegmentsTile(rows, options, 0);
    forall k | 0 <= k < |segs| ensures IsSegment(segs[k], rows, options) {
      TilingSegment(segs, rows, options, 0, k);
    }
  }

  // ----- the rows between two timestamps

  predicate Within(r: Row, from: int, to: int) {
    from <= r.time <= to
  }

  /** `df[(df.index >= start) & (df.index <= end)]` */
  function Between(rows: seq<Row>, from: int, to: int): seq<Row> {
    Filter(rows, (r: Row) => Within(r, from, to))
  }

  lemma WithinByPosition(rows: seq<Row>, lo: nat, hi: nat)
    requires Ordered(rows) && lo <= hi < |rows|
    ensures forall r | r in rows[..lo] :: !Within(r, rows[lo].time, rows[hi].time)
    ensures forall r | r in rows[lo..hi + 1] :: Within(r, rows[lo].time, rows[hi].time)
    ensures forall r | r in rows[hi + 1..] :: !Within(r, rows[lo].time, rows[hi].time)
  {
    forall r | r in rows[..lo] ensures r.time < rows[lo].time {}
    forall r | r in rows[lo..hi + 1] ensures rows[lo].time <= r.time <= rows[hi].time {
      var i :| lo <= i <= hi && rows[i] == r;
      assert i > lo ==> rows[lo].time < rows[i].time;
      assert i < hi ==> rows[i].time < rows[hi].time;
    }
    forall r | r in rows[hi + 1..] ensures rows[hi].time < r.time {
      var i :| hi < i < |rows| && rows[i] == r;
    }
  }

  lemma BetweenIsSlice(rows: seq<Row>, lo: nat, hi: nat)
    requires Ordered(rows) && lo <= hi < |rows|
    ensures Between(rows, rows[lo].time, rows[hi].time) == rows[lo..hi + 1]
  {
    WithinByPosition(rows, lo, hi);
    FilterIsMiddle(rows[..lo], rows[lo..hi + 1], rows[hi + 1..], (r: Row) => Within(r, rows[lo].time, rows[hi].time));
    SplitInThree(rows, lo, hi + 1);
  }

  // ----- resampling

  /** The load of the latest row at or before `t`. */
  function LoadAt(rows: seq<Row>, t: int): real
    requires rows != []
  {
    if |rows| == 1 || rows[|rows| - 1].time <= t then rows[|rows| - 1].load else LoadAt(rows[..|rows| - 1], t)
  }

  lemma {:induction false} LoadAtIsLatest(rows: seq<Row>, t: int) returns (i: nat)
    requires Ordered(rows) && rows != [] && rows[0].time <= t
    ensures i < |rows| && LoadAt(rows, t) == rows[i].load
    ensures rows[i].time <= t && (i + 1 < |rows| ==> t < rows[i + 1].time)
  {
    if |rows| == 1 || rows[|rows| - 1].time <= t {
      i := |rows| - 1;
    } else {
      i := LoadAtIsLatest(rows[..|rows| - 1], t);
    }
  }

  /** `asfreq(step, method='ffill')`: the grid of the step from the first row to the last. */
  function Grid(rows: seq<Row>, from: int, to: int, step: int): (grid: seq<Row>)
    requires rows != [] && step >= 1
    decreases if from > to then 0 else to - from + 1
  {
    if from > to then [] else [Row(from, LoadAt(rows, from), rows[0].cluster)] + Grid(rows, from + step, to, step)
  }

  ghost predicate Uniform(rows: seq<Row>, step: int) {
    forall i | 0 <= i < |rows| - 1 :: StepAt(rows, i, [step])
  }

  lemma {:induction false} GridIsUniform(rows: seq<Row>, from: int, to: int, step: int)
    requires rows != [] && step >= 1
    ensures var grid := Grid(rows, from, to, step);
            && Uniform(grid, step)
            && (from <= to ==> grid != [] && grid[0].time == from && to - step < grid[|grid| - 1].time <= to)
            && (forall r | r in grid :: r.load == LoadAt(rows, r.time))
    decreases if from > to then 0 else to - from + 1
  {
    if from <= to {
      GridIsUniform(rows, from + step, to, step);
      var rest := Grid(rows, from + step, to, step);
      var grid := Grid(rows, from, to, step);
      forall i | 0 <= i < |grid| - 1 ensures StepAt(grid, i, [step]) {
        if i > 0 {
          assert StepAt(rest, i - 1, [step]);
        }
      }
    }
  }

  function MinOf(options: seq<int>): (m: int)
    requires options != []
    ensures m in options && forall o | o in options :: m <= o
  {
    if |options| == 1 then options[0]
    else
      var m := MinOf(options[1..]);
      assert options == [options[0]] + options[1..];
      if options[0] < m then options[0] else m
  }

  /** `(df.index[1] - df.index[0]).seconds // 60`, which leaves whole days out. */
  function FirstGap(rows: seq<Row>): int
    requires |rows| >= 2
  {
    (rows[1].time - rows[0].time) % ScheduleItems.MINUTES_IN_DAY
  }

  function Resampled(rows: seq<Row>, step: int): seq<Row>
    requires |rows| >= 2 && step >= 1
  {
    if FirstGap(rows) != step then Grid(rows, rows[0].time, rows[|rows| - 1].time, step) else rows
  }

  function SegmentRows(s: Segment, rows: seq<Row>): seq<Row>
    requires s.lo <= s.hi < |rows|
  {
    rows[s.lo..s.hi + 1]
  }

  // ----- the function

  ghost predicate Options(options: seq<int>) {
    options != [] && forall o | o in options :: o >= 1
  }

  /** The ranges of rows already in order. */
  function RangesOf(rows: seq<Row>, options: seq<int>): (ranges: seq<seq<Row>>)
    requires Options(options)
    ensures |ranges| == |Segments(rows, options, 0)|
    ensures forall k | 0 <= k < |ranges| ::
              var s := Segments(rows, options, 0)[k];
              s.lo < s.hi < |rows| && ranges[k] == Resampled(SegmentRows(s, rows), MinOf(options))
  {
    var segs := Segments(rows, options, 0);
    AllAreSegments(rows, options);
    assert forall k | 0 <= k < |segs| :: IsSegment(segs[k], rows, options) ==> segs[k].lo < segs[k].hi < |rows|;
    assert forall k | 0 <= k < |segs| :: segs[k].lo < segs[k].hi < |rows|;
    seq(|segs|, k requires 0 <= k < |segs| => Resampled(SegmentRows(segs[k], rows), MinOf(options)))
  }

  // ----- what a range is, by its rows

  /** The row carries the load of the latest of the rows `lo` to `hi` at or before it. */
  ghost predicate CarriesLatest(r: Row, rows: seq<Row>, lo: nat, hi: nat)
    requires hi < |rows|
  {
    exists k :: lo <= k <= hi && rows[k].time <= r.time && r.load == rows[k].load &&
                (k < hi ==> r.time < rows[k + 1].time)
  }

  /** From the first of the rows `lo` to `hi` to less than a step before the last, one row a step. */
  ghost predicate IsFilled(range: seq<Row>, rows: seq<Row>, lo: nat, hi: nat, step: int)
    requires lo <= hi < |rows|
  {
    && range != [] && range[0].time == rows[lo].time
    && rows[hi].time - step < range[|range| - 1].time <= rows[hi].time
    && Uniform(range, step)
    && forall r | r in range :: CarriesLatest(r, rows, lo, hi)
  }

  lemma GridIsFilled(rows: seq<Row>, lo: nat, hi: nat, step: int)
    requires Ordered(rows) && lo < hi < |rows| && step >= 1
    ensures var cut := rows[lo..hi + 1];
            IsFilled(Grid(cut, cut[0].time, cut[|cut| - 1].time, step), rows, lo, hi, step)
  {
    hide Grid, Uniform, LoadAt;
    var cut := rows[lo..hi + 1];
    var grid := Grid(cut, cut[0].time, cut[|cut| - 1].time, step);
    GridIsUniform(cut, cut[0].time, cut[|cut| - 1].time, step);
    GridStartsFirst(cut, cut[0].time, cut[|cut| - 1].time, step);
    forall r | r in grid ensures CarriesLatest(r, rows, lo, hi) {
      var i := LoadAtIsLatest(cut, r.time);
      assert cut[i] == rows[lo + i];
      assert i + 1 < |cut| ==> cut[i + 1] == rows[lo + i + 1];
    }
  }

  lemma {:induction false} GridStartsFirst(rows: seq<Row>, from: int, to: int, step: int)
    requires rows != [] && step >= 1
    ensures forall r | r in Grid(rows, from, to, step) :: from <= r.time <= to
    decreases if from > to then 0 else to - from + 1
  {
    if from <= to {
      GridStartsFirst(rows, from + step, to, step);
    }
  }

  /** Every range, from the rows of its segment: they are kept where the first two are the smallest step apart,
      whole days aside, and filled otherwise. */
  lemma RangeIsFilled(rows: seq<Row>, options: seq<int>, k: nat, step: int)
    requires Options(options) && Ordered(rows) && k < |RangesOf(rows, options)|
    requires step in options && forall o | o in options :: step <= o
    ensures var (range, s) := (RangesOf(rows, options)[k], Segments(rows, options, 0)[k]);
            && s.lo < s.hi < |rows|
            && if (rows[s.lo + 1].time - rows[s.lo].time) % 1440 == step then range == rows[s.lo..s.hi + 1]
               else IsFilled(range, rows, s.lo, s.hi, step)
  {
    hide Segments, Grid, IsFilled;
    var s := Segments(rows, options, 0)[k];
    assert MinOf(options) == step;
    GridIsFilled(rows, s.lo, s.hi, step);
  }

  /** From the first of the rows `lo` to `hi` to less than a step before the last, with the latest load at each
      of its times. */
  ghost predicate ReachesItsEnd(range: seq<Row>, rows: seq<Row>, lo: nat, hi: nat, step: int)
    requires lo <= hi < |rows|
  {
    && range != [] && range[0].time == rows[lo].time
    && rows[hi].time - step < range[|range| - 1].time <= rows[hi].time
    && forall r | r in range :: CarriesLatest(r, rows, lo, hi)
  }

  /** Filled or not, a range reaches from the first to the last row of its segment. */
  lemma RangeReachesItsEnd(rows: seq<Row>, options: seq<int>, k: nat, step: int)
    requires Options(options) && Ordered(rows) && k < |RangesOf(rows, options)|
    requires step in options && forall o | o in options :: step <= o
    ensures var (range, s) := (RangesOf(rows, options)[k], Segments(rows, options, 0)[k]);
            s.lo < s.hi < |rows| && ReachesItsEnd(range, rows, s.lo, s.hi, step)
  {
    RangeIsFilled(rows, options, k, step);
    hide Segments, RangesOf, CarriesLatest, Ordered, ReachesItsEnd, IsFilled;
    var s := Segments(rows, options, 0)[k];
    SliceReaches(rows, s.lo, s.hi, step);
    FilledReaches(RangesOf(rows, options)[k], rows, s.lo, s.hi, step);
  }

  lemma FilledReaches(range: seq<Row>, rows: seq<Row>, lo: nat, hi: nat, step: int)
    requires lo <= hi < |rows|
    ensures IsFilled(range, rows, lo, hi, step) ==> ReachesItsEnd(range, rows, lo, hi, step)
  {
    hide CarriesLatest, Uniform;
  }

  lemma SliceReaches(rows: seq<Row>, lo: nat, hi: nat, step: int)
    requires Ordered(rows) && lo <= hi < |rows| && step >= 1
    ensures ReachesItsEnd(rows[lo..hi + 1], rows, lo, hi, step)
  {
    forall r | r in rows[lo..hi + 1] ensures CarriesLatest(r, rows, lo, hi) {
      var i :| lo <= i <= hi && rows[i] == r;
      assert i < hi ==> r.time < rows[i + 1].time;
    }
  }

  ghost predicate DistinctTimes(rows: seq<Row>) {
    forall i, j | 0 <= i < j < |rows| :: rows[i].time != rows[j].time
  }

  /** A range as it is cut, by its first and last time. */
  function CutOf(s: Segment, rows: seq<Row>): seq<Row>
    requires s.lo < |rows| && s.hi < |rows|
  {
    Between(rows, rows[s.lo].time, rows[s.hi].time)
  }

  /** Filling raises on a range with a repeated time, and only a range off the step is filled. */
  ghost predicate Unfillable(range: seq<Row>, step: int)
    requires |range| >= 2
  {
    FirstGap(range) != step && !DistinctTimes(range)
  }

  /** None where a range cannot be filled. */
  method GetTimeRanges(df: seq<Row>, options: seq<int>) returns (ranges: Option<seq<seq<Row>>>)
    requires Options(options)
    ensures var rows := Sort(df, NoLater);
            && CutsHaveTwoRows(rows, options)
            && (ranges.None? <==>
                exists s | s in Segments(rows, options, 0) :: Unfillable(CutOf(s, rows), MinOf(options)))
            && (ranges.Some? ==> AreResampled(ranges.value, rows, options))
    ensures DistinctTimes(df) ==> ranges == Some(RangesOf(Sort(df, NoLater), options))
  {
    var rows := Sort(df, NoLater);
    SortedRows(df);
    SortedCutsHaveTwoRows(rows, options);
    hide Sort, Resampled, Ordered, Segments, SortedBy, Unfillable, Between;
    var cut := CutRanges(rows, options);
    ghost var segs := Segments(rows, options, 0);
    assert forall k | 0 <= k < |cut| :: segs[k] in segs;
    ranges := ResampleAll(cut, options);
    if DistinctTimes(df) {
      SortOrders(df);
      OrderedCuts(rows, options);
    }
  }

  /** Every segment is cut to two rows or more. */
  ghost predicate CutsHaveTwoRows(rows: seq<Row>, options: seq<int>) {
    forall s | s in Segments(rows, options, 0) :: s.lo < s.hi < |rows| && |CutOf(s, rows)| >= 2
  }

  ghost predicate AreResampled(ranges: seq<seq<Row>>, rows: seq<Row>, options: seq<int>)
    requires Options(options) && CutsHaveTwoRows(rows, options)
  {
    var segs := Segments(rows, options, 0);
    && |ranges| == |segs|
    && forall k | 0 <= k < |ranges| :: segs[k] in segs && ranges[k] == Resampled(CutOf(segs[k], rows), MinOf(options))
  }

  lemma SortedRows(df: seq<Row>)
    ensures SortedBy(Sort(df, NoLater), NoLater)
  {
    SortSorted(df, NoLater);
  }

  lemma SortedCutsHaveTwoRows(rows: seq<Row>, options: seq<int>)
    requires SortedBy(rows, NoLater)
    ensures CutsHaveTwoRows(rows, options)
  {
    AllAreSegments(rows, options);
    hide Segments, Between;
    var segs := Segments(rows, options, 0);
    forall s | s in segs ensures s.lo < s.hi < |rows| && |CutOf(s, rows)| >= 2 {
      var k :| 0 <= k < |segs| && segs[k] == s;
      assert IsSegment(segs[k], rows, options);
      SliceIsBetween(rows, s.lo, s.hi);
    }
  }

  lemma SliceIsBetween(rows: seq<Row>, lo: nat, hi: nat)
    requires SortedBy(rows, NoLater) && lo <= hi < |rows|
    ensures |Between(rows, rows[lo].time, rows[hi].time)| >= hi + 1 - lo
  {
    var from, to := rows[lo].time, rows[hi].time;
    var front, middle, rest := rows[..lo], rows[lo..hi + 1], rows[hi + 1..];
    forall r | r in middle ensures Within(r, from, to) {
      var i :| lo <= i <= hi && rows[i] == r;
      assert i == lo || NoLater(rows[lo], rows[i]);
      assert i == hi || NoLater(rows[i], rows[hi]);
    }
    SplitInThree(rows, lo, hi + 1);
    FilterAppend(front + middle, rest, (r: Row) => Within(r, from, to));
    FilterAppend(front, middle, (r: Row) => Within(r, from, to));
    FilterAll(middle, (r: Row) => Within(r, from, to));
  }

  /** On strictly increasing times the cuts are the slices, and all of them can be filled. */
  lemma OrderedCuts(rows: seq<Row>, options: seq<int>)
    requires Options(options) && Ordered(rows) && CutsHaveTwoRows(rows, options)
    ensures forall s | s in Segments(rows, options, 0) ::
            CutOf(s, rows) == SegmentRows(s, rows) && DistinctTimes(CutOf(s, rows))
    ensures forall ranges | AreResampled(ranges, rows, options) :: ranges == RangesOf(rows, options)
  {
    hide Segments, Between, Resampled;
    forall s | s in Segments(rows, options, 0)
      ensures CutOf(s, rows) == SegmentRows(s, rows) && DistinctTimes(CutOf(s, rows))
    {
      BetweenIsSlice(rows, s.lo, s.hi);
    }
  }

  method ResampleAll(cut: seq<seq<Row>>, options: seq<int>) returns (ranges: Option<seq<seq<Row>>>)
    requires Options(options) && forall k | 0 <= k < |cut| :: |cut[k]| >= 2
    ensures ranges.None? <==> exists k :: 0 <= k < |cut| && Unfillable(cut[k], MinOf(options))
    ensures ranges.Some? ==> |ranges.value| == |cut|
    ensures ranges.Some? ==> forall k | 0 <= k < |cut| :: ranges.value[k] == Resampled(cut[k], MinOf(options))
  {
    var filled := cut;
    for index := 0 to |cut|
      invariant |filled| == |cut|
      invariant forall k | 0 <= k < index ::
                filled[k] == Resampled(cut[k], MinOf(options)) && !Unfillable(cut[k], MinOf(options))
      invariant forall k | index <= k < |cut| :: filled[k] == cut[k]
    {
      var range := filled[index];
      var stepMinutes := FirstGap(range);
      if stepMinutes != MinOf(options) {
        var distinct := HasDistinctTimes(range);
        if !distinct {
          return None;
        }
        filled := filled[index := Grid(range, range[0].time, range[|range| - 1].time, MinOf(options))];
      }
    }
    ranges := Some(filled);
  }

  method HasDistinctTimes(range: seq<Row>) returns (distinct: bool)
    ensures distinct <==> DistinctTimes(range)
  {
    for i := 0 to |range|
      invariant forall a, b | 0 <= a < b < i :: range[a].time != range[b].time
    {
      if exists a: nat | a < i :: range[a].time == range[i].time {
        return false;
      }
    }
    return true;
  }

  lemma {:induction false} SortOrders(df: seq<Row>)
    requires DistinctTimes(df)
    ensures Ordered(Sort(df, NoLater))
  {
    if df != [] {
      SortOrders(df[1..]);
      SortMembers(df[1..], NoLater);
      var rest := Sort(df[1..], NoLater);
      forall r | r in rest ensures r.time != df[0].time {
        var i :| 0 <= i < |df[1..]| && df[1..][i] == r;
        assert df[i + 1] == r;
      }
      InsertOrders(df[0], rest);
    }
  }

  lemma {:induction false} InsertOrders(row: Row, rows: seq<Row>)
    requires Ordered(rows) && forall r | r in rows :: r.time != row.time
    ensures Ordered(Insert(row, rows, NoLater))
  {
    if rows != [] && !NoLater(row, rows[0]) {
      InsertOrders(row, rows[1..]);
      var rest := Insert(row, rows[1..], NoLater);
      forall j | 0 <= j < |rest| ensures rows[0].time < rest[j].time {
        assert rest[j] in multiset(rows[1..]) + multiset{row};
      }
    }
  }

  method CutRanges(rows: seq<Row>, options: seq<int>) returns (ranges: seq<seq<Row>>)
    ensures |ranges| == |Segments(rows, options, 0)|
    ensures forall k | 0 <= k < |ranges| ::
              var s := Segments(rows, options, 0)[k];
              s.lo <= s.hi < |rows| && ranges[k] == CutOf(s, rows)
  {
    hide Segments, Between;
    ranges := [];
    var start: Option<int>, end: Option<int>, last: int := None, None, 0;
    ghost var lo: nat, mid: nat := 0, 0;
    for n := 0 to |rows|
      invariant if n == 0 then start == None && end == None && lo == 0 else
                && lo < n && start == Some(rows[lo].time) && last == rows[n - 1].time
                && (end.Some? ==> lo <= mid < n - 1 && end == Some(rows[n - 1].time))
      invariant forall k | lo <= k < (if end.Some? then mid else n - 1) :: !StepAt(rows, k, options)
      invariant end.Some? ==> forall k | mid <= k < n - 1 :: StepAt(rows, k, options)
      invariant CutSoFar(ranges, rows, options, lo)
    {
      var row := rows[n];
      if start.None? {
        start := Some(row.time);
      } else {
        var diffMinutes := row.time - last;
        assert diffMinutes in options <==> StepAt(rows, n - 1, options);
        if diffMinutes in options {
          if end.None? {
            mid := n - 1;
          }
          end := Some(row.time);
        } else if end.Some? {
          SegmentCloses(rows, options, Segment(lo, mid, n - 1));
          ranges := ranges + [Between(rows, start.value, end.value)];
          start := Some(row.time);
          end := None;
          lo := n;
        }
      }
      last := row.time;
    }
    if start.Some? && end.Some? {
      SegmentCloses(rows, options, Segment(lo, mid, |rows| - 1));
      ranges := ranges + [Between(rows, start.value, end.value)];
      lo := |rows|;
    }
    NoStepLeft(rows, options, lo);
  }

  /** The ranges cut so far are those of the segments before row `lo`. */
  ghost predicate CutSoFar(ranges: seq<seq<Row>>, rows: seq<Row>, options: seq<int>, lo: nat)
    requires lo <= |rows|
  {
    var segs := Segments(rows, options, 0);
    && |ranges| <= |segs| && segs[|ranges|..] == Segments(rows, options, lo)
    && forall k | 0 <= k < |ranges| :: segs[k].lo <= segs[k].hi < |rows| && ranges[k] == CutOf(segs[k], rows)
  }

  // ----- when a range is a uniform grid

  lemma SegmentRowsUniform(s: Segment, rows: seq<Row>, step: int)
    requires IsSegment(s, rows, [step])
    ensures Uniform(SegmentRows(s, rows), step) <==> s.lo == s.mid
  {
    var range := SegmentRows(s, rows);
    assert forall k | 0 <= k < |range| - 1 :: StepAt(range, k, [step]) <==> StepAt(rows, s.lo + k, [step]);
    if s.lo < s.mid {
      assert !StepAt(range, 0, [step]);
    }
  }

  /** With a single step option a range is a uniform grid of that step, unless its first gap is the step
      plus whole days. */
  lemma RangeUniformIff(rows: seq<Row>, step: int, k: nat)
    requires step >= 1 && k < |RangesOf(rows, [step])|
    ensures var s := Segments(rows, [step], 0)[k];
            var gap := rows[s.lo + 1].time - rows[s.lo].time;
            Uniform(RangesOf(rows, [step])[k], step) <==> (gap == step || gap % ScheduleItems.MINUTES_IN_DAY != step)
  {
    AllAreSegments(rows, [step]);
    hide Segments;
    var s := Segments(rows, [step], 0)[k];
    assert IsSegment(s, rows, [step]);
    SegmentUniformIff(rows, step, s);
  }

  lemma SegmentUniformIff(rows: seq<Row>, step: int, s: Segment)
    requires step >= 1 && IsSegment(s, rows, [step])
    ensures var gap := rows[s.lo + 1].time - rows[s.lo].time;
            Uniform(Resampled(SegmentRows(s, rows), step), step) <==>
                (gap == step || gap % ScheduleItems.MINUTES_IN_DAY != step)
  {
    var range := SegmentRows(s, rows);
    SegmentRowsUniform(s, rows, step);
    assert range[0] == rows[s.lo] && range[1] == rows[s.lo + 1];
    assert s.lo == s.mid <==> StepAt(rows, s.lo, [step]);
    hide Grid, Uniform;
    GridIsUniform(range, range[0].time, range[|range| - 1].time, step);
  }

  /** The first gap of a range lies within the span of the rows. */
  lemma FirstGapBound(rows: seq<Row>, step: int, k: nat)
    requires step >= 1 && Ordered(rows) && k < |RangesOf(rows, [step])|
    ensures var s := Segments(rows, [step], 0)[k];
            0 < rows[s.lo + 1].time - rows[s.lo].time <= rows[|rows| - 1].time - rows[0].time
  {
    hide Segments;
    var s := Segments(rows, [step], 0)[k];
    assert s.lo > 0 ==> rows[0].time < rows[s.lo].time;
    assert rows[s.lo].time < rows[s.lo + 1].time;
    assert s.lo + 1 < |rows| - 1 ==> rows[s.lo + 1].time < rows[|rows| - 1].time;
  }

  lemma GapWithinTwoDays(gap: int, step: int)
    requires 0 < gap < 2 * ScheduleItems.MINUTES_IN_DAY && step >= 1
    ensures gap == step || gap % ScheduleItems.MINUTES_IN_DAY != step <==> gap != step + ScheduleItems.MINUTES_IN_DAY
  {}

  /** Within a local date, which has 25 hours at most, only one first gap leaves a range unfilled. */
  lemma RangeOfADateUniformIff(rows: seq<Row>, step: int, k: nat)
    requires step >= 1 && Ordered(rows) && k < |RangesOf(rows, [step])|
    requires rows != [] ==> rows[|rows| - 1].time - rows[0].time < 2 * ScheduleItems.MINUTES_IN_DAY
    ensures var s := Segments(rows, [step], 0)[k];
            Uniform(RangesOf(rows, [step])[k], step) <==>
                rows[s.lo + 1].time - rows[s.lo].time != step + ScheduleItems.MINUTES_IN_DAY
  {
    hide Segments, Uniform, Ordered;
    RangeUniformIff(rows, step, k);
    FirstGapBound(rows, step, k);
    var s := Segments(rows, [step], 0)[k];
    GapWithinTwoDays(rows[s.lo + 1].time - rows[s.lo].time, step);
  }

  /** Rows that span less than a day and a step come out as uniform grids. */
  lemma RangesOfADayAreUniform(rows: seq<Row>, step: int, k: nat)
    requires step >= 1 && Ordered(rows) && k < |RangesOf(rows, [step])|
    requires rows != [] ==> rows[|rows| - 1].time - rows[0].time < ScheduleItems.MINUTES_IN_DAY + step
    ensures Uniform(RangesOf(rows, [step])[k], step)
  {
    hide Segments, Uniform, Ordered;
    RangeUniformIff(rows, step, k);
    FirstGapBound(rows, step, k);
  }

  /** Midnight, and two rows in the last hour of a date of 25 hours: the range is not filled. */
  lemma LongDateKeepsItsGap(rows: seq<Row>)
    requires |rows| == 3 && rows[0].time == 0 && rows[1].time == 1445 && rows[2].time == 1450
    ensures Segments(rows, [5], 0) == [Segment(0, 1, 2)]
    ensures RangesOf(rows, [5]) == [rows] && !Uniform(rows, 5)
  {
    assert !StepAt(rows, 0, [5]) && StepAt(rows, 1, [5]);
    var s := Segment(0, 1, 2);
    SegmentCloses(rows, [5], s);
    NoStepLeft(rows, [5], 3);
    hide Segments;
    var segs := Segments(rows, [5], 0);
    assert segs == [segs[0]] + segs[1..];
    RangeUniformIff(rows, 5, 0);
    assert SegmentRows(s, rows) == rows;
    assert FirstGap(rows) == 5;
  }
}
