/** The time points of a day and the maximal runs of active points among them. */
module TimePoints {
  import opened ScheduleItems

  const MAX_STEP := 60

  /** A whole number of steps after midnight. */
  predicate OnStep(p: int, step: int)
    requires step >= 1
    decreases p
  {
    p == 0 || (p >= step && OnStep(p - step, step))
  }

  /** Two such times are at least a step apart. */
  lemma {:induction false} StepsApart(p: int, q: int, step: int)
    requires step >= 1 && OnStep(p, step) && OnStep(q, step) && q < p
    ensures q + step <= p
    decreases p
  {
    if q != 0 {
      StepsApart(p - step, q - step, step);
    }
  }

  /** `24 * 60 // record_step_minutes` */
  function PointCount(step: int): (n: nat)
    requires 1 <= step <= MAX_STEP
    ensures n * step <= MINUTES_IN_DAY < n * step + step
    ensures n >= 24
  {
    MINUTES_IN_DAY / step
  }

  /** `_get_day_time_points`: as many whole steps as fit into a day. */
  function DayTimePoints(step: int): (points: seq<Minute>)
    requires 1 <= step <= MAX_STEP
    ensures |points| == PointCount(step)
    ensures forall i | 0 <= i < |points| :: points[i] == i * step
  {
    seq(PointCount(step), i requires 0 <= i < PointCount(step) => PointAt(i, step))
  }

  lemma PointInDay(i: nat, count: nat, step: int)
    requires step >= 1 && i < count && count * step <= MINUTES_IN_DAY
    ensures 0 <= i * step < MINUTES_IN_DAY
  {
    ProductIsNat(i, step);
    ProductIsNat(count - 1 - i, step);
    assert (count - 1 - i) * step == count * step - step - i * step;
  }

  lemma ProductIsNat(a: nat, b: nat)
    ensures a * b >= 0
  {}

  function PointAt(i: nat, step: int): (p: Minute)
    requires 1 <= step <= MAX_STEP && i < PointCount(step)
    ensures p == i * step
  {
    hide PointCount;
    PointInDay(i, PointCount(step), step);
    i * step
  }

  method GetDayTimePoints(step: int) returns (points: seq<Minute>)
    requires 1 <= step <= MAX_STEP
    ensures points == DayTimePoints(step)
  {
    points := [];
    var time := 0;
    for i := 0 to PointCount(step)
      invariant time == i * step
      invariant |points| == i && forall k | 0 <= k < i :: points[k] == k * step
    {
      assert time == PointAt(i, step);
      points := points + [time];
      time := time + step;
    }
  }

  ghost predicate StrictlyIncreasing(a: seq<Minute>) {
    forall i, j | 0 <= i < j < |a| :: a[i] < a[j]
  }

  /** A selection of points of the grid of the given step, in order. */
  ghost predicate OnGrid(a: seq<Minute>, step: int)
    requires step >= 1
  {
    StrictlyIncreasing(a) && forall i | 0 <= i < |a| :: OnStep(a[i], step)
  }

  lemma {:induction false} MultipleOnStep(i: nat, step: int)
    requires step >= 1
    ensures OnStep(i * step, step)
  {
    if i > 0 {
      MultipleOnStep(i - 1, step);
      assert i * step - step == (i - 1) * step;
    }
  }

  /** The points of one day, from midnight on, with room for a run. */
  ghost predicate IsDayGrid(points: seq<Minute>, step: int) {
    1 <= step <= MAX_STEP && |points| >= 2 && points[0] == 0 && OnGrid(points, step)
  }

  lemma DayTimePointsAreGrid(step: int)
    requires 1 <= step <= MAX_STEP
    ensures IsDayGrid(DayTimePoints(step), step)
  {
    var points := DayTimePoints(step);
    forall i, j | 0 <= i < j < |points| ensures points[i] < points[j] {
      assert (j - i) * step > 0;
    }
    forall i | 0 <= i < |points| ensures OnStep(points[i], step) {
      MultipleOnStep(i, step);
    }
  }

  /** The points between two of them, by position and by value. */
  lemma PointsBetween(points: seq<Minute>, a: nat, b: nat, from: Minute, to: Minute)
    requires StrictlyIncreasing(points) && a <= b <= |points|
    requires a < |points| && points[a] == from && (if a < b then points[b - 1] == to else to < from)
    ensures forall p | p in points[..a] :: p < from
    ensures forall p | p in points[a..b] :: from <= p <= to
    ensures forall p | p in points[b..] :: p > to
  {
    forall p | p in points[..a] ensures p < from {}
    forall p | p in points[a..b] ensures from <= p <= to {
      var i :| a <= i < b && points[i] == p;
      assert i > a ==> points[a] < points[i];
      assert i < b - 1 ==> points[i] < points[b - 1];
    }
    forall p | p in points[b..] ensures p > to {
      var i :| b <= i < |points| && points[i] == p;
      assert i > a ==> points[a] < points[i];
    }
  }

  /** `(dt - prev_dt).seconds == step_minutes * 60`; `seconds` leaves whole days out. */
  predicate Adjacent(prev: Minute, point: Minute, step: int) {
    (if point >= prev then point - prev else point - prev + MINUTES_IN_DAY) == step
  }

  /** The points at `k` and `k + 1` are adjacent. */
  predicate AdjacentAt(a: seq<Minute>, k: int, step: int)
    requires 0 <= k < |a| - 1
  {
    Adjacent(a[k], a[k + 1], step)
  }

  datatype Run = Run(first: Minute, last: Minute)

  /** The last index reached from `i` by adjacent points. */
  function RunEnd(a: seq<Minute>, step: int, i: nat): (j: nat)
    requires i < |a|
    ensures i <= j < |a|
    ensures forall k | i <= k < j :: AdjacentAt(a, k, step)
    ensures j + 1 < |a| ==> !AdjacentAt(a, j, step)
    decreases |a| - i
  {
    if i + 1 < |a| && AdjacentAt(a, i, step) then RunEnd(a, step, i + 1) else i
  }

  /** The runs of two points or more, from index `i` on. */
  function Runs(a: seq<Minute>, step: int, i: nat): seq<Run>
    requires i <= |a|
    decreases |a| - i
  {
    if i == |a| then []
    else
      var j := RunEnd(a, step, i);
      if i < j then [Run(a[i], a[j])] + Runs(a, step, j + 1) else Runs(a, step, j + 1)
  }

  /** A run reaching `j` with a break after it ends there. */
  lemma {:induction false} RunEndIs(a: seq<Minute>, step: int, i: nat, j: nat)
    requires i <= j < |a|
    requires forall k | i <= k < j :: AdjacentAt(a, k, step)
    requires j + 1 == |a| || !AdjacentAt(a, j, step)
    ensures RunEnd(a, step, i) == j
    decreases j - i
  {
    if i < j {
      RunEndIs(a, step, i + 1, j);
    }
  }

  /** Closing the run from `s` to `j` leaves the runs after it. */
  lemma RunCloses(a: seq<Minute>, step: int, s: nat, j: nat)
    requires s <= j < |a|
    requires forall k | s <= k < j :: AdjacentAt(a, k, step)
    requires j + 1 == |a| || !AdjacentAt(a, j, step)
    ensures Runs(a, step, j + 1) == if s < j then Runs(a, step, s)[1..] else Runs(a, step, s)
    ensures s < j ==> Runs(a, step, s) != [] && Runs(a, step, s)[0] == Run(a[s], a[j])
  {
    RunEndIs(a, step, s, j);
  }

  lemma NoRunsAtEnd(a: seq<Minute>, step: int)
    ensures Runs(a, step, |a|) == []
  {}

  lemma {:induction false} RunEndsBeforeBreak(a: seq<Minute>, step: int, i: nat, x: nat)
    requires i < x < |a| && !AdjacentAt(a, x - 1, step)
    ensures RunEnd(a, step, i) < x
    decreases x - i
  {
    if i + 1 < x {
      RunEndsBeforeBreak(a, step, i + 1, x);
    }
  }

  ghost predicate StartsAt(a: seq<Minute>, step: int, i: nat)
    requires i <= |a|
  {
    i == 0 || i == |a| || !AdjacentAt(a, i - 1, step)
  }

  ghost predicate IsIndexRun(a: seq<Minute>, step: int, x: nat, y: nat) {
    && x < y < |a|
    && StartsAt(a, step, x)
    && (forall k | x <= k < y :: AdjacentAt(a, k, step))
    && (y + 1 == |a| || !AdjacentAt(a, y, step))
  }

  lemma {:induction false} RunIsIndexRun(a: seq<Minute>, step: int, i: nat, r: Run) returns (x: nat, y: nat)
    requires i <= |a| && StartsAt(a, step, i) && r in Runs(a, step, i)
    ensures IsIndexRun(a, step, x, y) && r == Run(a[x], a[y])
    decreases |a| - i
  {
    var j := RunEnd(a, step, i);
    if i < j && r == Run(a[i], a[j]) {
      x, y := i, j;
    } else {
      x, y := RunIsIndexRun(a, step, j + 1, r);
    }
  }

  lemma {:induction false} IndexRunIsListed(a: seq<Minute>, step: int, i: nat, x: nat, y: nat)
    requires i <= x && IsIndexRun(a, step, x, y)
    ensures Run(a[x], a[y]) in Runs(a, step, i)
    decreases x - i
  {
    if x == i {
      RunEndIs(a, step, x, y);
    } else {
      RunEndsBeforeBreak(a, step, i, x);
      IndexRunIsListed(a, step, RunEnd(a, step, i) + 1, x, y);
    }
  }

  /** What a run is, said of the points alone: two or more consecutive grid points, all active,
      that cannot be extended on either side. */
  ghost predicate IsMaximalRun(a: seq<Minute>, step: int, r: Run)
    requires step >= 1
  {
    && r.first < r.last && r.first in a && r.last in a
    && (forall p: Minute | r.first <= p <= r.last && OnStep(p, step) :: p in a)
    && (forall p: Minute | p + step == r.first :: p !in a)
    && (forall p: Minute | r.last + step == p :: p !in a)
  }

  /** On the grid, adjacent entries are a step apart and entries a step apart are neighbours in the list. */
  lemma AdjacentOnGrid(a: seq<Minute>, step: int)
    requires 1 <= step <= MAX_STEP && OnGrid(a, step)
    ensures forall i, j | 0 <= i < |a| && 0 <= j < |a| && a[i] + step == a[j] :: j == i + 1
    ensures forall i | 0 <= i < |a| - 1 :: AdjacentAt(a, i, step) <==> a[i] + step == a[i + 1]
  {
    forall i, j | 0 <= i < |a| && 0 <= j < |a| && a[i] + step == a[j] ensures j == i + 1 {
      if j > i + 1 {
        StepsApart(a[i + 1], a[i], step);
      }
    }
  }

  /** Between the ends of an unbroken stretch every grid point is listed. */
  lemma {:induction false} StretchIsFull(a: seq<Minute>, step: int, x: nat, y: nat, p: Minute)
    requires 1 <= step <= MAX_STEP && OnGrid(a, step)
    requires x <= y < |a| && forall k | x <= k < y :: AdjacentAt(a, k, step)
    requires a[x] <= p <= a[y] && OnStep(p, step)
    ensures p in a
    decreases y - x
  {
    if p != a[x] {
      AdjacentOnGrid(a, step);
      StepsApart(p, a[x], step);
      assert AdjacentAt(a, x, step);
      StretchIsFull(a, step, x + 1, y, p);
    }
  }

  lemma IndexRunIsMaximal(a: seq<Minute>, step: int, x: nat, y: nat)
    requires 1 <= step <= MAX_STEP && OnGrid(a, step) && IsIndexRun(a, step, x, y)
    ensures IsMaximalRun(a, step, Run(a[x], a[y]))
  {
    AdjacentOnGrid(a, step);
    forall p: Minute | a[x] <= p <= a[y] && OnStep(p, step) ensures p in a {
      StretchIsFull(a, step, x, y, p);
    }
  }

  /** A listed point whose successor on the grid is listed too is followed by it. */
  lemma FollowedByStep(a: seq<Minute>, step: int, k: nat, y: nat)
    requires 1 <= step <= MAX_STEP && OnGrid(a, step) && k < y < |a|
    requires forall p: Minute | a[k] <= p <= a[y] && OnStep(p, step) :: p in a
    ensures AdjacentAt(a, k, step)
  {
    StepsApart(a[y], a[k], step);
    var p: Minute := a[k] + step;
    assert OnStep(p, step);
    var j :| 0 <= j < |a| && a[j] == p;
    hide OnStep;
    assert j > k;
    assert a[k] < a[k + 1] <= a[j];
    StepsApart(a[k + 1], a[k], step);
  }

  lemma MaximalIsIndexRun(a: seq<Minute>, step: int, r: Run) returns (x: nat, y: nat)
    requires 1 <= step <= MAX_STEP && OnGrid(a, step) && IsMaximalRun(a, step, r)
    ensures IsIndexRun(a, step, x, y) && r == Run(a[x], a[y])
  {
    hide OnStep;
    x :| 0 <= x < |a| && a[x] == r.first;
    y :| 0 <= y < |a| && a[y] == r.last;
    assert x < y;
    forall k | x <= k < y ensures AdjacentAt(a, k, step) {
      FollowedByStep(a, step, k, y);
    }
    if x > 0 {
      assert a[x - 1] in a && a[x - 1] < a[x];
      assert !AdjacentAt(a, x - 1, step);
    }
    if y + 1 < |a| {
      assert a[y + 1] in a && a[y] < a[y + 1];
      assert !AdjacentAt(a, y, step);
    }
  }

  /** The runs computed are exactly the maximal runs. */
  lemma RunsAreMaximalRuns(a: seq<Minute>, step: int, r: Run)
    requires 1 <= step <= MAX_STEP && OnGrid(a, step)
    ensures r in Runs(a, step, 0) <==> IsMaximalRun(a, step, r)
  {
    if r in Runs(a, step, 0) {
      var x, y := RunIsIndexRun(a, step, 0, r);
      IndexRunIsMaximal(a, step, x, y);
    }
    if IsMaximalRun(a, step, r) {
      var x, y := MaximalIsIndexRun(a, step, r);
      IndexRunIsListed(a, step, 0, x, y);
    }
  }

  lemma GapWhereBroken(a: seq<Minute>, step: int, j: nat)
    requires 1 <= step <= MAX_STEP && OnGrid(a, step)
    requires j + 1 < |a| && !AdjacentAt(a, j, step)
    ensures a[j] + step < a[j + 1]
  {
    StepsApart(a[j + 1], a[j], step);
  }

  ghost predicate InOrder(rs: seq<Run>, from: int, step: int) {
    && (forall k | 0 <= k < |rs| :: from <= rs[k].first < rs[k].last)
    && (forall k, l | 0 <= k < l < |rs| :: rs[k].last + step < rs[l].first)
  }

  lemma InOrderCons(r: Run, rs: seq<Run>, from: int, next: int, step: int)
    requires step >= 1 && from <= r.first < r.last && r.last + step < next && InOrder(rs, next, step)
    ensures InOrder([r] + rs, from, step)
  {}

  /** They come in order, with at least one inactive point between any two. */
  lemma {:induction false} RunsInOrder(a: seq<Minute>, step: int, i: nat)
    requires 1 <= step <= MAX_STEP && OnGrid(a, step) && i <= |a|
    ensures InOrder(Runs(a, step, i), if i < |a| then a[i] else MINUTES_IN_DAY, step)
    decreases |a| - i
  {
    if i < |a| {
      hide OnStep;
      var j := RunEnd(a, step, i);
      RunsInOrder(a, step, j + 1);
      var rest := Runs(a, step, j + 1);
      if j + 1 < |a| {
        GapWhereBroken(a, step, j);
        if i < j {
          InOrderCons(Run(a[i], a[j]), rest, a[i], a[j + 1], step);
        }
      } else {
        assert rest == [];
      }
    }
  }

  /** Two neighbouring active points are always inside a run: what is dropped is isolated. */
  lemma {:induction false} NeighboursAreKept(a: seq<Minute>, step: int, i: nat, s: nat)
    requires s <= i && i + 1 < |a|
    requires StrictlyIncreasing(a) && AdjacentAt(a, i, step)
    ensures exists r :: r in Runs(a, step, s) && r.first <= a[i] && a[i + 1] <= r.last
    decreases i - s
  {
    var j := RunEnd(a, step, s);
    if i < j {
      assert Run(a[s], a[j]) in Runs(a, step, s);
    } else {
      NeighboursAreKept(a, step, i, j + 1);
    }
  }

  lemma DroppedPointsAreIsolated(a: seq<Minute>, step: int, p: Minute, q: Minute)
    requires 1 <= step <= MAX_STEP && OnGrid(a, step)
    requires p in a && q in a && q == p + step
    ensures exists r :: r in Runs(a, step, 0) && r.first <= p && q <= r.last
  {
    AdjacentOnGrid(a, step);
    var i :| 0 <= i < |a| && a[i] == p;
    var j :| 0 <= j < |a| && a[j] == q;
    assert a[i] + step == a[j];
    NeighboursAreKept(a, step, i, 0);
  }
}
