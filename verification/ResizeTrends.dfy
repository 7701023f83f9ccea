/** The load trend of an instance: its direction per metric and the range a new shape must lie in. */
module ResizeTrends {
  import opened Wrappers
  import opened Rounding
  import Actions

  datatype Metric = Cpu | Memory | DiskIops | NetOutput

  datatype MetricTrend = MetricTrend(mean: real, threshold: real, result: real, percentiles: seq<real>)

  const MIN_LIMIT_PERC := 30.0
  const MAX_LIMIT_PERC := 70.0
  const RELAXED_THRESHOLD := 60.0

  function AbsReal(x: real): real {
    if x < 0.0 then -x else x
  }

  /** `__get_result_direction`; a mean of -1 marks a metric without data. */
  function ResultDirection(mean: real, threshold: real): (result: real)
    ensures result < 0.0 <==> mean != -1.0 && threshold < MIN_LIMIT_PERC
    ensures result > 0.0 <==> mean != -1.0 && threshold > MAX_LIMIT_PERC
    ensures result in {-1.0, -0.5, 0.0, 0.5, 1.0}
    ensures mean != -1.0 ==> (result == -1.0 <==> threshold <= 20.0) && (result == 1.0 <==> threshold >= 80.0)
  {
    if mean == -1.0 then 0.0
    else if threshold <= 20.0 then -1.0
    else if threshold < 30.0 then -0.5
    else if threshold <= 70.0 then 0.0
    else if threshold < 80.0 then 0.5
    else 1.0
  }

  // ----- the trend as a value

  /** The metrics with data, and the entry every other metric shares. */
  datatype Trend = Trend(metrics: map<Metric, MetricTrend>, shared: MetricTrend)
  {
    function Get(m: Metric): MetricTrend {
      if m in metrics then metrics[m] else shared
    }

    /** Changing the entry of an absent metric changes the shared one. */
    function Put(m: Metric, t: MetricTrend): Trend {
      if m in metrics then this.(metrics := metrics[m := t]) else this.(shared := t)
    }

    function SetResult(m: Metric, result: real): Trend {
      Put(m, Get(m).(result := result))
    }

    function SetThreshold(m: Metric, threshold: real): Trend {
      Put(m, Get(m).(threshold := threshold))
    }

    predicate RequiresResize() {
      Get(Cpu).result != 0.0 || Get(Memory).result != 0.0 || Get(NetOutput).result > 0.0 || Get(DiskIops).result > 0.0
    }

    /** The shared entry stands for no data and no direction. */
    ghost predicate Valid() {
      shared.mean == -1.0 && shared.result == 0.0
    }

    /** Every entry has the direction of its own threshold, as long as nothing was discarded. */
    ghost predicate IsStrict() {
      Valid() && forall m | m in metrics :: metrics[m].result == ResultDirection(metrics[m].mean, metrics[m].threshold)
    }
  }

  /** The trend after `discard_optional_requirements`, one assignment after the other. */
  function Discarded(t: Trend): Trend {
    var cpu, memory := t.Get(Cpu).result, t.Get(Memory).result;
    var grown := if cpu < 0.0 < memory
                 then t.SetResult(Cpu, AbsReal(cpu)).SetThreshold(Cpu, RELAXED_THRESHOLD)
                 else t.SetResult(Memory, AbsReal(memory)).SetThreshold(Memory, RELAXED_THRESHOLD);
    grown.SetResult(DiskIops, 0.0).SetResult(NetOutput, 0.0)
  }

  /** Sharing one entry among the absent metrics does no harm: it stays without direction, and every
      metric ends as if it had an entry of its own. Only one threshold becomes 60: that of the CPU where its low
      load stands against a high memory load, that of the memory otherwise, which is the shared one without data. */
  lemma DiscardedIs(t: Trend)
    requires t.Valid()
    ensures var d := Discarded(t);
            var cpu, memory := t.Get(Cpu).result, t.Get(Memory).result;
            && d.Valid() && d.metrics.Keys == t.metrics.Keys
            && d.Get(DiskIops).result == 0.0 && d.Get(NetOutput).result == 0.0
            && d.Get(Cpu).result == (if cpu < 0.0 < memory then -cpu else cpu)
            && d.Get(Memory).result == (if cpu < 0.0 < memory || memory >= 0.0 then memory else -memory)
            && var loosened := if cpu < 0.0 < memory then Cpu else Memory;
               && (forall m | m in t.metrics ::
                     d.metrics[m].threshold == if m == loosened then 60.0 else t.metrics[m].threshold)
               && d.shared.threshold == if loosened in t.metrics then t.shared.threshold else 60.0
  {
    hide AbsReal, ResultDirection;
    AbsOfZero();
    AbsIs(t.Get(Cpu).result);
    AbsIs(t.Get(Memory).result);
  }

  lemma AbsOfZero()
    ensures AbsReal(0.0) == 0.0
  {}

  lemma AbsIs(x: real)
    ensures AbsReal(x) == if x < 0.0 then -x else x
  {}

  ghost predicate SameData(t: Trend, d: Trend) {
    && t.metrics.Keys == d.metrics.Keys
    && forall m | m in t.metrics ::
         t.metrics[m].mean == d.metrics[m].mean && t.metrics[m].percentiles == d.metrics[m].percentiles
  }

  lemma SetKeepsData(t: Trend, m: Metric, x: real)
    ensures SameData(t, t.SetResult(m, x)) && SameData(t, t.SetThreshold(m, x))
  {}

  /** Discarding touches neither means nor percentiles, so no probability. */
  lemma DiscardedKeepsData(t: Trend)
    ensures SameData(t, Discarded(t))
  {
    hide AbsReal, Trend.SetResult, Trend.SetThreshold;
    forall t: Trend, m, x ensures SameData(t, t.SetResult(m, x)) && SameData(t, t.SetThreshold(m, x)) {
      SetKeepsData(t, m, x);
    }
  }

  /** The class: the trends change in place. */
  class ResizeTrend {
    var metricTrends: map<Metric, MetricTrend>
    var defaultTrend: MetricTrend
    var probability: Option<real>

    function Value(): Trend
      reads this
    {
      Trend(metricTrends, defaultTrend)
    }

    constructor ()
      ensures Value().IsStrict() && Value().metrics == map[] && probability == None
    {
      metricTrends, probability := map[], None;
      defaultTrend := MetricTrend(-1.0, 0.0, 0.0, seq(99, _ => -1.0));
    }

    /** `add_metric_trend`, with the statistics of the column as inputs. */
    method AddMetricTrend(m: Metric, mean: real, threshold: real, percentiles: seq<real>)
      modifies this`metricTrends
      ensures Value() == old(Value()).(metrics := old(metricTrends)[m :=
                MetricTrend(mean, threshold, ResultDirection(mean, threshold), percentiles)])
      ensures old(Value().IsStrict()) ==> Value().IsStrict()
    {
      metricTrends := metricTrends[m := MetricTrend(mean, threshold, ResultDirection(mean, threshold), percentiles)];
    }

    /** Assigning to an attribute of the entry a metric has or shares. */
    method SetResult(m: Metric, result: real)
      modifies this`metricTrends, this`defaultTrend
      ensures Value() == old(Value()).SetResult(m, result)
    {
      if m in metricTrends {
        metricTrends := metricTrends[m := metricTrends[m].(result := result)];
      } else {
        defaultTrend := defaultTrend.(result := result);
      }
    }

    method SetThreshold(m: Metric, threshold: real)
      modifies this`metricTrends, this`defaultTrend
      ensures Value() == old(Value()).SetThreshold(m, threshold)
    {
      if m in metricTrends {
        metricTrends := metricTrends[m := metricTrends[m].(threshold := threshold)];
      } else {
        defaultTrend := defaultTrend.(threshold := threshold);
      }
    }

    method DiscardOptionalRequirements()
      modifies this`metricTrends, this`defaultTrend
      ensures Value() == Discarded(old(Value()))
    {
      hide Trend.SetResult, Trend.SetThreshold, Trend.Get, AbsReal;
      var cpu := Value().Get(Cpu).result;
      var memory := Value().Get(Memory).result;
      if cpu < 0.0 < memory {
        SetResult(Cpu, AbsReal(cpu));
        SetThreshold(Cpu, RELAXED_THRESHOLD);
      } else {
        SetResult(Memory, AbsReal(memory));
        SetThreshold(Memory, RELAXED_THRESHOLD);
      }
      SetResult(DiskIops, 0.0);
      SetResult(NetOutput, 0.0);
    }
  }

  // ----- the resize action

  /** `get_resize_action` for one trend */
  function ResizeActionOf(t: Trend): (action: Option<Actions.Action>)
    ensures action.None? <==> !t.RequiresResize()
    ensures var (cpu, memory) := (t.Get(Cpu).result, t.Get(Memory).result);
            var up := t.Get(NetOutput).result > 0.0 || t.Get(DiskIops).result > 0.0;
            && (action.None? <==> cpu == 0.0 && memory == 0.0 && !up)
            && (action == Some(Actions.ScaleUp) <==> cpu > 0.0 && memory >= 0.0)
            && (action == Some(Actions.ScaleDown) <==> cpu <= 0.0 && memory <= 0.0 && cpu + memory < 0.0 && !up)
            && (action == Some(Actions.ChangeShape) <==>
                (cpu > 0.0 || memory > 0.0 || up) && (cpu <= 0.0 || memory < 0.0))
    ensures action.Some? ==> action.value in {Actions.ScaleUp, Actions.ScaleDown, Actions.ChangeShape}
  {
    var cpu, memory := t.Get(Cpu).result, t.Get(Memory).result;
    var net, iops := t.Get(NetOutput).result, t.Get(DiskIops).result;
    if !t.RequiresResize() then None
    else if cpu <= 0.0 && memory <= 0.0 && !(net > 0.0 || iops > 0.0) then Some(Actions.ScaleDown)
    else if cpu > 0.0 && memory >= 0.0 then Some(Actions.ScaleUp)
    else Some(Actions.ChangeShape)
  }

  // ----- ranges

  datatype Range = Range(min: real, max: real)

  function AtLeast(x: real, low: real): real {
    if x < low then low else x
  }

  /** The size that would carry the used amount at the limit, at least one unit. */
  function SizeAt(threshold: real, provided: real, limit: real): real
    requires limit != 0.0
  {
    var used := provided / 100.0 * AtLeast(threshold, 5.0);
    AtLeast(used * 100.0 / limit, 1.0)
  }

  /** The sizes that would carry the 90th percentile of the load at 70 and at 30 percent. */
  function RangeFor(threshold: real, provided: real): Range {
    Range(Round2(SizeAt(threshold, provided, MAX_LIMIT_PERC)), Round2(SizeAt(threshold, provided, MIN_LIMIT_PERC)))
  }

  /** `get_metric_ranges`; a size that is missing or zero gives no range. */
  function MetricRange(t: MetricTrend, provided: Option<real>, onlyForNonEmpty: bool): Option<Range> {
    if onlyForNonEmpty && t.result == 0.0 then None
    else if provided.None? || provided.value == 0.0 then None
    else Some(RangeFor(t.threshold, provided.value))
  }

  /** In numbers: the used amount, of at least five percent, is 70 percent of the minimum and 30 percent of the
      maximum, neither below one unit and both to two decimals. */
  lemma RangeIs(threshold: real, provided: real, load: real, low: real, high: real)
    requires load == (if threshold < 5.0 then 5.0 else threshold)
    requires low == provided * load / 70.0 && high == provided * load / 30.0
    ensures var r := RangeFor(threshold, provided);
            && -0.005 <= r.min - (if low < 1.0 then 1.0 else low) <= 0.005
            && -0.005 <= r.max - (if high < 1.0 then 1.0 else high) <= 0.005
  {
    hide Round2;
    SizeIs(threshold, provided, 70.0, low);
    SizeIs(threshold, provided, 30.0, high);
  }

  lemma SizeIs(threshold: real, provided: real, limit: real, size: real)
    requires limit > 0.0 && size == provided * (if threshold < 5.0 then 5.0 else threshold) / limit
    ensures SizeAt(threshold, provided, limit) == if size < 1.0 then 1.0 else size
  {
    var load := AtLeast(threshold, 5.0);
    var used := provided / 100.0 * load;
    assert used * 100.0 == provided * load;
  }

  lemma MulLess(a: real, x: real, y: real)
    requires a > 0.0 && x <= y
    ensures a * x <= a * y
  {}

  lemma SizesAreOrdered(threshold: real, provided: real)
    requires provided > 0.0
    ensures 1.0 <= SizeAt(threshold, provided, MAX_LIMIT_PERC) <= SizeAt(threshold, provided, MIN_LIMIT_PERC)
  {
    MulLess(provided, 0.0, AtLeast(threshold, 5.0));
  }

  /** The minimum never exceeds the maximum. */
  lemma RangeIsOrdered(threshold: real, provided: real)
    requires provided > 0.0
    ensures var r := RangeFor(threshold, provided); 1.0 <= r.min <= r.max
  {
    hide Round2, SizeAt;
    SizesAreOrdered(threshold, provided);
    Round2Monotone(SizeAt(threshold, provided, MAX_LIMIT_PERC), SizeAt(threshold, provided, MIN_LIMIT_PERC));
    Round2Monotone(1.0, SizeAt(threshold, provided, MAX_LIMIT_PERC));
    Round2OfTwoDecimals(1.0);
  }

  /** The load compared with the limits, before the rounding. */
  lemma LargestFollowsLoad(threshold: real, provided: real)
    requires provided > 0.0
    ensures threshold <= MIN_LIMIT_PERC && provided >= 1.0 ==> SizeAt(threshold, provided, MIN_LIMIT_PERC) <= provided
    ensures threshold >= MIN_LIMIT_PERC ==> SizeAt(threshold, provided, MIN_LIMIT_PERC) >= provided
  {
    var load := AtLeast(threshold, 5.0);
    if load <= MIN_LIMIT_PERC { MulLess(provided, load, MIN_LIMIT_PERC); }
    if load >= MIN_LIMIT_PERC { MulLess(provided, MIN_LIMIT_PERC, load); }
  }

  lemma SmallestFollowsLoad(threshold: real, provided: real)
    requires provided > 0.0
    ensures threshold <= MAX_LIMIT_PERC && provided >= 1.0 ==> SizeAt(threshold, provided, MAX_LIMIT_PERC) <= provided
    ensures threshold >= MAX_LIMIT_PERC ==> SizeAt(threshold, provided, MAX_LIMIT_PERC) >= provided
  {
    var load := AtLeast(threshold, 5.0);
    if load <= MAX_LIMIT_PERC { MulLess(provided, load, MAX_LIMIT_PERC); }
    if load >= MAX_LIMIT_PERC { MulLess(provided, MAX_LIMIT_PERC, load); }
  }

  /** Rounding does not change the side of a size with two decimals. */
  lemma RoundedAgainst(x: real, bound: real)
    requires TwoDecimals(bound)
    ensures x <= bound ==> Round2(x) <= bound
    ensures x >= bound ==> Round2(x) >= bound
  {
    hide Round2;
    Round2OfTwoDecimals(bound);
    if x <= bound { Round2Monotone(x, bound); }
    if x >= bound { Round2Monotone(bound, x); }
  }

  /** A low load caps the range at the current size and a high load starts it there, through the raising
      and both roundings; in between, the range holds the current size. */
  lemma RangeFollowsLoad(threshold: real, provided: real)
    requires provided > 0.0 && TwoDecimals(provided)
    ensures var r := RangeFor(threshold, provided);
            && (threshold <= MIN_LIMIT_PERC && provided >= 1.0 ==> r.max <= provided)
            && (threshold >= MIN_LIMIT_PERC ==> r.max >= provided)
            && (threshold <= MAX_LIMIT_PERC && provided >= 1.0 ==> r.min <= provided)
            && (threshold >= MAX_LIMIT_PERC ==> r.min >= provided)
  {
    hide Round2, TwoDecimals, SizeAt;
    LargestFollowsLoad(threshold, provided);
    SmallestFollowsLoad(threshold, provided);
    RoundedAgainst(SizeAt(threshold, provided, MIN_LIMIT_PERC), provided);
    RoundedAgainst(SizeAt(threshold, provided, MAX_LIMIT_PERC), provided);
  }

  /** Every low load caps the range at the current size exactly when that is at least one unit. */
  lemma LowLoadCapsIff(provided: real)
    requires provided > 0.0 && TwoDecimals(provided)
    ensures (forall threshold | threshold < MIN_LIMIT_PERC :: RangeFor(threshold, provided).max <= provided)
            <==> provided >= 1.0
  {
    hide Round2, TwoDecimals, RangeFor;
    if provided >= 1.0 {
      forall threshold | threshold < MIN_LIMIT_PERC ensures RangeFor(threshold, provided).max <= provided {
        RangeFollowsLoad(threshold, provided);
      }
    } else {
      RangeIsOrdered(10.0, provided);
      assert RangeFor(10.0, provided).max > provided;
    }
  }

  /** Direction and range agree: a suitable size is no larger than the current one where the trend points
      down, no smaller where it points up. */
  lemma DirectionBoundsSize(t: Trend, m: Metric, provided: real, size: real)
    requires t.IsStrict() && m in t.metrics && provided > 0.0 && TwoDecimals(provided)
    requires var r := MetricRange(t.Get(m), Some(provided), false).value; r.min <= size <= r.max
    ensures t.Get(m).result < 0.0 && provided >= 1.0 ==> size <= provided
    ensures t.Get(m).result > 0.0 ==> size >= provided
  {
    hide TwoDecimals, RangeFor;
    RangeFollowsLoad(t.Get(m).threshold, provided);
  }
}
