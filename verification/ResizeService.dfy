/** The search for better fitting shapes, strict first and relaxed once if too few are found. */
module ResizeService {
  import opened Wrappers
  import opened Rounding
  import opened Sequences
  import opened ResizeTrends
  import opened ShapeRules
  import ShapeFeedback
  import ShapeTiers
  import Actions

  // ----- the probability of a shape

  const METRICS: seq<Metric> := [Metric.Cpu, Metric.Memory, Metric.NetOutput, Metric.DiskIops]

  /** The size of a shape on a metric; zero counts as missing. */
  function SizeOf(s: Shape, m: Metric): Option<real> {
    var size := match m
      case Cpu => Some(s.cpu)
      case Memory => Some(s.memory)
      case NetOutput => s.network
      case DiskIops => s.iops;
    if size == Some(0.0) then None else size
  }

  predicate IsComfortable(percentile: real, current: real, expected: real) {
    MIN_LIMIT_PERC * expected / 100.0 <= current * percentile / 100.0 <= MAX_LIMIT_PERC * expected / 100.0
  }

  /** The share of the load's percentiles the shape would carry comfortably, in percent. */
  function MetricProbability(current: real, expected: real, percentiles: seq<real>): (p: int)
    requires percentiles != []
    ensures 0 <= p <= 100
  {
    var matching := Filter(percentiles, (x: real) => IsComfortable(x, current, expected));
    ShareInPercent(|matching|, |percentiles|);
    Round(|matching| as real / |percentiles| as real * 100.0)
  }

  lemma ShareInPercent(part: nat, whole: nat)
    requires part <= whole && whole > 0
    ensures 0 <= Round(part as real / whole as real * 100.0) <= 100
  {
    var share := part as real / whole as real;
    assert share * whole as real == part as real;
    assert 0.0 <= share <= 1.0 by {
      QuotientInUnit(part as real, whole as real, share);
    }
    RoundMonotone(0.0, share * 100.0);
    RoundMonotone(share * 100.0, 100.0);
    RoundOfInteger(0);
    RoundOfInteger(100);
  }

  lemma QuotientInUnit(part: real, whole: real, share: real)
    requires 0.0 <= part <= whole && whole > 0.0 && share * whole == part
    ensures 0.0 <= share <= 1.0
  {}

  /** The metrics the probability is taken over. */
  predicate IsCounted(t: Trend, current: Shape, s: Shape, m: Metric) {
    && m in t.metrics && t.metrics[m].mean != -1.0 && t.metrics[m].percentiles != []
    && SizeOf(current, m).Some? && SizeOf(s, m).Some?
  }

  function ProbabilityOn(t: Trend, current: Shape, s: Shape, m: Metric): (p: int)
    requires IsCounted(t, current, s, m)
    ensures 0 <= p <= 100
  {
    MetricProbability(SizeOf(current, m).value, SizeOf(s, m).value, t.metrics[m].percentiles)
  }

  function CountedMetrics(t: Trend, current: Shape, s: Shape, metrics: seq<Metric>): (n: nat)
    ensures n <= |metrics|
  {
    if metrics == [] then 0
    else
      CountedMetrics(t, current, s, metrics[..|metrics| - 1])
      + if IsCounted(t, current, s, metrics[|metrics| - 1]) then 1 else 0
  }

  function ProbabilityTotal(t: Trend, current: Shape, s: Shape, metrics: seq<Metric>): (total: int)
    ensures 0 <= total <= 100 * CountedMetrics(t, current, s, metrics)
  {
    if metrics == [] then 0
    else
      var last := metrics[|metrics| - 1];
      ProbabilityTotal(t, current, s, metrics[..|metrics| - 1])
      + if IsCounted(t, current, s, last) then ProbabilityOn(t, current, s, last) else 0
  }

  /** `calculate_shape_probability`; None where no metric is shared and the division by zero raises. */
  function Probability(t: Trend, current: Shape, s: Shape): Option<real> {
    var n := CountedMetrics(t, current, s, METRICS);
    if n == 0 then None
    else Some(Round2(ProbabilityTotal(t, current, s, METRICS) as real / n as real / 100.0))
  }

  lemma ProbabilityIsShare(t: Trend, current: Shape, s: Shape)
    requires Probability(t, current, s).Some?
    ensures 0.0 <= Probability(t, current, s).value <= 1.0
  {
    hide Round2, CountedMetrics, ProbabilityTotal, IsCounted;
    var n, total := CountedMetrics(t, current, s, METRICS), ProbabilityTotal(t, current, s, METRICS);
    var share := total as real / n as real / 100.0;
    QuotientInUnit(total as real, 100.0 * n as real, share);
    Round2Monotone(0.0, share);
    Round2Monotone(share, 1.0);
    Round2OfTwoDecimals(0.0);
    Round2OfTwoDecimals(1.0);
  }

  method CalculateShapeProbability(t: Trend, current: Shape, s: Shape) returns (probability: Option<real>)
    ensures probability == Probability(t, current, s)
  {
    hide IsCounted, ProbabilityOn, Round2;
    var total, n := 0, 0;
    for i := 0 to |METRICS|
      invariant total == ProbabilityTotal(t, current, s, METRICS[..i])
      invariant n == CountedMetrics(t, current, s, METRICS[..i])
    {
      assert METRICS[..i + 1][..i] == METRICS[..i];
      if IsCounted(t, current, s, METRICS[i]) {
        total, n := total + ProbabilityOn(t, current, s, METRICS[i]), n + 1;
      }
    }
    assert METRICS[..|METRICS|] == METRICS;
    probability := if n == 0 then None else Some(Round2(total as real / n as real / 100.0));
  }

  /** The probability looks at means and percentiles only. */
  lemma SameDataSameProbability(t: Trend, d: Trend, current: Shape, s: Shape)
    requires SameData(t, d)
    ensures Probability(d, current, s) == Probability(t, current, s)
  {
    hide SizeOf, MetricProbability, Round2;
    SameTotals(t, d, current, s, METRICS);
  }

  lemma {:induction false} SameTotals(t: Trend, d: Trend, current: Shape, s: Shape, metrics: seq<Metric>)
    requires SameData(t, d)
    ensures CountedMetrics(d, current, s, metrics) == CountedMetrics(t, current, s, metrics)
    ensures ProbabilityTotal(d, current, s, metrics) == ProbabilityTotal(t, current, s, metrics)
  {
    hide SizeOf, MetricProbability;
    if metrics != [] {
      SameTotals(t, d, current, s, metrics[..|metrics| - 1]);
      assert IsCounted(d, current, s, metrics[|metrics| - 1]) == IsCounted(t, current, s, metrics[|metrics| - 1]);
    }
  }

  // ----- suitable shapes

  datatype Requirements = Requirements(cpu: Option<Range>, memory: Option<Range>, net: Option<Range>,
                                       iops: Option<Range>)

  function RequirementsOf(t: Trend, current: Shape): Requirements {
    Requirements(MetricRange(t.Get(Metric.Cpu), Some(current.cpu), false),
                 MetricRange(t.Get(Metric.Memory), Some(current.memory), false),
                 MetricRange(t.Get(Metric.NetOutput), current.network, true),
                 MetricRange(t.Get(Metric.DiskIops), current.iops, true))
  }

  predicate Within(size: real, range: Option<Range>) {
    range.None? || range.value.min <= size <= range.value.max
  }

  /** Network and disk have a lower limit only, and a shape without the number does not reach it. */
  predicate Reaches(size: Option<real>, range: Option<Range>) {
    range.None? || (size.Some? && size.value != 0.0 && range.value.min <= size.value)
  }

  predicate Suits(s: Shape, r: Requirements) {
    Within(s.cpu, r.cpu) && Within(s.memory, r.memory) && Reaches(s.network, r.net) && Reaches(s.iops, r.iops)
  }

  /** A shape suits the strict requirements of a trend only in the direction of the trend. */
  lemma SuitableFollowsTrend(t: Trend, current: Shape, s: Shape)
    requires t.IsStrict() && current.cpu > 0.0 && current.memory > 0.0
    requires TwoDecimals(current.cpu) && TwoDecimals(current.memory)
    requires Suits(s, RequirementsOf(t, current))
    ensures t.Get(Metric.Cpu).result < 0.0 && current.cpu >= 1.0 ==> s.cpu <= current.cpu
    ensures t.Get(Metric.Cpu).result > 0.0 ==> s.cpu >= current.cpu
    ensures t.Get(Metric.Memory).result < 0.0 && current.memory >= 1.0 ==> s.memory <= current.memory
    ensures t.Get(Metric.Memory).result > 0.0 ==> s.memory >= current.memory
  {
    hide TwoDecimals, RangeFor;
    if Metric.Cpu in t.metrics {
      DirectionBoundsSize(t, Metric.Cpu, current.cpu, s.cpu);
    }
    if Metric.Memory in t.metrics {
      DirectionBoundsSize(t, Metric.Memory, current.memory, s.memory);
    }
  }

  function Suitable(shapes: seq<Shape>, r: Requirements): (suitable: seq<Shape>)
    ensures forall s :: s in suitable <==> s in shapes && Suits(s, r)
  {
    Filter(shapes, (s: Shape) => Suits(s, r))
  }

  lemma SuitableOfTwo(a: seq<Shape>, b: seq<Shape>, r: Requirements)
    ensures Suitable(a + b, r) == Suitable(a, r) + Suitable(b, r)
  {
    FilterAppend(a, b, (s: Shape) => Suits(s, r));
  }

  method FindSuitableShapes(tiers: ShapeTiers.Tiers, r: Requirements) returns (suitable: seq<Shape>)
    ensures suitable == Suitable(tiers.All(), r)
  {
    hide Suits, Suitable;
    var prioritized := [tiers.prioritised, tiers.series, tiers.family, tiers.others];
    suitable := [];
    NothingSuitable(r);
    for k := 0 to 4
      invariant suitable == Suitable(TiersUpTo(tiers, k), r)
    {
      var inTier := SuitableIn(prioritized[k], r);
      SuitableOfTwo(TiersUpTo(tiers, k), prioritized[k], r);
      assert TiersUpTo(tiers, k + 1) == TiersUpTo(tiers, k) + prioritized[k];
      suitable := suitable + inTier;
    }
  }

  lemma NothingSuitable(r: Requirements)
    ensures Suitable([], r) == []
  {}

  /** The loop over one tier. */
  method SuitableIn(shapes: seq<Shape>, r: Requirements) returns (suitable: seq<Shape>)
    ensures suitable == Suitable(shapes, r)
  {
    hide Suits;
    suitable := [];
    for i := 0 to |shapes|
      invariant suitable == Suitable(shapes[..i], r)
    {
      FilterNext(shapes, i, (s: Shape) => Suits(s, r));
      if Suits(shapes[i], r) {
        suitable := suitable + [shapes[i]];
      }
    }
    assert shapes[..|shapes|] == shapes;
  }

  function TiersUpTo(tiers: ShapeTiers.Tiers, k: nat): seq<Shape> {
    if k == 0 then []
    else if k == 1 then tiers.prioritised
    else if k == 2 then tiers.prioritised + tiers.series
    else if k == 3 then tiers.prioritised + tiers.series + tiers.family
    else tiers.All()
  }

  /** A shape as it is returned. */
  datatype Dto = Dto(shape: Shape, probability: Option<real>)

  function Truncated(dtos: seq<Dto>, maxResults: nat): seq<Dto> {
    if maxResults != 0 && |dtos| > maxResults then dtos[..maxResults] else dtos
  }

  /** `_remove_shape_duplicates`; a maximum of zero is none. */
  method RemoveShapeDuplicates(dtos: seq<Dto>, maxResults: nat) returns (result: seq<Dto>)
    ensures result == Truncated(Dedup(dtos), maxResults)
  {
    result := [];
    for i := 0 to |dtos|
      invariant result == Dedup(dtos[..i])
    {
      DedupNext(dtos, i);
      if dtos[i] !in result {
        result := result + [dtos[i]];
      }
    }
    assert dtos[..|dtos|] == dtos;
    if maxResults != 0 && |result| > maxResults {
      result := result[..maxResults];
    }
  }

  // ----- the recommendation as a function

  /** What `recommend_size` is given besides the trend and the current shape. */
  datatype Request = Request(
    available: seq<Shape>, action: Option<Actions.Action>, cloud: ShapeTiers.Cloud, rules: Option<seq<Rule>>,
    compatibility: CompatibilityRule, feedback: seq<ShapeFeedback.ResizeFeedback>,
    forbidSeries: bool, forbidFamily: bool)
  {
    predicate IsSplit() {
      action == Some(Actions.Split)
    }
  }

  /** What the code raises on. */
  datatype Problem = UnknownInstanceType | NoNumbersInFeedback | UnreadableName | NoCommonMetric

  /** The shapes that pass the rules, the compatibility filter and the feedback. */
  function Candidates(q: Request, current: Shape): Option<seq<Shape>> {
    var allowed := if q.rules.Some? then AllowedShapes(q.available, q.rules.value) else q.available;
    ShapeFeedback.Adjusted(CompatibleShapes(current, allowed, q.compatibility), q.feedback)
  }

  /** The candidates in the order they are tried. */
  function Listed(q: Request, current: Shape): Result<seq<Shape>, Problem> {
    var candidates := Candidates(q, current);
    var prefix := ShapeTiers.SeriesPrefix(current.name, q.cloud);
    if candidates.None? then Failure(NoNumbersInFeedback)
    else if prefix.None? then Failure(UnreadableName)
    else Success(ShapeTiers.DividedByPriority(candidates.value, current, q.cloud, prefix.value, q.IsSplit(), q.rules,
                                   q.forbidSeries, q.forbidFamily).All())
  }

  function Plain(shapes: seq<Shape>): (dtos: seq<Dto>)
    ensures |dtos| == |shapes|
    ensures forall i | 0 <= i < |shapes| :: dtos[i] == Dto(shapes[i], None)
  {
    Map(shapes, (s: Shape) => Dto(s, None))
  }

  function Rated(dtos: seq<Dto>, t: Trend, current: Shape): (rated: seq<Dto>)
    ensures |rated| == |dtos|
    ensures forall i | 0 <= i < |dtos| :: rated[i] == Dto(dtos[i].shape, Probability(t, current, dtos[i].shape))
  {
    Map(dtos, (d: Dto) => Dto(d.shape, Probability(t, current, d.shape)))
  }

  predicate AllRated(dtos: seq<Dto>, t: Trend, current: Shape) {
    forall d | d in dtos :: Probability(t, current, d.shape).Some?
  }

  /** The suitable shapes of one pass, each once and with its probability. */
  function Pass(q: Request, t: Trend, current: Shape): Result<seq<Dto>, Problem> {
    match Listed(q, current)
    case Failure(p) => Failure(p)
    case Success(shapes) =>
      var suitable := Dedup(Plain(Suitable(shapes, RequirementsOf(t, current))));
      if AllRated(suitable, t, current) then Success(Rated(suitable, t, current)) else Failure(NoCommonMetric)
  }

  function WithSplitShare(dtos: seq<Dto>, share: Option<real>): (r: seq<Dto>)
    ensures |r| == |dtos|
    ensures forall i | 0 <= i < |dtos| :: r[i] == Dto(dtos[i].shape, share)
  {
    Map(dtos, (d: Dto) => Dto(d.shape, share))
  }

  const DEFAULT_MAX_RESULTS: nat := 5

  /** `recommend_size`; the relaxed call falls back to the default number of results. */
  function Recommendation(q: Request, t: Trend, current: Shape, share: Option<real>, allowRecursion: bool,
                          maxResults: nat)
    : Result<seq<Dto>, Problem>
    decreases allowRecursion
  {
    if !t.RequiresResize() then Success(if q.IsSplit() then [Dto(current, share)] else [])
    else
      match Pass(q, t, current)
      case Failure(p) => Failure(p)
      case Success(suitable) =>
        if suitable == [] || |suitable| < maxResults then
          if !allowRecursion then Success(suitable)
          else
            match Recommendation(q, Discarded(t), current, share, false, DEFAULT_MAX_RESULTS)
            case Failure(p) => Failure(p)
            case Success(relaxed) => Success(Truncated(Dedup(suitable + relaxed), maxResults))
        else
          Success(Truncated(Dedup(if q.IsSplit() then WithSplitShare(suitable, share) else suitable), maxResults))
  }

  /** Whether the trend is relaxed on the way. */
  predicate Relaxes(q: Request, t: Trend, current: Shape, allowRecursion: bool, maxResults: nat) {
    allowRecursion && t.RequiresResize() && Pass(q, t, current).Success?
    && (Pass(q, t, current).value == [] || |Pass(q, t, current).value| < maxResults)
  }

  // ----- the method

  method CandidateShapes(q: Request, current: Shape) returns (candidates: Option<seq<Shape>>)
    ensures candidates == Candidates(q, current)
  {
    hide AllowedShapes, CompatibleShapes, ShapeFeedback.Adjusted;
    var shapes := q.available;
    if q.rules.Some? {
      shapes := GetAllowedInstanceTypes(shapes, q.rules.value);
    }
    shapes := ApplyCompatibilityFilter(current, shapes, q.compatibility);
    candidates := Some(shapes);
    if q.feedback != [] {
      candidates := ShapeFeedback.ApplyAdjustment(shapes, q.feedback);
    } else {
      NoFeedback(shapes);
    }
  }

  lemma NoFeedback(shapes: seq<Shape>)
    ensures ShapeFeedback.Adjusted(shapes, []) == Some(shapes)
  {}

  /** The probability loop. */
  method Rate(dtos: seq<Dto>, t: Trend, current: Shape) returns (rated: Option<seq<Dto>>)
    ensures rated == if AllRated(dtos, t, current) then Some(Rated(dtos, t, current)) else None
  {
    hide Probability;
    var result: seq<Dto> := [];
    for i := 0 to |dtos|
      invariant result == Rated(dtos[..i], t, current) && AllRated(dtos[..i], t, current)
    {
      assert dtos[..i + 1] == dtos[..i] + [dtos[i]];
      assert dtos[i] in dtos;
      var probability := CalculateShapeProbability(t, current, dtos[i].shape);
      if probability.None? {
        return None;
      }
      result := result + [Dto(dtos[i].shape, probability)];
    }
    assert dtos[..|dtos|] == dtos;
    rated := Some(result);
  }

  method StrictPass(q: Request, t: Trend, current: Shape) returns (result: Result<seq<Dto>, Problem>)
    ensures result == Pass(q, t, current)
  {
    hide Candidates, ShapeTiers.DividedByPriority, ShapeTiers.SeriesPrefix, RequirementsOf, Suitable, AllRated, Dedup;
    var candidates := CandidateShapes(q, current);
    if candidates.None? {
      return Failure(NoNumbersInFeedback);
    }
    var tiers := ShapeTiers.DivideByPriority(candidates.value, current, q.cloud, q.IsSplit(), q.rules,
                                  q.forbidSeries, q.forbidFamily);
    if tiers.None? {
      return Failure(UnreadableName);
    }
    var shapes := FindSuitableShapes(tiers.value, RequirementsOf(t, current));
    var suitable := RemoveShapeDuplicates(Plain(shapes), 0);
    var rated := Rate(suitable, t, current);
    result := if rated.None? then Failure(NoCommonMetric) else Success(rated.value);
  }

  /** The recursion is at most one deep: the relaxed call does not recurse. */
  method RecommendSize(q: Request, trend: ResizeTrend, current: Option<Shape>, allowRecursion: bool, maxResults: nat)
    returns (result: Result<seq<Dto>, Problem>)
    modifies trend`metricTrends, trend`defaultTrend
    decreases allowRecursion
    ensures current.None? ==> result == Failure(UnknownInstanceType) && trend.Value() == old(trend.Value())
    ensures current.Some? ==>
              result ==
              Recommendation(q, old(trend.Value()), current.value, trend.probability, allowRecursion, maxResults)
    ensures current.Some? ==>
              trend.Value() == if Relaxes(q, old(trend.Value()), current.value, allowRecursion, maxResults)
                               then Discarded(old(trend.Value())) else old(trend.Value())
  {
    hide Pass, Discarded, Trend.RequiresResize, Dedup;
    if current.None? {
      return Failure(UnknownInstanceType);
    }
    var shape := current.value;
    if !trend.Value().RequiresResize() {
      return Success(if q.IsSplit() then [Dto(shape, trend.probability)] else []);
    }
    var pass := StrictPass(q, trend.Value(), shape);
    if pass.Failure? {
      return pass;
    }
    var suitable := pass.value;
    if suitable == [] || |suitable| < maxResults {
      if !allowRecursion {
        return Success(suitable);
      }
      trend.DiscardOptionalRequirements();
      var relaxed := RecommendSize(q, trend, current, false, DEFAULT_MAX_RESULTS);
      if relaxed.Failure? {
        return relaxed;
      }
      var merged := RemoveShapeDuplicates(suitable + relaxed.value, maxResults);
      return Success(merged);
    }
    if q.IsSplit() {
      suitable := WithSplitShare(suitable, trend.probability);
    }
    var left := RemoveShapeDuplicates(suitable, maxResults);
    result := Success(left);
  }

  // ----- what a recommendation guarantees

  ghost predicate PassesFilters(q: Request, current: Shape, s: Shape) {
    && s in q.available
    && (q.rules.Some? ==> IsAllowed(s, q.rules.value))
    && IsCompatible(current, s, q.compatibility)
    && forall f | f in q.feedback :: ShapeFeedback.IsUsable(f) && ShapeFeedback.Passes(s, f)
  }

  lemma CandidatesPassFilters(q: Request, current: Shape, s: Shape)
    requires UniqueNames(q.available) && Candidates(q, current).Some? && s in Candidates(q, current).value
    ensures PassesFilters(q, current, s)
  {
    hide IsAllowed, IsCompatible, ShapeFeedback.IsUsable, ShapeFeedback.Passes, AllowedShapes, ShapeFeedback.Adjusted;
    var allowed := if q.rules.Some? then AllowedShapes(q.available, q.rules.value) else q.available;
    ShapeFeedback.AdjustedMembers(CompatibleShapes(current, allowed, q.compatibility), q.feedback);
    if q.rules.Some? {
      AllowedMembers(s, q.available, q.rules.value);
    }
  }

  lemma ListedPassFilters(q: Request, current: Shape, s: Shape)
    requires UniqueNames(q.available) && Listed(q, current).Success? && s in Listed(q, current).value
    ensures PassesFilters(q, current, s)
  {
    var candidates := Candidates(q, current).value;
    var prefix := ShapeTiers.SeriesPrefix(current.name, q.cloud).value;
    hide Candidates, PassesFilters, ShapeTiers.SeriesPrefix, ShapeTiers.DividedByPriority;
    ShapeTiers.TiersAreSizes(s, candidates, current, q.cloud, prefix, q.IsSplit(), q.rules,
                             q.forbidSeries, q.forbidFamily);
    CandidatesPassFilters(q, current, s);
  }

  function RatedShape(t: Trend, current: Shape, s: Shape): Dto {
    Dto(s, Probability(t, current, s))
  }

  /** Exactly the listed shapes that suit, each once. */
  ghost predicate IsPass(dtos: seq<Dto>, shapes: seq<Shape>, r: Requirements, t: Trend, current: Shape) {
    && Distinct(dtos)
    && (forall d | d in dtos :: d == RatedShape(t, current, d.shape) && d.shape in shapes && Suits(d.shape, r))
    && forall s | s in shapes && Suits(s, r) :: RatedShape(t, current, s) in dtos
  }

  lemma PassIs(q: Request, t: Trend, current: Shape)
    requires Pass(q, t, current).Success?
    ensures Listed(q, current).Success?
    ensures IsPass(Pass(q, t, current).value, Listed(q, current).value, RequirementsOf(t, current), t, current)
  {
    hide Probability, Listed, RequirementsOf, Suits;
    var shapes, r := Listed(q, current).value, RequirementsOf(t, current);
    RatedIsPass(shapes, r, t, current);
  }

  lemma RatedIsPass(shapes: seq<Shape>, r: Requirements, t: Trend, current: Shape)
    ensures IsPass(Rated(Dedup(Plain(Suitable(shapes, r))), t, current), shapes, r, t, current)
  {
    hide Probability, Suits;
    var suitable := Suitable(shapes, r);
    var plain := Plain(suitable);
    var dtos := Dedup(plain);
    var rated := Rated(dtos, t, current);
    forall d | d in dtos ensures d == Dto(d.shape, None) && d.shape in suitable {
      var i :| 0 <= i < |plain| && plain[i] == d;
    }
    assert forall i | 0 <= i < |dtos| :: dtos[i] in dtos;
    forall d | d in rated ensures d == RatedShape(t, current, d.shape) && d.shape in suitable {
      var i :| 0 <= i < |rated| && rated[i] == d;
    }
    forall s | s in suitable ensures RatedShape(t, current, s) in rated {
      var i :| 0 <= i < |suitable| && suitable[i] == s;
      assert plain[i] in dtos;
      var j :| 0 <= j < |dtos| && dtos[j] == plain[i];
      assert rated[j] == RatedShape(t, current, s);
    }
  }

  /** Strict matches first, then relaxed ones that are no strict matches. */
  ghost predicate StrictFirst(dtos: seq<Dto>, strict: Requirements, relaxed: Requirements) {
    exists k: nat :: k <= |dtos| && StrictUpTo(dtos, k, strict, relaxed)
  }

  ghost predicate StrictUpTo(dtos: seq<Dto>, k: nat, strict: Requirements, relaxed: Requirements) {
    && (forall i | 0 <= i < |dtos| && i < k :: Suits(dtos[i].shape, strict))
    && forall i | k <= i < |dtos| :: !Suits(dtos[i].shape, strict) && Suits(dtos[i].shape, relaxed)
  }

  /** What merging the strict results with further ones gives. */
  lemma MergedIs(strict: seq<Dto>, others: seq<Dto>, maxResults: nat, merged: seq<Dto>, k: nat)
    requires Distinct(strict) && maxResults >= 1 && merged == Truncated(Dedup(strict + others), maxResults)
    requires k == if |strict| <= |merged| then |strict| else |merged|
    ensures |merged| <= maxResults && Distinct(merged)
    ensures forall i | 0 <= i < k :: merged[i] in strict
    ensures forall i | k <= i < |merged| :: merged[i] in others && merged[i] !in strict
    ensures |merged| < maxResults ==> forall d | d in strict :: d in merged
  {
    hide Dedup;
    DedupOfDistinct(strict);
    DedupAppend(strict, others);
    var all := Dedup(strict + others);
    assert forall i | 0 <= i < |strict| :: all[i] == strict[i];
  }

  /** Every strict match counts as found, so what the relaxed pass adds are no strict matches. */
  lemma MergedIsStrictFirst(strict: seq<Dto>, others: seq<Dto>, maxResults: nat, merged: seq<Dto>, shapes: seq<Shape>,
                            r: Requirements, relaxed: Requirements, t: Trend, current: Shape)
    requires IsPass(strict, shapes, r, t, current) && maxResults >= 1
    requires forall d | d in others ::
             d == RatedShape(t, current, d.shape) && d.shape in shapes && Suits(d.shape, relaxed)
    requires merged == Truncated(Dedup(strict + others), maxResults)
    ensures |merged| <= maxResults && Distinct(merged) && StrictFirst(merged, r, relaxed)
    ensures forall d | d in merged :: d == RatedShape(t, current, d.shape) && d.shape in shapes
    ensures |merged| < maxResults ==> forall s | s in shapes && Suits(s, r) :: RatedShape(t, current, s) in merged
  {
    hide Suits, RatedShape, Dedup, Truncated;
    var k := if |strict| <= |merged| then |strict| else |merged|;
    MergedIs(strict, others, maxResults, merged, k);
    forall i | 0 <= i < |merged|
      ensures if i < k then Suits(merged[i].shape, r) else !Suits(merged[i].shape, r) && Suits(merged[i].shape, relaxed)
      ensures merged[i] == RatedShape(t, current, merged[i].shape) && merged[i].shape in shapes
    {
      assert i < k ==> merged[i] in strict;
      assert i >= k ==> merged[i] in others && merged[i] !in strict;
    }
    assert StrictUpTo(merged, k, r, relaxed);
  }

  /** What the relaxed call contributes. */
  lemma RelaxedResults(q: Request, t: Trend, current: Shape, share: Option<real>, others: seq<Dto>)
    requires !q.IsSplit() && Listed(q, current).Success?
    requires Recommendation(q, Discarded(t), current, share, false, DEFAULT_MAX_RESULTS) == Success(others)
    ensures forall d | d in others :: d == RatedShape(t, current, d.shape) && d.shape in Listed(q, current).value &&
                                      Suits(d.shape, RequirementsOf(Discarded(t), current))
  {
    hide Probability, Listed, RequirementsOf, Suits, Discarded, Pass, Trend.RequiresResize;
    var relaxed := Discarded(t);
    DiscardedKeepsData(t);
    if relaxed.RequiresResize() {
      PassIs(q, relaxed, current);
      forall d | d in others ensures d in Pass(q, relaxed, current).value {}
      forall d | d in others ensures d == RatedShape(t, current, d.shape) {
        SameDataSameProbability(t, relaxed, current, d.shape);
      }
    }
  }

  /** A recommendation that is not a split: bounded, of distinct names, of shapes that pass every filter,
      with the strict matches ahead of the relaxed ones, and short only if it holds every strict match. */
  lemma RecommendationIsSound(q: Request, t: Trend, current: Shape, share: Option<real>, maxResults: nat,
                              result: seq<Dto>)
    requires !q.IsSplit() && maxResults >= 1 && UniqueNames(q.available)
    requires Recommendation(q, t, current, share, true, maxResults) == Success(result)
    ensures |result| <= maxResults
    ensures forall i, j | 0 <= i < j < |result| :: result[i].shape.name != result[j].shape.name
    ensures forall d | d in result ::
            PassesFilters(q, current, d.shape) && d.probability == Probability(t, current, d.shape)
    ensures StrictFirst(result, RequirementsOf(t, current), RequirementsOf(Discarded(t), current))
    ensures t.RequiresResize() && |result| < maxResults ==>
              Listed(q, current).Success? &&
              forall s | s in Listed(q, current).value && Suits(s, RequirementsOf(t, current)) ::
                RatedShape(t, current, s) in result
  {
    hide Probability, Listed, RequirementsOf, Suits, Discarded, Pass, Trend.RequiresResize, PassesFilters, Dedup;
    var r, relaxed := RequirementsOf(t, current), RequirementsOf(Discarded(t), current);
    if !t.RequiresResize() {
      assert StrictUpTo(result, 0, r, relaxed);
      return;
    }
    PassIs(q, t, current);
    var strict, shapes := Pass(q, t, current).value, Listed(q, current).value;
    var others: seq<Dto> := [];
    if Relaxes(q, t, current, true, maxResults) {
      others := Recommendation(q, Discarded(t), current, share, false, DEFAULT_MAX_RESULTS).value;
      RelaxedResults(q, t, current, share, others);
    } else {
      assert strict + others == strict;
    }
    MergedIsStrictFirst(strict, others, maxResults, result, shapes, r, relaxed, t, current);
    forall d | d in result ensures PassesFilters(q, current, d.shape) && d.shape in q.available {
      ListedPassFilters(q, current, d.shape);
      AvailableIfPassing(q, current, d.shape);
    }
    forall i, j | 0 <= i < j < |result| ensures result[i].shape.name != result[j].shape.name {
      assert result[i] in result && result[j] in result && result[i] != result[j];
    }
  }

  lemma AvailableIfPassing(q: Request, current: Shape, s: Shape)
    requires PassesFilters(q, current, s)
    ensures s in q.available
  {}

  // ----- what the caller keeps of it

  function OtherThan(dtos: seq<Dto>, name: string, allowSame: bool): (others: seq<Dto>)
    ensures forall d :: d in others <==> d in dtos && (allowSame || d.shape.name != name)
  {
    Filter(dtos, (d: Dto) => allowSame || d.shape.name != name)
  }

  /** `_cleanup_recommended_shapes`: each entry once, without the current shape unless the load is split. */
  function Cleaned(dtos: seq<Dto>, currentName: string, allowSame: bool): (cleaned: seq<Dto>)
    ensures forall d :: d in cleaned <==> d in dtos && (allowSame || d.shape.name != currentName)
  {
    Dedup(OtherThan(dtos, currentName, allowSame))
  }

  lemma DedupSnoc(dtos: seq<Dto>, d: Dto)
    ensures Dedup(dtos + [d]) == if d in Dedup(dtos) then Dedup(dtos) else Dedup(dtos) + [d]
  {
    assert (dtos + [d])[..|dtos|] == dtos;
  }

  lemma CleanedNext(dtos: seq<Dto>, n: nat, name: string, allowSame: bool)
    requires n < |dtos|
    ensures Cleaned(dtos[..n + 1], name, allowSame) ==
            if (allowSame || dtos[n].shape.name != name) && dtos[n] !in Cleaned(dtos[..n], name, allowSame)
            then Cleaned(dtos[..n], name, allowSame) + [dtos[n]] else Cleaned(dtos[..n], name, allowSame)
  {
    hide Dedup;
    FilterNext(dtos, n, (d: Dto) => allowSame || d.shape.name != name);
    DedupSnoc(OtherThan(dtos[..n], name, allowSame), dtos[n]);
    if !(allowSame || dtos[n].shape.name != name) {
      assert OtherThan(dtos[..n + 1], name, allowSame) == OtherThan(dtos[..n], name, allowSame);
    }
  }

  method CleanupRecommendedShapes(dtos: seq<Dto>, currentName: string, allowSame: bool) returns (result: seq<Dto>)
    ensures result == Cleaned(dtos, currentName, allowSame)
  {
    NothingToClean(currentName, allowSame);
    hide Cleaned;
    result := [];
    for i := 0 to |dtos|
      invariant result == Cleaned(dtos[..i], currentName, allowSame)
    {
      var size := dtos[i];
      CleanedNext(dtos, i, currentName, allowSame);
      if size in result {
        continue;
      }
      if !allowSame && size.shape.name == currentName {
        continue;
      }
      result := result + [size];
    }
    assert dtos[..|dtos|] == dtos;
  }

  lemma NothingToClean(currentName: string, allowSame: bool)
    ensures Cleaned([], currentName, allowSame) == []
  {}

  ghost predicate DistinctNames(dtos: seq<Dto>) {
    forall i, j | 0 <= i < j < |dtos| :: dtos[i].shape.name != dtos[j].shape.name
  }

  lemma {:induction false} OneNameLess(dtos: seq<Dto>, name: string)
    requires DistinctNames(dtos)
    ensures Distinct(OtherThan(dtos, name, false))
    ensures |OtherThan(dtos, name, false)| == |dtos| - if exists d | d in dtos :: d.shape.name == name then 1 else 0
  {
    if dtos != [] {
      var tail := dtos[1..];
      OneNameLess(tail, name);
      assert dtos == [dtos[0]] + tail;
      forall d | d in tail ensures d.shape.name != dtos[0].shape.name {
        var k :| 0 <= k < |tail| && tail[k] == d;
        assert dtos[k + 1] == d;
      }
      FilterNextHead(dtos, name);
    }
  }

  lemma FilterNextHead(dtos: seq<Dto>, name: string)
    requires dtos != []
    ensures OtherThan(dtos, name, false) ==
            (if dtos[0].shape.name != name then [dtos[0]] else []) + OtherThan(dtos[1..], name, false)
  {
    var allowSame := false;
    assert dtos == [dtos[0]] + dtos[1..];
    FilterAppend([dtos[0]], dtos[1..], (d: Dto) => allowSame || d.shape.name != name);
    assert OtherThan([dtos[0]], name, allowSame) == if dtos[0].shape.name != name then [dtos[0]] else [];
  }

  /** The current shape never comes out of a recommendation that is no split, but it may have taken a place:
      exactly then one shape less comes out than was recommended. */
  lemma CurrentShapeCostsAPlace(q: Request, t: Trend, current: Shape, share: Option<real>, maxResults: nat,
                                result: seq<Dto>)
    requires !q.IsSplit() && maxResults >= 1 && UniqueNames(q.available)
    requires Recommendation(q, t, current, share, true, maxResults) == Success(result)
    ensures var final := Cleaned(result, current.name, false);
            && (forall d | d in final :: d.shape.name != current.name)
            && |final| == |result| - if exists d | d in result :: d.shape.name == current.name then 1 else 0
  {
    RecommendationIsSound(q, t, current, share, maxResults, result);
    hide Recommendation, Dedup, OtherThan;
    OneNameLess(result, current.name);
    DedupOfDistinct(OtherThan(result, current.name, false));
  }
}
