/** What a resize recommendation consists of: which shapes are found, in which order, and by which numbers. */
module ResizeResults {
  import opened Wrappers
  import opened Rounding
  import opened Sequences
  import opened ResizeTrends
  import opened ShapeRules
  import ShapeFeedback
  import ShapeTiers
  import opened ResizeService
  import Actions
  import Strings

  // ----- the relaxed pass

  lemma SplitSharesAreDistinct(dtos: seq<Dto>, share: Option<real>, t: Trend, current: Shape)
    requires Distinct(dtos) && forall d | d in dtos :: d == RatedShape(t, current, d.shape)
    ensures Distinct(WithSplitShare(dtos, share))
  {
    hide RatedShape;
    assert forall i | 0 <= i < |dtos| :: dtos[i] in dtos;
  }

  lemma DedupedIsAsLong(dtos: seq<Dto>, others: seq<Dto>)
    requires Distinct(others)
    ensures |Dedup(dtos + others)| >= |others|
  {
    DistinctFits(others, Dedup(dtos + others));
  }

  /** Cutting off enough different results leaves as many as were asked for. */
  lemma CutIsFull(dtos: seq<Dto>, maxResults: nat)
    requires Distinct(dtos) && |dtos| >= maxResults >= 1
    ensures var cut := Truncated(Dedup(dtos), maxResults);
            |cut| == maxResults && Distinct(cut) && forall i | 0 <= i < maxResults :: cut[i] == dtos[i]
  {
    hide Dedup;
    DedupOfDistinct(dtos);
  }

  lemma PassIsRated(q: Request, t: Trend, current: Shape)
    requires Pass(q, t, current).Success?
    ensures Distinct(Pass(q, t, current).value)
    ensures forall d | d in Pass(q, t, current).value :: d == RatedShape(t, current, d.shape)
  {
    hide Pass, RatedShape, Suits, RequirementsOf, Listed, Distinct;
    PassIs(q, t, current);
  }

  /** One pass that is not relaxed further: everything it found, or as many results as were asked for. */
  lemma EnoughOrAll(q: Request, t: Trend, current: Shape, share: Option<real>, maxResults: nat, result: seq<Dto>)
    requires t.RequiresResize() && maxResults >= 1
    requires Recommendation(q, t, current, share, false, maxResults) == Success(result)
    ensures Pass(q, t, current).Success?
    ensures result == Pass(q, t, current).value || (|result| == maxResults && Distinct(result))
  {
    hide Pass, Trend.RequiresResize, Dedup, Truncated, RatedShape, Distinct;
    var suitable := Pass(q, t, current).value;
    if suitable != [] && |suitable| >= maxResults {
      PassIsRated(q, t, current);
      SplitSharesAreDistinct(suitable, share, t, current);
      CutIsFull(if q.IsSplit() then WithSplitShare(suitable, share) else suitable, maxResults);
    }
  }

  /** A short result holds everything both passes found. */
  lemma ShortHoldsBoth(q: Request, t: Trend, current: Shape, share: Option<real>, maxResults: nat, result: seq<Dto>)
    requires t.RequiresResize() && Discarded(t).RequiresResize()
    requires Recommendation(q, t, current, share, true, maxResults) == Success(result)
    requires |result| < maxResults && |result| < 5
    ensures Pass(q, t, current).Success? && Pass(q, Discarded(t), current).Success?
    ensures forall d :: d in result <==> d in Pass(q, t, current).value || d in Pass(q, Discarded(t), current).value
  {
    hide Pass, Discarded, Trend.RequiresResize, Dedup;
    var strict := Pass(q, t, current).value;
    if strict != [] && |strict| >= maxResults {
      EnoughOrAll(q, t, current, share, maxResults, result);
    }
    var others := Recommendation(q, Discarded(t), current, share, false, DEFAULT_MAX_RESULTS).value;
    EnoughOrAll(q, Discarded(t), current, share, DEFAULT_MAX_RESULTS, others);
    if others != Pass(q, Discarded(t), current).value {
      DedupedIsAsLong(strict, others);
    }
  }

  /** Where the relaxed trend still asks for a resize, a result that is short of both limits holds every listed
      shape that suits the strict or the relaxed requirements. It is empty only if no listed shape suits either. */
  lemma RelaxedMatchesAreFound(q: Request, t: Trend, current: Shape, share: Option<real>, maxResults: nat,
                               result: seq<Dto>)
    requires t.RequiresResize() && Discarded(t).RequiresResize()
    requires Recommendation(q, t, current, share, true, maxResults) == Success(result)
    requires |result| < maxResults && |result| < 5
    ensures Listed(q, current).Success?
    ensures var (shapes, strict, relaxed) :=
                (Listed(q, current).value, RequirementsOf(t, current), RequirementsOf(Discarded(t), current));
            && (forall s :: (exists d :: d in result && d.shape == s) <==>
                            s in shapes && (Suits(s, strict) || Suits(s, relaxed)))
            && (result == [] <==> forall s | s in shapes :: !Suits(s, strict) && !Suits(s, relaxed))
  {
    hide Pass, Discarded, Trend.RequiresResize, Recommendation, Suits, RequirementsOf, Listed, Probability;
    ShortHoldsBoth(q, t, current, share, maxResults, result);
    PassIs(q, t, current);
    PassIs(q, Discarded(t), current);
    BothPasses(result, Pass(q, t, current).value, Pass(q, Discarded(t), current).value, Listed(q, current).value,
               RequirementsOf(t, current), RequirementsOf(Discarded(t), current), t, Discarded(t), current);
  }

  lemma BothPasses(result: seq<Dto>, a: seq<Dto>, b: seq<Dto>, shapes: seq<Shape>, strict: Requirements,
                   relaxed: Requirements, t: Trend, d: Trend, current: Shape)
    requires forall x :: x in result <==> x in a || x in b
    requires IsPass(a, shapes, strict, t, current) && IsPass(b, shapes, relaxed, d, current)
    ensures forall s :: (exists x :: x in result && x.shape == s) <==>
                        s in shapes && (Suits(s, strict) || Suits(s, relaxed))
    ensures result == [] <==> forall s | s in shapes :: !Suits(s, strict) && !Suits(s, relaxed)
  {
    hide Suits, Distinct, Probability;
    forall s | s in shapes && (Suits(s, strict) || Suits(s, relaxed)) ensures exists x :: x in result && x.shape == s {
      var x := RatedShape(if Suits(s, strict) then t else d, current, s);
      assert x in result && x.shape == s;
    }
    if result != [] {
      assert result[0] in result;
    }
  }

  /** Without need for a resize a split repeats the current shape and anything else gives nothing. */
  lemma NoResizeNeeded(q: Request, t: Trend, current: Shape, share: Option<real>, allowRecursion: bool,
                       maxResults: nat)
    ensures !t.RequiresResize() ==>
              Recommendation(q, t, current, share, allowRecursion, maxResults) ==
              Success(if q.action == Some(Actions.Split) then [Dto(current, share)] else [])
  {
    hide Pass, Trend.RequiresResize, Dedup;
  }

  /** Enough strict matches are the result, as many as asked for, and nothing is relaxed. For a split each gets the
      share of the load instead of a probability of its own. */
  lemma EnoughStrictMatches(q: Request, t: Trend, current: Shape, share: Option<real>, allowRecursion: bool,
                            maxResults: nat)
    requires t.RequiresResize() && Pass(q, t, current).Success?
    requires |Pass(q, t, current).value| >= maxResults >= 1
    ensures !Relaxes(q, t, current, allowRecursion, maxResults)
    ensures var r := Recommendation(q, t, current, share, allowRecursion, maxResults);
            && r.Success? && |r.value| == maxResults
            && forall i | 0 <= i < maxResults ::
                 r.value[i] == if q.action == Some(Actions.Split) then Dto(Pass(q, t, current).value[i].shape, share)
                               else Pass(q, t, current).value[i]
  {
    hide Pass, Trend.RequiresResize, Dedup, Truncated, RatedShape, Distinct;
    var suitable := Pass(q, t, current).value;
    PassIsRated(q, t, current);
    SplitSharesAreDistinct(suitable, share, t, current);
    CutIsFull(if q.IsSplit() then WithSplitShare(suitable, share) else suitable, maxResults);
  }

  /** Some listed shape suits the requirements of a trend and has no probability. */
  ghost predicate IsUnrated(shapes: seq<Shape>, t: Trend, current: Shape) {
    exists s | s in shapes :: Suits(s, RequirementsOf(t, current)) && Probability(t, current, s).None?
  }

  lemma PassFailsIff(q: Request, t: Trend, current: Shape)
    ensures Pass(q, t, current).Failure? <==>
            Listed(q, current).Failure? || IsUnrated(Listed(q, current).value, t, current)
  {
    hide Listed, Suits, RequirementsOf, Probability;
    if Listed(q, current).Success? {
      var suitable := Suitable(Listed(q, current).value, RequirementsOf(t, current));
      var dtos := Dedup(Plain(suitable));
      forall s | s in suitable ensures Dto(s, None) in dtos {
        var i :| 0 <= i < |suitable| && suitable[i] == s;
        assert Plain(suitable)[i] in Plain(suitable);
      }
      forall d | d in dtos ensures d.shape in suitable {
        var i :| 0 <= i < |suitable| && Plain(suitable)[i] == d;
      }
    }
  }

  /** When there is no recommendation but an error: the shapes cannot be listed, or a shape is found, strictly or,
      where the strict pass is short and the relaxed trend asks for a resize, relaxed, that shares no metric. */
  lemma RecommendationFailsIff(q: Request, t: Trend, current: Shape, share: Option<real>, maxResults: nat)
    ensures Recommendation(q, t, current, share, true, maxResults).Failure? <==>
            && t.RequiresResize()
            && (|| Listed(q, current).Failure?
                || IsUnrated(Listed(q, current).value, t, current)
                || (&& Relaxes(q, t, current, true, maxResults) && Discarded(t).RequiresResize()
                    && IsUnrated(Listed(q, current).value, Discarded(t), current)))
  {
    hide Pass, Discarded, Trend.RequiresResize, Dedup, Listed, IsUnrated;
    PassFailsIff(q, t, current);
    PassFailsIff(q, Discarded(t), current);
  }

  // ----- the order

  /** The results start with the strict matches in the order they were found, as far as there is room. */
  lemma StrictMatchesLead(q: Request, t: Trend, current: Shape, share: Option<real>, maxResults: nat, result: seq<Dto>)
    requires !q.IsSplit() && maxResults >= 1 && t.RequiresResize()
    requires Recommendation(q, t, current, share, true, maxResults) == Success(result)
    ensures Pass(q, t, current).Success?
    ensures var strict := Pass(q, t, current).value;
            forall i | 0 <= i < |strict| && i < maxResults :: i < |result| && result[i] == strict[i]
  {
    hide Pass, Trend.RequiresResize, Dedup, Discarded, RatedShape, Distinct;
    var strict := Pass(q, t, current).value;
    PassIsRated(q, t, current);
    DedupOfDistinct(strict);
    if Relaxes(q, t, current, true, maxResults) {
      var others := Recommendation(q, Discarded(t), current, share, false, DEFAULT_MAX_RESULTS).value;
      DedupAppend(strict, others);
    }
  }

  /** Where an element is first found. */
  ghost predicate FirstAt<T>(xs: seq<T>, x: T, i: nat) {
    i < |xs| && xs[i] == x && forall k | 0 <= k < i :: xs[k] != x
  }

  /** Both lists have the same elements, first found in the same order. */
  ghost predicate SameOrder<T(!new)>(ys: seq<T>, xs: seq<T>) {
    forall i, j, x, y | 0 <= i < j < |ys| && FirstAt(xs, ys[i], x) && FirstAt(xs, ys[j], y) :: x < y
  }

  lemma {:induction false} DedupKeepsOrder<T(!new)>(xs: seq<T>)
    ensures SameOrder(Dedup(xs), xs)
  {
    if xs != [] {
      var front, last := xs[..|xs| - 1], xs[|xs| - 1];
      assert xs == front + [last];
      DedupKeepsOrder(front);
      var (shorter, all) := (Dedup(front), Dedup(xs));
      forall i, j, x, y | 0 <= i < j < |all| && FirstAt(xs, all[i], x) && FirstAt(xs, all[j], y) ensures x < y {
        FirstInFront(front, last, all[i], x);
        FirstInFront(front, last, all[j], y);
        assert all[i] in shorter;
      }
    }
  }

  lemma FirstInFront<T>(front: seq<T>, last: T, e: T, x: nat)
    requires FirstAt(front + [last], e, x)
    ensures e in front ==> FirstAt(front, e, x)
    ensures e !in front ==> x == |front|
  {
    if e in front {
      var k :| 0 <= k < |front| && front[k] == e;
      assert (front + [last])[k] == e;
      assert forall k | 0 <= k < x :: front[k] == (front + [last])[k];
    }
  }

  lemma {:induction false} FilterKeepsOrder<T(!new)>(xs: seq<T>, p: T -> bool, e: T, f: T, x: nat, y: nat,
                                                     a: nat, b: nat)
    requires p(e) && p(f) && FirstAt(xs, e, x) && FirstAt(xs, f, y)
    requires FirstAt(Filter(xs, p), e, a) && FirstAt(Filter(xs, p), f, b) && a < b
    ensures x < y
  {
    var front, last := xs[..|xs| - 1], xs[|xs| - 1];
    assert xs == front + [last];
    FilterAppend(front, [last], p);
    var kept := Filter(front, p);
    assert Filter([last], p) == if p(last) then [last] else [];
    FirstInFront(front, last, e, x);
    FirstInFront(front, last, f, y);
    if p(last) {
      FirstInFront(kept, last, e, a);
      FirstInFront(kept, last, f, b);
    } else {
      assert kept + [] == kept;
    }
    if f in front {
      FilterKeepsOrder(front, p, e, f, x, y, a, b);
    }
  }

  lemma FirstOf<T>(xs: seq<T>, e: T) returns (i: nat)
    requires e in xs
    ensures FirstAt(xs, e, i)
  {
    i := 0;
    while xs[i] != e
      invariant i < |xs| && forall k | 0 <= k < i :: xs[k] != e
      decreases |xs| - i
    {
      i := i + 1;
    }
  }

  /** A pass returns the suitable shapes in the order of the list. */
  lemma PassKeepsOrder(q: Request, t: Trend, current: Shape, i: nat, j: nat, x: nat, y: nat)
    requires Pass(q, t, current).Success? && Listed(q, current).Success?
    requires i < j < |Pass(q, t, current).value|
    requires FirstAt(Listed(q, current).value, Pass(q, t, current).value[i].shape, x)
    requires FirstAt(Listed(q, current).value, Pass(q, t, current).value[j].shape, y)
    ensures x < y
  {
    hide Listed, RequirementsOf, Probability, Suits, FirstAt;
    var r := RequirementsOf(t, current);
    var suitable := Suitable(Listed(q, current).value, r);
    var plain := Plain(suitable);
    var dtos := Dedup(plain);
    var d, e := dtos[i], dtos[j];
    DedupKeepsOrder(plain);
    assert d in plain && e in plain;
    var a := FirstOf(plain, d);
    var b := FirstOf(plain, e);
    PlainOrder(suitable, d, a);
    PlainOrder(suitable, e, b);
    FilterKeepsOrder(Listed(q, current).value, (s: Shape) => Suits(s, r), d.shape, e.shape, x, y, a, b);
  }

  lemma PlainOrder(shapes: seq<Shape>, d: Dto, a: nat)
    requires FirstAt(Plain(shapes), d, a)
    ensures FirstAt(shapes, d.shape, a) && d.shape in shapes
  {
    assert forall k | 0 <= k < |shapes| :: Plain(shapes)[k] == Dto(shapes[k], None);
  }

  // ----- the tiers

  /** The first tier a shape is in. */
  ghost function TierOf(tiers: ShapeTiers.Tiers, s: Shape): (k: nat) {
    if s in tiers.prioritised then 0
    else if s in tiers.series then 1
    else if s in tiers.family then 2
    else 3
  }

  ghost predicate NoSmaller(a: Shape, b: Shape) {
    a.cpu > b.cpu || (a.cpu == b.cpu && a.memory >= b.memory)
  }

  ghost predicate SortedTier(shapes: seq<Shape>) {
    forall i, j | 0 <= i < j < |shapes| :: NoSmaller(shapes[j], shapes[i])
  }

  lemma PlaceInTiers(tiers: ShapeTiers.Tiers, s: Shape, x: nat) returns (k: nat)
    requires FirstAt(tiers.prioritised + tiers.series + tiers.family + tiers.others, s, x)
    ensures var (a, b, c) := (|tiers.prioritised|, |tiers.prioritised| + |tiers.series|,
                              |tiers.prioritised| + |tiers.series| + |tiers.family|);
            match TierOf(tiers, s)
            case 0 => x < a
            case 1 => a <= x < b && k == x - a && k < |tiers.series| && tiers.series[k] == s
            case 2 => b <= x < c && k == x - b && k < |tiers.family| && tiers.family[k] == s
            case _ => c <= x && k == x - c && k < |tiers.others| && tiers.others[k] == s
  {
    k := 0;
    var (p, r, f, o) := (tiers.prioritised, tiers.series, tiers.family, tiers.others);
    var all := p + r + f + o;
    if s in p {
      var i := FirstOf(p, s);
      assert all[i] == s;
    } else if s in r {
      var i := FirstOf(r, s);
      assert all[|p| + i] == s;
      k := x - |p|;
    } else if s in f {
      var i := FirstOf(f, s);
      assert all[|p| + |r| + i] == s;
      k := x - |p| - |r|;
    } else {
      k := x - |p| - |r| - |f|;
    }
  }

  lemma EarlierTier(tiers: ShapeTiers.Tiers, s: Shape, u: Shape, x: nat, y: nat)
    requires FirstAt(tiers.prioritised + tiers.series + tiers.family + tiers.others, s, x)
    requires FirstAt(tiers.prioritised + tiers.series + tiers.family + tiers.others, u, y)
    requires x < y && SortedTier(tiers.series) && SortedTier(tiers.family) && SortedTier(tiers.others)
    ensures TierOf(tiers, s) <= TierOf(tiers, u)
    ensures TierOf(tiers, s) == TierOf(tiers, u) > 0 ==> NoSmaller(u, s)
  {
    var k := PlaceInTiers(tiers, s, x);
    var l := PlaceInTiers(tiers, u, y);
    hide FirstAt, NoSmaller, TierOf;
  }

  /** The tiers a request is tried in, once nothing raises. */
  function TiersFor(q: Request, current: Shape): ShapeTiers.Tiers
    requires Candidates(q, current).Some? && ShapeTiers.SeriesPrefix(current.name, q.cloud).Some?
  {
    ShapeTiers.DividedByPriority(Candidates(q, current).value, current, q.cloud,
                                 ShapeTiers.SeriesPrefix(current.name, q.cloud).value, q.IsSplit(), q.rules,
                                 q.forbidSeries, q.forbidFamily)
  }

  /** The customer's own choice first, then the series, the family and all others. */
  lemma ListedIs(q: Request, current: Shape)
    ensures Listed(q, current).Success? <==>
            Candidates(q, current).Some? && ShapeTiers.SeriesPrefix(current.name, q.cloud).Some?
    ensures Listed(q, current).Success? ==>
              var tiers := TiersFor(q, current);
              && Listed(q, current).value == tiers.prioritised + tiers.series + tiers.family + tiers.others
              && SortedTier(tiers.series) && SortedTier(tiers.family) && SortedTier(tiers.others)
  {
    hide Candidates, ShapeTiers.SeriesPrefix, ShapeTiers.SameSeries, ShapeTiers.SameFamily, ShapeTiers.OtherShapes,
         ShapeTiers.Prioritised, ShapeTiers.InSeries, ShapeTiers.InFamily;
    if Listed(q, current).Success? {
      var sizes, tiers := Candidates(q, current).value, TiersFor(q, current);
      var prefix := ShapeTiers.SeriesPrefix(current.name, q.cloud).value;
      ShapeTiers.SeriesMembers(current, sizes, current, prefix, q.IsSplit());
      ShapeTiers.FamilyMembers(current, sizes, current, q.cloud, NamesOf(tiers.series));
      ShapeTiers.OtherMembers(current, sizes, NamesOf(tiers.series) + NamesOf(tiers.family));
    }
  }

  /** Among the results only the first can be strict matches, as many as the strict pass found. */
  lemma StrictMatchesAreLeading(q: Request, t: Trend, current: Shape, share: Option<real>, maxResults: nat,
                                result: seq<Dto>, j: nat)
    requires !q.IsSplit() && maxResults >= 1 && t.RequiresResize()
    requires Recommendation(q, t, current, share, true, maxResults) == Success(result)
    requires j < |result| && Suits(result[j].shape, RequirementsOf(t, current))
    ensures Pass(q, t, current).Success? && j < |Pass(q, t, current).value|
    ensures result[j] == Pass(q, t, current).value[j]
  {
    StrictMatchesLead(q, t, current, share, maxResults, result);
    PassIs(q, t, current);
    hide Pass, Trend.RequiresResize, Dedup, Discarded, Suits, RequirementsOf, Listed, Probability, Distinct;
    var strict := Pass(q, t, current).value;
    if Relaxes(q, t, current, true, maxResults) {
      var others := Recommendation(q, Discarded(t), current, share, false, DEFAULT_MAX_RESULTS).value;
      RelaxedResults(q, t, current, share, others);
      MergedIs(strict, others, maxResults, result, if |strict| <= |result| then |strict| else |result|);
    } else {
      DedupOfDistinct(strict);
    }
  }

  /** Of two strict matches among the results, the earlier one is of the same tier or an earlier one; in a tier
      that is not the customer's own choice, the one with fewer CPUs comes first, and of as many CPUs the one
      with less memory. */
  lemma StrictMatchesByTier(q: Request, t: Trend, current: Shape, share: Option<real>, maxResults: nat,
                            result: seq<Dto>, i: nat, j: nat)
    requires !q.IsSplit() && maxResults >= 1 && t.RequiresResize()
    requires Recommendation(q, t, current, share, true, maxResults) == Success(result)
    requires i < j < |result|
    requires Suits(result[i].shape, RequirementsOf(t, current)) && Suits(result[j].shape, RequirementsOf(t, current))
    ensures Candidates(q, current).Some? && ShapeTiers.SeriesPrefix(current.name, q.cloud).Some?
    ensures var (tiers, a, b) := (TiersFor(q, current), result[i].shape, result[j].shape);
            && TierOf(tiers, a) <= TierOf(tiers, b)
            && (TierOf(tiers, a) == TierOf(tiers, b) > 0 ==> a.cpu < b.cpu || (a.cpu == b.cpu && a.memory <= b.memory))
  {
    StrictMatchesAreLeading(q, t, current, share, maxResults, result, i);
    StrictMatchesAreLeading(q, t, current, share, maxResults, result, j);
    PassIs(q, t, current);
    ListedIs(q, current);
    hide Pass, Recommendation, Trend.RequiresResize, Suits, RequirementsOf, Listed, Candidates, TiersFor, FirstAt,
         TierOf, ShapeTiers.SeriesPrefix, Probability, SortedTier, Distinct;
    var tiers, shapes := TiersFor(q, current), Listed(q, current).value;
    var strict := Pass(q, t, current).value;
    assert strict[i] in strict && strict[j] in strict;
    var x := FirstOf(shapes, strict[i].shape);
    var y := FirstOf(shapes, strict[j].shape);
    PassKeepsOrder(q, t, current, i, j, x, y);
    EarlierTier(tiers, strict[i].shape, strict[j].shape, x, y);
  }

  // ----- which shapes are listed

  lemma CandidatesIff(q: Request, current: Shape, s: Shape)
    requires UniqueNames(q.available)
    ensures Candidates(q, current).Some? <==> forall f | f in q.feedback :: ShapeFeedback.IsUsable(f)
    ensures Candidates(q, current).Some? ==>
              (s in Candidates(q, current).value <==> PassesFilters(q, current, s)) &&
              UniqueNames(Candidates(q, current).value)
  {
    hide IsAllowed, IsCompatible, ShapeFeedback.IsUsable, ShapeFeedback.Passes, AllowedShapes, ShapeFeedback.Adjusted;
    var allowed := if q.rules.Some? then AllowedShapes(q.available, q.rules.value) else q.available;
    ShapeFeedback.AdjustedMembers(CompatibleShapes(current, allowed, q.compatibility), q.feedback);
    forall u: Shape ensures u in allowed <==> u in q.available && (q.rules.Some? ==> IsAllowed(u, q.rules.value)) {
      if q.rules.Some? {
        AllowedMembers(u, q.available, q.rules.value);
      }
    }
  }

  /** The flags: without a change of series only the customer's choice and the series are tried, without a change of
      family the family as well, and otherwise every shape that passes the filters. */
  lemma ListedIff(q: Request, current: Shape, s: Shape)
    requires UniqueNames(q.available) && Listed(q, current).Success?
    ensures s in Listed(q, current).value <==>
            && PassesFilters(q, current, s)
            && (|| !(q.forbidSeries || q.forbidFamily)
                || s in TiersFor(q, current).prioritised
                || (Strings.StartsWith(s.name, ShapeTiers.SeriesPrefix(current.name, q.cloud).value) &&
                    (q.action == Some(Actions.Split) || s.name != current.name))
                || (!q.forbidSeries && if q.cloud == ShapeTiers.Azure
                                       then Strings.StartsWith(s.name, Strings.Split(current.name, '_')[0])
                                       else s.familyType == current.familyType))
  {
    CandidatesIff(q, current, s);
    ListedIs(q, current);
    hide Candidates, PassesFilters, Listed, ShapeTiers.SameSeries, ShapeTiers.SameFamily, ShapeTiers.OtherShapes,
         ShapeTiers.SeriesPrefix, ShapeTiers.Prioritised, SortedTier;
    var sizes, tiers := Candidates(q, current).value, TiersFor(q, current);
    var prefix := ShapeTiers.SeriesPrefix(current.name, q.cloud).value;
    ShapeTiers.TiersUnion(s, sizes, current, q.cloud, prefix, q.IsSplit(), q.rules, q.forbidSeries, q.forbidFamily);
  }

  // ----- when a shape suits

  /** CPU and memory lie in their ranges. Network and disk reach their minimum where the trend has a direction and
      the current shape has the number. */
  lemma SuitsIff(t: Trend, current: Shape, s: Shape)
    ensures Suits(s, RequirementsOf(t, current)) <==>
            && (current.cpu != 0.0 ==>
                  var r := RangeFor(t.Get(Metric.Cpu).threshold, current.cpu); r.min <= s.cpu <= r.max)
            && (current.memory != 0.0 ==>
                  var r := RangeFor(t.Get(Metric.Memory).threshold, current.memory); r.min <= s.memory <= r.max)
            && (t.Get(Metric.NetOutput).result != 0.0 && current.network.Some? && current.network != Some(0.0) ==>
                  var r := RangeFor(t.Get(Metric.NetOutput).threshold, current.network.value);
                  s.network.Some? && s.network.value != 0.0 && s.network.value >= r.min)
            && (t.Get(Metric.DiskIops).result != 0.0 && current.iops.Some? && current.iops != Some(0.0) ==>
                  var r := RangeFor(t.Get(Metric.DiskIops).threshold, current.iops.value);
                  s.iops.Some? && s.iops.value != 0.0 && s.iops.value >= r.min)
  {
    hide RangeFor;
  }

  // ----- the probability in numbers

  predicate WouldLoadWell(percentile: real, current: real, expected: real)
    requires expected > 0.0
  {
    30.0 <= current * percentile / expected <= 70.0
  }

  lemma ProductOrder(a: real, x: real, y: real)
    requires a > 0.0
    ensures a * x <= a * y <==> x <= y
  {
    if x > y {
      assert a * (x - y) > 0.0;
    }
  }

  lemma ComfortableIff(percentile: real, current: real, expected: real)
    requires expected > 0.0
    ensures IsComfortable(percentile, current, expected) <==> WouldLoadWell(percentile, current, expected)
  {
    var used := current * percentile;
    var share := used / expected;
    assert expected * share == used;
    ProductOrder(expected, 30.0, share);
    ProductOrder(expected, share, 70.0);
    ComfortIs(used, expected, share);
  }

  lemma ComfortIs(used: real, expected: real, share: real)
    requires expected > 0.0 && expected * share == used
    requires expected * 30.0 <= expected * share <==> 30.0 <= share
    requires expected * share <= expected * 70.0 <==> share <= 70.0
    ensures MIN_LIMIT_PERC * expected / 100.0 <= used / 100.0 <= MAX_LIMIT_PERC * expected / 100.0 <==>
            30.0 <= share <= 70.0
  {}

  function LoadingWell(percentiles: seq<real>, current: real, expected: real): (r: seq<real>)
    requires expected > 0.0
    ensures |r| <= |percentiles|
  {
    Filter(percentiles, (x: real) => WouldLoadWell(x, current, expected))
  }

  lemma ComfortableOnes(percentiles: seq<real>, current: real, expected: real)
    requires expected > 0.0
    ensures Filter(percentiles, (x: real) => IsComfortable(x, current, expected)) ==
            LoadingWell(percentiles, current, expected)
  {
    hide IsComfortable, WouldLoadWell, Filter;
    forall x: real ensures IsComfortable(x, current, expected) == WouldLoadWell(x, current, expected) {
      ComfortableIff(x, current, expected);
    }
    FilterSame(percentiles, (x: real) => IsComfortable(x, current, expected),
               (x: real) => WouldLoadWell(x, current, expected));
  }

  lemma ProductIsNat(a: real, b: real)
    requires a >= 0.0 && b >= 0.0
    ensures a * b >= 0.0
  {}

  lemma ScaledBounds(n: real, share: real, part: real, p: real)
    requires n > 0.0 && n * share == part && p - 0.5 <= share * 100.0 <= p + 0.5
    ensures n * (2.0 * p - 1.0) <= 200.0 * part <= n * (2.0 * p + 1.0)
  {
    ProductIsNat(n, share * 200.0 - (2.0 * p - 1.0));
    ProductIsNat(n, 2.0 * p + 1.0 - share * 200.0);
    assert n * (share * 200.0) == 200.0 * part;
  }

  lemma ProductOfWhole(n: int, k: int)
    ensures n as real * k as real == (k * n) as real
  {}

  lemma PercentIs(part: nat, whole: nat)
    requires whole > 0
    ensures var p := Round(part as real / whole as real * 100.0);
            (2 * p - 1) * whole <= 200 * part <= (2 * p + 1) * whole
  {
    hide Round;
    var share := part as real / whole as real;
    var p := Round(share * 100.0);
    ScaledBounds(whole as real, share, part as real, p as real);
    ProductOfWhole(whole, 2 * p - 1);
    ProductOfWhole(whole, 2 * p + 1);
  }

  /** On one metric the probability is the share, to the nearest percent, of the percentiles that would be a load
      between 30 and 70 percent of the shape. */
  lemma MetricProbabilityIs(percentiles: seq<real>, current: real, expected: real)
    requires percentiles != [] && expected > 0.0
    ensures var p := MetricProbability(current, expected, percentiles);
            (2 * p - 1) * |percentiles| <= 200 * |LoadingWell(percentiles, current, expected)| <=
            (2 * p + 1) * |percentiles|
  {
    hide IsComfortable, Round, Filter;
    ComfortableOnes(percentiles, current, expected);
    PercentIs(|LoadingWell(percentiles, current, expected)|, |percentiles|);
  }

  /** What one metric contributes: nothing without load data or where a shape lacks the number. */
  ghost function ShareOn(t: Trend, m: Metric, current: Option<real>, size: Option<real>): Option<int> {
    if && m in t.metrics && t.metrics[m].mean != -1.0 && t.metrics[m].percentiles != []
       && current.Some? && current.value != 0.0 && size.Some? && size.value != 0.0
    then Some(MetricProbability(current.value, size.value, t.metrics[m].percentiles))
    else None
  }

  ghost function Known(p: Option<int>): (n: nat) {
    if p.Some? then 1 else 0
  }

  ghost function OrZero(p: Option<int>): (n: int) {
    if p.Some? then p.value else 0
  }

  ghost function PartOf(t: Trend, current: Shape, s: Shape, m: Metric): Option<int> {
    if IsCounted(t, current, s, m) then Some(ProbabilityOn(t, current, s, m)) else None
  }

  lemma CountedNext(t: Trend, current: Shape, s: Shape, metrics: seq<Metric>, m: Metric)
    ensures CountedMetrics(t, current, s, metrics + [m]) ==
            CountedMetrics(t, current, s, metrics) + Known(PartOf(t, current, s, m))
    ensures ProbabilityTotal(t, current, s, metrics + [m]) ==
            ProbabilityTotal(t, current, s, metrics) + OrZero(PartOf(t, current, s, m))
  {
    hide IsCounted, ProbabilityOn;
    assert (metrics + [m])[..|metrics|] == metrics;
  }

  lemma CountedFour(t: Trend, current: Shape, s: Shape)
    ensures var (cpu, memory, net, iops) := (PartOf(t, current, s, Metric.Cpu), PartOf(t, current, s, Metric.Memory),
                PartOf(t, current, s, Metric.NetOutput), PartOf(t, current, s, Metric.DiskIops));
            && CountedMetrics(t, current, s, METRICS) == Known(cpu) + Known(memory) + Known(net) + Known(iops)
            && ProbabilityTotal(t, current, s, METRICS) == OrZero(cpu) + OrZero(memory) + OrZero(net) + OrZero(iops)
  {
    hide IsCounted, ProbabilityOn, PartOf, Known, OrZero;
    var one, two := [Metric.Cpu], [Metric.Cpu, Metric.Memory];
    var three := [Metric.Cpu, Metric.Memory, Metric.NetOutput];
    assert [] + [Metric.Cpu] == one && one + [Metric.Memory] == two && two + [Metric.NetOutput] == three;
    assert three + [Metric.DiskIops] == METRICS;
    CountedNext(t, current, s, [], Metric.Cpu);
    CountedNext(t, current, s, one, Metric.Memory);
    CountedNext(t, current, s, two, Metric.NetOutput);
    CountedNext(t, current, s, three, Metric.DiskIops);
  }

  /** The probability of a shape is the mean of the four metrics' shares that are known, to two decimals; without a
      known one there is none. */
  lemma ProbabilityIs(t: Trend, current: Shape, s: Shape, cpu: Option<int>, memory: Option<int>, net: Option<int>,
                      iops: Option<int>, n: nat)
    requires cpu == ShareOn(t, Metric.Cpu, Some(current.cpu), Some(s.cpu))
    requires memory == ShareOn(t, Metric.Memory, Some(current.memory), Some(s.memory))
    requires net == ShareOn(t, Metric.NetOutput, current.network, s.network)
    requires iops == ShareOn(t, Metric.DiskIops, current.iops, s.iops)
    requires n == Known(cpu) + Known(memory) + Known(net) + Known(iops)
    ensures Probability(t, current, s).None? <==> n == 0
    ensures n > 0 ==>
              var mean := (OrZero(cpu) + OrZero(memory) + OrZero(net) + OrZero(iops)) as real / n as real / 100.0;
              mean - 0.005 <= Probability(t, current, s).value <= mean + 0.005
  {
    hide MetricProbability, Round2, CountedMetrics, ProbabilityTotal;
    CountedFour(t, current, s);
  }
}
