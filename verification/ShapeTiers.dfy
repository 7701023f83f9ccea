/** The order in which shapes are tried: prioritised, same series, same family, all others. */
module ShapeTiers {
  import opened Wrappers
  import opened Sequences
  import opened Strings
  import opened ShapeRules

  datatype Cloud = Aws | Azure | Google

  function CloudName(cloud: Cloud): string {
    match cloud
    case Aws => "AWS"
    case Azure => "AZURE"
    case Google => "GOOGLE"
  }

  predicate IsAlpha(c: char) {
    'a' <= c <= 'z' || 'A' <= c <= 'Z'
  }

  /** The index of the first character that is no letter; the last index when there is none. */
  function SeriesLength(part: string): (n: nat)
    ensures n <= |part|
  {
    if part == "" then 0
    else if !IsAlpha(part[0]) || |part| == 1 then 0
    else 1 + SeriesLength(part[1..])
  }

  /** `_get_series_prefix`; None where an Azure name has no underscore and the lookup raises. */
  function SeriesPrefix(name: string, cloud: Cloud): Option<string> {
    match cloud
    case Aws => Some(Split(name, '.')[0] + ".")
    case Google => Some(Split(name, '-')[0])
    case Azure =>
      var parts := Split(name, '_');
      if |parts| < 2 then None else Some(parts[0] + ['_'] + parts[1][..SeriesLength(parts[1])])
  }

  predicate InFamily(s: Shape, current: Shape, cloud: Cloud) {
    if cloud == Azure then StartsWith(s.name, Split(current.name, '_')[0]) else s.familyType == current.familyType
  }

  predicate NoLarger(a: Shape, b: Shape) {
    a.cpu < b.cpu || (a.cpu == b.cpu && a.memory <= b.memory)
  }

  lemma NoLargerIsTotal()
    ensures TotalPreorder(NoLarger)
  {}

  predicate InSeries(s: Shape, current: Shape, prefix: string, split: bool) {
    StartsWith(s.name, prefix) && (split || s.name != current.name)
  }

  /** `_get_same_series`; a split may reuse the current shape. */
  function SameSeries(sizes: seq<Shape>, current: Shape, prefix: string, split: bool): seq<Shape> {
    Sort(Filter(sizes, (s: Shape) => InSeries(s, current, prefix, split)), NoLarger)
  }

  function SameFamily(sizes: seq<Shape>, current: Shape, cloud: Cloud, excluded: set<string>): seq<Shape> {
    Sort(Filter(sizes, (s: Shape) => InFamily(s, current, cloud) && s.name !in excluded), NoLarger)
  }

  function OtherShapes(sizes: seq<Shape>, excluded: set<string>): seq<Shape> {
    Sort(WithoutNames(sizes, excluded), NoLarger)
  }

  datatype Tiers = Tiers(prioritised: seq<Shape>, series: seq<Shape>, family: seq<Shape>, others: seq<Shape>)
  {
    function All(): seq<Shape> {
      prioritised + series + family + others
    }
  }

  /** The shapes the customer puts first: all of them when rules for the cloud exist but none prioritises. */
  function Prioritised(sizes: seq<Shape>, rules: Option<seq<Rule>>, cloud: Cloud): seq<Shape> {
    if rules.None? then []
    else
      var cloudRules := CloudRules(rules.value, cloud);
      if cloudRules == [] then [] else Selected(sizes, ByAction(cloudRules, Prioritize))
  }

  function CloudRules(rules: seq<Rule>, cloud: Cloud): seq<Rule> {
    Filter(rules, (r: Rule) => r.cloud == CloudName(cloud))
  }

  function DividedByPriority(sizes: seq<Shape>, current: Shape, cloud: Cloud, prefix: string, split: bool,
                             rules: Option<seq<Rule>>, forbidSeries: bool, forbidFamily: bool): Tiers
  {
    var series := SameSeries(sizes, current, prefix, split);
    var family := if forbidSeries then [] else SameFamily(sizes, current, cloud, NamesOf(series));
    var others := if forbidSeries || forbidFamily then [] else OtherShapes(sizes, NamesOf(series) + NamesOf(family));
    Tiers(Prioritised(sizes, rules, cloud), series, family, others)
  }

  method DivideByPriority(sizes: seq<Shape>, current: Shape, cloud: Cloud, split: bool,
                          rules: Option<seq<Rule>>, forbidSeries: bool, forbidFamily: bool)
    returns (tiers: Option<Tiers>)
    ensures tiers == match SeriesPrefix(current.name, cloud)
                     case None => None
                     case Some(prefix) =>
                       Some(DividedByPriority(sizes, current, cloud, prefix, split, rules, forbidSeries, forbidFamily))
  {
    hide SeriesPrefix, SameSeries, SameFamily, OtherShapes, Selected, ByAction, CloudRules;
    var prefix := SeriesPrefix(current.name, cloud);
    if prefix.None? {
      return None;
    }
    var prioritised: seq<Shape> := [];
    if rules.Some? {
      var cloudRules := CloudRules(rules.value, cloud);
      if cloudRules != [] {
        prioritised := ProcessSelectingFilters(sizes, ByAction(cloudRules, Prioritize));
      }
    }
    var series := SameSeries(sizes, current, prefix.value, split);
    var family, others: seq<Shape> := [], [];
    if !forbidSeries {
      family := SameFamily(sizes, current, cloud, NamesOf(series));
    }
    if !forbidSeries && !forbidFamily {
      others := OtherShapes(sizes, NamesOf(series) + NamesOf(family));
    }
    tiers := Some(Tiers(prioritised, series, family, others));
  }

  lemma SeriesMembers(s: Shape, sizes: seq<Shape>, current: Shape, prefix: string, split: bool)
    ensures s in SameSeries(sizes, current, prefix, split) <==> s in sizes && InSeries(s, current, prefix, split)
    ensures SortedBy(SameSeries(sizes, current, prefix, split), NoLarger)
  {
    hide InSeries, NoLarger;
    NoLargerIsTotal();
    var filtered := Filter(sizes, (s: Shape) => InSeries(s, current, prefix, split));
    SortMembers(filtered, NoLarger);
    SortSorted(filtered, NoLarger);
  }

  lemma FamilyMembers(s: Shape, sizes: seq<Shape>, current: Shape, cloud: Cloud, excluded: set<string>)
    ensures s in SameFamily(sizes, current, cloud, excluded) <==>
            s in sizes && InFamily(s, current, cloud) && s.name !in excluded
    ensures SortedBy(SameFamily(sizes, current, cloud, excluded), NoLarger)
  {
    hide InFamily, NoLarger;
    NoLargerIsTotal();
    var filtered := Filter(sizes, (s: Shape) => InFamily(s, current, cloud) && s.name !in excluded);
    SortMembers(filtered, NoLarger);
    SortSorted(filtered, NoLarger);
  }

  lemma OtherMembers(s: Shape, sizes: seq<Shape>, excluded: set<string>)
    ensures s in OtherShapes(sizes, excluded) <==> s in sizes && s.name !in excluded
    ensures SortedBy(OtherShapes(sizes, excluded), NoLarger)
  {
    hide NoLarger;
    NoLargerIsTotal();
    SortMembers(WithoutNames(sizes, excluded), NoLarger);
    SortSorted(WithoutNames(sizes, excluded), NoLarger);
  }

  /** The customer's own choice: what a rule of the cloud that prioritises matches, or everything where the cloud
      has rules and none of them prioritises. */
  lemma PrioritisedIff(s: Shape, sizes: seq<Shape>, rules: Option<seq<Rule>>, cloud: Cloud)
    ensures s in Prioritised(sizes, rules, cloud) <==>
            && s in sizes && rules.Some?
            && (exists r | r in rules.value :: IsRuleFor(r, cloud))
            && ((exists r | r in rules.value :: IsRuleFor(r, cloud) && r.action == Prioritize) ==>
                  exists r | r in rules.value :: IsRuleFor(r, cloud) && r.action == Prioritize && r.matches(s))
  {
    if rules.Some? {
      var cloudRules := CloudRules(rules.value, cloud);
      var chosen := ByAction(cloudRules, Prioritize);
      assert forall r :: r in cloudRules <==> r in rules.value && IsRuleFor(r, cloud);
      assert cloudRules != [] ==> cloudRules[0] in cloudRules;
      assert chosen != [] ==> chosen[0] in chosen;
    }
  }

  ghost predicate IsRuleFor(r: Rule, cloud: Cloud) {
    r.cloud == match cloud
               case Aws => "AWS"
               case Azure => "AZURE"
               case Google => "GOOGLE"
  }

  /** Nothing is tried that is not on the list. */
  lemma TiersAreSizes(s: Shape, sizes: seq<Shape>, current: Shape, cloud: Cloud, prefix: string, split: bool,
                      rules: Option<seq<Rule>>, forbidSeries: bool, forbidFamily: bool)
    requires s in DividedByPriority(sizes, current, cloud, prefix, split, rules, forbidSeries, forbidFamily).All()
    ensures s in sizes
  {
    var tiers := DividedByPriority(sizes, current, cloud, prefix, split, rules, forbidSeries, forbidFamily);
    hide SameSeries, SameFamily, OtherShapes, InSeries, InFamily, NoLarger, CloudRules;
    SeriesMembers(s, sizes, current, prefix, split);
    FamilyMembers(s, sizes, current, cloud, NamesOf(tiers.series));
    OtherMembers(s, sizes, NamesOf(tiers.series) + NamesOf(tiers.family));
  }

  /** What each tier holds, where names identify shapes. */
  lemma TiersUnion(s: Shape, sizes: seq<Shape>, current: Shape, cloud: Cloud, prefix: string, split: bool,
                   rules: Option<seq<Rule>>, forbidSeries: bool, forbidFamily: bool)
    requires UniqueNames(sizes)
    ensures var t := DividedByPriority(sizes, current, cloud, prefix, split, rules, forbidSeries, forbidFamily);
            && (s in t.prioritised ==> s in sizes)
            && (s in t.series <==> s in sizes && InSeries(s, current, prefix, split))
            && (s in t.family <==> !forbidSeries && s in sizes && InFamily(s, current, cloud) && s !in t.series)
            && (s in t.others <==> !forbidSeries && !forbidFamily && s in sizes && s !in t.series && s !in t.family)
  {
    var t := DividedByPriority(sizes, current, cloud, prefix, split, rules, forbidSeries, forbidFamily);
    hide SameSeries, SameFamily, OtherShapes, InSeries, InFamily, NoLarger, SortedBy, CloudRules;
    forall u: Shape
      ensures u in t.series <==> u in sizes && InSeries(u, current, prefix, split)
      ensures u in t.family <==>
              !forbidSeries && u in sizes && InFamily(u, current, cloud) && u.name !in NamesOf(t.series)
    {
      SeriesMembers(u, sizes, current, prefix, split);
      FamilyMembers(u, sizes, current, cloud, NamesOf(t.series));
    }
    OtherMembers(s, sizes, NamesOf(t.series) + NamesOf(t.family));
  }

  /** With neither flag set, series, family and others partition the list by name, each in the order of
      CPU and memory. */
  lemma TiersPartition(sizes: seq<Shape>, current: Shape, cloud: Cloud, prefix: string, split: bool,
                       rules: Option<seq<Rule>>)
    ensures var t := DividedByPriority(sizes, current, cloud, prefix, split, rules, false, false);
            && NamesOf(sizes) == NamesOf(t.series) + NamesOf(t.family) + NamesOf(t.others)
            && NamesOf(t.series) !! NamesOf(t.family) && NamesOf(t.series) + NamesOf(t.family) !! NamesOf(t.others)
            && SortedBy(t.series, NoLarger) && SortedBy(t.family, NoLarger) && SortedBy(t.others, NoLarger)
  {
    var t := DividedByPriority(sizes, current, cloud, prefix, split, rules, false, false);
    hide SameSeries, SameFamily, OtherShapes, InSeries, InFamily, NoLarger, SortedBy, Prioritised;
    forall s: Shape
      ensures s in t.series ==> s in sizes
      ensures s in t.family <==> s in sizes && InFamily(s, current, cloud) && s.name !in NamesOf(t.series)
      ensures s in t.others <==> s in sizes && s.name !in NamesOf(t.series) + NamesOf(t.family)
    {
      SeriesMembers(s, sizes, current, prefix, split);
      FamilyMembers(s, sizes, current, cloud, NamesOf(t.series));
      OtherMembers(s, sizes, NamesOf(t.series) + NamesOf(t.family));
    }
    SeriesMembers(current, sizes, current, prefix, split);
    FamilyMembers(current, sizes, current, cloud, NamesOf(t.series));
    OtherMembers(current, sizes, NamesOf(t.series) + NamesOf(t.family));
  }

  lemma {:induction false} FirstPieceIsPrefix(s: string, sep: char)
    ensures Split(s, sep)[0] <= s
  {
    if s != "" {
      FirstPieceIsPrefix(s[1..], sep);
      assert s == [s[0]] + s[1..];
    }
  }

  /** Without a split the current shape is never in its own series. It comes back with its family, and so among
      the three tiers, exactly if changing the series is not forbidden. */
  lemma CurrentShapeReturnsIff(sizes: seq<Shape>, current: Shape, cloud: Cloud, prefix: string,
                               rules: Option<seq<Rule>>, forbidSeries: bool, forbidFamily: bool)
    requires current in sizes
    ensures var t := DividedByPriority(sizes, current, cloud, prefix, false, rules, forbidSeries, forbidFamily);
            && current !in t.series
            && (current in t.family <==> !forbidSeries)
            && (current in t.series + t.family + t.others <==> !forbidSeries)
  {
    var t := DividedByPriority(sizes, current, cloud, prefix, false, rules, forbidSeries, forbidFamily);
    FirstPieceIsPrefix(current.name, '_');
    assert InFamily(current, current, cloud);
    hide SameSeries, SameFamily, OtherShapes, InFamily, Prioritised;
    forall s: Shape ensures s in t.series ==> s.name != current.name {
      SeriesMembers(s, sizes, current, prefix, false);
    }
    FamilyMembers(current, sizes, current, cloud, NamesOf(t.series));
  }

  lemma {:induction false} SeriesLengthIs(part: string, n: nat)
    requires n < |part| && forall i | 0 <= i < n :: 'a' <= part[i] <= 'z' || 'A' <= part[i] <= 'Z'
    requires n == |part| - 1 || !('a' <= part[n] <= 'z' || 'A' <= part[n] <= 'Z')
    ensures SeriesLength(part) == n
  {
    if n > 0 {
      assert forall i | 0 <= i < n - 1 :: part[1..][i] == part[i + 1];
      SeriesLengthIs(part[1..], n - 1);
    }
  }

  /** The prefix in characters: up to and with the first dot, up to the first hyphen. */
  lemma SeriesPrefixIs(a: string, b: string)
    ensures '.' !in a ==> SeriesPrefix(a + "." + b, Cloud.Aws) == Some(a + ".")
    ensures '-' !in a ==> SeriesPrefix(a + "-" + b, Google) == Some(a)
  {
    if '.' !in a {
      SplitPiece(a, b, '.');
    }
    if '-' !in a {
      SplitPiece(a, b, '-');
    }
  }

  /** For Azure the first piece with the letters the second one starts with; of a second piece of letters only,
      the last one is left out. */
  lemma AzurePrefixIs(a: string, part: string, rest: string, n: nat)
    requires '_' !in a && '_' !in part && n < |part|
    requires forall i | 0 <= i < n :: 'a' <= part[i] <= 'z' || 'A' <= part[i] <= 'Z'
    requires n == |part| - 1 || !('a' <= part[n] <= 'z' || 'A' <= part[n] <= 'Z')
    ensures SeriesPrefix(a + "_" + part, Azure) == Some(a + "_" + part[..n])
    ensures SeriesPrefix(a + "_" + (part + "_" + rest), Azure) == Some(a + "_" + part[..n])
  {
    hide Split;
    SeriesLengthIs(part, n);
    SplitPiece(part, rest, '_');
    SplitPiece(a, part, '_');
    SplitPiece(a, part + "_" + rest, '_');
  }

  lemma SplitStartsJoined(s: string, sep: char)
    ensures var parts := Split(s, sep);
            && (|parts| == 1 ==> s == parts[0])
            && (|parts| >= 2 ==> parts[0] + [sep] + parts[1] <= s)
            && (|parts| >= 2 <==> sep in s)
  {
    JoinOfSplit(s, sep);
    var parts := Split(s, sep);
    if |parts| == 1 {
      assert parts[0] in parts;
    } else {
      var joined := Join(parts[1..], sep);
      assert s == parts[0] + [sep] + joined;
      assert parts[1] <= joined;
      assert parts[0] + [sep] + parts[1] <= parts[0] + [sep] + joined;
      assert s[|parts[0]|] == sep;
    }
  }

  /** Every name starts with its own series prefix, except for AWS names without a dot. */
  lemma OwnSeriesIff(name: string, cloud: Cloud)
    requires SeriesPrefix(name, cloud).Some?
    ensures StartsWith(name, SeriesPrefix(name, cloud).value) <==> (cloud == Cloud.Aws ==> '.' in name)
  {
    hide Split, SeriesLength;
    match cloud
    case Aws =>
      SplitStartsJoined(name, '.');
      var first := Split(name, '.')[0];
      if '.' in name {
        assert first + "." <= first + ['.'] + Split(name, '.')[1];
      } else {
        assert |first + "."| > |name|;
      }
    case Google =>
      FirstPieceIsPrefix(name, '-');
    case Azure =>
      SplitStartsJoined(name, '_');
      var parts := Split(name, '_');
      var n := SeriesLength(parts[1]);
      assert parts[1] == parts[1][..n] + parts[1][n..];
      assert parts[0] + ['_'] + parts[1][..n] <= parts[0] + ['_'] + parts[1];
  }
}
