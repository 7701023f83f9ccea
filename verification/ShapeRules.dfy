/** Which shapes may be recommended: the customer's shape rules and the compatibility with the current shape. */
module ShapeRules {
  import opened Wrappers
  import Sequences
  import Strings

  /** An instance type; a text that is missing is empty. */
  datatype Shape = Shape(
    name: string, cpu: real, memory: real, network: Option<real>, iops: Option<real>,
    familyType: string, processor: string, architecture: string)

  datatype RuleAction = Allow | Deny | Prioritize | OtherAction

  /** A rule of the customer; its field, condition and value come down to the shapes it matches. */
  datatype Rule = Rule(action: RuleAction, cloud: string, matches: Shape -> bool)

  function ByAction(rules: seq<Rule>, action: RuleAction): (selected: seq<Rule>)
    ensures forall r :: r in selected <==> r in rules && r.action == action
  {
    Sequences.Filter(rules, (r: Rule) => r.action == action)
  }

  function MatchedBy(shapes: seq<Shape>, rule: Rule): (matched: seq<Shape>)
    ensures forall s :: s in matched <==> s in shapes && rule.matches(s)
  {
    Sequences.Filter(shapes, rule.matches)
  }

  method FindMatching(shapes: seq<Shape>, rule: Rule) returns (matching: seq<Shape>)
    ensures matching == MatchedBy(shapes, rule)
  {
    matching := [];
    for i := 0 to |shapes|
      invariant matching == MatchedBy(shapes[..i], rule)
    {
      Sequences.FilterNext(shapes, i, rule.matches);
      if rule.matches(shapes[i]) {
        matching := matching + [shapes[i]];
      }
    }
    assert shapes[..|shapes|] == shapes;
  }

  /** The shapes matched by each rule, rule after rule; a shape two rules match comes twice. */
  function MatchedByAll(shapes: seq<Shape>, rules: seq<Rule>): (matched: seq<Shape>)
    ensures forall s :: s in matched <==> s in shapes && exists r | r in rules :: r.matches(s)
  {
    if rules == [] then []
    else
      var last := rules[|rules| - 1];
      assert rules == rules[..|rules| - 1] + [last];
      MatchedByAll(shapes, rules[..|rules| - 1]) + MatchedBy(shapes, last)
  }

  /** `process_allow_filters` and `process_priority_filters`: without rules everything passes. */
  function Selected(shapes: seq<Shape>, rules: seq<Rule>): seq<Shape> {
    if rules == [] then shapes else MatchedByAll(shapes, rules)
  }

  method ProcessSelectingFilters(shapes: seq<Shape>, rules: seq<Rule>) returns (selected: seq<Shape>)
    ensures selected == Selected(shapes, rules)
  {
    if rules == [] {
      return shapes;
    }
    selected := [];
    for i := 0 to |rules|
      invariant selected == MatchedByAll(shapes, rules[..i])
    {
      assert rules[..i + 1][..i] == rules[..i];
      var matching := FindMatching(shapes, rules[i]);
      selected := selected + matching;
    }
    assert rules[..|rules|] == rules;
  }

  function WithoutNames(shapes: seq<Shape>, names: set<string>): (left: seq<Shape>)
    ensures forall s :: s in left <==> s in shapes && s.name !in names
  {
    Sequences.Filter(shapes, (s: Shape) => s.name !in names)
  }

  function NamesOf(shapes: seq<Shape>): set<string> {
    set s | s in shapes :: s.name
  }

  method ProcessExcludeFilters(shapes: seq<Shape>, rules: seq<Rule>) returns (left: seq<Shape>)
    ensures left == if rules == [] then shapes else WithoutNames(shapes, NamesOf(MatchedByAll(shapes, rules)))
  {
    if rules == [] {
      return shapes;
    }
    var names: set<string> := {};
    for i := 0 to |rules|
      invariant names == NamesOf(MatchedByAll(shapes, rules[..i]))
    {
      assert rules[..i + 1][..i] == rules[..i];
      var matching := FindMatching(shapes, rules[i]);
      names := names + NamesOf(matching);
    }
    assert rules[..|rules|] == rules;
    left := WithoutNames(shapes, names);
  }

  /** The shapes the rules leave. */
  function AllowedShapes(shapes: seq<Shape>, rules: seq<Rule>): seq<Shape> {
    var allowed := Selected(shapes, ByAction(rules, Allow));
    var deny := ByAction(rules, Deny);
    if deny == [] then allowed else WithoutNames(allowed, NamesOf(MatchedByAll(allowed, deny)))
  }

  method GetAllowedInstanceTypes(shapes: seq<Shape>, rules: seq<Rule>) returns (allowed: seq<Shape>)
    ensures allowed == AllowedShapes(shapes, rules)
  {
    allowed := ProcessSelectingFilters(shapes, ByAction(rules, Allow));
    allowed := ProcessExcludeFilters(allowed, ByAction(rules, Deny));
  }

  /** What the rules mean for one shape. */
  ghost predicate IsAllowed(s: Shape, rules: seq<Rule>) {
    && ((exists r | r in rules :: r.action == Allow) ==> exists r | r in rules :: r.action == Allow && r.matches(s))
    && forall r | r in rules && r.action == Deny :: !r.matches(s)
  }

  /** Names identify shapes, as the database's unique index has it. */
  ghost predicate UniqueNames(shapes: seq<Shape>) {
    forall s, t | s in shapes && t in shapes && s.name == t.name :: s == t
  }

  lemma SelectedMembers(s: Shape, shapes: seq<Shape>, rules: seq<Rule>)
    ensures s in Selected(shapes, ByAction(rules, Allow)) <==>
            s in shapes && ((exists r | r in rules :: r.action == Allow) ==>
                exists r | r in rules :: r.action == Allow && r.matches(s))
  {
    var allow := ByAction(rules, Allow);
    assert (exists r | r in rules :: r.action == Allow) <==> allow != [] by {
      if allow != [] {
        assert allow[0] in allow;
      }
    }
  }

  /** As a set, the result is the shapes the rules allow. */
  lemma AllowedMembers(s: Shape, shapes: seq<Shape>, rules: seq<Rule>)
    requires UniqueNames(shapes)
    ensures s in AllowedShapes(shapes, rules) <==> s in shapes && IsAllowed(s, rules)
  {
    hide Selected, ByAction, MatchedByAll;
    var allowed := Selected(shapes, ByAction(rules, Allow));
    SelectedMembers(s, shapes, rules);
    forall t ensures t in allowed ==> t in shapes {
      SelectedMembers(t, shapes, rules);
    }
    var deny := ByAction(rules, Deny);
    if s in allowed && deny != [] {
      DeniedByName(s, allowed, deny);
    }
  }

  lemma DeniedByName(s: Shape, allowed: seq<Shape>, deny: seq<Rule>)
    requires s in allowed && UniqueNames(allowed)
    ensures s.name in NamesOf(MatchedByAll(allowed, deny)) <==> exists r | r in deny :: r.matches(s)
  {
    hide MatchedByAll;
    if s.name in NamesOf(MatchedByAll(allowed, deny)) {
      var t :| t in MatchedByAll(allowed, deny) && t.name == s.name;
      assert t == s;
    }
  }

  /** Whatever the order of the rules, the same shapes are left. */
  lemma RuleOrderIsIrrelevant(shapes: seq<Shape>, rules: seq<Rule>, others: seq<Rule>, s: Shape)
    requires UniqueNames(shapes) && forall r :: r in rules <==> r in others
    ensures s in AllowedShapes(shapes, rules) <==> s in AllowedShapes(shapes, others)
  {
    AllowedMembers(s, shapes, rules);
    AllowedMembers(s, shapes, others);
  }

  // ----- compatibility with the current shape

  datatype Manufacturer = Intel | Amd | Aws | UnknownManufacturer

  /** The first of the known manufacturers in the processor's name. */
  function ManufacturerOf(s: Shape): Manufacturer {
    if Strings.Contains(s.processor, "Intel") then Intel
    else if Strings.Contains(s.processor, "AMD") then Amd
    else if Strings.Contains(s.processor, "AWS") then Aws
    else UnknownManufacturer
  }

  datatype Architecture = Bits32 | Bits64 | UnknownArchitecture

  /** A shape offering both is of neither. */
  function ArchitectureOf(s: Shape): Architecture {
    var has32, has64 := Strings.Contains(s.architecture, "32"), Strings.Contains(s.architecture, "64");
    if has32 == has64 then UnknownArchitecture else if has32 then Bits32 else Bits64
  }

  datatype CompatibilityRule = OnlySame | OnlyCompatible | AnyShape

  predicate CompatibleManufacturers(current: Manufacturer, other: Manufacturer) {
    match current
    case UnknownManufacturer => true
    case Aws => other == Aws
    case _ => other == Intel || other == Amd
  }

  predicate SameArchitecture(current: Shape, s: Shape) {
    ArchitectureOf(current) == UnknownArchitecture || ArchitectureOf(s) == ArchitectureOf(current)
  }

  predicate IsCompatible(current: Shape, s: Shape, rule: CompatibilityRule) {
    match rule
    case AnyShape => true
    case OnlySame =>
      (ManufacturerOf(current) == UnknownManufacturer || ManufacturerOf(s) == ManufacturerOf(current)) &&
          SameArchitecture(current, s)
    case OnlyCompatible =>
      CompatibleManufacturers(ManufacturerOf(current), ManufacturerOf(s)) && SameArchitecture(current, s)
  }

  function CompatibleShapes(current: Shape, shapes: seq<Shape>, rule: CompatibilityRule): (r: seq<Shape>)
    ensures forall s :: s in r <==> s in shapes && IsCompatible(current, s, rule)
  {
    Sequences.Filter(shapes, s => IsCompatible(current, s, rule))
  }

  method ApplyCompatibilityFilter(current: Shape, shapes: seq<Shape>, rule: CompatibilityRule)
    returns (filtered: seq<Shape>)
    ensures filtered == CompatibleShapes(current, shapes, rule)
  {
    hide ManufacturerOf, ArchitectureOf;
    if rule == AnyShape {
      Sequences.FilterAll(shapes, s => IsCompatible(current, s, rule));
      return shapes;
    }
    var manufacturer, architecture := ManufacturerOf(current), ArchitectureOf(current);
    filtered := [];
    for i := 0 to |shapes|
      invariant filtered == CompatibleShapes(current, shapes[..i], rule)
    {
      var shape := shapes[i];
      Sequences.FilterNext(shapes, i, s => IsCompatible(current, s, rule));
      if rule == OnlySame && manufacturer != UnknownManufacturer && ManufacturerOf(shape) != manufacturer {
        continue;
      }
      if rule == OnlyCompatible && !CompatibleManufacturers(manufacturer, ManufacturerOf(shape)) {
        continue;
      }
      if architecture != UnknownArchitecture && ArchitectureOf(shape) != architecture {
        continue;
      }
      filtered := filtered + [shape];
    }
    assert shapes[..|shapes|] == shapes;
  }

  ghost predicate Occurs(text: string, sub: string) {
    exists i: nat :: Strings.OccursAt(text, sub, i)
  }

  /** The two rules in the texts of the shapes: an architecture that is 32 or 64 bits, not both, must be the same, and
      so must a known manufacturer, where the weaker rule lets Intel and AMD stand in for each other. A processor
      naming two of them is of the first. */
  lemma CompatibleIff(current: Shape, s: Shape)
    ensures var (c, p) := (current.processor, s.processor);
            var same := && (Occurs(current.architecture, "32") && !Occurs(current.architecture, "64") ==>
                              Occurs(s.architecture, "32") && !Occurs(s.architecture, "64"))
                        && (Occurs(current.architecture, "64") && !Occurs(current.architecture, "32") ==>
                              Occurs(s.architecture, "64") && !Occurs(s.architecture, "32"));
            && IsCompatible(current, s, AnyShape)
            && (IsCompatible(current, s, OnlySame) <==>
                && same
                && (Occurs(c, "Intel") ==> Occurs(p, "Intel"))
                && (!Occurs(c, "Intel") && Occurs(c, "AMD") ==> !Occurs(p, "Intel") && Occurs(p, "AMD"))
                && (!Occurs(c, "Intel") && !Occurs(c, "AMD") && Occurs(c, "AWS") ==>
                      !Occurs(p, "Intel") && !Occurs(p, "AMD") && Occurs(p, "AWS")))
            && (IsCompatible(current, s, OnlyCompatible) <==>
                && same
                && (Occurs(c, "Intel") || Occurs(c, "AMD") ==> Occurs(p, "Intel") || Occurs(p, "AMD"))
                && (!Occurs(c, "Intel") && !Occurs(c, "AMD") && Occurs(c, "AWS") ==>
                      !Occurs(p, "Intel") && !Occurs(p, "AMD") && Occurs(p, "AWS")))
  {
    hide Strings.Contains, Strings.OccursAt;
    TextsOf(current);
    TextsOf(s);
    hide Occurs, ManufacturerOf, ArchitectureOf;
  }

  lemma TextsOf(s: Shape)
    ensures ManufacturerOf(s) ==
            if Occurs(s.processor, "Intel") then Intel
            else if Occurs(s.processor, "AMD") then Amd
            else if Occurs(s.processor, "AWS") then Aws
            else UnknownManufacturer
    ensures ArchitectureOf(s) ==
            if Occurs(s.architecture, "32") == Occurs(s.architecture, "64") then UnknownArchitecture
            else if Occurs(s.architecture, "32") then Bits32
            else Bits64
  {
    hide Strings.OccursAt;
    forall text, sub ensures Strings.Contains(text, sub) == Occurs(text, sub) {}
  }

  /** Keeping to the same manufacturer is the stricter rule. */
  lemma SameIsCompatible(current: Shape, s: Shape)
    requires IsCompatible(current, s, OnlySame)
    ensures IsCompatible(current, s, OnlyCompatible)
  {
    hide ManufacturerOf, ArchitectureOf;
  }

  /** The two rules agree on every shape exactly for a current shape of neither Intel nor AMD. */
  lemma RulesAgreeIff(current: Shape)
    ensures (forall s :: IsCompatible(current, s, OnlySame) <==> IsCompatible(current, s, OnlyCompatible))
            <==> ManufacturerOf(current) != Intel && ManufacturerOf(current) != Amd
  {
    hide ArchitectureOf;
    if ManufacturerOf(current) == Intel || ManufacturerOf(current) == Amd {
      var other := current.(processor := if ManufacturerOf(current) == Intel then "AMD" else "Intel");
      ProcessorNames();
      assert ArchitectureOf(other) == ArchitectureOf(current) by { SameText(current, other); }
      hide ManufacturerOf;
      assert IsCompatible(current, other, OnlyCompatible) && !IsCompatible(current, other, OnlySame);
    }
  }

  lemma SameText(s: Shape, t: Shape)
    requires s.architecture == t.architecture
    ensures ArchitectureOf(s) == ArchitectureOf(t)
  {}

  lemma ProcessorNames()
    ensures forall s: Shape | s.processor == "AMD" :: ManufacturerOf(s) == Amd
    ensures forall s: Shape | s.processor == "Intel" :: ManufacturerOf(s) == Intel
  {
    assert Strings.OccursAt("AMD", "AMD", 0) && Strings.OccursAt("Intel", "Intel", 0);
    assert forall i: nat :: !Strings.OccursAt("AMD", "Intel", i);
  }
}
