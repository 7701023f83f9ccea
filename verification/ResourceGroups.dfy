/** The contradiction filter of resource groups, which rewrites the reports of a group in place. */
module ResourceGroups {
  import opened Wrappers
  import Sequences
  import opened Actions
  import ScheduleService
  import GeneralActions
  import opened Runtimes
  import ScheduleItems

  /** A report: its own actions, and the recommendation inside it. The code also stores actions inside the
      recommendation. */
  datatype Findings = Findings(
    actions: seq<Action>, schedule: seq<ScheduleItems.ScheduleEntry>, shapes: seq<string>, savings: Option<real>,
    innerActions: Option<seq<Action>>)

  class Report {
    var actions: seq<Action>
    var schedule: seq<ScheduleItems.ScheduleEntry>
    var shapes: seq<string>
    var savings: Option<real>
    var innerActions: Option<seq<Action>>

    function State(): Findings
      reads this
    {
      Findings(actions, schedule, shapes, savings, innerActions)
    }

    constructor (s: Findings)
      ensures State() == s
    {
      actions, schedule, shapes, savings, innerActions := s.actions, s.schedule, s.shapes, s.savings, s.innerActions;
    }
  }

  // ----- the resize filter

  function Acceptable(scaleUp: bool): set<Action> {
    {ChangeShape} + if scaleUp then {ScaleUp} else {ScaleDown, Shutdown}
  }

  predicate Keeps(actions: seq<Action>, scaleUp: bool) {
    exists a | a in actions :: a in Acceptable(scaleUp)
  }

  function ResizeFiltered(s: Findings, scaleUp: bool): Findings {
    if Keeps(s.actions, scaleUp) then s
    else s.(actions := [NoAction], shapes := [], savings := None)
  }

  ghost predicate AnyScaleUp(results: seq<Report>)
    reads results
  {
    exists r | r in results :: ScaleUp in r.actions
  }

  lemma FilteredTwice(s: Findings, scaleUp: bool)
    ensures ResizeFiltered(ResizeFiltered(s, scaleUp), scaleUp) == ResizeFiltered(s, scaleUp)
  {}

  /** A change of shape stays in any group; scaling up makes scaling down and shutdowns give way, and without it
      they stay. */
  lemma KeepsIff(actions: seq<Action>, scaleUp: bool)
    ensures Keeps(actions, scaleUp) <==>
            || ChangeShape in actions
            || (scaleUp && ScaleUp in actions)
            || (!scaleUp && (ScaleDown in actions || Shutdown in actions))
  {
    assert forall a :: a in Acceptable(scaleUp) <==>
                       a == ChangeShape || (if scaleUp then a == ScaleUp else a == ScaleDown || a == Shutdown);
  }

  /** What the filter does to a report: its actions, shapes and savings go, its schedule stays. */
  lemma ResizeFilteredIs(s: Findings, scaleUp: bool)
    ensures var kept := ChangeShape in s.actions || (scaleUp && ScaleUp in s.actions) ||
                        (!scaleUp && (ScaleDown in s.actions || Shutdown in s.actions));
            ResizeFiltered(s, scaleUp) ==
            if kept then s else Findings([NoAction], s.schedule, [], None, s.innerActions)
  {
    hide Keeps;
    KeepsIff(s.actions, scaleUp);
  }

  method FilterResize(results: seq<Report>) returns (filtered: seq<Report>)
    modifies results
    ensures filtered == results
    ensures forall r | r in results :: r.State() == ResizeFiltered(old(r.State()), old(AnyScaleUp(results)))
  {
    var actions: set<Action> := {};
    for i := 0 to |results|
      invariant forall a :: a in actions <==> exists r | r in results[..i] :: a in r.actions
    {
      assert results[..i + 1] == results[..i] + [results[i]];
      actions := actions + set a | a in results[i].actions;
    }
    assert results[..|results|] == results;
    var scaleUp := ScaleUp in actions;
    hide Keeps;
    for i := 0 to |results|
      invariant forall r | r in results ::
          r.State() == if r in results[..i] then ResizeFiltered(old(r.State()), scaleUp) else old(r.State())
    {
      var report := results[i];
      assert results[..i + 1] == results[..i] + [report];
      FilteredTwice(old(report.State()), scaleUp);
      if !Keeps(report.actions, scaleUp) {
        report.shapes, report.savings, report.actions := [], None, [NoAction];
      }
    }
    filtered := results;
  }

  // ----- the schedule filter

  predicate IsCustom(schedule: seq<ScheduleItems.ScheduleEntry>) {
    schedule != [] && schedule != ScheduleService.ALWAYS_RUN
  }

  /** A custom schedule that runs less than 95 percent of the longest; without a longest none does. */
  predicate IsShort(schedule: seq<ScheduleItems.ScheduleEntry>, top: Option<int>) {
    && top.Some? && IsCustom(schedule) && RuntimeOf(schedule).Some?
    && RuntimeOf(schedule).value as real < 0.95 * top.value as real
  }

  /** In whole numbers: less than 95 minutes for each 100 of the longest. */
  lemma IsShortIff(schedule: seq<ScheduleItems.ScheduleEntry>, top: int, minutes: int)
    requires RuntimeOf(schedule) == Some(minutes)
    ensures IsShort(schedule, Some(top)) <==>
            && schedule != [] && schedule != [ScheduleItems.ScheduleEntry([0, 1, 2, 3, 4, 5, 6], 0, 0, None)]
            && 100 * minutes < 95 * top
  {
    hide RuntimeOf;
    assert 0.95 * top as real == (95 * top) as real / 100.0;
  }

  function ScheduleFiltered(s: Findings, top: Option<int>): Findings {
    if IsShort(s.schedule, top) then Replaced(s) else s
  }

  function Replaced(s: Findings): Findings {
    s.(schedule := ScheduleService.ALWAYS_RUN, innerActions := Some([NoAction]), savings := None)
  }

  /** What the filter does to a report: a short schedule gives way to running always, without an action in the
      recommendation or savings; the report's own actions and its shapes stay. */
  lemma ScheduleFilteredIs(s: Findings, top: int, minutes: int)
    requires RuntimeOf(s.schedule) == Some(minutes)
    ensures var always := [ScheduleItems.ScheduleEntry([0, 1, 2, 3, 4, 5, 6], 0, 0, None)];
            ScheduleFiltered(s, Some(top)) ==
            if s.schedule != [] && s.schedule != always && 100 * minutes < 95 * top
            then Findings(s.actions, always, s.shapes, None, Some([NoAction])) else s
  {
    hide RuntimeOf, IsShort;
    IsShortIff(s.schedule, top, minutes);
  }

  /** A report with the schedule it had. */
  type Scheduled = (Report, seq<ScheduleItems.ScheduleEntry>)

  function Schedules(results: seq<Report>): (rows: seq<Scheduled>)
    reads results
    ensures |rows| == |results|
    ensures forall i | 0 <= i < |rows| :: rows[i] == (results[i], results[i].schedule)
  {
    seq(|results|, i requires 0 <= i < |results| reads results => (results[i], results[i].schedule))
  }

  function WithSchedule(rows: seq<Scheduled>, custom: bool): (selected: seq<Scheduled>)
    ensures forall x | x in selected :: x in rows && x.1 != [] && IsCustom(x.1) == custom
    ensures forall x | x in rows && x.1 != [] && IsCustom(x.1) == custom :: x in selected
  {
    if rows == [] then []
    else
      var last := rows[|rows| - 1];
      assert rows == rows[..|rows| - 1] + [last];
      WithSchedule(rows[..|rows| - 1], custom) + if last.1 != [] && IsCustom(last.1) == custom then [last] else []
  }

  type Timed = (Report, int)

  /** Whether every runtime lookup succeeds. */
  ghost predicate AllTimed(rows: seq<Scheduled>) {
    forall x | x in rows :: RuntimeOf(x.1).Some?
  }

  function Timings(rows: seq<Scheduled>): (timed: seq<Timed>)
    requires AllTimed(rows)
    ensures |timed| == |rows|
    ensures forall i | 0 <= i < |rows| :: timed[i] == (rows[i].0, RuntimeOf(rows[i].1).value)
  {
    seq(|rows|, i requires 0 <= i < |rows| => assert rows[i] in rows; (rows[i].0, RuntimeOf(rows[i].1).value))
  }

  method TimeSchedules(rows: seq<Scheduled>) returns (timed: Option<seq<Timed>>)
    ensures timed.Some? <==> AllTimed(rows)
    ensures timed.Some? ==> timed.value == Timings(rows)
  {
    hide RuntimeOf;
    var result: seq<Timed> := [];
    for i := 0 to |rows|
      invariant AllTimed(rows[..i]) && result == Timings(rows[..i])
    {
      assert rows[..i + 1] == rows[..i] + [rows[i]];
      assert rows[i] in rows;
      var runtime := GetRuntimeMinutes(rows[i].1);
      if runtime.None? {
        return None;
      }
      result := result + [(rows[i].0, runtime.value)];
    }
    assert rows[..|rows|] == rows;
    timed := Some(result);
  }

  predicate RunsNoLess(a: Timed, b: Timed) {
    a.1 >= b.1
  }

  function Reports<T>(pairs: seq<(Report, T)>): (reports: seq<Report>)
    ensures |reports| == |pairs|
    ensures forall i | 0 <= i < |pairs| :: reports[i] == pairs[i].0
  {
    Sequences.Map(pairs, (p: (Report, T)) => p.0)
  }

  ghost predicate IsTop(top: int, timed: seq<Timed>) {
    (exists t | t in timed :: t.1 == top) && forall t | t in timed :: t.1 <= top
  }

  lemma {:induction false} FirstRunsLongest(timed: seq<Timed>)
    requires timed != []
    ensures IsTop(Sequences.Sort(timed, RunsNoLess)[0].1, timed)
  {
    assert timed == [timed[0]] + timed[1..];
    if |timed| > 1 {
      FirstRunsLongest(timed[1..]);
    } else {
      assert Sequences.Sort(timed[1..], RunsNoLess) == [];
    }
  }

  method SelectSchedules(results: seq<Report>) returns (custom: seq<Scheduled>, alwaysRun: seq<Scheduled>)
    ensures custom == WithSchedule(Schedules(results), true) && alwaysRun == WithSchedule(Schedules(results), false)
  {
    custom, alwaysRun := [], [];
    ghost var rows := Schedules(results);
    for i := 0 to |results|
      invariant custom == WithSchedule(rows[..i], true) && alwaysRun == WithSchedule(rows[..i], false)
    {
      assert rows[..i + 1][..i] == rows[..i];
      var report := results[i];
      if report.schedule != [] && report.schedule == ScheduleService.ALWAYS_RUN {
        alwaysRun := alwaysRun + [(report, report.schedule)];
      } else if report.schedule != [] {
        custom := custom + [(report, report.schedule)];
      }
    }
    assert rows[..|results|] == rows;
  }

  /** The reports that come out: all that came in when fewer than two schedules are custom, otherwise those
      with a schedule, the custom ones by descending runtime first. None where a runtime lookup raises. */
  ghost function ScheduleResult(rows: seq<Scheduled>): Option<seq<Report>> {
    var custom := WithSchedule(rows, true);
    if |custom| < 2 then Some(Reports(rows))
    else if AllTimed(custom) then
      Some(Reports(Sequences.Sort(Timings(custom), RunsNoLess)) + Reports(WithSchedule(rows, false)))
    else None
  }

  ghost predicate Falling(timed: seq<Timed>) {
    forall i, j | 0 <= i < j < |timed| :: timed[i].1 >= timed[j].1
  }

  lemma {:induction false} InsertKeepsFalling(x: Timed, timed: seq<Timed>)
    requires Falling(timed)
    ensures Falling(Sequences.Insert(x, timed, RunsNoLess))
  {
    if timed != [] && !RunsNoLess(x, timed[0]) {
      InsertKeepsFalling(x, timed[1..]);
      var rest := Sequences.Insert(x, timed[1..], RunsNoLess);
      forall j | 0 <= j < |rest| ensures timed[0].1 >= rest[j].1 {
        assert rest[j] in multiset(timed[1..]) + multiset{x};
      }
    }
  }

  lemma {:induction false} SortFalls(timed: seq<Timed>)
    ensures Falling(Sequences.Sort(timed, RunsNoLess))
  {
    if timed != [] {
      SortFalls(timed[1..]);
      InsertKeepsFalling(timed[0], Sequences.Sort(timed[1..], RunsNoLess));
    }
  }

  /** The reports with a custom schedule come out by falling runtime, before those that always run. */
  lemma LongestRunFirst(rows: seq<Scheduled>) returns (timed: seq<Timed>)
    requires |WithSchedule(rows, true)| >= 2 && AllTimed(WithSchedule(rows, true))
    ensures multiset(timed) == multiset(Timings(WithSchedule(rows, true)))
    ensures forall i, j | 0 <= i < j < |timed| :: timed[i].1 >= timed[j].1
    ensures ScheduleResult(rows) == Some(Reports(timed) + Reports(WithSchedule(rows, false)))
  {
    hide RuntimeOf, Sequences.Sort, WithSchedule;
    timed := Sequences.Sort(Timings(WithSchedule(rows, true)), RunsNoLess);
    SortFalls(Timings(WithSchedule(rows, true)));
  }

  /** The longest runtime, with which the others are compared when two schedules or more are custom. */
  ghost predicate IsThreshold(top: Option<int>, rows: seq<Scheduled>) {
    var custom := WithSchedule(rows, true);
    if |custom| >= 2 && AllTimed(custom) then top.Some? && IsTop(top.value, Timings(custom)) else top == None
  }

  method FilterSchedule(results: seq<Report>) returns (filtered: Option<seq<Report>>, ghost top: Option<int>)
    modifies results
    ensures filtered == ScheduleResult(old(Schedules(results)))
    ensures IsThreshold(top, old(Schedules(results)))
    ensures forall r | r in results :: r.State() == ScheduleFiltered(old(r.State()), top)
  {
    hide RuntimeOf, Sequences.Sort, WithSchedule;
    top := None;
    ghost var rows := Schedules(results);
    var custom, alwaysRun := SelectSchedules(results);
    if |custom| <= 1 {
      assert results == Reports(rows);
      return Some(results), None;
    }
    var runtimes := TimeSchedules(custom);
    if runtimes.None? {
      return None, None;
    }
    var timed := Sequences.Sort(runtimes.value, RunsNoLess);
    FirstRunsLongest(Timings(custom));
    top := Some(timed[0].1);
    var threshold := timed[0].1 as real * 0.95;
    forall r | r in results {
      ShortenedIff(results, r, timed, threshold);
    }
    ResetShort(results, timed, threshold);
    filtered := Some(Reports(timed) + Reports(alwaysRun));
  }

  /** Everything that comes out came in, and whatever has a schedule comes out. */
  lemma ScheduleResultMembers(rows: seq<Scheduled>)
    requires ScheduleResult(rows).Some?
    ensures forall r | r in ScheduleResult(rows).value :: exists x | x in rows :: x.0 == r
    ensures forall x | x in rows && x.1 != [] :: x.0 in ScheduleResult(rows).value
  {
    hide RuntimeOf, Sequences.Sort;
    var custom := WithSchedule(rows, true);
    ReportsMembers(rows);
    if |custom| >= 2 {
      ReportsMembers(WithSchedule(rows, false));
      TimingsMembers(custom, Sequences.Sort(Timings(custom), RunsNoLess));
    }
  }

  lemma ReportsMembers<T>(pairs: seq<(Report, T)>)
    ensures forall r | r in Reports(pairs) :: exists x | x in pairs :: x.0 == r
    ensures forall x | x in pairs :: x.0 in Reports(pairs)
  {
    forall r | r in Reports(pairs) ensures exists x | x in pairs :: x.0 == r {
      var k :| 0 <= k < |pairs| && Reports(pairs)[k] == r;
      assert pairs[k] in pairs;
    }
    forall x | x in pairs ensures x.0 in Reports(pairs) {
      var k :| 0 <= k < |pairs| && pairs[k] == x;
      assert Reports(pairs)[k] == x.0;
    }
  }

  lemma TimingsMembers(rows: seq<Scheduled>, timed: seq<Timed>)
    requires AllTimed(rows) && multiset(timed) == multiset(Timings(rows))
    ensures forall r | r in Reports(timed) :: exists x | x in rows :: x.0 == r
    ensures forall x | x in rows :: x.0 in Reports(timed)
    ensures forall t | t in timed :: exists x | x in rows :: x.0 == t.0 && RuntimeOf(x.1).value == t.1
    ensures forall x | x in rows :: (x.0, RuntimeOf(x.1).value) in timed
  {
    var timings := Timings(rows);
    ReportsMembers(timed);
    forall t | t in timed ensures exists x | x in rows :: x.0 == t.0 && RuntimeOf(x.1).value == t.1 {
      assert t in multiset(timings);
      var k :| 0 <= k < |timings| && timings[k] == t;
      assert rows[k] in rows;
    }
    forall x | x in rows ensures (x.0, RuntimeOf(x.1).value) in timed {
      var k :| 0 <= k < |rows| && rows[k] == x;
      assert timings[k] in multiset(timed);
    }
  }

  ghost predicate Shortened(r: Report, timed: seq<Timed>, threshold: real) {
    exists t | t in timed :: t.0 == r && t.1 as real < threshold
  }

  /** The loop that replaces the short schedules. */
  method ResetShort(ghost results: seq<Report>, timed: seq<Timed>, threshold: real)
    requires forall t | t in timed :: t.0 in results
    modifies results
    ensures forall r | r in results ::
              r.State() == if Shortened(r, timed, threshold) then Replaced(old(r.State())) else old(r.State())
  {
    for i := 0 to |timed|
      invariant forall r | r in results ::
          r.State() == if Shortened(r, timed[..i], threshold) then Replaced(old(r.State())) else old(r.State())
    {
      var (report, runtime) := timed[i];
      assert timed[i] in timed;
      assert timed[..i + 1] == timed[..i] + [timed[i]];
      if runtime as real < threshold {
        report.schedule, report.innerActions, report.savings := ScheduleService.ALWAYS_RUN, Some([NoAction]), None;
      }
    }
    assert timed[..|timed|] == timed;
  }

  lemma ShortenedIff(results: seq<Report>, r: Report, timed: seq<Timed>, threshold: real)
    requires r in results && AllTimed(WithSchedule(Schedules(results), true))
    requires multiset(timed) == multiset(Timings(WithSchedule(Schedules(results), true)))
    ensures forall t | t in timed :: t.0 in results
    ensures Shortened(r, timed, threshold) <==>
            IsCustom(r.schedule) && RuntimeOf(r.schedule).Some? && RuntimeOf(r.schedule).value as real < threshold
  {
    hide RuntimeOf;
    var rows := Schedules(results);
    var custom := WithSchedule(rows, true);
    TimingsMembers(custom, timed);
    var i :| 0 <= i < |results| && results[i] == r;
    assert rows[i] in rows;
    if IsCustom(r.schedule) {
      assert rows[i] in custom;
    }
  }

  /** Filtering the schedules again replaces nothing more, although the longest may have changed. */
  lemma ScheduleFilterIsIdempotent(before: seq<Scheduled>, after: seq<Scheduled>, top: Option<int>, again: Option<int>)
    requires |after| == |before| && forall i | 0 <= i < |after| ::
               after[i] == (before[i].0, if IsShort(before[i].1, top) then ScheduleService.ALWAYS_RUN else before[i].1)
    requires IsThreshold(top, before) && IsThreshold(again, after)
    ensures forall i | 0 <= i < |after| :: !IsShort(after[i].1, again)
  {
    hide RuntimeOf, IsThreshold;
    if top.None? {
      assert after == before;
      NoThreshold(before, again);
    } else if again.Some? {
      var longest := LongestRow(after, again.value);
      var j :| 0 <= j < |after| && after[j] == longest;
      assert before[j] == longest && !IsShort(longest.1, top);
      assert before[j] in before;
      RunsAtMostTop(before, longest, top.value);
    }
  }

  lemma NoThreshold(rows: seq<Scheduled>, again: Option<int>)
    requires IsThreshold(None, rows) && IsThreshold(again, rows)
    ensures again == None
  {
    hide RuntimeOf, WithSchedule;
  }

  lemma LongestRow(rows: seq<Scheduled>, top: int) returns (x: Scheduled)
    requires IsThreshold(Some(top), rows)
    ensures x in rows && IsCustom(x.1) && RuntimeOf(x.1) == Some(top)
  {
    hide RuntimeOf, IsCustom;
    var custom := WithSchedule(rows, true);
    var timed := Timings(custom);
    var t :| t in timed && t.1 == top;
    TimingsMembers(custom, timed);
    x :| x in custom && RuntimeOf(x.1).value == top;
  }

  lemma RunsAtMostTop(rows: seq<Scheduled>, x: Scheduled, top: int)
    requires IsThreshold(Some(top), rows) && x in rows && x.1 != [] && IsCustom(x.1)
    ensures RuntimeOf(x.1).Some? && RuntimeOf(x.1).value <= top
  {
    hide RuntimeOf, IsCustom;
    var custom := WithSchedule(rows, true);
    TimingsMembers(custom, Timings(custom));
  }

  // ----- the whole group

  datatype Kind = Resizing | Scheduling | Splitting

  predicate OfKind(a: Action, kind: Kind) {
    match kind
    case Resizing => a == ScaleUp || a == ScaleDown || a == ChangeShape || a == Shutdown
    case Scheduling => a == Schedule
    case Splitting => a == Split
  }

  predicate IsIdle(actions: seq<Action>) {
    NoAction in actions || Error in actions
  }

  predicate HasKind(actions: seq<Action>, kind: Kind) {
    !IsIdle(actions) && exists a | a in actions :: OfKind(a, kind)
  }

  /** The report once for every action of the kind. */
  function Copies(r: Report, actions: seq<Action>, kind: Kind): (copies: seq<Report>)
    ensures forall c | c in copies :: c == r
    ensures r in copies <==> exists a | a in actions :: OfKind(a, kind)
  {
    if actions == [] then []
    else
      assert actions == actions[..|actions| - 1] + [actions[|actions| - 1]];
      Copies(r, actions[..|actions| - 1], kind) + if OfKind(actions[|actions| - 1], kind) then [r] else []
  }

  function OfKinds(group: seq<Report>, kind: Kind): (selected: seq<Report>)
    reads group
    ensures forall r | r in selected :: r in group && HasKind(r.actions, kind)
    ensures forall r | r in group && HasKind(r.actions, kind) :: r in selected
  {
    if group == [] then []
    else
      var last := group[|group| - 1];
      assert group == group[..|group| - 1] + [last];
      var copies := if IsIdle(last.actions) then [] else Copies(last, last.actions, kind);
      OfKinds(group[..|group| - 1], kind) + copies
  }

  function Idle(group: seq<Report>): (idle: seq<Report>)
    reads group
    ensures forall r | r in idle :: r in group && IsIdle(r.actions)
    ensures forall r | r in group && IsIdle(r.actions) :: r in idle
  {
    if group == [] then []
    else
      var last := group[|group| - 1];
      assert group == group[..|group| - 1] + [last];
      Idle(group[..|group| - 1]) + if IsIdle(last.actions) then [last] else []
  }

  lemma NextOfKind(group: seq<Report>, n: nat, kind: Kind)
    requires n < |group|
    ensures OfKinds(group[..n + 1], kind) == OfKinds(group[..n], kind)
              + if IsIdle(group[n].actions) then [] else Copies(group[n], group[n].actions, kind)
  {
    hide Copies;
    assert group[..n + 1][..n] == group[..n];
  }

  lemma NextIdle(group: seq<Report>, n: nat)
    requires n < |group|
    ensures Idle(group[..n + 1]) == Idle(group[..n]) + if IsIdle(group[n].actions) then [group[n]] else []
  {
    assert group[..n + 1][..n] == group[..n];
  }

  lemma NothingYet(group: seq<Report>)
    ensures Idle(group[..0]) == []
    ensures forall kind :: OfKinds(group[..0], kind) == []
  {}

  method Classify(group: seq<Report>)
    returns (idle: seq<Report>, resize: seq<Report>, schedule: seq<Report>, split: seq<Report>)
    ensures idle == Idle(group)
    ensures resize == OfKinds(group, Resizing) && schedule == OfKinds(group, Scheduling)
    ensures split == OfKinds(group, Splitting)
  {
    hide IsIdle, OfKind, Copies, OfKinds, Idle;
    idle, resize, schedule, split := [], [], [], [];
    NothingYet(group);
    for i := 0 to |group|
      invariant idle == Idle(group[..i]) && resize == OfKinds(group[..i], Resizing)
      invariant schedule == OfKinds(group[..i], Scheduling) && split == OfKinds(group[..i], Splitting)
    {
      NextIdle(group, i);
      NextOfKind(group, i, Resizing);
      NextOfKind(group, i, Scheduling);
      NextOfKind(group, i, Splitting);
      var report := group[i];
      if IsIdle(report.actions) {
        idle := idle + [report];
      } else {
        var resizeCopies, scheduleCopies, splitCopies := ByAction(report);
        resize, schedule, split := resize + resizeCopies, schedule + scheduleCopies, split + splitCopies;
      }
    }
    assert group[..|group|] == group;
  }

  /** The loop over the actions of one report. */
  method ByAction(report: Report) returns (resize: seq<Report>, schedule: seq<Report>, split: seq<Report>)
    ensures resize == Copies(report, report.actions, Resizing)
    ensures schedule == Copies(report, report.actions, Scheduling)
    ensures split == Copies(report, report.actions, Splitting)
  {
    var actions := report.actions;
    resize, schedule, split := [], [], [];
    for k := 0 to |actions|
      invariant resize == Copies(report, actions[..k], Resizing)
      invariant schedule == Copies(report, actions[..k], Scheduling)
      invariant split == Copies(report, actions[..k], Splitting)
    {
      assert actions[..k + 1][..k] == actions[..k];
      if OfKind(actions[k], Resizing) {
        resize := resize + [report];
      }
      if actions[k] == Schedule {
        schedule := schedule + [report];
      }
      if actions[k] == Split {
        split := split + [report];
      }
    }
    assert actions[..|actions|] == actions;
  }

  /** What becomes of one report, given whether the group scales up and the longest runtime in it. */
  function After(s: Findings, scaleUp: bool, top: Option<int>): Findings {
    var resized := if HasKind(s.actions, Resizing) then ResizeFiltered(s, scaleUp) else s;
    if HasKind(s.actions, Scheduling) then ScheduleFiltered(resized, top) else resized
  }

  ghost predicate ScalesUp(group: seq<Findings>) {
    exists s | s in group :: HasKind(s.actions, Resizing) && ScaleUp in s.actions
  }

  ghost predicate FromGeneralActions(group: seq<Findings>) {
    forall s | s in group :: GeneralActions.FromGeneralAction(s.actions)
  }

  ghost predicate IsAfter(after: seq<Findings>, before: seq<Findings>, top: Option<int>) {
    |after| == |before| && forall i | 0 <= i < |before| :: after[i] == After(before[i], ScalesUp(before), top)
  }

  /** Only the resize filter touches the actions of the report itself. */
  lemma AfterActions(s: Findings, scaleUp: bool, top: Option<int>)
    ensures After(s, scaleUp, top).actions ==
            if HasKind(s.actions, Resizing) && !Keeps(s.actions, scaleUp) then [NoAction] else s.actions
  {
    hide HasKind, Keeps, RuntimeOf, IsCustom;
  }

  lemma UpIsNoCollision(s: Findings, scaleUp: bool, top: Option<int>)
    requires GeneralActions.FromGeneralAction(s.actions)
    ensures scaleUp ==> ScaleDown !in After(s, scaleUp, top).actions && Shutdown !in After(s, scaleUp, top).actions
    ensures ScaleUp in After(s, scaleUp, top).actions ==> ScaleUp in s.actions && HasKind(s.actions, Resizing)
  {
    AfterActions(s, scaleUp, top);
    hide After;
    if scaleUp && HasKind(s.actions, Resizing) && Keeps(s.actions, true) {
      var kept :| kept in s.actions && kept in Acceptable(true);
      assert forall a | a in s.actions :: a == kept || a == Schedule;
    }
  }

  /** With the action lists of single instances, a filtered group that scales up anywhere does not
      scale down or shut down elsewhere. */
  lemma NoCollision(after: seq<Findings>, before: seq<Findings>, top: Option<int>)
    requires IsAfter(after, before, top) && FromGeneralActions(before)
    ensures (exists s | s in after :: ScaleUp in s.actions)
            ==> forall s | s in after :: ScaleDown !in s.actions && Shutdown !in s.actions
  {
    hide After, GeneralActions.FromGeneralAction, HasKind;
    forall i | 0 <= i < |before|
      ensures ScaleUp in after[i].actions ==> ScalesUp(before)
      ensures ScalesUp(before) ==> ScaleDown !in after[i].actions && Shutdown !in after[i].actions
    {
      assert before[i] in before;
      UpIsNoCollision(before[i], ScalesUp(before), top);
    }
  }

  /** For any action lists: something to discard is left exactly where one report combines it with an acceptable
      action. */
  lemma CollisionIff(after: seq<Findings>, before: seq<Findings>, top: Option<int>, i: nat)
    requires IsAfter(after, before, top) && ScalesUp(before) && i < |before| && !IsIdle(before[i].actions)
    ensures ScaleDown in after[i].actions || Shutdown in after[i].actions <==>
            && (ScaleDown in before[i].actions || Shutdown in before[i].actions)
            && (ScaleUp in before[i].actions || ChangeShape in before[i].actions)
  {
    AfterActions(before[i], ScalesUp(before), top);
    hide After, ScalesUp;
    if ScaleUp in before[i].actions || ChangeShape in before[i].actions {
      assert Keeps(before[i].actions, true);
    }
  }

  /** Without SCALE_UP the resize filter changes nothing. */
  lemma NothingToDiscard(s: Findings)
    requires GeneralActions.FromGeneralAction(s.actions) && HasKind(s.actions, Resizing) && ScaleUp !in s.actions
    ensures ResizeFiltered(s, false) == s
  {
    var a :| a in s.actions && OfKind(a, Resizing);
    assert a in Acceptable(false);
  }

  function States(group: seq<Report>): (states: seq<Findings>)
    reads group
    ensures |states| == |group|
    ensures forall i | 0 <= i < |group| :: states[i] == group[i].State()
  {
    seq(|group|, i requires 0 <= i < |group| reads group => group[i].State())
  }

  /** The two filters one after the other; they may share reports. */
  method FilterBoth(resize: seq<Report>, schedule: seq<Report>)
    returns (scheduled: Option<seq<Report>>, ghost top: Option<int>)
    modifies resize, schedule
    ensures forall r | r in resize && r !in schedule ::
            r.State() == ResizeFiltered(old(r.State()), old(AnyScaleUp(resize)))
    ensures forall r | r !in resize && r in schedule :: r.State() == ScheduleFiltered(old(r.State()), top)
    ensures forall r | r in resize && r in schedule ::
              r.State() == ScheduleFiltered(ResizeFiltered(old(r.State()), old(AnyScaleUp(resize))), top)
    ensures scheduled == ScheduleResult(old(Schedules(schedule)))
    ensures IsThreshold(top, old(Schedules(schedule)))
  {
    hide ScheduleResult, IsThreshold, Keeps, ScheduleFiltered, AnyScaleUp;
    ghost var rows := Schedules(schedule);
    var resized := FilterResize(resize);
    forall r | r in schedule ensures r.schedule == old(r.schedule) {
      if r in resize {
        assert r.State() == ResizeFiltered(old(r.State()), old(AnyScaleUp(resize)));
      } else {
        assert forall i | 0 <= i < |resize| :: resize[i] != r;
      }
    }
    forall i | 0 <= i < |schedule| ensures Schedules(schedule)[i] == rows[i] {
      assert schedule[i] in schedule;
    }
    assert Schedules(schedule) == rows;
    hide ResizeFiltered;
    scheduled, top := FilterSchedule(schedule);
  }

  lemma ScalesUpInResize(group: seq<Report>, resize: seq<Report>)
    requires resize == OfKinds(group, Resizing)
    ensures AnyScaleUp(resize) == ScalesUp(States(group))
  {
    hide OfKinds, HasKind;
    var states := States(group);
    forall s | s in states && HasKind(s.actions, Resizing) && ScaleUp in s.actions
      ensures AnyScaleUp(resize)
    {
      var i :| 0 <= i < |states| && states[i] == s;
      assert group[i].actions == s.actions && group[i] in group;
      assert group[i] in resize;
    }
    forall r | r in resize && ScaleUp in r.actions ensures ScalesUp(states) {
      var i :| 0 <= i < |group| && group[i] == r;
      assert states[i] in states;
    }
  }

  /** `_filter_group`; None where a runtime lookup raises. */
  method FilterGroup(group: seq<Report>) returns (filtered: Option<seq<Report>>, ghost top: Option<int>)
    modifies group
    ensures IsAfter(States(group), old(States(group)), top)
    ensures IsThreshold(top, old(Schedules(OfKinds(group, Scheduling))))
    ensures var scheduled := ScheduleResult(old(Schedules(OfKinds(group, Scheduling))));
            filtered == if scheduled.None? then None else
                        Some(old(Idle(group)) + old(OfKinds(group, Resizing))
                             + scheduled.value + old(OfKinds(group, Splitting)))
  {
    hide OfKinds, Idle, HasKind, ScheduleResult, IsThreshold, ScheduleFiltered, ResizeFiltered, AnyScaleUp, ScalesUp,
         After;
    var idle, resize, schedule, split := Classify(group);
    ghost var before := States(group);
    ScalesUpInResize(group, resize);
    assert forall i | 0 <= i < |resize| :: resize[i] in group;
    assert forall i | 0 <= i < |schedule| :: schedule[i] in group;
    assert Schedules(schedule) == old(Schedules(OfKinds(group, Scheduling)));
    var scheduled;
    scheduled, top := FilterBoth(resize, schedule);
    forall i | 0 <= i < |group| ensures group[i].State() == After(before[i], ScalesUp(before), top) {
      AfterIs(before[i], ScalesUp(before), top);
      assert group[i] in resize <==> HasKind(before[i].actions, Resizing);
      assert group[i] in schedule <==> HasKind(before[i].actions, Scheduling);
    }
    if scheduled.None? {
      filtered := None;
    } else {
      filtered := Some(idle + resize + scheduled.value + split);
    }
  }

  lemma AfterIs(s: Findings, scaleUp: bool, top: Option<int>)
    ensures var resized := if HasKind(s.actions, Resizing) then ResizeFiltered(s, scaleUp) else s;
            After(s, scaleUp, top) == if HasKind(s.actions, Scheduling) then ScheduleFiltered(resized, top) else resized
  {}

  /** Applying the resize filter to its own result changes nothing. */
  lemma ResizeFilterIsIdempotent(results: seq<Findings>, once: seq<Findings>, twice: seq<Findings>)
    requires IsResizeFiltered(once, results) && IsResizeFiltered(twice, once)
    ensures twice == once
  {
    hide ResizeFiltered;
    var up := exists s | s in results :: ScaleUp in s.actions;
    if s :| s in results && ScaleUp in s.actions {
      var i :| 0 <= i < |results| && results[i] == s;
      ScaleUpStays(s);
      assert once[i] in once;
    } else {
      forall i | 0 <= i < |results| ensures ScaleUp !in once[i].actions {
        assert results[i] in results;
        NoScaleUpAppears(results[i]);
      }
    }
    forall i | 0 <= i < |results| ensures twice[i] == once[i] {
      FilteredTwice(results[i], up);
    }
  }

  ghost predicate IsResizeFiltered(after: seq<Findings>, before: seq<Findings>) {
    && |after| == |before|
    && forall i | 0 <= i < |before| ::
         after[i] == ResizeFiltered(before[i], exists s | s in before :: ScaleUp in s.actions)
  }

  lemma ScaleUpStays(s: Findings)
    requires ScaleUp in s.actions
    ensures ResizeFiltered(s, true) == s
  {
    assert ScaleUp in Acceptable(true);
  }

  lemma NoScaleUpAppears(s: Findings)
    requires ScaleUp !in s.actions
    ensures ScaleUp !in ResizeFiltered(s, false).actions
  {}

  /** No report is lost: with the action lists of single instances every one comes out of the group filter. */
  lemma NoReportIsLost(group: seq<Report>, r: Report)
    requires r in group && GeneralActions.FromGeneralAction(r.actions) && (Schedule in r.actions ==> r.schedule != [])
    requires ScheduleResult(Schedules(OfKinds(group, Scheduling))).Some?
    ensures r in Idle(group) + OfKinds(group, Resizing)
                 + ScheduleResult(Schedules(OfKinds(group, Scheduling))).value + OfKinds(group, Splitting)
  {
    hide ScheduleResult, OfKinds, Idle;
    var schedule := OfKinds(group, Scheduling);
    ScheduleResultMembers(Schedules(schedule));
    var last := r.actions[|r.actions| - 1];
    assert last in r.actions;
    if HasKind(r.actions, Scheduling) {
      var i :| 0 <= i < |schedule| && schedule[i] == r;
      assert Schedules(schedule)[i] in Schedules(schedule);
    } else {
      assert IsIdle(r.actions) || HasKind(r.actions, Resizing) || HasKind(r.actions, Splitting) by {
        if !IsIdle(r.actions) {
          assert OfKind(last, Resizing) || OfKind(last, Splitting) || OfKind(last, Scheduling);
        }
      }
    }
  }
}
