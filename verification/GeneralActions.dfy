/** The recommended actions of an instance, from its schedule, shapes and resize action. */
module GeneralActions {
  import opened Wrappers
  import opened Actions
  import ScheduleItems
  import Strings
  import TimeTexts

  datatype Status = Ok | Postponed | Failed

  ghost predicate ShutdownRejected(past: seq<Feedback>) {
    exists f | f in past :: f.recommendation == Shutdown && (f.status == DontRecommend || f.status == Wrong)
  }

  method IsShutdownForbidden(past: seq<Feedback>) returns (forbidden: bool)
    ensures forbidden <==> ShutdownRejected(past)
  {
    for i := 0 to |past|
      invariant !ShutdownRejected(past[..i])
    {
      assert past[..i + 1] == past[..i] + [past[i]];
      if past[i].recommendation == Shutdown && (past[i].status == DontRecommend || past[i].status == Wrong) {
        return true;
      }
    }
    assert past[..|past|] == past;
    return false;
  }

  /** `stop.startswith('23:')` on a printed time */
  predicate StartsWith23(stop: ScheduleItems.Minute) {
    stop >= 23 * 60
  }

  predicate IsAlwaysRun(schedule: seq<ScheduleItems.ScheduleEntry>) {
    && |schedule| == 1
    && schedule[0].start == 0
    && (StartsWith23(schedule[0].stop) || schedule[0].stop == 0)
    && |schedule[0].weekdays| == 7
  }

  /** By the printed texts: one entry for seven weekdays, from 00:00 to the hour of 23 or to 00:00. */
  lemma AlwaysRunIff(schedule: seq<ScheduleItems.ScheduleEntry>)
    ensures IsAlwaysRun(schedule) <==>
            && |schedule| == 1
            && TimeTexts.Text(schedule[0].start) == "00:00"
            && (Strings.StartsWith(TimeTexts.Text(schedule[0].stop), "23:")
                || TimeTexts.Text(schedule[0].stop) == "00:00")
            && |schedule[0].weekdays| == 7
  {
    if |schedule| == 1 {
      var midnight: ScheduleItems.Minute := 0;
      assert TimeTexts.Text(midnight) == "00:00";
      hide TimeTexts.Text;
      TimeTexts.TextOrder(schedule[0].start, midnight);
      TimeTexts.TextOrder(schedule[0].stop, midnight);
      TimeTexts.StartsWithHour23(schedule[0].stop);
    }
  }

  function ProbabilitySum(shapes: seq<Option<real>>): real {
    if shapes == [] then 0.0
    else
      var last := shapes[|shapes| - 1];
      ProbabilitySum(shapes[..|shapes| - 1]) + if last.Some? then last.value else 0.0
  }

  /** `np.isclose(x, 1.0, rtol=1e-09, atol=1e-09)` */
  predicate CloseToOne(x: real) {
    -0.000000002 <= x - 1.0 <= 0.000000002
  }

  predicate IsResize(a: Action) {
    a == ScaleUp || a == ScaleDown || a == ChangeShape || a == Split
  }

  /** What a list of general actions looks like: one action, or a schedule and a resize. */
  predicate FromGeneralAction(actions: seq<Action>) {
    || |actions| == 1
    || (|actions| == 2 && actions[0] == Schedule && IsResize(actions[1]))
  }

  /** The inputs of `get_general_action`; the probability of a shape is the only part of it that matters. */
  datatype Inputs = Inputs(
    status: Status, schedule: seq<ScheduleItems.ScheduleEntry>, shapes: seq<Option<real>>, resize: Option<Action>,
    allowed: seq<Action>, past: seq<Feedback>)
  {
    ghost predicate SuggestsShutdown() {
      status == Ok && schedule == [] && Shutdown in allowed && !ShutdownRejected(past)
    }

    ghost predicate SuggestsSchedule() {
      status == Ok && schedule != [] && Schedule in allowed && !IsAlwaysRun(schedule)
    }

    ghost predicate SuggestsResize(a: Action) {
      && status == Ok && !SuggestsShutdown() && shapes != []
      && if CloseToOne(ProbabilitySum(shapes)) then a == Split else resize == Some(a) && a in allowed
    }
  }

  /** The actions for some inputs, by what each action needs. */
  ghost predicate IsGeneralAction(actions: seq<Action>, i: Inputs) {
    && FromGeneralAction(actions)
    && (Error in actions <==> i.status == Failed)
    && (Shutdown in actions <==> i.SuggestsShutdown())
    && (Schedule in actions <==> i.SuggestsSchedule())
    && (forall a | IsResize(a) :: a in actions <==> i.SuggestsResize(a))
  }

  /** What each action needs leaves one list only. */
  lemma GeneralActionIsDetermined(a: seq<Action>, b: seq<Action>, i: Inputs)
    requires IsGeneralAction(a, i) && IsGeneralAction(b, i)
    ensures a == b
  {
    hide IsAlwaysRun, CloseToOne, ShutdownRejected;
    assert forall x | IsResize(x) :: x in a <==> x in b;
    SameMembersSameList(a, b);
  }

  lemma SameMembersSameList(a: seq<Action>, b: seq<Action>)
    requires FromGeneralAction(a) && FromGeneralAction(b)
    requires forall x | x != NoAction :: x in a <==> x in b
    ensures a == b
  {
    assert a[0] in a && b[0] in b && a[|a| - 1] in a && b[|b| - 1] in b;
  }

  method GetGeneralAction(i: Inputs) returns (actions: seq<Action>)
    requires i.resize.Some? ==> IsResize(i.resize.value)
    ensures IsGeneralAction(actions, i)
  {
    hide IsAlwaysRun, ShutdownRejected, CloseToOne, ProbabilitySum;
    if i.status == Postponed {
      return [NoAction];
    }
    if i.status != Ok {
      return [Error];
    }
    var shutdownForbidden := Shutdown !in i.allowed;
    if !shutdownForbidden && i.past != [] {
      shutdownForbidden := IsShutdownForbidden(i.past);
    } else {
      NothingRejected();
    }
    if i.schedule == [] && !shutdownForbidden {
      return [Shutdown];
    }
    actions := [];
    if i.schedule != [] && Schedule in i.allowed && !IsAlwaysRun(i.schedule) {
      actions := actions + [Schedule];
    }
    if i.shapes != [] {
      var total := SumProbabilities(i.shapes);
      if CloseToOne(total) {
        actions := actions + [Split];
      } else if i.resize.Some? && i.resize.value in i.allowed {
        actions := actions + [i.resize.value];
      }
    }
    if actions == [] {
      return [NoAction];
    }
  }

  lemma NothingRejected()
    ensures !ShutdownRejected([])
  {}

  method SumProbabilities(shapes: seq<Option<real>>) returns (total: real)
    ensures total == ProbabilitySum(shapes)
  {
    total := 0.0;
    for k := 0 to |shapes|
      invariant total == ProbabilitySum(shapes[..k])
    {
      assert shapes[..k + 1][..k] == shapes[..k];
      total := total + if shapes[k].Some? then shapes[k].value else 0.0;
    }
    assert shapes[..|shapes|] == shapes;
  }

  /** Shapes whose probabilities sum to one are a split, allowed or not. */
  lemma SplitIsNotAskedFor(actions: seq<Action>, i: Inputs)
    requires IsGeneralAction(actions, i)
    requires i.status == Ok && i.schedule != [] && i.shapes != [] && CloseToOne(ProbabilitySum(i.shapes))
    ensures Split in actions && forall a | a in actions :: a == Schedule || a == Split
  {
    hide IsAlwaysRun, CloseToOne, ProbabilitySum, ShutdownRejected;
    assert i.SuggestsResize(Split) && IsResize(Split);
    assert forall a | IsResize(a) && a in actions :: a == Split;
  }

  /** The list in full. A failed instance gets an error. Otherwise: a shutdown, and nothing else, without a schedule
      where shutting down is allowed and was never rejected; a schedule that is not always on where that is allowed;
      and with it a split for shapes whose probabilities add up to one, or else the resize action if it is allowed. */
  lemma GeneralActionIs(actions: seq<Action>, i: Inputs, sum: real)
    requires i.resize.Some? ==> IsResize(i.resize.value)
    requires IsGeneralAction(actions, i) && sum == ProbabilitySum(i.shapes)
    ensures var shutdown := i.schedule == [] && Shutdown in i.allowed &&
                            !exists f | f in i.past :: f.recommendation == Shutdown &&
                                                       f.status in {DontRecommend, Wrong};
            var split := -0.000000002 <= sum - 1.0 <= 0.000000002;
            var resized := if split then Some(Split) else if i.resize.Some? && i.resize.value in i.allowed
                           then i.resize else None;
            var scheduled := i.schedule != [] && Schedule in i.allowed && !IsAlwaysRun(i.schedule);
            actions ==
            if i.status == Failed then [Error]
            else if i.status == Postponed then [NoAction]
            else if shutdown then [Shutdown]
            else if scheduled && i.shapes != [] && resized.Some? then [Schedule, resized.value]
            else if scheduled then [Schedule]
            else if i.shapes != [] && resized.Some? then [resized.value]
            else [NoAction]
  {
    hide IsAlwaysRun, ProbabilitySum;
    var resized := if -0.000000002 <= sum - 1.0 <= 0.000000002 then Some(Split)
                   else if i.resize.Some? && i.resize.value in i.allowed then i.resize else None;
    assert forall a | IsResize(a) && i.status == Ok && !i.SuggestsShutdown() ::
        a in actions <==> i.shapes != [] && resized == Some(a);
    assert actions[0] in actions && actions[|actions| - 1] in actions;
  }
}
