/** `_group_by_days`: a greedy grouping of similar day schedules. */
module DayGrouping {
  import opened Wrappers
  import opened Sequences
  import opened ScheduleItems
  import FrequencyMaps
  import Rounding

  const MAX_GROUPING_DIFFERENCE_SECONDS := 3600

  predicate Similar(a: DaySchedule, b: DaySchedule)
  {
    IsSimilar(a, b, MAX_GROUPING_DIFFERENCE_SECONDS)
  }

  /** Both ends are an hour apart at most, on the clock. */
  lemma SimilarIff(a: DaySchedule, b: DaySchedule)
    ensures Similar(a, b) <==> -60 <= a.start - b.start <= 60 && -60 <= a.stop.value - b.stop.value <= 60
  {}

  predicate StartsNoLater(a: DaySchedule, b: DaySchedule) {
    a.start <= b.start
  }

  predicate LastsNoLess(a: ScheduleItem, b: ScheduleItem) {
    DurationMinutes(a) >= DurationMinutes(b)
  }

  // ----- what the grouping computes

  predicate HasSimilar(leaders: seq<DaySchedule>, d: DaySchedule) {
    exists l | l in leaders :: Similar(l, d)
  }

  /** The schedules that open a group: those not similar to an earlier leader. */
  function Leaders(ds: seq<DaySchedule>): (leaders: seq<DaySchedule>)
    ensures forall l | l in leaders :: l in ds
  {
    if ds == [] then []
    else
      var earlier := Leaders(ds[..|ds| - 1]);
      var d := ds[|ds| - 1];
      if HasSimilar(earlier, d) then earlier else earlier + [d]
  }

  /** Everything similar to the leader, earlier groups' members included. */
  function Members(leader: DaySchedule, ds: seq<DaySchedule>): (members: seq<DaySchedule>)
    ensures forall d :: d in members <==> d in ds && Similar(leader, d)
  {
    Filter(ds, d => Similar(leader, d))
  }

  /** The members' weekdays, each once, Monday first. */
  function WeekdaysOf(members: seq<DaySchedule>): seq<Weekday> {
    var days := Flatten(Map(members, (d: DaySchedule) => d.weekdays));
    Filter(WEEK_DAYS, day => day in days)
  }

  lemma WeekdaysOfMember(members: seq<DaySchedule>, d: DaySchedule, day: Weekday)
    requires d in members && day in d.weekdays
    ensures day in WeekdaysOf(members)
  {
    var lists := Map(members, (d: DaySchedule) => d.weekdays);
    var i :| 0 <= i < |members| && members[i] == d;
    assert day in lists[i];
    assert day == WEEK_DAYS[day];
  }

  lemma WeekdaysOfNoOther(members: seq<DaySchedule>, day: Weekday) returns (d: DaySchedule)
    requires day in WeekdaysOf(members)
    ensures d in members && day in d.weekdays
  {
    var lists := Map(members, (d: DaySchedule) => d.weekdays);
    var i :| 0 <= i < |lists| && day in lists[i];
    d := members[i];
  }

  function ProbabilitiesOf(members: seq<DaySchedule>): seq<real> {
    seq(|members|, i requires 0 <= i < |members| => members[i].probability.value)
  }

  function Grouped(members: seq<DaySchedule>, start: Minute, stop: Minute): (g: DaySchedule) {
    hide WeekdaysOf, FrequencyMaps.RoundedMean, ProbabilitiesOf;
    ScheduleItem(WeekdaysOf(members), start, Some(stop), Some(FrequencyMaps.RoundedMean(ProbabilitiesOf(members))))
  }

  function GroupOf(leader: DaySchedule, ds: seq<DaySchedule>): (g: DaySchedule) {
    var members := Members(leader, ds);
    if members == [] then leader else Grouped(members, LeastStart(members), GreatestStop(members))
  }

  /** What matters of a group for the times it covers. */
  ghost predicate Spans(g: DaySchedule, members: seq<DaySchedule>) {
    && IsLeastStart(g.start, members) && IsGreatestStop(g.stop.value, members)
    && forall day :: day in g.weekdays <==> exists d | d in members :: day in d.weekdays
  }

  lemma GroupSpans(leader: DaySchedule, ds: seq<DaySchedule>)
    requires leader in ds
    ensures Spans(GroupOf(leader, ds), Members(leader, ds))
  {
    var members := Members(leader, ds);
    assert leader in members;
    forall day, d | d in members && day in d.weekdays ensures day in WeekdaysOf(members) {
      WeekdaysOfMember(members, d, day);
    }
    forall day | day in WeekdaysOf(members) ensures exists d | d in members :: day in d.weekdays {
      var d := WeekdaysOfNoOther(members, day);
    }
  }

  function GroupsOf(leaders: seq<DaySchedule>, ds: seq<DaySchedule>): (gs: seq<ScheduleItem>)
    ensures |gs| == |leaders|
    ensures forall i | 0 <= i < |leaders| :: gs[i] == GroupOf(leaders[i], ds)
  {
    Map(leaders, l => GroupOf(l, ds))
  }

  /** `_group_by_days` */
  function GroupedByDays(daySchedules: seq<DaySchedule>): seq<ScheduleItem> {
    var ds := Sort(daySchedules, StartsNoLater);
    Sort(GroupsOf(Leaders(ds), ds), LastsNoLess)
  }

  lemma GroupIsListed(l: DaySchedule, leaders: seq<DaySchedule>, ds: seq<DaySchedule>)
    requires l in leaders
    ensures GroupOf(l, ds) in GroupsOf(leaders, ds)
  {
    var i :| 0 <= i < |leaders| && leaders[i] == l;
    assert GroupsOf(leaders, ds)[i] == GroupOf(l, ds);
  }

  lemma LeadersGroupIsResult(daySchedules: seq<DaySchedule>, l: DaySchedule)
    requires l in Leaders(Sort(daySchedules, StartsNoLater))
    ensures GroupOf(l, Sort(daySchedules, StartsNoLater)) in GroupedByDays(daySchedules)
  {
    var ds := Sort(daySchedules, StartsNoLater);
    var leaders := Leaders(ds);
    GroupIsListed(l, leaders, ds);
    SortMembers(GroupsOf(leaders, ds), LastsNoLess);
  }

  lemma NextLeader(ds: seq<DaySchedule>, n: nat)
    requires n < |ds|
    ensures Leaders(ds[..n + 1]) ==
            if HasSimilar(Leaders(ds[..n]), ds[n]) then Leaders(ds[..n]) else Leaders(ds[..n]) + [ds[n]]
  {
    assert ds[..n + 1][..n] == ds[..n];
  }

  /** `processed` holds exactly the schedules similar to a leader so far, `keys` only leaders' times. */
  ghost predicate Tracks(processed: seq<DaySchedule>, keys: seq<(Minute, Option<Minute>)>,
                         leaders: seq<DaySchedule>, ds: seq<DaySchedule>) {
    && (forall d :: d in processed <==> d in ds && HasSimilar(leaders, d))
    && (forall key | key in keys :: exists l | l in leaders :: key == (l.start, l.stop))
  }

  lemma TracksNext(processed: seq<DaySchedule>, keys: seq<(Minute, Option<Minute>)>,
                   leaders: seq<DaySchedule>, ds: seq<DaySchedule>, l: DaySchedule)
    requires Tracks(processed, keys, leaders, ds)
    ensures Tracks(processed + Members(l, ds), keys + [(l.start, l.stop)], leaders + [l], ds)
  {
    forall d ensures HasSimilar(leaders + [l], d) <==> HasSimilar(leaders, d) || Similar(l, d) {
      if HasSimilar(leaders, d) {
        var k :| k in leaders && Similar(k, d);
        assert k in leaders + [l];
      }
      assert l in leaders + [l];
    }
    forall key | key in keys + [(l.start, l.stop)] ensures exists k | k in leaders + [l] :: key == (k.start, k.stop) {
      if key in keys {
        var k :| k in leaders && key == (k.start, k.stop);
        assert k in leaders + [l];
      } else {
        assert l in leaders + [l];
      }
    }
  }

  /** The two tests of the loop together ask whether the schedule is similar to a leader. */
  lemma SkipsIfLed(processed: seq<DaySchedule>, keys: seq<(Minute, Option<Minute>)>,
                   leaders: seq<DaySchedule>, ds: seq<DaySchedule>, d: DaySchedule)
    requires Tracks(processed, keys, leaders, ds) && d in ds
    ensures d in processed || (d.start, d.stop) in keys <==> HasSimilar(leaders, d)
  {
    if (d.start, d.stop) in keys {
      var l :| l in leaders && (d.start, d.stop) == (l.start, l.stop);
      assert Similar(l, d);
    }
  }

  lemma LeaderGroup(l: DaySchedule, ds: seq<DaySchedule>)
    requires l in ds
    ensures Members(l, ds) != []
    ensures GroupOf(l, ds) == Grouped(Members(l, ds), LeastStart(Members(l, ds)), GreatestStop(Members(l, ds)))
  {
    hide Grouped;
    assert l in Members(l, ds);
  }

  lemma GroupsNext(leaders: seq<DaySchedule>, ds: seq<DaySchedule>, l: DaySchedule)
    ensures GroupsOf(leaders + [l], ds) == GroupsOf(leaders, ds) + [GroupOf(l, ds)]
  {
    hide GroupsOf, GroupOf;
  }

  lemma NothingTracked(ds: seq<DaySchedule>)
    ensures Leaders(ds[..0]) == [] && GroupsOf([], ds) == [] && Tracks([], [], [], ds)
    ensures ds[..|ds|] == ds
  {}

  // ----- the method

  /** The body of the loop for a schedule that opens a group. */
  method OpenGroup(daySchedule: DaySchedule, ds: seq<DaySchedule>) returns (same: seq<DaySchedule>, group: DaySchedule)
    requires daySchedule in ds
    ensures same == Members(daySchedule, ds) && group == GroupOf(daySchedule, ds)
  {
    LeaderGroup(daySchedule, ds);
    hide Members, Grouped, GroupOf, LeastStart, GreatestStop, IsLeastStart, IsGreatestStop;
    same := Members(daySchedule, ds);
    var start, stop := GetCommonStartStop(same);
    group := Grouped(same, start, stop);
  }

  method GroupByDays(daySchedules: seq<DaySchedule>) returns (result: seq<ScheduleItem>)
    ensures result == GroupedByDays(daySchedules)
  {
    hide Sort, Members, GroupOf, GroupsOf, Leaders, Tracks, HasSimilar, Similar;
    var ds := Sort(daySchedules, StartsNoLater);
    NothingTracked(ds);
    var grouped: seq<ScheduleItem>, processed: seq<DaySchedule> := [], [];
    var processedPeriods: seq<(Minute, Option<Minute>)> := [];
    ghost var leaders: seq<DaySchedule> := [];
    for n := 0 to |ds|
      invariant leaders == Leaders(ds[..n])
      invariant grouped == GroupsOf(leaders, ds)
      invariant Tracks(processed, processedPeriods, leaders, ds)
    {
      var daySchedule := ds[n];
      var periodKey := (daySchedule.start, daySchedule.stop);
      NextLeader(ds, n);
      SkipsIfLed(processed, processedPeriods, leaders, ds, daySchedule);
      if daySchedule in processed {
        continue;
      }
      if periodKey in processedPeriods {
        continue;
      }
      GroupsNext(leaders, ds, daySchedule);
      TracksNext(processed, processedPeriods, leaders, ds, daySchedule);
      var same, group := OpenGroup(daySchedule, ds);
      processed := processed + same;
      grouped := grouped + [group];
      processedPeriods := processedPeriods + [periodKey];
      leaders := leaders + [daySchedule];
    }
    result := Sort(grouped, LastsNoLess);
  }

  // ----- what the grouping guarantees

  /** No two leaders are similar. */
  lemma {:induction false} LeadersDissimilar(ds: seq<DaySchedule>)
    ensures forall i, j | 0 <= i < j < |Leaders(ds)| :: !Similar(Leaders(ds)[i], Leaders(ds)[j])
  {
    if ds != [] {
      LeadersDissimilar(ds[..|ds| - 1]);
      var earlier := Leaders(ds[..|ds| - 1]);
      assert forall i | 0 <= i < |earlier| :: earlier[i] in earlier;
    }
  }

  lemma {:induction false} EarlierLeader(ds: seq<DaySchedule>, d: DaySchedule) returns (l: DaySchedule)
    requires SortedBy(ds, StartsNoLater) && d in ds
    ensures l in Leaders(ds) && Similar(l, d) && l.start <= d.start
  {
    var front, last := ds[..|ds| - 1], ds[|ds| - 1];
    assert ds == front + [last];
    if d in front {
      l := EarlierLeader(front, d);
    } else if HasSimilar(Leaders(front), last) {
      l :| l in Leaders(front) && Similar(l, last);
      var i :| 0 <= i < |front| && front[i] == l;
      assert StartsNoLater(ds[i], last);
    } else {
      l := last;
    }
  }

  lemma StartsNoLaterIsTotal()
    ensures TotalPreorder(StartsNoLater)
  {}

  /** The first to start leads: every schedule is grouped with a leader that starts no later. */
  lemma LeaderStartsFirst(daySchedules: seq<DaySchedule>, d: DaySchedule) returns (l: DaySchedule)
    requires d in daySchedules
    ensures l in Leaders(Sort(daySchedules, StartsNoLater)) && d in Members(l, Sort(daySchedules, StartsNoLater))
    ensures GroupOf(l, Sort(daySchedules, StartsNoLater)) in GroupedByDays(daySchedules)
    ensures l.start <= d.start
  {
    hide Leaders, Similar, GroupOf, GroupedByDays;
    var ds := Sort(daySchedules, StartsNoLater);
    StartsNoLaterIsTotal();
    SortSorted(daySchedules, StartsNoLater);
    SortMembers(daySchedules, StartsNoLater);
    l := EarlierLeader(ds, d);
    LeadersGroupIsResult(daySchedules, l);
  }

  lemma LastsNoLessIsTotal()
    ensures TotalPreorder(LastsNoLess)
  {}

  /** The minutes of a week an item lasts; a stop at midnight is the end of the day. */
  ghost predicate LastsFor(s: ScheduleItem, minutes: int) {
    && s.stop.Some?
    && minutes == ((if s.stop.value == 0 then 1440 else s.stop.value) - s.start) *
                  if s.weekdays == [] then 1 else |s.weekdays|
  }

  /** The groups come by falling duration, all weekdays taken together. */
  lemma LongestComeFirst(daySchedules: seq<DaySchedule>, i: nat, j: nat, a: int, b: int)
    requires i < j < |GroupedByDays(daySchedules)|
    requires LastsFor(GroupedByDays(daySchedules)[i], a) && LastsFor(GroupedByDays(daySchedules)[j], b)
    ensures a >= b
  {
    hide Sort, Leaders, GroupsOf, DurationMinutes, LastsFor, TotalPreorder;
    var ds := Sort(daySchedules, StartsNoLater);
    LastsNoLessIsTotal();
    SortSorted(GroupsOf(Leaders(ds), ds), LastsNoLess);
    var result := GroupedByDays(daySchedules);
    DurationIs(result[i], a);
    DurationIs(result[j], b);
    assert LastsNoLess(result[i], result[j]);
  }

  lemma DurationIs(s: ScheduleItem, minutes: int)
    requires LastsFor(s, minutes)
    ensures DurationMinutes(s) == minutes
  {}

  /** The probability of a group is the mean of its members' to two decimals. */
  lemma GroupProbabilityIs(leader: DaySchedule, ds: seq<DaySchedule>)
    requires leader in ds
    ensures Members(leader, ds) != []
    ensures var members := Members(leader, ds);
            var mean := FrequencyMaps.Sum(ProbabilitiesOf(members)) / |members| as real;
            mean - 0.005 <= GroupOf(leader, ds).probability.value <= mean + 0.005
  {
    LeaderGroup(leader, ds);
    hide Members, GroupOf, Rounding.Round2;
    assert |ProbabilitiesOf(Members(leader, ds))| == |Members(leader, ds)|;
  }

  /** Every schedule is similar to some leader. */
  lemma {:induction false} EveryScheduleIsLed(ds: seq<DaySchedule>, d: DaySchedule)
    requires d in ds
    ensures HasSimilar(Leaders(ds), d)
  {
    var last := ds[|ds| - 1];
    if HasSimilar(Leaders(ds[..|ds| - 1]), last) && d != last {
      assert d in ds[..|ds| - 1];
      EveryScheduleIsLed(ds[..|ds| - 1], d);
    } else if d == last {
      if !HasSimilar(Leaders(ds[..|ds| - 1]), last) {
        assert last in Leaders(ds);
      }
    } else {
      assert d in ds[..|ds| - 1];
      EveryScheduleIsLed(ds[..|ds| - 1], d);
      var l :| l in Leaders(ds[..|ds| - 1]) && Similar(l, d);
      assert l in Leaders(ds);
    }
  }

  /** Neither end of a group is more than twice the grouping difference from the same end of any
      member, by clock time. */
  lemma GroupWidensLittle(leader: DaySchedule, ds: seq<DaySchedule>, d: DaySchedule)
    requires leader in ds && d in Members(leader, ds)
    ensures var g := GroupOf(leader, ds);
            && 0 <= (d.start - g.start) * 60 <= 2 * MAX_GROUPING_DIFFERENCE_SECONDS
            && 0 <= (g.stop.value - d.stop.value) * 60 <= 2 * MAX_GROUPING_DIFFERENCE_SECONDS
  {
    GroupSpans(leader, ds);
    SpanWidensLittle(leader, GroupOf(leader, ds), Members(leader, ds), d);
  }

  lemma SpanWidensLittle(leader: DaySchedule, g: DaySchedule, members: seq<DaySchedule>, d: DaySchedule)
    requires Spans(g, members) && d in members && forall m | m in members :: Similar(leader, m)
    ensures 0 <= (d.start - g.start) * 60 <= 2 * MAX_GROUPING_DIFFERENCE_SECONDS
    ensures 0 <= (g.stop.value - d.stop.value) * 60 <= 2 * MAX_GROUPING_DIFFERENCE_SECONDS
  {
    var i :| 0 <= i < |members| && members[i].start == g.start;
    var j :| 0 <= j < |members| && members[j].stop.value == g.stop.value;
    assert members[i] in members && members[j] in members;
    var k :| 0 <= k < |members| && members[k] == d;
  }

  /** A grouped item covers a schedule: all its weekdays, starting no later, stopping no earlier,
      with `'00:00'` as the end of the day. */
  predicate CoversSchedule(g: ScheduleItem, d: DaySchedule) {
    && g.stop.Some?
    && (forall day | day in d.weekdays :: day in g.weekdays)
    && g.start <= d.start
    && EndOf(g.stop.value) >= EndOf(d.stop.value)
  }

  /** A group holding both an open-ended schedule and one that stops during the day. */
  ghost predicate Mixed(members: seq<DaySchedule>) {
    exists d, e :: d in members && e in members && d.stop == Some(0) && e.stop != Some(0)
  }

  /** A group covers all of its members exactly when it is not mixed. */
  lemma GroupCoversIffUnmixed(leader: DaySchedule, ds: seq<DaySchedule>)
    requires leader in ds
    ensures (forall d | d in Members(leader, ds) :: CoversSchedule(GroupOf(leader, ds), d)) <==>
            !Mixed(Members(leader, ds))
  {
    GroupSpans(leader, ds);
    SpanCoversIffUnmixed(GroupOf(leader, ds), Members(leader, ds));
  }

  lemma SpanCoversIffUnmixed(g: DaySchedule, members: seq<DaySchedule>)
    requires Spans(g, members)
    ensures (forall d | d in members :: CoversSchedule(g, d)) <==> !Mixed(members)
  {
    var j :| 0 <= j < |members| && members[j].stop.value == g.stop.value;
    assert members[j] in members;
    forall d | d in members ensures d.stop.value <= g.stop.value && g.start <= d.start {
      var k :| 0 <= k < |members| && members[k] == d;
    }
    if Mixed(members) {
      var d, e :| d in members && e in members && d.stop == Some(0) && e.stop != Some(0);
      assert e.stop.value <= g.stop.value;
      assert !CoversSchedule(g, d);
    }
  }

  /** What `get_day_schedule` lets through for a minimum duration: one weekday, ending after it starts, long enough. */
  ghost predicate Admissible(ds: seq<DaySchedule>, minimumDuration: int) {
    forall d | d in ds :: |d.weekdays| == 1 && d.start < EndOf(d.stop.value) && DurationMinutes(d) >= minimumDuration
  }

  ghost predicate AllCovered(ds: seq<DaySchedule>) {
    forall d | d in ds :: exists g :: g in GroupedByDays(ds) && CoversSchedule(g, d)
  }

  lemma LongSchedulesNeverMix(leader: DaySchedule, ds: seq<DaySchedule>, minimumDuration: int)
    requires Admissible(ds, minimumDuration) && minimumDuration > 60 && leader in ds
    ensures !Mixed(Members(leader, ds))
  {
    forall s | s in ds && s.stop.value != 0 ensures s.stop.value > 60 {
      assert DurationMinutes(s) == s.stop.value - s.start;
    }
  }

  lemma AllCoveredWhenLong(daySchedules: seq<DaySchedule>, minimumDuration: int)
    requires Admissible(daySchedules, minimumDuration) && minimumDuration > 60
    ensures AllCovered(daySchedules)
  {
    var ds := Sort(daySchedules, StartsNoLater);
    SortMembers(daySchedules, StartsNoLater);
    forall d | d in daySchedules ensures exists g :: g in GroupedByDays(daySchedules) && CoversSchedule(g, d) {
      EveryScheduleIsLed(ds, d);
      var l :| l in Leaders(ds) && Similar(l, d);
      LongSchedulesNeverMix(l, ds, minimumDuration);
      GroupCoversIffUnmixed(l, ds);
      assert d in Members(l, ds);
      LeadersGroupIsResult(daySchedules, l);
    }
  }

  lemma ResultIsLeadersGroup(daySchedules: seq<DaySchedule>, g: ScheduleItem) returns (l: DaySchedule)
    requires g in GroupedByDays(daySchedules)
    ensures l in daySchedules && l in Leaders(Sort(daySchedules, StartsNoLater))
    ensures g == GroupOf(l, Sort(daySchedules, StartsNoLater))
  {
    var ds := Sort(daySchedules, StartsNoLater);
    var groups := GroupsOf(Leaders(ds), ds);
    SortMembers(groups, LastsNoLess);
    SortMembers(daySchedules, StartsNoLater);
    var i :| 0 <= i < |groups| && groups[i] == g;
    l := Leaders(ds)[i];
  }

  /** Monday 00:00-01:00 and Tuesday open-ended from 00:00: both as long as an hour. */
  const HOUR_AFTER_MIDNIGHT: DaySchedule := ScheduleItem([0], 0, Some(60), Some(0.0))
  const WHOLE_DAY: DaySchedule := ScheduleItem([1], 0, Some(0), Some(0.0))

  lemma HourCutsWholeDay(g: DaySchedule, members: seq<DaySchedule>)
    requires Spans(g, members) && HOUR_AFTER_MIDNIGHT in members
    requires forall d | d in members :: d == HOUR_AFTER_MIDNIGHT || d == WHOLE_DAY
    ensures !CoversSchedule(g, WHOLE_DAY)
  {
    var k :| 0 <= k < |members| && members[k] == HOUR_AFTER_MIDNIGHT;
    var j :| 0 <= j < |members| && members[j].stop.value == g.stop.value;
    assert members[j] in members;
  }

  /** On the clock the two stops are an hour apart, so they are grouped, and the group stops at 01:00. */
  lemma WholeDayIsLost(both: seq<DaySchedule>)
    requires HOUR_AFTER_MIDNIGHT in both && WHOLE_DAY in both
    requires forall d | d in both :: d == HOUR_AFTER_MIDNIGHT || d == WHOLE_DAY
    ensures !AllCovered(both)
  {
    var ds := Sort(both, StartsNoLater);
    SortMembers(both, StartsNoLater);
    assert Similar(WHOLE_DAY, HOUR_AFTER_MIDNIGHT);
    forall g | g in GroupedByDays(both) ensures !CoversSchedule(g, WHOLE_DAY) {
      var l := ResultIsLeadersGroup(both, g);
      GroupSpans(l, ds);
      HourCutsWholeDay(g, Members(l, ds));
    }
  }

  /** Every schedule is covered, whatever the schedules, exactly when the minimum day duration exceeds an hour. */
  lemma AllCoveredIffLong(minimumDuration: int)
    ensures (forall ds | Admissible(ds, minimumDuration) :: AllCovered(ds)) <==> minimumDuration > 60
  {
    if minimumDuration > 60 {
      forall ds | Admissible(ds, minimumDuration) ensures AllCovered(ds) {
        AllCoveredWhenLong(ds, minimumDuration);
      }
    } else {
      var both := [HOUR_AFTER_MIDNIGHT, WHOLE_DAY];
      WholeDayIsLost(both);
      assert Admissible(both, minimumDuration);
    }
  }

  /** Schedules that differ in the weekday only become one item. */
  lemma SameTimesMakeOneGroup(ds: seq<DaySchedule>, start: Minute, stop: Minute)
    requires ds != [] && forall d | d in ds :: d.start == start && d.stop == Some(stop)
    ensures GroupedByDays(ds) == [Grouped(ds, start, stop)]
  {
    hide Members, Grouped, Leaders, Sort, LeastStart, GreatestStop, GroupOf;
    assert ds[0] in ds;
    OneLeader(ds, start, stop);
    AllAreMembers(ds[0], ds);
    SameTimesSpan(ds, start, stop);
    SameStartsAreSorted(ds, start);
    LeaderGroup(ds[0], ds);
    assert GroupsOf([ds[0]], ds) == [GroupOf(ds[0], ds)];
    SortOfOne(GroupOf(ds[0], ds));
  }

  lemma SameStartsAreSorted(ds: seq<DaySchedule>, start: Minute)
    requires forall d | d in ds :: d.start == start
    ensures Sort(ds, StartsNoLater) == ds
  {
    forall i, j | 0 <= i < j < |ds| ensures StartsNoLater(ds[i], ds[j]) {
      assert ds[i] in ds && ds[j] in ds;
    }
    SortOfSorted(ds, StartsNoLater);
  }

  lemma SortOfOne(s: ScheduleItem)
    ensures Sort([s], LastsNoLess) == [s]
  {}

  lemma SameTimesSpan(ds: seq<DaySchedule>, start: Minute, stop: Minute)
    requires ds != [] && forall d | d in ds :: d.start == start && d.stop == Some(stop)
    ensures LeastStart(ds) == start && GreatestStop(ds) == stop
  {
    var i :| 0 <= i < |ds| && ds[i].start == LeastStart(ds);
    var j :| 0 <= j < |ds| && ds[j].stop.value == GreatestStop(ds);
    assert ds[i] in ds && ds[j] in ds;
  }

  lemma AllAreMembers(l: DaySchedule, ds: seq<DaySchedule>)
    requires forall d | d in ds :: Similar(l, d)
    ensures Members(l, ds) == ds
  {
    FilterAll(ds, d => Similar(l, d));
  }

  lemma {:induction false} OneLeader(ds: seq<DaySchedule>, start: Minute, stop: Minute)
    requires ds != [] && forall d | d in ds :: d.start == start && d.stop == Some(stop)
    ensures Leaders(ds) == [ds[0]]
  {
    var front := ds[..|ds| - 1];
    if front == [] {
      assert Leaders(front) == [];
      assert ds == [ds[0]];
    } else {
      OneLeader(front, start, stop);
      assert ds[|ds| - 1] in ds && ds[0] in ds;
      assert Similar(ds[0], ds[|ds| - 1]);
      assert front[0] in Leaders(front);
    }
  }
}
