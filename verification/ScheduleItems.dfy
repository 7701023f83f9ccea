/** A schedule entry: some weekdays and a start and stop time of day.

    Times are minutes after midnight, printed by the code as `%H:%M`; TimeTexts
    proves that the printed form loses nothing. The stop time 0 (`'00:00'`) stands for the end of the day. */
module ScheduleItems {
  import opened Wrappers
  import Rounding

  const MINUTES_IN_DAY := 1440
  /** `'23:50'` */
  const LAST_POINT_TEXT := 1430

  type Minute = m: nat | m < MINUTES_IN_DAY
  /** 0 is Monday, as in WEEK_DAYS. */
  type Weekday = d: nat | d < 7

  const WEEK_DAYS: seq<Weekday> := [0, 1, 2, 3, 4, 5, 6]

  datatype ScheduleItem = ScheduleItem(
    weekdays: seq<Weekday>, start: Minute, stop: Option<Minute>, probability: Option<real>)

  /** An item `get_day_schedule` lets through: filled and given a probability. */
  type DaySchedule = s: ScheduleItem | s.stop.Some? && s.probability.Some?
    witness ScheduleItem([], 0, Some(0), Some(0.0))

  /** The entry as it leaves the generator; a probability of zero is left out. */
  datatype ScheduleEntry = ScheduleEntry(
    weekdays: seq<Weekday>, start: Minute, stop: Minute, probability: Option<real>)

  /** A stop time on the 24-hour axis. */
  function EndOf(stop: Minute): int {
    if stop == 0 then MINUTES_IN_DAY else stop
  }

  function DurationMinutes(s: ScheduleItem): int {
    if s.stop.None? then 0
    else
      var minutes := EndOf(s.stop.value) - s.start;
      if s.weekdays != [] then minutes * |s.weekdays| else minutes
  }

  /** Distances are taken on the clock, so a stop at `'00:00'` counts as 0, not as 24:00. */
  predicate IsSimilar(a: DaySchedule, b: DaySchedule, maxDiffSeconds: int) {
    && Rounding.Abs(a.start - b.start) * 60 <= maxDiffSeconds
    && Rounding.Abs(a.stop.value - b.stop.value) * 60 <= maxDiffSeconds
  }

  function AsEntry(s: DaySchedule): ScheduleEntry {
    ScheduleEntry(s.weekdays, s.start,
                  if s.stop.value == 0 then LAST_POINT_TEXT else s.stop.value,
                  if s.probability == Some(0.0) then None else s.probability)
  }

  ghost predicate IsLeastStart(m: int, items: seq<DaySchedule>) {
    (exists i :: 0 <= i < |items| && items[i].start == m) && forall i | 0 <= i < |items| :: m <= items[i].start
  }

  ghost predicate IsGreatestStop(m: int, items: seq<DaySchedule>) {
    && (exists i :: 0 <= i < |items| && items[i].stop.value == m)
    && forall i | 0 <= i < |items| :: items[i].stop.value <= m
  }

  function LeastStart(items: seq<DaySchedule>): (m: Minute)
    requires items != []
    ensures IsLeastStart(m, items)
  {
    var last := items[|items| - 1].start;
    if |items| == 1 then last
    else
      var front := items[..|items| - 1];
      var m := LeastStart(front);
      assert forall i | 0 <= i < |front| :: front[i] == items[i];
      if last < m then last else m
  }

  /** The greatest stop on the clock: `'00:00'` is the smallest stop of all. */
  function GreatestStop(items: seq<DaySchedule>): (m: Minute)
    requires items != []
    ensures IsGreatestStop(m, items)
  {
    var last := items[|items| - 1].stop.value;
    if |items| == 1 then last
    else
      var front := items[..|items| - 1];
      var m := GreatestStop(front);
      assert forall i | 0 <= i < |front| :: front[i] == items[i];
      if last > m then last else m
  }

  method GetCommonStartStop(items: seq<DaySchedule>) returns (start: Minute, stop: Minute)
    requires items != []
    ensures start == LeastStart(items) && stop == GreatestStop(items)
    ensures IsLeastStart(start, items) && IsGreatestStop(stop, items)
  {
    var minStart: Option<Minute> := None;
    var maxStop: Option<Minute> := None;
    for i := 0 to |items|
      invariant i == 0 ==> minStart.None? && maxStop.None?
      invariant i > 0 ==> minStart.Some? && IsLeastStart(minStart.value, items[..i])
      invariant i > 0 ==> maxStop.Some? && IsGreatestStop(maxStop.value, items[..i])
    {
      assert items[..i + 1] == items[..i] + [items[i]];
      ghost var oldStart, oldStop := minStart, maxStop;
      ghost var k := if i > 0 then (var k :| 0 <= k < i && items[..i][k].start == minStart.value; k) else i;
      ghost var l := if i > 0 then (var l :| 0 <= l < i && items[..i][l].stop.value == maxStop.value; l) else i;
      if minStart.None? || items[i].start < minStart.value {
        minStart := Some(items[i].start);
        k := i;
      }
      if maxStop.None? || items[i].stop.value > maxStop.value {
        maxStop := Some(items[i].stop.value);
        l := i;
      }
      assert items[..i + 1][k].start == minStart.value && items[..i + 1][l].stop.value == maxStop.value;
    }
    assert items[..|items|] == items;
    start, stop := minStart.value, maxStop.value;
  }
}
