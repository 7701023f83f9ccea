/** `get_runtime_minutes`: how long a schedule keeps an instance up in a week. */
module Runtimes {
  import opened Wrappers
  import opened ScheduleItems
  import opened TimePoints
  import opened FrequencyMaps

  const RUNTIME_STEP := 5

  predicate OnFiveMinutes(e: ScheduleEntry) {
    e.start % RUNTIME_STEP == 0 && e.stop % RUNTIME_STEP == 0
  }

  /** The minutes from start up to stop; a stop at midnight is the first point of the day, not its end. */
  function DayMinutes(e: ScheduleEntry): int {
    if e.start < e.stop then e.stop - e.start else 0
  }

  function Runtime(schedule: seq<ScheduleEntry>): (minutes: int)
    ensures minutes >= 0
  {
    if schedule == [] then 0
    else
      var last := schedule[|schedule| - 1];
      Runtime(schedule[..|schedule| - 1]) + DayMinutes(last) * |last.weekdays|
  }

  /** None where a start or stop is off the five-minute grid and the lookup raises. */
  function RuntimeOf(schedule: seq<ScheduleEntry>): Option<int> {
    if forall e | e in schedule :: OnFiveMinutes(e) then Some(Runtime(schedule)) else None
  }

  lemma FivePoint(m: Minute)
    ensures var points := DayTimePoints(RUNTIME_STEP);
            (m in points <==> m % RUNTIME_STEP == 0) && (m in points ==> IndexOf(points, m) * RUNTIME_STEP == m)
  {
    var points := DayTimePoints(RUNTIME_STEP);
    assert PointCount(RUNTIME_STEP) == 288;
    hide DayTimePoints, IndexOf;
    if m % RUNTIME_STEP == 0 {
      assert points[m / RUNTIME_STEP] == m;
    }
    if m in points {
      assert points[IndexOf(points, m)] == m;
    }
  }

  /** The five-minute points sliced from start to stop make up the minutes between them. */
  lemma CoveredPoints(e: ScheduleEntry)
    requires OnFiveMinutes(e)
    ensures var points := DayTimePoints(RUNTIME_STEP);
            && e.start in points && e.stop in points
            && |Slice(points, IndexOf(points, e.start), IndexOf(points, e.stop))| * RUNTIME_STEP == DayMinutes(e)
  {
    hide DayTimePoints, IndexOf;
    FivePoint(e.start);
    FivePoint(e.stop);
  }

  method GetRuntimeMinutes(schedule: seq<ScheduleEntry>) returns (runtime: Option<int>)
    ensures runtime == RuntimeOf(schedule)
  {
    hide IndexOf, Slice, OnFiveMinutes, DayMinutes;
    var minutes := 0;
    var points := GetDayTimePoints(RUNTIME_STEP);
    for i := 0 to |schedule|
      invariant minutes == Runtime(schedule[..i])
      invariant forall e | e in schedule[..i] :: OnFiveMinutes(e)
    {
      var part := schedule[i];
      assert schedule[..i + 1] == schedule[..i] + [part];
      assert part in schedule;
      OffTheGrid(part);
      if part.start !in points || part.stop !in points {
        return None;
      }
      CoveredPoints(part);
      var covered := |Slice(points, IndexOf(points, part.start), IndexOf(points, part.stop))|;
      minutes := minutes + covered * RUNTIME_STEP * |part.weekdays|;
    }
    assert schedule[..|schedule|] == schedule;
    runtime := Some(minutes);
  }

  lemma OffTheGrid(e: ScheduleEntry)
    ensures var points := DayTimePoints(RUNTIME_STEP);
            OnFiveMinutes(e) <==> e.start in points && e.stop in points
  {
    FivePoint(e.start);
    FivePoint(e.stop);
  }
}
