/** Autoscaling groups: the target instance type, the scaling direction and the scale step. */
module Autoscaling {
  import opened Wrappers
  import opened Rounding
  import opened Actions

  // ----- thresholds

  datatype LoadThresholds = LoadThresholds(min: int, desired: int, max: int)

  /** A whole number, `'AUTO_DETECT'`, or any other text. */
  datatype ScaleStep = Fixed(step: int) | AutoDetect | OtherText

  datatype GroupPolicy = GroupPolicy(thresholds: Option<LoadThresholds>, scaleStep: ScaleStep)

  /** `_get_autoscaling_thresholds`: the policy's own, or the algorithm's with the rounded middle as the aim. */
  function ThresholdsOf(policy: GroupPolicy, low: int, high: int): LoadThresholds {
    if policy.thresholds.Some? then policy.thresholds.value
    else LoadThresholds(low, Round((low + high) as real / 2.0), high)
  }

  /** The load aimed at: the policy's own number, or the middle of the algorithm's limits, of which the even
      one of two is taken. */
  ghost predicate IsAim(aim: int, policy: GroupPolicy, low: int, high: int) {
    if policy.thresholds.Some? then aim == policy.thresholds.value.desired
    else if (low + high) % 2 == 0 then 2 * aim == low + high
    else aim % 2 == 0 && -1 <= 2 * aim - (low + high) <= 1
  }

  /** The loads from which a group is scaled down and up. */
  ghost predicate AreLimits(min: int, max: int, policy: GroupPolicy, low: int, high: int) {
    match policy.thresholds
    case Some(own) => min == own.min && max == own.max
    case None => min == low && max == high
  }

  lemma ThresholdsAre(policy: GroupPolicy, low: int, high: int)
    ensures var t := ThresholdsOf(policy, low, high);
            AreLimits(t.min, t.max, policy, low, high) && IsAim(t.desired, policy, low, high)
  {
    if policy.thresholds.None? {
      MiddleIs(low + high);
    }
  }

  lemma MiddleIs(sum: int)
    ensures sum % 2 == 0 ==> Round(sum as real / 2.0) == sum / 2
    ensures sum % 2 == 1 ==> Round(sum as real / 2.0) == if sum / 2 % 2 == 0 then sum / 2 else sum / 2 + 1
  {
    if sum % 2 == 0 {
      assert sum as real / 2.0 == (sum / 2) as real;
      RoundOfInteger(sum / 2);
    } else {
      assert sum as real / 2.0 == (sum / 2) as real + 0.5;
      assert (sum as real / 2.0).Floor == sum / 2;
    }
  }

  ghost predicate WellPlaced(t: LoadThresholds) {
    0 <= t.min < t.desired < t.max <= 100
  }

  /** The rounded middle lies strictly between the algorithm's thresholds exactly when they are two apart. */
  lemma MiddleIsInsideIff(low: int, high: int, policy: GroupPolicy)
    requires policy.thresholds.None?
    ensures var t := ThresholdsOf(policy, low, high);
            t.min < t.desired < t.max <==> high - low >= 2
  {
    ThresholdsAre(policy, low, high);
  }

  // ----- the scale step

  function Total(loads: seq<real>): real {
    if loads == [] then 0.0 else Total(loads[..|loads| - 1]) + loads[|loads| - 1]
  }

  /** The reserve factor for the desired load, rounded to two decimals. */
  function Reserve(desired: int): real
    requires desired != 0
  {
    Round2(100.0 / desired as real)
  }

  /** A load percentage of an amount. */
  function Share(load: real, size: real): real {
    load * size / 100.0
  }

  /** The instances that would carry the total load at the desired load each. */
  function DesiredCount(loads: seq<real>, desired: int): int
    requires desired != 0
  {
    Round(Share(Total(loads), Reserve(desired)))
  }

  function StepFor(loads: seq<real>, desired: int, scaleStep: ScaleStep): int
    requires desired != 0
  {
    if scaleStep.Fixed? then scaleStep.step else Abs(|loads| - DesiredCount(loads, desired))
  }

  /** The distance between the instances there are and those wanted. */
  ghost predicate IsDistance(step: int, count: int, desired: int) {
    step == if desired >= count then desired - count else count - desired
  }

  /** The desired count in numbers: the total load times the reserve factor, which is 100 over the aim to two
      decimals, to the nearest whole instance. */
  lemma DesiredCountIs(loads: seq<real>, desired: int) returns (reserve: real)
    requires desired >= 1
    ensures 100.0 / desired as real - 0.005 <= reserve <= 100.0 / desired as real + 0.005
    ensures var used := Total(loads) * reserve;
            used / 100.0 - 0.5 <= DesiredCount(loads, desired) as real <= used / 100.0 + 0.5
  {
    hide Round2, Round, Total;
    reserve := Reserve(desired);
    var wanted := Share(Total(loads), reserve);
    assert DesiredCount(loads, desired) == Round(wanted);
    hide Reserve, DesiredCount;
    assert wanted == Total(loads) * reserve / 100.0;
  }

  /** The instances of one size that hold the used amount with the reserve. */
  function Instances(used: real, reserve: real, size: real): real
    requires size != 0.0
  {
    used * reserve / size
  }

  /** The size of the shape cancels. */
  lemma SizeCancels(total: real, reserve: real, size: real)
    requires size != 0.0
    ensures Instances(Share(total, size), reserve, size) == Share(total, reserve)
  {
    var used := Share(total, size);
    assert used * 100.0 == total * size;
    var count := Instances(used, reserve, size);
    assert count * size == used * reserve;
    assert (count * 100.0) * size == (total * reserve) * size;
    CancelFactor(count * 100.0, total * reserve, size);
  }

  lemma CancelFactor(a: real, b: real, size: real)
    requires size != 0.0 && a * size == b * size
    ensures a == b
  {
    assert (a - b) * size == 0.0;
  }

  lemma ShareAdds(a: real, b: real, size: real)
    ensures Share(a + b, size) == Share(a, size) + Share(b, size)
    ensures Share(0.0, size) == 0.0
  {}

  /** The step is independent of the shape's CPU and memory, which enter and cancel again. */
  method GetScaleStep(loads: seq<real>, thresholds: LoadThresholds, scaleStep: ScaleStep, cpu: real, memory: real)
    returns (step: int)
    requires cpu != 0.0 && memory != 0.0 && thresholds.desired != 0
    ensures step == StepFor(loads, thresholds.desired, scaleStep)
  {
    if scaleStep.Fixed? {
      return scaleStep.step;
    }
    hide Share, Instances, Reserve, Round;
    var totalCpu, totalMemory := 0.0, 0.0;
    ShareAdds(0.0, 0.0, cpu);
    ShareAdds(0.0, 0.0, memory);
    for i := 0 to |loads|
      invariant totalCpu == Share(Total(loads[..i]), cpu)
      invariant totalMemory == Share(Total(loads[..i]), memory)
    {
      assert loads[..i + 1][..i] == loads[..i];
      ShareAdds(Total(loads[..i]), loads[i], cpu);
      ShareAdds(Total(loads[..i]), loads[i], memory);
      totalCpu := totalCpu + Share(loads[i], cpu);
      totalMemory := totalMemory + Share(loads[i], memory);
    }
    assert loads[..|loads|] == loads;
    var reserve := Reserve(thresholds.desired);
    var byCpu := Instances(totalCpu, reserve, cpu);
    var byMemory := Instances(totalMemory, reserve, memory);
    SizeCancels(Total(loads), reserve, cpu);
    SizeCancels(Total(loads), reserve, memory);
    step := Abs(|loads| - Round((byCpu + byMemory) / 2.0));
  }

  // ----- the direction survives both roundings

  lemma ReserveBounds(desired: int)
    requires 1 <= desired
    ensures 100.0 - 0.005 * desired as real <= Reserve(desired) * desired as real <= 100.0 + 0.005 * desired as real
  {
    hide Round2;
    QuotientBounds(desired as real, Reserve(desired));
  }

  lemma QuotientBounds(d: real, r: real)
    requires d > 0.0 && 100.0 / d - 0.005 <= r <= 100.0 / d + 0.005
    ensures 100.0 - 0.005 * d <= r * d <= 100.0 + 0.005 * d
  {
    var q := 100.0 / d;
    assert q * d == 100.0;
    ProductNear(q, r, d);
  }

  lemma ProductNonNegative(a: real, b: real)
    requires a >= 0.0 && b >= 0.0
    ensures a * b >= 0.0
  {}

  lemma ProductNear(q: real, r: real, d: real)
    requires d > 0.0 && q * d == 100.0 && q - 0.005 <= r <= q + 0.005
    ensures 100.0 - 0.005 * d <= r * d <= 100.0 + 0.005 * d
  {
    ProductNonNegative(r - q + 0.005, d);
    assert (r - q + 0.005) * d == r * d - q * d + 0.005 * d;
    ProductNonNegative(q + 0.005 - r, d);
    assert (q + 0.005 - r) * d == q * d + 0.005 * d - r * d;
  }

  lemma MulMonotone(a: real, b: real, c: real)
    requires a <= b && c >= 0.0
    ensures a * c <= b * c
  {}

  lemma ReserveScales(r: real, d: real, lo: real, hi: real)
    requires 1.0 <= d <= 99.0 && 0.0 <= lo <= d - 1.0 && d + 1.0 <= hi
    requires 100.0 - 0.005 * d <= r * d <= 100.0 + 0.005 * d
    ensures Share(hi, r) >= 1.0 && Share(lo, r) <= 1.0 && r >= 1.0
  {
    if r < 1.0 {
      MulMonotone(r, 1.0, d);
      assert false;
    }
    assert (d + 1.0) * r == r * d + r && (d - 1.0) * r == r * d - r;
    MulMonotone(d + 1.0, hi, r);
    MulMonotone(lo, d - 1.0, r);
  }

  /** For thresholds in place the upper one times the reserve is at least a full instance, the lower one at most. */
  lemma WellPlacedReserve(t: LoadThresholds)
    requires WellPlaced(t)
    ensures Share(t.max as real, Reserve(t.desired)) >= 1.0
    ensures Share(t.min as real, Reserve(t.desired)) <= 1.0
    ensures Reserve(t.desired) > 0.0
  {
    ReserveBounds(t.desired);
    hide Reserve, Share;
    ReserveScales(Reserve(t.desired), t.desired as real, t.min as real, t.max as real);
  }

  /** The mean load compared with a threshold, without the division. */
  lemma MeanCompare(loads: seq<real>, bound: real)
    requires loads != []
    ensures Total(loads) / |loads| as real >= bound <==> Total(loads) >= |loads| as real * bound
    ensures Total(loads) / |loads| as real <= bound <==> Total(loads) <= |loads| as real * bound
  {
    QuotientCompare(Total(loads), |loads| as real, bound);
  }

  lemma QuotientCompare(total: real, n: real, bound: real)
    requires n > 0.0
    ensures total / n >= bound <==> total >= n * bound
    ensures total / n <= bound <==> total <= n * bound
  {
    var mean := total / n;
    assert mean * n == total;
    if mean < bound {
      StrictMul(mean, bound, n);
    } else if mean > bound {
      StrictMul(bound, mean, n);
    }
  }

  lemma StrictMul(a: real, b: real, c: real)
    requires a < b && c > 0.0
    ensures a * c < b * c
  {}

  lemma EnoughForAll(total: real, n: real, bound: real, r: real)
    requires n >= 0.0 && r >= 0.0
    ensures total >= n * bound && Share(bound, r) >= 1.0 ==> Share(total, r) >= n
    ensures total <= n * bound && Share(bound, r) <= 1.0 ==> Share(total, r) <= n
  {
    assert (n * bound) * r == (bound * r) * n;
    if total >= n * bound && bound * r >= 100.0 {
      MulMonotone(n * bound, total, r);
      MulMonotone(100.0, bound * r, n);
    }
    if total <= n * bound && bound * r <= 100.0 {
      MulMonotone(total, n * bound, r);
      MulMonotone(bound * r, 100.0, n);
    }
  }

  /** A mean load at or above the upper threshold never asks for fewer instances. */
  lemma HighLoadNeedsNoFewer(loads: seq<real>, t: LoadThresholds)
    requires loads != [] && t.desired >= 1
    requires Share(t.max as real, Reserve(t.desired)) >= 1.0 && Reserve(t.desired) >= 0.0
    requires Total(loads) / |loads| as real >= t.max as real
    ensures DesiredCount(loads, t.desired) >= |loads|
  {
    hide Reserve, Total, Round, Share;
    MeanCompare(loads, t.max as real);
    EnoughForAll(Total(loads), |loads| as real, t.max as real, Reserve(t.desired));
    RoundMonotone(|loads| as real, Share(Total(loads), Reserve(t.desired)));
    RoundOfInteger(|loads|);
  }

  /** A mean load at or below the lower threshold never asks for more. */
  lemma LowLoadNeedsNoMore(loads: seq<real>, t: LoadThresholds)
    requires loads != [] && t.desired >= 1
    requires Share(t.min as real, Reserve(t.desired)) <= 1.0 && Reserve(t.desired) >= 0.0
    requires Total(loads) / |loads| as real <= t.min as real
    ensures DesiredCount(loads, t.desired) <= |loads|
  {
    hide Reserve, Total, Round, Share;
    MeanCompare(loads, t.min as real);
    EnoughForAll(Total(loads), |loads| as real, t.min as real, Reserve(t.desired));
    RoundMonotone(Share(Total(loads), Reserve(t.desired)), |loads| as real);
    RoundOfInteger(|loads|);
  }

  /** Whatever the number of instances: the upper threshold keeps the direction exactly when it is worth
      a full instance after rounding the reserve. */
  lemma HighLoadDirectionIff(t: LoadThresholds)
    requires t.desired >= 1 && t.max >= 0
    ensures (forall loads | loads != [] && Total(loads) / |loads| as real >= t.max as real ::
               DesiredCount(loads, t.desired) >= |loads|)
            <==> Share(t.max as real, Reserve(t.desired)) >= 1.0
  {
    var r := Reserve(t.desired);
    ReserveNonNegative(t.desired);
    if Share(t.max as real, r) >= 1.0 {
      forall loads | loads != [] && Total(loads) / |loads| as real >= t.max as real
        ensures DesiredCount(loads, t.desired) >= |loads|
      {
        HighLoadNeedsNoFewer(loads, t);
      }
    } else {
      var loads := TooFewInstances(t);
      assert DesiredCount(loads, t.desired) < |loads|;
    }
  }

  /** Thresholds in order are not enough: above 100 percent the rounding can lose the direction. */
  lemma DirectionIsLostAbove100()
    ensures var t := LoadThresholds(159, 160, 161);
            exists loads :: loads != [] && Total(loads) / |loads| as real >= t.max as real
                            && DesiredCount(loads, t.desired) < |loads|
  {
    var t := LoadThresholds(159, 160, 161);
    assert 100.0 / 160.0 * 100.0 == 62.5;
    assert Reserve(160) == 0.62;
    hide Reserve, Total, DesiredCount;
    var loads := TooFewInstances(t);
  }

  /** Likewise, the lower threshold keeps the direction exactly when it is worth at most a full instance. */
  lemma LowLoadDirectionIff(t: LoadThresholds)
    requires t.desired >= 1 && t.min >= 0
    ensures (forall loads | loads != [] && Total(loads) / |loads| as real <= t.min as real ::
               DesiredCount(loads, t.desired) <= |loads|)
            <==> Share(t.min as real, Reserve(t.desired)) <= 1.0
  {
    ReserveNonNegative(t.desired);
    if Share(t.min as real, Reserve(t.desired)) <= 1.0 {
      forall loads | loads != [] && Total(loads) / |loads| as real <= t.min as real
        ensures DesiredCount(loads, t.desired) <= |loads|
      {
        LowLoadNeedsNoMore(loads, t);
      }
    } else {
      var loads := TooManyInstances(t);
      assert DesiredCount(loads, t.desired) > |loads|;
    }
  }

  lemma ReserveNonNegative(desired: int)
    requires desired >= 1
    ensures Reserve(desired) >= 0.0
  {
    Round2Monotone(0.0, 100.0 / desired as real);
    Round2OfTwoDecimals(0.0);
  }

  /** Enough instances, all loaded exactly at the threshold. */
  lemma TooFewInstances(t: LoadThresholds) returns (loads: seq<real>)
    requires t.desired >= 1 && t.max >= 0 && Share(t.max as real, Reserve(t.desired)) < 1.0
    ensures loads != [] && Total(loads) / |loads| as real >= t.max as real
    ensures DesiredCount(loads, t.desired) < |loads|
  {
    hide Reserve, Round, Total, Share;
    var worth := Share(t.max as real, Reserve(t.desired));
    var n := ManyShortfalls(worth);
    loads := seq(n, _ => t.max as real);
    TotalOfEqual(loads, t.max as real);
    MeanCompare(loads, t.max as real);
    EqualLoadsCount(loads, n as real, t.max as real, t.desired, n - 1);
  }

  lemma TooManyInstances(t: LoadThresholds) returns (loads: seq<real>)
    requires t.desired >= 1 && Share(t.min as real, Reserve(t.desired)) > 1.0
    ensures loads != [] && Total(loads) / |loads| as real <= t.min as real
    ensures DesiredCount(loads, t.desired) > |loads|
  {
    hide Reserve, Round, Total, Share;
    var worth := Share(t.min as real, Reserve(t.desired));
    var n := ManyShortfalls(2.0 - worth);
    Mirrored(n as real, worth);
    loads := seq(n, _ => t.min as real);
    TotalOfEqual(loads, t.min as real);
    MeanCompare(loads, t.min as real);
    EqualLoadsCount(loads, n as real, t.min as real, t.desired, n + 1);
  }

  lemma Mirrored(n: real, worth: real)
    requires n * (2.0 - worth) <= n - 1.0
    ensures n * worth >= n + 1.0
  {
    assert n * (2.0 - worth) == 2.0 * n - n * worth;
  }

  /** A count for loads that are all the same. */
  lemma EqualLoadsCount(loads: seq<real>, n: real, load: real, desired: int, bound: int)
    requires desired != 0 && Total(loads) == n * load
    ensures n * Share(load, Reserve(desired)) <= bound as real ==> DesiredCount(loads, desired) <= bound
    ensures n * Share(load, Reserve(desired)) >= bound as real ==> DesiredCount(loads, desired) >= bound
  {
    hide Reserve, Round, Total, Share;
    var share := Share(Total(loads), Reserve(desired));
    ScaledTotal(n, load, Reserve(desired));
    RoundOfInteger(bound);
    if share <= bound as real {
      RoundMonotone(share, bound as real);
    }
    if share >= bound as real {
      RoundMonotone(bound as real, share);
    }
  }

  lemma ScaledTotal(n: real, load: real, r: real)
    ensures Share(n * load, r) == n * Share(load, r)
  {
    assert n * load * r == n * (load * r);
  }

  /** If each instance falls short of a full one, enough of them fall short by one. */
  lemma ManyShortfalls(worth: real) returns (n: nat)
    requires worth < 1.0
    ensures n >= 1 && n as real * worth <= (n - 1) as real
  {
    var short := 1.0 - worth;
    var inverse := 1.0 / short;
    assert inverse * short == 1.0;
    assert inverse > 0.0 by {
      if inverse <= 0.0 {
        MulMonotone(inverse, 0.0, short);
      }
    }
    n := inverse.Floor + 1;
    MulMonotone(inverse, n as real, short);
    assert n as real * worth == n as real - n as real * short;
  }

  lemma {:induction false} TotalOfEqual(loads: seq<real>, load: real)
    requires forall l | l in loads :: l == load
    ensures Total(loads) == |loads| as real * load
  {
    if loads != [] {
      var front := loads[..|loads| - 1];
      assert forall l | l in front :: l in loads;
      TotalOfEqual(front, load);
      assert loads[|loads| - 1] in loads;
      assert |loads| as real == |front| as real + 1.0;
    }
  }

  // ----- the action and the clamp

  /** `get_autoscaling_group_scale_action` */
  method GetScaleAction(loads: seq<real>, policy: GroupPolicy, low: int, high: int, cpu: real, memory: real)
    returns (action: Action, step: int)
    requires loads != [] && cpu != 0.0 && memory != 0.0 && ThresholdsOf(policy, low, high).desired != 0
    ensures var t := ThresholdsOf(policy, low, high);
            var mean := Total(loads) / |loads| as real;
            && (action == ScaleDown <==> mean <= t.min as real)
            && (action == ScaleUp <==> mean >= t.max as real && mean > t.min as real)
            && (action != ScaleDown && action != ScaleUp ==> action == NoAction && step == 0)
            && (action != NoAction ==> step == StepFor(loads, t.desired, policy.scaleStep))
    ensures forall min, max | AreLimits(min, max, policy, low, high) ::
              var mean := Total(loads) / |loads| as real;
              && (action == ScaleDown <==> mean <= min as real)
              && (action == ScaleUp <==> mean >= max as real && mean > min as real)
    ensures action != NoAction && policy.scaleStep.Fixed? ==> step == policy.scaleStep.step
    ensures action != NoAction && !policy.scaleStep.Fixed? ==>
              exists aim :: aim != 0 && IsAim(aim, policy, low, high) &&
                            IsDistance(step, |loads|, DesiredCount(loads, aim))
  {
    var total := 0.0;
    for i := 0 to |loads|
      invariant total == Total(loads[..i])
    {
      assert loads[..i + 1][..i] == loads[..i];
      total := total + loads[i];
    }
    assert loads[..|loads|] == loads;
    var mean := total / |loads| as real;
    var t := ThresholdsOf(policy, low, high);
    ThresholdsAre(policy, low, high);
    hide ThresholdsOf, IsAim;
    action := NoAction;
    if mean <= t.min as real {
      action := ScaleDown;
    } else if mean >= t.max as real {
      action := ScaleUp;
    }
    if action == NoAction {
      return action, 0;
    }
    hide Total, DesiredCount;
    step := GetScaleStep(loads, t, policy.scaleStep, cpu, memory);
    assert IsAim(t.desired, policy, low, high);
  }

  /** The guard of `process_autoscaling_group` against scaling the whole group away. */
  function Guarded(action: Action, step: int, current: int, scaleStep: ScaleStep): (Action, int) {
    if action == ScaleDown && step >= current then
      if scaleStep == AutoDetect then (action, current - 1) else (NoAction, 0)
    else (action, step)
  }

  function RecommendedCount(action: Action, step: int, current: int): int {
    if action == ScaleUp then current + step
    else if action == ScaleDown then current - step
    else current
  }

  /** What the guard leaves: a detected step stops at the last instance, a fixed one that would take them all is
      dropped. */
  lemma GuardedCountIs(action: Action, step: int, current: int, scaleStep: ScaleStep)
    ensures var (guarded, left) := Guarded(action, step, current, scaleStep);
            RecommendedCount(guarded, left, current) ==
            if action == ScaleUp then current + step
            else if action != ScaleDown then current
            else if step < current then current - step
            else if scaleStep == AutoDetect then 1
            else current
  {}

  /** Scaling down keeps between one and all of the instances exactly for non-negative steps. */
  lemma GuardKeepsOneIff(step: int, current: int, scaleStep: ScaleStep)
    requires current >= 1
    ensures var (action, guarded) := Guarded(ScaleDown, step, current, scaleStep);
            1 <= RecommendedCount(action, guarded, current) <= current <==> step >= 0
  {}

  /** The group ends at the count its total load asks for, but never below one instance, and only where its mean
      load is at a limit. */
  ghost predicate IsScaled(action: Action, count: int, loads: seq<real>, min: int, aim: int, max: int)
    requires loads != [] && aim >= 1
  {
    var mean, desired := Total(loads) / |loads| as real, DesiredCount(loads, aim);
    if mean <= min as real then action == ScaleDown && count == (if desired < 1 then 1 else desired) <= |loads|
    else if mean >= max as real then action == ScaleUp && count == desired >= |loads|
    else action == NoAction && count == |loads|
  }

  /** With an auto-detected step the group is resized to the desired count itself, but never below one. */
  method ScaleGroup(loads: seq<real>, policy: GroupPolicy, low: int, high: int, cpu: real, memory: real)
    returns (action: Action, count: int)
    requires loads != [] && forall l | l in loads :: l >= 0.0
    requires cpu > 0.0 && memory > 0.0 && policy.scaleStep == AutoDetect
    requires WellPlaced(ThresholdsOf(policy, low, high))
    ensures var t := ThresholdsOf(policy, low, high);
            var mean := Total(loads) / |loads| as real;
            var desired := DesiredCount(loads, t.desired);
            && (mean >= t.max as real ==> action == ScaleUp && count == desired >= |loads|)
            && (mean <= t.min as real ==>
                action == ScaleDown && count == (if desired < 1 then 1 else desired) <= |loads|)
            && (t.min as real < mean < t.max as real ==> action == NoAction && count == |loads|)
    ensures exists min, aim, max ::
              AreLimits(min, max, policy, low, high) && IsAim(aim, policy, low, high) && aim >= 1 &&
              IsScaled(action, count, loads, min, aim, max)
  {
    var t := ThresholdsOf(policy, low, high);
    ghost var mean := Total(loads) / |loads| as real;
    WellPlacedReserve(t);
    hide ThresholdsOf, Reserve, DesiredCount, Total;
    var step;
    action, step := GetScaleAction(loads, policy, low, high, cpu, memory);
    if mean >= t.max as real {
      HighLoadNeedsNoFewer(loads, t);
    } else if mean <= t.min as real {
      LowLoadNeedsNoMore(loads, t);
    }
    var guarded := Guarded(action, step, |loads|, policy.scaleStep);
    action, step := guarded.0, guarded.1;
    count := RecommendedCount(action, step, |loads|);
    ThresholdsAre(policy, low, high);
    assert IsScaled(action, count, loads, t.min, t.desired, t.max);
  }
}
