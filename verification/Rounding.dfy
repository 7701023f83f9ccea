/** Python's `round` over exact reals: ties go to the even neighbour. */
module Rounding {

  function Abs(x: int): nat {
    if x < 0 then -x else x
  }

  function Round(x: real): (n: int)
    ensures n as real - 0.5 <= x <= n as real + 0.5
  {
    var f := x.Floor;
    var d := x - f as real;
    if d < 0.5 then f
    else if d > 0.5 then f + 1
    else if f % 2 == 0 then f else f + 1
  }

  /** `round(x, 2)` */
  function Round2(x: real): (r: real)
    ensures x - 0.005 <= r <= x + 0.005
  {
    Round(x * 100.0) as real / 100.0
  }

  lemma RoundMonotone(x: real, y: real)
    requires x <= y
    ensures Round(x) <= Round(y)
  {
    if x.Floor < y.Floor {
      assert Round(x) <= x.Floor + 1 <= y.Floor <= Round(y);
    }
  }

  lemma RoundOfInteger(n: int)
    ensures Round(n as real) == n
  {
    assert (n as real).Floor == n;
  }

  lemma Round2Monotone(x: real, y: real)
    requires x <= y
    ensures Round2(x) <= Round2(y)
  {
    hide Round;
    RoundMonotone(x * 100.0, y * 100.0);
  }

  /** Numbers with at most two decimals. */
  ghost predicate TwoDecimals(x: real) {
    (x * 100.0).Floor as real == x * 100.0
  }

  lemma Round2OfTwoDecimals(x: real)
    requires TwoDecimals(x)
    ensures Round2(x) == x
  {
    RoundOfInteger((x * 100.0).Floor);
  }
}
