/** The `%H:%M` texts the code sorts, compares and searches by. */
module TimeTexts {
  import ScheduleItems
  import Strings

  function Digit(d: nat): char
    requires d < 10
  {
    '0' + d as char
  }

  function TwoDigits(n: nat): string
    requires n < 100
  {
    [Digit(n / 10), Digit(n % 10)]
  }

  /** `strftime('%H:%M')` */
  function Text(m: ScheduleItems.Minute): string {
    TwoDigits(m / 60) + ":" + TwoDigits(m % 60)
  }

  lemma TwoDigitsOrder(a: nat, b: nat)
    requires a < 100 && b < 100
    ensures Strings.LessEq(TwoDigits(a), TwoDigits(b)) <==> a <= b
    ensures TwoDigits(a) == TwoDigits(b) <==> a == b
  {
    assert TwoDigits(a)[1..] == [Digit(a % 10)] && TwoDigits(b)[1..] == [Digit(b % 10)];
    assert Strings.LessEq([Digit(a % 10)], [Digit(b % 10)]) <==> a % 10 <= b % 10 by {
      assert Strings.LessEq([Digit(a % 10)][1..], [Digit(b % 10)][1..]);
    }
    assert TwoDigits(a) == TwoDigits(b) ==> TwoDigits(a)[0] == TwoDigits(b)[0] && TwoDigits(a)[1] == TwoDigits(b)[1];
  }

  /** Sorting by the text sorts by the time, and the text determines the time. */
  lemma TextOrder(a: ScheduleItems.Minute, b: ScheduleItems.Minute)
    ensures Strings.LessEq(Text(a), Text(b)) <==> a <= b
    ensures Text(a) == Text(b) <==> a == b
  {
    var (h, m, k, n) := (a / 60, a % 60, b / 60, b % 60);
    TwoDigitsOrder(h, k);
    TwoDigitsOrder(m, n);
    var (x, y) := (TwoDigits(h), TwoDigits(k));
    assert Text(a) == x + (":" + TwoDigits(m)) && Text(b) == y + (":" + TwoDigits(n));
    if x == y {
      Strings.LessEqCommonPrefix(x, ":" + TwoDigits(m), ":" + TwoDigits(n));
      Strings.LessEqCommonPrefix(":", TwoDigits(m), TwoDigits(n));
      assert Text(a)[3..] == TwoDigits(m) && Text(b)[3..] == TwoDigits(n);
    } else {
      Strings.LessEqSameLength(x, y, ":" + TwoDigits(m), ":" + TwoDigits(n));
      assert Text(a)[..2] == x && Text(b)[..2] == y;
    }
  }

  /** `text.startswith('23:')` is a test on the hour. */
  lemma StartsWithHour23(m: ScheduleItems.Minute)
    ensures Strings.StartsWith(Text(m), "23:") <==> m >= 23 * 60
  {
    TwoDigitsOrder(m / 60, 23);
    assert Text(m)[..2] == TwoDigits(m / 60);
    assert TwoDigits(23) == "23";
    if Strings.StartsWith(Text(m), "23:") {
      assert Text(m)[..2] == "23:"[..2] == "23";
    } else {
      assert Text(m)[..3] == TwoDigits(m / 60) + ":";
    }
  }
}
