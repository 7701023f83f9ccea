/** The Python string operations the code uses on keys, names and times. */
module Strings {

  predicate StartsWith(s: string, prefix: string) {
    prefix <= s
  }

  ghost predicate OccursAt(s: string, sub: string, i: nat) {
    i + |sub| <= |s| && s[i..i + |sub|] == sub
  }

  /** `sub in s` */
  predicate Contains(s: string, sub: string)
    ensures Contains(s, sub) <==> exists i: nat :: OccursAt(s, sub, i)
  {
    if StartsWith(s, sub) then
      assert OccursAt(s, sub, 0);
      true
    else if s == "" then false
    else
      assert forall i: nat :: OccursAt(s[1..], sub, i) ==> OccursAt(s, sub, i + 1) by {
        forall i: nat | OccursAt(s[1..], sub, i) ensures OccursAt(s, sub, i + 1) {
          assert s[1..][i..i + |sub|] == s[i + 1..i + 1 + |sub|];
        }
      }
      assert forall i: nat :: OccursAt(s, sub, i) ==> i > 0 && OccursAt(s[1..], sub, i - 1) by {
        forall i: nat | OccursAt(s, sub, i) ensures i > 0 && OccursAt(s[1..], sub, i - 1) {
          if i > 0 {
            assert s[1..][i - 1..i - 1 + |sub|] == s[i..i + |sub|];
          }
        }
      }
      Contains(s[1..], sub)
  }

  /** `sep.join(parts)` */
  function Join(parts: seq<string>, sep: char): string
    requires parts != []
  {
    if |parts| == 1 then parts[0] else parts[0] + [sep] + Join(parts[1..], sep)
  }

  /** `s.split(sep)` */
  function Split(s: string, sep: char): (parts: seq<string>)
    ensures parts != []
    ensures forall p | p in parts :: sep !in p
  {
    if s == "" then [""]
    else
      var rest := Split(s[1..], sep);
      if s[0] == sep then [""] + rest else [[s[0]] + rest[0]] + rest[1..]
  }

  lemma {:induction false} JoinOfSplit(s: string, sep: char)
    ensures Join(Split(s, sep), sep) == s
  {
    if s != "" {
      JoinOfSplit(s[1..], sep);
      var rest := Split(s[1..], sep);
      assert Split(s, sep)[1..] == if s[0] == sep then rest else rest[1..];
      if s[0] != sep && |rest| > 1 {
        assert [s[0]] + rest[0] + [sep] + Join(rest[1..], sep) == [s[0]] + (rest[0] + [sep] + Join(rest[1..], sep));
      }
    }
  }

  lemma {:induction false} SplitPiece(p: string, s: string, sep: char)
    requires sep !in p
    ensures Split(p, sep) == [p]
    ensures Split(p + [sep] + s, sep) == [p] + Split(s, sep)
  {
    if p == "" {
      assert p + [sep] + s == [sep] + s;
      assert ([sep] + s)[1..] == s;
    } else {
      SplitPiece(p[1..], s, sep);
      assert (p + [sep] + s)[1..] == p[1..] + [sep] + s;
      assert [p[0]] + p[1..] == p;
    }
  }

  lemma {:induction false} SplitOfJoin(parts: seq<string>, sep: char)
    requires parts != [] && forall p | p in parts :: sep !in p
    ensures Split(Join(parts, sep), sep) == parts
  {
    if |parts| == 1 {
      SplitPiece(parts[0], "", sep);
    } else {
      SplitOfJoin(parts[1..], sep);
      SplitPiece(parts[0], Join(parts[1..], sep), sep);
      assert [parts[0]] + parts[1..] == parts;
    }
  }

  /** Splitting around a separator splits both sides. */
  lemma {:induction false} SplitConcat(a: string, b: string, sep: char)
    ensures Split(a + [sep] + b, sep) == Split(a, sep) + Split(b, sep)
  {
    if a == "" {
      assert a + [sep] + b == [sep] + b && ([sep] + b)[1..] == b;
    } else {
      assert (a + [sep] + b)[1..] == a[1..] + [sep] + b;
      SplitConcat(a[1..], b, sep);
    }
  }

  /** `s.replace(old, '')`: drops every occurrence, scanning from the left. */
  function RemoveAll(s: string, sub: string): (r: string)
    ensures |r| <= |s|
  {
    if sub == "" || s == "" then s
    else if StartsWith(s, sub) then RemoveAll(s[|sub|..], sub)
    else [s[0]] + RemoveAll(s[1..], sub)
  }

  /** `s.replace(old, '', 1)` */
  function RemoveFirst(s: string, sub: string): string {
    if s == "" then s
    else if StartsWith(s, sub) then s[|sub|..]
    else [s[0]] + RemoveFirst(s[1..], sub)
  }

  lemma {:induction false} RemoveAllAbsent(s: string, sub: string)
    requires sub != ""
    ensures RemoveAll(s, sub) == s <==> !Contains(s, sub)
    ensures Contains(s, sub) ==> |RemoveAll(s, sub)| <= |s| - |sub|
  {
    if s != "" && !StartsWith(s, sub) {
      RemoveAllAbsent(s[1..], sub);
    }
  }

  /** An appended piece whose first character occurs nowhere else in it is removed, and changes nothing else. */
  lemma {:induction false} RemoveAppended(s: string, sub: string)
    requires sub != "" && sub[0] !in sub[1..]
    ensures RemoveAll(s + sub, sub) == RemoveAll(s, sub)
  {
    if s == "" {
      assert s + sub == sub && sub[|sub|..] == "";
    } else if StartsWith(s, sub) {
      assert (s + sub)[|sub|..] == s[|sub|..] + sub;
      RemoveAppended(s[|sub|..], sub);
    } else {
      assert (s + sub)[1..] == s[1..] + sub;
      assert !StartsWith(s + sub, sub) by {
        if |s| < |sub| {
          assert (s + sub)[|s|] == sub[0];
          assert sub[1..][|s| - 1] == sub[|s|];
        } else {
          assert (s + sub)[..|sub|] == s[..|sub|];
        }
      }
      RemoveAppended(s[1..], sub);
    }
  }

  /** `s.strip(c)` */
  function Strip(s: string, c: char): string {
    StripRight(StripLeft(s, c), c)
  }

  function StripLeft(s: string, c: char): (r: string)
    ensures |r| <= |s|
  {
    if s != "" && s[0] == c then StripLeft(s[1..], c) else s
  }

  function StripRight(s: string, c: char): (r: string)
    ensures |r| <= |s|
  {
    if s != "" && s[|s| - 1] == c then StripRight(s[..|s| - 1], c) else s
  }

  /** Python's string order. */
  predicate LessEq(a: string, b: string) {
    if a == "" then true
    else if b == "" then false
    else a[0] < b[0] || (a[0] == b[0] && LessEq(a[1..], b[1..]))
  }

  lemma {:induction false} LessEqTotal(a: string, b: string)
    ensures LessEq(a, b) || LessEq(b, a)
    ensures LessEq(a, b) && LessEq(b, a) ==> a == b
  {
    if a != "" && b != "" {
      LessEqTotal(a[1..], b[1..]);
    }
  }

  lemma {:induction false} LessEqTransitive(a: string, b: string, c: string)
    requires LessEq(a, b) && LessEq(b, c)
    ensures LessEq(a, c)
  {
    if a != "" && b != "" && c != "" && a[0] == b[0] == c[0] {
      LessEqTransitive(a[1..], b[1..], c[1..]);
    }
  }

  /** A common prefix does not matter to the order. */
  lemma {:induction false} LessEqCommonPrefix(p: string, a: string, b: string)
    ensures LessEq(p + a, p + b) == LessEq(a, b)
  {
    if p == "" {
      assert p + a == a && p + b == b;
    } else {
      assert (p + a)[1..] == p[1..] + a && (p + b)[1..] == p[1..] + b;
      LessEqCommonPrefix(p[1..], a, b);
    }
  }

  /** Strings of one length are ordered whatever follows them. */
  lemma {:induction false} LessEqSameLength(a: string, b: string, x: string, y: string)
    requires |a| == |b| && a != b
    ensures LessEq(a + x, b + y) == LessEq(a, b)
  {
    assert (a + x)[1..] == a[1..] + x && (b + y)[1..] == b[1..] + y;
    if a[0] == b[0] {
      assert a == [a[0]] + a[1..] && b == [b[0]] + b[1..];
      LessEqSameLength(a[1..], b[1..], x, y);
    }
  }
}
