/** Sequence operations behind Python's comprehensions, `itertools.chain` and `sorted`. */
module Sequences {

  function Filter<T(!new)>(xs: seq<T>, p: T -> bool): (r: seq<T>)
    ensures forall x :: x in r <==> x in xs && p(x)
    ensures |r| <= |xs|
  {
    if xs == [] then []
    else (if p(xs[0]) then [xs[0]] else []) + Filter(xs[1..], p)
  }

  lemma {:induction false} FilterAppend<T(!new)>(xs: seq<T>, ys: seq<T>, p: T -> bool)
    ensures Filter(xs + ys, p) == Filter(xs, p) + Filter(ys, p)
  {
    if xs == [] {
      assert xs + ys == ys;
    } else {
      assert (xs + ys)[1..] == xs[1..] + ys;
      FilterAppend(xs[1..], ys, p);
    }
  }

  lemma {:induction false} FilterAll<T(!new)>(xs: seq<T>, p: T -> bool)
    requires forall x | x in xs :: p(x)
    ensures Filter(xs, p) == xs
  {
    if xs != [] {
      FilterAll(xs[1..], p);
    }
  }

  lemma {:induction false} FilterNone<T(!new)>(xs: seq<T>, p: T -> bool)
    requires forall x | x in xs :: !p(x)
    ensures Filter(xs, p) == []
  {
    if xs != [] {
      FilterNone(xs[1..], p);
    }
  }

  /** Only what the test says of the elements matters. */
  lemma {:induction false} FilterSame<T(!new)>(xs: seq<T>, p: T -> bool, q: T -> bool)
    requires forall x | x in xs :: p(x) == q(x)
    ensures Filter(xs, p) == Filter(xs, q)
  {
    if xs != [] {
      FilterSame(xs[1..], p, q);
    }
  }

  /** Filtering one prefix longer adds the next element if it passes. */
  lemma FilterNext<T(!new)>(xs: seq<T>, n: nat, p: T -> bool)
    requires n < |xs|
    ensures Filter(xs[..n + 1], p) == Filter(xs[..n], p) + (if p(xs[n]) then [xs[n]] else [])
  {
    assert xs[..n + 1] == xs[..n] + [xs[n]];
    FilterAppend(xs[..n], [xs[n]], p);
  }

  /** Of three stretches, only the middle one passes. */
  lemma FilterIsMiddle<T(!new)>(front: seq<T>, middle: seq<T>, rest: seq<T>, p: T -> bool)
    requires forall x | x in front :: !p(x)
    requires forall x | x in middle :: p(x)
    requires forall x | x in rest :: !p(x)
    ensures Filter(front + middle + rest, p) == middle
  {
    FilterAppend(front + middle, rest, p);
    FilterAppend(front, middle, p);
    FilterNone(front, p);
    FilterAll(middle, p);
    FilterNone(rest, p);
  }

  lemma SplitInThree<T>(xs: seq<T>, a: nat, b: nat)
    requires a <= b <= |xs|
    ensures xs[..a] + xs[a..b] + xs[b..] == xs
  {}

  function Map<T, U>(xs: seq<T>, f: T -> U): (r: seq<U>)
    ensures |r| == |xs|
    ensures forall i | 0 <= i < |xs| :: r[i] == f(xs[i])
  {
    seq(|xs|, i requires 0 <= i < |xs| => f(xs[i]))
  }

  function Flatten<T(!new)>(xss: seq<seq<T>>): (r: seq<T>)
    ensures forall x :: x in r <==> exists i :: 0 <= i < |xss| && x in xss[i]
  {
    if xss == [] then []
    else
      var rest := Flatten(xss[1..]);
      assert forall x :: x in rest ==> exists i :: 0 <= i < |xss| && x in xss[i] by {
        forall x | x in rest ensures exists i :: 0 <= i < |xss| && x in xss[i] {
          var j :| 0 <= j < |xss[1..]| && x in xss[1..][j];
          assert x in xss[j + 1];
        }
      }
      assert forall x, i :: 0 <= i < |xss| && x in xss[i] ==> x in xss[0] + rest by {
        forall x, i | 0 <= i < |xss| && x in xss[i] ensures x in xss[0] + rest {
          if i > 0 { assert x in xss[1..][i - 1]; }
        }
      }
      xss[0] + rest
  }

  ghost predicate Distinct<T>(xs: seq<T>) {
    forall i, j | 0 <= i < j < |xs| :: xs[i] != xs[j]
  }

  /** Keeps the first occurrence of every element. */
  function Dedup<T(==,!new)>(xs: seq<T>): (r: seq<T>)
    ensures forall x :: x in r <==> x in xs
    ensures Distinct(r)
  {
    if xs == [] then []
    else
      var front := Dedup(xs[..|xs| - 1]);
      var last := xs[|xs| - 1];
      assert xs == xs[..|xs| - 1] + [last];
      if last in front then front else front + [last]
  }

  /** A list without repetition is no longer than one that has all its elements. */
  lemma {:induction false} DistinctFits<T>(xs: seq<T>, ys: seq<T>)
    requires Distinct(xs) && forall x | x in xs :: x in ys
    ensures |xs| <= |ys|
  {
    if xs != [] {
      assert xs[0] in xs;
      var k :| 0 <= k < |ys| && ys[k] == xs[0];
      var rest := ys[..k] + ys[k + 1..];
      forall x | x in xs[1..] ensures x in rest {
        var i :| 0 <= i < |xs[1..]| && xs[1..][i] == x;
        assert xs[i + 1] in xs && xs[i + 1] != xs[0];
        var j :| 0 <= j < |ys| && ys[j] == x;
        assert if j < k then ys[..k][j] == x else ys[k + 1..][j - k - 1] == x;
      }
      DistinctFits(xs[1..], rest);
    }
  }

  /** Dedup of a longer list only appends. */
  lemma {:induction false} DedupAppend<T(!new)>(xs: seq<T>, ys: seq<T>)
    ensures Dedup(xs) <= Dedup(xs + ys)
    ensures forall i | |Dedup(xs)| <= i < |Dedup(xs + ys)| :: Dedup(xs + ys)[i] in ys && Dedup(xs + ys)[i] !in xs
    decreases |ys|
  {
    if ys == [] {
      assert xs + ys == xs;
    } else {
      var front := ys[..|ys| - 1];
      assert (xs + ys)[..|xs + ys| - 1] == xs + front;
      DedupAppend(xs, front);
    }
  }

  lemma {:induction false} DedupOfDistinct<T(!new)>(xs: seq<T>)
    requires Distinct(xs)
    ensures Dedup(xs) == xs
  {
    if xs != [] {
      DedupOfDistinct(xs[..|xs| - 1]);
      assert xs == xs[..|xs| - 1] + [xs[|xs| - 1]];
    }
  }

  lemma DedupNext<T(!new)>(xs: seq<T>, n: nat)
    requires n < |xs|
    ensures Dedup(xs[..n + 1]) == if xs[n] in Dedup(xs[..n]) then Dedup(xs[..n]) else Dedup(xs[..n]) + [xs[n]]
  {
    assert xs[..n + 1][..n] == xs[..n];
  }

  ghost predicate TotalPreorder<T(!new)>(le: (T, T) -> bool) {
    && (forall x, y :: le(x, y) || le(y, x))
    && (forall x, y, z :: le(x, y) && le(y, z) ==> le(x, z))
  }

  ghost predicate SortedBy<T>(xs: seq<T>, le: (T, T) -> bool) {
    forall i, j | 0 <= i < j < |xs| :: le(xs[i], xs[j])
  }

  function Insert<T>(x: T, xs: seq<T>, le: (T, T) -> bool): (r: seq<T>)
    ensures multiset(r) == multiset(xs) + multiset{x}
    ensures |r| == |xs| + 1
  {
    if xs == [] || le(x, xs[0]) then
      assert [x] + xs == [x] + xs;
      [x] + xs
    else
      assert xs == [xs[0]] + xs[1..];
      [xs[0]] + Insert(x, xs[1..], le)
  }

  /** Python's `sorted`: a stable sort by a total preorder. */
  function Sort<T>(xs: seq<T>, le: (T, T) -> bool): (r: seq<T>)
    ensures multiset(r) == multiset(xs)
    ensures |r| == |xs|
  {
    if xs == [] then []
    else
      assert xs == [xs[0]] + xs[1..];
      Insert(xs[0], Sort(xs[1..], le), le)
  }

  lemma SortMembers<T(!new)>(xs: seq<T>, le: (T, T) -> bool)
    ensures forall x :: x in Sort(xs, le) <==> x in xs
  {
    forall x ensures x in Sort(xs, le) <==> x in xs {
      assert x in multiset(Sort(xs, le)) <==> x in multiset(xs);
    }
  }

  lemma {:induction false} InsertSorted<T(!new)>(x: T, xs: seq<T>, le: (T, T) -> bool)
    requires TotalPreorder(le) && SortedBy(xs, le)
    ensures SortedBy(Insert(x, xs, le), le)
  {
    if xs == [] || le(x, xs[0]) {
    } else {
      InsertSorted(x, xs[1..], le);
      var rest := Insert(x, xs[1..], le);
      forall j | 0 <= j < |rest| ensures le(xs[0], rest[j]) {
        assert rest[j] in multiset(xs[1..]) + multiset{x};
      }
    }
  }

  lemma {:induction false} SortSorted<T(!new)>(xs: seq<T>, le: (T, T) -> bool)
    requires TotalPreorder(le)
    ensures SortedBy(Sort(xs, le), le)
  {
    if xs != [] {
      SortSorted(xs[1..], le);
      InsertSorted(xs[0], Sort(xs[1..], le), le);
    }
  }

  /** The elements that compare equal to `c`, in order. */
  function Ties<T(!new)>(xs: seq<T>, le: (T, T) -> bool, c: T): seq<T> {
    Filter(xs, x => le(x, c) && le(c, x))
  }

  lemma TiesHead<T(!new)>(x: T, xs: seq<T>, le: (T, T) -> bool, c: T)
    ensures Ties([x] + xs, le, c) == (if le(x, c) && le(c, x) then [x] else []) + Ties(xs, le, c)
  {
    assert ([x] + xs)[1..] == xs;
  }

  /** Elements that compare equal keep their order. */
  lemma {:induction false} SortStable<T(!new)>(xs: seq<T>, le: (T, T) -> bool, c: T)
    requires TotalPreorder(le)
    ensures Ties(Sort(xs, le), le, c) == Ties(xs, le, c)
  {
    if xs != [] {
      SortStable(xs[1..], le, c);
      SortSorted(xs[1..], le);
      InsertStable(xs[0], Sort(xs[1..], le), le, c);
      TiesHead(xs[0], xs[1..], le, c);
      assert xs == [xs[0]] + xs[1..];
    }
  }

  lemma {:induction false} InsertStable<T(!new)>(x: T, xs: seq<T>, le: (T, T) -> bool, c: T)
    requires TotalPreorder(le) && SortedBy(xs, le)
    ensures Ties(Insert(x, xs, le), le, c) == (if le(x, c) && le(c, x) then [x] else []) + Ties(xs, le, c)
  {
    hide Ties;
    if xs == [] || le(x, xs[0]) {
      TiesHead(x, xs, le, c);
    } else {
      assert !(le(x, c) && le(c, xs[0]));
      InsertStable(x, xs[1..], le, c);
      TiesHead(xs[0], xs[1..], le, c);
      TiesHead(xs[0], Insert(x, xs[1..], le), le, c);
      assert xs == [xs[0]] + xs[1..];
    }
  }

  /** Sorting an already sorted list changes nothing. */
  lemma {:induction false} SortOfSorted<T>(xs: seq<T>, le: (T, T) -> bool)
    requires SortedBy(xs, le)
    ensures Sort(xs, le) == xs
  {
    if xs != [] {
      SortOfSorted(xs[1..], le);
    }
  }

  /** Filtering and sorting commute. */
  lemma {:induction false} FilterOfSort<T(!new)>(xs: seq<T>, le: (T, T) -> bool, p: T -> bool)
    requires TotalPreorder(le)
    ensures Filter(Sort(xs, le), p) == Sort(Filter(xs, p), le)
  {
    hide TotalPreorder, Insert, Filter;
    if xs == [] {
      FilterNone(xs, p);
    } else {
      var rest := Sort(xs[1..], le);
      FilterOfSort(xs[1..], le, p);
      SortSorted(xs[1..], le);
      FilterOfInsert(xs[0], rest, le, p);
      FilterHead(xs, p);
      if p(xs[0]) {
        SortHead(xs[0], Filter(xs[1..], p), le);
      }
    }
  }

  lemma SortHead<T(!new)>(x: T, xs: seq<T>, le: (T, T) -> bool)
    ensures Sort([x] + xs, le) == Insert(x, Sort(xs, le), le)
  {
    assert ([x] + xs)[1..] == xs;
  }

  lemma FilterHead<T(!new)>(xs: seq<T>, p: T -> bool)
    requires xs != []
    ensures Filter(xs, p) == if p(xs[0]) then [xs[0]] + Filter(xs[1..], p) else Filter(xs[1..], p)
  {}

  lemma InsertFirst<T(!new)>(x: T, xs: seq<T>, le: (T, T) -> bool)
    requires forall y | y in xs :: le(x, y)
    ensures Insert(x, xs, le) == [x] + xs
  {}

  lemma {:induction false} FilterOfInsert<T(!new)>(x: T, xs: seq<T>, le: (T, T) -> bool, p: T -> bool)
    requires TotalPreorder(le) && SortedBy(xs, le)
    ensures Filter(Insert(x, xs, le), p) == if p(x) then Insert(x, Filter(xs, p), le) else Filter(xs, p)
  {
    hide Filter;
    if xs == [] || le(x, xs[0]) {
      FilterHead([x] + xs, p);
      assert ([x] + xs)[1..] == xs;
      BelowTail(x, xs, le);
      InsertFirst(x, Filter(xs, p), le);
    } else {
      var rest := Insert(x, xs[1..], le);
      FilterOfInsert(x, xs[1..], le, p);
      assert Insert(x, xs, le) == [xs[0]] + rest && ([xs[0]] + rest)[1..] == rest;
      FilterHead([xs[0]] + rest, p);
      FilterHead(xs, p);
      if p(xs[0]) && p(x) {
        InsertLater(x, xs[0], Filter(xs[1..], p), le);
      }
    }
  }

  lemma InsertLater<T(!new)>(x: T, y: T, ys: seq<T>, le: (T, T) -> bool)
    requires !le(x, y)
    ensures Insert(x, [y] + ys, le) == [y] + Insert(x, ys, le)
  {
    assert ([y] + ys)[1..] == ys;
  }

  lemma BelowTail<T(!new)>(x: T, xs: seq<T>, le: (T, T) -> bool)
    requires TotalPreorder(le) && SortedBy(xs, le) && (xs == [] || le(x, xs[0]))
    ensures forall y | y in xs :: le(x, y)
  {
    forall y | y in xs ensures le(x, y) {
      assert y == xs[0] || le(xs[0], y);
    }
  }

  lemma {:induction false} FiltersCommute<T(!new)>(xs: seq<T>, p: T -> bool, q: T -> bool)
    ensures Filter(Filter(xs, p), q) == Filter(Filter(xs, q), p)
  {
    if xs != [] {
      FiltersCommute(xs[1..], p, q);
      FilterAppend(if p(xs[0]) then [xs[0]] else [], Filter(xs[1..], p), q);
      FilterAppend(if q(xs[0]) then [xs[0]] else [], Filter(xs[1..], q), p);
    }
  }
}
