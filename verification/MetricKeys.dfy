/** The filters that decide which metric files are downloaded, by their object keys. */
module MetricKeys {
  import opened Wrappers
  import opened Sequences
  import opened Strings

  const CSV_EXTENSION := ".csv"

  // ----- dates in keys

  predicate IsDigit(c: char) {
    '0' <= c <= '9'
  }

  function DigitValue(c: char): (d: nat)
    requires IsDigit(c)
    ensures d <= 9
  {
    c as int - '0' as int
  }

  function NumberOf(digits: string): nat
    requires forall c | c in digits :: IsDigit(c)
  {
    if digits == "" then 0
    else
      var last := digits[|digits| - 1];
      assert forall c | c in digits[..|digits| - 1] :: c in digits;
      assert last in digits;
      NumberOf(digits[..|digits| - 1]) * 10 + DigitValue(last)
  }

  predicate IsLeapYear(year: int) {
    year % 4 == 0 && (year % 100 != 0 || year % 400 == 0)
  }

  function DaysInMonth(year: int, month: int): int {
    if month == 2 then (if IsLeapYear(year) then 29 else 28)
    else if month == 4 || month == 6 || month == 9 || month == 11 then 30
    else 31
  }

  predicate IsNumber(s: string, minLength: nat, maxLength: nat) {
    minLength <= |s| <= maxLength && forall c | c in s :: IsDigit(c)
  }

  /** `datetime.strptime(s, '%Y-%m-%d')` as the number YYYYMMDD; months and days may have one digit. */
  function ParseDate(s: string): Option<int> {
    var parts := Split(s, '-');
    if |parts| == 3 && IsNumber(parts[0], 4, 4) && IsNumber(parts[1], 1, 2) && IsNumber(parts[2], 1, 2) then
      var year, month, day := NumberOf(parts[0]), NumberOf(parts[1]), NumberOf(parts[2]);
      if year >= 1 && 1 <= month <= 12 && 1 <= day <= DaysInMonth(year, month)
      then Some(year * 10000 + month * 100 + day) else None
    else None
  }

  /** Digits of one length are ordered as numbers. */
  lemma {:induction false} DigitsOrder(a: string, b: string)
    requires |a| == |b| && (forall c | c in a :: IsDigit(c)) && forall c | c in b :: IsDigit(c)
    ensures LessEq(a, b) <==> NumberOf(a) <= NumberOf(b)
    decreases |a|
  {
    if a != "" {
      var x, y := a[..|a| - 1], b[..|b| - 1];
      assert a == x + [a[|a| - 1]] && b == y + [b[|b| - 1]];
      assert a[|a| - 1] in a && b[|b| - 1] in b;
      DigitsOrder(x, y);
      DigitsOrder(y, x);
      LessEqTotal(x, y);
      if x == y {
        LessEqCommonPrefix(x, [a[|a| - 1]], [b[|b| - 1]]);
      } else {
        LessEqSameLength(x, y, [a[|a| - 1]], [b[|b| - 1]]);
      }
    }
  }

  lemma NumberBound(s: string)
    requires IsNumber(s, 1, 2)
    ensures 0 <= NumberOf(s) <= 99
  {
    var front := s[..|s| - 1];
    if front != "" {
      assert front[..|front| - 1] == "";
      assert NumberOf(front) <= 9;
    }
  }

  lemma PiecewiseOrder(a: string, b: string, x: string, y: string)
    requires |a| == |b| && (forall c | c in a :: IsDigit(c)) && forall c | c in b :: IsDigit(c)
    ensures LessEq(a + ['-'] + x, b + ['-'] + y) <==>
            NumberOf(a) < NumberOf(b) || (NumberOf(a) == NumberOf(b) && LessEq(x, y))
  {
    DigitsOrder(a, b);
    DigitsOrder(b, a);
    LessEqTotal(a, b);
    assert a + ['-'] + x == a + (['-'] + x) && b + ['-'] + y == b + (['-'] + y);
    if a == b {
      LessEqCommonPrefix(a + ['-'], x, y);
    } else {
      LessEqSameLength(a, b, ['-'] + x, ['-'] + y);
    }
  }

  /** The pieces of a zero-padded date. */
  lemma PaddedPieces(a: string) returns (year: string, month: string, day: string)
    requires |a| == 10 && ParseDate(a).Some?
    ensures IsNumber(year, 4, 4) && IsNumber(month, 2, 2) && IsNumber(day, 2, 2)
    ensures a == year + ['-'] + (month + ['-'] + day)
    ensures ParseDate(a).value == NumberOf(year) * 10000 + NumberOf(month) * 100 + NumberOf(day)
  {
    var p := Split(a, '-');
    JoinOfSplit(a, '-');
    ThreeParts(p);
    year, month, day := p[0], p[1], p[2];
  }

  lemma DateNumbersOrder(y1: nat, m1: nat, d1: nat, y2: nat, m2: nat, d2: nat)
    requires m1 <= 99 && m2 <= 99 && d1 <= 99 && d2 <= 99
    ensures y1 < y2 || (y1 == y2 && (m1 < m2 || (m1 == m2 && d1 <= d2)))
            <==> y1 * 10000 + m1 * 100 + d1 <= y2 * 10000 + m2 * 100 + d2
  {}

  /** Zero-padded dates are ordered as their strings. */
  lemma PaddedDatesOrder(a: string, b: string)
    requires |a| == |b| == 10 && ParseDate(a).Some? && ParseDate(b).Some?
    ensures LessEq(a, b) <==> ParseDate(a).value <= ParseDate(b).value
  {
    hide LessEq, NumberOf, ParseDate;
    var y1, m1, d1 := PaddedPieces(a);
    var y2, m2, d2 := PaddedPieces(b);
    PiecewiseOrder(y1, y2, m1 + ['-'] + d1, m2 + ['-'] + d2);
    PiecewiseOrder(m1, m2, d1, d2);
    DigitsOrder(d1, d2);
    NumberBound(m1);
    NumberBound(m2);
    NumberBound(d1);
    NumberBound(d2);
    DateNumbersOrder(NumberOf(y1), NumberOf(m1), NumberOf(d1), NumberOf(y2), NumberOf(m2), NumberOf(d2));
  }

  lemma ThreeParts(p: seq<string>)
    requires |p| == 3
    ensures Join(p, '-') == p[0] + ['-'] + (p[1] + ['-'] + p[2])
  {
    assert p[1..] == [p[1], p[2]];
    assert Join([p[1], p[2]], '-') == p[1] + ['-'] + p[2];
  }

  // ----- keys

  /** The file name without its extension: the resource id. */
  function FileId(key: string): string {
    var parts := Split(key, '/');
    RemoveAll(parts[|parts| - 1], CSV_EXTENSION)
  }

  function DateText(key: string): string {
    var parts := Split(key, '/');
    if |parts| < 2 then "" else parts[|parts| - 2]
  }

  /** The date folder of a key; None where the key is skipped with a warning. */
  function KeyDate(key: string): Option<int> {
    if |Split(key, '/')| < 2 then None else ParseDate(DateText(key))
  }

  predicate WellFormed(key: string) {
    KeyDate(key).Some?
  }

  predicate Descending(a: string, b: string) {
    LessEq(b, a)
  }

  lemma DescendingIsTotal()
    ensures TotalPreorder(Descending)
  {
    forall a, b ensures Descending(a, b) || Descending(b, a) {
      LessEqTotal(a, b);
    }
    forall a, b, c | Descending(a, b) && Descending(b, c) ensures Descending(a, c) {
      LessEqTransitive(c, b, a);
    }
  }

  function KeysOf(keys: seq<string>, id: string): (r: seq<string>)
    ensures forall k :: k in r <==> k in keys && FileId(k) == id
  {
    Filter(keys, k => FileId(k) == id)
  }

  lemma KeysOfNext(keys: seq<string>, n: nat, id: string)
    requires n < |keys|
    ensures KeysOf(keys[..n + 1], id) == KeysOf(keys[..n], id) + if FileId(keys[n]) == id then [keys[n]] else []
  {
    FilterNext(keys, n, k => FileId(k) == id);
  }

  function Good(keys: seq<string>): (r: seq<string>)
    ensures forall k :: k in r <==> k in keys && WellFormed(k)
  {
    Filter(keys, k => WellFormed(k))
  }

  lemma GoodNext(keys: seq<string>, n: nat)
    requires n < |keys|
    ensures Good(keys[..n + 1]) == if WellFormed(keys[n]) then Good(keys[..n]) + [keys[n]] else Good(keys[..n])
  {
    FilterNext(keys, n, k => WellFormed(k));
  }

  /** Grouped keys in the order of the groups. */
  function Chained(order: seq<string>, groups: map<string, seq<string>>): seq<string>
    requires forall id | id in order :: id in groups
  {
    if order == [] then []
    else
      var last := order[|order| - 1];
      assert order == order[..|order| - 1] + [last];
      Chained(order[..|order| - 1], groups) + groups[last]
  }

  ghost predicate IsGrouping(order: seq<string>, groups: map<string, seq<string>>) {
    && Distinct(order)
    && (forall id | id in order :: id in groups)
    && forall id, k | id in groups && k in groups[id] :: FileId(k) == id
  }

  /** Chaining the groups loses and mixes nothing. */
  lemma {:induction false} ChainedKeysOf(order: seq<string>, groups: map<string, seq<string>>, id: string)
    requires IsGrouping(order, groups)
    ensures KeysOf(Chained(order, groups), id) == if id in order then groups[id] else []
  {
    hide FileId;
    if order != [] {
      var front, last := order[..|order| - 1], order[|order| - 1];
      assert order == front + [last];
      assert last !in front;
      ChainedKeysOf(front, groups, id);
      FilterAppend(Chained(front, groups), groups[last], k => FileId(k) == id);
      if id == last {
        FilterAll(groups[last], k => FileId(k) == id);
      } else {
        FilterNone(groups[last], k => FileId(k) == id);
      }
    }
  }

  ghost predicate DayExists(y: int, m: int, d: int) {
    && 1 <= m <= 12 && 1 <= d <= 31
    && (d == 31 ==> m != 2 && m != 4 && m != 6 && m != 9 && m != 11)
    && (d == 30 ==> m != 2)
    && (d == 29 && m == 2 ==> y % 400 == 0 || (y % 4 == 0 && y % 100 != 0))
  }

  lemma DaysOfMonths(y: int, m: int, d: int)
    ensures 1 <= m <= 12 && 1 <= d <= DaysInMonth(y, m) <==> DayExists(y, m, d)
  {
    LeapYears(y);
    hide IsLeapYear;
  }

  lemma LeapYears(y: int)
    ensures IsLeapYear(y) <==> y % 400 == 0 || (y % 4 == 0 && y % 100 != 0)
  {
    if y % 400 == 0 {
      assert y == 4 * (100 * (y / 400));
    }
  }

  /** A date is read exactly if the day exists. */
  lemma DateIsReadIff(year: string, month: string, day: string)
    requires IsNumber(year, 4, 4) && IsNumber(month, 1, 2) && IsNumber(day, 1, 2)
    ensures var (y, m, d) := (NumberOf(year), NumberOf(month), NumberOf(day));
            ParseDate(year + "-" + (month + "-" + day)) ==
            if y >= 1 && DayExists(y, m, d) then Some(10000 * y + 100 * m + d) else None
  {
    hide NumberOf, DaysInMonth, DayExists, Split, Join;
    DaysOfMonths(NumberOf(year), NumberOf(month), NumberOf(day));
    var parts := [year, month, day];
    ThreeParts(parts);
    SplitOfJoin(parts, '-');
  }

  /** A key names its instance by the file and its day by the folder above. */
  lemma KeyParts(path: string, date: string, name: string)
    requires '/' !in date && '/' !in name && !Contains(name, ".csv")
    ensures var key := path + "/" + (date + "/" + (name + ".csv"));
            FileId(key) == name && KeyDate(key) == ParseDate(date)
  {
    hide ParseDate;
    var file := name + ".csv";
    SplitConcat(path, date + "/" + file, '/');
    SplitPiece(date, file, '/');
    SplitPiece(file, "", '/');
    RemoveAppended(name, CSV_EXTENSION);
    RemoveAllAbsent(name, CSV_EXTENSION);
  }

  // ----- the keys of one instance

  /** The keys from the first one dated after the captured date. */
  function FromFirstFresh(ks: seq<string>, captured: Option<int>): seq<string> {
    if ks == [] then []
    else if IsFresh(ks[0], captured) then ks
    else FromFirstFresh(ks[1..], captured)
  }

  /** Without a captured date every key is fresh. */
  predicate IsFresh(key: string, captured: Option<int>) {
    captured.None? || (WellFormed(key) && KeyDate(key).value > captured.value)
  }

  lemma {:induction false} FromFirstFreshNext(ks: seq<string>, key: string, captured: Option<int>)
    ensures FromFirstFresh(ks + [key], captured) ==
            if FromFirstFresh(ks, captured) != [] then FromFirstFresh(ks, captured) + [key]
            else if IsFresh(key, captured) then [key] else []
  {
    hide IsFresh;
    if ks == [] {
      assert (ks + [key])[1..] == [];
    } else if !IsFresh(ks[0], captured) {
      assert (ks + [key])[1..] == ks[1..] + [key];
      FromFirstFreshNext(ks[1..], key, captured);
    }
  }

  ghost predicate IsNewest(date: int, ks: seq<string>) {
    && (exists k | k in ks :: WellFormed(k) && KeyDate(k).value == date)
    && forall k | k in ks :: WellFormed(k) ==> KeyDate(k).value <= date
  }

  /** What the filter is for: all keys of the instance if its newest is dated after the captured date, else none. */
  ghost predicate AllOrNone(ks: seq<string>, captured: Option<int>) {
    FromFirstFresh(ks, captured) == if exists k | k in ks :: IsFresh(k, captured) then ks else []
  }

  lemma {:induction false} FromFirstFreshNone(ks: seq<string>, captured: Option<int>)
    ensures FromFirstFresh(ks, captured) == [] <==> forall k | k in ks :: !IsFresh(k, captured)
    ensures |FromFirstFresh(ks, captured)| <= |ks|
  {
    hide IsFresh;
    if ks != [] {
      FromFirstFreshNone(ks[1..], captured);
      assert ks == [ks[0]] + ks[1..];
    }
  }

  /** For every captured date it is all or none exactly when the first key, the largest string, has the newest date. */
  lemma AllOrNoneIff(ks: seq<string>)
    requires ks != [] && WellFormed(ks[0]) && forall k | k in ks :: WellFormed(k)
    ensures (forall captured :: AllOrNone(ks, captured)) <==> IsNewest(KeyDate(ks[0]).value, ks)
  {
    hide KeyDate;
    var first := KeyDate(ks[0]).value;
    assert ks[0] in ks;
    if IsNewest(first, ks) {
      forall captured ensures AllOrNone(ks, captured) {
        FromFirstFreshNone(ks, captured);
      }
    } else {
      var k :| k in ks && KeyDate(k).value > first;
      assert IsFresh(k, Some(first)) && !IsFresh(ks[0], Some(first));
      FromFirstFreshNone(ks[1..], Some(first));
      assert !AllOrNone(ks, Some(first));
    }
  }

  /** A key whose folder is a zero-padded date below the path. */
  ghost predicate IsBelow(key: string, path: string) {
    && |DateText(key)| == 10
    && exists file :: key == path + DateText(key) + ['/'] + file
  }

  /** Keys that share their path up to a zero-padded date are ordered by date, so the law holds for them. */
  lemma SharedPathIsNewestFirst(ks: seq<string>, path: string)
    requires ks != [] && SortedBy(ks, Descending) && forall k | k in ks :: WellFormed(k) && IsBelow(k, path)
    ensures forall captured :: AllOrNone(ks, captured)
  {
    hide KeyDate, IsBelow;
    assert ks[0] in ks;
    forall k | k in ks ensures WellFormed(k) && KeyDate(k).value <= KeyDate(ks[0]).value {
      var i :| 0 <= i < |ks| && ks[i] == k;
      assert i == 0 || Descending(ks[0], ks[i]);
      if i > 0 {
        DatesFollowKeys(k, ks[0], path);
      }
    }
    AllOrNoneIff(ks);
  }

  lemma DatesFollowKeys(a: string, b: string, path: string)
    requires WellFormed(a) && WellFormed(b) && IsBelow(a, path) && IsBelow(b, path) && LessEq(a, b)
    ensures KeyDate(a).value <= KeyDate(b).value
  {
    hide LessEq, ParseDate, DateText;
    var d, e := DateText(a), DateText(b);
    var x :| a == path + d + ['/'] + x;
    var y :| b == path + e + ['/'] + y;
    assert a == path + (d + (['/'] + x)) && b == path + (e + (['/'] + y));
    LessEqCommonPrefix(path, d + (['/'] + x), e + (['/'] + y));
    if d != e {
      LessEqSameLength(d, e, ['/'] + x, ['/'] + y);
      PaddedDatesOrder(d, e);
    }
  }

  // ----- the filters

  datatype ScannedRecommendation = ScannedRecommendation(lastCaptured: Option<int>)

  /** The captured date of the newest past recommendation. */
  function CapturedOf(past: map<string, seq<ScannedRecommendation>>, id: string): Option<int> {
    if id in past && past[id] != [] then past[id][0].lastCaptured else None
  }

  /** The well-formed keys of one instance, largest first. */
  function InstanceKeys(keys: seq<string>, id: string): seq<string> {
    KeysOf(Good(Sort(keys, Descending)), id)
  }

  lemma InstanceKeysMembers(keys: seq<string>, id: string)
    ensures forall k :: k in InstanceKeys(keys, id) <==> k in keys && WellFormed(k) && FileId(k) == id
  {
    hide Sort, FileId, WellFormed;
    SortMembers(keys, Descending);
  }

  /** The instance is reported as unchanged: its first key is not fresh. */
  ghost predicate IsUnchanged(ks: seq<string>, captured: Option<int>) {
    ks != [] && !IsFresh(ks[0], captured)
  }

  /** What the loop knows of one instance. */
  ghost predicate Fits(ks: seq<string>, captured: Option<int>, kept: seq<string>, isStale: bool) {
    kept == FromFirstFresh(ks, captured) && isStale == IsUnchanged(ks, captured)
  }

  function KeptOf(result: map<string, seq<string>>, id: string): seq<string> {
    if id in result then result[id] else []
  }

  /** What the loop has gathered from the keys so far. */
  ghost predicate Gathers(done: seq<string>, order: seq<string>, result: map<string, seq<string>>,
                          stale: map<string, seq<ScannedRecommendation>>, past: map<string, seq<ScannedRecommendation>>)
  {
    && (forall id :: id in order <==> id in result)
    && (forall id | id in result :: result[id] != [])
    && (forall id :: Fits(KeysOf(done, id), CapturedOf(past, id), KeptOf(result, id), id in stale))
    && (forall id | id in stale :: id in past && stale[id] == past[id])
  }

  method FilterKeysWithoutUpdates(keys: seq<string>, past: map<string, seq<ScannedRecommendation>>)
    returns (kept: seq<string>, stale: map<string, seq<ScannedRecommendation>>)
    ensures forall id :: KeysOf(kept, id) == FromFirstFresh(InstanceKeys(keys, id), CapturedOf(past, id))
    ensures forall id :: id in stale <==> IsUnchanged(InstanceKeys(keys, id), CapturedOf(past, id))
    ensures forall id | id in stale :: id in past && stale[id] == past[id]
  {
    hide Good, KeysOf, Sort, FromFirstFresh, IsUnchanged, FileId, KeyDate, IsFresh, CapturedOf, IsGrouping, Chained;
    var sorted := Sort(keys, Descending);
    var result: map<string, seq<string>> := map[];
    var order: seq<string> := [];
    stale := map[];
    NothingGathered(sorted, past);
    for i := 0 to |sorted|
      invariant Gathers(Good(sorted[..i]), order, result, stale, past)
      invariant IsGrouping(order, result)
    {
      var key := sorted[i];
      GoodNext(sorted, i);
      if WellFormed(key) {
        var id := FileId(key);
        GroupingGrows(order, result, key);
        if id in result {
          AppendKey(Good(sorted[..i]), order, result, stale, past, key);
          result := result[id := result[id] + [key]];
        } else if IsFresh(key, CapturedOf(past, id)) {
          KeepFreshKey(Good(sorted[..i]), order, result, stale, past, key);
          result, order := result[id := [key]], order + [id];
        } else {
          MarkUnchanged(Good(sorted[..i]), order, result, stale, past, key);
          stale := stale[id := past[id]];
        }
      }
    }
    assert sorted[..|sorted|] == sorted;
    kept := Chained(order, result);
    forall id {
      ChainedKeysOf(order, result, id);
    }
  }

  lemma NothingGathered(sorted: seq<string>, past: map<string, seq<ScannedRecommendation>>)
    ensures Gathers(Good(sorted[..0]), [], map[], map[], past) && IsGrouping([], map[])
  {
    hide FileId, KeyDate;
    assert forall id :: KeysOf([], id) == [];
  }

  lemma AppendKey(done: seq<string>, order: seq<string>, result: map<string, seq<string>>,
                    stale: map<string, seq<ScannedRecommendation>>, past: map<string, seq<ScannedRecommendation>>,
                    key: string)
    requires Gathers(done, order, result, stale, past)
    requires FileId(key) in result
    ensures Gathers(done + [key], order, result[FileId(key) := result[FileId(key)] + [key]], stale, past)
  {
    hide KeysOf, FileId, IsFresh, CapturedOf, Fits;
    var id := FileId(key);
    OneMoreKey(done, key);
    InstanceNext(KeysOf(done, id), key, CapturedOf(past, id), KeptOf(result, id), id in stale);
  }

  lemma KeepFreshKey(done: seq<string>, order: seq<string>, result: map<string, seq<string>>,
                    stale: map<string, seq<ScannedRecommendation>>, past: map<string, seq<ScannedRecommendation>>,
                    key: string)
    requires Gathers(done, order, result, stale, past)
    requires FileId(key) !in result && IsFresh(key, CapturedOf(past, FileId(key)))
    ensures Gathers(done + [key], order + [FileId(key)], result[FileId(key) := [key]], stale, past)
  {
    hide KeysOf, FileId, IsFresh, CapturedOf, Fits;
    var id := FileId(key);
    OneMoreKey(done, key);
    InstanceNext(KeysOf(done, id), key, CapturedOf(past, id), KeptOf(result, id), id in stale);
  }

  lemma MarkUnchanged(done: seq<string>, order: seq<string>, result: map<string, seq<string>>,
                    stale: map<string, seq<ScannedRecommendation>>, past: map<string, seq<ScannedRecommendation>>,
                    key: string)
    requires Gathers(done, order, result, stale, past)
    requires FileId(key) !in result && !IsFresh(key, CapturedOf(past, FileId(key)))
    ensures FileId(key) in past && Gathers(done + [key], order, result, stale[FileId(key) := past[FileId(key)]], past)
  {
    hide KeysOf, FileId, IsFresh, CapturedOf, Fits;
    var id := FileId(key);
    OneMoreKey(done, key);
    InstanceNext(KeysOf(done, id), key, CapturedOf(past, id), KeptOf(result, id), id in stale);
    if id !in past {
      FreshWithoutPast(past, id, key);
    }
  }

  lemma OneMoreKey(done: seq<string>, key: string)
    ensures forall id ::
            KeysOf(done + [key], id) == if id == FileId(key) then KeysOf(done, id) + [key] else KeysOf(done, id)
  {
    hide FileId, KeysOf;
    forall id
      ensures KeysOf(done + [key], id) == if id == FileId(key) then KeysOf(done, id) + [key] else KeysOf(done, id)
    {
      assert (done + [key])[..|done|] == done && (done + [key])[..|done| + 1] == done + [key];
      KeysOfNext(done + [key], |done|, id);
    }
  }

  lemma InstanceNext(ks: seq<string>, key: string, captured: Option<int>, kept: seq<string>, isStale: bool)
    requires Fits(ks, captured, kept, isStale)
    ensures if kept != [] then Fits(ks + [key], captured, kept + [key], isStale)
            else if IsFresh(key, captured) then Fits(ks + [key], captured, [key], isStale)
            else Fits(ks + [key], captured, [], true)
  {
    hide IsFresh;
    FromFirstFreshNext(ks, key, captured);
    if ks != [] {
      assert (ks + [key])[0] == ks[0];
    }
  }

  lemma FreshWithoutPast(past: map<string, seq<ScannedRecommendation>>, id: string, key: string)
    requires id !in past
    ensures IsFresh(key, CapturedOf(past, id))
  {}

  lemma GroupingGrows(order: seq<string>, groups: map<string, seq<string>>, key: string)
    requires IsGrouping(order, groups) && forall id :: id in order <==> id in groups
    ensures var id := FileId(key);
            if id in groups then IsGrouping(order, groups[id := groups[id] + [key]])
            else IsGrouping(order + [id], groups[id := [key]])
  {
    hide FileId;
  }

  /** The instance's keys depend on nothing but the keys with its file name. */
  lemma InstanceKeysOf(keys: seq<string>, id: string)
    ensures InstanceKeys(keys, id) == Good(Sort(KeysOf(keys, id), Descending))
  {
    hide FileId, KeyDate, Descending;
    var sorted := Sort(keys, Descending);
    DescendingIsTotal();
    FiltersCommute(sorted, k => WellFormed(k), k => FileId(k) == id);
    FilterOfSort(keys, Descending, k => FileId(k) == id);
  }

  method FilterKeysByOccurrenceCount(keys: seq<string>, minCount: int)
    returns (kept: seq<string>, insufficient: map<string, seq<string>>)
    ensures forall id :: KeysOf(kept, id) == if |KeysOf(keys, id)| >= minCount then KeysOf(keys, id) else []
    ensures forall id :: id in insufficient <==> 0 < |KeysOf(keys, id)| < minCount
    ensures forall id | id in insufficient :: insufficient[id] == KeysOf(keys, id)
  {
    hide FileId, KeysOf, Chained, IsGrouping;
    var order, groups := GroupByFile(keys);
    var validOrder: seq<string> := [];
    var valid: map<string, seq<string>> := map[];
    insufficient := map[];
    EmptyGrouping();
    for i := 0 to |order|
      invariant IsGrouping(validOrder, valid)
      invariant forall id :: id in validOrder <==> id in valid
      invariant forall id :: id in valid <==> id in order[..i] && |KeysOf(keys, id)| >= minCount
      invariant forall id | id in valid :: valid[id] == KeysOf(keys, id)
      invariant forall id :: id in insufficient <==> id in order[..i] && |KeysOf(keys, id)| < minCount
      invariant forall id | id in insufficient :: insufficient[id] == KeysOf(keys, id)
    {
      var id := order[i];
      assert order[..i + 1] == order[..i] + [id];
      assert id in order;
      if |groups[id]| >= minCount {
        GroupingAdds(validOrder, valid, order, groups, i);
        validOrder, valid := validOrder + [id], valid[id := groups[id]];
      } else {
        insufficient := insufficient[id := groups[id]];
      }
    }
    assert order[..|order|] == order;
    kept := Chained(validOrder, valid);
    forall id {
      ChainedKeysOf(validOrder, valid, id);
    }
  }

  /** The first loop of the filter. */
  method GroupByFile(keys: seq<string>) returns (order: seq<string>, groups: map<string, seq<string>>)
    ensures IsGrouping(order, groups) && forall id :: id in order <==> id in groups
    ensures forall id :: KeptOf(groups, id) == KeysOf(keys, id)
    ensures forall id | id in groups :: groups[id] != []
  {
    hide FileId, KeysOf, IsGrouping;
    order, groups := [], map[];
    EmptyGrouping();
    for i := 0 to |keys|
      invariant IsGrouping(order, groups) && forall id :: id in order <==> id in groups
      invariant forall id :: KeptOf(groups, id) == KeysOf(keys[..i], id)
      invariant forall id | id in groups :: groups[id] != []
    {
      var key := keys[i];
      var id := FileId(key);
      assert keys[..i + 1] == keys[..i] + [key];
      OneMoreKey(keys[..i], key);
      GroupingGrows(order, groups, key);
      if id in groups {
        groups := groups[id := groups[id] + [key]];
      } else {
        order, groups := order + [id], groups[id := [key]];
      }
    }
    assert keys[..|keys|] == keys;
  }

  lemma EmptyGrouping()
    ensures IsGrouping([], map[])
    ensures forall id :: KeysOf([], id) == []
  {}

  lemma GroupingAdds(validOrder: seq<string>, valid: map<string, seq<string>>, order: seq<string>,
                     groups: map<string, seq<string>>, i: nat)
    requires IsGrouping(validOrder, valid) && IsGrouping(order, groups) && i < |order|
    requires forall id | id in validOrder :: id in order[..i]
    ensures IsGrouping(validOrder + [order[i]], valid[order[i] := groups[order[i]]])
  {
    hide FileId;
    assert order[i] in order;
    assert order[i] !in order[..i];
  }

  /** Enough daily files, or no minimum in force. */
  ghost predicate IsEnough(keys: seq<string>, id: string, minDays: int, forceRescan: bool) {
    forceRescan || minDays == 0 || |KeysOf(keys, id)| >= minDays
  }

  /** Nothing is known of the instance, or its newest past recommendation, the first, was captured before the
      date of the key. */
  ghost predicate IsNew(key: string, past: map<string, seq<ScannedRecommendation>>)
    requires WellFormed(key)
  {
    var id := FileId(key);
    id in past && past[id] != [] && past[id][0].lastCaptured.Some? ==>
      past[id][0].lastCaptured.value < KeyDate(key).value
  }

  /** A well-formed key with a new one of the same instance at or above it in the order of the strings. */
  ghost predicate IsKept(key: string, keys: seq<string>, past: map<string, seq<ScannedRecommendation>>) {
    && key in keys && WellFormed(key)
    && exists k | k in keys :: WellFormed(k) && FileId(k) == FileId(key) && LessEq(key, k) && IsNew(k, past)
  }

  /** The largest well-formed key of the instance. */
  ghost predicate IsLargest(key: string, keys: seq<string>, id: string) {
    && key in keys && WellFormed(key) && FileId(key) == id
    && forall k | k in keys && WellFormed(k) && FileId(k) == id :: LessEq(k, key)
  }

  ghost predicate HasNothingNew(keys: seq<string>, id: string, past: map<string, seq<ScannedRecommendation>>) {
    exists k :: IsLargest(k, keys, id) && !IsNew(k, past)
  }

  lemma FreshIffNew(key: string, past: map<string, seq<ScannedRecommendation>>)
    requires WellFormed(key)
    ensures IsFresh(key, CapturedOf(past, FileId(key))) <==> IsNew(key, past)
  {
    hide FileId, KeyDate;
  }

  lemma {:induction false} FromFirstFreshMembers(ks: seq<string>, captured: Option<int>, key: string)
    requires SortedBy(ks, Descending)
    ensures key in FromFirstFresh(ks, captured) <==>
            key in ks && exists k | k in ks :: LessEq(key, k) && IsFresh(k, captured)
  {
    hide IsFresh, LessEq;
    if ks != [] {
      assert ks == [ks[0]] + ks[1..];
      FromFirstFreshMembers(ks[1..], captured, key);
      LessEqTotal(key, ks[0]);
      forall k | k in ks[1..] ensures LessEq(k, ks[0]) {
        var i :| 0 <= i < |ks[1..]| && ks[1..][i] == k;
        assert Descending(ks[0], ks[i + 1]);
      }
      LessEqTotal(ks[0], ks[0]);
      if key == ks[0] {
        forall k | k in ks && LessEq(key, k) ensures k == key {
          LessEqTotal(key, k);
        }
      }
    }
  }

  lemma KeptIff(keys: seq<string>, past: map<string, seq<ScannedRecommendation>>, key: string)
    ensures key in FromFirstFresh(InstanceKeys(keys, FileId(key)), CapturedOf(past, FileId(key))) <==>
            IsKept(key, keys, past)
  {
    hide FileId, KeyDate, LessEq, InstanceKeys, CapturedOf, IsFresh, IsNew, SortedBy, FromFirstFresh;
    var id := FileId(key);
    InstanceKeysMembers(keys, id);
    InstanceKeysSorted(keys, id);
    FromFirstFreshMembers(InstanceKeys(keys, id), CapturedOf(past, id), key);
    forall k | k in InstanceKeys(keys, id) ensures IsFresh(k, CapturedOf(past, id)) <==> IsNew(k, past) {
      FreshIffNew(k, past);
    }
  }

  lemma UnchangedIff(keys: seq<string>, past: map<string, seq<ScannedRecommendation>>, id: string)
    ensures IsUnchanged(InstanceKeys(keys, id), CapturedOf(past, id)) <==> HasNothingNew(keys, id, past)
  {
    hide FileId, KeyDate, LessEq, InstanceKeys, CapturedOf, IsFresh, IsNew, FromFirstFresh;
    var ks := InstanceKeys(keys, id);
    InstanceKeysMembers(keys, id);
    InstanceKeysSorted(keys, id);
    if ks != [] {
      assert ks[0] in ks;
      forall k | k in ks ensures LessEq(k, ks[0]) {
        var i :| 0 <= i < |ks| && ks[i] == k;
        LessEqTotal(k, k);
        assert i == 0 || Descending(ks[0], ks[i]);
      }
      assert IsLargest(ks[0], keys, id);
      forall k | IsLargest(k, keys, id) ensures k == ks[0] {
        LessEqTotal(k, ks[0]);
      }
      FreshIffNew(ks[0], past);
    }
  }

  /** The two filters one after the other. The last step, which takes the insufficient instances out of
      the unchanged ones, finds none of them there. */
  method SelectKeys(keys: seq<string>, minDays: int, past: map<string, seq<ScannedRecommendation>>, forceRescan: bool)
    returns (selected: seq<string>, insufficient: map<string, seq<string>>,
             stale: map<string, seq<ScannedRecommendation>>,
             ghost beforeExclusion: map<string, seq<ScannedRecommendation>>)
    ensures forall id :: id in insufficient <==> KeysOf(keys, id) != [] && !IsEnough(keys, id, minDays, forceRescan)
    ensures past != map[] && !forceRescan ==> forall id ::
              KeysOf(selected, id) == if IsEnough(keys, id, minDays, forceRescan)
                                      then FromFirstFresh(InstanceKeys(keys, id), CapturedOf(past, id)) else []
    ensures past == map[] || forceRescan ==> stale == map[] && forall id ::
              KeysOf(selected, id) == if IsEnough(keys, id, minDays, forceRescan) then KeysOf(keys, id) else []
    ensures past != map[] && !forceRescan ==> forall id ::
              id in stale <==>
                  IsEnough(keys, id, minDays, forceRescan) && IsUnchanged(InstanceKeys(keys, id), CapturedOf(past, id))
    ensures stale == beforeExclusion
    ensures past != map[] && !forceRescan ==> forall key ::
              key in selected <==> IsEnough(keys, FileId(key), minDays, forceRescan) && IsKept(key, keys, past)
    ensures past != map[] && !forceRescan ==> forall id ::
              id in stale <==> IsEnough(keys, id, minDays, forceRescan) && HasNothingNew(keys, id, past)
  {
    hide KeysOf, InstanceKeys, FromFirstFresh, IsUnchanged, CapturedOf, IsKept, HasNothingNew, FileId;
    selected, insufficient, stale := keys, map[], map[];
    if minDays != 0 && !forceRescan {
      selected, insufficient := FilterKeysByOccurrenceCount(selected, minDays);
    }
    if past != map[] && !forceRescan {
      ghost var enough := selected;
      selected, stale := FilterKeysWithoutUpdates(selected, past);
      forall id
        ensures InstanceKeys(enough, id) ==
                if IsEnough(keys, id, minDays, forceRescan) then InstanceKeys(keys, id) else []
      {
        InstanceKeysOf(enough, id);
        InstanceKeysOf(keys, id);
        NoInstanceKeys();
      }
      NothingToKeep(past);
    }
    beforeExclusion := stale;
    if insufficient != map[] && stale != map[] {
      stale := map id | id in stale && id !in insufficient :: stale[id];
    }
    forall id ensures IsUnchanged(InstanceKeys(keys, id), CapturedOf(past, id)) <==> HasNothingNew(keys, id, past) {
      UnchangedIff(keys, past, id);
    }
    forall key ensures key in FromFirstFresh(InstanceKeys(keys, FileId(key)), CapturedOf(past, FileId(key))) <==>
                       IsKept(key, keys, past) {
      KeptIff(keys, past, key);
    }
    assert forall key :: key in selected <==> key in KeysOf(selected, FileId(key));
  }

  lemma NoInstanceKeys()
    ensures Good(Sort([], Descending)) == []
  {}

  lemma NothingToKeep(past: map<string, seq<ScannedRecommendation>>)
    ensures forall captured :: FromFirstFresh([], captured) == [] && !IsUnchanged([], captured)
  {}

  /** With enough files, an instance is unchanged or downloaded, and never both whatever the captured date
      exactly when its largest key has the newest date. */
  lemma ExactlyOneIff(ks: seq<string>)
    requires ks != [] && WellFormed(ks[0]) && forall k | k in ks :: WellFormed(k)
    ensures forall captured :: IsUnchanged(ks, captured) || FromFirstFresh(ks, captured) != []
    ensures (forall captured :: !(IsUnchanged(ks, captured) && FromFirstFresh(ks, captured) != []))
            <==> IsNewest(KeyDate(ks[0]).value, ks)
  {
    hide KeyDate;
    var first := KeyDate(ks[0]).value;
    assert ks[0] in ks;
    forall captured ensures IsUnchanged(ks, captured) || FromFirstFresh(ks, captured) != [] {
      FromFirstFreshNone(ks, captured);
    }
    if IsNewest(first, ks) {
      forall captured ensures !(IsUnchanged(ks, captured) && FromFirstFresh(ks, captured) != []) {
        FromFirstFreshNone(ks, captured);
      }
    } else {
      var k :| k in ks && KeyDate(k).value > first;
      FromFirstFreshNone(ks, Some(first));
      assert IsFresh(k, Some(first)) && IsUnchanged(ks, Some(first));
    }
  }

  lemma InstanceKeysSorted(keys: seq<string>, id: string)
    ensures SortedBy(InstanceKeys(keys, id), Descending)
  {
    hide Descending, WellFormed, InstanceKeys, SortedBy;
    InstanceKeysOf(keys, id);
    DescendingIsTotal();
    FilterOfSort(KeysOf(keys, id), Descending, k => WellFormed(k));
    SortSorted(Good(KeysOf(keys, id)), Descending);
  }

  /** From the list of all keys: an instance whose well-formed keys lie below one path, in folders named by
      zero-padded dates, keeps all of them or none, whatever its captured date. */
  lemma SharedPathKeepsAllOrNone(keys: seq<string>, id: string, path: string)
    requires forall k | k in keys && WellFormed(k) && FileId(k) == id :: IsBelow(k, path)
    ensures forall captured :: AllOrNone(InstanceKeys(keys, id), captured)
  {
    hide WellFormed, FileId, IsBelow, InstanceKeys, IsFresh, SortedBy;
    InstanceKeysMembers(keys, id);
    InstanceKeysSorted(keys, id);
    var ks := InstanceKeys(keys, id);
    if ks == [] {
      assert forall captured :: FromFirstFresh(ks, captured) == [];
    } else {
      SharedPathIsNewestFirst(ks, path);
    }
  }

  /** The outcomes of an instance that has well-formed keys, as the two filters decide them. */
  ghost predicate IsLeftOut(keys: seq<string>, id: string, minDays: int, forceRescan: bool) {
    !IsEnough(keys, id, minDays, forceRescan)
  }

  ghost predicate IsStale(keys: seq<string>, id: string, minDays: int, forceRescan: bool, captured: Option<int>) {
    IsEnough(keys, id, minDays, forceRescan) && IsUnchanged(InstanceKeys(keys, id), captured)
  }

  ghost predicate IsDownloaded(keys: seq<string>, id: string, minDays: int, forceRescan: bool, captured: Option<int>) {
    IsEnough(keys, id, minDays, forceRescan) && FromFirstFresh(InstanceKeys(keys, id), captured) != []
  }

  /** Insufficient, unchanged or downloaded: for an instance with well-formed keys below one path exactly one of
      the three, whatever its captured date. */
  lemma ExactlyOneOutcome(keys: seq<string>, id: string, path: string, minDays: int, forceRescan: bool,
                          captured: Option<int>)
    requires forall k | k in keys && WellFormed(k) && FileId(k) == id :: IsBelow(k, path)
    requires InstanceKeys(keys, id) != []
    ensures var left := IsLeftOut(keys, id, minDays, forceRescan);
            var stale := IsStale(keys, id, minDays, forceRescan, captured);
            var downloaded := IsDownloaded(keys, id, minDays, forceRescan, captured);
            && (left || stale || downloaded)
            && !(left && stale) && !(left && downloaded) && !(stale && downloaded)
  {
    hide KeyDate, FileId, IsBelow, InstanceKeys, IsEnough, IsUnchanged, FromFirstFresh, AllOrNone;
    var ks := InstanceKeys(keys, id);
    InstanceKeysMembers(keys, id);
    assert ks[0] in ks;
    SharedPathKeepsAllOrNone(keys, id, path);
    AllOrNoneIff(ks);
    ExactlyOneIff(ks);
  }

  // ----- keys with different paths

  const OLDER_BELOW_B := "b/2024-01-01/i.csv"
  const NEWER_BELOW_A := "a/2024-01-02/i.csv"

  lemma FirstDays(text: string, day: char)
    requires '1' <= day <= '2' && text == "2024-01-0" + [day]
    ensures ParseDate(text) == Some(20240100 + DigitValue(day))
  {
    var parts := ["2024", "01", ['0', day]];
    ThreeParts(parts);
    assert text == "2024" + ['-'] + ("01" + ['-'] + ['0', day]);
    SplitOfJoin(parts, '-');
    assert NumberOf("2") == 2 && NumberOf("0") == 0;
    assert "20"[..1] == "2" && "202"[..2] == "20" && "2024"[..3] == "202" && "01"[..1] == "0" && ['0', day][..1] == "0";
    assert NumberOf("20") == 20;
    assert NumberOf("202") == 202;
  }

  lemma FirstDaysKey(key: string, folder: char, day: char)
    requires '1' <= day <= '2' && folder != '/' && key == [folder] + "/2024-01-0" + [day] + "/i.csv"
    ensures KeyDate(key) == Some(20240100 + DigitValue(day)) && FileId(key) == "i"
  {
    var text := "2024-01-0" + [day];
    var parts := [[folder], text, "i.csv"];
    assert Join([text, "i.csv"], '/') == text + ['/'] + "i.csv";
    assert key == [folder] + ['/'] + (text + ['/'] + "i.csv");
    assert parts[1..] == [text, "i.csv"];
    SplitOfJoin(parts, '/');
    FirstDays(text, day);
    assert "i.csv" == "i" + CSV_EXTENSION;
    RemoveAppended("i", CSV_EXTENSION);
    RemoveAllAbsent("i", CSV_EXTENSION);
  }

  lemma SecondIsFresh(older: string, newer: string, captured: int)
    requires !IsFresh(older, Some(captured)) && IsFresh(newer, Some(captured))
    ensures IsUnchanged([older, newer], Some(captured)) && FromFirstFresh([older, newer], Some(captured)) == [newer]
  {
    hide IsFresh;
    assert [older, newer][1..] == [newer];
  }

  lemma FirstLetterDecides(a: string, b: string)
    requires a != "" && b != "" && a[0] > b[0]
    ensures SortedBy([a, b], Descending)
  {}

  /** Without a shared path an instance can be reported unchanged and downloaded, and only in part. */
  lemma PathsApart()
    ensures var ks := [OLDER_BELOW_B, NEWER_BELOW_A];
            && SortedBy(ks, Descending) && (forall k | k in ks :: WellFormed(k) && FileId(k) == "i")
            && IsUnchanged(ks, Some(20240101)) && FromFirstFresh(ks, Some(20240101)) == [NEWER_BELOW_A]
  {
    hide KeyDate, FileId, SortedBy, IsUnchanged, FromFirstFresh;
    FirstDaysKey(OLDER_BELOW_B, 'b', '1');
    FirstDaysKey(NEWER_BELOW_A, 'a', '2');
    SecondIsFresh(OLDER_BELOW_B, NEWER_BELOW_A, 20240101);
    FirstLetterDecides(OLDER_BELOW_B, NEWER_BELOW_A);
  }
}
