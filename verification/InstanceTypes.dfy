/** `_find_non_matching_autoscaling_resources`: the instance type most of the group's resources have. */
module InstanceTypes {
  import opened Wrappers
  import opened Sequences

  /** One entry of the mapping of an instance type to its resources, in insertion order. */
  datatype Entry = Entry(instanceType: string, resources: seq<string>)

  ghost predicate IsMapping(mapping: seq<Entry>) {
    forall i, j | 0 <= i < j < |mapping| :: mapping[i].instanceType != mapping[j].instanceType
  }

  predicate NoFewer(a: Entry, b: Entry) {
    |a.resources| >= |b.resources|
  }

  function AllResources(mapping: seq<Entry>): seq<string> {
    if mapping == [] then [] else mapping[0].resources + AllResources(mapping[1..])
  }

  /** The entry outnumbers every other one. */
  ghost predicate Outnumbers(e: Entry, mapping: seq<Entry>) {
    && e in mapping
    && forall other | other in mapping && other != e :: |e.resources| > |other.resources|
  }

  ghost predicate Named(mapping: seq<Entry>) {
    forall e | e in mapping :: e.instanceType != ""
  }

  /** Exactly one of the two outcomes: the outnumbering type with its resources and all others,
      or no type and every resource. */
  method FindNonMatching(mapping: seq<Entry>)
    returns (target: Option<string>, matching: seq<string>, nonMatching: seq<string>)
    requires mapping != [] && IsMapping(mapping) && Named(mapping)
    ensures target.Some? ==>
            exists e :: Outnumbers(e, mapping) && target.value == e.instanceType && matching == e.resources
    ensures target.None? ==> matching == [] && forall e :: !Outnumbers(e, mapping)
    ensures multiset(matching) + multiset(nonMatching) == multiset(AllResources(mapping))
  {
    hide Sort, Outnumbers, IsMapping, AllResources, SortedBy, NoFewer;
    var sorted := Sort(mapping, NoFewer);
    SortedMapping(mapping);
    SortKeepsResources(mapping);
    if |sorted| == 1 {
      FirstOutnumbers(mapping, sorted);
      OneEntry(sorted);
      return Some(sorted[0].instanceType), sorted[0].resources, [];
    }
    assert forall e | e in sorted :: e.instanceType != "";
    target, matching, nonMatching := ScanSorted(sorted);
    if target.Some? {
      FirstOutnumbers(mapping, sorted);
      assert multiset(matching + nonMatching) == multiset(matching) + multiset(nonMatching);
    } else {
      TieMeansNone(mapping, sorted);
    }
  }

  /** The loop: it stops at the first entry as large as the first. */
  method ScanSorted(sorted: seq<Entry>)
    returns (target: Option<string>, matching: seq<string>, nonMatching: seq<string>)
    requires sorted != [] && forall e | e in sorted :: e.instanceType != ""
    ensures target == if TiesWithFirst(sorted) then None else Some(sorted[0].instanceType)
    ensures target.Some? ==> matching == sorted[0].resources && matching + nonMatching == AllResources(sorted)
    ensures target.None? ==> matching == [] && nonMatching == AllResources(sorted)
  {
    hide AllResources;
    var targetType := "";
    matching, nonMatching := [], [];
    NoResources(sorted);
    for i := 0 to |sorted|
      invariant targetType == if i == 0 then "" else sorted[0].instanceType
      invariant i > 0 ==> matching == sorted[0].resources
      invariant matching + nonMatching == AllResources(sorted[..i])
      invariant forall k | 1 <= k < i :: |sorted[k].resources| != |sorted[0].resources|
    {
      var entry := sorted[i];
      assert entry in sorted;
      NextResources(sorted, i);
      if targetType == "" {
        targetType, matching := entry.instanceType, entry.resources;
      } else if |entry.resources| == |sorted[0].resources| {
        return None, [], AllResources(sorted);
      } else {
        assert matching + (nonMatching + entry.resources) == matching + nonMatching + entry.resources;
        nonMatching := nonMatching + entry.resources;
      }
    }
    assert sorted[..|sorted|] == sorted;
    target := Some(targetType);
  }

  ghost predicate TiesWithFirst(sorted: seq<Entry>)
    requires sorted != []
  {
    exists k :: 1 <= k < |sorted| && |sorted[k].resources| == |sorted[0].resources|
  }

  lemma OneEntry(sorted: seq<Entry>)
    requires |sorted| == 1
    ensures AllResources(sorted) == sorted[0].resources
  {
    assert AllResources(sorted[1..]) == [];
  }

  lemma NoResources(sorted: seq<Entry>)
    ensures AllResources(sorted[..0]) == []
  {}

  lemma SortedMapping(mapping: seq<Entry>)
    requires IsMapping(mapping)
    ensures var sorted := Sort(mapping, NoFewer);
            && SortedBy(sorted, NoFewer)
            && (forall e :: e in sorted <==> e in mapping)
            && forall i, j | 0 <= i < j < |sorted| :: sorted[i] != sorted[j]
  {
    SortSorted(mapping, NoFewer);
    SortMembers(mapping, NoFewer);
    var sorted := Sort(mapping, NoFewer);
    forall i, j | 0 <= i < j < |sorted| ensures sorted[i] != sorted[j] {
      if sorted[i] == sorted[j] {
        assert sorted == sorted[..i] + [sorted[i]] + sorted[i + 1..j] + [sorted[j]] + sorted[j + 1..];
        OnceInMapping(mapping, sorted[i]);
      }
    }
  }

  lemma {:induction false} OnceInMapping(mapping: seq<Entry>, e: Entry)
    requires IsMapping(mapping)
    ensures multiset(mapping)[e] <= 1
  {
    if mapping != [] {
      OnceInMapping(mapping[1..], e);
      assert mapping == [mapping[0]] + mapping[1..];
      if mapping[0] == e {
        assert e !in mapping[1..];
      }
    }
  }

  lemma NextResources(sorted: seq<Entry>, n: nat)
    requires n < |sorted|
    ensures AllResources(sorted[..n + 1]) == AllResources(sorted[..n]) + sorted[n].resources
  {
    assert sorted[..n + 1] == sorted[..n] + [sorted[n]];
    AllResourcesAppend(sorted[..n], [sorted[n]]);
    assert AllResources([sorted[n]]) == sorted[n].resources + [];
  }

  lemma {:induction false} AllResourcesAppend(a: seq<Entry>, b: seq<Entry>)
    ensures AllResources(a + b) == AllResources(a) + AllResources(b)
  {
    if a == [] {
      assert a + b == b;
    } else {
      assert (a + b)[1..] == a[1..] + b;
      AllResourcesAppend(a[1..], b);
    }
  }

  lemma {:induction false} InsertResources(e: Entry, entries: seq<Entry>)
    ensures multiset(AllResources(Insert(e, entries, NoFewer))) ==
            multiset(e.resources) + multiset(AllResources(entries))
  {
    if entries != [] && !NoFewer(e, entries[0]) {
      InsertResources(e, entries[1..]);
      var rest := Insert(e, entries[1..], NoFewer);
      assert Insert(e, entries, NoFewer)[1..] == rest;
    } else {
      assert ([e] + entries)[1..] == entries;
    }
  }

  /** Sorting the mapping keeps the resources. */
  lemma {:induction false} SortKeepsResources(mapping: seq<Entry>)
    ensures multiset(AllResources(Sort(mapping, NoFewer))) == multiset(AllResources(mapping))
  {
    if mapping != [] {
      SortKeepsResources(mapping[1..]);
      InsertResources(mapping[0], Sort(mapping[1..], NoFewer));
    }
  }

  lemma TieMeansNone(mapping: seq<Entry>, sorted: seq<Entry>)
    requires forall e :: e in sorted <==> e in mapping
    requires forall i, j | 0 <= i < j < |sorted| :: sorted[i] != sorted[j]
    requires sorted != [] && SortedBy(sorted, NoFewer) && TiesWithFirst(sorted)
    ensures forall e :: !Outnumbers(e, mapping)
  {
    var i :| 1 <= i < |sorted| && |sorted[i].resources| == |sorted[0].resources|;
    forall e ensures !Outnumbers(e, mapping) {
      if e in mapping {
        var k :| 0 <= k < |sorted| && sorted[k] == e;
        assert k > 0 ==> NoFewer(sorted[0], e);
        var rival := if e == sorted[0] then sorted[i] else sorted[0];
        assert rival in sorted && rival != e;
      }
    }
  }

  lemma FirstOutnumbers(mapping: seq<Entry>, sorted: seq<Entry>)
    requires sorted != [] && SortedBy(sorted, NoFewer) && forall e :: e in sorted <==> e in mapping
    requires !TiesWithFirst(sorted)
    ensures Outnumbers(sorted[0], mapping)
  {
    var first := sorted[0];
    assert first in sorted;
    forall other | other in mapping && other != first ensures |first.resources| > |other.resources| {
      assert other in sorted;
      var k :| 0 <= k < |sorted| && sorted[k] == other;
      assert NoFewer(sorted[0], sorted[k]);
    }
  }

  /** At most one type outnumbers the others, so the target is determined. */
  lemma TargetIsUnique(mapping: seq<Entry>, e: Entry, f: Entry)
    requires Outnumbers(e, mapping) && Outnumbers(f, mapping)
    ensures e == f
  {}
}
