/** The stable sort the planners rely on, by a comparison that says which of two comes no later. */
module Sorting {

  function Insert<T>(x: T, sorted: seq<T>, before: (T, T) -> bool): seq<T> {
    if sorted == [] || before(x, sorted[0]) then [x] + sorted
    else [sorted[0]] + Insert(x, sorted[1..], before)
  }

  function SortBy<T>(s: seq<T>, before: (T, T) -> bool): seq<T> {
    if s == [] then [] else Insert(s[0], SortBy(s[1..], before), before)
  }

  ghost predicate Sorted<T>(s: seq<T>, before: (T, T) -> bool) {
    forall i, j :: 0 <= i < j < |s| ==> before(s[i], s[j])
  }

  ghost predicate Orders<T(!new)>(before: (T, T) -> bool) {
    && (forall a, b :: before(a, b) || before(b, a))
    && (forall a, b, c :: before(a, b) && before(b, c) ==> before(a, c))
  }

  lemma {:induction false} InsertMembers<T>(x: T, sorted: seq<T>, before: (T, T) -> bool)
    ensures multiset(Insert(x, sorted, before)) == multiset(sorted) + multiset{x}
  {
    if sorted != [] && !before(x, sorted[0]) {
      InsertMembers(x, sorted[1..], before);
      assert sorted == [sorted[0]] + sorted[1..];
    }
  }

  lemma {:induction false} InsertSorted<T(!new)>(x: T, sorted: seq<T>, before: (T, T) -> bool)
    requires Orders(before) && Sorted(sorted, before)
    ensures Sorted(Insert(x, sorted, before), before)
  {
    if sorted == [] {
    } else if before(x, sorted[0]) {
      forall e | e in sorted ensures before(x, e) {
        var j :| 0 <= j < |sorted| && sorted[j] == e;
        assert j == 0 || before(sorted[0], sorted[j]);
      }
      SortedCons(x, sorted, before);
    } else {
      var rest := Insert(x, sorted[1..], before);
      InsertSorted(x, sorted[1..], before);
      InsertMembers(x, sorted[1..], before);
      forall e | e in rest ensures before(sorted[0], e) {
        assert e in multiset(rest);
        assert e == x || e in sorted[1..];
      }
      SortedCons(sorted[0], rest, before);
    }
  }

  lemma SortedCons<T>(first: T, rest: seq<T>, before: (T, T) -> bool)
    requires Sorted(rest, before) && forall e :: e in rest ==> before(first, e)
    ensures Sorted([first] + rest, before)
  {
    var all := [first] + rest;
    forall i, j | 0 <= i < j < |all| ensures before(all[i], all[j]) {
      assert all[j] == rest[j - 1] && rest[j - 1] in rest;
      if i > 0 { assert all[i] == rest[i - 1]; }
    }
  }

  /** A sort keeps every element, as often as it occurs. */
  lemma {:induction false} SortMembers<T>(s: seq<T>, before: (T, T) -> bool)
    ensures multiset(SortBy(s, before)) == multiset(s)
    ensures |SortBy(s, before)| == |s|
    ensures forall x :: x in SortBy(s, before) <==> x in s
  {
    if s != [] {
      SortMembers(s[1..], before);
      InsertMembers(s[0], SortBy(s[1..], before), before);
      assert s == [s[0]] + s[1..];
    }
    assert |multiset(SortBy(s, before))| == |multiset(s)|;
    forall x ensures x in SortBy(s, before) <==> x in s {
      assert x in multiset(SortBy(s, before)) <==> x in multiset(s);
    }
  }

  lemma {:induction false} SortSorted<T(!new)>(s: seq<T>, before: (T, T) -> bool)
    requires Orders(before)
    ensures Sorted(SortBy(s, before), before)
  {
    if s != [] {
      SortSorted(s[1..], before);
      InsertSorted(s[0], SortBy(s[1..], before), before);
    }
  }
}
