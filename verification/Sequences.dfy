/** Sequences without repetition, and the one sort that every ordering here is made of. */
module Sequences {
  predicate Distinct<T(==)>(s: seq<T>) {
    forall i, j :: 0 <= i < j < |s| ==> s[i] != s[j]
  }

  function Insert<T>(x: T, s: seq<T>, before: (T, T) -> bool): seq<T> {
    if s == [] || before(x, s[0]) then [x] + s else [s[0]] + Insert(x, s[1..], before)
  }

  /** Sorts so that of any two elements the earlier comes `before` the later. */
  function Sort<T>(s: seq<T>, before: (T, T) -> bool): seq<T> {
    if s == [] then [] else Insert(s[0], Sort(s[1..], before), before)
  }

  predicate Sorted<T>(s: seq<T>, before: (T, T) -> bool) {
    forall i, j :: 0 <= i < j < |s| ==> before(s[i], s[j])
  }

  /** `before` orders any two elements at different places of the sequence. */
  predicate Comparable<T>(s: seq<T>, before: (T, T) -> bool) {
    forall i, j :: 0 <= i < |s| && 0 <= j < |s| && i != j ==> before(s[i], s[j]) || before(s[j], s[i])
  }

  ghost predicate Transitive<T(!new)>(before: (T, T) -> bool) {
    forall a, b, c :: before(a, b) && before(b, c) ==> before(a, c)
  }

  lemma SortOne<T>(x: T, before: (T, T) -> bool)
    ensures Sort([x], before) == [x]
  {
    assert [x][1..] == [] && Sort([], before) == [];
  }

  lemma {:induction false} InsertPermutes<T>(x: T, s: seq<T>, before: (T, T) -> bool)
    ensures multiset(Insert(x, s, before)) == multiset{x} + multiset(s) && |Insert(x, s, before)| == |s| + 1
  {
    if s != [] && !before(x, s[0]) {
      InsertPermutes(x, s[1..], before);
      assert s == [s[0]] + s[1..];
    }
  }

  lemma {:induction false} SortPermutes<T>(s: seq<T>, before: (T, T) -> bool)
    ensures multiset(Sort(s, before)) == multiset(s) && |Sort(s, before)| == |s|
  {
    if s != [] {
      SortPermutes(s[1..], before);
      InsertPermutes(s[0], Sort(s[1..], before), before);
      assert s == [s[0]] + s[1..];
    }
  }

  lemma SortMembers<T>(s: seq<T>, before: (T, T) -> bool)
    ensures forall x :: x in Sort(s, before) <==> x in s
  {
    SortPermutes(s, before);
    assert forall x :: x in s <==> x in multiset(s);
    assert forall x :: x in Sort(s, before) <==> x in multiset(Sort(s, before));
  }

  lemma {:induction false} InsertBelow<T>(x: T, s: seq<T>, before: (T, T) -> bool, low: T)
    requires before(low, x) && forall k :: 0 <= k < |s| ==> before(low, s[k])
    ensures forall k :: 0 <= k < |Insert(x, s, before)| ==> before(low, Insert(x, s, before)[k])
  {
    if s != [] && !before(x, s[0]) {
      InsertBelow(x, s[1..], before, low);
    }
  }

  lemma {:induction false} InsertSorts<T(!new)>(x: T, s: seq<T>, before: (T, T) -> bool)
    requires Transitive(before) && Sorted(s, before)
    requires forall k :: 0 <= k < |s| ==> before(x, s[k]) || before(s[k], x)
    ensures Sorted(Insert(x, s, before), before)
  {
    if s != [] {
      if before(x, s[0]) {
        assert forall k :: 0 < k < |s| ==> before(s[0], s[k]);
      } else {
        InsertSorts(x, s[1..], before);
        InsertBelow(x, s[1..], before, s[0]);
      }
    }
  }

  /** Elements that can be compared pairwise end up in order. */
  lemma {:induction false} SortSorts<T(!new)>(s: seq<T>, before: (T, T) -> bool)
    requires Transitive(before) && Comparable(s, before)
    ensures Sorted(Sort(s, before), before)
  {
    if s != [] {
      var rest := Sort(s[1..], before);
      assert forall i :: 0 <= i < |s[1..]| ==> s[1..][i] == s[i + 1];
      SortSorts(s[1..], before);
      SortMembers(s[1..], before);
      forall k | 0 <= k < |rest| ensures before(s[0], rest[k]) || before(rest[k], s[0]) {
        assert rest[k] in s[1..];
        var i :| 0 <= i < |s[1..]| && s[1..][i] == rest[k];
        assert s[i + 1] == rest[k];
      }
      InsertSorts(s[0], rest, before);
    }
  }
}
