/** Sorting by a time stamp: the order is all that sort.Slice promises, ties stay in any order. */
module Sorting {

  predicate SortedBy<T>(s: seq<T>, time: T -> int) {
    forall i, j :: 0 <= i < j < |s| ==> time(s[i]) <= time(s[j])
  }

  function InsertBy<T>(x: T, s: seq<T>, time: T -> int): (r: seq<T>)
    ensures |r| == |s| + 1
  {
    if s == [] || time(x) < time(s[0]) then [x] + s else [s[0]] + InsertBy(x, s[1..], time)
  }

  function SortBy<T>(s: seq<T>, time: T -> int): (r: seq<T>)
    ensures |r| == |s|
  {
    if s == [] then [] else InsertBy(s[|s| - 1], SortBy(s[..|s| - 1], time), time)
  }

  lemma {:induction false} InsertKeepsElements<T>(x: T, s: seq<T>, time: T -> int)
    ensures multiset(InsertBy(x, s, time)) == multiset(s) + multiset{x}
  {
    if s != [] && !(time(x) < time(s[0])) {
      InsertKeepsElements(x, s[1..], time);
      assert s == [s[0]] + s[1..];
    }
  }

  lemma {:induction false} InsertSorts<T>(x: T, s: seq<T>, time: T -> int)
    requires SortedBy(s, time)
    ensures SortedBy(InsertBy(x, s, time), time)
    ensures multiset(InsertBy(x, s, time)) == multiset(s) + multiset{x}
  {
    InsertKeepsElements(x, s, time);
    if s != [] && !(time(x) < time(s[0])) {
      InsertSorts(x, s[1..], time);
      var r := InsertBy(x, s[1..], time);
      forall i | 0 <= i < |r|
        ensures time(s[0]) <= time(r[i])
      {
        assert r[i] in multiset(r);
        assert r[i] in multiset(s[1..]) || r[i] == x;
      }
    }
  }

  lemma {:induction false} SortSorts<T>(s: seq<T>, time: T -> int)
    ensures SortedBy(SortBy(s, time), time) && multiset(SortBy(s, time)) == multiset(s)
  {
    if s != [] {
      var front, last := s[..|s| - 1], s[|s| - 1];
      SortSorts(front, time);
      InsertSorts(last, SortBy(front, time), time);
      assert s == front + [last];
      assert multiset(s) == multiset(front) + multiset{last};
    }
  }

  lemma EqualElements<T>(a: seq<T>, b: seq<T>)
    requires multiset(a) == multiset(b)
    ensures forall x :: x in a <==> x in b
  {
    forall x
      ensures x in a <==> x in b
    {
      assert x in a <==> x in multiset(a);
      assert x in b <==> x in multiset(b);
    }
  }

  lemma {:induction false} OccursOnce<T>(a: seq<T>, i: nat)
    requires i < |a| && forall j :: 0 <= j < |a| && j != i ==> a[j] != a[i]
    ensures multiset(a)[a[i]] == 1
  {
    assert a == a[..i] + [a[i]] + a[i + 1..];
    assert a[i] !in a[..i] && a[i] !in a[i + 1..];
  }

  lemma {:induction false} OccursTwice<T>(a: seq<T>, i: nat, j: nat)
    requires i < j < |a| && a[i] == a[j]
    ensures multiset(a)[a[i]] >= 2
  {
    assert a == a[..j] + [a[j]] + a[j + 1..];
    assert a[i] in a[..j];
  }

  predicate DistinctBy<T, K(==)>(s: seq<T>, id: T -> K) {
    forall i, j :: 0 <= i < j < |s| ==> id(s[i]) != id(s[j])
  }

  lemma DistinctPermute<T, K>(a: seq<T>, b: seq<T>, id: T -> K)
    requires multiset(a) == multiset(b) && DistinctBy(a, id)
    ensures DistinctBy(b, id)
  {
    EqualElements(a, b);
    forall i, j | 0 <= i < j < |b|
      ensures id(b[i]) != id(b[j])
    {
      assert b[i] in a && b[j] in a;
      var x :| 0 <= x < |a| && a[x] == b[i];
      var y :| 0 <= y < |a| && a[y] == b[j];
      if x == y {
        OccursOnce(a, x);
        OccursTwice(b, i, j);
      }
    }
  }
}
