/** Sums over finite maps and sequences, with the update laws the accounting proofs rest on, and counting. */
module Totals {

  /** The sum of all values of a map; the order of summation is immaterial (see TotalRemove). */
  ghost function Total<K>(m: map<K, nat>): nat {
    if m == map[] then 0
    else var k :| k in m; m[k] + Total(m - {k})
  }

  lemma {:induction false} TotalRemove<K>(m: map<K, nat>, k: K)
    requires k in m
    ensures Total(m) == m[k] + Total(m - {k})
    decreases |m|
  {
    var j :| j in m && Total(m) == m[j] + Total(m - {j});
    if j != k {
      var rest := m - {j};
      assert m - {k} - {j} == rest - {k};
      assert |rest| < |m| by { assert rest.Keys == m.Keys - {j}; }
      assert |m - {k}| < |m| by { assert (m - {k}).Keys == m.Keys - {k}; }
      TotalRemove(rest, k);
      TotalRemove(m - {k}, j);
    }
  }

  lemma TotalUpdate<K>(m: map<K, nat>, k: K, v: nat)
    ensures Total(m[k := v]) == Total(m - {k}) + v
  {
    var m' := m[k := v];
    assert m' - {k} == m - {k};
    TotalRemove(m', k);
  }

  /** Summing under other names. */
  lemma {:induction false} TotalRename<K, L>(a: map<K, nat>, b: map<L, nat>, f: map<K, L>)
    requires f.Keys == a.Keys && f.Values == b.Keys
    requires forall i, j :: i in f && j in f && i != j ==> f[i] != f[j]
    requires forall k :: k in f ==> a[k] == b[f[k]]
    ensures Total(a) == Total(b)
    decreases |a|
  {
    if a == map[] {
      assert b == map[];
    } else {
      var k :| k in a;
      TotalRemove(a, k);
      TotalRemove(b, f[k]);
      assert (a - {k}).Keys == a.Keys - {k};
      RenameRest(b, f, k);
      TotalRename(a - {k}, b - {f[k]}, f - {k});
    }
  }

  lemma RenameRest<K, L>(b: map<L, nat>, f: map<K, L>, k: K)
    requires k in f && f.Values == b.Keys
    requires forall i, j :: i in f && j in f && i != j ==> f[i] != f[j]
    ensures (f - {k}).Values == (b - {f[k]}).Keys
  {
    forall y | y in b && y != f[k]
      ensures y in (f - {k}).Values
    {
      var i :| i in f && f[i] == y;
      assert i in f - {k} && (f - {k})[i] == y;
    }
    forall y | y in (f - {k}).Values
      ensures y in b && y != f[k]
    {
      var i :| i in f - {k} && (f - {k})[i] == y;
      assert f[i] == y && i != k;
    }
  }

  function SeqSum(s: seq<int>): int {
    if s == [] then 0 else s[0] + SeqSum(s[1..])
  }

  lemma {:induction false} SeqSumNonNegative(s: seq<int>)
    requires forall j :: 0 <= j < |s| ==> s[j] >= 0
    ensures SeqSum(s) >= 0
  {
    if s != [] { SeqSumNonNegative(s[1..]); }
  }

  lemma {:induction false} SeqSumConcat(a: seq<int>, b: seq<int>)
    ensures SeqSum(a + b) == SeqSum(a) + SeqSum(b)
  {
    if a == [] {
      assert a + b == b;
    } else {
      assert (a + b)[1..] == a[1..] + b;
      SeqSumConcat(a[1..], b);
    }
  }

  /** 1, 2, ..., n. */
  function Counting(n: nat): seq<nat> { seq(n, i requires 0 <= i < n => i + 1) }
}
