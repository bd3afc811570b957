/** Finite sums over maps and sequences. */
module Sums {

  ghost function Sum<K(!new)>(m: map<K, nat>): nat
    decreases |m|
  {
    if m == map[] then 0
    else
      var k :| k in m;
      assert |m - {k}| < |m| by { SmallerWithout(m, k); }
      m[k] + Sum(m - {k})
  }

  lemma SmallerWithout<K, V>(m: map<K, V>, k: K)
    requires k in m
    ensures |m - {k}| == |m| - 1
  {
  }

  /** The sum does not depend on which key is taken out first. */
  lemma {:induction false} SumRemove<K(!new)>(m: map<K, nat>, k: K)
    requires k in m
    ensures Sum(m) == m[k] + Sum(m - {k})
    decreases |m|
  {
    var j :| j in m && Sum(m) == m[j] + Sum(m - {j});
    if j != k {
      SmallerWithout(m, j);
      SmallerWithout(m, k);
      SumRemove(m - {j}, k);
      SumRemove(m - {k}, j);
      assert m - {j} - {k} == m - {k} - {j};
    }
  }

  lemma SumPut<K(!new)>(m: map<K, nat>, k: K, v: nat)
    ensures Sum(m[k := v]) == Sum(m) - (if k in m then m[k] else 0) + v
  {
    SumRemove(m[k := v], k);
    assert m[k := v] - {k} == m - {k};
    if k in m {
      SumRemove(m, k);
    } else {
      assert m - {k} == m;
    }
  }

  lemma SumEntry<K(!new)>(m: map<K, nat>, k: K)
    requires k in m
    ensures m[k] <= Sum(m)
  {
  }

  lemma {:induction false} SumUnion<K(!new)>(a: map<K, nat>, b: map<K, nat>)
    requires a.Keys !! b.Keys
    ensures Sum(a + b) == Sum(a) + Sum(b)
    decreases |a|
  {
    if a == map[] {
      assert a + b == b;
    } else {
      var k :| k in a;
      SmallerWithout(a, k);
      SumRemove(a, k);
      UnionWithout(a, b, k);
      SumRemove(a + b, k);
      SumUnion(a - {k}, b);
    }
  }

  lemma UnionWithout<K>(a: map<K, nat>, b: map<K, nat>, k: K)
    requires a.Keys !! b.Keys && k in a
    ensures k in a + b && (a + b)[k] == a[k]
    ensures (a + b) - {k} == (a - {k}) + b
    ensures (a - {k}).Keys !! b.Keys
  {
  }

  /** Splitting the keys splits the sum. */
  lemma SumSplit<K(!new)>(m: map<K, nat>, part: map<K, nat>, rest: map<K, nat>)
    requires part.Keys !! rest.Keys && m == part + rest
    ensures Sum(m) == Sum(part) + Sum(rest)
  {
    SumUnion(part, rest);
  }

  function SumSeq(s: seq<nat>): nat {
    if |s| == 0 then 0 else SumSeq(s[..|s| - 1]) + s[|s| - 1]
  }

  lemma SumSeqAppend(s: seq<nat>, x: nat)
    ensures SumSeq(s + [x]) == SumSeq(s) + x
  {
  }
}
