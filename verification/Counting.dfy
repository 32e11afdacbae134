/** Sums over the entries of a map: how many threads are in a given condition. */
module Counting {
  ghost function Sum<K(!new), V(!new)>(m: map<K, V>, w: V -> nat): nat
    decreases |m|
  {
    if m == map[] then 0
    else
      var k :| k in m;
      w(m[k]) + Sum(m - {k}, w)
  }

  /** The sum does not depend on the order of the entries. */
  lemma {:induction false} SumRemove<K(!new), V(!new)>(m: map<K, V>, k: K, w: V -> nat)
    requires k in m
    ensures Sum(m, w) == w(m[k]) + Sum(m - {k}, w)
    decreases |m|
  {
    var j :| j in m && Sum(m, w) == w(m[j]) + Sum(m - {j}, w);
    if j != k {
      SumRemove(m - {j}, k, w);
      SumRemove(m - {k}, j, w);
      assert m - {j} - {k} == m - {k} - {j};
    }
  }

  lemma SumUpdate<K(!new), V(!new)>(m: map<K, V>, k: K, v: V, w: V -> nat)
    ensures Sum(m[k := v], w) + (if k in m then w(m[k]) else 0) == Sum(m, w) + w(v)
  {
    SumRemove(m[k := v], k, w);
    assert m[k := v] - {k} == m - {k};
    if k in m {
      SumRemove(m, k, w);
    } else {
      assert m - {k} == m;
    }
  }

  lemma SumMember<K(!new), V(!new)>(m: map<K, V>, k: K, w: V -> nat)
    requires k in m
    ensures w(m[k]) <= Sum(m, w)
  {
    SumRemove(m, k, w);
  }

  lemma SumPair<K(!new), V(!new)>(m: map<K, V>, j: K, k: K, w: V -> nat)
    requires j in m && k in m && j != k
    ensures w(m[j]) + w(m[k]) <= Sum(m, w)
  {
    SumRemove(m, j, w);
    SumMember(m - {j}, k, w);
  }

  lemma {:induction false} SumWitness<K(!new), V(!new)>(m: map<K, V>, w: V -> nat) returns (k: K)
    requires Sum(m, w) > 0
    ensures k in m && w(m[k]) > 0
    decreases |m|
  {
    var j :| j in m && Sum(m, w) == w(m[j]) + Sum(m - {j}, w);
    if w(m[j]) > 0 {
      k := j;
    } else {
      k := SumWitness(m - {j}, w);
    }
  }

  lemma {:induction false} SumMonotone<K(!new), V(!new)>(m: map<K, V>, w: V -> nat, w': V -> nat)
    requires forall k :: k in m ==> w'(m[k]) <= w(m[k])
    ensures Sum(m, w') <= Sum(m, w)
    decreases |m|
  {
    if m != map[] {
      var k :| k in m;
      SumRemove(m, k, w);
      SumRemove(m, k, w');
      SumMonotone(m - {k}, w, w');
    }
  }

  lemma Distributes(d: nat, a: nat, b: nat)
    ensures d * (a + b) == d * a + d * b
  {
  }

  /** A weight above another by at most d for what a third counts sums to at most d more for each. */
  lemma {:induction false} SumWithin<K(!new), V(!new)>(m: map<K, V>, w: V -> nat, w': V -> nat, v: V -> nat, d: nat)
    requires forall k :: k in m ==> w'(m[k]) <= w(m[k]) + d * v(m[k])
    ensures Sum(m, w') <= Sum(m, w) + d * Sum(m, v)
    decreases |m|
  {
    if m != map[] {
      var k :| k in m;
      SumRemove(m, k, w);
      SumRemove(m, k, w');
      SumRemove(m, k, v);
      SumWithin(m - {k}, w, w', v, d);
      Distributes(d, v(m[k]), Sum(m - {k}, v));
    }
  }

  /** A weight of at most d for what another counts. */
  lemma {:induction false} SumAtMost<K(!new), V(!new)>(m: map<K, V>, w: V -> nat, v: V -> nat, d: nat)
    requires forall k :: k in m ==> w(m[k]) <= d * v(m[k])
    ensures Sum(m, w) <= d * Sum(m, v)
    decreases |m|
  {
    if m != map[] {
      var k :| k in m;
      SumRemove(m, k, w);
      SumRemove(m, k, v);
      SumAtMost(m - {k}, w, v, d);
      Distributes(d, v(m[k]), Sum(m - {k}, v));
    }
  }

  lemma {:induction false} SumOnes<K(!new), V(!new)>(m: map<K, V>, w: V -> nat)
    requires forall k :: k in m ==> w(m[k]) == 1
    ensures Sum(m, w) == |m|
    decreases |m|
  {
    if m != map[] {
      var k :| k in m;
      SumRemove(m, k, w);
      SumOnes(m - {k}, w);
      assert (m - {k}).Keys == m.Keys - {k};
    }
  }

  ghost function Ones<K(!new), V(!new)>(m: map<K, V>, w: V -> nat): set<K> {
    set k | k in m && w(m[k]) == 1
  }

  lemma UpdateInside<K, V>(m: map<K, V>, k: K, v: V)
    requires k in m
    ensures |m[k := v]| == |m| && m[k := v] - {k} == m - {k} && |m - {k}| == |m| - 1
  {
    assert m[k := v].Keys == m.Keys && (m - {k}).Keys == m.Keys - {k};
  }

  /** One entry may lose more than all the others gain. */
  lemma SumDrops<K(!new), V(!new)>(m: map<K, V>, k: K, x: V, w: V -> nat, w': V -> nat, v: V -> nat, d: nat)
    requires k in m && v(m[k]) <= Sum(m, v)
    requires forall j :: j in m ==> w'(m[j]) <= w(m[j]) + d * v(m[j])
    requires w'(x) + d * (Sum(m, v) - v(m[k])) < w(m[k])
    ensures Sum(m[k := x], w') < Sum(m, w)
  {
    UpdateInside(m, k, x);
    SumRemove(m, k, w);
    SumRemove(m, k, v);
    SumRemove(m[k := x], k, w');
    SumWithin(m - {k}, w, w', v, d);
  }

  lemma OnesWithout<K(!new), V(!new)>(m: map<K, V>, j: K, w: V -> nat)
    requires j in m && w(m[j]) <= 1
    ensures |Ones(m, w)| == w(m[j]) + |Ones(m - {j}, w)|
  {
    var all := Ones(m, w);
    assert Ones(m - {j}, w) == all - {j};
    assert j in all <==> w(m[j]) == 1;
  }

  /** A weight of zero or one sums to the number of entries that weigh one. */
  lemma {:induction false} SumCounts<K(!new), V(!new)>(m: map<K, V>, w: V -> nat)
    requires forall k :: k in m ==> w(m[k]) <= 1
    ensures Sum(m, w) == |Ones(m, w)|
    decreases |m|
  {
    var all := Ones(m, w);
    if m == map[] {
      assert all == {};
    } else {
      var j :| j in m;
      var rest := m - {j};
      SumRemove(m, j, w);
      SumCounts(rest, w);
      OnesWithout(m, j, w);
    }
  }
}
