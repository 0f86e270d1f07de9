/** Sums over sequences and maps, as Python's `sum` over a mapped recordset or dict. */
module Sums {

  function Sum(s: seq<real>): real
  {
    if s == [] then 0.0 else Sum(s[..|s| - 1]) + s[|s| - 1]
  }

  function IntSum(s: seq<int>): int
  {
    if s == [] then 0 else IntSum(s[..|s| - 1]) + s[|s| - 1]
  }

  lemma {:induction false} SumAppend(a: seq<real>, b: seq<real>)
    ensures Sum(a + b) == Sum(a) + Sum(b)
    decreases |b|
  {
    if b == [] {
      assert a + b == a;
    } else {
      assert (a + b)[..|a + b| - 1] == a + b[..|b| - 1];
      SumAppend(a, b[..|b| - 1]);
    }
  }

  lemma {:induction false} IntSumAppend(a: seq<int>, b: seq<int>)
    ensures IntSum(a + b) == IntSum(a) + IntSum(b)
    decreases |b|
  {
    if b == [] {
      assert a + b == a;
    } else {
      assert (a + b)[..|a + b| - 1] == a + b[..|b| - 1];
      IntSumAppend(a, b[..|b| - 1]);
    }
  }

  /** Changing one element of a sequence changes its sum by the difference. */
  lemma {:induction false} SumUpdate(s: seq<real>, i: nat, v: real)
    requires i < |s|
    ensures Sum(s[i := v]) == Sum(s) - s[i] + v
    decreases |s|
  {
    var n := |s| - 1;
    if i < n {
      assert s[i := v][..n] == s[..n][i := v];
      SumUpdate(s[..n], i, v);
    } else {
      assert s[i := v][..n] == s[..n];
    }
  }

  /** A sum of non-negative values is zero only when every value is zero. */
  lemma {:induction false} NonNegativeSumZero(s: seq<real>)
    requires forall i :: 0 <= i < |s| ==> s[i] >= 0.0
    ensures Sum(s) >= 0.0
    ensures Sum(s) == 0.0 <==> forall i :: 0 <= i < |s| ==> s[i] == 0.0
    decreases |s|
  {
    if s != [] {
      var n := |s| - 1;
      NonNegativeSumZero(s[..n]);
      if Sum(s) == 0.0 {
        forall i | 0 <= i < |s| ensures s[i] == 0.0 {
          if i < n { assert s[..n][i] == s[i]; }
        }
      }
      if forall i :: 0 <= i < |s| ==> s[i] == 0.0 {
        assert forall i :: 0 <= i < n ==> s[..n][i] == 0.0;
      }
    }
  }

  /** Sum of a map's values; the order of the keys does not matter (see MapSumRemove). */
  ghost function MapSum<K>(m: map<K, real>): real
    decreases |m|
  {
    if m == map[] then 0.0
    else
      var k :| k in m;
      m[k] + MapSum(m - {k})
  }

  lemma MapRemoveSize<K>(m: map<K, real>, k: K)
    requires k in m
    ensures |m - {k}| == |m| - 1
  {
    assert (m - {k}).Keys == m.Keys - {k};
  }

  /** Any key may be taken out first. */
  lemma {:induction false} MapSumRemove<K>(m: map<K, real>, k: K)
    requires k in m
    ensures MapSum(m) == m[k] + MapSum(m - {k})
    decreases |m|
  {
    var j :| j in m && MapSum(m) == m[j] + MapSum(m - {j});
    if j != k {
      MapRemoveSize(m, j);
      MapRemoveSize(m, k);
      MapSumRemove(m - {j}, k);
      MapSumRemove(m - {k}, j);
      assert m - {j} - {k} == m - {k} - {j};
    }
  }

  lemma MapSumUpdate<K>(m: map<K, real>, k: K, v: real)
    ensures MapSum(m[k := v]) == MapSum(m) - (if k in m then m[k] else 0.0) + v
  {
    MapSumRemove(m[k := v], k);
    assert m[k := v] - {k} == m - {k};
    if k in m {
      MapSumRemove(m, k);
    } else {
      assert m - {k} == m;
    }
  }

  /** The distinct elements of a key column. */
  function KeySet<K>(ks: seq<K>): set<K>
  {
    set i | 0 <= i < |ks| :: ks[i]
  }

  lemma KeySetAppend<K>(a: seq<K>, b: seq<K>)
    ensures KeySet(a + b) == KeySet(a) + KeySet(b)
  {
    forall k | k in KeySet(a + b) ensures k in KeySet(a) + KeySet(b) {
      var i :| 0 <= i < |a + b| && (a + b)[i] == k;
      if i >= |a| {
        assert b[i - |a|] == k;
      }
    }
    forall k | k in KeySet(a) ensures k in KeySet(a + b) {
      var i :| 0 <= i < |a| && a[i] == k;
      assert (a + b)[i] == k;
    }
    forall k | k in KeySet(b) ensures k in KeySet(a + b) {
      var i :| 0 <= i < |b| && b[i] == k;
      assert (a + b)[|a| + i] == k;
    }
  }

  /** Sum of the values whose key is `k`: what a `Counter` accumulates for `k`. */
  function SumFor<K(==)>(ks: seq<K>, vs: seq<real>, k: K): real
    requires |ks| == |vs|
  {
    if ks == [] then 0.0
    else SumFor(ks[..|ks| - 1], vs[..|vs| - 1], k) + (if ks[|ks| - 1] == k then vs[|vs| - 1] else 0.0)
  }

  /** Values grouped by key and summed, one entry per key that occurs. */
  function GroupSum<K(==)>(ks: seq<K>, vs: seq<real>): map<K, real>
    requires |ks| == |vs|
  {
    map k | k in KeySet(ks) :: SumFor(ks, vs, k)
  }

  /** One (key, value) pair groups into a one-entry map. */
  lemma GroupSumSingle<K>(k: K, v: real)
    ensures GroupSum([k], [v]) == map[k := v]
  {
    var none: seq<K> := [];
    var zero: seq<real> := [];
    GroupSumSnoc(none, zero, k, v);
    assert none + [k] == [k] && zero + [v] == [v];
    assert KeySet(none) == {};
  }

  /** Adding one more (key, value) pair adds the value to that key's entry, creating it if needed. */
  lemma GroupSumSnoc<K>(ks: seq<K>, vs: seq<real>, k: K, v: real)
    requires |ks| == |vs|
    ensures GroupSum(ks + [k], vs + [v])
         == GroupSum(ks, vs)[k := (if k in GroupSum(ks, vs) then GroupSum(ks, vs)[k] else 0.0) + v]
  {
    var ks', vs' := ks + [k], vs + [v];
    assert ks'[..|ks'| - 1] == ks && vs'[..|vs'| - 1] == vs;
    assert KeySet(ks') == KeySet(ks) + {k} by {
      forall x | x in KeySet(ks') ensures x in KeySet(ks) + {k} {
        var i :| 0 <= i < |ks'| && ks'[i] == x;
        if i < |ks| { assert ks[i] == x; }
      }
      forall x | x in KeySet(ks) ensures x in KeySet(ks') {
        var i :| 0 <= i < |ks| && ks[i] == x;
        assert ks'[i] == x;
      }
      assert ks'[|ks|] == k;
    }
    if k !in KeySet(ks) {
      SumForAbsent(ks, vs, k);
    }
  }

  /** A key that never occurs sums to zero. */
  lemma {:induction false} SumForAbsent<K>(ks: seq<K>, vs: seq<real>, k: K)
    requires |ks| == |vs|
    requires k !in KeySet(ks)
    ensures SumFor(ks, vs, k) == 0.0
    decreases |ks|
  {
    if ks != [] {
      var n := |ks| - 1;
      assert KeySet(ks[..n]) <= KeySet(ks) by {
        forall x | x in KeySet(ks[..n]) ensures x in KeySet(ks) {
          var i :| 0 <= i < n && ks[..n][i] == x;
          assert ks[i] == x;
        }
      }
      assert ks[n] in KeySet(ks);
      SumForAbsent(ks[..n], vs[..n], k);
    }
  }

  /** Grouping conserves the total: the grouped values sum to the sum of all values. */
  lemma {:induction false} GroupSumTotal<K>(ks: seq<K>, vs: seq<real>)
    requires |ks| == |vs|
    ensures MapSum(GroupSum(ks, vs)) == Sum(vs)
    decreases |ks|
  {
    if ks == [] {
      assert GroupSum(ks, vs) == map[];
    } else {
      var n := |ks| - 1;
      assert ks == ks[..n] + [ks[n]] && vs == vs[..n] + [vs[n]];
      GroupSumSnoc(ks[..n], vs[..n], ks[n], vs[n]);
      GroupSumTotal(ks[..n], vs[..n]);
      MapSumUpdate(GroupSum(ks[..n], vs[..n]), ks[n], (if ks[n] in GroupSum(ks[..n], vs[..n]) then GroupSum(ks[..n], vs[..n])[ks[n]] else 0.0) + vs[n]);
    }
  }

  /** Extra keys whose values are 0 do not change a map's sum. */
  lemma {:induction false} MapSumZeroExtension<K>(small: map<K, real>, big: map<K, real>)
    requires small.Keys <= big.Keys
    requires forall k :: k in small ==> big[k] == small[k]
    requires forall k :: k in big && k !in small ==> big[k] == 0.0
    ensures MapSum(big) == MapSum(small)
    decreases |big|
  {
    if big.Keys - small.Keys != {} {
      var k :| k in big.Keys - small.Keys;
      MapSumRemove(big, k);
      MapRemoveSize(big, k);
      MapSumZeroExtension(small, big - {k});
    } else {
      assert big.Keys == small.Keys;
      assert big == small;
    }
  }
}
