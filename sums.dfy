/**
 * Sums of reals as the toolkit's accumulating loops compute them: left to
 * right over a sequence, or over the stored entries of an index map in
 * whatever order a hash map yields them.
 */
module Sums {

  /** Left-to-right sum of a sequence. */
  function SeqSum(s: seq<real>): (r: real)
  {
    if |s| == 0 then 0.0 else SeqSum(s[..|s| - 1]) + s[|s| - 1]
  }

  /** Inner product of two equal-length sequences, accumulated left to right. */
  function Dot(a: seq<real>, b: seq<real>): (r: real)
    requires |a| == |b|
  {
    if |a| == 0 then 0.0 else Dot(a[..|a| - 1], b[..|b| - 1]) + a[|a| - 1] * b[|b| - 1]
  }

  /** The dense view of an index map: index i holds its stored value, or 0.0. */
  function Densify(m: map<int, real>, n: nat): (d: seq<real>)
    ensures |d| == n
    ensures forall i :: 0 <= i < n && i !in m ==> d[i] == 0.0
    ensures forall i :: 0 <= i < n && i in m ==> d[i] == m[i]
  {
    seq(n, i requires 0 <= i < n => if i in m then m[i] else 0.0)
  }

  /** The entries of a sequence that are not zero, keyed by their index. */
  function NonZeroEntries(s: seq<real>): (m: map<int, real>)
    ensures forall i :: i in m <==> 0 <= i < |s| && s[i] != 0.0
    ensures forall i :: i in m ==> m[i] == s[i]
  {
    map i | 0 <= i < |s| && s[i] != 0.0 :: s[i]
  }

  /** Sum of the values of a map, independent of any enumeration order. */
  ghost function MapSum<K>(m: map<K, real>): (r: real)
    decreases |m.Keys|
  {
    if m == map[] then 0.0
    else
      var k :| k in m;
      assert (m - {k}).Keys == m.Keys - {k};
      m[k] + MapSum(m - {k})
  }

  lemma {:induction false} DotCommutes(a: seq<real>, b: seq<real>)
    requires |a| == |b|
    ensures Dot(a, b) == Dot(b, a)
  {
    if |a| > 0 {
      DotCommutes(a[..|a| - 1], b[..|b| - 1]);
    }
  }

  /** A sequence of pointwise products sums to the inner product. */
  lemma {:induction false} SumOfProducts(a: seq<real>, b: seq<real>, c: seq<real>)
    requires |a| == |b| == |c|
    requires forall i :: 0 <= i < |c| ==> c[i] == a[i] * b[i]
    ensures SeqSum(c) == Dot(a, b)
  {
    if |c| > 0 {
      var n := |c| - 1;
      SumOfProducts(a[..n], b[..n], c[..n]);
    }
  }

  /** Removing any one key: the choice MapSum makes does not matter. */
  lemma {:induction false} MapSumRemove<K>(m: map<K, real>, k: K)
    requires k in m
    ensures MapSum(m) == m[k] + MapSum(m - {k})
    decreases |m.Keys|
  {
    var j :| j in m && MapSum(m) == m[j] + MapSum(m - {j});
    if j != k {
      assert (m - {j}).Keys == m.Keys - {j};
      assert (m - {k}).Keys == m.Keys - {k};
      MapSumRemove(m - {j}, k);
      MapSumRemove(m - {k}, j);
      assert m - {j} - {k} == m - {k} - {j};
    }
  }

  /**
   * Summing the stored entries of an index map whose keys lie in [0, n)
   * gives the same value as summing its dense view of length n.
   */
  lemma {:induction false} MapSumIsDenseSum(m: map<int, real>, n: nat)
    requires forall k :: k in m ==> 0 <= k < n
    ensures MapSum(m) == SeqSum(Densify(m, n))
  {
    if n == 0 {
      assert m == map[];
    } else {
      var rest := m - {n - 1};
      MapSumIsDenseSum(rest, n - 1);
      assert Densify(m, n)[..n - 1] == Densify(rest, n - 1);
      if n - 1 in m {
        MapSumRemove(m, n - 1);
      } else {
        assert rest == m;
      }
    }
  }

  /** A sum of products over stored keys equals the dense inner product. */
  lemma {:induction false} SparseDotIsDenseDot(m: map<int, real>, other: seq<real>, n: nat)
    requires |other| == n
    requires forall k :: k in m ==> 0 <= k < n
    ensures MapSum(map k | k in m :: m[k] * other[k]) == Dot(Densify(m, n), other)
  {
    var p := map k | k in m :: m[k] * other[k];
    var dm, dp := Densify(m, n), Densify(p, n);
    MapSumIsDenseSum(p, n);
    forall i | 0 <= i < n
      ensures dp[i] == dm[i] * other[i]
    {
      if i in m {
        assert dp[i] == p[i] && dm[i] == m[i];
      } else {
        assert dm[i] == 0.0 && dp[i] == 0.0;
        assert dm[i] * other[i] == 0.0;
      }
    }
    SumOfProducts(dm, other, dp);
  }

  /** The entries of `m` whose keys are in `keys`. */
  function Restrict<K>(m: map<K, real>, keys: set<K>): (r: map<K, real>)
    ensures r.Keys == m.Keys * keys
    ensures forall k :: k in r ==> r[k] == m[k]
  {
    map k | k in keys && k in m :: m[k]
  }

  /**
   * One step of a loop that sums a map's values while draining a set of
   * keys still to visit: visiting `k` moves m[k] into the accumulator.
   */
  lemma MapSumStep<K>(m: map<K, real>, keys: set<K>, k: K)
    requires k in keys && k in m
    ensures MapSum(Restrict(m, keys)) == m[k] + MapSum(Restrict(m, keys - {k}))
  {
    MapSumRemove(Restrict(m, keys), k);
    assert Restrict(m, keys) - {k} == Restrict(m, keys - {k});
  }

  /** The loop invariant of such a sum: visiting `k` adds m[k] to the accumulator `acc`. */
  lemma MapSumAccumulate<K>(m: map<K, real>, keys: set<K>, k: K, acc: real, term: real)
    requires k in keys && k in m && term == m[k]
    requires acc + MapSum(Restrict(m, keys)) == MapSum(m)
    ensures (acc + term) + MapSum(Restrict(m, keys - {k})) == MapSum(m)
  {
    MapSumStep(m, keys, k);
  }

  /** Draining starts from every key and ends with none. */
  lemma MapSumBounds<K>(m: map<K, real>)
    ensures MapSum(Restrict(m, m.Keys)) == MapSum(m)
    ensures MapSum(Restrict(m, {})) == 0.0
  {
    assert Restrict(m, m.Keys) == m;
    assert Restrict(m, {}) == map[];
  }

  /** Picks some element of a non-empty set, as a hash-set iterator would. */
  method Choose<T>(s: set<T>) returns (x: T)
    requires s != {}
    ensures x in s
  {
    x :| x in s;
  }
}
