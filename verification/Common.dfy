/** Types shared by the models: optional values, bytes, the bounded
    addition every counter goes through, and sums over finite maps. */
module Common {

  datatype Option<+T> = None | Some(value: T)

  newtype byte = x: int | 0 <= x < 256

  type Bytes = seq<byte>

  const MAX_INT64: int := 0x7fff_ffff_ffff_ffff
  const MAX_UINT64: int := 0xffff_ffff_ffff_ffff

  /** An unsigned machine word. */
  type uint64 = x: int | 0 <= x <= MAX_UINT64

  function Min(a: int, b: int): int { if a <= b then a else b }

  function Lookup<K, V>(m: map<K, V>, k: K): Option<V> {
    if k in m then Some(m[k]) else None
  }

  lemma Append3<T>(a: seq<T>, b: seq<T>, c: seq<T>)
    ensures a + b + c == a + (b + c)
  {
  }

  lemma AppendNil<T>(a: seq<T>)
    ensures a + [] == a
  {
  }

  // ----- finite sets and maps

  lemma SubsetSize<T>(a: set<T>, b: set<T>)
    requires a <= b
    ensures |a| <= |b|
  {
    assert b == a + (b - a);
  }

  lemma OneLess<T>(all: set<T>, left: set<T>, x: T)
    requires left <= all && x in left
    ensures all - (left - {x}) == all - left + {x} && left - {x} <= all && x !in all - left
  {
  }

  lemma OneMore<K, V>(m: map<K, V>, k: K, v: V)
    ensures m[k := v].Keys == m.Keys + {k}
  {
  }

  lemma UpdateSize<K, V>(m: map<K, V>, k: K, v: V)
    ensures |m[k := v]| == if k in m then |m| else |m| + 1
  {
    OneMore(m, k, v);
    assert |m[k := v]| == |m[k := v].Keys| && |m| == |m.Keys|;
    if k in m {
      assert m.Keys + {k} == m.Keys;
    }
  }

  lemma SameLookup<K(!new), V>(a: map<K, V>, b: map<K, V>)
    requires forall k :: Lookup(a, k) == Lookup(b, k)
    ensures a == b
  {
    forall k ensures k in a <==> k in b {
      assert Lookup(a, k) == Lookup(b, k);
    }
    forall k | k in a ensures a[k] == b[k] {
      assert Lookup(a, k) == Lookup(b, k);
    }
  }

  // ----- sums over finite maps

  /** The sum of all values of `m`. Maps are extensional, so callers can rewrite
      the summed map instead of a summand function. */
  ghost function Total<K>(m: map<K, int>): int {
    if m == map[] then 0
    else
      var k :| k in m;
      m[k] + Total(m - {k})
  }

  /** Any key can be taken out first: the sum does not depend on the order. */
  lemma {:induction false} TotalPick<K>(m: map<K, int>, k: K)
    requires k in m
    ensures Total(m) == m[k] + Total(m - {k})
    decreases |m|
  {
    assert |m - {k}| < |m| by {
      assert m.Keys == (m - {k}).Keys + {k};
    }
    var j :| j in m && Total(m) == m[j] + Total(m - {j});
    if j != k {
      assert |m - {j}| < |m| by { assert m.Keys == (m - {j}).Keys + {j}; }
      TotalPick(m - {j}, k);
      TotalPick(m - {k}, j);
      assert m - {j} - {k} == m - {k} - {j};
    }
  }

  lemma {:induction false} TotalInsert<K>(m: map<K, int>, k: K, v: int)
    ensures Total(m[k := v]) == Total(m) - (if k in m then m[k] else 0) + v
  {
    TotalPick(m[k := v], k);
    assert m[k := v] - {k} == m - {k};
    if k in m { TotalPick(m, k); } else { assert m - {k} == m; }
  }

  /** Pointwise smaller maps have smaller sums; nonnegative values make extra
      keys harmless. */
  lemma {:induction false} TotalMonotone<K>(m: map<K, int>, big: map<K, int>)
    requires forall k :: k in big ==> 0 <= big[k]
    requires forall k :: k in m ==> k in big && m[k] <= big[k]
    ensures Total(m) <= Total(big)
    decreases |big|
  {
    if big == map[] {
      assert m == map[];
    } else {
      var k :| k in big;
      assert |big - {k}| < |big| by { assert big.Keys == (big - {k}).Keys + {k}; }
      TotalPick(big, k);
      TotalMonotone(m - {k}, big - {k});
      if k in m { TotalPick(m, k); } else { assert m - {k} == m; }
    }
  }
}
