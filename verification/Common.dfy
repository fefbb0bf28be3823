module Common {

  datatype Option<+T> = None | Some(value: T)

  datatype Result<+T, +E> = Success(value: T) | Failure(error: E)

  type UserId = nat

  lemma SubsetSize<T>(a: set<T>, b: set<T>)
    requires a <= b
    ensures |a| <= |b|
    ensures |b - a| == |b| - |a|
  {
  }

  lemma FreshNat(used: set<nat>) returns (n: nat)
    ensures n !in used
  {
    n := 0;
    var below: set<nat> := {};
    while n in used
      invariant below <= used && forall k: nat :: k in below <==> k < n
      decreases |used| - |below|
    {
      SubsetSize(below + {n}, used);
      below, n := below + {n}, n + 1;
    }
  }

  // ---- Rows of a table that may be absent ----

  function RowAt<K, V>(m: map<K, V>, k: K): Option<V> {
    if k in m then Some(m[k]) else None
  }

  function Put<K, V>(m: map<K, V>, k: K, v: Option<V>): map<K, V> {
    if v.Some? then m[k := v.value] else m - {k}
  }

  /** Writing back the row that a write replaced restores the table. */
  lemma PutBack<K, V>(m: map<K, V>, k: K, v: Option<V>)
    ensures Put(Put(m, k, v), k, RowAt(m, k)) == m
  {
  }
}
