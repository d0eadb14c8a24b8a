/** The two pure helpers of Extensions.kt the reader relies on. */
module Extensions {
  import opened Wrappers

  /** `HashMap.putIfAbsentSupport` below API 24: `containsKey`, then `put`.
      A present key keeps its value, even a null one; the first writer of a
      key wins. For a map whose values are never null (the reader's cover
      cache) this is also what the API 24 branch does. */
  function PutIfAbsent<K, V>(m: map<K, V>, key: K, value: V): (r: map<K, V>)
    ensures key in r
    ensures key !in m ==> r[key] == value
    ensures key in m ==> r[key] == m[key]
    ensures r.Keys == m.Keys + {key}
    ensures forall k :: k in m && k != key ==> r[k] == m[k]
    ensures |r| <= |m| + 1
  {
    if key in m then m else m[key := value]
  }

  /** Below API 24, or on a map without null values, a second call with
      the same key changes nothing, whatever the values. */
  lemma PutIfAbsentIdempotent<K, V>(m: map<K, V>, key: K, v1: V, v2: V)
    ensures PutIfAbsent(PutIfAbsent(m, key, v1), key, v2) == PutIfAbsent(m, key, v1)
  {
  }

  /** `HashMap.putIfAbsent` from API 24 on a map with nullable values: a
      key mapped to null counts as absent, so its null is replaced. */
  function PutIfAbsentNullable<K, V>(m: map<K, Option<V>>, key: K, value: Option<V>): (r: map<K, Option<V>>)
    ensures r.Keys == m.Keys + {key}
    ensures key !in m || m[key].None? ==> r[key] == value
    ensures key in m && m[key].Some? ==> r[key] == m[key]
    ensures forall k :: k in m && k != key ==> r[k] == m[k]
  {
    if key in m && m[key].Some? then m else m[key := value]
  }

  /** `putIfAbsentSupport` on a map with nullable values, with `sdkN` the
      platform's `SDK_INT >= N` test. The two branches differ exactly when
      the key holds null and the new value is not null. */
  function PutIfAbsentSupport<K, V>(m: map<K, Option<V>>, key: K, value: Option<V>, sdkN: bool)
    : (r: map<K, Option<V>>)
    ensures r.Keys == m.Keys + {key}
    ensures forall k :: k in m && k != key ==> r[k] == m[k]
    ensures r == PutIfAbsent(m, key, value) <==> !(sdkN && key in m && m[key].None? && value.Some?)
    ensures sdkN ==> r == PutIfAbsentNullable(m, key, value)
  {
    if sdkN then PutIfAbsentNullable(m, key, value) else PutIfAbsent(m, key, value)
  }

  /** A second call with the same key changes nothing, except on API 24
      and later when the key still holds null and the second value is not
      null. */
  lemma PutIfAbsentSupportIdempotent<K, V>(m: map<K, Option<V>>, key: K, v1: Option<V>, v2: Option<V>, sdkN: bool)
    ensures var once := PutIfAbsentSupport(m, key, v1, sdkN);
            PutIfAbsentSupport(once, key, v2, sdkN) == once <==> (!sdkN || once[key].Some? || v2.None?)
  {
    var once := PutIfAbsentSupport(m, key, v1, sdkN);
    if sdkN && once[key].None? && v2.Some? {
      assert PutIfAbsentSupport(once, key, v2, sdkN)[key] == v2;
    }
  }

  /** `Cursor.getColumnIndexOrNull`: the platform's "no such column" answer
      -1 becomes null; every other index is passed through. */
  function ColumnIndexOrNull(index: int): (r: Option<int>)
    ensures r.None? <==> index == -1
    ensures r.Some? ==> r.value == index
  {
    if index == -1 then None else Some(index)
  }
}
