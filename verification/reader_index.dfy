/** The shapes the row loop of reader/Reader.kt builds its indices with,
    and what each index holds after any prefix of the kept songs:
    `getOrPut(key) { header }.songList.add(song)` buckets and
    `putIfAbsentSupport` first-writer maps. Everything is stated against
    the list of kept songs in row order. */
module ReaderIndex {
  import opened Wrappers
  import opened Items
  import opened Extensions

  /** The songs whose key is `k`, in order. */
  function Where<K(==)>(songs: seq<Song>, key: Song -> K, k: K): (r: seq<Song>)
    ensures |r| <= |songs|
  {
    if |songs| == 0 then []
    else
      var init := songs[..|songs| - 1];
      var last := songs[|songs| - 1];
      assert songs == init + [last];
      Where(init, key, k) + (if key(last) == k then [last] else [])
  }

  /** Every song in a bucket has the bucket's key. */
  lemma {:induction false} WhereKeys<K>(songs: seq<Song>, key: Song -> K, k: K)
    ensures forall i :: 0 <= i < |Where(songs, key, k)| ==> key(Where(songs, key, k)[i]) == k
  {
    if |songs| > 0 {
      WhereKeys(songs[..|songs| - 1], key, k);
    }
  }

  /** One more song extends exactly the bucket of its own key. */
  lemma WhereSnoc<K>(songs: seq<Song>, x: Song, key: Song -> K, k: K)
    ensures Where(songs + [x], key, k) == Where(songs, key, k) + (if key(x) == k then [x] else [])
  {
    assert (songs + [x])[..|songs|] == songs;
  }

  /** The keys that occur among the songs. */
  function KeysOf<K(==)>(songs: seq<Song>, key: Song -> K): (r: set<K>)
    ensures |songs| > 0 ==> key(songs[|songs| - 1]) in r
  {
    if |songs| == 0 then {}
    else KeysOf(songs[..|songs| - 1], key) + {key(songs[|songs| - 1])}
  }

  lemma KeysSnoc<K>(songs: seq<Song>, x: Song, key: Song -> K)
    ensures KeysOf(songs + [x], key) == KeysOf(songs, key) + {key(x)}
  {
    assert (songs + [x])[..|songs|] == songs;
  }

  /** Every song's key occurs. */
  lemma {:induction false} KeysOfHas<K>(songs: seq<Song>, key: Song -> K, i: int)
    requires 0 <= i < |songs|
    ensures key(songs[i]) in KeysOf(songs, key)
  {
    if i < |songs| - 1 {
      var init := songs[..|songs| - 1];
      assert init[i] == songs[i];
      KeysOfHas(init, key, i);
    }
  }

  /** A key occurs exactly when some song has it. */
  lemma {:induction false} KeysOfMembers<K>(songs: seq<Song>, key: Song -> K, k: K)
    ensures k in KeysOf(songs, key) <==> exists i :: 0 <= i < |songs| && key(songs[i]) == k
  {
    if |songs| > 0 {
      var init := songs[..|songs| - 1];
      KeysOfMembers(init, key, k);
      if k in KeysOf(init, key) {
        var i :| 0 <= i < |init| && key(init[i]) == k;
        assert songs[i] == init[i];
      }
      if exists i :: 0 <= i < |songs| && key(songs[i]) == k {
        var i :| 0 <= i < |songs| && key(songs[i]) == k;
        if i < |init| { assert init[i] == songs[i]; }
      }
    }
  }

  /** A key occurs exactly when its bucket is non-empty. */
  lemma {:induction false} WhereNonEmpty<K>(songs: seq<Song>, key: Song -> K, k: K)
    ensures k in KeysOf(songs, key) <==> |Where(songs, key, k)| > 0
  {
    if |songs| > 0 {
      var init := songs[..|songs| - 1];
      var last := songs[|songs| - 1];
      assert songs == init + [last];
      WhereNonEmpty(init, key, k);
      KeysSnoc(init, last, key);
    }
  }

  /** Buckets of two keys that agree on every song are the same. */
  lemma {:induction false} WhereCongruent<K>(songs: seq<Song>, key1: Song -> K, key2: Song -> K, k: K)
    requires forall i :: 0 <= i < |songs| ==> key1(songs[i]) == key2(songs[i])
    ensures Where(songs, key1, k) == Where(songs, key2, k)
  {
    if |songs| > 0 {
      var init := songs[..|songs| - 1];
      assert forall i :: 0 <= i < |init| ==> init[i] == songs[i];
      WhereCongruent(init, key1, key2, k);
    }
  }

  /** Bucketing by a finer key inside a coarser bucket gives the same songs
      as bucketing by the finer key alone. */
  lemma {:induction false} WhereWithin<K1, K2>(songs: seq<Song>, key1: Song -> K1, k1: K1, key2: Song -> K2, k2: K2)
    requires forall s: Song :: key2(s) == k2 ==> key1(s) == k1
    ensures Where(Where(songs, key1, k1), key2, k2) == Where(songs, key2, k2)
  {
    if |songs| > 0 {
      var init := songs[..|songs| - 1];
      var last := songs[|songs| - 1];
      assert songs == init + [last];
      WhereWithin(init, key1, k1, key2, k2);
      WhereSnoc(init, last, key1, k1);
      WhereSnoc(init, last, key2, k2);
      if key1(last) == k1 {
        WhereSnoc(Where(init, key1, k1), last, key2, k2);
      } else {
        assert key2(last) != k2;
        assert Where(songs, key1, k1) == Where(init, key1, k1);
        assert Where(songs, key2, k2) == Where(init, key2, k2);
      }
    }
  }

  /** A bucket: what the first song put there, and the songs in order. */
  datatype Bucket<H> = Bucket(header: H, songs: seq<Song>)

  /** `getOrPut(k) { header }.songList.add(s)`. */
  function AddTo<K, H>(m: map<K, Bucket<H>>, k: K, h: H, s: Song): (r: map<K, Bucket<H>>)
    ensures r.Keys == m.Keys + {k}
    ensures k in m ==> r[k] == Bucket(m[k].header, m[k].songs + [s])
    ensures k !in m ==> r[k] == Bucket(h, [s])
    ensures forall j :: j in m && j != k ==> r[j] == m[j]
  {
    if k in m then m[k := m[k].(songs := m[k].songs + [s])] else m[k := Bucket(h, [s])]
  }

  /** The index invariant: one bucket per key that occurs, holding exactly
      the songs with that key in order, with the header of the first. */
  ghost predicate Indexes<K, H>(m: map<K, Bucket<H>>, songs: seq<Song>, key: Song -> K, header: Song -> H) {
    && m.Keys == KeysOf(songs, key)
    && forall k :: k in m ==>
         && m[k].songs == Where(songs, key, k)
         && |m[k].songs| > 0
         && m[k].header == header(m[k].songs[0])
  }

  lemma IndexesEmpty<K, H>(key: Song -> K, header: Song -> H)
    ensures Indexes(map[], [], key, header)
  {
  }

  /** Bucketing one more song keeps the index invariant: the song lands at
      the end of its own key's bucket, which is created with the song's
      header if the key is new; no other bucket changes. */
  lemma IndexesAdd<K, H>(m: map<K, Bucket<H>>, songs: seq<Song>, key: Song -> K, header: Song -> H, x: Song)
    requires Indexes(m, songs, key, header)
    ensures Indexes(AddTo(m, key(x), header(x), x), songs + [x], key, header)
  {
    var r := AddTo(m, key(x), header(x), x);
    KeysSnoc(songs, x, key);
    forall k | k in r
      ensures r[k].songs == Where(songs + [x], key, k)
      ensures |r[k].songs| > 0 && r[k].header == header(r[k].songs[0])
    {
      WhereSnoc(songs, x, key, k);
      if k == key(x) && k !in m {
        WhereNonEmpty(songs, key, k);
      }
    }
  }

  /** The keys of `songs` in order of first appearance, each once: the
      order in which `getOrPut` creates their buckets. */
  function FirstAppearance<K(==)>(songs: seq<Song>, key: Song -> K): seq<K> {
    if |songs| == 0 then []
    else
      var init := songs[..|songs| - 1];
      var k := key(songs[|songs| - 1]);
      FirstAppearance(init, key) + (if k in KeysOf(init, key) then [] else [k])
  }

  lemma FirstAppearanceSnoc<K>(songs: seq<Song>, x: Song, key: Song -> K)
    ensures FirstAppearance(songs + [x], key)
         == FirstAppearance(songs, key) + (if key(x) in KeysOf(songs, key) then [] else [key(x)])
  {
    assert (songs + [x])[..|songs|] == songs;
  }

  /** The first-appearance order lists exactly the keys that occur. */
  lemma {:induction false} FirstAppearanceHas<K>(songs: seq<Song>, key: Song -> K, k: K)
    ensures k in FirstAppearance(songs, key) <==> k in KeysOf(songs, key)
  {
    if |songs| > 0 {
      var init := songs[..|songs| - 1];
      FirstAppearanceHas(init, key, k);
      assert songs == init + [songs[|songs| - 1]];
      FirstAppearanceSnoc(init, songs[|songs| - 1], key);
      KeysSnoc(init, songs[|songs| - 1], key);
    }
  }

  /** ... and each of them once. */
  lemma {:induction false} FirstAppearanceDistinct<K>(songs: seq<Song>, key: Song -> K)
    ensures forall i, j :: 0 <= i < j < |FirstAppearance(songs, key)| ==>
              FirstAppearance(songs, key)[i] != FirstAppearance(songs, key)[j]
  {
    if |songs| > 0 {
      var init := songs[..|songs| - 1];
      var x := songs[|songs| - 1];
      FirstAppearanceDistinct(init, key);
      assert songs == init + [x];
      FirstAppearanceSnoc(init, x, key);
      var fa := FirstAppearance(init, key);
      if key(x) !in KeysOf(init, key) {
        FirstAppearanceHas(init, key, key(x));
        forall i | 0 <= i < |fa| ensures fa[i] != key(x) {
          assert fa[i] in fa;
        }
        assert FirstAppearance(songs, key) == fa + [key(x)];
      }
    }
  }

  /** The first-writer invariant: one entry per key that occurs, holding
      the value of the first song with that key. */
  ghost predicate RecordsFirst<K, V>(m: map<K, V>, songs: seq<Song>, key: Song -> K, value: Song -> V) {
    && m.Keys == KeysOf(songs, key)
    && forall k :: k in m ==> |Where(songs, key, k)| > 0 && m[k] == value(Where(songs, key, k)[0])
  }

  /** Below API 24 `putIfAbsentSupport` of one more song keeps the
      first-writer invariant. */
  lemma RecordsFirstAdd<K, V>(m: map<K, V>, songs: seq<Song>, key: Song -> K, value: Song -> V, x: Song)
    requires RecordsFirst(m, songs, key, value)
    ensures RecordsFirst(PutIfAbsent(m, key(x), value(x)), songs + [x], key, value)
  {
    var r := PutIfAbsent(m, key(x), value(x));
    KeysSnoc(songs, x, key);
    forall k | k in r
      ensures |Where(songs + [x], key, k)| > 0 && r[k] == value(Where(songs + [x], key, k)[0])
    {
      WhereSnoc(songs, x, key, k);
      if k == key(x) && k !in m {
        WhereNonEmpty(songs, key, k);
      }
    }
  }

  /** The first non-null value among `songs`, in order, or null when every
      song's value is null. */
  function FirstSome<V>(songs: seq<Song>, value: Song -> Option<V>): Option<V> {
    if |songs| == 0 then None
    else
      var f := FirstSome(songs[..|songs| - 1], value);
      if f.Some? then f else value(songs[|songs| - 1])
  }

  /** `FirstSome` is null exactly when every value is, and otherwise is the
      value of a song before which every value is null. */
  lemma {:induction false} FirstSomeIsFirst<V>(songs: seq<Song>, value: Song -> Option<V>)
    ensures FirstSome(songs, value).None? <==> forall i :: 0 <= i < |songs| ==> value(songs[i]).None?
    ensures FirstSome(songs, value).Some? ==>
              exists i :: 0 <= i < |songs| && value(songs[i]) == FirstSome(songs, value)
                          && forall j :: 0 <= j < i ==> value(songs[j]).None?
    decreases |songs|
  {
    if |songs| > 0 {
      var init := songs[..|songs| - 1];
      FirstSomeIsFirst(init, value);
      assert forall i :: 0 <= i < |init| ==> init[i] == songs[i];
      if FirstSome(init, value).Some? {
        var i :| 0 <= i < |init| && value(init[i]) == FirstSome(init, value)
                 && forall j :: 0 <= j < i ==> value(init[j]).None?;
        assert value(songs[i]) == FirstSome(songs, value);
      } else {
        assert value(songs[|songs| - 1]) == FirstSome(songs, value);
      }
    }
  }

  /** Adding one song only matters while every earlier value is null. */
  lemma FirstSomeSnoc<V>(songs: seq<Song>, x: Song, value: Song -> Option<V>)
    ensures FirstSome(songs + [x], value) == if FirstSome(songs, value).Some? then FirstSome(songs, value) else value(x)
  {
    assert (songs + [x])[..|songs|] == songs;
  }

  /** The API 24 first-writer invariant: `HashMap.putIfAbsent` replaces a
      key mapped to null, so each key that occurs holds the first non-null
      value among its songs, or null when all of them are null. */
  ghost predicate RecordsFirstSome<K, V>(m: map<K, Option<V>>, songs: seq<Song>, key: Song -> K, value: Song -> Option<V>) {
    && m.Keys == KeysOf(songs, key)
    && forall k :: k in m ==> m[k] == FirstSome(Where(songs, key, k), value)
  }

  /** From API 24 `putIfAbsentSupport` of one more song keeps the
      first-non-null invariant. */
  lemma RecordsFirstSomeAdd<K, V>(m: map<K, Option<V>>, songs: seq<Song>, key: Song -> K, value: Song -> Option<V>, x: Song)
    requires RecordsFirstSome(m, songs, key, value)
    ensures RecordsFirstSome(PutIfAbsentNullable(m, key(x), value(x)), songs + [x], key, value)
  {
    var r := PutIfAbsentNullable(m, key(x), value(x));
    KeysSnoc(songs, x, key);
    forall k | k in r
      ensures r[k] == FirstSome(Where(songs + [x], key, k), value)
    {
      RecordsFirstSomeAt(m, songs, key, value, x, k);
    }
  }

  /** One key of `RecordsFirstSomeAdd`. */
  lemma RecordsFirstSomeAt<K, V>(m: map<K, Option<V>>, songs: seq<Song>, key: Song -> K, value: Song -> Option<V>, x: Song, k: K)
    requires RecordsFirstSome(m, songs, key, value)
    requires k in m || k == key(x)
    ensures PutIfAbsentNullable(m, key(x), value(x))[k] == FirstSome(Where(songs + [x], key, k), value)
  {
    var r := PutIfAbsentNullable(m, key(x), value(x));
    var w := Where(songs, key, k);
    WhereSnoc(songs, x, key, k);
    if k != key(x) {
      assert Where(songs + [x], key, k) == w;
      assert r[k] == m[k];
    } else {
      assert Where(songs + [x], key, k) == w + [x];
      FirstSomeSnoc(w, x, value);
      if k in m {
        assert m[k] == FirstSome(w, value);
        assert r[k] == if m[k].Some? then m[k] else value(x);
      } else {
        WhereNonEmpty(songs, key, k);
        assert w == [];
        assert r[k] == value(x);
      }
    }
  }
}
