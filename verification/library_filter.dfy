/** The song filter of flow/Library.kt (`applyFilters`) and the memo that
    re-applies it only when the filter changes. A filter is a minimum length
    in whole seconds (a Kotlin `Int`) and a set of blacklisted folders. */
module LibraryFilter {
  import opened Wrappers
  import opened Text
  import opened Items

  const TwoTo31: int := 0x8000_0000
  const TwoTo32: int := 0x1_0000_0000

  /** Values of a Kotlin `Int`. */
  type Int32 = x: int | -TwoTo31 <= x < TwoTo31

  /** Two's-complement wrap-around of an `Int` product. */
  function Wrap32(x: int): (r: Int32)
    ensures (r - x) % TwoTo32 == 0
    ensures -TwoTo31 <= x < TwoTo31 ==> r == x
  {
    (x + TwoTo31) % TwoTo32 - TwoTo31
  }

  datatype Filter = Filter(minLength: Int32, blacklist: set<string>)

  /** The folder of a song's file, when the song has a file and the file
      has a parent (`uri?.toFile()?.parentFile?.absolutePath`). */
  function ParentPath(s: Song): (r: Option<string>)
    ensures s.path.None? ==> r.None?
    ensures s.path.Some? ==> r == FileParent(s.path.value)
  {
    match s.path
    case None => None
    case Some(p) => FileParent(p)
  }

  /** The keep predicate as written: `filter.first * 1000` is an `Int`
      product, so it wraps for minimum lengths beyond 2147483 seconds. */
  predicate KeepAsWritten(s: Song, f: Filter) {
    && (ParentPath(s).None? || ParentPath(s).value !in f.blacklist)
    && (s.duration.None? || s.duration.value >= Wrap32(f.minLength * 1000))
  }

  /** The keep predicate with the threshold computed without wrapping, as
      the reader computes its own (a `Long` product). */
  predicate Keep(s: Song, f: Filter) {
    && (ParentPath(s).None? || ParentPath(s).value !in f.blacklist)
    && (s.duration.None? || s.duration.value >= f.minLength * 1000)
  }

  /** For every minimum length an `Int` product can hold the two agree. */
  lemma KeepAgreesWithoutOverflow(s: Song, f: Filter)
    requires -2147483 <= f.minLength <= 2147483
    ensures KeepAsWritten(s, f) == Keep(s, f)
  {
  }

  /** A minimum length of 2147484 seconds wraps to a negative threshold, so
      the written predicate keeps a one-second song that the filter was set
      to drop. */
  lemma OverflowKeepsShortSong(s: Song, f: Filter)
    requires f.minLength == 2147484 && s.duration == Some(1000) && s.path.None?
    ensures KeepAsWritten(s, f)
    ensures !Keep(s, f)
  {
    assert Wrap32(2147484 * 1000) == -2147483296;
  }

  /** `applyFilters`: the songs that pass, in their original order. */
  function ApplyFilters(songs: seq<Song>, f: Filter): (r: seq<Song>)
    ensures |r| <= |songs|
    ensures forall i :: 0 <= i < |r| ==> Keep(r[i], f)
    ensures forall s :: s in r <==> s in songs && Keep(s, f)
  {
    if |songs| == 0 then []
    else
      assert forall s :: s in songs <==> s == songs[0] || s in songs[1..];
      (if Keep(songs[0], f) then [songs[0]] else []) + ApplyFilters(songs[1..], f)
  }

  /** Filtering distributes over concatenation, so each song is kept or
      dropped on its own and the kept ones keep their relative order. */
  lemma {:induction false} ApplyFiltersAppend(a: seq<Song>, b: seq<Song>, f: Filter)
    ensures ApplyFilters(a + b, f) == ApplyFilters(a, f) + ApplyFilters(b, f)
  {
    if |a| == 0 {
      assert a + b == b;
    } else {
      assert (a + b)[1..] == a[1..] + b;
      ApplyFiltersAppend(a[1..], b, f);
    }
  }

  /** `a` can be obtained from `b` by deleting elements. */
  predicate IsSubsequence(a: seq<Song>, b: seq<Song>)
    decreases |b|
  {
    if |a| == 0 then true
    else if |b| == 0 then false
    else if a[0] == b[0] && IsSubsequence(a[1..], b[1..]) then true
    else IsSubsequence(a, b[1..])
  }

  /** The filtered list is an order-preserving subsequence of the input. */
  lemma {:induction false} ApplyFiltersSubsequence(songs: seq<Song>, f: Filter)
    ensures IsSubsequence(ApplyFilters(songs, f), songs)
  {
    if |songs| > 0 {
      ApplyFiltersSubsequence(songs[1..], f);
      var rest := ApplyFilters(songs[1..], f);
      if Keep(songs[0], f) {
        assert ApplyFilters(songs, f) == [songs[0]] + rest;
        assert ([songs[0]] + rest)[1..] == rest;
      } else {
        assert ApplyFilters(songs, f) == rest;
        if |rest| > 0 {
          assert rest[0] in rest;
          assert rest[0] != songs[0];
        }
      }
    }
  }

  /** Boundaries: a song exactly as long as the minimum is kept, and a zero
      minimum with an empty blacklist drops nothing of non-negative
      length. */
  lemma FilterBoundaries(s: Song, songs: seq<Song>, f: Filter)
    ensures (s.duration == Some(f.minLength * 1000)
             && (ParentPath(s).None? || ParentPath(s).value !in f.blacklist))
              ==> Keep(s, f)
    ensures (&& f.minLength == 0 && f.blacklist == {}
             && forall i :: 0 <= i < |songs| && songs[i].duration.Some? ==> songs[i].duration.value >= 0)
              ==> ApplyFilters(songs, f) == songs
  {
    if f.minLength == 0 && f.blacklist == {}
       && forall i :: 0 <= i < |songs| && songs[i].duration.Some? ==> songs[i].duration.value >= 0
    {
      AllKeptIdentity(songs, f);
    }
  }

  /** When every song passes, filtering is the identity. */
  lemma {:induction false} AllKeptIdentity(songs: seq<Song>, f: Filter)
    requires forall i :: 0 <= i < |songs| ==> Keep(songs[i], f)
    ensures ApplyFilters(songs, f) == songs
  {
    if |songs| > 0 {
      AllKeptIdentity(songs[1..], f);
      assert songs == [songs[0]] + songs[1..];
    }
  }

  /** The library's preprocessed data: all songs, the last filtered list and
      the filter it was computed with. */
  datatype LibraryData = LibraryData(songs: seq<Song>, songsFiltered: seq<Song>, filter: Filter)

  /** The cached list is the filter's result. */
  predicate Valid(d: LibraryData) {
    d.songsFiltered == ApplyFilters(d.songs, d.filter)
  }

  /** The combine step of `songsFilteredFlow`: an unchanged filter returns
      the cached list and leaves the data alone; a new one replaces both the
      filter and the cached list. */
  function FilteredSongs(d: LibraryData, f: Filter): (r: (seq<Song>, LibraryData))
    ensures f == d.filter ==> r == (d.songsFiltered, d)
    ensures f != d.filter ==> r.1 == LibraryData(d.songs, ApplyFilters(d.songs, f), f)
    ensures r.0 == r.1.songsFiltered && r.1.songs == d.songs && r.1.filter == f
  {
    if f == d.filter then (d.songsFiltered, d)
    else
      var filtered := ApplyFilters(d.songs, f);
      (filtered, LibraryData(d.songs, filtered, f))
  }

  /** The memo is transparent: from consistent data every step returns
      exactly what filtering from scratch would, and stays consistent. */
  lemma MemoTransparent(d: LibraryData, f: Filter)
    requires Valid(d)
    ensures FilteredSongs(d, f).0 == ApplyFilters(d.songs, f)
    ensures Valid(FilteredSongs(d, f).1)
  {
  }
}
