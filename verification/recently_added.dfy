/** The "recently added" playlist of dynamicitem/RecentlyAdded.kt: the songs
    sorted newest first once, and a view that a binary search for the cutoff
    cuts off that sorted list. Changing the cutoff recomputes only the
    view. */
module RecentlyAdded {
  import opened Wrappers
  import opened Items
  import Playlists

  /** The sort key: the add date, with a missing date counted as -1. */
  function SortKey(s: Song): int {
    s.addDate.GetOr(-1)
  }

  predicate SortedDesc(l: seq<Song>) {
    forall i, j :: 0 <= i < j < |l| ==> SortKey(l[i]) >= SortKey(l[j])
  }

  /** Puts `x` in front of the first element of `l` whose key is not
      greater than its own. */
  function Insert(x: Song, l: seq<Song>): (r: seq<Song>)
    ensures |r| == |l| + 1
    ensures multiset(r) == multiset(l) + multiset{x}
  {
    if |l| == 0 then [x]
    else if SortKey(l[0]) <= SortKey(x) then [x] + l
    else
      assert l == [l[0]] + l[1..];
      [l[0]] + Insert(x, l[1..])
  }

  /** Inserting into a sorted list keeps it sorted. */
  lemma {:induction false} InsertSorted(x: Song, l: seq<Song>)
    requires SortedDesc(l)
    ensures SortedDesc(Insert(x, l))
    decreases |l|
  {
    if |l| > 0 {
      if SortKey(l[0]) <= SortKey(x) {
        assert forall k :: 0 <= k < |l| ==> SortKey(l[k]) <= SortKey(l[0]);
        SortedCons(x, l);
      } else {
        var tail := l[1..];
        var rest := Insert(x, tail);
        InsertSorted(x, tail);
        forall k | 0 <= k < |rest| ensures SortKey(rest[k]) <= SortKey(l[0]) {
          assert rest[k] in multiset(rest);
          if rest[k] != x {
            assert rest[k] in multiset(tail);
            var j :| 0 <= j < |tail| && tail[j] == rest[k];
            assert l[j + 1] == rest[k];
          }
        }
        SortedCons(l[0], rest);
      }
    }
  }

  /** A song no older than every song of a sorted list can go in front. */
  lemma SortedCons(h: Song, l: seq<Song>)
    requires SortedDesc(l)
    requires forall k :: 0 <= k < |l| ==> SortKey(l[k]) <= SortKey(h)
    ensures SortedDesc([h] + l)
  {
    var r := [h] + l;
    forall i, j | 0 <= i < j < |r| ensures SortKey(r[i]) >= SortKey(r[j]) {
      assert r[j] == l[j - 1];
      if i > 0 { assert r[i] == l[i - 1]; }
    }
  }

  /** The songs of `l` whose sort key is `v`, in their order in `l`. */
  function WithKey(l: seq<Song>, v: int): seq<Song> {
    if |l| == 0 then []
    else (if SortKey(l[0]) == v then [l[0]] else []) + WithKey(l[1..], v)
  }

  /** `WithKey` of a song put in front. */
  lemma WithKeyCons(h: Song, t: seq<Song>, v: int)
    ensures WithKey([h] + t, v) == (if SortKey(h) == v then [h] else []) + WithKey(t, v)
  {
    assert ([h] + t)[1..] == t;
  }

  /** `Insert` puts `x` after nothing of its own key: among the songs of
      key `v`, `x` comes first and the others keep their order. */
  lemma {:induction false} InsertStable(x: Song, l: seq<Song>, v: int)
    ensures WithKey(Insert(x, l), v) == (if SortKey(x) == v then [x] else []) + WithKey(l, v)
    decreases |l|
  {
    if |l| > 0 && SortKey(l[0]) > SortKey(x) {
      var rest := Insert(x, l[1..]);
      InsertStable(x, l[1..], v);
      assert Insert(x, l) == [l[0]] + rest;
      WithKeyCons(l[0], rest, v);
    } else {
      assert Insert(x, l) == [x] + l;
      WithKeyCons(x, l, v);
    }
  }

  /** `InsertStable` for every key. */
  lemma InsertStableAll(x: Song, l: seq<Song>)
    ensures forall v :: WithKey(Insert(x, l), v) == (if SortKey(x) == v then [x] else []) + WithKey(l, v)
  {
    forall v ensures WithKey(Insert(x, l), v) == (if SortKey(x) == v then [x] else []) + WithKey(l, v) {
      InsertStable(x, l, v);
    }
  }

  /** `sortedByDescending { it.addDate ?: -1 }`: a stable sort, so the
      songs of each key keep their input order. */
  function SortDescending(songs: seq<Song>): (r: seq<Song>)
    ensures SortedDesc(r)
    ensures multiset(r) == multiset(songs)
    ensures forall v :: WithKey(r, v) == WithKey(songs, v)
  {
    if |songs| == 0 then []
    else
      assert songs == [songs[0]] + songs[1..];
      var rest := SortDescending(songs[1..]);
      InsertSorted(songs[0], rest);
      InsertStableAll(songs[0], rest);
      Insert(songs[0], rest)
  }

  /** The comparison the binary search is given:
      `addDate?.let { minAddDate.compareTo(it) } ?: -1`. A song without a
      date always compares as "search further right". */
  function Compare(s: Song, cutoff: int): int {
    match s.addDate
    case None => -1
    case Some(d) => if cutoff < d then -1 else if cutoff == d then 0 else 1
  }

  /** The comparison as the function value handed to the search. */
  function CompareTo(cutoff: int): Song -> int {
    s => Compare(s, cutoff)
  }

  /** The comparison never decreases along the list. */
  ghost predicate Monotone(l: seq<Song>, cmp: Song -> int) {
    forall i, j :: 0 <= i < j < |l| ==> cmp(l[i]) <= cmp(l[j])
  }

  /** Kotlin's `List.binarySearch(fromIndex, toIndex, comparison)` over the
      inclusive range `low..high`: returns an index the comparison calls a
      hit, or `-(insertion point) - 1` for a miss. */
  function Search(l: seq<Song>, cmp: Song -> int, low: int, high: int): (r: int)
    requires 0 <= low <= |l| && -1 <= high < |l| && low <= high + 1
    ensures r >= 0 ==> low <= r <= high && cmp(l[r]) == 0
    ensures r < 0 ==> low <= -r - 1 <= high + 1
    decreases high - low + 1
  {
    if low > high then -(low + 1)
    else
      var mid := (low + high) / 2;
      var c := cmp(l[mid]);
      if c < 0 then Search(l, cmp, mid + 1, high)
      else if c > 0 then Search(l, cmp, low, mid - 1)
      else mid
  }

  /** A miss to the left of `mid` on a monotone comparison: everything up
      to `mid` is a miss to the left too. */
  lemma BelowMid(l: seq<Song>, cmp: Song -> int, mid: int)
    requires 0 <= mid < |l| && Monotone(l, cmp) && cmp(l[mid]) < 0
    ensures forall i :: 0 <= i < mid + 1 ==> cmp(l[i]) < 0
  {
    forall i | 0 <= i < mid ensures cmp(l[i]) < 0 {
      assert cmp(l[i]) <= cmp(l[mid]);
    }
  }

  /** The mirror image of `BelowMid`. */
  lemma AboveMid(l: seq<Song>, cmp: Song -> int, mid: int)
    requires 0 <= mid < |l| && Monotone(l, cmp) && cmp(l[mid]) > 0
    ensures forall i :: mid - 1 < i < |l| ==> cmp(l[i]) > 0
  {
    forall i | mid < i < |l| ensures cmp(l[i]) > 0 {
      assert cmp(l[mid]) <= cmp(l[i]);
    }
  }

  /** The bounds a search range keeps: everything left of `low` is "right
      of here" and everything right of `high` is "left of here". */
  ghost predicate Bracketed(l: seq<Song>, cmp: Song -> int, low: int, high: int)
    requires 0 <= low <= |l| && -1 <= high
  {
    && (forall i :: 0 <= i < low ==> cmp(l[i]) < 0)
    && (forall i :: high < i < |l| ==> cmp(l[i]) > 0)
  }

  /** Position `p` separates the songs the comparison sends right from
      those it sends left. */
  ghost predicate SplitsAt(l: seq<Song>, cmp: Song -> int, p: int) {
    && (forall i :: 0 <= i < p && i < |l| ==> cmp(l[i]) < 0)
    && (forall i :: p <= i < |l| && 0 <= i ==> cmp(l[i]) > 0)
  }

  /** When the comparison is monotone and the range is bracketed, a miss
      gives the exact insertion point. */
  lemma {:induction false} SearchMissSplits(l: seq<Song>, cmp: Song -> int, low: int, high: int)
    requires 0 <= low <= |l| && -1 <= high < |l| && low <= high + 1
    requires Monotone(l, cmp) && Bracketed(l, cmp, low, high)
    requires Search(l, cmp, low, high) < 0
    ensures SplitsAt(l, cmp, -Search(l, cmp, low, high) - 1)
    decreases high - low + 1, 1
  {
    if low <= high {
      var mid := (low + high) / 2;
      if cmp(l[mid]) < 0 {
        MissRight(l, cmp, low, high);
      } else if cmp(l[mid]) > 0 {
        MissLeft(l, cmp, low, high);
      }
    }
  }

  /** One step of the search: a miss at `mid` continues on one side. */
  lemma SearchStep(l: seq<Song>, cmp: Song -> int, low: int, high: int)
    requires 0 <= low <= high < |l|
    ensures var mid := (low + high) / 2;
            && (cmp(l[mid]) < 0 ==> Search(l, cmp, low, high) == Search(l, cmp, mid + 1, high))
            && (cmp(l[mid]) > 0 ==> Search(l, cmp, low, high) == Search(l, cmp, low, mid - 1))
  {
  }

  /** The step of `SearchMissSplits` that moves right of `mid`. */
  lemma {:induction false} MissRight(l: seq<Song>, cmp: Song -> int, low: int, high: int)
    requires 0 <= low <= high < |l|
    requires Monotone(l, cmp) && Bracketed(l, cmp, low, high)
    requires cmp(l[(low + high) / 2]) < 0
    requires Search(l, cmp, low, high) < 0
    ensures SplitsAt(l, cmp, -Search(l, cmp, low, high) - 1)
    decreases high - low + 1, 0
  {
    var mid := (low + high) / 2;
    SearchStep(l, cmp, low, high);
    BelowMid(l, cmp, mid);
    SearchMissSplits(l, cmp, mid + 1, high);
  }

  /** The step of `SearchMissSplits` that moves left of `mid`. */
  lemma {:induction false} MissLeft(l: seq<Song>, cmp: Song -> int, low: int, high: int)
    requires 0 <= low <= high < |l|
    requires Monotone(l, cmp) && Bracketed(l, cmp, low, high)
    requires cmp(l[(low + high) / 2]) > 0
    requires Search(l, cmp, low, high) < 0
    ensures SplitsAt(l, cmp, -Search(l, cmp, low, high) - 1)
    decreases high - low + 1, 0
  {
    var mid := (low + high) / 2;
    SearchStep(l, cmp, low, high);
    AboveMid(l, cmp, mid);
    SearchMissSplits(l, cmp, low, mid - 1);
  }

  /** The end of the view: the hit index, or the insertion point. */
  function ViewEnd(raw: seq<Song>, cutoff: int): (k: nat)
    ensures k <= |raw|
  {
    if |raw| == 0 then 0
    else
      var r := Search(raw, CompareTo(cutoff), 0, |raw| - 1);
      if r >= 0 then r else -r - 1
  }

  /** Every song has an add date. */
  predicate AllDated(l: seq<Song>) {
    forall i :: 0 <= i < |l| ==> l[i].addDate.Some?
  }

  /** `filterList(minAddDate)`: always a prefix of the sorted list. When
      every song has a date, it holds every song dated after the cutoff and
      no song dated before it; a song dated exactly at the cutoff may fall on
      either side, because a hit index is used as the exclusive end. */
  function FilterList(raw: seq<Song>, cutoff: int): (r: seq<Song>)
    ensures |r| <= |raw| && r == raw[..|r|]
    ensures |raw| == 0 ==> r == []
    ensures AllDated(raw) && SortedDesc(raw) ==>
      && (forall i :: 0 <= i < |r| ==> raw[i].addDate.value >= cutoff)
      && (forall i :: |r| <= i < |raw| ==> raw[i].addDate.value <= cutoff)
  {
    var k := ViewEnd(raw, cutoff);
    if AllDated(raw) && SortedDesc(raw) then
      ViewEndSplits(raw, cutoff);
      if k > 0 then raw[..k] else []
    else if k > 0 then raw[..k] else []
  }

  /** On a sorted, fully dated list the comparison is monotone. */
  lemma SortedMonotone(raw: seq<Song>, cutoff: int)
    requires AllDated(raw) && SortedDesc(raw)
    ensures Monotone(raw, CompareTo(cutoff))
  {
    forall i, j | 0 <= i < j < |raw|
      ensures CompareTo(cutoff)(raw[i]) <= CompareTo(cutoff)(raw[j])
    {
      assert SortKey(raw[i]) >= SortKey(raw[j]);
    }
  }

  /** On a sorted, fully dated list, a hit at `r` splits the list into the
      songs dated at or after the cutoff and those dated at or before it. */
  lemma HitSplits(raw: seq<Song>, cutoff: int, r: nat)
    requires AllDated(raw) && SortedDesc(raw)
    requires r < |raw| && Compare(raw[r], cutoff) == 0
    ensures forall i :: 0 <= i < r ==> raw[i].addDate.value >= cutoff
    ensures forall i :: r <= i < |raw| ==> raw[i].addDate.value <= cutoff
  {
    assert forall i :: 0 <= i < |raw| ==> SortKey(raw[i]) == raw[i].addDate.value;
    assert forall i :: 0 <= i < r ==> SortKey(raw[i]) >= SortKey(raw[r]);
    assert forall i :: r < i < |raw| ==> SortKey(raw[i]) <= SortKey(raw[r]);
  }

  /** On a sorted, fully dated list the view end separates the songs dated
      at or after the cutoff from those dated at or before it. */
  lemma ViewEndSplits(raw: seq<Song>, cutoff: int)
    requires AllDated(raw) && SortedDesc(raw)
    ensures forall i :: 0 <= i < ViewEnd(raw, cutoff) ==> raw[i].addDate.value >= cutoff
    ensures forall i :: ViewEnd(raw, cutoff) <= i < |raw| ==> raw[i].addDate.value <= cutoff
  {
    if |raw| > 0 {
      var cmp := CompareTo(cutoff);
      var r := Search(raw, cmp, 0, |raw| - 1);
      if r >= 0 {
        HitSplits(raw, cutoff, r);
      } else {
        MissSplits(raw, cutoff);
      }
    }
  }

  /** On a sorted, fully dated list, a miss splits the list at the
      insertion point into the songs dated after the cutoff and those dated
      before it. */
  lemma MissSplits(raw: seq<Song>, cutoff: int)
    requires AllDated(raw) && SortedDesc(raw) && |raw| > 0
    requires Search(raw, CompareTo(cutoff), 0, |raw| - 1) < 0
    ensures var p := -Search(raw, CompareTo(cutoff), 0, |raw| - 1) - 1;
            && (forall i :: 0 <= i < p ==> raw[i].addDate.value > cutoff)
            && (forall i :: p <= i < |raw| ==> raw[i].addDate.value < cutoff)
  {
    var cmp := CompareTo(cutoff);
    SortedMonotone(raw, cutoff);
    SearchMissSplits(raw, cmp, 0, |raw| - 1);
    assert forall i :: 0 <= i < |raw| ==> (cmp(raw[i]) < 0 ==> raw[i].addDate.value > cutoff);
    assert forall i :: 0 <= i < |raw| ==> (cmp(raw[i]) > 0 ==> raw[i].addDate.value < cutoff);
  }

  /** When no song is dated exactly at the cutoff (and all are dated), the
      view is exactly the songs dated at or after it. */
  lemma FilterListExact(raw: seq<Song>, cutoff: int)
    requires AllDated(raw) && SortedDesc(raw)
    requires forall i :: 0 <= i < |raw| ==> raw[i].addDate.value != cutoff
    ensures forall i :: 0 <= i < |raw| ==>
              (i < |FilterList(raw, cutoff)| <==> raw[i].addDate.value >= cutoff)
  {
  }

  /** A song dated exactly at the cutoff is dropped when the search hits
      it: dates [200, 100] with cutoff 100 give only the first song. */
  lemma ExactHitDropped(a: Song, b: Song)
    requires a.addDate == Some(200) && b.addDate == Some(100)
    ensures FilterList([a, b], 100) == [a]
  {
    assert Search([a, b], CompareTo(100), 1, 1) == 1;
  }

  /** An undated song is counted on the "newer" side by the comparison, so a
      search that passes over it keeps it: dates [500, none] with cutoff 100
      give both songs. */
  lemma UndatedKept(a: Song, b: Song)
    requires a.addDate == Some(500) && b.addDate.None?
    ensures FilterList([a, b], 100) == [a, b]
  {
    assert Search([a, b], CompareTo(100), 1, 1) == -3;
  }

  /** The playlist object: the sorted list, the cutoff and the current
      view. */
  datatype RecentlyAddedList = RecentlyAddedList(rawList: seq<Song>, minAddDate: int, filtered: seq<Song>)

  /** The view is the one `filterList` gives for the current cutoff. */
  predicate Valid(ra: RecentlyAddedList) {
    ra.filtered == FilterList(ra.rawList, ra.minAddDate)
  }

  /** The constructor: sorts once and computes the first view. */
  function New(minAddDate: int, songs: seq<Song>): (ra: RecentlyAddedList)
    ensures Valid(ra)
    ensures SortedDesc(ra.rawList) && multiset(ra.rawList) == multiset(songs)
    ensures forall v :: WithKey(ra.rawList, v) == WithKey(songs, v)
    ensures ra.minAddDate == minAddDate
    ensures |songs| == 0 ==> ra.filtered == []
  {
    var raw := SortDescending(songs);
    RecentlyAddedList(raw, minAddDate, FilterList(raw, minAddDate))
  }

  /** The `minAddDate` setter: a new value recomputes the view from the
      unchanged sorted list; the current value changes nothing. */
  function SetMinAddDate(ra: RecentlyAddedList, value: int): (r: RecentlyAddedList)
    requires Valid(ra)
    ensures Valid(r)
    ensures r.rawList == ra.rawList && r.minAddDate == value
    ensures value == ra.minAddDate ==> r == ra
  {
    if ra.minAddDate != value then
      ra.(minAddDate := value, filtered := FilterList(ra.rawList, value))
    else ra
  }

  /** Moving the cutoff away and back restores the earlier object. */
  lemma RestoreCutoff(ra: RecentlyAddedList, value: int)
    requires Valid(ra)
    ensures SetMinAddDate(SetMinAddDate(ra, value), ra.minAddDate) == ra
  {
  }

  /** `equals`: only the sorted list and the cutoff are compared. */
  predicate SameList(a: RecentlyAddedList, b: RecentlyAddedList) {
    a.rawList == b.rawList && a.minAddDate == b.minAddDate
  }

  /** Objects `equals` calls equal show the same songs. */
  lemma SameListSameView(a: RecentlyAddedList, b: RecentlyAddedList)
    requires Valid(a) && Valid(b) && SameList(a, b)
    ensures a == b
  {
  }

  /** The playlist it presents: id -1, no title, the current view. */
  function AsPlaylist(ra: RecentlyAddedList): (p: Playlists.Playlist)
    ensures p.id == Some(-1) && p.title.None?
    ensures p.songList == Some(ra.filtered)
  {
    Playlists.Playlist(Some(-1), None, Some(ra.filtered))
  }
}
