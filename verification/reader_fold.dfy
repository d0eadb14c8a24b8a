/** What the row loop of `readFromMediaStore` (reader/Reader.kt) does as a
    whole: which rows end the read, and which songs end up in the song
    list, stated row by row without reference to the loop's state. */
module ReaderFold {
  import opened Wrappers
  import opened Text
  import opened Items
  import opened FolderTree
  import opened ReaderRow
  import opened ReaderScan

  /** The song a row adds to the song list: its song when the row parses
      and is not skipped. */
  function KeptOf(row: Row, cfg: Config, found: bool): seq<Song> {
    match ParseRow(row, cfg, found)
    case Ok(Some(p)) => if p.skip then [] else [p.song]
    case _ => []
  }

  /** The songs a list of rows adds, in row order. */
  function KeptSongs(rows: seq<Row>, cfg: Config, found: bool): (r: seq<Song>)
    ensures |r| <= |rows|
  {
    if |rows| == 0 then [] else KeptOf(rows[0], cfg, found) + KeptSongs(rows[1..], cfg, found)
  }

  /** A row that ends the read: a missing id, title or MIME type, a path
      without a parent folder, or a kept row whose path one of the two
      folder trees rejects. */
  predicate RowFails(row: Row, cfg: Config, found: bool) {
    match ParseRow(row, cfg, found)
    case Err(_) => true
    case Ok(None) => false
    case Ok(Some(p)) =>
      && !p.skip
      && (FolderComponents(p.song.path.value).Err? || ShallowParts(p.song.path.value).Err?)
  }

  lemma AppendAssoc<T>(a: seq<T>, b: seq<T>, c: seq<T>)
    ensures (a + b) + c == a + (b + c)
  {
  }

  /** One row: it succeeds exactly when it does not fail by the rule above,
      and then adds its kept song, if any, to the end of the song list. */
  lemma StepOutcome(acc: Acc, row: Row, cfg: Config, lookup: ArtistLookup, found: bool)
    requires WellFormed(acc.tree)
    ensures Step(acc, row, cfg, lookup, found).Ok? <==> !RowFails(row, cfg, found)
    ensures Step(acc, row, cfg, lookup, found).Ok? ==>
      Step(acc, row, cfg, lookup, found).value.songs == acc.songs + KeptOf(row, cfg, found)
  {
    match ParseRow(row, cfg, found)
    case Err(_) =>
    case Ok(None) =>
    case Ok(Some(p)) => EnterOutcome(acc, p, cfg, lookup);
  }

  /** A parsed row: a skipped one always goes on, a kept one fails exactly
      when one of the folder trees rejects its path. */
  lemma EnterOutcome(acc: Acc, p: Parsed, cfg: Config, lookup: ArtistLookup)
    requires WellFormed(acc.tree) && p.song.path.Some?
    ensures Enter(acc, p, cfg, lookup).Ok? <==>
      (p.skip || (FolderComponents(p.song.path.value).Ok? && ShallowParts(p.song.path.value).Ok?))
    ensures Enter(acc, p, cfg, lookup).Ok? ==>
      Enter(acc, p, cfg, lookup).value.songs == acc.songs + (if p.skip then [] else [p.song])
  {
    var acc1 := EnterId(acc, p.song);
    assert acc1.songs == acc.songs && acc1.tree == acc.tree;
  }

  /** No row fails exactly when the first does not and no later one does. */
  lemma TailAll(rows: seq<Row>, cfg: Config, found: bool)
    requires |rows| > 0
    ensures (forall i :: 0 <= i < |rows| ==> !RowFails(rows[i], cfg, found)) <==>
      !RowFails(rows[0], cfg, found) && forall i :: 0 <= i < |rows[1..]| ==> !RowFails(rows[1..][i], cfg, found)
  {
    assert forall i :: 1 <= i < |rows| ==> rows[i] == rows[1..][i - 1];
  }

  /** The whole loop succeeds exactly when no row fails. */
  lemma {:induction false} FoldSucceeds(acc: Acc, rows: seq<Row>, cfg: Config, lookup: ArtistLookup, found: bool)
    requires WellFormed(acc.tree)
    ensures Fold(acc, rows, cfg, lookup, found).Ok? <==>
      forall i :: 0 <= i < |rows| ==> !RowFails(rows[i], cfg, found)
    decreases |rows|
  {
    if |rows| > 0 {
      StepOutcome(acc, rows[0], cfg, lookup, found);
      var st := Step(acc, rows[0], cfg, lookup, found);
      if st.Ok? {
        assert Fold(acc, rows, cfg, lookup, found) == Fold(st.value, rows[1..], cfg, lookup, found);
        FoldSucceeds(st.value, rows[1..], cfg, lookup, found);
        TailAll(rows, cfg, found);
      }
    }
  }

  /** When the loop succeeds, the song list is the kept songs of all rows
      in row order. */
  lemma {:induction false} FoldSongs(acc: Acc, rows: seq<Row>, cfg: Config, lookup: ArtistLookup, found: bool)
    requires WellFormed(acc.tree)
    requires Fold(acc, rows, cfg, lookup, found).Ok?
    ensures Fold(acc, rows, cfg, lookup, found).value.songs == acc.songs + KeptSongs(rows, cfg, found)
    decreases |rows|
  {
    if |rows| > 0 {
      StepOutcome(acc, rows[0], cfg, lookup, found);
      var st := Step(acc, rows[0], cfg, lookup, found);
      assert Fold(acc, rows, cfg, lookup, found) == Fold(st.value, rows[1..], cfg, lookup, found);
      FoldSongs(st.value, rows[1..], cfg, lookup, found);
      var k0 := KeptOf(rows[0], cfg, found);
      var rest := KeptSongs(rows[1..], cfg, found);
      AppendAssoc(acc.songs, k0, rest);
    }
  }

  /** A row without a path changes nothing, not even the id map. */
  lemma NullPathDropped(acc: Acc, row: Row, cfg: Config, lookup: ArtistLookup, found: bool)
    requires WellFormed(acc.tree) && row.path.None?
    ensures Step(acc, row, cfg, lookup, found) == Ok(acc)
  {
  }

  /** A skipped row reaches the loop only when playlists have content, and
      then it is entered in the id map and nowhere else. */
  lemma SkippedOnlyInIdMap(acc: Acc, row: Row, cfg: Config, lookup: ArtistLookup, found: bool)
    requires WellFormed(acc.tree)
    requires row.path.Some? && FileParent(row.path.value).Some?
    requires Skip(row.duration, FileParent(row.path.value).value, cfg)
    ensures !found ==> Step(acc, row, cfg, lookup, found) == Ok(acc)
    ensures found && row.id.Some? && row.title.Some? && row.mimeType.Some? ==>
      Step(acc, row, cfg, lookup, found)
        == Ok(acc.(idMap := PutId(acc.idMap, BuildSong(row, row.path.value))))
  {
  }
  // ---------------------------------------------------------------------
  // The id map

  /** The song a row enters in the id map: its song whenever the row
      parses, whether it is skipped or kept. */
  function EnteredOf(row: Row, cfg: Config, found: bool): seq<Song> {
    match ParseRow(row, cfg, found)
    case Ok(Some(p)) => [p.song]
    case _ => []
  }

  /** The songs a list of rows enters in the id map, in row order. */
  function EnteredSongs(rows: seq<Row>, cfg: Config, found: bool): (r: seq<Song>)
    ensures |r| <= |rows|
  {
    if |rows| == 0 then [] else EnteredOf(rows[0], cfg, found) + EnteredSongs(rows[1..], cfg, found)
  }

  /** `idMap?.put(id, song)` for each song in turn. */
  function PutAll(idMap: Option<map<int, Song>>, songs: seq<Song>): (r: Option<map<int, Song>>)
    ensures r.Some? <==> idMap.Some?
    decreases |songs|
  {
    if |songs| == 0 then idMap else PutAll(PutId(idMap, songs[0]), songs[1..])
  }

  /** The ids of a list of songs. */
  function IdsOf(songs: seq<Song>): set<int> {
    if |songs| == 0 then {} else {songs[0].id} + IdsOf(songs[1..])
  }

  /** An id is among the songs' ids exactly when some song has it. */
  lemma {:induction false} IdsOfMembers(songs: seq<Song>, id: int)
    ensures id in IdsOf(songs) <==> exists i :: 0 <= i < |songs| && songs[i].id == id
    decreases |songs|
  {
    if |songs| > 0 {
      IdsOfMembers(songs[1..], id);
      if id in IdsOf(songs[1..]) {
        var i :| 0 <= i < |songs[1..]| && songs[1..][i].id == id;
        assert songs[i + 1].id == id;
      }
      if exists i :: 0 <= i < |songs| && songs[i].id == id {
        var i :| 0 <= i < |songs| && songs[i].id == id;
        if i > 0 { assert songs[1..][i - 1] == songs[i]; }
      }
    }
  }

  /** The position of the last song with id `id`. */
  function LastIndex(songs: seq<Song>, id: int): (i: nat)
    requires id in IdsOf(songs)
    ensures i < |songs| && songs[i].id == id
    ensures forall j :: i < j < |songs| ==> songs[j].id != id
    decreases |songs|
  {
    if id in IdsOf(songs[1..]) then
      var i := LastIndex(songs[1..], id);
      assert forall j :: i + 1 < j < |songs| ==> songs[j] == songs[1..][j - 1];
      i + 1
    else
      IdsOfMembers(songs[1..], id);
      assert forall j :: 0 < j < |songs| ==> songs[j] == songs[1..][j - 1];
      0
  }

  /** After the puts, an id maps to the last song with that id, and ids no
      song has keep their old entries: a later row replaces an earlier one. */
  lemma {:induction false} PutAllLast(m: map<int, Song>, songs: seq<Song>, id: int)
    requires id in m || id in IdsOf(songs)
    ensures id in PutAll(Some(m), songs).value
    ensures PutAll(Some(m), songs).value[id] == if id in IdsOf(songs) then songs[LastIndex(songs, id)] else m[id]
    decreases |songs|
  {
    if |songs| > 0 {
      var m1 := m[songs[0].id := songs[0]];
      PutAllLast(m1, songs[1..], id);
      if id in IdsOf(songs[1..]) {
        assert songs[LastIndex(songs, id)] == songs[1..][LastIndex(songs[1..], id)];
      }
    }
  }

  /** After the puts, the map holds the old ids and those of the songs. */
  lemma {:induction false} PutAllKeys(m: map<int, Song>, songs: seq<Song>)
    ensures PutAll(Some(m), songs).value.Keys == m.Keys + IdsOf(songs)
    decreases |songs|
  {
    if |songs| > 0 {
      PutAllKeys(m[songs[0].id := songs[0]], songs[1..]);
    }
  }

  /** A map whose every song is filed under its own id keeps that property
      through the puts. */
  lemma {:induction false} PutAllIds(m: map<int, Song>, songs: seq<Song>)
    requires forall id :: id in m ==> m[id].id == id
    ensures forall id :: id in PutAll(Some(m), songs).value ==> PutAll(Some(m), songs).value[id].id == id
    decreases |songs|
  {
    if |songs| > 0 {
      PutAllIds(m[songs[0].id := songs[0]], songs[1..]);
    }
  }

  lemma {:induction false} PutAllAppend(idMap: Option<map<int, Song>>, a: seq<Song>, b: seq<Song>)
    ensures PutAll(idMap, a + b) == PutAll(PutAll(idMap, a), b)
    decreases |a|
  {
    if |a| == 0 {
      assert a + b == b;
    } else {
      assert (a + b)[1..] == a[1..] + b;
      PutAllAppend(PutId(idMap, a[0]), a[1..], b);
    }
  }

  /** One row enters its song in the id map, if it parses. */
  lemma StepIdMap(acc: Acc, row: Row, cfg: Config, lookup: ArtistLookup, found: bool)
    requires WellFormed(acc.tree)
    ensures Step(acc, row, cfg, lookup, found).Ok? ==>
      Step(acc, row, cfg, lookup, found).value.idMap == PutAll(acc.idMap, EnteredOf(row, cfg, found))
  {
    match ParseRow(row, cfg, found)
    case Err(_) =>
    case Ok(None) =>
    case Ok(Some(p)) =>
      assert [p.song][1..] == [];
      var acc1 := EnterId(acc, p.song);
      if !p.skip {
        assert Enter(acc, p, cfg, lookup) == Register(acc1, p.song, p.dir, cfg, lookup);
      }
  }

  /** When the loop succeeds, the id map holds every parsed row's song,
      put in row order. */
  lemma {:induction false} FoldIdMap(acc: Acc, rows: seq<Row>, cfg: Config, lookup: ArtistLookup, found: bool)
    requires WellFormed(acc.tree)
    requires Fold(acc, rows, cfg, lookup, found).Ok?
    ensures Fold(acc, rows, cfg, lookup, found).value.idMap == PutAll(acc.idMap, EnteredSongs(rows, cfg, found))
    decreases |rows|
  {
    if |rows| > 0 {
      StepIdMap(acc, rows[0], cfg, lookup, found);
      var st := Step(acc, rows[0], cfg, lookup, found);
      assert Fold(acc, rows, cfg, lookup, found) == Fold(st.value, rows[1..], cfg, lookup, found);
      FoldIdMap(st.value, rows[1..], cfg, lookup, found);
      PutAllAppend(acc.idMap, EnteredOf(rows[0], cfg, found), EnteredSongs(rows[1..], cfg, found));
    }
  }
}
