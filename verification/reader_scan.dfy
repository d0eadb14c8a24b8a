/** The row loop of `readFromMediaStore` (reader/Reader.kt) as a fold over
    the rows, and the invariant it keeps: after any prefix of the rows,
    every index holds exactly the kept songs that belong to it, in row
    order, and every first-writer association holds the first kept song's
    value (from API 24, for the artist-name cache, the first non-null
    one). */
module ReaderScan {
  import opened Wrappers
  import opened Text
  import opened Items
  import opened Extensions
  import opened FolderTree
  import opened ReaderRow
  import opened ReaderIndex

  /** What the first song of an album fixes about it. */
  datatype AlbumHeader = AlbumHeader(
    title: Option<string>,
    albumArtist: Option<string>,
    albumArtistId: Option<int>,
    year: Option<int>,
    cover: Option<ArtworkRef>
  )

  /** The album-id to (artist id, artist name) table read from the album
      index beforehand; absent on platforms without it. */
  type ArtistLookup = Option<map<int, (int, Option<string>)>>

  /** An album-artist entry: the albums registered under the name, and the
      songs of those albums. */
  datatype AlbumArtistEntry = AlbumArtistEntry(albums: seq<Option<int>>, songs: seq<Song>)

  /** The loop's state: the local lists and maps of `readFromMediaStore`. */
  datatype Acc = Acc(
    idMap: Option<map<int, Song>>,
    songs: seq<Song>,
    recent: seq<(int, Song)>,
    artists: map<Option<int>, Bucket<Option<string>>>,
    artistCache: map<Option<string>, Option<int>>,
    albums: map<Option<int>, Bucket<AlbumHeader>>,
    albumArtists: map<Option<string>, AlbumArtistEntry>,
    genres: map<Option<string>, Bucket<Option<int>>>,
    dates: map<Option<int>, Bucket<Option<int>>>,
    tree: Tree,
    shallow: Shallow,
    folderArray: seq<string>,
    coverCache: Option<map<Option<int>, (string, seq<string>)>>,
    folders: set<string>
  )

  // ---------------------------------------------------------------------
  // Keys and headers

  function ArtistIdKey(s: Song): Option<int> { s.artistId }
  function ArtistNameOf(s: Song): Option<string> { s.artist }
  function AlbumKey(s: Song): Option<int> { s.albumId }
  function GenreKey(s: Song): Option<string> { s.genre }
  function GenreIdOf(s: Song): Option<int> { s.genreId }
  function YearKey(s: Song): Option<int> { s.year }
  function HasAlbum(s: Song): bool { s.albumId.Some? }

  /** The folder of a kept song's file. */
  function DirOf(s: Song): string {
    match s.path
    case Some(p) => FileParent(p).GetOr("")
    case None => ""
  }

  /** The key of a kept song's node in the folder tree. */
  function FolderKeyOf(s: Song): seq<string> {
    match s.path
    case Some(p) => (match FolderComponents(p) case Ok(v) => v case Err(_) => [])
    case None => []
  }

  /** The name of a kept song's shallow folder. */
  function ShallowNameOf(s: Song): string {
    match s.path
    case Some(p) => (match ShallowParts(p) case Ok(v) => v.0 case Err(_) => "")
    case None => ""
  }

  /** What the cover cache records for an album: its first song's folder
      and folder node. */
  function CoverEntryOf(s: Song): (string, seq<string>) {
    (DirOf(s), FolderKeyOf(s))
  }

  /** `albumArtist ?: artist`. */
  function ArtistStr(s: Song): (r: Option<string>)
    ensures s.albumArtist.Some? ==> r == s.albumArtist
    ensures s.albumArtist.None? ==> r == s.artist
  {
    if s.albumArtist.Some? then s.albumArtist else s.artist
  }

  /** The album artist's id from the lookup table, used only when the
      table's artist name for the album equals `artistStr`. */
  function LikelyArtistId(lookup: ArtistLookup, albumId: Option<int>, artistStr: Option<string>): (r: Option<int>)
    ensures r.Some? ==> && lookup.Some? && albumId.Some? && albumId.value in lookup.value
                        && lookup.value[albumId.value] == (r.value, artistStr)
    ensures (&& lookup.Some? && albumId.Some? && albumId.value in lookup.value
             && lookup.value[albumId.value].1 == artistStr) ==> r.Some?
  {
    match lookup
    case None => None
    case Some(m) =>
      if albumId.Some? && albumId.value in m && m[albumId.value].1 == artistStr
      then Some(m[albumId.value].0) else None
  }

  /** The header a new album gets from its first song. The cover is the
      media index's album-art entry, except with enhanced cover reading (the
      cover search decides later) or without an album id. */
  function AlbumHeaderOf(cfg: Config, lookup: ArtistLookup, s: Song): (h: AlbumHeader)
    ensures h.title == s.albumTitle && h.albumArtist == ArtistStr(s) && h.year == s.year
    ensures h.albumArtistId == LikelyArtistId(lookup, s.albumId, ArtistStr(s))
    ensures h.cover.None? <==> (cfg.enhancedCoverReading || s.albumId.None?)
    ensures h.cover.Some? ==> h.cover == Some(AlbumArt(s.albumId.value))
  {
    AlbumHeader(s.albumTitle, ArtistStr(s), LikelyArtistId(lookup, s.albumId, ArtistStr(s)), s.year,
                if cfg.enhancedCoverReading || s.albumId.None? then None else Some(AlbumArt(s.albumId.value)))
  }

  function AlbumHeaderFn(cfg: Config, lookup: ArtistLookup): Song -> AlbumHeader {
    (s: Song) => AlbumHeaderOf(cfg, lookup, s)
  }

  /** The album artist a song is filed under: that of its album. */
  function OwnerFn(albums: map<Option<int>, Bucket<AlbumHeader>>): Song -> Option<string> {
    (s: Song) => if s.albumId in albums then albums[s.albumId].header.albumArtist else None
  }

  /** The album artists of a set of albums. */
  function AlbumOwners(albums: map<Option<int>, Bucket<AlbumHeader>>): set<Option<string>> {
    set k | k in albums :: albums[k].header.albumArtist
  }

  /** The add-date queue entries of the songs that have an add date. */
  function RecentOf(songs: seq<Song>): (r: seq<(int, Song)>)
    ensures |r| <= |songs|
    ensures forall i :: 0 <= i < |r| ==> r[i].1.addDate == Some(r[i].0)
  {
    if |songs| == 0 then []
    else
      var last := songs[|songs| - 1];
      RecentOf(songs[..|songs| - 1]) + (if last.addDate.Some? then [(last.addDate.value, last)] else [])
  }

  lemma RecentSnoc(songs: seq<Song>, x: Song)
    ensures RecentOf(songs + [x]) == RecentOf(songs) + (if x.addDate.Some? then [(x.addDate.value, x)] else [])
  {
    assert (songs + [x])[..|songs|] == songs;
  }

  /** The album ids the songs of a folder node were attached with. */
  function AlbumIdsOf(songs: seq<Song>): (r: seq<Option<int>>)
    ensures |r| == |songs|
    ensures forall i :: 0 <= i < |songs| ==> r[i] == songs[i].albumId
  {
    seq(|songs|, i requires 0 <= i < |songs| => songs[i].albumId)
  }

  // ---------------------------------------------------------------------
  // One row

  /** `idMap?.put(id, song)`: a later song with the same id replaces the
      earlier one. */
  function PutId(idMap: Option<map<int, Song>>, s: Song): (r: Option<map<int, Song>>)
    ensures r.Some? <==> idMap.Some?
    ensures r.Some? ==> r.value == idMap.value[s.id := s]
  {
    match idMap
    case None => None
    case Some(m) => Some(m[s.id := s])
  }

  /** Registers an album under its album artist when it is created. */
  function RegisterAlbum(aa: map<Option<string>, AlbumArtistEntry>, a: Option<string>, k: Option<int>)
    : (r: map<Option<string>, AlbumArtistEntry>)
    ensures r.Keys == aa.Keys + {a}
    ensures r[a].albums == (if a in aa then aa[a].albums else []) + [k]
    ensures r[a].songs == (if a in aa then aa[a].songs else [])
    ensures forall b :: b in aa && b != a ==> r[b] == aa[b]
  {
    var e := if a in aa then aa[a] else AlbumArtistEntry([], []);
    aa[a := e.(albums := e.albums + [k])]
  }

  /** Files a song under its album's album artist. */
  function FileSong(aa: map<Option<string>, AlbumArtistEntry>, a: Option<string>, s: Song)
    : (r: map<Option<string>, AlbumArtistEntry>)
    ensures r.Keys == aa.Keys + {a}
    ensures r[a].albums == (if a in aa then aa[a].albums else [])
    ensures r[a].songs == (if a in aa then aa[a].songs else []) + [s]
    ensures forall b :: b in aa && b != a ==> r[b] == aa[b]
  {
    var e := if a in aa then aa[a] else AlbumArtistEntry([], []);
    aa[a := e.(songs := e.songs + [s])]
  }

  /** The album step: `albumMap.getOrPut(albumId) { … }` (registering a new
      album under `albumArtist ?: artist`), then the song is filed under the
      album's album artist and appended to the album. */
  function AlbumStep(albums: map<Option<int>, Bucket<AlbumHeader>>, aa: map<Option<string>, AlbumArtistEntry>,
                     h: AlbumHeader, s: Song)
    : (r: (map<Option<int>, Bucket<AlbumHeader>>, map<Option<string>, AlbumArtistEntry>))
    ensures r.0 == AddTo(albums, s.albumId, h, s)
  {
    var k := s.albumId;
    var aa1 := if k !in albums then RegisterAlbum(aa, h.albumArtist, k) else aa;
    var albums1 := AddTo(albums, k, h, s);
    (albums1, FileSong(aa1, albums1[k].header.albumArtist, s))
  }

  /** The registration of a kept song in every index but the two folder
      trees, given the key of the song's node in the full tree (the cover
      cache records it). */
  function Index(acc: Acc, s: Song, dir: string, key: seq<string>, cfg: Config, lookup: ArtistLookup): Acc {
    var (albums, aa) := AlbumStep(acc.albums, acc.albumArtists, AlbumHeaderOf(cfg, lookup, s), s);
    acc.(
      songs := acc.songs + [s],
      recent := acc.recent + (if s.addDate.Some? then [(s.addDate.value, s)] else []),
      artists := AddTo(acc.artists, s.artistId, s.artist, s),
      artistCache := PutIfAbsentSupport(acc.artistCache, s.artist, s.artistId, cfg.sdkN),
      albums := albums,
      albumArtists := aa,
      genres := AddTo(acc.genres, s.genre, s.genreId, s),
      dates := AddTo(acc.dates, s.year, s.year, s),
      coverCache := if acc.coverCache.Some? && s.albumId.Some?
                    then Some(PutIfAbsent(acc.coverCache.value, s.albumId, (dir, key)))
                    else acc.coverCache,
      folders := acc.folders + {dir}
    )
  }

  /** The registration of a kept song: the folder node is found or created
      and given the song, the shallow folder likewise, and every index is
      updated. Only the two folder-tree steps can fail. */
  function Register(acc: Acc, s: Song, dir: string, cfg: Config, lookup: ArtistLookup): (r: Result<Acc>)
    requires WellFormed(acc.tree)
    requires s.path.Some?
    ensures r.Err? <==> (FolderComponents(s.path.value).Err? || ShallowParts(s.path.value).Err?)
    ensures r.Ok? ==> WellFormed(r.value.tree)
    ensures r.Ok? ==> r.value.songs == acc.songs + [s] && r.value.idMap == acc.idMap
  {
    match HandleMediaFolder(s.path.value, acc.tree)
    case Err(e) => Err(e)
    case Ok(fr) =>
      match HandleShallowWithArrayAsWritten(s, s.albumId, s.path.value, acc.shallow, acc.folderArray)
      case Err(e) => Err(e)
      case Ok(sr) =>
        var tree := AttachAt(fr.0, fr.1, s, s.albumId);
        Ok(Index(acc, s, dir, fr.1, cfg, lookup).(tree := tree, shallow := sr.0, folderArray := sr.1))
  }

  /** A song entered in the id map and nowhere else. */
  function EnterId(acc: Acc, s: Song): Acc {
    acc.(idMap := PutId(acc.idMap, s))
  }

  /** A row that parsed: a skipped one only enters the id map, a kept one
      is registered everywhere. */
  function Enter(acc: Acc, p: Parsed, cfg: Config, lookup: ArtistLookup): (r: Result<Acc>)
    requires WellFormed(acc.tree) && p.song.path.Some?
    ensures r.Ok? ==> WellFormed(r.value.tree)
    ensures p.skip ==> r == Ok(EnterId(acc, p.song))
    ensures !p.skip ==> r == Register(EnterId(acc, p.song), p.song, p.dir, cfg, lookup)
  {
    var acc1 := EnterId(acc, p.song);
    if p.skip then Ok(acc1) else Register(acc1, p.song, p.dir, cfg, lookup)
  }

  /** One pass of the row loop: a dropped row changes nothing, a parsed
      row is entered; any failure ends the whole read. */
  function Step(acc: Acc, row: Row, cfg: Config, lookup: ArtistLookup, found: bool): (r: Result<Acc>)
    requires WellFormed(acc.tree)
    ensures r.Ok? ==> WellFormed(r.value.tree)
    ensures ParseRow(row, cfg, found).Err? ==> r == Err(ParseRow(row, cfg, found).failure)
    ensures ParseRow(row, cfg, found) == Ok(None) ==> r == Ok(acc)
    ensures var pr := ParseRow(row, cfg, found);
      pr.Ok? && pr.value.Some? ==> r == Enter(acc, pr.value.value, cfg, lookup)
  {
    match ParseRow(row, cfg, found)
    case Err(e) => Err(e)
    case Ok(None) => Ok(acc)
    case Ok(Some(parsed)) => Enter(acc, parsed, cfg, lookup)
  }

  /** The whole row loop: stops at the first failure. */
  function Fold(acc: Acc, rows: seq<Row>, cfg: Config, lookup: ArtistLookup, found: bool): (r: Result<Acc>)
    requires WellFormed(acc.tree)
    ensures r.Ok? ==> WellFormed(r.value.tree)
    decreases |rows|
  {
    if |rows| == 0 then Ok(acc)
    else
      var acc1 :- Step(acc, rows[0], cfg, lookup, found);
      Fold(acc1, rows[1..], cfg, lookup, found)
  }

  /** The state before the first row. */
  function Init(cfg: Config, found: bool): (acc: Acc)
    ensures WellFormed(acc.tree)
  {
    Acc(
      idMap := if found then Some(map[]) else None,
      songs := [],
      recent := [],
      artists := map[],
      artistCache := map[],
      albums := map[],
      albumArtists := map[],
      genres := map[],
      dates := map[],
      tree := map[[] := NewNode("storage")],
      shallow := map[],
      folderArray := [],
      coverCache := if cfg.enhancedCoverReading then Some(map[]) else None,
      folders := {}
    )
  }
}
