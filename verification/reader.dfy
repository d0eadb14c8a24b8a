/** The end of `readFromMediaStore` (reader/Reader.kt): after the row loop,
    every album gets its album-artist id and, with enhanced cover reading,
    its cover; the artist, album-artist, genre and date lists are read off
    the indices; the playlists are resolved against the id map; and the
    recently-added queue is built. What each list holds is then stated
    against the kept songs alone. */
module Reader {
  import opened Wrappers
  import opened Items
  import opened FolderTree
  import opened Cover
  import opened Playlists
  import RecentlyAddedQueue
  import opened ReaderRow
  import opened ReaderIndex
  import opened ReaderScan
  import opened ReaderInvariant
  import opened ReaderFold

  /** `ReaderResult`: the lists are maps keyed like the source's hash maps,
      whose iteration order the source leaves unspecified. The
      recently-added queue, which the source appends to the playlist list,
      is kept apart. */
  datatype Library = Library(
    songs: seq<Song>,
    albums: map<Option<int>, Album>,
    albumArtists: map<Option<string>, Artist>,
    artists: map<Option<int>, Artist>,
    genres: map<Option<string>, Genre>,
    dates: map<Option<int>, DateBucket>,
    playlists: seq<Playlist>,
    recentlyAdded: Option<RecentlyAddedQueue.QueueList>,
    root: Tree,
    shallow: Shallow,
    folders: set<string>
  )

  /** `m[k]` on a map with nullable values: absent keys read as null. */
  function Lookup<K, V>(m: map<K, Option<V>>, k: K): Option<V> {
    if k in m then m[k] else None
  }

  /** The album id of a folder node, or null without a node. */
  function NodeAlbumId(tree: Tree, key: seq<string>): Option<int> {
    if key in tree then tree[key].albumId else None
  }

  // ---------------------------------------------------------------------
  // The post-pass

  /** One album: a missing album-artist id is looked up under the album
      artist's name in the artist-name cache, and with a cover cache the
      album's first folder is searched for a cover. */
  function FinishAlbum(k: Option<int>, b: Bucket<AlbumHeader>, cache: map<Option<string>, Option<int>>,
                       coverCache: Option<map<Option<int>, (string, seq<string>)>>, tree: Tree,
                       listDir: string -> DirListing): (r: Album)
    ensures r.id == k && r.songs == b.songs
    ensures r.title == b.header.title && r.albumArtist == b.header.albumArtist && r.year == b.header.year
    ensures b.header.albumArtistId.Some? ==> r.albumArtistId == b.header.albumArtistId
    ensures r.cover != b.header.cover ==> coverCache.Some? && k in coverCache.value
  {
    var h := b.header;
    var id := if h.albumArtistId.None? then Lookup(cache, h.albumArtist) else h.albumArtistId;
    var album := Album(k, h.title, h.albumArtist, id, h.year, h.cover, b.songs);
    match coverCache
    case Some(c) =>
      if k in c then AlbumCoverComparison(NodeAlbumId(tree, c[k].1), album, c[k].0, listDir(c[k].0)) else album
    case None => album
  }

  /** Every album finished. */
  function FinishAlbums(albums: map<Option<int>, Bucket<AlbumHeader>>, cache: map<Option<string>, Option<int>>,
                        coverCache: Option<map<Option<int>, (string, seq<string>)>>, tree: Tree,
                        listDir: string -> DirListing): (r: map<Option<int>, Album>)
    ensures r.Keys == albums.Keys
  {
    map k | k in albums :: FinishAlbum(k, albums[k], cache, coverCache, tree, listDir)
  }

  /** The keys of `order` whose finished album has album-artist id `a`, in
      the order of `order`: the albums the pass over the album map adds to
      artist `a`. */
  function AlbumsOfArtist(order: seq<Option<int>>, albums: map<Option<int>, Album>, a: Option<int>)
    : (r: seq<Option<int>>)
    ensures forall k :: k in r <==> k in order && k in albums && albums[k].albumArtistId == a
    ensures NoDup(order) ==> NoDup(r)
  {
    if |order| == 0 then []
    else
      var k := order[0];
      var rest := AlbumsOfArtist(order[1..], albums, a);
      if k in albums && albums[k].albumArtistId == a then
        assert k !in order[1..] ==> k !in rest;
        [k] + rest
      else rest
  }

  /** The artists: each gets, in the order `order` visits the albums, the
      albums whose (finished) album-artist id is its id. */
  function ArtistsOf(artists: map<Option<int>, Bucket<Option<string>>>, albums: map<Option<int>, Album>,
                     order: seq<Option<int>>)
    : (r: map<Option<int>, Artist>)
    ensures r.Keys == artists.Keys
  {
    map a | a in artists :: Artist(a, artists[a].header, artists[a].songs, AlbumsOfArtist(order, albums, a))
  }

  /** The album artists: the id comes from the artist-name cache, and the
      albums are listed as they were registered. */
  function AlbumArtistsOf(aa: map<Option<string>, AlbumArtistEntry>, cache: map<Option<string>, Option<int>>)
    : (r: map<Option<string>, Artist>)
    ensures r.Keys == aa.Keys
  {
    map a | a in aa :: Artist(Lookup(cache, a), a, aa[a].songs, aa[a].albums)
  }

  function GenresOf(genres: map<Option<string>, Bucket<Option<int>>>): (r: map<Option<string>, Genre>)
    ensures r.Keys == genres.Keys
  {
    map g | g in genres :: Genre(genres[g].header, g, genres[g].songs)
  }

  /** A date's id is its year, or 0 without one. */
  function DatesOf(dates: map<Option<int>, Bucket<Option<int>>>): (r: map<Option<int>, DateBucket>)
    ensures r.Keys == dates.Keys
  {
    map y | y in dates :: DateBucket(if y.Some? then y.value else 0, y, dates[y].songs)
  }

  /** The playlists, in order, each with its ids resolved through the id
      map; the first id not found ends the whole read. */
  function ResolveAll(raws: seq<RawPlaylist>, idMap: Option<map<int, Song>>): (r: Result<seq<Playlist>>)
    ensures r.Ok? <==> forall j :: 0 <= j < |raws| ==> ResolveStrict(raws[j].songIds, idMap).Ok?
    ensures r.Ok? ==> |r.value| == |raws|
    ensures r.Ok? ==> forall j :: 0 <= j < |raws| ==>
      r.value[j] == Playlist(raws[j].id, raws[j].title, Some(ResolveStrict(raws[j].songIds, idMap).value))
    ensures r.Err? ==> exists j :: 0 <= j < |raws| && ResolveStrict(raws[j].songIds, idMap) == Err(r.failure)
                                   && forall k :: 0 <= k < j ==> ResolveStrict(raws[k].songIds, idMap).Ok?
    decreases |raws|
  {
    if |raws| == 0 then Ok([])
    else
      match ResolveStrict(raws[0].songIds, idMap)
      case Err(e) => Err(e)
      case Ok(songs) =>
        assert forall j :: 1 <= j < |raws| ==> raws[j] == raws[1..][j - 1];
        match ResolveAll(raws[1..], idMap)
        case Err(e) =>
          FirstFailureShift(raws, idMap, e);
          Err(e)
        case Ok(rest) => Ok([Playlist(raws[0].id, raws[0].title, Some(songs))] + rest)
  }

  /** The first playlist of the tail that fails, when the head resolves, is
      the first failing playlist of the whole list. */
  lemma FirstFailureShift(raws: seq<RawPlaylist>, idMap: Option<map<int, Song>>, e: Failure)
    requires |raws| > 0 && ResolveStrict(raws[0].songIds, idMap).Ok?
    requires exists j :: 0 <= j < |raws| - 1 && ResolveStrict(raws[1..][j].songIds, idMap) == Err(e)
                         && forall k :: 0 <= k < j ==> ResolveStrict(raws[1..][k].songIds, idMap).Ok?
    ensures exists j :: 0 <= j < |raws| && ResolveStrict(raws[j].songIds, idMap) == Err(e)
                        && forall k :: 0 <= k < j ==> ResolveStrict(raws[k].songIds, idMap).Ok?
  {
    var j :| 0 <= j < |raws| - 1 && ResolveStrict(raws[1..][j].songIds, idMap) == Err(e)
             && forall k :: 0 <= k < j ==> ResolveStrict(raws[1..][k].songIds, idMap).Ok?;
    forall k | 0 <= k < j + 1
      ensures ResolveStrict(raws[k].songIds, idMap).Ok?
    {
      if k > 0 {
        assert raws[k] == raws[1..][k - 1];
      }
    }
    assert raws[j + 1] == raws[1..][j];
  }

  /** The playlists of the result: none unless playlists are fetched. */
  function PlaylistsOf(raws: seq<RawPlaylist>, idMap: Option<map<int, Song>>, cfg: Config): Result<seq<Playlist>> {
    if cfg.fetchPlaylist then ResolveAll(raws, idMap) else Ok([])
  }

  /** The recently-added queue, built only when it is asked for and
      playlists are fetched; its cutoff is the current time in seconds
      minus the configured window. */
  function RecentlyAddedOf(cfg: Config, recent: seq<(int, Song)>, nowMillis: nat)
    : (r: Option<RecentlyAddedQueue.QueueList>)
    ensures r.Some? <==> cfg.generateRecentlyAdded && cfg.fetchPlaylist
    ensures r.Some? ==> r.value.queue == recent && r.value.cache.None?
    ensures r.Some? ==> r.value.minAddDate == nowMillis / 1000 - cfg.recentlyAddedFilterSecond
  {
    if cfg.generateRecentlyAdded && cfg.fetchPlaylist
    then Some(RecentlyAddedQueue.New(nowMillis / 1000 - cfg.recentlyAddedFilterSecond, recent))
    else None
  }

  /** Everything after the row loop. */
  function Finish(acc: Acc, raws: seq<RawPlaylist>, cfg: Config, listDir: string -> DirListing, nowMillis: nat)
    : Result<Library>
  {
    var albums := FinishAlbums(acc.albums, acc.artistCache, acc.coverCache, acc.tree, listDir);
    var playlists :- PlaylistsOf(raws, acc.idMap, cfg);
    Ok(Library(
      songs := acc.songs,
      albums := albums,
      albumArtists := AlbumArtistsOf(acc.albumArtists, acc.artistCache),
      artists := ArtistsOf(acc.artists, albums, FirstAppearance(acc.songs, AlbumKey)),
      genres := GenresOf(acc.genres),
      dates := DatesOf(acc.dates),
      playlists := playlists,
      recentlyAdded := RecentlyAddedOf(cfg, acc.recent, nowMillis),
      root := acc.tree,
      shallow := acc.shallow,
      folders := acc.folders + cfg.blacklist))
  }

  /** Whether some playlist has at least one member; only then are skipped
      rows entered in the id map. */
  predicate FoundContent(raws: seq<RawPlaylist>) {
    exists j :: 0 <= j < |raws| && |raws[j].songIds| > 0
  }

  /** The playlists the read sees: none unless playlists are fetched. */
  function FetchedPlaylists(raws: seq<RawPlaylist>, cfg: Config): seq<RawPlaylist> {
    if cfg.fetchPlaylist then raws else []
  }

  /** `readFromMediaStore` given the playlist table, the media rows, the
      album-artist lookup table, a folder lister and the clock. */
  function ReadLibrary(rows: seq<Row>, raws: seq<RawPlaylist>, cfg: Config, lookup: ArtistLookup,
                       listDir: string -> DirListing, nowMillis: nat): Result<Library>
  {
    var fetched := FetchedPlaylists(raws, cfg);
    var found := FoundContent(fetched);
    var acc :- Fold(Init(cfg, found), rows, cfg, lookup, found);
    Finish(acc, fetched, cfg, listDir, nowMillis)
  }
  // ---------------------------------------------------------------------
  // What the lists hold, in terms of the kept songs

  /** The artist id of the first song credited to artist name `a`. */
  function FirstArtistIdNamed(songs: seq<Song>, a: Option<string>): Option<int> {
    var b := Where(songs, ArtistNameOf, a);
    if |b| > 0 then b[0].artistId else None
  }

  /** What the artist-name cache answers for artist name `a`: below API 24
      the artist id of the first song credited to `a`, null included; from
      API 24, where `HashMap.putIfAbsent` replaces a null, the first non-null
      artist id among those songs, or null when they have none. */
  function CachedArtistId(songs: seq<Song>, a: Option<string>, sdkN: bool): Option<int> {
    if sdkN then FirstSome(Where(songs, ArtistNameOf, a), ArtistIdKey) else FirstArtistIdNamed(songs, a)
  }

  /** The album artist a song is filed under: that of the first song of its
      album. */
  function AlbumArtistOf(songs: seq<Song>, s: Song): Option<string> {
    var b := Where(songs, AlbumKey, s.albumId);
    if |b| > 0 then ArtistStr(b[0]) else None
  }

  function AlbumArtistKey(songs: seq<Song>): Song -> Option<string> {
    (s: Song) => AlbumArtistOf(songs, s)
  }

  /** The songs in the same folder as `s`. */
  function FolderOf(songs: seq<Song>, s: Song): seq<Song> {
    Where(songs, FolderKeyOf, FolderKeyOf(s))
  }

  /** An album is the bucket of its id, described by its first song; its
      album-artist id is the lookup table's when the table names the same
      artist, and otherwise what the artist-name cache holds for the album
      artist. */
  ghost predicate AlbumFacts(album: Album, k: Option<int>, songs: seq<Song>, lookup: ArtistLookup, sdkN: bool) {
    var b := Where(songs, AlbumKey, k);
    && |b| > 0
    && album.id == k && album.songs == b
    && album.title == b[0].albumTitle && album.albumArtist == ArtistStr(b[0]) && album.year == b[0].year
    && album.albumArtistId ==
         (var likely := LikelyArtistId(lookup, k, ArtistStr(b[0]));
          if likely.Some? then likely else CachedArtistId(songs, ArtistStr(b[0]), sdkN))
  }

  /** An album's cover. With enhanced cover reading, the folder of the
      album's first song is searched, and only when every song in that
      folder belongs to the album; the best file found becomes the cover.
      Without it, an album with an id gets the media index's album art. */
  ghost predicate CoverFacts(album: Album, k: Option<int>, songs: seq<Song>, cfg: Config,
                             listDir: string -> DirListing) {
    var b := Where(songs, AlbumKey, k);
    |b| > 0 ==>
      var dir := DirOf(b[0]);
      var folder := FolderOf(songs, b[0]);
      var searched := && cfg.enhancedCoverReading && k.Some? && |folder| > 0
                      && (forall i :: 0 <= i < |folder| ==> folder[i].albumId == k);
      album.cover ==
        if searched && FindBestCover(listDir(dir)).Some? then Some(CoverFile(dir, FindBestCover(listDir(dir)).value))
        else if cfg.enhancedCoverReading || k.None? then None
        else Some(AlbumArt(k.value))
  }

  /** One album per album id that occurs. */
  ghost predicate AlbumsFacts(albums: map<Option<int>, Album>, songs: seq<Song>, cfg: Config, lookup: ArtistLookup,
                              listDir: string -> DirListing) {
    && albums.Keys == KeysOf(songs, AlbumKey)
    && forall k :: k in albums ==> AlbumFacts(albums[k], k, songs, lookup, cfg.sdkN) && CoverFacts(albums[k], k, songs, cfg, listDir)
  }

  /** One artist per artist id that occurs, named after its first song,
      holding its songs and the albums whose album-artist id is its id. */
  ghost predicate ArtistsFacts(artists: map<Option<int>, Artist>, albums: map<Option<int>, Album>, songs: seq<Song>) {
    && artists.Keys == KeysOf(songs, ArtistIdKey)
    && forall a :: a in artists ==>
         var b := Where(songs, ArtistIdKey, a);
         && |b| > 0
         && artists[a].id == a && artists[a].title == b[0].artist && artists[a].songs == b
         && (forall k :: k in artists[a].albums <==> k in albums && albums[k].albumArtistId == a)
         && NoDup(artists[a].albums)
  }

  /** One album artist per album artist of an album, holding the songs of
      its albums and those albums, in the order its songs first name them;
      its id is what the artist-name cache holds for the name. */
  ghost predicate AlbumArtistsFacts(aas: map<Option<string>, Artist>, albums: map<Option<int>, Album>, songs: seq<Song>,
                                    sdkN: bool) {
    && aas.Keys == (set k | k in albums :: albums[k].albumArtist)
    && forall a :: a in aas ==>
         && aas[a].id == CachedArtistId(songs, a, sdkN) && aas[a].title == a
         && aas[a].songs == Where(songs, AlbumArtistKey(songs), a)
         && aas[a].albums == FirstAppearance(aas[a].songs, AlbumKey)
         && (forall k :: k in aas[a].albums <==> k in albums && albums[k].albumArtist == a)
         && NoDup(aas[a].albums)
  }

  /** One genre per genre name and one date per year that occurs. */
  ghost predicate GenresFacts(genres: map<Option<string>, Genre>, dates: map<Option<int>, DateBucket>, songs: seq<Song>) {
    && genres.Keys == KeysOf(songs, GenreKey)
    && (forall g :: g in genres ==>
          var b := Where(songs, GenreKey, g);
          |b| > 0 && genres[g] == Genre(b[0].genreId, g, b))
    && dates.Keys == KeysOf(songs, YearKey)
    && (forall y :: y in dates ==>
          var b := Where(songs, YearKey, y);
          |b| > 0 && dates[y] == DateBucket(if y.Some? then y.value else 0, y, b))
  }

  /** The album, artist, album-artist, genre and date lists. */
  ghost predicate ListsFacts(lib: Library, cfg: Config, lookup: ArtistLookup, listDir: string -> DirListing) {
    && AlbumsFacts(lib.albums, lib.songs, cfg, lookup, listDir)
    && ArtistsFacts(lib.artists, lib.albums, lib.songs)
    && AlbumArtistsFacts(lib.albumArtists, lib.albums, lib.songs, cfg.sdkN)
    && GenresFacts(lib.genres, lib.dates, lib.songs)
  }

  /** The two folder trees and the folder set, which also names every
      blacklisted folder. */
  ghost predicate FolderFacts(lib: Library, cfg: Config) {
    && TreeInv(lib.root, lib.songs)
    && lib.shallow.Keys == KeysOf(lib.songs, ShallowNameOf) && ShallowNodes(lib.shallow, lib.songs)
    && lib.folders == KeysOf(lib.songs, DirOf) + cfg.blacklist
  }

  /** The recently-added queue holds the kept songs that have an add date. */
  ghost predicate RecentFacts(lib: Library, cfg: Config, nowMillis: nat) {
    && (lib.recentlyAdded.Some? <==> cfg.generateRecentlyAdded && cfg.fetchPlaylist)
    && (lib.recentlyAdded.Some? ==>
          lib.recentlyAdded.value
            == RecentlyAddedQueue.New(nowMillis / 1000 - cfg.recentlyAddedFilterSecond, RecentOf(lib.songs)))
  }

  /** Everything the result says about its songs. */
  ghost predicate LibraryFacts(lib: Library, cfg: Config, lookup: ArtistLookup, listDir: string -> DirListing,
                               nowMillis: nat) {
    ListsFacts(lib, cfg, lookup, listDir) && FolderFacts(lib, cfg) && RecentFacts(lib, cfg, nowMillis)
  }

  // ---------------------------------------------------------------------
  // The post-pass keeps its promises

  /** The artist-name cache answers with the id its SDK branch keeps for
      the name, and with null for a name no song has. */
  lemma CacheFirst(cache: map<Option<string>, Option<int>>, songs: seq<Song>, a: Option<string>, sdkN: bool)
    requires CacheRecords(cache, songs, sdkN)
    ensures Lookup(cache, a) == CachedArtistId(songs, a, sdkN)
  {
    WhereNonEmpty(songs, ArtistNameOf, a);
    if sdkN && a !in cache {
      assert Where(songs, ArtistNameOf, a) == [];
    }
  }

  /** The two SDK branches differ: for two songs credited to the same name,
      the first without an artist id and the second with id 5, the cache
      keeps null below API 24 and 5 from API 24. */
  lemma CacheBranchesDiffer(x: Song, y: Song, name: string)
    requires x.artist == Some(name) && y.artist == Some(name)
    requires x.artistId.None? && y.artistId == Some(5)
    ensures CachedArtistId([x, y], Some(name), false) == None
    ensures CachedArtistId([x, y], Some(name), true) == Some(5)
  {
    var songs := [x, y];
    WhereSnoc([x], y, ArtistNameOf, Some(name));
    WhereSnoc([], x, ArtistNameOf, Some(name));
    assert [x] == [] + [x] && songs == [x] + [y];
    assert Where(songs, ArtistNameOf, Some(name)) == [x, y];
    assert [x, y][..1] == [x] && [x][..0] == [];
    assert FirstSome([x], ArtistIdKey) == None;
    assert ArtistIdKey(y) == Some(5);
  }

  lemma AlbumFactsOne(albums: map<Option<int>, Bucket<AlbumHeader>>, cache: map<Option<string>, Option<int>>,
                      cc: Option<map<Option<int>, (string, seq<string>)>>, tree: Tree, listDir: string -> DirListing,
                      songs: seq<Song>, cfg: Config, lookup: ArtistLookup, k: Option<int>)
    requires Indexes(albums, songs, AlbumKey, AlbumHeaderFn(cfg, lookup))
    requires CacheRecords(cache, songs, cfg.sdkN)
    requires k in albums
    ensures AlbumFacts(FinishAlbum(k, albums[k], cache, cc, tree, listDir), k, songs, lookup, cfg.sdkN)
  {
    var b := Where(songs, AlbumKey, k);
    HeaderFnApply(cfg, lookup, b[0]);
    WhereKeys(songs, AlbumKey, k);
    assert AlbumKey(b[0]) == k;
    CacheFirst(cache, songs, ArtistStr(b[0]), cfg.sdkN);
  }

  /** No album without an id is in the cover cache. */
  lemma NoneUncached(c: map<Option<int>, (string, seq<string>)>, songs: seq<Song>, tree: Tree)
    requires CoverInv(c, songs, tree)
    ensures None !in c
  {
    var w := Where(songs, HasAlbum, true);
    WhereKeys(songs, HasAlbum, true);
    WhereAbsent(w, AlbumKey, None);
    WhereNonEmpty(w, AlbumKey, None);
  }

  /** The cover cache holds, for an album with an id, the folder of its
      first song, and that folder's node carries the album's id exactly
      when every song in the folder belongs to the album. */
  lemma SearchTarget(c: map<Option<int>, (string, seq<string>)>, songs: seq<Song>, tree: Tree, k: Option<int>)
    requires CoverInv(c, songs, tree) && TreeInv(tree, songs)
    requires k.Some? && |Where(songs, AlbumKey, k)| > 0
    ensures var first := Where(songs, AlbumKey, k)[0];
            var folder := FolderOf(songs, first);
            && k in c && c[k] == (DirOf(first), FolderKeyOf(first))
            && (NodeAlbumId(tree, c[k].1) == k <==>
                  |folder| > 0 && forall i :: 0 <= i < |folder| ==> folder[i].albumId == k)
  {
    var first := Where(songs, AlbumKey, k)[0];
    var w := Where(songs, HasAlbum, true);
    WhereWithin(songs, HasAlbum, true, AlbumKey, k);
    WhereNonEmpty(w, AlbumKey, k);
    var folder := FolderOf(songs, first);
    var key := FolderKeyOf(first);
    assert tree[key].songs == folder;
    TracksIff(tree[key], AlbumIdsOf(folder), k.value);
  }

  lemma CoverFactsOne(albums: map<Option<int>, Bucket<AlbumHeader>>, cache: map<Option<string>, Option<int>>,
                      cc: Option<map<Option<int>, (string, seq<string>)>>, tree: Tree, listDir: string -> DirListing,
                      songs: seq<Song>, cfg: Config, lookup: ArtistLookup, k: Option<int>)
    requires Indexes(albums, songs, AlbumKey, AlbumHeaderFn(cfg, lookup))
    requires CacheInv(cc, songs, tree, cfg.enhancedCoverReading) && TreeInv(tree, songs)
    requires k in albums
    ensures CoverFacts(FinishAlbum(k, albums[k], cache, cc, tree, listDir), k, songs, cfg, listDir)
  {
    var b := Where(songs, AlbumKey, k);
    HeaderFnApply(cfg, lookup, b[0]);
    WhereKeys(songs, AlbumKey, k);
    assert AlbumKey(b[0]) == k;
    if cc.Some? {
      if k.None? {
        NoneUncached(cc.value, songs, tree);
      } else {
        SearchTarget(cc.value, songs, tree, k);
      }
    }
  }

  /** Every finished album keeps its promises. */
  lemma FinishAlbumsFacts(albums: map<Option<int>, Bucket<AlbumHeader>>, cache: map<Option<string>, Option<int>>,
                          cc: Option<map<Option<int>, (string, seq<string>)>>, tree: Tree, listDir: string -> DirListing,
                          songs: seq<Song>, cfg: Config, lookup: ArtistLookup)
    requires Indexes(albums, songs, AlbumKey, AlbumHeaderFn(cfg, lookup))
    requires CacheRecords(cache, songs, cfg.sdkN)
    requires CacheInv(cc, songs, tree, cfg.enhancedCoverReading) && TreeInv(tree, songs)
    ensures AlbumsFacts(FinishAlbums(albums, cache, cc, tree, listDir), songs, cfg, lookup, listDir)
  {
    var r := FinishAlbums(albums, cache, cc, tree, listDir);
    forall k | k in r
      ensures AlbumFacts(r[k], k, songs, lookup, cfg.sdkN) && CoverFacts(r[k], k, songs, cfg, listDir)
    {
      AlbumFactsOne(albums, cache, cc, tree, listDir, songs, cfg, lookup, k);
      CoverFactsOne(albums, cache, cc, tree, listDir, songs, cfg, lookup, k);
    }
  }

  lemma ArtistsOfFacts(artists: map<Option<int>, Bucket<Option<string>>>, albums: map<Option<int>, Album>,
                       songs: seq<Song>)
    requires Indexes(artists, songs, ArtistIdKey, ArtistNameOf)
    requires albums.Keys == KeysOf(songs, AlbumKey)
    ensures ArtistsFacts(ArtistsOf(artists, albums, FirstAppearance(songs, AlbumKey)), albums, songs)
  {
    var order := FirstAppearance(songs, AlbumKey);
    var r := ArtistsOf(artists, albums, order);
    FirstAppearanceDistinct(songs, AlbumKey);
    forall k | k in albums ensures k in order {
      FirstAppearanceHas(songs, AlbumKey, k);
    }
    forall a | a in r ensures r[a].title == Where(songs, ArtistIdKey, a)[0].artist {
      assert ArtistNameOf(artists[a].songs[0]) == artists[a].songs[0].artist;
    }
  }

  /** A song's album artist read off the album index is the one read off
      the first song of its album. */
  lemma OwnerAgrees(albums: map<Option<int>, Bucket<AlbumHeader>>, songs: seq<Song>, cfg: Config, lookup: ArtistLookup)
    requires Indexes(albums, songs, AlbumKey, AlbumHeaderFn(cfg, lookup))
    ensures forall i :: 0 <= i < |songs| ==> OwnerFn(albums)(songs[i]) == AlbumArtistKey(songs)(songs[i])
  {
    forall i | 0 <= i < |songs| ensures OwnerFn(albums)(songs[i]) == AlbumArtistKey(songs)(songs[i]) {
      KeysOfHas(songs, AlbumKey, i);
      var b := Where(songs, AlbumKey, songs[i].albumId);
      HeaderFnApply(cfg, lookup, b[0]);
    }
  }

  /** The albums registered under an album artist are exactly the albums
      whose album artist it is. */
  lemma RegisteredAlbums(aa: map<Option<string>, AlbumArtistEntry>, albums: map<Option<int>, Bucket<AlbumHeader>>,
                         fin: map<Option<int>, Album>, a: Option<string>)
    requires Registered(aa, albums) && a in aa
    requires fin.Keys == albums.Keys
    requires forall k :: k in albums ==> fin[k].albumArtist == albums[k].header.albumArtist
    ensures forall k :: k in aa[a].albums <==> k in fin && fin[k].albumArtist == a
  {
    forall k | k in fin && fin[k].albumArtist == a ensures k in aa[a].albums {
    }
  }

  /** The album artists are the album artists of the finished albums. */
  lemma AlbumArtistKeys(aa: map<Option<string>, AlbumArtistEntry>, albums: map<Option<int>, Bucket<AlbumHeader>>,
                        fin: map<Option<int>, Album>)
    requires aa.Keys == AlbumOwners(albums)
    requires fin.Keys == albums.Keys
    requires forall k :: k in albums ==> fin[k].albumArtist == albums[k].header.albumArtist
    ensures aa.Keys == set k | k in fin :: fin[k].albumArtist
  {
    forall a | a in aa ensures a in (set k | k in fin :: fin[k].albumArtist) {
      var k :| k in albums && albums[k].header.albumArtist == a;
    }
  }

  lemma AlbumArtistOne(aa: map<Option<string>, AlbumArtistEntry>, albums: map<Option<int>, Bucket<AlbumHeader>>,
                       cache: map<Option<string>, Option<int>>, fin: map<Option<int>, Album>, songs: seq<Song>,
                       a: Option<string>, sdkN: bool)
    requires AlbumArtistsInv(aa, albums, songs) && a in aa
    requires CacheRecords(cache, songs, sdkN)
    requires forall i :: 0 <= i < |songs| ==> OwnerFn(albums)(songs[i]) == AlbumArtistKey(songs)(songs[i])
    requires fin.Keys == albums.Keys
    requires forall k :: k in albums ==> fin[k].albumArtist == albums[k].header.albumArtist
    ensures var r := AlbumArtistsOf(aa, cache)[a];
            && r.id == CachedArtistId(songs, a, sdkN) && r.title == a
            && r.songs == Where(songs, AlbumArtistKey(songs), a)
            && r.albums == FirstAppearance(r.songs, AlbumKey)
            && (forall k :: k in r.albums <==> k in fin && fin[k].albumArtist == a)
            && NoDup(r.albums)
  {
    CacheFirst(cache, songs, a, sdkN);
    WhereCongruent(songs, OwnerFn(albums), AlbumArtistKey(songs), a);
    RegisteredAlbums(aa, albums, fin, a);
  }

  lemma AlbumArtistsOfFacts(aa: map<Option<string>, AlbumArtistEntry>, albums: map<Option<int>, Bucket<AlbumHeader>>,
                            cache: map<Option<string>, Option<int>>, fin: map<Option<int>, Album>,
                            songs: seq<Song>, cfg: Config, lookup: ArtistLookup)
    requires AlbumsInv(albums, aa, songs, cfg, lookup)
    requires CacheRecords(cache, songs, cfg.sdkN)
    requires fin.Keys == albums.Keys
    requires forall k :: k in albums ==> fin[k].albumArtist == albums[k].header.albumArtist
    ensures AlbumArtistsFacts(AlbumArtistsOf(aa, cache), fin, songs, cfg.sdkN)
  {
    AlbumArtistKeys(aa, albums, fin);
    OwnerAgrees(albums, songs, cfg, lookup);
    forall a | a in aa
      ensures var r := AlbumArtistsOf(aa, cache)[a];
              && r.id == CachedArtistId(songs, a, cfg.sdkN) && r.title == a
              && r.songs == Where(songs, AlbumArtistKey(songs), a)
              && r.albums == FirstAppearance(r.songs, AlbumKey)
              && (forall k :: k in r.albums <==> k in fin && fin[k].albumArtist == a)
              && NoDup(r.albums)
    {
      AlbumArtistOne(aa, albums, cache, fin, songs, a, cfg.sdkN);
    }
  }

  lemma GenresOfFacts(genres: map<Option<string>, Bucket<Option<int>>>, dates: map<Option<int>, Bucket<Option<int>>>,
                      songs: seq<Song>)
    requires GenresInv(genres, dates, songs)
    ensures GenresFacts(GenresOf(genres), DatesOf(dates), songs)
  {
    forall g | g in genres ensures genres[g].header == Where(songs, GenreKey, g)[0].genreId {
      assert GenreIdOf(genres[g].songs[0]) == genres[g].songs[0].genreId;
    }
  }
  /** The fields of the finished library. */
  ghost predicate Assembled(lib: Library, acc: Acc, cfg: Config, listDir: string -> DirListing, nowMillis: nat) {
    var fin := FinishAlbums(acc.albums, acc.artistCache, acc.coverCache, acc.tree, listDir);
    && lib.songs == acc.songs
    && lib.albums == fin
    && lib.albumArtists == AlbumArtistsOf(acc.albumArtists, acc.artistCache)
    && lib.artists == ArtistsOf(acc.artists, fin, FirstAppearance(acc.songs, AlbumKey))
    && lib.genres == GenresOf(acc.genres)
    && lib.dates == DatesOf(acc.dates)
    && lib.recentlyAdded == RecentlyAddedOf(cfg, acc.recent, nowMillis)
    && lib.root == acc.tree
    && lib.shallow == acc.shallow
    && lib.folders == acc.folders + cfg.blacklist
  }

  lemma FinishAssembled(acc: Acc, raws: seq<RawPlaylist>, cfg: Config, listDir: string -> DirListing, nowMillis: nat)
    requires Finish(acc, raws, cfg, listDir, nowMillis).Ok?
    ensures Assembled(Finish(acc, raws, cfg, listDir, nowMillis).value, acc, cfg, listDir, nowMillis)
  {
  }

  /** The artist list of an assembled library, from the artist and album
      indices. */
  lemma ArtistSideFacts(lib: Library, acc: Acc, cfg: Config, lookup: ArtistLookup,
                        listDir: string -> DirListing, nowMillis: nat)
    requires ArtistsInv(acc.artists, acc.artistCache, acc.songs, cfg.sdkN)
    requires Indexes(acc.albums, acc.songs, AlbumKey, AlbumHeaderFn(cfg, lookup))
    requires Assembled(lib, acc, cfg, listDir, nowMillis)
    ensures ArtistsFacts(lib.artists, lib.albums, lib.songs)
  {
    var fin := FinishAlbums(acc.albums, acc.artistCache, acc.coverCache, acc.tree, listDir);
    assert lib.albums == fin && lib.songs == acc.songs;
    ArtistsOfFacts(acc.artists, fin, acc.songs);
  }

  /** The album-artist list of an assembled library, from the album-artist
      map and the artist-name cache. */
  lemma AlbumArtistSideFacts(lib: Library, acc: Acc, cfg: Config, lookup: ArtistLookup,
                             listDir: string -> DirListing, nowMillis: nat)
    requires CacheRecords(acc.artistCache, acc.songs, cfg.sdkN)
    requires AlbumsInv(acc.albums, acc.albumArtists, acc.songs, cfg, lookup)
    requires Assembled(lib, acc, cfg, listDir, nowMillis)
    ensures AlbumArtistsFacts(lib.albumArtists, lib.albums, lib.songs, cfg.sdkN)
  {
    var fin := FinishAlbums(acc.albums, acc.artistCache, acc.coverCache, acc.tree, listDir);
    assert lib.albums == fin && lib.songs == acc.songs;
    AlbumArtistsOfFacts(acc.albumArtists, acc.albums, acc.artistCache, fin, acc.songs, cfg, lookup);
  }

  lemma AlbumSideFacts(lib: Library, acc: Acc, cfg: Config, lookup: ArtistLookup,
                       listDir: string -> DirListing, nowMillis: nat)
    requires ArtistsInv(acc.artists, acc.artistCache, acc.songs, cfg.sdkN)
    requires AlbumsInv(acc.albums, acc.albumArtists, acc.songs, cfg, lookup)
    requires TreeInv(acc.tree, acc.songs) && CacheInv(acc.coverCache, acc.songs, acc.tree, cfg.enhancedCoverReading)
    requires Assembled(lib, acc, cfg, listDir, nowMillis)
    ensures AlbumsFacts(lib.albums, lib.songs, cfg, lookup, listDir)
    ensures ArtistsFacts(lib.artists, lib.albums, lib.songs)
    ensures AlbumArtistsFacts(lib.albumArtists, lib.albums, lib.songs, cfg.sdkN)
  {
    assert lib.albums == FinishAlbums(acc.albums, acc.artistCache, acc.coverCache, acc.tree, listDir);
    assert lib.songs == acc.songs;
    FinishAlbumsFacts(acc.albums, acc.artistCache, acc.coverCache, acc.tree, listDir, acc.songs, cfg, lookup);
    ArtistSideFacts(lib, acc, cfg, lookup, listDir, nowMillis);
    AlbumArtistSideFacts(lib, acc, cfg, lookup, listDir, nowMillis);
  }

  lemma ListsFactsOf(lib: Library, acc: Acc, cfg: Config, lookup: ArtistLookup,
                      listDir: string -> DirListing, nowMillis: nat)
    requires ArtistsInv(acc.artists, acc.artistCache, acc.songs, cfg.sdkN)
    requires AlbumsInv(acc.albums, acc.albumArtists, acc.songs, cfg, lookup)
    requires GenresInv(acc.genres, acc.dates, acc.songs)
    requires TreeInv(acc.tree, acc.songs) && CacheInv(acc.coverCache, acc.songs, acc.tree, cfg.enhancedCoverReading)
    requires Assembled(lib, acc, cfg, listDir, nowMillis)
    ensures ListsFacts(lib, cfg, lookup, listDir)
  {
    AlbumSideFacts(lib, acc, cfg, lookup, listDir, nowMillis);
    GenresOfFacts(acc.genres, acc.dates, acc.songs);
  }

  lemma FolderFactsOf(lib: Library, acc: Acc, cfg: Config, listDir: string -> DirListing, nowMillis: nat)
    requires TreeInv(acc.tree, acc.songs)
    requires ShallowInv(acc.shallow, acc.folderArray, acc.songs)
    requires acc.folders == KeysOf(acc.songs, DirOf)
    requires lib.songs == acc.songs && lib.root == acc.tree && lib.shallow == acc.shallow
    requires lib.folders == acc.folders + cfg.blacklist
    ensures FolderFacts(lib, cfg)
  {
  }

  lemma RecentFactsOf(lib: Library, acc: Acc, cfg: Config, nowMillis: nat)
    requires acc.recent == RecentOf(acc.songs)
    requires lib.songs == acc.songs && lib.recentlyAdded == RecentlyAddedOf(cfg, acc.recent, nowMillis)
    ensures RecentFacts(lib, cfg, nowMillis)
  {
  }

  lemma AssembledFacts(lib: Library, acc: Acc, cfg: Config, lookup: ArtistLookup,
                       listDir: string -> DirListing, nowMillis: nat)
    requires acc.recent == RecentOf(acc.songs)
    requires ArtistsInv(acc.artists, acc.artistCache, acc.songs, cfg.sdkN)
    requires AlbumsInv(acc.albums, acc.albumArtists, acc.songs, cfg, lookup)
    requires GenresInv(acc.genres, acc.dates, acc.songs)
    requires TreeInv(acc.tree, acc.songs) && CacheInv(acc.coverCache, acc.songs, acc.tree, cfg.enhancedCoverReading)
    requires ShallowInv(acc.shallow, acc.folderArray, acc.songs)
    requires acc.folders == KeysOf(acc.songs, DirOf)
    requires Assembled(lib, acc, cfg, listDir, nowMillis)
    ensures ListsFacts(lib, cfg, lookup, listDir) && FolderFacts(lib, cfg) && RecentFacts(lib, cfg, nowMillis)
  {
    ListsFactsOf(lib, acc, cfg, lookup, listDir, nowMillis);
    FolderFactsOf(lib, acc, cfg, listDir, nowMillis);
    RecentFactsOf(lib, acc, cfg, nowMillis);
  }

  /** After a successful loop, the finished library keeps every promise
      above. */
  lemma FinishFacts(acc: Acc, raws: seq<RawPlaylist>, cfg: Config, lookup: ArtistLookup, found: bool,
                    listDir: string -> DirListing, nowMillis: nat)
    requires Inv(acc, cfg, lookup, found)
    requires Finish(acc, raws, cfg, listDir, nowMillis).Ok?
    ensures LibraryFacts(Finish(acc, raws, cfg, listDir, nowMillis).value, cfg, lookup, listDir, nowMillis)
  {
    FinishAssembled(acc, raws, cfg, listDir, nowMillis);
    AssembledFacts(Finish(acc, raws, cfg, listDir, nowMillis).value, acc, cfg, lookup, listDir, nowMillis);
  }

  // ---------------------------------------------------------------------
  // The whole read

  /** The read fails exactly when a row fails, or when a fetched playlist
      names an id that no parsed row has. */
  lemma ReadLibraryOutcome(rows: seq<Row>, raws: seq<RawPlaylist>, cfg: Config, lookup: ArtistLookup,
                           listDir: string -> DirListing, nowMillis: nat)
    ensures var found := FoundContent(FetchedPlaylists(raws, cfg));
      ReadLibrary(rows, raws, cfg, lookup, listDir, nowMillis).Ok? <==>
        && (forall i :: 0 <= i < |rows| ==> !RowFails(rows[i], cfg, found))
        && (cfg.fetchPlaylist ==>
              forall j, t :: 0 <= j < |raws| && 0 <= t < |raws[j].songIds| ==>
                raws[j].songIds[t] in IdsOf(EnteredSongs(rows, cfg, found)))
  {
    var fetched := FetchedPlaylists(raws, cfg);
    var found := FoundContent(fetched);
    var acc0 := Init(cfg, found);
    FoldSucceeds(acc0, rows, cfg, lookup, found);
    var fr := Fold(acc0, rows, cfg, lookup, found);
    if fr.Ok? {
      FoldIdMap(acc0, rows, cfg, lookup, found);
      var e := EnteredSongs(rows, cfg, found);
      if found {
        PutAllKeys(map[], e);
      }
    }
  }

  /** What a resolved playlist holds: for each id, the last parsed row
      with that id. */
  lemma Resolved(ids: seq<int>, idMap: Option<map<int, Song>>, e: seq<Song>)
    requires idMap.Some? ==> idMap == PutAll(Some(map[]), e)
    requires ResolveStrict(ids, idMap).Ok?
    ensures forall t :: 0 <= t < |ids| ==>
      ids[t] in IdsOf(e) && ResolveStrict(ids, idMap).value[t] == e[LastIndex(e, ids[t])]
  {
    forall t | 0 <= t < |ids|
      ensures ids[t] in IdsOf(e) && ResolveStrict(ids, idMap).value[t] == e[LastIndex(e, ids[t])]
    {
      PutAllKeys(map[], e);
      PutAllLast(map[], e, ids[t]);
    }
  }

  /** The playlists of a successful read: none unless fetched; otherwise
      one per playlist in order, with its id and name, and each member the
      last parsed row with the member's id. */
  lemma ReadLibraryPlaylists(rows: seq<Row>, raws: seq<RawPlaylist>, cfg: Config, lookup: ArtistLookup,
                             listDir: string -> DirListing, nowMillis: nat)
    ensures var found := FoundContent(FetchedPlaylists(raws, cfg));
      var e := EnteredSongs(rows, cfg, found);
      var r := ReadLibrary(rows, raws, cfg, lookup, listDir, nowMillis);
      r.Ok? ==>
        && (!cfg.fetchPlaylist ==> r.value.playlists == [])
        && (cfg.fetchPlaylist ==>
              && |r.value.playlists| == |raws|
              && forall j :: 0 <= j < |raws| ==>
                   var p := r.value.playlists[j];
                   && p.id == raws[j].id && p.title == raws[j].title && p.songList.Some?
                   && |p.songList.value| == |raws[j].songIds|
                   && forall t :: 0 <= t < |raws[j].songIds| ==>
                        raws[j].songIds[t] in IdsOf(e) && p.songList.value[t] == e[LastIndex(e, raws[j].songIds[t])])
  {
    var fetched := FetchedPlaylists(raws, cfg);
    var found := FoundContent(fetched);
    var acc0 := Init(cfg, found);
    var fr := Fold(acc0, rows, cfg, lookup, found);
    if fr.Ok? && cfg.fetchPlaylist {
      FoldIdMap(acc0, rows, cfg, lookup, found);
      var e := EnteredSongs(rows, cfg, found);
      var idMap := fr.value.idMap;
      if ResolveAll(raws, idMap).Ok? {
        forall j | 0 <= j < |raws|
          ensures forall t :: 0 <= t < |raws[j].songIds| ==>
            raws[j].songIds[t] in IdsOf(e) && ResolveStrict(raws[j].songIds, idMap).value[t] == e[LastIndex(e, raws[j].songIds[t])]
        {
          Resolved(raws[j].songIds, idMap, e);
        }
      }
    }
  }

  /** A successful read lists exactly the kept rows' songs, in row order,
      and every list of the result is what the kept songs determine. */
  lemma ReadLibraryContents(rows: seq<Row>, raws: seq<RawPlaylist>, cfg: Config, lookup: ArtistLookup,
                            listDir: string -> DirListing, nowMillis: nat)
    ensures var found := FoundContent(FetchedPlaylists(raws, cfg));
      var r := ReadLibrary(rows, raws, cfg, lookup, listDir, nowMillis);
      r.Ok? ==> r.value.songs == KeptSongs(rows, cfg, found) && LibraryFacts(r.value, cfg, lookup, listDir, nowMillis)
  {
    var fetched := FetchedPlaylists(raws, cfg);
    var found := FoundContent(fetched);
    var acc0 := Init(cfg, found);
    InitInv(cfg, lookup, found);
    var fr := Fold(acc0, rows, cfg, lookup, found);
    if fr.Ok? {
      FoldInv(acc0, rows, cfg, lookup, found);
      FoldSongs(acc0, rows, cfg, lookup, found);
      var r := ReadLibrary(rows, raws, cfg, lookup, listDir, nowMillis);
      if r.Ok? {
        assert r == Finish(fr.value, fetched, cfg, listDir, nowMillis);
        FinishAssembled(fr.value, fetched, cfg, listDir, nowMillis);
        AssembledFacts(r.value, fr.value, cfg, lookup, listDir, nowMillis);
      }
    }
  }
}
