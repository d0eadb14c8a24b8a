/** The invariant of the row loop of reader/Reader.kt and its proof: after
    any prefix of the rows every index, tree and first-writer map is
    determined by the kept songs alone (in row order), the album-artist map
    registers each album exactly once, every folder node tracks the albums
    of its songs, and the folder set is the set of the kept songs'
    folders. */
module ReaderInvariant {
  import opened Wrappers
  import opened Text
  import opened Items
  import opened Extensions
  import opened FolderTree
  import opened ReaderRow
  import opened ReaderIndex
  import opened ReaderScan

  predicate NoDup<T(==)>(s: seq<T>) {
    forall i, j :: 0 <= i < j < |s| ==> s[i] != s[j]
  }

  /** Every node of the full tree holds exactly the songs whose folder it
      is, and tracks their album ids; every song's folder has a node. */
  ghost predicate TreeInv(tree: Tree, songs: seq<Song>) {
    && WellFormed(tree)
    && (forall i :: 0 <= i < |songs| ==> FolderKeyOf(songs[i]) in tree)
    && forall k :: k in tree ==>
         && tree[k].songs == Where(songs, FolderKeyOf, k)
         && Tracks(tree[k], AlbumIdsOf(tree[k].songs))
  }

  /** Each shallow folder is named after its key, holds exactly the songs
      in folders of that name and tracks their album ids. */
  ghost predicate ShallowNodes(sh: Shallow, songs: seq<Song>) {
    forall n :: n in sh ==>
      && sh[n].folderName == n
      && sh[n].songs == Where(songs, ShallowNameOf, n)
      && Tracks(sh[n], AlbumIdsOf(sh[n].songs))
  }

  /** The `folderArray` entry a kept song's new shallow folder gets: the
      trimmed path cut one character after the length of the file name. */
  function ShallowEntryOf(s: Song): string {
    match s.path
    case Some(p) => (match ShallowParts(p) case Ok(v) => ShallowPath(p)[..|v.2| + 1] case Err(_) => "")
    case None => ""
  }

  /** The folder array a list of songs builds: the entry of the first song
      of each shallow folder name, in order of first appearance. */
  ghost function FolderArrayOf(songs: seq<Song>): seq<string> {
    if |songs| == 0 then []
    else
      var init := songs[..|songs| - 1];
      var last := songs[|songs| - 1];
      FolderArrayOf(init) + (if ShallowNameOf(last) in KeysOf(init, ShallowNameOf) then [] else [ShallowEntryOf(last)])
  }

  /** One shallow folder per folder name that occurs, and the folder array
      built from the same songs. */
  ghost predicate ShallowInv(sh: Shallow, arr: seq<string>, songs: seq<Song>) {
    && sh.Keys == KeysOf(songs, ShallowNameOf)
    && arr == FolderArrayOf(songs)
    && ShallowNodes(sh, songs)
  }

  /** The folder array has one entry per shallow folder name. */
  lemma {:induction false} FolderArrayCount(songs: seq<Song>)
    ensures |FolderArrayOf(songs)| == |KeysOf(songs, ShallowNameOf)|
  {
    if |songs| > 0 {
      var init := songs[..|songs| - 1];
      var x := ShallowNameOf(songs[|songs| - 1]);
      var keys := KeysOf(init, ShallowNameOf);
      FolderArrayCount(init);
      assert KeysOf(songs, ShallowNameOf) == keys + {x};
      if x in keys {
        assert keys + {x} == keys;
      } else {
        assert |keys + {x}| == |keys| + 1;
      }
    }
  }

  /** So the folder array is exactly as long as the shallow tree has
      folders. */
  lemma ShallowArrayLength(sh: Shallow, arr: seq<string>, songs: seq<Song>)
    requires ShallowInv(sh, arr, songs)
    ensures |arr| == |sh|
  {
    FolderArrayCount(songs);
    assert |sh| == |sh.Keys|;
  }

  /** Every album in `ks` exists and belongs to album artist `a`. */
  ghost predicate OwnedBy(ks: seq<Option<int>>, albums: map<Option<int>, Bucket<AlbumHeader>>, a: Option<string>) {
    forall i :: 0 <= i < |ks| ==> ks[i] in albums && albums[ks[i]].header.albumArtist == a
  }

  /** Each album is registered exactly once, under its own album artist. */
  ghost predicate Registered(aa: map<Option<string>, AlbumArtistEntry>, albums: map<Option<int>, Bucket<AlbumHeader>>) {
    && (forall a :: a in aa ==> NoDup(aa[a].albums) && OwnedBy(aa[a].albums, albums, a))
    && (forall k :: k in albums ==> albums[k].header.albumArtist in aa && k in aa[albums[k].header.albumArtist].albums)
  }

  /** One album-artist entry per album artist of an album, holding the
      songs of its albums in row order. */
  ghost predicate Filed(aa: map<Option<string>, AlbumArtistEntry>, albums: map<Option<int>, Bucket<AlbumHeader>>,
                        songs: seq<Song>) {
    && aa.Keys == AlbumOwners(albums)
    && forall a :: a in aa ==> aa[a].songs == Where(songs, OwnerFn(albums), a)
  }

  /** Each album artist lists its albums in the order they were created,
      which is the order in which its songs first name them. */
  ghost predicate InCreationOrder(aa: map<Option<string>, AlbumArtistEntry>) {
    forall a :: a in aa ==> aa[a].albums == FirstAppearance(aa[a].songs, AlbumKey)
  }

  /** The album-artist map invariant. */
  ghost predicate AlbumArtistsInv(aa: map<Option<string>, AlbumArtistEntry>,
                                  albums: map<Option<int>, Bucket<AlbumHeader>>, songs: seq<Song>) {
    Registered(aa, albums) && Filed(aa, albums, songs) && InCreationOrder(aa)
  }

  /** The cover cache: for each album id, the folder and folder node of the
      album's first song. */
  ghost predicate CoverInv(c: map<Option<int>, (string, seq<string>)>, songs: seq<Song>, tree: Tree) {
    && RecordsFirst(c, Where(songs, HasAlbum, true), AlbumKey, CoverEntryOf)
    && forall k :: k in c ==> c[k].1 in tree
  }

  /** The cover cache exists exactly with enhanced cover reading. */
  ghost predicate CacheInv(c: Option<map<Option<int>, (string, seq<string>)>>, songs: seq<Song>, tree: Tree,
                           enhanced: bool) {
    && (c.Some? <==> enhanced)
    && (c.Some? ==> CoverInv(c.value, songs, tree))
  }

  /** The artist-name cache: below API 24 each name holds the artist id of
      its first song, null included; from API 24 a null id is replaced by a
      later song's, so each name holds its first non-null artist id. */
  ghost predicate CacheRecords(cache: map<Option<string>, Option<int>>, songs: seq<Song>, sdkN: bool) {
    if sdkN then RecordsFirstSome(cache, songs, ArtistNameOf, ArtistIdKey)
    else RecordsFirst(cache, songs, ArtistNameOf, ArtistIdKey)
  }

  /** The artist index and the artist-name cache. */
  ghost predicate ArtistsInv(artists: map<Option<int>, Bucket<Option<string>>>,
                             cache: map<Option<string>, Option<int>>, songs: seq<Song>, sdkN: bool) {
    && Indexes(artists, songs, ArtistIdKey, ArtistNameOf)
    && CacheRecords(cache, songs, sdkN)
  }

  /** The album index and the album-artist map. */
  ghost predicate AlbumsInv(albums: map<Option<int>, Bucket<AlbumHeader>>, aa: map<Option<string>, AlbumArtistEntry>,
                            songs: seq<Song>, cfg: Config, lookup: ArtistLookup) {
    && Indexes(albums, songs, AlbumKey, AlbumHeaderFn(cfg, lookup))
    && AlbumArtistsInv(aa, albums, songs)
  }

  /** The genre and year indices. */
  ghost predicate GenresInv(genres: map<Option<string>, Bucket<Option<int>>>,
                            dates: map<Option<int>, Bucket<Option<int>>>, songs: seq<Song>) {
    && Indexes(genres, songs, GenreKey, GenreIdOf)
    && Indexes(dates, songs, YearKey, YearKey)
  }

  /** The invariant of the row loop. */
  ghost predicate Inv(acc: Acc, cfg: Config, lookup: ArtistLookup, found: bool) {
    && (acc.idMap.Some? <==> found)
    && acc.recent == RecentOf(acc.songs)
    && ArtistsInv(acc.artists, acc.artistCache, acc.songs, cfg.sdkN)
    && AlbumsInv(acc.albums, acc.albumArtists, acc.songs, cfg, lookup)
    && GenresInv(acc.genres, acc.dates, acc.songs)
    && TreeInv(acc.tree, acc.songs)
    && ShallowInv(acc.shallow, acc.folderArray, acc.songs)
    && CacheInv(acc.coverCache, acc.songs, acc.tree, cfg.enhancedCoverReading)
    && acc.folders == KeysOf(acc.songs, DirOf)
  }

  lemma InitInv(cfg: Config, lookup: ArtistLookup, found: bool)
    ensures Inv(Init(cfg, found), cfg, lookup, found)
  {
    var acc := Init(cfg, found);
    assert acc.tree[[]].songs == [] == Where([], FolderKeyOf, []);
    assert AlbumOwners(map[]) == {};
    if cfg.enhancedCoverReading {
      assert Where([], HasAlbum, true) == [];
    }
  }

  // ---------------------------------------------------------------------
  // The two trees

  /** A key that no song has gets an empty bucket. */
  lemma WhereAbsent<K>(songs: seq<Song>, key: Song -> K, k: K)
    requires forall i :: 0 <= i < |songs| ==> key(songs[i]) != k
    ensures Where(songs, key, k) == []
  {
    WhereNonEmpty(songs, key, k);
  }

  lemma AlbumIdsSnoc(songs: seq<Song>, x: Song)
    ensures AlbumIdsOf(songs + [x]) == AlbumIdsOf(songs) + [x.albumId]
  {
  }

  /** Finding or creating a kept song's folder node and adding the song to
      it keeps the tree invariant. */
  lemma TreeStep(tree: Tree, songs: seq<Song>, x: Song)
    requires TreeInv(tree, songs)
    requires x.path.Some? && FolderComponents(x.path.value).Ok?
    ensures HandleMediaFolder(x.path.value, tree).Ok?
    ensures var fr := HandleMediaFolder(x.path.value, tree).value;
            fr.1 == FolderKeyOf(x) && fr.1 in fr.0
            && TreeInv(AttachAt(fr.0, fr.1, x, x.albumId), songs + [x])
  {
    var fr := HandleMediaFolder(x.path.value, tree).value;
    var t1: Tree := fr.0;
    var key: seq<string> := fr.1;
    var t2 := AttachAt(t1, key, x, x.albumId);
    var songs' := songs + [x];
    forall k | k in t2
      ensures t2[k].songs == Where(songs', FolderKeyOf, k)
      ensures Tracks(t2[k], AlbumIdsOf(t2[k].songs))
    {
      TreeNodeStep(tree, songs, x, k);
    }
    forall i | 0 <= i < |songs'| ensures FolderKeyOf(songs'[i]) in t2 {
      if i < |songs| { assert songs'[i] == songs[i]; }
    }
  }

  /** One node of `TreeStep`. */
  lemma TreeNodeStep(tree: Tree, songs: seq<Song>, x: Song, k: seq<string>)
    requires TreeInv(tree, songs)
    requires x.path.Some? && FolderComponents(x.path.value).Ok?
    requires var fr := HandleMediaFolder(x.path.value, tree).value; k in AttachAt(fr.0, fr.1, x, x.albumId)
    ensures var fr := HandleMediaFolder(x.path.value, tree).value;
            var t2 := AttachAt(fr.0, fr.1, x, x.albumId);
            && t2[k].songs == Where(songs + [x], FolderKeyOf, k)
            && Tracks(t2[k], AlbumIdsOf(t2[k].songs))
  {
    var fr := HandleMediaFolder(x.path.value, tree).value;
    var t1: Tree := fr.0;
    var key: seq<string> := fr.1;
    WhereSnoc(songs, x, FolderKeyOf, k);
    if k !in tree {
      WhereAbsent(songs, FolderKeyOf, k);
    }
    if k == key {
      AddSongTracks(t1[key], AlbumIdsOf(t1[key].songs), x, x.albumId);
      AlbumIdsSnoc(t1[key].songs, x);
    }
  }

  /** Filing a song in its shallow folder adds the folder's name to the
      keys, and its entry to the array exactly when the name is new. */
  lemma ShallowShape(sh: Shallow, arr: seq<string>, songs: seq<Song>, x: Song)
    requires sh.Keys == KeysOf(songs, ShallowNameOf) && arr == FolderArrayOf(songs)
    requires x.path.Some? && ShallowParts(x.path.value).Ok?
    ensures HandleShallowWithArrayAsWritten(x, x.albumId, x.path.value, sh, arr).Ok?
    ensures var sr := HandleShallowWithArrayAsWritten(x, x.albumId, x.path.value, sh, arr).value;
            sr.0.Keys == sh.Keys + {ShallowNameOf(x)} && sr.1 == FolderArrayOf(songs + [x])
  {
    var name := ShallowParts(x.path.value).value.0;
    assert name == ShallowNameOf(x);
    assert ShallowPath(x.path.value)[..|ShallowParts(x.path.value).value.2| + 1] == ShallowEntryOf(x);
    assert (songs + [x])[..|songs|] == songs;
  }

  /** Filing a song in its shallow folder keeps every folder's contents
      equal to the songs in folders of that name. */
  lemma ShallowNodesStep(sh: Shallow, arr: seq<string>, songs: seq<Song>, x: Song)
    requires sh.Keys == KeysOf(songs, ShallowNameOf) && ShallowNodes(sh, songs)
    requires x.path.Some? && ShallowParts(x.path.value).Ok?
    ensures HandleShallowWithArrayAsWritten(x, x.albumId, x.path.value, sh, arr).Ok?
    ensures ShallowNodes(HandleShallowWithArrayAsWritten(x, x.albumId, x.path.value, sh, arr).value.0, songs + [x])
  {
    var sh' := HandleShallowWithArrayAsWritten(x, x.albumId, x.path.value, sh, arr).value.0;
    var name := ShallowParts(x.path.value).value.0;
    assert name == ShallowNameOf(x);
    forall n | n in sh'
      ensures sh'[n].folderName == n
      ensures sh'[n].songs == Where(songs + [x], ShallowNameOf, n)
      ensures Tracks(sh'[n], AlbumIdsOf(sh'[n].songs))
    {
      WhereSnoc(songs, x, ShallowNameOf, n);
      if n == name {
        var node := if name in sh then sh[name] else NewNode(name);
        if name !in sh {
          WhereNonEmpty(songs, ShallowNameOf, name);
        }
        AddSongTracks(node, AlbumIdsOf(node.songs), x, x.albumId);
        AlbumIdsSnoc(node.songs, x);
      }
    }
  }

  /** Filing a kept song in its shallow folder keeps the shallow
      invariant. */
  lemma ShallowStep(sh: Shallow, arr: seq<string>, songs: seq<Song>, x: Song)
    requires ShallowInv(sh, arr, songs)
    requires x.path.Some? && ShallowParts(x.path.value).Ok?
    ensures HandleShallowWithArrayAsWritten(x, x.albumId, x.path.value, sh, arr).Ok?
    ensures var sr := HandleShallowWithArrayAsWritten(x, x.albumId, x.path.value, sh, arr).value;
            ShallowInv(sr.0, sr.1, songs + [x])
  {
    ShallowShape(sh, arr, songs, x);
    ShallowNodesStep(sh, arr, songs, x);
    KeysSnoc(songs, x, ShallowNameOf);
  }

  // ---------------------------------------------------------------------
  // Albums and album artists

  /** The header function applied to a song is the song's album header. */
  lemma HeaderFnApply(cfg: Config, lookup: ArtistLookup, s: Song)
    ensures AlbumHeaderFn(cfg, lookup)(s) == AlbumHeaderOf(cfg, lookup, s)
  {
  }

  /** The album artists after adding a song to album `k`: the old ones and
      that of album `k`. */
  lemma OwnersAdd(albums: map<Option<int>, Bucket<AlbumHeader>>, k: Option<int>, h: AlbumHeader, x: Song)
    ensures var albums1 := AddTo(albums, k, h, x);
            AlbumOwners(albums1) == AlbumOwners(albums) + {albums1[k].header.albumArtist}
  {
    var albums1 := AddTo(albums, k, h, x);
    var owner := albums1[k].header.albumArtist;
    forall a | a in AlbumOwners(albums1) ensures a in AlbumOwners(albums) + {owner} {
      var j :| j in albums1 && albums1[j].header.albumArtist == a;
      if j != k { assert albums1[j] == albums[j]; }
    }
    forall a | a in AlbumOwners(albums) ensures a in AlbumOwners(albums1) {
      var j :| j in albums && albums[j].header.albumArtist == a;
      assert j in albums1 && albums1[j].header == albums[j].header;
    }
  }

  lemma NoDupSnoc<T>(s: seq<T>, x: T)
    requires NoDup(s) && x !in s
    ensures NoDup(s + [x])
  {
  }

  /** A new album is registered once, under its album artist. */
  lemma RegisteredNew(aa: map<Option<string>, AlbumArtistEntry>, albums: map<Option<int>, Bucket<AlbumHeader>>,
                      k: Option<int>, h: AlbumHeader, x: Song)
    requires Registered(aa, albums) && k !in albums
    ensures Registered(RegisterAlbum(aa, h.albumArtist, k), AddTo(albums, k, h, x))
  {
    var aa1 := RegisterAlbum(aa, h.albumArtist, k);
    var albums1 := AddTo(albums, k, h, x);
    forall a | a in aa1 ensures NoDup(aa1[a].albums) && OwnedBy(aa1[a].albums, albums1, a) {
      if a == h.albumArtist {
        NoDupSnoc(if a in aa then aa[a].albums else [], k);
      }
    }
  }

  /** A song added to an existing album changes no registration. */
  lemma RegisteredOld(aa: map<Option<string>, AlbumArtistEntry>, albums: map<Option<int>, Bucket<AlbumHeader>>,
                      k: Option<int>, h: AlbumHeader, x: Song)
    requires Registered(aa, albums) && k in albums
    ensures Registered(aa, AddTo(albums, k, h, x))
  {
    var albums1 := AddTo(albums, k, h, x);
    assert albums1.Keys == albums.Keys;
    assert forall j :: j in albums ==> albums1[j].header == albums[j].header;
  }

  /** Filing a song under a registered album artist changes no
      registration. */
  lemma RegisteredFile(aa: map<Option<string>, AlbumArtistEntry>, albums: map<Option<int>, Bucket<AlbumHeader>>,
                       a: Option<string>, x: Song)
    requires Registered(aa, albums) && a in aa
    ensures Registered(FileSong(aa, a, x), albums)
  {
    var aa1 := FileSong(aa, a, x);
    assert aa1.Keys == aa.Keys;
    assert forall b :: b in aa ==> aa1[b].albums == aa[b].albums;
  }

  /** The album step keeps every album registered exactly once. */
  lemma RegisteredStep(albums: map<Option<int>, Bucket<AlbumHeader>>, aa: map<Option<string>, AlbumArtistEntry>,
                       h: AlbumHeader, x: Song)
    requires Registered(aa, albums)
    ensures var r := AlbumStep(albums, aa, h, x); Registered(r.1, r.0)
  {
    var k := x.albumId;
    var albums1 := AddTo(albums, k, h, x);
    var aa1 := if k !in albums then RegisterAlbum(aa, h.albumArtist, k) else aa;
    if k !in albums {
      RegisteredNew(aa, albums, k, h, x);
    } else {
      RegisteredOld(aa, albums, k, h, x);
    }
    RegisteredFile(aa1, albums1, albums1[k].header.albumArtist, x);
  }

  /** The album step keeps every album artist's albums in creation order:
      a new album goes to the end of its album artist's list, which is
      where its first song puts it; a song of an existing album adds
      nothing, since that album is already listed. */
  lemma OrderStep(albums: map<Option<int>, Bucket<AlbumHeader>>, aa: map<Option<string>, AlbumArtistEntry>,
                  h: AlbumHeader, x: Song)
    requires Registered(aa, albums) && InCreationOrder(aa)
    ensures InCreationOrder(AlbumStep(albums, aa, h, x).1)
  {
    var k := x.albumId;
    var albums1 := AddTo(albums, k, h, x);
    var aa1 := if k !in albums then RegisterAlbum(aa, h.albumArtist, k) else aa;
    var owner := albums1[k].header.albumArtist;
    var aa2 := FileSong(aa1, owner, x);
    assert AlbumStep(albums, aa, h, x) == (albums1, aa2);
    var prior := if owner in aa then aa[owner] else AlbumArtistEntry([], []);
    assert prior.albums == FirstAppearance(prior.songs, AlbumKey);
    assert aa2[owner].songs == prior.songs + [x];
    FirstAppearanceSnoc(prior.songs, x, AlbumKey);
    FirstAppearanceHas(prior.songs, AlbumKey, k);
    if k !in albums {
      assert k !in prior.albums;
      assert aa2[owner].albums == prior.albums + [k];
    } else {
      assert owner in aa && k in aa[owner].albums;
      assert aa2[owner].albums == prior.albums;
    }
    forall a | a in aa2 ensures aa2[a].albums == FirstAppearance(aa2[a].songs, AlbumKey) {
      if a != owner {
        assert aa2[a] == aa[a];
      }
    }
  }

  /** The album step files the song under its album's album artist and
      leaves every other entry's songs alone. */
  lemma FiledStep(albums: map<Option<int>, Bucket<AlbumHeader>>, aa: map<Option<string>, AlbumArtistEntry>,
                  songs: seq<Song>, h: AlbumHeader, x: Song)
    requires albums.Keys == KeysOf(songs, AlbumKey)
    requires Registered(aa, albums) && Filed(aa, albums, songs)
    ensures var r := AlbumStep(albums, aa, h, x); Filed(r.1, r.0, songs + [x])
  {
    var k := x.albumId;
    var albums1 := AddTo(albums, k, h, x);
    var aa1 := if k !in albums then RegisterAlbum(aa, h.albumArtist, k) else aa;
    var owner := albums1[k].header.albumArtist;
    var aa2 := FileSong(aa1, owner, x);
    assert AlbumStep(albums, aa, h, x) == (albums1, aa2);
    OwnersAdd(albums, k, h, x);
    assert owner in aa1;
    forall i | 0 <= i < |songs| ensures OwnerFn(albums1)(songs[i]) == OwnerFn(albums)(songs[i]) {
      KeysOfHas(songs, AlbumKey, i);
    }
    forall a | a in aa2 ensures aa2[a].songs == Where(songs + [x], OwnerFn(albums1), a) {
      WhereCongruent(songs, OwnerFn(albums1), OwnerFn(albums), a);
      WhereSnoc(songs, x, OwnerFn(albums1), a);
      if a !in aa {
        forall i | 0 <= i < |songs| ensures OwnerFn(albums)(songs[i]) != a {
          KeysOfHas(songs, AlbumKey, i);
        }
        WhereAbsent(songs, OwnerFn(albums), a);
      }
    }
  }

  /** The album step keeps the album index and the album-artist invariant. */
  lemma AlbumsStep(albums: map<Option<int>, Bucket<AlbumHeader>>, aa: map<Option<string>, AlbumArtistEntry>,
                   songs: seq<Song>, x: Song, cfg: Config, lookup: ArtistLookup)
    requires AlbumsInv(albums, aa, songs, cfg, lookup)
    ensures var r := AlbumStep(albums, aa, AlbumHeaderOf(cfg, lookup, x), x);
            AlbumsInv(r.0, r.1, songs + [x], cfg, lookup)
  {
    HeaderFnApply(cfg, lookup, x);
    IndexesAdd(albums, songs, AlbumKey, AlbumHeaderFn(cfg, lookup), x);
    RegisteredStep(albums, aa, AlbumHeaderOf(cfg, lookup, x), x);
    FiledStep(albums, aa, songs, AlbumHeaderOf(cfg, lookup, x), x);
    OrderStep(albums, aa, AlbumHeaderOf(cfg, lookup, x), x);
  }

  // ---------------------------------------------------------------------
  // One kept song

  lemma ArtistsStep(artists: map<Option<int>, Bucket<Option<string>>>,
                    cache: map<Option<string>, Option<int>>, songs: seq<Song>, s: Song, sdkN: bool)
    requires ArtistsInv(artists, cache, songs, sdkN)
    ensures ArtistsInv(AddTo(artists, s.artistId, s.artist, s), PutIfAbsentSupport(cache, s.artist, s.artistId, sdkN),
                       songs + [s], sdkN)
  {
    IndexesAdd(artists, songs, ArtistIdKey, ArtistNameOf, s);
    if sdkN {
      RecordsFirstSomeAdd(cache, songs, ArtistNameOf, ArtistIdKey, s);
    } else {
      RecordsFirstAdd(cache, songs, ArtistNameOf, ArtistIdKey, s);
    }
  }

  lemma GenresStep(genres: map<Option<string>, Bucket<Option<int>>>,
                   dates: map<Option<int>, Bucket<Option<int>>>, songs: seq<Song>, s: Song)
    requires GenresInv(genres, dates, songs)
    ensures GenresInv(AddTo(genres, s.genre, s.genreId, s), AddTo(dates, s.year, s.year, s), songs + [s])
  {
    IndexesAdd(genres, songs, GenreKey, GenreIdOf, s);
    IndexesAdd(dates, songs, YearKey, YearKey, s);
  }

  /** The cover cache's first-writer part. */
  lemma CoverFirstStep(c: map<Option<int>, (string, seq<string>)>, songs: seq<Song>, s: Song)
    requires RecordsFirst(c, Where(songs, HasAlbum, true), AlbumKey, CoverEntryOf)
    ensures RecordsFirst(if s.albumId.Some? then PutIfAbsent(c, s.albumId, CoverEntryOf(s)) else c,
                         Where(songs + [s], HasAlbum, true), AlbumKey, CoverEntryOf)
  {
    WhereSnoc(songs, s, HasAlbum, true);
    if s.albumId.Some? {
      RecordsFirstAdd(c, Where(songs, HasAlbum, true), AlbumKey, CoverEntryOf, s);
    } else {
      assert Where(songs + [s], HasAlbum, true) == Where(songs, HasAlbum, true);
    }
  }

  /** The cover cache records an album's first song's folder and node, in a
      tree that only grows. */
  lemma CacheStep(c: Option<map<Option<int>, (string, seq<string>)>>, songs: seq<Song>, tree: Tree, tree': Tree,
                  enhanced: bool, s: Song, dir: string, key: seq<string>)
    requires CacheInv(c, songs, tree, enhanced)
    requires tree.Keys <= tree'.Keys && key in tree'
    requires CoverEntryOf(s) == (dir, key)
    ensures CacheInv(if c.Some? && s.albumId.Some? then Some(PutIfAbsent(c.value, s.albumId, (dir, key))) else c,
                     songs + [s], tree', enhanced)
  {
    if c.Some? {
      CoverFirstStep(c.value, songs, s);
      var c' := if s.albumId.Some? then PutIfAbsent(c.value, s.albumId, (dir, key)) else c.value;
      assert forall k :: k in c' ==> c'[k].1 in tree' by {
        forall k | k in c' ensures c'[k].1 in tree' {
          if k in c.value {
            assert c'[k] == c.value[k];
          }
        }
      }
    }
  }

  /** What the registration of a song does to every field but the two
      trees: `v` is `acc` after `s` (in folder `dir`, tree node `key`) has
      been entered in every index. */
  ghost predicate Indexed(acc: Acc, v: Acc, s: Song, dir: string, key: seq<string>, cfg: Config, lookup: ArtistLookup) {
    var ab := AlbumStep(acc.albums, acc.albumArtists, AlbumHeaderOf(cfg, lookup, s), s);
    && v.idMap == acc.idMap && v.songs == acc.songs + [s]
    && v.recent == acc.recent + (if s.addDate.Some? then [(s.addDate.value, s)] else [])
    && v.artists == AddTo(acc.artists, s.artistId, s.artist, s)
    && v.artistCache == PutIfAbsentSupport(acc.artistCache, s.artist, s.artistId, cfg.sdkN)
    && v.albums == ab.0 && v.albumArtists == ab.1
    && v.genres == AddTo(acc.genres, s.genre, s.genreId, s)
    && v.dates == AddTo(acc.dates, s.year, s.year, s)
    && v.coverCache == (if acc.coverCache.Some? && s.albumId.Some?
                        then Some(PutIfAbsent(acc.coverCache.value, s.albumId, (dir, key)))
                        else acc.coverCache)
    && v.folders == acc.folders + {dir}
  }

  lemma IndexFields(acc: Acc, s: Song, dir: string, key: seq<string>, cfg: Config, lookup: ArtistLookup)
    ensures Indexed(acc, Index(acc, s, dir, key, cfg, lookup), s, dir, key, cfg, lookup)
  {
  }

  /** Registering one kept song keeps the list indices' part of the
      invariant. */
  lemma IndexListsInv(acc: Acc, v: Acc, s: Song, dir: string, key: seq<string>, cfg: Config, lookup: ArtistLookup)
    requires acc.recent == RecentOf(acc.songs)
    requires ArtistsInv(acc.artists, acc.artistCache, acc.songs, cfg.sdkN)
    requires AlbumsInv(acc.albums, acc.albumArtists, acc.songs, cfg, lookup)
    requires GenresInv(acc.genres, acc.dates, acc.songs)
    requires Indexed(acc, v, s, dir, key, cfg, lookup)
    ensures v.recent == RecentOf(v.songs)
    ensures ArtistsInv(v.artists, v.artistCache, v.songs, cfg.sdkN)
    ensures AlbumsInv(v.albums, v.albumArtists, v.songs, cfg, lookup)
    ensures GenresInv(v.genres, v.dates, v.songs)
  {
    RecentSnoc(acc.songs, s);
    ArtistsStep(acc.artists, acc.artistCache, acc.songs, s, cfg.sdkN);
    AlbumsStep(acc.albums, acc.albumArtists, acc.songs, s, cfg, lookup);
    GenresStep(acc.genres, acc.dates, acc.songs, s);
  }

  /** Registering one kept song keeps the folder part of the invariant,
      given what the two folder-tree steps produced for it: a tree with the
      song's node and a shallow tree, each satisfying its own invariant. */
  lemma IndexFoldersInv(acc: Acc, v: Acc, s: Song, dir: string, fr: (Tree, seq<string>), sr: (Shallow, seq<string>),
                        cfg: Config, lookup: ArtistLookup)
    requires CacheInv(acc.coverCache, acc.songs, acc.tree, cfg.enhancedCoverReading)
    requires acc.folders == KeysOf(acc.songs, DirOf)
    requires DirOf(s) == dir && fr.1 == FolderKeyOf(s) && fr.1 in fr.0 && acc.tree.Keys <= fr.0.Keys
    requires Indexed(acc, v, s, dir, fr.1, cfg, lookup)
    requires v.tree == AttachAt(fr.0, fr.1, s, s.albumId) && TreeInv(v.tree, acc.songs + [s])
    requires v.shallow == sr.0 && v.folderArray == sr.1 && ShallowInv(sr.0, sr.1, acc.songs + [s])
    ensures CacheInv(v.coverCache, v.songs, v.tree, cfg.enhancedCoverReading)
    ensures v.folders == KeysOf(v.songs, DirOf)
    ensures TreeInv(v.tree, v.songs) && ShallowInv(v.shallow, v.folderArray, v.songs)
  {
    CacheStep(acc.coverCache, acc.songs, acc.tree, v.tree, cfg.enhancedCoverReading, s, dir, fr.1);
    KeysSnoc(acc.songs, s, DirOf);
  }

  /** Registering one kept song keeps the invariant, given what the two
      folder-tree steps produced for it. */
  lemma IndexInv(acc: Acc, v: Acc, s: Song, dir: string, fr: (Tree, seq<string>), sr: (Shallow, seq<string>),
                 cfg: Config, lookup: ArtistLookup, found: bool)
    requires acc.idMap.Some? <==> found
    requires acc.recent == RecentOf(acc.songs)
    requires ArtistsInv(acc.artists, acc.artistCache, acc.songs, cfg.sdkN)
    requires AlbumsInv(acc.albums, acc.albumArtists, acc.songs, cfg, lookup)
    requires GenresInv(acc.genres, acc.dates, acc.songs)
    requires CacheInv(acc.coverCache, acc.songs, acc.tree, cfg.enhancedCoverReading)
    requires acc.folders == KeysOf(acc.songs, DirOf)
    requires DirOf(s) == dir && fr.1 == FolderKeyOf(s) && fr.1 in fr.0 && acc.tree.Keys <= fr.0.Keys
    requires Indexed(acc, v, s, dir, fr.1, cfg, lookup)
    requires v.tree == AttachAt(fr.0, fr.1, s, s.albumId) && TreeInv(v.tree, acc.songs + [s])
    requires v.shallow == sr.0 && v.folderArray == sr.1 && ShallowInv(sr.0, sr.1, acc.songs + [s])
    ensures Inv(v, cfg, lookup, found)
  {
    IndexListsInv(acc, v, s, dir, fr.1, cfg, lookup);
    IndexFoldersInv(acc, v, s, dir, fr, sr, cfg, lookup);
  }

  /** Registering one kept song keeps the invariant. */
  lemma RegisterInv(acc: Acc, s: Song, dir: string, cfg: Config, lookup: ArtistLookup, found: bool)
    requires Inv(acc, cfg, lookup, found)
    requires s.path.Some? && FileParent(s.path.value) == Some(dir)
    requires Register(acc, s, dir, cfg, lookup).Ok?
    ensures Inv(Register(acc, s, dir, cfg, lookup).value, cfg, lookup, found)
  {
    var path := s.path.value;
    TreeStep(acc.tree, acc.songs, s);
    ShallowStep(acc.shallow, acc.folderArray, acc.songs, s);
    var fr := HandleMediaFolder(path, acc.tree).value;
    var sr := HandleShallowWithArrayAsWritten(s, s.albumId, path, acc.shallow, acc.folderArray).value;
    assert DirOf(s) == dir;
    IndexFields(acc, s, dir, fr.1, cfg, lookup);
    IndexInv(acc, Register(acc, s, dir, cfg, lookup).value, s, dir, fr, sr, cfg, lookup, found);
  }

  /** One row keeps the invariant. */
  lemma StepInv(acc: Acc, row: Row, cfg: Config, lookup: ArtistLookup, found: bool)
    requires Inv(acc, cfg, lookup, found)
    requires Step(acc, row, cfg, lookup, found).Ok?
    ensures Inv(Step(acc, row, cfg, lookup, found).value, cfg, lookup, found)
  {
    var pr := ParseRow(row, cfg, found);
    if pr.Ok? && pr.value.Some? {
      var p := pr.value.value;
      var acc1 := EnterId(acc, p.song);
      assert Inv(acc1, cfg, lookup, found);
      if !p.skip {
        RegisterInv(acc1, p.song, p.dir, cfg, lookup, found);
      }
    }
  }

  /** The whole row loop keeps the invariant. */
  lemma {:induction false} FoldInv(acc: Acc, rows: seq<Row>, cfg: Config, lookup: ArtistLookup, found: bool)
    requires Inv(acc, cfg, lookup, found)
    requires Fold(acc, rows, cfg, lookup, found).Ok?
    ensures Inv(Fold(acc, rows, cfg, lookup, found).value, cfg, lookup, found)
    decreases |rows|
  {
    if |rows| > 0 {
      StepInv(acc, rows[0], cfg, lookup, found);
      FoldInv(Step(acc, rows[0], cfg, lookup, found).value, rows[1..], cfg, lookup, found);
    }
  }
}
