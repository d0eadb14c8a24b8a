/** One media-index row as `readFromMediaStore` (reader/Reader.kt) reads it:
    which rows are dropped, which are skipped, which fail, and the song a
    row becomes after its sentinels are normalised and a packed disc and
    track number is split. */
module ReaderRow {
  import opened Wrappers
  import opened Text
  import opened Items
  import LibraryFilter

  /** The columns of one row; every column may be null (a column the
      platform does not have reads as null). */
  datatype Row = Row(
    id: Option<int>,
    title: Option<string>,
    artist: Option<string>,
    album: Option<string>,
    albumArtist: Option<string>,
    path: Option<string>,
    year: Option<int>,
    albumId: Option<int>,
    artistId: Option<int>,
    mimeType: Option<string>,
    discNumber: Option<int>,
    trackNumber: Option<int>,
    cdTrackNumber: Option<string>,
    compilation: Option<string>,
    composer: Option<string>,
    writer: Option<string>,
    author: Option<string>,
    genre: Option<string>,
    genreId: Option<int>,
    duration: Option<int>,
    addDate: Option<int>,
    modifiedDate: Option<int>
  )

  /** The reader's configuration (ReaderConfiguration.kt), together with
      `sdkN`, the platform's `SDK_INT >= N` test, which is fixed for the
      whole read and decides the branch `putIfAbsentSupport` takes. */
  datatype Config = Config(
    itemLengthLimiter: int,
    blacklist: set<string>,
    enhancedCoverReading: bool,
    fetchPlaylist: bool,
    generateRecentlyAdded: bool,
    recentlyAddedFilterSecond: int,
    sdkN: bool
  )

  /** The artist placeholder the media index uses for a missing tag. */
  const UnknownArtist: string := "<unknown>"

  /** The artist column with the placeholder read as null. */
  function NormaliseArtist(a: Option<string>): (r: Option<string>)
    ensures r.None? <==> (a.None? || a == Some(UnknownArtist))
    ensures r.Some? ==> r == a
  {
    if a == Some(UnknownArtist) then None else a
  }

  /** The year column with 0 read as null. */
  function NormaliseYear(y: Option<int>): (r: Option<int>)
    ensures r.None? <==> (y.None? || y == Some(0))
    ensures r.Some? ==> r == y
  {
    if y == Some(0) then None else y
  }

  /** A track number of 1000 or more carries the disc in its thousands:
      the disc becomes `track / 1000` (whatever the disc column said) and the
      track `track % 1000`. Smaller or missing track numbers leave both
      alone. Returns `(disc, track)`. */
  function SplitTrack(disc: Option<int>, track: Option<int>): (r: (Option<int>, Option<int>))
    ensures track.Some? && track.value >= 1000 ==>
      && r.0 == Some(track.value / 1000)
      && r.1 == Some(track.value % 1000)
      && track.value == r.0.value * 1000 + r.1.value
    ensures !(track.Some? && track.value >= 1000) ==> r == (disc, track)
    ensures r.1.None? <==> track.None?
    ensures r.1.Some? ==> r.1.value < 1000
  {
    if track.Some? && track.value >= 1000 then (Some(track.value / 1000), Some(track.value % 1000))
    else (disc, track)
  }

  /** A packed number splits into disc and track, and a split number packs
      back into the original: the split loses nothing. */
  lemma SplitTrackRoundTrip(disc: Option<int>, d: int, t: int)
    requires d >= 1 && 0 <= t < 1000
    ensures SplitTrack(disc, Some(d * 1000 + t)) == (Some(d), Some(t))
  {
  }

  /** The skip rule: a known duration below the minimum length (seconds,
      as a `Long` product), or a blacklisted folder. */
  predicate Skip(duration: Option<int>, dir: string, cfg: Config) {
    (duration.Some? && duration.value < cfg.itemLengthLimiter * 1000) || dir in cfg.blacklist
  }

  /** The song a row becomes: the file path, normalised artist and year,
      split disc and track, and artwork under the song's own id. */
  function BuildSong(row: Row, path: string): (s: Song)
    requires row.id.Some? && row.title.Some? && row.mimeType.Some?
    ensures s.id == row.id.value && s.title == row.title.value && s.mimeType == row.mimeType.value
    ensures s.path == Some(path)
    ensures s.artist == NormaliseArtist(row.artist) && s.year == NormaliseYear(row.year)
    ensures (s.discNumber, s.trackNumber) == SplitTrack(row.discNumber, row.trackNumber)
    ensures s.albumId == row.albumId && s.artistId == row.artistId && s.genre == row.genre
    ensures s.albumTitle == row.album && s.albumArtist == row.albumArtist
    ensures s.duration == row.duration && s.addDate == row.addDate && s.modifiedDate == row.modifiedDate
    ensures s.genreId == row.genreId && s.cdTrackNumber == row.cdTrackNumber
    ensures s.writer == row.writer && s.composer == row.composer && s.author == row.author
    ensures s.compilation == row.compilation
    ensures s.artwork == SongArt(row.id.value)
  {
    var (disc, track) := SplitTrack(row.discNumber, row.trackNumber);
    Song(
      id := row.id.value,
      title := row.title.value,
      path := Some(path),
      mimeType := row.mimeType.value,
      artist := NormaliseArtist(row.artist),
      artistId := row.artistId,
      albumTitle := row.album,
      albumArtist := row.albumArtist,
      albumId := row.albumId,
      year := NormaliseYear(row.year),
      trackNumber := track,
      discNumber := disc,
      cdTrackNumber := row.cdTrackNumber,
      genre := row.genre,
      genreId := row.genreId,
      writer := row.writer,
      composer := row.composer,
      compilation := row.compilation,
      author := row.author,
      duration := row.duration,
      addDate := row.addDate,
      modifiedDate := row.modifiedDate,
      artwork := SongArt(row.id.value)
    )
  }

  /** A row the reader goes on with: its song, its folder, and whether it
      is skipped (entered in the id map only). */
  datatype Parsed = Parsed(song: Song, dir: string, skip: bool)

  /** The front of the row loop. A row without a path is dropped; a path
      without a parent folder fails (`parentFile!!`); a skipped row is
      dropped unless playlists have content, in which case it is still
      built so that playlists can find it; a kept or built row needs an id,
      a title and a MIME type. */
  function ParseRow(row: Row, cfg: Config, foundPlaylistContent: bool): (r: Result<Option<Parsed>>)
    ensures row.path.None? ==> r == Ok(None)
    ensures row.path.Some? && FileParent(row.path.value).None? ==> r == Err(NullPointer)
    ensures r.Err? ==> r.failure == NullPointer
    ensures r == Ok(None) <==>
      (row.path.None? || (&& FileParent(row.path.value).Some?
                          && Skip(row.duration, FileParent(row.path.value).value, cfg)
                          && !foundPlaylistContent))
    ensures r.Ok? && r.value.Some? ==>
      && row.path.Some? && row.id.Some? && row.title.Some? && row.mimeType.Some?
      && FileParent(row.path.value) == Some(r.value.value.dir)
      && r.value.value.song == BuildSong(row, row.path.value)
      && r.value.value.skip == Skip(row.duration, r.value.value.dir, cfg)
      && (r.value.value.skip ==> foundPlaylistContent)
  {
    match row.path
    case None => Ok(None)
    case Some(path) =>
      match FileParent(path)
      case None => Err(NullPointer)
      case Some(dir) =>
        var skip := Skip(row.duration, dir, cfg);
        if skip && !foundPlaylistContent then Ok(None)
        else if row.id.None? || row.title.None? || row.mimeType.None? then Err(NullPointer)
        else Ok(Some(Parsed(BuildSong(row, path), dir, skip)))
  }

  /** The library's keep predicate is the exact negation of the reader's
      skip rule for the same minimum length and blacklist (with the
      library's threshold computed without `Int` wrap-around). */
  lemma KeepIsNotSkip(row: Row, cfg: Config, f: LibraryFilter.Filter)
    requires row.id.Some? && row.title.Some? && row.mimeType.Some? && row.path.Some?
    requires FileParent(row.path.value).Some?
    requires f.minLength == cfg.itemLengthLimiter && f.blacklist == cfg.blacklist
    ensures LibraryFilter.Keep(BuildSong(row, row.path.value), f)
            == !Skip(row.duration, FileParent(row.path.value).value, cfg)
  {
  }
}
