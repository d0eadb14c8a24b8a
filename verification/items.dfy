/** The records the library produces: songs, albums, artists, genres, date
    buckets. Long and Int fields are mathematical integers; nullable fields
    are `Option`s. */
module Items {
  import opened Wrappers

  /** Where an artwork URI points. */
  datatype ArtworkRef =
    | SongArt(songId: int)                // content://media/external/audio/media/<id>/albumart
    | AlbumArt(albumId: int)              // content://media/external/audio/albumart/<id>
    | CoverFile(dir: string, name: string) // a file found by the cover search

  /** One song as built by the item constructor: the fields the reader
      passes to `constructItem`, apart from the recording date. */
  datatype Song = Song(
    id: int,
    title: string,
    path: Option<string>,          // the local file the song's URI points to
    mimeType: string,
    artist: Option<string>,
    artistId: Option<int>,
    albumTitle: Option<string>,
    albumArtist: Option<string>,
    albumId: Option<int>,
    year: Option<int>,
    trackNumber: Option<int>,
    discNumber: Option<int>,
    cdTrackNumber: Option<string>,
    genre: Option<string>,
    genreId: Option<int>,
    writer: Option<string>,
    composer: Option<string>,
    compilation: Option<string>,
    author: Option<string>,
    duration: Option<int>,
    addDate: Option<int>,
    modifiedDate: Option<int>,
    artwork: ArtworkRef
  )

  /** An album (`AlbumImpl`): `albumArtistId` and `cover` are the two fields
      the reader fills in after the row pass. */
  datatype Album = Album(
    id: Option<int>,
    title: Option<string>,
    albumArtist: Option<string>,
    albumArtistId: Option<int>,
    year: Option<int>,
    cover: Option<ArtworkRef>,
    songs: seq<Song>
  )

  /** An artist (`Artist`): its albums are named by their album keys, each
      once, in the order the reader added them. */
  datatype Artist = Artist(
    id: Option<int>,
    title: Option<string>,
    songs: seq<Song>,
    albums: seq<Option<int>>
  )

  /** A genre bucket: the id is the genre id of the first song seen. */
  datatype Genre = Genre(id: Option<int>, title: Option<string>, songs: seq<Song>)

  /** A release-year bucket: the id is the year, or 0 for songs without one;
      the title is the year written in decimal (absent without a year). */
  datatype DateBucket = DateBucket(id: int, year: Option<int>, songs: seq<Song>)
}
