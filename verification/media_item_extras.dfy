/** The extras accessors on media metadata (MediaItemExtras.kt) and the
    demo application's encoder they are read back against (MainActivity.kt).
    A bundle is a map from keys to typed values; a key absent from the map
    and a key stored with a null string read the same way. */
module MediaItemExtras {
  import opened Wrappers

  const AuthorKey: string := "Author"
  const GenreIdKey: string := "GenreId"
  const ArtistIdKey: string := "ArtistId"
  const AlbumIdKey: string := "AlbumId"
  const AddDateKey: string := "AddDate"
  const ModifiedDateKey: string := "ModifiedDate"
  const CdTrackNumberKey: string := "CdTrackNumber"

  /** A value stored in a bundle, with the type it was stored under. */
  datatype BundleValue = LongValue(l: int) | IntValue(i: int) | StringValue(s: Option<string>)

  type Bundle = map<string, BundleValue>

  /** `Bundle.getLong(key, default)`: the stored long, or `default` when the
      key is absent or holds a value of another type. */
  function GetLong(b: Bundle, key: string, default: int): int {
    if key in b && b[key].LongValue? then b[key].l else default
  }

  /** `Bundle.getString(key)`: the stored string, or null when the key is
      absent or holds a value of another type. */
  function GetString(b: Bundle, key: string): Option<string> {
    if key in b && b[key].StringValue? then b[key].s else None
  }

  /** The long accessors (`genreId`, `artistId`, `albumId`, `addDate`,
      `modifiedDate`): read with default -1, and -1 is read as null, so a
      stored -1 cannot be told apart from an absent key. */
  function LongExtra(extras: Option<Bundle>, key: string): (r: Option<int>)
    ensures extras.None? ==> r.None?
    ensures extras.Some? && key !in extras.value ==> r.None?
    ensures extras.Some? && key in extras.value && extras.value[key] == LongValue(-1) ==> r.None?
    ensures (extras.Some? && key in extras.value && extras.value[key].LongValue?
             && extras.value[key].l != -1) ==> r == Some(extras.value[key].l)
    ensures r.Some? ==> r.value != -1
  {
    match extras
    case None => None
    case Some(b) =>
      var v := GetLong(b, key, -1);
      if v == -1 then None else Some(v)
  }

  /** The string accessors (`author`, `cdTrackNumber`). */
  function StringExtra(extras: Option<Bundle>, key: string): (r: Option<string>)
    ensures extras.None? ==> r.None?
    ensures extras.Some? && key !in extras.value ==> r.None?
    ensures (extras.Some? && key in extras.value && extras.value[key].StringValue?)
              ==> r == extras.value[key].s
  {
    match extras
    case None => None
    case Some(b) => GetString(b, key)
  }

  /** Puts a long under `key` only when it is present. */
  function PutLongIfPresent(b: Bundle, key: string, v: Option<int>): Bundle {
    if v.Some? then b[key := LongValue(v.value)] else b
  }

  /** The demo application's extras encoder: each id or date is stored as a
      long only when non-null, the author is always stored (possibly null),
      and the CD track number is stored as an Int when it parses as one
      (`cdTrackInt` is that parse). */
  function EncodeExtras(artistId: Option<int>, albumId: Option<int>, genreId: Option<int>,
                        author: Option<string>, addDate: Option<int>,
                        modifiedDate: Option<int>, cdTrackInt: Option<int>): Bundle
  {
    var b0: Bundle := map[];
    var b1 := PutLongIfPresent(b0, ArtistIdKey, artistId);
    var b2 := PutLongIfPresent(b1, AlbumIdKey, albumId);
    var b3 := PutLongIfPresent(b2, GenreIdKey, genreId);
    var b4 := b3[AuthorKey := StringValue(author)];
    var b5 := PutLongIfPresent(b4, AddDateKey, addDate);
    var b6 := PutLongIfPresent(b5, ModifiedDateKey, modifiedDate);
    if cdTrackInt.Some? then b6[CdTrackNumberKey := IntValue(cdTrackInt.value)] else b6
  }

  /** What a long field reads back as after encoding: itself, except that -1
      collides with the "absent" sentinel. */
  function Sentinel(v: Option<int>): Option<int> {
    if v == Some(-1) then None else v
  }

  /** The keys are pairwise distinct. */
  lemma KeysDistinct()
    ensures ArtistIdKey !in [AlbumIdKey, GenreIdKey, AuthorKey, AddDateKey, ModifiedDateKey, CdTrackNumberKey]
    ensures AlbumIdKey !in [GenreIdKey, AuthorKey, AddDateKey, ModifiedDateKey, CdTrackNumberKey]
    ensures GenreIdKey !in [AuthorKey, AddDateKey, ModifiedDateKey, CdTrackNumberKey]
    ensures AuthorKey !in [AddDateKey, ModifiedDateKey, CdTrackNumberKey]
    ensures AddDateKey !in [ModifiedDateKey, CdTrackNumberKey]
    ensures ModifiedDateKey != CdTrackNumberKey
  {
    assert |AuthorKey| == 6 && |ArtistIdKey| == 8 && |ModifiedDateKey| == 12 && |CdTrackNumberKey| == 13;
    assert |GenreIdKey| == 7 && |AlbumIdKey| == 7 && |AddDateKey| == 7;
    assert GenreIdKey[0] == 'G' && AlbumIdKey[0] == 'A' && AlbumIdKey[1] == 'l' && AddDateKey[1] == 'd';
  }

  /** A long field reads back as written, except a stored -1, as long as no
      later write touches its key. */
  lemma LongRoundTrip(key: string, v: Option<int>, later: Bundle)
    requires v.Some? ==> key in later && later[key] == LongValue(v.value)
    requires v.None? ==> key !in later
    ensures LongExtra(Some(later), key) == Sentinel(v)
  {
  }

  /** Round trip of the encoder and the accessors: every id and date reads
      back as written (a null as null), except a stored -1; the author reads
      back exactly; the CD track number never reads back, because it is
      written as an Int and read as a String. */
  lemma EncodeDecode(artistId: Option<int>, albumId: Option<int>, genreId: Option<int>,
                     author: Option<string>, addDate: Option<int>,
                     modifiedDate: Option<int>, cdTrackInt: Option<int>)
    ensures var e := Some(EncodeExtras(artistId, albumId, genreId, author, addDate,
                                       modifiedDate, cdTrackInt));
            && LongExtra(e, ArtistIdKey) == Sentinel(artistId)
            && LongExtra(e, AlbumIdKey) == Sentinel(albumId)
            && LongExtra(e, GenreIdKey) == Sentinel(genreId)
            && LongExtra(e, AddDateKey) == Sentinel(addDate)
            && LongExtra(e, ModifiedDateKey) == Sentinel(modifiedDate)
            && StringExtra(e, AuthorKey) == author
            && StringExtra(e, CdTrackNumberKey) == None
  {
    var e := EncodeExtras(artistId, albumId, genreId, author, addDate, modifiedDate, cdTrackInt);
    KeysDistinct();
    LongRoundTrip(ArtistIdKey, artistId, e);
    LongRoundTrip(AlbumIdKey, albumId, e);
    LongRoundTrip(GenreIdKey, genreId, e);
    LongRoundTrip(AddDateKey, addDate, e);
    LongRoundTrip(ModifiedDateKey, modifiedDate, e);
  }
}
