/** Playlists (items/Playlist.kt) and the two ways the library resolves a
    playlist's stored song ids into songs: `RawPlaylist.toPlaylist`, which
    drops ids it cannot find, and the older loop at the end of
    `Reader.readFromMediaStore`, which throws on the first such id. */
module Playlists {
  import opened Wrappers
  import opened Items

  /** A playlist. `songList` is absent when the object was made with the
      protected constructor by a subclass that did not override the song
      list. */
  datatype Playlist = Playlist(id: Option<int>, title: Option<string>, songList: Option<seq<Song>>)

  /** The playlist as stored by the media index: its song ids, in play
      order. */
  datatype RawPlaylist = RawPlaylist(id: Option<int>, title: Option<string>, songIds: seq<int>)

  /** The `songList` getter: throws `IllegalStateException` when no list was
      supplied. */
  function SongList(p: Playlist): (r: Result<seq<Song>>)
    ensures r.Err? <==> p.songList.None?
    ensures r.Err? ==> r.failure == IllegalState
    ensures r.Ok? ==> r.value == p.songList.value
  {
    match p.songList
    case Some(l) => Ok(l)
    case None => Err(IllegalState)
  }

  /** The argument of `equals`: null, a plain `Playlist`, or an object of
      another class (a `RecentlyAdded`, or no playlist at all). */
  datatype Other = NullRef | PlainPlaylist(p: Playlist) | OtherClass

  /** `Playlist.equals` called on plain playlist `a`; `identical` says that
      `other` is the very same object. The same object is equal without
      further ado, an object of another class is not; otherwise ids, then
      titles, then song lists are compared, so the song-list getter (and
      its exception) is reached only when ids and titles agree. */
  function PlaylistEquals(a: Playlist, other: Other, identical: bool): (r: Result<bool>)
    requires identical ==> other == PlainPlaylist(a)
    ensures identical ==> r == Ok(true)
    ensures !other.PlainPlaylist? ==> r == Ok(false)
    ensures other.PlainPlaylist? && !identical && (a.id != other.p.id || a.title != other.p.title) ==> r == Ok(false)
    ensures (other.PlainPlaylist? && a.id == other.p.id && a.title == other.p.title
             && a.songList.Some? && other.p.songList.Some?) ==> r == Ok(a == other.p)
    ensures r.Err? <==> !identical && other.PlainPlaylist? && a.id == other.p.id && a.title == other.p.title
                        && (a.songList.None? || other.p.songList.None?)
    ensures r.Err? ==> r.failure == IllegalState
  {
    if identical then Ok(true)
    else
      match other
      case NullRef => Ok(false)
      case OtherClass => Ok(false)
      case PlainPlaylist(b) =>
        if a.id != b.id then Ok(false)
        else if a.title != b.title then Ok(false)
        else
          match SongList(a)
          case Err(e) => Err(e)
          case Ok(la) =>
            match SongList(b)
            case Err(e) => Err(e)
            case Ok(lb) => Ok(la == lb)
  }

  /** Between two distinct plain playlists `equals` is symmetric, the
      exception included. */
  lemma PlaylistEqualsSymmetric(a: Playlist, b: Playlist)
    ensures PlaylistEquals(a, PlainPlaylist(b), false) == PlaylistEquals(b, PlainPlaylist(a), false)
  {
  }

  /** `mapNotNull { idMap[it] }`: the ids mapped through the id map in
      order, ids without an entry dropped. */
  function Resolve(ids: seq<int>, idMap: map<int, Song>): (r: seq<Song>)
    ensures |r| <= |ids|
    ensures |r| == |ids| <==> (forall i :: 0 <= i < |ids| ==> ids[i] in idMap)
    ensures forall s :: s in r ==> exists i :: 0 <= i < |ids| && ids[i] in idMap && idMap[ids[i]] == s
    ensures forall i :: 0 <= i < |ids| && ids[i] in idMap ==> idMap[ids[i]] in r
  {
    if |ids| == 0 then []
    else
      var rest := Resolve(ids[1..], idMap);
      assert forall i :: 1 <= i < |ids| ==> ids[i] == ids[1..][i - 1];
      if ids[0] in idMap then [idMap[ids[0]]] + rest else rest
  }

  /** Resolution distributes over concatenation of id lists, so each id
      contributes its own song (or nothing) at its own position; duplicate
      ids give duplicate songs. */
  lemma {:induction false} ResolveAppend(a: seq<int>, b: seq<int>, idMap: map<int, Song>)
    ensures Resolve(a + b, idMap) == Resolve(a, idMap) + Resolve(b, idMap)
  {
    if |a| > 0 {
      assert (a + b)[1..] == a[1..] + b;
      ResolveAppend(a[1..], b, idMap);
    } else {
      assert a + b == b;
    }
  }

  /** `RawPlaylist.toPlaylist(idMap)`: keeps the id and title and resolves
      the ids, dropping misses. The map may be null only when there is
      nothing to look up: an empty list resolves without it, a non-empty
      list with a null map fails at `!!`. */
  function ToPlaylist(raw: RawPlaylist, idMap: Option<map<int, Song>>): (r: Result<Playlist>)
    ensures r.Err? <==> (|raw.songIds| > 0 && idMap.None?)
    ensures r.Err? ==> r.failure == NullPointer
    ensures r.Ok? ==> r.value.id == raw.id && r.value.title == raw.title && r.value.songList.Some?
    ensures r.Ok? && |raw.songIds| == 0 ==> r.value.songList == Some([])
    ensures r.Ok? && idMap.Some? ==> r.value.songList == Some(Resolve(raw.songIds, idMap.value))
  {
    if |raw.songIds| == 0 then Ok(Playlist(raw.id, raw.title, Some([])))
    else
      match idMap
      case None => Err(NullPointer)
      case Some(m) => Ok(Playlist(raw.id, raw.title, Some(Resolve(raw.songIds, m))))
  }

  /** Resolving the same raw playlist against the same map twice gives
      playlists that `equals` calls equal. */
  lemma ToPlaylistRepeatable(raw: RawPlaylist, idMap: Option<map<int, Song>>)
    requires ToPlaylist(raw, idMap).Ok?
    ensures PlaylistEquals(ToPlaylist(raw, idMap).value, PlainPlaylist(ToPlaylist(raw, idMap).value), false) == Ok(true)
  {
  }

  /** The older revision inside `readFromMediaStore`: each id must be in the
      map, and the first one that is not raises `NotFoundException`. */
  function ResolveStrict(ids: seq<int>, idMap: Option<map<int, Song>>): (r: Result<seq<Song>>)
    ensures r.Ok? <==> (|ids| == 0 || (idMap.Some? && forall i :: 0 <= i < |ids| ==> ids[i] in idMap.value))
    ensures r.Ok? ==> |r.value| == |ids|
    ensures r.Ok? ==> forall i :: 0 <= i < |ids| ==> r.value[i] == idMap.value[ids[i]]
    ensures r.Err? && idMap.Some? ==>
      exists i :: 0 <= i < |ids| && ids[i] !in idMap.value && r.failure == NotFound(ids[i])
              && forall j :: 0 <= j < i ==> ids[j] in idMap.value
  {
    if |ids| == 0 then Ok([])
    else
      match idMap
      case None => Err(NullPointer)
      case Some(m) =>
        if ids[0] !in m then Err(NotFound(ids[0]))
        else
          match ResolveStrict(ids[1..], idMap)
          case Err(e) =>
            assert forall i :: 1 <= i < |ids| ==> ids[i] == ids[1..][i - 1];
            Err(e)
          case Ok(rest) =>
            assert forall i :: 1 <= i < |ids| ==> ids[i] == ids[1..][i - 1];
            Ok([m[ids[0]]] + rest)
  }

  /** The two revisions agree whenever the older one succeeds: then no id is
      dropped by the newer one either. */
  lemma {:induction false} StrictAgrees(ids: seq<int>, idMap: map<int, Song>)
    requires ResolveStrict(ids, Some(idMap)).Ok?
    ensures ResolveStrict(ids, Some(idMap)).value == Resolve(ids, idMap)
  {
    if |ids| > 0 {
      assert forall i :: 1 <= i < |ids[1..]| + 1 ==> ids[1..][i - 1] == ids[i];
      StrictAgrees(ids[1..], idMap);
    }
  }
}
