/** The folder tree (FolderStructureConstructor.kt, duplicated textually in
    MiscUtils.kt as `FileNodeImpl`, `handleMediaFolder` and
    `handleShallowMediaItem`).

    A folder node keeps its songs and a single-album tracker. The full tree
    is a map from the component path of a node (root = `[]`) to the node, so
    the child of node `k` named `n` is the entry at `k + [n]`; the shallow
    tree is a map from a folder name to its node. */
module FolderTree {
  import opened Wrappers
  import opened Text
  import opened Items

  datatype Node = Node(folderName: string, songs: seq<Song>, albumId: Option<int>)

  /** A freshly created, empty node. */
  function NewNode(name: string): Node {
    Node(name, [], None)
  }

  /** `FileNode.addSong(item, id)`: appends the song and runs the three-state
      album tracker (unset, one album, mixed). The first song into an empty
      node sets the album id (possibly to null); a song whose id differs from
      the set id clears it; a non-empty node without an id never gets one. */
  function AddSong(n: Node, song: Song, id: Option<int>): (r: Node)
    ensures r.folderName == n.folderName
    ensures r.songs == n.songs + [song]
    ensures |n.songs| == 0 && n.albumId.None? ==> r.albumId == id
    ensures n.albumId.Some? && id != n.albumId ==> r.albumId.None?
    ensures n.albumId.Some? && id == n.albumId ==> r.albumId == n.albumId
    ensures |n.songs| > 0 && n.albumId.None? ==> r.albumId.None?
  {
    var a :=
      if n.albumId.Some? && id != n.albumId then None
      else if n.albumId.None? && |n.songs| == 0 then id
      else n.albumId;
    n.(songs := n.songs + [song], albumId := a)
  }

  /** Every id in `ids` is `Some(x)`. */
  predicate AllAre(ids: seq<Option<int>>, x: int) {
    forall i :: 0 <= i < |ids| ==> ids[i] == Some(x)
  }

  /** The tracker invariant, given the ids the node's songs were attached
      with: the node holds a non-null album id `x` exactly when it is
      non-empty and every attached id is `x`. */
  predicate Tracks(n: Node, ids: seq<Option<int>>) {
    && |ids| == |n.songs|
    && match n.albumId
       case Some(x) => |ids| > 0 && AllAre(ids, x)
       case None => !(|ids| > 0 && ids[0].Some? && AllAre(ids, ids[0].value))
  }

  /** `Tracks` read as an if-and-only-if for every album id `x`. */
  lemma TracksIff(n: Node, ids: seq<Option<int>>, x: int)
    requires Tracks(n, ids)
    ensures n.albumId == Some(x) <==> (|ids| > 0 && AllAre(ids, x))
  {
    if |ids| > 0 && AllAre(ids, x) {
      assert ids[0] == Some(x);
    }
  }

  /** An empty node tracks the empty id sequence. */
  lemma NewNodeTracks(name: string)
    ensures Tracks(NewNode(name), [])
  {
  }

  /** `addSong` preserves the tracker invariant. */
  lemma {:induction false} AddSongTracks(n: Node, ids: seq<Option<int>>, song: Song, id: Option<int>)
    requires Tracks(n, ids)
    ensures Tracks(AddSong(n, song, id), ids + [id])
  {
    var ids' := ids + [id];
    if |ids| == 0 {
      assert ids' == [id];
    } else {
      assert ids'[0] == ids[0];
      assert ids'[|ids|] == id;
      match n.albumId
      case Some(y) =>
        if id == Some(y) {
          assert AllAre(ids', y) by {
            forall i | 0 <= i < |ids'| ensures ids'[i] == Some(y) {
              if i < |ids| { assert ids'[i] == ids[i]; }
            }
          }
        } else {
          assert ids[0] == Some(y);
          assert !AllAre(ids', y);
        }
      case None =>
        if ids[0].Some? {
          var v := ids[0].value;
          assert !AllAre(ids, v);
          var i :| 0 <= i < |ids| && ids[i] != Some(v);
          assert ids'[i] != Some(v);
        }
    }
  }

  /** Once a non-empty node holds two different album ids it stays mixed:
      no sequence of further songs sets an id again. */
  lemma {:induction false} MixedStaysMixed(n: Node, more: seq<(Song, Option<int>)>)
    requires |n.songs| > 0 && n.albumId.None?
    ensures AddAll(n, more).albumId.None?
    ensures |AddAll(n, more).songs| == |n.songs| + |more|
    decreases |more|
  {
    if |more| > 0 {
      MixedStaysMixed(AddSong(n, more[0].0, more[0].1), more[1..]);
    }
  }

  /** Attaches the songs of `more` one after the other. */
  function AddAll(n: Node, more: seq<(Song, Option<int>)>): Node
    decreases |more|
  {
    if |more| == 0 then n else AddAll(AddSong(n, more[0].0, more[0].1), more[1..])
  }

  // ---------------------------------------------------------------------
  // The full tree

  type Tree = map<seq<string>, Node>

  /** The key of a node's parent. */
  function Parent(k: seq<string>): seq<string>
    requires |k| > 0
  {
    k[..|k| - 1]
  }

  /** The name of the folder a key leads to. */
  function LastName(k: seq<string>): string
    requires |k| > 0
  {
    k[|k| - 1]
  }

  /** The tree has its root, every node's parent is present, and every
      non-root node is named after the last component of its key. */
  predicate WellFormed(t: Tree) {
    && [] in t
    && (forall k :: k in t && k != [] ==> Parent(k) in t)
    && (forall k :: k in t && k != [] ==> t[k].folderName == LastName(k))
  }

  /** The non-empty prefixes of `dirs`: the keys of the nodes on its path. */
  function Prefixes(dirs: seq<string>): set<seq<string>> {
    set j | 1 <= j <= |dirs| :: dirs[..j]
  }

  /** The prefixes of `dirs` longer than `i` components. */
  function PrefixesFrom(dirs: seq<string>, i: nat): set<seq<string>> {
    set j | i < j <= |dirs| :: dirs[..j]
  }

  /** Descends along `dirs` from component `i`, creating each missing
      child as an empty node. */
  function EnsurePath(t: Tree, dirs: seq<string>, i: nat): (r: Tree)
    requires i <= |dirs|
    ensures r.Keys == t.Keys + PrefixesFrom(dirs, i)
    ensures forall k :: k in t ==> r[k] == t[k]
    ensures forall k :: k in r && k !in t ==> |k| > 0 && r[k] == NewNode(LastName(k))
    decreases |dirs| - i
  {
    if i == |dirs| then
      assert PrefixesFrom(dirs, i) == {};
      t
    else
      var k := dirs[..i + 1];
      var t' := if k in t then t else t[k := NewNode(dirs[i])];
      assert t'.Keys == t.Keys + {k};
      assert LastName(k) == dirs[i];
      PrefixesFromStep(dirs, i);
      EnsurePath(t', dirs, i + 1)
  }

  lemma PrefixesFromStep(dirs: seq<string>, i: nat)
    requires i < |dirs|
    ensures PrefixesFrom(dirs, i) == {dirs[..i + 1]} + PrefixesFrom(dirs, i + 1)
  {
  }

  /** Adding the prefixes of a path to a well-formed tree, with nodes named
      after their last component, keeps it well formed. */
  lemma EnsurePathWellFormed(t: Tree, dirs: seq<string>)
    requires WellFormed(t)
    ensures WellFormed(EnsurePath(t, dirs, 0))
  {
    var t' := EnsurePath(t, dirs, 0);
    forall k | k in t' && k != [] ensures Parent(k) in t' {
      if k !in t {
        var j :| 0 < j <= |dirs| && k == dirs[..j];
        if j > 1 { assert Parent(k) == dirs[..j - 1]; }
      }
    }
  }

  /** The component path `handleMediaFolder` descends for `path`: the first
      character is dropped (and a trailing `/` with it), the rest is split on
      `/`, and the last piece (the file name) is left out. Substring bounds
      that do not hold raise `StringIndexOutOfBounds`. */
  function FolderComponents(path: string): (r: Result<seq<string>>)
    ensures r.Err? <==> |path| == 0 || path == "/"
    ensures r.Ok? ==> forall i :: 0 <= i < |r.value| ==> '/' !in r.value[i]
  {
    if EndsWithChar(path, '/') then
      if |path| < 2 then Err(StringIndexOutOfBounds)
      else
        var parts := Split(path[1..|path| - 1], '/');
        Ok(parts[..|parts| - 1])
    else if |path| < 1 then Err(StringIndexOutOfBounds)
    else
      var parts := Split(path[1..], '/');
      Ok(parts[..|parts| - 1])
  }

  /** `handleMediaFolder(path, root)`: the tree with every missing folder on
      the path created, and the key of the node for the file's folder. */
  function HandleMediaFolder(path: string, t: Tree): (r: Result<(Tree, seq<string>)>)
    requires WellFormed(t)
    ensures r.Err? <==> FolderComponents(path).Err?
    ensures r.Ok? ==> var (t', key) := r.value;
      && key == FolderComponents(path).value
      && WellFormed(t')
      && key in t'
      && t'.Keys == t.Keys + Prefixes(key)
      && (forall k :: k in t ==> t'[k] == t[k])
      && (forall k :: k in t' && k !in t ==> t'[k].songs == [] && t'[k].albumId.None?)
  {
    match FolderComponents(path)
    case Err(e) => Err(e)
    case Ok(dirs) =>
      var t' := EnsurePath(t, dirs, 0);
      assert PrefixesFrom(dirs, 0) == Prefixes(dirs);
      EnsurePathWellFormed(t, dirs);
      assert dirs == [] || dirs == dirs[..|dirs|];
      Ok((t', dirs))
  }

  /** Handling the same path twice creates nothing the second time and
      returns the same node. */
  lemma HandleMediaFolderIdempotent(path: string, t: Tree)
    requires WellFormed(t)
    requires HandleMediaFolder(path, t).Ok?
    ensures var (t1, k1) := HandleMediaFolder(path, t).value;
            HandleMediaFolder(path, t1) == Ok((t1, k1))
  {
    var dirs := FolderComponents(path).value;
    var t1 := EnsurePath(t, dirs, 0);
    assert PrefixesFrom(dirs, 0) == Prefixes(dirs);
    EnsurePathWellFormed(t, dirs);
    assert HandleMediaFolder(path, t) == Ok((t1, dirs));
    EnsurePathNoop(t1, dirs);
    assert HandleMediaFolder(path, t1) == Ok((t1, dirs));
  }

  /** On a tree that already holds every folder of the path, descending
      creates nothing. */
  lemma EnsurePathNoop(t: Tree, dirs: seq<string>)
    requires PrefixesFrom(dirs, 0) <= t.Keys
    ensures EnsurePath(t, dirs, 0) == t
  {
    var r := EnsurePath(t, dirs, 0);
    assert r.Keys == t.Keys;
    assert forall k :: k in r ==> r[k] == t[k];
  }

  /** Attaches a song to the node at `key` (`fn.addSong(song, albumId)`). */
  function AttachAt(t: Tree, key: seq<string>, song: Song, id: Option<int>): (r: Tree)
    requires key in t
    ensures r.Keys == t.Keys
    ensures r[key] == AddSong(t[key], song, id)
    ensures forall k :: k in t && k != key ==> r[k] == t[k]
    ensures WellFormed(t) ==> WellFormed(r)
  {
    t[key := AddSong(t[key], song, id)]
  }

  // ---------------------------------------------------------------------
  // The shallow tree

  type Shallow = map<string, Node>

  /** The path `handleShallowMediaItem` works on: a trailing `/` dropped. */
  function ShallowPath(path: string): string {
    if EndsWithChar(path, '/') then path[..|path| - 1] else path
  }

  /** `Join` of two or more parts ends with a separator and the last part. */
  lemma {:induction false} JoinLast(parts: seq<string>, sep: char)
    requires |parts| >= 2
    ensures Join(parts, sep) == Join(parts[..|parts| - 1], sep) + [sep] + parts[|parts| - 1]
  {
    if |parts| > 2 {
      JoinLast(parts[1..], sep);
      assert parts[1..][..|parts| - 2] == parts[..|parts| - 1][1..];
    }
  }

  /** The shallow folder of `path`: the second-to-last `/`-component, and
      the text before the last `/` (the item's folder path). Fewer than two
      components raise `IllegalArgumentException`. */
  function ShallowParts(path: string): (r: Result<(string, string, string)>)
    ensures r.Err? ==> r.failure == IllegalArgument
    ensures r.Err? <==> '/' !in ShallowPath(path)
    ensures r.Ok? ==> var (name, dir, last) := r.value;
      && ShallowPath(path) == dir + "/" + last
      && '/' !in name && '/' !in last
      && Split(dir, '/')[|Split(dir, '/')| - 1] == name
  {
    var newPath := ShallowPath(path);
    var parts := Split(newPath, '/');
    if |parts| < 2 then Err(IllegalArgument)
    else
      var dirParts := parts[..|parts| - 1];
      JoinLast(parts, '/');
      SplitJoin(dirParts, '/');
      Ok((parts[|parts| - 2], Join(dirParts, '/'), parts[|parts| - 1]))
  }

  /** `handleShallowMediaItem` of MiscUtils.kt: attaches the item to the
      shallow folder named after the second-to-last path component,
      creating that folder on first use. */
  function HandleShallowMediaItem(item: Song, id: Option<int>, path: string, s: Shallow)
    : (r: Result<Shallow>)
    ensures r.Err? <==> ShallowParts(path).Err?
    ensures r.Ok? ==> var name := ShallowParts(path).value.0;
      && r.value.Keys == s.Keys + {name}
      && r.value[name] == AddSong(if name in s then s[name] else NewNode(name), item, id)
      && (forall n :: n in s && n != name ==> r.value[n] == s[n])
  {
    match ShallowParts(path)
    case Err(e) => Err(e)
    case Ok((name, _, _)) =>
      var folder := if name in s then s[name] else NewNode(name);
      Ok(s[name := AddSong(folder, item, id)])
  }

  /** `handleShallowMediaItem` of FolderStructureConstructor.kt, as written:
      it also appends to `folderArray` when it creates a folder, and the
      entry it appends is the first `|last component| + 1` characters of the
      path rather than the folder's path. */
  function HandleShallowWithArrayAsWritten(item: Song, id: Option<int>, path: string, s: Shallow,
                                           folderArray: seq<string>)
    : (r: Result<(Shallow, seq<string>)>)
    ensures r.Err? <==> ShallowParts(path).Err?
    ensures r.Ok? ==> var (name, dir, last) := ShallowParts(path).value;
      && Ok(r.value.0) == HandleShallowMediaItem(item, id, path, s)
      && (name in s ==> r.value.1 == folderArray)
      && (name !in s ==> |r.value.1| == |folderArray| + 1
                         && r.value.1[..|folderArray|] == folderArray
                         && r.value.1[|folderArray|] <= ShallowPath(path)
                         && |r.value.1[|folderArray|]| == |last| + 1)
  {
    match ShallowParts(path)
    case Err(e) => Err(e)
    case Ok((name, dir, last)) =>
      var newPath := ShallowPath(path);
      var folder := if name in s then s[name] else NewNode(name);
      var array' := if name in s then folderArray else folderArray + [newPath[..|last| + 1]];
      Ok((s[name := AddSong(folder, item, id)], array'))
  }

  /** The same function with the evidently intended `folderArray` entry:
      the path of the folder the item is in. */
  function HandleShallowWithArray(item: Song, id: Option<int>, path: string, s: Shallow,
                                  folderArray: seq<string>)
    : (r: Result<(Shallow, seq<string>)>)
    ensures r.Err? <==> ShallowParts(path).Err?
    ensures r.Ok? ==> var (name, dir, last) := ShallowParts(path).value;
      && Ok(r.value.0) == HandleShallowMediaItem(item, id, path, s)
      && (name in s ==> r.value.1 == folderArray)
      && (name !in s ==> r.value.1 == folderArray + [dir]
                         && ShallowPath(path) == r.value.1[|folderArray|] + "/" + last)
  {
    match ShallowParts(path)
    case Err(e) => Err(e)
    case Ok((name, dir, last)) =>
      var folder := if name in s then s[name] else NewNode(name);
      var array' := if name in s then folderArray else folderArray + [dir];
      Ok((s[name := AddSong(folder, item, id)], array'))
  }

  /** `/music/a/1.mp3` splits into four components. */
  lemma SplitExample()
    ensures Split("/music/a/1.mp3", '/') == ["", "music", "a", "1.mp3"]
  {
    var parts := ["", "music", "a", "1.mp3"];
    calc {
      Join(parts, '/');
      "" + "/" + Join(parts[1..], '/');
      { assert parts[1..] == ["music", "a", "1.mp3"]; }
      "/" + Join(["music", "a", "1.mp3"], '/');
      { assert ["music", "a", "1.mp3"][1..] == ["a", "1.mp3"]; }
      "/" + ("music" + "/" + Join(["a", "1.mp3"], '/'));
      { assert ["a", "1.mp3"][1..] == ["1.mp3"]; }
      "/" + ("music" + "/" + ("a" + "/" + "1.mp3"));
      "/music/a/1.mp3";
    }
    SplitJoin(parts, '/');
  }

  /** The folder part of `/music/a/1.mp3` joins back to `/music/a`. */
  lemma JoinExample()
    ensures Join(["", "music", "a"], '/') == "/music/a"
  {
    calc {
      Join(["", "music", "a"], '/');
      { assert ["", "music", "a"][1..] == ["music", "a"]; }
      "" + "/" + Join(["music", "a"], '/');
      { assert ["music", "a"][1..] == ["a"]; }
      "/" + ("music" + "/" + "a");
      "/music/a";
    }
  }

  /** `ShallowParts` in terms of the split of the trimmed path. */
  lemma ShallowPartsOf(path: string, parts: seq<string>)
    requires Split(ShallowPath(path), '/') == parts && |parts| >= 2
    ensures ShallowParts(path) == Ok((parts[|parts| - 2], Join(parts[..|parts| - 1], '/'), parts[|parts| - 1]))
  {
  }

  /** The shallow parts of `/music/a/1.mp3`. */
  lemma ShallowPartsExample(p: string)
    requires p == "/music/a/1.mp3"
    ensures ShallowPath(p) == p
    ensures ShallowParts(p) == Ok(("a", "/music/a", "1.mp3"))
  {
    var parts := ["", "music", "a", "1.mp3"];
    assert ShallowPath(p) == p by {
      assert p[|p| - 1] == '3';
    }
    assert Split(p, '/') == parts by {
      SplitExample();
    }
    assert Join(parts[..3], '/') == "/music/a" by {
      assert parts[..3] == ["", "music", "a"];
      JoinExample();
    }
    ShallowPartsOf(p, parts);
  }

  /** The entry the as-written function records for a new folder: the
      trimmed path cut one character after the length of the file name. */
  lemma AsWrittenEntry(item: Song, id: Option<int>, path: string, s: Shallow, folderArray: seq<string>)
    requires ShallowParts(path).Ok? && ShallowParts(path).value.0 !in s
    ensures HandleShallowWithArrayAsWritten(item, id, path, s, folderArray).value.1
      == folderArray + [ShallowPath(path)[..|ShallowParts(path).value.2| + 1]]
  {
  }

  /** The entry the corrected function records for a new folder: the
      folder's path. */
  lemma CorrectedEntry(item: Song, id: Option<int>, path: string, s: Shallow, folderArray: seq<string>)
    requires ShallowParts(path).Ok? && ShallowParts(path).value.0 !in s
    ensures HandleShallowWithArray(item, id, path, s, folderArray).value.1
      == folderArray + [ShallowParts(path).value.1]
  {
  }

  /** The as-written entry is not the folder path: for `/music/a/1.mp3`
      the folder is `/music/a`, but `/music` is recorded; the corrected
      function records `/music/a`. */
  lemma FolderArrayEntryWrong(item: Song, p: string)
    requires p == "/music/a/1.mp3"
    ensures HandleShallowWithArrayAsWritten(item, None, p, map[], []).value.1 == ["/music"]
    ensures HandleShallowWithArray(item, None, p, map[], []).value.1 == ["/music/a"]
  {
    ShallowPartsExample(p);
    AsWrittenEntry(item, None, p, map[], []);
    CorrectedEntry(item, None, p, map[], []);
    assert p[..6] == "/music";
  }
}
