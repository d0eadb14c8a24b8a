# libPhonograph library reconstruction, in Dafny

This project models the core of libPhonograph, an Android music-library reader, and proves properties of the model. The core is the pass that turns the rows of the platform's media index into a music library. That pass:

- drops and skips rows;
- normalises sentinel values, such as the `<unknown>` artist, year 0 and packed disc/track numbers;
- buckets every kept song by album, artist, album artist, genre and year;
- records first-writer associations;
- builds a full folder tree and a one-level ("shallow") folder tree, both of which track whether a folder holds a single album;
- resolves playlists against an id map;
- picks album covers by a scoring rule.

The model also covers the library's smaller pieces:

- the two revisions of the "recently added" playlist: a priority-queue drain, and a sort followed by a binary search;
- the flow layer's song filter and its memo;
- the media-metadata extras codec and its sentinel;
- the `putIfAbsentSupport` and `getColumnIndexOrNull` helpers.

Everything is modelled as pure functions over immutable datatypes. Nullable values are `Option`, and exceptions are `Result` failures. The folder tree is a map from component paths to nodes. The reader's hash maps are Dafny maps. The one list whose order depends on a hash map's iteration order, an artist's albums, is discussed under Left out.

Modules follow the source:

- `Items` holds the records;
- `Text` holds the Kotlin/java.io string helpers;
- `Extensions`, `MediaItemExtras`, `Playlists`, `LibraryFilter`, `Cover`, `FolderTree` and `RecentlyAdded` each model the source file of the same name;
- `RecentlyAddedQueue` models the older recently-added class inside Reader.kt;
- `ReaderRow`, `ReaderScan`, `ReaderIndex`, `ReaderFold`, `ReaderInvariant` and `Reader` model the row, the loop, the index shapes, what the loop does row by row, the loop invariant, and the post-pass with its end-to-end theorems.

The headline results:

- `Reader.ReadLibraryOutcome` gives exactly when a read fails.
- `Reader.ReadLibraryContents` says that a successful read lists exactly the kept songs in row order, and that every derived list is what those songs determine.
- `Reader.ReadLibraryPlaylists` gives what each resolved playlist holds.

Some facts of the code that shape the model:

- An album's year is the year of the album's first song (Reader.kt:349). It is not computed from the other songs.
- An album's artist is `albumArtist ?: artist` of its first song (Reader.kt:346). Later songs do not change it.
- The CD-track string is carried as is (Reader.kt:314). It never becomes a track number.
- The track number comes only from the track column (Reader.kt:296-299). The file name is never consulted.
- `putIfAbsentSupport` takes one of two branches depending on the platform version (Extensions.kt:36-42). From API 24 `HashMap.putIfAbsent` replaces a key mapped to null; below it, such a key is kept. The artist-name cache holds nullable ids (Reader.kt:341), so the two branches can give an album artist different ids. `Config.sdkN` selects the branch, and every statement about that cache is made for both.

## Model

| member | source | states |
|---|---|---|
| Extensions.PutIfAbsent | libPhonograph/src/main/java/uk/akane/libphonograph/Extensions.kt:39-41 | The branch below API 24: an absent key gets the value; a present key keeps its earlier value, null included, so the first writer wins; no other key changes and the map grows by at most one entry. |
| Extensions.PutIfAbsentIdempotent | libPhonograph/src/main/java/uk/akane/libphonograph/Extensions.kt:39-41 | Below API 24, a second call with the same key changes nothing, whatever value it carries. |
| Extensions.PutIfAbsentNullable | libPhonograph/src/main/java/uk/akane/libphonograph/Extensions.kt:36-37 | The branch from API 24, `HashMap.putIfAbsent`: a key that is absent or mapped to null gets the new value; a key with a non-null value keeps it; no other key changes. |
| Extensions.PutIfAbsentSupport | libPhonograph/src/main/java/uk/akane/libphonograph/Extensions.kt:35-43 | The two branches together: both add the key and leave other keys alone. They give different maps exactly when the platform is at API 24 or later, the key is mapped to null and the new value is not null. From API 24 the result is that of `HashMap.putIfAbsent`. |
| Extensions.PutIfAbsentSupportIdempotent | libPhonograph/src/main/java/uk/akane/libphonograph/Extensions.kt:35-43 | A second call with the same key changes nothing exactly when the platform is below API 24, the key already holds a non-null value, or the second value is null. |
| Extensions.ColumnIndexOrNull | libPhonograph/src/main/java/uk/akane/libphonograph/Extensions.kt:150-151 | The result is null exactly when the platform answers -1, and every other index is passed through unchanged. |
| MediaItemExtras.LongExtra | libPhonograph/src/main/java/uk/akane/libphonograph/items/MediaItemExtras.kt:16-29 | A long accessor reads null without a bundle, without the key, or for a stored -1. Any other stored long is returned unchanged, so a non-null answer is never -1. |
| MediaItemExtras.StringExtra | libPhonograph/src/main/java/uk/akane/libphonograph/items/MediaItemExtras.kt:13-32 | A string accessor reads null without a bundle or without the key, and otherwise returns the stored string, which may itself be null. |
| MediaItemExtras.KeysDistinct | libPhonograph/src/main/java/uk/akane/libphonograph/items/MediaItemExtras.kt:5-11 | The seven extras keys are pairwise different, so a write under one key never disturbs another. |
| MediaItemExtras.LongRoundTrip | libPhonograph/src/main/java/uk/akane/libphonograph/items/MediaItemExtras.kt:16-29 | A long written under its key reads back as itself, except -1, which collides with the absent sentinel. An unwritten key reads as null. |
| MediaItemExtras.EncodeDecode | app/src/main/java/uk/akane/phonographdemo/MainActivity.kt:148-167 | Round trip through the demo encoder and the accessors. Ids and dates read back as written (null as null), except -1. The author reads back exactly. The CD track number never reads back, because it is written as an Int and read as a String. |
| Playlists.SongList | libPhonograph/src/main/java/uk/akane/libphonograph/items/Playlist.kt:14-16 | The getter fails with IllegalStateException exactly when the protected constructor left the song list unset, and otherwise returns the list. |
| Playlists.PlaylistEquals | libPhonograph/src/main/java/uk/akane/libphonograph/items/Playlist.kt:24-35 | The same object is equal, even without a song list. Null or an object of another class is not equal. Otherwise different ids or titles give false without reading the song lists, and with both lists present the answer is equality of (id, title, songs). It fails, with the getter's IllegalStateException, exactly when a distinct playlist agrees in id and title and one of the two song lists is unset. |
| Playlists.PlaylistEqualsSymmetric | libPhonograph/src/main/java/uk/akane/libphonograph/items/Playlist.kt:24-35 | Between two distinct plain playlists, `equals` gives the same answer, or the same exception, in both directions. |
| Playlists.Resolve | libPhonograph/src/main/java/uk/akane/libphonograph/items/Playlist.kt:45-49 | Resolution never lengthens the list, and keeps its length exactly when every id is in the map. Each resolved song is the map's entry for one of the ids, and the song of every id that is found appears. |
| Playlists.ResolveAppend | libPhonograph/src/main/java/uk/akane/libphonograph/items/Playlist.kt:45-49 | Resolution distributes over concatenation. Each id contributes its own song, or nothing, at its own position, so duplicate ids give duplicate songs. |
| Playlists.ToPlaylist | libPhonograph/src/main/java/uk/akane/libphonograph/items/Playlist.kt:44-50 | Fails (at `!!`) exactly when there are ids to look up and the map is null. Otherwise it keeps the id and title, an empty id list gives an empty playlist even without a map, and the songs are the ids resolved through the map. |
| Playlists.ToPlaylistRepeatable | libPhonograph/src/main/java/uk/akane/libphonograph/items/Playlist.kt:24-35 | Resolving the same raw playlist against the same map twice gives two distinct playlists that `equals` calls equal. |
| Playlists.ResolveStrict | libPhonograph/src/main/java/uk/akane/libphonograph/reader/Reader.kt:389-390 | The older resolution succeeds exactly when there are no ids or every id is in the map. Then it gives one song per id, in order. Otherwise it fails with NotFound naming the first missing id. |
| Playlists.StrictAgrees | libPhonograph/src/main/java/uk/akane/libphonograph/reader/Reader.kt:386-391 | Whenever the older, throwing resolution succeeds, it gives the same songs as the newer one, which drops misses. |
| LibraryFilter.Wrap32 | libPhonograph/src/main/java/uk/akane/libphonograph/flow/Library.kt:75 | The 32-bit product differs from the true product by a multiple of 2^32, and equals it whenever the true product fits an Int. |
| LibraryFilter.ParentPath | libPhonograph/src/main/java/uk/akane/libphonograph/flow/Library.kt:73 | A song without a file has no parent path; otherwise it is the parent folder of the file. |
| LibraryFilter.KeepAgreesWithoutOverflow | libPhonograph/src/main/java/uk/akane/libphonograph/flow/Library.kt:74-75 | For every minimum length an Int product can hold, the written keep predicate equals the one computed without wrap-around. |
| LibraryFilter.OverflowKeepsShortSong | libPhonograph/src/main/java/uk/akane/libphonograph/flow/Library.kt:74-75 | With a minimum of 2147484 seconds, the written predicate keeps a one-second song that the filter was set to drop. |
| LibraryFilter.ApplyFilters | libPhonograph/src/main/java/uk/akane/libphonograph/flow/Library.kt:71-77 | Every song of the result passes the keep rule. A song is in the result exactly when it is in the input and passes the rule. |
| LibraryFilter.ApplyFiltersAppend | libPhonograph/src/main/java/uk/akane/libphonograph/flow/Library.kt:72 | Filtering distributes over concatenation: each song is kept or dropped on its own. |
| LibraryFilter.ApplyFiltersSubsequence | libPhonograph/src/main/java/uk/akane/libphonograph/flow/Library.kt:72 | The filtered list is an order-preserving subsequence of the input. |
| LibraryFilter.FilterBoundaries | libPhonograph/src/main/java/uk/akane/libphonograph/flow/Library.kt:74-75 | A song exactly as long as the minimum, outside the blacklist, is kept. A zero minimum with an empty blacklist drops no song of non-negative duration. |
| LibraryFilter.AllKeptIdentity | libPhonograph/src/main/java/uk/akane/libphonograph/flow/Library.kt:72-76 | When every song passes, filtering returns the input unchanged. |
| LibraryFilter.FilteredSongs | libPhonograph/src/main/java/uk/akane/libphonograph/flow/Library.kt:61-68 | An unchanged filter returns the cached list and leaves the data alone. A new filter replaces both the stored filter and the cached list, and the returned list is the new cache. |
| LibraryFilter.MemoTransparent | libPhonograph/src/main/java/uk/akane/libphonograph/flow/Library.kt:61-68 | Starting from a consistent cache, every step returns exactly what filtering from scratch would, and the cache stays consistent. |
| Cover.NameRoundTrip | libPhonograph/src/main/java/uk/akane/libphonograph/utils/MiscUtils.kt:72-85 | A name is its base name, a dot and its extension around the last dot. The extension holds no dot, and a name without a dot is all base name with an empty extension. |
| Cover.Score | libPhonograph/src/main/java/uk/akane/libphonograph/utils/MiscUtils.kt:74-85 | A score is between 1 and 28. |
| Cover.Scores | libPhonograph/src/main/java/uk/akane/libphonograph/utils/MiscUtils.kt:71-73 | There is one entry per file. A file whose exact extension is not in ALLOWED_EXT gets no score and is skipped. |
| Cover.BestOf | libPhonograph/src/main/java/uk/akane/libphonograph/utils/MiscUtils.kt:86-89 | The scan finds no file exactly when nothing is scored. Otherwise the winner has the highest score, and no scored file before it has that score (strict `<`). |
| Cover.FindBestCover | libPhonograph/src/main/java/uk/akane/libphonograph/utils/MiscUtils.kt:66-100 | A null or failed listing gives null. A returned file is the first best file and scores at least 3. A null answer from a listing means no allowed file scores 3. |
| Cover.QualifyingFiles | libPhonograph/src/main/java/uk/akane/libphonograph/utils/MiscUtils.kt:94-99 | An allowed file can win exactly when it is a jpg or png of any name, or its name matches a rule; the other types need a name match. |
| Cover.CaseSensitiveNames | libPhonograph/src/main/java/uk/akane/libphonograph/utils/MiscUtils.kt:80-85 | `AlbumArt.jpg` matches no name rule, because comparisons are case-sensitive, and scores 4. |
| Cover.ExactNameScores | libPhonograph/src/main/java/uk/akane/libphonograph/utils/MiscUtils.kt:74-80 | `albumart.jpg` gets both the jpg bonus and the full name bonus, and scores 28. |
| Cover.AlbumCoverComparison | libPhonograph/src/main/java/uk/akane/libphonograph/reader/Reader.kt:422-461 | Only the album's cover can change. It changes only when the folder node's album id equals the album's id and a qualifying file exists, and in that case it becomes that file. |
| Text.Split | libPhonograph/src/main/java/uk/akane/libphonograph/constructor/FolderStructureConstructor.kt:24 | Splitting gives at least one piece and no piece holds the separator. Joining the pieces gives the string back, and there is one piece exactly when the separator does not occur. |
| Text.SplitJoin | libPhonograph/src/main/java/uk/akane/libphonograph/constructor/FolderStructureConstructor.kt:24 | Splitting a join of separator-free pieces gives the pieces back. |
| Text.FileParent | libPhonograph/src/main/java/uk/akane/libphonograph/reader/Reader.kt:246-247 | A path has no parent exactly when it has no `/` or is `/`. Otherwise the path is the parent, a `/` and a name without `/`. |
| FolderTree.AddSong | libPhonograph/src/main/java/uk/akane/libphonograph/constructor/FolderStructureConstructor.kt:11-18 | `addSong` appends exactly one song and keeps the name. The first song into an empty node sets the album id; a different id clears it; an equal id keeps it; a non-empty node without an id stays without one. `FileNodeImpl.addSong` (MiscUtils.kt:22-29) is the same code. |
| FolderTree.TracksIff | libPhonograph/src/main/java/uk/akane/libphonograph/constructor/FolderStructureConstructor.kt:11-18 | Under the tracker invariant, a node holds album id x exactly when it is non-empty and every attached id is x. |
| FolderTree.NewNodeTracks | libPhonograph/src/main/java/uk/akane/libphonograph/constructor/FolderStructureConstructor.kt:4-10 | A freshly created node satisfies the tracker invariant with no ids. |
| FolderTree.AddSongTracks | libPhonograph/src/main/java/uk/akane/libphonograph/constructor/FolderStructureConstructor.kt:11-18 | `addSong` preserves the tracker invariant. |
| FolderTree.MixedStaysMixed | libPhonograph/src/main/java/uk/akane/libphonograph/constructor/FolderStructureConstructor.kt:12-15 | A non-empty node without an album id never gets one again, whatever songs follow. |
| FolderTree.EnsurePath | libPhonograph/src/main/java/uk/akane/libphonograph/constructor/FolderStructureConstructor.kt:26-33 | The descent adds exactly the missing folders on the path, as empty nodes named after their last component, and leaves every existing node unchanged. |
| FolderTree.EnsurePathWellFormed | libPhonograph/src/main/java/uk/akane/libphonograph/constructor/FolderStructureConstructor.kt:26-33 | The descent keeps the tree well formed: the root is present, every node's parent is present, and every node is named after its key. |
| FolderTree.FolderComponents | libPhonograph/src/main/java/uk/akane/libphonograph/constructor/FolderStructureConstructor.kt:22-24 | Trimming fails with a bounds error exactly for an empty path or `/`. The resulting components contain no `/`. |
| FolderTree.HandleMediaFolder | libPhonograph/src/main/java/uk/akane/libphonograph/constructor/FolderStructureConstructor.kt:21-35 | `handleMediaFolder` fails exactly when trimming does. Otherwise it returns the node of the path minus its file name. It creates only the missing folders, as empty nodes, keeps the tree well formed and changes no existing node. MiscUtils.kt:32-46 is the same code. |
| FolderTree.HandleMediaFolderIdempotent | libPhonograph/src/main/java/uk/akane/libphonograph/constructor/FolderStructureConstructor.kt:21-35 | A second call with the same path creates nothing and returns the same node. |
| FolderTree.EnsurePathNoop | libPhonograph/src/main/java/uk/akane/libphonograph/constructor/FolderStructureConstructor.kt:27-31 | Descending through folders that all exist creates nothing. |
| FolderTree.AttachAt | libPhonograph/src/main/java/uk/akane/libphonograph/reader/Reader.kt:359-360 | Attaching a song changes only the song's node, by `addSong`. The tree stays well formed. |
| FolderTree.ShallowParts | libPhonograph/src/main/java/uk/akane/libphonograph/constructor/FolderStructureConstructor.kt:44-47 | Fails with IllegalArgumentException exactly when the trimmed path has no `/`. Otherwise the path is folder, `/` and file name, and the shallow name is the folder's last component. |
| FolderTree.HandleShallowMediaItem | libPhonograph/src/main/java/uk/akane/libphonograph/utils/MiscUtils.kt:48-64 | Fails exactly as the component check does. Otherwise only the shallow folder named by the second-to-last component changes: it is created if missing and given the song by `addSong`. |
| FolderTree.HandleShallowWithArrayAsWritten | libPhonograph/src/main/java/uk/akane/libphonograph/constructor/FolderStructureConstructor.kt:37-58 | The shallow tree changes as above. folderArray is unchanged when the folder exists. When a folder is created, folderArray gains exactly one entry: the prefix of the trimmed path that is one character longer than the file name. |
| FolderTree.HandleShallowWithArray | libPhonograph/src/main/java/uk/akane/libphonograph/constructor/FolderStructureConstructor.kt:37-58 | As above, except that the new entry is the folder the item is in: the trimmed path is that entry, a `/` and the file name. |
| FolderTree.ShallowPartsExample | libPhonograph/src/main/java/uk/akane/libphonograph/constructor/FolderStructureConstructor.kt:44-47 | `/music/a/1.mp3` has shallow name `a`, folder `/music/a` and file name `1.mp3`. |
| FolderTree.AsWrittenEntry | libPhonograph/src/main/java/uk/akane/libphonograph/constructor/FolderStructureConstructor.kt:53-55 | The written code records the first (file name length + 1) characters of the trimmed path. |
| FolderTree.CorrectedEntry | libPhonograph/src/main/java/uk/akane/libphonograph/constructor/FolderStructureConstructor.kt:53-55 | The corrected code records the folder's path. |
| FolderTree.FolderArrayEntryWrong | libPhonograph/src/main/java/uk/akane/libphonograph/constructor/FolderStructureConstructor.kt:53-55 | For `/music/a/1.mp3` the written code records `/music`, while the folder is `/music/a`, which the corrected code records. |
| ReaderRow.NormaliseArtist | libPhonograph/src/main/java/uk/akane/libphonograph/reader/Reader.kt:254-255 | The artist is null exactly when it is missing or `<unknown>`, and otherwise unchanged. |
| ReaderRow.NormaliseYear | libPhonograph/src/main/java/uk/akane/libphonograph/reader/Reader.kt:258 | The year is null exactly when it is missing or 0, and otherwise unchanged. |
| ReaderRow.SplitTrack | libPhonograph/src/main/java/uk/akane/libphonograph/reader/Reader.kt:296-299 | A track of 1000 or more gives disc = track / 1000 (overwriting the disc column) and track = track % 1000, and these pack back into the original. Smaller or missing tracks leave disc and track alone. The track ends below 1000, or null exactly when it was null. |
| ReaderRow.SplitTrackRoundTrip | libPhonograph/src/main/java/uk/akane/libphonograph/reader/Reader.kt:296-299 | Disc d >= 1 and track t < 1000, packed as d*1000+t, split back into d and t. |
| ReaderRow.BuildSong | libPhonograph/src/main/java/uk/akane/libphonograph/reader/Reader.kt:252-329 | The song carries the row's id, title, MIME type and file path, the normalised artist and year, and the split disc and track. It also carries unchanged the row's album, album-artist, artist-id, genre and genre-id fields. The same holds for the CD track number, writer, composer, author, compilation flag, duration, add date and modification date. Its artwork is under its own id. |
| ReaderRow.ParseRow | libPhonograph/src/main/java/uk/akane/libphonograph/reader/Reader.kt:243-261 | A row without a path is dropped, and a path without a parent fails. A row is dropped exactly when it has no path, or is skipped while playlists have no content. A row that goes on carries its folder, its song and its skip flag, and a skip implies playlist content. |
| ReaderRow.KeepIsNotSkip | libPhonograph/src/main/java/uk/akane/libphonograph/flow/Library.kt:74-75 | The library's keep predicate, with an unwrapped threshold, is exactly the negation of the reader's skip rule (Reader.kt:248-249) for the same minimum and blacklist. |
| ReaderScan.ArtistStr | libPhonograph/src/main/java/uk/akane/libphonograph/reader/Reader.kt:346 | The album artist string is the album-artist tag when present, and the artist otherwise. |
| ReaderScan.LikelyArtistId | libPhonograph/src/main/java/uk/akane/libphonograph/reader/Reader.kt:347-348 | The album-artist id is taken from the lookup table only when the table has the album with exactly that artist name, and then it is the table's artist id. |
| ReaderScan.AlbumHeaderOf | libPhonograph/src/main/java/uk/akane/libphonograph/reader/Reader.kt:342-349 | A new album takes its title, album artist and year from its first song, and its album-artist id from the lookup. It gets an album-art URI only without enhanced cover reading and with an album id. |
| ReaderScan.RecentOf | libPhonograph/src/main/java/uk/akane/libphonograph/reader/Reader.kt:335-337 | Only songs with an add date are queued, each with that date. |
| ReaderScan.PutId | libPhonograph/src/main/java/uk/akane/libphonograph/reader/Reader.kt:331 | A present id map gets the song under its id, replacing an earlier song with that id. A null map stays null. |
| ReaderScan.RegisterAlbum | libPhonograph/src/main/java/uk/akane/libphonograph/reader/Reader.kt:350-351 | A new album joins the end of its album artist's album list. The entry is created if needed and nothing else changes. |
| ReaderScan.FileSong | libPhonograph/src/main/java/uk/akane/libphonograph/reader/Reader.kt:353-355 | The song joins the end of its album artist's songs. Nothing else changes. |
| ReaderScan.AlbumStep | libPhonograph/src/main/java/uk/akane/libphonograph/reader/Reader.kt:342-356 | The album index changes exactly as `getOrPut` followed by `add` changes it. |
| ReaderScan.Register | libPhonograph/src/main/java/uk/akane/libphonograph/reader/Reader.kt:334-365 | Registering a kept song fails exactly when one of the two folder-tree steps fails. Otherwise the song is appended to the song list, the id map is left alone and the tree stays well formed. |
| ReaderScan.Enter | libPhonograph/src/main/java/uk/akane/libphonograph/reader/Reader.kt:331-333 | A skipped song only enters the id map. A kept song enters it and is then registered everywhere. |
| ReaderScan.Step | libPhonograph/src/main/java/uk/akane/libphonograph/reader/Reader.kt:243-366 | A row that fails ends the read with that failure, a dropped row changes nothing, and a parsed row is entered. |
| ReaderIndex.WhereKeys | libPhonograph/src/main/java/uk/akane/libphonograph/reader/Reader.kt:338-358 | Every song in a bucket has that bucket's key. |
| ReaderIndex.WhereSnoc | libPhonograph/src/main/java/uk/akane/libphonograph/reader/Reader.kt:338-358 | One more song extends exactly the bucket of its own key. |
| ReaderIndex.KeysOfMembers | libPhonograph/src/main/java/uk/akane/libphonograph/reader/Reader.kt:338-358 | A key occurs exactly when some song has it. |
| ReaderIndex.WhereNonEmpty | libPhonograph/src/main/java/uk/akane/libphonograph/reader/Reader.kt:338-358 | A key occurs exactly when its bucket is non-empty. |
| ReaderIndex.AddTo | libPhonograph/src/main/java/uk/akane/libphonograph/reader/Reader.kt:338-340 | `getOrPut(k) { header }.songList.add(s)`: the key's bucket gains the song at its end, and is created with the given header if new. No other bucket changes. |
| ReaderIndex.IndexesAdd | libPhonograph/src/main/java/uk/akane/libphonograph/reader/Reader.kt:338-358 | Bucketing one more song keeps the index invariant. There is one bucket per occurring key, holding exactly that key's songs in row order, with the header of its first song. |
| ReaderIndex.RecordsFirstAdd | libPhonograph/src/main/java/uk/akane/libphonograph/reader/Reader.kt:341 | Below API 24, `putIfAbsentSupport` for one more song keeps the first-writer invariant: each key holds the value of its first song. |
| ReaderIndex.FirstAppearanceHas | libPhonograph/src/main/java/uk/akane/libphonograph/reader/Reader.kt:350-351 | A key is among the keys in order of first appearance exactly when some song has it. |
| ReaderIndex.FirstAppearanceDistinct | libPhonograph/src/main/java/uk/akane/libphonograph/reader/Reader.kt:350-351 | The keys in order of first appearance name each key once. |
| ReaderIndex.FirstSomeIsFirst | libPhonograph/src/main/java/uk/akane/libphonograph/Extensions.kt:36-37 | The first non-null value of a list is null exactly when every value is. Otherwise it is the value of a song before which every value is null. |
| ReaderIndex.RecordsFirstSomeAdd | libPhonograph/src/main/java/uk/akane/libphonograph/reader/Reader.kt:341 | From API 24, `putIfAbsentSupport` for one more song keeps the first-non-null invariant: each key holds the first non-null value among its songs, or null when there is none. |
| ReaderFold.StepOutcome | libPhonograph/src/main/java/uk/akane/libphonograph/reader/Reader.kt:243-366 | One row succeeds exactly when it breaks none of the failure rules. It then adds its kept song, if any, at the end of the song list. |
| ReaderFold.FoldSucceeds | libPhonograph/src/main/java/uk/akane/libphonograph/reader/Reader.kt:243-366 | The row loop succeeds exactly when no row fails. |
| ReaderFold.FoldSongs | libPhonograph/src/main/java/uk/akane/libphonograph/reader/Reader.kt:334 | After a successful loop, the song list is the kept songs of all rows, in row order. |
| ReaderFold.NullPathDropped | libPhonograph/src/main/java/uk/akane/libphonograph/reader/Reader.kt:244 | A row without a path changes nothing, not even the id map. |
| ReaderFold.SkippedOnlyInIdMap | libPhonograph/src/main/java/uk/akane/libphonograph/reader/Reader.kt:248-251 | Without playlist content a skipped row changes nothing. With it, the row only enters the id map. |
| ReaderFold.PutAllLast | libPhonograph/src/main/java/uk/akane/libphonograph/reader/Reader.kt:331 | After the puts, an id maps to the last song with that id. Ids no song has keep their entries. |
| ReaderFold.PutAllKeys | libPhonograph/src/main/java/uk/akane/libphonograph/reader/Reader.kt:331 | After the puts, the id map holds the old ids and the songs' ids, and no others. |
| ReaderFold.PutAllIds | libPhonograph/src/main/java/uk/akane/libphonograph/reader/Reader.kt:331 | Every song in the id map stays filed under its own id. |
| ReaderFold.StepIdMap | libPhonograph/src/main/java/uk/akane/libphonograph/reader/Reader.kt:331 | One row enters its song in the id map whenever it parses, whether it is skipped or kept. |
| ReaderFold.FoldIdMap | libPhonograph/src/main/java/uk/akane/libphonograph/reader/Reader.kt:331 | After a successful loop, the id map holds every parsed row's song, put in row order. |
| ReaderInvariant.FolderArrayCount | libPhonograph/src/main/java/uk/akane/libphonograph/constructor/FolderStructureConstructor.kt:49-56 | folderArray, as the code builds it, gets one entry per shallow folder name. |
| ReaderInvariant.ShallowArrayLength | libPhonograph/src/main/java/uk/akane/libphonograph/constructor/FolderStructureConstructor.kt:49-56 | folderArray is exactly as long as the shallow tree has folders. |
| ReaderInvariant.InitInv | libPhonograph/src/main/java/uk/akane/libphonograph/reader/Reader.kt:116-132 | The empty lists and maps the read starts with satisfy the loop invariant. |
| ReaderInvariant.TreeStep | libPhonograph/src/main/java/uk/akane/libphonograph/reader/Reader.kt:359-360 | Finding or creating a kept song's folder node and adding the song keeps every node holding exactly its folder's songs in row order. Every node also keeps tracking its songs' album ids. |
| ReaderInvariant.ShallowShape | libPhonograph/src/main/java/uk/akane/libphonograph/reader/Reader.kt:364 | The shallow step, as written, adds the song's folder name to the keys. It appends the song's entry (the trimmed path cut one character past the file name's length) to folderArray exactly when the name is new. |
| ReaderInvariant.ShallowNodesStep | libPhonograph/src/main/java/uk/akane/libphonograph/reader/Reader.kt:364 | After the shallow step, every shallow folder holds exactly the songs in folders of its name and tracks their album ids. |
| ReaderInvariant.ShallowStep | libPhonograph/src/main/java/uk/akane/libphonograph/reader/Reader.kt:364 | The shallow step, as written, keeps the shallow invariant: folders hold their songs, and folderArray holds the entry of the first song of each folder name, in order of first appearance. |
| ReaderInvariant.RegisteredNew | libPhonograph/src/main/java/uk/akane/libphonograph/reader/Reader.kt:349-351 | A new album is registered once, under its album artist. |
| ReaderInvariant.RegisteredOld | libPhonograph/src/main/java/uk/akane/libphonograph/reader/Reader.kt:342 | A song added to an existing album registers nothing. |
| ReaderInvariant.RegisteredFile | libPhonograph/src/main/java/uk/akane/libphonograph/reader/Reader.kt:354-355 | Filing a song under an album artist changes no registration. |
| ReaderInvariant.RegisteredStep | libPhonograph/src/main/java/uk/akane/libphonograph/reader/Reader.kt:342-356 | The album step keeps every album registered exactly once, under its own album artist. |
| ReaderInvariant.FiledStep | libPhonograph/src/main/java/uk/akane/libphonograph/reader/Reader.kt:353-355 | The album step files the song under its album's album artist and leaves every other entry's songs alone. |
| ReaderInvariant.OrderStep | libPhonograph/src/main/java/uk/akane/libphonograph/reader/Reader.kt:349-351 | The album step keeps every album artist's album list in creation order: the album keys of its songs in order of first appearance. A new album goes to the end of its album artist's list; a song of a known album adds nothing. |
| ReaderInvariant.AlbumsStep | libPhonograph/src/main/java/uk/akane/libphonograph/reader/Reader.kt:342-356 | The album step keeps the album index and the album-artist map invariant, including each album artist's albums in creation order. |
| ReaderInvariant.ArtistsStep | libPhonograph/src/main/java/uk/akane/libphonograph/reader/Reader.kt:338-341 | The artist step keeps the artist index invariant, and the name cache invariant of the platform's branch. Below API 24 each name holds its first song's id; from API 24 it holds the first non-null id. |
| ReaderInvariant.GenresStep | libPhonograph/src/main/java/uk/akane/libphonograph/reader/Reader.kt:357-358 | The genre and year steps keep both indices: one bucket per genre name and per year, each holding its songs in row order, with the first song's genre id. |
| ReaderInvariant.CoverFirstStep | libPhonograph/src/main/java/uk/akane/libphonograph/reader/Reader.kt:361-363 | The cover cache keeps, for each album id, the entry of the album's first song. |
| ReaderInvariant.CacheStep | libPhonograph/src/main/java/uk/akane/libphonograph/reader/Reader.kt:361-363 | The cover cache exists exactly with enhanced cover reading. It records each album's first song's folder and folder node, and the node stays in a tree that only grows. |
| ReaderInvariant.IndexListsInv | libPhonograph/src/main/java/uk/akane/libphonograph/reader/Reader.kt:334-358 | Registering a kept song keeps the song list, the queue, and the artist, album, genre and year invariants. |
| ReaderInvariant.IndexFoldersInv | libPhonograph/src/main/java/uk/akane/libphonograph/reader/Reader.kt:359-365 | Registering a kept song keeps the cover cache, both folder trees, folderArray and the folder set invariant. |
| ReaderInvariant.IndexInv | libPhonograph/src/main/java/uk/akane/libphonograph/reader/Reader.kt:334-365 | Registering a kept song, given the two folder-tree results, keeps the whole loop invariant. |
| ReaderInvariant.RegisterInv | libPhonograph/src/main/java/uk/akane/libphonograph/reader/Reader.kt:334-365 | Registering a kept song keeps the whole loop invariant. |
| ReaderInvariant.StepInv | libPhonograph/src/main/java/uk/akane/libphonograph/reader/Reader.kt:243-366 | Every row that does not end the read keeps the loop invariant. |
| ReaderInvariant.FoldInv | libPhonograph/src/main/java/uk/akane/libphonograph/reader/Reader.kt:243-366 | The whole row loop keeps the invariant: every index, tree and first-writer map is what the kept songs determine in row order. Each album is registered once, and the folder set is the kept songs' folders. |
| RecentlyAdded.Insert | libPhonograph/src/main/java/uk/akane/libphonograph/dynamicitem/RecentlyAdded.kt:8-9 | Insertion adds exactly the new song to the list's multiset. |
| RecentlyAdded.InsertStable | libPhonograph/src/main/java/uk/akane/libphonograph/dynamicitem/RecentlyAdded.kt:8-9 | Insertion puts the new song before every song of its own key and keeps the order of the songs of each key. |
| RecentlyAdded.InsertSorted | libPhonograph/src/main/java/uk/akane/libphonograph/dynamicitem/RecentlyAdded.kt:8-9 | Insertion keeps the list non-increasing by add date. |
| RecentlyAdded.SortDescending | libPhonograph/src/main/java/uk/akane/libphonograph/dynamicitem/RecentlyAdded.kt:8-9 | The backing list is non-increasing by add date (a missing date counts as -1) and is a permutation of the input. The sort is stable: the songs of each key are in their input order. |
| RecentlyAdded.Search | libPhonograph/src/main/java/uk/akane/libphonograph/dynamicitem/RecentlyAdded.kt:22-26 | A non-negative result is an index in range that the comparison calls a hit. A negative result encodes an insertion point in range. |
| RecentlyAdded.SearchMissSplits | libPhonograph/src/main/java/uk/akane/libphonograph/dynamicitem/RecentlyAdded.kt:22-26 | On a monotone comparison a miss returns the exact insertion point: every song before it compares as "further right", and every song from it on as "further left". |
| RecentlyAdded.FilterList | libPhonograph/src/main/java/uk/akane/libphonograph/dynamicitem/RecentlyAdded.kt:20-33 | The view is always a prefix of the backing list, and empty for an empty list. On a sorted, fully dated list every song in the view is dated at or after the cutoff, and every later song at or before it. |
| RecentlyAdded.SortedMonotone | libPhonograph/src/main/java/uk/akane/libphonograph/dynamicitem/RecentlyAdded.kt:22-23 | On a sorted, fully dated list the comparison never decreases along the list. |
| RecentlyAdded.HitSplits | libPhonograph/src/main/java/uk/akane/libphonograph/dynamicitem/RecentlyAdded.kt:24-25 | A hit index splits a sorted, dated list into songs dated at or after the cutoff and songs dated at or before it. |
| RecentlyAdded.MissSplits | libPhonograph/src/main/java/uk/akane/libphonograph/dynamicitem/RecentlyAdded.kt:24-25 | A miss splits a sorted, dated list at the insertion point into songs dated strictly after the cutoff and songs dated strictly before it. |
| RecentlyAdded.ViewEndSplits | libPhonograph/src/main/java/uk/akane/libphonograph/dynamicitem/RecentlyAdded.kt:22-32 | On a sorted, dated list the end of the view separates songs dated at or after the cutoff from songs dated at or before it. |
| RecentlyAdded.FilterListExact | libPhonograph/src/main/java/uk/akane/libphonograph/dynamicitem/RecentlyAdded.kt:20-33 | When every song is dated and none exactly at the cutoff, the view is exactly the songs dated after the cutoff. |
| RecentlyAdded.ExactHitDropped | libPhonograph/src/main/java/uk/akane/libphonograph/dynamicitem/RecentlyAdded.kt:25-31 | Dates [200, 100] with cutoff 100 give only the first song: the hit index is used as the exclusive end. |
| RecentlyAdded.UndatedKept | libPhonograph/src/main/java/uk/akane/libphonograph/dynamicitem/RecentlyAdded.kt:23 | Dates [500, none] with cutoff 100 give both songs, because an undated song compares as -1. |
| RecentlyAdded.New | libPhonograph/src/main/java/uk/akane/libphonograph/dynamicitem/RecentlyAdded.kt:7-10 | The constructor sorts once, stably, keeps every song, stores the cutoff and computes a view consistent with it. No songs give an empty view. |
| RecentlyAdded.SetMinAddDate | libPhonograph/src/main/java/uk/akane/libphonograph/dynamicitem/RecentlyAdded.kt:11-17 | Setting the current cutoff changes nothing. A new value recomputes the view from the unchanged backing list. |
| RecentlyAdded.RestoreCutoff | libPhonograph/src/main/java/uk/akane/libphonograph/dynamicitem/RecentlyAdded.kt:11-17 | Moving the cutoff away and back restores the earlier object, view included. |
| RecentlyAdded.SameListSameView | libPhonograph/src/main/java/uk/akane/libphonograph/dynamicitem/RecentlyAdded.kt:41-51 | Two objects that `equals` calls equal (same backing list and cutoff) show the same songs. |
| RecentlyAdded.AsPlaylist | libPhonograph/src/main/java/uk/akane/libphonograph/dynamicitem/RecentlyAdded.kt:7 | The playlist has id -1, no title, and the current view as its songs. |
| RecentlyAddedQueue.Drain | libPhonograph/src/main/java/uk/akane/libphonograph/reader/Reader.kt:54-58 | The drain is a prefix of the poll order, all dated at or after the cutoff. It stops at the first older entry, which is not added. |
| RecentlyAddedQueue.AtLeast | libPhonograph/src/main/java/uk/akane/libphonograph/reader/Reader.kt:56 | The reference filter keeps each entry dated at or after the cutoff as often as it occurs, and no other. |
| RecentlyAddedQueue.AtLeastNone | libPhonograph/src/main/java/uk/akane/libphonograph/reader/Reader.kt:56 | With every entry older than the cutoff, nothing is kept. |
| RecentlyAddedQueue.DrainSorted | libPhonograph/src/main/java/uk/akane/libphonograph/reader/Reader.kt:54-58 | On a non-increasing poll order, the drain keeps exactly what the reference filter keeps. |
| RecentlyAddedQueue.DrainContents | libPhonograph/src/main/java/uk/akane/libphonograph/reader/Reader.kt:52-59 | The view holds exactly the queued entries dated at or after the cutoff, each as often as queued, newest first. |
| RecentlyAddedQueue.New | libPhonograph/src/main/java/uk/akane/libphonograph/reader/Reader.kt:37-42 | The constructor stores the queue and cutoff with nothing cached, which is consistent for every poll order. |
| RecentlyAddedQueue.SetMinAddDate | libPhonograph/src/main/java/uk/akane/libphonograph/reader/Reader.kt:43-48 | The cutoff setter never touches the queue. The current value changes nothing, and a new value drops the cache. |
| RecentlyAddedQueue.GetSongList | libPhonograph/src/main/java/uk/akane/libphonograph/reader/Reader.kt:49-62 | The getter returns the drain's songs for the current cutoff and caches them. It leaves the queue and the cutoff as they were. |
| RecentlyAddedQueue.GetSongListContents | libPhonograph/src/main/java/uk/akane/libphonograph/reader/Reader.kt:49-62 | A read returns the songs of the queued entries dated at or after the cutoff, each as often as queued, newest first. A second read returns the same list. |
| Reader.FinishAlbum | libPhonograph/src/main/java/uk/akane/libphonograph/reader/Reader.kt:370-378 | Finishing an album keeps its id, songs, title, album artist and year, and keeps an album-artist id that is already set. The cover changes only for an album in the cover cache. |
| Reader.ResolveAll | libPhonograph/src/main/java/uk/akane/libphonograph/reader/Reader.kt:386-391 | Succeeds exactly when every playlist resolves. It then gives one playlist per stored one, in order, with its id, name and resolved songs. Otherwise it fails with the error of the first playlist that does not resolve. |
| Reader.RecentlyAddedOf | libPhonograph/src/main/java/uk/akane/libphonograph/reader/Reader.kt:395-403 | The recently-added list exists exactly when it is requested and playlists are fetched. It then holds the queue, uncached, and its cutoff is the current time in seconds minus the window. |
| Reader.CacheFirst | libPhonograph/src/main/java/uk/akane/libphonograph/reader/Reader.kt:372 | Below API 24 the artist-name cache answers with the artist id of the first song credited to the name. From API 24 it answers with the first non-null id among those songs. It answers null for a name no song has. |
| Reader.CacheBranchesDiffer | libPhonograph/src/main/java/uk/akane/libphonograph/Extensions.kt:35-43 | For two songs credited to the same name, the first without an id and the second with id 5, the cache holds null below API 24 and 5 from API 24. |
| Reader.AlbumFactsOne | libPhonograph/src/main/java/uk/akane/libphonograph/reader/Reader.kt:370-373 | Every finished album is the bucket of its id, described by its first song. Its album-artist id comes from the lookup table when that names the same artist, and otherwise from the name cache of the platform's branch. |
| Reader.SearchTarget | libPhonograph/src/main/java/uk/akane/libphonograph/reader/Reader.kt:361-363 | The cover cache holds, for an album with an id, the folder and node of its first song. That node carries the album's id exactly when every song in the folder belongs to the album. |
| Reader.CoverFactsOne | libPhonograph/src/main/java/uk/akane/libphonograph/reader/Reader.kt:376-378 | With enhanced cover reading, the folder of the album's first song is searched only when every song in it belongs to the album. The best file found there becomes the cover, and otherwise the album has none. Without enhanced reading, an album with an id gets the album-art URI and one without an id gets none. |
| Reader.FinishAlbumsFacts | libPhonograph/src/main/java/uk/akane/libphonograph/reader/Reader.kt:370-379 | The album list has one album per album id that occurs, each with the facts above. |
| Reader.ArtistsOfFacts | libPhonograph/src/main/java/uk/akane/libphonograph/reader/Reader.kt:374-380 | The artist list has one artist per artist id that occurs, named after its first song. Each artist holds its songs in row order and the albums whose album-artist id is its id, each once. |
| Reader.AlbumsOfArtist | libPhonograph/src/main/java/uk/akane/libphonograph/reader/Reader.kt:369-375 | The pass over the albums adds to an artist exactly the albums, among those visited, whose album-artist id is its id. A pass that visits each album once adds each once. |
| Reader.OwnerAgrees | libPhonograph/src/main/java/uk/akane/libphonograph/reader/Reader.kt:353-355 | The album artist a song is filed under is that of the first song of its album. |
| Reader.RegisteredAlbums | libPhonograph/src/main/java/uk/akane/libphonograph/reader/Reader.kt:381-383 | An album is registered under an album artist exactly when it is that album artist's album. |
| Reader.AlbumArtistKeys | libPhonograph/src/main/java/uk/akane/libphonograph/reader/Reader.kt:381-383 | The album artists are exactly the album artists of the albums. |
| Reader.AlbumArtistOne | libPhonograph/src/main/java/uk/akane/libphonograph/reader/Reader.kt:381-383 | Each album artist has the id the name cache of the platform's branch holds, its name, the songs of its albums in row order, and its albums in the order they were created: the order in which those songs first name them. Each of its albums is listed once. |
| Reader.AlbumArtistsOfFacts | libPhonograph/src/main/java/uk/akane/libphonograph/reader/Reader.kt:381-383 | The album-artist list has one entry per album artist of an album, with the facts above, albums in creation order included. |
| Reader.GenresOfFacts | libPhonograph/src/main/java/uk/akane/libphonograph/reader/Reader.kt:384-385 | The genre list has one genre per genre name that occurs: it holds its songs in row order, with the first song's genre id. The date list has one date per year: it holds its songs, with the year (0 without one) as id. |
| Reader.ArtistSideFacts | libPhonograph/src/main/java/uk/akane/libphonograph/reader/Reader.kt:369-380 | From the artist and album indices, the artist list of the assembled library keeps the artist facts above. |
| Reader.AlbumArtistSideFacts | libPhonograph/src/main/java/uk/akane/libphonograph/reader/Reader.kt:381-383 | From the album-artist map invariant and the name cache, the album-artist list of the assembled library keeps the album-artist facts above, albums in creation order included. |
| Reader.AlbumSideFacts | libPhonograph/src/main/java/uk/akane/libphonograph/reader/Reader.kt:369-383 | From the loop invariant, the album, artist and album-artist lists keep the facts above, including each album artist's albums in creation order. |
| Reader.ListsFactsOf | libPhonograph/src/main/java/uk/akane/libphonograph/reader/Reader.kt:369-385 | From the loop invariant, every derived list keeps the facts above. |
| Reader.FolderFactsOf | libPhonograph/src/main/java/uk/akane/libphonograph/reader/Reader.kt:405 | Both trees hold exactly the kept songs. The folder set is the kept songs' folders together with every blacklisted folder. |
| Reader.RecentFactsOf | libPhonograph/src/main/java/uk/akane/libphonograph/reader/Reader.kt:395-403 | The recently-added queue, when built, holds the kept songs that have an add date. |
| Reader.AssembledFacts | libPhonograph/src/main/java/uk/akane/libphonograph/reader/Reader.kt:369-418 | From the loop invariant, the assembled result keeps the list, folder and recently-added facts. |
| Reader.FinishFacts | libPhonograph/src/main/java/uk/akane/libphonograph/reader/Reader.kt:369-418 | After a successful loop, the finished library keeps every list, folder and recently-added fact. |
| Reader.ReadLibraryOutcome | libPhonograph/src/main/java/uk/akane/libphonograph/reader/Reader.kt:243-391 | The read fails exactly when some row fails, or playlists are fetched and one names an id that no parsed row has. |
| Reader.Resolved | libPhonograph/src/main/java/uk/akane/libphonograph/reader/Reader.kt:389-390 | Each member of a resolved playlist is the last parsed row with the member's id. |
| Reader.ReadLibraryPlaylists | libPhonograph/src/main/java/uk/akane/libphonograph/reader/Reader.kt:386-393 | A successful read has no playlists unless they are fetched. Otherwise it has one playlist per stored one, in order, with its id and name. Each has one song per stored id: the last parsed row with that id. |
| Reader.ReadLibraryContents | libPhonograph/src/main/java/uk/akane/libphonograph/reader/Reader.kt:243-418 | A successful read lists exactly the kept rows' songs, in row order. Every album, artist, album-artist, genre and date list, both trees, the folder set and the recently-added queue are what those songs determine. |

## Left out

**Platform I/O.** These become model inputs or are dropped:

- Cursor and ContentResolver I/O: the projection and selection strings, the album-artist prefetch query, the playlist queries (Reader.kt:72-200) and `fetchPlaylists` (MiscUtils.kt:102-143). The media rows, the playlist table and the album-artist lookup table are inputs.
- Permission checks and SDK-version guards (Reader.kt:463-480, Extensions.kt:155-185). These are platform queries. Every optional column is an `Option` that may be absent.
- The title collation of the query (Reader.kt:199). Row order is taken as given.
- The date-taken conversion through `Instant` and `ZoneId` (Reader.kt:274-287). It depends on the time zone, and the recording day, month and year are not in the `Song` record.
- `Uri` and `ContentUris` building. Artwork references are tags (`SongArt`, `AlbumArt`, `CoverFile`), not URI strings.
- `java.io.File` path normalisation. A parent folder is the text before the last `/`. `absolutePath` and `parentFile` do not collapse `//` or resolve relative paths here.
- The clock (`System.currentTimeMillis`) and the folder lister (`listFiles`). They are the parameters `nowMillis` and `listDir`.
- Exceptions thrown inside the cover scan loop. Only the listing itself can fail, and the loop body calls nothing that throws.
- The poll order of the priority queue among entries with equal dates. The heap leaves it unspecified, so the model takes it as a parameter: any arrangement of the queue whose dates never increase.

**Representation choices:**

- Hash-map iteration order. The album, artist, album-artist, genre and date lists are maps keyed like the source's hash maps. An album artist's album list does not depend on it: albums are added as they are created (Reader.kt:350-351), and the model keeps that order. An artist's album list does: it is filled by a pass over the album hash map (Reader.kt:369-375). The model makes that pass in order of first appearance of the album keys.
- The platform version. Only its one use in the core, the branch of `putIfAbsentSupport`, is modelled, as the flag `Config.sdkN`, fixed for a whole read; it is not a field of `ReaderConfiguration`.
- `Reader.RecentlyAddedOf`: the recently-added queue is kept in its own field of the result, not appended to the end of the playlist list.
- The date bucket's title (`year.toString()`). The bucket keeps the year itself.
- `hashCode` of `Playlist` and `RecentlyAdded`. Equality is modelled (`Playlists.PlaylistEquals`, `RecentlyAdded.SameListSameView`); integer hashing is not.
- 64-bit arithmetic in the reader. `itemLengthLimiter * 1000`, the add dates and the cutoff `now / 1000 - window` are unbounded integers, so a `Long` overflow is not modelled.

**Not modelled:**

- The coroutine and flow layers: `FlowReader`, the flow helpers of Extensions.kt, `callbackFlow` and `rawSongsFlow` in Library.kt. Their point is concurrency. Only the combine step of `songsFilteredFlow` is modelled (`LibraryFilter.FilteredSongs`).
- `SimpleReader`, `ItemManipulator`, the demo application's UI, and the configuration defaults of `ReaderConfiguration`. These are glue, platform calls and configuration. The demo's extras encoder is modelled as the partner of the accessors.
- The CD track number round trip. It is written as an Int and read as a String, so `MediaItemExtras.EncodeDecode` proves that it never reads back.

**Weaker contracts:**

- LibraryFilter.ApplyFilters: filters with the threshold computed without 32-bit wrap-around. The written predicate, which wraps, is `LibraryFilter.KeepAsWritten`, and the two differ only for minimum lengths above 2147483 seconds (see Findings).
- Reader.ArtistsOfFacts: states which albums an artist lists, each once, and not their order. The source's order is the album hash map's iteration order, which it does not specify; the model's order of first appearance is one possible order.
- RecentlyAdded.FilterList: on a list with undated songs it promises only that the view is a prefix. An undated song compares as -1 and can end up on either side, as `RecentlyAdded.UndatedKept` shows.
- Reader.FinishAlbum: its own contract states only what finishing keeps. The album-artist id and the cover are stated against the kept songs by `Reader.AlbumFactsOne` and `Reader.CoverFactsOne`.

## Findings

| source | as written | input that shows it | evidently intended | confidence | as-written member | corrected member |
|---|---|---|---|---|---|---|
| libPhonograph/src/main/java/uk/akane/libphonograph/constructor/FolderStructureConstructor.kt:53-55 | The entry appended to `folderArray` for a new shallow folder is the first (file name length + 1) characters of the path. | `/music/a/1.mp3` records `/music`. | The folder's path `/music/a`, which the comment "cut off /" suggests. | not executed; medium. `folderArray` is local to the read and never returned, so no result depends on it; the modelled read uses the function as written, as Reader.kt:364 does. | FolderTree.FolderArrayEntryWrong | FolderTree.HandleShallowWithArray |
| libPhonograph/src/main/java/uk/akane/libphonograph/flow/Library.kt:74-75 | The minimum-length threshold `filter.first * 1000` is a 32-bit `Int` product. | A minimum of 2147484 seconds wraps to -2147483296 ms, so a one-second song is kept. | The threshold computed without wrap-around, as the reader computes its own with a `Long` (Reader.kt:248). | not executed; low. Only minimum lengths above about 24.8 days are affected. | LibraryFilter.OverflowKeepsShortSong | ReaderRow.KeepIsNotSkip |
