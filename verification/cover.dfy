/** The album-cover search (`findBestCover` in MiscUtils.kt and the same
    loop inside `albumCoverComparison` in Reader.kt): every file in the
    album's folder whose extension is an allowed image type gets a score,
    the first file with the highest score wins, and it is used only when its
    score reaches 3. All name comparisons are case-sensitive. */
module Cover {
  import opened Wrappers
  import opened Text
  import opened Items

  /** `ALLOWED_EXT` of Constants.kt. */
  const AllowedExt: seq<string> := ["jpg", "png", "jpeg", "bmp", "tiff", "tif", "webp"]

  /** The result of listing a folder: the file names, `null`
      (`listFiles()` returned null), or an exception while listing. */
  datatype DirListing = Files(names: seq<string>) | NoListing | ListingFailed

  /** `File.extension`: the text after the last `.`, or empty. */
  function Extension(name: string): string {
    match LastIndexOf(name, '.')
    case None => ""
    case Some(i) => name[i + 1..]
  }

  /** `File.nameWithoutExtension`: the text before the last `.`, or the
      whole name. */
  function BaseName(name: string): string {
    match LastIndexOf(name, '.')
    case None => name
    case Some(i) => name[..i]
  }

  /** A file name is its base name and its extension around the last `.`;
      without a `.` the extension is empty. */
  lemma NameRoundTrip(name: string)
    ensures '.' in name ==> BaseName(name) + "." + Extension(name) == name
    ensures '.' !in Extension(name)
    ensures '.' !in name ==> BaseName(name) == name && Extension(name) == ""
  {
    match LastIndexOf(name, '.')
    case None =>
    case Some(i) =>
      assert name == name[..i] + "." + name[i + 1..];
  }

  predicate Allowed(name: string) {
    Extension(name) in AllowedExt
  }

  /** The extension bonus: jpg 3, png 2, jpeg 1, the other allowed types 0. */
  function ExtBonus(ext: string): nat {
    if ext == "jpg" then 3 else if ext == "png" then 2 else if ext == "jpeg" then 1 else 0
  }

  /** The name bonus: only the first matching rule counts. */
  function NameBonus(base: string): nat {
    if base == "albumart" then 24
    else if base == "cover" then 20
    else if StartsWith(base, "albumart") then 16
    else if StartsWith(base, "cover") then 12
    else if Contains(base, "albumart") then 8
    else if Contains(base, "cover") then 4
    else 0
  }

  /** The score of one file: 1, plus the extension bonus, plus the name
      bonus. */
  function Score(name: string): (r: nat)
    ensures 1 <= r <= 28
  {
    1 + ExtBonus(Extension(name)) + NameBonus(BaseName(name))
  }

  /** The score of each file as the loop sees it: none for a file whose
      extension is not allowed (it is skipped). */
  function Scores(files: seq<string>): (r: seq<Option<nat>>)
    ensures |r| == |files|
    ensures forall j :: 0 <= j < |files| ==>
              r[j] == if Allowed(files[j]) then Some(Score(files[j])) else None
  {
    seq(|files|, j requires 0 <= j < |files| =>
      if Allowed(files[j]) then Some(Score(files[j])) else None)
  }

  /** `k` is the winner the loop picks: a scored entry with the highest
      score, and no scored entry before it has that score. */
  ghost predicate IsFirstBest(scores: seq<Option<nat>>, k: nat) {
    && k < |scores|
    && scores[k].Some?
    && (forall j :: 0 <= j < |scores| && scores[j].Some? ==> scores[j].value <= scores[k].value)
    && (forall j :: 0 <= j < k && scores[j].Some? ==> scores[j].value < scores[k].value)
  }

  /** The scan loop: `(bestScore, bestFile)` after visiting the files in
      order, starting from `(0, null)`, skipping unscored files and replacing
      the best only on a strictly higher score. Every score is positive, so
      the first scored file always replaces the initial `(0, null)`. */
  function BestOf(scores: seq<Option<nat>>): (r: (nat, Option<nat>))
    requires forall j :: 0 <= j < |scores| && scores[j].Some? ==> scores[j].value > 0
    ensures r.1.None? <==> (forall j :: 0 <= j < |scores| ==> scores[j].None?)
    ensures r.1.None? ==> r.0 == 0
    ensures r.1.Some? ==> IsFirstBest(scores, r.1.value) && r.0 == scores[r.1.value].value
  {
    if |scores| == 0 then (0, None)
    else
      var prev := scores[..|scores| - 1];
      var last := scores[|scores| - 1];
      var (s, b) := BestOf(prev);
      assert forall j :: 0 <= j < |prev| ==> prev[j] == scores[j];
      if last.Some? && s < last.value then (last.value, Some(|scores| - 1))
      else (s, b)
  }

  /** `findBestCover`: the winning file name when the folder could be listed
      and the winner scores at least 3, otherwise null. */
  function FindBestCover(listing: DirListing): (r: Option<string>)
    ensures listing.NoListing? || listing.ListingFailed? ==> r.None?
    ensures r.Some? ==> (listing.Files? &&
      exists k: nat :: IsFirstBest(Scores(listing.names), k) && listing.names[k] == r.value
                       && Score(r.value) >= 3)
    ensures listing.Files? && r.None? ==>
      forall j :: 0 <= j < |listing.names| && Allowed(listing.names[j]) ==> Score(listing.names[j]) < 3
  {
    match listing
    case Files(names) =>
      var (score, best) := BestOf(Scores(names));
      if score >= 3 && best.Some? then Some(names[best.value]) else None
    case NoListing => None
    case ListingFailed => None
  }

  /** Which files can win at all: a jpg or png of any name scores at least
      3, while jpeg, bmp, tiff, tif and webp files need a name match. */
  lemma QualifyingFiles(name: string)
    requires Allowed(name)
    ensures Score(name) >= 3 <==>
      (Extension(name) in ["jpg", "png"] || NameBonus(BaseName(name)) > 0)
  {
  }

  /** A dot with no dot after it is the last dot. */
  lemma LastDotAt(name: string, i: nat)
    requires i < |name| && name[i] == '.' && '.' !in name[i + 1..]
    ensures LastIndexOf(name, '.') == Some(i)
  {
  }

  /** The name rules are case-sensitive: `AlbumArt.jpg` gets no name bonus
      and scores 4. */
  lemma CaseSensitiveNames()
    ensures Score("AlbumArt.jpg") == 4
  {
    var name := "AlbumArt.jpg";
    assert name[9..] == "jpg";
    LastDotAt(name, 8);
    assert name[..8] == "AlbumArt";
    assert NameBonus("AlbumArt") == 0 by {
      NotContainsFirst("AlbumArt", "albumart");
      NotContainsFirst("AlbumArt", "cover");
    }
  }

  /** ... while `albumart.jpg` gets the full name bonus and scores 28. */
  lemma ExactNameScores()
    ensures Score("albumart.jpg") == 28
  {
    var name := "albumart.jpg";
    assert name[9..] == "jpg";
    LastDotAt(name, 8);
    assert name[..8] == "albumart";
  }

  /** A pattern whose first character does not occur in `s` is not
      contained in `s`. */
  lemma {:induction false} NotContainsFirst(s: string, p: string)
    requires |p| > 0 && p[0] !in s
    ensures !Contains(s, p)
    decreases |s|
  {
    if |s| > 0 {
      assert !StartsWith(s, p) by {
        if |p| <= |s| { assert s[..|p|][0] == s[0]; }
      }
      NotContainsFirst(s[1..], p);
    }
  }

  /** `albumCoverComparison` of Reader.kt: the cover search runs only when
      the album's first folder still holds that album alone (the node's
      album id equals the album's id); a qualifying file then replaces the
      album's cover, and nothing else about the album changes. */
  function AlbumCoverComparison(nodeAlbumId: Option<int>, album: Album, dir: string,
                                listing: DirListing): (r: Album)
    ensures r.(cover := album.cover) == album
    ensures nodeAlbumId != album.id ==> r == album
    ensures r.cover != album.cover ==>
      nodeAlbumId == album.id && FindBestCover(listing).Some?
      && r.cover == Some(CoverFile(dir, FindBestCover(listing).value))
    ensures nodeAlbumId == album.id && FindBestCover(listing).Some? ==>
      r.cover == Some(CoverFile(dir, FindBestCover(listing).value))
  {
    if nodeAlbumId == album.id then
      match FindBestCover(listing)
      case Some(f) => album.(cover := Some(CoverFile(dir, f)))
      case None => album
    else album
  }
}
