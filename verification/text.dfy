/** String helpers with the semantics of the Kotlin and java.io calls the
    library uses: `split`, `startsWith`, `contains`, `lastIndexOf`,
    `File.parentFile`. Strings are `seq<char>`; every comparison is exact
    (case-sensitive), as in the source. */
module Text {
  import opened Wrappers

  /** `parts` joined with `sep` between consecutive parts. */
  function Join(parts: seq<string>, sep: char): string
    requires |parts| >= 1
  {
    if |parts| == 1 then parts[0] else parts[0] + [sep] + Join(parts[1..], sep)
  }

  /** Kotlin's `s.split(sep)`: every piece between separators, empty pieces
      included (also leading and trailing ones), so there is always at least
      one piece and joining the pieces gives back `s`. */
  function Split(s: string, sep: char): (parts: seq<string>)
    ensures |parts| >= 1
    ensures forall i :: 0 <= i < |parts| ==> sep !in parts[i]
    ensures Join(parts, sep) == s
    ensures |parts| == 1 <==> sep !in s
  {
    if |s| == 0 then [""]
    else
      var rest := Split(s[1..], sep);
      if s[0] == sep then
        assert s == [] + [sep] + Join(rest, sep);
        [""] + rest
      else
        assert s == [s[0]] + Join(rest, sep);
        [[s[0]] + rest[0]] + rest[1..]
  }

  /** Splitting a join of separator-free pieces gives the pieces back: the
      other half of the round trip. */
  lemma {:induction false} SplitJoin(parts: seq<string>, sep: char)
    requires |parts| >= 1
    requires forall i :: 0 <= i < |parts| ==> sep !in parts[i]
    ensures Split(Join(parts, sep), sep) == parts
  {
    var s := Join(parts, sep);
    var r := Split(s, sep);
    if |parts| == 1 {
      assert sep !in s;
      assert |r| == 1;
    } else {
      SplitJoin(parts[1..], sep);
      SplitPrefix(parts[0], Join(parts[1..], sep), sep);
    }
  }

  /** Splitting `w + [sep] + t` for a separator-free `w` puts `w` first. */
  lemma {:induction false} SplitPrefix(w: string, t: string, sep: char)
    requires sep !in w
    ensures Split(w + [sep] + t, sep) == [w] + Split(t, sep)
    decreases |w|
  {
    var s := w + [sep] + t;
    if |w| == 0 {
      assert s[0] == sep && s[1..] == t;
    } else {
      assert s[0] == w[0] && s[0] != sep;
      assert s[1..] == w[1..] + [sep] + t;
      SplitPrefix(w[1..], t, sep);
      var rest := Split(s[1..], sep);
      assert rest == [w[1..]] + Split(t, sep);
      assert Split(s, sep) == [[s[0]] + rest[0]] + rest[1..];
      assert [w[0]] + w[1..] == w;
    }
  }

  /** The index of the last occurrence of `c` in `s`, if any. */
  function LastIndexOf(s: string, c: char): (r: Option<nat>)
    ensures r.None? <==> c !in s
    ensures r.Some? ==> r.value < |s| && s[r.value] == c && c !in s[r.value + 1..]
  {
    if |s| == 0 then None
    else if s[|s| - 1] == c then Some(|s| - 1)
    else
      var r := LastIndexOf(s[..|s| - 1], c);
      assert s == s[..|s| - 1] + [s[|s| - 1]];
      r
  }

  /** Kotlin's `s.startsWith(p)`. */
  predicate StartsWith(s: string, p: string) {
    |p| <= |s| && s[..|p|] == p
  }

  /** Kotlin's `s.contains(p)`: `p` occurs at some position of `s`. */
  predicate Contains(s: string, p: string)
    decreases |s|
  {
    StartsWith(s, p) || (|s| > 0 && Contains(s[1..], p))
  }

  /** `s.endsWith(c)`. */
  predicate EndsWithChar(s: string, c: char) {
    |s| > 0 && s[|s| - 1] == c
  }

  /** java.io.File's `parent` for `path` as written: the text before the last
      `/`, except that the parent of a single-level absolute path `/x` is `/`;
      absent when the path has no `/` or is `/` itself. */
  function FileParent(path: string): (r: Option<string>)
    ensures r.None? <==> ('/' !in path || path == "/")
    ensures r.Some? && r.value != "/" ==>
              exists name :: path == r.value + "/" + name && '/' !in name
  {
    var prefix := if |path| > 0 && path[0] == '/' then 1 else 0;
    match LastIndexOf(path, '/')
    case None => None
    case Some(i) =>
      if i < prefix then
        (if |path| > prefix then Some(path[..prefix]) else None)
      else
        assert path == path[..i] + "/" + path[i + 1..];
        Some(path[..i])
  }
}
