/**
 The X.Y.Z version value of the `bump` package (version.go): parsing it
 from text, rendering it with `%d.%d.%d`, the three increment rules, and
 reading and writing it through the version file.

 The parser is looser than a strict X.Y.Z reader: every segment goes
 through strconv.Atoi, so a sign and leading zeros are accepted; segments
 after the third are never looked at; and text with fewer than three
 segments, all of which pass Atoi, makes the Go code index past the end of
 the split result, which is a panic rather than a returned error.
 */
module Versions {
  import opened Outcomes
  import opened GoStrings
  import opened GoStrconv

  /** The increment kind is a plain integer in the source, so values other than the three are representable. */
  type VersionType = int

  const MAJOR: VersionType := 1
  const MINOR: VersionType := 2
  const PATCH: VersionType := 3

  predicate IsValidType(t: VersionType) {
    t == MAJOR || t == MINOR || t == PATCH
  }

  datatype Version = Version(major: int, minor: int, patch: int)

  /** Strict lexicographic order on (major, minor, patch). */
  predicate Less(a: Version, b: Version) {
    || a.major < b.major
    || (a.major == b.major && a.minor < b.minor)
    || (a.major == b.major && a.minor == b.minor && a.patch < b.patch)
  }

  predicate LessOrEqual(a: Version, b: Version) {
    a == b || Less(a, b)
  }

  /** The dot-separated segments that parsing looks at. */
  function Segments(text: string): (r: seq<string>)
    ensures |r| >= 1
  {
    Split(TrimSpace(text), '.')
  }

  /** `strconv.Atoi(versions[i])`: indexing past the end panics before Atoi runs. */
  function Segment(segments: seq<string>, i: nat): (r: Result<int>)
    ensures i < |segments| ==> r == Atoi(segments[i])
    ensures i >= |segments| ==> r == Panic(i, |segments|)
  {
    if i < |segments| then Atoi(segments[i]) else Panic(i, |segments|)
  }

  /** Segment `i`, one of the first three, is the first that is not a decimal integer. */
  predicate FirstNonDecimal(segments: seq<string>, i: nat) {
    i < 3 && i < |segments| && !IsDecimal(segments[i]) && forall j :: 0 <= j < i ==> IsDecimal(segments[j])
  }

  /** Lines 70-85 of toVersion: Atoi on the first three segments, in order. */
  function ParseSegments(segments: seq<string>): (r: Result<Version>)
    ensures r.Ok? <==> |segments| >= 3 && forall i :: 0 <= i < 3 ==> Atoi(segments[i]).Ok?
    ensures r.Ok? ==>
      r.value == Version(Atoi(segments[0]).value, Atoi(segments[1]).value, Atoi(segments[2]).value)
    ensures r.Err? <==> exists i :: 0 <= i < 3 && i < |segments| && !Atoi(segments[i]).Ok?
    ensures r.Err? ==> r.error.SyntaxError?
    ensures r.Err? ==> exists i: nat :: FirstNonDecimal(segments, i) && r.error == SyntaxError(segments[i])
    ensures r.Panic? ==> r.index == |segments| < 3
  {
    var x :- Segment(segments, 0);
    var y :- Segment(segments, 1);
    var z :- Segment(segments, 2);
    Ok(Version(x, y, z))
  }

  /**
   toVersion: trim, split on dots, then read the first three segments. It
   succeeds exactly when the first three segments are decimal integers; the
   first segment that is not is the one the syntax error carries; and with
   fewer than three segments, all decimal, it panics.
   */
  function Parse(text: string): (r: Result<Version>)
    ensures var s := Segments(text);
      r.Ok? <==> |s| >= 3 && IsDecimal(s[0]) && IsDecimal(s[1]) && IsDecimal(s[2])
    ensures var s := Segments(text);
      r.Ok? ==> r.value == Version(Atoi(s[0]).value, Atoi(s[1]).value, Atoi(s[2]).value)
    ensures var s := Segments(text);
      r.Err? ==> exists i: nat :: FirstNonDecimal(s, i) && r.error == SyntaxError(s[i])
    ensures var s := Segments(text);
      r.Panic? <==> |s| < 3 && forall i :: 0 <= i < |s| ==> IsDecimal(s[i])
    ensures r.Panic? ==> r.index == |Segments(text)|
  {
    var s := Segments(text);
    ParseSegmentsByGrammar(s);
    ParseSegments(s)
  }

  /** ParseSegments in terms of the Atoi grammar rather than Atoi's results. */
  lemma ParseSegmentsByGrammar(s: seq<string>)
    ensures ParseSegments(s).Ok? <==> |s| >= 3 && IsDecimal(s[0]) && IsDecimal(s[1]) && IsDecimal(s[2])
    ensures ParseSegments(s).Panic? <==> |s| < 3 && forall i :: 0 <= i < |s| ==> IsDecimal(s[i])
  {
    var r := ParseSegments(s);
    if r.Panic? {
      forall i | 0 <= i < |s| ensures IsDecimal(s[i]) {
        assert Atoi(s[i]).Ok?;
      }
    }
  }

  /** Version.string: `%d.%d.%d`. */
  function Render(v: Version): (r: string)
    ensures Split(r, '.') == [FormatInt(v.major), FormatInt(v.minor), FormatInt(v.patch)]
    ensures Trimmed(r)
  {
    var a, b, c := FormatInt(v.major), FormatInt(v.minor), FormatInt(v.patch);
    NoDot(v.major);
    NoDot(v.minor);
    NoDot(v.patch);
    SplitThree(a, b, c, '.');
    var r := a + "." + b + "." + c;
    assert r[0] == a[0] && r[|r| - 1] == c[|c| - 1];
    r
  }

  lemma NoDot(n: int)
    ensures '.' !in FormatInt(n)
  {
    var r := FormatInt(n);
    assert forall i :: 0 <= i < |r| ==> r[i] != '.';
  }

  /** Rendering and parsing back gives exactly the same three fields. */
  lemma {:induction false} ParseRender(v: Version)
    ensures Parse(Render(v)) == Ok(v)
  {
    var r := Render(v);
    var s := [FormatInt(v.major), FormatInt(v.minor), FormatInt(v.patch)];
    assert Segments(r) == s by {
      TrimSpaceFixedPoint(r);
    }
    assert ParseSegments(s) == Ok(v) by {
      ParseNumerals(v);
    }
  }

  /** The three `%d` numerals of a version read back as its fields. */
  lemma ParseNumerals(v: Version)
    ensures ParseSegments([FormatInt(v.major), FormatInt(v.minor), FormatInt(v.patch)]) == Ok(v)
  {
    var s := [FormatInt(v.major), FormatInt(v.minor), FormatInt(v.patch)];
    assert Atoi(s[0]) == Ok(v.major) && Atoi(s[1]) == Ok(v.minor) && Atoi(s[2]) == Ok(v.patch);
  }

  /** Whitespace around the text is ignored, so a trailing newline is harmless. */
  lemma ParseIgnoresSurroundingSpace(w1: string, s: string, w2: string)
    requires AllSpace(w1) && AllSpace(w2)
    ensures Parse(w1 + s + w2) == Parse(s)
  {
    TrimSpaceSurrounding(w1, s, w2);
  }

  /** Only the first three segments decide the outcome. */
  lemma ParseSegmentsIgnoresTail(segments: seq<string>, more: seq<string>)
    requires |segments| >= 3
    ensures ParseSegments(segments + more) == ParseSegments(segments)
  {
    var all := segments + more;
    assert all[0] == segments[0] && all[1] == segments[1] && all[2] == segments[2];
  }

  /** Once three segments are present, nothing after a further dot is inspected. */
  lemma ParseIgnoresExtraSegments(s: string, t: string)
    requires Trimmed(s) && |Split(s, '.')| >= 3
    ensures Parse(s + "." + t) == Parse(s)
  {
    TrimSpaceAfterDot(s, t);
    SplitAppend(s, TrimRight(t), '.');
    TrimSpaceFixedPoint(s);
    ParseSegmentsIgnoresTail(Split(s, '.'), Split(TrimRight(t), '.'));
  }

  lemma TrimSpaceAfterDot(s: string, t: string)
    requires Trimmed(s) && |s| > 0
    ensures TrimSpace(s + "." + t) == s + "." + TrimRight(t)
  {
    var text := s + "." + t;
    assert text[0] == s[0];
    assert TrimLeft(text) == text;
    assert text == (s + ".") + t;
    TrimRightAppend(s + ".", t);
  }

  /** The version file's own content, a rendered version and one newline, reads back. */
  lemma ParseRenderedLine(v: Version)
    ensures Parse(Render(v) + "\n") == Ok(v)
  {
    var r := Render(v);
    TrimSpaceSurrounding("", r, "\n");
    assert "" + r + "\n" == r + "\n";
    assert Segments(r + "\n") == Segments(r);
    ParseRender(v);
  }

  function UpMajor(v: Version): Version {
    Version(v.major + 1, 0, 0)
  }

  function UpMinor(v: Version): Version {
    Version(v.major, v.minor + 1, 0)
  }

  function UpPatch(v: Version): Version {
    Version(v.major, v.minor, v.patch + 1)
  }

  /** Version.up: the increment table, or an error for any other kind. */
  function Up(v: Version, t: VersionType): (r: Result<Version>)
    ensures r.Ok? <==> IsValidType(t)
    ensures !r.Ok? ==> r == Err(InvalidVersionType(t))
    ensures t == MAJOR ==> r == Ok(Version(v.major + 1, 0, 0))
    ensures t == MINOR ==> r == Ok(Version(v.major, v.minor + 1, 0))
    ensures t == PATCH ==> r == Ok(Version(v.major, v.minor, v.patch + 1))
    ensures r.Ok? ==> Less(v, r.value)
  {
    if t == MAJOR then Ok(UpMajor(v))
    else if t == MINOR then Ok(UpMinor(v))
    else if t == PATCH then Ok(UpPatch(v))
    else Err(InvalidVersionType(t))
  }

  predicate NonNegative(v: Version) {
    v.major >= 0 && v.minor >= 0 && v.patch >= 0
  }

  /** `w` changes a component at the level of `t` or above. */
  predicate ChangesAtLevel(v: Version, w: Version, t: VersionType) {
    if t == MAJOR then w.major != v.major
    else if t == MINOR then (w.major, w.minor) != (v.major, v.minor)
    else w != v
  }

  /**
   Each increment is the least non-negative version above `v` that changes
   the component it names: nothing smaller would count as that kind of release.
   */
  lemma UpIsLeast(v: Version, t: VersionType, w: Version)
    requires IsValidType(t) && NonNegative(v)
    requires NonNegative(w) && Less(v, w) && ChangesAtLevel(v, w, t)
    ensures Up(v, t).Ok?
    ensures NonNegative(Up(v, t).value) && ChangesAtLevel(v, Up(v, t).value, t)
    ensures LessOrEqual(Up(v, t).value, w)
  {
  }

  /** A more significant increment absorbs a less significant one made before it. */
  lemma UpAbsorbsLowerKinds(v: Version, lower: VersionType, higher: VersionType)
    requires IsValidType(lower) && IsValidType(higher) && higher < lower
    ensures Up(v, lower).Ok?
    ensures Up(Up(v, lower).value, higher) == Up(v, higher)
  {
  }

  /** VersionIO.Read: a missing file is an error; otherwise its content is parsed. */
  function Read(file: File): (r: Result<Version>)
    ensures file.None? ==> r == Err(NotFound)
    ensures file.Some? ==> r == Parse(file.value)
  {
    match file
    case None => Err(NotFound)
    case Some(content) => Parse(content)
  }

  /** VersionIO.Write: the file is replaced by the rendered version and one newline. */
  function Write(v: Version): (f: File)
    ensures f == Some(Render(v) + "\n")
    ensures Read(f) == Ok(v)
  {
    ParseRenderedLine(v);
    Some(Render(v) + "\n")
  }
}
