/**
 The older `command` package's minor-bump command (command/up.go): its
 own copy of the version value (`Versioning`), parser, renderer and minor
 increment, and a fixed read-modify-write of the version file.

 The copy shares Go's `strings` and `strconv` functions with version.go,
 so the same trim, split and Atoi behaviour appears here; the lemmas at
 the end prove the two copies agree, and that the legacy command is the
 newer `minor` command without an explicit version and without a dry run.
 */
module LegacyUp {
  import opened Outcomes
  import opened GoStrings
  import opened GoStrconv
  import V = Versions
  import B = Bump

  datatype Versioning = Versioning(major: int, minor: int, patch: int)

  /**
   toVersioning, after trimming and splitting on dots: Atoi on segments 0,
   1 and 2 in that order; indexing a missing segment (the second or third)
   panics.
   */
  function FromSegments(versions: seq<string>): (r: Result<Versioning>)
    requires |versions| >= 1
    ensures r.Ok? <==> |versions| >= 3 && Atoi(versions[0]).Ok? && Atoi(versions[1]).Ok? && Atoi(versions[2]).Ok?
    ensures r.Err? ==> r.error.SyntaxError?
  {
    var x :- Atoi(versions[0]);
    var y :- if 1 < |versions| then Atoi(versions[1]) else Panic(1, |versions|);
    var z :- if 2 < |versions| then Atoi(versions[2]) else Panic(2, |versions|);
    Ok(Versioning(x, y, z))
  }

  /** toVersioning: succeeds exactly when the first three trimmed, dot-separated segments are decimal integers. */
  function ToVersioning(text: string): (r: Result<Versioning>)
    ensures var s := Split(TrimSpace(text), '.');
      r.Ok? <==> |s| >= 3 && IsDecimal(s[0]) && IsDecimal(s[1]) && IsDecimal(s[2])
    ensures var s := Split(TrimSpace(text), '.');
      r.Ok? ==> r.value == Versioning(Atoi(s[0]).value, Atoi(s[1]).value, Atoi(s[2]).value)
    ensures r.Err? ==> r.error.SyntaxError?
  {
    FromSegments(Split(TrimSpace(text), '.'))
  }

  /** Versioning.string: `%d.%d.%d`, the three numerals and nothing else between the dots. */
  function Render(v: Versioning): (r: string)
    ensures Split(r, '.') == [FormatInt(v.major), FormatInt(v.minor), FormatInt(v.patch)]
    ensures Trimmed(r)
  {
    assert FormatInt(v.major) + "." + FormatInt(v.minor) + "." + FormatInt(v.patch) == V.Render(AsVersion(v));
    FormatInt(v.major) + "." + FormatInt(v.minor) + "." + FormatInt(v.patch)
  }

  /** Versioning.upMinor */
  function UpMinor(v: Versioning): (w: Versioning)
    ensures w.major == v.major && w.minor == v.minor + 1 && w.patch == 0
  {
    Versioning(v.major, v.minor + 1, 0)
  }

  /** The same three fields seen as the newer package's Version. */
  function AsVersion(v: Versioning): (w: V.Version)
    ensures w.major == v.major && w.minor == v.minor && w.patch == v.patch
  {
    V.Version(v.major, v.minor, v.patch)
  }

  /** UpCommand.Run: read, parse, bump the minor component, rewrite the file, print. */
  function Run(file: File): (r: Result<Effect>)
    ensures r.Ok? <==> file.Some? && ToVersioning(file.value).Ok?
    ensures file.None? ==> r == Err(NotFound)
    ensures r.Ok? ==> r.value.file == Some(r.value.stdout)
    ensures r.Ok? ==>
      r.value.stdout == Render(UpMinor(ToVersioning(file.value).value)) + "\n"
  {
    var content :- match file
      case None => Err(NotFound)
      case Some(s) => Ok(s);
    var versioning :- ToVersioning(content);
    var bumped := UpMinor(versioning);
    Ok(Effect(Some(Render(bumped) + "\n"), Render(bumped) + "\n"))
  }

  /** Segment by segment, the legacy reader returns what version.go's reader returns. */
  lemma FromSegmentsAgrees(versions: seq<string>)
    requires |versions| >= 1
    ensures FromSegments(versions).Ok? <==> V.ParseSegments(versions).Ok?
    ensures FromSegments(versions).Ok? ==> AsVersion(FromSegments(versions).value) == V.ParseSegments(versions).value
    ensures !FromSegments(versions).Ok? ==> FromSegments(versions) == V.ParseSegments(versions).PropagateFailure()
  {
    var x := Atoi(versions[0]);
    if !x.Ok? {
      assert FromSegments(versions) == x.PropagateFailure();
      assert V.ParseSegments(versions) == x.PropagateFailure();
      return;
    }
    var y := V.Segment(versions, 1);
    if !y.Ok? {
      assert FromSegments(versions) == y.PropagateFailure();
      assert V.ParseSegments(versions) == y.PropagateFailure();
      return;
    }
    var z := V.Segment(versions, 2);
    if !z.Ok? {
      assert FromSegments(versions) == z.PropagateFailure();
      assert V.ParseSegments(versions) == z.PropagateFailure();
      return;
    }
  }

  /** The legacy parser returns what version.go's parser returns, field for field and error for error. */
  lemma ParseAgrees(text: string)
    ensures ToVersioning(text).Ok? <==> V.Parse(text).Ok?
    ensures ToVersioning(text).Ok? ==> AsVersion(ToVersioning(text).value) == V.Parse(text).value
    ensures !ToVersioning(text).Ok? ==> ToVersioning(text) == V.Parse(text).PropagateFailure()
  {
    FromSegmentsAgrees(V.Segments(text));
  }

  /** Both renderers print the same text for the same fields. */
  lemma RenderAgrees(v: Versioning)
    ensures Render(v) == V.Render(AsVersion(v))
  {
  }

  /** Both minor rules agree. */
  lemma UpMinorAgrees(v: Versioning)
    ensures V.Up(AsVersion(v), V.MINOR) == Ok(AsVersion(UpMinor(v)))
  {
  }

  /** The legacy parser and renderer round-trip, as version.go's do. */
  lemma {:induction false} ParseRender(v: Versioning)
    ensures ToVersioning(Render(v)) == Ok(v)
  {
    RenderAgrees(v);
    V.ParseRender(AsVersion(v));
    ParseAgrees(Render(v));
  }

  /**
   The legacy command is the newer `minor` command run without an explicit
   version and without a dry run: same failures, same file, same output.
   */
  lemma {:induction false} RunIsMinorBump(file: File, prefix: string)
    ensures Run(file) == B.Run([], B.Config(V.MINOR, false, prefix), file)
  {
    var newer := B.Run([], B.Config(V.MINOR, false, prefix), file);
    assert B.Start([], file) == V.Read(file);
    if file.Some? {
      ParseAgrees(file.value);
      if ToVersioning(file.value).Ok? {
        var v := ToVersioning(file.value).value;
        RenderAgrees(UpMinor(v));
        UpMinorAgrees(v);
        assert newer.value.stdout == Render(UpMinor(v)) + "\n";
      }
    }
  }

  /** A successful legacy run leaves a file that parses back to the bumped version. */
  lemma RunRereads(file: File)
    requires Run(file).Ok?
    ensures ToVersioning(Run(file).value.file.value).Ok?
    ensures ToVersioning(Run(file).value.file.value).value == UpMinor(ToVersioning(file.value).value)
  {
    var w := UpMinor(ToVersioning(file.value).value);
    ParseRender(w);
    var text := Render(w) + "\n";
    V.ParseRenderedLine(AsVersion(w));
    RenderAgrees(w);
    ParseAgrees(text);
  }
}
