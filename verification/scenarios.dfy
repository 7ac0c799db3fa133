/**
 The expected values of the repository's tests, and the parser's edge
 cases, as facts about the model. Each command sequence threads the file
 left by one command into the next, as the tests share one file on disk.
 */
module Scenarios {
  import opened Outcomes
  import opened GoStrings
  import opened GoStrconv
  import opened Versions
  import opened Bump

  /** version_test.go, the PATCH rows, printed through `%d.%d.%d`. */
  lemma VersionUpPatchRows()
    ensures Render(Up(Version(0, 0, 0), PATCH).value) == "0.0.1"
    ensures Render(Up(Version(0, 1, 9), PATCH).value) == "0.1.10"
    ensures Render(Up(Version(1, 0, 10), PATCH).value) == "1.0.11"
  {
    assert Up(Version(0, 0, 0), PATCH).value == Version(0, 0, 1);
    assert Up(Version(0, 1, 9), PATCH).value == Version(0, 1, 10);
    assert Up(Version(1, 0, 10), PATCH).value == Version(1, 0, 11);
  }

  /** version_test.go, the MINOR rows. */
  lemma VersionUpMinorRows()
    ensures Render(Up(Version(0, 0, 0), MINOR).value) == "0.1.0"
    ensures Render(Up(Version(0, 9, 2), MINOR).value) == "0.10.0"
    ensures Render(Up(Version(1, 10, 0), MINOR).value) == "1.11.0"
  {
    assert Up(Version(0, 0, 0), MINOR).value == Version(0, 1, 0);
    assert Up(Version(0, 9, 2), MINOR).value == Version(0, 10, 0);
    assert Up(Version(1, 10, 0), MINOR).value == Version(1, 11, 0);
  }

  /** version_test.go, the MAJOR rows. */
  lemma VersionUpMajorRows()
    ensures Render(Up(Version(0, 0, 0), MAJOR).value) == "1.0.0"
    ensures Render(Up(Version(9, 9, 2), MAJOR).value) == "10.0.0"
    ensures Render(Up(Version(10, 10, 0), MAJOR).value) == "11.0.0"
  {
    assert Up(Version(0, 0, 0), MAJOR).value == Version(1, 0, 0);
    assert Up(Version(9, 9, 2), MAJOR).value == Version(10, 0, 0);
    assert Up(Version(10, 10, 0), MAJOR).value == Version(11, 0, 0);
  }

  /** The kind values outside the three, including the zero value, are rejected. */
  lemma InvalidKinds(v: Version)
    ensures Up(v, 0) == Err(InvalidVersionType(0))
    ensures Up(v, 4) == Err(InvalidVersionType(4))
    ensures Up(v, -1) == Err(InvalidVersionType(-1))
  {
  }

  /** A bump from an explicit, non-negative version given as its rendering. */
  lemma ExplicitBump(args: seq<string>, cfg: Config, file: File, v: Version, w: Version)
    requires |args| > 0 && args[0] == Render(v) && v.major >= 0
    requires Up(v, cfg.versionType) == Ok(w)
    ensures Run(args, cfg, file) ==
      Ok(Effect(if cfg.dryRun then file else Some(Render(w) + "\n"), Render(w) + "\n"))
  {
    ParseRender(v);
    var a := FormatInt(v.major);
    assert |a| > 0 && a[0] != '-';
    assert Render(v)[0] == a[0];
    assert ParseVersionFromArgs(args);
  }

  /** A bump from a file holding a rendered version and a newline. */
  lemma FileBump(args: seq<string>, cfg: Config, v: Version, w: Version)
    requires !ParseVersionFromArgs(args)
    requires Up(v, cfg.versionType) == Ok(w)
    ensures var file := Some(Render(v) + "\n");
      Run(args, cfg, file) ==
      Ok(Effect(if cfg.dryRun then file else Some(Render(w) + "\n"), Render(w) + "\n"))
  {
    ParseRenderedLine(v);
  }

  /** bump_test.go, first case: an explicit 0.1.0 bumped to 0.2.0 and written. */
  lemma BumpExplicit(file0: File)
    ensures Run(["0.1.0"], Config(MINOR, false, ""), file0) == Ok(Effect(Some("0.2.0\n"), "0.2.0\n"))
  {
    assert "0.1.0" == Render(Version(0, 1, 0));
    assert "0.2.0\n" == Render(Version(0, 2, 0)) + "\n";
    ExplicitBump(["0.1.0"], Config(MINOR, false, ""), file0, Version(0, 1, 0), Version(0, 2, 0));
  }

  /** bump_test.go, second case: the file's 0.2.0 bumped to 0.3.0 and written. */
  lemma BumpFromFile()
    ensures Run([], Config(MINOR, false, ""), Some("0.2.0\n")) == Ok(Effect(Some("0.3.0\n"), "0.3.0\n"))
  {
    assert "0.2.0\n" == Render(Version(0, 2, 0)) + "\n";
    assert "0.3.0\n" == Render(Version(0, 3, 0)) + "\n";
    FileBump([], Config(MINOR, false, ""), Version(0, 2, 0), Version(0, 3, 0));
  }

  /** bump_test.go, third case: a dry run from the file prints 0.4.0 and keeps 0.3.0. */
  lemma BumpFromFileDryRun()
    ensures Run(["--dry-run"], Config(MINOR, true, ""), Some("0.3.0\n")) == Ok(Effect(Some("0.3.0\n"), "0.4.0\n"))
  {
    assert "0.3.0\n" == Render(Version(0, 3, 0)) + "\n";
    assert "0.4.0\n" == Render(Version(0, 4, 0)) + "\n";
    assert "--dry-run"[0] == '-';
    FileBump(["--dry-run"], Config(MINOR, true, ""), Version(0, 3, 0), Version(0, 4, 0));
  }

  /** bump_test.go, fourth case: a dry run from an explicit 0.1.0 prints 0.2.0 and keeps the file. */
  lemma BumpExplicitDryRun()
    ensures Run(["0.1.0", "--dry-run"], Config(MINOR, true, ""), Some("0.3.0\n")) == Ok(Effect(Some("0.3.0\n"), "0.2.0\n"))
  {
    assert "0.1.0" == Render(Version(0, 1, 0));
    assert "0.2.0\n" == Render(Version(0, 2, 0)) + "\n";
    ExplicitBump(["0.1.0", "--dry-run"], Config(MINOR, true, ""), Some("0.3.0\n"), Version(0, 1, 0), Version(0, 2, 0));
  }

  /** cli_test.go: `init` without a version writes and prints 0.1.0. */
  lemma InitDefault(file0: File)
    ensures Init([], file0) == Ok(Effect(Some("0.1.0\n"), "0.1.0\n"))
  {
  }

  /** cli_test.go: after `init`, `patch` leaves 0.1.1. */
  lemma PatchAfterInit()
    ensures Run([], Config(PATCH, false, ""), Some("0.1.0\n")) == Ok(Effect(Some("0.1.1\n"), "0.1.1\n"))
  {
    assert "0.1.0\n" == Render(Version(0, 1, 0)) + "\n";
    assert "0.1.1\n" == Render(Version(0, 1, 1)) + "\n";
    FileBump([], Config(PATCH, false, ""), Version(0, 1, 0), Version(0, 1, 1));
  }

  /** cli_test.go: then `minor` leaves 0.2.0. */
  lemma MinorAfterPatch()
    ensures Run([], Config(MINOR, false, ""), Some("0.1.1\n")) == Ok(Effect(Some("0.2.0\n"), "0.2.0\n"))
  {
    assert "0.1.1\n" == Render(Version(0, 1, 1)) + "\n";
    assert "0.2.0\n" == Render(Version(0, 2, 0)) + "\n";
    FileBump([], Config(MINOR, false, ""), Version(0, 1, 1), Version(0, 2, 0));
  }

  /** cli_test.go: then `major` leaves 1.0.0. */
  lemma MajorAfterMinor()
    ensures Run([], Config(MAJOR, false, ""), Some("0.2.0\n")) == Ok(Effect(Some("1.0.0\n"), "1.0.0\n"))
  {
    assert "0.2.0\n" == Render(Version(0, 2, 0)) + "\n";
    assert "1.0.0\n" == Render(Version(1, 0, 0)) + "\n";
    FileBump([], Config(MAJOR, false, ""), Version(0, 2, 0), Version(1, 0, 0));
  }

  /** `init` with a valid explicit version writes and prints that version's rendering. */
  lemma InitParsed(text: string, file: File, v: Version)
    requires ParseVersionFromArgs([text]) && Parse(text) == Ok(v)
    ensures Init([text], file) == Ok(Effect(Some(Render(v) + "\n"), Render(v) + "\n"))
  {
  }

  /** `init` with a rendered version writes and prints that rendering. */
  lemma InitRendered(v: Version, file: File)
    requires v.major >= 0
    ensures Init([Render(v)], file) == Ok(Effect(Some(Render(v) + "\n"), Render(v) + "\n"))
  {
    ParseRender(v);
    var a := FormatInt(v.major);
    assert |a| > 0 && a[0] != '-';
    assert Render(v)[0] == a[0];
    InitParsed(Render(v), file, v);
  }


  /** cli_test.go: `init 1.2.3` writes and prints 1.2.3. */
  lemma InitExplicit(file0: File)
    ensures Init(["1.2.3"], file0) == Ok(Effect(Some("1.2.3\n"), "1.2.3\n"))
  {
    assert "1.2.3" == Render(Version(1, 2, 3));
    assert "1.2.3\n" == Render(Version(1, 2, 3)) + "\n";
    InitRendered(Version(1, 2, 3), file0);
  }

  /** cli_test.go: `patch 1.2.3` prints 1.2.4. */
  lemma ExplicitPatch(file0: File)
    ensures Run(["1.2.3"], Config(PATCH, false, ""), file0) == Ok(Effect(Some("1.2.4\n"), "1.2.4\n"))
  {
    assert "1.2.3" == Render(Version(1, 2, 3));
    assert "1.2.4\n" == Render(Version(1, 2, 4)) + "\n";
    ExplicitBump(["1.2.3"], Config(PATCH, false, ""), file0, Version(1, 2, 3), Version(1, 2, 4));
  }

  /** cli_test.go: `minor 1.2.3` prints 1.3.0. */
  lemma ExplicitMinor(file0: File)
    ensures Run(["1.2.3"], Config(MINOR, false, ""), file0) == Ok(Effect(Some("1.3.0\n"), "1.3.0\n"))
  {
    assert "1.2.3" == Render(Version(1, 2, 3));
    assert "1.3.0\n" == Render(Version(1, 3, 0)) + "\n";
    ExplicitBump(["1.2.3"], Config(MINOR, false, ""), file0, Version(1, 2, 3), Version(1, 3, 0));
  }

  /** cli_test.go: `major 1.2.3` prints 2.0.0. */
  lemma ExplicitMajor(file0: File)
    ensures Run(["1.2.3"], Config(MAJOR, false, ""), file0) == Ok(Effect(Some("2.0.0\n"), "2.0.0\n"))
  {
    assert "1.2.3" == Render(Version(1, 2, 3));
    assert "2.0.0\n" == Render(Version(2, 0, 0)) + "\n";
    ExplicitBump(["1.2.3"], Config(MAJOR, false, ""), file0, Version(1, 2, 3), Version(2, 0, 0));
  }

  /** `show --prefix v` against a file holding 1.2.3 prints v1.2.3 and changes nothing. */
  lemma ShowWithPrefix()
    ensures Show("v", Some("1.2.3\n")) == Ok(Effect(Some("1.2.3\n"), "v1.2.3\n"))
  {
    assert "1.2.3\n" == Render(Version(1, 2, 3)) + "\n";
    assert "v1.2.3\n" == "v" + "1.2.3\n";
    ShowRendered("v", Version(1, 2, 3));
  }

  /** A missing file makes `show` and a file-based bump fail, so neither writes nor prints. */
  lemma MissingFile(cfg: Config, prefix: string)
    ensures Show(prefix, None) == Err(NotFound)
    ensures Run([], cfg, None) == Err(NotFound)
  {
  }

  /** Trimmed text of three dot-free pieces parses as exactly those three segments. */
  lemma ThreePieces(a: string, b: string, c: string)
    requires '.' !in a && '.' !in b && '.' !in c
    requires Trimmed(a + "." + b + "." + c)
    ensures Parse(a + "." + b + "." + c) == ParseSegments([a, b, c])
    ensures Split(a + "." + b + "." + c, '.') == [a, b, c]
  {
    SplitAppend(a + "." + b, c, '.');
    SplitAppend(a, b, '.');
    SplitNoSeparator(a, '.');
    SplitNoSeparator(b, '.');
    SplitNoSeparator(c, '.');
    var s := a + "." + b + "." + c;
    assert Split(s, '.') == [a, b, c];
    TrimSpaceFixedPoint(s);
    assert Segments(s) == [a, b, c];
  }

  /** Trimmed text of two dot-free pieces parses as those two segments. */
  lemma TwoPieces(a: string, b: string)
    requires '.' !in a && '.' !in b
    requires Trimmed(a + "." + b)
    ensures Parse(a + "." + b) == ParseSegments([a, b])
  {
    var s := a + "." + b;
    SplitAppend(a, b, '.');
    SplitNoSeparator(a, '.');
    SplitNoSeparator(b, '.');
    assert Split(s, '.') == [a, b];
    TrimSpaceFixedPoint(s);
    assert Segments(s) == [a, b];
  }

  /** A numeral with one leading zero, as a hand-edited file might hold. */
  function ZeroPadded(n: nat): (r: string)
    ensures |r| > 1 && r[0] == '0' && AllDigits(r) && DigitsValue(r) == n
  {
    LeadingZero(FormatNat(n));
    "0" + FormatNat(n)
  }

  lemma NoDotInDigits(s: string)
    requires AllDigits(s)
    ensures '.' !in s
  {
    assert forall i :: 0 <= i < |s| ==> s[i] != '.';
  }

  /** A third segment that is not a decimal integer is a syntax error carrying that segment. */
  lemma ParseNonNumericSegment(x: int, y: int, c: string)
    requires '.' !in c && Trimmed(c) && !IsDecimal(c)
    ensures Parse(FormatInt(x) + "." + FormatInt(y) + "." + c) == Err(SyntaxError(c))
  {
    var a, b := FormatInt(x), FormatInt(y);
    NoDot(x);
    NoDot(y);
    var s := a + "." + b + "." + c;
    assert s[0] == a[0];
    assert |c| > 0 ==> s[|s| - 1] == c[|c| - 1];
    ThreePieces(a, b, c);
  }

  /** Text that is empty or all spaces fails in Atoi on the one, empty, segment. */
  lemma ParseBlank(w: string)
    requires AllSpace(w)
    ensures Parse(w) == Err(SyntaxError(""))
  {
    TrimLeftAllSpace(w);
    assert TrimSpace(w) == "";
    assert Split("", '.') == [""];
  }

  /** Two numeric segments pass Atoi and then index past the end: a panic, not an error. */
  lemma ParseTwoSegmentsPanics(x: int, y: int)
    ensures Parse(FormatInt(x) + "." + FormatInt(y)) == Panic(2, 2)
  {
    var a, b := FormatInt(x), FormatInt(y);
    NoDot(x);
    NoDot(y);
    var s := a + "." + b;
    assert s[0] == a[0] && s[|s| - 1] == b[|b| - 1];
    TwoPieces(a, b);
  }

  /** Whatever follows a complete version and a dot is never looked at. */
  lemma ParseIgnoresFourthSegment(v: Version, t: string)
    ensures Parse(Render(v) + "." + t) == Ok(v)
  {
    ParseIgnoresExtraSegments(Render(v), t);
    ParseRender(v);
  }

  /** Leading zeros are accepted and dropped. */
  lemma ParseLeadingZeros(x: nat, y: nat, z: nat)
    ensures Parse(ZeroPadded(x) + "." + ZeroPadded(y) + "." + ZeroPadded(z)) == Ok(Version(x, y, z))
  {
    var a, b, c := ZeroPadded(x), ZeroPadded(y), ZeroPadded(z);
    NoDotInDigits(a);
    NoDotInDigits(b);
    NoDotInDigits(c);
    var s := a + "." + b + "." + c;
    assert s[0] == '0' && s[|s| - 1] == c[|c| - 1];
    ThreePieces(a, b, c);
    assert Atoi(a) == Ok(x) && Atoi(b) == Ok(y) && Atoi(c) == Ok(z);
  }

  /** A plus sign is accepted on every segment. */
  lemma ParsePlusSigns(x: nat, y: nat, z: nat)
    ensures Parse("+" + FormatNat(x) + "." + "+" + FormatNat(y) + "." + "+" + FormatNat(z)) == Ok(Version(x, y, z))
  {
    var a, b, c := "+" + FormatNat(x), "+" + FormatNat(y), "+" + FormatNat(z);
    assert a[1..] == FormatNat(x) && b[1..] == FormatNat(y) && c[1..] == FormatNat(z);
    NoDotInDigits(FormatNat(x));
    NoDotInDigits(FormatNat(y));
    NoDotInDigits(FormatNat(z));
    var s := a + "." + b + "." + c;
    assert "+" + FormatNat(x) + "." + "+" + FormatNat(y) + "." + "+" + FormatNat(z) == s;
    assert s[0] == '+' && s[|s| - 1] == c[|c| - 1];
    ThreePieces(a, b, c);
  }

  /** `init` validates its argument but writes the canonical rendering, so leading zeros are dropped. */
  lemma InitNormalises(x: nat, y: nat, z: nat, file: File)
    ensures var text := ZeroPadded(x) + "." + ZeroPadded(y) + "." + ZeroPadded(z);
      Init([text], file) == Ok(Effect(Some(Render(Version(x, y, z)) + "\n"), Render(Version(x, y, z)) + "\n"))
  {
    var text := ZeroPadded(x) + "." + ZeroPadded(y) + "." + ZeroPadded(z);
    ParseLeadingZeros(x, y, z);
    assert text[0] == '0';
    InitParsed(text, file, Version(x, y, z));
  }
}
