/**
 The commands of the `bump` package (bump.go): `major`, `minor` and
 `patch` (one shared procedure), `init` and `show`.

 Each command is a pure function of its arguments, its decoded flags and
 the version file, returning either the failure the Go code returns (or
 the panic it hits), or the `Effect` of a successful run: the file
 afterwards and what was printed. The flag package is not modelled: the
 flags arrive already decoded in a `Config`, and the single abstract file
 stands for whatever path `--version-file` names.
 */
module Bump {
  import opened Outcomes
  import opened GoStrings
  import opened Versions

  const DefaultInitialVersion: string := "0.1.0"

  /** The decoded command-line settings: the increment kind, `--dry-run` and `--prefix`. */
  datatype Config = Config(versionType: VersionType, dryRun: bool, prefix: string)

  /** Whether the first argument is an explicit version rather than a flag. */
  function ParseVersionFromArgs(args: seq<string>): (explicit: bool)
    ensures explicit <==> |args| > 0 && (|args[0]| == 0 || args[0][0] != '-')
  {
    |args| > 0 && !HasPrefix(args[0], "-")
  }

  /** The two writers: one that replaces the file, one that does nothing. */
  datatype WriteType = FileWriteType | NullWriteType

  /** The writer a dry run selects (bump.go:240-243). */
  function WriterFor(dryRun: bool): (w: WriteType)
    ensures w == NullWriteType <==> dryRun
  {
    if dryRun then NullWriteType else FileWriteType
  }

  /** VersionWriter.Write as far as its intent is visible: a persisted write or a no-op. */
  function WriteWith(w: WriteType, v: Version, file: File): (f: File)
    ensures w == NullWriteType ==> f == file
    ensures w == FileWriteType ==> Read(f) == Ok(v)
    ensures w == FileWriteType ==> f == Some(Render(v) + "\n")
  {
    match w
    case FileWriteType => Write(v)
    case NullWriteType => file
  }

  /** Bump.write: persist the bumped version unless this is a dry run. */
  function WriteBumped(cfg: Config, v: Version, file: File): (f: File)
    ensures cfg.dryRun ==> f == file
    ensures !cfg.dryRun ==> f == Some(Render(v) + "\n") && Read(f) == Ok(v)
  {
    WriteWith(WriterFor(cfg.dryRun), v, file)
  }

  /** Bump.upFromCommandLine: increment the explicit version, then write. */
  function UpFromCommandLine(v: Version, cfg: Config, file: File): (r: Result<(Version, File)>)
    ensures r.Ok? <==> IsValidType(cfg.versionType)
    ensures r.Ok? ==> Less(v, r.value.0) && Up(v, cfg.versionType) == Ok(r.value.0)
    ensures r.Ok? ==> r.value.1 == WriteBumped(cfg, r.value.0, file)
  {
    var next :- Up(v, cfg.versionType);
    Ok((next, WriteBumped(cfg, next, file)))
  }

  /** Bump.upFromFile: read the file, increment, then write. */
  function UpFromFile(cfg: Config, file: File): (r: Result<(Version, File)>)
    ensures r.Ok? <==> Read(file).Ok? && IsValidType(cfg.versionType)
    ensures !Read(file).Ok? ==> r == Read(file).PropagateFailure()
    ensures r.Ok? ==> Less(Read(file).value, r.value.0) && Up(Read(file).value, cfg.versionType) == Ok(r.value.0)
    ensures r.Ok? ==> r.value.1 == WriteBumped(cfg, r.value.0, file)
  {
    var current :- Read(file);
    var next :- Up(current, cfg.versionType);
    Ok((next, WriteBumped(cfg, next, file)))
  }

  /** Bump.Up: start from the explicit version if there is one, else from the file; print the result. */
  function BumpUp(start: Option<Version>, cfg: Config, file: File): (r: Result<Effect>)
    ensures var bumped := if start.Some? then UpFromCommandLine(start.value, cfg, file) else UpFromFile(cfg, file);
      && (r.Ok? <==> bumped.Ok?)
      && (!r.Ok? ==> r == bumped.PropagateFailure())
      && (r.Ok? ==> r.value.stdout == Render(bumped.value.0) + "\n" && r.value.file == bumped.value.1)
    ensures start.None? && !Read(file).Ok? ==> r == Read(file).PropagateFailure()
    ensures r.Ok? ==> r.value.file == if cfg.dryRun then file else Some(r.value.stdout)
  {
    var bumped :- if start.Some? then UpFromCommandLine(start.value, cfg, file) else UpFromFile(cfg, file);
    Ok(Effect(bumped.1, Render(bumped.0) + "\n"))
  }

  /** Where a bump starts: the explicit argument, or else the file (and only then is the file read). */
  ghost function Start(args: seq<string>, file: File): Result<Version> {
    if |args| > 0 && !HasPrefix(args[0], "-") then Parse(args[0]) else Read(file)
  }

  /**
   baseBumpCommand.run: take an explicit version off the front of the
   arguments if there is one, then bump.
   */
  function Run(args: seq<string>, cfg: Config, file: File): (r: Result<Effect>)
    ensures r.Ok? <==> Start(args, file).Ok? && IsValidType(cfg.versionType)
    ensures !Start(args, file).Ok? ==> r == Start(args, file).PropagateFailure()
    ensures Start(args, file).Ok? && !IsValidType(cfg.versionType) ==>
      r == Err(InvalidVersionType(cfg.versionType))
    ensures r.Ok? ==> r.value.stdout == Render(Up(Start(args, file).value, cfg.versionType).value) + "\n"
    ensures r.Ok? ==> r.value.file == if cfg.dryRun then file else Some(r.value.stdout)
  {
    if ParseVersionFromArgs(args) then
      var v :- Parse(args[0]);
      BumpUp(Some(v), cfg, file)
    else
      BumpUp(None, cfg, file)
  }

  /** With an explicit version the file is never read: its content cannot change the outcome. */
  lemma RunExplicitIgnoresFile(args: seq<string>, cfg: Config, file1: File, file2: File)
    requires ParseVersionFromArgs(args)
    ensures Run(args, cfg, file1).Ok? <==> Run(args, cfg, file2).Ok?
    ensures !Run(args, cfg, file1).Ok? ==> Run(args, cfg, file1) == Run(args, cfg, file2)
    ensures Run(args, cfg, file1).Ok? ==>
      Run(args, cfg, file1).value.stdout == Run(args, cfg, file2).value.stdout
    ensures Run(args, cfg, file1).Ok? && !cfg.dryRun ==> Run(args, cfg, file1) == Run(args, cfg, file2)
  {
  }

  /** A dry run prints what the persisted run would print and would write, and leaves the file alone. */
  lemma DryRunPreviewsRun(args: seq<string>, t: VersionType, prefix: string, file: File)
    ensures var dry, persisted := Run(args, Config(t, true, prefix), file), Run(args, Config(t, false, prefix), file);
      && (dry.Ok? <==> persisted.Ok?)
      && (!dry.Ok? ==> dry == persisted)
      && (dry.Ok? ==> dry.value == Effect(file, persisted.value.stdout))
      && (persisted.Ok? ==> persisted.value.file == Some(dry.value.stdout))
  {
  }

  /** After a persisted bump, the file holds a version strictly above the starting one, and reads back as what was printed. */
  lemma RunAdvancesFile(args: seq<string>, cfg: Config, file: File)
    requires !cfg.dryRun && Run(args, cfg, file).Ok?
    ensures Read(Run(args, cfg, file).value.file).Ok?
    ensures Less(Start(args, file).value, Read(Run(args, cfg, file).value.file).value)
    ensures Render(Read(Run(args, cfg, file).value.file).value) + "\n" == Run(args, cfg, file).value.stdout
  {
  }

  /** The body of InitCommand.Run once the version text is chosen: validate, write, print. */
  function InitFrom(text: string, file: File): (r: Result<Effect>)
    ensures r.Ok? <==> Parse(text).Ok?
    ensures !r.Ok? ==> r == Parse(text).PropagateFailure()
    ensures r.Ok? ==> r.value.file == Some(r.value.stdout)
    ensures r.Ok? ==> Read(r.value.file) == Parse(text)
    ensures r.Ok? ==> r.value.stdout == Render(Parse(text).value) + "\n"
    ensures r.Ok? ==> Read(r.value.file).Ok?
    ensures r.Ok? ==> Render(Read(r.value.file).value) + "\n" == r.value.stdout
  {
    var v :- Parse(text);
    Ok(Effect(WriteWith(FileWriteType, v, file), Render(v) + "\n"))
  }

  /** InitCommand.Run: the explicit version if there is one, else the default. */
  function Init(args: seq<string>, file: File): (r: Result<Effect>)
    ensures ParseVersionFromArgs(args) ==> (r.Ok? <==> Parse(args[0]).Ok?)
    ensures ParseVersionFromArgs(args) && !Parse(args[0]).Ok? ==> r == Parse(args[0]).PropagateFailure()
    ensures ParseVersionFromArgs(args) && r.Ok? ==> Read(r.value.file) == Parse(args[0])
    ensures !ParseVersionFromArgs(args) ==> r == Ok(Effect(Some("0.1.0\n"), "0.1.0\n"))
    ensures r.Ok? ==> r.value.file == Some(r.value.stdout)
    ensures r.Ok? ==> Read(r.value.file).Ok?
    ensures r.Ok? ==> Render(Read(r.value.file).value) + "\n" == r.value.stdout
  {
    if ParseVersionFromArgs(args) then
      InitFrom(args[0], file)
    else
      InitialVersionParses();
      InitFrom(DefaultInitialVersion, file)
  }

  /** The default initial version is the rendering of 0.1.0. */
  lemma InitialVersionParses()
    ensures Render(Version(0, 1, 0)) == DefaultInitialVersion
    ensures Parse(DefaultInitialVersion) == Ok(Version(0, 1, 0))
    ensures DefaultInitialVersion + "\n" == "0.1.0\n"
  {
    assert Render(Version(0, 1, 0)) == "0.1.0";
    ParseRender(Version(0, 1, 0));
  }

  /** ShowCommand.Run: print the prefix and the file's version; the file is untouched. */
  function Show(prefix: string, file: File): (r: Result<Effect>)
    ensures r.Ok? <==> Read(file).Ok?
    ensures !r.Ok? ==> r == Read(file).PropagateFailure()
    ensures r.Ok? ==> r.value.file == file
    ensures r.Ok? ==> r.value.stdout == prefix + Render(Read(file).value) + "\n"
  {
    var v :- Read(file);
    Ok(Effect(file, prefix + Render(v) + "\n"))
  }

  /** `show` against a file holding a rendered version prints the prefix and that file's line. */
  lemma ShowRendered(prefix: string, v: Version)
    ensures var line := Render(v) + "\n";
      Show(prefix, Some(line)) == Ok(Effect(Some(line), prefix + line))
  {
    var line := Render(v) + "\n";
    ParseRenderedLine(v);
    assert Read(Some(line)) == Ok(v);
    assert prefix + Render(v) + "\n" == prefix + line;
  }

  /** `show` after a persisted bump prints the prefix and exactly what the bump printed. */
  lemma ShowAfterRun(args: seq<string>, cfg: Config, file: File, prefix: string)
    requires !cfg.dryRun && Run(args, cfg, file).Ok?
    ensures var e := Run(args, cfg, file).value;
      Show(prefix, e.file) == Ok(Effect(e.file, prefix + e.stdout))
  {
    var e := Run(args, cfg, file).value;
    var w := Up(Start(args, file).value, cfg.versionType).value;
    assert e.stdout == Render(w) + "\n";
    assert e.file == Some(e.stdout);
    ShowRendered(prefix, w);
  }

  /** `show` after `init` prints the prefix and exactly what `init` printed. */
  lemma ShowAfterInit(args: seq<string>, file: File, prefix: string)
    requires Init(args, file).Ok?
    ensures var e := Init(args, file).value;
      Show(prefix, e.file) == Ok(Effect(e.file, prefix + e.stdout))
  {
    var e := Init(args, file).value;
    var v := Read(e.file).value;
    assert e.stdout == Render(v) + "\n";
    assert e.file == Some(e.stdout);
    ShowRendered(prefix, v);
  }
}
