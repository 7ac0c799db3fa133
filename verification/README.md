# bump: the version value and its read–bump–write cycle, in Dafny

`bump` is a small command-line tool that keeps a semantic version `X.Y.Z`
in a file. Its `major`, `minor` and `patch` commands each do the same thing:

1. take the starting version from an explicit argument, or else read it from the file;
2. apply the increment;
3. write the result back, unless `--dry-run` is set;
4. print the result.

`init` writes a first version, `0.1.0` by default. `show` prints the stored
version, with an optional prefix. An older package, `command`, contains a
second copy of the version code and a fixed minor-bump command.

This project models that core as pure functions over an abstract version
file and proves properties about them.

- `Outcomes` (`outcomes.dfy`) holds the shared types. A `Result` is one of three things:
  - `Ok`;
  - `Err`, a returned Go error;
  - `Panic`, the index-out-of-range panic the parser hits when the text has fewer than three segments, all of which pass `strconv.Atoi`.

  The version file is an `Option<string>`, where `None` means the file is missing. A successful command yields an `Effect`: the file afterwards and what was printed. A failure carries no effect, so a failed command neither writes nor prints.
- `GoStrings` and `GoStrconv` (`gostrings.dfy`, `gostrconv.dfy`) hold the Go library functions the parser and renderer rely on:
  - `strings.TrimSpace`, with Go's `unicode.IsSpace` set;
  - `strings.Split` on one rune;
  - `strings.HasPrefix`;
  - `strconv.Atoi`: an optional sign, then one or more digits, with leading zeros allowed;
  - `%d`.
- `Versions` (`version.go`, in `version.dfy`) holds the version value: parse, render, the increment table, and reading and writing the file.
- `Bump` (`bump.go`, in `bump.dfy`) holds the commands:
  - `parseVersionFromArgs`;
  - `baseBumpCommand.run` together with `Bump.Up`, `upFromFile`, `upFromCommandLine` and `write`;
  - `InitCommand.Run`;
  - `ShowCommand.Run`.
- `LegacyUp` (`command/up.go`, in `legacy.dfy`) holds the older copy. It is proved to agree with `Versions`, and its command is proved to equal `minor` without an explicit version and without a dry run.
- `VersionWrite` (`versionio.dfy`) holds `VersionIO.Write` with its system calls made visible. See Findings.
- `Scenarios` (`scenarios.dfy`) holds:
  - the expected values from the repository's tests, as lemmas;
  - the parser's edge cases, stated for all inputs of each shape.

The parser is looser than a strict `X.Y.Z` reader. It runs `strconv.Atoi` on
segments 0, 1 and 2 and on nothing else, in that order, and stops at the
first failure. As a result:

- a `+` or `-` sign and leading zeros are accepted;
- a fourth and later segments are ignored;
- a segment that fails `Atoi` before the end is reached is a syntax error
  carrying that segment's text;
- text with fewer than three segments, all of which pass `Atoi`, makes the
  code index past the end of the split result. That is a Go panic, not a
  returned parse error, and the model keeps it as the distinct `Panic`
  outcome.

Version fields are therefore plain, possibly negative, integers. The
increment kind is a plain integer (MAJOR=1, MINOR=2, PATCH=3), so the
"invalid VersionType" branch is reachable, and it is modelled.

## Model

| member | source | states |
|---|---|---|
| GoStrings.TrimSpace | version.go:69 | the result has no space at either end and is no longer than the input |
| GoStrings.TrimSpaceRemovesOnlyEnds | version.go:69 | the trimmed text is a contiguous slice of the input with only spaces before and after it |
| GoStrings.TrimSpaceSurrounding | version.go:69 | spaces added around any text never change what it trims to |
| GoStrings.TrimSpaceFixedPoint | version.go:69 | trimming leaves text unchanged exactly when neither end is a space |
| GoStrings.Split | version.go:69 | splitting on `.` gives at least one piece; the pieces contain no dot and join back, with dots, to the input |
| GoStrings.SplitAppend | version.go:69 | splitting at a dot splits the two sides independently |
| GoStrings.SplitNoSeparator | version.go:69 | text without a dot is a single piece |
| GoStrconv.Atoi | version.go:70-83 | Atoi succeeds exactly on an optional sign followed by one or more digits. Its value is the digits' value, negated after `-`. Any other text is a syntax error carrying that text |
| GoStrconv.FormatNat | version.go:96-98 | `%d` of a natural is a non-empty run of digits with that value and no leading zero |
| GoStrconv.FormatInt | version.go:96-98 | `%d` of any integer reads back through Atoi as the same integer. It has a leading `-` exactly for negatives, never a `+`, no spaces, and after the sign one or more digits with no leading zero unless the number is 0 |
| GoStrconv.LeadingZero | version.go:70 | a leading zero does not change the value Atoi reads from digits |
| Versions.Segments | version.go:69 | the trimmed, split text always has at least one segment, so segment 0 always exists |
| Versions.ParseSegments | version.go:70-85 | parsing succeeds exactly when there are three segments and the first three pass Atoi, and then yields their values. It is a syntax error exactly when one of the first three present segments fails Atoi, and the error carries the text of the first such segment. Otherwise it panics at an index equal to the number of segments, which is below 3 |
| Versions.ParseSegmentsByGrammar | version.go:70-85 | the same success and panic conditions, stated through the decimal grammar instead of through Atoi |
| Versions.Parse | version.go:68-86 | toVersion trims and splits the text, then succeeds exactly when there are three segments and the first three are decimal integers, yielding their values. A failure is the first failing segment's syntax error, or, when every segment present passes and there are fewer than three, a panic at the segment count |
| Versions.Render | version.go:96-98 | the rendering splits on dots into exactly the three `%d` numerals and has no surrounding space |
| Versions.ParseRender | version.go:68-98 | parsing a rendered version gives back exactly that version, for every triple of integers |
| Versions.ParseNumerals | version.go:70-98 | the three `%d` numerals of a version pass Atoi and give back its three fields |
| Versions.ParseIgnoresSurroundingSpace | version.go:69 | spaces and newlines around the text never change the parse |
| Versions.ParseRenderedLine | version.go:41 | the file's own content, a rendering plus a newline, parses back to the version written |
| Versions.ParseSegmentsIgnoresTail | version.go:70-85 | segments after the third never affect the outcome |
| Versions.ParseIgnoresExtraSegments | version.go:69-85 | once trimmed text has three segments, anything after a further dot is never inspected |
| Versions.TrimSpaceAfterDot | version.go:69 | trimming text that starts with trimmed, non-empty text and a dot only trims the tail |
| Versions.Up | version.go:100-127 | MAJOR gives (major+1, 0, 0), MINOR gives (major, minor+1, 0) and PATCH gives (major, minor, patch+1). Any other kind is an "invalid VersionType" error. Every success is strictly greater in (major, minor, patch) order |
| Versions.UpIsLeast | version.go:100-127 | each increment is the least non-negative version above the start that changes the component it names |
| Versions.UpAbsorbsLowerKinds | version.go:114-127 | a more significant increment after a less significant one gives the same result as the more significant one alone |
| Versions.Read | version.go:25-31 | a missing file is an error, otherwise the file's text is parsed |
| Versions.Write | version.go:34-46 | the file becomes the rendering and one newline, and it reads back as the version written |
| Bump.ParseVersionFromArgs | bump.go:168-170 | the first argument is an explicit version exactly when there is one and it is empty or does not start with `-` |
| Bump.WriteWith | bump.go:245-246 | the file writer replaces the file with a line that reads back as the version; the no-op writer leaves the file as it was |
| Bump.WriteBumped | bump.go:239-247 | a dry run leaves the file untouched; otherwise the file becomes the rendered line and reads back as the bumped version |
| Bump.UpFromCommandLine | bump.go:230-237 | the explicit version is incremented, which fails only for an invalid kind and otherwise yields a strictly greater version, and the result is written through the dry-run choice |
| Bump.UpFromFile | bump.go:213-228 | the file is read first and a read or parse failure is returned unchanged; then the version is incremented and written as above |
| Bump.BumpUp | bump.go:197-211 | Up bumps the explicit version if there is one, else the file's. Any failure is returned before printing. On success it prints the rendered result and a newline, and the file holds that same line unless this is a dry run |
| Bump.Run | bump.go:55-78 | a bump succeeds exactly when the starting version parses and the kind is valid, where the start is the explicit argument if there is one, else the file. A failure is the start's failure or the invalid-kind error. On success it prints the incremented version and a newline, and the file becomes that line unless this is a dry run |
| Bump.RunExplicitIgnoresFile | bump.go:199-203 | with an explicit version, the file's content never changes the outcome or the output |
| Bump.DryRunPreviewsRun | bump.go:240-243 | a dry run succeeds or fails as the persisted run does and prints the same line, but leaves the file as it was; the persisted run writes exactly that line |
| Bump.RunAdvancesFile | bump.go:197-247 | after a persisted bump the file reads back as a version strictly above the start, whose rendering is what was printed |
| Bump.InitFrom | bump.go:106-126 | the chosen text is validated by parsing, and a failure returns before any write. On success the file and the output are the canonical rendering of the parsed version, which reads back as it |
| Bump.Init | bump.go:100-127 | an explicit argument is used if present, and its parse failure is returned. Without one, the file and the output are `0.1.0` and a newline |
| Bump.InitialVersionParses | bump.go:97 | the default initial version is the rendering of 0.1.0 and parses as it |
| Bump.Show | bump.go:147-166 | show fails exactly when the file does not read; it prints the prefix, the rendered version and a newline, and never changes the file |
| Bump.ShowRendered | bump.go:157-165 | against a file holding a rendered line, show prints the prefix and that line |
| Bump.ShowAfterRun | bump.go:159-164 | after a persisted bump, show prints the prefix and exactly what the bump printed |
| Bump.ShowAfterInit | bump.go:119-125 | after init, show prints the prefix and exactly what init printed |
| VersionWrite.WriteAsWritten | version.go:34-46 | as written: a create failure is returned at once; after that the error returned is always the close result, and a version is returned exactly when the write succeeded |
| VersionWrite.WriteFailureIsLost | version.go:39-44 | a failed write followed by a successful close returns neither a version nor an error |
| VersionWrite.AsWrittenUnconventional | version.go:34-46 | the as-written function breaks the value-or-error convention exactly when the create succeeds and exactly one of the write and the close fails |
| VersionWrite.WriteCorrected | version.go:34-46 | corrected: exactly one of version and error is returned; there is no error exactly when all three calls succeed; the first failure is the one reported |
| VersionWrite.WritesAgreeOnSuccess | version.go:34-46 | when every call succeeds, both versions return the version and no error |
| LegacyUp.ToVersioning | command/up.go:53-71 | the legacy parser trims and splits the text, succeeds exactly when the first three segments are decimal integers, yields their values, and every error it returns is a syntax error |
| LegacyUp.Render | command/up.go:81-83 | the legacy rendering splits on dots into exactly the three `%d` numerals and has no surrounding space |
| LegacyUp.FromSegments | command/up.go:55-70 | the legacy reader succeeds exactly when there are three segments and the first three pass Atoi; every returned error is a syntax error |
| LegacyUp.UpMinor | command/up.go:85-88 | upMinor gives (major, minor+1, 0) |
| LegacyUp.Run | command/up.go:14-40 | a missing file is an error, and so is text that does not parse; in either case nothing is written or printed. On success the file and the output are the same line, the minor-bumped rendering |
| LegacyUp.FromSegmentsAgrees | command/up.go:55-70 | segment by segment the legacy reader gives the same successes, values and failures as version.go's |
| LegacyUp.ParseAgrees | command/up.go:53-71 | toVersioning and toVersion agree on every text, field for field and failure for failure |
| LegacyUp.RenderAgrees | command/up.go:81-83 | both renderers print the same text for the same fields |
| LegacyUp.UpMinorAgrees | command/up.go:85-88 | the legacy minor rule is version.go's MINOR increment |
| LegacyUp.ParseRender | command/up.go:53-83 | the legacy parser reads back the legacy rendering exactly |
| LegacyUp.RunIsMinorBump | command/up.go:14-40 | the legacy command is the newer `minor` command without an explicit version and without a dry run: same failures, same file, same output |
| LegacyUp.RunRereads | command/up.go:25-33 | after a successful legacy run the file parses back to the minor-bumped version |
| Scenarios.VersionUpPatchRows | version_test.go:13-15 | 0.0.0, 0.1.9 and 1.0.10 patch-bump to 0.0.1, 0.1.10 and 1.0.11 |
| Scenarios.VersionUpMinorRows | version_test.go:16-18 | 0.0.0, 0.9.2 and 1.10.0 minor-bump to 0.1.0, 0.10.0 and 1.11.0 |
| Scenarios.VersionUpMajorRows | version_test.go:19-21 | 0.0.0, 9.9.2 and 10.10.0 major-bump to 1.0.0, 10.0.0 and 11.0.0 |
| Scenarios.InvalidKinds | version.go:108-109 | kinds 0, 4 and -1 are rejected with the invalid-kind error |
| Scenarios.ExplicitBump | bump.go:59-65 | a bump from an explicit non-negative version prints and, unless a dry run, writes the increment of that version, whatever the file holds |
| Scenarios.FileBump | bump.go:213-228 | a bump without an explicit version, from a file holding a rendered version, prints and, unless a dry run, writes its increment |
| Scenarios.BumpExplicit | bump_test.go:16 | `minor 0.1.0` writes and prints 0.2.0 |
| Scenarios.BumpFromFile | bump_test.go:17 | `minor` against a file holding 0.2.0 writes and prints 0.3.0 |
| Scenarios.BumpFromFileDryRun | bump_test.go:18 | `minor --dry-run` against 0.3.0 prints 0.4.0 and keeps 0.3.0 |
| Scenarios.BumpExplicitDryRun | bump_test.go:19 | `minor 0.1.0 --dry-run` prints 0.2.0 and keeps the file |
| Scenarios.InitDefault | cli_test.go:14 | `init` writes and prints 0.1.0 |
| Scenarios.PatchAfterInit | cli_test.go:15 | `patch` after init writes and prints 0.1.1 |
| Scenarios.MinorAfterPatch | cli_test.go:16 | `minor` next writes and prints 0.2.0 |
| Scenarios.MajorAfterMinor | cli_test.go:17 | `major` next writes and prints 1.0.0 |
| Scenarios.InitParsed | bump.go:100-126 | `init` with an explicit argument that parses writes and prints that version's canonical rendering |
| Scenarios.InitRendered | bump.go:100-126 | `init` with a rendered non-negative version writes and prints that rendering |
| Scenarios.InitExplicit | cli_test.go:84 | `init 1.2.3` writes and prints 1.2.3 |
| Scenarios.ExplicitPatch | cli_test.go:85 | `patch 1.2.3` prints 1.2.4 |
| Scenarios.ExplicitMinor | cli_test.go:86 | `minor 1.2.3` prints 1.3.0 |
| Scenarios.ExplicitMajor | cli_test.go:87 | `major 1.2.3` prints 2.0.0 |
| Scenarios.ShowWithPrefix | bump.go:164 | `show --prefix v` against 1.2.3 prints v1.2.3 and changes nothing |
| Scenarios.MissingFile | bump.go:159-162 | a missing file makes `show` and a file-based bump fail with not-found |
| Scenarios.ThreePieces | version.go:69 | trimmed text of three dot-free pieces parses as exactly those segments |
| Scenarios.TwoPieces | version.go:69 | trimmed text of two dot-free pieces parses as exactly those segments |
| Scenarios.ParseNonNumericSegment | version.go:80-83 | a third segment that is not a decimal integer is a syntax error carrying that segment |
| Scenarios.ParseBlank | version.go:69-73 | empty or all-space text fails in Atoi on its one, empty, segment |
| Scenarios.ParseTwoSegmentsPanics | version.go:75-80 | two numeric segments pass Atoi and then index past the end, which is a panic at index 2 of 2 |
| Scenarios.ParseIgnoresFourthSegment | version.go:69-85 | a rendered version followed by a dot and anything parses as that version |
| Scenarios.ParseLeadingZeros | version.go:70-85 | segments with a leading zero parse to their values |
| Scenarios.ParsePlusSigns | version.go:70-85 | segments with a `+` sign parse to their values |
| Scenarios.InitNormalises | bump.go:106-125 | `init` with zero-padded segments writes and prints the canonical rendering without the zeros |

## Left out

- Flag parsing (bump.go:67-74, 111-117, 148-155) is not modelled. The
  commands take a `Config` whose kind, `--dry-run` and `--prefix` are already
  decoded. A flag-parsing error, which the code reports only after an explicit
  version has parsed, is not modelled.
- `--version-file` is not modelled. There is one abstract file, standing for
  whatever path the flag names.
- The CLI dispatch in main.go, cmd/bump/main.go and cli.go is glue whose `Run`
  signatures do not match the command types shown. It is not modelled. The
  cli_test.go sequence is stated directly on `Bump.Init` and `Bump.Run`.
- init.go and show.go in the `command` package are plain file creation and
  printing. They are not part of this model.
- Operating-system failures are left out, except in `VersionWrite`, which
  takes each call's outcome as a parameter. Outside it, a read fails only
  because the file is missing, and writes always succeed.
  - `Versions.Write`: never fails. The create, write and close errors of
    version.go:35-44 are modelled separately in `VersionWrite`.
  - `Bump.Run`: errors from printing with `Fprintln` are not modelled, because
    the output stream is an in-memory string.
- `GoStrconv.Atoi`: does not return Go's range error for values outside a
  64-bit `int`. Version fields are unbounded integers, so `+= 1` never
  overflows.
- Strings are sequences of Unicode code points. A file whose bytes are not
  valid UTF-8 cannot be represented. The outcome would be the same for it,
  since Go decodes each such byte as U+FFFD, which is not a space, a digit, a
  sign or a dot, so the segment holding it fails `Atoi`.
- Collaborators that bump.go calls but whose code is not part of this model are
  modelled only by their evident intent. These are `NewVersionWriter`,
  `FileWriteType`/`NullWriteType` and `NewVersionIO(path)`:
  - the file writer replaces the file with the rendered line;
  - the no-op writer returns the version and touches nothing.

  `VersionType.subcommand` only names the flag set, and is not modelled.
- `bump.go` passes a `*VersionType` where version.go's `up` takes a
  `VersionType`. The model uses the plain value.
- The Go `Version` is mutated in place by `up`. The model returns a new value,
  and the failing case returns the error without a value. This matches the code,
  which discards the version on error.

## Findings

| source | as written | input that shows it | evidently intended | confidence | as-written member | corrected member |
|---|---|---|---|---|---|---|
| version.go:39-44 | the deferred `err = f.Close()` overwrites the named result after `return nil, err`, so a write failure is replaced by the close result | `os.Create` succeeds, `WriteString` fails, `Close` succeeds: returns `(nil, nil)` | report the write failure, and report a close failure only when nothing failed before it | high; not executed | VersionWrite.WriteAsWritten (shown by VersionWrite.WriteFailureIsLost) | VersionWrite.WriteCorrected |

The callers of `VersionIO.Write` go through `NewVersionWriter`, whose code is
not part of this model. The rest of the model assumes every call succeeds.
There the two definitions agree, as `VersionWrite.WritesAgreeOnSuccess` proves.
