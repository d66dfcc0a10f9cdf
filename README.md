# SpecFlow test-project generator: execution driver, project factory and solution model

This project models, in Dafny, three pieces of the SpecFlow acceptance-test harness that
generates throw-away sample projects and runs them with `dotnet test`:

- **The `dotnet test` execution driver** (`TestProjectGenerator`, file `VSTestExecutionDriver.dfy`).
  It builds the argument string from the run configuration and the driver's `Filter` and
  `RunSettingsFile` properties, runs the process, and scans the captured output for the lines
  that name the TRX result file (`Results File: `), the log file (`Log file: `) and report files
  (`Report file: `). It fails unless exactly one TRX file was named. It reads the log only when
  exactly one log file was named. It also checks that the output contains a text.
- **The project builder factory** (`Factories`, file `ProjectBuilderFactory.dfy`). It parses a
  language name case-insensitively into C#, VB, F# or Other, and creates a project builder that
  carries the run configuration's target framework, project format, configuration format and
  unit-test provider. The given project name replaces the builder's initial name only when it
  is not null or blank.
- **The in-memory solution** (`Memory`, file `Solution.dfy`): a list of projects with a
  read-only view; adding a null project throws.

Supporting modules: `Wrappers` (`Option` for null references, `Result` and `Outcome` for thrown
exceptions), `Text` (the .NET string operations used, on `seq<char>`: `Trim`, ordinal
`IndexOf`/`Contains`/`StartsWith`/`EndsWith`, ASCII `ToUpper`, `String.Split` with
`RemoveEmptyEntries`, and the `IsNotNullOrEmpty`/`IsNotNullOrWhiteSpace` extensions),
`Linq` (the `where`/`select` query shape both file-path scans use, with its order, membership
and counting lemmas) and `Configuration` (the configuration records the two classes read).

The driver's collaborators are the function fields of a `Host` value: running the process,
splitting the output into lines, reading a file, decoding and cleaning a log path, turning a
report URI into its absolute path, and the TRX parser. The model decides everything between
those calls.

## Model

| member | source | states |
|---|---|---|
| `TestProjectGenerator.FindFilePath` | SpecFlow.TestProjectGenerator/VSTestExecutionDriver.cs:118-126 | never returns more paths than there are lines |
| `TestProjectGenerator.PathAfterMarker` | SpecFlow.TestProjectGenerator/VSTestExecutionDriver.cs:121-125 | the path is the suffix of the trimmed line that starts right after the FIRST occurrence of the marker |
| `TestProjectGenerator.FindFilePathMembership` | SpecFlow.TestProjectGenerator/VSTestExecutionDriver.cs:120-125 | a path is returned iff some line, once trimmed, contains the marker, ends with the extension and yields that path |
| `TestProjectGenerator.FindFilePathAppend` | SpecFlow.TestProjectGenerator/VSTestExecutionDriver.cs:120-125 | scanning two blocks of lines gives the two results concatenated, so results keep line order |
| `TestProjectGenerator.FindFilePathEmpty` | SpecFlow.TestProjectGenerator/VSTestExecutionDriver.cs:123-124 | nothing is found iff no line passes both filters |
| `TestProjectGenerator.FindFilePathSingle` | SpecFlow.TestProjectGenerator/VSTestExecutionDriver.cs:120-125 | exactly one path is found iff exactly one line passes both filters, and the path is that line's |
| `TestProjectGenerator.LineWithoutMarkerContributesNothing` | SpecFlow.TestProjectGenerator/VSTestExecutionDriver.cs:123 | deleting a line whose trimmed form lacks the marker leaves the result unchanged |
| `TestProjectGenerator.PathKeepsExtension` | SpecFlow.TestProjectGenerator/VSTestExecutionDriver.cs:124-125 | if the marker's last character is not in the extension, the extracted path still ends with the extension |
| `TestProjectGenerator.FoundPathsEndWith` | SpecFlow.TestProjectGenerator/VSTestExecutionDriver.cs:118-126 | under that condition every returned path ends with the extension |
| `TestProjectGenerator.FoundPathsKeepExtension` | SpecFlow.TestProjectGenerator/VSTestExecutionDriver.cs:23-24 | with the real markers, every .trx path found ends in `.trx` and every .log path in `.log` |
| `TestProjectGenerator.ResultsFileLineExample` | SpecFlow.TestProjectGenerator/VSTestExecutionDriver.cs:121-125 | `"  Results File: C:\x\a.trx  "` yields exactly `["C:\x\a.trx"]` |
| `TestProjectGenerator.ExampleLineTrimmed` | SpecFlow.TestProjectGenerator/VSTestExecutionDriver.cs:121 | trimming that line removes the two blanks at each end |
| `TestProjectGenerator.GetReportFiles` | SpecFlow.TestProjectGenerator/VSTestExecutionDriver.cs:110-116 | at most one report file per non-empty output line |
| `TestProjectGenerator.GetReportFilesMembership` | SpecFlow.TestProjectGenerator/VSTestExecutionDriver.cs:112-115 | a report file is listed iff some non-empty line begins with `Report file: ` and the absolute path of the rest of that line is the file |
| `TestProjectGenerator.VsTestArguments` | SpecFlow.TestProjectGenerator/VSTestExecutionDriver.cs:130-150 | between two and five fragments, the logger first and the quoted solution last |
| `TestProjectGenerator.VsTestArgumentsOrdered` | SpecFlow.TestProjectGenerator/VSTestExecutionDriver.cs:130-152 | fragments come in the order logger, adapter, filter, settings, solution, each at most once |
| `TestProjectGenerator.VsTestArgumentsContents` | SpecFlow.TestProjectGenerator/VSTestExecutionDriver.cs:132-148 | `-a` appears iff the provider is not SpecRun and the format is Old; `--filter` iff the filter is non-null and non-empty; `--settings` iff the settings file is non-null and not blank; each carries the configured value |
| `TestProjectGenerator.RenderAllAppendOne` | SpecFlow.TestProjectGenerator/VSTestExecutionDriver.cs:130-152 | appending one fragment to the builder appends its text to the string |
| `TestProjectGenerator.RenderedArgumentsBoundaries` | SpecFlow.TestProjectGenerator/VSTestExecutionDriver.cs:130-152 | a fragment list that starts with the logger and ends with the solution renders to text with that prefix and suffix |
| `TestProjectGenerator.ArgumentStringBoundaries` | SpecFlow.TestProjectGenerator/VSTestExecutionDriver.cs:130-152 | the argument string always starts with `--logger trx` and ends with the quoted solution path |
| `TestProjectGenerator.VSTestExecutionDriver.GenerateVsTestsArguments` | SpecFlow.TestProjectGenerator/VSTestExecutionDriver.cs:128-153 | the string built step by step is the rendering of `VsTestArguments` for the current `Filter` and `RunSettingsFile` |
| `TestProjectGenerator.LocateArtifacts` | SpecFlow.TestProjectGenerator/VSTestExecutionDriver.cs:92-104 | succeeds iff exactly one line names a .trx file, then parses that file; the failure lists all .trx paths found; the log is read iff exactly one line names a .log file, otherwise it is `""` |
| `TestProjectGenerator.VSTestExecutionDriver.ExecuteTests` | SpecFlow.TestProjectGenerator/VSTestExecutionDriver.cs:71-108 | runs `dotnet` with `"test "` + the arguments in the project folder; on success the parser's result is returned and becomes `LastTestExecutionResult`, on failure that field is unchanged |
| `TestProjectGenerator.VSTestExecutionDriver.CheckOutputContainsText` | SpecFlow.TestProjectGenerator/VSTestExecutionDriver.cs:57-61 | passes iff there is a last result, the text is not empty and the output contains it; with no last result it fails with the null-reference outcome; with a last result and an empty text it fails as the fluent `Contain` assertion does |
| `TestProjectGenerator.VSTestExecutionDriver.CheckAnyOutputContainsText` | SpecFlow.TestProjectGenerator/VSTestExecutionDriver.cs:63-69 | passes iff there is a last result and its TRX output or its program output contains the text |
| `TestProjectGenerator.ChecksDisagreeOnEmptyText` | SpecFlow.TestProjectGenerator/VSTestExecutionDriver.cs:57-69 | once there is a last result, the fluent check rejects the empty text while the `String.Contains` check passes it |
| `TestProjectGenerator.VSTestExecutionDriver.constructor` | SpecFlow.TestProjectGenerator/VSTestExecutionDriver.cs:27-44 | a new driver has no last result, no filter and no run-settings file |
| `Linq.Choose` | SpecFlow.TestProjectGenerator/VSTestExecutionDriver.cs:120-125 | a `where`/`select` query yields at most one value per element |
| `Linq.ChooseAppend` | SpecFlow.TestProjectGenerator/VSTestExecutionDriver.cs:120-125 | a query over two blocks is the two results concatenated |
| `Linq.ChooseMembership` | SpecFlow.TestProjectGenerator/VSTestExecutionDriver.cs:120-125 | a value is in the result iff some element yields it |
| `Linq.ChooseEmpty` | SpecFlow.TestProjectGenerator/VSTestExecutionDriver.cs:120-125 | the result is empty iff no element yields a value |
| `Linq.ChooseSingle` | SpecFlow.TestProjectGenerator/VSTestExecutionDriver.cs:120-125 | the result has one value iff exactly one element yields one, and it is that element's |
| `Linq.ChooseSkips` | SpecFlow.TestProjectGenerator/VSTestExecutionDriver.cs:123 | removing an element that yields nothing leaves the result unchanged |
| `Text.Trim` | SpecFlow.TestProjectGenerator/VSTestExecutionDriver.cs:121 | the result is a slice of the input with only whitespace removed around it, and it neither starts nor ends with whitespace |
| `Text.LeadingWhiteSpace` | SpecFlow.TestProjectGenerator/VSTestExecutionDriver.cs:121 | counts exactly the whitespace run at the start |
| `Text.TrailingWhiteSpace` | SpecFlow.TestProjectGenerator/VSTestExecutionDriver.cs:121 | counts exactly the whitespace run at the end |
| `Text.TrimOfPadded` | SpecFlow.TestProjectGenerator/VSTestExecutionDriver.cs:121 | trimming a text padded with whitespace gives back the text when it is not blank at either end |
| `Text.LeadingWhiteSpaceOfPadded` | SpecFlow.TestProjectGenerator/VSTestExecutionDriver.cs:121 | whitespace put in front of a non-blank start is exactly the leading whitespace |
| `Text.TrailingWhiteSpaceOfPadded` | SpecFlow.TestProjectGenerator/VSTestExecutionDriver.cs:121 | whitespace put behind a non-blank end is exactly the trailing whitespace |
| `Text.IndexOf` | SpecFlow.TestProjectGenerator/VSTestExecutionDriver.cs:122 | non-negative iff the text contains the marker, and then the first occurrence; otherwise -1 |
| `Text.IndexOfFrom` | SpecFlow.TestProjectGenerator/VSTestExecutionDriver.cs:122 | the first occurrence at or after a start index, or -1 when there is none |
| `Text.Contains` | SpecFlow.TestProjectGenerator/VSTestExecutionDriver.cs:123 | the empty string is contained in every string, a contained string is no longer than the text, and prefixes and suffixes are contained |
| `Text.StartsWith` | SpecFlow.TestProjectGenerator/VSTestExecutionDriver.cs:113 | the text agrees with the prefix character by character at its start |
| `Text.StartsWithPrepended` | SpecFlow.TestProjectGenerator/VSTestExecutionDriver.cs:113 | a text starts with whatever was put in front of it |
| `Text.EndsWith` | SpecFlow.TestProjectGenerator/VSTestExecutionDriver.cs:124 | the text agrees with the suffix character by character at its end |
| `Text.EndsWithAppended` | SpecFlow.TestProjectGenerator/VSTestExecutionDriver.cs:124 | a text ends with whatever was put behind it |
| `Text.IsNotNullOrEmpty` | SpecFlow.TestProjectGenerator/VSTestExecutionDriver.cs:140 | false exactly for null and for the empty string |
| `Text.IsNotNullOrWhiteSpace` | SpecFlow.TestProjectGenerator/Factories/ProjectBuilderFactory.cs:80 | true exactly when the string is there and has a character that is not whitespace; such a string is not null or empty |
| `Text.Split` | SpecFlow.TestProjectGenerator/VSTestExecutionDriver.cs:112 | every piece is non-empty and contains no separator; the pieces are the maximal runs between separators (see the next two lemmas) |
| `Text.SplitOfSeparatorFree` | SpecFlow.TestProjectGenerator/VSTestExecutionDriver.cs:112 | a non-empty text without separators splits into exactly itself |
| `Text.SplitAtSeparator` | SpecFlow.TestProjectGenerator/VSTestExecutionDriver.cs:112 | a separator always cuts: the pieces of `a + [c] + b` are those of `a` followed by those of `b`; with `Split("") == []` this fixes every result |
| `Text.SeparatorFreePrefixBeforeSeparator` | SpecFlow.TestProjectGenerator/VSTestExecutionDriver.cs:112 | a separator ends the leading separator-free run whatever follows it |
| `Text.SeparatorFreePrefix` | SpecFlow.TestProjectGenerator/VSTestExecutionDriver.cs:112 | the length of the leading run without separators |
| `Text.SplitLosesOnlySeparators` | SpecFlow.TestProjectGenerator/VSTestExecutionDriver.cs:112 | gluing the pieces back together gives the input without its separators |
| `Text.WithoutSeparatorsAppend` | SpecFlow.TestProjectGenerator/VSTestExecutionDriver.cs:112 | removing separators distributes over concatenation |
| `Text.WithoutSeparatorsOfFreeRun` | SpecFlow.TestProjectGenerator/VSTestExecutionDriver.cs:112 | a text without separators is unchanged by removing them |
| `Text.UpperChar` | SpecFlow.TestProjectGenerator/Factories/ProjectBuilderFactory.cs:57 | lower-case ASCII letters move to upper case, every other character is kept, and no lower-case letter remains |
| `Text.ToUpper` | SpecFlow.TestProjectGenerator/Factories/ProjectBuilderFactory.cs:57 | upper-casing keeps the length |
| `Text.ToUpperIdempotent` | SpecFlow.TestProjectGenerator/Factories/ProjectBuilderFactory.cs:57 | upper-casing twice is upper-casing once |
| `Text.ToUpperAt` | SpecFlow.TestProjectGenerator/Factories/ProjectBuilderFactory.cs:57 | upper-casing works character by character |
| `Text.ToUpperOfUpperCase` | SpecFlow.TestProjectGenerator/Factories/ProjectBuilderFactory.cs:57 | a string with no lower-case letter is its own upper-case form |
| `Factories.ParseProgrammingLanguage` | SpecFlow.TestProjectGenerator/Factories/ProjectBuilderFactory.cs:55-68 | the upper-cased input, looked up in the table of seven spellings, gives the language; any other string gives Other |
| `Factories.ParseIgnoresCase` | SpecFlow.TestProjectGenerator/Factories/ProjectBuilderFactory.cs:57 | a name and its upper-case form parse to the same language |
| `Factories.ParseRecognisesOnlyKnownNames` | SpecFlow.TestProjectGenerator/Factories/ProjectBuilderFactory.cs:57-66 | the result is not Other iff the upper-cased input is one of the seven spellings |
| `Factories.ParseLanguageName` | SpecFlow.TestProjectGenerator/Factories/ProjectBuilderFactory.cs:59-65 | one recognised spelling per language (`"C#"`, `"VB"`, `"F#"`) parses to that language |
| `Factories.ParseCSharpExamples` | SpecFlow.TestProjectGenerator/Factories/ProjectBuilderFactory.cs:59-60 | `"c#"` and `"CSharp"` parse to CSharp |
| `Factories.ParseVBExamples` | SpecFlow.TestProjectGenerator/Factories/ProjectBuilderFactory.cs:61-63 | `"vb.net"` and `"VbNet"` parse to VB |
| `Factories.ParseFSharpExamples` | SpecFlow.TestProjectGenerator/Factories/ProjectBuilderFactory.cs:64-65 | `"f#"` and `"fsharp"` parse to FSharp |
| `Factories.ParseOtherExamples` | SpecFlow.TestProjectGenerator/Factories/ProjectBuilderFactory.cs:66 | `"Java"` and `""` parse to Other without failing |
| `Factories.UpperCaseOf` | SpecFlow.TestProjectGenerator/Factories/ProjectBuilderFactory.cs:57 | a character-by-character upper-case match is the upper-case form |
| `Factories.ProjectBuilderFactory.constructor` | SpecFlow.TestProjectGenerator/Factories/ProjectBuilderFactory.cs:20-38 | the factory keeps the project folders and the run configuration it is given |
| `Factories.ProjectBuilderFactory.CreateProjectBuilder` | SpecFlow.TestProjectGenerator/Factories/ProjectBuilderFactory.cs:88-96 | a fresh builder that still carries the project name it gave itself |
| `Factories.ProjectBuilderFactory.CreateProjectInternal` | SpecFlow.TestProjectGenerator/Factories/ProjectBuilderFactory.cs:70-86 | a fresh builder with the configuration's framework, formats and provider and the given language; named as given only when the name is not null or blank |
| `Factories.ProjectBuilderFactory.CreateProject` | SpecFlow.TestProjectGenerator/Factories/ProjectBuilderFactory.cs:40-43 | the parsed language, and the builder keeps the name it gave itself |
| `Factories.ProjectBuilderFactory.CreateNamedProject` | SpecFlow.TestProjectGenerator/Factories/ProjectBuilderFactory.cs:45-48 | the parsed language and the name rule of `CreateProjectInternal` |
| `Factories.ProjectBuilderFactory.CreateNamedProjectIn` | SpecFlow.TestProjectGenerator/Factories/ProjectBuilderFactory.cs:50-53 | the given language and the name rule of `CreateProjectInternal` |
| `Memory.Solution.constructor` | SpecFlow.TestProjectGenerator/NewApi/1_Memory/Solution.cs:9-16 | a new solution's project view is empty |
| `Memory.Solution.Projects` | SpecFlow.TestProjectGenerator/NewApi/1_Memory/Solution.cs:15-19 | the read-only view of the private list: it reads the list field itself, so it shows the current contents and not a snapshot |
| `Memory.Solution.AddProject` | SpecFlow.TestProjectGenerator/NewApi/1_Memory/Solution.cs:22-25 | a non-null project is appended at the end with the earlier ones kept in order; a null project throws `ArgumentNullException("project")` and nothing changes |

## Left out

- Process launch, its try/catch and console message (`VSTestExecutionDriver.cs:77-88`): the process is the `Host.RunProcess` function. A launch failure is not modelled.
- The environment variables from `TestSuiteEnvironmentVariableGenerator` (line 75): an external collaborator, not modelled; `Host.RunProcess` does not receive them.
- File reads (`File.ReadAllText`), `Uri.UnescapeDataString`, `UriCleaner.StripSchema`/`ConvertSlashes` and `new Uri(i).AbsolutePath`: library calls and external helpers, not modelled, given as `Host` functions. That `new Uri` can throw on a malformed report line is not modelled.
- `SplitByString(Environment.NewLine, RemoveEmptyEntries)` (line 92): an external helper, not modelled, given as `Host.SplitByNewLine`. The report scan's own `String.Split` on `'\n'`/`'\r'` is modelled.
- `TRXParser.ParseTRXFile`: an external parser, not modelled, given as `Host.ParseTrxFile`. `TestExecutionResult` holds only the two fields the driver reads (`Output`, `TrxOutput`).
- `CheckIsBindingMethodExecuted` (lines 46-55): a file read plus regular-expression matching on an unescaped method name; regex semantics are out of scope.
- Order of effects in `ExecuteTests`: the log file is read before the TRX count is checked. Reads are pure functions here, so a failing log read that would happen first is not modelled.
- Culture: `IndexOf(string)`, `StartsWith(string)`, `EndsWith(string)` and `ToUpper()` are culture-sensitive in .NET. They are modelled ordinally, with ASCII upper-casing and ASCII whitespace for `Trim` and `IsNotNullOrWhiteSpace`.
- `ParseProgrammingLanguage` with a null input throws in the source. The model takes a non-null string.
- Null strings for the project folder paths and the test outputs are not modelled; they are plain strings.
- `CreateProjectBuilder`'s construction of `ProjectBuilder` and `Configuration` (with the Cucumber-messages section enabled). A builder is modelled only by the fields the factory writes plus `InitialName`, the name it gives itself. The `ProjectBuilder` constructor is not part of this model, so its contract leaves that name and the builder's other initial values open; two builders are not known to share a name.
- `CreateProjectBuilder` is `protected virtual` (line 88). The model is the base class's version; a subclass that returns some other builder is not modelled.
- `CheckOutputContainsText` and `CheckAnyOutputContainsText` with a null text: the text is a plain string here. The fluent assertion would throw `ArgumentNullException`, `String.Contains` too.
- The factory's other collaborators (feature-file, bindings and configuration generators, version driver, folders, moniker builder; lines 20-38) are passed on to `ProjectBuilder` only and are not modelled.
- The declarations of `UnitTestProvider`, `ProjectFormat`, `ConfigurationFormat`, `TargetFramework`, `TestRunConfiguration` and `TestProjectFolders` are not part of this model. Their enumeration values are assumed; only `SpecRun` and `Old` matter to the code modelled.
- `Solution.NugetConfig` (`Solution.cs:20`): an auto-property of a type (`ProjectFile`) that is not part of this model.
- `Project` is an empty class: its contents are not part of this model.
- The Cucumber-message drivers (`TestCaseStartedDriver`, `TestRunStartedDriver`): assertion wrappers over external message types and `DateTime` parsing.

## Notes on the source

- The line scan for artifact files trims each line and allows the marker anywhere in it. The report scan requires the marker at the very start of an untrimmed line.
- A path keeps any extra blanks between the marker and the path, because only the whole line is trimmed. The markers end in one blank of their own.
- `CheckOutputContainsText` goes through the fluent `Contain` assertion, which refuses an empty expected text, while `CheckAnyOutputContainsText` uses `String.Contains`, for which every output contains `""`.
- For the filter only `null` and `""` suppress `--filter`, so a blank filter such as `" "` is still passed. For the run settings a blank path also suppresses `--settings`.
