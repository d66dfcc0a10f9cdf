/**
 * The `dotnet test` execution driver: it builds the argument string, runs the test process, finds
 * the result (.trx), log and report files the runner printed, and hands them to the TRX parser.
 * Process launch, file reads, URI decoding, line splitting and the TRX parser are the `Host`'s.
 */
module TestProjectGenerator {
  import opened Wrappers
  import opened Text
  import opened Configuration
  import opened Linq

  const BeginOfTrxFileLine: string := "Results File: "
  const BeginOfLogFileLine: string := "Log file: "
  const BeginOfReportFileLine: string := "Report file: "
  const TrxExtension: string := ".trx"
  const LogExtension: string := ".log"

  // ---------------------------------------------------------------- locating artifact files

  /** A line `FindFilePath` keeps: once trimmed, it contains the marker and ends with the extension. */
  predicate IsFileLine(line: string, ending: string, starting: string) {
    var t := Trim(line);
    Contains(t, starting) && EndsWith(t, ending)
  }

  /** The part of the trimmed line that follows the first occurrence of the marker. */
  function PathAfterMarker(line: string, ending: string, starting: string): (p: string)
    requires IsFileLine(line, ending, starting)
    ensures var t := Trim(line); var at := |t| - |p| - |starting|;
            0 <= at && OccursAt(t, starting, at) && t[|t| - |p|..] == p
            && forall j :: 0 <= j < at ==> !OccursAt(t, starting, j)
  {
    var t := Trim(line);
    t[IndexOf(t, starting) + |starting|..]
  }

  /** What one line contributes to `FindFilePath`: its path, or nothing. */
  function FilePathIn(line: string, ending: string, starting: string): Option<string> {
    if IsFileLine(line, ending, starting) then Some(PathAfterMarker(line, ending, starting)) else None
  }

  function FileLineScanner(ending: string, starting: string): string -> Option<string> {
    line => FilePathIn(line, ending, starting)
  }

  /** The paths printed after `starting` on the lines that end with `ending`, in line order. */
  function FindFilePath(lines: seq<string>, ending: string, starting: string): (paths: seq<string>)
    ensures |paths| <= |lines|
  {
    Choose(lines, FileLineScanner(ending, starting))
  }

  /** Line `i` is the one and only line `FindFilePath` keeps. */
  predicate ExactlyOneFileLine(lines: seq<string>, ending: string, starting: string, i: int) {
    0 <= i < |lines| && IsFileLine(lines[i], ending, starting)
    && forall j :: 0 <= j < |lines| && IsFileLine(lines[j], ending, starting) ==> j == i
  }

  /** Searching two blocks of lines is searching each, results in the same order. */
  lemma FindFilePathAppend(a: seq<string>, b: seq<string>, ending: string, starting: string)
    ensures FindFilePath(a + b, ending, starting) == FindFilePath(a, ending, starting) + FindFilePath(b, ending, starting)
  {
    ChooseAppend(a, b, FileLineScanner(ending, starting));
  }

  /** A path is found exactly when some input line is a file line and yields it. */
  lemma FindFilePathMembership(lines: seq<string>, ending: string, starting: string, p: string)
    ensures p in FindFilePath(lines, ending, starting) <==>
            exists i :: 0 <= i < |lines| && IsFileLine(lines[i], ending, starting) && PathAfterMarker(lines[i], ending, starting) == p
  {
    var scan := FileLineScanner(ending, starting);
    ChooseMembership(lines, scan, p);
    if exists i :: 0 <= i < |lines| && IsFileLine(lines[i], ending, starting) && PathAfterMarker(lines[i], ending, starting) == p {
      var i :| 0 <= i < |lines| && IsFileLine(lines[i], ending, starting) && PathAfterMarker(lines[i], ending, starting) == p;
      assert scan(lines[i]) == Some(p);
    }
  }

  /** Nothing is found exactly when no line is a file line. */
  lemma FindFilePathEmpty(lines: seq<string>, ending: string, starting: string)
    ensures FindFilePath(lines, ending, starting) == [] <==>
            forall j :: 0 <= j < |lines| ==> !IsFileLine(lines[j], ending, starting)
  {
    var scan := FileLineScanner(ending, starting);
    ChooseEmpty(lines, scan);
    if FindFilePath(lines, ending, starting) != [] {
      var j :| 0 <= j < |lines| && scan(lines[j]).Some?;
      assert IsFileLine(lines[j], ending, starting);
    }
  }

  /**
   * Exactly one path is found exactly when exactly one line is a file line, and then the path is
   * that line's.
   */
  lemma FindFilePathSingle(lines: seq<string>, ending: string, starting: string)
    ensures |FindFilePath(lines, ending, starting)| == 1 <==> exists i :: ExactlyOneFileLine(lines, ending, starting, i)
    ensures forall i :: ExactlyOneFileLine(lines, ending, starting, i) ==>
              FindFilePath(lines, ending, starting) == [PathAfterMarker(lines[i], ending, starting)]
  {
    var scan := FileLineScanner(ending, starting);
    ChooseSingle(lines, scan);
    forall i ensures ExactlyOneFileLine(lines, ending, starting, i) <==> OnlyPicked(lines, scan, i) {
      if 0 <= i < |lines| {
        assert scan(lines[i]).Some? <==> IsFileLine(lines[i], ending, starting);
      }
    }
  }

  /** A line whose trimmed form lacks the marker contributes nothing: removing it changes no result. */
  lemma LineWithoutMarkerContributesNothing(lines: seq<string>, ending: string, starting: string, i: nat)
    requires i < |lines| && !Contains(Trim(lines[i]), starting)
    ensures FindFilePath(lines, ending, starting) == FindFilePath(lines[..i] + lines[i + 1..], ending, starting)
  {
    ChooseSkips(lines, FileLineScanner(ending, starting), i);
  }

  /**
   * When the marker's last character does not occur in the extension, the path itself ends with
   * the extension: the marker cannot overlap the extension at the end of the line.
   */
  lemma PathKeepsExtension(line: string, ending: string, starting: string)
    requires IsFileLine(line, ending, starting)
    requires |starting| > 0 && starting[|starting| - 1] !in ending
    ensures EndsWith(PathAfterMarker(line, ending, starting), ending)
  {
  }

  /** Every path found ends with the extension when the marker's last character is not in it. */
  lemma FoundPathsEndWith(lines: seq<string>, ending: string, starting: string)
    requires |starting| > 0 && starting[|starting| - 1] !in ending
    ensures forall p :: p in FindFilePath(lines, ending, starting) ==> EndsWith(p, ending)
  {
    forall p | p in FindFilePath(lines, ending, starting) ensures EndsWith(p, ending) {
      FindFilePathMembership(lines, ending, starting, p);
      var i :| 0 <= i < |lines| && IsFileLine(lines[i], ending, starting) && PathAfterMarker(lines[i], ending, starting) == p;
      PathKeepsExtension(lines[i], ending, starting);
    }
  }

  /** The .trx and .log paths the driver finds end with their extensions. */
  lemma FoundPathsKeepExtension(lines: seq<string>)
    ensures forall p :: p in FindFilePath(lines, TrxExtension, BeginOfTrxFileLine) ==> EndsWith(p, TrxExtension)
    ensures forall p :: p in FindFilePath(lines, LogExtension, BeginOfLogFileLine) ==> EndsWith(p, LogExtension)
  {
    assert BeginOfTrxFileLine[|BeginOfTrxFileLine| - 1] == ' ' && ' ' !in TrxExtension;
    FoundPathsEndWith(lines, TrxExtension, BeginOfTrxFileLine);
    assert BeginOfLogFileLine[|BeginOfLogFileLine| - 1] == ' ' && ' ' !in LogExtension;
    FoundPathsEndWith(lines, LogExtension, BeginOfLogFileLine);
  }

  /** Trimming the example line drops the two blanks at either end. */
  lemma ExampleLineTrimmed()
    ensures Trim("  Results File: C:\\x\\a.trx  ") == "Results File: C:\\x\\a.trx"
  {
    var core := "Results File: C:\\x\\a.trx";
    assert "  Results File: C:\\x\\a.trx  " == "  " + core + "  ";
    TrimOfPadded("  ", core, "  ");
  }

  /** The example of a result-file line: surrounding blanks go, the path after the marker stays. */
  lemma ResultsFileLineExample()
    ensures FindFilePath(["  Results File: C:\\x\\a.trx  "], TrxExtension, BeginOfTrxFileLine) == ["C:\\x\\a.trx"]
  {
    var line := "  Results File: C:\\x\\a.trx  ";
    var t := "Results File: C:\\x\\a.trx";
    ExampleLineTrimmed();
    assert OccursAt(t, BeginOfTrxFileLine, 0);
    assert IndexOf(t, BeginOfTrxFileLine) == 0;
    assert EndsWith(t, TrxExtension);
    assert FilePathIn(line, TrxExtension, BeginOfTrxFileLine) == Some("C:\\x\\a.trx");
    var lines: seq<string> := [line];
    assert lines[1..] == [];
  }

  // ---------------------------------------------------------------- report files

  /** The separators `GetReportFiles` splits the output on. */
  const LineBreaks: set<char> := {'\n', '\r'}

  /** What one output line contributes to `GetReportFiles`: the absolute path of the URI after the marker. */
  function ReportFileIn(line: string, absolutePath: string -> string): Option<string> {
    if StartsWith(line, BeginOfReportFileLine) then Some(absolutePath(line[|BeginOfReportFileLine|..])) else None
  }

  function ReportLineScanner(absolutePath: string -> string): string -> Option<string> {
    line => ReportFileIn(line, absolutePath)
  }

  /**
   * The report files the runner printed: the non-empty lines of the output that begin (untrimmed)
   * with the marker, with the rest of the line read as a URI and turned into its absolute path.
   */
  function GetReportFiles(output: string, absolutePath: string -> string): (files: seq<string>)
    ensures |files| <= |Split(output, LineBreaks)|
  {
    Choose(Split(output, LineBreaks), ReportLineScanner(absolutePath))
  }

  /** A report file is listed exactly when some output line starts with the marker and names it. */
  lemma GetReportFilesMembership(output: string, absolutePath: string -> string, f: string)
    ensures f in GetReportFiles(output, absolutePath) <==>
            exists line :: line in Split(output, LineBreaks) && StartsWith(line, BeginOfReportFileLine)
                           && f == absolutePath(line[|BeginOfReportFileLine|..])
  {
    var lines, scan := Split(output, LineBreaks), ReportLineScanner(absolutePath);
    ChooseMembership(lines, scan, f);
    if f in GetReportFiles(output, absolutePath) {
      var i :| 0 <= i < |lines| && scan(lines[i]) == Some(f);
      assert lines[i] in lines;
    }
    if exists line :: line in lines && StartsWith(line, BeginOfReportFileLine) && f == absolutePath(line[|BeginOfReportFileLine|..]) {
      var line :| line in lines && StartsWith(line, BeginOfReportFileLine) && f == absolutePath(line[|BeginOfReportFileLine|..]);
      var i :| 0 <= i < |lines| && lines[i] == line;
      assert scan(lines[i]) == Some(f);
    }
  }

  // ---------------------------------------------------------------- dotnet test arguments

  /** One fragment of the `dotnet test` argument string. */
  datatype VsTestArgument =
    | Logger                          // --logger trx
    | TestAdapterPath(path: string)   // -a "<path>"
    | TestCaseFilter(filter: string)  // --filter "<filter>"
    | RunSettings(file: string)       // --settings "<file>"
    | Target(solution: string)        // "<solution file>"

  /** The position of each kind of fragment in the argument string. */
  function Rank(a: VsTestArgument): nat {
    match a
    case Logger => 0
    case TestAdapterPath(_) => 1
    case TestCaseFilter(_) => 2
    case RunSettings(_) => 3
    case Target(_) => 4
  }

  /** The text of one fragment; every fragment after the first starts with a blank. */
  function Render(a: VsTestArgument): string {
    match a
    case Logger => "--logger trx"
    case TestAdapterPath(p) => " -a \"" + p + "\""
    case TestCaseFilter(f) => " --filter \"" + f + "\""
    case RunSettings(f) => " --settings \"" + f + "\""
    case Target(s) => " \"" + s + "\""
  }

  function RenderAll(args: seq<VsTestArgument>): string {
    if args == [] then "" else Render(args[0]) + RenderAll(args[1..])
  }

  lemma {:induction false} RenderAllAppendOne(args: seq<VsTestArgument>, a: VsTestArgument)
    ensures RenderAll(args + [a]) == RenderAll(args) + Render(a)
  {
    if args == [] {
      assert [a][1..] == [];
    } else {
      assert (args + [a])[1..] == args[1..] + [a];
      RenderAllAppendOne(args[1..], a);
    }
  }

  /** The fragments `dotnet test` is given, in the order the string builder appends them. */
  function VsTestArguments(configuration: TestRunConfiguration, folders: TestProjectFolders,
                           filter: Option<string>, runSettingsFile: Option<string>): (args: seq<VsTestArgument>)
    ensures 2 <= |args| <= 5 && args[0] == Logger && args[|args| - 1] == Target(folders.PathToSolutionFile)
  {
    [Logger] + AdapterArgument(configuration, folders) + FilterArgument(filter)
    + RunSettingsArgument(runSettingsFile) + [Target(folders.PathToSolutionFile)]
  }

  /** The test-adapter fragment, passed for every provider but SpecRun on an Old-format project. */
  function AdapterArgument(configuration: TestRunConfiguration, folders: TestProjectFolders): seq<VsTestArgument> {
    if configuration.UnitTestProvider != SpecRun && configuration.ProjectFormat == Old
    then [TestAdapterPath(folders.PathToNuGetPackages)] else []
  }

  /** The filter fragment, passed when the filter is neither null nor empty. */
  function FilterArgument(filter: Option<string>): seq<VsTestArgument> {
    if IsNotNullOrEmpty(filter) then [TestCaseFilter(filter.value)] else []
  }

  /** The run-settings fragment, passed when the file name is neither null nor blank. */
  function RunSettingsArgument(runSettingsFile: Option<string>): seq<VsTestArgument> {
    if IsNotNullOrWhiteSpace(runSettingsFile) then [RunSettings(runSettingsFile.value)] else []
  }

  /** The fragments always come in the order logger, adapter, filter, settings, solution, each kind at most once. */
  lemma VsTestArgumentsOrdered(configuration: TestRunConfiguration, folders: TestProjectFolders,
                               filter: Option<string>, runSettingsFile: Option<string>)
    ensures var args := VsTestArguments(configuration, folders, filter, runSettingsFile);
            forall i, j :: 0 <= i < j < |args| ==> Rank(args[i]) < Rank(args[j])
  {
  }

  /**
   * Which optional fragments appear: the test-adapter path exactly when the provider is not
   * SpecRun and the project format is Old; the filter exactly when it is set and non-empty; the
   * run settings exactly when they are set and not blank. Each carries the configured value.
   */
  lemma VsTestArgumentsContents(configuration: TestRunConfiguration, folders: TestProjectFolders,
                                filter: Option<string>, runSettingsFile: Option<string>)
    ensures var args := VsTestArguments(configuration, folders, filter, runSettingsFile);
            && (TestAdapterPath(folders.PathToNuGetPackages) in args <==>
                configuration.UnitTestProvider != SpecRun && configuration.ProjectFormat == Old)
            && (forall a :: a in args && a.TestAdapterPath? ==> a.path == folders.PathToNuGetPackages)
            && (filter.Some? ==> (TestCaseFilter(filter.value) in args <==> IsNotNullOrEmpty(filter)))
            && (forall a :: a in args && a.TestCaseFilter? ==> IsNotNullOrEmpty(filter) && filter == Some(a.filter))
            && (runSettingsFile.Some? ==> (RunSettings(runSettingsFile.value) in args <==> IsNotNullOrWhiteSpace(runSettingsFile)))
            && (forall a :: a in args && a.RunSettings? ==> IsNotNullOrWhiteSpace(runSettingsFile) && runSettingsFile == Some(a.file))
  {
  }

  /** The rendered arguments start with the logger flag and end with the quoted solution path. */
  lemma RenderedArgumentsBoundaries(args: seq<VsTestArgument>, solution: string)
    requires |args| >= 2 && args[0] == Logger && args[|args| - 1] == Target(solution)
    ensures StartsWith(RenderAll(args), "--logger trx")
    ensures EndsWith(RenderAll(args), " \"" + solution + "\"")
  {
    var init := args[..|args| - 1];
    assert args == init + [Target(solution)];
    RenderAllAppendOne(init, Target(solution));
    assert RenderAll(init) == Render(Logger) + RenderAll(init[1..]);
  }

  /**
   * The argument string always starts with the logger flag and ends with the quoted solution
   * path, whatever the configuration, filter and run settings.
   */
  lemma ArgumentStringBoundaries(configuration: TestRunConfiguration, folders: TestProjectFolders,
                                 filter: Option<string>, runSettingsFile: Option<string>)
    ensures var arguments := RenderAll(VsTestArguments(configuration, folders, filter, runSettingsFile));
            StartsWith(arguments, "--logger trx") && EndsWith(arguments, " \"" + folders.PathToSolutionFile + "\"")
  {
    RenderedArgumentsBoundaries(VsTestArguments(configuration, folders, filter, runSettingsFile), folders.PathToSolutionFile);
  }

  // ---------------------------------------------------------------- the driver

  /** The parts of `TestExecutionResult` the driver's own checks read. */
  datatype TestExecutionResult = TestExecutionResult(Output: string, TrxOutput: string)

  /**
   * What the driver calls but does not itself decide: launching a process, splitting its output
   * into lines, reading files, URI decoding and the TRX parser.
   */
  datatype Host = Host(
    RunProcess: (string, string, string) -> string,  // (working directory, executable, arguments) to combined output
    SplitByNewLine: string -> seq<string>,           // SplitByString(Environment.NewLine, RemoveEmptyEntries)
    ReadAllText: string -> string,                   // File.ReadAllText
    CleanLogPath: string -> string,                  // UnescapeDataString, then StripSchema, then ConvertSlashes
    AbsolutePath: string -> string,                  // new Uri(path).AbsolutePath
    ParseTrxFile: (string, string, seq<string>, string) -> TestExecutionResult)  // (trx file, output, report files, log content)

  /** The assertion `ExecuteTests` fails on: not exactly one TRX file; it lists those found. */
  datatype ExecutionError = TrxFileCount(found: seq<string>)

  /** What the output of one run yields for the TRX parser. */
  datatype Artifacts = Artifacts(TrxFile: string, LogFileContent: string, ReportFiles: seq<string>)

  /**
   * The artifact decisions of `ExecuteTests`: the run succeeds exactly when exactly one output
   * line names a .trx file, and that is the file parsed; the log is read exactly when exactly one
   * line names a .log file, and is empty otherwise.
   */
  function LocateArtifacts(output: string, lines: seq<string>, host: Host): (r: Result<Artifacts, ExecutionError>)
    ensures r.Success? <==> exists i :: ExactlyOneFileLine(lines, TrxExtension, BeginOfTrxFileLine, i)
    ensures r.Failure? ==> r.error == TrxFileCount(FindFilePath(lines, TrxExtension, BeginOfTrxFileLine))
    ensures r.Success? ==> forall i :: ExactlyOneFileLine(lines, TrxExtension, BeginOfTrxFileLine, i) ==>
              r.value.TrxFile == PathAfterMarker(lines[i], TrxExtension, BeginOfTrxFileLine)
    ensures r.Success? ==> forall i :: ExactlyOneFileLine(lines, LogExtension, BeginOfLogFileLine, i) ==>
              r.value.LogFileContent == host.ReadAllText(host.CleanLogPath(PathAfterMarker(lines[i], LogExtension, BeginOfLogFileLine)))
    ensures r.Success? && (forall i :: !ExactlyOneFileLine(lines, LogExtension, BeginOfLogFileLine, i)) ==>
              r.value.LogFileContent == ""
    ensures r.Success? ==> r.value.ReportFiles == GetReportFiles(output, host.AbsolutePath)
  {
    var trxFiles := FindFilePath(lines, TrxExtension, BeginOfTrxFileLine);
    var logFiles := FindFilePath(lines, LogExtension, BeginOfLogFileLine);
    FindFilePathSingle(lines, TrxExtension, BeginOfTrxFileLine);
    FindFilePathSingle(lines, LogExtension, BeginOfLogFileLine);
    var logFileContent := if |logFiles| == 1 then host.ReadAllText(host.CleanLogPath(logFiles[0])) else "";
    var reportFiles := GetReportFiles(output, host.AbsolutePath);
    if |trxFiles| != 1 then Failure(TrxFileCount(trxFiles))
    else Success(Artifacts(trxFiles[0], logFileContent, reportFiles))
  }

  /** Why one of the driver's output checks did not pass. */
  datatype CheckFailure =
    | NoTestExecutionResult           // LastTestExecutionResult is still null
    | EmptyExpectedText               // the assertion library refuses to look for the empty string
    | OutputDoesNotContain(text: string)
    | NeitherOutputContains(because: string)



  class VSTestExecutionDriver {
    const testProjectFolders: TestProjectFolders
    const testRunConfiguration: TestRunConfiguration

    var LastTestExecutionResult: Option<TestExecutionResult>
    var RunSettingsFile: Option<string>
    var Filter: Option<string>

    constructor (testProjectFolders: TestProjectFolders, testRunConfiguration: TestRunConfiguration)
      ensures this.testProjectFolders == testProjectFolders && this.testRunConfiguration == testRunConfiguration
      ensures LastTestExecutionResult == None && RunSettingsFile == None && Filter == None
    {
      this.testProjectFolders := testProjectFolders;
      this.testRunConfiguration := testRunConfiguration;
      LastTestExecutionResult := None;
      RunSettingsFile := None;
      Filter := None;
    }

    /**
     * The `dotnet test` arguments, appended fragment by fragment: the rendering of
     * `VsTestArguments` for the current `Filter` and `RunSettingsFile` (see `ArgumentStringBoundaries`).
     */
    method GenerateVsTestsArguments() returns (arguments: string)
      ensures arguments == RenderAll(VsTestArguments(testRunConfiguration, testProjectFolders, Filter, RunSettingsFile))
    {
      ghost var appended := [Logger];
      var argumentsBuilder := "--logger trx";
      assert argumentsBuilder == RenderAll(appended);

      if testRunConfiguration.UnitTestProvider != SpecRun {
        if testRunConfiguration.ProjectFormat == Old {
          var fragment := " -a \"" + testProjectFolders.PathToNuGetPackages + "\"";
          RenderAllAppendOne(appended, TestAdapterPath(testProjectFolders.PathToNuGetPackages));
          argumentsBuilder := argumentsBuilder + fragment;
          appended := appended + [TestAdapterPath(testProjectFolders.PathToNuGetPackages)];
        }
      }
      assert argumentsBuilder == RenderAll(appended);
      assert appended == [Logger] + AdapterArgument(testRunConfiguration, testProjectFolders);

      ghost var beforeFilter := appended;
      if IsNotNullOrEmpty(Filter) {
        var fragment := " --filter \"" + Filter.value + "\"";
        RenderAllAppendOne(appended, TestCaseFilter(Filter.value));
        argumentsBuilder := argumentsBuilder + fragment;
        appended := appended + [TestCaseFilter(Filter.value)];
      }
      assert argumentsBuilder == RenderAll(appended);
      assert appended == beforeFilter + FilterArgument(Filter);

      ghost var beforeSettings := appended;
      if IsNotNullOrWhiteSpace(RunSettingsFile) {
        var fragment := " --settings \"" + RunSettingsFile.value + "\"";
        RenderAllAppendOne(appended, RunSettings(RunSettingsFile.value));
        argumentsBuilder := argumentsBuilder + fragment;
        appended := appended + [RunSettings(RunSettingsFile.value)];
      }
      assert argumentsBuilder == RenderAll(appended);
      assert appended == beforeSettings + RunSettingsArgument(RunSettingsFile);

      var fragment := " \"" + testProjectFolders.PathToSolutionFile + "\"";
      RenderAllAppendOne(appended, Target(testProjectFolders.PathToSolutionFile));
      argumentsBuilder := argumentsBuilder + fragment;
      appended := appended + [Target(testProjectFolders.PathToSolutionFile)];
      assert appended == VsTestArguments(testRunConfiguration, testProjectFolders, Filter, RunSettingsFile);

      arguments := argumentsBuilder;
    }

    /**
     * Runs `dotnet test` with the generated arguments in the project folder and locates the
     * artifacts in its output; on success the parsed result becomes `LastTestExecutionResult`,
     * on failure (not exactly one TRX file) nothing changes.
     */
    method ExecuteTests(host: Host) returns (r: Result<TestExecutionResult, ExecutionError>)
      modifies this`LastTestExecutionResult
      ensures var output := host.RunProcess(testProjectFolders.ProjectFolder, "dotnet",
                "test " + RenderAll(VsTestArguments(testRunConfiguration, testProjectFolders, Filter, RunSettingsFile)));
              match LocateArtifacts(output, host.SplitByNewLine(output), host)
              case Failure(e) => r == Failure(e) && LastTestExecutionResult == old(LastTestExecutionResult)
              case Success(a) =>
                && r == Success(host.ParseTrxFile(a.TrxFile, output, a.ReportFiles, a.LogFileContent))
                && LastTestExecutionResult == Some(r.value)
    {
      var arguments := GenerateVsTestsArguments();
      arguments := "test " + arguments;
      var output := host.RunProcess(testProjectFolders.ProjectFolder, "dotnet", arguments);
      var lines := host.SplitByNewLine(output);
      var located := LocateArtifacts(output, lines, host);
      if located.Failure? {
        return Failure(located.error);
      }
      var artifacts := located.value;
      var result := host.ParseTrxFile(artifacts.TrxFile, output, artifacts.ReportFiles, artifacts.LogFileContent);
      LastTestExecutionResult := Some(result);
      r := Success(result);
    }

    /**
     * Passes exactly when there is a last result, `text` is not empty and the program output
     * contains it. The fluent `Contain` assertion rejects an empty expected string outright,
     * so `""` fails even though every string contains it.
     */
    function CheckOutputContainsText(text: string): (outcome: Outcome<CheckFailure>)
      reads this
      ensures outcome.Pass? <==> LastTestExecutionResult.Some? && text != [] && Contains(LastTestExecutionResult.value.Output, text)
      ensures LastTestExecutionResult.None? ==> outcome == Fail(NoTestExecutionResult)
      ensures LastTestExecutionResult.Some? && text == [] ==> outcome == Fail(EmptyExpectedText)
    {
      match LastTestExecutionResult
      case None => Fail(NoTestExecutionResult)
      case Some(result) =>
        if text == [] then Fail(EmptyExpectedText)
        else if IndexOf(result.Output, text) >= 0 then Pass
        else Fail(OutputDoesNotContain(text))
    }

    /** Passes exactly when there is a last result and its TRX output or its program output contains `text`. */
    function CheckAnyOutputContainsText(text: string): (outcome: Outcome<CheckFailure>)
      reads this
      ensures outcome.Pass? <==>
              (LastTestExecutionResult.Some?
               && (Contains(LastTestExecutionResult.value.TrxOutput, text) || Contains(LastTestExecutionResult.value.Output, text)))
      ensures LastTestExecutionResult.None? ==> outcome == Fail(NoTestExecutionResult)
    {
      match LastTestExecutionResult
      case None => Fail(NoTestExecutionResult)
      case Some(result) =>
        var trxContainsEntry := IndexOf(result.TrxOutput, text) >= 0;
        var outputContainsEntry := IndexOf(result.Output, text) >= 0;
        if trxContainsEntry || outputContainsEntry then Pass
        else Fail(NeitherOutputContains("either Trx output or program output should contain '" + text + "'"))
    }
  }

  /**
   * The two output checks part ways on the empty text: the fluent assertion rejects it, while
   * the plain `String.Contains` test finds it in any output.
   */
  lemma ChecksDisagreeOnEmptyText(driver: VSTestExecutionDriver)
    requires driver.LastTestExecutionResult.Some?
    ensures driver.CheckOutputContainsText([]) == Fail(EmptyExpectedText)
    ensures driver.CheckAnyOutputContainsText([]) == Pass
  {
  }
}
