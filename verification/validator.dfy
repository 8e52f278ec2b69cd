/**
 * `IrreversibleMigrationsValidator::__invoke`: check every migration file of
 * one directory and map the outcome to a process exit code. The filesystem
 * and the parser are parameters: `stat` is what the filesystem reports for
 * the directory path once its trailing slashes are trimmed, and `parse`
 * gives, for a file path, the parser's result on that file's contents.
 * The empty path (all a path of slashes trims to) is never a directory,
 * whatever `stat` says.
 */
module Validator {
  import opened PhpStrings
  import opened MigrationFiles
  import opened FileFinder
  import opened SyntaxTree
  import opened RollbackRule

  const ExitCodeSuccess: int := 0
  const ExitCodeError: int := 1

  /** The verdict on one migration file, with the path it was reported under. */
  datatype FileReport = FileReport(path: string, verdict: Verdict)

  /** Where the run stopped: the path was no directory, it held no migrations, or a summary was printed. */
  datatype RunEnd = NotADirectory | NoMigrationFiles | Summarized

  /** Everything the run decides: per-file verdicts, the two counters, the exit code, whether the example is shown. */
  datatype RunResult = RunResult(
    end: RunEnd,
    reports: seq<FileReport>,
    filesCount: nat,
    errorsCount: nat,
    exitCode: int,
    showsExample: bool)

  /** `resolveFilePath` then `analyzeMigrationFileCode` on each name, in listing order. */
  function AnalyzeFiles(dir: string, names: seq<string>, parse: string -> ParseResult): (reports: seq<FileReport>)
    ensures |reports| == |names|
    ensures forall k :: 0 <= k < |names| ==>
              && reports[k].path == JoinPath(dir, names[k])
              && reports[k].verdict == AnalyzeMigrationFileCode(parse(JoinPath(dir, names[k])))
    decreases |names|
  {
    if |names| == 0 then []
    else
      var path := JoinPath(dir, names[|names| - 1]);
      AnalyzeFiles(dir, names[..|names| - 1], parse) + [FileReport(path, AnalyzeMigrationFileCode(parse(path)))]
  }

  /** How many reports carry a failure; each failing file is counted once. */
  function CountFailures(reports: seq<FileReport>): (n: nat)
    ensures n <= |reports|
    ensures n == 0 <==> forall k :: 0 <= k < |reports| ==> reports[k].verdict == Pass
    ensures n == |reports| <==> forall k :: 0 <= k < |reports| ==> reports[k].verdict.Fail?
    decreases |reports|
  {
    if |reports| == 0 then 0
    else
      var init := reports[..|reports| - 1];
      var n0 := CountFailures(init);
      assert forall k :: 0 <= k < |init| ==> init[k] == reports[k];
      n0 + (if reports[|reports| - 1].verdict.Fail? then 1 else 0)
  }

  lemma AnalyzeFilesStep(dir: string, names: seq<string>, i: nat, parse: string -> ParseResult)
    requires i < |names|
    ensures AnalyzeFiles(dir, names[..i + 1], parse)
            == AnalyzeFiles(dir, names[..i], parse)
               + [FileReport(JoinPath(dir, names[i]), AnalyzeMigrationFileCode(parse(JoinPath(dir, names[i]))))]
  {
    assert names[..i + 1][..i] == names[..i];
  }

  lemma CountFailuresStep(reports: seq<FileReport>, last: FileReport)
    ensures CountFailures(reports + [last]) == CountFailures(reports) + (if last.verdict.Fail? then 1 else 0)
  {
    assert (reports + [last])[..|reports|] == reports;
  }

  /**
   * The tail of `__invoke` once every file has been analyzed: no files is an
   * error; otherwise the summary is printed and any failure makes the run fail.
   */
  function Summarize(reports: seq<FileReport>): (r: RunResult)
    ensures r.reports == reports
    ensures r.filesCount == |reports| && r.errorsCount == CountFailures(reports)
    ensures r.end == (if |reports| == 0 then NoMigrationFiles else Summarized)
    ensures r.exitCode == ExitCodeSuccess || r.exitCode == ExitCodeError
    ensures r.exitCode == ExitCodeSuccess <==>
              |reports| > 0 && forall k :: 0 <= k < |reports| ==> reports[k].verdict == Pass
    ensures r.showsExample <==> exists k :: 0 <= k < |reports| && reports[k].verdict.Fail?
  {
    var filesCount := |reports|;
    var errorsCount := CountFailures(reports);
    if filesCount == 0 then RunResult(NoMigrationFiles, reports, 0, 0, ExitCodeError, false)
    else if errorsCount > 0 then RunResult(Summarized, reports, filesCount, errorsCount, ExitCodeError, true)
    else RunResult(Summarized, reports, filesCount, 0, ExitCodeSuccess, false)
  }

  /** `is_dir` on the trimmed path: the empty path names no directory. */
  predicate IsDirectory(dir: string, stat: Stat)
  {
    dir != "" && stat.Directory?
  }

  /** The outcome of one run on directory `path`, as a reference definition. */
  function Run(path: string, stat: Stat, parse: string -> ParseResult): (r: RunResult)
    ensures !IsDirectory(RTrimSlashes(path), stat) ==>
              r.end == NotADirectory && r.reports == [] && r.exitCode == ExitCodeError && !r.showsExample
    ensures IsDirectory(RTrimSlashes(path), stat) ==>
              r.reports == AnalyzeFiles(RTrimSlashes(path), FilterPhpNames(stat.listing), parse)
    ensures r.filesCount == |r.reports| && r.errorsCount == CountFailures(r.reports)
    ensures r.exitCode == ExitCodeSuccess || r.exitCode == ExitCodeError
    ensures r.exitCode == ExitCodeSuccess <==>
              IsDirectory(RTrimSlashes(path), stat) && |r.reports| > 0
              && forall k :: 0 <= k < |r.reports| ==> r.reports[k].verdict == Pass
    ensures r.showsExample <==> r.errorsCount > 0
  {
    var dir := RTrimSlashes(path);
    if IsDirectory(dir, stat) then Summarize(AnalyzeFiles(dir, FilterPhpNames(stat.listing), parse))
    else RunResult(NotADirectory, [], 0, 0, ExitCodeError, false)
  }

  /** The `foreach` of `__invoke`: analyze each file in turn, counting the failing ones. */
  method AnalyzeEach(dir: string, fileNameList: seq<string>, parse: string -> ParseResult)
    returns (reports: seq<FileReport>, errorsCount: nat)
    ensures reports == AnalyzeFiles(dir, fileNameList, parse)
    ensures errorsCount == CountFailures(reports)
  {
    errorsCount := 0;
    reports := [];
    var i := 0;
    while i < |fileNameList|
      invariant 0 <= i <= |fileNameList|
      invariant reports == AnalyzeFiles(dir, fileNameList[..i], parse)
      invariant errorsCount == CountFailures(reports)
    {
      var filePath := JoinPath(dir, fileNameList[i]);
      var verdict := AnalyzeMigrationFileCode(parse(filePath));
      AnalyzeFilesStep(dir, fileNameList, i, parse);
      CountFailuresStep(reports, FileReport(filePath, verdict));
      if verdict.Fail? {
        errorsCount := errorsCount + 1;
      }
      reports := reports + [FileReport(filePath, verdict)];
      i := i + 1;
    }
    assert fileNameList[..|fileNameList|] == fileNameList;
  }

  /** `__invoke`: trim, require a directory, filter its listing, analyze every file, then decide the exit code. */
  method Invoke(path: string, stat: Stat, parse: string -> ParseResult) returns (result: RunResult)
    ensures result == Run(path, stat, parse)
  {
    var dir := RTrimSlashes(path);
    if !IsDirectory(dir, stat) {
      return RunResult(NotADirectory, [], 0, 0, ExitCodeError, false);
    }
    var fileNameList := FilterMigrationFiles(stat.listing);
    var filesCount := |fileNameList|;
    var reports, errorsCount := AnalyzeEach(dir, fileNameList, parse);
    if filesCount == 0 {
      return RunResult(NoMigrationFiles, reports, 0, 0, ExitCodeError, false);
    }
    if errorsCount > 0 {
      return RunResult(Summarized, reports, filesCount, errorsCount, ExitCodeError, true);
    }
    return RunResult(Summarized, reports, filesCount, errorsCount, ExitCodeSuccess, false);
  }

  /** A path made only of slashes trims to the empty path, which is no directory: exit 1, nothing analyzed. */
  lemma SlashOnlyPathIsNotADirectory(listing: seq<string>, parse: string -> ParseResult)
    ensures var r := Run("/", Directory(listing), parse);
            r.end == NotADirectory && r.exitCode == ExitCodeError && r.filesCount == 0
  {
    assert RTrimSlashes("/") == RTrimSlashes("");
  }

  /**
   * A parse failure stays with its file: that file's report carries the
   * parser's message, and every other file is still analyzed and counted.
   */
  lemma ParseErrorStaysWithItsFile(path: string, listing: seq<string>, parse: string -> ParseResult, k: nat)
    requires RTrimSlashes(path) != ""
    requires k < |FilterPhpNames(listing)|
    requires parse(JoinPath(RTrimSlashes(path), FilterPhpNames(listing)[k])).ParseError?
    ensures var r := Run(path, Directory(listing), parse);
            && r.end == Summarized
            && r.filesCount == |FilterPhpNames(listing)|
            && r.reports[k].verdict
               == Fail(ParseFailed(parse(JoinPath(RTrimSlashes(path), FilterPhpNames(listing)[k])).message))
            && r.exitCode == ExitCodeError
  {
    var r := Run(path, Directory(listing), parse);
    assert r.reports[k].verdict.Fail?;
  }
}

/** A worked run over a directory holding one compliant and one non-compliant migration. */
module ValidatorExample {
  import opened PhpStrings
  import opened MigrationFiles
  import opened FileFinder
  import opened SyntaxTree
  import opened RollbackRule
  import opened Validator

  /** A migration whose `down` method has an empty body. */
  const EmptyDownClass: Node := Node(ClassLike("EmptyRollback"), [Node(ClassMethod("down"), [])])

  /** The parser's view of the two files of the example directory. */
  function ExampleParse(p: string): ParseResult
  {
    if p == "migrations/a.php" then Parsed([FixtureClass]) else Parsed([EmptyDownClass])
  }

  const ExampleListing: seq<string> := [".", "..", "a.php", "b.php", "notes.txt"]

  lemma ExampleFilter()
    ensures FilterPhpNames(ExampleListing) == ["a.php", "b.php"]
  {
    var l := ExampleListing;
    assert !IsMigrationFileName(l[0]) && !IsMigrationFileName(l[1]);
    assert IsSuffix(PhpSuffix, l[2]) && IsSuffix(PhpSuffix, l[3]);
    assert l[4][|l[4]| - 4..][1] != PhpSuffix[1];
    assert !IsSuffix(PhpSuffix, l[4]);
    assert l[..1][..0] == [];
    assert FilterPhpNames(l[..1]) == [];
    assert l[..2][..1] == l[..1];
    assert FilterPhpNames(l[..2]) == [];
    assert l[..3][..2] == l[..2];
    assert FilterPhpNames(l[..3]) == ["a.php"];
    assert l[..4][..3] == l[..3];
    assert FilterPhpNames(l[..4]) == ["a.php", "b.php"];
    assert l[..4] == l[..|l| - 1];
  }

  lemma EmptyDownFails()
    ensures AnalyzeMigrationFileCode(Parsed([EmptyDownClass])) == Fail(EmptyRollbackBody)
  {
    var down := Node(ClassMethod("down"), []);
    assert PreOrder([EmptyDownClass]) == [EmptyDownClass] + PreOrder([down]) + PreOrder([]);
    assert PreOrder([down]) == [down] + PreOrder([]) + PreOrder([]);
    var visited := PreOrder([EmptyDownClass]);
    assert visited == [EmptyDownClass, down];
    assert MethodsAmong(visited) == MethodsAmong(visited[1..]);
    assert MethodsAmong(visited[1..]) == [MethodDecl("down", [])] + MethodsAmong(visited[2..]);
  }

  lemma ExampleReports()
    ensures AnalyzeFiles("migrations", ["a.php", "b.php"], ExampleParse)
            == [FileReport("migrations/a.php", Pass), FileReport("migrations/b.php", Fail(EmptyRollbackBody))]
  {
    assert JoinPath("migrations", "a.php") == "migrations/a.php";
    assert JoinPath("migrations", "b.php") == "migrations/b.php";
    assert "migrations/b.php"[11] != "migrations/a.php"[11];
    SuccessMigrationFixturePasses();
    EmptyDownFails();
  }

  const ExampleReportList: seq<FileReport> :=
    [FileReport("migrations/a.php", Pass), FileReport("migrations/b.php", Fail(EmptyRollbackBody))]

  lemma ExampleRunReports()
    ensures Run("migrations/", Directory(ExampleListing), ExampleParse).reports == ExampleReportList
  {
    ExampleFilter();
    assert RTrimSlashes("migrations/") == "migrations";
    ExampleReports();
  }

  lemma ExampleFailureCount()
    ensures CountFailures(ExampleReportList) == 1
  {
    var reports := ExampleReportList;
    assert reports[..1][..0] == [];
    assert CountFailures(reports[..1]) == 0;
  }

  /** One passing and one failing file: two analyzed, one error, exit code 1, example shown. */
  lemma OnePassingOneFailing()
    ensures var r := Run("migrations/", Directory(ExampleListing), ExampleParse);
            && r.filesCount == 2
            && r.errorsCount == 1
            && r.exitCode == ExitCodeError
            && r.showsExample
  {
    ExampleRunReports();
    ExampleFailureCount();
  }
}
