/**
 * The command-line front end of the Selenium runner: which action an
 * argument vector selects, given the member functions of the test class,
 * and what the script then prints, where it writes its XML report and how
 * it exits. Running the tests themselves is an abstract step.
 */
module Dispatch {
  import opened Optional
  import opened PyStrings
  import opened Sequences
  import opened Layout

  const XmlFlag := "--xml"
  const AllCommand := "all"
  const ListCommand := "list"
  const ListingHeader := "Available tests:"
  const Bullet := "  - "

  const UsageLines := [
    "Usage:",
    "  python run_selenium_tests.py all            # Run all tests",
    "  python run_selenium_tests.py all --xml      # Run all tests with XML report",
    "  python run_selenium_tests.py list           # List available tests",
    "  python run_selenium_tests.py test_name      # Run a specific test",
    "  python run_selenium_tests.py test_name --xml  # Run a specific test with XML report"
  ]

  /** What the script does with its arguments. */
  datatype Action =
    | ShowUsage
    | RunAll(xml: bool, args: seq<string>)
    | ListTests
    | RunOne(name: string, xml: bool)
    | TestNotFound(name: string)

  /**
   * The test run the script starts; its outcome is not part of this model.
   * `FrameworkMain(args)` is `unittest.main(module='selenium_tests')`, which
   * takes the script's arguments from `argv[1]` on as its own command line
   * and chooses the tests from them.
   */
  datatype TestRun = AllTests | OneTest(name: string) | FrameworkMain(args: seq<string>)

  /** An explicit `sys.exit(code)` or normal end (code 0), or the exit the test framework chooses. */
  datatype Exit = ExitWith(code: int) | FrameworkExit

  /** Everything the script does apart from running the tests. */
  datatype Response = Response(output: seq<string>, run: Option<TestRun>, reportDir: Option<string>, exit: Exit)

  /** A member function that names a test. */
  predicate IsTestName(name: string) {
    StartsWith(name, TestPrefix)
  }

  /** The test names among the class's member functions, in `inspect.getmembers` order. */
  function AvailableTests(members: seq<string>): seq<string> {
    Filter(IsTestName, members)
  }

  function Bullets(names: seq<string>): (lines: seq<string>)
    ensures |lines| == |names|
  {
    seq(|names|, i requires 0 <= i < |names| => Bullet + names[i])
  }

  /** What `list_available_tests` prints. */
  function ListingLines(members: seq<string>): seq<string> {
    [ListingHeader] + Bullets(AvailableTests(members))
  }

  function NotFoundLine(command: string): string {
    "Error: Test '" + command + "' not found."
  }

  function GeneratedLine(dir: string): string {
    "XML report generated in: " + dir
  }

  /** The XML report directory of a full run. */
  function ReportDirAll(timestamp: string): string {
    ReportsDir + "/" + SuiteReportStem + timestamp
  }

  /** The XML report directory of a single-test run. */
  function ReportDirOne(testName: string, timestamp: string): string {
    ReportsDir + "/" + testName + "_" + timestamp
  }

  /** The `__main__` decision over `sys.argv`. */
  function Decide(argv: seq<string>, members: seq<string>): Action {
    if |argv| < 2 then ShowUsage
    else
      var command := argv[1];
      var xml := XmlFlag in argv;
      if command == AllCommand then RunAll(xml, argv[1..])
      else if command == ListCommand then ListTests
      else if command in members && IsTestName(command) then RunOne(command, xml)
      else TestNotFound(command)
  }

  /** What the chosen action prints, runs and writes, and how the script exits. */
  function Respond(action: Action, members: seq<string>, timestamp: string): Response {
    match action
    case ShowUsage => Response(UsageLines, None, None, ExitWith(1))
    case RunAll(xml, args) =>
      if xml then
        var dir := ReportDirAll(timestamp);
        Response([GeneratedLine(dir)], Some(AllTests), Some(dir), ExitWith(0))
      else Response([], Some(FrameworkMain(args)), None, FrameworkExit)
    case ListTests => Response(ListingLines(members), None, None, ExitWith(0))
    case RunOne(name, xml) =>
      if xml then
        var dir := ReportDirOne(name, timestamp);
        Response([GeneratedLine(dir)], Some(OneTest(name)), Some(dir), ExitWith(0))
      else Response([], Some(OneTest(name)), None, ExitWith(0))
    case TestNotFound(name) => Response([NotFoundLine(name)] + ListingLines(members), None, None, ExitWith(1))
  }

  /** The listed names are exactly the member functions whose names start with `test_`, in order. */
  lemma AvailableTestsExactly(members: seq<string>, name: string)
    ensures name in AvailableTests(members) <==> name in members && IsTestName(name)
    ensures IsSubsequence(AvailableTests(members), members)
  {
    FilterMembership(IsTestName, members, name);
    FilterSubsequence(IsTestName, members);
  }

  /** A bullet line of the listing for each available test, and for nothing else. */
  lemma ListingLinesExactly(members: seq<string>, name: string)
    ensures Bullet + name in ListingLines(members) <==> name in members && IsTestName(name)
  {
    var avail := AvailableTests(members);
    var lines := ListingLines(members);
    AvailableTestsExactly(members, name);
    if name in avail {
      var k :| 0 <= k < |avail| && avail[k] == name;
      assert lines[k + 1] == Bullet + name;
    }
    if Bullet + name in lines {
      var j :| 0 <= j < |lines| && lines[j] == Bullet + name;
      assert j != 0 by {
        assert ListingHeader[0] != Bullet[0];
      }
      var b := Bullets(avail)[j - 1];
      assert b == Bullet + avail[j - 1];
      assert avail[j - 1] == (Bullet + name)[|Bullet|..] == name;
    }
  }

  /** Usage is shown, and nothing is run, exactly when there is no command. */
  lemma UsageWithoutCommand(argv: seq<string>, members: seq<string>, timestamp: string)
    ensures Decide(argv, members) == ShowUsage <==> |argv| < 2
    ensures var r := Respond(Decide(argv, members), members, timestamp);
      |argv| < 2 ==> r.output == UsageLines && r.run == None && r.reportDir == None && r.exit == ExitWith(1)
  {
  }

  /**
   * The command is `argv[1]`; `all` and `list` win before any lookup, and
   * the XML flag is set by `--xml` anywhere in `argv`.
   */
  lemma CommandAndFlag(argv: seq<string>, members: seq<string>)
    requires |argv| >= 2
    ensures var a := Decide(argv, members);
      && (argv[1] == AllCommand ==> a == RunAll(XmlFlag in argv, argv[1..]))
      && (argv[1] == ListCommand ==> a == ListTests)
      && (a.RunOne? ==> a.name == argv[1] && a.xml == (XmlFlag in argv))
      && (a.TestNotFound? ==> a.name == argv[1])
  {
  }

  /**
   * Any other command runs exactly when the listing would show it, and
   * otherwise prints the error and the listing and exits 1.
   */
  lemma TestCommandAcceptedIffListed(argv: seq<string>, members: seq<string>, timestamp: string)
    requires |argv| >= 2 && argv[1] != AllCommand && argv[1] != ListCommand
    ensures var a := Decide(argv, members);
      && (a.RunOne? <==> argv[1] in AvailableTests(members))
      && (a.RunOne? <==> Bullet + argv[1] in ListingLines(members))
      && (!a.RunOne? ==>
            && a == TestNotFound(argv[1])
            && Respond(a, members, timestamp) ==
                 Response([NotFoundLine(argv[1])] + ListingLines(members), None, None, ExitWith(1)))
  {
    AvailableTestsExactly(members, argv[1]);
    ListingLinesExactly(members, argv[1]);
  }

  /**
   * The script exits 1 exactly on usage and on an unknown test, leaves the
   * code to the test framework exactly for `all` without `--xml`, and
   * otherwise ends normally.
   */
  lemma ExitCodes(action: Action, members: seq<string>, timestamp: string)
    ensures var e := Respond(action, members, timestamp).exit;
      && (e == ExitWith(1) <==> action.ShowUsage? || action.TestNotFound?)
      && (e == FrameworkExit <==> action.RunAll? && !action.xml)
      && (e == ExitWith(0) <==> action.ListTests? || action.RunOne? || (action.RunAll? && action.xml))
  {
  }

  /**
   * `all --xml` loads every test of the class itself; `all` alone hands the
   * script's own arguments, `all` first, to `unittest.main`, which reads them
   * as the names of the tests to run and ends the script with its status.
   */
  lemma AllCommandRuns(argv: seq<string>, members: seq<string>, timestamp: string)
    requires |argv| >= 2 && argv[1] == AllCommand
    ensures var r := Respond(Decide(argv, members), members, timestamp);
      && (XmlFlag in argv ==> r.run == Some(AllTests) && r.exit == ExitWith(0))
      && (XmlFlag !in argv ==>
            && r.run == Some(FrameworkMain(argv[1..]))
            && r.run.value.args[0] == AllCommand
            && r.output == [] && r.reportDir == None && r.exit == FrameworkExit)
  {
  }

  /** An XML report directory is written exactly for `--xml` runs, under `test_reports`. */
  lemma ReportDirOnlyWithXml(argv: seq<string>, members: seq<string>, timestamp: string)
    ensures var a := Decide(argv, members); var r := Respond(a, members, timestamp);
      && (r.reportDir.Some? <==> (a.RunAll? || a.RunOne?) && XmlFlag in argv)
      && (r.reportDir.Some? ==>
            StartsWith(r.reportDir.value, ReportsDir + "/") && r.output == [GeneratedLine(r.reportDir.value)])
  {
    var a := Decide(argv, members);
    var r := Respond(a, members, timestamp);
    if r.reportDir.Some? {
      var dir := r.reportDir.value;
      assert dir[..|ReportsDir + "/"|] == ReportsDir + "/";
    }
  }

  /** A full-run directory never coincides with a single-test directory. */
  lemma ReportDirsDistinct(testName: string, t1: string, t2: string)
    requires IsTestName(testName)
    ensures ReportDirAll(t1) != ReportDirOne(testName, t2)
  {
    var n := |ReportsDir + "/"|;
    assert ReportDirAll(t1)[n] == 's';
    assert ReportDirOne(testName, t2)[n] == testName[0] == 't';
  }

  /** At one timestamp, distinct tests get distinct directories. */
  lemma ReportDirOneInjective(name1: string, name2: string, timestamp: string)
    requires ReportDirOne(name1, timestamp) == ReportDirOne(name2, timestamp)
    ensures name1 == name2
  {
    var n := |ReportsDir + "/"|;
    var d := ReportDirOne(name1, timestamp);
    assert |name1| == |name2|;
    assert name1 == d[n..n + |name1|];
    assert name2 == ReportDirOne(name2, timestamp)[n..n + |name2|];
  }

  /** The membership loop: a flag set on the first member equal to the command, then `break`. */
  method TestExists(command: string, members: seq<string>) returns (found: bool)
    ensures found <==> command in members && IsTestName(command)
  {
    found := false;
    var i := 0;
    while i < |members|
      invariant 0 <= i <= |members|
      invariant !found
      invariant command !in members[..i] || !IsTestName(command)
    {
      var name := members[i];
      if name == command && IsTestName(name) {
        found := true;
        break;
      }
      assert members[..i + 1] == members[..i] + [name];
      i := i + 1;
    }
    assert !found ==> members[..i] == members;
  }

  /** `list_available_tests`: the header, then one bullet per test name, in order. */
  method ListAvailableTests(members: seq<string>) returns (lines: seq<string>)
    ensures lines == ListingLines(members)
  {
    lines := [ListingHeader];
    for i := 0 to |members|
      invariant lines == ListingLines(members[..i])
    {
      var name := members[i];
      if IsTestName(name) {
        lines := lines + [Bullet + name];
      }
      assert members[..i + 1][..i] == members[..i];
    }
    assert members[..|members|] == members;
  }

  /** The `__main__` block, with the test runs left abstract. */
  method RunScript(argv: seq<string>, members: seq<string>, timestamp: string) returns (r: Response)
    ensures r == Respond(Decide(argv, members), members, timestamp)
  {
    if |argv| < 2 {
      return Response(UsageLines, None, None, ExitWith(1));
    }
    var command := argv[1];
    var xmlReport := XmlFlag in argv;
    if command == AllCommand {
      if xmlReport {
        var dir := ReportDirAll(timestamp);
        r := Response([GeneratedLine(dir)], Some(AllTests), Some(dir), ExitWith(0));
      } else {
        r := Response([], Some(FrameworkMain(argv[1..])), None, FrameworkExit);
      }
    } else if command == ListCommand {
      var lines := ListAvailableTests(members);
      r := Response(lines, None, None, ExitWith(0));
    } else {
      var testExists := TestExists(command, members);
      if testExists {
        if xmlReport {
          var dir := ReportDirOne(command, timestamp);
          r := Response([GeneratedLine(dir)], Some(OneTest(command)), Some(dir), ExitWith(0));
        } else {
          r := Response([], Some(OneTest(command)), None, ExitWith(0));
        }
      } else {
        var lines := ListAvailableTests(members);
        r := Response([NotFoundLine(command)] + lines, None, None, ExitWith(1));
      }
    }
  }
}
