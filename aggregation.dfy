/**
 * Result aggregation of `run_selenium_tests`: the testcase records of the
 * XML report become case results (status, reason, matching screenshots),
 * wrapped in one suite record whose status comes from the runner.
 */
module Aggregation {
  import opened Optional
  import opened PyStrings
  import opened Sequences
  import opened Layout

  const SuiteName := "Selenium UI Tests"
  const ScreenshotsDir := ReportsDir + "/screenshots"

  datatype Status = Passed | Failed | Error {
    /** The text stored in the `status` entry and written to the sheets. */
    function Label(): string {
      match this
      case Passed => "PASSED"
      case Failed => "FAILED"
      case Error => "ERROR"
    }
  }

  /** A float value, carried by the text Python's `str()` gives for it. */
  datatype Duration = Duration(repr: string)

  /** The `time` attribute of a testcase record, as `float()` would see it. */
  datatype TimeAttr = Absent | Numeric(value: Duration) | Unparsable(raw: string)

  /** A `failure` or `error` child element, with its optional `message` attribute. */
  datatype Outcome = Outcome(message: Option<string>)

  /** One `testcase` element of the XML report. */
  datatype TestCaseRecord = TestCaseRecord(
    name: Option<string>,
    classname: Option<string>,
    time: TimeAttr,
    failure: Option<Outcome>,
    error: Option<Outcome>)

  /** One entry of `detailed_results`. */
  datatype CaseResult = CaseResult(
    name: string,
    status: Status,
    time: Duration,
    reason: string,
    screenshots: seq<string>)

  /** The dictionary `run_selenium_tests` returns; the crash path has no screenshots directory. */
  datatype SuiteResult = SuiteResult(
    name: string,
    status: Status,
    exitCode: int,
    detailedResults: seq<CaseResult>,
    screenshotsDir: Option<string>)

  /**
   * What running the suite produced: the runner's success flag, the testcase
   * records of the newest XML report (None when there is no report or it does
   * not parse) and the listing of the screenshots directory; or a crash
   * before the results could be gathered.
   */
  datatype RunOutcome =
    | Completed(success: bool, xmlReport: Option<seq<TestCaseRecord>>, listing: seq<string>)
    | Crashed

  /** `float(testcase.get('time', 0))`: None when `float()` raises. */
  function ParseTime(a: TimeAttr): (d: Option<Duration>)
    ensures d.None? <==> a.Unparsable?
    ensures a.Absent? ==> d == Some(Duration("0.0"))
    ensures a.Numeric? ==> d == Some(a.value)
  {
    match a
    case Absent => Some(Duration("0.0"))
    case Numeric(v) => Some(v)
    case Unparsable(_) => None
  }

  /** `child.get('message', '')`. */
  function MessageOf(o: Outcome): string {
    o.message.GetOr("")
  }

  /**
   * The status of a record and its reason: a `failure` child wins over an
   * `error` child; a record with neither passed with an empty reason.
   */
  function Classify(t: TestCaseRecord): (r: (Status, string))
    ensures r.0 == Failed <==> t.failure.Some?
    ensures r.0 == Error <==> t.failure.None? && t.error.Some?
    ensures r.0 == Passed <==> t.failure.None? && t.error.None?
    ensures t.failure.Some? ==> r.1 == MessageOf(t.failure.value)
    ensures t.failure.None? && t.error.Some? ==> r.1 == MessageOf(t.error.value)
    ensures r.0 == Passed ==> r.1 == ""
  {
    if t.failure.Some? then (Failed, MessageOf(t.failure.value))
    else if t.error.Some? then (Error, MessageOf(t.error.value))
    else (Passed, "")
  }

  /** A screenshot belongs to a test when its basename contains the test's name with every `test_` removed. */
  predicate AttachedTo(path: string, testName: string) {
    Contains(Basename(path), RemoveAll(testName, TestPrefix))
  }

  /** The screenshots of a test, in listing order. */
  function ScreenshotsFor(testName: string, listing: seq<string>): seq<string> {
    Filter(path => AttachedTo(path, testName), listing)
  }

  /** A path is attached to a test exactly when it is listed and matches the test's name. */
  lemma ScreenshotsForMembership(testName: string, listing: seq<string>, path: string)
    ensures path in ScreenshotsFor(testName, listing) <==> path in listing && AttachedTo(path, testName)
  {
    FilterMembership(path => AttachedTo(path, testName), listing, path);
  }

  /** The attached screenshots keep the listing's order: they are a subsequence of it. */
  lemma ScreenshotsForSubsequence(testName: string, listing: seq<string>)
    ensures IsSubsequence(ScreenshotsFor(testName, listing), listing)
  {
    FilterSubsequence(path => AttachedTo(path, testName), listing);
  }

  /** When every listed path matches, the test gets the whole listing. */
  lemma ScreenshotsForKeepsAll(testName: string, listing: seq<string>)
    requires forall i :: 0 <= i < |listing| ==> AttachedTo(listing[i], testName)
    ensures ScreenshotsFor(testName, listing) == listing
  {
    FilterKeepsAll(path => AttachedTo(path, testName), listing);
  }

  /** The nested loop over the screenshot listing (one glob per testcase). */
  method MatchScreenshots(testName: string, listing: seq<string>) returns (shots: seq<string>)
    ensures shots == ScreenshotsFor(testName, listing)
  {
    var key := RemoveAll(testName, TestPrefix);
    shots := [];
    for j := 0 to |listing|
      invariant shots == ScreenshotsFor(testName, listing[..j])
    {
      assert listing[..j + 1][..j] == listing[..j];
      if Contains(Basename(listing[j]), key) {
        shots := shots + [listing[j]];
      }
    }
    assert listing[..|listing|] == listing;
  }

  /** Python's f-string rendering of an attribute that may be missing (`None`). */
  function AttrText(a: Option<string>): string {
    a.GetOr("None")
  }

  /**
   * A record the parse loop gets through: `float()` accepts its time, and
   * it has a name or the listing is empty, since `name.replace` is only
   * called, and only raises on a missing name, once per listed file.
   */
  predicate WellFormed(t: TestCaseRecord, listing: seq<string>) {
    !t.time.Unparsable? && (t.name.Some? || listing == [])
  }

  /**
   * The screenshots of a record: a record without a name gets none, which
   * is only reached with an empty listing.
   */
  function RecordScreenshots(t: TestCaseRecord, listing: seq<string>): seq<string> {
    if t.name.Some? then ScreenshotsFor(t.name.value, listing) else []
  }

  /** The entry the parse loop appends for a record it gets through; a missing name reads `None`. */
  function Convert(t: TestCaseRecord, listing: seq<string>): CaseResult
    requires WellFormed(t, listing)
  {
    var (status, reason) := Classify(t);
    CaseResult(AttrText(t.classname) + "." + AttrText(t.name), status, ParseTime(t.time).value,
               reason, RecordScreenshots(t, listing))
  }

  /**
   * The entries appended before the parse loop stops: the first record that
   * makes `float()` or `name.replace` raise ends the loop, and the handler
   * keeps what was appended so far.
   */
  function Collected(records: seq<TestCaseRecord>, listing: seq<string>): seq<CaseResult>
    decreases |records|
  {
    if records == [] || !WellFormed(records[0], listing) then []
    else [Convert(records[0], listing)] + Collected(records[1..], listing)
  }

  /**
   * One entry per record in document order, up to the first record that is
   * not well formed; nothing from that record on.
   */
  lemma {:induction false} CollectedPrefix(records: seq<TestCaseRecord>, listing: seq<string>)
    ensures var r := Collected(records, listing);
      && |r| <= |records|
      && (forall i :: 0 <= i < |r| ==> WellFormed(records[i], listing) && r[i] == Convert(records[i], listing))
      && (|r| < |records| ==> !WellFormed(records[|r|], listing))
    decreases |records|
  {
    if records != [] && WellFormed(records[0], listing) {
      CollectedPrefix(records[1..], listing);
    }
  }

  /** Every record is kept exactly when every record is well formed. */
  lemma CollectedAll(records: seq<TestCaseRecord>, listing: seq<string>)
    ensures |Collected(records, listing)| == |records| <==>
      forall i :: 0 <= i < |records| ==> WellFormed(records[i], listing)
  {
    CollectedPrefix(records, listing);
  }

  /**
   * The fields of the entry for record `i`: the qualified name, the status
   * and reason of the classification, the time and the attached screenshots;
   * a record without a name only gets this far with an empty listing.
   */
  lemma CollectedEntry(records: seq<TestCaseRecord>, listing: seq<string>, i: nat)
    requires i < |Collected(records, listing)|
    ensures i < |records| && var e := Collected(records, listing)[i]; var t := records[i];
      && (t.name.None? ==> listing == [] && e.screenshots == [])
      && e.name == AttrText(t.classname) + "." + AttrText(t.name)
      && (e.status == Failed <==> t.failure.Some?)
      && (e.status == Error <==> t.failure.None? && t.error.Some?)
      && (e.status == Passed <==> t.failure.None? && t.error.None?)
      && e.reason == Classify(t).1
      && ParseTime(t.time) == Some(e.time)
      && (forall p :: p in e.screenshots <==> p in listing && AttachedTo(p, AttrText(t.name)))
  {
    CollectedPrefix(records, listing);
    var t := records[i];
    forall p ensures p in Collected(records, listing)[i].screenshots <==> p in listing && AttachedTo(p, AttrText(t.name)) {
      if t.name.Some? {
        ScreenshotsForMembership(t.name.value, listing, p);
      }
    }
  }

  /**
   * A record without a name: with an empty listing it is kept as
   * `classname.None` without screenshots; with any listed file the loop
   * stops there.
   */
  lemma NamelessRecord(records: seq<TestCaseRecord>, listing: seq<string>)
    requires records != [] && records[0].name.None? && !records[0].time.Unparsable?
    ensures Collected(records, listing) != [] <==> listing == []
    ensures listing == [] ==> var e := Collected(records, listing)[0];
      e.name == AttrText(records[0].classname) + ".None" && e.screenshots == []
  {
  }

  /** The parse loop over the testcase records, stopping at the first exception. */
  method CollectResults(records: seq<TestCaseRecord>, listing: seq<string>) returns (results: seq<CaseResult>)
    ensures results == Collected(records, listing)
  {
    results := [];
    var i := 0;
    while i < |records|
      invariant 0 <= i <= |records|
      invariant results + Collected(records[i..], listing) == Collected(records, listing)
    {
      var t := records[i];
      assert records[i..][1..] == records[i + 1..];
      var time := ParseTime(t.time);
      if time.None? {
        break;
      }
      var (status, reason) := Classify(t);
      var shots := [];
      if t.name.Some? {
        shots := MatchScreenshots(t.name.value, listing);
      } else if |listing| > 0 {
        // `None.replace` raises on the first listed file
        break;
      }
      results := results + [CaseResult(AttrText(t.classname) + "." + AttrText(t.name), status, time.value, reason, shots)];
      i := i + 1;
    }
  }

  /**
   * `run_selenium_tests` after the run: the suite status and exit code
   * follow the runner's success flag, not the case list; a crash gives
   * ERROR, exit code 1 and no cases.
   */
  method RunSeleniumTests(run: RunOutcome) returns (suite: SuiteResult)
    ensures suite.name == SuiteName
    ensures suite.status == Passed <==> run.Completed? && run.success
    ensures suite.status == Error <==> run.Crashed?
    ensures suite.exitCode == (if suite.status == Passed then 0 else 1)
    ensures run.Completed? ==> suite.screenshotsDir == Some(ScreenshotsDir)
    ensures run.Crashed? ==> suite.screenshotsDir.None? && suite.detailedResults == []
    ensures run.Completed? ==>
      suite.detailedResults == (if run.xmlReport.Some? then Collected(run.xmlReport.value, run.listing) else [])
  {
    match run
    case Crashed =>
      suite := SuiteResult(SuiteName, Error, 1, [], None);
    case Completed(success, xmlReport, listing) =>
      var results := [];
      if xmlReport.Some? {
        results := CollectResults(xmlReport.value, listing);
      }
      suite := SuiteResult(SuiteName, if success then Passed else Failed, if success then 0 else 1,
                           results, Some(ScreenshotsDir));
  }

  /** The screenshot file `{checkpoint}_{timestamp}.png` in the screenshots directory. */
  function ScreenshotPath(checkpoint: string, timestamp: string): string {
    ScreenshotsDir + "/" + checkpoint + "_" + timestamp + ".png"
  }

  /** `s` does not contain `p` when no window of `s` equals `p`. */
  lemma NotContainedByWindows(s: string, p: string)
    requires forall i :: !OccursAt(s, p, i)
    ensures !Contains(s, p)
  {
    ContainsIffOccurs(s, p);
  }

  /** The basename of a screenshot path is its file name. */
  lemma ScreenshotBasename(checkpoint: string, timestamp: string)
    requires '/' !in checkpoint && '/' !in timestamp
    ensures Basename(ScreenshotPath(checkpoint, timestamp)) == checkpoint + "_" + timestamp + ".png"
  {
    var file := checkpoint + "_" + timestamp + ".png";
    assert ScreenshotPath(checkpoint, timestamp) == ScreenshotsDir + "/" + file;
    BasenameOfJoin(ScreenshotsDir, file);
  }

  /**
   * For a test `test_K` where `K` holds no further `test_`, a screenshot is
   * attached exactly when `K` occurs in its file name.
   */
  lemma AttachedIffKeyInFile(key: string, checkpoint: string, timestamp: string)
    requires forall i :: !OccursAt(key, TestPrefix, i)
    requires '/' !in checkpoint && '/' !in timestamp
    ensures AttachedTo(ScreenshotPath(checkpoint, timestamp), TestPrefix + key)
            <==> exists i :: OccursAt(checkpoint + "_" + timestamp + ".png", key, i)
  {
    var name := TestPrefix + key;
    assert name[|TestPrefix|..] == key;
    NotContainedByWindows(key, TestPrefix);
    StripSinglePrefix(name, TestPrefix);
    ScreenshotBasename(checkpoint, timestamp);
    ContainsIffOccurs(checkpoint + "_" + timestamp + ".png", key);
  }

  /** A file name that starts with `key` contains it. */
  lemma LeadingKeyOccurs(key: string, checkpoint: string, timestamp: string)
    requires StartsWith(checkpoint, key)
    ensures OccursAt(checkpoint + "_" + timestamp + ".png", key, 0)
  {
    assert (checkpoint + "_" + timestamp + ".png")[..|key|] == checkpoint[..|key|];
  }

  /** No window of `s` equals `p`: some offset inside `p` never matches. */
  lemma NoWindowAt(s: string, p: string, k: nat)
    requires k < |p|
    requires forall j :: k <= j && j - k + |p| <= |s| ==> s[j] != p[k]
    ensures forall i :: !OccursAt(s, p, i)
  {
    forall i ensures !OccursAt(s, p, i) {
      if 0 <= i && i + |p| <= |s| {
        assert s[i..i + |p|][k] == s[i + k];
      }
    }
  }

  /** A checkpoint named by the key and a suffix is attached to the key's test. */
  lemma KeyCheckpointAttached(key: string, suffix: string, t: string)
    requires forall i :: !OccursAt(key, TestPrefix, i)
    requires '/' !in key && '/' !in suffix && '/' !in t
    ensures AttachedTo(ScreenshotPath(key + suffix, t), TestPrefix + key)
  {
    assert StartsWith(key + suffix, key) by {
      assert (key + suffix)[..|key|] == key;
    }
    AttachedIffKeyInFile(key, key + suffix, t);
    LeadingKeyOccurs(key, key + suffix, t);
  }

  /** A `%Y%m%d-%H%M%S` timestamp of `take_screenshot`: digits and `-` only. */
  predicate IsTimestamp(t: string) {
    forall i :: 0 <= i < |t| ==> '0' <= t[i] <= '9' || t[i] == '-'
  }

  lemma TimestampHasNoSlash(t: string)
    requires IsTimestamp(t)
    ensures '/' !in t
  {
    forall i | 0 <= i < |t|
      ensures t[i] != '/'
    {
    }
  }

  /** The login-page checkpoint lacks the `_elements` part of the key, whatever its timestamp. */
  lemma LoginPageNotAttached(key: string, page: string, t: string)
    requires key == "01_login_page_elements" && page == "01_login_page" && IsTimestamp(t)
    ensures !AttachedTo(ScreenshotPath(page, t), TestPrefix + key)
  {
    TimestampHasNoSlash(t);
    NoWindowAt(key, TestPrefix, 0);
    var file := page + "_" + t + ".png";
    forall j | 14 <= j && j - 14 + |key| <= |file|
      ensures file[j] != key[14]
    {
      assert file[j] == t[j - 14];
    }
    NoWindowAt(file, key, 14);
    AttachedIffKeyInFile(key, page, t);
  }

  /** The login-page-elements checkpoint carries the whole key, whatever its timestamp. */
  lemma LoginPageElementsAttached(key: string, t: string)
    requires key == "01_login_page_elements" && IsTimestamp(t)
    ensures AttachedTo(ScreenshotPath(key, t), TestPrefix + key)
  {
    TimestampHasNoSlash(t);
    NoWindowAt(key, TestPrefix, 0);
    AttachedIffKeyInFile(key, key, t);
    LeadingKeyOccurs(key, key, t);
  }

  /**
   * With the checkpoint labels of the login-page test, the substring rule
   * attaches `01_login_page_elements_*` to `test_01_login_page_elements` and
   * leaves out `01_login_page_*`, which lacks the `_elements` part.
   */
  lemma LoginPageElementsFixture(key: string, page: string, t1: string, t2: string)
    requires key == "01_login_page_elements" && page == "01_login_page"
    requires IsTimestamp(t1) && IsTimestamp(t2)
    ensures var first, second := ScreenshotPath(page, t1), ScreenshotPath(key, t2);
      ScreenshotsFor(TestPrefix + key, [first, second]) == [second]
  {
    var first, second := ScreenshotPath(page, t1), ScreenshotPath(key, t2);
    LoginPageNotAttached(key, page, t1);
    LoginPageElementsAttached(key, t2);
    FilterSecondOfTwo(path => AttachedTo(path, TestPrefix + key), first, second);
  }

  /** The screenshot paths of the checkpoints `key + suffix`, one per suffix. */
  function CheckpointPaths(key: string, suffixes: seq<string>, t: string): (paths: seq<string>)
    ensures |paths| == |suffixes|
  {
    seq(|suffixes|, i requires 0 <= i < |suffixes| => ScreenshotPath(key + suffixes[i], t))
  }

  /** Checkpoints named by the key and a suffix are all attached to the key's test, in order. */
  lemma KeyCheckpointsAttached(key: string, suffixes: seq<string>, t: string)
    requires forall i :: !OccursAt(key, TestPrefix, i)
    requires '/' !in key && '/' !in t
    requires forall i :: 0 <= i < |suffixes| ==> '/' !in suffixes[i]
    ensures ScreenshotsFor(TestPrefix + key, CheckpointPaths(key, suffixes, t)) == CheckpointPaths(key, suffixes, t)
  {
    var paths := CheckpointPaths(key, suffixes, t);
    forall i | 0 <= i < |paths|
      ensures AttachedTo(paths[i], TestPrefix + key)
    {
      KeyCheckpointAttached(key, suffixes[i], t);
    }
    ScreenshotsForKeepsAll(TestPrefix + key, paths);
  }

  /**
   * The invalid-login test's checkpoints `02_invalid_login_before`, `_error`
   * and `_timeout` are all attached to `test_02_invalid_login`, in order.
   */
  lemma InvalidLoginFixture(key: string, suffixes: seq<string>, t: string)
    requires key == "02_invalid_login" && suffixes == ["_before", "_error", "_timeout"]
    requires IsTimestamp(t)
    ensures ScreenshotsFor(TestPrefix + key, CheckpointPaths(key, suffixes, t)) == CheckpointPaths(key, suffixes, t)
  {
    TimestampHasNoSlash(t);
    NoWindowAt(key, TestPrefix, 0);
    KeyCheckpointsAttached(key, suffixes, t);
  }
}
