# Selenium test aggregation, Excel report and runner dispatch

This project models the result-handling core of a Selenium UI test harness.

**The report script** (`run_selenium_tests_with_report.py`) runs the UI suite. It then reads the testcase records of the newest JUnit-style XML report and classifies each one as PASSED, FAILED or ERROR. It attaches the screenshots whose file names mention the test and wraps everything in a suite record. `generate_excel_report` projects that record onto a workbook:
- a "Test Summary" sheet with per-status counts;
- a "Test_Details" sheet with one row per test case;
- status colours and auto-sized columns.

**The runner script** (`run_selenium_tests.py`) turns `sys.argv` into one of four outcomes:
- run every test (`all --xml`), or hand the command line to `unittest.main` (`all`);
- list the tests;
- run one named test;
- reject the command with usage text or an error and the test listing.

Modules:

- `Optional` is an option type.
- `Layout` holds the names both scripts share: the `test_reports` directory, the `selenium_test_report_` stem and the `test_` prefix.
- `Sequences` has order-preserving filtering and the subsequence relation.
- `PyStrings` models the Python string operations the scripts rely on:
  - `in` on strings;
  - `str.replace(pat, "")`;
  - `startswith` and `endswith`;
  - POSIX `os.path.basename`;
  - `", ".join`;
  - `str()` of a non-negative integer.
- `Aggregation` covers `run_selenium_tests`:
  - the `TestCaseRecord` as the parsed XML offers it;
  - classification;
  - screenshot matching, both as a function and as the loop that appends;
  - the parse loop, which stops at the first record that raises and keeps what it already appended;
  - the suite record;
  - fixture lemmas built on the screenshot names the UI tests produce.
- `Report` covers `generate_excel_report`:
  - a `Sheet` class whose cells, fills and column widths the writer methods update in place;
  - the functions that specify each sheet's final contents;
  - lemmas that read those contents back by position;
  - the report's file name.
- `Dispatch` covers the runner's `__main__` block:
  - the decision over `argv`;
  - the `test_exists` loop;
  - `list_available_tests`;
  - what each action prints, which tests it starts, where it writes the XML report and how the script exits.

A run's timestamp, the XML records, the screenshot listing and the member functions of the test class are all parameters.

## Model

| member | source | states |
|---|---|---|
| Aggregation.ParseTime | image/screenShoot/run_selenium_tests_with_report.py:59 | A missing `time` attribute reads as 0; a numeric one passes through unchanged; an unparsable one makes `float()` raise (no value), and only then |
| Aggregation.Classify | image/screenShoot/run_selenium_tests_with_report.py:62-73 | FAILED iff a `failure` child exists; ERROR iff no `failure` but an `error` child; PASSED iff neither; the reason is the winning child's `message` (default empty), and empty for PASSED |
| Aggregation.ScreenshotsForMembership | image/screenShoot/run_selenium_tests_with_report.py:76-79 | A path is attached iff it is listed and its basename contains the test name with every `test_` removed |
| Aggregation.ScreenshotsForSubsequence | image/screenShoot/run_selenium_tests_with_report.py:76-79 | Attached screenshots keep the listing's order: they form a subsequence of it |
| Aggregation.MatchScreenshots | image/screenShoot/run_selenium_tests_with_report.py:76-79 | The appending loop yields exactly the filtered listing |
| Aggregation.CollectedPrefix | image/screenShoot/run_selenium_tests_with_report.py:52-89 | The parse loop keeps one entry per record, in document order, up to the first record that raises: one with an unparsable time, or one without a name when the listing is not empty. It stops exactly there |
| Aggregation.CollectedAll | image/screenShoot/run_selenium_tests_with_report.py:56-87 | Every record yields an entry iff every time parses and, unless the listing is empty, every record has a name |
| Aggregation.CollectedEntry | image/screenShoot/run_selenium_tests_with_report.py:56-87 | Entry i comes from record i. It is named `classname.name`, with `None` for a missing part. It carries that record's status, reason and time, and exactly the matching screenshots. A nameless record gets this far only with an empty listing, and then has no screenshots |
| Aggregation.NamelessRecord | image/screenShoot/run_selenium_tests_with_report.py:57-87 | A first record without a name is kept, as `classname.None` with no screenshots, iff the listing is empty, because `replace` is only called on `None` once per listed file |
| Aggregation.CollectResults | image/screenShoot/run_selenium_tests_with_report.py:47-89 | The parse loop with its exception exit computes the collected prefix, breaking on a nameless record only when some file is listed |
| Aggregation.RunSeleniumTests | image/screenShoot/run_selenium_tests_with_report.py:23-112 | The suite status is PASSED iff the runner succeeded and ERROR iff the run crashed; the exit code is 0 iff the status is PASSED; a crash has no cases and no screenshots directory; otherwise the cases are the parse loop's output, or none without a readable report |
| Aggregation.ScreenshotBasename | image/screenShoot/selenium_tests.py:41-42 | The basename of a screenshot path is `{label}_{timestamp}.png` |
| Aggregation.AttachedIffKeyInFile | image/screenShoot/run_selenium_tests_with_report.py:78 | For a test `test_<key>` whose key holds no further `test_`, a screenshot is attached iff the key occurs in its file name |
| Aggregation.LoginPageNotAttached | image/screenShoot/selenium_tests.py:41-53 | For any timestamp of digits and `-`, the `01_login_page_*` screenshot is not attached to `test_01_login_page_elements` |
| Aggregation.LoginPageElementsAttached | image/screenShoot/selenium_tests.py:41-71 | For any timestamp of digits and `-`, the `01_login_page_elements_*` screenshot is attached to `test_01_login_page_elements` |
| Aggregation.LoginPageElementsFixture | image/screenShoot/selenium_tests.py:53-71 | Of the two login-page screenshots, at any timestamps, `test_01_login_page_elements` gets only its own |
| Aggregation.ScreenshotsForKeepsAll | image/screenShoot/run_selenium_tests_with_report.py:76-79 | When every listed path matches a test, the test gets the whole listing, in order |
| Aggregation.KeyCheckpointsAttached | image/screenShoot/selenium_tests.py:38-43 | Screenshots of checkpoints named `{key}{suffix}` are all attached to `test_{key}` (when the key holds no `test_`), in listing order |
| Aggregation.InvalidLoginFixture | image/screenShoot/selenium_tests.py:85-99 | At any timestamp, `test_02_invalid_login` gets all three screenshots `02_invalid_login_before`, `_error` and `_timeout`, in listing order |
| PyStrings.ContainsIffOccurs | image/screenShoot/run_selenium_tests_with_report.py:78 | Python's substring test holds iff the pattern occurs at some index |
| PyStrings.RemoveAllAbsent | image/screenShoot/run_selenium_tests_with_report.py:78 | `replace(pat, "")` leaves a string without the pattern unchanged |
| PyStrings.RemoveAllEvery | image/screenShoot/run_selenium_tests_with_report.py:78 | `replace(pat, "")` removes every occurrence, not only a leading one: `pat + a + pat + b` becomes `a + b` |
| PyStrings.RemoveAllInnerOccurrence | image/screenShoot/run_selenium_tests_with_report.py:78 | `"test_ab_test_c".replace("test_", "")` is `"ab_c"` |
| PyStrings.BasenameOfJoin | image/screenShoot/run_selenium_tests_with_report.py:214 | The basename of `dir/file` is `file` |
| PyStrings.JoinContainsParts | image/screenShoot/run_selenium_tests_with_report.py:214 | Every part occurs in the `", "`-joined string |
| PyStrings.DecimalRoundTrip | image/screenShoot/run_selenium_tests_with_report.py:180 | `str()` of a count reads back as the same number |
| Report.CountsPartition | image/screenShoot/run_selenium_tests_with_report.py:151-154 | Passed + Failed + Error equals the number of cases |
| Report.CollectedCounts | image/screenShoot/run_selenium_tests_with_report.py:151-154 | Each per-status count of the parsed cases equals the number of records the loop got through that classify with that status |
| Report.StatusFill | image/screenShoot/run_selenium_tests_with_report.py:166-172 | C6EFCE exactly for PASSED, FFC7CE exactly for FAILED, FFEB9C exactly otherwise |
| Report.SummaryCellsAt | image/screenShoot/run_selenium_tests_with_report.py:127-164 | The summary sheet is exactly the six header cells in row 1 and the six suite cells in row 2 |
| Report.SummaryRowContents | image/screenShoot/run_selenium_tests_with_report.py:145-164 | Row 2 holds the suite name and status, then total, passed, failed and error counts that add up, or "N/A" in C2 to F2 when there are no cases |
| Report.DetailCellsAt | image/screenShoot/run_selenium_tests_with_report.py:187-217 | The detail sheet is exactly the five header cells over one five-cell row per case |
| Report.DetailRowContents | image/screenShoot/run_selenium_tests_with_report.py:205-217 | Row k+2 holds case k's name, status, time, reason and screenshots cell |
| Report.RecordRow | image/screenShoot/run_selenium_tests_with_report.py:81-87 | Row k+2 of the detail sheet carries the qualified name, status and reason of testcase record k; a nameless record's row reads `classname.None` with "No screenshots" |
| Report.ScreenshotCellEmptyIff | image/screenShoot/run_selenium_tests_with_report.py:212-217 | For `*.png` screenshots the cell reads "No screenshots" iff the case has none |
| Report.ScreenshotCellNames | image/screenShoot/run_selenium_tests_with_report.py:213-215 | The basename of every attached screenshot appears in the cell |
| Report.SummaryFillsAt | image/screenShoot/run_selenium_tests_with_report.py:139-172 | The summary fills are exactly the header row and B2, which is coloured by the suite status |
| Report.DetailFillsAt | image/screenShoot/run_selenium_tests_with_report.py:199-225 | The detail fills are exactly the header row and column B of each case row, coloured by that case's status |
| Report.ColumnMaxLenBounds | image/screenShoot/run_selenium_tests_with_report.py:176-183 | The running maximum is at least every cell's rendered length and equals one of them |
| Report.SummaryWidthAt | image/screenShoot/run_selenium_tests_with_report.py:174-185 | A summary column is 2 wider than its longest rendering: at least its header and its value, and exactly one of them |
| Report.DetailWidthAt | image/screenShoot/run_selenium_tests_with_report.py:229-240 | A detail column's width is `min(max_length + 2, 50)`. It is at most 50 and at least its header plus 2. Unless capped, it covers every cell plus 2 and equals one of them. It is 50 only when some cell plus 2 reaches 50 |
| Report.ReportFileRoundTrip | image/screenShoot/run_selenium_tests_with_report.py:243-244 | The timestamp reads back from the report's file name |
| Report.ReportTimestampInverse | image/screenShoot/run_selenium_tests_with_report.py:244 | Only a path of the report's shape yields a timestamp, and the path is rebuilt from it |
| Report.Sheet.StyleHeader | image/screenShoot/run_selenium_tests_with_report.py:139-142 | The header loop fills row 1, columns 1 to n, and changes no cell value |
| Report.Sheet.AutoSize | image/screenShoot/run_selenium_tests_with_report.py:174-185 | The nested width loops set every column's width from its longest rendering plus 2, with an optional cap, and change no cell or fill |
| Report.WriteDetailRows | image/screenShoot/run_selenium_tests_with_report.py:204-227 | The row loop writes case k into row k+2 and fills only its status cell |
| Report.WriteSummary | image/screenShoot/run_selenium_tests_with_report.py:121-185 | The summary writer produces the summary cells, fills and widths |
| Report.WriteDetails | image/screenShoot/run_selenium_tests_with_report.py:187-240 | The detail writer produces the detail cells, fills and capped widths |
| Report.GenerateExcelReport | image/screenShoot/run_selenium_tests_with_report.py:114-244 | The summary sheet is always built; the detail sheet exists iff there are cases; the file is `test_reports/selenium_test_report_{timestamp}.xlsx` |
| Dispatch.AvailableTestsExactly | image/screenShoot/run_selenium_tests.py:17-22 | The listed tests are exactly the member functions named `test_*`, in member order |
| Dispatch.ListingLinesExactly | image/screenShoot/run_selenium_tests.py:19-22 | The listing has a bullet line for a name iff that name is a member function starting with `test_` |
| Dispatch.ListAvailableTests | image/screenShoot/run_selenium_tests.py:17-22 | The printing loop yields the header followed by the bullet of each test name |
| Dispatch.UsageWithoutCommand | image/screenShoot/run_selenium_tests.py:64-71 | Usage is chosen iff argv has fewer than 2 entries; it prints the usage text, runs nothing, writes no report and exits 1 |
| Dispatch.CommandAndFlag | image/screenShoot/run_selenium_tests.py:73-79 | The command is argv[1]; `all` and `list` are decided before any lookup; the XML flag is `--xml` anywhere in argv; `all` keeps the arguments from argv[1] on |
| Dispatch.AllCommandRuns | image/screenShoot/run_selenium_tests.py:24-40 | `all --xml` loads every test of the class; `all` alone starts `unittest.main`, which receives the command line from argv[1] on, starting with `all`, and ends the script with its own status |
| Dispatch.TestCommandAcceptedIffListed | image/screenShoot/run_selenium_tests.py:80-93 | Any other command runs iff it is a listed test; otherwise the script prints the error line and the listing and exits 1 |
| Dispatch.ExitCodes | image/screenShoot/run_selenium_tests.py:63-93 | The exit code is 1 exactly for usage and an unknown test; it is left to the test framework exactly for `all` without `--xml`; it is 0 otherwise |
| Dispatch.ReportDirOnlyWithXml | image/screenShoot/run_selenium_tests.py:24-58 | An XML directory under `test_reports/` is written, and announced, iff a run was requested with `--xml` |
| Dispatch.ReportDirsDistinct | image/screenShoot/run_selenium_tests.py:33-54 | The full-run directory `test_reports/selenium_test_report_{ts}` never equals a single-test directory `test_reports/{test}_{ts}` |
| Dispatch.ReportDirOneInjective | image/screenShoot/run_selenium_tests.py:54 | At one timestamp, different tests get different directories |
| Dispatch.TestExists | image/screenShoot/run_selenium_tests.py:82-86 | The flag-and-break loop finds the command iff it is a member function starting with `test_` |
| Dispatch.RunScript | image/screenShoot/run_selenium_tests.py:63-93 | The `__main__` block prints, runs, writes and exits as the decision function prescribes |

Two behaviours of the code that the model keeps:

- **Parse failures.** In `run_selenium_tests_with_report.py`, the `try` at line 52 wraps the whole record loop. A record that raises ends the loop, and the entries already appended are kept. A record raises when its `time` is not numeric, or when it has no `name` and at least one screenshot is listed, since `replace` is then called on `None`. A nameless record with an empty listing is appended as `classname.None`. The whole list is empty only when there is no XML file, the newest one does not parse, it holds no `testcase`, or its first record raises.
- **Runner exit code.** In `run_selenium_tests.py`, only `all` without `--xml` hands control to `unittest.main`, which ends the script with the framework's status. Single-test runs and `all --xml` end normally with status 0 whatever the tests did.

## Left out

- XML parsing (`ET.parse`), choosing the newest XML file by creation time, and `glob` are inputs rather than modelled operations:
  - the record sequence, or None when there is no report or it does not parse;
  - the screenshot listing, as given.

  `glob` ordering is whatever the listing says.
- `float()` parsing and `str()` of a float are not modelled. A time is an opaque `Duration` carrying its `str()` rendering. A missing time is "0.0". A time `float()` rejects is `Unparsable`.
- Console output of the report script (banners, "Error parsing XML results", success messages) is not modelled.
- Fonts, header alignment and `wb.save` are not modelled; only cell values, fills and widths are. Cells are stored by position. The workbook file is named, not written.
- The `try/except: pass` around each width measurement is not modelled, because `str()` of the modelled cell values cannot raise.
- Auto-opening the report, `copy_to_downloads` (registry lookup, `shutil.copy2`) and `webbrowser.open` are not modelled. They are best-effort operating-system side effects.
- The report script's `main` (argparse flags `--open` and `--download`, and returning the suite's exit code) is not part of this model.
- `datetime.now()` and `time.strftime` are not modelled. Each timestamp is a string parameter, and the two timestamps of a report run are independent.
- Running the tests is not modelled. `XMLTestRunner`, `TextTestRunner` and `unittest.main` appear only as the abstract run they start (`RunOutcome` on the report side, `TestRun` on the runner side). `unittest.main` reads its own command line, so `all` alone is modelled as `FrameworkMain` carrying the arguments from `argv[1]` on, with `all` first. It is not modelled as a run of every test. Which tests the framework loads from those arguments, and the exit status it chooses, are not modelled.
- `inspect.getmembers` is not modelled. Its result is the `members` sequence, taken in the order given.
- The installation fallback when `xmlrunner` is missing, and the creation of `test_reports` and the screenshots directory, are not modelled. Both are filesystem and package-manager side effects.
- `image/screenShoot/selenium_tests.py` is used only for the screenshot file-name shape and labels in the fixture lemmas. Its browser-driving tests are not part of this model.
- `run_locust_headless.py` and `run_locust_web.py` are not part of this model. They build a fixed argument vector and start an external load tool.
- PyStrings.Basename: models POSIX `os.path.basename`, splitting only on `/`.
