/**
 * `generate_excel_report`: the suite record projected onto a summary sheet
 * and, when there are cases, a detail sheet. A sheet is its cell values by
 * position, the fill colour of the styled cells and the width of each
 * column, as the workbook holds them before it is saved.
 */
module Report {
  import opened Optional
  import opened PyStrings
  import opened Aggregation
  import opened Layout

  /** A cell position (row, column), both counted from 1 as in `A1` notation. */
  type Pos = (nat, nat)

  /** A cell value as the report writes it. */
  datatype Cell = Text(text: string) | Count(n: nat) | Seconds(d: Duration)

  const SummaryTitle := "Test Summary"
  const DetailTitle := "Test_Details"
  const SummaryHeader := ["Test Type", "Status", "Total Tests", "Passed", "Failed", "Error"]
  const DetailHeader := ["Test Name", "Status", "Time (s)", "Reason/Error", "Screenshots"]
  const HeaderFill := "4F81BD"
  const PassedFill := "C6EFCE"
  const FailedFill := "FFC7CE"
  const OtherFill := "FFEB9C"
  const NotAvailable := "N/A"
  const NoScreenshots := "No screenshots"
  /** Column B holds the status on both sheets. */
  const StatusColumn := 2
  const DetailWidthCap := 50
  const ReportPrefix := ReportsDir + "/" + SuiteReportStem
  const ReportSuffix := ".xlsx"

  /** The value at `p`, None for a cell never written. */
  function CellAt(cells: map<Pos, Cell>, p: Pos): Option<Cell> {
    if p in cells then Some(cells[p]) else None
  }

  /** `str(cell.value)`: a cell never written holds `None`. */
  function Render(c: Option<Cell>): string {
    match c
    case None => "None"
    case Some(Text(s)) => s
    case Some(Count(n)) => DecimalString(n)
    case Some(Seconds(d)) => d.repr
  }

  /** The number of cases with status `s`: `sum(1 for r in results if r["status"] == s)`. */
  function CountStatus(cases: seq<CaseResult>, s: Status): (n: nat)
    ensures n <= |cases|
    decreases |cases|
  {
    if cases == [] then 0
    else (if cases[0].status == s then 1 else 0) + CountStatus(cases[1..], s)
  }

  /** Every case is counted under exactly one of the three statuses. */
  lemma {:induction false} CountsPartition(cases: seq<CaseResult>)
    ensures CountStatus(cases, Passed) + CountStatus(cases, Failed) + CountStatus(cases, Error) == |cases|
    decreases |cases|
  {
    if cases != [] {
      CountsPartition(cases[1..]);
    }
  }

  /** The number of testcase records that classify as `s`. */
  function CountRecords(records: seq<TestCaseRecord>, s: Status): nat
    decreases |records|
  {
    if records == [] then 0
    else (if Classify(records[0]).0 == s then 1 else 0) + CountRecords(records[1..], s)
  }

  /**
   * The counts of the aggregated entries are the counts of the records the
   * parse loop got through, classified by their `failure` and `error` children.
   */
  lemma {:induction false} CollectedCounts(records: seq<TestCaseRecord>, listing: seq<string>, s: Status)
    ensures var n := |Collected(records, listing)|;
      n <= |records| && CountStatus(Collected(records, listing), s) == CountRecords(records[..n], s)
    decreases |records|
  {
    var c := Collected(records, listing);
    if records == [] || !WellFormed(records[0], listing) {
      assert records[..0] == [];
    } else {
      var rest := records[1..];
      var c' := Collected(rest, listing);
      CollectedCounts(rest, listing, s);
      assert c == [Convert(records[0], listing)] + c';
      assert c[0].status == Classify(records[0]).0;
      assert c[1..] == c';
      var prefix := records[..|c|];
      assert prefix[0] == records[0];
      assert prefix[1..] == rest[..|c'|];
    }
  }

  /** Writes `values[c - 1]` into column `c` of `row`, left to right. */
  function PutRow(m: map<Pos, Cell>, row: nat, values: seq<Cell>): map<Pos, Cell>
    decreases |values|
  {
    if values == [] then m
    else PutRow(m, row, values[..|values| - 1])[(row, |values|) := values[|values| - 1]]
  }

  /** After `PutRow`, the row holds `values` and every other cell is as before. */
  lemma {:induction false} PutRowAt(m: map<Pos, Cell>, row: nat, values: seq<Cell>, p: Pos)
    ensures p in PutRow(m, row, values) <==> p in m || (p.0 == row && 1 <= p.1 <= |values|)
    ensures p.0 == row && 1 <= p.1 <= |values| ==> PutRow(m, row, values)[p] == values[p.1 - 1]
    ensures !(p.0 == row && 1 <= p.1 <= |values|) && p in m ==> PutRow(m, row, values)[p] == m[p]
    decreases |values|
  {
    if values != [] {
      PutRowAt(m, row, values[..|values| - 1], p);
    }
  }

  /** Writing one more value extends the row by one cell. */
  lemma PutRowStep(m: map<Pos, Cell>, row: nat, values: seq<Cell>, i: nat)
    requires i < |values|
    ensures PutRow(m, row, values[..i + 1]) == PutRow(m, row, values[..i])[(row, i + 1) := values[i]]
  {
    assert values[..i + 1][..i] == values[..i];
  }

  /** A five-cell row as the five assignments that write it. */
  lemma PutRowFive(m: map<Pos, Cell>, row: nat, v: seq<Cell>)
    requires |v| == 5
    ensures PutRow(m, row, v) == m[(row, 1) := v[0]][(row, 2) := v[1]][(row, 3) := v[2]][(row, 4) := v[3]][(row, 5) := v[4]]
  {
    assert v[..0] == [];
    PutRowStep(m, row, v, 0);
    PutRowStep(m, row, v, 1);
    PutRowStep(m, row, v, 2);
    PutRowStep(m, row, v, 3);
    PutRowStep(m, row, v, 4);
    assert v[..5] == v;
  }

  /** A six-cell row as the six assignments that write it. */
  lemma PutRowSix(m: map<Pos, Cell>, row: nat, v: seq<Cell>)
    requires |v| == 6
    ensures PutRow(m, row, v) ==
      m[(row, 1) := v[0]][(row, 2) := v[1]][(row, 3) := v[2]][(row, 4) := v[3]][(row, 5) := v[4]][(row, 6) := v[5]]
  {
    PutRowFive(m, row, v[..5]);
    PutRowStep(m, row, v, 5);
    assert v[..6] == v;
  }

  function HeaderRow(header: seq<string>): (r: seq<Cell>)
    ensures |r| == |header| && forall i :: 0 <= i < |r| ==> r[i] == Text(header[i])
  {
    seq(|header|, i requires 0 <= i < |header| => Text(header[i]))
  }

  /** The four count cells of the summary row: the counts, or "N/A" for an empty case list. */
  function SummaryCounts(cases: seq<CaseResult>): seq<Cell> {
    if |cases| > 0 then
      [Count(|cases|), Count(CountStatus(cases, Passed)), Count(CountStatus(cases, Failed)),
       Count(CountStatus(cases, Error))]
    else
      [Text(NotAvailable), Text(NotAvailable), Text(NotAvailable), Text(NotAvailable)]
  }

  function SummaryRow(suite: SuiteResult): seq<Cell> {
    [Text(suite.name), Text(suite.status.Label())] + SummaryCounts(suite.detailedResults)
  }

  /** The three status colours are different from each other. */
  lemma StatusFillsDistinct()
    ensures PassedFill != FailedFill && PassedFill != OtherFill && FailedFill != OtherFill
  {
    assert PassedFill[0] != FailedFill[0];
    assert PassedFill[1] != OtherFill[1];
    assert FailedFill[2] != OtherFill[2];
  }

  /** The fill of a status cell: green for PASSED, red for FAILED, amber for anything else. */
  function StatusFill(s: Status): (f: string)
    ensures f == PassedFill <==> s == Passed
    ensures f == FailedFill <==> s == Failed
    ensures f == OtherFill <==> s == Error
  {
    StatusFillsDistinct();
    match s
    case Passed => PassedFill
    case Failed => FailedFill
    case Error => OtherFill
  }

  /** The header fill on columns 1 to `columns` of row 1. */
  function HeaderFills(f: map<Pos, string>, columns: nat): map<Pos, string>
    decreases columns
  {
    if columns == 0 then f else HeaderFills(f, columns - 1)[(1, columns) := HeaderFill]
  }

  /** `[os.path.basename(s) for s in shots]` */
  function ShotNames(shots: seq<string>): (names: seq<string>)
    ensures |names| == |shots| && forall i :: 0 <= i < |shots| ==> names[i] == Basename(shots[i])
  {
    seq(|shots|, i requires 0 <= i < |shots| => Basename(shots[i]))
  }

  /** The screenshots cell: the `", "`-joined basenames, or "No screenshots". */
  function ScreenshotCell(shots: seq<string>): string {
    if shots == [] then NoScreenshots else Join(ShotNames(shots), ", ")
  }

  /** The five cells of a detail row. */
  function DetailRow(c: CaseResult): (r: seq<Cell>)
    ensures |r| == |DetailHeader|
  {
    [Text(c.name), Text(c.status.Label()), Seconds(c.time), Text(c.reason), Text(ScreenshotCell(c.screenshots))]
  }

  /** The detail rows, one per case. */
  function DetailRows(cases: seq<CaseResult>): (rows: seq<seq<Cell>>)
    ensures |rows| == |cases|
  {
    seq(|cases|, i requires 0 <= i < |cases| => DetailRow(cases[i]))
  }

  /** The rows writer after `k` rows: `rows[j]` in sheet row `j + 2`. */
  function RowsFrom(m: map<Pos, Cell>, rows: seq<seq<Cell>>, k: nat): map<Pos, Cell>
    requires k <= |rows|
    decreases k
  {
    if k == 0 then m else PutRow(RowsFrom(m, rows, k - 1), k + 1, rows[k - 1])
  }

  /** The status fills of the detail writer after `k` cases. */
  function StatusFillsFrom(f: map<Pos, string>, cases: seq<CaseResult>, k: nat): map<Pos, string>
    requires k <= |cases|
    decreases k
  {
    if k == 0 then f else StatusFillsFrom(f, cases, k - 1)[(k + 1, StatusColumn) := StatusFill(cases[k - 1].status)]
  }

  /** The longest rendering among rows 1 to `rows` of column `col`; 0 when there are none. */
  function ColumnMaxLen(cells: map<Pos, Cell>, col: nat, rows: nat): nat
    decreases rows
  {
    if rows == 0 then 0
    else
      var above := ColumnMaxLen(cells, col, rows - 1);
      var here := |Render(CellAt(cells, (rows, col)))|;
      if here > above then here else above
  }

  /** `max_length + 2`, or `min(max_length + 2, cap)` when the sheet caps its widths. */
  function ColumnWidth(cells: map<Pos, Cell>, col: nat, rows: nat, cap: Option<nat>): nat {
    var w := ColumnMaxLen(cells, col, rows) + 2;
    if cap.Some? && cap.value < w then cap.value else w
  }

  /** The widths of columns 1 to `columns` written over `w`. */
  function SetWidths(w: map<nat, nat>, cells: map<Pos, Cell>, rows: nat, columns: nat, cap: Option<nat>): map<nat, nat>
    decreases columns
  {
    if columns == 0 then w
    else SetWidths(w, cells, rows, columns - 1, cap)[columns := ColumnWidth(cells, columns, rows, cap)]
  }

  function SummaryCells(suite: SuiteResult): map<Pos, Cell> {
    PutRow(PutRow(map[], 1, HeaderRow(SummaryHeader)), 2, SummaryRow(suite))
  }

  function SummaryFills(suite: SuiteResult): map<Pos, string> {
    HeaderFills(map[], |SummaryHeader|)[(2, StatusColumn) := StatusFill(suite.status)]
  }

  function SummaryWidths(suite: SuiteResult): map<nat, nat> {
    SetWidths(map[], SummaryCells(suite), 2, |SummaryHeader|, None)
  }

  function DetailCells(cases: seq<CaseResult>): map<Pos, Cell> {
    RowsFrom(PutRow(map[], 1, HeaderRow(DetailHeader)), DetailRows(cases), |cases|)
  }

  function DetailFills(cases: seq<CaseResult>): map<Pos, string> {
    StatusFillsFrom(HeaderFills(map[], |DetailHeader|), cases, |cases|)
  }

  function DetailWidths(cases: seq<CaseResult>): map<nat, nat> {
    SetWidths(map[], DetailCells(cases), |cases| + 1, |DetailHeader|, Some(DetailWidthCap))
  }

  /** The report's path: the fixed prefix, the run timestamp and the extension. */
  function ReportFile(timestamp: string): string {
    ReportPrefix + timestamp + ReportSuffix
  }

  /** The timestamp a report path was made from, if it has the report's shape. */
  function ReportTimestamp(path: string): Option<string> {
    if StartsWith(path, ReportPrefix) && EndsWith(path, ReportSuffix) && |ReportPrefix| + |ReportSuffix| <= |path|
    then Some(path[|ReportPrefix|..|path| - |ReportSuffix|])
    else None
  }

  /** The summary sheet holds exactly the header row and the suite row, six columns each. */
  lemma SummaryCellsAt(suite: SuiteResult, p: Pos)
    ensures p in SummaryCells(suite) <==> 1 <= p.0 <= 2 && 1 <= p.1 <= |SummaryHeader|
    ensures p.0 == 1 && 1 <= p.1 <= |SummaryHeader| ==> SummaryCells(suite)[p] == Text(SummaryHeader[p.1 - 1])
    ensures p.0 == 2 && 1 <= p.1 <= |SummaryHeader| ==> SummaryCells(suite)[p] == SummaryRow(suite)[p.1 - 1]
  {
    var header := PutRow(map[], 1, HeaderRow(SummaryHeader));
    PutRowAt(map[], 1, HeaderRow(SummaryHeader), p);
    PutRowAt(header, 2, SummaryRow(suite), p);
  }

  /**
   * Row 2 of the summary: the suite's name and status, then its total,
   * passed, failed and error counts, which add up, or "N/A" four times
   * when it has no cases.
   */
  lemma SummaryRowContents(suite: SuiteResult)
    ensures var cells := SummaryCells(suite); var cases := suite.detailedResults;
      && (2, 1) in cells && cells[(2, 1)] == Text(suite.name)
      && (2, 2) in cells && cells[(2, 2)] == Text(suite.status.Label())
      && (|cases| > 0 ==>
            && (2, 3) in cells && cells[(2, 3)] == Count(|cases|)
            && (2, 4) in cells && cells[(2, 4)] == Count(CountStatus(cases, Passed))
            && (2, 5) in cells && cells[(2, 5)] == Count(CountStatus(cases, Failed))
            && (2, 6) in cells && cells[(2, 6)] == Count(CountStatus(cases, Error))
            && CountStatus(cases, Passed) + CountStatus(cases, Failed) + CountStatus(cases, Error) == |cases|)
      && (|cases| == 0 ==> forall c :: 3 <= c <= 6 ==> (2, c) in cells && cells[(2, c)] == Text(NotAvailable))
  {
    SummaryCellsAt(suite, (2, 1));
    SummaryCellsAt(suite, (2, 2));
    SummaryCellsAt(suite, (2, 3));
    SummaryCellsAt(suite, (2, 4));
    SummaryCellsAt(suite, (2, 5));
    SummaryCellsAt(suite, (2, 6));
    CountsPartition(suite.detailedResults);
  }

  /** Writing case `k` extends the rows written so far by its row. */
  lemma DetailRowsStep(m: map<Pos, Cell>, cases: seq<CaseResult>, k: nat)
    requires k < |cases|
    ensures RowsFrom(m, DetailRows(cases), k + 1) == PutRow(RowsFrom(m, DetailRows(cases), k), k + 2, DetailRow(cases[k]))
  {
  }

  /** Rows of equal width written from row 2 down, over whatever `m` held. */
  lemma {:induction false} RowsAt(m: map<Pos, Cell>, rows: seq<seq<Cell>>, width: nat, k: nat, p: Pos)
    requires k <= |rows|
    requires forall i :: 0 <= i < |rows| ==> |rows[i]| == width
    ensures p in RowsFrom(m, rows, k) <==> p in m || (2 <= p.0 <= k + 1 && 1 <= p.1 <= width)
    ensures 2 <= p.0 <= k + 1 && 1 <= p.1 <= width ==> RowsFrom(m, rows, k)[p] == rows[p.0 - 2][p.1 - 1]
    ensures !(2 <= p.0 <= k + 1 && 1 <= p.1 <= width) && p in m ==> RowsFrom(m, rows, k)[p] == m[p]
    decreases k
  {
    if k > 0 {
      RowsAt(m, rows, width, k - 1, p);
      PutRowAt(RowsFrom(m, rows, k - 1), k + 1, rows[k - 1], p);
    }
  }

  /** The detail sheet is the header row over one five-cell row per case, and nothing else. */
  lemma DetailCellsAt(cases: seq<CaseResult>, p: Pos)
    ensures p in DetailCells(cases) <==> 1 <= p.0 <= |cases| + 1 && 1 <= p.1 <= |DetailHeader|
    ensures p.0 == 1 && 1 <= p.1 <= |DetailHeader| ==> DetailCells(cases)[p] == Text(DetailHeader[p.1 - 1])
    ensures 2 <= p.0 <= |cases| + 1 && 1 <= p.1 <= |DetailHeader| ==>
      DetailCells(cases)[p] == DetailRow(cases[p.0 - 2])[p.1 - 1]
  {
    PutRowAt(map[], 1, HeaderRow(DetailHeader), p);
    RowsAt(PutRow(map[], 1, HeaderRow(DetailHeader)), DetailRows(cases), |DetailHeader|, |cases|, p);
  }

  /** Cell `j` of row `k + 2` of the detail sheet. */
  lemma DetailCellAt(cases: seq<CaseResult>, k: nat, j: nat)
    requires k < |cases| && 1 <= j <= |DetailHeader|
    ensures (k + 2, j) in DetailCells(cases) && DetailCells(cases)[(k + 2, j)] == DetailRow(cases[k])[j - 1]
  {
    DetailCellsAt(cases, (k + 2, j));
  }

  /** Row `k + 2` of the detail sheet describes case `k`. */
  lemma DetailRowContents(cases: seq<CaseResult>, k: nat)
    requires k < |cases|
    ensures var cells := DetailCells(cases); var c := cases[k];
      && (k + 2, 1) in cells && cells[(k + 2, 1)] == Text(c.name)
      && (k + 2, 2) in cells && cells[(k + 2, 2)] == Text(c.status.Label())
      && (k + 2, 3) in cells && cells[(k + 2, 3)] == Seconds(c.time)
      && (k + 2, 4) in cells && cells[(k + 2, 4)] == Text(c.reason)
      && (k + 2, 5) in cells && cells[(k + 2, 5)] == Text(ScreenshotCell(c.screenshots))
  {
    DetailCellAt(cases, k, 1);
    DetailCellAt(cases, k, 2);
    DetailCellAt(cases, k, 3);
    DetailCellAt(cases, k, 4);
    DetailCellAt(cases, k, 5);
  }

  /**
   * From testcase record to report: each record the parse loop got through
   * has its row, under its qualified name, classification and reason.
   */
  lemma RecordRow(records: seq<TestCaseRecord>, listing: seq<string>, k: nat)
    requires k < |Collected(records, listing)|
    ensures k < |records| && (records[k].name.None? ==> listing == [])
    ensures var cells := DetailCells(Collected(records, listing)); var t := records[k];
      && (t.name.None? ==> (k + 2, 5) in cells && cells[(k + 2, 5)] == Text(NoScreenshots))
      && (k + 2, 1) in cells && cells[(k + 2, 1)] == Text(AttrText(t.classname) + "." + AttrText(t.name))
      && (k + 2, 2) in cells && cells[(k + 2, 2)] == Text(Classify(t).0.Label())
      && (k + 2, 4) in cells && cells[(k + 2, 4)] == Text(Classify(t).1)
  {
    var cases := Collected(records, listing);
    CollectedPrefix(records, listing);
    CollectedEntry(records, listing, k);
    DetailRowContents(cases, k);
  }

  lemma {:induction false} HeaderFillsAt(f: map<Pos, string>, columns: nat, p: Pos)
    ensures p in HeaderFills(f, columns) <==> p in f || (p.0 == 1 && 1 <= p.1 <= columns)
    ensures p.0 == 1 && 1 <= p.1 <= columns ==> HeaderFills(f, columns)[p] == HeaderFill
    ensures !(p.0 == 1 && 1 <= p.1 <= columns) && p in f ==> HeaderFills(f, columns)[p] == f[p]
    decreases columns
  {
    if columns > 0 {
      HeaderFillsAt(f, columns - 1, p);
    }
  }

  lemma {:induction false} StatusFillsAt(f: map<Pos, string>, cases: seq<CaseResult>, k: nat, p: Pos)
    requires k <= |cases|
    ensures p in StatusFillsFrom(f, cases, k) <==> p in f || (2 <= p.0 <= k + 1 && p.1 == StatusColumn)
    ensures 2 <= p.0 <= k + 1 && p.1 == StatusColumn ==>
      StatusFillsFrom(f, cases, k)[p] == StatusFill(cases[p.0 - 2].status)
    ensures !(2 <= p.0 <= k + 1 && p.1 == StatusColumn) && p in f ==> StatusFillsFrom(f, cases, k)[p] == f[p]
    decreases k
  {
    if k > 0 {
      StatusFillsAt(f, cases, k - 1, p);
    }
  }

  /** Summary fills: the header row, and the status cell coloured by the suite's status. */
  lemma SummaryFillsAt(suite: SuiteResult, p: Pos)
    ensures p in SummaryFills(suite) <==> (p.0 == 1 && 1 <= p.1 <= |SummaryHeader|) || p == (2, StatusColumn)
    ensures p.0 == 1 && 1 <= p.1 <= |SummaryHeader| ==> SummaryFills(suite)[p] == HeaderFill
    ensures p == (2, StatusColumn) ==> SummaryFills(suite)[p] == StatusFill(suite.status)
  {
    HeaderFillsAt(map[], |SummaryHeader|, p);
  }

  /**
   * Detail fills: the header row, and in every case row only the status
   * cell, coloured by that case's status.
   */
  lemma DetailFillsAt(cases: seq<CaseResult>, p: Pos)
    ensures p in DetailFills(cases) <==>
      (p.0 == 1 && 1 <= p.1 <= |DetailHeader|) || (2 <= p.0 <= |cases| + 1 && p.1 == StatusColumn)
    ensures p.0 == 1 && 1 <= p.1 <= |DetailHeader| ==> DetailFills(cases)[p] == HeaderFill
    ensures 2 <= p.0 <= |cases| + 1 && p.1 == StatusColumn ==>
      DetailFills(cases)[p] == StatusFill(cases[p.0 - 2].status)
  {
    HeaderFillsAt(map[], |DetailHeader|, p);
    StatusFillsAt(HeaderFills(map[], |DetailHeader|), cases, |cases|, p);
  }

  /** `ColumnMaxLen` is the maximum: no rendering is longer, and some rendering reaches it. */
  lemma {:induction false} ColumnMaxLenBounds(cells: map<Pos, Cell>, col: nat, rows: nat)
    ensures forall r :: 1 <= r <= rows ==> |Render(CellAt(cells, (r, col)))| <= ColumnMaxLen(cells, col, rows)
    ensures rows > 0 ==>
      exists r :: 1 <= r <= rows && ColumnMaxLen(cells, col, rows) == |Render(CellAt(cells, (r, col)))|
    decreases rows
  {
    if rows > 0 {
      ColumnMaxLenBounds(cells, col, rows - 1);
      var above := ColumnMaxLen(cells, col, rows - 1);
      var here := |Render(CellAt(cells, (rows, col)))|;
      if here <= above && rows > 1 {
        var r :| 1 <= r <= rows - 1 && above == |Render(CellAt(cells, (r, col)))|;
        assert 1 <= r <= rows && ColumnMaxLen(cells, col, rows) == |Render(CellAt(cells, (r, col)))|;
      } else {
        assert ColumnMaxLen(cells, col, rows) == here;
      }
    }
  }

  lemma {:induction false} SetWidthsAt(w: map<nat, nat>, cells: map<Pos, Cell>, rows: nat, columns: nat,
                                       cap: Option<nat>, c: nat)
    ensures c in SetWidths(w, cells, rows, columns, cap) <==> c in w || 1 <= c <= columns
    ensures 1 <= c <= columns ==> SetWidths(w, cells, rows, columns, cap)[c] == ColumnWidth(cells, c, rows, cap)
    decreases columns
  {
    if columns > 0 {
      SetWidthsAt(w, cells, rows, columns - 1, cap, c);
    }
  }

  /**
   * A summary column is 2 wider than its longest rendering: at least its
   * header and its value, and exactly one of them.
   */
  lemma SummaryWidthAt(suite: SuiteResult, c: nat)
    requires 1 <= c <= |SummaryHeader|
    ensures var cells := SummaryCells(suite); var widths := SummaryWidths(suite);
      && c in widths
      && widths[c] >= |SummaryHeader[c - 1]| + 2
      && widths[c] >= |Render(CellAt(cells, (2, c)))| + 2
      && (widths[c] == |SummaryHeader[c - 1]| + 2 || widths[c] == |Render(CellAt(cells, (2, c)))| + 2)
  {
    var cells := SummaryCells(suite);
    SetWidthsAt(map[], cells, 2, |SummaryHeader|, None, c);
    ColumnMaxLenBounds(cells, c, 2);
    SummaryCellsAt(suite, (1, c));
    assert Render(CellAt(cells, (1, c))) == SummaryHeader[c - 1];
  }

  /**
   * A column's width covers each of its renderings plus 2 unless capped, is
   * reached by one of them, and is capped only when one of them reaches the cap.
   */
  lemma ColumnWidthBounds(cells: map<Pos, Cell>, col: nat, rows: nat, cap: Option<nat>)
    ensures var w := ColumnWidth(cells, col, rows, cap);
      && (cap.Some? ==> w <= cap.value)
      && (forall r :: 1 <= r <= rows ==> (cap.Some? && w == cap.value) || w >= |Render(CellAt(cells, (r, col)))| + 2)
      && (rows > 0 ==>
            ((cap.Some? && w == cap.value) || exists r :: 1 <= r <= rows && w == |Render(CellAt(cells, (r, col)))| + 2))
      && (rows > 0 && cap.Some? && w == cap.value ==>
            exists r :: 1 <= r <= rows && |Render(CellAt(cells, (r, col)))| + 2 >= cap.value)
  {
    ColumnMaxLenBounds(cells, col, rows);
  }

  /**
   * A detail column is 2 wider than its longest rendering, header included,
   * but never wider than 50, and 50 only when some rendering plus 2 reaches 50:
   * together, `min(max_length + 2, 50)`.
   */
  lemma DetailWidthAt(cases: seq<CaseResult>, c: nat)
    requires 1 <= c <= |DetailHeader|
    ensures var cells := DetailCells(cases); var widths := DetailWidths(cases);
      && c in widths
      && widths[c] <= DetailWidthCap
      && widths[c] >= |DetailHeader[c - 1]| + 2
      && (forall r :: 1 <= r <= |cases| + 1 ==>
            widths[c] == DetailWidthCap || widths[c] >= |Render(CellAt(cells, (r, c)))| + 2)
      && (widths[c] == DetailWidthCap ||
          exists r :: 1 <= r <= |cases| + 1 && widths[c] == |Render(CellAt(cells, (r, c)))| + 2)
      && (widths[c] == DetailWidthCap ==>
          exists r :: 1 <= r <= |cases| + 1 && |Render(CellAt(cells, (r, c)))| + 2 >= DetailWidthCap)
  {
    var cells := DetailCells(cases);
    var rows := |cases| + 1;
    SetWidthsAt(map[], cells, rows, |DetailHeader|, Some(DetailWidthCap), c);
    ColumnWidthBounds(cells, c, rows, Some(DetailWidthCap));
    DetailCellsAt(cases, (1, c));
    assert |Render(CellAt(cells, (1, c)))| == |DetailHeader[c - 1]| <= 12;
  }

  /**
   * With screenshots from the `*.png` listing, the cell reads
   * "No screenshots" exactly when the case has none.
   */
  lemma ScreenshotCellEmptyIff(shots: seq<string>)
    requires forall i :: 0 <= i < |shots| ==> EndsWith(Basename(shots[i]), ".png")
    ensures ScreenshotCell(shots) == NoScreenshots <==> shots == []
  {
    if shots != [] {
      var names := ShotNames(shots);
      var cell := Join(names, ", ");
      var last := names[|names| - 1];
      JoinEndsWithLast(names, ", ");
      assert EndsWith(last, ".png");
      assert cell[|cell| - 1] == last[|last| - 1] == 'g';
      assert NoScreenshots[|NoScreenshots| - 1] == 's';
    }
  }

  /** Every attached screenshot's file name appears in the cell. */
  lemma ScreenshotCellNames(shots: seq<string>, k: nat)
    requires k < |shots|
    ensures exists i :: OccursAt(ScreenshotCell(shots), Basename(shots[k]), i)
  {
    var names := ShotNames(shots);
    JoinContainsParts(names, ", ", k);
    var i :| OccursAt(Join(names, ", "), names[k], i);
    assert OccursAt(ScreenshotCell(shots), Basename(shots[k]), i);
  }

  /** The timestamp can be read back from the report's path. */
  lemma ReportFileRoundTrip(timestamp: string)
    ensures ReportTimestamp(ReportFile(timestamp)) == Some(timestamp)
  {
    var path := ReportFile(timestamp);
    assert path[..|ReportPrefix|] == ReportPrefix;
    assert path[|path| - |ReportSuffix|..] == ReportSuffix;
    assert path[|ReportPrefix|..|path| - |ReportSuffix|] == timestamp;
  }

  /** Only report paths have a timestamp, and they are rebuilt from it. */
  lemma ReportTimestampInverse(path: string, timestamp: string)
    requires ReportTimestamp(path) == Some(timestamp)
    ensures ReportFile(timestamp) == path
  {
    assert path == path[..|ReportPrefix|] + path[|ReportPrefix|..|path| - |ReportSuffix|] + path[|path| - |ReportSuffix|..];
  }

  /** A sheet of the workbook, updated cell by cell. */
  class Sheet {
    const title: string
    var cells: map<Pos, Cell>
    var fills: map<Pos, string>
    var widths: map<nat, nat>

    constructor (title: string)
      ensures this.title == title && cells == map[] && fills == map[] && widths == map[]
    {
      this.title := title;
      cells, fills, widths := map[], map[], map[];
    }

    /** `sheet[pos] = value` */
    method Put(p: Pos, v: Cell)
      modifies this
      ensures cells == old(cells)[p := v]
      ensures fills == old(fills) && widths == old(widths)
    {
      cells := cells[p := v];
    }

    /** `sheet[pos].fill = PatternFill(...)` */
    method Fill(p: Pos, color: string)
      modifies this
      ensures fills == old(fills)[p := color]
      ensures cells == old(cells) && widths == old(widths)
    {
      fills := fills[p := color];
    }

    /** The header-styling loop over the cells of row 1. */
    method StyleHeader(columns: nat)
      modifies this
      ensures fills == HeaderFills(old(fills), columns)
      ensures cells == old(cells) && widths == old(widths)
    {
      for c := 1 to columns + 1
        invariant fills == HeaderFills(old(fills), c - 1)
        invariant cells == old(cells) && widths == old(widths)
      {
        Fill((1, c), HeaderFill);
      }
    }

    /** The auto-size loop: each column's longest rendering plus 2, capped when `cap` is given. */
    method AutoSize(rows: nat, columns: nat, cap: Option<nat>)
      modifies this
      ensures widths == SetWidths(old(widths), cells, rows, columns, cap)
      ensures cells == old(cells) && fills == old(fills)
    {
      for col := 1 to columns + 1
        invariant widths == SetWidths(old(widths), cells, rows, col - 1, cap)
        invariant cells == old(cells) && fills == old(fills)
      {
        var maxLength := 0;
        for row := 1 to rows + 1
          invariant maxLength == ColumnMaxLen(cells, col, row - 1)
        {
          var length := |Render(CellAt(cells, (row, col)))|;
          if length > maxLength {
            maxLength := length;
          }
        }
        var width := maxLength + 2;
        if cap.Some? && cap.value < width {
          width := cap.value;
        }
        widths := widths[col := width];
      }
    }
  }

  /** One pass of the detail loop: the five cells of the case's row, then its status fill. */
  method WriteDetailRow(sheet: Sheet, row: nat, c: CaseResult)
    modifies sheet
    ensures sheet.cells == PutRow(old(sheet.cells), row, DetailRow(c))
    ensures sheet.fills == old(sheet.fills)[(row, StatusColumn) := StatusFill(c.status)]
    ensures sheet.widths == old(sheet.widths)
  {
    var values := DetailRow(c);
    sheet.Put((row, 1), values[0]);
    sheet.Put((row, 2), values[1]);
    sheet.Put((row, 3), values[2]);
    sheet.Put((row, 4), values[3]);
    sheet.Put((row, 5), values[4]);
    PutRowFive(old(sheet.cells), row, values);
    sheet.Fill((row, StatusColumn), StatusFill(c.status));
  }

  /** The detail writer: case `k` in row `k + 2`, its status cell filled by status. */
  method WriteDetailRows(sheet: Sheet, cases: seq<CaseResult>)
    modifies sheet
    ensures sheet.cells == RowsFrom(old(sheet.cells), DetailRows(cases), |cases|)
    ensures sheet.fills == StatusFillsFrom(old(sheet.fills), cases, |cases|)
    ensures sheet.widths == old(sheet.widths)
  {
    ghost var cells0, fills0 := sheet.cells, sheet.fills;
    var row := 2;
    for k := 0 to |cases|
      invariant row == k + 2
      invariant sheet.cells == RowsFrom(cells0, DetailRows(cases), k)
      invariant sheet.fills == StatusFillsFrom(fills0, cases, k)
      invariant sheet.widths == old(sheet.widths)
    {
      WriteDetailRow(sheet, row, cases[k]);
      DetailRowsStep(cells0, cases, k);
      row := row + 1;
    }
  }

  /** The summary sheet: header, suite row, fills, widths. */
  method WriteSummary(suite: SuiteResult) returns (summary: Sheet)
    ensures fresh(summary)
    ensures summary.title == SummaryTitle
    ensures summary.cells == SummaryCells(suite)
    ensures summary.fills == SummaryFills(suite)
    ensures summary.widths == SummaryWidths(suite)
  {
    summary := new Sheet(SummaryTitle);
    summary.Put((1, 1), Text(SummaryHeader[0]));
    summary.Put((1, 2), Text(SummaryHeader[1]));
    summary.Put((1, 3), Text(SummaryHeader[2]));
    summary.Put((1, 4), Text(SummaryHeader[3]));
    summary.Put((1, 5), Text(SummaryHeader[4]));
    summary.Put((1, 6), Text(SummaryHeader[5]));
    PutRowSix(map[], 1, HeaderRow(SummaryHeader));
    ghost var afterHeader := summary.cells;
    summary.StyleHeader(|SummaryHeader|);

    var cases := suite.detailedResults;
    summary.Put((2, 1), Text(suite.name));
    summary.Put((2, 2), Text(suite.status.Label()));
    if |cases| > 0 {
      summary.Put((2, 3), Count(|cases|));
      summary.Put((2, 4), Count(CountStatus(cases, Passed)));
      summary.Put((2, 5), Count(CountStatus(cases, Failed)));
      summary.Put((2, 6), Count(CountStatus(cases, Error)));
    } else {
      summary.Put((2, 3), Text(NotAvailable));
      summary.Put((2, 4), Text(NotAvailable));
      summary.Put((2, 5), Text(NotAvailable));
      summary.Put((2, 6), Text(NotAvailable));
    }
    PutRowSix(afterHeader, 2, SummaryRow(suite));
    summary.Fill((2, StatusColumn), StatusFill(suite.status));
    summary.AutoSize(2, |SummaryHeader|, None);
  }

  /** The detail sheet: header, one row per case, fills, capped widths. */
  method WriteDetails(cases: seq<CaseResult>) returns (details: Sheet)
    ensures fresh(details)
    ensures details.title == DetailTitle
    ensures details.cells == DetailCells(cases)
    ensures details.fills == DetailFills(cases)
    ensures details.widths == DetailWidths(cases)
  {
    details := new Sheet(DetailTitle);
    details.Put((1, 1), Text(DetailHeader[0]));
    details.Put((1, 2), Text(DetailHeader[1]));
    details.Put((1, 3), Text(DetailHeader[2]));
    details.Put((1, 4), Text(DetailHeader[3]));
    details.Put((1, 5), Text(DetailHeader[4]));
    PutRowFive(map[], 1, HeaderRow(DetailHeader));
    details.StyleHeader(|DetailHeader|);
    WriteDetailRows(details, cases);
    details.AutoSize(|cases| + 1, |DetailHeader|, Some(DetailWidthCap));
  }

  /**
   * `generate_excel_report`: the summary sheet always, the detail sheet only
   * for a non-empty case list, and the timestamped path of the report.
   */
  method GenerateExcelReport(suite: SuiteResult, timestamp: string)
    returns (summary: Sheet, details: Sheet?, reportFile: string)
    ensures fresh(summary) && (details != null ==> fresh(details))
    ensures summary.title == SummaryTitle
    ensures summary.cells == SummaryCells(suite)
    ensures summary.fills == SummaryFills(suite)
    ensures summary.widths == SummaryWidths(suite)
    ensures details != null <==> |suite.detailedResults| > 0
    ensures details != null ==>
      && details.title == DetailTitle
      && details.cells == DetailCells(suite.detailedResults)
      && details.fills == DetailFills(suite.detailedResults)
      && details.widths == DetailWidths(suite.detailedResults)
    ensures reportFile == ReportFile(timestamp)
  {
    summary := WriteSummary(suite);
    details := null;
    if |suite.detailedResults| > 0 {
      details := WriteDetails(suite.detailedResults);
    }
    reportFile := ReportPrefix + timestamp + ReportSuffix;
  }
}
