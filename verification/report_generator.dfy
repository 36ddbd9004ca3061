/** The report: each pipeline run appends its entry to the JSON results
    file, and a spreadsheet can be laid out from a list of entries. */
module ReportGenerator {
  import opened Results
  import opened Strings
  import opened Workspace

  /** The results list the file already holds before an append: empty when
      the file is missing or does not decode, None when the decoded document
      has no "results" list. */
  function PriorResults(f: ReportFile): Option<seq<Entry>> {
    match f
    case Missing => Some([])
    case Undecodable => Some([])
    case Decoded(results) => results
  }

  /** The results list after appending `entry`, or the KeyError raised when
      the document has no "results" list. */
  function AppendResult(f: ReportFile, entry: Entry): (r: Result<seq<Entry>>)
    ensures r.Ok? <==> PriorResults(f).Some?
    ensures r.Ok? ==>
              var prior := PriorResults(f).value;
              |r.value| == |prior| + 1 && r.value[..|prior|] == prior && r.value[|prior|] == entry
    ensures r.Err? ==> r.error == "'results'"
    ensures (f.Missing? || f.Undecodable?) ==> r == Ok([entry])
  {
    match PriorResults(f)
    case None => Err("'results'")
    case Some(prior) => Ok(prior + [entry])
  }

  /** add_to_report: loads the file, appends, writes the list back, then
      logs the entry's name and status (a KeyError when either is absent,
      raised after the file was written). */
  method AddToReport(fs: FileSystem, entry: Entry) returns (r: Result<()>)
    modifies fs`report
    ensures AppendResult(old(fs.report), entry).Err? ==>
              r == Err("'results'") && fs.report == old(fs.report)
    ensures AppendResult(old(fs.report), entry).Ok? ==>
              fs.report == Decoded(Some(AppendResult(old(fs.report), entry).value))
              && (r.Ok? <==> "test_name" in entry && "status" in entry)
  {
    var appended := AppendResult(fs.report, entry);
    if appended.Err? {
      return Err(appended.error);
    }
    fs.report := Decoded(Some(appended.value));
    if "test_name" !in entry {
      return Err("'test_name'");
    }
    if "status" !in entry {
      return Err("'status'");
    }
    return Ok(());
  }

  /** Two appends in a row leave the earlier entries, then both new ones in
      call order. */
  lemma AppendTwice(f: ReportFile, first: Entry, second: Entry)
    requires PriorResults(f).Some?
    ensures AppendResult(f, first).Ok?
    ensures AppendResult(Decoded(Some(AppendResult(f, first).value)), second)
            == Ok(PriorResults(f).value + [first, second])
  {
    var prior := PriorResults(f).value;
    assert prior + [first] + [second] == prior + [first, second];
  }

  // ---------------------------------------------------------------------------
  // The spreadsheet

  const Headers: seq<string> :=
    ["Test Name", "Description", "Status", "Error", "Screenshot", "Generated Code", "Timestamp"]

  /** The entry key shown in each column, in header order. */
  const Keys: seq<string> :=
    ["test_name", "description", "status", "error", "screenshot_link", "generated_code_link", "timestamp"]

  const SheetTitle := "Test Results"
  const MaxWidth := 50

  /** Worksheet cells by (row, column), both counted from 1. */
  type Sheet = map<(int, int), string>

  /** The text of cell (row, col) for a list of entries: the headers on row 1,
      entry k on row k + 2, and '' for a key the entry lacks. */
  function CellText(rows: seq<Entry>, row: int, col: int): string
    requires 1 <= row <= |rows| + 1 && 1 <= col <= |Keys|
  {
    if row == 1 then Headers[col - 1] else Get(rows[row - 2], Keys[col - 1], "")
  }

  /** The sheet holds exactly the header row and one row per entry, seven
      columns wide, with the text CellText gives. */
  ghost predicate LaidOut(cells: Sheet, rows: seq<Entry>) {
    (forall rc :: rc in cells <==> 1 <= rc.0 <= |rows| + 1 && 1 <= rc.1 <= |Keys|)
    && (forall row, col :: 1 <= row <= |rows| + 1 && 1 <= col <= |Keys| ==>
          cells[(row, col)] == CellText(rows, row, col))
  }

  /** The values of one key down the entries, in row order. */
  function Values(rows: seq<Entry>, key: string): (v: seq<string>)
    ensures |v| == |rows|
  {
    if rows == [] then [] else Values(rows[..|rows| - 1], key) + [Get(rows[|rows| - 1], key, "")]
  }

  lemma {:induction false} ValuesAt(rows: seq<Entry>, key: string, k: nat)
    requires k < |rows|
    ensures Values(rows, key)[k] == Get(rows[k], key, "")
    decreases |rows|
  {
    if k < |rows| - 1 {
      ValuesAt(rows[..|rows| - 1], key, k);
    }
  }

  /** Column j's texts, top to bottom: the header, then each entry's value. */
  function ColumnTexts(rows: seq<Entry>, j: nat): seq<string>
    requires j < |Keys|
  {
    [Headers[j]] + Values(rows, Keys[j])
  }

  /** The running maximum of the texts' lengths, 0 for none. */
  function Longest(texts: seq<string>): nat {
    if texts == [] then 0
    else
      var before := Longest(texts[..|texts| - 1]);
      var last := |texts[|texts| - 1]|;
      if last > before then last else before
  }

  /** A column's width: two more than its longest text, at most 50. */
  function Width(texts: seq<string>): int {
    if Longest(texts) + 2 < MaxWidth then Longest(texts) + 2 else MaxWidth
  }

  /** Longest is an upper bound on every length and, for a non-empty list,
      the length of one of the texts. */
  lemma {:induction false} LongestIsMaximum(texts: seq<string>)
    ensures forall i :: 0 <= i < |texts| ==> |texts[i]| <= Longest(texts)
    ensures texts != [] ==> exists i :: 0 <= i < |texts| && |texts[i]| == Longest(texts)
    decreases |texts|
  {
    if texts != [] {
      var init := texts[..|texts| - 1];
      LongestIsMaximum(init);
      assert forall i :: 0 <= i < |init| ==> init[i] == texts[i];
      if |texts[|texts| - 1]| <= Longest(init) && init != [] {
        var i :| 0 <= i < |init| && |init[i]| == Longest(init);
        assert |texts[i]| == Longest(texts);
      } else {
        assert |texts[|texts| - 1]| == Longest(texts);
      }
    }
  }

  /** The width never exceeds 50 nor falls below 2; below 50, every text
      fits with two to spare and one text fits exactly. */
  lemma WidthClamped(texts: seq<string>)
    requires texts != []
    ensures 2 <= Width(texts) <= MaxWidth
    ensures Width(texts) < MaxWidth ==>
              (forall i :: 0 <= i < |texts| ==> |texts[i]| + 2 <= Width(texts))
              && exists i :: 0 <= i < |texts| && |texts[i]| + 2 == Width(texts)
    ensures Width(texts) == MaxWidth <==> exists i :: 0 <= i < |texts| && |texts[i]| + 2 >= MaxWidth
  {
    LongestIsMaximum(texts);
  }

  /** The workbook generate_excel_report saves. */
  datatype Workbook = Workbook(title: string, cells: Sheet, widths: seq<int>, path: string)

  /** The entries a spreadsheet is made from: the list given, or else the
      file's "results" list ([] when absent). None when there is nothing to
      report or no file; a file that does not decode raises. */
  function RowsToReport(f: ReportFile, results: Option<seq<Entry>>): (r: Result<Option<seq<Entry>>>)
    ensures r.Ok? && r.value.Some? ==> r.value.value != []
    ensures results.Some? ==> r == Ok(if results.value == [] then None else results)
    ensures results.None? ==>
              (r.Err? <==> f.Undecodable?)
              && (f.Missing? ==> r == Ok(None))
              && (f == Decoded(None) ==> r == Ok(None))
              && (f.Decoded? && f.results.Some? ==> r == Ok(if f.results.value == [] then None else f.results))
  {
    var rows :=
      if results.Some? then Ok(results.value)
      else match f
        case Missing => Ok([])
        case Undecodable => Err("JSONDecodeError")
        case Decoded(rs) => Ok(if rs.Some? then rs.value else []);
    match rows
    case Err(e) => Err(e)
    case Ok(rs) => Ok(if rs == [] then None else Some(rs))
  }

  /** The header loop and the data loop of generate_excel_report. */
  method BuildSheet(rows: seq<Entry>) returns (cells: Sheet)
    ensures LaidOut(cells, rows)
  {
    cells := map[];
    var col := 1;
    while col <= |Keys|
      invariant 1 <= col <= |Keys| + 1
      invariant forall rc :: rc in cells <==> rc.0 == 1 && 1 <= rc.1 < col
      invariant forall c :: 1 <= c < col ==> cells[(1, c)] == Headers[c - 1]
    {
      cells := cells[(1, col) := Headers[col - 1]];
      col := col + 1;
    }
    var row := 2;
    while row <= |rows| + 1
      invariant 2 <= row <= |rows| + 2
      invariant forall rc :: rc in cells <==> 1 <= rc.0 < row && 1 <= rc.1 <= |Keys|
      invariant forall r, c :: 1 <= r < row && 1 <= c <= |Keys| ==> cells[(r, c)] == CellText(rows, r, c)
    {
      cells := FillRow(cells, rows, row);
      row := row + 1;
    }
  }

  /** One pass of the data loop: the seven cells of one entry's row. */
  method FillRow(cells: Sheet, rows: seq<Entry>, row: int) returns (filled: Sheet)
    requires 2 <= row <= |rows| + 1
    ensures forall rc :: rc in filled <==> rc in cells || (rc.0 == row && 1 <= rc.1 <= |Keys|)
    ensures forall rc :: rc in cells && rc.0 != row ==> filled[rc] == cells[rc]
    ensures forall c :: 1 <= c <= |Keys| ==> filled[(row, c)] == CellText(rows, row, c)
  {
    var result := rows[row - 2];
    filled := cells;
    var col := 1;
    while col <= |Keys|
      invariant 1 <= col <= |Keys| + 1
      invariant forall rc :: rc in filled <==> rc in cells || (rc.0 == row && 1 <= rc.1 < col)
      invariant forall rc :: rc in cells && rc.0 != row ==> filled[rc] == cells[rc]
      invariant forall c :: 1 <= c < col ==> filled[(row, c)] == CellText(rows, row, c)
    {
      filled := filled[(row, col) := Get(result, Keys[col - 1], "")];
      col := col + 1;
    }
  }

  /** The width loop for one column: the longest cell text down the column,
      plus two, at most 50. */
  method ColumnWidth(cells: Sheet, rows: seq<Entry>, col: int) returns (width: int)
    requires LaidOut(cells, rows) && 1 <= col <= |Keys|
    ensures width == Width(ColumnTexts(rows, col - 1))
  {
    ghost var texts := ColumnTexts(rows, col - 1);
    var maxLength := 0;
    var row := 1;
    while row <= |rows| + 1
      invariant 1 <= row <= |rows| + 2
      invariant maxLength == Longest(texts[..row - 1])
    {
      var text := cells[(row, col)];
      assert text == texts[row - 1] by {
        if row > 1 {
          ValuesAt(rows, Keys[col - 1], row - 2);
        }
      }
      assert texts[..row] == texts[..row - 1] + [text];
      if |text| > maxLength {
        maxLength := |text|;
      }
      row := row + 1;
    }
    assert texts[..|rows| + 1] == texts;
    width := if maxLength + 2 < MaxWidth then maxLength + 2 else MaxWidth;
  }

  /** generate_excel_report: picks the entries, lays out the sheet and sizes
      every column; the workbook is saved under a name stamped with `now`. */
  method GenerateExcelReport(fs: FileSystem, dir: string, results: Option<seq<Entry>>, now: string)
    returns (r: Result<Option<Workbook>>)
    ensures RowsToReport(fs.report, results).Err? ==> r.Err?
    ensures RowsToReport(fs.report, results) == Ok(None) ==> r == Ok(None)
    ensures RowsToReport(fs.report, results).Ok? && RowsToReport(fs.report, results).value.Some? ==>
              var rows := RowsToReport(fs.report, results).value.value;
              r.Ok? && r.value.Some?
              && r.value.value.title == SheetTitle
              && LaidOut(r.value.value.cells, rows)
              && |r.value.value.widths| == |Keys|
              && (forall j :: 0 <= j < |Keys| ==> r.value.value.widths[j] == Width(ColumnTexts(rows, j)))
              && r.value.value.path == PathJoin(dir, "test_results_" + now + ".xlsx")
  {
    var picked := RowsToReport(fs.report, results);
    if picked.Err? {
      return Err(picked.error);
    }
    if picked.value.None? {
      return Ok(None);
    }
    var rows := picked.value.value;
    var cells := BuildSheet(rows);
    var widths: seq<int> := [];
    var col := 1;
    while col <= |Keys|
      invariant 1 <= col <= |Keys| + 1 && |widths| == col - 1
      invariant forall j :: 0 <= j < col - 1 ==> widths[j] == Width(ColumnTexts(rows, j))
    {
      var w := ColumnWidth(cells, rows, col);
      widths := widths + [w];
      col := col + 1;
    }
    return Ok(Some(Workbook(SheetTitle, cells, widths, PathJoin(dir, "test_results_" + now + ".xlsx"))));
  }
}
