/**
 * utils.js of the boat-info collector: fetching a description for one boat
 * type, reading the boat types out of a worksheet column, writing the
 * descriptions back into a (possibly new) column, and laying out a fresh
 * "Boat Types" worksheet.
 */
module Utils {
  import opened Wrappers
  import opened JsString
  import opened Workbook

  /** A boat type read from (or destined for) a worksheet row. */
  datatype BoatRow = BoatRow(row: nat, boatType: string)

  /** A boat type with the description fetched for it. */
  datatype BoatInfo = BoatInfo(row: nat, boatType: string, info: string)

  /** The errors the workbook operations throw. */
  datatype Failure =
    | FileNotFound(path: string)
    | NotAWorkbook(path: string)
    | SheetNotFound(sheet: string)
    | ColumnNotFound(column: string)

  // ---------------------------------------------------------------------
  // fetchBoatInfo
  // ---------------------------------------------------------------------

  const Placeholder := "{BOAT_TYPE}"

  const TemplateHead := "Provide detailed information about the boat type: "

  const TemplateTail := ". Include details about its typical size, use cases, features, and history."

  /** The built-in prompt: the boat type goes where the placeholder is. */
  const DefaultTemplate := TemplateHead + Placeholder + TemplateTail

  /** `process.env.QUERY_TEMPLATE || default`: an unset or empty variable selects the default. */
  function Template(queryTemplate: Option<string>): (r: string)
    ensures r != ""
    ensures queryTemplate.Some? && queryTemplate.value != "" ==> r == queryTemplate.value
  {
    if queryTemplate.Some? && queryTemplate.value != "" then queryTemplate.value else DefaultTemplate
  }

  /** The prompt sent for a boat type: the template with its first placeholder replaced. */
  function Query(queryTemplate: Option<string>, boatType: string): string {
    ReplaceFirst(Template(queryTemplate), Placeholder, boatType)
  }

  /** The description recorded when the service call fails. */
  function Fallback(boatType: string): string {
    "Error: Could not fetch information for " + boatType
  }

  /**
   * `fetchBoatInfo`. The chat-completions service is the parameter
   * `service`: it answers a prompt with the first choice's text, or fails.
   * A failure is caught and turned into the fallback text; nothing is
   * thrown to the caller.
   */
  function FetchBoatInfo(queryTemplate: Option<string>, boatType: string,
                         service: string -> Option<string>): string
  {
    match service(Query(queryTemplate, boatType))
    case Some(text) => text
    case None => Fallback(boatType)
  }

  /**
   * The description is the service's answer to the prompt, or the fallback
   * text when the request fails; it depends on nothing but that one answer.
   */
  lemma FetchBoatInfoOutcome(queryTemplate: Option<string>, boatType: string,
                             service: string -> Option<string>, other: string -> Option<string>)
    ensures service(Query(queryTemplate, boatType)).Some? ==>
              FetchBoatInfo(queryTemplate, boatType, service) == service(Query(queryTemplate, boatType)).value
    ensures service(Query(queryTemplate, boatType)).None? ==>
              FetchBoatInfo(queryTemplate, boatType, service) == "Error: Could not fetch information for " + boatType
    ensures other(Query(queryTemplate, boatType)) == service(Query(queryTemplate, boatType)) ==>
              FetchBoatInfo(queryTemplate, boatType, other) == FetchBoatInfo(queryTemplate, boatType, service)
  {
  }

  /** When `pat` starts with a character absent from `a`, its first occurrence in `a + pat + b` is at `|a|`. */
  lemma FirstOccurrence(a: string, pat: string, b: string)
    requires pat != [] && pat[0] !in a
    ensures IndexOfFrom(a + pat + b, pat, 0) == Some(|a|)
  {
    var s := a + pat + b;
    assert s[|a|..|a| + |pat|] == pat;
    assert OccursAt(s, pat, |a|);
    forall j | 0 <= j < |a|
      ensures !OccursAt(s, pat, j)
    {
      assert s[j] == a[j];
    }
  }

  /** A `$`-free replacement is spliced in place of the first occurrence of the pattern. */
  lemma ReplaceFirstSplice(a: string, pat: string, b: string, rep: string)
    requires pat != [] && pat[0] !in a && '$' !in rep
    ensures ReplaceFirst(a + pat + b, pat, rep) == a + rep + b
  {
    var s := a + pat + b;
    FirstOccurrence(a, pat, b);
    ExpandLiteral(rep, pat, s[..|a|], s[|a| + |pat|..]);
    assert s[..|a|] == a;
    assert s[|a| + |pat|..] == b;
  }

  lemma HeadHasNoPlaceholder()
    ensures '{' !in TemplateHead
  {
    var a1, a2, a3, a4, a5, a6, a7, a8 :=
      "Provide", " detail", "ed info", "rmation", " about ", "the boa", "t type:", " ";
    assert '{' !in a1;
    assert '{' !in a2;
    assert '{' !in a3;
    assert '{' !in a4;
    assert '{' !in a5;
    assert '{' !in a6;
    assert '{' !in a7;
    assert '{' !in a8;
  }

  /** With the default template, a `$`-free boat type is spliced in verbatim. */
  lemma DefaultQuery(boatType: string)
    requires '$' !in boatType
    ensures Query(None, boatType) == TemplateHead + boatType + TemplateTail
  {
    HeadHasNoPlaceholder();
    assert Placeholder[0] == '{';
    ReplaceFirstSplice(TemplateHead, Placeholder, TemplateTail, boatType);
  }

  // ---------------------------------------------------------------------
  // Header lookup (readBoatTypes and updateExcelWithInfo)
  // ---------------------------------------------------------------------

  /** The last of header columns 1..n whose value is exactly the string `name`. */
  function LastMatch(g: Grid, name: string, n: nat): (r: Option<nat>)
    ensures r.Some? ==> 1 <= r.value <= n && g.Get(1, r.value) == Str(name)
  {
    if n == 0 then None
    else if g.Get(1, n) == Str(name) then Some(n)
    else LastMatch(g, name, n - 1)
  }

  /** The column whose header strictly equals `name`, the last one if several do. */
  function HeaderColumn(g: Grid, name: string): Option<nat> {
    LastMatch(g, name, g.columnCount)
  }

  lemma {:induction false} LastMatchSpec(g: Grid, name: string, n: nat)
    ensures LastMatch(g, name, n).Some? ==>
              forall c :: LastMatch(g, name, n).value < c <= n ==> g.Get(1, c) != Str(name)
    ensures LastMatch(g, name, n).None? <==> forall c :: 1 <= c <= n ==> g.Get(1, c) != Str(name)
  {
    if n > 0 && g.Get(1, n) != Str(name) {
      LastMatchSpec(g, name, n - 1);
    }
  }

  /**
   * The header lookup finds the largest column index whose header cell is
   * the string `name`; it finds nothing exactly when no header cell is, and
   * never answers 0.
   */
  lemma HeaderColumnSpec(g: Grid, name: string)
    requires g.Valid()
    ensures HeaderColumn(g, name).Some? ==>
              && 1 <= HeaderColumn(g, name).value <= g.columnCount
              && g.Get(1, HeaderColumn(g, name).value) == Str(name)
              && forall c: nat :: c > HeaderColumn(g, name).value ==> g.Get(1, c) != Str(name)
    ensures HeaderColumn(g, name).None? <==> forall c: nat :: g.Get(1, c) != Str(name)
  {
    LastMatchSpec(g, name, g.columnCount);
  }

  /** Two grids with the same header row agree on every header lookup. */
  lemma {:induction false} LastMatchSameHeader(g: Grid, h: Grid, name: string, n: nat)
    requires forall c: nat :: g.Get(1, c) == h.Get(1, c)
    ensures LastMatch(g, name, n) == LastMatch(h, name, n)
  {
    if n > 0 {
      LastMatchSameHeader(g, h, name, n - 1);
    }
  }

  /** The `eachCell` scan of row 1, keeping the last column whose value is `name`. */
  method FindHeader(ws: Worksheet, name: string) returns (col: Option<nat>)
    requires ws.Valid()
    ensures col == HeaderColumn(ws.Snapshot(), name)
    ensures col.Some? ==> 1 <= col.value <= ws.columnCount && ws.Get(1, col.value) == Str(name)
    ensures col.None? <==> forall c: nat :: ws.Get(1, c) != Str(name)
  {
    col := None;
    var c := 1;
    while c <= ws.columnCount
      invariant 1 <= c <= ws.columnCount + 1
      invariant col == LastMatch(ws.Snapshot(), name, c - 1)
    {
      if ws.Get(1, c) == Str(name) {
        col := Some(c);
      }
      c := c + 1;
    }
    HeaderColumnSpec(ws.Snapshot(), name);
  }

  // ---------------------------------------------------------------------
  // Row scan and readBoatTypes
  // ---------------------------------------------------------------------

  /** The entries rows 2..hi contribute: one per truthy cell in column `col`, trimmed. */
  function ScanRows(g: Grid, col: nat, hi: nat): seq<BoatRow> {
    if hi < 2 then []
    else
      var v := g.Get(hi, col);
      ScanRows(g, col, hi - 1) + (if Truthy(v) then [BoatRow(hi, Trim(ToString(v)))] else [])
  }

  /** The entries `eachRow` collects from column `col`. */
  function ScanColumn(g: Grid, col: nat): seq<BoatRow> {
    ScanRows(g, col, g.rowCount)
  }

  /** Entry `e` is what a truthy cell of column `col` yields. */
  predicate FromCell(g: Grid, col: nat, e: BoatRow) {
    Truthy(g.Get(e.row, col)) && e.boatType == Trim(ToString(g.Get(e.row, col)))
  }

  /** Some entry of `rows` is for row `r`. */
  predicate Listed(rows: seq<BoatRow>, r: nat) {
    exists i :: 0 <= i < |rows| && rows[i].row == r
  }

  lemma {:induction false} ScanRowsEntries(g: Grid, col: nat, hi: nat)
    ensures forall i :: 0 <= i < |ScanRows(g, col, hi)| ==>
              2 <= ScanRows(g, col, hi)[i].row <= hi && FromCell(g, col, ScanRows(g, col, hi)[i])
  {
    if hi >= 2 {
      ScanRowsEntries(g, col, hi - 1);
      var prev := ScanRows(g, col, hi - 1);
      var rows := ScanRows(g, col, hi);
      var v := g.Get(hi, col);
      if Truthy(v) {
        var e := BoatRow(hi, Trim(ToString(v)));
        assert rows == prev + [e];
        assert FromCell(g, col, e);
        forall i | 0 <= i < |rows|
          ensures 2 <= rows[i].row <= hi && FromCell(g, col, rows[i])
        {
          if i < |prev| {
            assert rows[i] == prev[i];
          } else {
            assert rows[i] == e;
          }
        }
      } else {
        assert rows == prev;
      }
    }
  }

  lemma {:induction false} ScanRowsSorted(g: Grid, col: nat, hi: nat)
    ensures forall i, j :: 0 <= i < j < |ScanRows(g, col, hi)| ==>
              ScanRows(g, col, hi)[i].row < ScanRows(g, col, hi)[j].row
  {
    if hi >= 2 {
      ScanRowsSorted(g, col, hi - 1);
      ScanRowsEntries(g, col, hi - 1);
      var prev := ScanRows(g, col, hi - 1);
      var rows := ScanRows(g, col, hi);
      var v := g.Get(hi, col);
      if Truthy(v) {
        var e := BoatRow(hi, Trim(ToString(v)));
        assert rows == prev + [e];
        forall i, j | 0 <= i < j < |rows|
          ensures rows[i].row < rows[j].row
        {
          assert rows[i] == prev[i];
          if j < |prev| {
            assert rows[j] == prev[j];
          } else {
            assert rows[j] == e;
          }
        }
      } else {
        assert rows == prev;
      }
    }
  }

  lemma {:induction false} ScanRowsListed(g: Grid, col: nat, hi: nat)
    ensures forall r: nat {:trigger Listed(ScanRows(g, col, hi), r)} ::
              Listed(ScanRows(g, col, hi), r) <==> 2 <= r <= hi && Truthy(g.Get(r, col))
  {
    if hi >= 2 {
      ScanRowsListed(g, col, hi - 1);
      var prev := ScanRows(g, col, hi - 1);
      var rows := ScanRows(g, col, hi);
      var v := g.Get(hi, col);
      if Truthy(v) {
        var e := BoatRow(hi, Trim(ToString(v)));
        assert rows == prev + [e];
        forall r: nat
          ensures Listed(rows, r) <==> 2 <= r <= hi && Truthy(g.Get(r, col))
        {
          if Listed(rows, r) {
            var i :| 0 <= i < |rows| && rows[i].row == r;
            if i < |prev| {
              assert prev[i].row == r;
              assert Listed(prev, r);
            }
          }
          if r == hi {
            assert rows[|prev|].row == r;
          } else if Listed(prev, r) {
            var i :| 0 <= i < |prev| && prev[i].row == r;
            assert rows[i].row == r;
          }
        }
      } else {
        assert rows == prev;
      }
    }
  }

  /**
   * The rows read from a column: one entry for each data row (never the
   * header row) whose cell is truthy, in strictly ascending row order,
   * carrying the trimmed text of the cell (empty for white space only).
   */
  lemma ScanColumnSpec(g: Grid, col: nat)
    requires g.Valid()
    ensures forall i :: 0 <= i < |ScanColumn(g, col)| ==>
              2 <= ScanColumn(g, col)[i].row && FromCell(g, col, ScanColumn(g, col)[i])
    ensures forall i, j :: 0 <= i < j < |ScanColumn(g, col)| ==>
              ScanColumn(g, col)[i].row < ScanColumn(g, col)[j].row
    ensures forall r: nat {:trigger Listed(ScanColumn(g, col), r)} ::
              Listed(ScanColumn(g, col), r) <==> r >= 2 && Truthy(g.Get(r, col))
  {
    ScanRowsEntries(g, col, g.rowCount);
    ScanRowsSorted(g, col, g.rowCount);
    ScanRowsListed(g, col, g.rowCount);
    forall r: nat
      ensures Listed(ScanColumn(g, col), r) <==> r >= 2 && Truthy(g.Get(r, col))
    {
      if Truthy(g.Get(r, col)) {
        TruthyInside(g, r, col);
      }
    }
  }

  /** A cell holding only white space is truthy, and yields an empty boat type. */
  lemma WhiteSpaceCellYieldsEmpty(g: Grid, col: nat, r: nat, s: string)
    requires g.Valid() && r >= 2 && g.Get(r, col) == Str(s) && s != ""
    requires forall k :: 0 <= k < |s| ==> IsSpace(s[k])
    ensures exists i :: 0 <= i < |ScanColumn(g, col)| && ScanColumn(g, col)[i] == BoatRow(r, "")
  {
    ScanColumnSpec(g, col);
    TrimEmptyIffAllSpace(s);
    assert Listed(ScanColumn(g, col), r);
    var i :| 0 <= i < |ScanColumn(g, col)| && ScanColumn(g, col)[i].row == r;
    assert ScanColumn(g, col)[i] == BoatRow(r, "");
  }

  /** The `eachRow` walk over the data rows of column `col`. */
  method CollectColumn(ws: Worksheet, col: nat) returns (rows: seq<BoatRow>)
    ensures rows == ScanColumn(ws.Snapshot(), col)
  {
    rows := [];
    var r := 2;
    while r <= ws.rowCount
      invariant 2 <= r && (r <= ws.rowCount + 1 || r == 2)
      invariant rows == ScanRows(ws.Snapshot(), col, r - 1)
    {
      var v := ws.Get(r, col);
      if Truthy(v) {
        rows := rows + [BoatRow(r, Trim(ToString(v)))];
      }
      r := r + 1;
    }
  }

  /** What `readBoatTypes(path, sheet, column)` returns or throws. */
  function ReadSpec(files: map<string, Stored>, path: string, sheet: string, column: string)
    : Result<seq<BoatRow>, Failure>
  {
    if path !in files then Err(FileNotFound(path))
    else match files[path]
      case Unreadable => Err(NotAWorkbook(path))
      case Book(sheets) =>
        match FindSheet(sheets, sheet)
        case None => Err(SheetNotFound(sheet))
        case Some(i) =>
          match HeaderColumn(sheets[i].grid, column)
          case None => Err(ColumnNotFound(column))
          case Some(c) => Ok(ScanColumn(sheets[i].grid, c))
  }

  /**
   * `readBoatTypes` fails with "Sheet ... not found" exactly when the
   * workbook has no worksheet of that name, and with "Column ... not found"
   * exactly when the worksheet exists but no header cell is the column name.
   */
  lemma ReadSpecFailures(files: map<string, Stored>, path: string, sheet: string, column: string)
    requires WellFormed(files)
    ensures ReadSpec(files, path, sheet, column) == Err(SheetNotFound(sheet)) <==>
              && path in files && files[path].Book?
              && forall j :: 0 <= j < |files[path].sheets| ==> files[path].sheets[j].name != sheet
    ensures ReadSpec(files, path, sheet, column) == Err(ColumnNotFound(column)) <==>
              && path in files && files[path].Book?
              && FindSheet(files[path].sheets, sheet).Some?
              && forall c: nat ::
                   files[path].sheets[FindSheet(files[path].sheets, sheet).value].grid.Get(1, c) != Str(column)
  {
    if path in files && files[path].Book? {
      var sheets := files[path].sheets;
      if FindSheet(sheets, sheet).Some? {
        HeaderColumnSpec(sheets[FindSheet(sheets, sheet).value].grid, column);
      }
    }
  }

  /** Every entry `readBoatTypes` returns is for a data row, never the header row. */
  lemma ReadRowsAreDataRows(files: map<string, Stored>, path: string, sheet: string, column: string)
    requires ReadSpec(files, path, sheet, column).Ok?
    ensures forall i :: 0 <= i < |ReadSpec(files, path, sheet, column).value| ==>
              ReadSpec(files, path, sheet, column).value[i].row >= 2
  {
    var sheets := files[path].sheets;
    var g := sheets[FindSheet(sheets, sheet).value].grid;
    ScanRowsEntries(g, HeaderColumn(g, column).value, g.rowCount);
  }

  /** `readBoatTypes`: open the workbook, find the worksheet and the column, collect the rows. */
  method ReadBoatTypes(disk: Disk, path: string, sheet: string, column: string)
    returns (r: Result<seq<BoatRow>, Failure>)
    requires WellFormed(disk.files)
    ensures r == ReadSpec(disk.files, path, sheet, column)
  {
    if path !in disk.files {
      return Err(FileNotFound(path));
    }
    var stored := disk.files[path];
    if stored.Unreadable? {
      return Err(NotAWorkbook(path));
    }
    var found := FindSheet(stored.sheets, sheet);
    if found.None? {
      return Err(SheetNotFound(sheet));
    }
    var ws := new Worksheet.Load(sheet, stored.sheets[found.value].grid);
    var col := FindHeader(ws, column);
    if col.None? {
      return Err(ColumnNotFound(column));
    }
    var rows := CollectColumn(ws, col.value);
    return Ok(rows);
  }

  // ---------------------------------------------------------------------
  // updateExcelWithInfo
  // ---------------------------------------------------------------------

  /** Every entry names a worksheet row (rows are numbered from 1). */
  predicate RowsValid(data: seq<BoatInfo>) {
    forall i :: 0 <= i < |data| ==> data[i].row >= 1
  }

  /** The column the descriptions go to: the matching header, or a new one after the last. */
  function InfoColumn(g: Grid, target: string): (col: nat)
    ensures col >= 1
  {
    match HeaderColumn(g, target)
    case Some(c) => c
    case None => g.columnCount + 1
  }

  /** The description the last entry for row `r` carries, if any entry is for row `r`. */
  function LastWrite(data: seq<BoatInfo>, r: nat): Option<string> {
    if data == [] then None
    else if data[|data| - 1].row == r then Some(data[|data| - 1].info)
    else LastWrite(data[..|data| - 1], r)
  }

  lemma {:induction false} LastWriteSpec(data: seq<BoatInfo>, r: nat)
    ensures LastWrite(data, r).None? <==> forall i :: 0 <= i < |data| ==> data[i].row != r
    ensures LastWrite(data, r).Some? ==>
              exists i :: && 0 <= i < |data| && data[i].row == r
                          && data[i].info == LastWrite(data, r).value
                          && forall j :: i < j < |data| ==> data[j].row != r
  {
    if data != [] {
      var prefix := data[..|data| - 1];
      LastWriteSpec(prefix, r);
      if data[|data| - 1].row != r {
        if LastWrite(data, r).Some? {
          var i :| && 0 <= i < |prefix| && prefix[i].row == r
                   && prefix[i].info == LastWrite(prefix, r).value
                   && forall j :: i < j < |prefix| ==> prefix[j].row != r;
          assert data[i] == prefix[i];
        }
      }
    }
  }

  /** The cell writes of the update loop, in order. */
  function WriteAll(g: Grid, col: nat, data: seq<BoatInfo>): (w: Grid)
    requires col >= 1 && RowsValid(data)
  {
    if data == [] then g
    else
      var last := data[|data| - 1];
      WriteAll(g, col, data[..|data| - 1]).Set(last.row, col, Str(last.info))
  }

  /** One more iteration of the update loop writes entry i over the result of the first i. */
  lemma WriteAllStep(g: Grid, col: nat, data: seq<BoatInfo>, i: nat)
    requires col >= 1 && RowsValid(data) && i < |data|
    ensures WriteAll(g, col, data[..i + 1]) == WriteAll(g, col, data[..i]).Set(data[i].row, col, Str(data[i].info))
  {
    assert data[..i + 1][..i] == data[..i];
  }

  /** The update loop writes only within the counts it grows. */
  lemma {:induction false} WriteAllValid(g: Grid, col: nat, data: seq<BoatInfo>)
    requires g.Valid() && col >= 1 && RowsValid(data)
    ensures WriteAll(g, col, data).Valid()
  {
    if data != [] {
      var last := data[|data| - 1];
      WriteAllValid(g, col, data[..|data| - 1]);
      SetValid(WriteAll(g, col, data[..|data| - 1]), last.row, col, Str(last.info));
    }
  }

  /** The positions the update loop writes. */
  function Written(data: seq<BoatInfo>, col: nat): set<(nat, nat)> {
    if data == [] then {} else Written(data[..|data| - 1], col) + {(data[|data| - 1].row, col)}
  }

  /** The largest row an entry names, 0 for no entry. */
  function MaxRow(data: seq<BoatInfo>): nat {
    if data == [] then 0
    else
      var m := MaxRow(data[..|data| - 1]);
      if data[|data| - 1].row > m then data[|data| - 1].row else m
  }

  /** After the loop, each written cell holds the last description for its row; nothing else changes. */
  lemma {:induction false} WriteAllCells(g: Grid, col: nat, data: seq<BoatInfo>)
    requires col >= 1 && RowsValid(data)
    ensures forall r: nat, c: nat :: WriteAll(g, col, data).Get(r, c) ==
              if c == col && LastWrite(data, r).Some? then Str(LastWrite(data, r).value) else g.Get(r, c)
  {
    if data != [] {
      var last := data[|data| - 1];
      WriteAllCells(g, col, data[..|data| - 1]);
      SetFrame(WriteAll(g, col, data[..|data| - 1]), last.row, col, Str(last.info));
    }
  }

  lemma {:induction false} WriteAllShape(g: Grid, col: nat, data: seq<BoatInfo>)
    requires col >= 1 && RowsValid(data)
    ensures WriteAll(g, col, data).cells.Keys == g.cells.Keys + Written(data, col)
    ensures WriteAll(g, col, data).rowCount == if MaxRow(data) > g.rowCount then MaxRow(data) else g.rowCount
    ensures WriteAll(g, col, data).columnCount ==
              if data != [] && col > g.columnCount then col else g.columnCount
  {
    if data != [] {
      WriteAllShape(g, col, data[..|data| - 1]);
    }
  }

  /** Running the update loop a second time with the same entries changes nothing. */
  lemma WriteAllTwice(g: Grid, col: nat, data: seq<BoatInfo>)
    requires col >= 1 && RowsValid(data)
    ensures WriteAll(WriteAll(g, col, data), col, data) == WriteAll(g, col, data)
  {
    var w := WriteAll(g, col, data);
    var w2 := WriteAll(w, col, data);
    WriteAllShape(g, col, data);
    WriteAllShape(w, col, data);
    WriteAllCells(g, col, data);
    WriteAllCells(w, col, data);
    assert w2.cells.Keys == w.cells.Keys;
    forall p | p in w.cells
      ensures w2.cells[p] == w.cells[p]
    {
      assert w2.Get(p.0, p.1) == w.Get(p.0, p.1);
    }
    assert w2.cells == w.cells;
  }

  /** The worksheet after `updateExcelWithInfo` has found or appended its column and written every entry. */
  function WithInfo(g: Grid, target: string, data: seq<BoatInfo>): (h: Grid)
    requires RowsValid(data)
  {
    var col := InfoColumn(g, target);
    var g1 := if HeaderColumn(g, target).None? then g.Set(1, col, Str(target)) else g;
    WriteAll(g1, col, data)
  }

  lemma WithInfoValid(g: Grid, target: string, data: seq<BoatInfo>)
    requires g.Valid() && RowsValid(data)
    ensures WithInfo(g, target, data).Valid()
  {
    var col := InfoColumn(g, target);
    if HeaderColumn(g, target).None? {
      SetValid(g, 1, col, Str(target));
      WriteAllValid(g.Set(1, col, Str(target)), col, data);
    } else {
      WriteAllValid(g, col, data);
    }
  }

  /**
   * Every cell after the update: the target column holds, in each row an
   * entry names, the description of the last such entry; an appended
   * column's header is the target name unless an entry for row 1 overwrote
   * it; every other cell is unchanged.
   */
  lemma WithInfoCells(g: Grid, target: string, data: seq<BoatInfo>)
    requires g.Valid() && RowsValid(data)
    ensures forall r: nat, c: nat :: WithInfo(g, target, data).Get(r, c) ==
              if c == InfoColumn(g, target) && LastWrite(data, r).Some? then Str(LastWrite(data, r).value)
              else if c == InfoColumn(g, target) && r == 1 && HeaderColumn(g, target).None? then Str(target)
              else g.Get(r, c)
  {
    var col := InfoColumn(g, target);
    var g1 := if HeaderColumn(g, target).None? then g.Set(1, col, Str(target)) else g;
    WriteAllCells(g1, col, data);
  }

  /**
   * When no header matches, the column goes to `columnCount + 1`, its
   * header cell becomes the target name (no entry being for row 1), every
   * pre-existing column is left as it was, and a later lookup finds the new
   * column.
   */
  lemma AppendedColumn(g: Grid, target: string, data: seq<BoatInfo>)
    requires g.Valid() && RowsValid(data) && HeaderColumn(g, target).None?
    requires forall i :: 0 <= i < |data| ==> data[i].row != 1
    ensures InfoColumn(g, target) == g.columnCount + 1
    ensures WithInfo(g, target, data).Get(1, g.columnCount + 1) == Str(target)
    ensures forall r: nat, c: nat :: c <= g.columnCount ==> WithInfo(g, target, data).Get(r, c) == g.Get(r, c)
    ensures HeaderColumn(WithInfo(g, target, data), target) == Some(g.columnCount + 1)
  {
    var h := WithInfo(g, target, data);
    var col := g.columnCount + 1;
    var g1 := g.Set(1, col, Str(target));
    assert h == WriteAll(g1, col, data);
    LastWriteSpec(data, 1);
    assert LastWrite(data, 1).None?;
    WriteAllCells(g1, col, data);
    SetFrame(g, 1, col, Str(target));
    assert h.Get(1, col) == Str(target);
    WriteAllShape(g1, col, data);
    assert h.columnCount == col;
    assert LastMatch(h, target, col) == Some(col);
    forall r: nat, c: nat | c <= g.columnCount
      ensures h.Get(r, c) == g.Get(r, c)
    {
      assert h.Get(r, c) == g1.Get(r, c);
    }
  }

  /** After the update the target column is found again, at the column that was written. */
  lemma FoundAfterUpdate(g: Grid, target: string, data: seq<BoatInfo>)
    requires g.Valid() && RowsValid(data)
    requires forall i :: 0 <= i < |data| ==> data[i].row != 1
    ensures HeaderColumn(WithInfo(g, target, data), target) == Some(InfoColumn(g, target))
  {
    var col := InfoColumn(g, target);
    var h := WithInfo(g, target, data);
    if HeaderColumn(g, target).None? {
      AppendedColumn(g, target, data);
    } else {
      HeaderColumnSpec(g, target);
      WithInfoCells(g, target, data);
      LastWriteSpec(data, 1);
      WriteAllShape(g, col, data);
      assert h.columnCount == g.columnCount;
      forall c: nat
        ensures g.Get(1, c) == h.Get(1, c)
      {
      }
      LastMatchSameHeader(g, h, target, g.columnCount);
    }
  }

  /**
   * Updating twice with the same entries gives the same worksheet as
   * updating once, provided no entry is for the header row: the second run
   * finds the column the first one found or appended.
   */
  lemma WithInfoIdempotent(g: Grid, target: string, data: seq<BoatInfo>)
    requires g.Valid() && RowsValid(data)
    requires forall i :: 0 <= i < |data| ==> data[i].row != 1
    ensures WithInfo(WithInfo(g, target, data), target, data) == WithInfo(g, target, data)
  {
    var col := InfoColumn(g, target);
    var g1 := if HeaderColumn(g, target).None? then g.Set(1, col, Str(target)) else g;
    FoundAfterUpdate(g, target, data);
    WriteAllTwice(g1, col, data);
  }

  /** The find-or-append and the write loop of `updateExcelWithInfo`, on the worksheet in memory. */
  method WriteInfo(ws: Worksheet, target: string, data: seq<BoatInfo>)
    requires ws.Valid() && RowsValid(data)
    modifies ws
    ensures ws.Valid()
    ensures ws.Snapshot() == WithInfo(old(ws.Snapshot()), target, data)
  {
    var found := FindHeader(ws, target);
    var col: nat;
    if found.None? {
      col := ws.columnCount + 1;
      ws.SetValue(1, col, Str(target));
    } else {
      col := found.value;
    }
    ghost var g1 := ws.Snapshot();
    for i := 0 to |data|
      invariant ws.Valid()
      invariant ws.Snapshot() == WriteAll(g1, col, data[..i])
    {
      WriteAllStep(g1, col, data, i);
      ws.SetValue(data[i].row, col, Str(data[i].info));
    }
    assert data[..|data|] == data;
  }

  /** The files after `updateExcelWithInfo(path, sheet, target, data)`, or what it throws. */
  function UpdateSpec(files: map<string, Stored>, path: string, sheet: string, target: string,
                      data: seq<BoatInfo>): Result<map<string, Stored>, Failure>
    requires RowsValid(data)
  {
    if path !in files then Err(FileNotFound(path))
    else match files[path]
      case Unreadable => Err(NotAWorkbook(path))
      case Book(sheets) =>
        match FindSheet(sheets, sheet)
        case None => Err(SheetNotFound(sheet))
        case Some(i) =>
          var ws := Sheet(sheets[i].name, WithInfo(sheets[i].grid, target, data));
          Ok(files[path := Book(sheets[i := ws])])
  }

  /** Only the updated file changes, and it keeps its worksheets, their names and order. */
  lemma UpdateSpecFrame(files: map<string, Stored>, path: string, sheet: string, target: string,
                        data: seq<BoatInfo>)
    requires WellFormed(files) && RowsValid(data)
    ensures UpdateSpec(files, path, sheet, target, data).Ok? ==>
              var files' := UpdateSpec(files, path, sheet, target, data).value;
              && WellFormed(files')
              && files'.Keys == files.Keys
              && (forall p :: p in files && p != path ==> files'[p] == files[p])
              && files'[path].Book? && files[path].Book?
              && |files'[path].sheets| == |files[path].sheets|
              && forall j :: 0 <= j < |files[path].sheets| ==>
                   && files'[path].sheets[j].name == files[path].sheets[j].name
                   && (files[path].sheets[j].name != sheet ==> files'[path].sheets[j] == files[path].sheets[j])
  {
    if path in files && files[path].Book? && FindSheet(files[path].sheets, sheet).Some? {
      var i := FindSheet(files[path].sheets, sheet).value;
      WithInfoValid(files[path].sheets[i].grid, target, data);
    }
  }

  /**
   * Once `readBoatTypes` has read a worksheet, `updateExcelWithInfo` on the
   * same file and worksheet cannot fail: the worksheet is there and the
   * target column is found or appended.
   */
  lemma UpdateAfterRead(files: map<string, Stored>, path: string, sheet: string, column: string,
                        target: string, data: seq<BoatInfo>)
    requires RowsValid(data) && ReadSpec(files, path, sheet, column).Ok?
    ensures UpdateSpec(files, path, sheet, target, data).Ok?
  {
  }

  /** `updateExcelWithInfo`: open the workbook, update the worksheet in memory, write the file back. */
  method UpdateExcelWithInfo(disk: Disk, path: string, sheet: string, target: string,
                             data: seq<BoatInfo>) returns (r: Result<(), Failure>)
    requires WellFormed(disk.files) && RowsValid(data)
    modifies disk
    ensures WellFormed(disk.files)
    ensures UpdateSpec(old(disk.files), path, sheet, target, data).Ok? ==>
              r == Ok(()) && disk.files == UpdateSpec(old(disk.files), path, sheet, target, data).value
    ensures UpdateSpec(old(disk.files), path, sheet, target, data).Err? ==>
              r == Err(UpdateSpec(old(disk.files), path, sheet, target, data).error)
              && disk.files == old(disk.files)
  {
    if path !in disk.files {
      return Err(FileNotFound(path));
    }
    var stored := disk.files[path];
    if stored.Unreadable? {
      return Err(NotAWorkbook(path));
    }
    var found := FindSheet(stored.sheets, sheet);
    if found.None? {
      return Err(SheetNotFound(sheet));
    }
    var i := found.value;
    var ws := new Worksheet.Load(stored.sheets[i].name, stored.sheets[i].grid);
    WriteInfo(ws, target, data);
    disk.files := disk.files[path := Book(stored.sheets[i := Sheet(ws.name, ws.Snapshot())])];
    UpdateSpecFrame(old(disk.files), path, sheet, target, data);
    return Ok(());
  }

  // ---------------------------------------------------------------------
  // createExcelWithBoatTypes
  // ---------------------------------------------------------------------

  const SheetName := "Boat Types"

  /** The worksheet `createExcelWithBoatTypes` lays out: the header row, then one row per boat type. */
  function Layout(types: seq<string>): (g: Grid)
    ensures g.rowCount == |types| + 1 && g.columnCount == 2
  {
    if types == [] then Grid(map[], 0, 0).Set(1, 1, Str("Boat Type")).Set(1, 2, Str("Information"))
    else
      var n := |types|;
      Layout(types[..n - 1]).Set(n + 1, 1, Str(types[n - 1])).Set(n + 1, 2, Str(""))
  }

  /** The fresh layout keeps every cell within its two columns and n + 1 rows. */
  lemma {:induction false} LayoutValid(types: seq<string>)
    ensures Layout(types).Valid()
  {
    if types == [] {
      SetValid(Grid(map[], 0, 0), 1, 1, Str("Boat Type"));
      SetValid(Grid(map[], 0, 0).Set(1, 1, Str("Boat Type")), 1, 2, Str("Information"));
    } else {
      var n := |types|;
      var g0 := Layout(types[..n - 1]);
      LayoutValid(types[..n - 1]);
      SetValid(g0, n + 1, 1, Str(types[n - 1]));
      SetValid(g0.Set(n + 1, 1, Str(types[n - 1])), n + 1, 2, Str(""));
    }
  }

  /** The cell at (r, c) of the fresh layout, stated position by position. */
  function LayoutCell(types: seq<string>, r: nat, c: nat): Cell {
    if r == 1 && c == 1 then Str("Boat Type")
    else if r == 1 && c == 2 then Str("Information")
    else if 2 <= r <= |types| + 1 && c == 1 then Str(types[r - 2])
    else if 2 <= r <= |types| + 1 && c == 2 then Str("")
    else Empty
  }

  /** Outside the last row, the layout of all types agrees with that of all but the last. */
  lemma LayoutCellPrefix(types: seq<string>, r: nat, c: nat)
    requires types != [] && (r != |types| + 1 || (c != 1 && c != 2))
    ensures LayoutCell(types, r, c) == LayoutCell(types[..|types| - 1], r, c)
  {
    if 2 <= r <= |types| {
      assert types[..|types| - 1][r - 2] == types[r - 2];
    }
  }

  /**
   * The fresh worksheet has header `Boat Type`, `Information` in row 1,
   * boat type i and an empty description in row i + 2, and nothing else:
   * n + 1 rows, two columns.
   */
  lemma {:induction false} LayoutCells(types: seq<string>)
    ensures forall r: nat, c: nat :: Layout(types).Get(r, c) == LayoutCell(types, r, c)
  {
    if types != [] {
      var n := |types|;
      var prefix := types[..n - 1];
      LayoutCells(prefix);
      var g0 := Layout(prefix);
      var g1 := g0.Set(n + 1, 1, Str(types[n - 1]));
      SetFrame(g0, n + 1, 1, Str(types[n - 1]));
      SetFrame(g1, n + 1, 2, Str(""));
      forall r: nat, c: nat
        ensures Layout(types).Get(r, c) == LayoutCell(types, r, c)
      {
        if r != n + 1 || (c != 1 && c != 2) {
          assert Layout(types).Get(r, c) == g1.Get(r, c) == g0.Get(r, c);
          LayoutCellPrefix(types, r, c);
        }
      }
    }
  }

  /** Appending boat type i to the layout of the first i types fills row i + 2. */
  lemma LayoutStep(types: seq<string>, i: nat)
    requires i < |types|
    ensures Layout(types[..i + 1]) == Layout(types[..i]).Set(i + 2, 1, Str(types[i])).Set(i + 2, 2, Str(""))
  {
    assert types[..i + 1][..i] == types[..i];
  }

  /** The in-memory part of `createExcelWithBoatTypes`: the header row, then one row appended per boat type. */
  method NewBoatTypesSheet(types: seq<string>) returns (ws: Worksheet)
    ensures fresh(ws) && ws.Valid() && ws.name == SheetName
    ensures ws.Snapshot() == Layout(types)
  {
    ws := new Worksheet.Blank(SheetName);
    ws.SetValue(1, 1, Str("Boat Type"));
    ws.SetValue(1, 2, Str("Information"));
    assert types[..0] == [];
    for i := 0 to |types|
      invariant ws.Valid() && ws.Snapshot() == Layout(types[..i])
    {
      LayoutStep(types, i);
      var r := ws.rowCount + 1;
      ws.SetValue(r, 1, Str(types[i]));
      ws.SetValue(r, 2, Str(""));
    }
    assert types[..|types|] == types;
  }

  /** `createExcelWithBoatTypes`: a new workbook holding only the "Boat Types" worksheet, written to `path`. */
  method CreateExcelWithBoatTypes(disk: Disk, path: string, types: seq<string>)
    modifies disk
    ensures disk.files == old(disk.files)[path := Book([Sheet(SheetName, Layout(types))])]
    ensures WellFormed(old(disk.files)) ==> WellFormed(disk.files)
  {
    LayoutValid(types);
    var ws := NewBoatTypesSheet(types);
    disk.files := disk.files[path := Book([Sheet(ws.name, ws.Snapshot())])];
  }
}
