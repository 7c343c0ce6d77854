/**
 * The part of the ExcelJS workbook library the collector uses, abstracted as
 * a grid of cell values addressed by 1-based (row, column) positions. Row 1
 * is the header row.
 */
module Workbook {
  import opened Wrappers

  /**
   * A cell value: empty (null), a string, a number, a boolean, or any
   * object value the library produces (rich text, a date, a formula, a
   * hyperlink), of which only the text `toString()` gives is kept.
   */
  datatype Cell = Empty | Str(s: string) | Num(n: int) | Bool(b: bool) | Other(text: string)

  /** JavaScript truthiness of a cell value. */
  predicate Truthy(c: Cell) {
    match c
    case Empty => false
    case Str(s) => s != ""
    case Num(n) => n != 0
    case Bool(b) => b
    case Other(_) => true
  }

  function Digit(d: nat): char
    requires d < 10
  {
    "0123456789"[d]
  }

  /** Decimal digits of a natural number, as `Number.prototype.toString` writes them. */
  function NatToString(n: nat): (r: string)
    ensures |r| >= 1 && forall k :: 0 <= k < |r| ==> '0' <= r[k] <= '9'
  {
    if n < 10 then [Digit(n)] else NatToString(n / 10) + [Digit(n % 10)]
  }

  /** `value.toString()` of a non-null cell value. */
  function ToString(c: Cell): string
    requires !c.Empty?
  {
    match c
    case Str(s) => s
    case Num(n) => if n < 0 then "-" + NatToString(-n) else NatToString(n)
    case Bool(b) => if b then "true" else "false"
    case Other(t) => t
  }

  /**
   * A worksheet's contents. `rowCount` and `columnCount` stand for the
   * library's counts: they bound every position that holds a cell.
   */
  datatype Grid = Grid(cells: map<(nat, nat), Cell>, rowCount: nat, columnCount: nat) {

    ghost predicate Valid() {
      forall p | p in cells :: 1 <= p.0 <= rowCount && 1 <= p.1 <= columnCount
    }

    /** `getCell(r, c).value`; a position never written reads as empty. */
    function Get(r: nat, c: nat): Cell {
      if (r, c) in cells then cells[(r, c)] else Empty
    }

    /** `getCell(r, c).value = v`: one cell changes and the counts grow to cover it. */
    function Set(r: nat, c: nat, v: Cell): (g: Grid)
      requires r >= 1 && c >= 1
      ensures g.cells.Keys == cells.Keys + {(r, c)}
      ensures g.rowCount == if r > rowCount then r else rowCount
      ensures g.columnCount == if c > columnCount then c else columnCount
    {
      Grid(cells[(r, c) := v], if r > rowCount then r else rowCount,
           if c > columnCount then c else columnCount)
    }
  }

  /** Setting a cell changes that cell and no other. */
  lemma SetFrame(g: Grid, r: nat, c: nat, v: Cell)
    requires r >= 1 && c >= 1
    ensures g.Set(r, c, v).Get(r, c) == v
    ensures forall r': nat, c': nat :: (r', c') != (r, c) ==> g.Set(r, c, v).Get(r', c') == g.Get(r', c')
  {
  }

  /** Setting a cell keeps every position within the counts. */
  lemma SetValid(g: Grid, r: nat, c: nat, v: Cell)
    requires g.Valid() && r >= 1 && c >= 1
    ensures g.Set(r, c, v).Valid()
  {
  }

  /** A truthy cell of a valid grid lies within its counted rows and columns. */
  lemma TruthyInside(g: Grid, r: nat, c: nat)
    requires g.Valid() && Truthy(g.Get(r, c))
    ensures 1 <= r <= g.rowCount && 1 <= c <= g.columnCount
  {
  }

  /** A named worksheet as stored in a workbook file. */
  datatype Sheet = Sheet(name: string, grid: Grid)

  /** The contents of a file: a workbook the library can read, or anything else. */
  datatype Stored = Book(sheets: seq<Sheet>) | Unreadable

  /** Every worksheet stored on disk is a valid grid. */
  ghost predicate WellFormed(files: map<string, Stored>) {
    forall path | path in files && files[path].Book? ::
      forall i | 0 <= i < |files[path].sheets| :: files[path].sheets[i].grid.Valid()
  }

  /** `workbook.getWorksheet(name)`: the first worksheet with that name. */
  function FindSheet(sheets: seq<Sheet>, name: string): (r: Option<nat>)
    ensures r.Some? ==>
              && r.value < |sheets| && sheets[r.value].name == name
              && forall j :: 0 <= j < r.value ==> sheets[j].name != name
    ensures r.None? ==> forall j :: 0 <= j < |sheets| ==> sheets[j].name != name
  {
    if sheets == [] then None
    else if sheets[0].name == name then Some(0)
    else match FindSheet(sheets[1..], name)
      case None => None
      case Some(i) => Some(i + 1)
  }

  /** A worksheet object held in memory while the program edits it. */
  class Worksheet {
    const name: string
    var cells: map<(nat, nat), Cell>
    var rowCount: nat
    var columnCount: nat

    /** The worksheet's current contents as a value. */
    function Snapshot(): Grid
      reads this
    {
      Grid(cells, rowCount, columnCount)
    }

    ghost predicate Valid()
      reads this
    {
      Snapshot().Valid()
    }

    /** A worksheet read from a file. */
    constructor Load(name: string, g: Grid)
      requires g.Valid()
      ensures Valid() && this.name == name && Snapshot() == g
    {
      this.name := name;
      cells, rowCount, columnCount := g.cells, g.rowCount, g.columnCount;
    }

    /** `workbook.addWorksheet(name)`: a worksheet with no cells. */
    constructor Blank(name: string)
      ensures Valid() && this.name == name && Snapshot() == Grid(map[], 0, 0)
    {
      this.name := name;
      cells, rowCount, columnCount := map[], 0, 0;
    }

    function Get(r: nat, c: nat): Cell
      reads this
    {
      Snapshot().Get(r, c)
    }

    /** `getCell(r, c).value = v`. */
    method SetValue(r: nat, c: nat, v: Cell)
      requires Valid() && r >= 1 && c >= 1
      modifies this
      ensures Valid()
      ensures Snapshot() == old(Snapshot()).Set(r, c, v)
    {
      SetValid(Snapshot(), r, c, v);
      cells := cells[(r, c) := v];
      if r > rowCount {
        rowCount := r;
      }
      if c > columnCount {
        columnCount := c;
      }
    }
  }

  /** The files the program reads and writes, by path. */
  class Disk {
    var files: map<string, Stored>
  }
}
