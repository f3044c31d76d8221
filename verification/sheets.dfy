/** A worksheet as the loaders see it after `pd.read_excel(..., header=None)`
    or `ExcelFile.parse(..., header=None)`: a grid of cells with no header row,
    where a row shorter than the widest row is padded with empty cells. */
module Sheets {
  import opened Wrappers

  /** One cell: empty (NaN), text, or a number together with the spelling
      Python's `str()` gives it. Numbers are kept abstract as `int`; the
      loaders only move them around and never compute with them. */
  datatype Cell = Blank | TextCell(text: string) | NumberCell(value: int, shown: string)

  /** The rows of one sheet; `Width` columns, as pandas pads them. */
  datatype Frame = Frame(rows: seq<seq<Cell>>)

  /** One named sheet; `frame` is `None` when the sheet cannot be parsed. */
  datatype Sheet = Sheet(name: string, frame: Option<Frame>)

  /** The sheets of one workbook, in workbook order. */
  type Workbook = seq<Sheet>

  /** `len(df)`. */
  function Height(f: Frame): nat {
    |f.rows|
  }

  /** `df.shape[1]`: the length of the longest row. */
  function Width(f: Frame): (w: nat)
    ensures forall i :: 0 <= i < |f.rows| ==> |f.rows[i]| <= w
    ensures f.rows == [] ==> w == 0
    ensures f.rows != [] ==> exists i :: 0 <= i < |f.rows| && |f.rows[i]| == w
  {
    RowsWidth(f.rows)
  }

  function RowsWidth(rows: seq<seq<Cell>>): (w: nat)
    ensures forall i :: 0 <= i < |rows| ==> |rows[i]| <= w
    ensures rows == [] ==> w == 0
    ensures rows != [] ==> exists i :: 0 <= i < |rows| && |rows[i]| == w
    decreases |rows|
  {
    if rows == [] then 0
    else
      var rest := RowsWidth(rows[1..]);
      assert forall i :: 1 <= i < |rows| ==> rows[i] == rows[1..][i - 1];
      if |rows[0]| >= rest then |rows[0]| else rest
  }

  /** The cell of a row at column `c`, an empty cell past the row's end (the
      padding pandas adds). */
  function CellOf(row: seq<Cell>, c: nat): Cell {
    if c < |row| then row[c] else Blank
  }

  /** `df.iloc[r, c]`, defined where pandas does not raise `IndexError`. */
  function At(f: Frame, r: nat, c: nat): Cell
    requires r < Height(f) && c < Width(f)
  {
    CellOf(f.rows[r], c)
  }

  /** `str(cell)`: an empty cell reads as "nan". */
  function Str(c: Cell): string {
    match c
    case Blank => "nan"
    case TextCell(t) => t
    case NumberCell(_, shown) => shown
  }

  /** `pd.to_numeric(cell, errors="coerce")` with NaN as `None`; `parseNum`
      stands for the coercion of text. */
  function Numeric(c: Cell, parseNum: string -> Option<int>): Option<int> {
    match c
    case Blank => None
    case TextCell(t) => parseNum(t)
    case NumberCell(v, _) => Some(v)
  }

  /** Python truthiness of a cell value after NaN became `None`: empty text and
      the number zero are false, like `None`. */
  predicate Truthy(c: Cell) {
    match c
    case Blank => false
    case TextCell(t) => t != ""
    case NumberCell(v, _) => v != 0
  }

  /** `str(value or "")`. */
  function OrEmpty(c: Cell): (s: string)
    ensures !Truthy(c) ==> s == ""
    ensures Truthy(c) ==> s == Str(c)
  {
    if Truthy(c) then Str(c) else ""
  }

  /** The first sheet called `name` (`name in xl.sheet_names`, then parsing it). */
  function SheetNamed(wb: Workbook, name: string): (r: Option<Sheet>)
    ensures r.Some? ==> r.value in wb && r.value.name == name
    ensures r.None? <==> forall i :: 0 <= i < |wb| ==> wb[i].name != name
    decreases |wb|
  {
    if wb == [] then None
    else if wb[0].name == name then Some(wb[0])
    else
      var r := SheetNamed(wb[1..], name);
      assert forall i :: 1 <= i < |wb| ==> wb[i] == wb[1..][i - 1];
      r
  }
}
