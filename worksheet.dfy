/**
 * The output worksheet (file 2 opened as a cell-addressable sheet): a
 * rectangular grid of cells, each with a value and a fill, addressed by
 * 1-based row and column as openpyxl addresses them. `max_row` is the number
 * of rows and `max_column` the common row width; writing a value past the
 * last column widens every row, as it raises openpyxl's `max_column`.
 */
module Sheet {
  import opened Wrappers

  /** The solid fill colours the routines use, and any other colour a cell already had. */
  datatype Color = Yellow | Orange | Red | Custom(rgb: string)

  /** The RGB code of each `PatternFill` the routines create. */
  function Rgb(c: Color): string {
    match c
    case Yellow => "FFFF00"
    case Orange => "FFA500"
    case Red => "FF0000"
    case Custom(rgb) => rgb
  }

  datatype Fill = Unfilled | Solid(color: Color)

  /** A cell: its value (None when blank) and its fill. */
  datatype Cell = Cell(value: Option<string>, fill: Fill)

  const EmptyCell: Cell := Cell(None, Unfilled)

  type Grid = seq<seq<Cell>>

  /** At least one row and one column, and every row as wide as the first. */
  predicate Rectangular(g: Grid) {
    |g| >= 1 && |g[0]| >= 1 && forall r :: 0 <= r < |g| ==> |g[r]| == |g[0]|
  }

  /** `max_column`. */
  function Width(g: Grid): nat
    requires Rectangular(g)
  {
    |g[0]|
  }

  /** Column `col` (1-based) of a row; a cell past the end reads as blank. */
  function RowCell(row: seq<Cell>, col: int): Cell {
    if 1 <= col <= |row| then row[col - 1] else EmptyCell
  }

  /** The cell at 1-based `row`, `col`; cells outside the used range read as blank. */
  function CellAt(g: Grid, row: int, col: int): Cell {
    if 1 <= row <= |g| then RowCell(g[row - 1], col) else EmptyCell
  }

  /** A row extended with blank cells to at least `w` columns. */
  function PadRow(row: seq<Cell>, w: nat): (r: seq<Cell>)
    ensures |r| == if |row| >= w then |row| else w
    ensures forall col :: RowCell(r, col) == RowCell(row, col)
  {
    if |row| >= w then row else row + seq(w - |row|, _ => EmptyCell)
  }

  /** The grid with every row extended to at least `w` columns. */
  function Widen(g: Grid, w: nat): (r: Grid)
    requires Rectangular(g)
    ensures Rectangular(r) && |r| == |g|
    ensures Width(r) == if Width(g) >= w then Width(g) else w
    ensures forall row, col :: CellAt(r, row, col) == CellAt(g, row, col)
    ensures w <= Width(g) ==> r == g
  {
    var r := seq(|g|, i requires 0 <= i < |g| => PadRow(g[i], w));
    assert forall row, col :: CellAt(r, row, col) == CellAt(g, row, col) by {
      forall row, col ensures CellAt(r, row, col) == CellAt(g, row, col) {
        if 1 <= row <= |g| {
          assert r[row - 1] == PadRow(g[row - 1], w);
        }
      }
    }
    r
  }

  /** `ws.cell(row, col).value = v`. */
  function WithValue(g: Grid, row: nat, col: nat, v: Option<string>): (r: Grid)
    requires Rectangular(g) && 1 <= row <= |g| && 1 <= col
    ensures Rectangular(r) && |r| == |g|
    ensures Width(r) == if Width(g) >= col then Width(g) else col
    ensures forall i, j :: CellAt(r, i, j) == if i == row && j == col then CellAt(g, i, j).(value := v) else CellAt(g, i, j)
    ensures col <= Width(g) ==> r == g[row - 1 := g[row - 1][col - 1 := g[row - 1][col - 1].(value := v)]]
  {
    var h := Widen(g, col);
    assert CellAt(h, row, col) == CellAt(g, row, col);
    h[row - 1 := h[row - 1][col - 1 := h[row - 1][col - 1].(value := v)]]
  }

  /** `ws.cell(row, col).fill = f` for a cell inside the used range. */
  function WithFill(g: Grid, row: nat, col: nat, f: Fill): (r: Grid)
    requires Rectangular(g) && 1 <= row <= |g| && 1 <= col <= Width(g)
    ensures Rectangular(r) && |r| == |g| && Width(r) == Width(g)
    ensures forall i, j :: CellAt(r, i, j) == if i == row && j == col then CellAt(g, i, j).(fill := f) else CellAt(g, i, j)
  {
    g[row - 1 := g[row - 1][col - 1 := g[row - 1][col - 1].(fill := f)]]
  }

  /** The active worksheet of the output workbook. */
  class Worksheet {
    var grid: Grid

    ghost predicate Valid()
      reads this
    {
      Rectangular(grid)
    }

    constructor (g: Grid)
      requires Rectangular(g)
      ensures Valid() && grid == g
    {
      grid := g;
    }

    /** `ws.max_row`. */
    function MaxRow(): nat
      reads this
      requires Valid()
    {
      |grid|
    }

    /** `ws.max_column`. */
    function MaxColumn(): nat
      reads this
      requires Valid()
    {
      Width(grid)
    }

    /** Writes a cell value; a column past `max_column` widens the sheet. */
    method SetValue(row: nat, col: nat, v: Option<string>)
      requires Valid() && 1 <= row <= MaxRow() && 1 <= col
      modifies this
      ensures Valid()
      ensures grid == WithValue(old(grid), row, col, v)
    {
      grid := WithValue(grid, row, col, v);
    }

    /** Sets the fill of a cell inside the used range. */
    method SetFill(row: nat, col: nat, f: Fill)
      requires Valid() && 1 <= row <= MaxRow() && 1 <= col <= MaxColumn()
      modifies this
      ensures Valid()
      ensures grid == WithFill(old(grid), row, col, f)
    {
      grid := WithFill(grid, row, col, f);
    }
  }
}
