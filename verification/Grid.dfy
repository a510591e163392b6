/**
  The cells of a screen: grids, dimensions, rectangles and the cells they cover.
 */
module Grid {

  const GRID_COLUMNS := 6
  const GRID_ROWS := 2

  datatype Grid = Grid(cols: int, rows: int)

  datatype Dimension = Dimension(cols: int, rows: int)

  datatype Rect = Rect(col: int, row: int, cols: int, rows: int)

  datatype Cell = Cell(col: int, row: int)

  /** The three grids the canvas supports: 6x2, 3x6 and 2x6. */
  predicate Supported(g: Grid) {
    g == Grid(6, 2) || g == Grid(3, 6) || g == Grid(2, 6)
  }

  function NormalizeGrid(cols: int, rows: int): (g: Grid)
    ensures Supported(g)
    ensures Supported(Grid(cols, rows)) ==> g == Grid(cols, rows)
    ensures !Supported(Grid(cols, rows)) ==> g == Grid(6, 2)
  {
    if cols == 3 && rows == 6 then Grid(3, 6)
    else if cols == 2 && rows == 6 then Grid(2, 6)
    else Grid(GRID_COLUMNS, GRID_ROWS)
  }

  predicate ValidDimension(g: Grid, d: Dimension) {
    1 <= d.cols <= g.cols && 1 <= d.rows <= g.rows
  }

  function Area(d: Dimension): int {
    d.cols * d.rows
  }

  function DimensionOf(rc: Rect): Dimension {
    Dimension(rc.cols, rc.rows)
  }

  function CellCount(g: Grid): int {
    g.cols * g.rows
  }

  predicate InBounds(g: Grid, rc: Rect) {
    && 0 <= rc.col && 1 <= rc.cols && rc.col + rc.cols <= g.cols
    && 0 <= rc.row && 1 <= rc.rows && rc.row + rc.rows <= g.rows
  }

  predicate InRect(rc: Rect, cell: Cell) {
    && rc.col <= cell.col < rc.col + rc.cols
    && rc.row <= cell.row < rc.row + rc.rows
  }

  function RectCells(rc: Rect): (s: set<Cell>)
    ensures forall cell :: cell in s <==> InRect(rc, cell)
  {
    set c, r | rc.col <= c < rc.col + rc.cols && rc.row <= r < rc.row + rc.rows :: Cell(c, r)
  }

  lemma {:induction false} RowSize(rc: Rect)
    requires rc.cols >= 0 && rc.rows == 1
    ensures |RectCells(rc)| == rc.cols
    decreases rc.cols
  {
    if rc.cols == 0 {
      assert RectCells(rc) == {};
    } else {
      var rest := rc.(cols := rc.cols - 1);
      RowSize(rest);
      assert RectCells(rc) == RectCells(rest) + {Cell(rc.col + rc.cols - 1, rc.row)};
    }
  }

  lemma SplitLastRow(rc: Rect, rest: Rect, last: Rect)
    requires rc.rows >= 1 && rest == rc.(rows := rc.rows - 1)
    requires last == rc.(row := rc.row + rc.rows - 1, rows := 1)
    ensures RectCells(rc) == RectCells(rest) + RectCells(last)
    ensures RectCells(rest) !! RectCells(last)
  {}

  lemma OneRowMore(cols: int, rows: int)
    ensures Area(Dimension(cols, rows)) == Area(Dimension(cols, rows - 1)) + cols
  {}

  /** A rectangle has as many cells as its area. */
  lemma {:induction false} RectSize(rc: Rect)
    requires rc.cols >= 0 && rc.rows >= 0
    ensures |RectCells(rc)| == Area(DimensionOf(rc))
    decreases rc.rows
  {
    if rc.rows == 0 {
      assert RectCells(rc) == {};
    } else {
      var rest, last := rc.(rows := rc.rows - 1), rc.(row := rc.row + rc.rows - 1, rows := 1);
      RectSize(rest);
      RowSize(last);
      SplitLastRow(rc, rest, last);
      OneRowMore(rc.cols, rc.rows);
      assert |RectCells(rc)| == |RectCells(rest)| + |RectCells(last)|;
    }
  }

  function AllCells(g: Grid): set<Cell> {
    RectCells(Rect(0, 0, g.cols, g.rows))
  }

  /** Cell a comes before cell b when a screen is read row by row. */
  predicate Before(a: Cell, b: Cell) {
    a.row < b.row || (a.row == b.row && a.col < b.col)
  }

  /** The free cell a row-by-row scan meets first. */
  predicate IsFirstFree(g: Grid, taken: set<Cell>, cell: Cell) {
    && cell in AllCells(g) && cell !in taken
    && forall x :: x in AllCells(g) && Before(x, cell) ==> x in taken
  }

  /** Scans row by row from column col of row row. */
  function FirstFreeFrom(g: Grid, taken: set<Cell>, col: int, row: int): (cell: Cell)
    requires 0 <= col < g.cols && 0 <= row < g.rows
    requires exists x :: x in AllCells(g) && x !in taken
    requires forall x :: x in AllCells(g) && Before(x, Cell(col, row)) ==> x in taken
    ensures IsFirstFree(g, taken, cell)
    decreases g.rows - row, g.cols - col
  {
    if Cell(col, row) !in taken then Cell(col, row)
    else
      assert forall x :: x in AllCells(g) ==> Before(x, Cell(col, row)) || x == Cell(col, row) || Before(Cell(col, row), x);
      if col + 1 < g.cols then FirstFreeFrom(g, taken, col + 1, row)
      else FirstFreeFrom(g, taken, 0, row + 1)
  }

  function FirstFree(g: Grid, taken: set<Cell>): (cell: Cell)
    requires Supported(g) && taken <= AllCells(g) && taken != AllCells(g)
    ensures IsFirstFree(g, taken, cell)
  {
    assert exists x :: x in AllCells(g) && x !in taken;
    FirstFreeFrom(g, taken, 0, 0)
  }

  lemma FirstFreeIsUnique(g: Grid, taken: set<Cell>, a: Cell, b: Cell)
    requires IsFirstFree(g, taken, a) && IsFirstFree(g, taken, b)
    ensures a == b
  {
    assert Before(a, b) || Before(b, a) || a == b;
  }

  /** Any rectangle of free cells that covers the first free cell has it as its origin. */
  lemma CoversFirstFree(g: Grid, taken: set<Cell>, cell: Cell, rc: Rect)
    requires IsFirstFree(g, taken, cell)
    requires InBounds(g, rc) && InRect(rc, cell) && RectCells(rc) !! taken
    ensures rc.col == cell.col && rc.row == cell.row
  {
    var origin := Cell(rc.col, rc.row);
    assert origin in RectCells(rc) && origin in AllCells(g);
  }
}
