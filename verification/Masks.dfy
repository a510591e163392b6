/**
  The machine words behind the cell sets.

  The solver keeps the taken cells of a screen in a 32-bit word: the cell in column c of
  row r is bit `r * cols + c`. This module proves that every word operation it uses is the
  set operation the rest of the project uses in its place: the mask of an in-bounds
  rectangle is exactly the rectangle, `|` is union, `&^` is difference, `& == 0` is
  disjointness, equality with the full mask is "every cell is taken", and the trailing
  zeros of the complement number the first free cell.
 */
module Masks {
  import opened Grid

  const WIDTH := 32

  /** A 32-bit word as its bits, the lowest first. */
  type Word = w: seq<bool> | |w| == WIDTH
    witness [false, false, false, false, false, false, false, false, false, false, false, false, false, false, false, false,
             false, false, false, false, false, false, false, false, false, false, false, false, false, false, false, false]

  function Zero(): (w: Word)
    ensures forall i :: 0 <= i < WIDTH ==> !w[i]
  {
    seq(WIDTH, i => false)
  }

  function One(): (w: Word)
    ensures forall i :: 0 <= i < WIDTH ==> (w[i] <==> i == 0)
  {
    Zero()[0 := true]
  }

  function Or(a: Word, b: Word): Word {
    seq(WIDTH, i requires 0 <= i < WIDTH => a[i] || b[i])
  }

  function And(a: Word, b: Word): Word {
    seq(WIDTH, i requires 0 <= i < WIDTH => a[i] && b[i])
  }

  function Not(a: Word): Word {
    seq(WIDTH, i requires 0 <= i < WIDTH => !a[i])
  }

  /** Bits shifted past the top are lost. */
  function ShiftLeft(a: Word, k: nat): Word {
    seq(WIDTH, i requires 0 <= i < WIDTH => k <= i && a[i - k])
  }

  /** Subtracts one at bit i, borrowing from the bits above. */
  function Decrement(a: Word, i: nat := 0): Word
    requires i <= WIDTH
    decreases WIDTH - i
  {
    if i == WIDTH then a
    else if a[i] then a[i := false]
    else Decrement(a[i := true], i + 1)
  }

  function TrailingZeros(a: Word, i: nat := 0): (n: nat)
    requires i <= WIDTH && forall j :: 0 <= j < i ==> !a[j]
    ensures n <= WIDTH && (n < WIDTH ==> a[n]) && forall j :: 0 <= j < n ==> !a[j]
    decreases WIDTH - i
  {
    if i == WIDTH || a[i] then i else TrailingZeros(a, i + 1)
  }

  function FullMask(g: Grid): Word
    requires Supported(g)
  {
    Decrement(ShiftLeft(One(), CellCount(g)))
  }

  function CellAt(g: Grid, i: int): Cell
    requires Supported(g)
  {
    Cell(i % g.cols, i / g.cols)
  }

  /** The word m stands for the set of cells `taken`. */
  ghost predicate Represents(g: Grid, m: Word, taken: set<Cell>)
    requires Supported(g)
  {
    && taken <= AllCells(g)
    && forall i :: 0 <= i < WIDTH ==> (m[i] <==> CellAt(g, i) in taken)
  }

  // ----- word operations are set operations

  lemma UnionRepresents(g: Grid, a: Word, s: set<Cell>, b: Word, t: set<Cell>)
    requires Supported(g) && Represents(g, a, s) && Represents(g, b, t)
    ensures Represents(g, Or(a, b), s + t)
  {}

  lemma DifferenceRepresents(g: Grid, a: Word, s: set<Cell>, b: Word, t: set<Cell>)
    requires Supported(g) && Represents(g, a, s) && Represents(g, b, t)
    ensures Represents(g, And(a, Not(b)), s - t)
  {}

  /** Cells and their numbers correspond one to one. */
  lemma CellHasNumber(g: Grid, cell: Cell)
    requires Supported(g) && cell in AllCells(g)
    ensures 0 <= cell.row * g.cols + cell.col < CellCount(g) < WIDTH
    ensures CellAt(g, cell.row * g.cols + cell.col) == cell
  {
    if g.cols == 6 {
    } else if g.cols == 3 {
    } else {
    }
  }

  lemma NumberHasCell(g: Grid, i: int)
    requires Supported(g)
    ensures 0 <= i < CellCount(g) <==> CellAt(g, i) in AllCells(g)
    ensures i == CellAt(g, i).row * g.cols + CellAt(g, i).col
  {
    if g.cols == 6 {
    } else if g.cols == 3 {
    } else {
    }
  }

  /** Two words that stand for the same cells are the same word. */
  lemma RepresentsIsInjective(g: Grid, a: Word, b: Word, s: set<Cell>)
    requires Supported(g) && Represents(g, a, s) && Represents(g, b, s)
    ensures a == b
  {}

  lemma EmptyRepresents(g: Grid)
    requires Supported(g)
    ensures Represents(g, Zero(), {})
  {}

  /** The solver's overlap test: two masks meet exactly when their cells do. */
  lemma OverlapRepresents(g: Grid, a: Word, s: set<Cell>, b: Word, t: set<Cell>)
    requires Supported(g) && Represents(g, a, s) && Represents(g, b, t)
    ensures And(a, b) == Zero() <==> s !! t
  {
    if cell :| cell in s && cell in t {
      CellHasNumber(g, cell);
      assert And(a, b)[cell.row * g.cols + cell.col];
    }
    if s !! t {
      assert forall i :: 0 <= i < WIDTH ==> !And(a, b)[i];
    }
  }

  // ----- runs of ones

  /** Exactly the bits start, ..., start + n - 1 are set. */
  predicate IsRun(a: Word, start: int, n: int) {
    forall i :: 0 <= i < WIDTH ==> (a[i] <==> start <= i < start + n)
  }

  /** 2^n - 1 is n ones: the borrow ripples up to bit n. */
  lemma {:induction false} DecrementPower(a: Word, n: nat, i: nat)
    requires i <= n < WIDTH
    requires forall j :: 0 <= j < WIDTH ==> (a[j] <==> j < i || j == n)
    ensures IsRun(Decrement(a, i), 0, n)
    decreases n - i
  {
    if i < n {
      DecrementPower(a[i := true], n, i + 1);
    }
  }

  lemma OnesAreARun(n: nat)
    requires n < WIDTH
    ensures IsRun(Decrement(ShiftLeft(One(), n)), 0, n)
  {
    DecrementPower(ShiftLeft(One(), n), n, 0);
  }

  lemma ShiftRun(a: Word, start: int, n: int, k: nat)
    requires 0 <= start && IsRun(a, start, n)
    ensures IsRun(ShiftLeft(a, k), start + k, n)
  {}

  lemma FullMaskRepresents(g: Grid)
    requires Supported(g)
    ensures Represents(g, FullMask(g), AllCells(g))
  {
    OnesAreARun(CellCount(g));
    forall i | 0 <= i < WIDTH ensures FullMask(g)[i] <==> CellAt(g, i) in AllCells(g) {
      NumberHasCell(g, i);
    }
  }

  /** The solver's completeness test: a mask equals the full mask exactly when every cell is taken. */
  lemma FullMeansAllTaken(g: Grid, m: Word, taken: set<Cell>)
    requires Supported(g) && Represents(g, m, taken)
    ensures m == FullMask(g) <==> taken == AllCells(g)
  {
    FullMaskRepresents(g);
    if m == FullMask(g) {
      forall cell | cell in AllCells(g) ensures cell in taken {
        CellHasNumber(g, cell);
      }
    } else if taken == AllCells(g) {
      RepresentsIsInjective(g, m, FullMask(g), taken);
    }
  }

  /** The solver's branching cell: the trailing zeros of the complement number the first free cell. */
  lemma TrailingZerosIsFirstFree(g: Grid, m: Word, taken: set<Cell>)
    requires Supported(g) && Represents(g, m, taken) && taken != AllCells(g)
    ensures CellAt(g, TrailingZeros(Not(m))) == FirstFree(g, taken)
  {
    var n := TrailingZeros(Not(m));
    var cell := CellAt(g, n);
    var free := FirstFree(g, taken);
    CellHasNumber(g, free);
    assert Not(m)[free.row * g.cols + free.col];
    NumberHasCell(g, n);
    forall x | x in AllCells(g) && Before(x, cell) ensures x in taken {
      CellHasNumber(g, x);
      NumbersGrow(g, x, cell);
      assert !Not(m)[x.row * g.cols + x.col];
    }
    assert Not(m)[n] && !m[n] && cell !in taken;
    FirstFreeIsUnique(g, taken, cell, free);
  }

  lemma NumbersGrow(g: Grid, a: Cell, b: Cell)
    requires Supported(g) && a in AllCells(g) && b in AllCells(g) && Before(a, b)
    ensures a.row * g.cols + a.col < b.row * g.cols + b.col
  {
    if g.cols == 6 {
    } else if g.cols == 3 {
    } else {
    }
  }

  // ----- masks of rectangles

  function RowMask(cols: nat, originCol: nat): Word {
    ShiftLeft(Decrement(ShiftLeft(One(), cols)), originCol)
  }

  /** One row of a widget, shifted to its place, is that row of its rectangle. */
  lemma ShiftedRowRepresents(g: Grid, rc: Rect, shift: nat)
    requires Supported(g) && InBounds(g, rc) && rc.rows == 1 && shift == rc.row * g.cols
    ensures Represents(g, ShiftLeft(RowMask(rc.cols, rc.col), shift), RectCells(rc))
  {
    OnesAreARun(rc.cols);
    ShiftRun(Decrement(ShiftLeft(One(), rc.cols)), 0, rc.cols, rc.col);
    ShiftRun(RowMask(rc.cols, rc.col), rc.col, rc.cols, shift);
    forall i | 0 <= i < WIDTH
      ensures rc.col + shift <= i < rc.col + shift + rc.cols <==> CellAt(g, i) in RectCells(rc)
    {
      NumberInRow(g, rc, i);
    }
  }

  lemma NumberInRow(g: Grid, rc: Rect, i: int)
    requires Supported(g) && InBounds(g, rc) && rc.rows == 1
    ensures rc.row * g.cols + rc.col <= i < rc.row * g.cols + rc.col + rc.cols <==> InRect(rc, CellAt(g, i))
  {
    hide CellAt;
    NumberHasCell(g, i);
    ColumnsAreSmall(g, i);
    var cell := CellAt(g, i);
    if g.cols == 6 {
      SameRow(6, rc.row, cell.row, cell.col, rc.col, rc.cols);
    } else if g.cols == 3 {
      SameRow(3, rc.row, cell.row, cell.col, rc.col, rc.cols);
    } else {
      SameRow(2, rc.row, cell.row, cell.col, rc.col, rc.cols);
    }
  }

  lemma ColumnsAreSmall(g: Grid, i: int)
    requires Supported(g)
    ensures 0 <= CellAt(g, i).col < g.cols
  {}

  lemma SameRow(cols: nat, r: int, row: int, col: nat, from: nat, len: nat)
    requires (cols == 6 || cols == 3 || cols == 2) && col < cols && from + len <= cols
    ensures r * cols + from <= row * cols + col < r * cols + from + len <==> row == r && from <= col < from + len
  {
    if cols == 6 {
    } else if cols == 3 {
    } else {
    }
  }

  /** The six-column fast path: at most two rows, so no loop. */
  method ComputeWidgetBitmask(cols: nat, rows: nat, originCol: nat, originRow: nat) returns (mask: Word)
    requires InBounds(Grid(6, 2), Rect(originCol, originRow, cols, rows))
    ensures Represents(Grid(6, 2), mask, RectCells(Rect(originCol, originRow, cols, rows)))
  {
    var rowMask := RowMask(cols, originCol);
    ghost var g, rc := Grid(6, 2), Rect(originCol, originRow, cols, rows);
    if rows == 1 {
      ShiftedRowRepresents(g, rc, originRow * GRID_COLUMNS);
      return ShiftLeft(rowMask, originRow * GRID_COLUMNS);
    }
    ghost var top, bottom := rc.(rows := 1), rc.(row := 1, rows := 1);
    ShiftedRowRepresents(g, top, 0);
    ShiftedRowRepresents(g, bottom, GRID_COLUMNS);
    assert ShiftLeft(rowMask, 0) == rowMask;
    UnionRepresents(g, rowMask, RectCells(top), ShiftLeft(rowMask, GRID_COLUMNS), RectCells(bottom));
    assert RectCells(rc) == RectCells(top) + RectCells(bottom);
    return Or(rowMask, ShiftLeft(rowMask, GRID_COLUMNS));
  }

  /** The mask of an in-bounds widget is exactly its rectangle, on every grid. */
  method ComputeWidgetBitmaskForGrid(cols: nat, rows: nat, originCol: nat, originRow: nat, g: Grid)
    returns (mask: Word)
    requires Supported(g) && InBounds(g, Rect(originCol, originRow, cols, rows))
    ensures Represents(g, mask, RectCells(Rect(originCol, originRow, cols, rows)))
  {
    if g.cols == GRID_COLUMNS && rows <= 2 {
      mask := ComputeWidgetBitmask(cols, rows, originCol, originRow);
      return;
    }
    ghost var rc := Rect(originCol, originRow, cols, rows);
    var rowMask := RowMask(cols, originCol);
    mask := Zero();
    EmptyRepresents(g);
    for r := 0 to rows
      invariant Represents(g, mask, RectCells(rc.(rows := r)))
    {
      ghost var row := rc.(row := originRow + r, rows := 1);
      var shifted := ShiftLeft(rowMask, (originRow + r) * g.cols);
      ShiftedRowRepresents(g, row, (originRow + r) * g.cols);
      UnionRepresents(g, mask, RectCells(rc.(rows := r)), shifted, RectCells(row));
      mask := Or(mask, shifted);
      assert RectCells(rc.(rows := r + 1)) == RectCells(rc.(rows := r)) + RectCells(row);
    }
  }
}
