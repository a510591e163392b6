/**
  The exact-cover argument behind the search.

  A completion of a partly filled board is a set of tiles, with as many of each shape as
  are still to be placed, that covers every free cell once. The search branches only on the
  first free cell and only on shapes, not on widgets; the lemmas here show that it loses
  no completion by doing so.
 */
module Search {
  import opened Grid
  import opened Board

  /** How many widgets of one shape are still to be placed. */
  datatype Demand = Demand(dims: Dimension, count: int)

  predicate DistinctShapes(demands: seq<Demand>) {
    forall i, j :: 0 <= i < j < |demands| ==> demands[i].dims != demands[j].dims
  }

  predicate HasShape(demands: seq<Demand>, d: Dimension) {
    exists i :: 0 <= i < |demands| && demands[i].dims == d
  }

  function OfShape(tiles: set<Spot>, d: Dimension): set<Spot> {
    set t | t in tiles && DimensionOf(t.rect) == d
  }

  predicate FitsBoard(g: Grid, board: Board, demands: seq<Demand>, t: Spot) {
    && t.On? && Legal(g, |board|, t) && board[t.screen] !! RectCells(t.rect)
    && HasShape(demands, DimensionOf(t.rect))
  }

  predicate CoversCell(board: Board, tiles: set<Spot>, s: int, cell: Cell)
    requires 0 <= s < |board|
  {
    cell in board[s] || exists t :: t in tiles && t == On(s, t.rect) && InRect(t.rect, cell)
  }

  ghost predicate Completion(g: Grid, board: Board, demands: seq<Demand>, tiles: set<Spot>) {
    && (forall t :: t in tiles ==> FitsBoard(g, board, demands, t))
    && (forall t, u :: t in tiles && u in tiles && t != u ==> !Clash(t, u))
    && (forall s, cell :: 0 <= s < |board| && cell in AllCells(g) ==> CoversCell(board, tiles, s, cell))
    && (forall i :: 0 <= i < |demands| ==> |OfShape(tiles, demands[i].dims)| == demands[i].count)
  }

  ghost predicate Completable(g: Grid, board: Board, demands: seq<Demand>) {
    exists tiles :: Completion(g, board, demands, tiles)
  }

  function Use(demands: seq<Demand>, i: nat): seq<Demand>
    requires i < |demands|
  {
    demands[i := demands[i].(count := demands[i].count - 1)]
  }

  /** The tile of shape d whose origin is the given cell of screen s. */
  function TileAt(s: int, cell: Cell, d: Dimension): Spot {
    On(s, Rect(cell.col, cell.row, d.cols, d.rows))
  }

  /** The branch that puts a tile of shape i on the first free cell of screen s. */
  ghost predicate Branches(g: Grid, board: Board, demands: seq<Demand>, s: int, cell: Cell, i: int)
    requires 0 <= i < |demands|
  {
    var t := TileAt(s, cell, demands[i].dims);
    && demands[i].count > 0 && Legal(g, |board|, t) && Free(board, t)
    && Completable(g, Put(board, t), Use(demands, i))
  }

  lemma RemoveTile(g: Grid, board: Board, demands: seq<Demand>, tiles: set<Spot>, t: Spot, i: nat)
    requires DistinctShapes(demands) && i < |demands|
    requires Completion(g, board, demands, tiles) && t in tiles && DimensionOf(t.rect) == demands[i].dims
    ensures demands[i].count > 0
    ensures Completion(g, Put(board, t), Use(demands, i), tiles - {t})
  {
    var rest, board', demands' := tiles - {t}, Put(board, t), Use(demands, i);
    assert t in OfShape(tiles, demands[i].dims);
    forall u | u in rest ensures FitsBoard(g, board', demands', u) {
      assert FitsBoard(g, board, demands, u) && !Clash(t, u);
      var j :| 0 <= j < |demands| && demands[j].dims == DimensionOf(u.rect);
      assert demands'[j].dims == DimensionOf(u.rect);
    }
    forall s, cell | 0 <= s < |board'| && cell in AllCells(g) ensures CoversCell(board', rest, s, cell) {
      assert CoversCell(board, tiles, s, cell);
    }
    forall j | 0 <= j < |demands'| ensures |OfShape(rest, demands'[j].dims)| == demands'[j].count {
      if j == i {
        assert OfShape(rest, demands[j].dims) == OfShape(tiles, demands[j].dims) - {t};
      } else {
        assert OfShape(rest, demands[j].dims) == OfShape(tiles, demands[j].dims);
      }
    }
  }

  /** Branching on shapes at the first free cell loses nothing: a board that can be
      completed can be completed along one of the branches. */
  lemma SomeBranchSucceeds(g: Grid, board: Board, demands: seq<Demand>, s: int, cell: Cell)
    requires DistinctShapes(demands) && Completable(g, board, demands)
    requires 0 <= s < |board| && IsFirstFree(g, board[s], cell)
    ensures exists i :: 0 <= i < |demands| && Branches(g, board, demands, s, cell, i)
  {
    var tiles: set<Spot> :| Completion(g, board, demands, tiles);
    assert CoversCell(board, tiles, s, cell);
    var t :| t in tiles && t == On(s, t.rect) && InRect(t.rect, cell);
    assert FitsBoard(g, board, demands, t);
    CoversFirstFree(g, board[s], cell, t.rect);
    var i :| 0 <= i < |demands| && demands[i].dims == DimensionOf(t.rect);
    assert t == TileAt(s, cell, demands[i].dims);
    RemoveTile(g, board, demands, tiles, t, i);
    assert Branches(g, board, demands, s, cell, i);
  }

  /** Hence a board none of whose branches can be completed cannot be completed. */
  lemma NoBranchNoCompletion(g: Grid, board: Board, demands: seq<Demand>, s: int, cell: Cell, order: seq<nat>)
    requires DistinctShapes(demands)
    requires 0 <= s < |board| && IsFirstFree(g, board[s], cell)
    requires forall j :: 0 <= j < |order| ==> order[j] < |demands| && !Branches(g, board, demands, s, cell, order[j])
    requires forall i: nat :: i < |demands| && demands[i].count > 0 ==> i in order
    ensures !Completable(g, board, demands)
  {
    if Completable(g, board, demands) {
      SomeBranchSucceeds(g, board, demands, s, cell);
    }
  }

  lemma FitsBesideTile(g: Grid, board: Board, demands: seq<Demand>, t: Spot, i: nat, u: Spot)
    requires i < |demands| && t.On? && Legal(g, |board|, t) && FitsBoard(g, Put(board, t), Use(demands, i), u)
    ensures u != t && FitsBoard(g, board, demands, u) && !Clash(t, u) && !Clash(u, t)
  {
    assert Cell(t.rect.col, t.rect.row) in RectCells(t.rect);
    var j :| 0 <= j < |demands| && Use(demands, i)[j].dims == DimensionOf(u.rect);
    assert demands[j].dims == DimensionOf(u.rect);
  }

  lemma TileFits(g: Grid, board: Board, demands: seq<Demand>, t: Spot, i: nat)
    requires i < |demands| && t.On? && DimensionOf(t.rect) == demands[i].dims
    requires Legal(g, |board|, t) && board[t.screen] !! RectCells(t.rect)
    ensures FitsBoard(g, board, demands, t)
  {}

  lemma CoversWithTile(g: Grid, board: Board, rest: set<Spot>, t: Spot, s: int, cell: Cell)
    requires t.On? && 0 <= s < |board| && CoversCell(Put(board, t), rest, s, cell)
    ensures CoversCell(board, rest + {t}, s, cell)
  {
    assert cell !in board[s] && t.screen == s && cell in RectCells(t.rect) ==> t == On(s, t.rect);
  }

  /** A completion behind a tile and the tile are a completion. */
  lemma AddTile(g: Grid, board: Board, demands: seq<Demand>, t: Spot, i: nat)
    requires DistinctShapes(demands) && i < |demands| && t.On? && DimensionOf(t.rect) == demands[i].dims
    requires Legal(g, |board|, t) && board[t.screen] !! RectCells(t.rect) && Completable(g, Put(board, t), Use(demands, i))
    ensures Completable(g, board, demands)
  {
    hide FitsBoard, CoversCell, Clash, RectCells, AllCells;
    var rest: set<Spot> :| Completion(g, Put(board, t), Use(demands, i), rest);
    var tiles := rest + {t};
    forall u | u in rest ensures u != t && FitsBoard(g, board, demands, u) && !Clash(t, u) && !Clash(u, t) {
      FitsBesideTile(g, board, demands, t, i, u);
    }
    TileFits(g, board, demands, t, i);
    forall s, cell | 0 <= s < |board| && cell in AllCells(g) ensures CoversCell(board, tiles, s, cell) {
      CoversWithTile(g, board, rest, t, s, cell);
    }
    forall j | 0 <= j < |demands| ensures |OfShape(tiles, demands[j].dims)| == demands[j].count {
      assert Use(demands, i)[j].dims == demands[j].dims;
      if j == i {
        assert OfShape(tiles, demands[j].dims) == OfShape(rest, demands[j].dims) + {t};
      } else {
        assert OfShape(tiles, demands[j].dims) == OfShape(rest, demands[j].dims);
      }
    }
    assert Completion(g, board, demands, tiles);
  }

  // ----- pinned widgets

  function PinnedAt(col: int, row: int, d: Dimension): Spot {
    Pinned(Rect(col, row, d.cols, d.rows))
  }

  /** The given spots put the pinned shapes on every screen, one after the other on free cells,
      so that the rest can be completed. */
  ghost predicate PinnedCompletion(g: Grid, board: Board, pinned: seq<Dimension>, demands: seq<Demand>, spots: seq<Spot>)
    decreases |pinned|
  {
    if pinned == [] then Completable(g, board, demands)
    else
      && spots != [] && spots[0] == PinnedAt(spots[0].rect.col, spots[0].rect.row, pinned[0])
      && InBounds(g, spots[0].rect) && Free(board, spots[0])
      && PinnedCompletion(g, Put(board, spots[0]), pinned[1..], demands, spots[1..])
  }

  ghost predicate PinnedCompletable(g: Grid, board: Board, pinned: seq<Dimension>, demands: seq<Demand>) {
    exists spots :: PinnedCompletion(g, board, pinned, demands, spots)
  }

  /** The branch that puts the next pinned shape at the given origin. */
  ghost predicate PinBranches(g: Grid, board: Board, pinned: seq<Dimension>, demands: seq<Demand>, col: int, row: int)
    requires pinned != []
  {
    var sp := PinnedAt(col, row, pinned[0]);
    InBounds(g, sp.rect) && Free(board, sp) && PinnedCompletable(g, Put(board, sp), pinned[1..], demands)
  }

  lemma NoPinnedLeft(g: Grid, board: Board, demands: seq<Demand>)
    ensures PinnedCompletable(g, board, [], demands) <==> Completable(g, board, demands)
  {
    assert PinnedCompletion(g, board, [], demands, []) <==> Completable(g, board, demands);
  }

  /** A board can be completed exactly when it can along one origin of the next pinned shape. */
  lemma SomePinBranchSucceeds(g: Grid, board: Board, pinned: seq<Dimension>, demands: seq<Demand>)
    requires pinned != []
    ensures PinnedCompletable(g, board, pinned, demands) <==> exists c, r :: PinBranches(g, board, pinned, demands, c, r)
  {
    if PinnedCompletable(g, board, pinned, demands) {
      var spots: seq<Spot> :| PinnedCompletion(g, board, pinned, demands, spots);
      assert PinnedCompletion(g, Put(board, spots[0]), pinned[1..], demands, spots[1..]);
      assert PinBranches(g, board, pinned, demands, spots[0].rect.col, spots[0].rect.row);
    }
    if c, r :| PinBranches(g, board, pinned, demands, c, r) {
      var sp := PinnedAt(c, r, pinned[0]);
      var spots: seq<Spot> :| PinnedCompletion(g, Put(board, sp), pinned[1..], demands, spots);
      assert ([sp] + spots)[1..] == spots;
      assert PinnedCompletion(g, board, pinned, demands, [sp] + spots);
    }
  }
}
