/**
  Widgets on screens.

  A spot is a widget's place: a rectangle on one screen, or, for a pinned widget, the same
  rectangle on every screen. A board is the list of taken cells of each screen. The solver,
  the explicit placer and the override builder all keep a board and a list of spots in
  step; what they need to know about that is proved here once.
 */
module Board {
  import opened Grid

  datatype Spot = Pinned(rect: Rect) | On(screen: int, rect: Rect)

  /** The taken cells of each screen. */
  type Board = seq<set<Cell>>

  predicate Shows(sp: Spot, screen: int) {
    sp.Pinned? || sp.screen == screen
  }

  /** Two spots share a screen and a cell. */
  predicate Clash(a: Spot, b: Spot) {
    && (a.Pinned? || b.Pinned? || a.screen == b.screen)
    && !(RectCells(a.rect) !! RectCells(b.rect))
  }

  predicate Compatible(spots: seq<Spot>) {
    forall i, j :: 0 <= i < j < |spots| ==> !Clash(spots[i], spots[j])
  }

  predicate Legal(g: Grid, k: int, sp: Spot) {
    InBounds(g, sp.rect) && (sp.Pinned? || 0 <= sp.screen < k)
  }

  predicate AllLegal(g: Grid, k: int, spots: seq<Spot>) {
    forall i :: 0 <= i < |spots| ==> Legal(g, k, spots[i])
  }

  /** The cells of a screen that some spot covers. */
  function Covered(spots: seq<Spot>, screen: int): set<Cell> {
    if spots == [] then {}
    else
      var last := spots[|spots| - 1];
      Covered(spots[..|spots| - 1], screen) + if Shows(last, screen) then RectCells(last.rect) else {}
  }

  lemma {:induction false} CoveredBy(spots: seq<Spot>, screen: int, cell: Cell)
    ensures cell in Covered(spots, screen) <==>
              exists i :: 0 <= i < |spots| && Shows(spots[i], screen) && InRect(spots[i].rect, cell)
  {
    if spots != [] {
      var n := |spots| - 1;
      CoveredBy(spots[..n], screen, cell);
      if cell in Covered(spots[..n], screen) {
        var i :| 0 <= i < n && Shows(spots[..n][i], screen) && InRect(spots[..n][i].rect, cell);
        assert Shows(spots[i], screen);
      }
      if i :| 0 <= i < |spots| && Shows(spots[i], screen) && InRect(spots[i].rect, cell) {
        assert i < n ==> spots[..n][i] == spots[i];
      }
    }
  }

  /** What a list of spots covers depends only on which spots are in it. */
  lemma CoveredByMembers(a: seq<Spot>, b: seq<Spot>, screen: int)
    requires forall sp :: sp in a <==> sp in b
    ensures Covered(a, screen) == Covered(b, screen)
  {
    forall cell ensures cell in Covered(a, screen) <==> cell in Covered(b, screen) {
      CoveredBy(a, screen, cell);
      CoveredBy(b, screen, cell);
      if i :| 0 <= i < |a| && Shows(a[i], screen) && InRect(a[i].rect, cell) {
        assert a[i] in b;
      }
      if i :| 0 <= i < |b| && Shows(b[i], screen) && InRect(b[i].rect, cell) {
        assert b[i] in a;
      }
    }
  }

  /** The board holds exactly the cells of the spots. */
  predicate Tracks(board: Board, spots: seq<Spot>) {
    forall s :: 0 <= s < |board| ==> board[s] == Covered(spots, s)
  }

  /** Every cell of every screen belongs to exactly one spot. */
  predicate Tiled(g: Grid, k: int, spots: seq<Spot>) {
    && AllLegal(g, k, spots)
    && Compatible(spots)
    && forall s :: 0 <= s < k ==> Covered(spots, s) == AllCells(g)
  }

  lemma TiledExactlyOnce(g: Grid, k: int, spots: seq<Spot>, screen: int, cell: Cell) returns (i: int)
    requires Tiled(g, k, spots) && 0 <= screen < k && cell in AllCells(g)
    ensures 0 <= i < |spots| && Shows(spots[i], screen) && InRect(spots[i].rect, cell)
    ensures forall j :: 0 <= j < |spots| && Shows(spots[j], screen) && InRect(spots[j].rect, cell) ==> j == i
  {
    CoveredBy(spots, screen, cell);
    i :| 0 <= i < |spots| && Shows(spots[i], screen) && InRect(spots[i].rect, cell);
    forall j | 0 <= j < |spots| && Shows(spots[j], screen) && InRect(spots[j].rect, cell)
      ensures j == i
    {
      assert Clash(spots[i], spots[j]) && Clash(spots[j], spots[i]);
    }
  }

  /** No screen has a free cell. */
  predicate Full(g: Grid, board: Board) {
    forall s :: 0 <= s < |board| ==> board[s] == AllCells(g)
  }

  // ----- putting a spot on a board

  predicate Free(board: Board, sp: Spot) {
    forall s :: 0 <= s < |board| && Shows(sp, s) ==> board[s] !! RectCells(sp.rect)
  }

  function Put(board: Board, sp: Spot): (b: Board)
    ensures |b| == |board|
    ensures forall s :: 0 <= s < |board| ==>
              b[s] == if Shows(sp, s) then board[s] + RectCells(sp.rect) else board[s]
  {
    seq(|board|, s requires 0 <= s < |board| => if Shows(sp, s) then board[s] + RectCells(sp.rect) else board[s])
  }

  function Lift(board: Board, sp: Spot): (b: Board)
    ensures |b| == |board|
    ensures forall s :: 0 <= s < |board| ==>
              b[s] == if Shows(sp, s) then board[s] - RectCells(sp.rect) else board[s]
  {
    seq(|board|, s requires 0 <= s < |board| => if Shows(sp, s) then board[s] - RectCells(sp.rect) else board[s])
  }

  /** Lifting a spot that was put on free cells restores the board. */
  lemma LiftUndoesPut(board: Board, sp: Spot)
    requires Free(board, sp)
    ensures Lift(Put(board, sp), sp) == board
  {}

  /** The overlap test on the board is exact: it passes when and only when the new spot
      clashes with none of the spots already there. */
  lemma FreeIffNoClash(g: Grid, board: Board, spots: seq<Spot>, sp: Spot)
    requires |board| >= 1 && Tracks(board, spots)
    requires AllLegal(g, |board|, spots) && Legal(g, |board|, sp)
    ensures Free(board, sp) <==> forall i :: 0 <= i < |spots| ==> !Clash(spots[i], sp)
  {
    if Free(board, sp) {
      forall i | 0 <= i < |spots| ensures !Clash(spots[i], sp) {
        if Clash(spots[i], sp) {
          var cell :| cell in RectCells(spots[i].rect) && cell in RectCells(sp.rect);
          var s := if sp.On? then sp.screen else if spots[i].On? then spots[i].screen else 0;
          CoveredBy(spots, s, cell);
          assert Shows(sp, s) && Shows(spots[i], s);
          assert false;
        }
      }
    } else {
      var s :| 0 <= s < |board| && Shows(sp, s) && !(board[s] !! RectCells(sp.rect));
      var cell :| cell in board[s] && cell in RectCells(sp.rect);
      CoveredBy(spots, s, cell);
      var i :| 0 <= i < |spots| && Shows(spots[i], s) && InRect(spots[i].rect, cell);
      assert Clash(spots[i], sp);
    }
  }

  lemma PutKeepsTrack(board: Board, spots: seq<Spot>, sp: Spot)
    requires Tracks(board, spots)
    ensures Tracks(Put(board, sp), spots + [sp])
  {
    assert (spots + [sp])[..|spots|] == spots;
  }

  lemma PutKeepsCompatible(g: Grid, board: Board, spots: seq<Spot>, sp: Spot)
    requires |board| >= 1 && Tracks(board, spots) && Compatible(spots)
    requires AllLegal(g, |board|, spots) && Legal(g, |board|, sp)
    requires Free(board, sp)
    ensures Tracks(Put(board, sp), spots + [sp])
    ensures Compatible(spots + [sp]) && AllLegal(g, |board|, spots + [sp])
  {
    FreeIffNoClash(g, board, spots, sp);
    PutKeepsTrack(board, spots, sp);
  }

  predicate Within(g: Grid, board: Board) {
    forall s :: 0 <= s < |board| ==> board[s] <= AllCells(g)
  }

  lemma PutStaysWithin(g: Grid, board: Board, sp: Spot)
    requires Within(g, board) && InBounds(g, sp.rect)
    ensures Within(g, Put(board, sp))
  {}

  // ----- area

  /** How many cells of the first n screens are free. */
  function FreeAreaBelow(g: Grid, board: Board, n: nat): int
    requires n <= |board|
  {
    if n == 0 then 0 else FreeAreaBelow(g, board, n - 1) + CellCount(g) - |board[n - 1]|
  }

  function FreeArea(g: Grid, board: Board): int {
    FreeAreaBelow(g, board, |board|)
  }

  /** How many cells a spot takes on the first n screens. */
  function WeightBelow(sp: Spot, n: nat): int {
    if n == 0 then 0 else WeightBelow(sp, n - 1) + if Shows(sp, n - 1) then Area(DimensionOf(sp.rect)) else 0
  }

  lemma {:induction false} Weight(sp: Spot, n: nat)
    ensures sp.Pinned? ==> WeightBelow(sp, n) == n * Area(DimensionOf(sp.rect))
    ensures sp.On? ==> WeightBelow(sp, n) == if 0 <= sp.screen < n then Area(DimensionOf(sp.rect)) else 0
  {
    if n > 0 {
      Weight(sp, n - 1);
      if sp.Pinned? {
        assert n * Area(DimensionOf(sp.rect)) == (n - 1) * Area(DimensionOf(sp.rect)) + Area(DimensionOf(sp.rect));
      }
    }
  }

  /** Putting a spot on free cells takes exactly its weight from the free area. */
  lemma {:induction false} PutTakesArea(g: Grid, board: Board, sp: Spot, n: nat)
    requires n <= |board| && Free(board, sp) && InBounds(g, sp.rect)
    ensures FreeAreaBelow(g, Put(board, sp), n) == FreeAreaBelow(g, board, n) - WeightBelow(sp, n)
  {
    hide RectCells, AllCells, CellCount;
    if n > 0 {
      PutTakesArea(g, board, sp, n - 1);
      RectSize(sp.rect);
      if Shows(sp, n - 1) {
        FreeAt(board, sp, n - 1);
      }
    }
  }

  lemma FreeAt(board: Board, sp: Spot, s: nat)
    requires s < |board| && Free(board, sp) && Shows(sp, s)
    ensures |board[s] + RectCells(sp.rect)| == |board[s]| + |RectCells(sp.rect)|
  {}

  lemma {:induction false} FreeAreaOfSubset(g: Grid, board: Board, n: nat)
    requires Supported(g) && Within(g, board) && n <= |board|
    ensures FreeAreaBelow(g, board, n) >= 0
    ensures FreeAreaBelow(g, board, n) == 0 <==> forall s :: 0 <= s < n ==> board[s] == AllCells(g)
  {
    RectSize(Rect(0, 0, g.cols, g.rows));
    if n > 0 {
      FreeAreaOfSubset(g, board, n - 1);
      SubsetSize(board[n - 1], AllCells(g));
    }
  }

  lemma SubsetSize<T>(a: set<T>, b: set<T>)
    requires a <= b
    ensures |a| <= |b|
    ensures |a| == |b| <==> a == b
  {
    assert b == a + (b - a);
    assert |b| == |a| + |b - a|;
  }

  // ----- whole lists of spots

  function EmptyBoard(k: nat): (b: Board)
    ensures |b| == k && forall s :: 0 <= s < k ==> b[s] == {}
  {
    seq(k, s => {})
  }

  function TotalWeight(spots: seq<Spot>, k: nat): int {
    if spots == [] then 0 else TotalWeight(spots[..|spots| - 1], k) + WeightBelow(spots[|spots| - 1], k)
  }

  function BoardOf(spots: seq<Spot>, k: nat): (b: Board)
    ensures |b| == k && Tracks(b, spots)
  {
    seq(k, s => Covered(spots, s))
  }

  lemma BoardOfLast(spots: seq<Spot>, k: nat)
    requires spots != []
    ensures BoardOf(spots, k) == Put(BoardOf(spots[..|spots| - 1], k), spots[|spots| - 1])
  {
    var board := Put(BoardOf(spots[..|spots| - 1], k), spots[|spots| - 1]);
    assert forall s :: 0 <= s < k ==> BoardOf(spots, k)[s] == board[s];
  }

  /** Spots that do not clash take their total weight out of k empty screens. */
  lemma {:induction false} CompatibleArea(g: Grid, spots: seq<Spot>, k: nat)
    requires Supported(g) && k >= 1 && AllLegal(g, k, spots) && Compatible(spots)
    ensures Within(g, BoardOf(spots, k))
    ensures FreeArea(g, BoardOf(spots, k)) == k * CellCount(g) - TotalWeight(spots, k)
  {
    if spots == [] {
      EmptyArea(g, BoardOf(spots, k), k);
    } else {
      var rest, last := spots[..|spots| - 1], spots[|spots| - 1];
      var board := BoardOf(rest, k);
      CompatibleArea(g, rest, k);
      FreeIffNoClash(g, board, rest, last);
      PutTakesArea(g, board, last, k);
      PutStaysWithin(g, board, last);
      BoardOfLast(spots, k);
    }
  }

  lemma {:induction false} EmptyArea(g: Grid, board: Board, n: nat)
    requires n <= |board| && forall s :: 0 <= s < |board| ==> board[s] == {}
    ensures FreeAreaBelow(g, board, n) == n * CellCount(g)
  {
    if n > 0 {
      EmptyArea(g, board, n - 1);
      assert n * CellCount(g) == (n - 1) * CellCount(g) + CellCount(g);
    }
  }

  /** Conservation of area: compatible spots tile k screens exactly when their weights add
      up to all the cells there are. */
  lemma TiledIffAreaFits(g: Grid, spots: seq<Spot>, k: nat)
    requires Supported(g) && k >= 1 && AllLegal(g, k, spots) && Compatible(spots)
    ensures Tiled(g, k, spots) <==> TotalWeight(spots, k) == k * CellCount(g)
  {
    var board := BoardOf(spots, k);
    CompatibleArea(g, spots, k);
    FreeAreaOfSubset(g, board, k);
  }
}
