/**
  Which tiling the solver finds, stated without the solver.

  A filling lays the unpinned widgets one after the other, each at the first free cell of the first
  screen that is not full, and takes widgets of the same shape in configuration order. Among all
  fillings of a board the first in configuration order is the one whose list of widgets is smallest,
  and the first by size the one that prefers larger shapes.
 */
module Fillings {
  import opened Grid
  import opened Board
  import opened Search
  import opened Tilings

  datatype UnpinnedPlacement = UnpinnedPlacement(screen: int, col: int, row: int, widget: WidgetInput, order: int)

  function SpotOf(p: UnpinnedPlacement): Spot {
    On(p.screen, Rect(p.col, p.row, p.widget.dims.cols, p.widget.dims.rows))
  }

  /** The spot starts at the first free cell of the first screen that is not full, and it fits there. */
  ghost predicate IsNextSpot(g: Grid, board: Board, sp: Spot) {
    && sp.On? && 0 <= sp.screen < |board| && (forall s :: 0 <= s < sp.screen ==> board[s] == AllCells(g))
    && IsFirstFree(g, board[sp.screen], Cell(sp.rect.col, sp.rect.row))
    && InBounds(g, sp.rect) && board[sp.screen] !! RectCells(sp.rect)
  }

  lemma NextSpotIsUnique(g: Grid, board: Board, a: Spot, b: Spot)
    requires IsNextSpot(g, board, a) && IsNextSpot(g, board, b) && DimensionOf(a.rect) == DimensionOf(b.rect)
    ensures a == b
  {
    hide AllCells, RectCells;
    assert board[a.screen] != AllCells(g) && board[b.screen] != AllCells(g);
    FirstFreeIsUnique(g, board[a.screen], Cell(a.rect.col, a.rect.row), Cell(b.rect.col, b.rect.row));
  }

  /** The widget is not used yet, and all before it of the same shape are. */
  predicate IsNext(ws: seq<WidgetInput>, used: set<int>, o: int) {
    && 0 <= o < |ws| && o !in used
    && forall i :: 0 <= i < o && ws[i].dims == ws[o].dims ==> i in used
  }

  ghost predicate Fills(g: Grid, board: Board, ws: seq<WidgetInput>, used: set<int>, up: seq<UnpinnedPlacement>)
    decreases |up|
  {
    if up == [] then Full(g, board) && forall o :: 0 <= o < |ws| ==> o in used
    else
      && IsNext(ws, used, up[0].order) && up[0].widget == ws[up[0].order] && IsNextSpot(g, board, SpotOf(up[0]))
      && Fills(g, Put(board, SpotOf(up[0])), ws, used + {up[0].order}, up[1..])
  }

  predicate IsLarger(a: Dimension, b: Dimension) {
    a.cols * a.rows > b.cols * b.rows || (a.cols * a.rows == b.cols * b.rows && a.rows > b.rows)
  }

  /** Where two fillings first use different widgets, the one of the first filling is preferred. */
  predicate NotAfter(ws: seq<WidgetInput>, bySize: bool, a: seq<UnpinnedPlacement>, b: seq<UnpinnedPlacement>)
    decreases |a|
  {
    || a == b
    || (&& a != [] && b != []
        && if a[0].order == b[0].order then NotAfter(ws, bySize, a[1..], b[1..])
           else if bySize then IsLarger(a[0].widget.dims, b[0].widget.dims)
           else a[0].order < b[0].order)
  }

  ghost predicate IsFirstFilling(g: Grid, board: Board, ws: seq<WidgetInput>, used: set<int>, bySize: bool, up: seq<UnpinnedPlacement>) {
    Fills(g, board, ws, used, up) && forall vp :: Fills(g, board, ws, used, vp) ==> NotAfter(ws, bySize, up, vp)
  }

  // ----- the sequence in configuration order

  /** The placements are of the widgets n, n + 1 and so on. */
  predicate InTurn(up: seq<UnpinnedPlacement>, n: int) {
    forall j :: 0 <= j < |up| ==> up[j].order == n + j
  }

  /** Laying the remaining widgets in configuration order fits every time. */
  ghost predicate FitsInTurn(g: Grid, board: Board, ws: seq<WidgetInput>, used: set<int>, n: int) {
    exists up :: Fills(g, board, ws, used, up) && InTurn(up, n)
  }

  /** If the widgets fit in turn, that is the first filling in configuration order. */
  lemma {:induction false} InTurnIsFirst(g: Grid, board: Board, ws: seq<WidgetInput>, used: set<int>, n: nat,
                                         up: seq<UnpinnedPlacement>, vp: seq<UnpinnedPlacement>)
    requires (forall o :: 0 <= o < n ==> o in used)
    requires Fills(g, board, ws, used, up) && Fills(g, board, ws, used, vp) && NotAfter(ws, false, up, vp) && InTurn(vp, n)
    ensures up == vp
    decreases |up|
  {
    hide IsNextSpot, Full, Put;
    if up != [] && vp != [] {
      assert up[0].order == vp[0].order;
      SameSpotSamePlacement(g, board, up[0], vp[0], ws);
      forall j | 0 <= j < |vp[1..]| ensures vp[1..][j].order == n + 1 + j {
        assert vp[1..][j] == vp[j + 1];
      }
      InTurnIsFirst(g, Put(board, SpotOf(up[0])), ws, used + {up[0].order}, n + 1, up[1..], vp[1..]);
      assert up == [up[0]] + up[1..] && vp == [vp[0]] + vp[1..];
    }
  }

  lemma SameSpotSamePlacement(g: Grid, board: Board, a: UnpinnedPlacement, b: UnpinnedPlacement, ws: seq<WidgetInput>)
    requires IsNextSpot(g, board, SpotOf(a)) && IsNextSpot(g, board, SpotOf(b)) && a.order == b.order
    requires 0 <= a.order < |ws| && a.widget == ws[a.order] && b.widget == ws[b.order]
    ensures a == b
  {
    NextSpotIsUnique(g, board, SpotOf(a), SpotOf(b));
  }

  // ----- pinned widgets

  /** Origin a comes before origin b when a screen is read row by row. */
  predicate ReadsEarlier(a: Spot, b: Spot) {
    a.rect.row < b.rect.row || (a.rect.row == b.rect.row && a.rect.col < b.rect.col)
  }

  function PutAll(board: Board, spots: seq<Spot>): Board
    decreases |spots|
  {
    if spots == [] then board else PutAll(Put(board, spots[0]), spots[1..])
  }

  /** Each pinned widget is at the first origin, in reading order, from which the rest can be completed. */
  ghost predicate AreFirstPins(g: Grid, board: Board, dims: seq<Dimension>, demands: seq<Demand>, spots: seq<Spot>)
    decreases |dims|
  {
    if dims == [] then spots == []
    else
      && spots != [] && spots[0] == PinnedAt(spots[0].rect.col, spots[0].rect.row, dims[0])
      && InBounds(g, spots[0].rect) && Free(board, spots[0])
      && (forall c, r :: ReadsEarlier(PinnedAt(c, r, dims[0]), spots[0]) ==> !PinBranches(g, board, dims, demands, c, r))
      && AreFirstPins(g, Put(board, spots[0]), dims[1..], demands, spots[1..])
  }

  /** Each pinned widget is at the first free origin, in reading order. */
  ghost predicate PinInTurn(g: Grid, board: Board, dims: seq<Dimension>, spots: seq<Spot>)
    decreases |dims|
  {
    if dims == [] then spots == []
    else
      && spots != [] && spots[0] == PinnedAt(spots[0].rect.col, spots[0].rect.row, dims[0])
      && InBounds(g, spots[0].rect) && Free(board, spots[0])
      && (forall c, r :: InBounds(g, PinnedAt(c, r, dims[0]).rect) && ReadsEarlier(PinnedAt(c, r, dims[0]), spots[0]) ==>
            !Free(board, PinnedAt(c, r, dims[0])))
      && PinInTurn(g, Put(board, spots[0]), dims[1..], spots[1..])
  }

  /** No list of pinned spots that can be completed has an earlier origin where they first differ. */
  lemma {:induction false} FirstPinsComeFirst(g: Grid, board: Board, dims: seq<Dimension>, demands: seq<Demand>, spots: seq<Spot>,
                                              other: seq<Spot>, i: nat)
    requires AreFirstPins(g, board, dims, demands, spots) && PinnedCompletion(g, board, dims, demands, other)
    requires i < |dims| && i < |spots| && i < |other| && spots[..i] == other[..i]
    ensures !ReadsEarlier(other[i], spots[i])
    decreases i
  {
    hide Completable, Free, Put, InBounds;
    if i == 0 {
      assert PinBranches(g, board, dims, demands, other[0].rect.col, other[0].rect.row);
    } else {
      assert spots[0] == spots[..i][0] == other[..i][0] == other[0];
      assert spots[1..][..i - 1] == spots[..i][1..] && other[1..][..i - 1] == other[..i][1..];
      FirstPinsComeFirst(g, Put(board, spots[0]), dims[1..], demands, spots[1..], other[1..], i - 1);
    }
  }
}
