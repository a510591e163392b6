/**
  The backtracking grid solver.

  `GridSolver` holds the state the search changes in place: the taken cells of each screen,
  how many widgets of each shape are left, the placements made so far and the node count.
  Every step keeps `Consistent`; a failing branch restores what it found.
 */
module Solver {
  import opened Grid
  import opened Board
  import opened Search
  import opened Tilings
  import opened Fillings
  import opened Groups
  import opened Choices
  import opened Sorting

  const DEFAULT_MAX_SEARCH_NODES := 100_000
  const SEQUENTIAL_PASS_NODES := 512

  datatype PlacedWidget = PlacedWidget(id: string, kind: string, col: int, row: int, dims: Dimension, pinned: bool)

  // ----- what is left to place

  function Left(demands: seq<Demand>): int {
    if demands == [] then 0 else Left(demands[..|demands| - 1]) + demands[|demands| - 1].count
  }

  function LeftArea(demands: seq<Demand>): int {
    if demands == [] then 0
    else
      var last := demands[|demands| - 1];
      LeftArea(demands[..|demands| - 1]) + last.count * Area(last.dims)
  }

  lemma {:induction false} UseOne(demands: seq<Demand>, i: nat)
    requires i < |demands|
    ensures Left(Use(demands, i)) == Left(demands) - 1
    ensures LeftArea(Use(demands, i)) == LeftArea(demands) - Area(demands[i].dims)
  {
    var n := |demands| - 1;
    var used := Use(demands, i);
    if i == n {
      assert used[..n] == demands[..n];
      var a := Area(demands[n].dims);
      assert (demands[n].count - 1) * a == demands[n].count * a - a;
    } else {
      UseOne(demands[..n], i);
      assert used[..n] == Use(demands[..n], i);
    }
  }

  lemma {:induction false} NothingLeft(demands: seq<Demand>)
    requires forall i :: 0 <= i < |demands| ==> demands[i].count >= 0 && Area(demands[i].dims) >= 1
    ensures LeftArea(demands) >= Left(demands) >= 0
    ensures LeftArea(demands) == 0 <==> Left(demands) == 0
  {
    if demands != [] {
      var last := demands[|demands| - 1];
      NothingLeft(demands[..|demands| - 1]);
      assert last.count * Area(last.dims) >= last.count;
    }
  }

  // ----- what has been placed

  function PinnedSpots(pp: seq<PlacedWidget>): (spots: seq<Spot>)
    ensures |spots| == |pp|
    ensures forall i :: 0 <= i < |pp| ==> spots[i] == Pinned(Rect(pp[i].col, pp[i].row, pp[i].dims.cols, pp[i].dims.rows))
  {
    seq(|pp|, i requires 0 <= i < |pp| => Pinned(Rect(pp[i].col, pp[i].row, pp[i].dims.cols, pp[i].dims.rows)))
  }

  function UnpinnedSpots(up: seq<UnpinnedPlacement>): (spots: seq<Spot>)
    ensures |spots| == |up|
    ensures forall i :: 0 <= i < |up| ==> spots[i] == SpotOf(up[i])
  {
    seq(|up|, i requires 0 <= i < |up| => SpotOf(up[i]))
  }

  /** Each pinned placement made so far is the placement of the pinned widget of the same index. */
  predicate PinnedOk(pinned: seq<WidgetInput>, pp: seq<PlacedWidget>) {
    && |pp| <= |pinned|
    && forall i :: 0 <= i < |pp| ==> pp[i] == PlacedWidget(pinned[i].id, pinned[i].kind, pp[i].col, pp[i].row, pinned[i].dims, true)
  }

  /** Each unpinned placement is of a different widget, one its group has already handed out. */
  predicate UnpinnedOk(unpinned: seq<WidgetInput>, groups: seq<ShapeGroup>, up: seq<UnpinnedPlacement>) {
    && (forall j :: 0 <= j < |up| ==> 0 <= up[j].order < |unpinned| && up[j].widget == unpinned[up[j].order])
    && (forall j, i :: 0 <= j < |up| && 0 <= i < |groups| && groups[i].dims == up[j].widget.dims ==>
          up[j].order < NextFree(groups[i], |unpinned|))
    && (forall i, j :: 0 <= i < j < |up| ==> up[i].order != up[j].order)
  }

  /** The board is exactly the given spots, which do not clash. */
  ghost predicate OnBoard(g: Grid, board: Board, spots: seq<Spot>) {
    && |board| >= 1 && Within(g, board)
    && Tracks(board, spots) && AllLegal(g, |board|, spots) && Compatible(spots)
  }

  /** The free area is exactly the area of the widgets still to be placed. */
  ghost predicate Balanced(g: Grid, board: Board, demands: seq<Demand>, pinnedLeft: seq<WidgetInput>) {
    FreeArea(g, board) == LeftArea(demands) + |board| * AreaOf(pinnedLeft, true)
  }

  function Spots(pp: seq<PlacedWidget>, up: seq<UnpinnedPlacement>): seq<Spot> {
    PinnedSpots(pp) + UnpinnedSpots(up)
  }

  ghost predicate Consistent(g: Grid, pinned: seq<WidgetInput>, unpinned: seq<WidgetInput>, groups: seq<ShapeGroup>,
                             board: Board, pp: seq<PlacedWidget>, up: seq<UnpinnedPlacement>)
  {
    && Supported(g) && GroupsOk(g, unpinned, groups) && PinnedOk(pinned, pp) && UnpinnedOk(unpinned, groups, up)
    && OnBoard(g, board, Spots(pp, up))
    && Balanced(g, board, DemandsOf(groups), pinned[|pp|..])
    && |up| + Left(DemandsOf(groups)) == |unpinned|
  }

  /** Putting one more spot on free cells keeps the board in step and takes its weight. */
  lemma PutKeepsOnBoard(g: Grid, board: Board, spots: seq<Spot>, sp: Spot)
    requires OnBoard(g, board, spots) && Legal(g, |board|, sp) && Free(board, sp)
    ensures OnBoard(g, Put(board, sp), spots + [sp])
    ensures FreeArea(g, Put(board, sp)) == FreeArea(g, board) - WeightBelow(sp, |board|)
  {
    PutKeepsCompatible(g, board, spots, sp);
    PutStaysWithin(g, board, sp);
    PutTakesArea(g, board, sp, |board|);
  }

  lemma TakeKeepsPlacements(g: Grid, unpinned: seq<WidgetInput>, groups: seq<ShapeGroup>, up: seq<UnpinnedPlacement>,
                            i: nat, screen: int, cell: Cell)
    requires GroupsOk(g, unpinned, groups) && UnpinnedOk(unpinned, groups, up)
    requires i < |groups| && groups[i].count > 0
    ensures GroupsOk(g, unpinned, TakeFrom(groups, i))
    ensures UnpinnedOk(unpinned, TakeFrom(groups, i), up + [PlacementOf(groups, i, screen, cell)])
  {
    var p, groups', up' := PlacementOf(groups, i, screen, cell), TakeFrom(groups, i), up + [PlacementOf(groups, i, screen, cell)];
    assert p.order == NextFree(groups[i], |unpinned|) < NextFree(groups'[i], |unpinned|);
    assert p.widget.dims == groups[i].dims;
    forall a | 0 <= a < |groups'| && a != i ensures groups'[a].dims != groups[i].dims {
      assert DemandsOf(groups)[a].dims != DemandsOf(groups)[i].dims;
    }
    forall a, b | 0 <= a < b < |groups'| ensures DemandsOf(groups')[a].dims != DemandsOf(groups')[b].dims {
      assert DemandsOf(groups)[a].dims != DemandsOf(groups)[b].dims;
    }
    forall j | 0 <= j < |up| ensures up[j].order != p.order {
      assert groups[i].dims == up[j].widget.dims ==> up[j].order < p.order;
    }
  }

  /** Placing a widget of a shape keeps the state consistent. */
  lemma PlaceKeepsConsistent(g: Grid, pinned: seq<WidgetInput>, unpinned: seq<WidgetInput>, groups: seq<ShapeGroup>,
                             board: Board, pp: seq<PlacedWidget>, up: seq<UnpinnedPlacement>, i: nat, screen: int, cell: Cell)
    requires Consistent(g, pinned, unpinned, groups, board, pp, up)
    requires i < |groups| && groups[i].count > 0
    requires Legal(g, |board|, TileAt(screen, cell, groups[i].dims)) && Free(board, TileAt(screen, cell, groups[i].dims))
    ensures Consistent(g, pinned, unpinned, TakeFrom(groups, i), Put(board, TileAt(screen, cell, groups[i].dims)), pp,
                       up + [PlacementOf(groups, i, screen, cell)])
    ensures DemandsOf(TakeFrom(groups, i)) == Use(DemandsOf(groups), i)
  {
    hide Put, Left, LeftArea, FreeArea, AreaOf, Free, Compatible, Within, Tracks;
    var tile := TileAt(screen, cell, groups[i].dims);
    var p := PlacementOf(groups, i, screen, cell);
    TakeKeepsPlacements(g, unpinned, groups, up, i, screen, cell);
    assert SpotOf(p) == tile;
    assert Spots(pp, up + [p]) == Spots(pp, up) + [tile];
    PutKeepsOnBoard(g, board, Spots(pp, up), tile);
    Weight(tile, |board|);
    assert DemandsOf(TakeFrom(groups, i)) == Use(DemandsOf(groups), i);
    UseOne(DemandsOf(groups), i);
  }

  function PinnedPlacementOf(w: WidgetInput, col: int, row: int): PlacedWidget {
    PlacedWidget(w.id, w.kind, col, row, w.dims, true)
  }

  lemma {:induction false} AreaOfFirst(ws: seq<WidgetInput>, pinned: bool)
    requires ws != []
    ensures AreaOf(ws, pinned) == AreaOf(ws[1..], pinned) + if ws[0].pinned == pinned then Area(ws[0].dims) else 0
  {
    if |ws| > 1 {
      AreaOfFirst(ws[..|ws| - 1], pinned);
      assert ws[..|ws| - 1][1..] == ws[1..][..|ws| - 2];
    }
  }

  /** Placing a pinned widget on every screen keeps the state consistent. */
  lemma PinKeepsConsistent(g: Grid, pinned: seq<WidgetInput>, unpinned: seq<WidgetInput>, groups: seq<ShapeGroup>,
                           board: Board, pp: seq<PlacedWidget>, col: int, row: int)
    requires Consistent(g, pinned, unpinned, groups, board, pp, []) && |pp| < |pinned| && pinned[|pp|].pinned
    requires InBounds(g, PinnedAt(col, row, pinned[|pp|].dims).rect) && Free(board, PinnedAt(col, row, pinned[|pp|].dims))
    ensures Consistent(g, pinned, unpinned, groups, Put(board, PinnedAt(col, row, pinned[|pp|].dims)),
                       pp + [PinnedPlacementOf(pinned[|pp|], col, row)], [])
  {
    hide Put, LeftArea, FreeArea, Free, OnBoard, InBounds, AreaOf, Area, GroupsOk, UnpinnedOk, Left, DemandsOf, Spots;
    var n := |pp|;
    var sp, p := PinnedAt(col, row, pinned[n].dims), PinnedPlacementOf(pinned[n], col, row);
    PinnedSpotAdded(pp, p, sp);
    PutKeepsOnBoard(g, board, Spots(pp, []), sp);
    Weight(sp, |board|);
    AreaOfFirst(pinned[n..], true);
    assert pinned[n..][1..] == pinned[n + 1..];
    Distribute(|board|, AreaOf(pinned[n + 1..], true), Area(pinned[n].dims));
  }

  lemma PinnedSpotAdded(pp: seq<PlacedWidget>, p: PlacedWidget, sp: Spot)
    requires sp == PinnedAt(p.col, p.row, p.dims)
    ensures Spots(pp + [p], []) == Spots(pp, []) + [sp]
  {}

  lemma Distribute(n: int, a: int, b: int)
    ensures n * (a + b) == n * a + n * b
  {}

  /** What the search steps use of a consistent state. */
  lemma ConsistentFacts(g: Grid, pinned: seq<WidgetInput>, unpinned: seq<WidgetInput>, groups: seq<ShapeGroup>,
                        board: Board, pp: seq<PlacedWidget>, up: seq<UnpinnedPlacement>)
    requires Consistent(g, pinned, unpinned, groups, board, pp, up)
    ensures Supported(g) && |board| >= 1 && Within(g, board) && DistinctShapes(DemandsOf(groups))
    ensures forall i :: 0 <= i < |groups| ==> GroupOk(g, unpinned, groups[i])
    ensures GroupsOk(g, unpinned, groups) && Left(DemandsOf(groups)) == |unpinned| - |up|
  {}

  // ----- how many nodes the search can visit

  /** Nodes below a node with widgets left, for each shape tried there. */
  function BranchBound(shapes: nat, left: int): (n: nat)
    decreases if left < 0 then 0 else left, 0
  {
    if left <= 0 then 0 else NodeBound(shapes, left - 1)
  }

  /** Nodes the exact cover search visits at most: it tries every shape and has one widget less to place. */
  function NodeBound(shapes: nat, left: int): (n: nat)
    decreases if left < 0 then 0 else left, 1
  {
    1 + shapes * BranchBound(shapes, left)
  }

  lemma BranchIsNode(shapes: nat, left: int)
    ensures left > 0 ==> BranchBound(shapes, left) == NodeBound(shapes, left - 1)
  {
    hide NodeBound;
  }

  /** Every pinned widget multiplies the nodes by the number of its origins at most. */
  function PinBound(cells: nat, pins: nat, below: nat): (n: nat) {
    if pins == 0 then below else cells * PinBound(cells, pins - 1, below)
  }

  lemma OnePinMore(cells: nat, pins: nat, below: nat)
    ensures pins > 0 ==> PinBound(cells, pins, below) == cells * PinBound(cells, pins - 1, below)
  {}

  lemma Times(i: nat, n: nat, b: nat)
    requires i <= n
    ensures i * b <= n * b && (i + 1) * b == i * b + b
  {}

  /** Nodes for the first r rows of origins and c more. */
  function Cost(r: nat, c: nat, cols: nat, b: nat): nat {
    (r * cols + c) * b
  }

  lemma NoCost(cols: nat, b: nat)
    ensures Cost(0, 0, cols, b) == 0
  {}

  /** Nodes for the first c origins of a row. */
  function RowCost(c: nat, b: nat): nat {
    c * b
  }

  lemma RowCosts(c: nat, cols: nat, b: nat)
    requires c <= cols
    ensures RowCost(0, b) == 0 && RowCost(c + 1, b) == RowCost(c, b) + b && RowCost(c, b) <= RowCost(cols, b)
    ensures c < cols ==> RowCost(c + 1, b) <= RowCost(cols, b)
  {
    Times(c, cols, b);
    if c < cols {
      Times(c + 1, cols, b);
    }
  }

  lemma OneRowCost(r: nat, cols: nat, rows: nat, b: nat)
    requires r < rows
    ensures Cost(r + 1, 0, cols, b) == Cost(r, 0, cols, b) + RowCost(cols, b) && Cost(r + 1, 0, cols, b) <= (cols * rows) * b
  {
    assert r * cols + cols == (r + 1) * cols;
    assert (r * cols + cols) * b == (r * cols) * b + cols * b;
    AllRowsDone(r + 1, cols, rows, b);
  }

  lemma AllRowsDone(r: nat, cols: nat, rows: nat, b: nat)
    requires r <= rows
    ensures Cost(r, 0, cols, b) <= (cols * rows) * b
  {
    Times(r, rows, cols);
    Times(r * cols, cols * rows, b);
  }

  // ----- the search

  /** While all screens look the same, the first one tells whether a pinned spot is free. */
  lemma FreeOnAll(board: Board, sp: Spot)
    requires |board| >= 1 && Uniform(board) && sp.Pinned?
    ensures Free(board, sp) <==> board[0] !! RectCells(sp.rect)
  {}

  /** The groups with a widget left, sorted by its configuration order, are the candidates of the first pass. */
  lemma SortedCandidates(groups: seq<ShapeGroup>, all: seq<nat>)
    requires |all| <= |groups| && forall j :: 0 <= j < |all| ==> all[j] < |groups| && groups[all[j]].count > 0
    requires forall i: nat :: i < |groups| && groups[i].count > 0 ==> i in all
    ensures IsCandidateOrder(groups, Sort(all, (a: nat, b: nat) => OrderKey(groups, a) < OrderKey(groups, b)), false)
  {
    hide Sort, OrderKey;
    var before := (a: nat, b: nat) => OrderKey(groups, a) < OrderKey(groups, b);
    var order := Sort(all, before);
    SortSorts(all, before);
    forall x ensures x in order <==> x in all { SameElements(order, all, x); }
    forall j | 0 <= j < |order| ensures order[j] < |groups| && groups[order[j]].count > 0 {
      assert order[j] in all;
    }
    forall i, j | 0 <= i < j < |order| ensures OrderKey(groups, order[i]) <= OrderKey(groups, order[j]) {
      assert !before(order[j], order[i]);
    }
  }

  predicate AllPinned(g: Grid, pinned: seq<WidgetInput>) {
    forall i :: 0 <= i < |pinned| ==> pinned[i].pinned && ValidDimension(g, pinned[i].dims)
  }

  lemma PinnedAtIndex(g: Grid, pinned: seq<WidgetInput>, i: nat)
    requires AllPinned(g, pinned) && i < |pinned|
    ensures pinned[i].pinned && ValidDimension(g, pinned[i].dims)
  {}

  class GridSolver {
    const g: Grid
    const pinned: seq<WidgetInput>
    const unpinned: seq<WidgetInput>
    var maxSearchNodes: int
    var shapeGroups: seq<ShapeGroup>
    var board: Board
    var pinnedPlacements: seq<PlacedWidget>
    var unpinnedPlacements: seq<UnpinnedPlacement>
    var placedCount: nat
    var nodeCount: int
    var orderByConfig: bool

    constructor (g: Grid, maxSearchNodes: int, k: nat, pinned: seq<WidgetInput>, unpinned: seq<WidgetInput>, groups: seq<ShapeGroup>)
      requires Consistent(g, pinned, unpinned, groups, EmptyBoard(k), [], []) && BySize(groups) && Listed(unpinned, groups)
      requires AllPinned(g, pinned)
      ensures Valid(0) && placedCount == 0 && board == EmptyBoard(k) && shapeGroups == groups
      ensures this.g == g && this.pinned == pinned && this.unpinned == unpinned
      ensures this.maxSearchNodes == maxSearchNodes && nodeCount == 0
    {
      this.g, this.pinned, this.unpinned := g, pinned, unpinned;
      this.maxSearchNodes, shapeGroups, board := maxSearchNodes, groups, EmptyBoard(k);
      var blank := WidgetInput("", "", Dimension(0, 0), false);
      pinnedPlacements := seq(|pinned|, i => PinnedPlacementOf(blank, 0, 0));
      unpinnedPlacements := seq(|unpinned|, i => UnpinnedPlacement(0, 0, 0, blank, 0));
      placedCount, nodeCount, orderByConfig := 0, 0, false;
    }

    ghost function Demands(): seq<Demand>
      reads this
    {
      DemandsOf(shapeGroups)
    }

    /** The state is consistent and the first p pinned widgets are placed. */
    ghost predicate Valid(p: nat)
      reads this
    {
      && p <= |pinnedPlacements| == |pinned| && placedCount <= |unpinnedPlacements| == |unpinned| && BySize(shapeGroups)
      && Listed(unpinned, shapeGroups)
      && AllPinned(g, pinned)
      && Consistent(g, pinned, unpinned, shapeGroups, board, pinnedPlacements[..p], unpinnedPlacements[..placedCount])
    }

    /** The widgets not placed yet fit one after the other in configuration order. */
    ghost predicate Straight()
      reads this
    {
      FitsInTurn(g, board, unpinned, Used(unpinned, shapeGroups), placedCount)
    }

    ghost predicate StraightVia(i: nat, target: int, cell: Cell)
      reads this
    {
      i < |shapeGroups| && LeadsOn(g, board, unpinned, shapeGroups, i, target, cell, placedCount + 1)
    }

    /** Nodes both passes over the unpinned widgets visit at most. */
    ghost function UnpinnedBound(): nat
      reads this
    {
      2 * NodeBound(|shapeGroups|, Left(Demands()))
    }

    /** Where the pinned widgets from p on are. */
    ghost function Pins(p: nat): seq<Spot>
      reads this
    {
      if p <= |pinnedPlacements| then PinnedSpots(pinnedPlacements[p..]) else []
    }

    /** All goes straight from pinned widget p on. */
    ghost predicate Ahead(p: nat, want: seq<Spot>)
      reads this
    {
      StraightPins(g, board, pinned, p, unpinned, shapeGroups, nodeCount, maxSearchNodes, want)
    }

    /** The unpinned placements made so far. */
    ghost function Made(): seq<UnpinnedPlacement>
      reads this
    {
      if placedCount <= |unpinnedPlacements| then unpinnedPlacements[..placedCount] else []
    }

    /** The first screen with a free cell, or -1. */
    method FirstIncompleteScreen() returns (s: int)
      ensures -1 <= s < |board|
      ensures s == -1 <==> Full(g, board)
      ensures s >= 0 ==> board[s] != AllCells(g) && forall i :: 0 <= i < s ==> board[i] == AllCells(g)
    {
      for i := 0 to |board|
        invariant forall j :: 0 <= j < i ==> board[j] == AllCells(g)
      {
        if board[i] != AllCells(g) {
          return i;
        }
      }
      return -1;
    }

    /** The shape groups in the order this pass tries them. */
    method CandidateOrder() returns (order: seq<nat>)
      requires BySize(shapeGroups)
      ensures IsCandidateOrder(shapeGroups, order, !orderByConfig)
    {
      hide GroupBefore, OrderKey, Sort;
      order := [];
      for i := 0 to |shapeGroups|
        invariant |order| <= i && forall j :: 0 <= j < |order| ==> order[j] < i
        invariant forall x: nat :: x < i && shapeGroups[x].count > 0 ==> x in order
        invariant if orderByConfig then forall j :: 0 <= j < |order| ==> shapeGroups[order[j]].count > 0
                  else |order| == i && forall j :: 0 <= j < i ==> order[j] == j
      {
        if !orderByConfig || shapeGroups[i].count > 0 {
          order := order + [i];
        }
      }
      if orderByConfig {
        var groups := shapeGroups;
        SortedCandidates(groups, order);
        order := Sort(order, (a: nat, b: nat) => OrderKey(groups, a) < OrderKey(groups, b));
      }
    }

    method PlaceUnpinnedExactCover() returns (ok: bool)
      requires Valid(|pinned|)
      modifies this`nodeCount, this`board, this`shapeGroups, this`unpinnedPlacements, this`placedCount
      ensures Valid(|pinned|) && nodeCount > old(nodeCount)
      ensures ok ==> Full(g, board)
      ensures |board| == old(|board|) && |shapeGroups| == old(|shapeGroups|)
      ensures nodeCount <= old(nodeCount) + NodeBound(|shapeGroups|, old(Left(Demands())))
      ensures ok ==> old(nodeCount) + 1 + old(Left(Demands())) <= nodeCount <= maxSearchNodes
      ensures !ok ==> board == old(board) && shapeGroups == old(shapeGroups) && placedCount == old(placedCount)
      ensures placedCount >= old(placedCount) && unpinnedPlacements[..old(placedCount)] == old(unpinnedPlacements[..placedCount])
      ensures !ok && nodeCount <= maxSearchNodes ==> !Completable(g, board, Demands())
      ensures ok ==> IsFirstFilling(g, old(board), unpinned, old(Used(unpinned, shapeGroups)), !orderByConfig,
                                    unpinnedPlacements[old(placedCount)..placedCount])
      ensures old(orderByConfig && Straight() && nodeCount + 1 + Left(Demands()) <= maxSearchNodes) ==> ok
      decreases Left(Demands()), 2
    {
      hide Consistent, Completable, Branches, Left, AllCells, BranchBound, BySize, GroupBefore, Listed, Used, IsFirstFilling, FitsInTurn,
        IsCandidateOrder;
      ConsistentFacts(g, pinned, unpinned, shapeGroups, board, pinnedPlacements[..|pinned|], unpinnedPlacements[..placedCount]);
      nodeCount := nodeCount + 1;
      if nodeCount > maxSearchNodes {
        return false;
      }
      var target := FirstIncompleteScreen();
      if target == -1 {
        NothingLeftMeansFull(g, pinned, unpinned, shapeGroups, board, pinnedPlacements[..|pinned|], unpinnedPlacements[..placedCount]);
        AllPlaced(g, pinned, unpinned, shapeGroups, board, pinnedPlacements[..|pinned|], unpinnedPlacements[..placedCount]);
        AllHandedOut(g, pinned, unpinned, shapeGroups, board, pinnedPlacements[..|pinned|], unpinnedPlacements[..placedCount]);
        FullIsFirst(g, board, unpinned, Used(unpinned, shapeGroups), !orderByConfig);
        assert unpinnedPlacements[placedCount..placedCount] == [];
        return true;
      }
      var cell := FirstFree(g, board[target]);
      var order := CandidateOrder();
      ok := TryCandidates(order, target, cell);
    }

    /** Tries the shapes in the given order at the first free cell. */
    method TryCandidates(order: seq<nat>, target: nat, cell: Cell) returns (ok: bool)
      requires Valid(|pinned|) && StandsAt(g, board, target, cell) && IsCandidateOrder(shapeGroups, order, !orderByConfig)
      modifies this`nodeCount, this`board, this`shapeGroups, this`unpinnedPlacements, this`placedCount
      ensures Valid(|pinned|) && nodeCount >= old(nodeCount)
      ensures ok ==> Full(g, board)
      ensures |board| == old(|board|) && |shapeGroups| == old(|shapeGroups|)
      ensures nodeCount <= old(nodeCount) + |shapeGroups| * BranchBound(|shapeGroups|, old(Left(Demands())))
      ensures ok ==> old(nodeCount) + old(Left(Demands())) <= nodeCount <= maxSearchNodes
      ensures !ok ==> board == old(board) && shapeGroups == old(shapeGroups) && placedCount == old(placedCount)
      ensures placedCount >= old(placedCount) && unpinnedPlacements[..old(placedCount)] == old(unpinnedPlacements[..placedCount])
      ensures !ok && nodeCount <= maxSearchNodes ==> !Completable(g, board, Demands())
      ensures ok ==> IsFirstFilling(g, old(board), unpinned, old(Used(unpinned, shapeGroups)), !orderByConfig,
                                    unpinnedPlacements[old(placedCount)..placedCount])
      ensures old(orderByConfig && Straight() && nodeCount + Left(Demands()) <= maxSearchNodes) ==> ok
      decreases Left(Demands()), 1
    {
      hide Consistent, Completable, Branches, Left, AllCells, BranchBound, BySize, GroupBefore, Listed, Used, IsFirstFilling, FitsInTurn,
        InPassOrder, FoundBehind, LeadsOn, GroupsOk, StandsAt, Full;
      ConsistentFacts(g, pinned, unpinned, shapeGroups, board, pinnedPlacements[..|pinned|], unpinnedPlacements[..placedCount]);
      ghost var straight := orderByConfig && Straight() && nodeCount + Left(Demands()) <= maxSearchNodes;
      if straight {
        StraightOn(g, board, unpinned, shapeGroups, order, target, cell, placedCount);
      }
      ghost var below := BranchBound(|shapeGroups|, Left(Demands()));
      Times(0, |shapeGroups|, below);
      for i := 0 to |order|
        invariant Valid(|pinned|) && old(nodeCount) <= nodeCount <= old(nodeCount) + i * below
        invariant board == old(board) && shapeGroups == old(shapeGroups) && placedCount == old(placedCount)
        invariant unpinnedPlacements[..placedCount] == old(unpinnedPlacements[..placedCount])
        invariant straight ==> i == 0
        invariant nodeCount <= maxSearchNodes ==>
                    forall j :: 0 <= j < i ==> !Branches(g, board, Demands(), target, cell, order[j])
      {
        ok := TryPlaceShapeGroup(order[i], target, cell);
        Times(i, |order|, below);
        Times(i + 1, |shapeGroups|, below);
        if ok {
          FirstAmongBranches(g, old(board), unpinned, old(shapeGroups), !orderByConfig, order, i, target, cell,
                             unpinnedPlacements[old(placedCount)..placedCount]);
          return true;
        }
      }
      Times(|order|, |shapeGroups|, below);
      if nodeCount <= maxSearchNodes {
        StandsFirst(g, board, target, cell);
        NoBranchNoCompletion(g, board, Demands(), target, cell, order);
      }
      return false;
    }

    method TryPlaceShapeGroup(i: nat, target: nat, cell: Cell) returns (ok: bool)
      requires Valid(|pinned|) && i < |shapeGroups| && StandsAt(g, board, target, cell)
      modifies this`nodeCount, this`board, this`shapeGroups, this`unpinnedPlacements, this`placedCount
      ensures Valid(|pinned|) && nodeCount >= old(nodeCount)
      ensures ok ==> Full(g, board)
      ensures |board| == old(|board|) && |shapeGroups| == old(|shapeGroups|)
      ensures nodeCount <= old(nodeCount) + BranchBound(|shapeGroups|, old(Left(Demands())))
      ensures ok ==> old(nodeCount) + old(Left(Demands())) <= nodeCount <= maxSearchNodes
      ensures !ok ==> board == old(board) && shapeGroups == old(shapeGroups) && placedCount == old(placedCount)
      ensures placedCount >= old(placedCount) && unpinnedPlacements[..old(placedCount)] == old(unpinnedPlacements[..placedCount])
      ensures !ok && nodeCount <= maxSearchNodes ==> !Branches(g, board, Demands(), target, cell, i)
      ensures ok ==> FoundBehind(g, old(board), unpinned, old(shapeGroups), !orderByConfig, i, target, cell,
                                 unpinnedPlacements[old(placedCount)..placedCount])
      ensures old(orderByConfig && StraightVia(i, target, cell) && nodeCount + Left(Demands()) <= maxSearchNodes) ==> ok
      decreases Left(Demands()), 0
    {
      hide Consistent, Completable, Left, LeftArea, NodeBound, BranchBound, BySize, GroupBefore, AllCells, RectCells, Listed, Used,
        IsFirstFilling, FitsInTurn, StandsAt, Takes, IsNextSpot, GroupsOk;
      ConsistentFacts(g, pinned, unpinned, shapeGroups, board, pinnedPlacements[..|pinned|], unpinnedPlacements[..placedCount]);
      var sg := shapeGroups[i];
      FitsAtCell(g, board, target, cell, sg.dims);
      if sg.count == 0 || cell.col + sg.dims.cols > g.cols || cell.row + sg.dims.rows > g.rows {
        return false;
      }
      var tile := TileAt(target, cell, sg.dims);
      if !(board[target] !! RectCells(tile.rect)) {
        return false;
      }
      TakesNext(g, board, unpinned, shapeGroups, i, target, cell);
      BranchIsNode(|shapeGroups|, Left(Demands()));
      PlaceOne(i, target, cell);
      ok := PlaceUnpinnedExactCover();
      if ok {
        assert unpinnedPlacements[..old(placedCount)] == unpinnedPlacements[..old(placedCount) + 1][..old(placedCount)];
        assert unpinnedPlacements[old(placedCount)] == unpinnedPlacements[..old(placedCount) + 1][old(placedCount)];
        assert unpinnedPlacements[old(placedCount)..placedCount][1..] == unpinnedPlacements[old(placedCount) + 1..placedCount];
        return true;
      }
      placedCount := placedCount - 1;
      shapeGroups := shapeGroups[i := shapeGroups[i].(count := shapeGroups[i].count + 1)];
      board := board[target := board[target] - RectCells(tile.rect)];
      assert board == old(board) by { LiftUndoesPut(old(board), tile); }
      assert shapeGroups == old(shapeGroups);
      assert unpinnedPlacements[..placedCount] == unpinnedPlacements[..placedCount + 1][..placedCount] == old(unpinnedPlacements[..placedCount]);
      return false;
    }

    /** Places the next widget of a shape on free cells. */
    method PlaceOne(i: nat, target: nat, cell: Cell)
      requires Valid(|pinned|) && i < |shapeGroups| && target < |board| && shapeGroups[i].count > 0
      requires Legal(g, |board|, TileAt(target, cell, shapeGroups[i].dims)) && Free(board, TileAt(target, cell, shapeGroups[i].dims))
      modifies this`board, this`shapeGroups, this`unpinnedPlacements, this`placedCount
      ensures Valid(|pinned|) && placedCount == old(placedCount) + 1
      ensures board == Put(old(board), TileAt(target, cell, old(shapeGroups[i]).dims)) && shapeGroups == TakeFrom(old(shapeGroups), i)
      ensures Demands() == Use(old(Demands()), i) && old(Left(Demands())) > 0 && Left(Demands()) == old(Left(Demands())) - 1
      ensures unpinnedPlacements[..old(placedCount)] == old(unpinnedPlacements[..placedCount])
      ensures unpinnedPlacements[old(placedCount)] == PlacementOf(old(shapeGroups), i, target, cell)
    {
      hide Consistent, Left, LeftArea, BySize, GroupBefore, AllCells, RectCells, Listed;
      ConsistentFacts(g, pinned, unpinned, shapeGroups, board, pinnedPlacements[..|pinned|], unpinnedPlacements[..placedCount]);
      ghost var up := unpinnedPlacements[..placedCount];
      var tile := TileAt(target, cell, shapeGroups[i].dims);
      PlaceKeepsConsistent(g, pinned, unpinned, shapeGroups, board, pinnedPlacements[..|pinned|], up, i, target, cell);
      UseOne(Demands(), i);
      AllPlacedFits(g, pinned, unpinned, shapeGroups, board, pinnedPlacements[..|pinned|], up, i);
      TakeKeepsSize(shapeGroups, i);
      TakeKeepsListed(unpinned, shapeGroups, i);
      ghost var put := Put(board, tile);
      board := board[target := board[target] + RectCells(tile.rect)];
      assert board == put;
      unpinnedPlacements := unpinnedPlacements[placedCount := PlacementOf(shapeGroups, i, target, cell)];
      shapeGroups := TakeFrom(shapeGroups, i);
      placedCount := placedCount + 1;
      assert unpinnedPlacements[..placedCount] == up + [PlacementOf(old(shapeGroups), i, target, cell)];
    }

    /** Adds a rectangle to every screen, or takes it away again. */
    method FillAllScreens(rect: Rect, add: bool)
      modifies this`board
      ensures board == if add then Put(old(board), Pinned(rect)) else Lift(old(board), Pinned(rect))
    {
      ghost var want := if add then Put(board, Pinned(rect)) else Lift(board, Pinned(rect));
      for s := 0 to |board|
        invariant |board| == old(|board|)
        invariant forall i :: 0 <= i < s ==> board[i] == want[i]
        invariant forall i :: s <= i < |board| ==> board[i] == old(board)[i]
      {
        board := board[s := if add then board[s] + RectCells(rect) else board[s] - RectCells(rect)];
      }
    }

    /** The unpinned widgets: a short pass in configuration order, then, only if that pass ran
        into its ceiling and budget is left, the full pass by size. */
    method PlaceUnpinnedInTwoPasses() returns (ok: bool)
      requires Valid(|pinned|)
      modifies this
      ensures Valid(|pinned|) && nodeCount >= old(nodeCount) && maxSearchNodes == old(maxSearchNodes)
      ensures pinnedPlacements == old(pinnedPlacements) && |board| == old(|board|)
      ensures nodeCount <= old(nodeCount) + 2 * NodeBound(old(|shapeGroups|), old(Left(Demands())))
      ensures ok ==> old(nodeCount) + 1 + old(Left(Demands())) <= nodeCount <= maxSearchNodes
      ensures ok ==> Full(g, board)
      ensures !ok ==> board == old(board) && shapeGroups == old(shapeGroups) && placedCount == old(placedCount)
      ensures placedCount >= old(placedCount) && unpinnedPlacements[..old(placedCount)] == old(unpinnedPlacements[..placedCount])
      ensures !ok && nodeCount < maxSearchNodes ==> !Completable(g, board, Demands())
      ensures ok ==> IsFirstFilling(g, old(board), unpinned, old(Used(unpinned, shapeGroups)), nodeCount > old(nodeCount) + 512,
                                    unpinnedPlacements[old(placedCount)..placedCount])
      ensures old(Straight() && Left(Demands()) < 512 && nodeCount + Left(Demands()) < maxSearchNodes) ==>
                ok && nodeCount <= old(nodeCount) + 512
    {
      hide Consistent, Completable, Full, NodeBound, Left, Used, IsFirstFilling, FitsInTurn, BySize, Listed;
      var origBudget := maxSearchNodes;
      var seqCeiling := nodeCount + Min(SEQUENTIAL_PASS_NODES, Max(0, origBudget - nodeCount));
      orderByConfig := true;
      maxSearchNodes := seqCeiling;
      ok := PlaceUnpinnedExactCover();
      if ok {
        maxSearchNodes := origBudget;
        return true;
      }
      var hitSeqCeiling := nodeCount > seqCeiling;
      orderByConfig := false;
      maxSearchNodes := origBudget;
      if !hitSeqCeiling || nodeCount >= origBudget {
        return false;
      }
      ok := PlaceUnpinnedExactCover();
    }

    /** Places the pinned widgets from pIdx on, on all screens at once, and then the rest. All
        screens look the same while this runs, so testing the first one is enough. */
    method PlacePinned(pIdx: nat, ghost want: seq<Spot>) returns (ok: bool)
      requires Valid(pIdx) && placedCount == 0 && Uniform(board)
      modifies this
      ensures nodeCount >= old(nodeCount) && maxSearchNodes == old(maxSearchNodes) && |board| == old(|board|)
      ensures nodeCount <= old(nodeCount) + PinBound(g.cols * g.rows, |pinned| - pIdx, old(UnpinnedBound()))
      ensures ok && |unpinned| > 0 ==> old(nodeCount) + 1 + old(Left(Demands())) <= nodeCount <= maxSearchNodes
      ensures ok ==> Valid(|pinned|) && Full(g, board)
      ensures !ok ==> Valid(pIdx) && board == old(board) && shapeGroups == old(shapeGroups) && placedCount == 0
      ensures pIdx <= |pinnedPlacements| && pinnedPlacements[..pIdx] == old(pinnedPlacements[..pIdx])
      ensures !ok && nodeCount < maxSearchNodes ==> !PinnedCompletable(g, board, DimensionsOf(pinned[pIdx..]), Demands())
      ensures |unpinned| == 0 ==> nodeCount == old(nodeCount)
      ensures ok && (|unpinned| > 0 || old(nodeCount) < maxSearchNodes) ==>
                AreFirstPins(g, old(board), DimensionsOf(pinned[pIdx..]), old(Demands()), Pins(pIdx))
      ensures ok ==> FilledInOrder(g, PutAll(old(board), Pins(pIdx)), unpinned, old(Used(unpinned, shapeGroups)), Made(),
                                   nodeCount - old(nodeCount))
      ensures old(Ahead(pIdx, want)) ==> ok && Pins(pIdx) == want && nodeCount <= old(nodeCount) + 512
      decreases |pinned| - pIdx, 3
    {
      hide Consistent, Completable, PinnedCompletable, Full, NodeBound, Left, BySize, GroupBefore, Used, Listed, IsFirstFilling, FitsInTurn;
      ConsistentFacts(g, pinned, unpinned, shapeGroups, board, pinnedPlacements[..pIdx], unpinnedPlacements[..placedCount]);
      if pIdx == |pinned| {
        if |unpinned| == 0 {
          NothingLeftMeansFull(g, pinned, unpinned, shapeGroups, board, pinnedPlacements[..pIdx], unpinnedPlacements[..placedCount]);
          FullIsFirst(g, board, unpinned, Used(unpinned, shapeGroups), false);
          return true;
        }
        ok := PlaceUnpinnedInTwoPasses();
        NoPinnedLeft(g, board, Demands());
        assert unpinnedPlacements[0..placedCount] == unpinnedPlacements[..placedCount];
        return;
      }
      ok := TryOrigins(pIdx, want);
    }

    /** Tries every origin of a pinned widget, row by row. */
    method TryOrigins(pIdx: nat, ghost want: seq<Spot>) returns (ok: bool)
      requires Valid(pIdx) && placedCount == 0 && Uniform(board) && pIdx < |pinned|
      modifies this
      ensures nodeCount >= old(nodeCount) && maxSearchNodes == old(maxSearchNodes) && |board| == old(|board|)
      ensures nodeCount <= old(nodeCount) + PinBound(g.cols * g.rows, |pinned| - pIdx, old(UnpinnedBound()))
      ensures ok && |unpinned| > 0 ==> old(nodeCount) + 1 + old(Left(Demands())) <= nodeCount <= maxSearchNodes
      ensures ok ==> Valid(|pinned|) && Full(g, board)
      ensures !ok ==> Valid(pIdx) && board == old(board) && shapeGroups == old(shapeGroups) && placedCount == 0
      ensures pIdx <= |pinnedPlacements| && pinnedPlacements[..pIdx] == old(pinnedPlacements[..pIdx])
      ensures !ok && nodeCount < maxSearchNodes ==> !PinnedCompletable(g, board, DimensionsOf(pinned[pIdx..]), Demands())
      ensures |unpinned| == 0 ==> nodeCount == old(nodeCount)
      ensures ok && (|unpinned| > 0 || old(nodeCount) < maxSearchNodes) ==>
                AreFirstPins(g, old(board), DimensionsOf(pinned[pIdx..]), old(Demands()), Pins(pIdx))
      ensures ok ==> FilledInOrder(g, PutAll(old(board), Pins(pIdx)), unpinned, old(Used(unpinned, shapeGroups)), Made(),
                                   nodeCount - old(nodeCount))
      ensures old(Ahead(pIdx, want)) ==> ok && Pins(pIdx) == want && nodeCount <= old(nodeCount) + 512
      decreases |pinned| - pIdx, 2
    {
      hide Consistent, AllPinned, Completable, PinnedCompletable, Full, NodeBound, Left, BySize, GroupBefore, Uniform, PinBranches, RowsTried, RowTried, Cost, RowCost,
        Used, Listed, AreFirstPins, FilledInOrder, PutAll, StraightPins, GroupsOk, Pins, Made, PinBound,
        GroupOk, DemandsOf, DistinctShapes, Within, Supported;
      var w := pinned[pIdx];
      PinnedAtIndex(g, pinned, pIdx);
      ConsistentFacts(g, pinned, unpinned, shapeGroups, board, pinnedPlacements[..pIdx], unpinnedPlacements[..placedCount]);
      ghost var dims, b, demands := DimensionsOf(pinned[pIdx..]), board, Demands();
      ghost var below := PinBound(g.cols * g.rows, |pinned| - pIdx - 1, UnpinnedBound());
      OnePinMore(g.cols * g.rows, |pinned| - pIdx, UnpinnedBound());
      NoCost(g.cols, below);
      NoRowTried(g, b, dims, demands);
      ghost var straight := Ahead(pIdx, want);
      if straight {
        NextPin(g, b, pinned, pIdx, unpinned, old(shapeGroups), old(nodeCount), maxSearchNodes, want);
      }
      for r := 0 to g.rows - w.dims.rows + 1
        invariant PinState(pIdx, b, old(shapeGroups), old(nodeCount), old(maxSearchNodes)) && Demands() == demands
        invariant nodeCount <= old(nodeCount) + Cost(r, 0, g.cols, below)
        invariant pinnedPlacements[..pIdx] == old(pinnedPlacements[..pIdx])
        invariant |unpinned| == 0 ==> nodeCount == old(nodeCount)
        invariant straight ==> nodeCount == old(nodeCount) && want[0].rect.row >= r
        invariant nodeCount < maxSearchNodes ==> RowsTried(g, b, dims, demands, r)
      {
        OneRowCost(r, g.cols, g.rows, below);
        ghost var nodes := nodeCount;
        ok := TryRow(pIdx, r, want);
        if ok {
          MoreNodes(g, PutAll(b, Pins(pIdx)), unpinned, old(Used(unpinned, shapeGroups)), Made(), nodeCount - nodes, nodeCount - old(nodeCount));
          return true;
        }
        if nodeCount < maxSearchNodes {
          OneRowMoreTried(g, b, dims, demands, r);
        }
      }
      AllRowsDone(g.rows - w.dims.rows + 1, g.cols, g.rows, below);
      if nodeCount < maxSearchNodes {
        AllRowsTried(g, b, dims, demands);
      }
      return false;
    }

    /** Tries the origins of a pinned widget in one row. */
    method TryRow(pIdx: nat, r: nat, ghost want: seq<Spot>) returns (ok: bool)
      requires Valid(pIdx) && placedCount == 0 && Uniform(board) && pIdx < |pinned| && r + pinned[pIdx].dims.rows <= g.rows
      modifies this
      ensures nodeCount >= old(nodeCount) && maxSearchNodes == old(maxSearchNodes) && |board| == old(|board|)
      ensures nodeCount <= old(nodeCount) + RowCost(g.cols, PinBound(g.cols * g.rows, |pinned| - pIdx - 1, old(UnpinnedBound())))
      ensures ok && |unpinned| > 0 ==> old(nodeCount) + 1 + old(Left(Demands())) <= nodeCount <= maxSearchNodes
      ensures ok ==> Valid(|pinned|) && Full(g, board)
      ensures !ok ==> Valid(pIdx) && board == old(board) && shapeGroups == old(shapeGroups) && placedCount == 0
      ensures pIdx <= |pinnedPlacements| && pinnedPlacements[..pIdx] == old(pinnedPlacements[..pIdx])
      ensures !ok && nodeCount < maxSearchNodes ==>
                RowTried(g, board, DimensionsOf(pinned[pIdx..]), Demands(), g.cols - pinned[pIdx].dims.cols + 1, r)
      ensures |unpinned| == 0 ==> nodeCount == old(nodeCount)
      ensures ok && (|unpinned| > 0 || old(nodeCount) < maxSearchNodes)
              && RowsTried(g, old(board), DimensionsOf(pinned[pIdx..]), old(Demands()), r) ==>
                AreFirstPins(g, old(board), DimensionsOf(pinned[pIdx..]), old(Demands()), Pins(pIdx))
      ensures ok ==> FilledInOrder(g, PutAll(old(board), Pins(pIdx)), unpinned, old(Used(unpinned, shapeGroups)), Made(),
                                   nodeCount - old(nodeCount))
      ensures old(Ahead(pIdx, want)) && want != [] && want[0].rect.row >= r ==>
                if want[0].rect.row == r then ok && Pins(pIdx) == want && nodeCount <= old(nodeCount) + 512
                else !ok && nodeCount == old(nodeCount)
      decreases |pinned| - pIdx, 1
    {
      hide Consistent, AllPinned, Completable, PinnedCompletable, Full, NodeBound, Left, BySize, GroupBefore, Uniform, PinBranches, RowsTried, RowTried,
        Used, Listed, AreFirstPins, FilledInOrder, PutAll, StraightPins, GroupsOk, Pins, Made, PinBound,
        GroupOk, DemandsOf, DistinctShapes, Within, Supported, RowCost;
      var w := pinned[pIdx];
      PinnedAtIndex(g, pinned, pIdx);
      ConsistentFacts(g, pinned, unpinned, shapeGroups, board, pinnedPlacements[..pIdx], unpinnedPlacements[..placedCount]);
      ghost var dims, b, demands := DimensionsOf(pinned[pIdx..]), board, Demands();
      ghost var below := PinBound(g.cols * g.rows, |pinned| - pIdx - 1, UnpinnedBound());
      ghost var straight := Ahead(pIdx, want) && want != [] && want[0].rect.row >= r;
      RowCosts(0, g.cols, below);
      NoOriginTried(g, b, dims, demands, r);
      if straight {
        NextPin(g, b, pinned, pIdx, unpinned, old(shapeGroups), old(nodeCount), maxSearchNodes, want);
      }
      for c := 0 to g.cols - w.dims.cols + 1
        invariant PinState(pIdx, b, old(shapeGroups), old(nodeCount), old(maxSearchNodes)) && Demands() == demands
        invariant nodeCount <= old(nodeCount) + RowCost(c, below)
        invariant pinnedPlacements[..pIdx] == old(pinnedPlacements[..pIdx])
        invariant |unpinned| == 0 ==> nodeCount == old(nodeCount)
        invariant straight ==> nodeCount == old(nodeCount) && (want[0].rect.row == r ==> want[0].rect.col >= c)
        invariant nodeCount < maxSearchNodes ==> RowTried(g, b, dims, demands, c, r)
      {
        RowCosts(c, g.cols, below);
        ghost var nodes := nodeCount;
        ok := TryPin(pIdx, c, r, want);
        if ok {
          MoreNodes(g, PutAll(b, Pins(pIdx)), unpinned, old(Used(unpinned, shapeGroups)), Made(), nodeCount - nodes, nodeCount - old(nodeCount));
          return true;
        }
        if nodeCount < maxSearchNodes {
          OneOriginMoreTried(g, b, dims, demands, c, r);
        }
      }
      RowCosts(g.cols - w.dims.cols + 1, g.cols, below);
      return false;
    }

    ghost predicate PinState(pIdx: nat, b: Board, groups: seq<ShapeGroup>, nodes: int, budget: int)
      reads this
    {
      Valid(pIdx) && placedCount == 0 && board == b && shapeGroups == groups && nodeCount >= nodes && maxSearchNodes == budget
    }

    /** Places a pinned widget on all screens. */
    method PinOne(pIdx: nat, c: int, r: int)
      requires Valid(pIdx) && placedCount == 0 && Uniform(board)
      requires pIdx < |pinned| && InBounds(g, PinnedAt(c, r, pinned[pIdx].dims).rect) && Free(board, PinnedAt(c, r, pinned[pIdx].dims))
      modifies this`board, this`pinnedPlacements
      ensures Valid(pIdx + 1) && Uniform(board) && board == Put(old(board), PinnedAt(c, r, pinned[pIdx].dims))
      ensures pinnedPlacements[..pIdx + 1] == old(pinnedPlacements[..pIdx]) + [PinnedPlacementOf(pinned[pIdx], c, r)]
    {
      hide Consistent, BySize, Listed, RectCells, InBounds;
      var sp := PinnedAt(c, r, pinned[pIdx].dims);
      ghost var pp := pinnedPlacements[..pIdx];
      assert unpinnedPlacements[..placedCount] == [];
      PinKeepsConsistent(g, pinned, unpinned, shapeGroups, board, pp, c, r);
      FillAllScreens(sp.rect, true);
      pinnedPlacements := pinnedPlacements[pIdx := PinnedPlacementOf(pinned[pIdx], c, r)];
      assert pinnedPlacements[..pIdx + 1] == pp + [PinnedPlacementOf(pinned[pIdx], c, r)];
    }

    /** Takes a pinned widget off all screens again. */
    method UnpinOne(pIdx: nat, c: int, r: int, ghost b: Board)
      requires Valid(pIdx + 1) && placedCount == 0 && pIdx < |pinned|
      requires Free(b, PinnedAt(c, r, pinned[pIdx].dims)) && board == Put(b, PinnedAt(c, r, pinned[pIdx].dims))
      requires Consistent(g, pinned, unpinned, shapeGroups, b, pinnedPlacements[..pIdx], [])
      modifies this`board
      ensures Valid(pIdx) && board == b
    {
      hide Consistent, BySize, Listed, RectCells, Free, Put, Lift;
      LiftUndoesPut(b, PinnedAt(c, r, pinned[pIdx].dims));
      FillAllScreens(PinnedAt(c, r, pinned[pIdx].dims).rect, false);
      assert unpinnedPlacements[..placedCount] == [];
    }

    lemma FirstOfPins(p: nat)
      requires p < |pinnedPlacements|
      ensures Pins(p) != [] && Pins(p)[1..] == Pins(p + 1) && Pins(p) == [Pins(p)[0]] + Pins(p + 1)
      ensures var pw := pinnedPlacements[..p + 1][p]; Pins(p)[0] == Pinned(Rect(pw.col, pw.row, pw.dims.cols, pw.dims.rows))
    {
      assert pinnedPlacements[p..][1..] == pinnedPlacements[p + 1..];
    }

    method TryPin(pIdx: nat, c: int, r: int, ghost want: seq<Spot>) returns (ok: bool)
      requires Valid(pIdx) && placedCount == 0 && Uniform(board)
      requires pIdx < |pinned| && InBounds(g, PinnedAt(c, r, pinned[pIdx].dims).rect)
      modifies this
      ensures nodeCount >= old(nodeCount) && maxSearchNodes == old(maxSearchNodes) && |board| == old(|board|)
      ensures nodeCount <= old(nodeCount) + PinBound(g.cols * g.rows, |pinned| - pIdx - 1, old(UnpinnedBound()))
      ensures ok && |unpinned| > 0 ==> old(nodeCount) + 1 + old(Left(Demands())) <= nodeCount <= maxSearchNodes
      ensures ok ==> Valid(|pinned|) && Full(g, board)
      ensures !ok ==> Valid(pIdx) && board == old(board) && shapeGroups == old(shapeGroups) && placedCount == 0
      ensures pIdx <= |pinnedPlacements| && pinnedPlacements[..pIdx] == old(pinnedPlacements[..pIdx])
      ensures !ok && nodeCount < maxSearchNodes ==>
                !PinBranches(g, board, DimensionsOf(pinned[pIdx..]), Demands(), c, r)
      ensures |unpinned| == 0 ==> nodeCount == old(nodeCount)
      ensures ok && (|unpinned| > 0 || old(nodeCount) < maxSearchNodes)
              && EarlierTried(g, old(board), DimensionsOf(pinned[pIdx..]), old(Demands()), c, r) ==>
                AreFirstPins(g, old(board), DimensionsOf(pinned[pIdx..]), old(Demands()), Pins(pIdx))
      ensures ok ==> FilledInOrder(g, PutAll(old(board), Pins(pIdx)), unpinned, old(Used(unpinned, shapeGroups)), Made(),
                                   nodeCount - old(nodeCount))
      ensures old(Ahead(pIdx, want)) && want != [] && !ReadsEarlier(want[0], PinnedAt(c, r, pinned[pIdx].dims)) ==>
                if want[0] == PinnedAt(c, r, pinned[pIdx].dims)
                then ok && Pins(pIdx) == want && nodeCount <= old(nodeCount) + 512
                else !ok && nodeCount == old(nodeCount)
      decreases |pinned| - pIdx, 0
    {
      hide Consistent, AllPinned, Completable, PinnedCompletable, Full, NodeBound, Left, BySize, GroupBefore, Used, Listed, PinsLeadOn, FilledInOrder,
        AreFirstPins, EarlierTried, StraightPins, PutAll, PinBound, GroupOk, GroupsOk, DemandsOf, DistinctShapes, Within, Supported, Made, Pins,
        RectCells, Uniform, Put, Free, Lift, InBounds;
      PinnedAtIndex(g, pinned, pIdx);
      ConsistentFacts(g, pinned, unpinned, shapeGroups, board, pinnedPlacements[..pIdx], unpinnedPlacements[..placedCount]);
      ghost var dims := DimensionsOf(pinned[pIdx..]);
      assert dims[1..] == DimensionsOf(pinned[pIdx + 1..]);
      var sp := PinnedAt(c, r, pinned[pIdx].dims);
      if Ahead(pIdx, want) {
        NextPin(g, board, pinned, pIdx, unpinned, shapeGroups, nodeCount, maxSearchNodes, want);
      }
      FreeOnAll(board, sp);
      if !(board[0] !! RectCells(sp.rect)) {
        return false;
      }
      ghost var pp := pinnedPlacements[..pIdx];
      assert unpinnedPlacements[..placedCount] == [];
      PinOne(pIdx, c, r);
      ok := PlacePinned(pIdx + 1, if want == [] then [] else want[1..]);
      if ok {
        assert pinnedPlacements[..pIdx] == pinnedPlacements[..pIdx + 1][..pIdx] == pp;
        FirstOfPins(pIdx);
        PinsGrow(g, old(board), dims, old(Demands()), Pins(pIdx), c, r);
        return true;
      }
      assert pinnedPlacements[..pIdx] == pinnedPlacements[..pIdx + 1][..pIdx] == pp;
      UnpinOne(pIdx, c, r, old(board));
      return false;
    }
  }

  /** The pinned widgets from p on fit at the given origins, the first free ones, the others behind them in turn,
      and the budget suffices. */
  ghost predicate StraightPins(g: Grid, board: Board, pinned: seq<WidgetInput>, p: nat, ws: seq<WidgetInput>, groups: seq<ShapeGroup>,
                               nodes: int, budget: int, spots: seq<Spot>)
  {
    && p <= |pinned| && PinsLeadOn(g, board, DimensionsOf(pinned[p..]), ws, Used(ws, groups), spots)
    && Left(DemandsOf(groups)) < 512 && nodes + Left(DemandsOf(groups)) < budget
  }

  /** Where the next pinned widget goes if all goes straight. */
  lemma NextPin(g: Grid, board: Board, pinned: seq<WidgetInput>, p: nat, ws: seq<WidgetInput>, groups: seq<ShapeGroup>,
                nodes: int, budget: int, spots: seq<Spot>)
    requires p < |pinned| && StraightPins(g, board, pinned, p, ws, groups, nodes, budget, spots)
    ensures spots != [] && InBounds(g, spots[0].rect) && spots[0] == PinnedAt(spots[0].rect.col, spots[0].rect.row, pinned[p].dims)
    ensures Free(board, spots[0]) && StraightPins(g, Put(board, spots[0]), pinned, p + 1, ws, groups, nodes, budget, spots[1..])
    ensures forall c, r :: InBounds(g, PinnedAt(c, r, pinned[p].dims).rect) && ReadsEarlier(PinnedAt(c, r, pinned[p].dims), spots[0]) ==>
                             !Free(board, PinnedAt(c, r, pinned[p].dims))
  {
    hide PinsLeadOn, Free, Put, Left, Used;
    var dims := DimensionsOf(pinned[p..]);
    assert dims[1..] == DimensionsOf(pinned[p + 1..]);
    PinsStepOn(g, board, dims, ws, Used(ws, groups), spots);
    forall c, r | InBounds(g, PinnedAt(c, r, dims[0]).rect) && ReadsEarlier(PinnedAt(c, r, dims[0]), spots[0])
      ensures !Free(board, PinnedAt(c, r, dims[0])) {
      NothingFreeBefore(g, board, dims, ws, Used(ws, groups), spots, c, r);
    }
  }

  /** No origin before the given one leads to a completion. */
  ghost predicate EarlierTried(g: Grid, board: Board, dims: seq<Dimension>, demands: seq<Demand>, c: int, r: int)
  {
    RowsTried(g, board, dims, demands, r) && RowTried(g, board, dims, demands, c, r)
  }

  /** No origin in the first `cols` columns of row r leads to a completion. */
  ghost predicate RowTried(g: Grid, board: Board, dims: seq<Dimension>, demands: seq<Demand>, cols: int, r: int)
  {
    dims != [] ==> forall x :: 0 <= x < cols ==> !PinBranches(g, board, dims, demands, x, r)
  }

  lemma NoOriginTried(g: Grid, board: Board, dims: seq<Dimension>, demands: seq<Demand>, r: int)
    requires dims != []
    ensures RowTried(g, board, dims, demands, 0, r)
  {}

  lemma OneOriginMoreTried(g: Grid, board: Board, dims: seq<Dimension>, demands: seq<Demand>, c: int, r: int)
    requires dims != [] && RowTried(g, board, dims, demands, c, r) && !PinBranches(g, board, dims, demands, c, r)
    ensures RowTried(g, board, dims, demands, c + 1, r)
  {
    hide PinBranches;
  }

  /** An origin that succeeds after all earlier ones have failed is the first. */
  lemma {:induction false} PinsGrow(g: Grid, board: Board, dims: seq<Dimension>, demands: seq<Demand>, spots: seq<Spot>, c: int, r: int)
    requires dims != [] && spots != [] && spots[0] == PinnedAt(c, r, dims[0]) && InBounds(g, spots[0].rect) && Free(board, spots[0])
    ensures EarlierTried(g, board, dims, demands, c, r) && AreFirstPins(g, Put(board, spots[0]), dims[1..], demands, spots[1..]) ==>
              AreFirstPins(g, board, dims, demands, spots)
    ensures PutAll(board, spots) == PutAll(Put(board, spots[0]), spots[1..])
  {
    hide Free, Put, Completable;
  }

  function Min(a: int, b: int): int { if a < b then a else b }

  function Max(a: int, b: int): int { if a < b then b else a }

  /** No origin in the first `rows` rows leads to a completion. */
  ghost predicate RowsTried(g: Grid, board: Board, dims: seq<Dimension>, demands: seq<Demand>, rows: int)
  {
    dims != [] ==> forall c, r :: 0 <= r < rows ==> !PinBranches(g, board, dims, demands, c, r)
  }

  lemma NoRowTried(g: Grid, board: Board, dims: seq<Dimension>, demands: seq<Demand>)
    requires dims != []
    ensures RowsTried(g, board, dims, demands, 0)
  {}

  lemma OneRowMoreTried(g: Grid, board: Board, dims: seq<Dimension>, demands: seq<Demand>, r: nat)
    requires dims != [] && RowsTried(g, board, dims, demands, r)
    requires RowTried(g, board, dims, demands, g.cols - dims[0].cols + 1, r)
    ensures RowsTried(g, board, dims, demands, r + 1)
  {
    hide PinnedCompletable, Free, Put;
  }

  lemma AllRowsTried(g: Grid, board: Board, dims: seq<Dimension>, demands: seq<Demand>)
    requires dims != [] && RowsTried(g, board, dims, demands, g.rows - dims[0].rows + 1)
    ensures !PinnedCompletable(g, board, dims, demands)
  {
    hide PinnedCompletable, Free, Put;
    SomePinBranchSucceeds(g, board, dims, demands);
  }

  predicate Uniform(board: Board) {
    forall s :: 0 <= s < |board| ==> board[s] == board[0]
  }

  lemma AllPlaced(g: Grid, pinned: seq<WidgetInput>, unpinned: seq<WidgetInput>, groups: seq<ShapeGroup>,
                  board: Board, pp: seq<PlacedWidget>, up: seq<UnpinnedPlacement>)
    requires Consistent(g, pinned, unpinned, groups, board, pp, up) && |up| == |unpinned|
    ensures Left(DemandsOf(groups)) == 0
  {}

  lemma AllHandedOut(g: Grid, pinned: seq<WidgetInput>, unpinned: seq<WidgetInput>, groups: seq<ShapeGroup>,
                     board: Board, pp: seq<PlacedWidget>, up: seq<UnpinnedPlacement>)
    requires Consistent(g, pinned, unpinned, groups, board, pp, up) && |up| == |unpinned| && Listed(unpinned, groups)
    ensures forall o :: 0 <= o < |unpinned| ==> o in Used(unpinned, groups)
  {
    hide Consistent, Listed, Used;
    ConsistentFacts(g, pinned, unpinned, groups, board, pp, up);
    forall i | 0 <= i < |groups| ensures groups[i].count == 0 {
      if groups[i].count > 0 {
        AllPlacedFits(g, pinned, unpinned, groups, board, pp, up, i);
      }
    }
    AllUsed(g, unpinned, groups);
  }

  /** A group with a widget left means a free slot in the placement buffer. */
  lemma AllPlacedFits(g: Grid, pinned: seq<WidgetInput>, unpinned: seq<WidgetInput>, groups: seq<ShapeGroup>,
                      board: Board, pp: seq<PlacedWidget>, up: seq<UnpinnedPlacement>, i: nat)
    requires Consistent(g, pinned, unpinned, groups, board, pp, up) && i < |groups| && groups[i].count > 0
    ensures |up| < |unpinned|
    ensures Left(DemandsOf(groups)) > 0
  {
    var demands := DemandsOf(groups);
    UseOne(demands, i);
    var used := Use(demands, i);
    forall j | 0 <= j < |used| ensures used[j].count >= 0 && Area(used[j].dims) >= 1 {
      assert GroupOk(g, unpinned, groups[j]);
      PositiveArea(groups[j].dims);
    }
    NothingLeft(used);
  }

  lemma PositiveArea(d: Dimension)
    requires d.cols >= 1 && d.rows >= 1
    ensures Area(d) >= 1
  {}

  /** The final test of the pinned phase needs no mask: when nothing is left to place, the
      area that is left is zero. */
  lemma NothingLeftMeansFull(g: Grid, pinned: seq<WidgetInput>, unpinned: seq<WidgetInput>, groups: seq<ShapeGroup>,
                             board: Board, pp: seq<PlacedWidget>, up: seq<UnpinnedPlacement>)
    requires Consistent(g, pinned, unpinned, groups, board, pp, up) && |pp| == |pinned|
    ensures |up| == |unpinned| <==> Full(g, board)
  {
    var demands := DemandsOf(groups);
    forall j | 0 <= j < |demands| ensures demands[j].count >= 0 && Area(demands[j].dims) >= 1 {
      assert GroupOk(g, unpinned, groups[j]);
      PositiveArea(groups[j].dims);
    }
    NothingLeft(demands);
    FreeAreaOfSubset(g, board, |board|);
    assert pinned[|pp|..] == [];
  }
}
