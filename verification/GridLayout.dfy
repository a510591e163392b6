/**
  The layout solver as a whole: widgets in, layout or reason out.
 */
module GridLayout {
  import opened Grid
  import opened Board
  import opened Search
  import opened Tilings
  import opened Fillings
  import opened Sorting
  import opened Groups
  import opened Solver
  import opened Packing
  import opened Layouts
  import opened Choices
  import opened LayoutOrder
  import Text

  // ----- sums do not depend on order

  lemma {:induction false} AreaOfConcat(a: seq<WidgetInput>, b: seq<WidgetInput>, pinned: bool)
    ensures AreaOf(a + b, pinned) == AreaOf(a, pinned) + AreaOf(b, pinned)
  {
    if b == [] {
      assert a + b == a;
    } else {
      AreaOfConcat(a, b[..|b| - 1], pinned);
      assert (a + b)[..|a + b| - 1] == a + b[..|b| - 1];
    }
  }

  lemma PullOut(ws: seq<WidgetInput>, i: nat, pinned: bool)
    requires i < |ws|
    ensures multiset(ws) == multiset(ws[..i] + ws[i + 1..]) + multiset{ws[i]}
    ensures AreaOf(ws, pinned) == AreaOf(ws[..i] + ws[i + 1..], pinned) + if ws[i].pinned == pinned then Area(ws[i].dims) else 0
  {
    var a, b := ws[..i], ws[i + 1..];
    assert ws == a + [ws[i]] + b;
    AreaOfConcat(a, b, pinned);
    AreaOfConcat(a + [ws[i]], b, pinned);
    AreaOfConcat(a, [ws[i]], pinned);
  }

  lemma {:induction false} AreaIgnoresOrder(xs: seq<WidgetInput>, ys: seq<WidgetInput>, pinned: bool)
    requires multiset(xs) == multiset(ys)
    ensures AreaOf(xs, pinned) == AreaOf(ys, pinned)
  {
    hide AreaOf, Area;
    assert |xs| == |multiset(xs)| == |multiset(ys)| == |ys|;
    if xs != [] {
      var n := |xs| - 1;
      SameElements(xs, ys, xs[n]);
      var i :| 0 <= i < |ys| && ys[i] == xs[n];
      PullOut(xs, n, pinned);
      PullOut(ys, i, pinned);
      var xs', ys' := xs[..n] + xs[n + 1..], ys[..i] + ys[i + 1..];
      assert multiset(xs') == (multiset(xs') + multiset{xs[n]}) - multiset{xs[n]};
      assert multiset(ys') == (multiset(ys') + multiset{xs[n]}) - multiset{xs[n]};
      AreaIgnoresOrder(xs', ys', pinned);
    }
  }

  // ----- the starting state

  lemma InitialConsistent(g: Grid, k: nat, pinned: seq<WidgetInput>, unpinned: seq<WidgetInput>, groups: seq<ShapeGroup>)
    requires Supported(g) && k >= 1 && Grouped(g, unpinned, groups)
    requires forall i :: 0 <= i < |unpinned| ==> !unpinned[i].pinned
    requires AreaFits(AreaOf(pinned, true), AreaOf(unpinned, false), CellCount(g), k)
    ensures Consistent(g, pinned, unpinned, groups, EmptyBoard(k), [], [])
  {
    hide Left, LeftArea, AreaOf, DemandsMatch, GroupsOk, FreeAreaBelow, CellCount, UnpinnedOk;
    var board := EmptyBoard(k);
    NothingPlaced(unpinned, groups);
    EmptyArea(g, board, k);
    DemandTotals(DemandsOf(groups), unpinned);
    assert pinned[0..] == pinned;
    assert Spots([], []) == [];
    Spread(k, CellCount(g), AreaOf(pinned, true));
  }

  lemma NothingPlaced(unpinned: seq<WidgetInput>, groups: seq<ShapeGroup>)
    ensures UnpinnedOk(unpinned, groups, [])
  {}

  lemma Spread(k: int, a: int, b: int)
    ensures k * (a - b) == k * a - k * b
  {}

  // ----- the solver

  lemma {:induction false} PinnedCoverAnyScreen(spots: seq<Spot>, s: int, t: int)
    requires forall i :: 0 <= i < |spots| ==> spots[i].Pinned?
    ensures Covered(spots, s) == Covered(spots, t)
  {
    if spots != [] {
      PinnedCoverAnyScreen(spots[..|spots| - 1], s, t);
    }
  }

  /** Pinned widgets alone tile any number of screens if they tile one. */
  lemma PinnedTileAnyNumber(g: Grid, j: nat, k: nat, spots: seq<Spot>)
    requires j >= 1 && k >= 1 && Tiled(g, j, spots)
    requires forall i :: 0 <= i < |spots| ==> spots[i].Pinned?
    ensures Tiled(g, k, spots)
  {
    forall i | 0 <= i < |spots| ensures Legal(g, k, spots[i]) {
      assert Legal(g, j, spots[i]);
    }
    forall s | 0 <= s < k ensures Covered(spots, s) == AllCells(g) {
      PinnedCoverAnyScreen(spots, s, 0);
    }
  }

  /** A tiling of any number of screens is one of the computed number. */
  lemma MovesToComputedScreens(g: Grid, k: nat, j: nat, widgets: seq<WidgetInput>, plan: Plan)
    requires Supported(g) && GoodPrefix(g, widgets, |widgets|) && k >= 1 && j >= 1
    requires AreaFits(AreaOf(widgets, true), AreaOf(widgets, false), CellCount(g), k)
    requires IsTiling(g, j, widgets, plan)
    ensures IsTiling(g, k, widgets, plan)
  {
    hide Tiled, AreaOf, Text.Trim;
    AreasNotNegative(g, widgets);
    TilingArea(g, j, widgets, plan);
    var c := CellCount(g) - AreaOf(widgets, true);
    SameOrZero(k, j, c, AreaOf(widgets, false));
    if k != j {
      forall i | 0 <= i < |widgets| ensures SpotsOf(widgets, plan)[i].Pinned? {
        assert Places(plan, widgets[i]);
      }
      PinnedTileAnyNumber(g, j, k, SpotsOf(widgets, plan));
    }
  }

  lemma SameOrZero(k: int, j: int, c: int, u: int)
    requires k >= 1 && j >= 1 && u >= 0 && u == k * c && u == j * c
    ensures k == j || u == 0
  {
    assert (k - j) * c == k * c - j * c == 0;
  }

  /** Sorting and grouping lose no widget. */
  lemma SameWidgets(g: Grid, widgets: seq<WidgetInput>, pinned: seq<WidgetInput>)
    requires GoodPrefix(g, widgets, |widgets|) && multiset(pinned) == multiset(Pick(widgets, true))
    ensures DistinctIds(widgets) && DistinctIds(pinned + Pick(widgets, false))
    ensures forall w :: w in widgets <==> w in pinned + Pick(widgets, false)
    ensures forall i :: 0 <= i < |pinned| ==> pinned[i].pinned && ValidDimension(g, pinned[i].dims)
    ensures forall i :: 0 <= i < |Pick(widgets, false)| ==> ValidDimension(g, Pick(widgets, false)[i].dims)
    ensures AreaOf(pinned, true) == AreaOf(widgets, true) && AreaOf(Pick(widgets, false), false) == AreaOf(widgets, false)
  {
    hide Text.Trim, AreaOf;
    var unpinned := Pick(widgets, false);
    var all := pinned + unpinned;
    PickSplits(widgets);
    assert multiset(all) == multiset(widgets);
    var id := (w: WidgetInput) => w.id;
    assert DistinctBy(widgets, id);
    DistinctIgnoresOrder(widgets, all, id);
    forall i, j | 0 <= i < j < |all| ensures all[i].id != all[j].id {
      assert id(all[i]) != id(all[j]);
    }
    forall w ensures w in widgets <==> w in all {
      SameElements(widgets, all, w);
    }
    forall i | 0 <= i < |pinned| ensures pinned[i].pinned && ValidDimension(g, pinned[i].dims) {
      SameElements(pinned, Pick(widgets, true), pinned[i]);
      assert pinned[i] == all[i] && all[i] in widgets;
    }
    forall i | 0 <= i < |unpinned| ensures ValidDimension(g, unpinned[i].dims) {
      assert unpinned[i] == all[|pinned| + i] && all[|pinned| + i] in widgets;
    }
    AreaIgnoresOrder(pinned, Pick(widgets, true), true);
    PickArea(widgets, true);
    PickArea(widgets, false);
  }

  /** What the solver's answer says. An error other than CannotTile holds whatever the budget;
      CannotTile is proof that no tiling exists when the search ended below its budget. */
  ghost predicate Answers(g: Grid, widgets: seq<WidgetInput>, r: Result<Layout>, belowBudget: bool) {
    match r
    case Ok(layout) => exists plan :: IsSolution(g, widgets, layout, plan)
    case Err(CannotTile) => belowBudget ==> forall k :: k >= 1 ==> !Tileable(g, k, widgets)
    case Err(e) => Explains(g, widgets, e)
  }

  // ----- which layout is found

  /** The pinned widgets in the order they are placed: largest first. */
  function PinnedOf(widgets: seq<WidgetInput>): seq<WidgetInput> {
    Sort(Pick(widgets, true), PinnedBefore)
  }

  /** The layout's screens list the given placements, the screens in the given order. */
  ghost predicate Assembled(g: Grid, layout: Layout, pp: seq<PlacedWidget>, up: seq<UnpinnedPlacement>, perm: seq<int>) {
    && IsPermutation(perm, |layout.screens|) && layout.totalScreens == |layout.screens|
    && forall n :: 0 <= n < |perm| ==> layout.screens[n] == Screen(n, AllCells(g), Sort(ScreenWidgets(pp, up, perm[n]), ReadsBefore))
  }

  predicate AgreesUpTo(plan: Plan, pinned: seq<WidgetInput>, pins: seq<Spot>, n: nat)
    requires n <= |pinned| == |pins|
  {
    forall i :: 0 <= i < n ==> pinned[i].id in plan && plan[pinned[i].id] == pins[i]
  }

  /** No tiling has an earlier origin for the first pinned widget it puts elsewhere. */
  ghost predicate PinsComeFirst(g: Grid, k: int, widgets: seq<WidgetInput>, pinned: seq<WidgetInput>, pins: seq<Spot>) {
    |pins| == |pinned| && forall plan, n: nat :: n < |pinned| && IsTiling(g, k, widgets, plan) && AgreesUpTo(plan, pinned, pins, n) ==>
      pinned[n].id in plan && !ReadsEarlier(plan[pinned[n].id], pins[n])
  }

  /** The pinned widgets have the first origins any tiling gives them, the others are the first filling behind them in
      configuration order or by size, and screens are shown by their earliest widget. */
  ghost predicate IsFirstFound(g: Grid, widgets: seq<WidgetInput>, layout: Layout, bySize: bool, pp: seq<PlacedWidget>,
                               up: seq<UnpinnedPlacement>, perm: seq<int>)
  {
    var k, pinned, ws := |layout.screens|, PinnedOf(widgets), Pick(widgets, false);
    && PinnedOk(pinned, pp) && PinsComeFirst(g, k, widgets, pinned, PinnedSpots(pp))
    && IsFirstFilling(g, PutAll(EmptyBoard(k), PinnedSpots(pp)), ws, {}, bySize, up)
    && Assembled(g, layout, pp, up, perm) && (|widgets| <= 0x4000_0000 ==> EarliestFirst(up, perm))
  }

  ghost predicate FoundFirst(g: Grid, widgets: seq<WidgetInput>, layout: Layout, bySize: bool) {
    exists pp, up, perm :: IsFirstFound(g, widgets, layout, bySize, pp, up, perm)
  }

  /** Pinned widgets at the first free origins and the others one after the other fit exactly. */
  ghost predicate InSequence(g: Grid, widgets: seq<WidgetInput>, pins: seq<Spot>, vp: seq<UnpinnedPlacement>) {
    var k := ScreensOf(g, widgets);
    && GoodPrefix(g, widgets, |widgets|) && k >= 1 && AreaFits(AreaOf(widgets, true), AreaOf(widgets, false), CellCount(g), k)
    && PinInTurn(g, EmptyBoard(k), DimensionsOf(PinnedOf(widgets)), pins)
    && Fills(g, PutAll(EmptyBoard(k), pins), Pick(widgets, false), {}, vp) && InTurn(vp, 0)
  }

  /** Screen n lists the pinned widgets at the given origins and the unpinned ones laid on screen n. */
  ghost predicate ShowsInPlace(layout: Layout, pinned: seq<WidgetInput>, pins: seq<Spot>, vp: seq<UnpinnedPlacement>) {
    |pins| == |pinned| && forall n, pw :: 0 <= n < |layout.screens| ==>
      (pw in layout.screens[n].widgets <==>
        || (exists i :: 0 <= i < |pinned| &&
              pw == PlacedWidget(pinned[i].id, pinned[i].kind, pins[i].rect.col, pins[i].rect.row, pinned[i].dims, true))
        || (exists j :: 0 <= j < |vp| && vp[j].screen == n &&
              pw == PlacedWidget(vp[j].widget.id, vp[j].widget.kind, vp[j].col, vp[j].row, vp[j].widget.dims, false)))
  }

  lemma PinsFirstOfTilings(g: Grid, k: nat, widgets: seq<WidgetInput>, pinned: seq<WidgetInput>, groups: seq<ShapeGroup>, pins: seq<Spot>)
    requires k >= 1 && Grouped(g, Pick(widgets, false), groups) && |pins| == |pinned|
    requires AreFirstPins(g, EmptyBoard(k), DimensionsOf(pinned), DemandsOf(groups), pins)
    requires DistinctIds(widgets) && DistinctIds(pinned + Pick(widgets, false))
    requires forall w :: w in widgets <==> w in pinned + Pick(widgets, false)
    requires forall i :: 0 <= i < |pinned| ==> pinned[i].pinned
    ensures PinsComeFirst(g, k, widgets, pinned, pins)
  {
    hide IsTiling, AreFirstPins, PinnedCompletion, DistinctIds, Pick, GroupsOk, DemandsMatch, DemandsOf;
    forall plan, n: nat | n < |pinned| && IsTiling(g, k, widgets, plan) && AgreesUpTo(plan, pinned, pins, n)
      ensures pinned[n].id in plan && !ReadsEarlier(plan[pinned[n].id], pins[n]) {
      TilingIgnoresOrder(g, k, widgets, pinned + Pick(widgets, false), plan);
      TilingIsPinnedCompletion(g, k, pinned, Pick(widgets, false), DemandsOf(groups), plan);
      var spots := SpotsOf(pinned, plan);
      assert pins[..n] == spots[..n];
      FirstPinsComeFirst(g, EmptyBoard(k), DimensionsOf(pinned), DemandsOf(groups), pins, spots, n);
    }
  }

  lemma {:induction false} FilledOrders(g: Grid, board: Board, ws: seq<WidgetInput>, used: set<int>, up: seq<UnpinnedPlacement>, i: nat, j: nat)
    requires Fills(g, board, ws, used, up) && i < j < |up|
    ensures up[i].order != up[j].order
    decreases |up|
  {
    hide IsNextSpot, Full, Put;
    if i > 0 {
      FilledOrders(g, Put(board, SpotOf(up[0])), ws, used + {up[0].order}, up[1..], i - 1, j - 1);
    } else {
      FilledUnused(g, Put(board, SpotOf(up[0])), ws, used + {up[0].order}, up[1..], j - 1);
    }
  }

  lemma {:induction false} FilledUnused(g: Grid, board: Board, ws: seq<WidgetInput>, used: set<int>, up: seq<UnpinnedPlacement>, j: nat)
    requires Fills(g, board, ws, used, up) && j < |up|
    ensures 0 <= up[j].order < |ws| && up[j].order !in used
    decreases |up|
  {
    hide IsNextSpot, Full, Put;
    if j > 0 {
      FilledUnused(g, Put(board, SpotOf(up[0])), ws, used + {up[0].order}, up[1..], j - 1);
    }
  }

  /** If the widgets fit in sequence and the budget exceeds their number, that is what is shown. */
  ghost predicate KeepsSequence(g: Grid, widgets: seq<WidgetInput>, maxSearchNodes: int, r: Result<Layout>) {
    forall pins, vp :: InSequence(g, widgets, pins, vp) && FewEnough(widgets, maxSearchNodes) ==>
                         r.Ok? && ShowsInPlace(r.value, PinnedOf(widgets), pins, vp)
  }

  predicate FewEnough(widgets: seq<WidgetInput>, maxSearchNodes: int) {
    var n := |Pick(widgets, false)|;
    n < 512 && (maxSearchNodes <= 0 || n < maxSearchNodes)
  }

  lemma NothingInSequence(g: Grid, widgets: seq<WidgetInput>, maxSearchNodes: int, r: Result<Layout>)
    requires Supported(g) && widgets == []
    ensures KeepsSequence(g, widgets, maxSearchNodes, r)
  {}

  lemma RefusedInSequence(g: Grid, widgets: seq<WidgetInput>, maxSearchNodes: int, r: Result<Layout>)
    requires !(GoodPrefix(g, widgets, |widgets|) && CanFit(g, widgets))
    ensures KeepsSequence(g, widgets, maxSearchNodes, r)
  {
    hide GoodPrefix, AreaOf;
  }

  /** The origins of the pinned widgets if all fits in sequence. */
  ghost function Wanted(g: Grid, widgets: seq<WidgetInput>, groups: seq<ShapeGroup>, k: nat, budget: int): seq<Spot> {
    if exists pins :: StraightPins(g, EmptyBoard(k), PinnedOf(widgets), 0, Pick(widgets, false), groups, 0, budget, pins)
    then var pins :| StraightPins(g, EmptyBoard(k), PinnedOf(widgets), 0, Pick(widgets, false), groups, 0, budget, pins); pins
    else []
  }

  lemma SequenceIsWanted(g: Grid, widgets: seq<WidgetInput>, groups: seq<ShapeGroup>, k: nat, budget: int, maxSearchNodes: int,
                         pins: seq<Spot>, vp: seq<UnpinnedPlacement>)
    requires k == ScreensOf(g, widgets) && Used(Pick(widgets, false), groups) == {} && Left(DemandsOf(groups)) == |Pick(widgets, false)|
    requires budget == (if maxSearchNodes <= 0 then DEFAULT_MAX_SEARCH_NODES else maxSearchNodes)
    requires InSequence(g, widgets, pins, vp) && FewEnough(widgets, maxSearchNodes)
    ensures StraightPins(g, EmptyBoard(k), PinnedOf(widgets), 0, Pick(widgets, false), groups, 0, budget, Wanted(g, widgets, groups, k, budget))
    ensures Wanted(g, widgets, groups, k, budget) == pins
  {
    hide GoodPrefix, AreaOf, Pick, PinInTurn, Fills, PutAll, Used, Left, DemandsOf, Sort, InTurn, PinnedOf;
    var pinned := PinnedOf(widgets);
    assert pinned[0..] == pinned;
    assert StraightPins(g, EmptyBoard(k), pinned, 0, Pick(widgets, false), groups, 0, budget, pins);
    PinInTurnIsUnique(g, EmptyBoard(k), DimensionsOf(pinned), pins, Wanted(g, widgets, groups, k, budget));
  }

  lemma NotFoundInSequence(g: Grid, widgets: seq<WidgetInput>, groups: seq<ShapeGroup>, k: nat, budget: int, maxSearchNodes: int,
                           want: seq<Spot>)
    requires k == ScreensOf(g, widgets) && Used(Pick(widgets, false), groups) == {} && Left(DemandsOf(groups)) == |Pick(widgets, false)|
    requires budget == (if maxSearchNodes <= 0 then DEFAULT_MAX_SEARCH_NODES else maxSearchNodes)
    requires want == Wanted(g, widgets, groups, k, budget)
    requires !StraightPins(g, EmptyBoard(k), PinnedOf(widgets), 0, Pick(widgets, false), groups, 0, budget, want)
    ensures KeepsSequence(g, widgets, maxSearchNodes, Err(CannotTile))
  {
    hide InSequence, FewEnough, StraightPins, Used, Pick, DemandsOf, Left, ScreensOf, PinnedOf;
    forall pins, vp | InSequence(g, widgets, pins, vp) && FewEnough(widgets, maxSearchNodes) ensures false {
      SequenceIsWanted(g, widgets, groups, k, budget, maxSearchNodes, pins, vp);
    }
  }

  /** What is placed in sequence is shown in place. */
  lemma SequenceShown(g: Grid, widgets: seq<WidgetInput>, layout: Layout, pp: seq<PlacedWidget>, up: seq<UnpinnedPlacement>,
                      pins: seq<Spot>, vp: seq<UnpinnedPlacement>)
    requires InSequence(g, widgets, pins, vp) && |Pick(widgets, false)| < 512 && |layout.screens| == ScreensOf(g, widgets)
    requires PinnedOk(PinnedOf(widgets), pp) && PinnedSpots(pp) == pins && |pp| == |PinnedOf(widgets)|
    requires IsFirstFilling(g, PutAll(EmptyBoard(|layout.screens|), pins), Pick(widgets, false), {}, false, up)
    requires Assembled(g, layout, pp, up, ScreenOrder(MinOrders(up, |layout.screens|)))
    ensures ShowsInPlace(layout, PinnedOf(widgets), pins, vp)
  {
    hide GoodPrefix, AreaOf, Pick, PinInTurn, Fills, PutAll, Sort, NotAfter, ScreensOf, PinnedOf, ScreenOrder, MinOrders, ScreenWidgets;
    var k, ws := |layout.screens|, Pick(widgets, false);
    var board := PutAll(EmptyBoard(k), pins);
    InTurnIsFirst(g, board, ws, {}, 0, up, vp);
    SequenceInPlace(g, widgets, pins, vp);
    forall n, pw | 0 <= n < k
      ensures pw in layout.screens[n].widgets <==>
        || (exists i :: 0 <= i < |pp| && pw == pp[i])
        || (exists j :: 0 <= j < |vp| && vp[j].screen == n &&
              pw == PlacedWidget(vp[j].widget.id, vp[j].widget.kind, vp[j].col, vp[j].row, vp[j].widget.dims, false)) {
      SameElements(Sort(ScreenWidgets(pp, up, n), ReadsBefore), ScreenWidgets(pp, up, n), pw);
      InScreenWidgets(pp, up, n, pw);
    }
    PinsListed(PinnedOf(widgets), pp, pins);
  }

  lemma PinsListed(pinned: seq<WidgetInput>, pp: seq<PlacedWidget>, pins: seq<Spot>)
    requires PinnedOk(pinned, pp) && PinnedSpots(pp) == pins && |pp| == |pinned|
    ensures forall i :: 0 <= i < |pp| ==>
              pp[i] == PlacedWidget(pinned[i].id, pinned[i].kind, pins[i].rect.col, pins[i].rect.row, pinned[i].dims, true)
  {}

  lemma SequenceInPlace(g: Grid, widgets: seq<WidgetInput>, pins: seq<Spot>, vp: seq<UnpinnedPlacement>)
    requires InSequence(g, widgets, pins, vp) && |Pick(widgets, false)| < 512
    ensures ScreenOrder(MinOrders(vp, ScreensOf(g, widgets))) == seq(ScreensOf(g, widgets), s => s)
  {
    hide GoodPrefix, AreaOf, Pick, PinInTurn, Fills, PutAll, Sort, PinnedOf, ScreenOrder, MinOrders, AllCells;
    var k, ws := ScreensOf(g, widgets), Pick(widgets, false);
    var board := PutAll(EmptyBoard(k), pins);
    PinsArePinned(g, EmptyBoard(k), DimensionsOf(PinnedOf(widgets)), pins);
    PinnedLeaveUniform(EmptyBoard(k), pins);
    if vp == [] {
      NoneFilled(g, board, ws, {});
      PickArea(widgets, false);
      NoArea();
    } else {
      FilledUnused(g, board, ws, {}, vp, |vp| - 1);
      FirstIsOpen(g, board, ws, vp);
    }
    InTurnInPlace(g, board, ws, vp);
  }

  lemma NoArea()
    ensures AreaOf([], false) == 0
  {}

  lemma NoneFilled(g: Grid, board: Board, ws: seq<WidgetInput>, used: set<int>)
    requires Fills(g, board, ws, used, [])
    ensures |ws| > 0 ==> 0 in used
  {}

  lemma FirstIsOpen(g: Grid, board: Board, ws: seq<WidgetInput>, up: seq<UnpinnedPlacement>)
    requires Fills(g, board, ws, {}, up) && up != [] && Uniform(board)
    ensures forall s :: 0 <= s < |board| ==> board[s] != AllCells(g)
  {
    hide AllCells;
    NextScreenIsOpen(g, board, SpotOf(up[0]));
  }

  lemma StartsUnused(g: Grid, unpinned: seq<WidgetInput>, groups: seq<ShapeGroup>)
    requires Grouped(g, unpinned, groups) && Listed(unpinned, groups) && Untouched(groups)
    ensures Used(unpinned, groups) == {}
  {
    NothingUsed(g, unpinned, groups);
  }

  lemma PlacedPins(g: Grid, pinned: seq<WidgetInput>, unpinned: seq<WidgetInput>, groups: seq<ShapeGroup>,
                   board: Board, pp: seq<PlacedWidget>, up: seq<UnpinnedPlacement>)
    requires Consistent(g, pinned, unpinned, groups, board, pp, up)
    ensures PinnedOk(pinned, pp)
  {}

  /** The layout found comes first. */
  lemma LayoutIsFirst(g: Grid, widgets: seq<WidgetInput>, groups: seq<ShapeGroup>, k: nat, budget: int, maxSearchNodes: int,
                      want: seq<Spot>, nodes: int, board: Board, pp: seq<PlacedWidget>, up: seq<UnpinnedPlacement>, layout: Layout)
    requires Supported(g) && k == ScreensOf(g, widgets) == |board| >= 1 && Full(g, board)
    requires Used(Pick(widgets, false), groups) == {} && Left(DemandsOf(groups)) == |Pick(widgets, false)|
    requires budget == (if maxSearchNodes <= 0 then DEFAULT_MAX_SEARCH_NODES else maxSearchNodes)
    requires want == Wanted(g, widgets, groups, k, budget) && Grouped(g, Pick(widgets, false), groups)
    requires StraightPins(g, EmptyBoard(k), PinnedOf(widgets), 0, Pick(widgets, false), groups, 0, budget, want) ==>
               PinnedSpots(pp) == want && nodes <= 512
    requires PinnedOk(PinnedOf(widgets), pp) && |pp| == |PinnedOf(widgets)|
    requires AreFirstPins(g, EmptyBoard(k), DimensionsOf(PinnedOf(widgets)), DemandsOf(groups), PinnedSpots(pp))
    requires FilledInOrder(g, PutAll(EmptyBoard(k), PinnedSpots(pp)), Pick(widgets, false), {}, up, nodes)
    requires DistinctIds(widgets) && DistinctIds(PinnedOf(widgets) + Pick(widgets, false))
    requires forall w :: w in widgets <==> w in PinnedOf(widgets) + Pick(widgets, false)
    requires forall i :: 0 <= i < |PinnedOf(widgets)| ==> PinnedOf(widgets)[i].pinned
    requires |Pick(widgets, false)| > 0 || nodes <= 512
    requires |Pick(widgets, false)| > 0 ==> nodes <= budget
    requires var order := ScreenOrder(MinOrders(up, |board|));
      && IsPermutation(order, |board|)
      && |layout.screens| == layout.totalScreens == |board|
      && forall n :: 0 <= n < |board| ==>
           layout.screens[n] == Screen(n, board[order[n]], Sort(ScreenWidgets(pp, up, order[n]), ReadsBefore))
    ensures FoundFirst(g, widgets, layout, false) || FoundFirst(g, widgets, layout, true)
    ensures 0 < maxSearchNodes <= 512 ==> FoundFirst(g, widgets, layout, false)
    ensures KeepsSequence(g, widgets, maxSearchNodes, Ok(layout))
  {
    hide AreFirstPins, PutAll, IsFirstFilling, Grouped, DistinctIds, Used, Left, Sort, Pick, PinnedOf, ScreenOrder, ScreenWidgets,
      StraightPins, PinsComeFirst, MinOrders, ScreensOf, DemandsOf, PinnedOk, InSequence, AllCells, IsPermutation, EarliestFirst, ShowsInPlace,
      FewEnough;
    var pinned, ws, perm := PinnedOf(widgets), Pick(widgets, false), ScreenOrder(MinOrders(up, k));
    PinsFirstOfTilings(g, k, widgets, pinned, groups, PinnedSpots(pp));
    AssembledSo(g, board, layout, pp, up, perm);
    OrderIsKept(g, PutAll(EmptyBoard(k), PinnedSpots(pp)), widgets, up, k, nodes);
    assert forall bySize :: IsFirstFilling(g, PutAll(EmptyBoard(k), PinnedSpots(pp)), ws, {}, bySize, up) ==>
                              IsFirstFound(g, widgets, layout, bySize, pp, up, perm);
    forall pins, vp | InSequence(g, widgets, pins, vp) && FewEnough(widgets, maxSearchNodes)
      ensures ShowsInPlace(layout, pinned, pins, vp) {
      SequenceIsWanted(g, widgets, groups, k, budget, maxSearchNodes, pins, vp);
      FewIsFew(widgets, maxSearchNodes);
      SequenceShown(g, widgets, layout, pp, up, pins, vp);
    }
  }

  lemma FewIsFew(widgets: seq<WidgetInput>, maxSearchNodes: int)
    requires FewEnough(widgets, maxSearchNodes)
    ensures |Pick(widgets, false)| < 512
  {}

  lemma AssembledSo(g: Grid, board: Board, layout: Layout, pp: seq<PlacedWidget>, up: seq<UnpinnedPlacement>, perm: seq<int>)
    requires Full(g, board) && IsPermutation(perm, |board|) && |layout.screens| == layout.totalScreens == |board|
    requires forall n :: 0 <= n < |board| ==>
               layout.screens[n] == Screen(n, board[perm[n]], Sort(ScreenWidgets(pp, up, perm[n]), ReadsBefore))
    ensures Assembled(g, layout, pp, up, perm)
  {
    hide Sort, ScreenWidgets, AllCells;
  }

  lemma {:induction false} PickIsShorter(widgets: seq<WidgetInput>, pinned: bool)
    ensures |Pick(widgets, pinned)| <= |widgets|
  {
    if widgets != [] {
      PickIsShorter(widgets[..|widgets| - 1], pinned);
    }
  }

  lemma OrderIsKept(g: Grid, board: Board, widgets: seq<WidgetInput>, up: seq<UnpinnedPlacement>, k: nat, nodes: int)
    requires FilledInOrder(g, board, Pick(widgets, false), {}, up, nodes)
    ensures |widgets| <= 0x4000_0000 ==> EarliestFirst(up, ScreenOrder(MinOrders(up, k)))
  {
    hide Pick, EarliestFirst, ScreenOrder, MinOrders, Fills;
    if |widgets| <= 0x4000_0000 {
      PickIsShorter(widgets, false);
      forall j | 0 <= j < |up| ensures up[j].order < NO_ORDER {
        FilledUnused(g, board, Pick(widgets, false), {}, up, j);
      }
      forall i, j | 0 <= i < j < |up| ensures up[i].order != up[j].order {
        FilledOrders(g, board, Pick(widgets, false), {}, up, i, j);
      }
      ScreensInOrder(up, k);
    }
  }

  /** The layout or the error, and whether the search ended below its budget. */
  method SolveGridWithBudget(widgets: seq<WidgetInput>, gridCols: int, gridRows: int, maxSearchNodes: int)
    returns (r: Result<Layout>, belowBudget: bool)
    ensures Answers(NormalizeGrid(gridCols, gridRows), widgets, r, belowBudget)
    ensures (if maxSearchNodes <= 0 then 100_000 else maxSearchNodes) > SearchBound(NormalizeGrid(gridCols, gridRows), widgets) ==> belowBudget
    ensures 0 < maxSearchNodes <= |Pick(widgets, false)| ==> r.Err?
    ensures r.Ok? ==> FoundFirst(NormalizeGrid(gridCols, gridRows), widgets, r.value, false)
                      || FoundFirst(NormalizeGrid(gridCols, gridRows), widgets, r.value, true)
    ensures r.Ok? && 0 < maxSearchNodes <= 512 ==> FoundFirst(NormalizeGrid(gridCols, gridRows), widgets, r.value, false)
    ensures KeepsSequence(NormalizeGrid(gridCols, gridRows), widgets, maxSearchNodes, r)
  {
    hide Tileable, Explains, Consistent, IsTiling, AreaOf, DistinctIds, GoodPrefix, PinnedCompletable, Depicts, Full,
      ComputeScreensForGrid, PinBound, NodeBound, Left, DemandsOf, Pick, SearchBound, FoundFirst, KeepsSequence, InSequence, CanFit,
      Listed, Untouched, Grouped, Used, LargestFirst, AreFirstPins, FilledInOrder, StraightPins, PutAll, PinnedSpots, Sort, ScreensOf;
    belowBudget := true;
    var g := NormalizeGrid(gridCols, gridRows);
    var budget := if maxSearchNodes <= 0 then DEFAULT_MAX_SEARCH_NODES else maxSearchNodes;
    if |widgets| == 0 {
      NothingCannotTile(g, widgets);
      NothingInSequence(g, widgets, maxSearchNodes, Err(Deficit(1, CellCount(g))));
      return Err(Deficit(1, CellCount(g))), true;
    }
    var partition := PartitionAndValidateWidgets(g, widgets);
    if partition.Err? {
      RefusedInSequence(g, widgets, maxSearchNodes, Err(partition.error));
      return Err(partition.error), true;
    }
    var Partition(unsorted, unpinned, k) := partition.value;
    var pinned, groups := unsorted, [];
    PickedIsGood(g, widgets);
    pinned, groups := SortAndGroupWidgets(g, unsorted, unpinned);
    SameWidgets(g, widgets, pinned);
    InitialConsistent(g, k, pinned, unpinned, groups);
    var solver := new GridSolver(g, budget, k, pinned, unpinned, groups);
    SearchIsBounded(g, widgets, pinned, groups, k);
    StartsUnused(g, unpinned, groups);
    ghost var want := Wanted(g, widgets, groups, k, budget);
    var ok := solver.PlacePinned(0, want);
    belowBudget := solver.nodeCount < budget;
    if !ok {
      if belowBudget {
        assert pinned[0..] == pinned;
        NotTileable(g, k, widgets, pinned, unpinned, groups);
      }
      NotFoundInSequence(g, widgets, groups, k, budget, maxSearchNodes, want);
      return Err(CannotTile), belowBudget;
    }
    var pp, up := solver.pinnedPlacements[..|pinned|], solver.unpinnedPlacements[..solver.placedCount];
    var layout := AssembleSolvedLayout(solver.board, pp, up);
    SolutionFound(g, widgets, pinned, unpinned, solver.shapeGroups, solver.board, pp, up, layout);
    PlacedPins(g, pinned, unpinned, solver.shapeGroups, solver.board, pp, up);
    assert solver.pinnedPlacements[0..] == pp && pinned[0..] == pinned;
    LayoutIsFirst(g, widgets, groups, k, budget, maxSearchNodes, want, solver.nodeCount, solver.board, pp, up, layout);
    return Ok(layout), belowBudget;
  }

  /** The most nodes the search can visit: a number that depends on the grid and the number of widgets only. */
  function SearchBound(g: Grid, widgets: seq<WidgetInput>): nat
    requires Supported(g)
  {
    PinBound(CellCount(g), |Pick(widgets, true)|, 2 * NodeBound(CellCount(g), |Pick(widgets, false)|))
  }

  lemma {:induction false} MoreShapesMoreNodes(a: nat, b: nat, left: int)
    requires a <= b
    ensures NodeBound(a, left) <= NodeBound(b, left)
    decreases left
  {
    if left > 0 {
      MoreShapesMoreNodes(a, b, left - 1);
      Multiply(a, b, BranchBound(a, left), BranchBound(b, left));
    }
  }

  lemma Multiply(a: nat, b: nat, x: nat, y: nat)
    requires a <= b && x <= y
    ensures a * x <= b * y
  {
    assert a * x <= b * x;
    assert b * x <= b * y;
  }

  lemma {:induction false} MoreBelowMorePins(cells: nat, pins: nat, a: nat, b: nat)
    requires a <= b
    ensures PinBound(cells, pins, a) <= PinBound(cells, pins, b)
  {
    if pins > 0 {
      MoreBelowMorePins(cells, pins - 1, a, b);
      Multiply(cells, cells, PinBound(cells, pins - 1, a), PinBound(cells, pins - 1, b));
    }
  }

  /** There are no more shapes than cells: a shape is told by its far corner. */
  lemma FewShapes(g: Grid, unpinned: seq<WidgetInput>, groups: seq<ShapeGroup>)
    requires Supported(g) && GroupsOk(g, unpinned, groups)
    ensures |groups| <= CellCount(g)
  {
    var corners := seq(|groups|, i requires 0 <= i < |groups| => Cell(groups[i].dims.cols - 1, groups[i].dims.rows - 1));
    forall i, j | 0 <= i < j < |corners| ensures corners[i] != corners[j] {
      assert DemandsOf(groups)[i].dims != DemandsOf(groups)[j].dims;
    }
    DistinctSize(corners);
    var used := set i | 0 <= i < |corners| :: corners[i];
    forall cell | cell in used ensures cell in AllCells(g) {
      var i :| 0 <= i < |corners| && corners[i] == cell;
      assert GroupOk(g, unpinned, groups[i]);
    }
    SubsetSize(used, AllCells(g));
    RectSize(Rect(0, 0, g.cols, g.rows));
  }

  lemma SearchIsBounded(g: Grid, widgets: seq<WidgetInput>, pinned: seq<WidgetInput>, groups: seq<ShapeGroup>, k: nat)
    requires Supported(g) && multiset(pinned) == multiset(Pick(widgets, true))
    requires Consistent(g, pinned, Pick(widgets, false), groups, EmptyBoard(k), [], [])
    ensures PinBound(g.cols * g.rows, |pinned|, 2 * NodeBound(|groups|, Left(DemandsOf(groups)))) <= SearchBound(g, widgets)
    ensures Left(DemandsOf(groups)) == |Pick(widgets, false)|
  {
    hide PinBound, NodeBound, Pick, OnBoard, GroupsOk, Balanced;
    assert |pinned| == |multiset(pinned)| == |multiset(Pick(widgets, true))| == |Pick(widgets, true)|;
    FewShapes(g, Pick(widgets, false), groups);
    assert Left(DemandsOf(groups)) == |Pick(widgets, false)|;
    MoreShapesMoreNodes(|groups|, CellCount(g), Left(DemandsOf(groups)));
    MoreBelowMorePins(CellCount(g), |pinned|, 2 * NodeBound(|groups|, Left(DemandsOf(groups))),
                      2 * NodeBound(CellCount(g), Left(DemandsOf(groups))));
  }

  /** Below its budget the solver decides: it finds a layout exactly when valid widgets can tile some number of screens. */
  lemma AnswerIsExact(g: Grid, widgets: seq<WidgetInput>, r: Result<Layout>)
    requires Answers(g, widgets, r, true) && GoodPrefix(g, widgets, |widgets|)
    ensures r.Ok? <==> exists k :: k >= 1 && Tileable(g, k, widgets)
  {
    hide IsTiling, Depicts, Text.Trim;
    if r.Ok? {
      var plan :| IsSolution(g, widgets, r.value, plan);
      assert Tileable(g, |r.value.screens|, widgets);
    } else {
      assert r.error != CannotTile ==> Explains(g, widgets, r.error);
    }
  }

  /** For valid widgets that can tile some screens, an error can only be a search that ran into its budget. */
  lemma ErrorMeansBudget(g: Grid, widgets: seq<WidgetInput>, r: Result<Layout>, belowBudget: bool, k: int)
    requires Answers(g, widgets, r, belowBudget) && GoodPrefix(g, widgets, |widgets|) && k >= 1 && Tileable(g, k, widgets) && r.Err?
    ensures r.error == CannotTile && !belowBudget
  {
    hide Tileable, Text.Trim;
    assert r.error != CannotTile ==> Explains(g, widgets, r.error);
  }

  /** Two halves of the landscape grid. */
  function TwoHalves(): seq<WidgetInput> {
    [WidgetInput("a", "", Dimension(3, 2), false), WidgetInput("b", "", Dimension(3, 2), false)]
  }

  lemma TwoHalvesTile()
    ensures Tileable(Grid(6, 2), 1, TwoHalves())
  {
    hide RectCells;
    var g, ws := Grid(6, 2), TwoHalves();
    var a, b := On(0, Rect(0, 0, 3, 2)), On(0, Rect(3, 0, 3, 2));
    var plan: Plan := map["a" := a, "b" := b];
    var spots := SpotsOf(ws, plan);
    assert spots == [a, b];
    HalvesCover();
    assert Compatible(spots);
    forall s | 0 <= s < 1 ensures Covered(spots, s) == AllCells(g) {
      assert spots[..1] == [a] && [a][..0] == [];
      assert Covered([a], 0) == RectCells(a.rect);
    }
    assert IsTiling(g, 1, ws, plan);
  }

  lemma HalvesCover()
    ensures RectCells(Rect(0, 0, 3, 2)) + RectCells(Rect(3, 0, 3, 2)) == AllCells(Grid(6, 2))
    ensures RectCells(Rect(0, 0, 3, 2)) !! RectCells(Rect(3, 0, 3, 2))
  {}

  lemma TwoHalvesAreGood()
    ensures GoodPrefix(Grid(6, 2), TwoHalves(), 2) && |Pick(TwoHalves(), false)| == 2
  {
    assert Text.Trim("a") == "a" && Text.Trim("b") == "b" by {
      assert Text.TrimLeft("a") == "a" && Text.TrimLeft("b") == "b";
      assert Text.TrimRight("a") == "a" && Text.TrimRight("b") == "b";
    }
    var ws := TwoHalves();
    assert ws[..1] == [ws[0]] && [ws[0]][..0] == [];
  }

  /** With a budget of one node the solver reports that two halves cannot tile the grid, although they do. */
  method TooSmallABudget() returns (r: Result<Layout>)
    ensures r == Err(CannotTile) && Tileable(Grid(6, 2), 1, TwoHalves())
  {
    hide Answers, Tileable, GoodPrefix, Pick, TwoHalves;
    var below;
    TwoHalvesAreGood();
    TwoHalvesTile();
    r, below := SolveGridWithBudget(TwoHalves(), 6, 2, 1);
    HalvesCount();
    ErrorMeansBudget(Grid(6, 2), TwoHalves(), r, below, 1);
  }

  lemma HalvesCount()
    ensures |TwoHalves()| == 2
  {}

  lemma NothingCannotTile(g: Grid, widgets: seq<WidgetInput>)
    requires Supported(g) && widgets == []
    ensures Explains(g, widgets, Deficit(1, CellCount(g)))
  {
    NoFitNoTiling(g, widgets);
  }

  lemma PickedIsGood(g: Grid, widgets: seq<WidgetInput>)
    requires GoodPrefix(g, widgets, |widgets|)
    ensures forall i :: 0 <= i < |Pick(widgets, false)| ==> ValidDimension(g, Pick(widgets, false)[i].dims)
  {
    SameWidgets(g, widgets, Pick(widgets, true));
  }

  lemma NotTileable(g: Grid, k: nat, widgets: seq<WidgetInput>, pinned: seq<WidgetInput>, unpinned: seq<WidgetInput>,
                    groups: seq<ShapeGroup>)
    requires Supported(g) && GoodPrefix(g, widgets, |widgets|) && k >= 1 && Grouped(g, unpinned, groups)
    requires AreaFits(AreaOf(widgets, true), AreaOf(widgets, false), CellCount(g), k)
    requires DistinctIds(widgets) && DistinctIds(pinned + unpinned) && forall w :: w in widgets <==> w in pinned + unpinned
    requires forall i :: 0 <= i < |pinned| ==> pinned[i].pinned
    requires forall i :: 0 <= i < |unpinned| ==> !unpinned[i].pinned
    requires !PinnedCompletable(g, EmptyBoard(k), DimensionsOf(pinned), DemandsOf(groups))
    ensures forall j :: j >= 1 ==> !Tileable(g, j, widgets)
  {
    forall j | j >= 1 ensures !Tileable(g, j, widgets) {
      if plan :| IsTiling(g, j, widgets, plan) {
        MovesToComputedScreens(g, k, j, widgets, plan);
        TilingIgnoresOrder(g, k, widgets, pinned + unpinned, plan);
        TileableIsCompletable(g, k, pinned, unpinned, DemandsOf(groups));
      }
    }
  }

  lemma SolutionFound(g: Grid, widgets: seq<WidgetInput>, pinned: seq<WidgetInput>, unpinned: seq<WidgetInput>,
                      groups: seq<ShapeGroup>, board: Board, pp: seq<PlacedWidget>, up: seq<UnpinnedPlacement>, layout: Layout)
    requires Consistent(g, pinned, unpinned, groups, board, pp, up) && |pp| == |pinned| && Full(g, board)
    requires DistinctIds(widgets) && DistinctIds(pinned + unpinned) && forall w :: w in widgets <==> w in pinned + unpinned
    requires forall i :: 0 <= i < |pinned| ==> pinned[i].pinned
    requires forall i :: 0 <= i < |unpinned| ==> !unpinned[i].pinned
    requires var order := ScreenOrder(MinOrders(up, |board|));
      && IsPermutation(order, |board|)
      && |layout.screens| == layout.totalScreens == |board|
      && forall n :: 0 <= n < |board| ==>
           layout.screens[n] == Screen(n, board[order[n]], Sort(ScreenWidgets(pp, up, order[n]), ReadsBefore))
    ensures exists plan :: IsSolution(g, widgets, layout, plan)
  {
    hide Consistent, IsTiling, DistinctIds, Assigns, PinnedOk, UnpinnedOk, Depicts, ScreenWidgets, Sort, ScreenOrder, PinnedSpots,
      Renumber, SpotOf, SpotsAgree;
    ConsistentFacts(g, pinned, unpinned, groups, board, pp, up);
    var perm := ScreenOrder(MinOrders(up, |board|));
    var plan, spots := FullIsTiling(g, widgets, pinned, unpinned, groups, board, pp, up, perm);
    AgreeFromRenumbering(pinned, unpinned, groups, pp, up, perm, spots);
    TilingPlacesAll(g, |board|, widgets, plan);
    forall n | 0 <= n < |board| ensures Depicts(layout.screens[n], n, g, widgets, plan) {
      ScreenIsDepicted(g, widgets, pinned, pp, up, perm, plan, spots, n);
    }
    assert IsSolution(g, widgets, layout, plan);
  }

  lemma TilingPlacesAll(g: Grid, k: int, widgets: seq<WidgetInput>, plan: Plan)
    requires IsTiling(g, k, widgets, plan)
    ensures PlacesAll(plan, widgets)
  {}
}
