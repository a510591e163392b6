/**
  What the layout solver is for, stated without the solver.

  A plan gives every widget a spot; a plan is a tiling of k screens when every cell of
  every screen is covered by exactly one widget. Plans are keyed by widget id, so the order
  in which widgets are listed, grouped or sorted does not matter.
 */
module Tilings {
  import opened Grid
  import opened Board
  import opened Search

  datatype WidgetInput = WidgetInput(id: string, kind: string, dims: Dimension, pinned: bool)

  type Plan = map<string, Spot>

  predicate DistinctIds(widgets: seq<WidgetInput>) {
    forall i, j :: 0 <= i < j < |widgets| ==> widgets[i].id != widgets[j].id
  }

  predicate Places(plan: Plan, w: WidgetInput) {
    && w.id in plan
    && plan[w.id].Pinned? == w.pinned
    && DimensionOf(plan[w.id].rect) == w.dims
  }

  predicate PlacesAll(plan: Plan, widgets: seq<WidgetInput>) {
    forall i :: 0 <= i < |widgets| ==> Places(plan, widgets[i])
  }

  function SpotsOf(widgets: seq<WidgetInput>, plan: Plan): (spots: seq<Spot>)
    requires PlacesAll(plan, widgets)
    ensures |spots| == |widgets|
    ensures forall i :: 0 <= i < |widgets| ==> spots[i] == plan[widgets[i].id]
  {
    seq(|widgets|, i requires 0 <= i < |widgets| => plan[widgets[i].id])
  }

  predicate IsTiling(g: Grid, k: int, widgets: seq<WidgetInput>, plan: Plan) {
    PlacesAll(plan, widgets) && Tiled(g, k, SpotsOf(widgets, plan))
  }

  ghost predicate Tileable(g: Grid, k: int, widgets: seq<WidgetInput>) {
    exists plan :: IsTiling(g, k, widgets, plan)
  }

  /** Listing the widgets in another order changes nothing. */
  lemma TilingIgnoresOrder(g: Grid, k: int, ws: seq<WidgetInput>, vs: seq<WidgetInput>, plan: Plan)
    requires DistinctIds(ws) && DistinctIds(vs)
    requires forall w :: w in ws <==> w in vs
    requires IsTiling(g, k, ws, plan)
    ensures IsTiling(g, k, vs, plan)
  {
    forall i | 0 <= i < |vs| ensures Places(plan, vs[i]) {
      assert vs[i] in ws;
    }
    var wspots, vspots := SpotsOf(ws, plan), SpotsOf(vs, plan);
    forall i | 0 <= i < |vs| ensures Legal(g, k, vspots[i]) {
      assert vs[i] in ws;
      var j :| 0 <= j < |ws| && ws[j] == vs[i];
      assert wspots[j] == vspots[i];
    }
    forall i, j | 0 <= i < j < |vs| ensures !Clash(vspots[i], vspots[j]) {
      assert vs[i] in ws && vs[j] in ws;
      var a :| 0 <= a < |ws| && ws[a] == vs[i];
      var b :| 0 <= b < |ws| && ws[b] == vs[j];
      assert vspots[i] == wspots[a] && vspots[j] == wspots[b];
      assert a < b ==> !Clash(wspots[a], wspots[b]);
      assert b < a ==> !Clash(wspots[b], wspots[a]);
    }
    forall s | 0 <= s < k ensures Covered(vspots, s) == AllCells(g) {
      forall sp ensures sp in vspots <==> sp in wspots {
        SameSpots(ws, vs, plan, sp);
        SameSpots(vs, ws, plan, sp);
      }
      CoveredByMembers(vspots, wspots, s);
    }
  }

  lemma SameSpots(ws: seq<WidgetInput>, vs: seq<WidgetInput>, plan: Plan, sp: Spot)
    requires PlacesAll(plan, ws) && PlacesAll(plan, vs) && forall w :: w in ws ==> w in vs
    ensures sp in SpotsOf(ws, plan) ==> sp in SpotsOf(vs, plan)
  {
    if i :| 0 <= i < |ws| && SpotsOf(ws, plan)[i] == sp {
      assert ws[i] in vs;
      var j :| 0 <= j < |vs| && vs[j] == ws[i];
      assert SpotsOf(vs, plan)[j] == sp;
    }
  }

  // ----- area

  /** Total area of the pinned (or of the unpinned) widgets. */
  function AreaOf(widgets: seq<WidgetInput>, pinned: bool): int {
    if widgets == [] then 0
    else
      var last := widgets[|widgets| - 1];
      AreaOf(widgets[..|widgets| - 1], pinned) + if last.pinned == pinned then Area(last.dims) else 0
  }

  lemma {:induction false} WeightOfPlan(g: Grid, k: nat, widgets: seq<WidgetInput>, plan: Plan)
    requires PlacesAll(plan, widgets) && AllLegal(g, k, SpotsOf(widgets, plan))
    ensures TotalWeight(SpotsOf(widgets, plan), k) == k * AreaOf(widgets, true) + AreaOf(widgets, false)
  {
    var spots := SpotsOf(widgets, plan);
    if widgets != [] {
      var rest, last := widgets[..|widgets| - 1], widgets[|widgets| - 1];
      assert spots[..|spots| - 1] == SpotsOf(rest, plan);
      WeightOfPlan(g, k, rest, plan);
      Weight(spots[|spots| - 1], k);
      if last.pinned {
        assert k * (AreaOf(rest, true) + Area(last.dims)) == k * AreaOf(rest, true) + k * Area(last.dims);
      }
    }
  }

  /** Only widgets whose areas add up to whole screens can tile. */
  lemma TilingArea(g: Grid, k: nat, widgets: seq<WidgetInput>, plan: Plan)
    requires Supported(g) && k >= 1 && IsTiling(g, k, widgets, plan)
    ensures AreaOf(widgets, false) == k * (CellCount(g) - AreaOf(widgets, true))
  {
    TiledIffAreaFits(g, SpotsOf(widgets, plan), k);
    WeightOfPlan(g, k, widgets, plan);
  }

  // ----- a tiling is a completion of the empty board

  function DimensionsOf(widgets: seq<WidgetInput>): (ds: seq<Dimension>)
    ensures |ds| == |widgets| && forall i :: 0 <= i < |widgets| ==> ds[i] == widgets[i].dims
  {
    seq(|widgets|, i requires 0 <= i < |widgets| => widgets[i].dims)
  }

  function CountShape(ds: seq<Dimension>, d: Dimension): nat {
    if ds == [] then 0
    else CountShape(ds[..|ds| - 1], d) + if ds[|ds| - 1] == d then 1 else 0
  }

  /** The demands list every shape once, with the number of its occurrences. */
  predicate DemandsMatch(demands: seq<Demand>, ds: seq<Dimension>) {
    && DistinctShapes(demands)
    && (forall i :: 0 <= i < |demands| ==> demands[i].count == CountShape(ds, demands[i].dims))
    && (forall i :: 0 <= i < |ds| ==> HasShape(demands, ds[i]))
  }

  function SpotSet(spots: seq<Spot>): set<Spot> {
    set i | 0 <= i < |spots| :: spots[i]
  }

  function ShapesOf(spots: seq<Spot>): (ds: seq<Dimension>)
    ensures |ds| == |spots| && forall i :: 0 <= i < |spots| ==> ds[i] == DimensionOf(spots[i].rect)
  {
    seq(|spots|, i requires 0 <= i < |spots| => DimensionOf(spots[i].rect))
  }

  lemma LastIsNew(g: Grid, k: int, spots: seq<Spot>)
    requires spots != [] && Compatible(spots) && AllLegal(g, k, spots)
    ensures spots[|spots| - 1] !in SpotSet(spots[..|spots| - 1])
  {
    var n := |spots| - 1;
    assert Cell(spots[n].rect.col, spots[n].rect.row) in RectCells(spots[n].rect);
    assert Clash(spots[n], spots[n]);
    assert forall i :: 0 <= i < n ==> spots[i] != spots[n];
  }

  /** Spots that do not clash are distinct, so a set of them has as many as the list. */
  lemma {:induction false} TileCount(g: Grid, k: int, spots: seq<Spot>, d: Dimension)
    requires Compatible(spots) && AllLegal(g, k, spots)
    ensures |OfShape(SpotSet(spots), d)| == CountShape(ShapesOf(spots), d)
  {
    hide Clash, InBounds, RectCells, DimensionOf, SpotSet;
    if spots == [] {
      NoSpots();
      assert OfShape(SpotSet(spots), d) == {};
    } else {
      var n := |spots| - 1;
      TileCount(g, k, spots[..n], d);
      LastIsNew(g, k, spots);
      assert ShapesOf(spots)[..n] == ShapesOf(spots[..n]);
      SpotSetGrows(spots);
      var before := OfShape(SpotSet(spots[..n]), d);
      assert OfShape(SpotSet(spots), d) == if DimensionOf(spots[n].rect) == d then before + {spots[n]} else before;
    }
  }

  lemma NoSpots()
    ensures SpotSet([]) == {}
  {}

  lemma SpotSetGrows(spots: seq<Spot>)
    requires spots != []
    ensures SpotSet(spots) == SpotSet(spots[..|spots| - 1]) + {spots[|spots| - 1]}
  {}

  /** The spots of a tiling fit a board that holds the rest of it. */
  lemma SpotFits(g: Grid, board: Board, pinned: seq<Spot>, spots: seq<Spot>, i: nat)
    requires Tiled(g, |board|, pinned + spots) && Tracks(board, pinned)
    requires i < |spots| && spots[i].On?
    ensures Legal(g, |board|, spots[i]) && board[spots[i].screen] !! RectCells(spots[i].rect)
  {
    var all := pinned + spots;
    assert all[|pinned| + i] == spots[i] && Legal(g, |board|, all[|pinned| + i]);
    var s := spots[i].screen;
    if cell :| cell in board[s] && cell in RectCells(spots[i].rect) {
      CoveredBy(pinned, s, cell);
      var j :| 0 <= j < |pinned| && Shows(pinned[j], s) && InRect(pinned[j].rect, cell);
      assert all[j] == pinned[j] && Clash(all[j], all[|pinned| + i]);
      assert false;
    }
  }

  lemma SpotsCover(g: Grid, board: Board, pinned: seq<Spot>, spots: seq<Spot>, s: int, cell: Cell)
    requires Tiled(g, |board|, pinned + spots) && Tracks(board, pinned)
    requires forall i :: 0 <= i < |spots| ==> spots[i].On?
    requires 0 <= s < |board| && cell in AllCells(g)
    ensures CoversCell(board, SpotSet(spots), s, cell)
  {
    var all := pinned + spots;
    CoveredBy(all, s, cell);
    assert cell in Covered(all, s);
    var i :| 0 <= i < |all| && Shows(all[i], s) && InRect(all[i].rect, cell);
    if i < |pinned| {
      assert all[i] == pinned[i];
      CoveredBy(pinned, s, cell);
    } else {
      assert all[i] == spots[i - |pinned|] && all[i] in SpotSet(spots);
    }
  }

  /** Once the pinned spots are on the board, the other spots of a tiling complete it. */
  lemma UnpinnedComplete(g: Grid, board: Board, pinned: seq<Spot>, spots: seq<Spot>, demands: seq<Demand>)
    requires Tiled(g, |board|, pinned + spots) && Tracks(board, pinned)
    requires DemandsMatch(demands, ShapesOf(spots))
    requires forall i :: 0 <= i < |spots| ==> spots[i].On?
    ensures Completable(g, board, demands)
  {
    var all, tiles := pinned + spots, SpotSet(spots);
    assert forall i :: 0 <= i < |spots| ==> all[|pinned| + i] == spots[i];
    assert Compatible(spots) && AllLegal(g, |board|, spots);
    forall t | t in tiles ensures FitsBoard(g, board, demands, t) {
      var i :| 0 <= i < |spots| && spots[i] == t;
      SpotFits(g, board, pinned, spots, i);
      assert HasShape(demands, ShapesOf(spots)[i]);
    }
    forall t, u | t in tiles && u in tiles && t != u ensures !Clash(t, u) {
      var i :| 0 <= i < |spots| && spots[i] == t;
      var j :| 0 <= j < |spots| && spots[j] == u;
      assert !Clash(spots[if i < j then i else j], spots[if i < j then j else i]);
    }
    forall s, cell | 0 <= s < |board| && cell in AllCells(g) ensures CoversCell(board, tiles, s, cell) {
      SpotsCover(g, board, pinned, spots, s, cell);
    }
    forall i | 0 <= i < |demands| ensures |OfShape(tiles, demands[i].dims)| == demands[i].count {
      TileCount(g, |board|, spots, demands[i].dims);
    }
    assert Completion(g, board, demands, tiles);
  }

  lemma NextPinnedFits(g: Grid, board: Board, pinned: seq<Spot>, n: nat, spots: seq<Spot>)
    requires n < |pinned| && |board| >= 1 && Tiled(g, |board|, pinned + spots) && Tracks(board, pinned[..n])
    ensures InBounds(g, pinned[n].rect) && Free(board, pinned[n]) && Tracks(Put(board, pinned[n]), pinned[..n] + [pinned[n]])
  {
    hide Covered, RectCells, Clash, Free, InBounds, Tracks;
    var all, sp := pinned + spots, pinned[n];
    assert forall i :: 0 <= i <= n ==> all[i] == pinned[i] && Legal(g, |board|, all[i]);
    assert forall i :: 0 <= i < n ==> !Clash(all[i], all[n]);
    FreeIffNoClash(g, board, pinned[..n], sp);
    PutKeepsTrack(board, pinned[..n], sp);
  }

  /** Completeness of the search space: if the first n pinned spots sit where a tiling puts
      them, the rest of that tiling is still reachable. */
  lemma {:induction false} TilingIsReachable(g: Grid, board: Board, pinned: seq<Spot>, n: nat, spots: seq<Spot>,
                                             demands: seq<Demand>)
    requires n <= |pinned| && |board| >= 1
    requires Tiled(g, |board|, pinned + spots) && Tracks(board, pinned[..n])
    requires DemandsMatch(demands, ShapesOf(spots))
    requires forall i :: 0 <= i < |pinned| ==> pinned[i].Pinned?
    requires forall i :: 0 <= i < |spots| ==> spots[i].On?
    ensures PinnedCompletion(g, board, ShapesOf(pinned[n..]), demands, pinned[n..])
    decreases |pinned| - n
  {
    hide Tiled, Completable, Put, DemandsMatch, Tracks, InBounds, Free;
    if n == |pinned| {
      assert pinned[..n] == pinned;
      UnpinnedComplete(g, board, pinned, spots, demands);
    } else {
      var sp := pinned[n];
      NextPinnedFits(g, board, pinned, n, spots);
      assert pinned[..n + 1] == pinned[..n] + [sp];
      TilingIsReachable(g, Put(board, sp), pinned, n + 1, spots, demands);
      var dims := ShapesOf(pinned[n..]);
      assert dims[1..] == ShapesOf(pinned[n + 1..]) && pinned[n..][1..] == pinned[n + 1..];
      assert sp == PinnedAt(sp.rect.col, sp.rect.row, dims[0]);
    }
  }

  /** The pinned spots of a tiling lie in the search space. */
  lemma TilingIsPinnedCompletion(g: Grid, k: nat, pinned: seq<WidgetInput>, unpinned: seq<WidgetInput>, demands: seq<Demand>, plan: Plan)
    requires k >= 1 && IsTiling(g, k, pinned + unpinned, plan)
    requires DemandsMatch(demands, DimensionsOf(unpinned))
    requires forall i :: 0 <= i < |pinned| ==> pinned[i].pinned
    requires forall i :: 0 <= i < |unpinned| ==> !unpinned[i].pinned
    ensures PlacesAll(plan, pinned) && PinnedCompletion(g, EmptyBoard(k), DimensionsOf(pinned), demands, SpotsOf(pinned, plan))
  {
    hide Tiled, DemandsMatch, PinnedCompletion;
    var all := pinned + unpinned;
    assert forall i :: 0 <= i < |pinned| ==> all[i] == pinned[i];
    assert forall i :: 0 <= i < |unpinned| ==> all[|pinned| + i] == unpinned[i];
    var ps, us := SpotsOf(pinned, plan), SpotsOf(unpinned, plan);
    assert SpotsOf(all, plan) == ps + us;
    assert ShapesOf(us) == DimensionsOf(unpinned);
    assert ShapesOf(ps[0..]) == DimensionsOf(pinned) && ps[0..] == ps;
    TilingIsReachable(g, EmptyBoard(k), ps, 0, us, demands);
  }

  /** If the pinned and unpinned widgets can tile k screens, the search space contains a tiling. */
  lemma TileableIsCompletable(g: Grid, k: nat, pinned: seq<WidgetInput>, unpinned: seq<WidgetInput>, demands: seq<Demand>)
    requires k >= 1 && Tileable(g, k, pinned + unpinned)
    requires DemandsMatch(demands, DimensionsOf(unpinned))
    requires forall i :: 0 <= i < |pinned| ==> pinned[i].pinned
    requires forall i :: 0 <= i < |unpinned| ==> !unpinned[i].pinned
    ensures PinnedCompletable(g, EmptyBoard(k), DimensionsOf(pinned), demands)
  {
    hide IsTiling, DemandsMatch, PinnedCompletion;
    var plan :| IsTiling(g, k, pinned + unpinned, plan);
    TilingIsPinnedCompletion(g, k, pinned, unpinned, demands, plan);
  }
}
