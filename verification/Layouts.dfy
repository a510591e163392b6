/**
  The back half of the solver: turning the placements of a successful search into a layout.
 */
module Layouts {
  import opened Grid
  import opened Board
  import opened Tilings
  import opened Fillings
  import opened Sorting
  import opened Groups
  import opened Solver

  datatype Screen = Screen(index: int, taken: set<Cell>, widgets: seq<PlacedWidget>)

  datatype Layout = Layout(totalScreens: int, screens: seq<Screen>)

  function PlacedAs(w: WidgetInput, sp: Spot): PlacedWidget {
    PlacedWidget(w.id, w.kind, sp.rect.col, sp.rect.row, w.dims, w.pinned)
  }

  /** Row by row, then column by column. */
  predicate ReadsBefore(a: PlacedWidget, b: PlacedWidget) {
    if a.row != b.row then a.row < b.row else a.col < b.col
  }

  /** Screen n of the layout shows exactly the widgets the plan puts there, each once. */
  ghost predicate Depicts(screen: Screen, n: int, g: Grid, widgets: seq<WidgetInput>, plan: Plan)
    requires PlacesAll(plan, widgets)
  {
    && screen.index == n && screen.taken == AllCells(g)
    && (forall i, j :: 0 <= i < j < |screen.widgets| ==> screen.widgets[i].id != screen.widgets[j].id)
    && (forall pw :: pw in screen.widgets <==> ShownOn(pw, n, widgets, plan))
    && Sorted(screen.widgets, ReadsBefore)
  }

  predicate ShownOn(pw: PlacedWidget, n: int, widgets: seq<WidgetInput>, plan: Plan)
    requires PlacesAll(plan, widgets)
  {
    exists i :: 0 <= i < |widgets| && Shows(plan[widgets[i].id], n) && pw == PlacedAs(widgets[i], plan[widgets[i].id])
  }

  ghost predicate IsSolution(g: Grid, widgets: seq<WidgetInput>, layout: Layout, plan: Plan) {
    && layout.totalScreens == |layout.screens| >= 1
    && IsTiling(g, |layout.screens|, widgets, plan)
    && forall n :: 0 <= n < |layout.screens| ==> Depicts(layout.screens[n], n, g, widgets, plan)
  }

  // ----- assembling the layout

  function AsPlaced(p: UnpinnedPlacement): PlacedWidget {
    PlacedWidget(p.widget.id, p.widget.kind, p.col, p.row, p.widget.dims, false)
  }

  /** The pinned widgets and the unpinned ones of screen s, in placement order. */
  function ScreenWidgets(pp: seq<PlacedWidget>, up: seq<UnpinnedPlacement>, s: int): seq<PlacedWidget> {
    if up == [] then pp
    else
      var rest, last := up[..|up| - 1], up[|up| - 1];
      ScreenWidgets(pp, rest, s) + if last.screen == s then [AsPlaced(last)] else []
  }

  /** The configuration order of the earliest unpinned widget of screen s. */
  function MinOrder(up: seq<UnpinnedPlacement>, s: int): int {
    if up == [] then NO_ORDER
    else
      var rest, last := up[..|up| - 1], up[|up| - 1];
      if last.screen == s && last.order < MinOrder(rest, s) then last.order else MinOrder(rest, s)
  }

  function MinOrders(up: seq<UnpinnedPlacement>, k: nat): (mins: seq<int>)
    ensures |mins| == k && forall s :: 0 <= s < k ==> mins[s] == MinOrder(up, s)
  {
    seq(k, s => MinOrder(up, s))
  }

  function KeyOf(mins: seq<int>, s: int): int {
    if 0 <= s < |mins| then mins[s] else 0
  }

  /** The screens in the order of their earliest widget. */
  function ScreenOrder(mins: seq<int>): seq<int> {
    Sort(seq(|mins|, s => s), (a: int, b: int) => KeyOf(mins, a) < KeyOf(mins, b))
  }

  method CollectScreen(pp: seq<PlacedWidget>, up: seq<UnpinnedPlacement>, s: int)
    returns (widgets: seq<PlacedWidget>, least: int)
    ensures widgets == ScreenWidgets(pp, up, s) && least == MinOrder(up, s)
  {
    least, widgets := NO_ORDER, pp;
    for i := 0 to |up|
      invariant least == MinOrder(up[..i], s) && widgets == ScreenWidgets(pp, up[..i], s)
    {
      assert up[..i + 1][..i] == up[..i];
      if up[i].screen == s {
        if up[i].order < least {
          least := up[i].order;
        }
        widgets := widgets + [AsPlaced(up[i])];
      }
    }
    assert up[..|up|] == up;
  }

  method AssembleSolvedLayout(board: Board, pp: seq<PlacedWidget>, up: seq<UnpinnedPlacement>) returns (layout: Layout)
    ensures var order := ScreenOrder(MinOrders(up, |board|));
      && IsPermutation(order, |board|)
      && |layout.screens| == layout.totalScreens == |board|
      && forall n :: 0 <= n < |board| ==>
           layout.screens[n] == Screen(n, board[order[n]], Sort(ScreenWidgets(pp, up, order[n]), ReadsBefore))
  {
    hide Sort, ScreenWidgets, MinOrder;
    var k := |board|;
    var screens, minOrder := [], [];
    for s := 0 to k
      invariant |screens| == |minOrder| == s
      invariant forall i :: 0 <= i < s ==> minOrder[i] == MinOrder(up, i)
      invariant forall i :: 0 <= i < s ==> screens[i] == Screen(i, board[i], Sort(ScreenWidgets(pp, up, i), ReadsBefore))
    {
      var widgets, least := CollectScreen(pp, up, s);
      minOrder := minOrder + [least];
      screens := screens + [Screen(s, board[s], Sort(widgets, ReadsBefore))];
    }
    assert minOrder == MinOrders(up, k);
    var orderIdx := ScreenOrder(minOrder);
    ScreenOrderPermutes(minOrder);
    var sorted := [];
    for n := 0 to k
      invariant |sorted| == n
      invariant forall i :: 0 <= i < n ==> sorted[i] == screens[orderIdx[i]].(index := i)
    {
      sorted := sorted + [screens[orderIdx[n]].(index := n)];
    }
    layout := Layout(k, sorted);
  }

  /** The screen order names every screen once, earliest widget first. */
  lemma ScreenOrderPermutes(mins: seq<int>)
    ensures var order := ScreenOrder(mins);
      && IsPermutation(order, |mins|)
      && forall i, j :: 0 <= i < j < |mins| ==> mins[order[i]] <= mins[order[j]]
  {
    var k := |mins|;
    var all, order := seq(k, s => s), ScreenOrder(mins);
    DistinctIgnoresOrder(all, order, (x: int) => x);
    forall i | 0 <= i < k ensures 0 <= order[i] < k {
      SameElements(all, order, order[i]);
    }
    forall i, j | 0 <= i < j < k ensures order[i] != order[j] {
      assert DistinctBy(order, (x: int) => x);
    }
    AllNumbersHit(order, k);
    SortSorts(all, (a: int, b: int) => KeyOf(mins, a) < KeyOf(mins, b));
  }

  predicate IsPermutation(perm: seq<int>, k: nat) {
    && |perm| == k
    && (forall i :: 0 <= i < k ==> 0 <= perm[i] < k)
    && (forall i, j :: 0 <= i < j < k ==> perm[i] != perm[j])
    && (forall x :: 0 <= x < k ==> x in perm)
  }

  // ----- renumbering screens

  function IndexOf(perm: seq<int>, x: int): (n: int)
    requires x in perm
    ensures 0 <= n < |perm| && perm[n] == x
  {
    if perm[0] == x then 0 else 1 + IndexOf(perm[1..], x)
  }

  function Renumber(sp: Spot, perm: seq<int>): Spot
    requires sp.On? ==> sp.screen in perm
  {
    if sp.Pinned? then sp else On(IndexOf(perm, sp.screen), sp.rect)
  }

  function RenumberAll(spots: seq<Spot>, perm: seq<int>): (r: seq<Spot>)
    requires forall i :: 0 <= i < |spots| && spots[i].On? ==> spots[i].screen in perm
    ensures |r| == |spots| && forall i :: 0 <= i < |spots| ==> r[i] == Renumber(spots[i], perm)
  {
    seq(|spots|, i requires 0 <= i < |spots| => Renumber(spots[i], perm))
  }

  lemma {:induction false} RenumberedCover(spots: seq<Spot>, perm: seq<int>, k: nat, n: int)
    requires IsPermutation(perm, k) && 0 <= n < k
    requires forall i :: 0 <= i < |spots| && spots[i].On? ==> spots[i].screen in perm
    ensures Covered(RenumberAll(spots, perm), n) == Covered(spots, perm[n])
  {
    if spots != [] {
      var m := |spots| - 1;
      RenumberedCover(spots[..m], perm, k, n);
      assert RenumberAll(spots, perm)[..m] == RenumberAll(spots[..m], perm);
      assert Shows(Renumber(spots[m], perm), n) <==> Shows(spots[m], perm[n]);
    }
  }

  /** Renumbering the screens of a tiling gives a tiling. */
  lemma RenumberKeepsTiled(g: Grid, k: nat, spots: seq<Spot>, perm: seq<int>)
    requires Tiled(g, k, spots) && IsPermutation(perm, k)
    requires forall i :: 0 <= i < |spots| && spots[i].On? ==> spots[i].screen in perm
    ensures Tiled(g, k, RenumberAll(spots, perm))
  {
    var r := RenumberAll(spots, perm);
    forall i | 0 <= i < |r| ensures Legal(g, k, r[i]) {
      assert Legal(g, k, spots[i]);
    }
    forall i, j | 0 <= i < j < |r| ensures !Clash(r[i], r[j]) {
      assert !Clash(spots[i], spots[j]);
    }
    forall n | 0 <= n < k ensures Covered(r, n) == AllCells(g) {
      RenumberedCover(spots, perm, k, n);
    }
  }

  // ----- the plan of a layout

  function PlanOf(ws: seq<WidgetInput>, spots: seq<Spot>): Plan
    requires |ws| == |spots|
  {
    if ws == [] then map[]
    else PlanOf(ws[..|ws| - 1], spots[..|ws| - 1])[ws[|ws| - 1].id := spots[|ws| - 1]]
  }

  lemma {:induction false} PlanLookup(ws: seq<WidgetInput>, spots: seq<Spot>, i: nat)
    requires |ws| == |spots| && i < |ws| && DistinctIds(ws)
    ensures ws[i].id in PlanOf(ws, spots) && PlanOf(ws, spots)[ws[i].id] == spots[i]
  {
    if i < |ws| - 1 {
      PlanLookup(ws[..|ws| - 1], spots[..|ws| - 1], i);
    }
  }

  function WidgetsOf(up: seq<UnpinnedPlacement>): (ws: seq<WidgetInput>)
    ensures |ws| == |up| && forall i :: 0 <= i < |up| ==> ws[i] == up[i].widget
  {
    seq(|up|, i requires 0 <= i < |up| => up[i].widget)
  }

  /** When the board is full, every widget has been placed, each once. */
  lemma EveryWidgetPlaced(unpinned: seq<WidgetInput>, groups: seq<ShapeGroup>, up: seq<UnpinnedPlacement>, pinned: seq<WidgetInput>)
    requires UnpinnedOk(unpinned, groups, up) && |up| == |unpinned|
    requires DistinctIds(pinned + unpinned)
    ensures DistinctIds(pinned + WidgetsOf(up))
    ensures forall w :: w in WidgetsOf(up) <==> w in unpinned
  {
    var orders := seq(|up|, j requires 0 <= j < |up| => up[j].order);
    AllNumbersHit(orders, |unpinned|);
    var all, placed := pinned + unpinned, pinned + WidgetsOf(up);
    forall i, j | 0 <= i < j < |placed| ensures placed[i].id != placed[j].id {
      var a := if i < |pinned| then i else |pinned| + orders[i - |pinned|];
      var b := if j < |pinned| then j else |pinned| + orders[j - |pinned|];
      assert placed[i] == all[a] && placed[j] == all[b] && a != b;
      assert all[if a < b then a else b].id != all[if a < b then b else a].id;
    }
    forall w | w in unpinned ensures w in WidgetsOf(up) {
      var o :| 0 <= o < |unpinned| && unpinned[o] == w;
      assert o in orders;
      var j :| 0 <= j < |orders| && orders[j] == o;
      assert WidgetsOf(up)[j] == w;
    }
  }

  lemma {:induction false} InScreenWidgets(pp: seq<PlacedWidget>, up: seq<UnpinnedPlacement>, s: int, pw: PlacedWidget)
    ensures pw in ScreenWidgets(pp, up, s) <==>
              pw in pp || exists j :: 0 <= j < |up| && up[j].screen == s && pw == AsPlaced(up[j])
  {
    if up != [] {
      var n := |up| - 1;
      InScreenWidgets(pp, up[..n], s, pw);
      if j :| 0 <= j < |up[..n]| && up[..n][j].screen == s && pw == AsPlaced(up[..n][j]) {
        assert up[j].screen == s && pw == AsPlaced(up[j]);
      }
      if j :| 0 <= j < |up| && up[j].screen == s && pw == AsPlaced(up[j]) {
        assert j < n ==> up[..n][j] == up[j];
      }
    }
  }

  lemma {:induction false} ScreenIdsDistinct(pp: seq<PlacedWidget>, up: seq<UnpinnedPlacement>, s: int)
    requires forall i, j :: 0 <= i < j < |pp| ==> pp[i].id != pp[j].id
    requires forall i, j :: 0 <= i < j < |up| ==> up[i].widget.id != up[j].widget.id
    requires forall i, j :: 0 <= i < |pp| && 0 <= j < |up| ==> pp[i].id != up[j].widget.id
    ensures DistinctBy(ScreenWidgets(pp, up, s), (pw: PlacedWidget) => pw.id)
  {
    if up != [] {
      var n := |up| - 1;
      ScreenIdsDistinct(pp, up[..n], s);
      var rest := ScreenWidgets(pp, up[..n], s);
      forall i | 0 <= i < |rest| ensures rest[i].id != up[n].widget.id {
        InScreenWidgets(pp, up[..n], s, rest[i]);
      }
    }
  }

  lemma ReadsBeforeIsWeakOrder()
    ensures WeakOrder(ReadsBefore)
  {}

  predicate Matches(ws: seq<WidgetInput>, spots: seq<Spot>) {
    && |ws| == |spots|
    && forall i :: 0 <= i < |ws| ==> spots[i].Pinned? == ws[i].pinned && DimensionOf(spots[i].rect) == ws[i].dims
  }

  predicate Assigns(plan: Plan, ws: seq<WidgetInput>, spots: seq<Spot>) {
    |ws| == |spots| && forall i :: 0 <= i < |ws| ==> ws[i].id in plan && plan[ws[i].id] == spots[i]
  }

  lemma PlanOfTiling(g: Grid, k: nat, ws: seq<WidgetInput>, spots: seq<Spot>)
    requires DistinctIds(ws) && Matches(ws, spots) && Tiled(g, k, spots)
    ensures IsTiling(g, k, ws, PlanOf(ws, spots)) && Assigns(PlanOf(ws, spots), ws, spots)
  {
    hide PlanOf, Tiled;
    var plan := PlanOf(ws, spots);
    forall i | 0 <= i < |ws| ensures Places(plan, ws[i]) && plan[ws[i].id] == spots[i] {
      PlanLookup(ws, spots, i);
    }
    assert SpotsOf(ws, plan) == spots;
  }

  lemma PlacementsMatch(pinned: seq<WidgetInput>, unpinned: seq<WidgetInput>, groups: seq<ShapeGroup>,
                        pp: seq<PlacedWidget>, up: seq<UnpinnedPlacement>, perm: seq<int>)
    requires PinnedOk(pinned, pp) && |pp| == |pinned| && UnpinnedOk(unpinned, groups, up)
    requires forall i :: 0 <= i < |pinned| ==> pinned[i].pinned
    requires forall i :: 0 <= i < |unpinned| ==> !unpinned[i].pinned
    requires forall i :: 0 <= i < |Spots(pp, up)| && Spots(pp, up)[i].On? ==> Spots(pp, up)[i].screen in perm
    ensures Matches(pinned + WidgetsOf(up), RenumberAll(Spots(pp, up), perm))
  {
    var ws, spots := pinned + WidgetsOf(up), Spots(pp, up);
    forall i | 0 <= i < |ws| ensures spots[i].Pinned? == ws[i].pinned && DimensionOf(spots[i].rect) == ws[i].dims {
      if i < |pinned| {
        assert ws[i] == pinned[i] && spots[i] == PinnedSpots(pp)[i];
      } else {
        assert ws[i] == up[i - |pinned|].widget && spots[i] == SpotOf(up[i - |pinned|]);
      }
    }
  }

  /** A full, consistent state is a tiling of the widgets, also when its screens are renumbered. */
  lemma FullIsTiling(g: Grid, widgets: seq<WidgetInput>, pinned: seq<WidgetInput>, unpinned: seq<WidgetInput>,
                     groups: seq<ShapeGroup>, board: Board, pp: seq<PlacedWidget>, up: seq<UnpinnedPlacement>, perm: seq<int>)
    returns (plan: Plan, spots: seq<Spot>)
    requires Consistent(g, pinned, unpinned, groups, board, pp, up) && |pp| == |pinned| && Full(g, board)
    requires DistinctIds(widgets) && DistinctIds(pinned + unpinned)
    requires forall w :: w in widgets <==> w in pinned + unpinned
    requires forall i :: 0 <= i < |pinned| ==> pinned[i].pinned
    requires forall i :: 0 <= i < |unpinned| ==> !unpinned[i].pinned
    requires IsPermutation(perm, |board|)
    ensures DistinctIds(pinned + WidgetsOf(up))
    ensures forall w :: w in widgets <==> w in pinned + WidgetsOf(up)
    ensures IsTiling(g, |board|, widgets, plan) && Assigns(plan, pinned + WidgetsOf(up), spots)
    ensures PinnedOk(pinned, pp) && UnpinnedOk(unpinned, groups, up)
    ensures |spots| == |pp| + |up| && forall i :: 0 <= i < |pp| ==> spots[i] == PinnedSpots(pp)[i]
    ensures forall j :: 0 <= j < |up| ==> up[j].screen in perm && spots[|pp| + j] == Renumber(SpotOf(up[j]), perm)
  {
    hide Consistent, Tiled, UnpinnedOk, PinnedOk, IsPermutation, Full, IsTiling, PlanOf, DistinctIds, Renumber;
    NothingLeftMeansFull(g, pinned, unpinned, groups, board, pp, up);
    FullIsTiled(g, pinned, unpinned, groups, board, pp, up, perm);
    EveryWidgetPlaced(unpinned, groups, up, pinned);
    RenumberKeepsTiled(g, |board|, Spots(pp, up), perm);
    PlacementsMatch(pinned, unpinned, groups, pp, up, perm);
    var ws := pinned + WidgetsOf(up);
    spots := RenumberAll(Spots(pp, up), perm);
    plan := PlanOf(ws, spots);
    PlanOfTiling(g, |board|, ws, spots);
    TilingIgnoresOrder(g, |board|, ws, widgets, plan);
    RenumberedPlacements(pp, up, perm, spots);
  }

  lemma RenumberedPlacements(pp: seq<PlacedWidget>, up: seq<UnpinnedPlacement>, perm: seq<int>, spots: seq<Spot>)
    requires forall i :: 0 <= i < |Spots(pp, up)| && Spots(pp, up)[i].On? ==> Spots(pp, up)[i].screen in perm
    requires spots == RenumberAll(Spots(pp, up), perm)
    requires forall j :: 0 <= j < |up| ==> up[j].screen in perm
    ensures |spots| == |pp| + |up| && forall i :: 0 <= i < |pp| ==> spots[i] == PinnedSpots(pp)[i]
    ensures forall j :: 0 <= j < |up| ==> spots[|pp| + j] == Renumber(SpotOf(up[j]), perm)
  {
    hide Renumber;
    var all := Spots(pp, up);
    forall i | 0 <= i < |pp| ensures spots[i] == PinnedSpots(pp)[i] {
      assert all[i] == PinnedSpots(pp)[i];
      PinnedStays(all[i], perm);
    }
    forall j | 0 <= j < |up| ensures spots[|pp| + j] == Renumber(SpotOf(up[j]), perm) {
      assert all[|pp| + j] == SpotOf(up[j]);
    }
  }

  lemma PinnedStays(sp: Spot, perm: seq<int>)
    requires sp.Pinned?
    ensures Renumber(sp, perm) == sp
  {}

  lemma FullIsTiled(g: Grid, pinned: seq<WidgetInput>, unpinned: seq<WidgetInput>, groups: seq<ShapeGroup>, board: Board,
                    pp: seq<PlacedWidget>, up: seq<UnpinnedPlacement>, perm: seq<int>)
    requires Consistent(g, pinned, unpinned, groups, board, pp, up) && Full(g, board) && IsPermutation(perm, |board|)
    ensures Tiled(g, |board|, Spots(pp, up)) && UnpinnedOk(unpinned, groups, up) && PinnedOk(pinned, pp)
    ensures forall i :: 0 <= i < |Spots(pp, up)| && Spots(pp, up)[i].On? ==> Spots(pp, up)[i].screen in perm
    ensures forall i :: 0 <= i < |up| ==> up[i].screen in perm
  {
    var spots := Spots(pp, up);
    forall i | 0 <= i < |spots| && spots[i].On? ensures spots[i].screen in perm {
      assert Legal(g, |board|, spots[i]);
    }
    forall i | 0 <= i < |up| ensures up[i].screen in perm {
      assert spots[|pp| + i] == SpotOf(up[i]);
    }
  }

  predicate ListedOn(pw: PlacedWidget, n: int, ws: seq<WidgetInput>, spots: seq<Spot>)
    requires |ws| == |spots|
  {
    exists i :: 0 <= i < |ws| && Shows(spots[i], n) && pw == PlacedAs(ws[i], spots[i])
  }

  lemma ListedIsShown(pw: PlacedWidget, n: int, widgets: seq<WidgetInput>, ws: seq<WidgetInput>, plan: Plan, spots: seq<Spot>)
    requires PlacesAll(plan, widgets) && Assigns(plan, ws, spots)
    requires forall w :: w in widgets <==> w in ws
    ensures ListedOn(pw, n, ws, spots) <==> ShownOn(pw, n, widgets, plan)
  {
    if i :| 0 <= i < |ws| && Shows(spots[i], n) && pw == PlacedAs(ws[i], spots[i]) {
      assert ws[i] in widgets;
      var a :| 0 <= a < |widgets| && widgets[a] == ws[i];
      assert Shows(plan[widgets[a].id], n);
    }
    if a :| 0 <= a < |widgets| && Shows(plan[widgets[a].id], n) && pw == PlacedAs(widgets[a], plan[widgets[a].id]) {
      assert widgets[a] in ws;
      var i :| 0 <= i < |ws| && ws[i] == widgets[a];
      assert Shows(spots[i], n);
    }
  }

  /** Spot by spot, the placements made during the search and the renumbered plan agree. */
  ghost predicate SpotsAgree(pinned: seq<WidgetInput>, pp: seq<PlacedWidget>, up: seq<UnpinnedPlacement>, perm: seq<int>,
                             spots: seq<Spot>)
  {
    && |pp| == |pinned| && |spots| == |pp| + |up|
    && (forall i :: 0 <= i < |pp| ==> spots[i].Pinned? && pp[i] == PlacedAs(pinned[i], spots[i]))
    && (forall j :: 0 <= j < |up| ==> AsPlaced(up[j]) == PlacedAs(up[j].widget, spots[|pp| + j]))
    && (forall j, n :: 0 <= j < |up| && 0 <= n < |perm| ==> (Shows(spots[|pp| + j], n) <==> up[j].screen == perm[n]))
  }

  lemma AgreeFromRenumbering(pinned: seq<WidgetInput>, unpinned: seq<WidgetInput>, groups: seq<ShapeGroup>,
                             pp: seq<PlacedWidget>, up: seq<UnpinnedPlacement>, perm: seq<int>, spots: seq<Spot>)
    requires |pp| == |pinned| && PinnedOk(pinned, pp) && UnpinnedOk(unpinned, groups, up) && IsPermutation(perm, |perm|)
    requires forall i :: 0 <= i < |pinned| ==> pinned[i].pinned
    requires forall i :: 0 <= i < |unpinned| ==> !unpinned[i].pinned
    requires |spots| == |pp| + |up| && forall i :: 0 <= i < |pp| ==> spots[i] == PinnedSpots(pp)[i]
    requires forall j :: 0 <= j < |up| ==> up[j].screen in perm && spots[|pp| + j] == Renumber(SpotOf(up[j]), perm)
    ensures SpotsAgree(pinned, pp, up, perm, spots)
  {}

  lemma ListedAt(pw: PlacedWidget, n: int, ws: seq<WidgetInput>, spots: seq<Spot>, i: nat)
    requires i < |ws| == |spots| && Shows(spots[i], n) && pw == PlacedAs(ws[i], spots[i])
    ensures ListedOn(pw, n, ws, spots)
  {}

  lemma ListedFromScreen(pinned: seq<WidgetInput>, pp: seq<PlacedWidget>, up: seq<UnpinnedPlacement>, perm: seq<int>,
                         spots: seq<Spot>, n: int, pw: PlacedWidget)
    requires SpotsAgree(pinned, pp, up, perm, spots) && 0 <= n < |perm| && pw in ScreenWidgets(pp, up, perm[n])
    ensures |pinned + WidgetsOf(up)| == |spots| && ListedOn(pw, n, pinned + WidgetsOf(up), spots)
  {
    hide SpotsAgree, PlacedAs, AsPlaced, ScreenWidgets, ListedOn;
    var ws := pinned + WidgetsOf(up);
    SizesAgree(pinned, pp, up, perm, spots);
    InScreenWidgets(pp, up, perm[n], pw);
    if i :| 0 <= i < |pp| && pp[i] == pw {
      PinnedAgree(pinned, pp, up, perm, spots, i);
      ListedAt(pw, n, ws, spots, i);
    } else {
      var j :| 0 <= j < |up| && up[j].screen == perm[n] && pw == AsPlaced(up[j]);
      UnpinnedAgree(pinned, pp, up, perm, spots, j, n);
      ListedAt(pw, n, ws, spots, |pp| + j);
    }
  }

  lemma ScreenFromListed(pinned: seq<WidgetInput>, pp: seq<PlacedWidget>, up: seq<UnpinnedPlacement>, perm: seq<int>,
                         spots: seq<Spot>, n: int, pw: PlacedWidget, i: nat)
    requires SpotsAgree(pinned, pp, up, perm, spots) && 0 <= n < |perm| && i < |pinned + WidgetsOf(up)| == |spots|
    requires Shows(spots[i], n) && pw == PlacedAs((pinned + WidgetsOf(up))[i], spots[i])
    ensures pw in ScreenWidgets(pp, up, perm[n])
  {
    hide SpotsAgree, PlacedAs, AsPlaced, ScreenWidgets;
    SizesAgree(pinned, pp, up, perm, spots);
    InScreenWidgets(pp, up, perm[n], pw);
    if i < |pp| {
      PinnedAgree(pinned, pp, up, perm, spots, i);
      assert pw == pp[i];
    } else {
      var j := i - |pp|;
      UnpinnedAgree(pinned, pp, up, perm, spots, j, n);
      assert pw == AsPlaced(up[j]);
    }
  }

  lemma InScreenIsListed(pinned: seq<WidgetInput>, pp: seq<PlacedWidget>, up: seq<UnpinnedPlacement>, perm: seq<int>,
                         spots: seq<Spot>, n: int, pw: PlacedWidget)
    requires SpotsAgree(pinned, pp, up, perm, spots) && 0 <= n < |perm|
    ensures |pinned + WidgetsOf(up)| == |spots|
    ensures pw in ScreenWidgets(pp, up, perm[n]) <==> ListedOn(pw, n, pinned + WidgetsOf(up), spots)
  {
    hide SpotsAgree, PlacedAs, ScreenWidgets;
    SizesAgree(pinned, pp, up, perm, spots);
    if pw in ScreenWidgets(pp, up, perm[n]) {
      ListedFromScreen(pinned, pp, up, perm, spots, n, pw);
    } else if ListedOn(pw, n, pinned + WidgetsOf(up), spots) {
      var ws := pinned + WidgetsOf(up);
      var i :| 0 <= i < |ws| && Shows(spots[i], n) && pw == PlacedAs(ws[i], spots[i]);
      ScreenFromListed(pinned, pp, up, perm, spots, n, pw, i);
    }
  }

  /** Screen n of the assembled layout shows what the plan puts on screen n. */
  lemma ScreenIsDepicted(g: Grid, widgets: seq<WidgetInput>, pinned: seq<WidgetInput>, pp: seq<PlacedWidget>,
                         up: seq<UnpinnedPlacement>, perm: seq<int>, plan: Plan, spots: seq<Spot>, n: int)
    requires 0 <= n < |perm| && SpotsAgree(pinned, pp, up, perm, spots)
    requires DistinctIds(pinned + WidgetsOf(up))
    requires forall w :: w in widgets <==> w in pinned + WidgetsOf(up)
    requires PlacesAll(plan, widgets) && Assigns(plan, pinned + WidgetsOf(up), spots)
    ensures Depicts(Screen(n, AllCells(g), Sort(ScreenWidgets(pp, up, perm[n]), ReadsBefore)), n, g, widgets, plan)
  {
    hide ScreenWidgets, Sort, AllCells, PlacesAll, ShownOn, ListedOn;
    var ws, shown := pinned + WidgetsOf(up), ScreenWidgets(pp, up, perm[n]);
    var sorted := Sort(shown, ReadsBefore);
    ReadsBeforeIsWeakOrder();
    SortSorts(shown, ReadsBefore);
    forall pw ensures pw in sorted <==> ShownOn(pw, n, widgets, plan) {
      SameElements(sorted, shown, pw);
      InScreenIsListed(pinned, pp, up, perm, spots, n, pw);
      ListedIsShown(pw, n, widgets, ws, plan, spots);
    }
    PlacedIdsDistinct(pinned, pp, up, perm, spots);
    var id := (pw: PlacedWidget) => pw.id;
    ScreenIdsDistinct(pp, up, perm[n]);
    DistinctIgnoresOrder(shown, sorted, id);
    forall i, j | 0 <= i < j < |sorted| ensures sorted[i].id != sorted[j].id {
      assert id(sorted[i]) != id(sorted[j]);
    }
  }

  lemma PlacedIdsDistinct(pinned: seq<WidgetInput>, pp: seq<PlacedWidget>, up: seq<UnpinnedPlacement>, perm: seq<int>,
                          spots: seq<Spot>)
    requires SpotsAgree(pinned, pp, up, perm, spots) && DistinctIds(pinned + WidgetsOf(up))
    ensures forall i, j :: 0 <= i < j < |pp| ==> pp[i].id != pp[j].id
    ensures forall i, j :: 0 <= i < j < |up| ==> up[i].widget.id != up[j].widget.id
    ensures forall i, j :: 0 <= i < |pp| && 0 <= j < |up| ==> pp[i].id != up[j].widget.id
  {
    hide SpotsAgree, DistinctIds;
    var ws := pinned + WidgetsOf(up);
    forall i | 0 <= i < |pp| ensures |pinned| == |pp| && ws[i].id == pp[i].id {
      PinnedAgree(pinned, pp, up, perm, spots, i);
    }
    SizesAgree(pinned, pp, up, perm, spots);
    forall i, j | 0 <= i < j < |pp| ensures pp[i].id != pp[j].id {
      IdsDiffer(ws, i, j);
    }
    forall i, j | 0 <= i < j < |up| ensures up[i].widget.id != up[j].widget.id {
      IdsDiffer(ws, |pp| + i, |pp| + j);
    }
    forall i, j | 0 <= i < |pp| && 0 <= j < |up| ensures pp[i].id != up[j].widget.id {
      IdsDiffer(ws, i, |pp| + j);
    }
  }

  lemma IdsDiffer(ws: seq<WidgetInput>, i: nat, j: nat)
    requires DistinctIds(ws) && i < j < |ws|
    ensures ws[i].id != ws[j].id
  {}

  lemma SizesAgree(pinned: seq<WidgetInput>, pp: seq<PlacedWidget>, up: seq<UnpinnedPlacement>, perm: seq<int>, spots: seq<Spot>)
    requires SpotsAgree(pinned, pp, up, perm, spots)
    ensures |pp| == |pinned| && |spots| == |pp| + |up|
  {}

  lemma PinnedAgree(pinned: seq<WidgetInput>, pp: seq<PlacedWidget>, up: seq<UnpinnedPlacement>, perm: seq<int>, spots: seq<Spot>, i: nat)
    requires SpotsAgree(pinned, pp, up, perm, spots) && i < |pp|
    ensures |pp| == |pinned| && |spots| == |pp| + |up| && spots[i].Pinned? && pp[i] == PlacedAs(pinned[i], spots[i])
  {}

  lemma UnpinnedAgree(pinned: seq<WidgetInput>, pp: seq<PlacedWidget>, up: seq<UnpinnedPlacement>, perm: seq<int>, spots: seq<Spot>,
                      j: nat, n: nat)
    requires SpotsAgree(pinned, pp, up, perm, spots) && j < |up| && n < |perm|
    ensures |pp| == |pinned| && |spots| == |pp| + |up| && AsPlaced(up[j]) == PlacedAs(up[j].widget, spots[|pp| + j])
    ensures Shows(spots[|pp| + j], n) <==> up[j].screen == perm[n]
  {}
}
