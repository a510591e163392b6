/**
  What the screens of an explicit layout list: every placement where the user put it, field by field, spacers in
  the holes, and together every cell exactly once.
 */
module ExplicitScreens {
  import opened Grid
  import opened Board
  import opened Sorting
  import opened Solver
  import opened Layouts
  import opened Explicit
  import opened Holes
  import Text

  /** The listed widget is the placement. */
  predicate IsEntryOf(e: PlacedWidget, p: ExplicitPlacement) {
    e.id == p.id && e.kind == p.kind && e.col == p.col && e.row == p.row && e.dims == p.dims && e.pinned == p.pinned
  }

  /** Pinned placements are on every screen, others on the screen numbered by the used screens below theirs. */
  predicate IsOn(ps: seq<ExplicitPlacement>, i: int, s: int)
    requires 0 <= i < |ps|
  {
    ps[i].pinned || UsedBelow(ps, ps[i].screen) == s
  }

  predicate ListedOnce(widgets: seq<PlacedWidget>, p: ExplicitPlacement) {
    exists x :: 0 <= x < |widgets| && IsEntryOf(widgets[x], p) && forall y :: 0 <= y < |widgets| && IsEntryOf(widgets[y], p) ==> y == x
  }

  /** A spacer of screen s at a hole the placements leave. */
  ghost predicate IsSpacerOf(g: Grid, ps: seq<ExplicitPlacement>, s: nat, e: PlacedWidget) {
    && e.kind == "spacer" && !e.pinned && e.id == SpacerId(s, Cell(e.col, e.row))
    && IsHole(g, Covered(DenseSpots(ps), s), Cell(e.col, e.row))
  }

  function RectOfEntry(e: PlacedWidget): Rect {
    Rect(e.col, e.row, e.dims.cols, e.dims.rows)
  }

  /** The listed rectangles are in the grid, share no cell, cover every cell and come in reading order. */
  ghost predicate TilesScreen(g: Grid, widgets: seq<PlacedWidget>) {
    && (forall x :: 0 <= x < |widgets| ==> InBounds(g, RectOfEntry(widgets[x])))
    && (forall x, y :: 0 <= x < y < |widgets| ==> RectCells(RectOfEntry(widgets[x])) !! RectCells(RectOfEntry(widgets[y])))
    && (forall cell :: cell in AllCells(g) ==> CoveredByEntry(widgets, cell))
    && (forall x, y :: 0 <= x < y < |widgets| ==>
          widgets[x].row < widgets[y].row || (widgets[x].row == widgets[y].row && widgets[x].col < widgets[y].col))
  }

  predicate CoveredByEntry(widgets: seq<PlacedWidget>, cell: Cell) {
    exists x :: 0 <= x < |widgets| && InRect(RectOfEntry(widgets[x]), cell)
  }

  /** Screen s of the layout, as the user sees it. */
  ghost predicate Portrays(g: Grid, ps: seq<ExplicitPlacement>, screen: Screen, s: nat) {
    && screen.index == s && screen.taken == AllCells(g) && TilesScreen(g, screen.widgets)
    && (forall i :: 0 <= i < |ps| && IsOn(ps, i, s) ==> ListedOnce(screen.widgets, ps[i]))
    && (forall x :: 0 <= x < |screen.widgets| ==> Belongs(g, ps, s, screen.widgets[x]))
  }

  ghost predicate Belongs(g: Grid, ps: seq<ExplicitPlacement>, s: nat, e: PlacedWidget) {
    (exists i :: 0 <= i < |ps| && IsOn(ps, i, s) && IsEntryOf(e, ps[i])) || IsSpacerOf(g, ps, s, e)
  }

  /** Everything listed is a placement or one of the spacers, and every spacer is listed. */
  ghost predicate ListsSpacers(ps: seq<ExplicitPlacement>, layout: Layout, spacers: seq<PlacedWidget>) {
    && (forall s, x :: 0 <= s < |layout.screens| && 0 <= x < |layout.screens[s].widgets| ==>
          IsPlaced(ps, layout.screens[s].widgets[x]) || layout.screens[s].widgets[x] in spacers)
    && (forall e :: e in spacers ==> IsListed(layout, e))
  }

  predicate IsPlaced(ps: seq<ExplicitPlacement>, e: PlacedWidget) {
    exists i :: 0 <= i < |ps| && IsEntryOf(e, ps[i])
  }

  predicate IsListed(layout: Layout, e: PlacedWidget) {
    exists s :: 0 <= s < |layout.screens| && e in layout.screens[s].widgets
  }

  ghost predicate PortraysAll(g: Grid, ps: seq<ExplicitPlacement>, layout: Layout) {
    && layout.totalScreens == |layout.screens| == ScreenCount(ps)
    && forall s :: 0 <= s < |layout.screens| ==> Portrays(g, ps, layout.screens[s], s)
  }

  // ----- where the listed widgets come from

  /** The indices of the placements a sweep lists on screen s, in order. */
  function IndicesUpTo(ps: seq<ExplicitPlacement>, n: nat, screenMap: map<int, int>, pinned: bool, s: int): seq<int>
    requires n <= |ps| && forall i :: 0 <= i < |ps| ==> ps[i].pinned || ps[i].screen in screenMap
  {
    if n == 0 then []
    else
      IndicesUpTo(ps, n - 1, screenMap, pinned, s)
      + if ps[n - 1].pinned == pinned && Shows(MapSpot(ps[n - 1], screenMap), s) then [n - 1] else []
  }

  /** The listed widgets are the placements with these indices, which are all the sweep shows on screen s. */
  ghost predicate AreIndices(idx: seq<int>, shown: seq<PlacedWidget>, ps: seq<ExplicitPlacement>, n: nat, screenMap: map<int, int>,
                             pinned: bool, s: int)
    requires n <= |ps| && forall i :: 0 <= i < |ps| ==> ps[i].pinned || ps[i].screen in screenMap
  {
    && |idx| == |shown|
    && (forall x :: 0 <= x < |idx| ==> 0 <= idx[x] < n && IsEntryOf(shown[x], ps[idx[x]]))
    && (forall x :: 0 <= x < |idx| ==> ps[idx[x]].pinned == pinned && Shows(MapSpot(ps[idx[x]], screenMap), s))
    && (forall x, y :: 0 <= x < y < |idx| ==> idx[x] < idx[y])
    && (forall i :: 0 <= i < n && ps[i].pinned == pinned && Shows(MapSpot(ps[i], screenMap), s) ==> i in idx)
  }

  lemma OneMoreIndex(idx: seq<int>, shown: seq<PlacedWidget>, ps: seq<ExplicitPlacement>, n: nat, screenMap: map<int, int>,
                     pinned: bool, s: int)
    requires n < |ps| && forall i :: 0 <= i < |ps| ==> ps[i].pinned || ps[i].screen in screenMap
    requires AreIndices(idx, shown, ps, n, screenMap, pinned, s)
    ensures if ps[n].pinned == pinned && Shows(MapSpot(ps[n], screenMap), s)
            then AreIndices(idx + [n], shown + [AsPlacedWidget(ps[n])], ps, n + 1, screenMap, pinned, s)
            else AreIndices(idx, shown, ps, n + 1, screenMap, pinned, s)
  {
    hide MapSpot, IsEntryOf, AsPlacedWidget;
    EntryIsPlacement(ps[n]);
  }

  lemma {:induction false} ShownByIndex(ps: seq<ExplicitPlacement>, n: nat, screenMap: map<int, int>, pinned: bool, s: int)
    requires n <= |ps| && forall i :: 0 <= i < |ps| ==> ps[i].pinned || ps[i].screen in screenMap
    ensures AreIndices(IndicesUpTo(ps, n, screenMap, pinned, s), ShownUpTo(ps, n, screenMap, pinned, s), ps, n, screenMap, pinned, s)
  {
    hide MapSpot, AsPlacedWidget;
    if n > 0 {
      hide AreIndices;
      ShownByIndex(ps, n - 1, screenMap, pinned, s);
      var idx, shown := IndicesUpTo(ps, n - 1, screenMap, pinned, s), ShownUpTo(ps, n - 1, screenMap, pinned, s);
      OneMoreIndex(idx, shown, ps, n - 1, screenMap, pinned, s);
      assert idx + [] == idx && shown + [] == shown;
    }
  }

  lemma EntryIsPlacement(p: ExplicitPlacement)
    ensures IsEntryOf(AsPlacedWidget(p), p)
  {}

  /** Where the spacers of screen s stand among all of them. */
  lemma {:induction false} FillersOfScreen(rects: seq<seq<Rect>>, n: nat, s: nat, t: nat)
    requires s < n <= |rects| && t < |rects[s]|
    ensures |FillerSpots(rects, s)| + t < |FillerSpots(rects, n)|
    ensures FillerSpots(rects, n)[|FillerSpots(rects, s)| + t] == On(s, rects[s][t])
    decreases n
  {
    if s < n - 1 {
      FillersOfScreen(rects, n - 1, s, t);
    }
  }

  lemma {:induction false} FillerAt(rects: seq<seq<Rect>>, n: nat, i: nat) returns (t: nat)
    requires n <= |rects| && i < |FillerSpots(rects, n)|
    ensures var sp := FillerSpots(rects, n)[i];
      && sp.On? && 0 <= sp.screen < n && t < |rects[sp.screen]| && i == |FillerSpots(rects, sp.screen)| + t
    decreases n
  {
    if i < |FillerSpots(rects, n - 1)| {
      t := FillerAt(rects, n - 1, i);
      assert FillerSpots(rects, n)[i] == FillerSpots(rects, n - 1)[i];
    } else {
      t := i - |FillerSpots(rects, n - 1)|;
    }
  }

  /** The given indices are those of the spots screen s shows, each once, and the listed widgets have their rectangles. */
  ghost predicate Traces(all: seq<Spot>, s: int, widgets: seq<PlacedWidget>, idx: seq<int>) {
    && |idx| == |widgets|
    && (forall x :: 0 <= x < |idx| ==> 0 <= idx[x] < |all| && Shows(all[idx[x]], s) && RectOfEntry(widgets[x]) == all[idx[x]].rect)
    && (forall x, y :: 0 <= x < y < |idx| ==> idx[x] != idx[y])
    && (forall i :: 0 <= i < |all| && Shows(all[i], s) ==> i in idx)
  }

  /** What is listed on a screen before sorting. */
  function Unsorted(ps: seq<ExplicitPlacement>, screenMap: map<int, int>, s: nat, rects: seq<Rect>): seq<PlacedWidget>
    requires forall i :: 0 <= i < |ps| ==> ps[i].pinned || ps[i].screen in screenMap
  {
    ShownUpTo(ps, |ps|, screenMap, true, s) + ShownUpTo(ps, |ps|, screenMap, false, s) + SpacersOf(s, rects)
  }

  ghost function TracesOf(ps: seq<ExplicitPlacement>, screenMap: map<int, int>, s: nat, rects: seq<seq<Rect>>): seq<int>
    requires s < |rects| && forall i :: 0 <= i < |ps| ==> ps[i].pinned || ps[i].screen in screenMap
  {
    IndicesUpTo(ps, |ps|, screenMap, true, s) + IndicesUpTo(ps, |ps|, screenMap, false, s)
    + seq(|rects[s]|, t => |ps| + |FillerSpots(rects, s)| + t)
  }

  lemma EntriesTraced(ps: seq<ExplicitPlacement>, screenMap: map<int, int>, k: nat, s: nat, rects: seq<seq<Rect>>, x: nat)
    requires Maps(ps, screenMap, k) && s < k == |rects|
    requires forall i :: 0 <= i < |ps| ==> ps[i].pinned || ps[i].screen in screenMap
    requires x < |TracesOf(ps, screenMap, s, rects)|
    ensures var all, widgets := MapSpots(ps, screenMap, k) + FillerSpots(rects, k), Unsorted(ps, screenMap, s, rects[s]);
            var i := TracesOf(ps, screenMap, s, rects)[x];
            x < |widgets| && 0 <= i < |all| && Shows(all[i], s) && RectOfEntry(widgets[x]) == all[i].rect
    ensures var i, e := TracesOf(ps, screenMap, s, rects)[x], Unsorted(ps, screenMap, s, rects[s])[x];
            if i < |ps| then IsEntryOf(e, ps[i]) else exists t :: 0 <= t < |rects[s]| && e == Spacer(s, rects[s][t])
  {
    hide Maps, FillerSpots, ShownUpTo, IndicesUpTo, MapSpot, Spacer;
    ShownByIndex(ps, |ps|, screenMap, true, s);
    ShownByIndex(ps, |ps|, screenMap, false, s);
    var fs, widgets, idx := FillerSpots(rects, k), Unsorted(ps, screenMap, s, rects[s]), TracesOf(ps, screenMap, s, rects);
    var n := |IndicesUpTo(ps, |ps|, screenMap, true, s)| + |IndicesUpTo(ps, |ps|, screenMap, false, s)|;
    if x < n {
      assert IsEntryOf(widgets[x], ps[idx[x]]);
      EntryRect(widgets[x], ps[idx[x]], screenMap);
    } else {
      FillersOfScreen(rects, k, s, x - n);
      assert widgets[x] == Spacer(s, rects[s][x - n]);
      SpacerRect(s, rects[s][x - n]);
    }
  }

  lemma SpacerRect(s: nat, rc: Rect)
    ensures RectOfEntry(Spacer(s, rc)) == rc
  {}

  lemma AllTraced(ps: seq<ExplicitPlacement>, screenMap: map<int, int>, k: nat, s: nat, rects: seq<seq<Rect>>, i: nat)
    requires Maps(ps, screenMap, k) && s < k == |rects|
    requires forall i :: 0 <= i < |ps| ==> ps[i].pinned || ps[i].screen in screenMap
    requires var all := MapSpots(ps, screenMap, k) + FillerSpots(rects, k); i < |all| && Shows(all[i], s)
    ensures i in TracesOf(ps, screenMap, s, rects)
  {
    hide Maps, FillerSpots, ShownUpTo, IndicesUpTo, MapSpot;
    ShownByIndex(ps, |ps|, screenMap, true, s);
    ShownByIndex(ps, |ps|, screenMap, false, s);
    var a, b, idx := IndicesUpTo(ps, |ps|, screenMap, true, s), IndicesUpTo(ps, |ps|, screenMap, false, s), TracesOf(ps, screenMap, s, rects);
    if i >= |ps| {
      var t := FillerAt(rects, k, i - |ps|);
      assert idx[|a| + |b| + t] == i;
    }
  }

  lemma TracesDiffer(ps: seq<ExplicitPlacement>, screenMap: map<int, int>, s: nat, rects: seq<seq<Rect>>, x: nat, y: nat)
    requires s < |rects| && forall i :: 0 <= i < |ps| ==> ps[i].pinned || ps[i].screen in screenMap
    requires x < y < |TracesOf(ps, screenMap, s, rects)|
    ensures TracesOf(ps, screenMap, s, rects)[x] != TracesOf(ps, screenMap, s, rects)[y]
  {
    hide FillerSpots, ShownUpTo, IndicesUpTo, MapSpot;
    ShownByIndex(ps, |ps|, screenMap, true, s);
    ShownByIndex(ps, |ps|, screenMap, false, s);
    var idx, n := TracesOf(ps, screenMap, s, rects), |IndicesUpTo(ps, |ps|, screenMap, true, s)|;
    if x < n <= y && idx[y] < |ps| {
      assert ps[idx[x]].pinned;
    }
  }

  lemma ListIsTraced(ps: seq<ExplicitPlacement>, screenMap: map<int, int>, k: nat, s: nat, rects: seq<seq<Rect>>)
    requires Maps(ps, screenMap, k) && s < k == |rects|
    requires forall i :: 0 <= i < |ps| ==> ps[i].pinned || ps[i].screen in screenMap
    ensures Traces(MapSpots(ps, screenMap, k) + FillerSpots(rects, k), s, Unsorted(ps, screenMap, s, rects[s]),
                   TracesOf(ps, screenMap, s, rects))
  {
    hide Maps, FillerSpots, MapSpots, TracesOf, Unsorted;
    var all, idx := MapSpots(ps, screenMap, k) + FillerSpots(rects, k), TracesOf(ps, screenMap, s, rects);
    SameCount(ps, screenMap, s, rects);
    forall x | 0 <= x < |idx|
      ensures 0 <= idx[x] < |all| && Shows(all[idx[x]], s) && RectOfEntry(Unsorted(ps, screenMap, s, rects[s])[x]) == all[idx[x]].rect {
      EntriesTraced(ps, screenMap, k, s, rects, x);
    }
    forall i | 0 <= i < |all| && Shows(all[i], s) ensures i in idx {
      AllTraced(ps, screenMap, k, s, rects, i);
    }
    forall x, y | 0 <= x < y < |idx| ensures idx[x] != idx[y] {
      TracesDiffer(ps, screenMap, s, rects, x, y);
    }
  }

  lemma SameCount(ps: seq<ExplicitPlacement>, screenMap: map<int, int>, s: nat, rects: seq<seq<Rect>>)
    requires s < |rects| && forall i :: 0 <= i < |ps| ==> ps[i].pinned || ps[i].screen in screenMap
    ensures |TracesOf(ps, screenMap, s, rects)| == |Unsorted(ps, screenMap, s, rects[s])|
  {
    hide FillerSpots, ShownUpTo, IndicesUpTo;
    ShownByIndex(ps, |ps|, screenMap, true, s);
    ShownByIndex(ps, |ps|, screenMap, false, s);
  }

  lemma EntryRect(e: PlacedWidget, p: ExplicitPlacement, screenMap: map<int, int>)
    requires IsEntryOf(e, p) && (p.pinned || p.screen in screenMap)
    ensures RectOfEntry(e) == MapSpot(p, screenMap).rect
  {}

  // ----- a traced list tiles its screen

  /** Like `TilesScreen`, in any order. */
  ghost predicate Tessellates(g: Grid, widgets: seq<PlacedWidget>) {
    && (forall x :: 0 <= x < |widgets| ==> InBounds(g, RectOfEntry(widgets[x])))
    && (forall x, y :: 0 <= x < y < |widgets| ==> RectCells(RectOfEntry(widgets[x])) !! RectCells(RectOfEntry(widgets[y])))
    && (forall cell :: cell in AllCells(g) ==> CoveredByEntry(widgets, cell))
  }

  lemma TracedTessellates(g: Grid, k: int, all: seq<Spot>, s: int, widgets: seq<PlacedWidget>, idx: seq<int>)
    requires Tiled(g, k, all) && 0 <= s < k && Traces(all, s, widgets, idx)
    ensures Tessellates(g, widgets)
  {
    hide RectCells, Covered, AllCells, RectOfEntry, InBounds;
    forall x | 0 <= x < |widgets| ensures InBounds(g, RectOfEntry(widgets[x])) {
      assert Legal(g, k, all[idx[x]]);
    }
    forall x, y | 0 <= x < y < |widgets| ensures RectCells(RectOfEntry(widgets[x])) !! RectCells(RectOfEntry(widgets[y])) {
      NoClashAt(g, k, all, s, idx[x], idx[y]);
    }
    forall cell | cell in AllCells(g) ensures CoveredByEntry(widgets, cell) {
      var i := TiledExactlyOnce(g, k, all, s, cell);
      var x :| 0 <= x < |idx| && idx[x] == i;
      assert InRect(RectOfEntry(widgets[x]), cell);
    }
  }

  lemma NoClashAt(g: Grid, k: int, all: seq<Spot>, s: int, i: int, j: int)
    requires Tiled(g, k, all) && 0 <= i < |all| && 0 <= j < |all| && i != j && Shows(all[i], s) && Shows(all[j], s)
    ensures RectCells(all[i].rect) !! RectCells(all[j].rect)
  {
    hide Covered;
    assert !Clash(if i < j then all[i] else all[j], if i < j then all[j] else all[i]);
  }

  function OriginOf(e: PlacedWidget): Cell {
    Cell(e.col, e.row)
  }

  lemma SortedTiles(g: Grid, widgets: seq<PlacedWidget>)
    requires Tessellates(g, widgets)
    ensures TilesScreen(g, Sort(widgets, ReadsBefore))
  {
    hide Sort, RectCells, AllCells, InBounds;
    var sorted := Sort(widgets, ReadsBefore);
    OriginsDistinct(g, widgets);
    DistinctIgnoresOrder(widgets, sorted, OriginOf);
    ReadsBeforeIsWeakOrder();
    SortSorts(widgets, ReadsBefore);
    forall x | 0 <= x < |sorted| ensures InBounds(g, RectOfEntry(sorted[x])) {
      SameElements(widgets, sorted, sorted[x]);
    }
    forall x, y | 0 <= x < y < |sorted|
      ensures RectCells(RectOfEntry(sorted[x])) !! RectCells(RectOfEntry(sorted[y]))
      ensures sorted[x].row < sorted[y].row || (sorted[x].row == sorted[y].row && sorted[x].col < sorted[y].col) {
      assert OriginOf(sorted[x]) != OriginOf(sorted[y]) && !ReadsBefore(sorted[y], sorted[x]);
      SameElements(widgets, sorted, sorted[x]);
      SameElements(widgets, sorted, sorted[y]);
      var a :| 0 <= a < |widgets| && widgets[a] == sorted[x];
      var b :| 0 <= b < |widgets| && widgets[b] == sorted[y];
      assert a < b || b < a;
    }
    forall cell | cell in AllCells(g) ensures CoveredByEntry(sorted, cell) {
      assert CoveredByEntry(widgets, cell);
      var x :| 0 <= x < |widgets| && InRect(RectOfEntry(widgets[x]), cell);
      SameElements(widgets, sorted, widgets[x]);
      var y :| 0 <= y < |sorted| && sorted[y] == widgets[x];
    }
  }

  lemma OriginsDistinct(g: Grid, widgets: seq<PlacedWidget>)
    requires Tessellates(g, widgets)
    ensures DistinctBy(widgets, OriginOf)
  {
    hide AllCells;
    forall x, y | 0 <= x < y < |widgets| ensures OriginOf(widgets[x]) != OriginOf(widgets[y]) {
      assert OriginOf(widgets[x]) in RectCells(RectOfEntry(widgets[x]));
      assert OriginOf(widgets[y]) in RectCells(RectOfEntry(widgets[y]));
    }
  }

  // ----- the whole layout

  lemma SameRectSameEntry(g: Grid, widgets: seq<PlacedWidget>, x: nat, y: nat)
    requires TilesScreen(g, widgets) && x < |widgets| && y < |widgets| && RectOfEntry(widgets[x]) == RectOfEntry(widgets[y])
    ensures x == y
  {
    hide RectCells, AllCells;
  }

  lemma IsListedOnce(g: Grid, widgets: seq<PlacedWidget>, p: ExplicitPlacement, x: nat)
    requires TilesScreen(g, widgets) && x < |widgets| && IsEntryOf(widgets[x], p)
    ensures ListedOnce(widgets, p)
  {
    hide TilesScreen;
    forall y | 0 <= y < |widgets| && IsEntryOf(widgets[y], p) ensures y == x {
      SameRectSameEntry(g, widgets, x, y);
    }
  }

  /** Every screen of an explicit layout lists each of its placements once, field by field, spacers at the holes and
      nothing else, and tiles the grid. */
  lemma LayoutPortrays(g: Grid, ps: seq<ExplicitPlacement>, layout: Layout, spacers: seq<PlacedWidget>, used: seq<int>,
                      screenMap: map<int, int>, rects: seq<seq<Rect>>)
    requires GoodPrefix(g, ps, |ps|) && IsExplicitLayout(g, ps, layout, spacers, used, screenMap, rects)
    ensures PortraysAll(g, ps, layout)
  {
    hide GoodPrefix, Tiled, FillerSpots, FillerWidgets, MapSpots, Maps, Increasing, UsesScreen, Covered, IsGreedy, AllCells, ScreenOf, Portrays,
      DenseSpots, ScreenCount;
    var k := |layout.screens|;
    MapsScreens(ps, screenMap, k);
    SpotsAreDense(g, ps, used, screenMap, k);
    forall s | 0 <= s < k ensures Portrays(g, ps, layout.screens[s], s) {
      ScreenPortrays(g, ps, screenMap, k, rects, s);
    }
  }

  lemma ScreenPortrays(g: Grid, ps: seq<ExplicitPlacement>, screenMap: map<int, int>, k: nat, rects: seq<seq<Rect>>, s: nat)
    requires Maps(ps, screenMap, k) && s < k == |rects| && MapSpots(ps, screenMap, k) == DenseSpots(ps)
    requires forall i :: 0 <= i < |ps| ==> ps[i].pinned || ps[i].screen in screenMap
    requires Tiled(g, k, MapSpots(ps, screenMap, k) + FillerSpots(rects, k))
    requires IsGreedy(g, Covered(MapSpots(ps, screenMap, k), s), rects[s])
    ensures Portrays(g, ps, ScreenOf(g, ps, screenMap, s, rects[s]), s)
  {
    hide Maps, FillerSpots, Tiled, IsGreedy, Covered, Sort, TilesScreen, ShownUpTo, IndicesUpTo, AllCells, TracesOf, Traces, ListedOnce, Belongs,
      Tessellates, IsOn, SpacersOf;
    var all, raw, idx := MapSpots(ps, screenMap, k) + FillerSpots(rects, k), Unsorted(ps, screenMap, s, rects[s]), TracesOf(ps, screenMap, s, rects);
    var sorted := Sort(raw, ReadsBefore);
    ListIsTraced(ps, screenMap, k, s, rects);
    TracedTessellates(g, k, all, s, raw, idx);
    SortedTiles(g, raw);
    SameCount(ps, screenMap, s, rects);
    forall i | 0 <= i < |ps| && IsOn(ps, i, s) ensures ListedOnce(sorted, ps[i]) {
      PlacementIsListed(g, ps, screenMap, k, rects, s, i);
    }
    forall x | 0 <= x < |sorted| ensures Belongs(g, ps, s, sorted[x]) {
      SameElements(raw, sorted, sorted[x]);
      var y :| 0 <= y < |raw| && raw[y] == sorted[x];
      EntryBelongs(g, ps, screenMap, k, rects, s, y);
    }
  }

  lemma OnIsShown(ps: seq<ExplicitPlacement>, screenMap: map<int, int>, k: nat, s: int, i: nat)
    requires Maps(ps, screenMap, k) && MapSpots(ps, screenMap, k) == DenseSpots(ps) && i < |ps|
    ensures IsOn(ps, i, s) <==> Shows(MapSpots(ps, screenMap, k)[i], s)
  {
    hide Maps, UsedBelow;
    assert DenseSpots(ps)[i] == MapSpots(ps, screenMap, k)[i];
  }

  lemma PlacementIsListed(g: Grid, ps: seq<ExplicitPlacement>, screenMap: map<int, int>, k: nat, rects: seq<seq<Rect>>, s: nat, i: nat)
    requires Maps(ps, screenMap, k) && s < k == |rects| && MapSpots(ps, screenMap, k) == DenseSpots(ps)
    requires forall i :: 0 <= i < |ps| ==> ps[i].pinned || ps[i].screen in screenMap
    requires TilesScreen(g, Sort(Unsorted(ps, screenMap, s, rects[s]), ReadsBefore)) && i < |ps| && IsOn(ps, i, s)
    ensures ListedOnce(Sort(Unsorted(ps, screenMap, s, rects[s]), ReadsBefore), ps[i])
  {
    hide Maps, FillerSpots, Sort, TilesScreen, TracesOf, Unsorted, IsOn, ListedOnce, DenseSpots;
    var raw, idx := Unsorted(ps, screenMap, s, rects[s]), TracesOf(ps, screenMap, s, rects);
    var sorted := Sort(raw, ReadsBefore);
    OnIsShown(ps, screenMap, k, s, i);
    assert (MapSpots(ps, screenMap, k) + FillerSpots(rects, k))[i] == MapSpots(ps, screenMap, k)[i];
    AllTraced(ps, screenMap, k, s, rects, i);
    var x :| 0 <= x < |idx| && idx[x] == i;
    EntriesTraced(ps, screenMap, k, s, rects, x);
    SameElements(raw, sorted, raw[x]);
    var y :| 0 <= y < |sorted| && sorted[y] == raw[x];
    IsListedOnce(g, sorted, ps[i], y);
  }

  lemma EntryBelongs(g: Grid, ps: seq<ExplicitPlacement>, screenMap: map<int, int>, k: nat, rects: seq<seq<Rect>>, s: nat, x: nat)
    requires Maps(ps, screenMap, k) && s < k == |rects| && MapSpots(ps, screenMap, k) == DenseSpots(ps)
    requires forall i :: 0 <= i < |ps| ==> ps[i].pinned || ps[i].screen in screenMap
    requires Tiled(g, k, MapSpots(ps, screenMap, k) + FillerSpots(rects, k))
    requires IsGreedy(g, Covered(MapSpots(ps, screenMap, k), s), rects[s])
    requires x < |Unsorted(ps, screenMap, s, rects[s])|
    ensures Belongs(g, ps, s, Unsorted(ps, screenMap, s, rects[s])[x])
  {
    hide Maps, FillerSpots, TracesOf, Unsorted, IsOn, Tiled, IsGreedy, Covered, Spacer, SpacerId, IsHole, DenseSpots, CellsOf, AllCells;
    var idx, e := TracesOf(ps, screenMap, s, rects), Unsorted(ps, screenMap, s, rects[s])[x];
    SameCount(ps, screenMap, s, rects);
    EntriesTraced(ps, screenMap, k, s, rects, x);
    var i := idx[x];
    if i < |ps| {
      assert (MapSpots(ps, screenMap, k) + FillerSpots(rects, k))[i] == MapSpots(ps, screenMap, k)[i];
      OnIsShown(ps, screenMap, k, s, i);
    } else {
      var t :| 0 <= t < |rects[s]| && e == Spacer(s, rects[s][t]);
      FillersFill(g, DenseSpots(ps), rects, k, s);
      HolesOf(g, Covered(DenseSpots(ps), s), rects[s], Origin(rects[s][t]));
      SpacerFields(s, rects[s][t]);
    }
  }

  lemma SpacerFields(s: nat, rc: Rect)
    ensures var e := Spacer(s, rc);
            e.kind == "spacer" && !e.pinned && Cell(e.col, e.row) == Origin(rc) && e.id == SpacerId(s, Origin(rc))
  {
    hide SpacerId;
  }

  lemma SpacersAreListed(g: Grid, ps: seq<ExplicitPlacement>, layout: Layout, spacers: seq<PlacedWidget>, used: seq<int>,
                         screenMap: map<int, int>, rects: seq<seq<Rect>>)
    requires IsExplicitLayout(g, ps, layout, spacers, used, screenMap, rects)
    ensures ListsSpacers(ps, layout, spacers)
  {
    hide Tiled, FillerSpots, MapSpots, Maps, Increasing, UsesScreen, Covered, IsGreedy, AllCells, FillerWidgets, Spacer, IsListed, IsPlaced,
      ShownUpTo, Sort;
    var k := |layout.screens|;
    MapsScreens(ps, screenMap, k);
    forall s, x | 0 <= s < k && 0 <= x < |layout.screens[s].widgets|
      ensures IsPlaced(ps, layout.screens[s].widgets[x]) || layout.screens[s].widgets[x] in spacers {
      EntryIsKnown(g, ps, screenMap, k, rects, s, layout.screens[s].widgets[x]);
    }
    forall e | e in spacers ensures IsListed(layout, e) {
      var j :| 0 <= j < |spacers| && spacers[j] == e;
      var s, t := SpacerAt(rects, k, j);
      SpacerIsShown(g, ps, screenMap, s, rects[s], t);
      ListedOn(layout, s, e);
    }
  }

  lemma ListedOn(layout: Layout, s: nat, e: PlacedWidget)
    requires s < |layout.screens| && e in layout.screens[s].widgets
    ensures IsListed(layout, e)
  {}

  lemma SpacerIsShown(g: Grid, ps: seq<ExplicitPlacement>, screenMap: map<int, int>, s: nat, rects: seq<Rect>, t: nat)
    requires t < |rects| && forall i :: 0 <= i < |ps| ==> ps[i].pinned || ps[i].screen in screenMap
    ensures Spacer(s, rects[t]) in ScreenOf(g, ps, screenMap, s, rects).widgets
  {
    hide ShownUpTo, Spacer, Sort, AllCells;
    var raw := Unsorted(ps, screenMap, s, rects);
    assert SpacersOf(s, rects)[t] in raw;
    SameElements(raw, Sort(raw, ReadsBefore), Spacer(s, rects[t]));
  }

  lemma {:induction false} SpacerAt(rects: seq<seq<Rect>>, n: nat, j: nat) returns (s: nat, t: nat)
    requires n <= |rects| && j < |FillerWidgets(rects, n)|
    ensures s < n && t < |rects[s]| && FillerWidgets(rects, n)[j] == Spacer(s, rects[s][t])
    decreases n
  {
    hide Spacer;
    if j < |FillerWidgets(rects, n - 1)| {
      s, t := SpacerAt(rects, n - 1, j);
      assert FillerWidgets(rects, n)[j] == FillerWidgets(rects, n - 1)[j];
    } else {
      s, t := n - 1, j - |FillerWidgets(rects, n - 1)|;
    }
  }

  lemma EntryIsKnown(g: Grid, ps: seq<ExplicitPlacement>, screenMap: map<int, int>, k: nat, rects: seq<seq<Rect>>, s: nat, e: PlacedWidget)
    requires Maps(ps, screenMap, k) && s < k == |rects|
    requires forall i :: 0 <= i < |ps| ==> ps[i].pinned || ps[i].screen in screenMap
    requires e in ScreenOf(g, ps, screenMap, s, rects[s]).widgets
    ensures IsPlaced(ps, e) || e in FillerWidgets(rects, k)
  {
    hide Maps, FillerSpots, FillerWidgets, TracesOf, Spacer, ShownUpTo, Sort, AllCells;
    var raw := Unsorted(ps, screenMap, s, rects[s]);
    SameElements(raw, Sort(raw, ReadsBefore), e);
    var x :| 0 <= x < |raw| && raw[x] == e;
    SameCount(ps, screenMap, s, rects);
    EntriesTraced(ps, screenMap, k, s, rects, x);
    if TracesOf(ps, screenMap, s, rects)[x] >= |ps| {
      var t :| 0 <= t < |rects[s]| && e == Spacer(s, rects[s][t]);
      var j := FillerIndex(rects, k, s, t);
    }
  }

  /** Every placement is on a screen. */
  lemma OnSomeScreen(g: Grid, ps: seq<ExplicitPlacement>, i: nat) returns (s: nat)
    requires GoodPrefix(g, ps, |ps|) && i < |ps|
    ensures s < ScreenCount(ps) && IsOn(ps, i, s)
  {
    hide Text.Trim;
    if ps[i].pinned {
      s := 0;
    } else {
      s := UsedBelow(ps, ps[i].screen);
      assert GoodPlacement(g, ps[i]);
      assert UsesScreen(ps, ps[i].screen);
      UsedBelowGrows(ps, ps[i].screen + 1, MAX_SCREENS);
    }
  }

  lemma {:induction false} UsedBelowGrows(ps: seq<ExplicitPlacement>, m: nat, n: nat)
    requires m <= n
    ensures UsedBelow(ps, m) <= UsedBelow(ps, n)
  {
    if m < n {
      UsedBelowGrows(ps, m, n - 1);
    }
  }
}
