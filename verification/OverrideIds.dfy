/**
  The ids of an overridden configuration: the user's widgets and the spacers that fill the holes.
  Nothing reserves the spacers' names, so a widget can have one of them.
 */
module OverrideIds {
  import opened Grid
  import opened Board
  import opened Layouts
  import opened Explicit
  import opened Holes
  import opened ExplicitScreens
  import opened Overrides
  import Solver
  import Text

  predicate DistinctWidgetIds(ws: seq<WidgetConfig>) {
    forall i, j :: 0 <= i < j < |ws| ==> ws[i].id != ws[j].id
  }

  // ----- a spacer's id tells its screen and its cell

  lemma NoDash(n: nat)
    ensures '-' !in Text.Decimal(n)
  {
    hide Text.Decimal;
    Text.DecimalValue(n);
  }

  lemma SpacerIdIsInjective(s: nat, a: Cell, t: nat, b: Cell)
    requires 0 <= a.col && 0 <= a.row && 0 <= b.col && 0 <= b.row && SpacerId(s, a) == SpacerId(t, b)
    ensures s == t && a == b
  {
    hide Text.Decimal;
    NoDash(a.row);
    NoDash(b.row);
    NoDash(a.col);
    NoDash(b.col);
    Text.SplitIsUnique("auto-spacer-" + Text.Decimal(s) + "-" + Text.Decimal(a.col), Text.Decimal(a.row),
                       "auto-spacer-" + Text.Decimal(t) + "-" + Text.Decimal(b.col), Text.Decimal(b.row), '-');
    Text.SplitIsUnique("auto-spacer-" + Text.Decimal(s), Text.Decimal(a.col), "auto-spacer-" + Text.Decimal(t), Text.Decimal(b.col), '-');
    SamePrefix("auto-spacer-", Text.Decimal(s), Text.Decimal(t));
    Text.DecimalIsInjective(a.row, b.row);
    Text.DecimalIsInjective(a.col, b.col);
    Text.DecimalIsInjective(s, t);
  }

  lemma SamePrefix(p: string, a: string, b: string)
    requires p + a == p + b
    ensures a == b
  {
    assert a == (p + a)[|p|..] && b == (p + b)[|p|..];
  }

  // ----- spacers have distinct ids

  /** The i-th spacer widget stands for the i-th filler spot. */
  lemma {:induction false} FillersCorrespond(rects: seq<seq<Rect>>, n: nat)
    requires n <= |rects|
    ensures |FillerWidgets(rects, n)| == |FillerSpots(rects, n)|
    ensures forall i :: 0 <= i < |FillerSpots(rects, n)| ==>
              && FillerSpots(rects, n)[i].On? && 0 <= FillerSpots(rects, n)[i].screen < n
              && FillerWidgets(rects, n)[i] == Spacer(FillerSpots(rects, n)[i].screen, FillerSpots(rects, n)[i].rect)
  {
    hide Spacer;
    if n > 0 {
      FillersCorrespond(rects, n - 1);
      var ws, ss := FillerWidgets(rects, n - 1), FillerSpots(rects, n - 1);
      var rs := rects[n - 1];
      forall i | 0 <= i < |FillerSpots(rects, n)|
        ensures FillerSpots(rects, n)[i].On? && 0 <= FillerSpots(rects, n)[i].screen < n
        ensures i < |FillerWidgets(rects, n)| && FillerWidgets(rects, n)[i] == Spacer(FillerSpots(rects, n)[i].screen, FillerSpots(rects, n)[i].rect) {
        if i < |ss| {
          assert FillerSpots(rects, n)[i] == ss[i] && FillerWidgets(rects, n)[i] == ws[i];
        } else {
          assert FillerSpots(rects, n)[i] == On(n - 1, rs[i - |ss|]) && FillerWidgets(rects, n)[i] == Spacer(n - 1, rs[i - |ss|]);
        }
      }
    }
  }

  lemma SpacerIdOf(s: nat, rc: Rect)
    ensures Spacer(s, rc).id == SpacerId(s, Cell(rc.col, rc.row))
  {}

  /** Two spots of a tiling on the same screen have different origins. */
  lemma OriginsDiffer(g: Grid, k: int, spots: seq<Spot>, i: nat, j: nat)
    requires Tiled(g, k, spots) && i < j < |spots| && spots[i].On? && spots[j].On? && spots[i].screen == spots[j].screen
    ensures Cell(spots[i].rect.col, spots[i].rect.row) != Cell(spots[j].rect.col, spots[j].rect.row)
  {
    hide Covered, AllCells;
    assert Legal(g, k, spots[i]) && Legal(g, k, spots[j]);
    assert !Clash(spots[i], spots[j]);
    var cell := Cell(spots[i].rect.col, spots[i].rect.row);
    assert cell in RectCells(spots[i].rect);
  }

  lemma SpacerIdsDistinct(g: Grid, user: seq<Spot>, rects: seq<seq<Rect>>, k: nat, i: nat, j: nat)
    requires k <= |rects| && Tiled(g, k, user + FillerSpots(rects, k)) && i < j < |FillerWidgets(rects, k)|
    ensures FillerWidgets(rects, k)[i].id != FillerWidgets(rects, k)[j].id
  {
    hide Tiled, FillerSpots, FillerWidgets, Spacer, SpacerId;
    FillersCorrespond(rects, k);
    var fs := FillerSpots(rects, k);
    var spots := user + fs;
    assert spots[|user| + i] == fs[i] && spots[|user| + j] == fs[j];
    FillersInBounds(g, k, spots, |user| + i);
    FillersInBounds(g, k, spots, |user| + j);
    SpacerIdOf(fs[i].screen, fs[i].rect);
    SpacerIdOf(fs[j].screen, fs[j].rect);
    if FillerWidgets(rects, k)[i].id == FillerWidgets(rects, k)[j].id {
      SpacerIdIsInjective(fs[i].screen, Cell(fs[i].rect.col, fs[i].rect.row), fs[j].screen, Cell(fs[j].rect.col, fs[j].rect.row));
      OriginsDiffer(g, k, spots, |user| + i, |user| + j);
      assert false;
    }
  }

  lemma FillersInBounds(g: Grid, k: int, spots: seq<Spot>, i: nat)
    requires Tiled(g, k, spots) && i < |spots|
    ensures 0 <= spots[i].rect.col && 0 <= spots[i].rect.row
  {
    hide Covered;
    assert Legal(g, k, spots[i]);
  }

  // ----- when the whole list has distinct ids

  /** Some widget has the name of a spacer of the screens that the placements leave unfilled. */
  ghost predicate NamedAfterHole(g: Grid, ps: seq<ExplicitPlacement>) {
    exists i, s: nat, cell :: 0 <= i < |ps| && NamesHole(g, ps, ps[i].id, s, cell)
  }

  ghost predicate NamesHole(g: Grid, ps: seq<ExplicitPlacement>, id: string, s: nat, cell: Cell) {
    s < ScreenCount(ps) && IsHole(g, Covered(DenseSpots(ps), s), cell) && id == SpacerId(s, cell)
  }

  /** The spacers' ids are the names of the holes. */
  lemma SpacersNameHoles(g: Grid, ps: seq<ExplicitPlacement>, layout: Layout, spacers: seq<Solver.PlacedWidget>, used: seq<int>,
                         screenMap: map<int, int>, rects: seq<seq<Rect>>, id: string)
    requires GoodPrefix(g, ps, |ps|) && IsExplicitLayout(g, ps, layout, spacers, used, screenMap, rects)
    ensures (exists s: nat, cell :: NamesHole(g, ps, id, s, cell)) <==> exists j :: 0 <= j < |spacers| && spacers[j].id == id
  {
    hide GoodPrefix, Tiled, FillerSpots, FillerWidgets, Spacer, SpacerId, ScreenOf, MapSpots, Maps, Increasing, UsesScreen, Covered,
      IsGreedy, IsHole, AllCells, CellsOf, ScreenCount, DenseSpots;
    var k := |layout.screens|;
    SpotsAreDense(g, ps, used, screenMap, k);
    var user := DenseSpots(ps);
    if s: nat, cell :| NamesHole(g, ps, id, s, cell) {
      FillersFill(g, user, rects, k, s);
      HolesOf(g, Covered(user, s), rects[s], cell);
      var t :| 0 <= t < |rects[s]| && Origin(rects[s][t]) == cell;
      var j := FillerIndex(rects, k, s, t);
      SpacerIdOf(s, rects[s][t]);
      assert spacers[j].id == id;
    }
    if j :| 0 <= j < |spacers| && spacers[j].id == id {
      FillersCorrespond(rects, k);
      var sp := FillerSpots(rects, k)[j];
      var t := FillerOf(rects, k, j);
      FillersFill(g, user, rects, k, sp.screen);
      HolesOf(g, Covered(user, sp.screen), rects[sp.screen], Origin(sp.rect));
      SpacerIdOf(sp.screen, sp.rect);
      assert NamesHole(g, ps, id, sp.screen, Origin(sp.rect));
    }
  }

  /** Some widget has the id of a generated spacer. */
  predicate TakesSpacerId(ps: seq<ExplicitPlacement>, spacers: seq<Solver.PlacedWidget>) {
    exists i, j :: 0 <= i < |ps| && 0 <= j < |spacers| && ps[i].id == spacers[j].id
  }

  lemma TakesNameOfHole(g: Grid, ps: seq<ExplicitPlacement>, layout: Layout, spacers: seq<Solver.PlacedWidget>, used: seq<int>,
                        screenMap: map<int, int>, rects: seq<seq<Rect>>)
    requires GoodPrefix(g, ps, |ps|) && IsExplicitLayout(g, ps, layout, spacers, used, screenMap, rects)
    ensures TakesSpacerId(ps, spacers) <==> NamedAfterHole(g, ps)
  {
    hide GoodPrefix, IsExplicitLayout, NamesHole;
    forall i | 0 <= i < |ps|
      ensures (exists s: nat, cell :: NamesHole(g, ps, ps[i].id, s, cell)) <==> exists j :: 0 <= j < |spacers| && spacers[j].id == ps[i].id
    {
      SpacersNameHoles(g, ps, layout, spacers, used, screenMap, rects, ps[i].id);
    }
  }

  lemma SpacerNamesHole(g: Grid, ps: seq<ExplicitPlacement>, s: nat, e: Solver.PlacedWidget, i: nat)
    requires IsSpacerOf(g, ps, s, e) && s < ScreenCount(ps) && i < |ps| && ps[i].id == e.id
    ensures NamedAfterHole(g, ps)
  {
    hide IsHole, SpacerId, Covered, DenseSpots, ScreenCount;
    assert NamesHole(g, ps, ps[i].id, s, Cell(e.col, e.row));
  }

  /** Unless a placement is named after a hole, a screen lists exactly one entry with its id, and that is the placement. */
  lemma OneEntryPerId(g: Grid, ps: seq<ExplicitPlacement>, layout: Layout, i: nat, s: nat)
    requires PortraysAll(g, ps, layout) && Acceptable(g, ps) && !NamedAfterHole(g, ps)
    requires i < |ps| && s < |layout.screens| && IsOn(ps, i, s)
    ensures var widgets := layout.screens[s].widgets;
      exists x :: 0 <= x < |widgets| && IsEntryOf(widgets[x], ps[i])
                  && forall y :: 0 <= y < |widgets| && widgets[y].id == ps[i].id ==> y == x
  {
    hide TilesScreen, AllCells, Acceptable, IsHole, SpacerId, Covered, DenseSpots, ScreenCount, IsOn;
    assert Portrays(g, ps, layout.screens[s], s);
    var widgets := layout.screens[s].widgets;
    var x :| 0 <= x < |widgets| && IsEntryOf(widgets[x], ps[i])
             && forall y :: 0 <= y < |widgets| && IsEntryOf(widgets[y], ps[i]) ==> y == x;
    forall y | 0 <= y < |widgets| && widgets[y].id == ps[i].id ensures y == x {
      assert Belongs(g, ps, s, widgets[y]);
      if IsSpacerOf(g, ps, s, widgets[y]) {
        SpacerNamesHole(g, ps, s, widgets[y], i);
        assert false;
      }
      var j :| 0 <= j < |ps| && IsOn(ps, j, s) && IsEntryOf(widgets[y], ps[j]);
      if j != i {
        PlacedIdsDiffer(g, ps, if i < j then i else j, if i < j then j else i);
      }
    }
  }

  lemma SpacerConfigAt(spacers: seq<Solver.PlacedWidget>, j: nat)
    requires j < |spacers|
    ensures |SpacerConfigs(spacers)| == |spacers| && SpacerConfigs(spacers)[j].id == spacers[j].id
  {}

  lemma PlacedIdsDiffer(g: Grid, ps: seq<ExplicitPlacement>, i: nat, j: nat)
    requires Acceptable(g, ps) && i < j < |ps|
    ensures ps[i].id != ps[j].id
  {
    hide Text.Trim, Overlapping;
    assert GoodPrefix(g, ps, |ps|);
    assert Text.Trim(ps[i].id) != Text.Trim(ps[j].id);
  }

  lemma AcceptableIsGood(g: Grid, ps: seq<ExplicitPlacement>)
    requires Acceptable(g, ps)
    ensures GoodPrefix(g, ps, |ps|)
  {
    hide GoodPrefix, Overlapping;
  }

  /** The list an override leaves has distinct ids if and only if no placement has the name of a hole. */
  lemma AppliedIdsDistinctIff(g: Grid, widgets: seq<WidgetConfig>, ovMap: map<string, WidgetOverride>, ps: seq<ExplicitPlacement>,
                              layout: Layout, spacers: seq<Solver.PlacedWidget>, described: seq<WidgetConfig>)
    requires LaidOut(g, widgets, ovMap, ps, layout, spacers) && Describe(described, ps)
    ensures DistinctWidgetIds(described + SpacerConfigs(spacers)) <==> !NamedAfterHole(g, ps)
  {
    hide Built, Overlapping, Acceptable, GoodPrefix, IsExplicitLayout, Tiled, SpacerConfigs, DimensionFromSlice, Maps, NamedAfterHole;
    var all := described + SpacerConfigs(spacers);
    var n := |described|;
    forall j | 0 <= j < |spacers| ensures |SpacerConfigs(spacers)| == |spacers| && SpacerConfigs(spacers)[j].id == spacers[j].id {
      SpacerConfigAt(spacers, j);
    }
    SameLength(spacers);
    var used, screenMap, rects :| IsExplicitLayout(g, ps, layout, spacers, used, screenMap, rects);
    AcceptableIsGood(g, ps);
    TakesNameOfHole(g, ps, layout, spacers, used, screenMap, rects);
    if TakesSpacerId(ps, spacers) {
      var i, j :| 0 <= i < |ps| && 0 <= j < |spacers| && ps[i].id == spacers[j].id;
      assert all[i] == described[i] && all[n + j] == SpacerConfigs(spacers)[j];
    } else {
      forall a, b | 0 <= a < b < |all| ensures all[a].id != all[b].id {
        if b < n {
          PlacedIdsDiffer(g, ps, a, b);
        } else if a < n {
          assert all[a].id == ps[a].id && all[b].id == spacers[b - n].id;
        } else {
          FillerIdsDiffer(g, ps, layout, spacers, used, screenMap, rects, a - n, b - n);
        }
      }
    }
  }

  /** In every such list only a spacer repeats the id of a widget before it. */
  lemma OnlySpacersRepeat(g: Grid, widgets: seq<WidgetConfig>, ovMap: map<string, WidgetOverride>, ps: seq<ExplicitPlacement>,
                          layout: Layout, spacers: seq<Solver.PlacedWidget>, described: seq<WidgetConfig>, i: nat, j: nat)
    requires LaidOut(g, widgets, ovMap, ps, layout, spacers) && Describe(described, ps)
    requires i < j < |described + SpacerConfigs(spacers)|
    ensures var all := described + SpacerConfigs(spacers);
            all[i].id == all[j].id ==> j >= |described| && all[j].kind == "spacer"
  {
    hide Built, Overlapping, Acceptable, GoodPrefix, IsExplicitLayout, Tiled, DimensionFromSlice, Maps;
    if j < |described| {
      PlacedIdsDiffer(g, ps, i, j);
    }
  }

  lemma SameLength(spacers: seq<Solver.PlacedWidget>)
    ensures |SpacerConfigs(spacers)| == |spacers|
  {}

  lemma FillerIdsDiffer(g: Grid, ps: seq<ExplicitPlacement>, layout: Layout, spacers: seq<Solver.PlacedWidget>, used: seq<int>,
                        screenMap: map<int, int>, rects: seq<seq<Rect>>, i: nat, j: nat)
    requires IsExplicitLayout(g, ps, layout, spacers, used, screenMap, rects) && i < j < |spacers|
    ensures spacers[i].id != spacers[j].id
  {
    hide Tiled, FillerSpots, FillerWidgets, ScreenOf, MapSpots, Maps, IsGreedy, Increasing, UsesScreen;
    var k := |layout.screens|;
    SpacerIdsDistinct(g, MapSpots(ps, screenMap, k), rects, k, i, j);
  }

  // ----- names that are safe and names that are not

  const SPACER_PREFIX := "auto-spacer-"

  /** Keeping clear of the prefix is enough. */
  lemma OwnPrefixSuffices(g: Grid, ps: seq<ExplicitPlacement>)
    requires forall i :: 0 <= i < |ps| ==> !(SPACER_PREFIX <= ps[i].id)
    ensures !NamedAfterHole(g, ps)
  {
    hide SpacerId, IsHole, Covered, DenseSpots, ScreenCount;
    if i, s: nat, cell :| 0 <= i < |ps| && NamesHole(g, ps, ps[i].id, s, cell) {
      HoleIsInGrid(g, Covered(DenseSpots(ps), s), cell);
      Prefixed(s, cell);
      assert false;
    }
  }

  lemma HoleIsInGrid(g: Grid, taken: set<Cell>, cell: Cell)
    requires IsHole(g, taken, cell)
    ensures 0 <= cell.col && 0 <= cell.row
  {
    hide CellsOf, RectCells;
    var rects, t :| 0 <= t < |rects| && IsGreedy(g, taken, rects) && Origin(rects[t]) == cell;
    assert IsLargestAtFirst(g, taken + CellsOf(rects, t), rects[t]);
  }

  lemma Prefixed(s: nat, cell: Cell)
    requires 0 <= cell.col && 0 <= cell.row
    ensures SPACER_PREFIX <= SpacerId(s, cell)
  {
    hide Text.Decimal;
  }

  /** A widget named after the first free cell of a screen takes a spacer's name, whatever else is placed. */
  lemma FirstHoleIsTaken(g: Grid, ps: seq<ExplicitPlacement>, s: nat, cell: Cell, i: nat)
    requires s < ScreenCount(ps) && i < |ps| && IsFirstFree(g, Covered(DenseSpots(ps), s), cell) && ps[i].id == SpacerId(s, cell)
    ensures NamedAfterHole(g, ps)
  {
    hide SpacerId, IsHole, Covered, DenseSpots, ScreenCount, IsFirstFree;
    FirstFreeIsHole(g, Covered(DenseSpots(ps), s), cell);
    assert NamesHole(g, ps, ps[i].id, s, cell);
  }

  lemma FirstFreeIsHole(g: Grid, taken: set<Cell>, cell: Cell)
    requires IsFirstFree(g, taken, cell)
    ensures IsHole(g, taken, cell)
  {
    hide CellsOf, RectCells, IsLargestAtFirst;
    SingleCellFits(g, taken, cell);
    var rc := LargestFrom(g, taken, Rect(cell.col, cell.row, 1, 1));
    NoGreed(g, taken);
    GreedyGrows(g, taken, [], rc);
    assert Origin(([] + [rc])[0]) == cell;
  }

  /** A free rectangle at the first free cell. */
  ghost predicate Fits(g: Grid, taken: set<Cell>, rc: Rect) {
    IsFirstFree(g, taken, Cell(rc.col, rc.row)) && InBounds(g, rc) && IsFree(taken, Cell(rc.col, rc.row), rc.cols, rc.rows)
  }

  lemma SingleCellFits(g: Grid, taken: set<Cell>, cell: Cell)
    requires IsFirstFree(g, taken, cell)
    ensures Fits(g, taken, Rect(cell.col, cell.row, 1, 1))
  {}

  /** Going to a better rectangle as long as there is one ends at the largest. */
  lemma {:induction false} LargestFrom(g: Grid, taken: set<Cell>, rc: Rect) returns (best: Rect)
    requires Fits(g, taken, rc)
    ensures IsLargestAtFirst(g, taken, best) && Origin(best) == Origin(rc)
    decreases g.cols * g.rows - Area(DimensionOf(rc)), g.rows - rc.rows
  {
    hide IsFree, IsFirstFree, Area;
    if w, h :| Fits(g, taken, Rect(rc.col, rc.row, w, h)) && IsBetterSpacer(w, h, DimensionOf(rc)) {
      AreaFits(g, rc);
      AreaFits(g, Rect(rc.col, rc.row, w, h));
      best := LargestFrom(g, taken, Rect(rc.col, rc.row, w, h));
    } else {
      best := rc;
      forall w, h | InBounds(g, Rect(rc.col, rc.row, w, h)) && IsFree(taken, Cell(rc.col, rc.row), w, h)
        ensures !IsBetterSpacer(w, h, DimensionOf(rc)) {
        assert Fits(g, taken, Rect(rc.col, rc.row, w, h));
      }
    }
  }

  lemma AreaFits(g: Grid, rc: Rect)
    requires InBounds(g, rc)
    ensures Area(DimensionOf(rc)) <= g.cols * g.rows
  {
    assert rc.cols * rc.rows <= g.cols * rc.rows <= g.cols * g.rows;
  }

  // ----- an accepted override that repeats an id

  const CORNER_ID := "auto-spacer-0-1-0"

  /** One single-cell widget, put in the corner of the landscape grid and named after the hole beside it. */
  const CORNER_WIDGET := WidgetConfig(CORNER_ID, "weather", [1, 1], false)
  const CORNER_OVERRIDE := WidgetOverride(CORNER_ID, 0, 0, 0, [], false)
  const CORNER := ExplicitPlacement(CORNER_ID, "weather", 0, 0, 0, Dimension(1, 1), false)

  lemma CornerIsNamedAfterHole()
    ensures NamedAfterHole(Grid(6, 2), [CORNER])
  {
    hide NamedAfterHole, SpacerId, IsFirstFree;
    CornerSpot();
    CornerCovers();
    CornerId();
    FirstHoleIsTaken(Grid(6, 2), [CORNER], 0, Cell(1, 0), 0);
  }

  lemma CornerSpot()
    ensures DenseSpots([CORNER]) == [On(0, Rect(0, 0, 1, 1))]
  {}

  lemma CornerCovers()
    requires DenseSpots([CORNER]) == [On(0, Rect(0, 0, 1, 1))]
    ensures IsFirstFree(Grid(6, 2), Covered(DenseSpots([CORNER]), 0), Cell(1, 0))
  {
    var user := DenseSpots([CORNER]);
    assert user[..0] == [];
    assert Covered(user, 0) == RectCells(Rect(0, 0, 1, 1));
  }

  lemma CornerId()
    ensures SpacerId(0, Cell(1, 0)) == CORNER_ID
  {
    assert Text.Decimal(0) == "0" && Text.Decimal(1) == "1";
  }

  lemma CornerIsOverridden()
    ensures Overridden([CORNER_WIDGET], map[CORNER_ID := CORNER_OVERRIDE], 1) == [CORNER_WIDGET]
    ensures Unplaced([CORNER_WIDGET], map[CORNER_ID := CORNER_OVERRIDE], 1) == []
  {}

  /** The override asks for the corner and nothing else is placed. */
  lemma CornerIsBuilt(ps: seq<ExplicitPlacement>)
    requires Built(Grid(6, 2), [CORNER_WIDGET], map[CORNER_ID := CORNER_OVERRIDE], ps, 1, 1)
    ensures ps == [CORNER]
  {
    hide AllInBounds, PlacedByProgram, Clash, AreFirstOpen, Overridden, Unplaced;
    CornerIsOverridden();
    assert PlacedByOverride(ps[0], CORNER_WIDGET, CORNER_OVERRIDE);
  }

  /** The platform check, passed by every widget. */
  predicate SupportsAll(w: WidgetConfig) {
    true
  }

  lemma CornerIsNotRefused(e: OverrideError)
    ensures !Refuses(Grid(6, 2), [CORNER_WIDGET], map[CORNER_ID := CORNER_OVERRIDE], SupportsAll, e)
  {
    hide Built, ClashesWithNone;
    assert forall i :: 0 <= i < |[CORNER_WIDGET]| ==> [CORNER_WIDGET][i] == CORNER_WIDGET;
  }

  lemma CornerIsNotObjectedTo(ps: seq<ExplicitPlacement>, e: PlacementError)
    ensures !ObjectsTo(Grid(6, 2), [CORNER_WIDGET], map[CORNER_ID := CORNER_OVERRIDE], ps, e)
  {
    hide Built, Overridden, Unplaced, OwnCount, GoodPrefix, Text.TrimLeft, Text.TrimRight;
    if ObjectsTo(Grid(6, 2), [CORNER_WIDGET], map[CORNER_ID := CORNER_OVERRIDE], ps, e) {
      CornerIsBuilt(ps);
      CornerIsTrimmed();
      assert false;
    }
  }

  lemma CornerIsTrimmed()
    ensures Text.Trim(CORNER_ID) == CORNER_ID
  {
    hide Text.Trim;
    assert CORNER_ID[0] == 'a' && CORNER_ID[|CORNER_ID| - 1] == '0';
    Text.NothingToTrim(CORNER_ID);
  }

  lemma CornerIsAccepted(r: Outcome<(Layout, seq<WidgetConfig>)>)
    requires Applies(Grid(6, 2), [CORNER_WIDGET], map[CORNER_ID := CORNER_OVERRIDE], SupportsAll, r)
    ensures r.Done?
  {
    hide Refuses, ObjectsTo;
    if r.Failed? {
      CornerIsNotRefused(r.error);
      if r.error.Placer? {
        forall ps ensures !ObjectsTo(Grid(6, 2), [CORNER_WIDGET], map[CORNER_ID := CORNER_OVERRIDE], ps, r.error.error) {
          CornerIsNotObjectedTo(ps, r.error.error);
        }
      }
      assert false;
    }
  }

  /** The override is accepted and the list it leaves repeats an id. */
  method OverrideRepeatsId() returns (r: Outcome<(Layout, seq<WidgetConfig>)>)
    ensures r.Done? && !DistinctWidgetIds(r.value.1)
  {
    hide LaidOut, Describe, Refuses, ObjectsTo, DistinctWidgetIds, SpacerConfigs, NamedAfterHole, Built;
    r := ApplyOverride([CORNER_WIDGET], [CORNER_OVERRIDE], SupportsAll, 6, 2);
    ghost var g, widgets, ovMap := Grid(6, 2), [CORNER_WIDGET], map[CORNER_ID := CORNER_OVERRIDE];
    assert OverrideTable([CORNER_OVERRIDE]) == ovMap;
    CornerIsAccepted(r);
    ghost var ps, spacers, described :| LaidOut(g, widgets, ovMap, ps, r.value.0, spacers) && Describe(described, ps)
                                        && r.value.1 == described + SpacerConfigs(spacers);
    AppliedIdsDistinctIff(g, widgets, ovMap, ps, r.value.0, spacers, described);
    LaidOutIsBuilt(g, widgets, ovMap, ps, r.value.0, spacers);
    CornerIsBuilt(ps);
    CornerIsNamedAfterHole();
  }

  lemma LaidOutIsBuilt(g: Grid, widgets: seq<WidgetConfig>, ovMap: map<string, WidgetOverride>, ps: seq<ExplicitPlacement>,
                       layout: Layout, spacers: seq<Solver.PlacedWidget>)
    requires LaidOut(g, widgets, ovMap, ps, layout, spacers)
    ensures Built(g, widgets, ovMap, ps, |widgets|, |widgets|)
  {
    hide Built, Acceptable, Overlapping, IsExplicitLayout;
  }
}
