/**
  Layout overrides: the user positions some widgets, the program finds room for the others and
  hands all of them to the explicit placer.

  The builder keeps its own record of taken cells, one set per screen plus one for the pinned
  widgets. `Mirrors` says what that record means; it is why the explicit placer, which keeps a
  record of its own, never finds an overlap the user did not ask for.
 */
module Overrides {
  import opened Grid
  import opened Board
  import opened Layouts
  import opened Explicit
  import opened ExplicitScreens
  import Solver
  import Text

  datatype WidgetConfig = WidgetConfig(id: string, kind: string, dims: seq<int>, pinned: bool)

  datatype WidgetOverride = WidgetOverride(id: string, screen: int, col: int, row: int, dims: seq<int>, pinned: bool)

  datatype OverrideError =
    | BadSlice(id: string)
    | BadBounds(id: string)
    | Unsupported(id: string)
    | NoOpenSlot(id: string)
    | Placer(error: PlacementError)

  datatype Outcome<+T> = Done(value: T) | Failed(error: OverrideError)

  /** Two integers that fit the landscape or the portrait grid. */
  function DimensionFromSlice(s: seq<int>): (r: Outcome<Dimension>)
    ensures r.Done? <==> |s| == 2 && 1 <= s[0] <= 6 && 1 <= s[1] <= 6 && (s[1] <= 2 || s[0] <= 3)
    ensures r.Done? ==> r.value == Dimension(s[0], s[1])
  {
    if |s| != 2 then Failed(BadSlice(""))
    else
      var d := Dimension(s[0], s[1]);
      if ValidDimension(Grid(6, 2), d) || ValidDimension(Grid(3, 6), d) then Done(d) else Failed(BadSlice(""))
  }

  predicate PlacementInBounds(g: Grid, screen: int, rc: Rect) {
    && ValidDimension(g, DimensionOf(rc)) && 0 <= screen < MAX_SCREENS
    && !(rc.col < 0 || rc.col + rc.cols > g.cols || rc.row < 0 || rc.row + rc.rows > g.rows)
  }

  // ----- the builder's record of taken cells

  /** A screen number no widget can have: only pinned widgets show there. */
  const NOWHERE := -1

  function SpotsOf(ps: seq<ExplicitPlacement>): (r: seq<Spot>)
    ensures |r| == |ps| && forall i :: 0 <= i < |ps| ==> r[i] == SpotOf(ps[i])
  {
    seq(|ps|, i requires 0 <= i < |ps| => SpotOf(ps[i]))
  }

  /** Each tracked set is the pinned cells plus that screen's unpinned cells; a screen without
      a set has no unpinned widget. */
  ghost predicate Mirrors(masks: Board, pinnedMask: set<Cell>, spots: seq<Spot>) {
    && 1 <= |masks| <= MAX_SCREENS
    && pinnedMask == Covered(spots, NOWHERE)
    && (forall s :: 0 <= s < |masks| ==> masks[s] == Covered(spots, s))
    && (forall i :: 0 <= i < |spots| && spots[i].On? ==> 0 <= spots[i].screen < |masks|)
  }

  lemma {:induction false} UnusedScreenShowsPinned(spots: seq<Spot>, s: int)
    requires forall i :: 0 <= i < |spots| && spots[i].On? ==> spots[i].screen != s && spots[i].screen >= 0
    ensures Covered(spots, s) == Covered(spots, NOWHERE)
  {
    if spots != [] {
      UnusedScreenShowsPinned(spots[..|spots| - 1], s);
    }
  }

  function Extend(masks: Board, pinnedMask: set<Cell>, screen: nat): (r: Board)
    ensures |r| == if |masks| <= screen then screen + 1 else |masks|
    ensures forall s :: 0 <= s < |r| ==> r[s] == if s < |masks| then masks[s] else pinnedMask
    decreases screen + 1 - |masks|
  {
    if |masks| <= screen then Extend(masks + [pinnedMask], pinnedMask, screen) else masks
  }

  /** Records a placement, first growing the list up to its screen. */
  method TrackScreenMask(masks: Board, screen: nat, rect: Rect, pinned: bool, pinnedMask: set<Cell>, ghost spots: seq<Spot>)
    returns (masks': Board, pinnedMask': set<Cell>)
    requires Mirrors(masks, pinnedMask, spots) && screen < MAX_SCREENS
    ensures Mirrors(masks', pinnedMask', spots + [if pinned then Pinned(rect) else On(screen, rect)])
  {
    hide Covered, RectCells;
    var grown := masks;
    while |grown| <= screen
      invariant |masks| <= |grown| <= MAX_SCREENS && Extend(grown, pinnedMask, screen) == Extend(masks, pinnedMask, screen)
    {
      grown := grown + [pinnedMask];
    }
    assert grown == Extend(masks, pinnedMask, screen);
    ghost var sp := if pinned then Pinned(rect) else On(screen, rect);
    TrackedSpot(masks, pinnedMask, spots, screen, sp);
    if pinned {
      pinnedMask' := pinnedMask + RectCells(rect);
      masks' := grown;
      for i := 0 to |grown|
        invariant |masks'| == |grown|
        invariant forall s :: 0 <= s < |grown| ==> masks'[s] == if s < i then grown[s] + RectCells(rect) else grown[s]
      {
        masks' := masks'[i := masks'[i] + RectCells(rect)];
      }
      return;
    }
    pinnedMask' := pinnedMask;
    masks' := grown[screen := grown[screen] + RectCells(rect) + pinnedMask];
  }

  lemma TrackedSpot(masks: Board, pinnedMask: set<Cell>, spots: seq<Spot>, screen: nat, sp: Spot)
    requires Mirrors(masks, pinnedMask, spots) && screen < MAX_SCREENS
    requires sp.On? ==> sp.screen == screen
    ensures var grown := Extend(masks, pinnedMask, screen);
      && Covered(spots + [sp], NOWHERE) == pinnedMask + (if sp.Pinned? then RectCells(sp.rect) else {})
      && (forall s :: 0 <= s < |grown| ==>
            Covered(spots + [sp], s) == grown[s] + (if Shows(sp, s) then RectCells(sp.rect) else {}) && pinnedMask <= grown[s])
  {
    assert (spots + [sp])[..|spots|] == spots;
    var grown := Extend(masks, pinnedMask, screen);
    forall s | 0 <= s < |grown| ensures Covered(spots, s) == grown[s] && pinnedMask <= grown[s] {
      if s >= |masks| {
        UnusedScreenShowsPinned(spots, s);
      }
      PinnedShowEverywhere(spots, s);
    }
  }

  lemma {:induction false} PinnedShowEverywhere(spots: seq<Spot>, s: int)
    requires forall i :: 0 <= i < |spots| && spots[i].On? ==> spots[i].screen >= 0
    ensures Covered(spots, NOWHERE) <= Covered(spots, s)
  {
    if spots != [] {
      PinnedShowEverywhere(spots[..|spots| - 1], s);
    }
  }

  // ----- finding room

  /** Row by row, then column by column. */
  predicate ReadsEarlier(a: Rect, b: Rect) {
    a.row < b.row || (a.row == b.row && a.col < b.col)
  }

  /** The first free rectangle of the shape, or none if there is none. */
  method FindSlotOnScreen(taken: set<Cell>, dim: Dimension, g: Grid) returns (rc: Rect, ok: bool)
    requires dim.cols >= 1 && dim.rows >= 1
    ensures ok ==> InBounds(g, rc) && DimensionOf(rc) == dim && taken !! RectCells(rc)
    ensures ok ==> forall x: Rect :: InBounds(g, x) && DimensionOf(x) == dim && ReadsEarlier(x, rc) ==> !(taken !! RectCells(x))
    ensures !ok ==> forall x: Rect :: InBounds(g, x) && DimensionOf(x) == dim ==> !(taken !! RectCells(x))
  {
    rc := Rect(0, 0, dim.cols, dim.rows);
    var r := 0;
    while r <= g.rows - dim.rows
      invariant 0 <= r
      invariant forall x: Rect :: InBounds(g, x) && DimensionOf(x) == dim && x.row < r ==> !(taken !! RectCells(x))
      decreases g.rows - r
    {
      var c := 0;
      while c <= g.cols - dim.cols
        invariant 0 <= c
        invariant forall x: Rect :: InBounds(g, x) && DimensionOf(x) == dim && x.row == r && x.col < c ==> !(taken !! RectCells(x))
        decreases g.cols - c
      {
        rc := Rect(c, r, dim.cols, dim.rows);
        if taken !! RectCells(rc) {
          return rc, true;
        }
        assert forall x: Rect :: DimensionOf(x) == dim && x.row == r && x.col == c ==> x == rc;
        c := c + 1;
      }
      r := r + 1;
    }
    ok := false;
  }

  predicate ClashesWithNone(spots: seq<Spot>, sp: Spot) {
    forall i :: 0 <= i < |spots| ==> !Clash(spots[i], sp)
  }

  /** A spot of the given shape on one of the sixteen screens, or pinned. */
  predicate Allowed(g: Grid, dim: Dimension, pinned: bool, sp: Spot) {
    InBounds(g, sp.rect) && DimensionOf(sp.rect) == dim && sp.Pinned? == pinned && (sp.On? ==> 0 <= sp.screen < 16)
  }

  /** The record decides clashes: an unpinned spot clashes exactly when its rectangle meets the
      set of its screen (or the pinned set, on a screen without one). */
  lemma UnpinnedClash(masks: Board, pinnedMask: set<Cell>, spots: seq<Spot>, s: nat, rc: Rect)
    requires Mirrors(masks, pinnedMask, spots)
    ensures ClashesWithNone(spots, On(s, rc)) <==> (if s < |masks| then masks[s] else pinnedMask) !! RectCells(rc)
  {
    if s >= |masks| {
      UnusedScreenShowsPinned(spots, s);
    }
    assert Covered(spots, s) == if s < |masks| then masks[s] else pinnedMask;
    var sp := On(s, rc);
    if cell :| cell in Covered(spots, s) && cell in RectCells(rc) {
      CoveredBy(spots, s, cell);
      var i :| 0 <= i < |spots| && Shows(spots[i], s) && InRect(spots[i].rect, cell);
      assert Clash(spots[i], sp);
    }
    if i :| 0 <= i < |spots| && Clash(spots[i], sp) {
      var cell :| cell in RectCells(spots[i].rect) && cell in RectCells(rc);
      CoveredBy(spots, s, cell);
      assert Shows(spots[i], s);
    }
  }

  lemma PinnedClash(masks: Board, pinnedMask: set<Cell>, spots: seq<Spot>, combined: set<Cell>, rc: Rect)
    requires Mirrors(masks, pinnedMask, spots)
    requires forall cell :: cell in combined <==> cell in pinnedMask || exists s :: 0 <= s < |masks| && cell in masks[s]
    ensures ClashesWithNone(spots, Pinned(rc)) <==> combined !! RectCells(rc)
  {
    var sp := Pinned(rc);
    if cell :| cell in combined && cell in RectCells(rc) {
      var s := NOWHERE;
      if cell !in pinnedMask {
        s :| 0 <= s < |masks| && cell in masks[s];
      }
      CoveredBy(spots, s, cell);
      var i :| 0 <= i < |spots| && Shows(spots[i], s) && InRect(spots[i].rect, cell);
      assert Clash(spots[i], sp);
    }
    if i :| 0 <= i < |spots| && Clash(spots[i], sp) {
      var cell :| cell in RectCells(spots[i].rect) && cell in RectCells(rc);
      var s := if spots[i].Pinned? then NOWHERE else spots[i].screen;
      CoveredBy(spots, s, cell);
      assert Shows(spots[i], s);
    }
  }

  /** Lower screens first, and on a screen row by row. */
  predicate ComesEarlier(a: Spot, b: Spot) {
    if a.On? && b.On? && a.screen != b.screen then a.screen < b.screen else ReadsEarlier(a.rect, b.rect)
  }

  /** Finds the first spot that clashes with nothing, exactly when there is one. */
  method FindFirstOpenSlot(masks: Board, pinnedMask: set<Cell>, pinned: bool, dim: Dimension, g: Grid, ghost spots: seq<Spot>)
    returns (screen: nat, rc: Rect, ok: bool)
    requires Mirrors(masks, pinnedMask, spots) && dim.cols >= 1 && dim.rows >= 1
    ensures ok ==> Allowed(g, dim, pinned, if pinned then Pinned(rc) else On(screen, rc)) && screen < MAX_SCREENS
    ensures ok ==> ClashesWithNone(spots, if pinned then Pinned(rc) else On(screen, rc))
    ensures ok ==> forall sp :: Allowed(g, dim, pinned, sp) && ComesEarlier(sp, if pinned then Pinned(rc) else On(screen, rc)) ==>
                                  !ClashesWithNone(spots, sp)
    ensures !ok ==> forall sp :: Allowed(g, dim, pinned, sp) ==> !ClashesWithNone(spots, sp)
  {
    hide Mirrors, Covered, ClashesWithNone, RectCells;
    MirrorsSize(masks, pinnedMask, spots);
    if pinned {
      var combined := pinnedMask;
      for s := 0 to |masks|
        invariant forall cell :: cell in combined <==> cell in pinnedMask || exists t :: 0 <= t < s && cell in masks[t]
      {
        combined := combined + masks[s];
      }
      rc, ok := FindSlotOnScreen(combined, dim, g);
      forall x: Rect ensures ClashesWithNone(spots, Pinned(x)) <==> combined !! RectCells(x) {
        PinnedClash(masks, pinnedMask, spots, combined, x);
      }
      screen := 0;
      return;
    }
    forall s: nat, x: Rect
      ensures ClashesWithNone(spots, On(s, x)) <==> (if s < |masks| then masks[s] else pinnedMask) !! RectCells(x)
    {
      UnpinnedClash(masks, pinnedMask, spots, s, x);
    }
    screen := 0;
    while screen < |masks|
      invariant 0 <= screen <= |masks|
      invariant forall s: nat, x: Rect :: s < screen && InBounds(g, x) && DimensionOf(x) == dim ==> !ClashesWithNone(spots, On(s, x))
    {
      MaskHoldsPinned(masks, pinnedMask, spots, screen);
      rc, ok := FindSlotOnScreen(masks[screen] + pinnedMask, dim, g);
      if ok {
        return;
      }
      screen := screen + 1;
    }
    if |masks| < MAX_SCREENS {
      rc, ok := FindSlotOnScreen(pinnedMask, dim, g);
      return;
    }
    screen, rc, ok := 0, Rect(0, 0, 0, 0), false;
  }

  lemma MirrorsSize(masks: Board, pinnedMask: set<Cell>, spots: seq<Spot>)
    requires Mirrors(masks, pinnedMask, spots)
    ensures 1 <= |masks| <= MAX_SCREENS
  {}

  lemma MaskHoldsPinned(masks: Board, pinnedMask: set<Cell>, spots: seq<Spot>, s: nat)
    requires Mirrors(masks, pinnedMask, spots) && s < |masks|
    ensures masks[s] + pinnedMask == masks[s]
  {
    PinnedShowEverywhere(spots, s);
  }

  // ----- building the placements

  predicate IsOverridden(w: WidgetConfig, ovMap: map<string, WidgetOverride>) {
    w.id in ovMap
  }

  predicate IsUnplaced(w: WidgetConfig, ovMap: map<string, WidgetOverride>) {
    w.id !in ovMap && w.kind != "spacer"
  }

  /** The first n widgets that have an override, in order. */
  function Overridden(widgets: seq<WidgetConfig>, ovMap: map<string, WidgetOverride>, n: nat): (r: seq<WidgetConfig>)
    requires n <= |widgets|
    ensures forall i :: 0 <= i < |r| ==> r[i].id in ovMap
  {
    if n == 0 then []
    else Overridden(widgets, ovMap, n - 1) + if IsOverridden(widgets[n - 1], ovMap) then [widgets[n - 1]] else []
  }

  /** The first n widgets that have none and are not spacers, in order. */
  function Unplaced(widgets: seq<WidgetConfig>, ovMap: map<string, WidgetOverride>, n: nat): seq<WidgetConfig>
    requires n <= |widgets|
  {
    if n == 0 then []
    else Unplaced(widgets, ovMap, n - 1) + if IsUnplaced(widgets[n - 1], ovMap) then [widgets[n - 1]] else []
  }

  function OverrideDims(w: WidgetConfig, ov: WidgetOverride): seq<int> {
    if |ov.dims| == 0 then w.dims else ov.dims
  }

  /** The placement an override asks for. */
  predicate PlacedByOverride(p: ExplicitPlacement, w: WidgetConfig, ov: WidgetOverride) {
    && DimensionFromSlice(OverrideDims(w, ov)).Done?
    && p == ExplicitPlacement(w.id, w.kind, ov.screen, ov.col, ov.row, DimensionFromSlice(OverrideDims(w, ov)).value, ov.pinned)
  }

  /** A placement the program chose for a widget. */
  predicate PlacedByProgram(p: ExplicitPlacement, w: WidgetConfig) {
    && DimensionFromSlice(w.dims).Done? && p.dims == DimensionFromSlice(w.dims).value
    && p.id == w.id && p.kind == w.kind && p.pinned == w.pinned
  }

  predicate AllInBounds(g: Grid, ps: seq<ExplicitPlacement>) {
    forall i :: 0 <= i < |ps| ==> PlacementInBounds(g, ps[i].screen, RectOf(ps[i]))
  }

  /** No earlier spot of the same shape is clear of what was placed before. */
  ghost predicate IsFirstOpen(g: Grid, before: seq<ExplicitPlacement>, p: ExplicitPlacement) {
    forall sp :: Allowed(g, p.dims, p.pinned, sp) && ComesEarlier(sp, SpotOf(p)) ==> !ClashesWithNone(SpotsOf(before), sp)
  }

  /** From the given index on every placement is the first open one behind those before it. */
  ghost predicate AreFirstOpen(g: Grid, ps: seq<ExplicitPlacement>, from: nat) {
    forall j :: from <= j < |ps| ==> IsFirstOpen(g, ps[..j], ps[j])
  }

  lemma OneMoreFirstOpen(g: Grid, ps: seq<ExplicitPlacement>, from: nat, p: ExplicitPlacement)
    requires AreFirstOpen(g, ps, from) && (from <= |ps| ==> IsFirstOpen(g, ps, p))
    ensures AreFirstOpen(g, ps + [p], from)
  {
    hide IsFirstOpen;
    var r := ps + [p];
    forall j | from <= j < |r| ensures IsFirstOpen(g, r[..j], r[j]) {
      assert j <= |ps| && r[..j] == ps[..j];
      if j == |ps| {
        assert ps[..j] == ps;
      }
    }
  }

  /** The user's placements come first, as asked; each of the program's comes after, at the first open
      spot, clear of everything before it. */
  ghost predicate Built(g: Grid, widgets: seq<WidgetConfig>, ovMap: map<string, WidgetOverride>, ps: seq<ExplicitPlacement>, n: nat, m: nat)
    requires n <= |widgets| && m <= |widgets|
  {
    var us, them := Overridden(widgets, ovMap, n), Unplaced(widgets, ovMap, m);
    && |ps| == |us| + |them| && AllInBounds(g, ps)
    && (forall i :: 0 <= i < |us| ==> PlacedByOverride(ps[i], us[i], ovMap[us[i].id]))
    && (forall i :: 0 <= i < |them| ==> PlacedByProgram(ps[|us| + i], them[i]))
    && (forall i, j :: 0 <= i < j < |ps| && |us| <= j ==> !Clash(SpotOf(ps[i]), SpotOf(ps[j])))
    && AreFirstOpen(g, ps, |us|)
  }

  lemma BuiltStart(g: Grid, widgets: seq<WidgetConfig>, ovMap: map<string, WidgetOverride>)
    ensures Built(g, widgets, ovMap, [], 0, 0) && Mirrors([{}], {}, SpotsOf([]))
  {}

  /** Widgets that are skipped leave the lists as they are. */
  lemma NothingBuilt(g: Grid, widgets: seq<WidgetConfig>, ovMap: map<string, WidgetOverride>, ps: seq<ExplicitPlacement>, n: nat, m: nat)
    requires n <= |widgets| && m <= |widgets| && Built(g, widgets, ovMap, ps, n, m)
    ensures n < |widgets| && !IsOverridden(widgets[n], ovMap) ==> Built(g, widgets, ovMap, ps, n + 1, m)
    ensures m < |widgets| && !IsUnplaced(widgets[m], ovMap) ==> Built(g, widgets, ovMap, ps, n, m + 1)
  {
    hide AllInBounds, PlacedByOverride, PlacedByProgram, Clash, SpotOf, AreFirstOpen;
  }

  lemma BuiltOverride(g: Grid, widgets: seq<WidgetConfig>, ovMap: map<string, WidgetOverride>, ps: seq<ExplicitPlacement>, n: nat,
                      p: ExplicitPlacement)
    requires n < |widgets| && Built(g, widgets, ovMap, ps, n, 0) && IsOverridden(widgets[n], ovMap)
    requires PlacedByOverride(p, widgets[n], ovMap[widgets[n].id]) && PlacementInBounds(g, p.screen, RectOf(p))
    ensures Built(g, widgets, ovMap, ps + [p], n + 1, 0)
  {
    hide PlacementInBounds, IsFirstOpen;
  }

  lemma BuiltProgram(g: Grid, widgets: seq<WidgetConfig>, ovMap: map<string, WidgetOverride>, ps: seq<ExplicitPlacement>, m: nat,
                     p: ExplicitPlacement)
    requires m < |widgets| && Built(g, widgets, ovMap, ps, |widgets|, m) && IsUnplaced(widgets[m], ovMap)
    requires PlacedByProgram(p, widgets[m]) && PlacementInBounds(g, p.screen, RectOf(p))
    requires ClashesWithNone(SpotsOf(ps), SpotOf(p)) && IsFirstOpen(g, ps, p)
    ensures Built(g, widgets, ovMap, ps + [p], |widgets|, m + 1)
  {
    hide PlacementInBounds, Overridden, PlacedByOverride, PlacedByProgram, Clash, SpotOf, RectOf, IsFirstOpen, AreFirstOpen;
    OneMoreFirstOpen(g, ps, |Overridden(widgets, ovMap, |widgets|)|, p);
    var us, them := Overridden(widgets, ovMap, |widgets|), Unplaced(widgets, ovMap, m);
    var ps', them' := ps + [p], Unplaced(widgets, ovMap, m + 1);
    assert them' == them + [widgets[m]];
    forall i | 0 <= i < |them'| ensures PlacedByProgram(ps'[|us| + i], them'[i]) {
      assert i < |them| ==> ps'[|us| + i] == ps[|us| + i];
    }
    forall i, j | 0 <= i < j < |ps'| && |us| <= j ensures !Clash(SpotOf(ps'[i]), SpotOf(ps'[j])) {
      assert j == |ps| ==> !Clash(SpotsOf(ps)[i], SpotOf(p));
    }
  }

  /** The updated widget list says of every placement what was placed. */
  predicate Describe(updated: seq<WidgetConfig>, ps: seq<ExplicitPlacement>) {
    && |updated| == |ps|
    && forall i :: 0 <= i < |ps| ==>
         && updated[i].id == ps[i].id && updated[i].kind == ps[i].kind && updated[i].pinned == ps[i].pinned
         && DimensionFromSlice(updated[i].dims) == Done(ps[i].dims)
  }

  lemma NothingDescribed()
    ensures Describe([], [])
  {}

  lemma DescribeOneMore(updated: seq<WidgetConfig>, ps: seq<ExplicitPlacement>, w: WidgetConfig, p: ExplicitPlacement)
    requires Describe(updated, ps) && w.id == p.id && w.kind == p.kind && w.pinned == p.pinned
    requires DimensionFromSlice(w.dims) == Done(p.dims)
    ensures Describe(updated + [w], ps + [p])
  {
    hide DimensionFromSlice;
  }

  /** Behind the placements built so far there is no room for widget m anywhere. */
  ghost predicate Crowded(g: Grid, widgets: seq<WidgetConfig>, ovMap: map<string, WidgetOverride>, ps: seq<ExplicitPlacement>, m: nat) {
    && m < |widgets| && IsUnplaced(widgets[m], ovMap) && DimensionFromSlice(widgets[m].dims).Done?
    && Built(g, widgets, ovMap, ps, |widgets|, m)
    && forall sp :: Allowed(g, DimensionFromSlice(widgets[m].dims).value, widgets[m].pinned, sp) ==> !ClashesWithNone(SpotsOf(ps), sp)
  }

  /** What a refusal says about the widgets and overrides. */
  ghost predicate Refuses(g: Grid, widgets: seq<WidgetConfig>, ovMap: map<string, WidgetOverride>, supports: WidgetConfig -> bool,
                          e: OverrideError)
  {
    match e
    case BadSlice(id) =>
      exists i :: 0 <= i < |widgets| && widgets[i].id == id &&
        DimensionFromSlice(if id in ovMap then OverrideDims(widgets[i], ovMap[id]) else widgets[i].dims).Failed?
    case BadBounds(id) =>
      id in ovMap && exists i :: 0 <= i < |widgets| && widgets[i].id == id && OutOfPlace(g, widgets[i], ovMap[id])
    case Unsupported(id) =>
      id in ovMap && exists i :: 0 <= i < |widgets| && widgets[i].id == id && !supports(Updated(widgets[i], ovMap[id]))
    case NoOpenSlot(id) => exists m: nat, ps :: Crowded(g, widgets, ovMap, ps, m) && widgets[m].id == id
    case Placer(_) => false
  }

  function Updated(w: WidgetConfig, ov: WidgetOverride): WidgetConfig {
    w.(dims := OverrideDims(w, ov), pinned := ov.pinned)
  }

  /** The override puts the widget where it does not fit the grid or on a screen that does not exist. */
  predicate OutOfPlace(g: Grid, w: WidgetConfig, ov: WidgetOverride) {
    var dim := DimensionFromSlice(OverrideDims(w, ov));
    dim.Done? && !PlacementInBounds(g, ov.screen, Rect(ov.col, ov.row, dim.value.cols, dim.value.rows))
  }

  method BuildPlacementsFromOverrides(widgets: seq<WidgetConfig>, ovMap: map<string, WidgetOverride>,
                                      supports: WidgetConfig -> bool, g: Grid)
    returns (r: Outcome<(seq<ExplicitPlacement>, seq<WidgetConfig>)>)
    requires Supported(g)
    ensures r.Done? ==> Built(g, widgets, ovMap, r.value.0, |widgets|, |widgets|) && Describe(r.value.1, r.value.0)
    ensures r.Done? ==> forall i :: 0 <= i < |widgets| && widgets[i].id in ovMap ==> supports(Updated(widgets[i], ovMap[widgets[i].id]))
    ensures r.Failed? ==> Refuses(g, widgets, ovMap, supports, r.error)
  {
    hide Built, Mirrors, ClashesWithNone, DimensionFromSlice, Describe;
    NothingDescribed();
    var ps: seq<ExplicitPlacement>, updated: seq<WidgetConfig> := [], [];
    var masks: Board, pinnedMask: set<Cell> := [{}], {};
    BuiltStart(g, widgets, ovMap);
    for n := 0 to |widgets|
      invariant Built(g, widgets, ovMap, ps, n, 0) && Mirrors(masks, pinnedMask, SpotsOf(ps)) && Describe(updated, ps)
      invariant forall i :: 0 <= i < n && widgets[i].id in ovMap ==> supports(Updated(widgets[i], ovMap[widgets[i].id]))
    {
      var w := widgets[n];
      if w.id !in ovMap {
        NothingBuilt(g, widgets, ovMap, ps, n, 0);
        continue;
      }
      var ov := ovMap[w.id];
      var dimSlice := if |ov.dims| == 0 then w.dims else ov.dims;
      var dim := DimensionFromSlice(dimSlice);
      if dim.Failed? {
        return Failed(BadSlice(w.id));
      }
      var p := ExplicitPlacement(w.id, w.kind, ov.screen, ov.col, ov.row, dim.value, ov.pinned);
      if !PlacementInBounds(g, ov.screen, RectOf(p)) {
        return Failed(BadBounds(w.id));
      }
      var updatedWidget := w.(dims := dimSlice, pinned := ov.pinned);
      if !supports(updatedWidget) {
        return Failed(Unsupported(w.id));
      }
      BuiltOverride(g, widgets, ovMap, ps, n, p);
      masks, pinnedMask := TrackScreenMask(masks, ov.screen, RectOf(p), ov.pinned, pinnedMask, SpotsOf(ps));
      assert SpotsOf(ps + [p]) == SpotsOf(ps) + [SpotOf(p)];
      DescribeOneMore(updated, ps, updatedWidget, p);
      updated, ps := updated + [updatedWidget], ps + [p];
    }
    for m := 0 to |widgets|
      invariant Built(g, widgets, ovMap, ps, |widgets|, m) && Mirrors(masks, pinnedMask, SpotsOf(ps)) && Describe(updated, ps)
    {
      var w := widgets[m];
      if w.id in ovMap || w.kind == "spacer" {
        NothingBuilt(g, widgets, ovMap, ps, |widgets|, m);
        continue;
      }
      var dim := DimensionFromSlice(w.dims);
      if dim.Failed? {
        return Failed(BadSlice(w.id));
      }
      var s, rc, ok := FindFirstOpenSlot(masks, pinnedMask, w.pinned, dim.value, g, SpotsOf(ps));
      if !ok {
        assert Crowded(g, widgets, ovMap, ps, m);
        return Failed(NoOpenSlot(w.id));
      }
      var p := ExplicitPlacement(w.id, w.kind, s, rc.col, rc.row, dim.value, w.pinned);
      assert RectOf(p) == rc;
      BuiltProgram(g, widgets, ovMap, ps, m, p);
      masks, pinnedMask := TrackScreenMask(masks, s, rc, w.pinned, pinnedMask, SpotsOf(ps));
      assert SpotsOf(ps + [p]) == SpotsOf(ps) + [SpotOf(p)];
      DescribeOneMore(updated, ps, w, p);
      updated, ps := updated + [w], ps + [p];
    }
    return Done((ps, updated));
  }

  // ----- the two records agree

  /** Among the placements built, only the user's own can overlap. */
  lemma OnlyOverridesOverlap(g: Grid, widgets: seq<WidgetConfig>, ovMap: map<string, WidgetOverride>, ps: seq<ExplicitPlacement>)
    requires Built(g, widgets, ovMap, ps, |widgets|, |widgets|)
    ensures Overlapping(ps) <==> Overlapping(ps[..|Overridden(widgets, ovMap, |widgets|)|])
  {
    hide AllInBounds, PlacedByOverride, PlacedByProgram;
    var us := |Overridden(widgets, ovMap, |widgets|)|;
    if i, j :| 0 <= i < j < |ps| && Clash(SpotOf(ps[i]), SpotOf(ps[j])) {
      assert j < us && ps[..us][i] == ps[i] && ps[..us][j] == ps[j];
    }
    if i, j :| 0 <= i < j < us && Clash(SpotOf(ps[..us][i]), SpotOf(ps[..us][j])) {
      assert Clash(SpotOf(ps[i]), SpotOf(ps[j]));
    }
  }

  /** The explicit placer has nothing to object to but ids and overlaps. */
  lemma OnlyIdsAndOverlaps(g: Grid, widgets: seq<WidgetConfig>, ovMap: map<string, WidgetOverride>, ps: seq<ExplicitPlacement>, e: PlacementError)
    requires Built(g, widgets, ovMap, ps, |widgets|, |widgets|) && Explains(g, ps, e)
    ensures e.EmptyId? || e.DuplicateId? || (e.Overlap? && Overlapping(ps[..|Overridden(widgets, ovMap, |widgets|)|]))
  {
    hide Overridden, Unplaced, PlacedByOverride, PlacedByProgram, Text.Trim, OverlapsAnother;
    OnlyOverridesOverlap(g, widgets, ovMap, ps);
    if e.Overlap? {
      OverlapsAnotherOverlaps(ps, e.index);
    }
    assert AllInBounds(g, ps);
  }

  /** The overrides by widget id; the last one for an id wins. */
  function OverrideTable(overrides: seq<WidgetOverride>): map<string, WidgetOverride> {
    if overrides == [] then map[]
    else OverrideTable(overrides[..|overrides| - 1])[overrides[|overrides| - 1].id := overrides[|overrides| - 1]]
  }

  /** How many of the built placements are the user's own; they come first. */
  function OwnCount(widgets: seq<WidgetConfig>, ovMap: map<string, WidgetOverride>): nat {
    |Overridden(widgets, ovMap, |widgets|)|
  }

  /** The layout is the explicit layout of placements built from the overrides. */
  ghost predicate LaidOut(g: Grid, widgets: seq<WidgetConfig>, ovMap: map<string, WidgetOverride>, ps: seq<ExplicitPlacement>,
                          layout: Layout, spacers: seq<Solver.PlacedWidget>)
  {
    && Built(g, widgets, ovMap, ps, |widgets|, |widgets|) && OwnCount(widgets, ovMap) <= |ps|
    && Acceptable(g, ps) && !Overlapping(ps[..OwnCount(widgets, ovMap)])
    && exists used, screenMap, rects :: IsExplicitLayout(g, ps, layout, spacers, used, screenMap, rects)
  }

  /** The explicit solver objects to an id, or to an overlap among the user's own placements. */
  ghost predicate ObjectsTo(g: Grid, widgets: seq<WidgetConfig>, ovMap: map<string, WidgetOverride>, ps: seq<ExplicitPlacement>,
                            e: PlacementError)
  {
    && Built(g, widgets, ovMap, ps, |widgets|, |widgets|) && OwnCount(widgets, ovMap) <= |ps|
    && Explains(g, ps, e) && (e.EmptyId? || e.DuplicateId? || (e.Overlap? && Overlapping(ps[..OwnCount(widgets, ovMap)])))
  }

  /** What applying overrides answers: a layout and the widget list that goes with it, or a reason. */
  ghost predicate Applies(g: Grid, widgets: seq<WidgetConfig>, ovMap: map<string, WidgetOverride>, supports: WidgetConfig -> bool,
                          r: Outcome<(Layout, seq<WidgetConfig>)>)
  {
    match r
    case Failed(Placer(e)) => exists ps :: ObjectsTo(g, widgets, ovMap, ps, e)
    case Failed(e) => Refuses(g, widgets, ovMap, supports, e)
    case Done((layout, updated)) =>
      exists ps, spacers, described ::
        && LaidOut(g, widgets, ovMap, ps, layout, spacers) && Describe(described, ps) && updated == described + SpacerConfigs(spacers)
        && PortraysAll(g, ps, layout) && ListsSpacers(ps, layout, spacers)
  }

  // ----- what the user sees of it

  /** The last override of the id. */
  predicate IsLastFor(overrides: seq<WidgetOverride>, m: int, id: string) {
    0 <= m < |overrides| && overrides[m].id == id && forall n :: m < n < |overrides| ==> overrides[n].id != id
  }

  predicate HasOverride(overrides: seq<WidgetOverride>, id: string) {
    exists n :: 0 <= n < |overrides| && overrides[n].id == id
  }

  predicate IsShown(widgets: seq<Solver.PlacedWidget>, w: WidgetConfig, col: int, row: int, cols: int, rows: int, pinned: bool) {
    exists x :: 0 <= x < |widgets| && widgets[x].id == w.id && widgets[x].kind == w.kind && widgets[x].col == col && widgets[x].row == row
                && widgets[x].dims.cols == cols && widgets[x].dims.rows == rows && widgets[x].pinned == pinned
  }

  /** The widget is on a screen, or on all of them if it is pinned, and in the widget list, with the given dimensions. */
  ghost predicate IsLaidOut(w: WidgetConfig, col: int, row: int, dims: seq<int>, pinned: bool, layout: Layout, updated: seq<WidgetConfig>) {
    && |dims| == 2 && WidgetConfig(w.id, w.kind, dims, pinned) in updated
    && (exists s :: 0 <= s < |layout.screens| && IsShown(layout.screens[s].widgets, w, col, row, dims[0], dims[1], pinned))
    && (pinned ==> forall s :: 0 <= s < |layout.screens| ==> IsShown(layout.screens[s].widgets, w, col, row, dims[0], dims[1], pinned))
  }

  /** A widget is laid out as its last override says, with its own dimensions if that names none; a widget without one
      that is not a spacer is laid out somewhere with its own. */
  ghost predicate Honours(w: WidgetConfig, overrides: seq<WidgetOverride>, layout: Layout, updated: seq<WidgetConfig>) {
    && (forall m :: IsLastFor(overrides, m, w.id) ==>
          && (overrides[m].dims != [] ==>
                IsLaidOut(w, overrides[m].col, overrides[m].row, overrides[m].dims, overrides[m].pinned, layout, updated))
          && (overrides[m].dims == [] ==> IsLaidOut(w, overrides[m].col, overrides[m].row, w.dims, overrides[m].pinned, layout, updated)))
    && (!HasOverride(overrides, w.id) && w.kind != "spacer" ==>
          exists col, row :: IsLaidOut(w, col, row, w.dims, w.pinned, layout, updated))
  }

  /** What the last override makes of the widget is supported. */
  ghost predicate IsSupported(w: WidgetConfig, overrides: seq<WidgetOverride>, supports: WidgetConfig -> bool) {
    forall m :: IsLastFor(overrides, m, w.id) ==>
      supports(WidgetConfig(w.id, w.kind, if overrides[m].dims == [] then w.dims else overrides[m].dims, overrides[m].pinned))
  }

  /** A listed widget is configured, and overridden unless it is no spacer; or it is a spacer of its own making. */
  ghost predicate ComesFrom(listed: WidgetConfig, widgets: seq<WidgetConfig>, overrides: seq<WidgetOverride>) {
    || (exists i :: 0 <= i < |widgets| && widgets[i].id == listed.id && widgets[i].kind == listed.kind
                    && (HasOverride(overrides, listed.id) || listed.kind != "spacer"))
    || (listed.kind == "spacer" && !listed.pinned && exists s: nat, cell :: listed.id == SpacerId(s, cell))
  }

  lemma {:induction false} OverriddenFrom(widgets: seq<WidgetConfig>, ovMap: map<string, WidgetOverride>, n: nat, x: nat) returns (i: nat)
    requires n <= |widgets| && x < |Overridden(widgets, ovMap, n)|
    ensures i < n && Overridden(widgets, ovMap, n)[x] == widgets[i] && widgets[i].id in ovMap
  {
    if x < |Overridden(widgets, ovMap, n - 1)| {
      i := OverriddenFrom(widgets, ovMap, n - 1, x);
    } else {
      i := n - 1;
    }
  }

  lemma {:induction false} UnplacedFrom(widgets: seq<WidgetConfig>, ovMap: map<string, WidgetOverride>, n: nat, x: nat) returns (i: nat)
    requires n <= |widgets| && x < |Unplaced(widgets, ovMap, n)|
    ensures i < n && Unplaced(widgets, ovMap, n)[x] == widgets[i] && IsUnplaced(widgets[i], ovMap)
  {
    if x < |Unplaced(widgets, ovMap, n - 1)| {
      i := UnplacedFrom(widgets, ovMap, n - 1, x);
    } else {
      i := n - 1;
    }
  }

  /** Every placement is of a configured widget, and of a spacer only if it is overridden. */
  lemma PlacementComesFrom(g: Grid, widgets: seq<WidgetConfig>, overrides: seq<WidgetOverride>, ps: seq<ExplicitPlacement>,
                           described: seq<WidgetConfig>, x: nat)
    requires Built(g, widgets, OverrideTable(overrides), ps, |widgets|, |widgets|) && Describe(described, ps) && x < |ps|
    ensures |described| == |ps| && ComesFrom(described[x], widgets, overrides)
  {
    hide AllInBounds, AreFirstOpen, DimensionFromSlice, Overridden, Unplaced, Clash, SpotOf, OverrideTable, HasOverride, IsLastFor, SpacerId;
    var table := OverrideTable(overrides);
    var us := |Overridden(widgets, table, |widgets|)|;
    if x < us {
      var i := OverriddenFrom(widgets, table, |widgets|, x);
      assert PlacedByOverride(ps[x], widgets[i], table[widgets[i].id]);
      TableHolds(overrides, widgets[i].id);
      assert widgets[i].id == described[x].id;
    } else {
      var i := UnplacedFrom(widgets, table, |widgets|, x - us);
      assert PlacedByProgram(ps[us + (x - us)], widgets[i]);
      assert widgets[i].id == described[x].id;
    }
  }

  lemma SpacerComesFrom(g: Grid, ps: seq<ExplicitPlacement>, layout: Layout, spacers: seq<Solver.PlacedWidget>, used: seq<int>,
                        screenMap: map<int, int>, rects: seq<seq<Rect>>, widgets: seq<WidgetConfig>, overrides: seq<WidgetOverride>, j: nat)
    requires IsExplicitLayout(g, ps, layout, spacers, used, screenMap, rects) && j < |spacers|
    ensures |SpacerConfigs(spacers)| == |spacers| && ComesFrom(SpacerConfigs(spacers)[j], widgets, overrides)
  {
    hide Tiled, FillerSpots, MapSpots, Maps, Increasing, UsesScreen, Covered, IsGreedy, AllCells, FillerWidgets, ScreenOf, SpacerId, HasOverride;
    var s, t := SpacerAt(rects, |layout.screens|, j);
    assert SpacerConfigs(spacers)[j].id == SpacerId(s, Cell(rects[s][t].col, rects[s][t].row));
  }

  lemma TableSupports(widgets: seq<WidgetConfig>, overrides: seq<WidgetOverride>, supports: WidgetConfig -> bool, i: nat)
    requires i < |widgets|
    requires widgets[i].id in OverrideTable(overrides) ==> supports(Updated(widgets[i], OverrideTable(overrides)[widgets[i].id]))
    ensures IsSupported(widgets[i], overrides, supports)
  {
    hide OverrideTable;
    TableHolds(overrides, widgets[i].id);
  }

  /** The widget list says exactly what the screens show, spacers included. */
  ghost predicate ListsWhatIsShown(layout: Layout, updated: seq<WidgetConfig>) {
    && (forall s, x :: 0 <= s < |layout.screens| && 0 <= x < |layout.screens[s].widgets| ==>
          Entry(layout.screens[s].widgets[x]) in updated)
    && (forall w :: w in updated ==> IsOnScreen(layout, w))
  }

  function Entry(e: Solver.PlacedWidget): WidgetConfig {
    WidgetConfig(e.id, e.kind, [e.dims.cols, e.dims.rows], e.pinned)
  }

  predicate IsOnScreen(layout: Layout, w: WidgetConfig) {
    exists s, x :: 0 <= s < |layout.screens| && 0 <= x < |layout.screens[s].widgets| && Entry(layout.screens[s].widgets[x]) == w
  }

  lemma ResultLists(g: Grid, ps: seq<ExplicitPlacement>, layout: Layout, spacers: seq<Solver.PlacedWidget>, described: seq<WidgetConfig>)
    requires PortraysAll(g, ps, layout) && ListsSpacers(ps, layout, spacers) && Describe(described, ps) && GoodPrefix(g, ps, |ps|)
    requires forall j :: 0 <= j < |spacers| ==> spacers[j].kind == "spacer" && !spacers[j].pinned
    ensures ListsWhatIsShown(layout, described + SpacerConfigs(spacers))
  {
    hide PortraysAll, Describe, GoodPrefix, IsOnScreen, IsListed, SpacerConfigs;
    var updated := described + SpacerConfigs(spacers);
    forall s, x | 0 <= s < |layout.screens| && 0 <= x < |layout.screens[s].widgets| ensures Entry(layout.screens[s].widgets[x]) in updated {
      var e := layout.screens[s].widgets[x];
      if e in spacers {
        var j :| 0 <= j < |spacers| && spacers[j] == e;
        SpacerEntry(spacers, j);
      } else {
        var i :| 0 <= i < |ps| && IsEntryOf(e, ps[i]);
        DescribedEntry(described, ps, i, e);
      }
    }
    SpacersDescribed(spacers);
    forall w | w in updated ensures IsOnScreen(layout, w) {
      if w in described {
        var i :| 0 <= i < |described| && described[i] == w;
        DescribedIsShown(g, ps, layout, described, i);
      } else {
        var j :| 0 <= j < |SpacerConfigs(spacers)| && SpacerConfigs(spacers)[j] == w;
        SpacerEntry(spacers, j);
        assert IsListed(layout, spacers[j]);
        ListedIsOnScreen(layout, spacers[j]);
      }
    }
  }

  lemma SpacersAreSpacers(g: Grid, ps: seq<ExplicitPlacement>, layout: Layout, spacers: seq<Solver.PlacedWidget>, used: seq<int>,
                          screenMap: map<int, int>, rects: seq<seq<Rect>>)
    requires IsExplicitLayout(g, ps, layout, spacers, used, screenMap, rects)
    ensures forall j :: 0 <= j < |spacers| ==> spacers[j].kind == "spacer" && !spacers[j].pinned
  {
    hide Tiled, FillerSpots, MapSpots, Maps, Increasing, UsesScreen, Covered, IsGreedy, AllCells, FillerWidgets, ScreenOf;
    forall j | 0 <= j < |spacers| ensures spacers[j].kind == "spacer" && !spacers[j].pinned {
      var s, t := SpacerAt(rects, |layout.screens|, j);
    }
  }

  lemma DescribedSize(described: seq<WidgetConfig>, ps: seq<ExplicitPlacement>)
    requires Describe(described, ps)
    ensures |described| == |ps|
  {}

  lemma SpacersDescribed(spacers: seq<Solver.PlacedWidget>)
    ensures |SpacerConfigs(spacers)| == |spacers|
  {}

  lemma SpacerEntry(spacers: seq<Solver.PlacedWidget>, j: nat)
    requires j < |spacers| && spacers[j].kind == "spacer" && !spacers[j].pinned
    ensures |SpacerConfigs(spacers)| == |spacers| && SpacerConfigs(spacers)[j] == Entry(spacers[j])
  {}

  lemma DescribedEntry(described: seq<WidgetConfig>, ps: seq<ExplicitPlacement>, i: nat, e: Solver.PlacedWidget)
    requires Describe(described, ps) && i < |ps| && IsEntryOf(e, ps[i])
    ensures |described| == |ps| && described[i] == Entry(e)
  {
    SliceOf(described[i].dims, ps[i].dims);
  }

  lemma ListedIsOnScreen(layout: Layout, e: Solver.PlacedWidget)
    requires IsListed(layout, e)
    ensures IsOnScreen(layout, Entry(e))
  {
    var s :| 0 <= s < |layout.screens| && e in layout.screens[s].widgets;
    var x :| 0 <= x < |layout.screens[s].widgets| && layout.screens[s].widgets[x] == e;
  }

  lemma DescribedIsShown(g: Grid, ps: seq<ExplicitPlacement>, layout: Layout, described: seq<WidgetConfig>, i: nat)
    requires PortraysAll(g, ps, layout) && Describe(described, ps) && GoodPrefix(g, ps, |ps|) && i < |described|
    ensures IsOnScreen(layout, described[i])
  {
    hide GoodPrefix, TilesScreen, Belongs, DimensionFromSlice, AllCells, IsOn;
    var s := OnSomeScreen(g, ps, i);
    assert Portrays(g, ps, layout.screens[s], s);
    var widgets := layout.screens[s].widgets;
    var x :| 0 <= x < |widgets| && IsEntryOf(widgets[x], ps[i]);
    DescribedEntry(described, ps, i, widgets[x]);
  }

  lemma {:induction false} TableHolds(overrides: seq<WidgetOverride>, id: string)
    ensures id in OverrideTable(overrides) <==> HasOverride(overrides, id)
    ensures forall m :: IsLastFor(overrides, m, id) ==> id in OverrideTable(overrides) && OverrideTable(overrides)[id] == overrides[m]
  {
    if overrides != [] {
      var n := |overrides| - 1;
      TableHolds(overrides[..n], id);
      if x :| 0 <= x < n && overrides[..n][x].id == id {
        assert overrides[x].id == id;
      }
      if x :| 0 <= x < |overrides| && overrides[x].id == id && x < n {
        assert overrides[..n][x].id == id;
      }
      forall m | IsLastFor(overrides, m, id) ensures id in OverrideTable(overrides) && OverrideTable(overrides)[id] == overrides[m] {
        if m < n {
          assert overrides[n].id != id;
          assert IsLastFor(overrides[..n], m, id);
        }
      }
    }
  }

  lemma {:induction false} OverriddenHas(widgets: seq<WidgetConfig>, ovMap: map<string, WidgetOverride>, n: nat, i: nat) returns (x: nat)
    requires i < n <= |widgets| && widgets[i].id in ovMap
    ensures x < |Overridden(widgets, ovMap, n)| && Overridden(widgets, ovMap, n)[x] == widgets[i]
  {
    if i == n - 1 {
      x := |Overridden(widgets, ovMap, n)| - 1;
    } else {
      x := OverriddenHas(widgets, ovMap, n - 1, i);
    }
  }

  lemma {:induction false} UnplacedHas(widgets: seq<WidgetConfig>, ovMap: map<string, WidgetOverride>, n: nat, i: nat) returns (x: nat)
    requires i < n <= |widgets| && IsUnplaced(widgets[i], ovMap)
    ensures x < |Unplaced(widgets, ovMap, n)| && Unplaced(widgets, ovMap, n)[x] == widgets[i]
  {
    if i == n - 1 {
      x := |Unplaced(widgets, ovMap, n)| - 1;
    } else {
      x := UnplacedHas(widgets, ovMap, n - 1, i);
    }
  }

  lemma SliceOf(s: seq<int>, d: Dimension)
    requires DimensionFromSlice(s) == Done(d)
    ensures s == [d.cols, d.rows]
  {}

  /** A placement is laid out as it says. */
  lemma PlacementIsLaidOut(g: Grid, ps: seq<ExplicitPlacement>, layout: Layout, described: seq<WidgetConfig>, updated: seq<WidgetConfig>,
                           x: nat, w: WidgetConfig)
    requires PortraysAll(g, ps, layout) && Describe(described, ps) && described <= updated && x < |ps|
    requires GoodPrefix(g, ps, |ps|) && ps[x].id == w.id && ps[x].kind == w.kind
    ensures IsLaidOut(w, ps[x].col, ps[x].row, [ps[x].dims.cols, ps[x].dims.rows], ps[x].pinned, layout, updated)
  {
    hide DimensionFromSlice, TilesScreen, Belongs, AllCells, IsOn, ListedOnce, GoodPrefix;
    var p := ps[x];
    SliceOf(described[x].dims, p.dims);
    assert updated[x] == described[x];
    forall s | 0 <= s < |layout.screens| && IsOn(ps, x, s)
      ensures IsShown(layout.screens[s].widgets, w, p.col, p.row, p.dims.cols, p.dims.rows, p.pinned) {
      assert Portrays(g, ps, layout.screens[s], s);
      EntryIsShown(layout.screens[s].widgets, p, w);
    }
    var s := OnSomeScreen(g, ps, x);
    if p.pinned {
      PinnedIsOn(ps, x);
    }
  }

  lemma PinnedIsOn(ps: seq<ExplicitPlacement>, x: nat)
    requires x < |ps| && ps[x].pinned
    ensures forall s :: IsOn(ps, x, s)
  {}

  lemma EntryIsShown(widgets: seq<Solver.PlacedWidget>, p: ExplicitPlacement, w: WidgetConfig)
    requires ListedOnce(widgets, p) && p.id == w.id && p.kind == w.kind
    ensures IsShown(widgets, w, p.col, p.row, p.dims.cols, p.dims.rows, p.pinned)
  {}

  lemma ResultHonours(g: Grid, widgets: seq<WidgetConfig>, overrides: seq<WidgetOverride>, ps: seq<ExplicitPlacement>, layout: Layout,
                      spacers: seq<Solver.PlacedWidget>, described: seq<WidgetConfig>, updated: seq<WidgetConfig>, i: nat)
    requires LaidOut(g, widgets, OverrideTable(overrides), ps, layout, spacers) && Describe(described, ps) && described <= updated
    requires PortraysAll(g, ps, layout) && i < |widgets|
    ensures Honours(widgets[i], overrides, layout, updated)
  {
    hide Describe, PortraysAll, AllInBounds, AreFirstOpen, Overlapping, GoodPrefix, IsExplicitLayout, IsLaidOut, DimensionFromSlice, Overridden,
      Unplaced, Clash, SpotOf, OverrideTable, IsLastFor, HasOverride;
    var w, table := widgets[i], OverrideTable(overrides);
    TableHolds(overrides, w.id);
    if w.id in table {
      var x := OverriddenHas(widgets, table, |widgets|, i);
      assert PlacedByOverride(ps[x], w, table[w.id]);
      SliceOf(OverrideDims(w, table[w.id]), ps[x].dims);
      PlacementIsLaidOut(g, ps, layout, described, updated, x, w);
    } else if w.kind != "spacer" {
      var x := |Overridden(widgets, table, |widgets|)|;
      var y := UnplacedHas(widgets, table, |widgets|, i);
      assert PlacedByProgram(ps[x + y], w);
      SliceOf(w.dims, ps[x + y].dims);
      PlacementIsLaidOut(g, ps, layout, described, updated, x + y, w);
    }
  }

  method ApplyOverride(widgets: seq<WidgetConfig>, overrides: seq<WidgetOverride>, supports: WidgetConfig -> bool,
                       gridCols: int, gridRows: int)
    returns (r: Outcome<(Layout, seq<WidgetConfig>)>)
    ensures Applies(NormalizeGrid(gridCols, gridRows), widgets, OverrideTable(overrides), supports, r)
    ensures r.Done? ==> forall i :: 0 <= i < |widgets| ==> Honours(widgets[i], overrides, r.value.0, r.value.1)
    ensures r.Done? ==> ListsWhatIsShown(r.value.0, r.value.1)
    ensures r.Done? ==> forall i :: 0 <= i < |widgets| ==> IsSupported(widgets[i], overrides, supports)
    ensures r.Done? ==> forall i :: 0 <= i < |r.value.1| ==> ComesFrom(r.value.1[i], widgets, overrides)
  {
    hide IsSupported, ComesFrom, ListsWhatIsShown, ListsSpacers, Honours, PortraysAll, Built, Overridden, Unplaced, Overlapping, IsExplicitLayout, Text.Trim, GoodPrefix, Explains, Refuses, Describe, SpacerConfigs;
    var g := NormalizeGrid(gridCols, gridRows);
    var table: map<string, WidgetOverride> := map[];
    for i := 0 to |overrides|
      invariant table == OverrideTable(overrides[..i])
    {
      assert overrides[..i + 1][..i] == overrides[..i];
      table := table[overrides[i].id := overrides[i]];
    }
    assert overrides[..|overrides|] == overrides;
    var built := BuildPlacementsFromOverrides(widgets, table, supports, g);
    if built.Failed? {
      NotByPlacer(g, widgets, table, supports, built.error);
      return Failed(built.error);
    }
    var ps, updated := built.value.0, built.value.1;
    BuiltSize(g, widgets, table, ps);
    OnlyOverridesOverlap(g, widgets, table, ps);
    var solved, used, screenMap, rects := SolveExplicit(ps, g.cols, g.rows);
    assert NormalizeGrid(g.cols, g.rows) == g;
    if solved.Err? {
      OnlyIdsAndOverlaps(g, widgets, table, ps, solved.error);
      assert ObjectsTo(g, widgets, table, ps, solved.error);
      return Failed(Placer(solved.error));
    }
    var layout, spacers := solved.value.0, solved.value.1;
    assert IsExplicitLayout(g, ps, layout, spacers, used, screenMap, rects);
    assert LaidOut(g, widgets, table, ps, layout, spacers);
    LayoutPortrays(g, ps, layout, spacers, used, screenMap, rects);
    SpacersAreListed(g, ps, layout, spacers, used, screenMap, rects);
    SpacersAreSpacers(g, ps, layout, spacers, used, screenMap, rects);
    ResultLists(g, ps, layout, spacers, updated);
    forall i | 0 <= i < |widgets| ensures Honours(widgets[i], overrides, layout, updated + SpacerConfigs(spacers)) {
      ResultHonours(g, widgets, overrides, ps, layout, spacers, updated, updated + SpacerConfigs(spacers), i);
    }
    forall i | 0 <= i < |widgets| ensures IsSupported(widgets[i], overrides, supports) {
      TableSupports(widgets, overrides, supports, i);
    }
    SpacersDescribed(spacers);
    forall i | 0 <= i < |updated + SpacerConfigs(spacers)| ensures ComesFrom((updated + SpacerConfigs(spacers))[i], widgets, overrides) {
      if i < |updated| {
        DescribedSize(updated, ps);
        PlacementComesFrom(g, widgets, overrides, ps, updated, i);
      } else {
        SpacerComesFrom(g, ps, layout, spacers, used, screenMap, rects, widgets, overrides, i - |updated|);
      }
    }
    return Done((layout, updated + SpacerConfigs(spacers)));
  }

  lemma NotByPlacer(g: Grid, widgets: seq<WidgetConfig>, ovMap: map<string, WidgetOverride>, supports: WidgetConfig -> bool, e: OverrideError)
    requires Refuses(g, widgets, ovMap, supports, e)
    ensures !e.Placer?
  {}

  lemma BuiltSize(g: Grid, widgets: seq<WidgetConfig>, ovMap: map<string, WidgetOverride>, ps: seq<ExplicitPlacement>)
    requires Built(g, widgets, ovMap, ps, |widgets|, |widgets|)
    ensures |Overridden(widgets, ovMap, |widgets|)| <= |ps|
  {}

  function SpacerConfigs(spacers: seq<Solver.PlacedWidget>): seq<WidgetConfig> {
    seq(|spacers|, i requires 0 <= i < |spacers| =>
      WidgetConfig(spacers[i].id, "spacer", [spacers[i].dims.cols, spacers[i].dims.rows], false))
  }
}
