/**
  The front half of the solver: checking the widgets, working out the number of screens and
  grouping the widgets by shape.
 */
module Packing {
  import opened Grid
  import opened Search
  import opened Tilings
  import opened Fillings
  import opened Sorting
  import opened Groups
  import opened Solver
  import Text

  datatype LayoutError =
    | EmptyId(index: int)
    | DuplicateId(first: int, second: int)
    | BadDimensions(index: int)
    | PinnedTooLarge
    | NoRoomForUnpinned
    | NegativeArea
    | Deficit(screens: int, cells: int)
    | CannotTile

  datatype Result<+T> = Ok(value: T) | Err(error: LayoutError)

  // ----- the number of screens

  /** The number of screens and how many of their cells no widget would fill. */
  function ComputeScreensForGrid(pinnedArea: int, unpinnedArea: int, totalCells: int): Result<(int, int)> {
    if pinnedArea < 0 || unpinnedArea < 0 then Err(NegativeArea)
    else if pinnedArea > totalCells then Err(PinnedTooLarge)
    else if pinnedArea == totalCells then
      if unpinnedArea > 0 then Err(NoRoomForUnpinned) else Ok((1, 0))
    else
      var capacity := totalCells - pinnedArea;
      if unpinnedArea == 0 then Ok((1, capacity))
      else
        var k := (unpinnedArea + capacity - 1) / capacity;
        Ok((k, k * capacity - unpinnedArea))
  }

  /** The number of screens the solver works with. */
  function ScreensOf(g: Grid, widgets: seq<WidgetInput>): int {
    var r := ComputeScreensForGrid(AreaOf(widgets, true), AreaOf(widgets, false), CellCount(g));
    if r.Ok? then r.value.0 else 1
  }

  /** k screens are filled exactly by pinned widgets repeated on each and unpinned ones used once. */
  predicate AreaFits(pinnedArea: int, unpinnedArea: int, totalCells: int, k: int) {
    unpinnedArea == k * (totalCells - pinnedArea)
  }

  predicate HasRoom(pinnedArea: int, unpinnedArea: int, totalCells: int, k: int) {
    unpinnedArea <= k * (totalCells - pinnedArea)
  }

  /** The computed number of screens is the smallest that has room, and the deficit is the room
      it leaves over. */
  lemma ScreensSuffice(p: int, u: int, total: int)
    requires p >= 0 && u >= 0 && ComputeScreensForGrid(p, u, total).Ok?
    ensures var (k, deficit) := ComputeScreensForGrid(p, u, total).value;
      && k >= 1 && deficit >= 0
      && u + deficit == k * (total - p)
      && (forall j :: 1 <= j < k ==> !HasRoom(p, u, total, j))
  {
    var (k, deficit) := ComputeScreensForGrid(p, u, total).value;
    var c := total - p;
    if p < total && u > 0 {
      RoundUp(u, c, k);
      forall j | 1 <= j < k ensures !HasRoom(p, u, total, j) {
        Smaller(j, k, c);
      }
    }
  }

  lemma Smaller(j: int, k: int, c: int)
    requires j < k && c > 0
    ensures j * c <= (k - 1) * c
  {}

  lemma RoundUp(u: int, c: int, k: int)
    requires u > 0 && c > 0 && k == (u + c - 1) / c
    ensures k >= 1 && (k - 1) * c < u <= k * c
  {
    var x := u + c - 1;
    assert x == c * (x / c) + x % c;
    assert k * c == c * k && (k - 1) * c == c * k - c;
    assert c * k > 0;
  }

  /** If the areas fit any number of screens, the computed number is that one (or one screen,
      when the pinned widgets fill every screen by themselves), with no deficit. */
  lemma ScreensAreForced(p: int, u: int, total: int, k: int)
    requires p >= 0 && u >= 0 && total > 0 && k >= 1 && AreaFits(p, u, total, k)
    ensures ComputeScreensForGrid(p, u, total).Ok?
    ensures ComputeScreensForGrid(p, u, total).value.1 == 0
    ensures ComputeScreensForGrid(p, u, total).value.0 == k || (p == total && u == 0)
  {
    var c := total - p;
    if p < total {
      Smaller(0, k, c);
      var n := (u + c - 1) / c;
      RoundUp(u, c, n);
      SameMultiple(n, k, c, u);
    } else if p > total {
      Smaller(0, k, -c);
    }
  }

  lemma SameMultiple(n: int, k: int, c: int, u: int)
    requires c > 0 && u == k * c && (n - 1) * c < u <= n * c
    ensures n == k
  {
    if n < k {
      Smaller(n, k, c);
    } else if n > k {
      Smaller(k, n, c);
    }
  }

  // ----- checking and splitting the widgets

  predicate GoodWidget(g: Grid, w: WidgetInput) {
    Text.Trim(w.id) != "" && ValidDimension(g, w.dims)
  }

  /** The first n widgets pass every check on ids and dimensions. */
  predicate GoodPrefix(g: Grid, widgets: seq<WidgetInput>, n: int)
    requires n <= |widgets|
  {
    && (forall i :: 0 <= i < n ==> GoodWidget(g, widgets[i]))
    && (forall i, j :: 0 <= i < j < n ==> Text.Trim(widgets[i].id) != Text.Trim(widgets[j].id))
  }

  /** The pinned (or the unpinned) widgets in configuration order. */
  function Pick(widgets: seq<WidgetInput>, pinned: bool): (ws: seq<WidgetInput>)
    ensures forall i :: 0 <= i < |ws| ==> ws[i].pinned == pinned
  {
    if widgets == [] then []
    else
      var rest, last := Pick(widgets[..|widgets| - 1], pinned), widgets[|widgets| - 1];
      if last.pinned == pinned then rest + [last] else rest
  }

  lemma {:induction false} PickSplits(widgets: seq<WidgetInput>)
    ensures multiset(Pick(widgets, true)) + multiset(Pick(widgets, false)) == multiset(widgets)
  {
    if widgets != [] {
      var rest, last := widgets[..|widgets| - 1], widgets[|widgets| - 1];
      PickSplits(rest);
      assert widgets == rest + [last];
    }
  }

  lemma {:induction false} PickArea(widgets: seq<WidgetInput>, pinned: bool)
    ensures AreaOf(Pick(widgets, pinned), pinned) == AreaOf(widgets, pinned)
  {
    if widgets != [] {
      var rest, last := widgets[..|widgets| - 1], widgets[|widgets| - 1];
      PickArea(rest, pinned);
      if last.pinned == pinned {
        assert (Pick(rest, pinned) + [last])[..|Pick(rest, pinned)|] == Pick(rest, pinned);
      }
    }
  }

  lemma NothingPicked(widgets: seq<WidgetInput>)
    ensures Pick(widgets[..0], true) == Pick(widgets[..0], false) == []
    ensures AreaOf(widgets[..0], true) == AreaOf(widgets[..0], false) == 0
  {}

  lemma OneMoreWidget(widgets: seq<WidgetInput>, i: nat, pinned: bool)
    requires i < |widgets|
    ensures Pick(widgets[..i + 1], pinned) ==
              Pick(widgets[..i], pinned) + if widgets[i].pinned == pinned then [widgets[i]] else []
    ensures AreaOf(widgets[..i + 1], pinned) ==
              AreaOf(widgets[..i], pinned) + if widgets[i].pinned == pinned then Area(widgets[i].dims) else 0
  {
    assert widgets[..i + 1][..i] == widgets[..i];
  }

  datatype Partition = Partition(pinned: seq<WidgetInput>, unpinned: seq<WidgetInput>, screens: int)

  /** What a rejection says about the widgets. */
  ghost predicate Explains(g: Grid, widgets: seq<WidgetInput>, e: LayoutError) {
    match e
    case EmptyId(i) => 0 <= i < |widgets| && GoodPrefix(g, widgets, i) && Text.Trim(widgets[i].id) == ""
    case DuplicateId(i, j) =>
      0 <= i < j < |widgets| && GoodPrefix(g, widgets, j) && Text.Trim(widgets[i].id) == Text.Trim(widgets[j].id)
    case BadDimensions(i) => 0 <= i < |widgets| && GoodPrefix(g, widgets, i) && !ValidDimension(g, widgets[i].dims)
    case NegativeArea => false
    case CannotTile => false
    case _ => forall k :: k >= 1 ==> !Tileable(g, k, widgets)
  }

  method PartitionAndValidateWidgets(g: Grid, widgets: seq<WidgetInput>) returns (r: Result<Partition>)
    requires Supported(g)
    ensures r.Ok? ==>
              && GoodPrefix(g, widgets, |widgets|)
              && r.value.pinned == Pick(widgets, true) && r.value.unpinned == Pick(widgets, false)
              && r.value.screens == ScreensOf(g, widgets) >= 1
              && AreaFits(AreaOf(widgets, true), AreaOf(widgets, false), CellCount(g), r.value.screens)
    ensures r.Err? ==> Explains(g, widgets, r.error) && r.error != CannotTile
    ensures GoodPrefix(g, widgets, |widgets|) && CanFit(g, widgets) ==> r.Ok?
  {
    hide Pick, AreaOf, Tileable, Text.Trim, Area;
    var seenIDs: map<string, int> := map[];
    var pinned, unpinned := [], [];
    var pinnedArea, unpinnedArea := 0, 0;
    NothingPicked(widgets);
    for i := 0 to |widgets|
      invariant GoodPrefix(g, widgets, i)
      invariant forall j :: 0 <= j < i ==> Text.Trim(widgets[j].id) in seenIDs
      invariant forall id :: id in seenIDs ==> 0 <= seenIDs[id] < i && Text.Trim(widgets[seenIDs[id]].id) == id
      invariant pinned == Pick(widgets[..i], true) && unpinned == Pick(widgets[..i], false)
      invariant pinnedArea == AreaOf(widgets[..i], true) && unpinnedArea == AreaOf(widgets[..i], false)
    {
      var w := widgets[i];
      var trimmedID := Text.Trim(w.id);
      if trimmedID == "" {
        return Err(EmptyId(i));
      }
      if trimmedID in seenIDs {
        return Err(DuplicateId(seenIDs[trimmedID], i));
      }
      seenIDs := seenIDs[trimmedID := i];
      if !ValidDimension(g, w.dims) {
        return Err(BadDimensions(i));
      }
      OneMoreWidget(widgets, i, true);
      OneMoreWidget(widgets, i, false);
      if w.pinned {
        pinned, pinnedArea := pinned + [w], pinnedArea + Area(w.dims);
      } else {
        unpinned, unpinnedArea := unpinned + [w], unpinnedArea + Area(w.dims);
      }
    }
    assert widgets[..|widgets|] == widgets;
    AreasNotNegative(g, widgets);
    var screens := ComputeScreensForGrid(pinnedArea, unpinnedArea, CellCount(g));
    if CanFit(g, widgets) {
      AreasDecide(g, widgets);
    }
    if screens.Err? {
      NoFitNoTiling(g, widgets);
      return Err(screens.error);
    }
    var (k, deficit) := screens.value;
    ScreensSuffice(pinnedArea, unpinnedArea, CellCount(g));
    if deficit > 0 {
      NoFitNoTiling(g, widgets);
      return Err(Deficit(k, deficit));
    }
    return Ok(Partition(pinned, unpinned, k));
  }

  /** The areas fill some number of screens exactly. */
  ghost predicate CanFit(g: Grid, widgets: seq<WidgetInput>) {
    exists k :: k >= 1 && AreaFits(AreaOf(widgets, true), AreaOf(widgets, false), CellCount(g), k)
  }

  lemma AreasDecide(g: Grid, widgets: seq<WidgetInput>)
    requires Supported(g) && AreaOf(widgets, true) >= 0 && AreaOf(widgets, false) >= 0 && CanFit(g, widgets)
    ensures var r := ComputeScreensForGrid(AreaOf(widgets, true), AreaOf(widgets, false), CellCount(g)); r.Ok? && r.value.1 == 0
  {
    var k :| k >= 1 && AreaFits(AreaOf(widgets, true), AreaOf(widgets, false), CellCount(g), k);
    ScreensAreForced(AreaOf(widgets, true), AreaOf(widgets, false), CellCount(g), k);
  }

  lemma {:induction false} AreasNotNegative(g: Grid, widgets: seq<WidgetInput>)
    requires forall i :: 0 <= i < |widgets| ==> ValidDimension(g, widgets[i].dims)
    ensures AreaOf(widgets, true) >= 0 && AreaOf(widgets, false) >= 0
    ensures AreaOf(widgets, false) == 0 ==> forall i :: 0 <= i < |widgets| ==> widgets[i].pinned
  {
    if widgets != [] {
      AreasNotNegative(g, widgets[..|widgets| - 1]);
      PositiveArea(widgets[|widgets| - 1].dims);
    }
  }

  /** Unless the areas fit, no number of screens can be tiled. */
  lemma NoFitNoTiling(g: Grid, widgets: seq<WidgetInput>)
    requires Supported(g) && AreaOf(widgets, true) >= 0 && AreaOf(widgets, false) >= 0
    requires var r := ComputeScreensForGrid(AreaOf(widgets, true), AreaOf(widgets, false), CellCount(g));
             r.Err? || r.value.1 != 0
    ensures forall k :: k >= 1 ==> !Tileable(g, k, widgets)
  {
    forall k | k >= 1 ensures !Tileable(g, k, widgets) {
      if plan :| IsTiling(g, k, widgets, plan) {
        TilingArea(g, k, widgets, plan);
        ScreensAreForced(AreaOf(widgets, true), AreaOf(widgets, false), CellCount(g), k);
      }
    }
  }

  // ----- grouping by shape

  /** Larger area first, then more rows, then the smaller id. */
  predicate PinnedBefore(a: WidgetInput, b: WidgetInput) {
    if Area(a.dims) != Area(b.dims) then Area(a.dims) > Area(b.dims)
    else if a.dims.rows != b.dims.rows then a.dims.rows > b.dims.rows
    else Text.Less(a.id, b.id)
  }

  /** Every widget is in the group of its shape, and every group is complete. */
  ghost predicate Grouped(g: Grid, unpinned: seq<WidgetInput>, groups: seq<ShapeGroup>) {
    && GroupsOk(g, unpinned, groups)
    && DemandsMatch(DemandsOf(groups), DimensionsOf(unpinned))
  }

  predicate GroupSoFar(g: Grid, unpinned: seq<WidgetInput>, n: int, sg: ShapeGroup)
    requires 0 <= n <= |unpinned|
  {
    && GroupOk(g, unpinned, sg) && sg.count == |sg.widgets| == CountShape(DimensionsOf(unpinned[..n]), sg.dims)
    && forall x :: 0 <= x < |sg.orders| ==> sg.orders[x] < n
  }

  lemma OneMoreShape(ws: seq<WidgetInput>, n: nat, d: Dimension)
    requires n < |ws|
    ensures CountShape(DimensionsOf(ws[..n + 1]), d) == CountShape(DimensionsOf(ws[..n]), d) + if ws[n].dims == d then 1 else 0
  {
    assert DimensionsOf(ws[..n + 1])[..n] == DimensionsOf(ws[..n]);
  }

  lemma EmptyGroup(g: Grid, unpinned: seq<WidgetInput>, n: nat, d: Dimension)
    requires n < |unpinned| && ValidDimension(g, d) && CountShape(DimensionsOf(unpinned[..n]), d) == 0
    ensures GroupSoFar(g, unpinned, n, ShapeGroup(d, 0, [], []))
  {}

  function AddToGroup(sg: ShapeGroup, w: WidgetInput, n: nat): ShapeGroup {
    ShapeGroup(sg.dims, sg.count + 1, sg.widgets + [w], sg.orders + [n])
  }

  lemma GrowGroup(g: Grid, unpinned: seq<WidgetInput>, n: nat, sg: ShapeGroup)
    requires n < |unpinned| && GroupSoFar(g, unpinned, n, sg)
    ensures GroupSoFar(g, unpinned, n + 1, if sg.dims == unpinned[n].dims then AddToGroup(sg, unpinned[n], n) else sg)
  {
    OneMoreShape(unpinned, n, sg.dims);
  }

  method GroupByShape(g: Grid, unpinned: seq<WidgetInput>) returns (groups: seq<ShapeGroup>)
    requires forall i :: 0 <= i < |unpinned| ==> ValidDimension(g, unpinned[i].dims)
    ensures Grouped(g, unpinned, groups) && Listed(unpinned, groups) && Untouched(groups)
  {
    hide CountShape, DimensionsOf, GroupOk, GroupSoFar, Grouped, Listed, Untouched;
    var shapeMap: map<Dimension, nat> := map[];
    groups := [];
    NoShapes(unpinned);
    for n := 0 to |unpinned|
      invariant forall d :: d in shapeMap ==> shapeMap[d] < |groups| && groups[shapeMap[d]].dims == d
      invariant forall i :: 0 <= i < |groups| ==> groups[i].dims in shapeMap && shapeMap[groups[i].dims] == i
      invariant forall i :: 0 <= i < n ==> unpinned[i].dims in shapeMap
      invariant forall i :: 0 <= i < |groups| ==> GroupSoFar(g, unpinned, n, groups[i])
      invariant forall d :: d !in shapeMap ==> CountShape(DimensionsOf(unpinned[..n]), d) == 0
      invariant forall o :: 0 <= o < n ==> o in groups[shapeMap[unpinned[o].dims]].orders
    {
      var w := unpinned[n];
      if w.dims !in shapeMap {
        EmptyGroup(g, unpinned, n, w.dims);
        shapeMap := shapeMap[w.dims := |groups|];
        groups := groups + [ShapeGroup(w.dims, 0, [], [])];
      }
      forall i | 0 <= i < |groups| {
        GrowGroup(g, unpinned, n, groups[i]);
      }
      forall d | d !in shapeMap ensures CountShape(DimensionsOf(unpinned[..n + 1]), d) == 0 {
        OneMoreShape(unpinned, n, d);
      }
      var i := shapeMap[w.dims];
      groups := groups[i := AddToGroup(groups[i], w, n)];
    }
    assert unpinned[..|unpinned|] == unpinned;
    AllGrouped(g, unpinned, groups, shapeMap);
    AllUntouched(g, unpinned, groups);
    AllListed(unpinned, groups, shapeMap);
  }

  /** No group has handed out a widget. */
  predicate Untouched(groups: seq<ShapeGroup>) {
    forall i :: 0 <= i < |groups| ==> groups[i].count == |groups[i].widgets|
  }

  lemma AllListed(unpinned: seq<WidgetInput>, groups: seq<ShapeGroup>, shapeMap: map<Dimension, nat>)
    requires forall o :: 0 <= o < |unpinned| ==>
               && unpinned[o].dims in shapeMap && shapeMap[unpinned[o].dims] < |groups|
               && o in groups[shapeMap[unpinned[o].dims]].orders
    ensures Listed(unpinned, groups)
  {
    forall o | 0 <= o < |unpinned| ensures InSome(groups, o) {
      assert 0 <= shapeMap[unpinned[o].dims] < |groups|;
    }
  }

  lemma AllUntouched(g: Grid, unpinned: seq<WidgetInput>, groups: seq<ShapeGroup>)
    requires forall i :: 0 <= i < |groups| ==> GroupSoFar(g, unpinned, |unpinned|, groups[i])
    ensures Untouched(groups)
  {}

  /** Nothing is used at the beginning. */
  lemma NothingUsed(g: Grid, unpinned: seq<WidgetInput>, groups: seq<ShapeGroup>)
    requires GroupsOk(g, unpinned, groups) && Listed(unpinned, groups) && Untouched(groups)
    ensures Used(unpinned, groups) == {}
  {
    forall o | 0 <= o < |unpinned| ensures o !in Used(unpinned, groups) {
      assert InSome(groups, o);
      var i :| 0 <= i < |groups| && o in groups[i].orders;
      assert GroupOk(g, unpinned, groups[i]);
      UsedIff(g, unpinned, groups, i, o);
      var x :| 0 <= x < |groups[i].orders| && groups[i].orders[x] == o;
      assert x > 0 ==> groups[i].orders[0] < groups[i].orders[x];
    }
  }

  lemma NoShapes(ws: seq<WidgetInput>)
    ensures forall d :: CountShape(DimensionsOf(ws[..0]), d) == 0
  {}

  lemma AllGrouped(g: Grid, unpinned: seq<WidgetInput>, groups: seq<ShapeGroup>, shapeMap: map<Dimension, nat>)
    requires forall i :: 0 <= i < |unpinned| ==> unpinned[i].dims in shapeMap
    requires forall d :: d in shapeMap ==> shapeMap[d] < |groups| && groups[shapeMap[d]].dims == d
    requires forall i :: 0 <= i < |groups| ==> groups[i].dims in shapeMap && shapeMap[groups[i].dims] == i
    requires forall i :: 0 <= i < |groups| ==> GroupSoFar(g, unpinned, |unpinned|, groups[i])
    ensures Grouped(g, unpinned, groups)
  {
    hide CountShape, GroupOk;
    assert unpinned[..|unpinned|] == unpinned;
    var demands, ds := DemandsOf(groups), DimensionsOf(unpinned);
    forall i | 0 <= i < |ds| ensures HasShape(demands, ds[i]) {
      assert demands[shapeMap[ds[i]]].dims == ds[i];
    }
    forall i, j | 0 <= i < j < |demands| ensures demands[i].dims != demands[j].dims {
      assert demands[i].dims == groups[i].dims && demands[j].dims == groups[j].dims;
    }
  }

  method SortAndGroupWidgets(g: Grid, pinned: seq<WidgetInput>, unpinned: seq<WidgetInput>)
    returns (sortedPinned: seq<WidgetInput>, groups: seq<ShapeGroup>)
    requires forall i :: 0 <= i < |unpinned| ==> ValidDimension(g, unpinned[i].dims)
    ensures sortedPinned == Sort(pinned, PinnedBefore) && multiset(sortedPinned) == multiset(pinned) && LargestFirst(sortedPinned)
    ensures Grouped(g, unpinned, groups) && BySize(groups) && Listed(unpinned, groups) && Untouched(groups)
  {
    hide PinnedBefore, GroupBefore, Sort, LargestFirst, Listed;
    sortedPinned := Sort(pinned, PinnedBefore);
    PinnedLargestFirst(pinned);
    var unsorted := GroupByShape(g, unpinned);
    groups := Sort(unsorted, GroupBefore);
    GroupOrder();
    SortSorts(unsorted, GroupBefore);
    ReorderedGroups(g, unpinned, unsorted, groups);
    ReorderedLists(unpinned, unsorted, groups);
  }

  lemma ReorderedLists(unpinned: seq<WidgetInput>, xs: seq<ShapeGroup>, ys: seq<ShapeGroup>)
    requires Listed(unpinned, xs) && Untouched(xs) && multiset(xs) == multiset(ys)
    ensures Listed(unpinned, ys) && Untouched(ys)
  {
    forall o | 0 <= o < |unpinned| ensures InSome(ys, o) {
      assert InSome(xs, o);
      var i :| 0 <= i < |xs| && o in xs[i].orders;
      SameElements(xs, ys, xs[i]);
      var j :| 0 <= j < |ys| && ys[j] == xs[i];
    }
    forall j | 0 <= j < |ys| ensures ys[j].count == |ys[j].widgets| {
      SameElements(xs, ys, ys[j]);
    }
  }

  /** No widget is larger than one before it, and of two of the same size the one with the smaller id is first. */
  predicate LargestFirst(ws: seq<WidgetInput>) {
    forall i, j :: 0 <= i < j < |ws| ==>
      !IsLarger(ws[j].dims, ws[i].dims) && (IsLarger(ws[i].dims, ws[j].dims) || !Text.Less(ws[j].id, ws[i].id))
  }

  lemma PinnedLargestFirst(pinned: seq<WidgetInput>)
    ensures LargestFirst(Sort(pinned, PinnedBefore))
  {
    hide Sort, Text.Less;
    PinnedOrder();
    SortSorts(pinned, PinnedBefore);
    var ws := Sort(pinned, PinnedBefore);
    forall i, j | 0 <= i < j < |ws|
      ensures !IsLarger(ws[j].dims, ws[i].dims) && (IsLarger(ws[i].dims, ws[j].dims) || !Text.Less(ws[j].id, ws[i].id)) {
      assert !PinnedBefore(ws[j], ws[i]);
    }
  }

  lemma PinnedOrder()
    ensures WeakOrder(PinnedBefore)
  {
    hide Area, Text.Less;
    forall x, y ensures PinnedBefore(x, y) ==> !PinnedBefore(y, x) {
      Text.LessIsTotal(x.id, y.id, "");
    }
    forall x, y, z ensures PinnedBefore(x, z) ==> PinnedBefore(x, y) || PinnedBefore(y, z) {
      Text.LessIsTotal(x.id, y.id, z.id);
    }
  }

  lemma GroupOrder()
    ensures WeakOrder(GroupBefore)
  {
    hide Area;
  }

  lemma ReorderedGroups(g: Grid, unpinned: seq<WidgetInput>, xs: seq<ShapeGroup>, ys: seq<ShapeGroup>)
    requires Grouped(g, unpinned, xs) && multiset(xs) == multiset(ys)
    ensures Grouped(g, unpinned, ys)
  {
    hide CountShape, GroupOk;
    var key := (sg: ShapeGroup) => sg.dims;
    var ds, dx, dy := DimensionsOf(unpinned), DemandsOf(xs), DemandsOf(ys);
    forall i, j | 0 <= i < j < |xs| ensures key(xs[i]) != key(xs[j]) {
      assert dx[i].dims != dx[j].dims;
    }
    DistinctIgnoresOrder(xs, ys, key);
    forall i | 0 <= i < |ys| ensures GroupOk(g, unpinned, ys[i]) && dy[i].count == CountShape(ds, dy[i].dims) {
      SameElements(xs, ys, ys[i]);
      var j :| 0 <= j < |xs| && xs[j] == ys[i];
      assert dx[j] == dy[i];
    }
    forall i | 0 <= i < |ds| ensures HasShape(dy, ds[i]) {
      assert HasShape(dx, ds[i]);
      var a :| 0 <= a < |dx| && dx[a].dims == ds[i];
      SameElements(xs, ys, xs[a]);
      var j :| 0 <= j < |ys| && ys[j] == xs[a];
      assert dy[j].dims == ds[i];
    }
    forall i, j | 0 <= i < j < |dy| ensures dy[i].dims != dy[j].dims {
      assert key(ys[i]) != key(ys[j]);
    }
  }

  /** What the groups still hold is what the widget list holds, in number and in area. */
  lemma {:induction false} DemandTotals(demands: seq<Demand>, ws: seq<WidgetInput>)
    requires DemandsMatch(demands, DimensionsOf(ws))
    requires forall i :: 0 <= i < |ws| ==> !ws[i].pinned
    ensures Left(demands) == |ws| && LeftArea(demands) == AreaOf(ws, false)
    decreases |ws|
  {
    if ws == [] {
      NoDemand(demands);
    } else {
      var n := |ws| - 1;
      var ds, rest := DimensionsOf(ws), DimensionsOf(ws[..n]);
      assert ds[..n] == rest;
      assert HasShape(demands, ds[n]);
      var i :| 0 <= i < |demands| && demands[i].dims == ds[n];
      var used := Use(demands, i);
      forall j | 0 <= j < |used| ensures used[j].count == CountShape(rest, used[j].dims) {
        assert demands[j].count == CountShape(ds, demands[j].dims);
      }
      forall j | 0 <= j < |rest| ensures HasShape(used, rest[j]) {
        assert HasShape(demands, ds[j]);
        var a :| 0 <= a < |demands| && demands[a].dims == ds[j];
        assert used[a].dims == rest[j];
      }
      assert DistinctShapes(used);
      DemandTotals(used, ws[..n]);
      UseOne(demands, i);
    }
  }

  lemma {:induction false} NoDemand(demands: seq<Demand>)
    requires forall i :: 0 <= i < |demands| ==> demands[i].count == 0
    ensures Left(demands) == 0 && LeftArea(demands) == 0
  {
    if demands != [] {
      NoDemand(demands[..|demands| - 1]);
    }
  }
}
