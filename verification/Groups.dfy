/**
  Unpinned widgets grouped by shape. The search hands out the widgets of a group in configuration
  order, so what a group has left says which widgets have been used.
 */
module Groups {
  import opened Grid
  import opened Board
  import opened Search
  import opened Tilings
  import opened Fillings

  const NO_ORDER := 0x4000_0000

  datatype ShapeGroup = ShapeGroup(dims: Dimension, count: int, widgets: seq<WidgetInput>, orders: seq<int>)

  /** Larger area first, then more rows. */
  predicate GroupBefore(a: ShapeGroup, b: ShapeGroup) {
    if Area(a.dims) != Area(b.dims) then Area(a.dims) > Area(b.dims) else a.dims.rows > b.dims.rows
  }

  /** The groups come largest first. */
  predicate BySize(groups: seq<ShapeGroup>) {
    forall i, j :: 0 <= i < j < |groups| ==> !GroupBefore(groups[j], groups[i])
  }

  function NextOrder(sg: ShapeGroup): int {
    var idx := |sg.widgets| - sg.count;
    if 0 <= idx < |sg.orders| then sg.orders[idx] else NO_ORDER
  }

  /** The configuration order of a group's next widget. */
  function OrderKey(groups: seq<ShapeGroup>, i: nat): int {
    if i < |groups| then NextOrder(groups[i]) else NO_ORDER
  }

  function DemandsOf(groups: seq<ShapeGroup>): (ds: seq<Demand>)
    ensures |ds| == |groups|
    ensures forall i :: 0 <= i < |groups| ==> ds[i] == Demand(groups[i].dims, groups[i].count)
  {
    seq(|groups|, i requires 0 <= i < |groups| => Demand(groups[i].dims, groups[i].count))
  }

  /** The order of the group's next widget, or the end of the widget list. */
  function NextFree(sg: ShapeGroup, end: int): int {
    var idx := |sg.widgets| - sg.count;
    if 0 <= idx < |sg.orders| then sg.orders[idx] else end
  }

  /** A group holds widgets of one shape, in configuration order. */
  predicate GroupOk(g: Grid, unpinned: seq<WidgetInput>, sg: ShapeGroup) {
    && ValidDimension(g, sg.dims)
    && |sg.orders| == |sg.widgets| && 0 <= sg.count <= |sg.widgets|
    && (forall x :: 0 <= x < |sg.orders| ==>
          0 <= sg.orders[x] < |unpinned| && unpinned[sg.orders[x]] == sg.widgets[x] && sg.widgets[x].dims == sg.dims)
    && (forall x, y :: 0 <= x < y < |sg.orders| ==> sg.orders[x] < sg.orders[y])
  }

  predicate GroupsOk(g: Grid, unpinned: seq<WidgetInput>, groups: seq<ShapeGroup>) {
    && DistinctShapes(DemandsOf(groups))
    && forall i :: 0 <= i < |groups| ==> GroupOk(g, unpinned, groups[i])
  }

  lemma TakeKeepsSize(groups: seq<ShapeGroup>, i: nat)
    requires i < |groups| && BySize(groups)
    ensures BySize(TakeFrom(groups, i))
  {
    hide Area;
  }

  function TakeFrom(groups: seq<ShapeGroup>, i: nat): seq<ShapeGroup>
    requires i < |groups|
  {
    groups[i := groups[i].(count := groups[i].count - 1)]
  }

  /** The placement of the next widget of group i at a cell. */
  function PlacementOf(groups: seq<ShapeGroup>, i: nat, screen: int, cell: Cell): UnpinnedPlacement
    requires i < |groups| && 0 < groups[i].count <= |groups[i].widgets| == |groups[i].orders|
  {
    var idx := |groups[i].widgets| - groups[i].count;
    UnpinnedPlacement(screen, cell.col, cell.row, groups[i].widgets[idx], groups[i].orders[idx])
  }

  lemma TakeKeepsGroups(g: Grid, ws: seq<WidgetInput>, groups: seq<ShapeGroup>, i: nat)
    requires GroupsOk(g, ws, groups) && i < |groups| && groups[i].count > 0
    ensures GroupsOk(g, ws, TakeFrom(groups, i)) && DemandsOf(TakeFrom(groups, i)) == Use(DemandsOf(groups), i)
  {
    var after := TakeFrom(groups, i);
    forall a, b | 0 <= a < b < |after| ensures DemandsOf(after)[a].dims != DemandsOf(after)[b].dims {
      assert DemandsOf(groups)[a].dims != DemandsOf(groups)[b].dims;
    }
    forall a | 0 <= a < |after| ensures GroupOk(g, ws, after[a]) {
      assert GroupOk(g, ws, groups[a]);
    }
  }

  // ----- used widgets

  /** The widgets the groups have handed out. */
  function Used(ws: seq<WidgetInput>, groups: seq<ShapeGroup>): set<int> {
    set o | 0 <= o < |ws| && IsUsed(ws, groups, o)
  }

  predicate IsUsed(ws: seq<WidgetInput>, groups: seq<ShapeGroup>, o: int)
    requires 0 <= o < |ws|
  {
    exists i :: 0 <= i < |groups| && groups[i].dims == ws[o].dims && o < NextFree(groups[i], |ws|)
  }

  /** Every widget is in a group. */
  ghost predicate Listed(ws: seq<WidgetInput>, groups: seq<ShapeGroup>) {
    forall o :: 0 <= o < |ws| ==> InSome(groups, o)
  }

  predicate InSome(groups: seq<ShapeGroup>, o: int) {
    exists i :: 0 <= i < |groups| && o in groups[i].orders
  }

  lemma TakeKeepsListed(ws: seq<WidgetInput>, groups: seq<ShapeGroup>, i: nat)
    requires i < |groups| && Listed(ws, groups)
    ensures Listed(ws, TakeFrom(groups, i))
  {
    forall o | 0 <= o < |ws| ensures InSome(TakeFrom(groups, i), o) {
      assert InSome(groups, o);
      var j :| 0 <= j < |groups| && o in groups[j].orders;
      assert TakeFrom(groups, i)[j].orders == groups[j].orders;
    }
  }

  lemma OneGroup(g: Grid, ws: seq<WidgetInput>, groups: seq<ShapeGroup>, i: nat, j: nat)
    requires GroupsOk(g, ws, groups) && i < |groups| && j < |groups| && groups[i].dims == groups[j].dims
    ensures i == j
  {
    assert DemandsOf(groups)[i].dims == DemandsOf(groups)[j].dims;
  }

  lemma UsedIff(g: Grid, ws: seq<WidgetInput>, groups: seq<ShapeGroup>, i: nat, o: int)
    requires GroupsOk(g, ws, groups) && i < |groups| && 0 <= o < |ws| && groups[i].dims == ws[o].dims
    ensures o in Used(ws, groups) <==> o < NextFree(groups[i], |ws|)
  {
    if IsUsed(ws, groups, o) {
      var j :| 0 <= j < |groups| && groups[j].dims == ws[o].dims && o < NextFree(groups[j], |ws|);
      OneGroup(g, ws, groups, i, j);
    }
  }

  /** The next widget of a group is the first unused one of its shape. */
  lemma NextOfGroup(g: Grid, ws: seq<WidgetInput>, groups: seq<ShapeGroup>, i: nat)
    requires GroupsOk(g, ws, groups) && i < |groups| && groups[i].count > 0
    ensures var o := NextFree(groups[i], |ws|); IsNext(ws, Used(ws, groups), o) && ws[o].dims == groups[i].dims
  {
    assert GroupOk(g, ws, groups[i]);
    var o := NextFree(groups[i], |ws|);
    forall x | 0 <= x <= o && ws[x].dims == ws[o].dims ensures x in Used(ws, groups) <==> x < o {
      UsedIff(g, ws, groups, i, x);
    }
  }

  /** The first unused widget of its shape is the next of a group. */
  lemma GroupOfNext(g: Grid, ws: seq<WidgetInput>, groups: seq<ShapeGroup>, o: int) returns (i: nat)
    requires GroupsOk(g, ws, groups) && Listed(ws, groups) && IsNext(ws, Used(ws, groups), o)
    ensures i < |groups| && groups[i].count > 0 && groups[i].dims == ws[o].dims && NextFree(groups[i], |ws|) == o
  {
    assert InSome(groups, o);
    i :| 0 <= i < |groups| && o in groups[i].orders;
    assert GroupOk(g, ws, groups[i]);
    var x :| 0 <= x < |groups[i].orders| && groups[i].orders[x] == o;
    UsedIff(g, ws, groups, i, o);
    var n := NextFree(groups[i], |ws|);
    if n < o {
      UsedIff(g, ws, groups, i, n);
      assert false;
    }
  }

  lemma NextAfterTake(g: Grid, ws: seq<WidgetInput>, sg: ShapeGroup, x: nat)
    requires GroupOk(g, ws, sg) && sg.count > 0 && x < |sg.orders|
    ensures var o := sg.orders[x];
            o < NextFree(sg.(count := sg.count - 1), |ws|) <==> o < NextFree(sg, |ws|) || o == NextFree(sg, |ws|)
  {
    var n := |sg.widgets| - sg.count;
    assert x < n ==> sg.orders[x] < sg.orders[n];
    assert n < x ==> sg.orders[n] < sg.orders[x];
    assert n + 1 < x ==> sg.orders[n + 1] < sg.orders[x];
    assert x < n + 1 < |sg.orders| ==> sg.orders[x] < sg.orders[n + 1];
  }

  lemma UsedAfterTake(g: Grid, ws: seq<WidgetInput>, groups: seq<ShapeGroup>, i: nat, o: int)
    requires i < |groups| && groups[i].count > 0 && 0 <= o < |ws|
    requires GroupsOk(g, ws, groups) && GroupsOk(g, ws, TakeFrom(groups, i)) && Listed(ws, groups)
    ensures o in Used(ws, TakeFrom(groups, i)) <==> o in Used(ws, groups) || o == NextFree(groups[i], |ws|)
  {
    hide GroupsOk, Used, NextFree, IsUsed;
    assert InSome(groups, o);
    var j :| 0 <= j < |groups| && o in groups[j].orders;
    assert GroupOk(g, ws, groups[j]) && GroupOk(g, ws, groups[i]) by { GroupsAt(g, ws, groups, i); GroupsAt(g, ws, groups, j); }
    var x :| 0 <= x < |groups[j].orders| && groups[j].orders[x] == o;
    UsedIff(g, ws, groups, j, o);
    UsedIff(g, ws, TakeFrom(groups, i), j, o);
    if j == i {
      NextAfterTake(g, ws, groups[i], x);
    } else {
      NextOfGroup(g, ws, groups, i);
      if o == NextFree(groups[i], |ws|) {
        OneGroup(g, ws, groups, i, j);
      }
    }
  }

  lemma GroupsAt(g: Grid, ws: seq<WidgetInput>, groups: seq<ShapeGroup>, i: nat)
    requires GroupsOk(g, ws, groups) && i < |groups|
    ensures GroupOk(g, ws, groups[i])
  {}

  lemma TakeUses(g: Grid, ws: seq<WidgetInput>, groups: seq<ShapeGroup>, i: nat)
    requires i < |groups| && groups[i].count > 0
    requires GroupsOk(g, ws, groups) && GroupsOk(g, ws, TakeFrom(groups, i)) && Listed(ws, groups)
    ensures Used(ws, TakeFrom(groups, i)) == Used(ws, groups) + {NextFree(groups[i], |ws|)}
  {
    hide GroupsOk, NextFree, Listed, IsUsed;
    NextOfGroup(g, ws, groups, i);
    forall o | 0 <= o < |ws|
      ensures o in Used(ws, TakeFrom(groups, i)) <==> o in Used(ws, groups) || o == NextFree(groups[i], |ws|) {
      UsedAfterTake(g, ws, groups, i, o);
    }
  }
}
