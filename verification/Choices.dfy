/**
  Why trying shapes in some order finds the first filling in that order: a shape that was tried and failed
  begins no filling at all.
 */
module Choices {
  import opened Grid
  import opened Board
  import opened Search
  import opened Tilings
  import opened Fillings
  import opened Groups

  lemma NextSpotIsFree(g: Grid, board: Board, sp: Spot)
    requires IsNextSpot(g, board, sp)
    ensures Legal(g, |board|, sp) && Free(board, sp)
  {}

  /** Every filling is a completion. */
  lemma {:induction false} FillsIsCompletable(g: Grid, board: Board, ws: seq<WidgetInput>, groups: seq<ShapeGroup>,
                                              up: seq<UnpinnedPlacement>)
    requires GroupsOk(g, ws, groups) && Listed(ws, groups) && Fills(g, board, ws, Used(ws, groups), up)
    ensures Completable(g, board, DemandsOf(groups))
    decreases |up|
  {
    hide GroupsOk, Listed, Used, Completable, IsNextSpot, Put, IsNext, Full;
    if up == [] {
      NothingLeftIsComplete(g, board, ws, groups);
    } else {
      NextIsUnused(ws, Used(ws, groups), up[0].order);
      var i := GroupOfNext(g, ws, groups, up[0].order);
      StepFills(g, board, ws, groups, up, i);
      FillsIsCompletable(g, Put(board, SpotOf(up[0])), ws, TakeFrom(groups, i), up[1..]);
      BranchIsCompletable(g, board, ws, groups, up[0], i);
    }
  }

  /** The rest of a filling is a filling behind its first placement. */
  lemma StepFills(g: Grid, board: Board, ws: seq<WidgetInput>, groups: seq<ShapeGroup>, up: seq<UnpinnedPlacement>, i: nat)
    requires GroupsOk(g, ws, groups) && Listed(ws, groups) && up != [] && Fills(g, board, ws, Used(ws, groups), up)
    requires i < |groups| && groups[i].count > 0 && NextFree(groups[i], |ws|) == up[0].order
    ensures GroupsOk(g, ws, TakeFrom(groups, i)) && Listed(ws, TakeFrom(groups, i))
    ensures Fills(g, Put(board, SpotOf(up[0])), ws, Used(ws, TakeFrom(groups, i)), up[1..])
  {
    hide GroupsOk, Listed, Used, IsNextSpot, Put, IsNext;
    TakeKeepsGroups(g, ws, groups, i);
    TakeKeepsListed(ws, groups, i);
    TakeUses(g, ws, groups, i);
  }

  lemma BranchIsCompletable(g: Grid, board: Board, ws: seq<WidgetInput>, groups: seq<ShapeGroup>, p: UnpinnedPlacement, i: nat)
    requires GroupsOk(g, ws, groups) && i < |groups| && groups[i].count > 0
    requires 0 <= p.order < |ws| && p.widget == ws[p.order] && groups[i].dims == ws[p.order].dims && IsNextSpot(g, board, SpotOf(p))
    requires Completable(g, Put(board, SpotOf(p)), DemandsOf(TakeFrom(groups, i)))
    ensures Branches(g, board, DemandsOf(groups), p.screen, Cell(p.col, p.row), i)
    ensures Completable(g, board, DemandsOf(groups))
  {
    hide Completable, Put;
    TakeKeepsGroups(g, ws, groups, i);
    NextSpotIsFree(g, board, SpotOf(p));
    assert SpotOf(p) == TileAt(p.screen, Cell(p.col, p.row), groups[i].dims);
    AddTile(g, board, DemandsOf(groups), SpotOf(p), i);
  }

  lemma NothingLeftIsComplete(g: Grid, board: Board, ws: seq<WidgetInput>, groups: seq<ShapeGroup>)
    requires GroupsOk(g, ws, groups) && Full(g, board) && forall o :: 0 <= o < |ws| ==> o in Used(ws, groups)
    ensures Completable(g, board, DemandsOf(groups))
  {
    hide Used;
    var demands := DemandsOf(groups);
    forall i | 0 <= i < |demands| ensures |OfShape({}, demands[i].dims)| == demands[i].count {
      assert GroupOk(g, ws, groups[i]);
      if groups[i].count > 0 {
        NextOfGroup(g, ws, groups, i);
      }
      assert OfShape({}, demands[i].dims) == {};
    }
    forall s, cell | 0 <= s < |board| && cell in AllCells(g) ensures CoversCell(board, {}, s, cell) {
      assert cell in board[s];
    }
    assert Completion(g, board, demands, {});
  }

  // ----- the order of a pass

  /** The groups come by the configuration order of their next widget, or largest shape first. */
  predicate InPassOrder(groups: seq<ShapeGroup>, order: seq<nat>, bySize: bool)
    requires forall j :: 0 <= j < |order| ==> order[j] < |groups|
  {
    forall i, j :: 0 <= i < j < |order| ==>
      if bySize then !GroupBefore(groups[order[j]], groups[order[i]]) else OrderKey(groups, order[i]) <= OrderKey(groups, order[j])
  }

  /** Every group with a widget left is tried, in the order of the pass. */
  ghost predicate IsCandidateOrder(groups: seq<ShapeGroup>, order: seq<nat>, bySize: bool) {
    && |order| <= |groups| && (forall j :: 0 <= j < |order| ==> order[j] < |groups|)
    && (forall i: nat :: i < |groups| && groups[i].count > 0 ==> i in order)
    && (!bySize ==> forall j :: 0 <= j < |order| ==> groups[order[j]].count > 0)
    && InPassOrder(groups, order, bySize)
  }

  lemma KeyIsNext(g: Grid, ws: seq<WidgetInput>, groups: seq<ShapeGroup>, i: nat)
    requires GroupsOk(g, ws, groups) && i < |groups| && groups[i].count > 0
    ensures OrderKey(groups, i) == NextFree(groups[i], |ws|)
  {
    assert GroupOk(g, ws, groups[i]);
  }

  /** Of two groups the one tried first is preferred. */
  lemma EarlierIsPreferred(g: Grid, ws: seq<WidgetInput>, groups: seq<ShapeGroup>, order: seq<nat>, bySize: bool, n: nat, m: nat)
    requires GroupsOk(g, ws, groups) && (forall j :: 0 <= j < |order| ==> order[j] < |groups|) && InPassOrder(groups, order, bySize)
    requires n < m < |order| && order[n] != order[m] && groups[order[n]].count > 0 && groups[order[m]].count > 0
    ensures if bySize then IsLarger(groups[order[n]].dims, groups[order[m]].dims)
            else NextFree(groups[order[n]], |ws|) < NextFree(groups[order[m]], |ws|)
  {
    hide NextFree, Used;
    var a, b := order[n], order[m];
    if bySize {
      if groups[a].dims == groups[b].dims {
        OneGroup(g, ws, groups, a, b);
      }
      assert GroupOk(g, ws, groups[a]) && GroupOk(g, ws, groups[b]);
      OneIsLarger(groups[a].dims, groups[b].dims);
    } else {
      KeyIsNext(g, ws, groups, a);
      KeyIsNext(g, ws, groups, b);
      NextOfGroup(g, ws, groups, a);
      NextOfGroup(g, ws, groups, b);
      if NextFree(groups[a], |ws|) == NextFree(groups[b], |ws|) {
        OneGroup(g, ws, groups, a, b);
      }
    }
  }

  lemma OneIsLarger(a: Dimension, b: Dimension)
    requires a != b && a.cols >= 1 && a.rows >= 1 && b.cols >= 1 && b.rows >= 1
    ensures IsLarger(a, b) || Area(b) > Area(a) || (Area(b) == Area(a) && b.rows > a.rows)
  {
    if a.rows == b.rows && a.cols != b.cols {
      assert (a.cols - b.cols) * a.rows == a.cols * a.rows - b.cols * b.rows;
    }
  }

  /** The search stands at the first free cell of the first screen that is not full. */
  ghost predicate StandsAt(g: Grid, board: Board, target: int, cell: Cell) {
    0 <= target < |board| && (forall s :: 0 <= s < target ==> board[s] == AllCells(g)) && IsFirstFree(g, board[target], cell)
  }

  lemma StandsFirst(g: Grid, board: Board, target: int, cell: Cell)
    requires StandsAt(g, board, target, cell)
    ensures 0 <= target < |board| && IsFirstFree(g, board[target], cell)
  {}

  lemma StandsAtNext(g: Grid, board: Board, target: int, cell: Cell, sp: Spot)
    requires StandsAt(g, board, target, cell) && IsNextSpot(g, board, sp)
    ensures sp == TileAt(target, cell, DimensionOf(sp.rect))
  {
    hide AllCells, RectCells;
    assert board[target] != AllCells(g) && board[sp.screen] != AllCells(g);
    FirstFreeIsUnique(g, board[target], cell, Cell(sp.rect.col, sp.rect.row));
  }

  /** A candidate is placed next on free cells. */
  ghost predicate Takes(g: Grid, board: Board, ws: seq<WidgetInput>, groups: seq<ShapeGroup>, i: nat, target: int, cell: Cell,
                        p: UnpinnedPlacement)
    requires i < |groups|
  {
    && groups[i].count > 0 && p.order == NextFree(groups[i], |ws|) && 0 <= p.order < |ws| && p.widget == ws[p.order]
    && p.widget.dims == groups[i].dims && SpotOf(p) == TileAt(target, cell, groups[i].dims) && IsNextSpot(g, board, SpotOf(p))
  }

  /** The candidate was placed, and what follows is the first filling behind it. */
  ghost predicate FoundBehind(g: Grid, board: Board, ws: seq<WidgetInput>, groups: seq<ShapeGroup>, bySize: bool, i: nat,
                              target: int, cell: Cell, up: seq<UnpinnedPlacement>)
    requires i < |groups|
  {
    && up != [] && Takes(g, board, ws, groups, i, target, cell, up[0])
    && IsFirstFilling(g, Put(board, SpotOf(up[0])), ws, Used(ws, TakeFrom(groups, i)), bySize, up[1..])
  }

  /** The candidate fits, and behind it the widgets from n on fit in turn. */
  ghost predicate LeadsOn(g: Grid, board: Board, ws: seq<WidgetInput>, groups: seq<ShapeGroup>, i: nat, target: int, cell: Cell, n: int)
    requires i < |groups|
  {
    var tile := TileAt(target, cell, groups[i].dims);
    && groups[i].count > 0 && IsNextSpot(g, board, tile)
    && FitsInTurn(g, Put(board, tile), ws, Used(ws, TakeFrom(groups, i)), n)
  }

  lemma FitsAtCell(g: Grid, board: Board, target: int, cell: Cell, d: Dimension)
    requires StandsAt(g, board, target, cell) && d.cols >= 1 && d.rows >= 1
    ensures 0 <= target < |board| && 0 <= cell.col < g.cols && 0 <= cell.row < g.rows
    ensures IsNextSpot(g, board, TileAt(target, cell, d)) <==>
              cell.col + d.cols <= g.cols && cell.row + d.rows <= g.rows && board[target] !! RectCells(TileAt(target, cell, d).rect)
  {}

  lemma TakesNext(g: Grid, board: Board, ws: seq<WidgetInput>, groups: seq<ShapeGroup>, i: nat, target: int, cell: Cell)
    requires GroupsOk(g, ws, groups) && i < |groups| && groups[i].count > 0 && IsNextSpot(g, board, TileAt(target, cell, groups[i].dims))
    ensures GroupOk(g, ws, groups[i]) && Takes(g, board, ws, groups, i, target, cell, PlacementOf(groups, i, target, cell))
  {
    assert GroupOk(g, ws, groups[i]);
  }

  /** Nothing is left to choose on a full board. */
  lemma FullIsFirst(g: Grid, board: Board, ws: seq<WidgetInput>, used: set<int>, bySize: bool)
    requires Full(g, board) && forall o :: 0 <= o < |ws| ==> o in used
    ensures IsFirstFilling(g, board, ws, used, bySize, [])
  {}

  lemma AllUsed(g: Grid, ws: seq<WidgetInput>, groups: seq<ShapeGroup>)
    requires GroupsOk(g, ws, groups) && Listed(ws, groups) && forall i :: 0 <= i < |groups| ==> groups[i].count == 0
    ensures forall o :: 0 <= o < |ws| ==> o in Used(ws, groups)
  {
    forall o | 0 <= o < |ws| ensures o in Used(ws, groups) {
      assert InSome(groups, o);
      var i :| 0 <= i < |groups| && o in groups[i].orders;
      assert GroupOk(g, ws, groups[i]);
      UsedIff(g, ws, groups, i, o);
    }
  }

  /** If the candidates before the n-th begin no completion and the filling behind the n-th is the first there,
      the n-th and that filling are the first here. */
  lemma FirstAmongBranches(g: Grid, board: Board, ws: seq<WidgetInput>, groups: seq<ShapeGroup>, bySize: bool, order: seq<nat>, n: nat,
                           target: int, cell: Cell, up: seq<UnpinnedPlacement>)
    requires GroupsOk(g, ws, groups) && Listed(ws, groups) && StandsAt(g, board, target, cell)
    requires IsCandidateOrder(groups, order, bySize) && n < |order|
    requires forall j :: 0 <= j < n ==> !Branches(g, board, DemandsOf(groups), target, cell, order[j])
    requires FoundBehind(g, board, ws, groups, bySize, order[n], target, cell, up)
    ensures IsFirstFilling(g, board, ws, Used(ws, groups), bySize, up)
  {
    hide GroupsOk, Listed, Used, IsNextSpot, Put, IsNext, InPassOrder, Branches, StandsAt, NextFree;
    TakeKeepsGroups(g, ws, groups, order[n]);
    NextOfGroup(g, ws, groups, order[n]);
    TakeUses(g, ws, groups, order[n]);
    forall vp | Fills(g, board, ws, Used(ws, groups), vp) ensures NotAfter(ws, bySize, up, vp) {
      OtherComesLater(g, board, ws, groups, bySize, order, n, target, cell, up, vp);
    }
  }

  lemma OtherComesLater(g: Grid, board: Board, ws: seq<WidgetInput>, groups: seq<ShapeGroup>, bySize: bool, order: seq<nat>, n: nat,
                        target: int, cell: Cell, up: seq<UnpinnedPlacement>, vp: seq<UnpinnedPlacement>)
    requires GroupsOk(g, ws, groups) && Listed(ws, groups) && StandsAt(g, board, target, cell)
    requires IsCandidateOrder(groups, order, bySize) && n < |order|
    requires forall j :: 0 <= j < n ==> !Branches(g, board, DemandsOf(groups), target, cell, order[j])
    requires FoundBehind(g, board, ws, groups, bySize, order[n], target, cell, up)
    requires Fills(g, board, ws, Used(ws, groups), vp)
    ensures NotAfter(ws, bySize, up, vp)
  {
    hide GroupsOk, Listed, Used, IsNextSpot, Put, IsNext, InPassOrder, Branches, StandsAt, NextFree, Full, Completable;
    assert vp != [] by { NotFull(g, board, target, cell); }
    NextIsUnused(ws, Used(ws, groups), vp[0].order);
    var i := GroupOfNext(g, ws, groups, vp[0].order);
    StepFills(g, board, ws, groups, vp, i);
    StandsAtNext(g, board, target, cell, SpotOf(vp[0]));
    if i == order[n] {
      assert SpotOf(vp[0]) == SpotOf(up[0]);
    } else {
      FillsIsCompletable(g, Put(board, SpotOf(vp[0])), ws, TakeFrom(groups, i), vp[1..]);
      BranchIsCompletable(g, board, ws, groups, vp[0], i);
      var m :| 0 <= m < |order| && order[m] == i;
      EarlierIsPreferred(g, ws, groups, order, bySize, n, m);
    }
  }

  lemma NotFull(g: Grid, board: Board, target: int, cell: Cell)
    requires StandsAt(g, board, target, cell)
    ensures !Full(g, board)
  {}

  // ----- going straight

  /** What is not used comes later. */
  lemma {:induction false} UnusedComeLater(g: Grid, board: Board, ws: seq<WidgetInput>, used: set<int>, n: int, up: seq<UnpinnedPlacement>, o: int)
    requires Fills(g, board, ws, used, up) && InTurn(up, n) && 0 <= o < |ws| && o !in used
    ensures n <= o
    decreases |up|
  {
    hide IsNextSpot, Put, Full;
    if up != [] && up[0].order != o {
      forall j | 0 <= j < |up[1..]| ensures up[1..][j].order == n + 1 + j {
        assert up[1..][j] == up[j + 1];
      }
      UnusedComeLater(g, Put(board, SpotOf(up[0])), ws, used + {up[0].order}, n + 1, up[1..], o);
    }
  }

  /** If the widgets fit in turn, the first candidate in configuration order is the next of them. */
  lemma StraightOn(g: Grid, board: Board, ws: seq<WidgetInput>, groups: seq<ShapeGroup>, order: seq<nat>, target: int, cell: Cell, n: nat)
    requires GroupsOk(g, ws, groups) && Listed(ws, groups) && StandsAt(g, board, target, cell)
    requires IsCandidateOrder(groups, order, false)
    requires FitsInTurn(g, board, ws, Used(ws, groups), n)
    ensures |order| > 0 && LeadsOn(g, board, ws, groups, order[0], target, cell, n + 1)
  {
    hide GroupsOk, Listed, Used, IsNextSpot, Put, IsNext, StandsAt, NextFree, Full;
    var up: seq<UnpinnedPlacement> :| Fills(g, board, ws, Used(ws, groups), up) && InTurn(up, n);
    assert up != [] by { NotFull(g, board, target, cell); }
    var i := GroupOfNext(g, ws, groups, n);
    var first := order[0];
    NextOfGroup(g, ws, groups, first);
    NextIsUnused(ws, Used(ws, groups), NextFree(groups[first], |ws|));
    UnusedComeLater(g, board, ws, Used(ws, groups), n, up, NextFree(groups[first], |ws|));
    KeyIsNext(g, ws, groups, first);
    KeyIsNext(g, ws, groups, i);
    assert i == first by {
      var m :| 0 <= m < |order| && order[m] == i;
      assert m > 0 ==> OrderKey(groups, order[0]) <= OrderKey(groups, order[m]);
      OneGroup(g, ws, groups, i, first);
    }
    StandsAtNext(g, board, target, cell, SpotOf(up[0]));
    StepFills(g, board, ws, groups, up, i);
    forall j | 0 <= j < |up[1..]| ensures up[1..][j].order == n + 1 + j {
      assert up[1..][j] == up[j + 1];
    }
  }

  // ----- both passes and the pinned widgets

  /** The first filling in configuration order or, after more nodes than the first pass may visit, the first by size. */
  ghost predicate FilledInOrder(g: Grid, board: Board, ws: seq<WidgetInput>, used: set<int>, up: seq<UnpinnedPlacement>, nodes: int) {
    || IsFirstFilling(g, board, ws, used, false, up)
    || (nodes > 512 && IsFirstFilling(g, board, ws, used, true, up))
  }

  lemma MoreNodes(g: Grid, board: Board, ws: seq<WidgetInput>, used: set<int>, up: seq<UnpinnedPlacement>, m: int, n: int)
    requires FilledInOrder(g, board, ws, used, up, m) && m <= n
    ensures FilledInOrder(g, board, ws, used, up, n)
  {
    hide IsFirstFilling;
  }

  /** The pinned widgets fit at the first free origins, and the others fit behind them in turn. */
  ghost predicate PinsLeadOn(g: Grid, board: Board, dims: seq<Dimension>, ws: seq<WidgetInput>, used: set<int>, spots: seq<Spot>) {
    PinInTurn(g, board, dims, spots) && FitsInTurn(g, PutAll(board, spots), ws, used, 0)
  }

  lemma PinsStepOn(g: Grid, board: Board, dims: seq<Dimension>, ws: seq<WidgetInput>, used: set<int>, spots: seq<Spot>)
    requires PinsLeadOn(g, board, dims, ws, used, spots) && dims != []
    ensures spots != [] && Free(board, spots[0]) && PinsLeadOn(g, Put(board, spots[0]), dims[1..], ws, used, spots[1..])
    ensures InBounds(g, spots[0].rect) && spots[0] == PinnedAt(spots[0].rect.col, spots[0].rect.row, dims[0])
  {
    hide FitsInTurn, Free, Put;
  }

  /** Before the first free origin nothing is free. */
  lemma NothingFreeBefore(g: Grid, board: Board, dims: seq<Dimension>, ws: seq<WidgetInput>, used: set<int>, spots: seq<Spot>, c: int, r: int)
    requires PinsLeadOn(g, board, dims, ws, used, spots) && dims != [] && InBounds(g, PinnedAt(c, r, dims[0]).rect)
    requires spots != [] && ReadsEarlier(PinnedAt(c, r, dims[0]), spots[0])
    ensures !Free(board, PinnedAt(c, r, dims[0]))
  {
    hide FitsInTurn, Free, Put;
  }

  lemma NextIsUnused(ws: seq<WidgetInput>, used: set<int>, o: int)
    requires IsNext(ws, used, o)
    ensures 0 <= o < |ws| && o !in used
  {}
}
