/**
  In which order the layout shows what the search has placed: screens by their earliest widget, and exactly as
  they were filled if the widgets fit one after the other.
 */
module LayoutOrder {
  import opened Grid
  import opened Board
  import opened Search
  import opened Tilings
  import opened Fillings
  import opened Sorting
  import opened Groups
  import opened Solver
  import opened Layouts

  // ----- the earliest widget of a screen

  lemma {:induction false} MinOrderIsLeast(up: seq<UnpinnedPlacement>, s: int, j: nat)
    requires j < |up| && up[j].screen == s
    ensures MinOrder(up, s) <= up[j].order
  {
    if j < |up| - 1 {
      MinOrderIsLeast(up[..|up| - 1], s, j);
    }
  }

  lemma {:induction false} MinOrderIsOne(up: seq<UnpinnedPlacement>, s: int) returns (j: nat)
    requires MinOrder(up, s) != NO_ORDER
    ensures j < |up| && up[j].screen == s && MinOrder(up, s) == up[j].order
  {
    var n := |up| - 1;
    if up[n].screen == s && up[n].order < MinOrder(up[..n], s) {
      j := n;
    } else {
      j := MinOrderIsOne(up[..n], s);
    }
  }

  /** Every widget of a screen has one before it on every earlier screen. */
  ghost predicate EarliestFirst(up: seq<UnpinnedPlacement>, perm: seq<int>) {
    forall n, m, j :: 0 <= n < m < |perm| && 0 <= j < |up| && up[j].screen == perm[m] ==> HasEarlier(up, perm[n], up[j].order)
  }

  predicate HasEarlier(up: seq<UnpinnedPlacement>, s: int, order: int) {
    exists i :: 0 <= i < |up| && up[i].screen == s && up[i].order < order
  }

  lemma ScreensInOrder(up: seq<UnpinnedPlacement>, k: nat)
    requires forall j :: 0 <= j < |up| ==> up[j].order < NO_ORDER
    requires forall i, j :: 0 <= i < j < |up| ==> up[i].order != up[j].order
    ensures EarliestFirst(up, ScreenOrder(MinOrders(up, k)))
  {
    hide MinOrder, ScreenOrder, HasEarlier;
    var mins := MinOrders(up, k);
    var perm := ScreenOrder(mins);
    ScreenOrderPermutes(mins);
    forall n, m, j | 0 <= n < m < |perm| && 0 <= j < |up| && up[j].screen == perm[m] ensures HasEarlier(up, perm[n], up[j].order) {
      MinOrderIsLeast(up, perm[m], j);
      assert mins[perm[n]] <= mins[perm[m]];
      var i := MinOrderIsOne(up, perm[n]);
      HasEarlierAt(up, perm[n], up[j].order, i);
    }
  }

  lemma HasEarlierAt(up: seq<UnpinnedPlacement>, s: int, order: int, i: nat)
    requires i < |up| && up[i].screen == s && up[i].order < order
    ensures HasEarlier(up, s, order)
  {}

  // ----- widgets that fit in turn

  lemma {:induction false} FullScreensAreDone(g: Grid, board: Board, ws: seq<WidgetInput>, used: set<int>, up: seq<UnpinnedPlacement>,
                                              s: int, j: nat)
    requires Fills(g, board, ws, used, up) && j < |up| && 0 <= s <= |board| && forall t :: 0 <= t < s ==> board[t] == AllCells(g)
    ensures s <= up[j].screen < |board|
    decreases |up|
  {
    hide IsNext, Full;
    var board' := Put(board, SpotOf(up[0]));
    assert s <= up[0].screen < |board| by { NextScreenIsOpen(g, board, SpotOf(up[0])); }
    if j > 0 {
      FullScreensAreDone(g, board', ws, used + {up[0].order}, up[1..], s, j - 1);
    }
  }

  lemma NextScreenIsOpen(g: Grid, board: Board, sp: Spot)
    requires IsNextSpot(g, board, sp)
    ensures 0 <= sp.screen < |board| && board[sp.screen] != AllCells(g)
    ensures forall t :: 0 <= t < sp.screen ==> board[t] == AllCells(g) && Put(board, sp)[t] == board[t]
  {}

  lemma {:induction false} ScreensGrow(g: Grid, board: Board, ws: seq<WidgetInput>, used: set<int>, up: seq<UnpinnedPlacement>, i: nat, j: nat)
    requires Fills(g, board, ws, used, up) && i < j < |up|
    ensures up[i].screen <= up[j].screen
    decreases |up|
  {
    hide IsNext, Full, IsNextSpot, Put;
    var rest := Put(board, SpotOf(up[0]));
    if i == 0 {
      NextScreenIsOpen(g, board, SpotOf(up[0]));
      FullScreensAreDone(g, rest, ws, used + {up[0].order}, up[1..], up[0].screen, j - 1);
    } else {
      ScreensGrow(g, rest, ws, used + {up[0].order}, up[1..], i - 1, j - 1);
    }
  }

  lemma {:induction false} OpenScreenGetsOne(g: Grid, board: Board, ws: seq<WidgetInput>, used: set<int>, up: seq<UnpinnedPlacement>, s: int)
    returns (j: nat)
    requires Fills(g, board, ws, used, up) && 0 <= s < |board| && board[s] != AllCells(g)
    ensures j < |up| && up[j].screen == s
    decreases |up|
  {
    hide IsNext, IsNextSpot, RectCells, AllCells;
    if up[0].screen == s {
      j := 0;
    } else {
      j := OpenScreenGetsOne(g, Put(board, SpotOf(up[0])), ws, used + {up[0].order}, up[1..], s);
      j := j + 1;
    }
  }

  /** Filled in turn, the screens are in the order of their earliest widgets already. */
  lemma InTurnInPlace(g: Grid, board: Board, ws: seq<WidgetInput>, up: seq<UnpinnedPlacement>)
    requires Fills(g, board, ws, {}, up) && InTurn(up, 0) && |up| <= NO_ORDER && |board| >= 1
    requires |board| == 1 || forall s :: 0 <= s < |board| ==> board[s] != AllCells(g)
    ensures ScreenOrder(MinOrders(up, |board|)) == seq(|board|, s => s)
  {
    hide Fills, MinOrder, ScreenOrder, AllCells;
    var mins := MinOrders(up, |board|);
    var perm := ScreenOrder(mins);
    ScreenOrderPermutes(mins);
    forall n, m | 0 <= n < m < |perm| ensures perm[n] < perm[m] {
      if perm[m] < perm[n] {
        var a := OpenScreenGetsOne(g, board, ws, {}, up, perm[m]);
        MinOrderIsLeast(up, perm[m], a);
        assert mins[perm[n]] <= mins[perm[m]];
        var b := MinOrderIsOne(up, perm[n]);
        var c := MinOrderIsOne(up, perm[m]);
        if b < c {
          ScreensGrow(g, board, ws, {}, up, b, c);
        }
        assert false;
      }
    }
    IncreasingIsIdentity(perm, |board|);
  }

  lemma IncreasingIsIdentity(perm: seq<int>, k: nat)
    requires |perm| == k && (forall i :: 0 <= i < k ==> 0 <= perm[i] < k) && forall i, j :: 0 <= i < j < k ==> perm[i] < perm[j]
    ensures perm == seq(k, s => s)
  {
    for i := 0 to k
      invariant forall j :: 0 <= j < i ==> perm[j] >= j
    {
      assert i > 0 ==> perm[i - 1] < perm[i];
    }
    for i := k downto 0
      invariant forall j :: i <= j < k ==> perm[j] <= j
    {
      assert i + 1 < k ==> perm[i] < perm[i + 1];
    }
  }

  // ----- pinned widgets in turn

  lemma {:induction false} PinInTurnIsUnique(g: Grid, board: Board, dims: seq<Dimension>, a: seq<Spot>, b: seq<Spot>)
    requires PinInTurn(g, board, dims, a) && PinInTurn(g, board, dims, b)
    ensures a == b
    decreases |dims|
  {
    hide Free, Put, InBounds;
    if dims != [] {
      assert a[0] == PinnedAt(a[0].rect.col, a[0].rect.row, dims[0]) && b[0] == PinnedAt(b[0].rect.col, b[0].rect.row, dims[0]);
      assert !ReadsEarlier(a[0], b[0]) && !ReadsEarlier(b[0], a[0]);
      PinInTurnIsUnique(g, Put(board, a[0]), dims[1..], a[1..], b[1..]);
      assert a == [a[0]] + a[1..] && b == [b[0]] + b[1..];
    }
  }

  lemma {:induction false} PinnedLeaveUniform(board: Board, spots: seq<Spot>)
    requires Uniform(board) && forall i :: 0 <= i < |spots| ==> spots[i].Pinned?
    ensures Uniform(PutAll(board, spots)) && |PutAll(board, spots)| == |board|
    decreases |spots|
  {
    if spots != [] {
      forall i | 0 <= i < |spots[1..]| ensures spots[1..][i].Pinned? {
        assert spots[1..][i] == spots[i + 1];
      }
      PinnedLeaveUniform(Put(board, spots[0]), spots[1..]);
    }
  }

  lemma {:induction false} PinsArePinned(g: Grid, board: Board, dims: seq<Dimension>, spots: seq<Spot>)
    requires PinInTurn(g, board, dims, spots)
    ensures |spots| == |dims| && forall i :: 0 <= i < |spots| ==> spots[i].Pinned?
    decreases |dims|
  {
    hide Free, Put, InBounds;
    if dims != [] {
      PinsArePinned(g, Put(board, spots[0]), dims[1..], spots[1..]);
      forall i | 0 <= i < |spots| ensures spots[i].Pinned? {
        assert i > 0 ==> spots[i] == spots[1..][i - 1];
      }
    }
  }
}
