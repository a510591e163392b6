/**
  What explicit placements determine: the screens they end up on, and the holes the spacers fill.
 */
module Holes {
  import opened Grid
  import opened Board
  import opened Explicit
  import Text

  // ----- greedy filling is determined by what is taken

  lemma LargestIsUnique(g: Grid, taken: set<Cell>, a: Rect, b: Rect)
    requires IsLargestAtFirst(g, taken, a) && IsLargestAtFirst(g, taken, b)
    ensures a == b
  {
    hide RectCells, IsFirstFree, IsFree;
    FirstFreeIsUnique(g, taken, Cell(a.col, a.row), Cell(b.col, b.row));
    assert !IsBetterSpacer(a.cols, a.rows, DimensionOf(b)) && !IsBetterSpacer(b.cols, b.rows, DimensionOf(a));
    SameWidth(a.cols, b.cols, a.rows);
  }

  lemma SameWidth(v: int, w: int, h: int)
    requires v * h == w * h && h >= 1
    ensures v == w
  {}

  /** Of two greedy lists for the same taken cells one starts the other. */
  lemma {:induction false} GreedyIsUnique(g: Grid, taken: set<Cell>, a: seq<Rect>, b: seq<Rect>, n: nat)
    requires IsGreedy(g, taken, a) && IsGreedy(g, taken, b) && n <= |a| && n <= |b|
    ensures a[..n] == b[..n]
  {
    hide IsLargestAtFirst, CellsOf;
    if n > 0 {
      GreedyIsUnique(g, taken, a, b, n - 1);
      forall i | 0 <= i < n - 1 ensures a[i] == b[i] {
        assert a[..n - 1][i] == b[..n - 1][i];
      }
      CellsOfPrefix(a, b, n - 1);
      LargestIsUnique(g, taken + CellsOf(a, n - 1), a[n - 1], b[n - 1]);
    }
  }

  /** Greedy filling that started on the taken cells puts a spacer here. */
  ghost predicate IsHole(g: Grid, taken: set<Cell>, cell: Cell) {
    exists rects, t :: 0 <= t < |rects| && IsGreedy(g, taken, rects) && Origin(rects[t]) == cell
  }

  function Origin(rc: Rect): Cell {
    Cell(rc.col, rc.row)
  }

  /** A list that leaves nothing free has every hole. */
  lemma HolesOf(g: Grid, taken: set<Cell>, rects: seq<Rect>, cell: Cell)
    requires IsGreedy(g, taken, rects) && AllCells(g) <= taken + CellsOf(rects, |rects|)
    ensures IsHole(g, taken, cell) <==> exists t :: 0 <= t < |rects| && Origin(rects[t]) == cell
  {
    hide IsGreedy, AllCells, CellsOf;
    if IsHole(g, taken, cell) {
      var other, t :| 0 <= t < |other| && IsGreedy(g, taken, other) && Origin(other[t]) == cell;
      if |rects| < |other| {
        GreedyIsUnique(g, taken, rects, other, |rects|);
        NothingBehindFull(g, taken, rects, other);
        assert false;
      }
      GreedyIsUnique(g, taken, rects, other, |other|);
      assert rects[..|other|][t] == other[..|other|][t];
      assert Origin(rects[t]) == cell;
    }
  }

  lemma NothingBehindFull(g: Grid, taken: set<Cell>, rects: seq<Rect>, other: seq<Rect>)
    requires AllCells(g) <= taken + CellsOf(rects, |rects|) && |rects| < |other| && rects[..|rects|] == other[..|rects|]
    ensures !IsGreedy(g, taken, other)
  {
    hide AllCells, CellsOf, RectCells;
    var n := |rects|;
    forall i | 0 <= i < n ensures rects[i] == other[i] {
      assert rects[..n][i] == other[..n][i];
    }
    CellsOfPrefix(rects, other, n);
    assert !IsLargestAtFirst(g, taken + CellsOf(other, n), other[n]);
  }

  // ----- the screens of the placements, numbered densely

  /** How many screens below n the placements use. */
  function UsedBelow(ps: seq<ExplicitPlacement>, n: int): nat
    decreases if n < 0 then 0 else n
  {
    if n <= 0 then 0 else UsedBelow(ps, n - 1) + if UsesScreen(ps, n - 1) then 1 else 0
  }

  function ScreenCount(ps: seq<ExplicitPlacement>): nat {
    var n := UsedBelow(ps, MAX_SCREENS);
    if n > 1 then n else 1
  }

  /** Where the placements end up when the used screens are numbered without gaps. */
  function DenseSpots(ps: seq<ExplicitPlacement>): (r: seq<Spot>)
    ensures |r| == |ps|
    ensures forall i :: 0 <= i < |ps| ==>
              r[i] == if ps[i].pinned then Pinned(RectOf(ps[i])) else On(UsedBelow(ps, ps[i].screen), RectOf(ps[i]))
  {
    seq(|ps|, i requires 0 <= i < |ps| =>
      if ps[i].pinned then Pinned(RectOf(ps[i])) else On(UsedBelow(ps, ps[i].screen), RectOf(ps[i])))
  }

  ghost predicate IsUsedList(ps: seq<ExplicitPlacement>, used: seq<int>) {
    Increasing(used) && forall x :: x in used <==> UsesScreen(ps, x)
  }

  /** The first i used screens are those below n. */
  lemma {:induction false} UsedBelowIs(ps: seq<ExplicitPlacement>, used: seq<int>, n: nat, i: nat)
    requires IsUsedList(ps, used) && i <= |used| && forall j :: 0 <= j < |used| ==> 0 <= used[j]
    requires (i > 0 ==> used[i - 1] < n) && (i < |used| ==> n <= used[i])
    ensures UsedBelow(ps, n) == i
  {
    hide UsesScreen;
    if n > 0 {
      assert i > 0 ==> used[i - 1] in used;
      if UsesScreen(ps, n - 1) {
        var j :| 0 <= j < |used| && used[j] == n - 1;
        UsedBelowIs(ps, used, n - 1, i - 1);
      } else {
        UsedBelowIs(ps, used, n - 1, i);
      }
    }
  }

  lemma InScreens(g: Grid, ps: seq<ExplicitPlacement>, used: seq<int>, j: nat)
    requires GoodPrefix(g, ps, |ps|) && IsUsedList(ps, used) && j < |used|
    ensures 0 <= used[j] < MAX_SCREENS
  {
    hide Text.Trim, ValidDimension, InBounds;
    assert used[j] in used;
    var i :| 0 <= i < |ps| && !ps[i].pinned && ps[i].screen == used[j];
    assert GoodPlacement(g, ps[i]);
  }

  /** The placer's numbering is the dense one. */
  lemma SpotsAreDense(g: Grid, ps: seq<ExplicitPlacement>, used: seq<int>, screenMap: map<int, int>, k: int)
    requires GoodPrefix(g, ps, |ps|) && IsUsedList(ps, used) && k == (if |used| > 1 then |used| else 1)
    requires (forall x :: x in screenMap <==> x in used) && forall i :: 0 <= i < |used| ==> used[i] in screenMap && screenMap[used[i]] == i
    requires Maps(ps, screenMap, k)
    ensures ScreenCount(ps) == k && MapSpots(ps, screenMap, k) == DenseSpots(ps)
  {
    hide GoodPrefix, UsesScreen, Maps, RectOf, UsedBelow;
    forall j | 0 <= j < |used| ensures 0 <= used[j] < MAX_SCREENS {
      InScreens(g, ps, used, j);
    }
    UsedBelowIs(ps, used, MAX_SCREENS, |used|);
    MapsScreens(ps, screenMap, k);
    forall i | 0 <= i < |ps| ensures MapSpots(ps, screenMap, k)[i] == DenseSpots(ps)[i] {
      if !ps[i].pinned {
        var j :| 0 <= j < |used| && used[j] == ps[i].screen;
        UsedBelowAt(ps, used, j);
      }
    }
  }

  lemma UsedBelowAt(ps: seq<ExplicitPlacement>, used: seq<int>, j: nat)
    requires IsUsedList(ps, used) && j < |used| && forall i :: 0 <= i < |used| ==> 0 <= used[i]
    ensures UsedBelow(ps, used[j]) == j
  {
    hide UsesScreen, UsedBelow;
    UsedBelowIs(ps, used, used[j], j);
  }

  // ----- the fillers of a screen

  lemma {:induction false} FillerOf(rects: seq<seq<Rect>>, n: nat, i: nat) returns (t: nat)
    requires n <= |rects| && i < |FillerSpots(rects, n)|
    ensures var sp := FillerSpots(rects, n)[i]; sp.On? && 0 <= sp.screen < n && t < |rects[sp.screen]| && sp.rect == rects[sp.screen][t]
  {
    if n > 0 {
      if i < |FillerSpots(rects, n - 1)| {
        t := FillerOf(rects, n - 1, i);
        assert FillerSpots(rects, n)[i] == FillerSpots(rects, n - 1)[i];
      } else {
        t := i - |FillerSpots(rects, n - 1)|;
      }
    }
  }

  lemma {:induction false} FillerIndex(rects: seq<seq<Rect>>, n: nat, s: nat, t: nat) returns (j: nat)
    requires s < n <= |rects| && t < |rects[s]|
    ensures j < |FillerWidgets(rects, n)| && FillerWidgets(rects, n)[j] == Spacer(s, rects[s][t])
    decreases n
  {
    hide Spacer;
    if s == n - 1 {
      j := |FillerWidgets(rects, n - 1)| + t;
    } else {
      j := FillerIndex(rects, n - 1, s, t);
      assert FillerWidgets(rects, n)[j] == FillerWidgets(rects, n - 1)[j];
    }
  }

  lemma {:induction false} CellOfRect(rects: seq<Rect>, n: nat, t: nat, cell: Cell)
    requires t < n <= |rects| && InRect(rects[t], cell)
    ensures cell in CellsOf(rects, n)
  {
    if t < n - 1 {
      CellOfRect(rects, n - 1, t, cell);
    }
  }

  /** In a tiling the fillers of a screen take all that the user's widgets leave. */
  lemma FillersFill(g: Grid, user: seq<Spot>, rects: seq<seq<Rect>>, k: nat, s: nat)
    requires s < k <= |rects| && Tiled(g, k, user + FillerSpots(rects, k))
    ensures AllCells(g) <= Covered(user, s) + CellsOf(rects[s], |rects[s]|)
  {
    hide Covered, CellsOf, FillerSpots, Tiled, AllCells, RectCells;
    var spots := user + FillerSpots(rects, k);
    forall cell | cell in AllCells(g) ensures cell in Covered(user, s) + CellsOf(rects[s], |rects[s]|) {
      var i := TiledExactlyOnce(g, k, spots, s, cell);
      if i < |user| {
        assert spots[i] == user[i];
        CoveredBy(user, s, cell);
      } else {
        var t := FillerOf(rects, k, i - |user|);
        CellOfRect(rects[s], |rects[s]|, t, cell);
      }
    }
  }
}
