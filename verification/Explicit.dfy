/**
  The explicit placer: widgets at coordinates the user chose, the holes filled with spacers.
 */
module Explicit {
  import opened Grid
  import opened Board
  import opened Sorting
  import opened Groups
  import opened Solver
  import opened Layouts
  import Text

  const MAX_SCREENS := 16

  datatype ExplicitPlacement =
    ExplicitPlacement(id: string, kind: string, screen: int, col: int, row: int, dims: Dimension, pinned: bool)

  datatype PlacementError =
    | EmptyId(index: int)
    | DuplicateId(first: int, second: int)
    | BadDimensions(index: int)
    | OutOfBounds(index: int)
    | BadScreen(index: int)
    | Overlap(index: int)

  datatype Result<+T> = Ok(value: T) | Err(error: PlacementError)

  function RectOf(p: ExplicitPlacement): Rect {
    Rect(p.col, p.row, p.dims.cols, p.dims.rows)
  }

  function SpotOf(p: ExplicitPlacement): Spot {
    if p.pinned then Pinned(RectOf(p)) else On(p.screen, RectOf(p))
  }

  predicate GoodPlacement(g: Grid, p: ExplicitPlacement) {
    && Text.Trim(p.id) != "" && ValidDimension(g, p.dims)
    && InBounds(g, RectOf(p)) && 0 <= p.screen < 16
  }

  predicate GoodPrefix(g: Grid, ps: seq<ExplicitPlacement>, n: int)
    requires n <= |ps|
  {
    && (forall i :: 0 <= i < n ==> GoodPlacement(g, ps[i]))
    && (forall i, j :: 0 <= i < j < n ==> Text.Trim(ps[i].id) != Text.Trim(ps[j].id))
  }

  predicate Overlapping(ps: seq<ExplicitPlacement>) {
    exists i, j :: 0 <= i < j < |ps| && Clash(SpotOf(ps[i]), SpotOf(ps[j]))
  }

  /** Placement i overlaps another one on a screen they share. */
  predicate OverlapsAnother(ps: seq<ExplicitPlacement>, i: int) {
    0 <= i < |ps| && exists j :: 0 <= j < |ps| && j != i && Clash(SpotOf(ps[i]), SpotOf(ps[j]))
  }

  lemma OverlapsAnotherOverlaps(ps: seq<ExplicitPlacement>, i: int)
    requires OverlapsAnother(ps, i)
    ensures Overlapping(ps)
  {
    var j :| 0 <= j < |ps| && j != i && Clash(SpotOf(ps[i]), SpotOf(ps[j]));
    ClashIsSymmetric(SpotOf(ps[i]), SpotOf(ps[j]));
    assert i < j ==> Clash(SpotOf(ps[i]), SpotOf(ps[j]));
  }

  /** Ids are non-empty and distinct, rectangles and screens are in range, and no two widgets
      overlap on a screen they share. */
  predicate Acceptable(g: Grid, ps: seq<ExplicitPlacement>) {
    GoodPrefix(g, ps, |ps|) && !Overlapping(ps)
  }

  /** What a rejection says about the placements. */
  ghost predicate Explains(g: Grid, ps: seq<ExplicitPlacement>, e: PlacementError) {
    match e
    case EmptyId(i) => 0 <= i < |ps| && Text.Trim(ps[i].id) == ""
    case DuplicateId(i, j) => 0 <= i < j < |ps| && Text.Trim(ps[i].id) == Text.Trim(ps[j].id)
    case BadDimensions(i) => 0 <= i < |ps| && !ValidDimension(g, ps[i].dims)
    case OutOfBounds(i) => 0 <= i < |ps| && !InBounds(g, RectOf(ps[i]))
    case BadScreen(i) => 0 <= i < |ps| && !(0 <= ps[i].screen < 16)
    case Overlap(i) => GoodPrefix(g, ps, |ps|) && OverlapsAnother(ps, i)
  }

  // ----- validation

  method ValidateExplicitPlacements(g: Grid, ps: seq<ExplicitPlacement>) returns (r: Result<seq<int>>)
    ensures r.Ok? <==> GoodPrefix(g, ps, |ps|)
    ensures r.Ok? ==> forall x :: x in r.value <==> exists i :: 0 <= i < |ps| && !ps[i].pinned && ps[i].screen == x
    ensures r.Err? ==> !r.error.Overlap? && Explains(g, ps, r.error)
  {
    hide Text.Trim;
    var seenIDs: map<string, int> := map[];
    var unpinnedScreens := [];
    for i := 0 to |ps|
      invariant GoodPrefix(g, ps, i)
      invariant forall j :: 0 <= j < i ==> Text.Trim(ps[j].id) in seenIDs
      invariant forall id :: id in seenIDs ==> 0 <= seenIDs[id] < i && Text.Trim(ps[seenIDs[id]].id) == id
      invariant forall x :: x in unpinnedScreens <==> exists j :: 0 <= j < i && !ps[j].pinned && ps[j].screen == x
    {
      var p := ps[i];
      var trimmedID := Text.Trim(p.id);
      if trimmedID == "" {
        return Err(EmptyId(i));
      }
      if trimmedID in seenIDs {
        return Err(DuplicateId(seenIDs[trimmedID], i));
      }
      seenIDs := seenIDs[trimmedID := i];
      if !ValidDimension(g, p.dims) {
        return Err(BadDimensions(i));
      }
      if p.col < 0 || p.col + p.dims.cols > g.cols || p.row < 0 || p.row + p.dims.rows > g.rows {
        return Err(OutOfBounds(i));
      }
      if p.screen < 0 || p.screen >= MAX_SCREENS {
        return Err(BadScreen(i));
      }
      if !p.pinned {
        unpinnedScreens := unpinnedScreens + [p.screen];
      }
    }
    return Ok(unpinnedScreens);
  }

  // ----- renumbering the used screens densely

  predicate Increasing(xs: seq<int>) {
    forall i, j :: 0 <= i < j < |xs| ==> xs[i] < xs[j]
  }

  /** The used screens in increasing order, each once; the map sends each to its position. */
  ghost predicate Compacts(used: seq<int>, screens: seq<int>, screenMap: map<int, int>) {
    && Increasing(used)
    && (forall x :: x in used <==> x in screens)
    && (forall x :: x in screenMap <==> x in used)
    && (forall i :: 0 <= i < |used| ==> screenMap[used[i]] == i)
  }

  method CompactScreenIndices(screens: seq<int>) returns (k: int, screenMap: map<int, int>, used: seq<int>)
    ensures Compacts(used, screens, screenMap)
    ensures k == if |used| > 1 then |used| else 1
  {
    var sorted := Sort(screens, (a: int, b: int) => a < b);
    SortSorts(screens, (a: int, b: int) => a < b);
    used := [];
    for i := 0 to |sorted|
      invariant Increasing(used) && (used == [] <==> i == 0)
      invariant i > 0 ==> used[|used| - 1] == sorted[i - 1]
      invariant forall x :: x in used <==> x in sorted[..i]
    {
      if used == [] || used[|used| - 1] != sorted[i] {
        assert forall j :: 0 <= j < |used| ==> used[j] in sorted[..i];
        used := used + [sorted[i]];
      }
    }
    assert sorted[..|sorted|] == sorted;
    forall x ensures x in sorted <==> x in screens { SameElements(sorted, screens, x); }
    k := if |used| > 1 then |used| else 1;
    screenMap := map[];
    for i := 0 to |used|
      invariant forall x :: x in screenMap <==> x in used[..i]
      invariant forall j :: 0 <= j < i ==> used[j] in screenMap && screenMap[used[j]] == j
    {
      screenMap := screenMap[used[i] := i];
    }
    assert used[..|used|] == used;
  }

  // ----- spacers

  predicate IsFree(taken: set<Cell>, cell: Cell, w: int, h: int) {
    taken !! RectCells(Rect(cell.col, cell.row, w, h))
  }

  predicate IsBetterSpacer(w: int, h: int, current: Dimension) {
    Area(Dimension(w, h)) > Area(current) || (Area(Dimension(w, h)) == Area(current) && h > current.rows)
  }

  lemma BetterIsTransitive(w: int, h: int, cur: Dimension, x: int, y: int)
    requires IsBetterSpacer(w, h, cur) && !IsBetterSpacer(x, y, cur)
    ensures !IsBetterSpacer(x, y, Dimension(w, h))
  {}

  /** A free rectangle anchored at the cell, or nothing yet. */
  predicate Candidate(g: Grid, taken: set<Cell>, cell: Cell, d: Dimension) {
    d == Dimension(0, 0) || (InBounds(g, Rect(cell.col, cell.row, d.cols, d.rows)) && IsFree(taken, cell, d.cols, d.rows))
  }

  /** No free rectangle anchored at the cell beats the chosen one. */
  method LargestSpacerAt(g: Grid, taken: set<Cell>, cell: Cell) returns (best: Dimension)
    requires cell in AllCells(g) && cell !in taken
    ensures InBounds(g, Rect(cell.col, cell.row, best.cols, best.rows)) && IsFree(taken, cell, best.cols, best.rows)
    ensures forall w, h :: InBounds(g, Rect(cell.col, cell.row, w, h)) && IsFree(taken, cell, w, h) ==>
              !IsBetterSpacer(w, h, best)
    ensures forall w, h :: InBounds(g, Rect(cell.col, cell.row, w, h)) && IsFree(taken, cell, w, h) ==>
              w * h < best.cols * best.rows || (w * h == best.cols * best.rows && h <= best.rows)
  {
    hide Area;
    best := Dimension(0, 0);
    for h := g.rows - cell.row + 1 downto 1
      invariant Candidate(g, taken, cell, best)
      invariant forall w, y :: h <= y <= g.rows - cell.row && 1 <= w <= g.cols - cell.col && IsFree(taken, cell, w, y) ==>
                  !IsBetterSpacer(w, y, best)
    {
      for w := g.cols - cell.col + 1 downto 1
        invariant Candidate(g, taken, cell, best)
        invariant forall x, y :: h < y <= g.rows - cell.row && 1 <= x <= g.cols - cell.col && IsFree(taken, cell, x, y) ==>
                    !IsBetterSpacer(x, y, best)
        invariant forall x :: w <= x <= g.cols - cell.col && IsFree(taken, cell, x, h) ==> !IsBetterSpacer(x, h, best)
      {
        if IsFree(taken, cell, w, h) && IsBetterSpacer(w, h, best) {
          forall x, y | !IsBetterSpacer(x, y, best) ensures !IsBetterSpacer(x, y, Dimension(w, h)) {
            BetterIsTransitive(w, h, best, x, y);
          }
          best := Dimension(w, h);
        }
      }
    }
    SingleCellBeatsNothing(g, taken, cell, best);
    forall w, h | InBounds(g, Rect(cell.col, cell.row, w, h)) && IsFree(taken, cell, w, h)
      ensures w * h < best.cols * best.rows || (w * h == best.cols * best.rows && h <= best.rows) {
      NotBetter(w, h, best);
    }
  }

  lemma NotBetter(w: int, h: int, d: Dimension)
    requires !IsBetterSpacer(w, h, d)
    ensures w * h < d.cols * d.rows || (w * h == d.cols * d.rows && h <= d.rows)
  {}

  lemma SingleCellBeatsNothing(g: Grid, taken: set<Cell>, cell: Cell, best: Dimension)
    requires cell in AllCells(g) && cell !in taken && Candidate(g, taken, cell, best)
    requires forall w, h :: 1 <= h <= g.rows - cell.row && 1 <= w <= g.cols - cell.col && IsFree(taken, cell, w, h) ==>
               !IsBetterSpacer(w, h, best)
    ensures best != Dimension(0, 0)
  {
    assert IsFree(taken, cell, 1, 1);
    assert IsBetterSpacer(1, 1, Dimension(0, 0));
  }

  /** The cells of the first n rectangles. */
  function CellsOf(rects: seq<Rect>, n: nat): set<Cell>
    requires n <= |rects|
  {
    if n == 0 then {} else CellsOf(rects, n - 1) + RectCells(rects[n - 1])
  }

  /** The rectangle starts at the first free cell, and no free rectangle there is better. */
  ghost predicate IsLargestAtFirst(g: Grid, taken: set<Cell>, rc: Rect) {
    && IsFirstFree(g, taken, Cell(rc.col, rc.row)) && InBounds(g, rc) && IsFree(taken, Cell(rc.col, rc.row), rc.cols, rc.rows)
    && forall w, h :: InBounds(g, Rect(rc.col, rc.row, w, h)) && IsFree(taken, Cell(rc.col, rc.row), w, h) ==>
                        !IsBetterSpacer(w, h, DimensionOf(rc))
  }

  /** Each rectangle is the largest at the first cell that the ones before leave free. */
  ghost predicate IsGreedy(g: Grid, taken: set<Cell>, rects: seq<Rect>) {
    forall i :: 0 <= i < |rects| ==> IsLargestAtFirst(g, taken + CellsOf(rects, i), rects[i])
  }

  lemma {:induction false} CellsOfPrefix(a: seq<Rect>, b: seq<Rect>, n: nat)
    requires n <= |a| && n <= |b| && forall i :: 0 <= i < n ==> a[i] == b[i]
    ensures CellsOf(a, n) == CellsOf(b, n)
  {
    if n > 0 {
      CellsOfPrefix(a, b, n - 1);
    }
  }

  lemma GreedyGrows(g: Grid, taken: set<Cell>, rects: seq<Rect>, rc: Rect)
    requires IsGreedy(g, taken, rects) && IsLargestAtFirst(g, taken + CellsOf(rects, |rects|), rc)
    ensures IsGreedy(g, taken, rects + [rc])
    ensures taken + CellsOf(rects + [rc], |rects| + 1) == taken + CellsOf(rects, |rects|) + RectCells(rc)
  {
    hide IsLargestAtFirst, RectCells, CellsOf;
    var r := rects + [rc];
    forall i | 0 <= i < |r| ensures IsLargestAtFirst(g, taken + CellsOf(r, i), r[i]) {
      CellsOfPrefix(rects, r, i);
    }
    CellsOfPrefix(rects, r, |rects|);
    CellsOfStep(r, |rects|);
  }

  lemma CellsOfStep(rects: seq<Rect>, n: nat)
    requires n < |rects|
    ensures CellsOf(rects, n + 1) == CellsOf(rects, n) + RectCells(rects[n])
  {
    hide RectCells;
  }

  lemma NoGreed(g: Grid, taken: set<Cell>)
    ensures IsGreedy(g, taken, []) && taken + CellsOf([], 0) == taken
  {}

  function SpacerId(s: nat, cell: Cell): string {
    if cell.col < 0 || cell.row < 0 then ""
    else "auto-spacer-" + Text.Decimal(s) + "-" + Text.Decimal(cell.col) + "-" + Text.Decimal(cell.row)
  }

  function Spacer(s: nat, rc: Rect): PlacedWidget {
    PlacedWidget(SpacerId(s, Cell(rc.col, rc.row)), "spacer", rc.col, rc.row, DimensionOf(rc), false)
  }

  function SpacersOf(s: nat, rects: seq<Rect>): (r: seq<PlacedWidget>)
    ensures |r| == |rects| && forall i :: 0 <= i < |rects| ==> r[i] == Spacer(s, rects[i])
  {
    seq(|rects|, i requires 0 <= i < |rects| => Spacer(s, rects[i]))
  }

  function SpotsOn(s: int, rects: seq<Rect>): (r: seq<Spot>)
    ensures |r| == |rects| && forall i :: 0 <= i < |rects| ==> r[i] == On(s, rects[i])
  {
    seq(|rects|, i requires 0 <= i < |rects| => On(s, rects[i]))
  }

  /** Fills a screen with spacers: the loop ends, the screen is full, and nothing clashes. */
  method FillRemainingWithSpacers(g: Grid, s: nat, board: Board, ghost spots: seq<Spot>)
    returns (spacers: seq<PlacedWidget>, filled: Board, ghost rects: seq<Rect>)
    requires Supported(g) && s < |board| && OnBoard(g, board, spots)
    ensures |filled| == |board| && filled[s] == AllCells(g)
    ensures forall t :: 0 <= t < |board| && t != s ==> filled[t] == board[t]
    ensures spacers == SpacersOf(s, rects) && OnBoard(g, filled, spots + SpotsOn(s, rects))
    ensures IsGreedy(g, board[s], rects)
  {
    hide OnBoard, RectCells, AllCells, IsGreedy, CellsOf, IsFirstFree, IsFree, IsBetterSpacer;
    filled, spacers, rects := board, [], [];
    NoGreed(g, board[s]);
    assert spots + SpotsOn(s, rects) == spots;
    while filled[s] != AllCells(g)
      invariant |filled| == |board| && OnBoard(g, filled, spots + SpotsOn(s, rects))
      invariant forall t :: 0 <= t < |board| && t != s ==> filled[t] == board[t]
      invariant spacers == SpacersOf(s, rects)
      invariant IsGreedy(g, board[s], rects) && filled[s] == board[s] + CellsOf(rects, |rects|)
      decreases |AllCells(g) - filled[s]|
    {
      WithinScreen(g, filled, spots + SpotsOn(s, rects), s);
      var cell := FirstFree(g, filled[s]);
      FirstIsFree(g, filled[s], cell);
      var dim := LargestSpacerAt(g, filled[s], cell);
      var rc := Rect(cell.col, cell.row, dim.cols, dim.rows);
      FreeIsDisjoint(filled[s], rc);
      GreedyGrows(g, board[s], rects, rc);
      PutKeepsOnBoard(g, filled, spots + SpotsOn(s, rects), On(s, rc));
      assert spots + SpotsOn(s, rects) + [On(s, rc)] == spots + SpotsOn(s, rects + [rc]);
      assert SpacersOf(s, rects + [rc]) == SpacersOf(s, rects) + [Spacer(s, rc)];
      CellTaken(g, filled[s], rc, cell);
      var next := filled[s := filled[s] + RectCells(rc)];
      assert next == Put(filled, On(s, rc));
      filled, spacers, rects := next, spacers + [Spacer(s, rc)], rects + [rc];
    }
  }

  lemma FirstIsFree(g: Grid, taken: set<Cell>, cell: Cell)
    requires IsFirstFree(g, taken, cell)
    ensures cell in AllCells(g) && cell !in taken
  {}

  lemma FreeIsDisjoint(taken: set<Cell>, rc: Rect)
    ensures IsFree(taken, Cell(rc.col, rc.row), rc.cols, rc.rows) <==> taken !! RectCells(rc)
  {}

  lemma WithinScreen(g: Grid, board: Board, spots: seq<Spot>, s: nat)
    requires OnBoard(g, board, spots) && s < |board|
    ensures board[s] <= AllCells(g)
  {}

  lemma CellTaken(g: Grid, taken: set<Cell>, rc: Rect, cell: Cell)
    requires InBounds(g, rc) && cell == Cell(rc.col, rc.row) && cell !in taken
    ensures |AllCells(g) - (taken + RectCells(rc))| < |AllCells(g) - taken|
  {
    assert cell in AllCells(g) - taken && cell !in AllCells(g) - (taken + RectCells(rc));
    assert AllCells(g) - (taken + RectCells(rc)) < AllCells(g) - taken;
    SubsetSize(AllCells(g) - (taken + RectCells(rc)), AllCells(g) - taken);
  }

  // ----- placing the widgets

  function MapSpot(p: ExplicitPlacement, screenMap: map<int, int>): Spot
    requires p.pinned || p.screen in screenMap
  {
    if p.pinned then Pinned(RectOf(p)) else On(screenMap[p.screen], RectOf(p))
  }

  /** Every unpinned placement has a screen below k, and different screens stay different. */
  predicate Maps(ps: seq<ExplicitPlacement>, screenMap: map<int, int>, k: int) {
    && (forall i :: 0 <= i < |ps| ==> ps[i].pinned || (ps[i].screen in screenMap && 0 <= screenMap[ps[i].screen] < k))
    && (forall x, y :: x in screenMap && y in screenMap && x != y ==> screenMap[x] != screenMap[y])
  }

  function MapSpots(ps: seq<ExplicitPlacement>, screenMap: map<int, int>, k: int): (r: seq<Spot>)
    requires Maps(ps, screenMap, k)
    ensures |r| == |ps| && forall i :: 0 <= i < |ps| ==> r[i] == MapSpot(ps[i], screenMap)
  {
    seq(|ps|, i requires 0 <= i < |ps| => MapSpot(ps[i], screenMap))
  }

  function AsPlacedWidget(p: ExplicitPlacement): PlacedWidget {
    PlacedWidget(p.id, p.kind, p.col, p.row, p.dims, p.pinned)
  }

  /** The pinned (or unpinned) ones of the first n placements that screen s shows, in order. */
  function ShownUpTo(ps: seq<ExplicitPlacement>, n: nat, screenMap: map<int, int>, pinned: bool, s: int): seq<PlacedWidget>
    requires n <= |ps| && forall i :: 0 <= i < |ps| ==> ps[i].pinned || ps[i].screen in screenMap
  {
    if n == 0 then []
    else
      ShownUpTo(ps, n - 1, screenMap, pinned, s)
      + if ps[n - 1].pinned == pinned && Shows(MapSpot(ps[n - 1], screenMap), s) then [AsPlacedWidget(ps[n - 1])] else []
  }

  predicate InRange(idx: seq<int>, n: int) {
    forall x :: 0 <= x < |idx| ==> 0 <= idx[x] < n
  }

  /** The spots at the given indices, in that order. */
  function SpotsAt(spots: seq<Spot>, idx: seq<int>): (r: seq<Spot>)
    requires InRange(idx, |spots|)
    ensures |r| == |idx| && forall x :: 0 <= x < |idx| ==> r[x] == spots[idx[x]]
  {
    seq(|idx|, x requires 0 <= x < |idx| => spots[idx[x]])
  }

  /** Which placements have been processed: distinct indices, and exactly the wanted ones. */
  ghost predicate Processed(ps: seq<ExplicitPlacement>, idx: seq<int>, i: int, pinnedDone: bool) {
    && InRange(idx, |ps|)
    && (forall x, y :: 0 <= x < y < |idx| ==> idx[x] != idx[y])
    && (forall j :: j in idx <==> 0 <= j < |ps| && if pinnedDone then ps[j].pinned || j < i else ps[j].pinned && j < i)
  }

  lemma ProcessedStep(ps: seq<ExplicitPlacement>, idx: seq<int>, i: int, pinnedDone: bool)
    requires Processed(ps, idx, i, pinnedDone) && 0 <= i < |ps|
    ensures ps[i].pinned == !pinnedDone ==> i !in idx && Processed(ps, idx + [i], i + 1, pinnedDone)
    ensures ps[i].pinned == pinnedDone ==> Processed(ps, idx, i + 1, pinnedDone)
  {}

  lemma ClashSurvivesMapping(ps: seq<ExplicitPlacement>, screenMap: map<int, int>, k: int, i: int, j: int)
    requires Maps(ps, screenMap, k) && 0 <= i < |ps| && 0 <= j < |ps|
    ensures Clash(MapSpots(ps, screenMap, k)[i], MapSpots(ps, screenMap, k)[j]) <==> Clash(SpotOf(ps[i]), SpotOf(ps[j]))
  {}

  lemma OverlapFound(g: Grid, ps: seq<ExplicitPlacement>, screenMap: map<int, int>, board: Board, idx: seq<int>, i: int, pinnedDone: bool)
    requires GoodPrefix(g, ps, |ps|) && Maps(ps, screenMap, |board|) && 0 <= i < |ps|
    requires Processed(ps, idx, i, pinnedDone) && i !in idx
    requires OnBoard(g, board, SpotsAt(MapSpots(ps, screenMap, |board|), idx))
    requires !Free(board, MapSpot(ps[i], screenMap))
    ensures OverlapsAnother(ps, i)
  {
    hide Text.Trim, Clash, RectCells, MapSpot, Free, SpotOf, Covered;
    var spots := MapSpots(ps, screenMap, |board|);
    LegalPlacement(g, ps, screenMap, |board|, i);
    FreeIffNoClash(g, board, SpotsAt(spots, idx), spots[i]);
    var x :| 0 <= x < |idx| && Clash(SpotsAt(spots, idx)[x], spots[i]);
    var j := idx[x];
    assert j in idx;
    ClashSurvivesMapping(ps, screenMap, |board|, j, i);
    ClashIsSymmetric(SpotOf(ps[i]), SpotOf(ps[j]));
    assert Clash(SpotOf(ps[i]), SpotOf(ps[j]));
  }

  lemma NoOverlapFound(g: Grid, ps: seq<ExplicitPlacement>, screenMap: map<int, int>, board: Board, idx: seq<int>)
    requires GoodPrefix(g, ps, |ps|) && Maps(ps, screenMap, |board|)
    requires Processed(ps, idx, |ps|, true)
    requires OnBoard(g, board, SpotsAt(MapSpots(ps, screenMap, |board|), idx))
    ensures !Overlapping(ps) && OnBoard(g, board, MapSpots(ps, screenMap, |board|))
  {
    hide Text.Trim, RectCells, AllCells;
    var spots := MapSpots(ps, screenMap, |board|);
    var placed := SpotsAt(spots, idx);
    forall i, j | 0 <= i < j < |ps| ensures !Clash(spots[i], spots[j]) && !Clash(SpotOf(ps[i]), SpotOf(ps[j])) {
      assert i in idx && j in idx;
      var x :| 0 <= x < |idx| && idx[x] == i;
      var y :| 0 <= y < |idx| && idx[y] == j;
      assert placed[x] == spots[i] && placed[y] == spots[j];
      ClashIsSymmetric(spots[i], spots[j]);
      assert x < y ==> !Clash(placed[x], placed[y]);
      assert y < x ==> !Clash(placed[y], placed[x]);
      ClashSurvivesMapping(ps, screenMap, |board|, i, j);
    }
    forall i | 0 <= i < |ps| ensures Legal(g, |board|, spots[i]) {
      assert GoodPlacement(g, ps[i]);
    }
    forall sp ensures sp in spots <==> sp in placed {
      if i :| 0 <= i < |spots| && spots[i] == sp {
        assert i in idx;
        var x :| 0 <= x < |idx| && idx[x] == i;
        assert placed[x] == sp;
      }
    }
    forall s | 0 <= s < |board| ensures board[s] == Covered(spots, s) {
      CoveredByMembers(spots, placed, s);
    }
  }

  lemma ClashIsSymmetric(a: Spot, b: Spot)
    ensures Clash(a, b) <==> Clash(b, a)
  {}

  /** One sweep over the placements that places the pinned (or the unpinned) ones. */
  method PlaceSweep(g: Grid, ps: seq<ExplicitPlacement>, screenMap: map<int, int>, pinned: bool, start: Board,
                    shown: seq<seq<PlacedWidget>>, ghost before: seq<int>)
    returns (r: Result<Board>, widgets: seq<seq<PlacedWidget>>, ghost idx: seq<int>)
    requires GoodPrefix(g, ps, |ps|) && Maps(ps, screenMap, |start|) && |shown| == |start|
    requires Processed(ps, before, 0, !pinned)
    requires OnBoard(g, start, SpotsAt(MapSpots(ps, screenMap, |start|), before))
    ensures r.Err? ==> r.error.Overlap? && OverlapsAnother(ps, r.error.index)
    ensures r.Ok? ==>
              && |r.value| == |start| == |widgets| && Processed(ps, idx, |ps|, !pinned)
              && OnBoard(g, r.value, SpotsAt(MapSpots(ps, screenMap, |start|), idx))
              && Lists(widgets, shown, ps, |ps|, screenMap, pinned)
  {
    hide Text.Trim, OverlapsAnother, GoodPrefix, Swept, Processed, OnBoard, MapSpots, MapSpot, Maps, Lists, SpotsAt, Free, Put;
    var board := start;
    widgets, idx := shown, before;
    SweepStart(g, ps, screenMap, pinned, start, shown, before);
    MapsScreens(ps, screenMap, |start|);
    for i := 0 to |ps|
      invariant |board| == |start| && Swept(g, ps, screenMap, pinned, shown, board, widgets, idx, i)
    {
      var p := ps[i];
      if p.pinned == pinned {
        var sp := MapSpot(p, screenMap);
        if !Free(board, sp) {
          SweepBlocked(g, ps, screenMap, pinned, shown, board, widgets, idx, i);
          return Err(Overlap(i)), widgets, idx;
        }
        SweepPlaces(g, ps, screenMap, pinned, shown, board, widgets, idx, i);
        board := Put(board, sp);
        widgets := Append(widgets, sp, AsPlacedWidget(p));
        idx := idx + [i];
      } else {
        SweepSkips(g, ps, screenMap, pinned, shown, board, widgets, idx, i);
      }
    }
    SweepEnd(g, ps, screenMap, pinned, shown, board, widgets, idx);
    return Ok(board), widgets, idx;
  }

  /** The sweep has handled the first i placements. */
  ghost predicate Swept(g: Grid, ps: seq<ExplicitPlacement>, screenMap: map<int, int>, pinned: bool, shown: seq<seq<PlacedWidget>>,
                        board: Board, widgets: seq<seq<PlacedWidget>>, idx: seq<int>, i: nat)
  {
    && i <= |ps| && GoodPrefix(g, ps, |ps|) && Maps(ps, screenMap, |board|) && |board| == |shown|
    && Processed(ps, idx, i, !pinned) && OnBoard(g, board, SpotsAt(MapSpots(ps, screenMap, |board|), idx))
    && Lists(widgets, shown, ps, i, screenMap, pinned)
  }

  lemma SweepStart(g: Grid, ps: seq<ExplicitPlacement>, screenMap: map<int, int>, pinned: bool, start: Board,
                   shown: seq<seq<PlacedWidget>>, before: seq<int>)
    requires GoodPrefix(g, ps, |ps|) && Maps(ps, screenMap, |start|) && |shown| == |start|
    requires Processed(ps, before, 0, !pinned)
    requires OnBoard(g, start, SpotsAt(MapSpots(ps, screenMap, |start|), before))
    ensures Swept(g, ps, screenMap, pinned, shown, start, shown, before, 0)
  {
    hide GoodPrefix, Processed, OnBoard, MapSpots, SpotsAt, Lists;
    MapsScreens(ps, screenMap, |start|);
    NothingListed(shown, ps, screenMap, pinned);
  }

  lemma SweepSkips(g: Grid, ps: seq<ExplicitPlacement>, screenMap: map<int, int>, pinned: bool, shown: seq<seq<PlacedWidget>>,
                   board: Board, widgets: seq<seq<PlacedWidget>>, idx: seq<int>, i: nat)
    requires Swept(g, ps, screenMap, pinned, shown, board, widgets, idx, i) && i < |ps| && ps[i].pinned != pinned
    ensures Swept(g, ps, screenMap, pinned, shown, board, widgets, idx, i + 1)
  {
    hide GoodPrefix, Processed, OnBoard, MapSpots, SpotsAt, Lists;
    MapsScreens(ps, screenMap, |board|);
    ProcessedStep(ps, idx, i, !pinned);
    ListStep(widgets, shown, ps, i, screenMap, pinned);
  }

  lemma SweepPlaces(g: Grid, ps: seq<ExplicitPlacement>, screenMap: map<int, int>, pinned: bool, shown: seq<seq<PlacedWidget>>,
                    board: Board, widgets: seq<seq<PlacedWidget>>, idx: seq<int>, i: nat)
    requires Swept(g, ps, screenMap, pinned, shown, board, widgets, idx, i) && i < |ps| && ps[i].pinned == pinned
    requires (ps[i].pinned || ps[i].screen in screenMap) && Free(board, MapSpot(ps[i], screenMap))
    ensures Swept(g, ps, screenMap, pinned, shown, Put(board, MapSpot(ps[i], screenMap)),
                  Append(widgets, MapSpot(ps[i], screenMap), AsPlacedWidget(ps[i])), idx + [i], i + 1)
  {
    hide GoodPrefix, OnBoard, MapSpots, SpotsAt, Lists, Maps, MapSpot, Free, RectCells;
    MapsScreens(ps, screenMap, |board|);
    ProcessedStep(ps, idx, i, !pinned);
    ListStep(widgets, shown, ps, i, screenMap, pinned);
    LegalPlacement(g, ps, screenMap, |board|, i);
    SpotsStep(ps, screenMap, |board|, idx, i);
    PutKeepsOnBoard(g, board, SpotsAt(MapSpots(ps, screenMap, |board|), idx), MapSpot(ps[i], screenMap));
  }

  lemma SweepBlocked(g: Grid, ps: seq<ExplicitPlacement>, screenMap: map<int, int>, pinned: bool, shown: seq<seq<PlacedWidget>>,
                     board: Board, widgets: seq<seq<PlacedWidget>>, idx: seq<int>, i: nat)
    requires Swept(g, ps, screenMap, pinned, shown, board, widgets, idx, i) && i < |ps| && ps[i].pinned == pinned
    requires (ps[i].pinned || ps[i].screen in screenMap) && !Free(board, MapSpot(ps[i], screenMap))
    ensures OverlapsAnother(ps, i)
  {
    hide GoodPrefix, Processed, OnBoard, MapSpots, SpotsAt, Lists, Maps, MapSpot, Free, OverlapsAnother;
    ProcessedStep(ps, idx, i, !pinned);
    OverlapFound(g, ps, screenMap, board, idx, i, !pinned);
  }

  lemma SweepEnd(g: Grid, ps: seq<ExplicitPlacement>, screenMap: map<int, int>, pinned: bool, shown: seq<seq<PlacedWidget>>,
                 board: Board, widgets: seq<seq<PlacedWidget>>, idx: seq<int>)
    requires Swept(g, ps, screenMap, pinned, shown, board, widgets, idx, |ps|)
    ensures Processed(ps, idx, |ps|, !pinned) && Maps(ps, screenMap, |board|) && InRange(idx, |ps|)
    ensures OnBoard(g, board, SpotsAt(MapSpots(ps, screenMap, |board|), idx))
    ensures (forall i :: 0 <= i < |ps| ==> ps[i].pinned || ps[i].screen in screenMap) && Lists(widgets, shown, ps, |ps|, screenMap, pinned)
    ensures |widgets| == |shown|
  {}

  /** Each screen lists what it showed before the sweep and what the sweep has placed on it so far. */
  ghost predicate Lists(widgets: seq<seq<PlacedWidget>>, shown: seq<seq<PlacedWidget>>, ps: seq<ExplicitPlacement>, n: nat,
                        screenMap: map<int, int>, pinned: bool)
    requires n <= |ps| && forall i :: 0 <= i < |ps| ==> ps[i].pinned || ps[i].screen in screenMap
  {
    |widgets| == |shown| && forall s :: 0 <= s < |shown| ==> widgets[s] == shown[s] + ShownUpTo(ps, n, screenMap, pinned, s)
  }

  lemma NothingListed(shown: seq<seq<PlacedWidget>>, ps: seq<ExplicitPlacement>, screenMap: map<int, int>, pinned: bool)
    requires forall i :: 0 <= i < |ps| ==> ps[i].pinned || ps[i].screen in screenMap
    ensures Lists(shown, shown, ps, 0, screenMap, pinned)
  {}

  lemma ListStep(widgets: seq<seq<PlacedWidget>>, shown: seq<seq<PlacedWidget>>, ps: seq<ExplicitPlacement>, i: nat,
                 screenMap: map<int, int>, pinned: bool)
    requires i < |ps| && forall i :: 0 <= i < |ps| ==> ps[i].pinned || ps[i].screen in screenMap
    requires Lists(widgets, shown, ps, i, screenMap, pinned)
    ensures Lists(if ps[i].pinned == pinned then Append(widgets, MapSpot(ps[i], screenMap), AsPlacedWidget(ps[i])) else widgets,
                  shown, ps, i + 1, screenMap, pinned)
  {
    hide MapSpot, AsPlacedWidget;
    forall s | 0 <= s < |shown|
      ensures ShownUpTo(ps, i + 1, screenMap, pinned, s) ==
                ShownUpTo(ps, i, screenMap, pinned, s)
                + if ps[i].pinned == pinned && Shows(MapSpot(ps[i], screenMap), s) then [AsPlacedWidget(ps[i])] else [] {
    }
  }

  lemma SpotsStep(ps: seq<ExplicitPlacement>, screenMap: map<int, int>, k: int, idx: seq<int>, i: int)
    requires Maps(ps, screenMap, k) && InRange(idx, |ps|) && 0 <= i < |ps|
    ensures InRange(idx + [i], |ps|) && |MapSpots(ps, screenMap, k)| == |ps|
    ensures SpotsAt(MapSpots(ps, screenMap, k), idx + [i]) == SpotsAt(MapSpots(ps, screenMap, k), idx) + [MapSpot(ps[i], screenMap)]
  {
    hide MapSpot;
  }

  function Append(widgets: seq<seq<PlacedWidget>>, sp: Spot, pw: PlacedWidget): (r: seq<seq<PlacedWidget>>)
    ensures |r| == |widgets|
    ensures forall s :: 0 <= s < |widgets| ==> r[s] == if Shows(sp, s) then widgets[s] + [pw] else widgets[s]
  {
    seq(|widgets|, s requires 0 <= s < |widgets| => if Shows(sp, s) then widgets[s] + [pw] else widgets[s])
  }

  lemma LegalPlacement(g: Grid, ps: seq<ExplicitPlacement>, screenMap: map<int, int>, k: int, i: int)
    requires GoodPrefix(g, ps, |ps|) && Maps(ps, screenMap, k) && 0 <= i < |ps|
    ensures Legal(g, k, MapSpot(ps[i], screenMap))
  {
    assert GoodPlacement(g, ps[i]);
  }

  // ----- the whole placer

  /** The spacer spots of the first n screens. */
  function FillerSpots(rects: seq<seq<Rect>>, n: nat): seq<Spot>
    requires n <= |rects|
  {
    if n == 0 then [] else FillerSpots(rects, n - 1) + SpotsOn(n - 1, rects[n - 1])
  }

  function FillerWidgets(rects: seq<seq<Rect>>, n: nat): seq<PlacedWidget>
    requires n <= |rects|
  {
    if n == 0 then [] else FillerWidgets(rects, n - 1) + SpacersOf(n - 1, rects[n - 1])
  }

  lemma {:induction false} FillerPrefix(a: seq<seq<Rect>>, b: seq<seq<Rect>>, n: nat)
    requires n <= |a| && n <= |b| && forall s :: 0 <= s < n ==> a[s] == b[s]
    ensures FillerSpots(a, n) == FillerSpots(b, n) && FillerWidgets(a, n) == FillerWidgets(b, n)
  {
    if n > 0 {
      FillerPrefix(a, b, n - 1);
    }
  }

  predicate UsesScreen(ps: seq<ExplicitPlacement>, x: int) {
    exists i :: 0 <= i < |ps| && !ps[i].pinned && ps[i].screen == x
  }

  /** What screen s of the result shows: the user's widgets where the user put them, and spacers. */
  function ScreenOf(g: Grid, ps: seq<ExplicitPlacement>, screenMap: map<int, int>, s: nat, rects: seq<Rect>): Screen
    requires forall i :: 0 <= i < |ps| ==> ps[i].pinned || ps[i].screen in screenMap
  {
    Screen(s, AllCells(g),
           Sort(ShownUpTo(ps, |ps|, screenMap, true, s) + ShownUpTo(ps, |ps|, screenMap, false, s) + SpacersOf(s, rects), ReadsBefore))
  }

  /** The layout keeps every user origin, numbers the used screens densely in order, and tiles
      every screen with user widgets and spacers. */
  ghost predicate IsExplicitLayout(g: Grid, ps: seq<ExplicitPlacement>, layout: Layout, spacers: seq<PlacedWidget>,
                                   used: seq<int>, screenMap: map<int, int>, rects: seq<seq<Rect>>)
  {
    var k := |layout.screens|;
    && Increasing(used) && (forall x :: x in used <==> UsesScreen(ps, x))
    && k == layout.totalScreens == |rects| == (if |used| > 1 then |used| else 1)
    && (forall x :: x in screenMap <==> x in used) && (forall i :: 0 <= i < |used| ==> screenMap[used[i]] == i)
    && Maps(ps, screenMap, k)
    && Tiled(g, k, MapSpots(ps, screenMap, k) + FillerSpots(rects, k))
    && spacers == FillerWidgets(rects, k)
    && (forall s :: 0 <= s < k ==> IsGreedy(g, Covered(MapSpots(ps, screenMap, k), s), rects[s]))
    && forall s :: 0 <= s < k ==> layout.screens[s] == ScreenOf(g, ps, screenMap, s, rects[s])
  }

  lemma CompactMaps(ps: seq<ExplicitPlacement>, screens: seq<int>, used: seq<int>, screenMap: map<int, int>, k: int)
    requires Compacts(used, screens, screenMap) && k == if |used| > 1 then |used| else 1
    requires forall x :: x in screens <==> UsesScreen(ps, x)
    ensures Maps(ps, screenMap, k)
  {
    forall i | 0 <= i < |ps| && !ps[i].pinned ensures ps[i].screen in screenMap && 0 <= screenMap[ps[i].screen] < k {
      assert UsesScreen(ps, ps[i].screen);
      var j :| 0 <= j < |used| && used[j] == ps[i].screen;
    }
    forall x, y | x in screenMap && y in screenMap && x != y ensures screenMap[x] != screenMap[y] {
      var i :| 0 <= i < |used| && used[i] == x;
      var j :| 0 <= j < |used| && used[j] == y;
      assert screenMap[used[i]] == i && screenMap[used[j]] == j;
    }
  }

  lemma EmptyStart(g: Grid, ps: seq<ExplicitPlacement>, screenMap: map<int, int>, k: nat)
    requires Maps(ps, screenMap, k) && k >= 1
    ensures Processed(ps, [], 0, false) && OnBoard(g, EmptyBoard(k), SpotsAt(MapSpots(ps, screenMap, k), []))
  {}

  lemma AllPinnedDone(ps: seq<ExplicitPlacement>, idx: seq<int>)
    requires Processed(ps, idx, |ps|, false)
    ensures Processed(ps, idx, 0, true)
  {}

  lemma FullOnBoardIsTiled(g: Grid, board: Board, spots: seq<Spot>)
    requires OnBoard(g, board, spots) && Full(g, board)
    ensures Tiled(g, |board|, spots)
  {}

  /** Places the validated widgets on k screens, or reports an overlap. */
  method PlaceExplicitWidgets(g: Grid, ps: seq<ExplicitPlacement>, k: nat, screenMap: map<int, int>)
    returns (r: Result<(Board, seq<seq<PlacedWidget>>)>)
    requires Supported(g) && k >= 1 && GoodPrefix(g, ps, |ps|) && Maps(ps, screenMap, k)
    ensures r.Ok? <==> !Overlapping(ps)
    ensures r.Err? ==> r.error.Overlap? && OverlapsAnother(ps, r.error.index)
    ensures r.Ok? ==>
              && |r.value.0| == k == |r.value.1| && OnBoard(g, r.value.0, MapSpots(ps, screenMap, k))
              && forall s :: 0 <= s < k ==>
                   r.value.1[s] == ShownUpTo(ps, |ps|, screenMap, true, s) + ShownUpTo(ps, |ps|, screenMap, false, s)
  {
    hide Text.Trim, OnBoard, Overlapping, OverlapsAnother, GoodPrefix, Processed, ShownUpTo, MapSpots;
    EmptyStart(g, ps, screenMap, k);
    var none: seq<seq<PlacedWidget>> := seq(k, s => []);
    var first, shown, idx := PlaceSweep(g, ps, screenMap, true, EmptyBoard(k), none, []);
    if first.Err? {
      OverlapsAnotherOverlaps(ps, first.error.index);
      return Err(first.error);
    }
    AllPinnedDone(ps, idx);
    var second, widgets, all := PlaceSweep(g, ps, screenMap, false, first.value, shown, idx);
    if second.Err? {
      OverlapsAnotherOverlaps(ps, second.error.index);
      return Err(second.error);
    }
    NoOverlapFound(g, ps, screenMap, second.value, all);
    return Ok((second.value, widgets));
  }

  method SolveExplicit(ps: seq<ExplicitPlacement>, gridCols: int, gridRows: int)
    returns (r: Result<(Layout, seq<PlacedWidget>)>, ghost used: seq<int>, ghost screenMap: map<int, int>, ghost rects: seq<seq<Rect>>)
    ensures r.Ok? <==> Acceptable(NormalizeGrid(gridCols, gridRows), ps)
    ensures r.Err? ==> Explains(NormalizeGrid(gridCols, gridRows), ps, r.error)
    ensures r.Ok? ==>
              IsExplicitLayout(NormalizeGrid(gridCols, gridRows), ps, r.value.0, r.value.1, used, screenMap, rects)
  {
    hide Text.Trim, OnBoard, Overlapping, OverlapsAnother, GoodPrefix, ShownUpTo, MapSpots, Tiled, UsesScreen, Increasing, Maps, ScreenOf,
      FillerSpots, FillerWidgets, IsGreedy, Covered;
    var g := NormalizeGrid(gridCols, gridRows);
    used, screenMap, rects := [], map[], [];
    var valid := ValidateExplicitPlacements(g, ps);
    if valid.Err? {
      return Err(valid.error), used, screenMap, rects;
    }
    UsedScreens(ps, valid.value);
    var k, sm, us := CompactScreenIndices(valid.value);
    used, screenMap := us, sm;
    CompactMaps(ps, valid.value, us, sm, k);
    MapsScreens(ps, sm, k);
    var placed := PlaceExplicitWidgets(g, ps, k, sm);
    if placed.Err? {
      return Err(placed.error), used, screenMap, rects;
    }
    var layout, spacers, rs := FillScreens(g, ps, k, sm, placed.value.0, placed.value.1);
    rects := rs;
    return Ok((layout, spacers)), used, screenMap, rects;
  }

  /** Fills every screen with spacers and collects the layout. */
  method FillScreens(g: Grid, ps: seq<ExplicitPlacement>, k: nat, screenMap: map<int, int>, start: Board, widgets: seq<seq<PlacedWidget>>)
    returns (layout: Layout, allSpacers: seq<PlacedWidget>, ghost rects: seq<seq<Rect>>)
    requires Supported(g) && k >= 1 && Maps(ps, screenMap, k) && |start| == k == |widgets|
    requires OnBoard(g, start, MapSpots(ps, screenMap, k))
    requires forall s :: 0 <= s < k ==>
               widgets[s] == ShownUpTo(ps, |ps|, screenMap, true, s) + ShownUpTo(ps, |ps|, screenMap, false, s)
    ensures |layout.screens| == layout.totalScreens == |rects| == k
    ensures Tiled(g, k, MapSpots(ps, screenMap, k) + FillerSpots(rects, k)) && allSpacers == FillerWidgets(rects, k)
    ensures forall s :: 0 <= s < k ==> layout.screens[s] == ScreenOf(g, ps, screenMap, s, rects[s])
    ensures forall s :: 0 <= s < k ==> IsGreedy(g, Covered(MapSpots(ps, screenMap, k), s), rects[s])
  {
    hide OnBoard, ShownUpTo, MapSpots, Tiled, Full, AllCells, Sort, Maps, FillerSpots, FillerWidgets, SpotsOn, SpacersOf, ScreenOf,
      IsGreedy, Covered;
    TracksUser(g, start, MapSpots(ps, screenMap, k));
    MapsScreens(ps, screenMap, k);
    NoFillers([]);
    var board, screens := start, [];
    allSpacers, rects := [], [];
    ghost var spots := MapSpots(ps, screenMap, k);
    assert spots + FillerSpots(rects, 0) == spots;
    for s := 0 to k
      invariant |board| == k && |rects| == |screens| == s
      invariant OnBoard(g, board, spots + FillerSpots(rects, s)) && allSpacers == FillerWidgets(rects, s)
      invariant forall t :: 0 <= t < s ==> board[t] == AllCells(g) && IsGreedy(g, Covered(spots, t), rects[t])
      invariant forall t :: s <= t < k ==> board[t] == start[t]
      invariant forall t :: 0 <= t < s ==> screens[t] == ScreenOf(g, ps, screenMap, t, rects[t])
    {
      var spacers, filled, rs := FillRemainingWithSpacers(g, s, board, spots + FillerSpots(rects, s));
      FillerStep(spots, rects, rs);
      ScreenIs(g, ps, screenMap, s, rs);
      board, allSpacers, rects := filled, allSpacers + spacers, rects + [rs];
      screens := screens + [Screen(s, board[s], Sort(widgets[s] + spacers, ReadsBefore))];
    }
    FullFromScreens(g, board);
    FullOnBoardIsTiled(g, board, spots + FillerSpots(rects, k));
    layout := Layout(k, screens);
  }

  lemma TracksUser(g: Grid, board: Board, spots: seq<Spot>)
    requires OnBoard(g, board, spots)
    ensures forall s :: 0 <= s < |board| ==> board[s] == Covered(spots, s)
  {}

  lemma NoFillers(rects: seq<seq<Rect>>)
    ensures FillerSpots(rects, 0) == [] && FillerWidgets(rects, 0) == []
  {}

  lemma FillerStep(spots: seq<Spot>, rects: seq<seq<Rect>>, rs: seq<Rect>)
    ensures spots + FillerSpots(rects + [rs], |rects| + 1) == spots + FillerSpots(rects, |rects|) + SpotsOn(|rects|, rs)
    ensures FillerWidgets(rects + [rs], |rects| + 1) == FillerWidgets(rects, |rects|) + SpacersOf(|rects|, rs)
  {
    hide SpotsOn, SpacersOf;
    FillerPrefix(rects, rects + [rs], |rects|);
  }

  lemma ScreenIs(g: Grid, ps: seq<ExplicitPlacement>, screenMap: map<int, int>, s: nat, rs: seq<Rect>)
    requires forall i :: 0 <= i < |ps| ==> ps[i].pinned || ps[i].screen in screenMap
    ensures ScreenOf(g, ps, screenMap, s, rs) ==
              Screen(s, AllCells(g), Sort(ShownUpTo(ps, |ps|, screenMap, true, s) + ShownUpTo(ps, |ps|, screenMap, false, s)
                                          + SpacersOf(s, rs), ReadsBefore))
  {}

  lemma FullFromScreens(g: Grid, board: Board)
    requires forall t :: 0 <= t < |board| ==> board[t] == AllCells(g)
    ensures Full(g, board)
  {}

  lemma UsedScreens(ps: seq<ExplicitPlacement>, screens: seq<int>)
    requires forall x :: x in screens <==> exists i :: 0 <= i < |ps| && !ps[i].pinned && ps[i].screen == x
    ensures forall x :: x in screens <==> UsesScreen(ps, x)
  {}

  lemma MapsScreens(ps: seq<ExplicitPlacement>, screenMap: map<int, int>, k: int)
    requires Maps(ps, screenMap, k)
    ensures forall i :: 0 <= i < |ps| ==> ps[i].pinned || ps[i].screen in screenMap
  {}
}
