/**
  The calendar's time axis: long stretches of free hours are collapsed to a fixed height, and minutes
  are mapped to percentages of the canvas. Times are real minutes; floating point is not modelled.
 */
module Timeline {

  const MIN_COLLAPSED_GAP_HOURS := 3
  /** A collapsed gap is as high as 0.65 hours. */
  const COMPRESSED_GAP_MINUTES: real := 39.0

  datatype Gap = Gap(startHour: int, endHour: int)

  datatype Band = Band(startHour: int, startMinute: int, endHour: int, endMinute: int, gaps: seq<Gap>)

  /** A band as clock times give it. */
  predicate WellFormed(b: Band) {
    0 <= b.startHour && 0 <= b.startMinute < 60 && 0 <= b.endMinute < 60
  }

  function StartTotal(b: Band): real {
    (b.startHour * 60 + b.startMinute) as real
  }

  function EndTotal(b: Band): real {
    (b.endHour * 60 + b.endMinute) as real
  }

  function Minutes(hour: int): real {
    (hour * 60) as real
  }

  // ----- collapsing free hours

  /** An event on one of the shown days, in minutes from that day's midnight. */
  datatype Span = Span(start: real, end: real)

  predicate Overlaps(s: Span, hour: int) {
    s.start < Minutes(hour + 1) && s.end > Minutes(hour)
  }

  predicate IsDuring(t: real, s: Span) {
    s.start <= t < s.end
  }

  predicate IsInHour(t: real, hour: int) {
    60.0 * hour as real <= t < 60.0 * hour as real + 60.0
  }

  /** An hour is taken by an event exactly when they share a moment. */
  lemma OverlapsIffShared(s: Span, hour: int)
    requires s.start < s.end
    ensures Overlaps(s, hour) <==> exists t :: IsDuring(t, s) && IsInHour(t, hour)
  {
    if Overlaps(s, hour) {
      var t := if s.start < Minutes(hour) then Minutes(hour) else s.start;
      assert IsDuring(t, s) && IsInHour(t, hour);
    }
  }

  predicate IsOccupied(spans: seq<Span>, hour: int) {
    exists i :: 0 <= i < |spans| && Overlaps(spans[i], hour)
  }

  method CollectOccupiedWeekHours(spans: seq<Span>, first: int, last: int) returns (occupied: set<int>)
    ensures forall h :: h in occupied <==> first <= h < last && IsOccupied(spans, h)
  {
    occupied := {};
    for i := 0 to |spans|
      invariant forall h :: h in occupied <==> first <= h < last && IsOccupied(spans[..i], h)
    {
      ghost var before := occupied;
      var h := first;
      while h < last
        invariant first <= h && (h <= last || h == first)
        invariant forall k :: k in occupied <==> k in before || (first <= k < h && Overlaps(spans[i], k))
      {
        if Overlaps(spans[i], h) {
          occupied := occupied + {h};
        }
        h := h + 1;
      }
      OccupiedOneMore(spans, i);
      forall k ensures k in occupied <==> first <= k < last && IsOccupied(spans[..i + 1], k) {
        assert k in before <==> first <= k < last && IsOccupied(spans[..i], k);
      }
    }
    assert spans[..|spans|] == spans;
  }

  lemma OccupiedOneMore(spans: seq<Span>, i: nat)
    requires i < |spans|
    ensures forall h :: IsOccupied(spans[..i + 1], h) <==> IsOccupied(spans[..i], h) || Overlaps(spans[i], h)
  {
    hide Overlaps;
    forall h ensures IsOccupied(spans[..i + 1], h) <==> IsOccupied(spans[..i], h) || Overlaps(spans[i], h) {
      var now, before := spans[..i + 1], spans[..i];
      assert forall k :: 0 <= k < i ==> now[k] == before[k];
      assert now[i] == spans[i];
    }
  }

  /** The first and the last occupied hour, or -1 if there is none. */
  method OccupiedHourBounds(occupied: set<int>, first: int, last: int) returns (lo: int, hi: int)
    requires 0 <= first && forall h :: h in occupied ==> first <= h < last
    ensures occupied == {} ==> lo == hi == -1
    ensures occupied != {} ==> lo in occupied && hi in occupied && forall h :: h in occupied ==> lo <= h <= hi
  {
    lo, hi := -1, -1;
    var h := first;
    while h < last
      invariant first <= h
      invariant lo == -1 <==> hi == -1
      invariant lo == -1 ==> forall k :: k in occupied ==> k >= h
      invariant lo != -1 ==> lo in occupied && hi in occupied && lo <= hi < h && forall k :: k in occupied && k < h ==> lo <= k <= hi
    {
      if h in occupied {
        if lo == -1 || h < lo {
          lo := h;
        }
        if hi == -1 || h > hi {
          hi := h;
        }
      }
      h := h + 1;
    }
    assert forall k :: k in occupied ==> k < h;
    if lo == -1 {
      assert forall k :: k !in occupied;
    }
  }

  predicate AllFree(occupied: set<int>, a: int, b: int) {
    forall h :: a <= h < b ==> h !in occupied
  }

  /** A longest stretch of free hours in [lo, hi), long enough to be collapsed. */
  predicate IsRun(occupied: set<int>, lo: int, hi: int, a: int, b: int) {
    && lo <= a && b <= hi && b - a >= MIN_COLLAPSED_GAP_HOURS && AllFree(occupied, a, b)
    && (a == lo || a - 1 in occupied) && (b == hi || b in occupied)
  }

  /** Gaps in order, with an hour between them. */
  predicate Ordered(gaps: seq<Gap>) {
    forall i, j :: 0 <= i < j < |gaps| ==> gaps[i].endHour < gaps[j].startHour
  }

  /** The gaps are exactly the runs that end before h. */
  ghost predicate Collected(gaps: seq<Gap>, occupied: set<int>, lo: int, hi: int, h: int) {
    && Ordered(gaps)
    && (forall i :: 0 <= i < |gaps| ==> gaps[i].endHour < h && IsRun(occupied, lo, hi, gaps[i].startHour, gaps[i].endHour))
    && (forall a, b :: IsRun(occupied, lo, hi, a, b) && b < h ==> Gap(a, b) in gaps)
  }

  /** The runs of free hours strictly between two hours, in order. */
  method BuildCollapsedHourGaps(occupied: set<int>, minOccupied: int, maxOccupied: int) returns (gaps: seq<Gap>)
    ensures Collected(gaps, occupied, minOccupied + 1, maxOccupied, maxOccupied + 1)
  {
    gaps := [];
    var lo, hi := minOccupied + 1, maxOccupied;
    var run: int := lo;
    var inRun := false;
    var h := lo;
    while h <= hi
      invariant lo <= h && (h <= hi + 1 || hi < lo)
      invariant Collected(gaps, occupied, lo, hi, h)
      invariant inRun ==> lo <= run < h <= hi && AllFree(occupied, run, h) && (run == lo || run - 1 in occupied)
      invariant inRun ==> forall i :: 0 <= i < |gaps| ==> gaps[i].endHour < run
      invariant !inRun ==> h == lo || h - 1 in occupied || h == hi + 1
    {
      if h !in occupied && h < hi {
        if !inRun {
          run, inRun := h, true;
        }
        h := h + 1;
        continue;
      }
      if inRun && h - run >= MIN_COLLAPSED_GAP_HOURS {
        gaps := gaps + [Gap(run, h)];
      }
      inRun := false;
      h := h + 1;
    }
  }

  /** A stretch of free hours between two occupied ones. */
  predicate FreeBetween(occupied: set<int>, a: int, b: int) {
    b - a >= 3 && AllFree(occupied, a, b) && a - 1 in occupied && b in occupied
  }

  /** The band's gaps are exactly the long free stretches between occupied hours, in order. */
  ghost predicate Collapses(gaps: seq<Gap>, occupied: set<int>) {
    Ordered(gaps) && forall a, b :: Gap(a, b) in gaps <==> FreeBetween(occupied, a, b)
  }

  function ScanEnd(b: Band): int {
    if b.endMinute > 0 && b.endHour < 24 then b.endHour + 1 else b.endHour
  }

  /** The band shows the hour at least in part; minutes after midnight are no hour of the day. */
  predicate ShowsHour(b: Band, h: int) {
    b.startHour <= h && h * 60 < b.endHour * 60 + b.endMinute && (h < 24 || h < b.endHour)
  }

  lemma ScanEndIsFirstHidden(b: Band, h: int)
    requires WellFormed(b)
    ensures b.startHour <= h < ScanEnd(b) <==> ShowsHour(b, h)
  {}

  /** The hours some event touches, among those the band shows at least in part. */
  ghost predicate Busy(occupied: set<int>, b: Band, spans: seq<Span>) {
    forall h :: h in occupied <==> ShowsHour(b, h) && IsOccupied(spans, h)
  }

  /** A band without gaps gets its collapsed gaps. */
  method ApplyCollapsedMiddayGaps(b: Band, spans: seq<Span>) returns (r: Band, ghost occupied: set<int>)
    requires WellFormed(b) && b.gaps == []
    ensures r == b.(gaps := r.gaps) && Busy(occupied, b, spans) && Collapses(r.gaps, occupied)
  {
    hide IsOccupied, FreeBetween, IsRun, ShowsHour;
    r := b;
    var hours := CollectOccupiedWeekHours(spans, b.startHour, ScanEnd(b));
    occupied := hours;
    forall h ensures b.startHour <= h < ScanEnd(b) <==> ShowsHour(b, h) {
      ScanEndIsFirstHidden(b, h);
    }
    var lo, hi := OccupiedHourBounds(hours, b.startHour, ScanEnd(b));
    var firstFullHour := if b.startMinute > 0 then b.startHour + 1 else b.startHour;
    var lastFullHour := b.endHour;
    FreeIsInside(hours, lo, hi);
    if spans == [] {
      NothingOccupied(hours, b.startHour, ScanEnd(b), spans);
      return;
    }
    if lastFullHour - firstFullHour < MIN_COLLAPSED_GAP_HOURS {
      return;
    }
    if lo == -1 || hi <= lo + MIN_COLLAPSED_GAP_HOURS {
      return;
    }
    var gapStart := if lo + 1 >= firstFullHour then lo + 1 else firstFullHour;
    var gapEnd := if hi <= lastFullHour then hi else lastFullHour;
    assert gapStart == lo + 1 && gapEnd == hi;
    if gapEnd - gapStart < MIN_COLLAPSED_GAP_HOURS {
      return;
    }
    var gaps := BuildCollapsedHourGaps(hours, gapStart - 1, gapEnd);
    RunsAreFree(hours, lo, hi);
    assert Collapses(gaps, hours);
    r := b.(gaps := gaps);
  }

  lemma NothingOccupied(occupied: set<int>, first: int, last: int, spans: seq<Span>)
    requires spans == [] && forall h :: h in occupied <==> first <= h < last && IsOccupied(spans, h)
    ensures occupied == {}
  {
    assert forall h :: h !in occupied;
  }

  /** Free stretches lie strictly between the first and the last occupied hour. */
  lemma FreeIsInside(occupied: set<int>, lo: int, hi: int)
    requires occupied == {} || (lo in occupied && hi in occupied && forall h :: h in occupied ==> lo <= h <= hi)
    ensures forall a, b :: FreeBetween(occupied, a, b) ==> occupied != {} && lo < a && b <= hi && b - a >= 3
  {}

  lemma RunsAreFree(occupied: set<int>, lo: int, hi: int)
    requires lo in occupied && hi in occupied && forall h :: h in occupied ==> lo <= h <= hi
    ensures forall a, b :: IsRun(occupied, lo + 1, hi, a, b) <==> FreeBetween(occupied, a, b)
  {}

  /** No event lies in a collapsed gap, and every gap lies inside the band. */
  lemma GapsAreFree(b: Band, spans: seq<Span>, occupied: set<int>, g: Gap, i: nat)
    requires WellFormed(b) && Busy(occupied, b, spans) && Collapses(b.gaps, occupied)
    requires g in b.gaps && i < |spans| && spans[i].start < spans[i].end
    ensures spans[i].end <= Minutes(g.startHour) || spans[i].start >= Minutes(g.endHour)
    ensures StartTotal(b) <= Minutes(g.startHour) < Minutes(g.endHour) <= EndTotal(b)
  {
    assert Gap(g.startHour, g.endHour) == g;
    assert FreeBetween(occupied, g.startHour, g.endHour);
    var s := spans[i];
    if s.end > Minutes(g.startHour) && s.start < Minutes(g.endHour) {
      var h := if s.start <= Minutes(g.startHour) then g.startHour else (s.start / 60.0).Floor;
      HourOf(s.start);
      assert Overlaps(s, h);
      assert IsOccupied(spans, h);
      assert false;
    }
  }

  lemma HourOf(x: real)
    ensures var h := (x / 60.0).Floor; Minutes(h) <= x < Minutes(h + 1)
  {
    var h := (x / 60.0).Floor;
    assert h as real <= x / 60.0 < (h + 1) as real;
    assert Minutes(h) == 60.0 * h as real && Minutes(h + 1) == 60.0 * (h + 1) as real;
    assert x == 60.0 * (x / 60.0);
  }

  // ----- minutes to percentages

  function Min(a: real, b: real): real {
    if a <= b then a else b
  }

  function Max(a: real, b: real): real {
    if a >= b then a else b
  }

  /** The minutes of [from, to] that have passed at m. */
  function Passed(m: real, from: real, to: real): real {
    if m > from && to > from then Min(m, to) - from else 0.0
  }

  /** The compressed minutes of a gap that have passed at m. */
  function PassedInGap(m: real, from: real, to: real): real
    requires to > from
  {
    if m > from then (Min(m, to) - from) / (to - from) * COMPRESSED_GAP_MINUTES else 0.0
  }

  /** The canvas minutes between cur and m, with the gaps compressed. */
  function Effective(m: real, cur: real, end: real, gaps: seq<Gap>): real
    decreases |gaps|
  {
    if gaps == [] then Passed(m, cur, end)
    else
      var from, to := Max(Minutes(gaps[0].startHour), cur), Min(Minutes(gaps[0].endHour), end);
      if to <= from then Effective(m, cur, end, gaps[1..])
      else Passed(m, cur, from) + PassedInGap(m, from, to) + Effective(m, to, end, gaps[1..])
  }

  /** The canvas minutes of the whole band. */
  function Total(cur: real, end: real, gaps: seq<Gap>): real
    decreases |gaps|
  {
    if gaps == [] then Max(end - cur, 0.0)
    else
      var from, to := Max(Minutes(gaps[0].startHour), cur), Min(Minutes(gaps[0].endHour), end);
      if to <= from then Total(cur, end, gaps[1..])
      else from - cur + COMPRESSED_GAP_MINUTES + Total(to, end, gaps[1..])
  }

  function Percent(m: real, b: Band): real {
    var start, end := StartTotal(b), EndTotal(b);
    if end <= start || m <= start then 0.0
    else if m >= end then 100.0
    else
      var total := Total(start, end, b.gaps);
      if total <= 0.0 then 0.0 else Effective(m, start, end, b.gaps) / total * 100.0
  }

  method MapMinutesToCanvasPct(mins: real, hours: Band) returns (pct: real)
    ensures pct == Percent(mins, hours)
  {
    hide PassedInGap;
    var startTotal := StartTotal(hours);
    var endTotal := EndTotal(hours);
    if endTotal <= startTotal {
      return 0.0;
    }
    if mins <= startTotal {
      return 0.0;
    }
    if mins >= endTotal {
      return 100.0;
    }
    if |hours.gaps| == 0 {
      return (mins - startTotal) / (endTotal - startTotal) * 100.0;
    }
    var totalEff, effAtMins, cur := 0.0, 0.0, startTotal;
    for i := 0 to |hours.gaps|
      invariant cur <= endTotal
      invariant totalEff + Total(cur, endTotal, hours.gaps[i..]) == Total(startTotal, endTotal, hours.gaps)
      invariant effAtMins + Effective(mins, cur, endTotal, hours.gaps[i..]) == Effective(mins, startTotal, endTotal, hours.gaps)
    {
      var g := hours.gaps[i];
      assert hours.gaps[i..][1..] == hours.gaps[i + 1..];
      var gStart := Max(Minutes(g.startHour), cur);
      var gEnd := Min(Minutes(g.endHour), endTotal);
      if gEnd <= gStart {
        continue;
      }
      if gStart > cur {
        var segment := gStart - cur;
        if mins > cur {
          effAtMins := effAtMins + (Min(mins, gStart) - cur);
        }
        totalEff := totalEff + segment;
      }
      GapStep(mins, gStart, gEnd);
      if mins > gStart {
        var inGap := Min(mins, gEnd) - gStart;
        effAtMins := effAtMins + inGap / (gEnd - gStart) * COMPRESSED_GAP_MINUTES;
      }
      totalEff := totalEff + COMPRESSED_GAP_MINUTES;
      cur := gEnd;
    }
    if endTotal > cur {
      var segment := endTotal - cur;
      if mins > cur {
        effAtMins := effAtMins + (Min(mins, endTotal) - cur);
      }
      totalEff := totalEff + segment;
    }
    if totalEff <= 0.0 {
      return 0.0;
    }
    return effAtMins / totalEff * 100.0;
  }

  lemma GapStep(m: real, from: real, to: real)
    requires to > from
    ensures PassedInGap(m, from, to) == if m > from then (Min(m, to) - from) / (to - from) * COMPRESSED_GAP_MINUTES else 0.0
  {}

  // ----- the map is strictly increasing

  lemma GapGrows(m1: real, m2: real, from: real, to: real)
    requires to > from && m1 < m2
    ensures 0.0 <= PassedInGap(m1, from, to) <= PassedInGap(m2, from, to) <= COMPRESSED_GAP_MINUTES
    ensures m2 > from && m1 < to ==> PassedInGap(m1, from, to) < PassedInGap(m2, from, to)
    ensures m1 >= to ==> PassedInGap(m1, from, to) == COMPRESSED_GAP_MINUTES
    ensures m1 <= from ==> PassedInGap(m1, from, to) == 0.0
  {
    var d := to - from;
    var a, b := Max(Min(m1, to) - from, 0.0), Max(Min(m2, to) - from, 0.0);
    assert 0.0 <= a <= b <= d;
    Divide(0.0, a, d);
    Divide(a, b, d);
    Divide(b, d, d);
  }

  lemma Divide(a: real, b: real, d: real)
    requires d > 0.0 && a <= b
    ensures a / d <= b / d && (a < b ==> a / d < b / d) && d / d == 1.0 && 0.0 / d == 0.0
  {}

  /** More time, more canvas: strictly more beyond cur. */
  lemma {:induction false} EffectiveGrows(m1: real, m2: real, cur: real, end: real, gaps: seq<Gap>)
    requires m1 < m2 <= end && cur <= end
    ensures Effective(m1, cur, end, gaps) <= Effective(m2, cur, end, gaps)
    ensures m2 > cur ==> Effective(m1, cur, end, gaps) < Effective(m2, cur, end, gaps)
    ensures m1 <= cur ==> Effective(m1, cur, end, gaps) == 0.0
    decreases |gaps|
  {
    hide PassedInGap;
    if gaps != [] {
      var from, to := Max(Minutes(gaps[0].startHour), cur), Min(Minutes(gaps[0].endHour), end);
      if to <= from {
        EffectiveGrows(m1, m2, cur, end, gaps[1..]);
      } else {
        GapGrows(m1, m2, from, to);
        EffectiveGrows(m1, m2, to, end, gaps[1..]);
      }
    }
  }

  lemma {:induction false} TotalIsEffectiveAtEnd(cur: real, end: real, gaps: seq<Gap>)
    requires cur <= end
    ensures Total(cur, end, gaps) == Effective(end, cur, end, gaps)
    decreases |gaps|
  {
    hide PassedInGap;
    if gaps != [] {
      var from, to := Max(Minutes(gaps[0].startHour), cur), Min(Minutes(gaps[0].endHour), end);
      if to <= from {
        TotalIsEffectiveAtEnd(cur, end, gaps[1..]);
      } else {
        GapGrows(end, end + 1.0, from, to);
        TotalIsEffectiveAtEnd(to, end, gaps[1..]);
      }
    }
  }

  /** Inside the band, the ends included, the percentage is the share of the canvas minutes. */
  lemma PercentIsShare(m: real, b: Band)
    requires StartTotal(b) <= m <= EndTotal(b) && StartTotal(b) < EndTotal(b)
    ensures Total(StartTotal(b), EndTotal(b), b.gaps) > 0.0
    ensures Percent(m, b) == Effective(m, StartTotal(b), EndTotal(b), b.gaps) / Total(StartTotal(b), EndTotal(b), b.gaps) * 100.0
  {
    hide Effective, Total;
    var start, end := StartTotal(b), EndTotal(b);
    EffectiveGrows(start, end, start, end, b.gaps);
    TotalIsEffectiveAtEnd(start, end, b.gaps);
    var total := Total(start, end, b.gaps);
    Divide(0.0, total, total);
    EffectiveGrows(start - 1.0, start, start, end, b.gaps);
  }

  /** The map runs from 0 to 100 and is strictly increasing inside the band, whatever the gaps are. */
  lemma PercentGrows(m1: real, m2: real, b: Band)
    requires StartTotal(b) <= m1 < m2 <= EndTotal(b)
    ensures 0.0 <= Percent(m1, b) < Percent(m2, b) <= 100.0
    ensures Percent(StartTotal(b), b) == 0.0 && Percent(EndTotal(b), b) == 100.0
  {
    hide Effective, Total, Percent;
    var start, end := StartTotal(b), EndTotal(b);
    var total := Total(start, end, b.gaps);
    PercentIsShare(m1, b);
    PercentIsShare(m2, b);
    EffectiveGrows(m1, m2, start, end, b.gaps);
    Divide(Effective(m1, start, end, b.gaps), Effective(m2, start, end, b.gaps), total);
    EffectiveGrows(start - 1.0, m1, start, end, b.gaps);
    EffectiveGrows(start - 1.0, start, start, end, b.gaps);
    Divide(0.0, Effective(m1, start, end, b.gaps), total);
    TotalIsEffectiveAtEnd(start, end, b.gaps);
    if m2 < end {
      EffectiveGrows(m2, end, start, end, b.gaps);
    }
    Divide(Effective(m2, start, end, b.gaps), total, total);
    PercentAtEnds(b);
  }

  lemma PercentAtEnds(b: Band)
    requires StartTotal(b) < EndTotal(b)
    ensures Percent(StartTotal(b), b) == 0.0 && Percent(EndTotal(b), b) == 100.0
  {}

  /** Times outside the band are put at its ends. */
  lemma PercentOutside(m: real, b: Band)
    ensures m <= StartTotal(b) || EndTotal(b) <= StartTotal(b) ==> Percent(m, b) == 0.0
    ensures StartTotal(b) < EndTotal(b) <= m ==> Percent(m, b) == 100.0
  {}

  // ----- heights

  /** Gaps in order inside [cur, end]. */
  predicate Fits(cur: real, end: real, gaps: seq<Gap>) {
    Ordered(gaps)
    && forall i :: 0 <= i < |gaps| ==> cur <= Minutes(gaps[i].startHour) < Minutes(gaps[i].endHour) <= end
  }

  lemma FitsRest(cur: real, end: real, gaps: seq<Gap>)
    requires Fits(cur, end, gaps) && gaps != []
    ensures Fits(Minutes(gaps[0].endHour), end, gaps[1..])
  {
    forall i | 0 <= i < |gaps[1..]| ensures Minutes(gaps[0].endHour) <= Minutes(gaps[1..][i].startHour) {
      assert gaps[0].endHour < gaps[i + 1].startHour;
    }
  }

  lemma {:induction false} GapTakesItsShare(cur: real, end: real, gaps: seq<Gap>, k: nat)
    requires Fits(cur, end, gaps) && cur <= end && k < |gaps|
    ensures Effective(Minutes(gaps[k].endHour), cur, end, gaps) - Effective(Minutes(gaps[k].startHour), cur, end, gaps)
            == COMPRESSED_GAP_MINUTES
    decreases |gaps|
  {
    hide PassedInGap, Minutes;
    var from, to := Minutes(gaps[0].startHour), Minutes(gaps[0].endHour);
    var a, b := Minutes(gaps[k].startHour), Minutes(gaps[k].endHour);
    FitsRest(cur, end, gaps);
    GapGrows(a, b, from, to);
    GapGrows(b, b + 1.0, from, to);
    if k == 0 {
      EffectiveGrows(a, b, to, end, gaps[1..]);
      NothingBefore(b, to, end, gaps[1..]);
    } else {
      GapTakesItsShare(to, end, gaps[1..], k - 1);
      assert gaps[1..][k - 1] == gaps[k];
    }
  }

  lemma {:induction false} NothingBefore(m: real, cur: real, end: real, gaps: seq<Gap>)
    requires m <= cur
    ensures Effective(m, cur, end, gaps) == 0.0
    decreases |gaps|
  {
    if gaps != [] {
      var from, to := Max(Minutes(gaps[0].startHour), cur), Min(Minutes(gaps[0].endHour), end);
      NothingBefore(m, if to <= from then cur else to, end, gaps[1..]);
    }
  }

  /** Between gaps a minute takes a minute. */
  lemma {:induction false} MinutesTakeMinutes(cur: real, end: real, gaps: seq<Gap>, m1: real, m2: real)
    requires Fits(cur, end, gaps) && cur <= m1 <= m2 <= end
    requires forall i :: 0 <= i < |gaps| ==> Minutes(gaps[i].endHour) <= m1 || m2 <= Minutes(gaps[i].startHour)
    ensures Effective(m2, cur, end, gaps) - Effective(m1, cur, end, gaps) == m2 - m1
    decreases |gaps|
  {
    hide PassedInGap, Minutes;
    if gaps != [] {
      var from, to := Minutes(gaps[0].startHour), Minutes(gaps[0].endHour);
      FitsRest(cur, end, gaps);
      GapGrows(m1, m1 + 1.0, from, to);
      GapGrows(m2, m2 + 1.0, from, to);
      if to <= m1 {
        MinutesTakeMinutes(to, end, gaps[1..], m1, m2);
      } else {
        NothingBefore(m1, to, end, gaps[1..]);
        NothingBefore(m2, to, end, gaps[1..]);
      }
    }
  }

  /** Inside a gap time runs evenly. */
  lemma {:induction false} GapRunsEvenly(cur: real, end: real, gaps: seq<Gap>, k: nat, m1: real, m2: real)
    requires Fits(cur, end, gaps) && cur <= end && k < |gaps|
    requires Minutes(gaps[k].startHour) <= m1 <= m2 <= Minutes(gaps[k].endHour)
    ensures Effective(m2, cur, end, gaps) - Effective(m1, cur, end, gaps) ==
              (m2 - m1) / (Minutes(gaps[k].endHour) - Minutes(gaps[k].startHour)) * 39.0
    decreases |gaps|
  {
    hide PassedInGap, Minutes;
    var from, to := Minutes(gaps[0].startHour), Minutes(gaps[0].endHour);
    FitsRest(cur, end, gaps);
    if k == 0 {
      NothingBefore(m1, to, end, gaps[1..]);
      NothingBefore(m2, to, end, gaps[1..]);
      EvenPart(m1, m2, from, to);
    } else {
      GapRunsEvenly(to, end, gaps[1..], k - 1, m1, m2);
      assert gaps[1..][k - 1] == gaps[k];
      assert gaps[0].endHour < gaps[k].startHour;
      HoursGrow(gaps[0].endHour, gaps[k].startHour);
      GapGrows(m1, m1 + 1.0, from, to);
      GapGrows(m2, m2 + 1.0, from, to);
    }
  }

  lemma HoursGrow(g: int, h: int)
    requires g < h
    ensures Minutes(g) < Minutes(h)
  {}

  lemma EvenPart(m1: real, m2: real, from: real, to: real)
    requires from <= m1 <= m2 <= to && from < to
    ensures PassedInGap(m2, from, to) - PassedInGap(m1, from, to) == (m2 - m1) / (to - from) * 39.0
  {
    var d := to - from;
    assert PassedInGap(m1, from, to) == (m1 - from) / d * 39.0 && PassedInGap(m2, from, to) == (m2 - from) / d * 39.0 by {
      Divide(0.0, 0.0, d);
    }
    assert (m2 - from) / d - (m1 - from) / d == (m2 - m1) / d;
  }

  lemma ShareOfDifference(x: real, y: real, total: real)
    requires total > 0.0
    ensures x / total * 100.0 - y / total * 100.0 == (x - y) / total * 100.0
  {}

  /** All collapsed gaps are equally high, and so are equal stretches of time outside them. */
  lemma EqualHeights(b: Band, k: nat, m1: real, m2: real)
    requires StartTotal(b) < EndTotal(b) && Fits(StartTotal(b), EndTotal(b), b.gaps)
    ensures Total(StartTotal(b), EndTotal(b), b.gaps) > 0.0
    ensures k < |b.gaps| ==> Percent(Minutes(b.gaps[k].endHour), b) - Percent(Minutes(b.gaps[k].startHour), b)
                             == 39.0 / Total(StartTotal(b), EndTotal(b), b.gaps) * 100.0
    ensures k < |b.gaps| && Minutes(b.gaps[k].startHour) <= m1 <= m2 <= Minutes(b.gaps[k].endHour) ==>
              Percent(m2, b) - Percent(m1, b) ==
                (m2 - m1) / (Minutes(b.gaps[k].endHour) - Minutes(b.gaps[k].startHour)) * 39.0
                / Total(StartTotal(b), EndTotal(b), b.gaps) * 100.0
    ensures StartTotal(b) <= m1 <= m2 <= EndTotal(b)
            && (forall i :: 0 <= i < |b.gaps| ==> Minutes(b.gaps[i].endHour) <= m1 || m2 <= Minutes(b.gaps[i].startHour))
            ==> Percent(m2, b) - Percent(m1, b) == (m2 - m1) / Total(StartTotal(b), EndTotal(b), b.gaps) * 100.0
  {
    hide Effective, Total, Percent, Minutes;
    var start, end := StartTotal(b), EndTotal(b);
    var total := Total(start, end, b.gaps);
    PercentIsShare(start, b);
    if k < |b.gaps| {
      var x, y := Minutes(b.gaps[k].endHour), Minutes(b.gaps[k].startHour);
      PercentIsShare(x, b);
      PercentIsShare(y, b);
      GapTakesItsShare(start, end, b.gaps, k);
      ShareOfDifference(Effective(x, start, end, b.gaps), Effective(y, start, end, b.gaps), total);
      if y <= m1 <= m2 <= x {
        PercentIsShare(m1, b);
        PercentIsShare(m2, b);
        GapRunsEvenly(start, end, b.gaps, k, m1, m2);
        ShareOfDifference(Effective(m2, start, end, b.gaps), Effective(m1, start, end, b.gaps), total);
      }
    }
    if start <= m1 <= m2 <= end
       && (forall i :: 0 <= i < |b.gaps| ==> Minutes(b.gaps[i].endHour) <= m1 || m2 <= Minutes(b.gaps[i].startHour)) {
      PercentIsShare(m1, b);
      PercentIsShare(m2, b);
      MinutesTakeMinutes(start, end, b.gaps, m1, m2);
      ShareOfDifference(Effective(m2, start, end, b.gaps), Effective(m1, start, end, b.gaps), total);
    }
  }

  /** The gaps a band is given always fit. */
  lemma CollapsedGapsFit(b: Band, spans: seq<Span>, occupied: set<int>)
    requires WellFormed(b) && Busy(occupied, b, spans) && Collapses(b.gaps, occupied)
    ensures Fits(StartTotal(b), EndTotal(b), b.gaps)
  {
    forall i | 0 <= i < |b.gaps|
      ensures StartTotal(b) <= Minutes(b.gaps[i].startHour) < Minutes(b.gaps[i].endHour) <= EndTotal(b) {
      var g := b.gaps[i];
      assert Gap(g.startHour, g.endHour) in b.gaps;
      assert FreeBetween(occupied, g.startHour, g.endHour);
    }
  }

  // ----- markers

  /** A marker at a time of day, in minutes. */
  datatype Marker = Marker(minutes: int, topPct: real)

  /** Two decimals, halves upwards; percentages are never negative. */
  function RoundToTwoDecimals(x: real): real {
    (x * 100.0 + 0.5).Floor as real / 100.0
  }

  /** The result has two decimals and is as near as they allow. */
  lemma RoundingIsNearest(x: real)
    ensures var r := RoundToTwoDecimals(x); r * 100.0 == (r * 100.0).Floor as real && -0.005 < r - x <= 0.005
  {
    var n := (x * 100.0 + 0.5).Floor;
    assert n as real <= x * 100.0 + 0.5 < n as real + 1.0;
    assert n as real / 100.0 * 100.0 == n as real;
  }

  lemma RoundingKeepsOrder(x: real, y: real)
    requires x <= y
    ensures RoundToTwoDecimals(x) <= RoundToTwoDecimals(y)
  {
    var a, b := (x * 100.0 + 0.5).Floor, (y * 100.0 + 0.5).Floor;
    assert a <= b;
    Divide(a as real, b as real, 100.0);
  }

  predicate IsInteriorGapHour(gaps: seq<Gap>, h: int) {
    exists i :: 0 <= i < |gaps| && gaps[i].startHour < h < gaps[i].endHour
  }

  /** The full hours that get a marker: strictly inside the band and not inside a gap. */
  predicate IsMarked(b: Band, h: int) {
    StartTotal(b) < Minutes(h) < EndTotal(b) && !IsInteriorGapHour(b.gaps, h)
  }

  predicate AtTheirPlaces(ms: seq<Marker>, b: Band) {
    && (forall i, j :: 0 <= i < j < |ms| ==> ms[i].minutes < ms[j].minutes)
    && (forall i :: 0 <= i < |ms| ==> ms[i].topPct == RoundToTwoDecimals(Percent(ms[i].minutes as real, b))
                                      && StartTotal(b) <= ms[i].minutes as real <= EndTotal(b))
  }

  predicate HasMarker(ms: seq<Marker>, h: int) {
    exists i :: 0 <= i < |ms| && ms[i].minutes == h * 60
  }

  /** Markers stand at the start, then exactly at the hours below h that get one. */
  ghost predicate Marks(ms: seq<Marker>, b: Band, h: int) {
    && AtTheirPlaces(ms, b) && ms != [] && ms[0] == Marker(b.startHour * 60 + b.startMinute, 0.0)
    && (forall i :: 0 <= i < |ms| ==> ms[i].minutes < h * 60)
    && (forall i :: 0 < i < |ms| ==> IsHourMark(ms[i].minutes, b))
    && (forall k :: k < h && IsMarked(b, k) ==> HasMarker(ms, k))
  }

  predicate IsHourMark(minutes: int, b: Band) {
    minutes % 60 == 0 && IsMarked(b, minutes / 60)
  }

  lemma MarkHour(ms: seq<Marker>, b: Band, h: int)
    requires Marks(ms, b, h) && IsMarked(b, h)
    ensures Marks(ms + [Marker(h * 60, RoundToTwoDecimals(Percent(Minutes(h), b)))], b, h + 1)
  {
    hide Percent, RoundToTwoDecimals, IsInteriorGapHour;
    var m := Marker(h * 60, RoundToTwoDecimals(Percent(Minutes(h), b)));
    var r := ms + [m];
    MarkPlaced(ms, b, m);
    HourMark(b, h);
    forall k | k < h + 1 && IsMarked(b, k) ensures HasMarker(r, k) {
      StillMarked(ms, m, h, k);
    }
  }

  lemma HourMark(b: Band, h: int)
    requires IsMarked(b, h)
    ensures IsHourMark(h * 60, b)
  {
    hide IsMarked;
    Sixty(h);
  }

  lemma Sixty(h: int)
    ensures h * 60 % 60 == 0 && h * 60 / 60 == h
  {}

  lemma StillMarked(ms: seq<Marker>, m: Marker, h: int, k: int)
    requires m.minutes == h * 60 && (k < h ==> HasMarker(ms, k)) && k <= h
    ensures HasMarker(ms + [m], k)
  {
    var r := ms + [m];
    assert r[|ms|] == m;
    if k < h {
      var i :| 0 <= i < |ms| && ms[i].minutes == k * 60;
      assert r[i].minutes == k * 60;
    }
  }

  lemma MarkPlaced(ms: seq<Marker>, b: Band, m: Marker)
    requires AtTheirPlaces(ms, b) && (forall i :: 0 <= i < |ms| ==> ms[i].minutes < m.minutes)
    requires m.topPct == RoundToTwoDecimals(Percent(m.minutes as real, b)) && StartTotal(b) <= m.minutes as real <= EndTotal(b)
    ensures AtTheirPlaces(ms + [m], b)
  {
    hide Percent, RoundToTwoDecimals;
  }

  lemma SkipHour(ms: seq<Marker>, b: Band, h: int)
    requires Marks(ms, b, h) && !IsMarked(b, h)
    ensures Marks(ms, b, h + 1)
  {}

  lemma StartMark(b: Band)
    requires WellFormed(b) && EndTotal(b) > StartTotal(b)
    ensures Marks([Marker(b.startHour * 60 + b.startMinute, 0.0)], b, b.startHour + 1)
  {
    hide Percent;
    PercentAtEnds(b);
    assert RoundToTwoDecimals(0.0) == 0.0;
  }

  method GenerateTimelineMarkersWithGaps(b: Band) returns (ms: seq<Marker>)
    requires WellFormed(b)
    ensures EndTotal(b) <= StartTotal(b) ==> ms == []
    ensures EndTotal(b) > StartTotal(b) ==> ms != [] && ms[|ms| - 1] == Marker(b.endHour * 60 + b.endMinute, 100.0)
    ensures EndTotal(b) > StartTotal(b) ==> AtTheirPlaces(ms, b) && Marks(ms[..|ms| - 1], b, b.endHour + 1)
  {
    hide Percent, RoundToTwoDecimals, Marks, AtTheirPlaces;
    if b.endHour * 60 + b.endMinute <= b.startHour * 60 + b.startMinute {
      return [];
    }
    StartMark(b);
    ms := [Marker(b.startHour * 60 + b.startMinute, 0.0)];
    var h := b.startHour + 1;
    while h < b.endHour
      invariant Marks(ms, b, h) && b.startHour < h && (h <= b.endHour || h == b.startHour + 1)
    {
      if IsInteriorGapHour(b.gaps, h) {
        SkipHour(ms, b, h);
      } else {
        MarkHour(ms, b, h);
        var pct := MapMinutesToCanvasPct(Minutes(h), b);
        ms := ms + [Marker(h * 60, RoundToTwoDecimals(pct))];
      }
      h := h + 1;
    }
    assert h == b.endHour || h == b.endHour + 1;
    if b.endMinute > 0 && b.endHour * 60 > b.startHour * 60 + b.startMinute && !IsInteriorGapHour(b.gaps, b.endHour) {
      MarkHour(ms, b, h);
      var pct := MapMinutesToCanvasPct(Minutes(b.endHour), b);
      ms := ms + [Marker(b.endHour * 60, RoundToTwoDecimals(pct))];
    } else if h == b.endHour {
      SkipHour(ms, b, h);
    }
    EndMark(ms, b);
    ms := ms + [Marker(b.endHour * 60 + b.endMinute, 100.0)];
  }

  lemma EndMark(ms: seq<Marker>, b: Band)
    requires WellFormed(b) && EndTotal(b) > StartTotal(b) && Marks(ms, b, b.endHour + 1)
    ensures var r := ms + [Marker(b.endHour * 60 + b.endMinute, 100.0)];
            AtTheirPlaces(r, b) && r[..|r| - 1] == ms
  {
    hide Percent;
    PercentAtEnds(b);
    assert RoundToTwoDecimals(100.0) == 100.0;
    var r := ms + [Marker(b.endHour * 60 + b.endMinute, 100.0)];
    forall i | 0 <= i < |ms| ensures r[i].minutes < b.endHour * 60 + b.endMinute {
      assert i > 0 ==> IsHourMark(ms[i].minutes, b);
    }
  }

  /** Later markers are never higher up. */
  lemma MarkersDescend(ms: seq<Marker>, b: Band, i: nat, j: nat)
    requires AtTheirPlaces(ms, b) && i < j < |ms|
    ensures ms[i].topPct <= ms[j].topPct
    ensures Percent(ms[i].minutes as real, b) < Percent(ms[j].minutes as real, b)
  {
    hide Percent, RoundToTwoDecimals;
    PercentGrows(ms[i].minutes as real, ms[j].minutes as real, b);
    RoundingKeepsOrder(Percent(ms[i].minutes as real, b), Percent(ms[j].minutes as real, b));
  }
}
