/**
  The e-ink refresh engine: dirty marks are coalesced, panel writes keep their distance, and the time
  to the next check agrees with the check itself. Times are real seconds.
 */
module Coalescer {

  datatype Option<+T> = None | Some(value: T)

  datatype Settings = Settings(coalesceSeconds: real, minRefreshSeconds: real, maxIdleSeconds: real)

  datatype State = State(
    isDirty: bool, firstDirtyTime: Option<real>, lastDirtyTime: Option<real>, dirtyReasons: seq<string>,
    lastWriteTime: real, lastFetchTime: real, lastEtag: Option<string>, lastImage: Option<string>)

  /** What the fetcher answers; an empty error is none. */
  datatype FetchResult = FetchResult(error: string, statusCode: int, notModified: bool, data: Option<string>, etag: Option<string>)

  datatype Outcome = NoFetcher | Failed | SkippedNotModified | SkippedIdentical | Refreshed

  /** The state after start-up: nothing written yet, the safety timer running. */
  function Boot(now: real): State {
    State(false, None, None, [], -1.0, now, None, None)
  }

  function MarkDirty(s: State, now: real, reason: string): State {
    var t := if s.isDirty then s else s.(isDirty := true, firstDirtyTime := Some(now), dirtyReasons := []);
    t.(lastDirtyTime := Some(now), dirtyReasons := t.dirtyReasons + [reason])
  }

  // ----- when to refresh

  predicate IdleTooLong(c: Settings, s: State, now: real) {
    c.maxIdleSeconds > 0.0 && s.lastFetchTime >= 0.0 && now - s.lastFetchTime >= c.maxIdleSeconds
  }

  predicate DirtyLongEnough(c: Settings, s: State, now: real) {
    && s.isDirty && s.lastDirtyTime.Some? && now - s.lastDirtyTime.value >= c.coalesceSeconds
    && (s.lastWriteTime < 0.0 || now - s.lastWriteTime >= c.minRefreshSeconds)
  }

  predicate ShouldRefresh(c: Settings, s: State, now: real) {
    IdleTooLong(c, s, now) || DirtyLongEnough(c, s, now)
  }

  function Max(a: real, b: real): real {
    if a >= b then a else b
  }

  /** The time to wait for the dirty trigger, if it is pending. */
  function DirtyWait(c: Settings, s: State, now: real): Option<real> {
    if s.isDirty && s.lastDirtyTime.Some? then
      Some(Max(Max(0.0, s.lastDirtyTime.value + c.coalesceSeconds - now),
               if s.lastWriteTime >= 0.0 then Max(0.0, s.lastWriteTime + c.minRefreshSeconds - now) else 0.0))
    else None
  }

  function SafetyWait(c: Settings, s: State, now: real): Option<real> {
    if c.maxIdleSeconds > 0.0 && s.lastFetchTime >= 0.0 then Some(Max(0.0, s.lastFetchTime + c.maxIdleSeconds - now)) else None
  }

  /** None stands for an infinite wait. */
  function TimeUntilNextCheck(c: Settings, s: State, now: real): Option<real> {
    match (DirtyWait(c, s, now), SafetyWait(c, s, now))
    case (None, w) => w
    case (w, None) => w
    case (Some(a), Some(b)) => Some(if b < a then b else a)
  }

  /** The wait is zero exactly when a refresh is due. */
  lemma NoWaitIffDue(c: Settings, s: State, now: real)
    ensures TimeUntilNextCheck(c, s, now) == Some(0.0) <==> ShouldRefresh(c, s, now)
  {}

  /** The wait is the least delay after which a refresh is due; an infinite wait means never. */
  lemma WaitIsLeast(c: Settings, s: State, now: real, delay: real)
    requires delay >= 0.0
    ensures TimeUntilNextCheck(c, s, now).Some? ==>
              (ShouldRefresh(c, s, now + delay) <==> delay >= TimeUntilNextCheck(c, s, now).value)
    ensures TimeUntilNextCheck(c, s, now).None? ==> !ShouldRefresh(c, s, now + delay)
  {}

  /** How long the worker sleeps: not beyond a second or the wait, and not shorter than that allows. */
  function SleepTime(wait: Option<real>): (t: real)
    ensures 0.001 <= t <= 1.0 && (wait.Some? && wait.value >= 0.001 ==> t <= wait.value)
    ensures t == 1.0 || (wait.Some? && (t == wait.value || wait.value < t == 0.001))
  {
    match wait
    case None => 1.0
    case Some(w) => Max(0.001, if w < 1.0 then w else 1.0)
  }

  // ----- refreshing

  function Cleared(s: State): State {
    s.(isDirty := false, firstDirtyTime := None, lastDirtyTime := None, dirtyReasons := [])
  }

  /** After the fetch was started: a reconnect forgets the image on the panel. */
  function Fetching(s: State, now: real): State {
    (if "reconnect_recovery" in s.dirtyReasons then s.(lastEtag := None, lastImage := None) else s).(lastFetchTime := now)
  }

  function OutcomeOf(s: State, now: real, answer: Option<FetchResult>): Outcome {
    match answer
    case None => NoFetcher
    case Some(r) =>
      if r.error != "" || (r.statusCode != 200 && r.statusCode != 304) then Failed
      else if r.notModified || r.statusCode == 304 then SkippedNotModified
      else if Fetching(s, now).lastImage.Some? && r.data == Fetching(s, now).lastImage then SkippedIdentical
      else Refreshed
  }

  function Refresh(s: State, now: real, answer: Option<FetchResult>): State {
    match OutcomeOf(s, now, answer)
    case NoFetcher => s
    case Failed => Fetching(s, now)
    case SkippedNotModified => Cleared(Fetching(s, now))
    case SkippedIdentical =>
      var t := Cleared(Fetching(s, now));
      if answer.value.etag.Some? && answer.value.etag.value != "" then t.(lastEtag := answer.value.etag) else t
    case Refreshed =>
      Cleared(Fetching(s, now)).(lastEtag := answer.value.etag, lastImage := answer.value.data, lastWriteTime := now)
  }

  /** An answer the panel writer is called with: it is not when there are no bytes. */
  function ImageOf(answer: Option<FetchResult>): Option<string> {
    if answer.Some? && answer.value.data.Some? && answer.value.data.value != "" then answer.value.data else None
  }

  /** A panel write: when its refresh read the clock, when the panel was written, and what was written. */
  datatype Write = Write(started: real, written: real, image: string)

  /** The panel write of a refresh, if it makes one. */
  function PanelWrites(s: State, now: real, written: real, answer: Option<FetchResult>): seq<Write> {
    if OutcomeOf(s, now, answer).Refreshed? && ImageOf(answer).Some? then [Write(now, written, ImageOf(answer).value)] else []
  }

  class CoalescingEngine {
    const settings: Settings
    var isDirty: bool
    var firstDirtyTime: Option<real>
    var lastDirtyTime: Option<real>
    var dirtyReasons: seq<string>
    var lastWriteTime: real
    var lastFetchTime: real
    var lastEtag: Option<string>
    var lastImage: Option<string>
    /** The panel writes made. */
    ghost var writes: seq<Write>

    function Current(): State
      reads this
    {
      State(isDirty, firstDirtyTime, lastDirtyTime, dirtyReasons, lastWriteTime, lastFetchTime, lastEtag, lastImage)
    }

    constructor (settings: Settings, now: real)
      ensures this.settings == settings && Current() == Boot(now) && writes == []
    {
      this.settings := settings;
      isDirty, firstDirtyTime, lastDirtyTime, dirtyReasons := false, None, None, [];
      lastWriteTime, lastFetchTime, lastEtag, lastImage := -1.0, now, None, None;
      writes := [];
    }

    method Mark(now: real, reason: string)
      modifies this
      ensures Current() == MarkDirty(old(Current()), now, reason) && writes == old(writes)
    {
      if !isDirty {
        isDirty := true;
        firstDirtyTime := Some(now);
        dirtyReasons := [];
      }
      lastDirtyTime := Some(now);
      dirtyReasons := dirtyReasons + [reason];
    }

    /** The clock reads `now` before the fetch; the panel is written after it, at `written`. */
    method ExecuteRefresh(now: real, written: real, answer: Option<FetchResult>) returns (outcome: Outcome)
      requires now <= written
      modifies this
      ensures outcome == OutcomeOf(old(Current()), now, answer) && Current() == Refresh(old(Current()), now, answer)
      ensures writes == old(writes) + PanelWrites(old(Current()), now, written, answer)
    {
      if answer.None? {
        return NoFetcher;
      }
      var result := answer.value;
      if "reconnect_recovery" in dirtyReasons {
        lastEtag, lastImage := None, None;
      }
      lastFetchTime := now;
      if result.error != "" || (result.statusCode != 200 && result.statusCode != 304) {
        return Failed;
      }
      if result.notModified || result.statusCode == 304 {
        isDirty, firstDirtyTime, lastDirtyTime, dirtyReasons := false, None, None, [];
        return SkippedNotModified;
      }
      if lastImage.Some? && result.data == lastImage {
        isDirty, firstDirtyTime, lastDirtyTime, dirtyReasons := false, None, None, [];
        if result.etag.Some? && result.etag.value != "" {
          lastEtag := result.etag;
        }
        return SkippedIdentical;
      }
      isDirty, firstDirtyTime, lastDirtyTime, dirtyReasons := false, None, None, [];
      lastEtag, lastImage, lastWriteTime := result.etag, result.data, now;
      if result.data.Some? && result.data.value != "" {
        writes := writes + [Write(now, written, result.data.value)];
      }
      return Refreshed;
    }

    /** One turn of the worker loop: refreshes if due at `checked`, and says how long to sleep otherwise. */
    method WorkerTurn(checked: real, now: real, written: real, answer: Option<FetchResult>) returns (sleep: Option<real>)
      requires checked <= now <= written
      modifies this
      ensures Current() == Apply(settings, old(Current()), Work(checked, now, written, answer))
      ensures writes == old(writes) + WritesOf(settings, old(Current()), Work(checked, now, written, answer))
      ensures sleep.None? <==> ShouldRefresh(settings, old(Current()), checked)
      ensures sleep.Some? ==> sleep.value == SleepTime(TimeUntilNextCheck(settings, old(Current()), now))
    {
      if ShouldRefresh(settings, Current(), checked) {
        var _ := ExecuteRefresh(now, written, answer);
        return None;
      }
      return Some(SleepTime(TimeUntilNextCheck(settings, Current(), now)));
    }
  }

  // ----- a burst of marks

  datatype MarkEvent = MarkEvent(now: real, reason: string)

  function MarkAll(s: State, marks: seq<MarkEvent>): State {
    if marks == [] then s
    else MarkDirty(MarkAll(s, marks[..|marks| - 1]), marks[|marks| - 1].now, marks[|marks| - 1].reason)
  }

  function Reasons(marks: seq<MarkEvent>): (r: seq<string>)
    ensures |r| == |marks|
  {
    seq(|marks|, i requires 0 <= i < |marks| => marks[i].reason)
  }

  /**
    A burst of marks is one: the dirty trigger is due the debounce time after the last of them, whatever
    the others were, the write floor apart. All reasons are kept, and the first time stays.
   */
  lemma {:induction false} BurstCoalesces(c: Settings, s: State, marks: seq<MarkEvent>, t: real)
    requires marks != []
    ensures var m := MarkAll(s, marks);
            && m.isDirty && m.dirtyReasons == (if s.isDirty then s.dirtyReasons else []) + Reasons(marks)
            && m.firstDirtyTime == (if s.isDirty then s.firstDirtyTime else Some(marks[0].now))
            && m.lastDirtyTime == Some(marks[|marks| - 1].now)
            && m.lastWriteTime == s.lastWriteTime && m.lastFetchTime == s.lastFetchTime
            && m.lastEtag == s.lastEtag && m.lastImage == s.lastImage
    ensures DirtyLongEnough(c, MarkAll(s, marks), t) <==>
              t >= marks[|marks| - 1].now + c.coalesceSeconds
              && (s.lastWriteTime < 0.0 || t >= s.lastWriteTime + c.minRefreshSeconds)
  {
    var rest, last := marks[..|marks| - 1], marks[|marks| - 1];
    assert Reasons(marks) == Reasons(rest) + [last.reason];
    if rest == [] {
      assert MarkAll(s, rest) == s && Reasons(rest) == [];
    } else {
      BurstCoalesces(c, s, rest, t);
    }
  }

  // ----- whole runs

  /** A mark, or a turn of the worker loop: it reads the clock twice, fetches, and may write the panel. */
  datatype Step = Mark(now: real, reason: string) | Work(checked: real, now: real, written: real, answer: Option<FetchResult>)

  function Apply(c: Settings, s: State, step: Step): State {
    match step
    case Mark(now, reason) => MarkDirty(s, now, reason)
    case Work(checked, now, _, answer) => if ShouldRefresh(c, s, checked) then Refresh(s, now, answer) else s
  }

  /** The panel write a step makes, if any. */
  function WritesOf(c: Settings, s: State, step: Step): seq<Write> {
    if step.Work? && ShouldRefresh(c, s, step.checked) then PanelWrites(s, step.now, step.written, step.answer) else []
  }

  /** The panel writes of a run. */
  function Writes(c: Settings, s: State, steps: seq<Step>): seq<Write>
    decreases |steps|
  {
    if steps == [] then [] else WritesOf(c, s, steps[0]) + Writes(c, Apply(c, s, steps[0]), steps[1..])
  }

  function EndOf(step: Step): real {
    if step.Work? then step.written else step.now
  }

  /** The lock is held from the check to the panel write, so a step begins after the one before has ended. */
  predicate StepTimed(clock: real, step: Step) {
    if step.Mark? then clock <= step.now else clock <= step.checked <= step.now <= step.written
  }

  /** The clock never runs backwards. */
  predicate Timed(clock: real, steps: seq<Step>)
    decreases |steps|
  {
    steps == [] || (StepTimed(clock, steps[0]) && Timed(EndOf(steps[0]), steps[1..]))
  }

  /** From reading the clock to writing the panel a turn takes at most the given time. */
  predicate Within(latency: real, steps: seq<Step>) {
    forall i :: 0 <= i < |steps| && steps[i].Work? ==> steps[i].written - steps[i].now <= latency
  }

  // ----- how far apart refreshes start

  /** Nothing was written after the last fetch, and nothing lies in the future. */
  predicate Inv(s: State, clock: real) {
    s.lastWriteTime <= s.lastFetchTime <= clock && 0.0 <= s.lastFetchTime && (s.lastWriteTime == -1.0 || s.lastWriteTime >= 0.0)
  }

  lemma StepKeepsInv(c: Settings, s: State, clock: real, step: Step)
    requires Inv(s, clock) && StepTimed(clock, step)
    ensures Inv(Apply(c, s, step), EndOf(step))
    ensures WritesOf(c, s, step) != [] ==> step.Work? && step.now >= 0.0 && Apply(c, s, step).lastWriteTime == step.now
    ensures Apply(c, s, step).lastWriteTime >= s.lastWriteTime
  {}

  predicate SafetyRespectsFloor(c: Settings) {
    c.maxIdleSeconds <= 0.0 || c.maxIdleSeconds >= c.minRefreshSeconds
  }

  predicate StartsSpaced(distance: real, ws: seq<Write>) {
    forall i :: 0 < i < |ws| ==> ws[i].started - ws[i - 1].started >= distance
  }

  /** The writes of a run, behind an earlier one if there was one. */
  function Behind(before: Option<Write>, ws: seq<Write>): seq<Write> {
    if before.Some? then [before.value] + ws else ws
  }

  function LastWrite(before: Option<Write>, ws: seq<Write>): Option<Write> {
    if ws == [] then before else Some(ws[|ws| - 1])
  }

  /** The recorded write time is not before the start of the last panel write. */
  predicate Recorded(s: State, before: Option<Write>) {
    before.Some? ==> 0.0 <= before.value.started <= s.lastWriteTime
  }

  lemma StartKeepsFloor(c: Settings, s: State, clock: real, step: Step, before: Option<Write>)
    requires Inv(s, clock) && StepTimed(clock, step) && Recorded(s, before) && SafetyRespectsFloor(c)
    ensures WritesOf(c, s, step) != [] && before.Some? ==> step.now - before.value.started >= c.minRefreshSeconds
    ensures Recorded(Apply(c, s, step), LastWrite(before, WritesOf(c, s, step)))
  {}

  /** If the safety fetch is off or not faster than the floor, refreshes that write start at least the floor apart. */
  lemma {:induction false} StartsKeepFloor(c: Settings, s: State, clock: real, steps: seq<Step>, before: Option<Write>)
    requires Inv(s, clock) && Timed(clock, steps) && Recorded(s, before) && SafetyRespectsFloor(c)
    ensures StartsSpaced(c.minRefreshSeconds, Behind(before, Writes(c, s, steps)))
    decreases |steps|
  {
    hide Inv, Recorded, ShouldRefresh, PanelWrites, Refresh, SafetyRespectsFloor, StepTimed;
    if steps != [] {
      var step, t, ws := steps[0], Apply(c, s, steps[0]), WritesOf(c, s, steps[0]);
      StepKeepsInv(c, s, clock, step);
      StartKeepsFloor(c, s, clock, step, before);
      StartsKeepFloor(c, t, EndOf(step), steps[1..], LastWrite(before, ws));
      var rest := Writes(c, t, steps[1..]);
      OneWriteAtMost(c, s, step);
      if ws == [] {
        assert ws + rest == rest;
      } else {
        StartsSpacedBehind(c.minRefreshSeconds, before, ws[0], rest);
      }
    }
  }

  lemma OneWriteAtMost(c: Settings, s: State, step: Step)
    ensures WritesOf(c, s, step) == [] || (step.Work? && exists image :: WritesOf(c, s, step) == [Write(step.now, step.written, image)])
  {}

  lemma StartsSpacedBehind(distance: real, before: Option<Write>, w: Write, rest: seq<Write>)
    requires StartsSpaced(distance, [w] + rest) && (before.Some? ==> w.started - before.value.started >= distance)
    ensures StartsSpaced(distance, Behind(before, [w] + rest))
  {
    var ws := Behind(before, [w] + rest);
    if before.Some? {
      assert forall i :: 0 < i < |ws| ==> ws[i] == ([w] + rest)[i - 1];
    }
  }

  // ----- how far apart panel writes are

  predicate Spaced(distance: real, ws: seq<Write>) {
    forall i :: 0 < i < |ws| ==> ws[i].written - ws[i - 1].written >= distance
  }

  /** The last panel write took at most the latency, lies in the past, and every mark since came after it. */
  predicate Follows(s: State, clock: real, latency: real, before: Option<Write>) {
    before.Some? ==>
      && 0.0 <= before.value.started && before.value.started <= s.lastWriteTime && before.value.written <= clock
      && before.value.written - before.value.started <= latency
      && (s.isDirty && s.lastDirtyTime.Some? ==> s.lastDirtyTime.value >= before.value.written)
  }

  /**
    When writes can be kept a positive distance apart although each may be late by the latency: the safety
    fetch has to leave the distance and the latency between its fetches, and a mark has to wait long enough
    either by the debounce or by the floor.
   */
  predicate Affords(c: Settings, latency: real, distance: real) {
    && (c.maxIdleSeconds <= 0.0 || distance <= c.maxIdleSeconds - latency)
    && (distance <= c.coalesceSeconds || distance <= c.minRefreshSeconds - latency)
  }

  lemma WriteKeepsDistance(c: Settings, s: State, clock: real, step: Step, before: Option<Write>, latency: real, distance: real)
    requires Inv(s, clock) && StepTimed(clock, step) && Follows(s, clock, latency, before) && Affords(c, latency, distance)
    requires step.Work? ==> step.written - step.now <= latency
    ensures WritesOf(c, s, step) != [] && before.Some? ==> step.written - before.value.written >= distance
    ensures Follows(Apply(c, s, step), EndOf(step), latency, LastWrite(before, WritesOf(c, s, step)))
  {}

  lemma {:induction false} RunKeepsDistance(c: Settings, s: State, clock: real, steps: seq<Step>, before: Option<Write>,
                                            latency: real, distance: real)
    requires Inv(s, clock) && Timed(clock, steps) && Within(latency, steps)
    requires Follows(s, clock, latency, before) && Affords(c, latency, distance)
    ensures Spaced(distance, Behind(before, Writes(c, s, steps)))
    decreases |steps|
  {
    hide Inv, Follows, ShouldRefresh, PanelWrites, Refresh, Affords, StepTimed;
    if steps != [] {
      var step, t, ws := steps[0], Apply(c, s, steps[0]), WritesOf(c, s, steps[0]);
      StepKeepsInv(c, s, clock, step);
      WriteKeepsDistance(c, s, clock, step, before, latency, distance);
      RunKeepsDistance(c, t, EndOf(step), steps[1..], LastWrite(before, ws), latency, distance);
      var rest := Writes(c, t, steps[1..]);
      OneWriteAtMost(c, s, step);
      if ws == [] {
        assert ws + rest == rest;
      } else {
        SpacedBehind(distance, before, ws[0], rest);
      }
    }
  }

  lemma SpacedBehind(distance: real, before: Option<Write>, w: Write, rest: seq<Write>)
    requires Spaced(distance, [w] + rest) && (before.Some? ==> w.written - before.value.written >= distance)
    ensures Spaced(distance, Behind(before, [w] + rest))
  {
    var ws := Behind(before, [w] + rest);
    if before.Some? {
      assert forall i :: 0 < i < |ws| ==> ws[i] == ([w] + rest)[i - 1];
    }
  }

  /** Every run from start-up whose turns take at most the latency keeps its panel writes the distance apart. */
  ghost predicate AlwaysSpaced(c: Settings, latency: real, distance: real) {
    forall start, steps :: start >= 0.0 && Timed(start, steps) && Within(latency, steps) ==>
                             Spaced(distance, Writes(c, Boot(start), steps))
  }

  function Fresh(image: string): Option<FetchResult> {
    Some(FetchResult("", 200, false, Some(image), None))
  }

  /** A safety fetch that takes the whole latency, then one that takes no time. */
  function TwoSafetyFetches(c: Settings, latency: real): seq<Step> {
    var t := c.maxIdleSeconds;
    var u := Max(t + t, t + latency);
    [Work(t, t, t + latency, Fresh("a")), Work(u, u, u, Fresh("b"))]
  }

  lemma SafetyFetchesMeet(c: Settings, latency: real)
    requires c.maxIdleSeconds > 0.0 && latency >= 0.0
    ensures Timed(0.0, TwoSafetyFetches(c, latency)) && Within(latency, TwoSafetyFetches(c, latency))
    ensures Writes(c, Boot(0.0), TwoSafetyFetches(c, latency)) ==
              [Write(c.maxIdleSeconds, c.maxIdleSeconds + latency, "a"),
               Write(Max(c.maxIdleSeconds + c.maxIdleSeconds, c.maxIdleSeconds + latency),
                     Max(c.maxIdleSeconds + c.maxIdleSeconds, c.maxIdleSeconds + latency), "b")]
  {
    var steps := TwoSafetyFetches(c, latency);
    var s := Apply(c, Boot(0.0), steps[0]);
    TwoTimed(0.0, steps[0], steps[1]);
    assert s.lastFetchTime == c.maxIdleSeconds && s.lastImage == Some("a") && s.dirtyReasons == [];
    TwoWrites(c, Boot(0.0), steps[0], steps[1]);
  }

  lemma TwoTimed(clock: real, a: Step, b: Step)
    requires StepTimed(clock, a) && StepTimed(EndOf(a), b)
    ensures Timed(clock, [a, b])
  {
    assert [a, b][1..] == [b] && [b][1..] == [];
    assert Timed(EndOf(a), [b]);
  }

  lemma TwoWrites(c: Settings, s: State, a: Step, b: Step)
    ensures Writes(c, s, [a, b]) == WritesOf(c, s, a) + WritesOf(c, Apply(c, s, a), b)
  {
    hide WritesOf, Apply;
    assert [a, b][1..] == [b] && [b][1..] == [];
    var t := Apply(c, s, a);
    assert Writes(c, t, [b]) == WritesOf(c, t, b) + [];
  }

  /** A mark and a fetch that takes the whole latency, then a mark and a fetch that takes no time. */
  function TwoMarkedFetches(c: Settings, latency: real): seq<Step> {
    var t := Max(0.0, c.coalesceSeconds);
    var u := Max(t + latency + t, t + c.minRefreshSeconds);
    [Mark(0.0, "event"), Work(t, t, t + latency, Fresh("a"))] + [Mark(t + latency, "event"), Work(u, u, u, Fresh("b"))]
  }

  lemma MarkedFetchesMeet(c: Settings, latency: real)
    requires latency >= 0.0
    ensures Timed(0.0, TwoMarkedFetches(c, latency)) && Within(latency, TwoMarkedFetches(c, latency))
    ensures var t := Max(0.0, c.coalesceSeconds);
            var u := Max(t + latency + t, t + c.minRefreshSeconds);
            Writes(c, Boot(0.0), TwoMarkedFetches(c, latency)) == [Write(t, t + latency, "a"), Write(u, u, "b")]
  {
    hide WritesOf, Writes, Timed, Refresh, OutcomeOf;
    var t := Max(0.0, c.coalesceSeconds);
    var u := Max(t + latency + t, t + c.minRefreshSeconds);
    var a, b, x, y := Mark(0.0, "event"), Work(t, t, t + latency, Fresh("a")), Mark(t + latency, "event"), Work(u, u, u, Fresh("b"));
    assert TwoMarkedFetches(c, latency) == [a, b] + [x, y];
    var s := Apply(c, Boot(0.0), a);
    FreshWrite(c, s, b, "a");
    var s' := Apply(c, s, b);
    var s'' := Apply(c, s', x);
    FreshWrite(c, s'', y, "b");
    MarkWritesNothing(c, Boot(0.0), a);
    MarkWritesNothing(c, s', x);
    PairsOfWrites(c, Boot(0.0), a, b, [x, y]);
    TwoWrites(c, s', x, y);
    TwoTimed(t + latency, x, y);
    PairTimed(0.0, a, b, [x, y]);
  }

  lemma MarkWritesNothing(c: Settings, s: State, step: Step)
    requires step.Mark?
    ensures WritesOf(c, s, step) == []
  {}

  /** A due turn with a new image writes it. */
  lemma FreshWrite(c: Settings, s: State, step: Step, image: string)
    requires step.Work? && DirtyLongEnough(c, s, step.checked) && step.answer == Fresh(image) && image != ""
    requires s.dirtyReasons == ["event"] && s.lastImage != Some(image)
    ensures WritesOf(c, s, step) == [Write(step.now, step.written, image)]
    ensures var t := Apply(c, s, step); t.lastWriteTime == step.now && t.lastImage == Some(image) && t.dirtyReasons == [] && !t.isDirty
  {
    assert "reconnect_recovery" !in ["event"] by { assert ["event"][0] == "event"; }
  }

  lemma PairsOfWrites(c: Settings, s: State, a: Step, b: Step, rest: seq<Step>)
    ensures Writes(c, s, [a, b] + rest) == WritesOf(c, s, a) + WritesOf(c, Apply(c, s, a), b) + Writes(c, Apply(c, Apply(c, s, a), b), rest)
  {
    hide WritesOf, Apply;
    assert ([a, b] + rest)[1..] == [b] + rest && ([b] + rest)[1..] == rest;
    var t := Apply(c, s, a);
    assert Writes(c, t, [b] + rest) == WritesOf(c, t, b) + Writes(c, Apply(c, t, b), rest);
  }

  lemma PairTimed(clock: real, a: Step, b: Step, rest: seq<Step>)
    requires StepTimed(clock, a) && StepTimed(EndOf(a), b) && Timed(EndOf(b), rest)
    ensures Timed(clock, [a, b] + rest)
  {
    assert ([a, b] + rest)[1..] == [b] + rest && ([b] + rest)[1..] == rest;
    assert Timed(EndOf(a), [b] + rest);
  }

  /**
    The exact condition: panel writes keep a positive distance on all runs whose turns take at most the
    latency if and only if the settings afford it.
   */
  lemma PanelFloorIff(c: Settings, latency: real, distance: real)
    requires latency >= 0.0 && distance > 0.0
    ensures AlwaysSpaced(c, latency, distance) <==> Affords(c, latency, distance)
  {
    hide Writes, Timed, Within;
    if Affords(c, latency, distance) {
      forall start, steps | start >= 0.0 && Timed(start, steps) && Within(latency, steps)
        ensures Spaced(distance, Writes(c, Boot(start), steps)) {
        RunKeepsDistance(c, Boot(start), start, steps, None, latency, distance);
      }
    } else if c.maxIdleSeconds > 0.0 && distance > c.maxIdleSeconds - latency {
      SafetyFetchesMeet(c, latency);
      var ws := Writes(c, Boot(0.0), TwoSafetyFetches(c, latency));
      assert ws[1].written - ws[0].written < distance;
    } else {
      MarkedFetchesMeet(c, latency);
      var ws := Writes(c, Boot(0.0), TwoMarkedFetches(c, latency));
      assert ws[1].written - ws[0].written < distance;
    }
  }

  /**
    The documented floor holds for panel writes exactly when turns take no time or the debounce alone is as
    long as the floor, and the safety fetch is off or slower than floor and latency together.
   */
  lemma DocumentedFloorIff(c: Settings, latency: real)
    requires latency >= 0.0 && c.minRefreshSeconds > 0.0
    ensures AlwaysSpaced(c, latency, c.minRefreshSeconds) <==>
              && (c.maxIdleSeconds <= 0.0 || c.maxIdleSeconds >= c.minRefreshSeconds + latency)
              && (latency == 0.0 || c.coalesceSeconds >= c.minRefreshSeconds)
  {
    hide AlwaysSpaced;
    PanelFloorIff(c, latency, c.minRefreshSeconds);
  }

  ghost predicate StartsAlwaysSpaced(c: Settings) {
    forall start, steps :: start >= 0.0 && Timed(start, steps) ==> StartsSpaced(c.minRefreshSeconds, Writes(c, Boot(start), steps))
  }

  /** What the floor does guarantee, however long turns take: refreshes that write start the floor apart, if and only if
      the safety fetch is off or not faster than the floor. */
  lemma StartsFloorIff(c: Settings)
    ensures StartsAlwaysSpaced(c) <==> SafetyRespectsFloor(c)
  {
    hide Writes, Timed;
    if SafetyRespectsFloor(c) {
      forall start, steps | start >= 0.0 && Timed(start, steps)
        ensures StartsSpaced(c.minRefreshSeconds, Writes(c, Boot(start), steps)) {
        StartsKeepFloor(c, Boot(start), start, steps, None);
      }
    } else {
      SafetyFetchesMeet(c, 0.0);
      var ws := Writes(c, Boot(0.0), TwoSafetyFetches(c, 0.0));
      assert ws[1].started - ws[0].started < c.minRefreshSeconds;
    }
  }

  /** With the default settings, a fetch of thirty seconds and a quick one after it write the panel thirty seconds apart. */
  lemma SlowFetchBreaksFloor()
    ensures var c := Settings(5.0, 60.0, 900.0);
            && SafetyRespectsFloor(c)
            && Writes(c, Boot(0.0), TwoMarkedFetches(c, 30.0)) == [Write(5.0, 35.0, "a"), Write(65.0, 65.0, "b")]
            && !AlwaysSpaced(c, 30.0, 60.0) && AlwaysSpaced(c, 30.0, 30.0)
  {
    hide Writes, AlwaysSpaced;
    var c := Settings(5.0, 60.0, 900.0);
    MarkedFetchesMeet(c, 30.0);
    PanelFloorIff(c, 30.0, 60.0);
    PanelFloorIff(c, 30.0, 30.0);
  }

  // ----- what is written

  /** A mark that does not report a reconnect, or a turn whose successful answer, if any, carries an image. */
  predicate Ordinary(step: Step) {
    if step.Mark? then step.reason != "reconnect_recovery"
    else step.answer.Some? && step.answer.value.statusCode == 200 && step.answer.value.error == "" ==> ImageOf(step.answer).Some?
  }

  predicate ImagesDiffer(ws: seq<Write>) {
    forall i :: 0 < i < |ws| ==> ws[i].image != ws[i - 1].image
  }

  /** The recorded image is the one the panel writer was given last, and no reconnect is pending. */
  predicate Shows(s: State, before: Option<Write>) {
    "reconnect_recovery" !in s.dirtyReasons && (before.Some? ==> s.lastImage == Some(before.value.image))
  }

  lemma WriteChangesImage(c: Settings, s: State, step: Step, before: Option<Write>)
    requires Ordinary(step) && Shows(s, before)
    ensures Shows(Apply(c, s, step), LastWrite(before, WritesOf(c, s, step)))
    ensures WritesOf(c, s, step) != [] && before.Some? ==> WritesOf(c, s, step)[0].image != before.value.image
  {}

  /**
    On every run without reconnects and without empty answers the panel writer is never given the same
    image twice in a row.
   */
  lemma {:induction false} ConsecutiveImagesDiffer(c: Settings, s: State, steps: seq<Step>, before: Option<Write>)
    requires Shows(s, before) && forall i :: 0 <= i < |steps| ==> Ordinary(steps[i])
    ensures ImagesDiffer(Behind(before, Writes(c, s, steps)))
    decreases |steps|
  {
    hide Shows, ShouldRefresh, PanelWrites, Refresh, Ordinary;
    if steps != [] {
      var step, t, ws := steps[0], Apply(c, s, steps[0]), WritesOf(c, s, steps[0]);
      WriteChangesImage(c, s, step, before);
      ConsecutiveImagesDiffer(c, t, steps[1..], LastWrite(before, ws));
      var rest := Writes(c, t, steps[1..]);
      OneWriteAtMost(c, s, step);
      if ws == [] {
        assert ws + rest == rest;
      } else {
        ImagesDifferBehind(before, ws[0], rest);
      }
    }
  }

  lemma ImagesDifferBehind(before: Option<Write>, w: Write, rest: seq<Write>)
    requires ImagesDiffer([w] + rest) && (before.Some? ==> w.image != before.value.image)
    ensures ImagesDiffer(Behind(before, [w] + rest))
  {
    var ws := Behind(before, [w] + rest);
    if before.Some? {
      assert forall i :: 0 < i < |ws| ==> ws[i] == ([w] + rest)[i - 1];
    }
  }
}
