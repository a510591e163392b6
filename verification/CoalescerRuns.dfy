/**
  What the refresh engine does over whole runs: marks are kept until a fetch succeeds, the panel is given exactly the
  images that are new to it, the stored tag names the stored image, and safety fetches keep their distance.
 */
module CoalescerRuns {
  import opened Coalescer

  function RunAll(c: Settings, s: State, steps: seq<Step>): State {
    if steps == [] then s else Apply(c, RunAll(c, s, steps[..|steps| - 1]), steps[|steps| - 1])
  }

  /** The step asks the server, because a refresh is due. */
  predicate Asks(c: Settings, s: State, step: Step) {
    step.Work? && ShouldRefresh(c, s, step.checked) && step.answer.Some?
  }

  /** The server answered without an error, with an image or that nothing has changed. */
  predicate Succeeds(c: Settings, s: State, step: Step) {
    Asks(c, s, step) && step.answer.value.error == "" && (step.answer.value.statusCode == 200 || step.answer.value.statusCode == 304)
  }

  /** The server sent an image, which may be empty. */
  predicate Sends(c: Settings, s: State, step: Step) {
    Succeeds(c, s, step) && step.answer.value.statusCode == 200 && !step.answer.value.notModified
  }

  // ----- no mark is lost

  /** The marks since the last success, oldest first. */
  function PendingMarks(c: Settings, s: State, steps: seq<Step>): seq<MarkEvent> {
    if steps == [] then []
    else
      var before, step := steps[..|steps| - 1], steps[|steps| - 1];
      if step.Mark? then PendingMarks(c, s, before) + [MarkEvent(step.now, step.reason)]
      else if Succeeds(c, RunAll(c, s, before), step) then []
      else PendingMarks(c, s, before)
  }

  predicate IsClean(s: State) {
    !s.isDirty && s.firstDirtyTime.None? && s.lastDirtyTime.None? && s.dirtyReasons == []
  }

  /** The dirty state is that of the pending marks. */
  predicate Records(s: State, marks: seq<MarkEvent>) {
    if marks == [] then IsClean(s)
    else
      && s.isDirty && s.dirtyReasons == Reasons(marks)
      && s.firstDirtyTime == Some(marks[0].now) && s.lastDirtyTime == Some(marks[|marks| - 1].now)
  }

  /** On every run from a clean state the screen is dirty exactly while marks are pending, a mark stays pending until a
      fetch succeeds, and reasons and times are those of the pending marks. */
  lemma {:induction false} MarksWaitForSuccess(c: Settings, s: State, steps: seq<Step>)
    requires IsClean(s)
    ensures Records(RunAll(c, s, steps), PendingMarks(c, s, steps))
  {
    hide ShouldRefresh;
    if steps != [] {
      var before, step := steps[..|steps| - 1], steps[|steps| - 1];
      MarksWaitForSuccess(c, s, before);
      StepRecords(c, RunAll(c, s, before), step, PendingMarks(c, s, before));
    }
  }

  lemma StepRecords(c: Settings, s: State, step: Step, marks: seq<MarkEvent>)
    requires Records(s, marks)
    ensures Records(Apply(c, s, step),
                    if step.Mark? then marks + [MarkEvent(step.now, step.reason)] else if Succeeds(c, s, step) then [] else marks)
  {
    hide ShouldRefresh;
    if step.Mark? {
      assert Reasons(marks + [MarkEvent(step.now, step.reason)]) == Reasons(marks) + [step.reason];
    }
  }

  // ----- what is written

  /** What the engine learns about the panel: nothing is known of it any more, or the server's image. */
  datatype News = Forget | Image(data: Option<string>)

  /** Asking with a reconnect pending forgets; an answer brings an image. */
  function NewsOf(c: Settings, s: State, step: Step, reasons: seq<string>): seq<News> {
    (if Asks(c, s, step) && "reconnect_recovery" in reasons then [Forget] else [])
    + (if Sends(c, s, step) then [Image(step.answer.value.data)] else [])
  }

  function AllNews(c: Settings, s: State, steps: seq<Step>): seq<News> {
    if steps == [] then []
    else
      var before, step := steps[..|steps| - 1], steps[|steps| - 1];
      AllNews(c, s, before) + NewsOf(c, RunAll(c, s, before), step, Reasons(PendingMarks(c, s, before)))
  }

  /** The image known to be on the panel after the news. */
  function Known(news: seq<News>): Option<string> {
    if news == [] then None else match news[|news| - 1] case Forget => None case Image(data) => data
  }

  /** An image is new unless it is the one known to be there; one without bytes is not written. */
  function NewImages(news: seq<News>): seq<string> {
    if news == [] then []
    else
      var before, last := news[..|news| - 1], news[|news| - 1];
      NewImages(before)
      + if last.Image? && last.data.Some? && last.data.value != "" && Known(before) != last.data then [last.data.value] else []
  }

  function WrittenImages(c: Settings, s: State, steps: seq<Step>): seq<string> {
    if steps == [] then []
    else
      var before, step := steps[..|steps| - 1], steps[|steps| - 1];
      WrittenImages(c, s, before) + ImagesOf(WritesOf(c, RunAll(c, s, before), step))
  }

  function ImagesOf(ws: seq<Write>): (r: seq<string>)
    ensures |r| == |ws| && forall i :: 0 <= i < |ws| ==> r[i] == ws[i].image
  {
    seq(|ws|, i requires 0 <= i < |ws| => ws[i].image)
  }

  lemma {:induction false} NewsAppend(a: seq<News>, b: News)
    ensures NewImages(a + [b]) == NewImages(a) + if b.Image? && b.data.Some? && b.data.value != "" && Known(a) != b.data then [b.data.value] else []
    ensures Known(a + [b]) == match b case Forget => None case Image(data) => data
  {
    assert (a + [b])[..|a|] == a;
  }

  lemma StepTells(c: Settings, s: State, step: Step, news: seq<News>)
    requires s.lastImage == Known(news)
    ensures var more := NewsOf(c, s, step, s.dirtyReasons);
      && Apply(c, s, step).lastImage == Known(news + more)
      && NewImages(news + more) == NewImages(news) + ImagesOf(WritesOf(c, s, step))
  {
    hide ShouldRefresh, Known, NewImages;
    if "reconnect_recovery" in s.dirtyReasons && Asks(c, s, step) {
      NewsAppend(news, Forget);
      if Sends(c, s, step) {
        assert news + NewsOf(c, s, step, s.dirtyReasons) == (news + [Forget]) + [Image(step.answer.value.data)];
        NewsAppend(news + [Forget], Image(step.answer.value.data));
        ForcedNews(c, s, step);
      } else {
        assert NewsOf(c, s, step, s.dirtyReasons) == [Forget];
        OnlyForgets(c, s, step);
      }
    } else if Sends(c, s, step) {
      assert NewsOf(c, s, step, s.dirtyReasons) == [Image(step.answer.value.data)];
      NewsAppend(news, Image(step.answer.value.data));
      PlainNews(c, s, step);
    } else {
      assert news + NewsOf(c, s, step, s.dirtyReasons) == news;
      NothingNew(c, s, step);
    }
  }

  lemma NothingNew(c: Settings, s: State, step: Step)
    requires !Sends(c, s, step) && (Asks(c, s, step) ==> "reconnect_recovery" !in s.dirtyReasons)
    ensures Apply(c, s, step).lastImage == s.lastImage && WritesOf(c, s, step) == []
  {
    hide ShouldRefresh;
  }

  lemma OnlyForgets(c: Settings, s: State, step: Step)
    requires Asks(c, s, step) && !Sends(c, s, step) && "reconnect_recovery" in s.dirtyReasons
    ensures Apply(c, s, step).lastImage == None && WritesOf(c, s, step) == []
  {
    hide ShouldRefresh;
  }

  lemma PlainNews(c: Settings, s: State, step: Step)
    requires Sends(c, s, step) && "reconnect_recovery" !in s.dirtyReasons
    ensures Apply(c, s, step).lastImage == step.answer.value.data
    ensures ImagesOf(WritesOf(c, s, step)) ==
              if step.answer.value.data.Some? && step.answer.value.data.value != "" && s.lastImage != step.answer.value.data
              then [step.answer.value.data.value] else []
  {
    hide ShouldRefresh;
  }

  lemma ForcedNews(c: Settings, s: State, step: Step)
    requires Sends(c, s, step) && "reconnect_recovery" in s.dirtyReasons
    ensures Apply(c, s, step).lastImage == step.answer.value.data
    ensures ImagesOf(WritesOf(c, s, step)) ==
              if step.answer.value.data.Some? && step.answer.value.data.value != "" then [step.answer.value.data.value] else []
  {
    hide ShouldRefresh;
  }

  /** On every run from start-up the panel writer is given exactly the images that are new: those that differ from the
      one known to be on the panel, and after a reconnect the first one whatever it is. */
  lemma {:induction false} WritesAreNews(c: Settings, start: real, steps: seq<Step>)
    ensures WrittenImages(c, Boot(start), steps) == NewImages(AllNews(c, Boot(start), steps))
    ensures RunAll(c, Boot(start), steps).lastImage == Known(AllNews(c, Boot(start), steps))
  {
    hide WritesOf, NewsOf, Known, NewImages, PendingMarks, ImagesOf, Apply;
    if steps == [] {
      NoNews();
    } else {
      var before, step := steps[..|steps| - 1], steps[|steps| - 1];
      WritesAreNews(c, start, before);
      MarksWaitForSuccess(c, Boot(start), before);
      StepTells(c, RunAll(c, Boot(start), before), step, AllNews(c, Boot(start), before));
    }
  }

  lemma NoNews()
    ensures Known([]) == None && NewImages([]) == []
  {}

  // ----- the tag

  /** The server's tags name its images. */
  predicate Names(tags: map<string, string>, step: Step) {
    step.Work? && step.answer.Some? && step.answer.value.statusCode == 200 && !step.answer.value.notModified
    && step.answer.value.etag.Some? && step.answer.value.etag.value != "" ==>
      && step.answer.value.etag.value in tags && step.answer.value.data == Some(tags[step.answer.value.etag.value])
  }

  /** The stored tag, if there is one, names the stored image. */
  predicate TagMatches(tags: map<string, string>, s: State) {
    s.lastEtag.Some? && s.lastEtag.value != "" ==> s.lastEtag.value in tags && s.lastImage == Some(tags[s.lastEtag.value])
  }

  /** So whenever the server finds the tag unchanged, the image it names is the one last taken for the panel. */
  lemma {:induction false} TagNamesImage(c: Settings, start: real, steps: seq<Step>, tags: map<string, string>)
    requires forall i :: 0 <= i < |steps| ==> Names(tags, steps[i])
    ensures TagMatches(tags, RunAll(c, Boot(start), steps))
  {
    hide ShouldRefresh;
    if steps != [] {
      TagNamesImage(c, start, steps[..|steps| - 1], tags);
      assert Names(tags, steps[|steps| - 1]);
    }
  }

  // ----- safety fetches

  /** The times of the fetches of a run. */
  function FetchTimes(c: Settings, s: State, steps: seq<Step>): seq<real> {
    if steps == [] then []
    else
      var before, step := steps[..|steps| - 1], steps[|steps| - 1];
      FetchTimes(c, s, before) + if Asks(c, RunAll(c, s, before), step) then [step.now] else []
  }

  predicate TimedSoFar(start: real, steps: seq<Step>) {
    forall i :: 0 <= i < |steps| ==> TimedAt(start, steps, i)
  }

  predicate TimedAt(start: real, steps: seq<Step>, i: int)
    requires 0 <= i < |steps|
  {
    StepTimed(if i == 0 then start else EndOf(steps[i - 1]), steps[i])
  }

  /** Without marks the server is asked at most once in the idle time, whether it answers or fails, and the last time it
      was asked is remembered. */
  lemma {:induction false} SafetyFetchesKeepDistance(c: Settings, start: real, steps: seq<Step>)
    requires start >= 0.0 && TimedSoFar(start, steps) && forall i :: 0 <= i < |steps| ==> steps[i].Work?
    ensures var ts := FetchTimes(c, Boot(start), steps);
      && (forall i :: 0 < i < |ts| ==> ts[i] - ts[i - 1] >= c.maxIdleSeconds)
      && (forall i :: 0 <= i < |ts| ==> ts[i] - start >= c.maxIdleSeconds)
      && RunAll(c, Boot(start), steps).lastFetchTime == (if ts == [] then start else ts[|ts| - 1])
    ensures c.maxIdleSeconds <= 0.0 ==> FetchTimes(c, Boot(start), steps) == []
    ensures IsClean(RunAll(c, Boot(start), steps))
  {
    hide OutcomeOf;
    if steps != [] {
      var before, step := steps[..|steps| - 1], steps[|steps| - 1];
      TimedPrefix(start, steps);
      SafetyFetchesKeepDistance(c, start, before);
      var s, ts := RunAll(c, Boot(start), before), FetchTimes(c, Boot(start), before);
      SafetyStep(c, s, step);
    }
  }

  lemma TimedPrefix(start: real, steps: seq<Step>)
    requires steps != [] && TimedSoFar(start, steps)
    ensures TimedSoFar(start, steps[..|steps| - 1])
    ensures steps[|steps| - 1].Work? ==> steps[|steps| - 1].checked <= steps[|steps| - 1].now
  {
    var before := steps[..|steps| - 1];
    forall i | 0 <= i < |before| ensures TimedAt(start, before, i) {
      assert TimedAt(start, steps, i);
    }
    assert TimedAt(start, steps, |steps| - 1);
  }

  lemma SafetyStep(c: Settings, s: State, step: Step)
    requires IsClean(s) && step.Work? && step.checked <= step.now
    ensures IsClean(Apply(c, s, step))
    ensures Asks(c, s, step) ==> c.maxIdleSeconds > 0.0 && step.now - s.lastFetchTime >= c.maxIdleSeconds
    ensures Apply(c, s, step).lastFetchTime == if Asks(c, s, step) then step.now else s.lastFetchTime
  {}
}
