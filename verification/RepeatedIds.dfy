/**
  Repeated widget ids. Validation refuses them, but an override can append a spacer that has the id of a
  widget. Spacers never have a worker, and the reconciler compares by id.
 */
module RepeatedIds {
  import opened Reconciler

  const SPACER := "spacer"

  /** As in every list an override leaves: only a spacer repeats the id of a widget before it. */
  predicate RepeatsAreSpacers(ws: seq<Widget>) {
    forall i, j :: 0 <= i < j < |ws| && ws[i].id == ws[j].id ==> ws[j].kind == SPACER
  }

  /** No worker is ever started for a spacer. */
  ghost predicate SpacersIdle(starts: Widget -> bool) {
    forall w: Widget :: w.kind == SPACER ==> !starts(w)
  }

  // ----- no worker is lost

  /** At most one widget of each id can be started. */
  predicate OneStartPerId(ws: seq<Widget>, starts: Widget -> bool) {
    forall i, j :: 0 <= i < j < |ws| && ws[i].id == ws[j].id ==> !(starts(ws[i]) && starts(ws[j]))
  }

  /** Every running worker belongs to an id of the configuration. */
  predicate Known(v: View, before: Option<Config>) {
    forall id :: id in v ==> before.Some? && id in Ids(before.value.widgets)
  }

  lemma AgreesIsKnown(v: View, before: Option<Config>)
    requires Agrees(v, before)
    ensures Known(v, before)
  {
    hide SameSettings;
  }

  lemma OverwritesIff(v: View, ws: seq<Widget>, timezone: string, starts: Widget -> bool)
    requires forall w :: w in ws ==> w.id !in v
    ensures Overwrites(v, ws, timezone, starts, false) <==> !OneStartPerId(ws, starts)
  {
    hide StartAll, LastStarted;
    if Overwrites(v, ws, timezone, starts, false) {
      var i :| 0 <= i < |ws| && starts(ws[i]) && ws[i].id in StartAll(v, ws[..i], timezone, starts, false);
      StartedAt(v, ws[..i], timezone, starts, ws[i].id);
      var w := LastStarted(ws[..i], ws[i].id, starts).value;
      var j :| 0 <= j < i && ws[..i][j] == w;
      assert ws[j].id == ws[i].id && starts(ws[j]);
    }
    if !OneStartPerId(ws, starts) {
      var i, j :| 0 <= i < j < |ws| && ws[i].id == ws[j].id && starts(ws[i]) && starts(ws[j]);
      StartedAt(v, ws[..j], timezone, starts, ws[j].id);
      assert ws[..j][i] == ws[i];
      assert ws[j].id in StartAll(v, ws[..j], timezone, starts, false);
    }
  }

  /** The widgets an update starts without stopping anything. */
  function NewlyAdded(before: Option<Config>, after: Config): seq<Widget> {
    if before.None? then after.widgets else DiffOf(before.value, after).added
  }

  /** No worker runs for an added widget before it is started. */
  lemma AddedIsFree(v: View, before: Config, after: Config, starts: Widget -> bool, w: Widget)
    requires Known(v, Some(before)) && w in DiffOf(before, after).added
    ensures var d := DiffOf(before, after);
            var v2 := StartAll(v - Ids(d.removed), NewInstances(d.modified), after.timezone, starts, true);
            w.id !in v2 && w.id !in StartAll(v2, d.kept, after.timezone, starts, true)
  {
    hide StartAll, SameSettings, WidgetMap, NewInstances, DiffOf, LastOf;
    var d := DiffOf(before, after);
    Classes(before, after, w);
    forall x: Widget ensures x in NewInstances(d.modified) || x in d.kept ==> x.id != w.id {
      Classes(before, after, x);
    }
    var v1 := v - Ids(d.removed);
    var v2 := StartAll(v1, NewInstances(d.modified), after.timezone, starts, true);
    RestartedAt(v1, NewInstances(d.modified), after.timezone, starts, w.id);
    RestartedAt(v2, d.kept, after.timezone, starts, w.id);
  }

  /** The exact condition: an update loses a worker if and only if it adds two startable widgets with the same id. */
  lemma LeaksIff(v: View, before: Option<Config>, after: Config, starts: Widget -> bool)
    requires Known(v, before)
    ensures Leaks(v, before, after, starts) <==> !OneStartPerId(NewlyAdded(before, after), starts)
  {
    hide StartAll, DiffOf, NewInstances, Overwrites, OneStartPerId, Ids;
    if before.None? {
      assert v == map[];
      OverwritesIff(v, after.widgets, after.timezone, starts);
    } else {
      var d := DiffOf(before.value, after);
      var v2 := StartAll(v - Ids(d.removed), NewInstances(d.modified), after.timezone, starts, true);
      var v3 := if d.timezoneChanged then StartAll(v2, d.kept, after.timezone, starts, true) else v2;
      forall w | w in d.added ensures w.id !in v3 {
        AddedIsFree(v, before.value, after, starts, w);
      }
      OverwritesIff(v3, d.added, after.timezone, starts);
    }
  }

  lemma {:induction false} AddedKeepsOneStart(ws: seq<Widget>, before: map<string, Widget>, starts: Widget -> bool)
    requires OneStartPerId(ws, starts)
    ensures OneStartPerId(AddedOf(ws, before), starts)
  {
    hide Classify;
    if ws != [] {
      var rest, w := ws[..|ws| - 1], ws[|ws| - 1];
      assert ws == rest + [w];
      AddedKeepsOneStart(rest, before, starts);
      forall x | x in AddedOf(rest, before) && x.id == w.id ensures !(starts(x) && starts(w)) {
        ClassMembers(rest, before, x);
        var i :| 0 <= i < |rest| && rest[i] == x;
        assert ws[i] == x && ws[|rest|] == w;
      }
    }
  }

  /** Lists in which only spacers repeat an id lose no worker, as long as spacers have none. */
  lemma OverrideListsLoseNone(v: View, before: Option<Config>, after: Config, starts: Widget -> bool)
    requires Known(v, before) && RepeatsAreSpacers(after.widgets) && SpacersIdle(starts)
    ensures !Leaks(v, before, after, starts)
  {
    hide Leaks, DiffOf, Ids;
    LeaksIff(v, before, after, starts);
    assert OneStartPerId(after.widgets, starts);
    if before.Some? {
      DiffParts(before.value, after);
      AddedKeepsOneStart(after.widgets, WidgetMap(before.value.widgets), starts);
    }
  }

  /** Neither do lists with distinct ids, whatever can be started. */
  lemma DistinctListsLoseNone(v: View, before: Option<Config>, after: Config, starts: Widget -> bool)
    requires Known(v, before) && DistinctIds(after.widgets)
    ensures !Leaks(v, before, after, starts)
  {
    hide Leaks, DiffOf, Ids;
    LeaksIff(v, before, after, starts);
    assert OneStartPerId(after.widgets, starts);
    if before.Some? {
      DiffParts(before.value, after);
      AddedKeepsOneStart(after.widgets, WidgetMap(before.value.widgets), starts);
    }
  }

  // ----- when workers stay current

  ghost predicate AlwaysCurrent(v: View, before: Config) {
    forall after, starts :: Agrees(Reconcile(v, Some(before), after, starts), Some(after))
  }

  /** An update that keeps only the last widget of an id leaves its worker alone. */
  lemma LastIsLeftAlone(v: View, before: Config, id: string, starts: Widget -> bool)
    requires id in v && id in WidgetMap(before.widgets)
    ensures var r := Reconcile(v, Some(before), Config([WidgetMap(before.widgets)[id]], before.timezone), starts);
            id in r && r[id] == v[id]
  {
    hide Reconcile, DiffOf, NewInstances, LastOf, LastStarted, WidgetMap;
    WidgetMapHolds(before.widgets);
    var w := WidgetMap(before.widgets)[id];
    var after := Config([w], before.timezone);
    ConfiguredRuns(v, before, after, starts, id);
    DiffParts(before, after);
    assert w in after.widgets;
    var d := DiffOf(before, after);
    forall x: Widget ensures x in d.added || x in NewInstances(d.modified) || x in d.removed ==> x.id != id {
      Classes(before, after, x);
      assert x in after.widgets ==> x == w;
    }
  }

  /** Workers are current after every update if and only if each has the settings of the last widget of its id. */
  lemma StaysCurrentIff(v: View, before: Config)
    requires Agrees(v, Some(before))
    ensures AlwaysCurrent(v, before) <==> UpToDate(v, before)
  {
    hide Reconcile, SameSettings, WidgetMap;
    if UpToDate(v, before) {
      forall after, starts ensures Agrees(Reconcile(v, Some(before), after, starts), Some(after)) {
        UpToDateStaysCurrent(v, before, after, starts);
      }
    } else {
      var id :| id in v && id in WidgetMap(before.widgets) && !SameSettings(v[id].widget, WidgetMap(before.widgets)[id]);
      StaleAfter(v, before, id, w => false);
    }
  }

  lemma StaleAfter(v: View, before: Config, id: string, starts: Widget -> bool)
    requires id in v && id in WidgetMap(before.widgets) && !SameSettings(v[id].widget, WidgetMap(before.widgets)[id])
    ensures var after := Config([WidgetMap(before.widgets)[id]], before.timezone);
            !Agrees(Reconcile(v, Some(before), after, starts), Some(after))
  {
    hide Reconcile, SameSettings, WidgetMap;
    LastIsLeftAlone(v, before, id, starts);
    var w := WidgetMap(before.widgets)[id];
    assert forall x :: x in [w] ==> x == w;
  }

  /** The exact condition on the configuration alone: widgets that share an id have the same settings. */
  lemma AgreesIff(before: Config)
    ensures (forall v :: Agrees(v, Some(before)) ==> AlwaysCurrent(v, before)) <==> Coherent(before.widgets)
  {
    hide AlwaysCurrent, SameSettings, WidgetMap, UpToDate;
    if Coherent(before.widgets) {
      forall v | Agrees(v, Some(before)) ensures AlwaysCurrent(v, before) {
        CoherentIsUpToDate(v, before);
        StaysCurrentIff(v, before);
      }
    } else {
      var i, j :| 0 <= i < |before.widgets| && 0 <= j < |before.widgets| && before.widgets[i].id == before.widgets[j].id
                  && !SameSettings(before.widgets[i], before.widgets[j]);
      var a, b := before.widgets[i], before.widgets[j];
      OneDiffers(before, a, b);
      var x := if SameSettings(a, WidgetMap(before.widgets)[a.id]) then b else a;
      RunsOne(before, x);
      StaysCurrentIff(map[x.id := Running(x, before.timezone)], before);
    }
  }

  lemma OneDiffers(before: Config, a: Widget, b: Widget)
    requires a in before.widgets && b in before.widgets && a.id == b.id && !SameSettings(a, b)
    ensures a.id in WidgetMap(before.widgets)
    ensures !SameSettings(a, WidgetMap(before.widgets)[a.id]) || !SameSettings(b, WidgetMap(before.widgets)[a.id])
  {
    hide WidgetMap;
    WidgetMapHolds(before.widgets);
  }

  /** A configured widget may run alone; it is up to date only if it has the settings of the last of its id. */
  lemma RunsOne(before: Config, x: Widget)
    requires x in before.widgets && x.id in WidgetMap(before.widgets)
    ensures var v := map[x.id := Running(x, before.timezone)];
            Agrees(v, Some(before)) && (UpToDate(v, before) <==> SameSettings(x, WidgetMap(before.widgets)[x.id]))
  {
    hide WidgetMap;
    NewlyStartedIsCurrent(x, before);
  }

  // ----- the same for lists as they occur

  predicate NoSpacerRuns(v: View) {
    forall id :: id in v ==> v[id].widget.kind != SPACER
  }

  /** No widget but a spacer is followed by one with its id and other settings. */
  predicate Shadowless(ws: seq<Widget>) {
    forall w :: w in ws && w.kind != SPACER && w.id in WidgetMap(ws) ==> SameSettings(w, WidgetMap(ws)[w.id])
  }

  /** Spacers never come to run, in the first configuration or in any update. */
  lemma NoSpacerEverRuns(v: View, before: Option<Config>, after: Config, starts: Widget -> bool)
    requires NoSpacerRuns(v) && SpacersIdle(starts)
    ensures NoSpacerRuns(Reconcile(v, before, after, starts))
  {
    hide StartAll, DiffOf, NewInstances, LastOf, LastStarted, Ids;
    var r := Reconcile(v, before, after, starts);
    forall id | id in r ensures r[id].widget.kind != SPACER {
      if before.Some? {
        ConfiguredRuns(v, before.value, after, starts, id);
      } else {
        StartedAt(v, after.widgets, after.timezone, starts, id);
      }
    }
  }

  /** As long as no spacer runs, workers are current after every update if and only if no widget is shadowed. */
  lemma OverrideAgreesIff(before: Config)
    ensures (forall v :: Agrees(v, Some(before)) && NoSpacerRuns(v) ==> AlwaysCurrent(v, before)) <==> Shadowless(before.widgets)
  {
    hide AlwaysCurrent, SameSettings, WidgetMap, UpToDate;
    if Shadowless(before.widgets) {
      forall v | Agrees(v, Some(before)) && NoSpacerRuns(v) ensures AlwaysCurrent(v, before) {
        ShadowlessIsUpToDate(v, before);
        StaysCurrentIff(v, before);
      }
    } else {
      var w :| w in before.widgets && w.kind != SPACER && w.id in WidgetMap(before.widgets)
               && !SameSettings(w, WidgetMap(before.widgets)[w.id]);
      RunsOne(before, w);
      StaysCurrentIff(map[w.id := Running(w, before.timezone)], before);
    }
  }

  lemma ShadowlessIsUpToDate(v: View, before: Config)
    requires Agrees(v, Some(before)) && NoSpacerRuns(v) && Shadowless(before.widgets)
    ensures UpToDate(v, before)
  {
    hide WidgetMap;
    WidgetMapHolds(before.widgets);
    forall id | id in v && id in WidgetMap(before.widgets) ensures SameSettings(v[id].widget, WidgetMap(before.widgets)[id]) {
      var o :| o in before.widgets && o.id == id && SameSettings(v[id].widget, o);
      assert o.kind != SPACER;
      SameSettingsChain(v[id].widget, o, WidgetMap(before.widgets)[id]);
    }
  }

  // ----- when a startable widget has no worker

  /** In such a list a widget that is not a spacer is the only one of its id. */
  lemma OthersAreSpacers(ws: seq<Widget>, w: Widget, x: Widget)
    requires RepeatsAreSpacers(ws) && w in ws && x in ws && x.id == w.id && w.kind != SPACER
    ensures x == w || x.kind == SPACER
  {
    var i :| 0 <= i < |ws| && ws[i] == w;
    var j :| 0 <= j < |ws| && ws[j] == x;
    assert i == j || i < j || j < i;
  }

  /**
    The exact condition for a startable widget to have no worker after an update: its id was configured before,
    and either a spacer of its id decides, or nothing is restarted and it had no worker.
   */
  lemma WorkerMissingIff(v: View, before: Config, after: Config, starts: Widget -> bool, w: Widget)
    requires RepeatsAreSpacers(after.widgets) && SpacersIdle(starts) && w in after.widgets && starts(w)
    ensures w.id !in Reconcile(v, Some(before), after, starts) <==>
              && w.id in Ids(before.widgets)
              && match Decider(before, after, w.id)
                 case Some(x) => x.kind == SPACER
                 case None => w.id !in v
  {
    hide Reconcile, DiffOf, NewInstances, LastOf, LastStarted, SameSettings, WidgetMap, RepeatsAreSpacers;
    ConfiguredRuns(v, before, after, starts, w.id);
    Classes(before, after, w);
    var d := DiffOf(before, after);
    assert w.id !in Ids(before.widgets) ==> w in d.added;
    forall x: Widget ensures x in d.added && x.id == w.id ==> w.id !in Ids(before.widgets)
                     ensures x in d.removed ==> x.id != w.id {
      Classes(before, after, x);
    }
    if Decider(before, after, w.id).Some? {
      var x := Decider(before, after, w.id).value;
      Classes(before, after, x);
      OthersAreSpacers(after.widgets, w, x);
    }
  }

  // ----- inputs

  /** A weather widget with the name of a spacer, a clock, the spacers of the configuration, and those an override
      puts beside and below a single-cell widget in the corner of the landscape grid. */
  const WEATHER := Widget("auto-spacer-0-1-0", "weather", "", "", "", "", None, [1, 1], false)
  const CLOCK := Widget("clock", "clock", "", "", "", "", None, [1, 1], false)
  const WIDE := Widget("wide", SPACER, "", "", "", "", None, [5, 2], false)
  const SMALL := Widget("small", SPACER, "", "", "", "", None, [1, 1], false)
  const BESIDE := Widget("auto-spacer-0-1-0", SPACER, "", "", "", "", None, [5, 2], false)
  const BELOW := Widget("auto-spacer-0-0-1", SPACER, "", "", "", "", None, [1, 1], false)

  function NotSpacer(): Widget -> bool {
    (w: Widget) => w.kind != SPACER
  }

  lemma MappedOnce(ws: seq<Widget>, w: Widget)
    requires w in ws && forall x :: x in ws && x.id == w.id ==> x == w
    ensures w.id in WidgetMap(ws) && WidgetMap(ws)[w.id] == w
  {
    hide WidgetMap;
    WidgetMapHolds(ws);
  }

  /** An override that puts the widget in the corner: the widget's worker is stopped and none is started. */
  lemma SpacerStopsWidget()
    ensures Reconcile(map[WEATHER.id := Running(WEATHER, "t")], Some(Config([WEATHER, WIDE, SMALL], "t")),
                      Config([WEATHER, BESIDE, BELOW], "t"), NotSpacer()) == map[]
  {
    hide Reconcile, DiffOf, NewInstances, LastOf, WidgetMap;
    var v := map[WEATHER.id := Running(WEATHER, "t")];
    var before, after := Config([WEATHER, WIDE, SMALL], "t"), Config([WEATHER, BESIDE, BELOW], "t");
    var r := Reconcile(v, Some(before), after, NotSpacer());
    assert WEATHER in before.widgets && WEATHER in after.widgets && BESIDE in after.widgets && BELOW in after.widgets;
    MappedOnce(before.widgets, WEATHER);
    assert Decider(before, after, WEATHER.id) == Some(BESIDE) by {
      DiffParts(before, after);
      Classes(before, after, WEATHER);
      Classes(before, after, BESIDE);
      var last := LastOf(NewInstances(DiffOf(before, after).modified), WEATHER.id);
      assert last.Some?;
      Classes(before, after, last.value);
    }
    WorkerMissingIff(v, before, after, NotSpacer(), WEATHER);
    forall id ensures id !in r {
      if id != WEATHER.id {
        NeverRan(v, before, after, id);
      }
    }
  }

  /** An id that did not run and that only spacers have does not come to run. */
  lemma NeverRan(v: View, before: Config, after: Config, id: string)
    requires id !in v && forall w :: w in after.widgets && w.id == id ==> w.kind == SPACER
    ensures id !in Reconcile(v, Some(before), after, NotSpacer())
  {
    hide Reconcile, DiffOf, NewInstances, LastOf, LastStarted, WidgetMap, SameSettings;
    ConfiguredRuns(v, before, after, NotSpacer(), id);
    var d := DiffOf(before, after);
    forall w: Widget ensures w in d.added || w in NewInstances(d.modified) || w in d.kept ==> w in after.widgets {
      Classes(before, after, w);
    }
  }

  /** The last widget of the id is the spacer. */
  lemma SpacerIsLast()
    ensures WEATHER.id in WidgetMap([WEATHER, BESIDE, BELOW]) && WidgetMap([WEATHER, BESIDE, BELOW])[WEATHER.id] == BESIDE
  {
    var ws := [WEATHER, BESIDE, BELOW];
    assert ws[..2] == [WEATHER, BESIDE] && [WEATHER, BESIDE][..1] == [WEATHER];
    assert BELOW.id != BESIDE.id by { assert BELOW.id[14] != BESIDE.id[14]; }
  }

  /**
    Started with the overridden list, the widget runs. When a clock takes its place in the configuration and the same
    spacer fills the hole, the worker of the widget that is gone is left running.
   */
  lemma GoneWidgetKeepsRunning()
    ensures var first, second := Config([WEATHER, BESIDE, BELOW], "t"), Config([CLOCK, BESIDE, BELOW], "t");
            var v := Reconcile(map[], None, first, NotSpacer());
            var r := Reconcile(v, Some(first), second, NotSpacer());
            && WEATHER.id in r && r[WEATHER.id] == Running(WEATHER, "t") && !Agrees(r, Some(second))
  {
    hide StartAll, DiffOf, NewInstances, LastOf, LastStarted, WidgetMap;
    var first, second := Config([WEATHER, BESIDE, BELOW], "t"), Config([CLOCK, BESIDE, BELOW], "t");
    var v := Reconcile(map[], None, first, NotSpacer());
    assert WEATHER in first.widgets && BESIDE in second.widgets;
    StartedAt(map[], first.widgets, "t", NotSpacer(), WEATHER.id);
    assert LastStarted(first.widgets, WEATHER.id, NotSpacer()) == Some(WEATHER);
    SpacerIsLast();
    ConfiguredRuns(v, first, second, NotSpacer(), WEATHER.id);
    DiffParts(first, second);
    var d := DiffOf(first, second);
    forall x: Widget ensures x in d.added || x in NewInstances(d.modified) || x in d.removed ==> x.id != WEATHER.id {
      Classes(first, second, x);
      assert x in second.widgets && x.id == WEATHER.id ==> x == BESIDE;
    }
    assert forall x :: x in second.widgets && x.id == WEATHER.id ==> x.kind == SPACER;
  }
}
