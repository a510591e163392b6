/**
  Provider workers: which widgets an update of the configuration restarts, and why the running
  workers always match the current configuration.
 */
module Reconciler {

  datatype Option<+T> = None | Some(value: T)

  /** A widget of the configuration; `kind` is its type and `config` its domain configuration. */
  datatype Widget = Widget(
    id: string, kind: string, config: string, endpoint: string, httpMethod: string, tokenEnv: string,
    refreshInterval: Option<int>, dimensions: seq<int>, pinned: bool)

  datatype Config = Config(widgets: seq<Widget>, timezone: string)

  /** The widgets differ in their ids, dimensions and pinning at most. */
  predicate SameSettings(a: Widget, b: Widget) {
    a.(id := b.id, dimensions := b.dimensions, pinned := b.pinned) == b
  }

  predicate DistinctIds(ws: seq<Widget>) {
    forall i, j :: 0 <= i < j < |ws| ==> ws[i].id != ws[j].id
  }

  function Ids(ws: seq<Widget>): set<string> {
    set w <- ws :: w.id
  }

  // ----- the difference of two configurations

  datatype Change = Replaced | Modified

  datatype InstanceDiff = InstanceDiff(change: Change, oldInstance: Widget, newInstance: Widget, domainChange: bool)

  datatype ConfigDiff = ConfigDiff(
    added: seq<Widget>, modified: seq<InstanceDiff>, kept: seq<Widget>, layoutModified: seq<Widget>,
    removed: seq<Widget>, timezoneChanged: bool)

  /** The widget of each id; a later widget replaces an earlier one. */
  function WidgetMap(ws: seq<Widget>): map<string, Widget> {
    if ws == [] then map[] else WidgetMap(ws[..|ws| - 1])[ws[|ws| - 1].id := ws[|ws| - 1]]
  }

  datatype Class = Added | Changed(diff: InstanceDiff) | Unchanged(layoutModified: bool)

  function Classify(w: Widget, before: map<string, Widget>): Class {
    if w.id !in before then Added
    else
      var o := before[w.id];
      if o.kind != w.kind then Changed(InstanceDiff(Replaced, o, w, true))
      else if o.config != w.config then Changed(InstanceDiff(Modified, o, w, true))
      else if o.endpoint != w.endpoint || o.httpMethod != w.httpMethod || o.tokenEnv != w.tokenEnv
              || o.refreshInterval != w.refreshInterval then Changed(InstanceDiff(Modified, o, w, false))
      else Unchanged(o.dimensions != w.dimensions || o.pinned != w.pinned)
  }

  function AddedOf(ws: seq<Widget>, before: map<string, Widget>): seq<Widget> {
    if ws == [] then []
    else AddedOf(ws[..|ws| - 1], before) + if Classify(ws[|ws| - 1], before).Added? then [ws[|ws| - 1]] else []
  }

  function ModifiedOf(ws: seq<Widget>, before: map<string, Widget>): seq<InstanceDiff> {
    if ws == [] then []
    else
      var c := Classify(ws[|ws| - 1], before);
      ModifiedOf(ws[..|ws| - 1], before) + if c.Changed? then [c.diff] else []
  }

  function UnchangedOf(ws: seq<Widget>, before: map<string, Widget>, layoutOnly: bool): seq<Widget> {
    if ws == [] then []
    else
      var c := Classify(ws[|ws| - 1], before);
      UnchangedOf(ws[..|ws| - 1], before, layoutOnly)
      + if c.Unchanged? && (layoutOnly ==> c.layoutModified) then [ws[|ws| - 1]] else []
  }

  function RemovedOf(ws: seq<Widget>, after: map<string, Widget>): seq<Widget> {
    if ws == [] then []
    else RemovedOf(ws[..|ws| - 1], after) + if ws[|ws| - 1].id !in after then [ws[|ws| - 1]] else []
  }

  function DiffOf(before: Config, after: Config): ConfigDiff {
    var om, nm := WidgetMap(before.widgets), WidgetMap(after.widgets);
    ConfigDiff(AddedOf(after.widgets, om), ModifiedOf(after.widgets, om), UnchangedOf(after.widgets, om, false),
               UnchangedOf(after.widgets, om, true), RemovedOf(before.widgets, nm), before.timezone != after.timezone)
  }

  method BuildWidgetMap(ws: seq<Widget>) returns (m: map<string, Widget>)
    ensures m == WidgetMap(ws)
  {
    m := map[];
    for i := 0 to |ws|
      invariant m == WidgetMap(ws[..i])
    {
      assert ws[..i + 1][..i] == ws[..i];
      m := m[ws[i].id := ws[i]];
    }
    assert ws[..|ws|] == ws;
  }

  lemma DiffOneMore(ws: seq<Widget>, i: nat, before: map<string, Widget>)
    requires i < |ws|
    ensures var c := Classify(ws[i], before);
            && AddedOf(ws[..i + 1], before) == AddedOf(ws[..i], before) + (if c.Added? then [ws[i]] else [])
            && ModifiedOf(ws[..i + 1], before) == ModifiedOf(ws[..i], before) + (if c.Changed? then [c.diff] else [])
            && UnchangedOf(ws[..i + 1], before, false) == UnchangedOf(ws[..i], before, false) + (if c.Unchanged? then [ws[i]] else [])
            && UnchangedOf(ws[..i + 1], before, true) ==
                 UnchangedOf(ws[..i], before, true) + (if c.Unchanged? && c.layoutModified then [ws[i]] else [])
  {
    hide Classify;
    assert ws[..i + 1][..i] == ws[..i];
  }

  lemma RemovedOneMore(ws: seq<Widget>, i: nat, after: map<string, Widget>)
    requires i < |ws|
    ensures RemovedOf(ws[..i + 1], after) == RemovedOf(ws[..i], after) + if ws[i].id !in after then [ws[i]] else []
  {
    assert ws[..i + 1][..i] == ws[..i];
  }

  lemma NothingDiffers(ws: seq<Widget>, os: seq<Widget>)
    ensures forall before :: AddedOf(ws[..0], before) == [] && ModifiedOf(ws[..0], before) == []
    ensures forall before, layoutOnly :: UnchangedOf(ws[..0], before, layoutOnly) == []
    ensures forall after :: RemovedOf(os[..0], after) == []
  {}

  method DiffConfigs(oldCfg: Config, newCfg: Config) returns (diff: ConfigDiff)
    ensures diff == DiffOf(oldCfg, newCfg)
  {
    hide WidgetMap, AddedOf, ModifiedOf, UnchangedOf, RemovedOf;
    NothingDiffers(newCfg.widgets, oldCfg.widgets);
    var oldMap := BuildWidgetMap(oldCfg.widgets);
    var newMap := BuildWidgetMap(newCfg.widgets);
    diff := ConfigDiff([], [], [], [], [], oldCfg.timezone != newCfg.timezone);
    var ws := newCfg.widgets;
    for i := 0 to |ws|
      invariant diff == ConfigDiff(AddedOf(ws[..i], oldMap), ModifiedOf(ws[..i], oldMap), UnchangedOf(ws[..i], oldMap, false),
                                   UnchangedOf(ws[..i], oldMap, true), [], oldCfg.timezone != newCfg.timezone)
    {
      DiffOneMore(ws, i, oldMap);
      var w := ws[i];
      if w.id !in oldMap {
        diff := diff.(added := diff.added + [w]);
      } else if oldMap[w.id].kind != w.kind {
        diff := diff.(modified := diff.modified + [InstanceDiff(Replaced, oldMap[w.id], w, true)]);
      } else if oldMap[w.id].config != w.config {
        diff := diff.(modified := diff.modified + [InstanceDiff(Modified, oldMap[w.id], w, true)]);
      } else if || oldMap[w.id].endpoint != w.endpoint || oldMap[w.id].httpMethod != w.httpMethod
                || oldMap[w.id].tokenEnv != w.tokenEnv || oldMap[w.id].refreshInterval != w.refreshInterval {
        diff := diff.(modified := diff.modified + [InstanceDiff(Modified, oldMap[w.id], w, false)]);
      } else {
        diff := diff.(kept := diff.kept + [w]);
        if oldMap[w.id].dimensions != w.dimensions || oldMap[w.id].pinned != w.pinned {
          diff := diff.(layoutModified := diff.layoutModified + [w]);
        }
      }
    }
    assert ws[..|ws|] == ws;
    var os := oldCfg.widgets;
    for i := 0 to |os|
      invariant diff == DiffOf(oldCfg, newCfg).(removed := RemovedOf(os[..i], newMap))
    {
      RemovedOneMore(os, i, newMap);
      if os[i].id !in newMap {
        diff := diff.(removed := diff.removed + [os[i]]);
      }
    }
    assert os[..|os|] == os;
  }

  // ----- the classes are disjoint and exhaustive

  lemma {:induction false} WidgetMapHolds(ws: seq<Widget>)
    ensures WidgetMap(ws).Keys == Ids(ws)
    ensures forall id :: id in WidgetMap(ws) ==> WidgetMap(ws)[id] in ws && WidgetMap(ws)[id].id == id
  {
    if ws != [] {
      WidgetMapHolds(ws[..|ws| - 1]);
      assert ws == ws[..|ws| - 1] + [ws[|ws| - 1]];
    }
  }

  function NewInstances(ms: seq<InstanceDiff>): (r: seq<Widget>)
    ensures |r| == |ms| && forall i :: 0 <= i < |ms| ==> r[i] == ms[i].newInstance
  {
    seq(|ms|, i requires 0 <= i < |ms| => ms[i].newInstance)
  }

  /** Every new widget falls into exactly one of the classes added, modified and unchanged. */
  lemma {:induction false} NewWidgetsArePartitioned(ws: seq<Widget>, before: map<string, Widget>)
    ensures multiset(AddedOf(ws, before)) + multiset(NewInstances(ModifiedOf(ws, before))) + multiset(UnchangedOf(ws, before, false))
            == multiset(ws)
  {
    hide Classify, NewInstances, AddedOf, ModifiedOf, UnchangedOf;
    if ws == [] {
      NothingDiffers(ws, ws);
      assert ws[..0] == ws;
      NoInstances();
    } else {
      var rest, w := ws[..|ws| - 1], ws[|ws| - 1];
      NewWidgetsArePartitioned(rest, before);
      assert ws == rest + [w] && ws[..|ws|] == ws;
      DiffOneMore(ws, |ws| - 1, before);
      NewInstancesOneMore(ModifiedOf(rest, before), Classify(w, before));
      ClassifiedItself(w, before);
      OneOfThreeGrows(AddedOf(rest, before), NewInstances(ModifiedOf(rest, before)), UnchangedOf(rest, before, false), w);
    }
  }

  lemma NoInstances()
    ensures NewInstances([]) == []
  {}

  lemma OneOfThreeGrows(a: seq<Widget>, b: seq<Widget>, c: seq<Widget>, w: Widget)
    ensures multiset(a + [w]) + multiset(b) + multiset(c) == multiset(a) + multiset(b) + multiset(c) + multiset{w}
    ensures multiset(a) + multiset(b + [w]) + multiset(c) == multiset(a) + multiset(b) + multiset(c) + multiset{w}
    ensures multiset(a) + multiset(b) + multiset(c + [w]) == multiset(a) + multiset(b) + multiset(c) + multiset{w}
    ensures a + [] == a && b + [] == b && c + [] == c
  {}

  lemma ClassifiedItself(w: Widget, before: map<string, Widget>)
    ensures Classify(w, before).Changed? ==> Classify(w, before).diff.newInstance == w
    ensures Classify(w, before).Added? <==> w.id !in before
    ensures Classify(w, before).Unchanged? <==> w.id in before && SameSettings(before[w.id], w)
  {}

  lemma NewInstancesOneMore(ms: seq<InstanceDiff>, c: Class)
    ensures c.Changed? ==> NewInstances(ms + [c.diff]) == NewInstances(ms) + [c.diff.newInstance]
    ensures NewInstances(ms + []) == NewInstances(ms)
  {
    assert ms + [] == ms;
  }

  /** Membership in each class, by the old widget of the same id. */
  lemma {:induction false} ClassMembers(ws: seq<Widget>, before: map<string, Widget>, w: Widget)
    ensures w in AddedOf(ws, before) <==> w in ws && w.id !in before
    ensures w in NewInstances(ModifiedOf(ws, before)) <==> w in ws && w.id in before && !SameSettings(before[w.id], w)
    ensures w in UnchangedOf(ws, before, false) <==> w in ws && w.id in before && SameSettings(before[w.id], w)
  {
    if ws != [] {
      var rest, x := ws[..|ws| - 1], ws[|ws| - 1];
      ClassMembers(rest, before, w);
      assert ws == rest + [x];
      var c := Classify(x, before);
      if c.Changed? {
        assert NewInstances(ModifiedOf(ws, before)) == NewInstances(ModifiedOf(rest, before)) + [x];
      } else {
        assert NewInstances(ModifiedOf(ws, before)) == NewInstances(ModifiedOf(rest, before));
      }
    }
  }

  /** What a recorded change says: the widgets before and after, whether the type is another one, and whether the
      widget's own data are outdated. */
  lemma {:induction false} ChangesAreRecorded(ws: seq<Widget>, before: map<string, Widget>, d: InstanceDiff)
    ensures d in ModifiedOf(ws, before) <==>
              && d.newInstance in ws && d.newInstance.id in before && d.oldInstance == before[d.newInstance.id]
              && !SameSettings(d.oldInstance, d.newInstance)
              && (d.change == Replaced <==> d.oldInstance.kind != d.newInstance.kind)
              && (d.domainChange <==> d.oldInstance.kind != d.newInstance.kind || d.oldInstance.config != d.newInstance.config)
  {
    if ws != [] {
      var rest, x := ws[..|ws| - 1], ws[|ws| - 1];
      ChangesAreRecorded(rest, before, d);
      assert ws == rest + [x];
    }
  }

  /** Unchanged widgets that have been moved or resized are listed for the layout. */
  lemma {:induction false} LayoutMembers(ws: seq<Widget>, before: map<string, Widget>, w: Widget)
    ensures w in UnchangedOf(ws, before, true) <==>
              && w in ws && w.id in before && SameSettings(before[w.id], w)
              && !(before[w.id].dimensions == w.dimensions && before[w.id].pinned == w.pinned)
  {
    if ws != [] {
      var rest, x := ws[..|ws| - 1], ws[|ws| - 1];
      LayoutMembers(rest, before, w);
      assert ws == rest + [x];
    }
  }

  lemma {:induction false} RemovedMembers(ws: seq<Widget>, after: map<string, Widget>, w: Widget)
    ensures w in RemovedOf(ws, after) <==> w in ws && w.id !in after
  {
    if ws != [] {
      RemovedMembers(ws[..|ws| - 1], after, w);
      assert ws == ws[..|ws| - 1] + [ws[|ws| - 1]];
    }
  }

  lemma {:induction false} ClassesKeepDistinct(ws: seq<Widget>, before: map<string, Widget>)
    requires DistinctIds(ws)
    ensures DistinctIds(AddedOf(ws, before)) && DistinctIds(NewInstances(ModifiedOf(ws, before)))
    ensures DistinctIds(UnchangedOf(ws, before, false))
  {
    hide Classify, NewInstances, AddedOf, ModifiedOf, UnchangedOf, SameSettings, DistinctIds;
    if ws == [] {
      NothingDiffers(ws, ws);
      assert ws[..0] == ws;
      NoInstances();
      NoIds();
    } else {
      var rest, w := ws[..|ws| - 1], ws[|ws| - 1];
      LastIsNew(ws);
      ClassesKeepDistinct(rest, before);
      assert ws[..|ws|] == ws;
      DiffOneMore(ws, |ws| - 1, before);
      NewInstancesOneMore(ModifiedOf(rest, before), Classify(w, before));
      ClassifiedItself(w, before);
      forall x ensures x in AddedOf(rest, before) ==> x.id != w.id
               ensures x in NewInstances(ModifiedOf(rest, before)) ==> x.id != w.id
               ensures x in UnchangedOf(rest, before, false) ==> x.id != w.id {
        ClassMembers(rest, before, x);
      }
      OneMoreDistinct(AddedOf(rest, before), w);
      OneMoreDistinct(NewInstances(ModifiedOf(rest, before)), w);
      OneMoreDistinct(UnchangedOf(rest, before, false), w);
    }
  }

  lemma NoIds()
    ensures DistinctIds([])
  {}

  lemma LastIsNew(ws: seq<Widget>)
    requires DistinctIds(ws) && ws != []
    ensures DistinctIds(ws[..|ws| - 1]) && forall x :: x in ws[..|ws| - 1] ==> x.id != ws[|ws| - 1].id
  {}

  lemma OneMoreDistinct(ws: seq<Widget>, w: Widget)
    requires DistinctIds(ws) && forall x :: x in ws ==> x.id != w.id
    ensures DistinctIds(ws + [w]) && ws + [] == ws
  {}

  // ----- what runs after an update

  /** What a worker was initialised with. */
  datatype Running = Running(widget: Widget, timezone: string)

  type View = map<string, Running>

  function Start(v: View, w: Widget, timezone: string, starts: Widget -> bool): View {
    if starts(w) then v[w.id := Running(w, timezone)] else v
  }

  /** The widgets are started one after the other, each after its old worker was stopped if asked for. */
  function StartAll(v: View, ws: seq<Widget>, timezone: string, starts: Widget -> bool, stopFirst: bool): View {
    if ws == [] then v
    else
      var rest := StartAll(v, ws[..|ws| - 1], timezone, starts, stopFirst);
      var w := ws[|ws| - 1];
      Start(if stopFirst then rest - {w.id} else rest, w, timezone, starts)
  }

  function Reconcile(v: View, before: Option<Config>, after: Config, starts: Widget -> bool): View {
    match before
    case None => StartAll(v, after.widgets, after.timezone, starts, false)
    case Some(o) =>
      var d := DiffOf(o, after);
      var v1 := v - Ids(d.removed);
      var v2 := StartAll(v1, NewInstances(d.modified), after.timezone, starts, true);
      var v3 := if d.timezoneChanged then StartAll(v2, d.kept, after.timezone, starts, true) else v2;
      StartAll(v3, d.added, after.timezone, starts, false)
  }

  /** A worker with the settings the configuration has for it now. */
  predicate IsCurrent(r: Running, id: string, cfg: Config) {
    r.timezone == cfg.timezone && exists w :: w in cfg.widgets && w.id == id && SameSettings(r.widget, w)
  }

  /** Every worker is current. */
  predicate Agrees(v: View, cfg: Option<Config>) {
    forall id :: id in v ==> cfg.Some? && IsCurrent(v[id], id, cfg.value)
  }

  predicate SameAt(v: View, v': View, id: string) {
    (id in v <==> id in v') && (id in v ==> v[id] == v'[id])
  }

  lemma {:induction false} StartAllElsewhere(v: View, ws: seq<Widget>, timezone: string, starts: Widget -> bool, stopFirst: bool, id: string)
    requires id !in Ids(ws)
    ensures SameAt(StartAll(v, ws, timezone, starts, stopFirst), v, id)
  {
    if ws != [] {
      var rest, w := ws[..|ws| - 1], ws[|ws| - 1];
      assert w in ws && forall x :: x in rest ==> x in ws;
      StartAllElsewhere(v, rest, timezone, starts, stopFirst, id);
    }
  }

  /** The last widget with the id. */
  function LastOf(ws: seq<Widget>, id: string): (r: Option<Widget>)
    ensures r.None? ==> id !in Ids(ws)
    ensures r.Some? ==> r.value in ws && r.value.id == id
  {
    if ws == [] then None
    else if ws[|ws| - 1].id == id then Some(ws[|ws| - 1])
    else
      assert ws == ws[..|ws| - 1] + [ws[|ws| - 1]];
      LastOf(ws[..|ws| - 1], id)
  }

  /** The last widget with the id that can be started. */
  function LastStarted(ws: seq<Widget>, id: string, starts: Widget -> bool): (r: Option<Widget>)
    ensures r.None? ==> forall w :: w in ws && w.id == id ==> !starts(w)
    ensures r.Some? ==> r.value in ws && r.value.id == id && starts(r.value)
  {
    if ws == [] then None
    else if ws[|ws| - 1].id == id && starts(ws[|ws| - 1]) then Some(ws[|ws| - 1])
    else
      assert ws == ws[..|ws| - 1] + [ws[|ws| - 1]];
      LastStarted(ws[..|ws| - 1], id, starts)
  }

  /** Under an id runs what w was started with, exactly if it could be. */
  predicate RunsExactly(r: View, id: string, w: Widget, timezone: string, starts: Widget -> bool) {
    (id in r <==> starts(w)) && (id in r ==> r[id] == Running(w, timezone))
  }

  /** When each start stops the old worker first, the last widget of an id decides. */
  lemma {:induction false} RestartedAt(v: View, ws: seq<Widget>, timezone: string, starts: Widget -> bool, id: string)
    ensures var r := StartAll(v, ws, timezone, starts, true);
            match LastOf(ws, id)
            case None => SameAt(r, v, id)
            case Some(w) => RunsExactly(r, id, w, timezone, starts)
  {
    if ws != [] && ws[|ws| - 1].id != id {
      RestartedAt(v, ws[..|ws| - 1], timezone, starts, id);
    }
  }

  /** When nothing is stopped, the last widget of an id that starts decides. */
  lemma {:induction false} StartedAt(v: View, ws: seq<Widget>, timezone: string, starts: Widget -> bool, id: string)
    ensures var r := StartAll(v, ws, timezone, starts, false);
            match LastStarted(ws, id, starts)
            case None => SameAt(r, v, id)
            case Some(w) => RunsExactly(r, id, w, timezone, starts)
  {
    if ws != [] && !(ws[|ws| - 1].id == id && starts(ws[|ws| - 1])) {
      StartedAt(v, ws[..|ws| - 1], timezone, starts, id);
    }
  }

  /** The widget whose start comes last among those that stop the old worker first: the last unchanged one if the
      time zone changed, otherwise the last changed one. */
  function Decider(before: Config, after: Config, id: string): Option<Widget> {
    var d := DiffOf(before, after);
    if d.timezoneChanged && LastOf(d.kept, id).Some? then LastOf(d.kept, id) else LastOf(NewInstances(d.modified), id)
  }

  /**
    What runs under an id after an update, for any two configurations: the last added widget that starts; else
    the decider, if it starts; and if there is none, what ran before unless the id is gone.
   */
  lemma ConfiguredRuns(v: View, before: Config, after: Config, starts: Widget -> bool, id: string)
    ensures var r, d := Reconcile(v, Some(before), after, starts), DiffOf(before, after);
            match LastStarted(d.added, id, starts)
            case Some(w) => RunsExactly(r, id, w, after.timezone, starts)
            case None =>
              match Decider(before, after, id)
              case Some(w) => RunsExactly(r, id, w, after.timezone, starts)
              case None => SameAt(r, v - Ids(d.removed), id)
  {
    hide StartAll, DiffOf, NewInstances, LastOf, LastStarted, Ids;
    var d := DiffOf(before, after);
    var v1 := v - Ids(d.removed);
    var v2 := StartAll(v1, NewInstances(d.modified), after.timezone, starts, true);
    var v3 := if d.timezoneChanged then StartAll(v2, d.kept, after.timezone, starts, true) else v2;
    RestartedAt(v1, NewInstances(d.modified), after.timezone, starts, id);
    RestartedAt(v2, d.kept, after.timezone, starts, id);
    StartedAt(v3, d.added, after.timezone, starts, id);
  }

  /** An update restarts the widget: it is new, its settings changed, or the time zone did. */
  /** With distinct ids the first configuration runs exactly the widgets that can be started. */
  lemma FirstRuns(after: Config, starts: Widget -> bool, w: Widget)
    requires DistinctIds(after.widgets) && w in after.widgets
    ensures RunsExactly(Reconcile(map[], None, after, starts), w.id, w, after.timezone, starts)
  {
    hide StartAll, LastStarted;
    StartedAt(map[], after.widgets, after.timezone, starts, w.id);
    var last := LastStarted(after.widgets, w.id, starts);
    if last.Some? {
      SameIdSameWidget(after.widgets, w, last.value);
    }
  }

  predicate Restarts(w: Widget, before: Option<Config>, after: Config) {
    before.None? || before.value.timezone != after.timezone
    || var om := WidgetMap(before.value.widgets); w.id !in om || !SameSettings(om[w.id], w)
  }

  lemma DiffParts(before: Config, after: Config)
    ensures var d, om := DiffOf(before, after), WidgetMap(before.widgets);
            && d.added == AddedOf(after.widgets, om) && d.modified == ModifiedOf(after.widgets, om)
            && d.kept == UnchangedOf(after.widgets, om, false)
            && d.removed == RemovedOf(before.widgets, WidgetMap(after.widgets))
            && d.timezoneChanged == (before.timezone != after.timezone)
  {}

  /** The class of a widget, and what is removed. */
  lemma Classes(before: Config, after: Config, w: Widget)
    ensures var d, om := DiffOf(before, after), WidgetMap(before.widgets);
            && (w in d.added <==> w in after.widgets && w.id !in om)
            && (w in NewInstances(d.modified) <==> w in after.widgets && w.id in om && !SameSettings(om[w.id], w))
            && (w in d.kept <==> w in after.widgets && w.id in om && SameSettings(om[w.id], w))
            && (w in d.removed <==> w in before.widgets && w.id !in Ids(after.widgets))
            && om.Keys == Ids(before.widgets)
  {
    hide Classify, NewInstances, AddedOf, ModifiedOf, UnchangedOf, SameSettings, WidgetMap, RemovedOf;
    ClassMembers(after.widgets, WidgetMap(before.widgets), w);
    RemovedMembers(before.widgets, WidgetMap(after.widgets), w);
    WidgetMapHolds(after.widgets);
    WidgetMapHolds(before.widgets);
  }

  /** A widget gone from the configuration has no worker. */
  lemma RemovedDoesNotRun(v: View, before: Config, after: Config, starts: Widget -> bool, id: string)
    requires Agrees(v, Some(before)) && id !in Ids(after.widgets)
    ensures id !in Reconcile(v, Some(before), after, starts)
  {
    hide Reconcile, DiffOf, NewInstances, LastOf, LastStarted, SameSettings, WidgetMap;
    ConfiguredRuns(v, before, after, starts, id);
    var d := DiffOf(before, after);
    forall w: Widget ensures w in d.added || w in NewInstances(d.modified) || w in d.kept ==> w in after.widgets {
      Classes(before, after, w);
    }
    if id in v {
      var w :| w in before.widgets && w.id == id && SameSettings(v[id].widget, w);
      Classes(before, after, w);
    }
  }

  /** With distinct ids, a class that holds a widget's id holds the widget. */
  lemma ClassesById(before: Config, after: Config, w: Widget)
    requires DistinctIds(after.widgets) && w in after.widgets
    ensures var d, om := DiffOf(before, after), WidgetMap(before.widgets);
            && (w.id in Ids(d.added) <==> w in d.added) && (w in d.added <==> w.id !in om)
            && (w.id in Ids(NewInstances(d.modified)) <==> w in NewInstances(d.modified))
            && (w in NewInstances(d.modified) <==> w.id in om && !SameSettings(om[w.id], w))
            && (w.id in Ids(d.kept) <==> w in d.kept) && (w in d.kept <==> w.id in om && SameSettings(om[w.id], w))
            && w.id !in Ids(d.removed)
  {
    hide Classify, NewInstances, AddedOf, ModifiedOf, UnchangedOf, SameSettings, WidgetMap, RemovedOf, DistinctIds;
    var d, om := DiffOf(before, after), WidgetMap(before.widgets);
    ClassMembers(after.widgets, om, w);
    forall x: Widget ensures x.id == w.id && (x in d.added || x in NewInstances(d.modified) || x in d.kept) ==> x == w {
      ClassMembers(after.widgets, om, x);
      if x in after.widgets && x.id == w.id {
        SameIdSameWidget(after.widgets, x, w);
      }
    }
    WidgetMapHolds(after.widgets);
    forall x: Widget ensures x in d.removed ==> x.id != w.id {
      RemovedMembers(before.widgets, WidgetMap(after.widgets), x);
    }
  }

  lemma SameIdSameWidget(ws: seq<Widget>, x: Widget, y: Widget)
    requires DistinctIds(ws) && x in ws && y in ws && x.id == y.id
    ensures x == y
  {}

  /** With distinct ids a widget of the new configuration is restarted with its new settings, or its worker is left alone. */
  lemma DistinctRuns(v: View, before: Config, after: Config, starts: Widget -> bool, w: Widget)
    requires DistinctIds(after.widgets) && Agrees(v, Some(before)) && w in after.widgets
    ensures var r := Reconcile(v, Some(before), after, starts);
            if Restarts(w, Some(before), after) then RunsExactly(r, w.id, w, after.timezone, starts) else SameAt(r, v, w.id)
  {
    hide Reconcile, DiffOf, NewInstances, LastOf, LastStarted, SameSettings, WidgetMap, DistinctIds, Agrees;
    ConfiguredRuns(v, before, after, starts, w.id);
    Classes(before, after, w);
    ClassesById(before, after, w);
    AddedWasNotRunning(v, before, w.id);
    DiffParts(before, after);
    var d := DiffOf(before, after);
    forall x: Widget ensures x.id == w.id && (x in d.added || x in NewInstances(d.modified) || x in d.kept) ==> x == w {
      Classes(before, after, x);
      if x in after.widgets && x.id == w.id {
        SameIdSameWidget(after.widgets, x, w);
      }
    }
  }

  lemma AddedWasNotRunning(v: View, before: Config, id: string)
    requires Agrees(v, Some(before))
    ensures id !in WidgetMap(before.widgets) ==> id !in v
  {
    hide SameSettings;
    WidgetMapHolds(before.widgets);
  }

  // ----- workers stay current

  /** Every worker has the settings that the next update will compare with: those of the last widget of its id. */
  predicate UpToDate(v: View, before: Config) {
    forall id :: id in v && id in WidgetMap(before.widgets) ==> SameSettings(v[id].widget, WidgetMap(before.widgets)[id])
  }

  lemma NewlyStartedIsCurrent(w: Widget, cfg: Config)
    requires w in cfg.widgets
    ensures IsCurrent(Running(w, cfg.timezone), w.id, cfg)
  {}

  /** A worker the update does not touch is current in the new configuration. */
  lemma LeftAloneIsCurrent(v: View, before: Config, after: Config, id: string)
    requires Agrees(v, Some(before)) && UpToDate(v, before) && id in v && id !in Ids(DiffOf(before, after).removed)
    requires Decider(before, after, id).None?
    ensures IsCurrent(v[id], id, after)
  {
    hide DiffOf, NewInstances, LastOf, WidgetMap;
    var o :| o in before.widgets && o.id == id && SameSettings(v[id].widget, o);
    Classes(before, after, o);
    DiffParts(before, after);
    assert id in Ids(after.widgets);
    var w :| w in after.widgets && w.id == id;
    Classes(before, after, w);
    assert w !in NewInstances(DiffOf(before, after).modified);
    assert w in DiffOf(before, after).kept;
  }

  /** Workers that are up to date are current after any update, whatever the configuration and whatever can be started. */
  lemma UpToDateStaysCurrent(v: View, before: Config, after: Config, starts: Widget -> bool)
    requires Agrees(v, Some(before)) && UpToDate(v, before)
    ensures Agrees(Reconcile(v, Some(before), after, starts), Some(after))
  {
    hide Reconcile, DiffOf, NewInstances, LastStarted, SameSettings, WidgetMap, IsCurrent, UpToDate;
    var r, d := Reconcile(v, Some(before), after, starts), DiffOf(before, after);
    forall id | id in r ensures IsCurrent(r[id], id, after) {
      ConfiguredRuns(v, before, after, starts, id);
      if LastStarted(d.added, id, starts).Some? {
        var w := LastStarted(d.added, id, starts).value;
        Classes(before, after, w);
        NewlyStartedIsCurrent(w, after);
      } else if Decider(before, after, id).Some? {
        var w := Decider(before, after, id).value;
        Classes(before, after, w);
        NewlyStartedIsCurrent(w, after);
      } else {
        LeftAloneIsCurrent(v, before, after, id);
      }
    }
  }

  /** Widgets with the same id have the same settings. */
  predicate Coherent(ws: seq<Widget>) {
    forall i, j :: 0 <= i < |ws| && 0 <= j < |ws| && ws[i].id == ws[j].id ==> SameSettings(ws[i], ws[j])
  }

  predicate IsCoherent(cfg: Option<Config>) {
    cfg.Some? ==> Coherent(cfg.value.widgets)
  }

  lemma CoherentIsUpToDate(v: View, before: Config)
    requires Agrees(v, Some(before)) && Coherent(before.widgets)
    ensures UpToDate(v, before)
  {
    hide SameSettings, WidgetMap, Coherent;
    WidgetMapHolds(before.widgets);
    forall id | id in v && id in WidgetMap(before.widgets) ensures SameSettings(v[id].widget, WidgetMap(before.widgets)[id]) {
      var o :| o in before.widgets && o.id == id && SameSettings(v[id].widget, o);
      CoherentAt(before.widgets, o, WidgetMap(before.widgets)[id]);
      SameSettingsChain(v[id].widget, o, WidgetMap(before.widgets)[id]);
    }
  }

  lemma CoherentAt(ws: seq<Widget>, a: Widget, b: Widget)
    requires Coherent(ws) && a in ws && b in ws && a.id == b.id
    ensures SameSettings(a, b)
  {
    var i :| 0 <= i < |ws| && ws[i] == a;
    var j :| 0 <= j < |ws| && ws[j] == b;
  }

  lemma SameSettingsChain(a: Widget, b: Widget, c: Widget)
    requires SameSettings(a, b) && SameSettings(b, c)
    ensures SameSettings(a, c) && SameSettings(b, a)
  {}

  /**
    After an update every worker has the current settings of a widget of the current configuration, whatever
    that configuration is and whatever providers could be started.
   */
  lemma ReconcileAgrees(v: View, before: Option<Config>, after: Config, starts: Widget -> bool)
    requires IsCoherent(before) && Agrees(v, before)
    ensures Agrees(Reconcile(v, before, after, starts), Some(after))
  {
    hide Coherent, SameSettings, IsCurrent, LastStarted, UpToDate;
    if before.None? {
      NothingRuns(v, before);
      var r := Reconcile(v, before, after, starts);
      forall id | id in r ensures IsCurrent(r[id], id, after) {
        StartedAt(v, after.widgets, after.timezone, starts, id);
        NewlyStartedIsCurrent(LastStarted(after.widgets, id, starts).value, after);
      }
    } else {
      CoherentIsUpToDate(v, before.value);
      UpToDateStaysCurrent(v, before.value, after, starts);
    }
  }

  lemma NothingRuns(v: View, cfg: Option<Config>)
    requires Agrees(v, cfg)
    ensures cfg.None? ==> v == map[]
  {}

  /** A history of updates: each configuration with the providers that could be started. */
  datatype Update = Update(config: Config, starts: Widget -> bool)

  function RunAll(v: View, before: Option<Config>, updates: seq<Update>): (View, Option<Config>)
    decreases |updates|
  {
    if updates == [] then (v, before)
    else RunAll(Reconcile(v, before, updates[0].config, updates[0].starts), Some(updates[0].config), updates[1..])
  }

  /** However many updates there are, the running workers match the last configuration. */
  lemma {:induction false} RunAgrees(v: View, before: Option<Config>, updates: seq<Update>)
    requires Agrees(v, before) && (updates != [] ==> IsCoherent(before))
    requires forall i :: 0 <= i < |updates| - 1 ==> Coherent(updates[i].config.widgets)
    ensures var (r, last) := RunAll(v, before, updates); Agrees(r, last)
    decreases |updates|
  {
    hide Reconcile, Coherent, Agrees;
    if updates != [] {
      ReconcileAgrees(v, before, updates[0].config, updates[0].starts);
      RunAgrees(Reconcile(v, before, updates[0].config, updates[0].starts), Some(updates[0].config), updates[1..]);
    }
  }

  // ----- workers that would be lost

  /** A widget is started although a worker runs under its id, which nothing will stop. */
  ghost predicate Overwrites(v: View, ws: seq<Widget>, timezone: string, starts: Widget -> bool, stopFirst: bool) {
    !stopFirst && exists i :: 0 <= i < |ws| && starts(ws[i]) && ws[i].id in StartAll(v, ws[..i], timezone, starts, stopFirst)
  }

  /** Some worker is lost from the map while it runs. */
  ghost predicate Leaks(v: View, before: Option<Config>, after: Config, starts: Widget -> bool) {
    match before
    case None => Overwrites(v, after.widgets, after.timezone, starts, false)
    case Some(o) =>
      var d := DiffOf(o, after);
      var v2 := StartAll(v - Ids(d.removed), NewInstances(d.modified), after.timezone, starts, true);
      var v3 := if d.timezoneChanged then StartAll(v2, d.kept, after.timezone, starts, true) else v2;
      Overwrites(v3, d.added, after.timezone, starts, false)
  }
}
