/** The coordinator: a map of running workers, updated in place by every change of the configuration. */
module Coordinator {
  import opened Reconciler
  import opened RepeatedIds

  class Worker {
    const widget: Widget
    const timezone: string
    var stopped: bool

    constructor (widget: Widget, timezone: string)
      ensures this.widget == widget && this.timezone == timezone && !stopped
    {
      this.widget, this.timezone, stopped := widget, timezone, false;
    }
  }

  /** A payload a provider pushed, under the id of a widget. */
  datatype Payload = Payload(widgetId: string, data: string)

  /** What each worker was initialised with. */
  ghost function ViewOf(workers: map<string, Worker>): View {
    map id | id in workers :: Running(workers[id].widget, workers[id].timezone)
  }

  /** The same worker, or none, in both maps. */
  ghost predicate SameWorker(a: map<string, Worker>, b: map<string, Worker>, id: string) {
    (id in a <==> id in b) && (id in a ==> a[id] == b[id])
  }

  class ProviderCoordinator {
    var workers: map<string, Worker>
    var snapshot: Option<Config>
    var stopped: bool
    /** Every payload recorded from a worker. */
    var recorded: seq<Payload>
    /** Every worker ever started. */
    ghost var started: set<Worker>

    /** The workers in the map were started under their ids and have not been stopped. */
    ghost predicate Tracked()
      reads this`workers, this`started, started
    {
      forall id :: id in workers ==> workers[id] in started && workers[id].widget.id == id && !workers[id].stopped
    }

    /** Every started worker that has not been stopped is in the map. */
    ghost predicate NoLeaks()
      reads this`workers, this`started, started
    {
      forall w :: w in started && !w.stopped ==> w.widget.id in workers && workers[w.widget.id] == w
    }

    /** What holds whatever the configurations are. */
    ghost predicate Wired()
      reads this, started
    {
      Tracked() && (stopped || snapshot.None? ==> workers == map[])
    }

    /** No worker is lost, and all of them match the configuration. */
    ghost predicate Valid()
      reads this, started
    {
      Wired() && NoLeaks() && Agrees(ViewOf(workers), snapshot)
    }

    /** Only new workers are added, and a stopped worker stays stopped. */
    twostate predicate Grows()
      reads this, started
    {
      && old(started) <= started && fresh(started - old(started))
      && forall w :: w in old(started) && old(w.stopped) ==> w.stopped
    }

    constructor (initial: Option<Config>, starts: Widget -> bool)
      ensures Wired() && !stopped && snapshot == initial && fresh(started) && recorded == []
      ensures Agrees(ViewOf(workers), snapshot) && (initial.None? || OneStartPerId(initial.value.widgets, starts) ==> Valid())
      ensures initial.Some? ==> ViewOf(workers) == Reconcile(map[], None, initial.value, starts)
      ensures initial.Some? ==> (NoLeaks() <==> !Leaks(map[], None, initial.value, starts))
    {
      hide Tracked, NoLeaks, Agrees, Reconcile, Leaks, OneStartPerId, Overwrites, StartAll;
      workers, snapshot, stopped, recorded, started := map[], initial, false, [], {};
      new;
      NothingYet();
      EmptyView();
      if initial.Some? {
        FromNothing(map[], initial.value, starts);
        StartEach(initial.value.widgets, initial.value.timezone, starts, false);
        ReconcileAgrees(map[], None, initial.value, starts);
        LeaksIff(map[], None, initial.value, starts);
      }
    }

    /** Nothing runs and nothing is lost. */
    lemma NothingYet()
      requires workers == map[] && started == {}
      ensures Tracked() && NoLeaks() && Agrees(map[], snapshot) && Agrees(map[], None)
    {}

    /** Starts a worker; one that runs under the same id is lost from the map. */
    method StartSingleWorker(w: Widget, timezone: string, starts: Widget -> bool)
      requires Tracked()
      modifies this`workers, this`started
      ensures Tracked() && Grows() && ViewOf(workers) == Start(old(ViewOf(workers)), w, timezone, starts)
      ensures NoLeaks() <==> old(NoLeaks()) && !(starts(w) && w.id in old(workers))
      ensures forall id :: id != w.id ==> SameWorker(workers, old(workers), id)
    {
      if !starts(w) {
        return;
      }
      var worker := new Worker(w, timezone);
      workers := workers[w.id := worker];
      started := started + {worker};
      assert worker !in old(started);
      if w.id in old(workers) {
        assert old(workers)[w.id] in started && !old(workers)[w.id].stopped;
      } else if !old(NoLeaks()) {
        ghost var lost :| lost in old(started) && !old(lost.stopped)
                          && !(lost.widget.id in old(workers) && old(workers)[lost.widget.id] == lost);
        assert lost in started && !lost.stopped && !(lost.widget.id in workers && workers[lost.widget.id] == lost);
      }
    }

    method StopWorker(id: string)
      requires Tracked()
      modifies this`workers, started
      ensures Tracked() && Grows() && started == old(started) && workers == old(workers) - {id}
      ensures NoLeaks() <==> old(NoLeaks())
    {
      if id !in workers {
        return;
      }
      var w := workers[id];
      workers := workers - {id};
      w.stopped := true;
      if !old(NoLeaks()) {
        ghost var lost :| lost in old(started) && !old(lost.stopped)
                          && !(lost.widget.id in old(workers) && old(workers)[lost.widget.id] == lost);
        assert lost != w && lost in started && !lost.stopped && !(lost.widget.id in workers && workers[lost.widget.id] == lost);
      }
    }

    method StartOne(w: Widget, timezone: string, starts: Widget -> bool, stopFirst: bool)
      requires Tracked()
      modifies this`workers, this`started, started
      ensures Tracked() && Grows()
      ensures NoLeaks() <==> old(NoLeaks()) && (stopFirst || !(starts(w) && w.id in old(workers)))
      ensures ViewOf(workers) ==
                Start(if stopFirst then old(ViewOf(workers)) - {w.id} else old(ViewOf(workers)), w, timezone, starts)
      ensures forall id :: id != w.id ==> SameWorker(workers, old(workers), id)
    {
      hide Tracked, NoLeaks, Start;
      if stopFirst {
        StopWorker(w.id);
      }
      assert ViewOf(workers) == if stopFirst then old(ViewOf(workers)) - {w.id} else old(ViewOf(workers));
      ghost var stoppedFirst := workers;
      StartSingleWorker(w, timezone, starts);
      forall id | id != w.id ensures SameWorker(workers, old(workers), id) {
        assert SameWorker(workers, stoppedFirst, id);
      }
    }

    /** Starts the widgets one after the other, stopping each one's old worker first if asked to. */
    method StartEach(ws: seq<Widget>, timezone: string, starts: Widget -> bool, stopFirst: bool)
      requires Tracked()
      modifies this`workers, this`started, started
      ensures Tracked() && Grows() && ViewOf(workers) == StartAll(old(ViewOf(workers)), ws, timezone, starts, stopFirst)
      ensures NoLeaks() <==> old(NoLeaks()) && !Overwrites(old(ViewOf(workers)), ws, timezone, starts, stopFirst)
      ensures forall id :: id !in Ids(ws) ==> SameWorker(workers, old(workers), id)
    {
      hide Tracked, NoLeaks, StartAll, Start, ViewOf, Ids, Overwrites;
      ghost var v := ViewOf(workers);
      NoneStarted(v, ws, timezone, starts, stopFirst);
      for i := 0 to |ws|
        invariant Tracked() && Grows() && ViewOf(workers) == StartAll(v, ws[..i], timezone, starts, stopFirst)
        invariant NoLeaks() <==> old(NoLeaks()) && !Overwrites(v, ws[..i], timezone, starts, stopFirst)
        invariant forall id :: id !in Ids(ws[..i]) ==> SameWorker(workers, old(workers), id)
      {
        OneMoreStarted(v, ws, i, timezone, starts, stopFirst);
        OneMoreOverwritten(v, ws, i, timezone, starts, stopFirst);
        ViewKeys(workers);
        ghost var before := workers;
        StartOne(ws[i], timezone, starts, stopFirst);
        forall id | id !in Ids(ws[..i + 1]) ensures SameWorker(workers, old(workers), id) {
          assert SameWorker(workers, before, id) && SameWorker(before, old(workers), id);
        }
      }
      assert ws[..|ws|] == ws;
    }

    method StopEach(ws: seq<Widget>)
      requires Tracked()
      modifies this`workers, started
      ensures Tracked() && Grows() && started == old(started) && workers == old(workers) - Ids(ws)
      ensures NoLeaks() <==> old(NoLeaks())
    {
      hide Tracked, NoLeaks;
      for i := 0 to |ws|
        invariant Tracked() && Grows() && started == old(started) && workers == old(workers) - Ids(ws[..i])
        invariant NoLeaks() <==> old(NoLeaks())
      {
        assert ws[..i + 1] == ws[..i] + [ws[i]];
        StopWorker(ws[i].id);
      }
      assert ws[..|ws|] == ws;
    }

    /** Stops, restarts and starts workers as the difference of the configurations asks for. */
    method ApplyDiff(oldCfg: Config, newCfg: Config, starts: Widget -> bool)
      requires Tracked()
      modifies this`workers, this`started, started
      ensures Tracked() && Grows()
      ensures ViewOf(workers) == Reconcile(old(ViewOf(workers)), Some(oldCfg), newCfg, starts)
      ensures NoLeaks() <==> old(NoLeaks()) && !Leaks(old(ViewOf(workers)), Some(oldCfg), newCfg, starts)
      ensures DistinctIds(newCfg.widgets) ==>
                forall w :: w in newCfg.widgets && !Restarts(w, Some(oldCfg), newCfg) ==> SameWorker(workers, old(workers), w.id)
    {
      hide Tracked, NoLeaks, StartAll, Ids, DistinctIds, ViewOf, Restarts, DiffOf, WidgetMap, Overwrites;
      var diff := DiffConfigs(oldCfg, newCfg);
      StopEach(diff.removed);
      ViewMinus(old(workers), Ids(diff.removed));
      ghost var w1 := workers;
      StartEach(NewInstances(diff.modified), newCfg.timezone, starts, true);
      ghost var w2 := workers;
      if diff.timezoneChanged {
        StartEach(diff.kept, newCfg.timezone, starts, true);
      }
      ghost var w3 := workers;
      StartEach(diff.added, newCfg.timezone, starts, false);
      StoppingDoesNotOverwrite(NewInstances(diff.modified), diff.kept, newCfg.timezone, starts);
      if DistinctIds(newCfg.widgets) {
        forall w | w in newCfg.widgets && !Restarts(w, Some(oldCfg), newCfg) ensures SameWorker(workers, old(workers), w.id) {
          LeftAlone(oldCfg, newCfg, w);
          assert SameWorker(w2, w1, w.id) && SameWorker(workers, w3, w.id);
        }
      }
    }

    /** A new configuration is taken over unless the coordinator has been stopped or there is none. */
    method UpdateConfig(snap: Option<Config>, starts: Widget -> bool) returns (ok: bool)
      requires Wired()
      modifies this`workers, this`started, this`snapshot, started
      ensures Wired() && Grows()
      ensures ok == (!old(stopped) && snap.Some?)
      ensures !ok ==> snapshot == old(snapshot) && workers == old(workers) && started == old(started)
      ensures ok ==> snapshot == snap && ViewOf(workers) == Reconcile(old(ViewOf(workers)), old(snapshot), snap.value, starts)
      ensures ok ==> (NoLeaks() <==> old(NoLeaks()) && !Leaks(old(ViewOf(workers)), old(snapshot), snap.value, starts))
      ensures ok && DistinctIds(snap.value.widgets) ==>
                forall w :: w in snap.value.widgets && !Restarts(w, old(snapshot), snap.value) ==> SameWorker(workers, old(workers), w.id)
      ensures old(Valid()) && IsCoherent(old(snapshot)) && (ok ==> OneStartPerId(NewlyAdded(old(snapshot), snap.value), starts)) ==> Valid()
    {
      hide Tracked, NoLeaks, Agrees, DistinctIds, Reconcile, Leaks, Coherent, OneStartPerId, NewlyAdded, Known;
      if stopped || snap.None? {
        return false;
      }
      var oldSnap := snapshot;
      ghost var v := ViewOf(workers);
      if oldSnap.Some? {
        ApplyDiff(oldSnap.value, snap.value, starts);
      } else {
        EmptyView();
        StartEach(snap.value.widgets, snap.value.timezone, starts, false);
        FromNothing(map[], snap.value, starts);
      }
      snapshot := snap;
      if old(Valid()) && IsCoherent(oldSnap) {
        ReconcileAgrees(v, oldSnap, snap.value, starts);
        AgreesIsKnown(v, oldSnap);
        LeaksIff(v, oldSnap, snap.value, starts);
      }
      return true;
    }

    /** Stops every worker for good. */
    method Shutdown()
      requires Wired()
      modifies this`workers, this`stopped, started
      ensures Wired() && stopped && Grows() && started == old(started)
      ensures old(Valid()) ==> Valid()
      ensures old(NoLeaks()) ==> forall w :: w in started ==> w.stopped
    {
      if stopped {
        return;
      }
      stopped := true;
      var ids := workers.Keys;
      while ids != {}
        invariant ids <= workers.Keys && workers == old(workers) && started == old(started) && stopped
        invariant forall id :: id in workers && id !in ids ==> workers[id].stopped
        invariant forall w :: w in started && old(w.stopped) ==> w.stopped
        decreases |ids|
      {
        var id :| id in ids;
        workers[id].stopped := true;
        ids := ids - {id};
      }
      workers := map[];
    }

    /** A push is recorded only if it comes from the worker that is running now. */
    method RecordWorkerPush(w: Worker?, payload: Payload) returns (ok: bool)
      requires Wired()
      modifies this`recorded
      ensures Wired() && (old(Valid()) ==> Valid())
      ensures ok <==> w != null && !w.stopped && payload.widgetId in workers && workers[payload.widgetId] == w
      ensures recorded == if ok then old(recorded) + [payload] else old(recorded)
      ensures NoLeaks() && w != null && w in started && payload.widgetId == w.widget.id ==> (ok <==> !w.stopped)
      ensures ok && Valid() ==> snapshot.Some? && IsCurrent(Running(w.widget, w.timezone), payload.widgetId, snapshot.value)
    {
      if w == null || w.stopped {
        return false;
      }
      if payload.widgetId !in workers || workers[payload.widgetId] != w {
        return false;
      }
      assert ViewOf(workers)[payload.widgetId] == Running(w.widget, w.timezone);
      recorded := recorded + [payload];
      return true;
    }
  }

  lemma FromNothing(v: View, after: Config, starts: Widget -> bool)
    ensures Reconcile(v, None, after, starts) == StartAll(v, after.widgets, after.timezone, starts, false)
    ensures Leaks(v, None, after, starts) == Overwrites(v, after.widgets, after.timezone, starts, false)
  {}

  lemma EmptyView()
    ensures ViewOf(map[]) == map[]
  {}

  lemma StoppingDoesNotOverwrite(a: seq<Widget>, b: seq<Widget>, timezone: string, starts: Widget -> bool)
    ensures forall v :: !Overwrites(v, a, timezone, starts, true) && !Overwrites(v, b, timezone, starts, true)
  {}

  lemma OneMoreOverwritten(v: View, ws: seq<Widget>, i: nat, timezone: string, starts: Widget -> bool, stopFirst: bool)
    requires i < |ws|
    ensures !Overwrites(v, ws[..0], timezone, starts, stopFirst)
    ensures Overwrites(v, ws[..i + 1], timezone, starts, stopFirst) <==>
              || Overwrites(v, ws[..i], timezone, starts, stopFirst)
              || (!stopFirst && starts(ws[i]) && ws[i].id in StartAll(v, ws[..i], timezone, starts, stopFirst))
  {
    hide StartAll;
    var more, less := ws[..i + 1], ws[..i];
    assert forall j :: 0 <= j <= i ==> more[..j] == ws[..j];
    assert forall j :: 0 <= j < i ==> less[..j] == ws[..j] && less[j] == more[j];
    assert more[i] == ws[i];
  }

  /** A widget that need not restart is touched by no step of the update. */
  lemma LeftAlone(before: Config, after: Config, w: Widget)
    requires DistinctIds(after.widgets) && w in after.widgets && !Restarts(w, Some(before), after)
    ensures var d := DiffOf(before, after);
            && w.id !in Ids(d.removed) && w.id !in Ids(NewInstances(d.modified)) && w.id !in Ids(d.added) && !d.timezoneChanged
  {
    hide Ids, DistinctIds, SameSettings, WidgetMap, NewInstances, DiffOf;
    DiffParts(before, after);
    ClassesById(before, after, w);
  }

  lemma ViewMinus(workers: map<string, Worker>, ids: set<string>)
    ensures ViewOf(workers - ids) == ViewOf(workers) - ids
  {}

  lemma ViewKeys(workers: map<string, Worker>)
    ensures ViewOf(workers).Keys == workers.Keys
  {}

  lemma NoneStarted(v: View, ws: seq<Widget>, timezone: string, starts: Widget -> bool, stopFirst: bool)
    ensures StartAll(v, ws[..0], timezone, starts, stopFirst) == v && !Overwrites(v, ws[..0], timezone, starts, stopFirst)
  {}

  lemma OneMoreStarted(v: View, ws: seq<Widget>, i: nat, timezone: string, starts: Widget -> bool, stopFirst: bool)
    requires i < |ws|
    ensures var rest := StartAll(v, ws[..i], timezone, starts, stopFirst);
            StartAll(v, ws[..i + 1], timezone, starts, stopFirst) ==
              Start(if stopFirst then rest - {ws[i].id} else rest, ws[i], timezone, starts)
    ensures Ids(ws[..i + 1]) == Ids(ws[..i]) + {ws[i].id}
  {
    assert ws[..i + 1][..i] == ws[..i] && ws[..i + 1] == ws[..i] + [ws[i]];
  }
}
