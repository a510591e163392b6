/**
  Where resuming ends: an id that is issued only after the connection presenting it has subscribed.
  The events queued before that one are not in the filter, so the filter is dropped too early.
 */
module ResumeLimits {
  import opened Ring
  import opened Resume

  predicate IsStreaming(s: State, c: ClientId) {
    c in s.clients && s.clients[c].conn.Streaming?
  }

  /** The handler writes the whole initial batch. */
  function WriteBatch(cfg: Config, s: State, c: ClientId): State
    requires IsStreaming(s, c)
    decreases |s.clients[c].conn.batch|
  {
    if s.clients[c].conn.batch == [] then s else WriteBatch(cfg, Apply(cfg, s, WriteInitial(c)), c)
  }

  lemma {:induction false} BatchIsWritten(cfg: Config, s: State, c: ClientId)
    requires IsStreaming(s, c)
    ensures var conn := s.clients[c].conn;
            WriteBatch(cfg, s, c) == SetConn(s, c, conn.(batch := [], wire := conn.wire + conn.batch))
    decreases |s.clients[c].conn.batch|
  {
    var conn := s.clients[c].conn;
    if conn.batch == [] {
      assert conn.wire + conn.batch == conn.wire;
      assert s.clients[c := s.clients[c]] == s.clients;
    } else {
      var t := Apply(cfg, s, WriteInitial(c));
      BatchIsWritten(cfg, t, c);
      assert conn.wire + [conn.batch[0]] + conn.batch[1..] == conn.wire + conn.batch;
    }
  }

  /** A connection whose last event id is that of event i and is found, while its queue starts at event p. */
  predicate Presents(cfg: Config, s: State, c: ClientId, i: nat, p: int) {
    && c in s.clients && s.clients[c].conn.Subscribed? && s.clients[c].conn.sub in s.subs
    && i < |s.log| && s.clients[c].lastId == s.log[i].event.id
    && Replay(s.log, cfg.ringCapacity, cfg.ringTtl, s.clients[c].lastId, s.now).Hit?
    && s.subs[s.clients[c].conn.sub].queue != [] && p == Position(s.subs[s.clients[c].conn.sub])
  }

  /** What is on the wire after the replay and the first queued event. */
  function FirstWire(cfg: Config, s: State, c: ClientId, i: nat, p: int): seq<Event>
    requires Presents(cfg, s, c, i, p)
  {
    var t := WriteBatch(cfg, DoPrepare(cfg, s, c, []), c);
    assert Enabled(Config(0, 0, 0), t, Forward(c)) by { BatchIsWritten(cfg, DoPrepare(cfg, s, c, []), c); }
    DoForward(t, c).clients[c].conn.wire
  }

  lemma ReplayedBatch(cfg: Config, s: State, c: ClientId, i: nat, p: int)
    requires LogOk(s) && Presents(cfg, s, c, i, p)
    ensures Replay(s.log, cfg.ringCapacity, cfg.ringTtl, s.clients[c].lastId, s.now) == Hit(EventsOf(s.log)[i + 1..])
  {
    hide Replay;
    ReplayIsExact(s.log, cfg.ringCapacity, cfg.ringTtl, i, s.now);
    assert EventsOf(s.log[i + 1..]) == EventsOf(s.log)[i + 1..];
  }

  lemma SeenFrom(s: State, i: nat, j: int)
    requires LogOk(s) && i < |s.log| && 0 <= j < |s.log|
    ensures s.log[j].event.id in {s.log[i].event.id} + IdsOf(EventsOf(s.log)[i + 1..]) <==> j >= i
  {
    var rest := EventsOf(s.log)[i + 1..];
    if j > i {
      assert rest[j - i - 1] == s.log[j].event;
    }
    if s.log[j].event.id in IdsOf(rest) {
      var k :| 0 <= k < |rest| && rest[k].id == s.log[j].event.id;
      assert rest[k] == s.log[i + 1 + k].event;
      assert DistinctIds(s.log);
      assert i + 1 + k == j;
    }
  }

  /**
    The condition is exact: after the replay, the first queued event is a repetition the filter removes
    if the queue starts at the presented event or later; otherwise it is written, although the client was
    told everything before its id is known to it.
   */
  lemma FilterHoldsIff(cfg: Config, s: State, c: ClientId, i: nat, p: int)
    requires LogOk(s) && SubsOk(s) && Presents(cfg, s, c, i, p)
    ensures 0 <= p < |s.log|
    ensures FirstWire(cfg, s, c, i, p) == if i <= p then EventsOf(s.log)[i + 1..] else EventsOf(s.log)[i + 1..] + [EventsOf(s.log)[p]]
  {
    hide Replay, SubOk, SubsOk, LogOk;
    var sub := s.clients[c].conn.sub;
    SubAt(s, sub);
    ReplayedBatch(cfg, s, c, i, p);
    var t := DoPrepare(cfg, s, c, []);
    BatchIsWritten(cfg, t, c);
    SeenFrom(s, i, p);
    assert s.subs[sub].queue[0] == EventsOf(s.log)[p];
    assert [] + EventsOf(s.log)[i + 1..] == EventsOf(s.log)[i + 1..];
  }

  // ----- a run that gets there

  ghost predicate Leads(cfg: Config, s: State, steps: seq<Step>, t: State)
    decreases |steps|
  {
    if steps == [] then s == t else Enabled(cfg, s, steps[0]) && Leads(cfg, Apply(cfg, s, steps[0]), steps[1..], t)
  }

  lemma {:induction false} LeadsOn(cfg: Config, s: State, xs: seq<Step>, t: State, ys: seq<Step>, u: State)
    requires Leads(cfg, s, xs, t) && Leads(cfg, t, ys, u)
    ensures Leads(cfg, s, xs + ys, u)
    decreases |xs|
  {
    hide Enabled, Apply;
    if xs == [] {
      assert xs + ys == ys;
    } else {
      assert (xs + ys)[1..] == xs[1..] + ys;
      LeadsOn(cfg, Apply(cfg, s, xs[0]), xs[1..], t, ys, u);
    }
  }

  lemma OneStep(cfg: Config, s: State, step: Step, t: State)
    requires Enabled(cfg, s, step) && t == Apply(cfg, s, step)
    ensures Leads(cfg, s, [step], t)
  {
    hide Enabled, Apply;
    assert [step][1..] == [];
  }

  /** The states of a run that leads from the start to t. */
  lemma {:induction false} LeadsIsRun(cfg: Config, s: State, steps: seq<Step>, t: State) returns (states: seq<State>)
    requires Leads(cfg, s, steps, t)
    ensures |states| == |steps| + 1 && states[0] == s && states[|steps|] == t
    ensures forall i :: 0 <= i < |steps| ==> Enabled(cfg, states[i], steps[i]) && states[i + 1] == Apply(cfg, states[i], steps[i])
    decreases |steps|
  {
    hide Enabled, Apply;
    if steps == [] {
      states := [s];
    } else {
      var rest := LeadsIsRun(cfg, Apply(cfg, s, steps[0]), steps[1..], t);
      states := [s] + rest;
      forall i | 0 <= i < |steps| ensures Enabled(cfg, states[i], steps[i]) && states[i + 1] == Apply(cfg, states[i], steps[i]) {
        if i > 0 {
          assert states[i] == rest[i - 1] && steps[i] == steps[1..][i - 1];
        }
      }
    }
  }

  const CFG := Config(3, 0, 3)
  const A := Event("a", "", "")
  const X := Event("x", "", "")
  const B := Event("b", "", "")

  /** One client has presented "x" and subscribed, and these events were published since. */
  function Waiting(es: seq<Event>): State {
    State(seq(|es|, i requires 0 <= i < |es| => Entry(es[i], 0)), 0, Idle, IdsOf(es),
          map[0 := Sub(es, |es|, false)], {0}, 1, map[0 := Client("x", [], 0, Subscribed(0))])
  }

  lemma IsWaiting()
    ensures Leads(CFG, START, [Join(0, "x"), Connect(0)], Waiting([]))
  {
    var s := Apply(CFG, START, Join(0, "x"));
    OneStep(CFG, START, Join(0, "x"), s);
    assert s == START.(clients := map[0 := Client("x", [], 0, Offline)]);
    var t := Apply(CFG, s, Connect(0));
    OneStep(CFG, s, Connect(0), t);
    assert t == Waiting([]);
    LeadsOn(CFG, START, [Join(0, "x")], s, [Connect(0)], t);
    assert [Join(0, "x")] + [Connect(0)] == [Join(0, "x"), Connect(0)];
  }

  function Publishing(e: Event): seq<Step> {
    [Publish(e), Snapshot] + [Offer(0, false), Finish]
  }

  lemma TwoSteps(cfg: Config, s: State, a: Step, b: Step)
    requires Enabled(cfg, s, a) && Enabled(cfg, Apply(cfg, s, a), b)
    ensures Leads(cfg, s, [a, b], Apply(cfg, Apply(cfg, s, a), b))
  {
    hide Enabled, Apply;
    var t := Apply(cfg, s, a);
    OneStep(cfg, s, a, t);
    OneStep(cfg, t, b, Apply(cfg, t, b));
    LeadsOn(cfg, s, [a], t, [b], Apply(cfg, t, b));
    assert [a] + [b] == [a, b];
  }

  lemma PublishOne(es: seq<Event>, e: Event)
    requires |es| < 3 && e.id != "" && e.id !in IdsOf(es)
    ensures Leads(CFG, Waiting(es), Publishing(e), Waiting(es + [e]))
  {
    hide Leads;
    var s := Waiting(es);
    TwoSteps(CFG, s, Publish(e), Snapshot);
    var t := Apply(CFG, Apply(CFG, s, Publish(e)), Snapshot);
    TwoSteps(CFG, t, Offer(0, false), Finish);
    var u := Apply(CFG, Apply(CFG, t, Offer(0, false)), Finish);
    LeadsOn(CFG, s, [Publish(e), Snapshot], t, [Offer(0, false), Finish], u);
    var w := Waiting(es + [e]);
    assert w.log == s.log + [Entry(e, 0)];
    assert w.usedIds == s.usedIds + {e.id} by { IdsAppend(es, e); }
    assert u == w;
  }

  lemma IdsAppend(es: seq<Event>, e: Event)
    ensures IdsOf(es + [e]) == IdsOf(es) + {e.id}
  {
    var fs := es + [e];
    forall i | 0 <= i < |es| ensures es[i].id in IdsOf(fs) { assert fs[i] == es[i]; }
    assert fs[|es|] == e;
    forall i | 0 <= i < |fs| ensures fs[i].id in IdsOf(es) + {e.id} { assert i < |es| ==> fs[i] == es[i]; }
  }

  lemma ThreePublished()
    ensures Leads(CFG, START, [Join(0, "x"), Connect(0)] + Publishing(A) + Publishing(X) + Publishing(B), Waiting([A, X, B]))
  {
    hide Leads, Waiting, Publishing;
    IsWaiting();
    PublishOne([], A);
    assert [] + [A] == [A];
    assert IdsOf([A]) == {"a"} && IdsOf([A, X]) == {"a", "x"} by { IdsAppend([], A); IdsAppend([A], X); assert [A] + [X] == [A, X]; assert IdsOf([]) == {}; }
    PublishOne([A], X);
    assert [A] + [X] == [A, X];
    PublishOne([A, X], B);
    assert [A, X] + [B] == [A, X, B];
    LeadsOn(CFG, START, [Join(0, "x"), Connect(0)], Waiting([]), Publishing(A), Waiting([A]));
    LeadsOn(CFG, START, [Join(0, "x"), Connect(0)] + Publishing(A), Waiting([A]), Publishing(X), Waiting([A, X]));
    LeadsOn(CFG, START, [Join(0, "x"), Connect(0)] + Publishing(A) + Publishing(X), Waiting([A, X]), Publishing(B), Waiting([A, X, B]));
  }

  /** The state with the client's connection replaced. */
  function With(client: Client, queue: seq<Event>): State {
    Waiting([A, X, B]).(subs := map[0 := Sub(queue, 3, false)], clients := map[0 := client])
  }

  lemma PreparesB(s: State)
    requires s == Waiting([A, X, B])
    ensures Enabled(CFG, s, Prepare(0, []))
    ensures Apply(CFG, s, Prepare(0, [])) == With(Client("x", [], 2, Streaming(0, [], [B], Some({"x"} + IdsOf([B])), [])), [A, X, B])
  {
    hide Replay, Behind, IdsOf;
    assert s.log == [Entry(A, 0), Entry(X, 0), Entry(B, 0)];
    assert DistinctIds(s.log) && ClockOrdered(s.log, 0);
    ReplayIsExact(s.log, 3, 0, 1, 0);
    assert EventsOf(s.log[2..]) == [B];
    assert Behind(s.log, "x") == 2;
  }

  lemma WritesB(s: State)
    requires s == With(Client("x", [], 2, Streaming(0, [], [B], Some({"x"} + IdsOf([B])), [])), [A, X, B])
    ensures Enabled(CFG, s, WriteInitial(0))
    ensures Apply(CFG, s, WriteInitial(0)) == With(Client("x", [], 2, Streaming(0, [], [], Some({"x"} + IdsOf([B])), [B])), [A, X, B])
  {
    hide Waiting, IdsOf;
    assert [B][1..] == [] && [] + [B] == [B];
  }

  lemma Delivered()
    ensures Leads(CFG, Waiting([A, X, B]), [Prepare(0, []), WriteInitial(0)] + [Forward(0), Receive(0)] + [Receive(0)],
                  With(Client("a", [B, A], 2, Streaming(0, [], [], None, [])), [X, B]))
  {
    hide Leads, Enabled, Apply, Waiting, With, IdsOf;
    var s := Waiting([A, X, B]);
    PreparesB(s);
    WritesB(Apply(CFG, s, Prepare(0, [])));
    TwoSteps(CFG, s, Prepare(0, []), WriteInitial(0));
    var s2 := Apply(CFG, Apply(CFG, s, Prepare(0, [])), WriteInitial(0));
    FromThere(s2);
    LeadsOn(CFG, s, [Prepare(0, []), WriteInitial(0)], s2, [Forward(0), Receive(0)] + [Receive(0)],
            With(Client("a", [B, A], 2, Streaming(0, [], [], None, [])), [X, B]));
    assert [Prepare(0, []), WriteInitial(0)] + [Forward(0), Receive(0)] + [Receive(0)] ==
           [Prepare(0, []), WriteInitial(0)] + ([Forward(0), Receive(0)] + [Receive(0)]);
  }

  lemma ForwardsA(s: State)
    requires s == With(Client("x", [], 2, Streaming(0, [], [], Some({"x"} + IdsOf([B])), [B])), [A, X, B])
    ensures Enabled(CFG, s, Forward(0))
    ensures Apply(CFG, s, Forward(0)) == With(Client("x", [], 2, Streaming(0, [], [], None, [B, A])), [X, B])
  {
    hide Waiting;
    assert IdsOf([B]) == {"b"} by { assert [B][0] == B; }
    assert [A, X, B][1..] == [X, B] && [B] + [A] == [B, A];
  }

  lemma ReceivesB(s: State)
    requires s == With(Client("x", [], 2, Streaming(0, [], [], None, [B, A])), [X, B])
    ensures Enabled(CFG, s, Receive(0))
    ensures Apply(CFG, s, Receive(0)) == With(Client("b", [B], 2, Streaming(0, [], [], None, [A])), [X, B])
  {
    hide Waiting;
    assert [B, A][1..] == [A] && [] + [B] == [B];
  }

  lemma ReceivesA(s: State)
    requires s == With(Client("b", [B], 2, Streaming(0, [], [], None, [A])), [X, B])
    ensures Enabled(CFG, s, Receive(0))
    ensures Apply(CFG, s, Receive(0)) == With(Client("a", [B, A], 2, Streaming(0, [], [], None, [])), [X, B])
  {
    hide Waiting;
    assert [A][1..] == [] && [B] + [A] == [B, A];
  }

  lemma FromThere(s2: State)
    requires s2 == With(Client("x", [], 2, Streaming(0, [], [], Some({"x"} + IdsOf([B])), [B])), [A, X, B])
    ensures Leads(CFG, s2, [Forward(0), Receive(0)] + [Receive(0)], With(Client("a", [B, A], 2, Streaming(0, [], [], None, [])), [X, B]))
  {
    hide Leads, Enabled, Apply, With;
    ForwardsA(s2);
    var s3 := Apply(CFG, s2, Forward(0));
    ReceivesB(s3);
    TwoSteps(CFG, s2, Forward(0), Receive(0));
    var s4 := Apply(CFG, s3, Receive(0));
    ReceivesA(s4);
    OneStep(CFG, s4, Receive(0), Apply(CFG, s4, Receive(0)));
    LeadsOn(CFG, s2, [Forward(0), Receive(0)], s4, [Receive(0)], Apply(CFG, s4, Receive(0)));
  }

  /**
    A run in which a client presents "x" before "x" is issued: events a, x and b are published, and the client
    receives b and then a, which is no stretch of them.
   */
  lemma EarlyIdGetsRepetitions() returns (steps: seq<Step>, states: seq<State>)
    ensures IsRun(CFG, steps, states) && !IsHonest(CFG, steps, states)
    ensures var s := states[|steps|];
            && EventsOf(s.log) == [A, X, B] && 0 in s.clients && s.clients[0].live == [B, A]
            && s.clients[0].live != EventsOf(s.log)[0..2] && s.clients[0].live != EventsOf(s.log)[1..3]
  {
    hide Enabled, Apply, Leads, Waiting, With, Publishing;
    ThreePublished();
    Delivered();
    var first := [Join(0, "x"), Connect(0)] + Publishing(A) + Publishing(X) + Publishing(B);
    var delivery := [Prepare(0, []), WriteInitial(0)] + [Forward(0), Receive(0)] + [Receive(0)];
    var last := With(Client("a", [B, A], 2, Streaming(0, [], [], None, [])), [X, B]);
    LeadsOn(CFG, START, first, Waiting([A, X, B]), delivery, last);
    steps := first + delivery;
    states := LeadsIsRun(CFG, START, steps, last);
    NoStretch(last);
    if IsHonest(CFG, steps, states) {
      ReceivedWithoutGapOrDuplicate(CFG, steps, states, |steps|, 0);
      assert false;
    }
  }

  lemma NoStretch(s: State)
    requires s == With(Client("a", [B, A], 2, Streaming(0, [], [], None, [])), [X, B])
    ensures EventsOf(s.log) == [A, X, B] && 0 in s.clients && s.clients[0].live == [B, A]
    ensures s.clients[0].live != EventsOf(s.log)[0..2] && s.clients[0].live != EventsOf(s.log)[1..3]
  {
    assert EventsOf(s.log)[0..2] == [A, X] && EventsOf(s.log)[1..3] == [X, B];
    assert [B, A][0] != [A, X][0] && [B, A][0] != [X, B][0];
  }
}
