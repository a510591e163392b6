/**
  The event stream protocol: publishing, subscribing, replaying after a reconnect.

  A publish is three kinds of steps: the event is added to the replay buffer, the set of
  subscribers is read, and the event is offered to each of them. A connection first
  subscribes, then asks for a replay, then writes the replayed events, then forwards its
  queue. Steps of all clients and of the publisher interleave in any order. Connections end
  at any point, losing whatever is on the wire; a full queue ends a subscription.
 */
module Resume {
  import opened Ring

  type ClientId = nat
  type SubId = nat

  datatype Option<+T> = None | Some(value: T)

  datatype Config = Config(ringCapacity: nat, ringTtl: int, queueCapacity: nat)

  /** Idle, or the last event of the log has been added, or it is being offered to `pending`. */
  datatype Phase = Idle | Added | Sending(pending: set<SubId>)

  /** A subscription: its queued events and, as a history variable, the position in the log of
      the event it will be offered next. */
  datatype Sub = Sub(queue: seq<Event>, next: int, closed: bool)

  /** A connection: subscribed only; or past its replay, with hydration ids still to reach the
      client, replayed events still to be written, the ids to skip, and events on the wire. */
  datatype Conn =
    | Offline
    | Subscribed(sub: SubId)
    | Streaming(sub: SubId, hydration: seq<string>, batch: seq<Event>, seen: Option<set<string>>, wire: seq<Event>)

  /** A client: its last event id, the live events it has received since it started or the server
      last fell back to hydration and, as a history variable, the position of the first of them. */
  datatype Client = Client(lastId: string, live: seq<Event>, start: int, conn: Conn)

  datatype State = State(
    log: seq<Entry>, now: int, phase: Phase, usedIds: set<string>,
    subs: map<SubId, Sub>, registered: set<SubId>, nextSub: SubId, clients: map<ClientId, Client>)

  datatype Step =
    | Tick(dt: nat)
    | Publish(event: Event)
    | Snapshot
    | Offer(sub: SubId, gone: bool)
    | Finish
    | CloseSub(sub: SubId)
    | Join(client: ClientId, lastId: string)
    | Connect(client: ClientId)
    | Prepare(client: ClientId, hydration: seq<string>)
    | WriteInitial(client: ClientId)
    | Forward(client: ClientId)
    | Receive(client: ClientId)
    | Drop(client: ClientId)

  // ----- the steps

  function IdsOf(es: seq<Event>): set<string> {
    set i | 0 <= i < |es| :: es[i].id
  }

  predicate Enabled(cfg: Config, s: State, step: Step) {
    match step
    case Tick(_) => true
    case Publish(e) => s.phase.Idle? && e.id != "" && e.id !in s.usedIds
    case Snapshot => s.phase.Added?
    case Offer(sub, _) => s.phase.Sending? && sub in s.phase.pending && sub in s.subs
    case Finish => s.phase.Sending? && s.phase.pending == {}
    case CloseSub(sub) => sub in s.subs && sub !in s.registered
    case Join(c, _) => c in s.clients ==> s.clients[c].conn.Offline?
    case Connect(c) => c in s.clients && s.clients[c].conn.Offline?
    case Prepare(c, hydration) =>
      && c in s.clients && s.clients[c].conn.Subscribed?
      && forall i :: 0 <= i < |hydration| ==> hydration[i] != "" && hydration[i] !in s.usedIds
    case WriteInitial(c) => c in s.clients && s.clients[c].conn.Streaming? && s.clients[c].conn.batch != []
    case Forward(c) =>
      && c in s.clients && s.clients[c].conn.Streaming? && s.clients[c].conn.batch == []
      && s.clients[c].conn.sub in s.subs && s.subs[s.clients[c].conn.sub].queue != []
    case Receive(c) =>
      c in s.clients && s.clients[c].conn.Streaming? && (s.clients[c].conn.hydration != [] || s.clients[c].conn.wire != [])
    case Drop(c) => c in s.clients && !s.clients[c].conn.Offline?
  }

  function Apply(cfg: Config, s: State, step: Step): State
    requires Enabled(cfg, s, step)
  {
    match step
    case Tick(dt) => s.(now := s.now + dt)
    case Publish(e) => s.(log := s.log + [Entry(e, s.now)], phase := Added, usedIds := s.usedIds + {e.id})
    case Snapshot => s.(phase := Sending(s.registered))
    case Offer(sub, gone) => OfferTo(cfg, s, sub, gone).(phase := Sending(s.phase.pending - {sub}))
    case Finish => s.(phase := Idle)
    case CloseSub(sub) => s.(subs := s.subs[sub := s.subs[sub].(closed := true)])
    case Join(c, lastId) => s.(clients := s.clients[c := Client(lastId, [], Behind(s.log, lastId), Offline)])
    case Connect(c) => DoConnect(s, c)
    case Prepare(c, hydration) => DoPrepare(cfg, s, c, hydration)
    case WriteInitial(c) =>
      var conn := s.clients[c].conn;
      SetConn(s, c, conn.(batch := conn.batch[1..], wire := conn.wire + [conn.batch[0]]))
    case Forward(c) => DoForward(s, c)
    case Receive(c) => s.(clients := s.clients[c := DoReceive(s.clients[c])])
    case Drop(c) => SetConn(s, c, Offline).(registered := s.registered - {s.clients[c].conn.sub})
  }

  /** The position after the event with the given id, or 0 if there is none. */
  function Behind(log: seq<Entry>, id: string): (n: nat)
    ensures n <= |log| && (n > 0 ==> log[n - 1].event.id == id)
    ensures n == 0 ==> forall i :: 0 <= i < |log| ==> log[i].event.id != id
  {
    if Find(log, id) < |log| then Find(log, id) + 1 else 0
  }

  function SetConn(s: State, c: ClientId, conn: Conn): State
    requires c in s.clients
  {
    s.(clients := s.clients[c := s.clients[c].(conn := conn)])
  }

  function Newest(log: seq<Entry>): Event {
    if log == [] then Event("", "", "") else log[|log| - 1].event
  }

  /** Offers the last event to a subscriber: skipped if closed, evicted if its request is gone or
      its queue is full. */
  function OfferTo(cfg: Config, s: State, sub: SubId, gone: bool): State
    requires sub in s.subs
  {
    var x := s.subs[sub];
    if gone then s.(registered := s.registered - {sub})
    else if x.closed then s
    else if |x.queue| < cfg.queueCapacity then
      s.(subs := s.subs[sub := Sub(x.queue + [Newest(s.log)], x.next + 1, false)])
    else s.(registered := s.registered - {sub})
  }

  function DoConnect(s: State, c: ClientId): State
    requires c in s.clients
  {
    var next := if s.phase.Added? then |s.log| - 1 else |s.log|;
    SetConn(s, c, Subscribed(s.nextSub)).(
      subs := s.subs[s.nextSub := Sub([], next, false)], registered := s.registered + {s.nextSub}, nextSub := s.nextSub + 1)
  }

  /** Replay if the last event id is found, otherwise hydration. */
  function DoPrepare(cfg: Config, s: State, c: ClientId, hydration: seq<string>): State
    requires c in s.clients && s.clients[c].conn.Subscribed?
  {
    var client := s.clients[c];
    match Replay(s.log, cfg.ringCapacity, cfg.ringTtl, client.lastId, s.now)
    case Hit(events) =>
      var start := if client.live == [] then Behind(s.log, client.lastId) else client.start;
      s.(clients := s.clients[c := client.(
           start := start, conn := Streaming(client.conn.sub, [], events, Some({client.lastId} + IdsOf(events)), []))])
    case Miss =>
      s.(usedIds := s.usedIds + (set i | 0 <= i < |hydration| :: hydration[i]),
         clients := s.clients[c := Client(client.lastId, [], 0, Streaming(client.conn.sub, hydration, [], None, []))])
  }

  /** Forwards one queued event; the first one not yet seen ends the filtering. */
  function DoForward(s: State, c: ClientId): State
    requires Enabled(Config(0, 0, 0), s, Forward(c))
  {
    var client := s.clients[c];
    var conn := client.conn;
    var sub := s.subs[conn.sub];
    var e, position := sub.queue[0], sub.next - |sub.queue|;
    var popped := s.(subs := s.subs[conn.sub := sub.(queue := sub.queue[1..])]);
    if conn.seen.Some? && e.id in conn.seen.value then popped
    else
      var start := if client.live == [] && conn.wire == [] then position else client.start;
      popped.(clients := s.clients[c := client.(start := start, conn := conn.(seen := None, wire := conn.wire + [e]))])
  }

  function DoReceive(client: Client): Client
    requires client.conn.Streaming? && (client.conn.hydration != [] || client.conn.wire != [])
  {
    var conn := client.conn;
    if conn.hydration != [] then client.(lastId := conn.hydration[0], conn := conn.(hydration := conn.hydration[1..]))
    else client.(lastId := conn.wire[0].id, live := client.live + [conn.wire[0]], conn := conn.(wire := conn.wire[1..]))
  }

  // ----- the invariant

  predicate Lagging(s: State, id: SubId) {
    s.phase.Added? || (s.phase.Sending? && id in s.phase.pending)
  }

  /** A subscription's queue is the part of the log just before the event it is offered next; a
      registered subscription is behind by exactly the event being published. */
  ghost predicate SubOk(s: State, id: SubId)
    requires id in s.subs
  {
    var x := s.subs[id];
    && id < s.nextSub && |x.queue| <= x.next <= |s.log|
    && x.queue == EventsOf(s.log)[x.next - |x.queue|..x.next]
    && (id in s.registered ==> !x.closed && x.next == |s.log| - if Lagging(s, id) then 1 else 0)
    && (s.phase.Sending? && id in s.phase.pending && !x.closed ==> x.next == |s.log| - 1)
  }

  /** The position in the log of the oldest event in a queue. */
  function Position(x: Sub): int {
    x.next - |x.queue|
  }

  /** The client's last event id is that of the event just before the next one it waits for. */
  predicate Anchored(s: State, client: Client) {
    var end := client.start + |client.live|;
    1 <= end <= |s.log| && client.lastId == s.log[end - 1].event.id
  }

  /** The client has received log[start .. start + |live|], and nothing else, since it started or was
      hydrated. */
  ghost predicate HistoryOk(s: State, client: Client) {
    var end := client.start + |client.live|;
    && 0 <= client.start && end <= |s.log| && client.live == EventsOf(s.log)[client.start..end]
    && (client.live != [] ==> Anchored(s, client))
  }

  /** If the log holds the id, then at or before the given position. */
  predicate IssuedBefore(log: seq<Entry>, id: string, position: int) {
    forall j :: 0 <= j < |log| && log[j].event.id == id ==> j <= position
  }

  ghost predicate ConnOk(s: State, client: Client) {
    var end := client.start + |client.live|;
    match client.conn
    case Offline => true
    case Subscribed(sub) => sub in s.subs && IssuedBefore(s.log, client.lastId, Position(s.subs[sub]))
    case Streaming(sub, hydration, batch, seen, wire) =>
      var mid := end + |wire|;
      && sub in s.subs && 0 <= end && mid <= |s.log| && wire == EventsOf(s.log)[end..mid]
      && (forall i :: 0 <= i < |hydration| ==> hydration[i] in s.usedIds && forall j :: 0 <= j < |s.log| ==> s.log[j].event.id != hydration[i])
      && (hydration != [] ==> client.live == [] && seen.None?)
      && match seen
         case Some(ids) => 1 <= end && ReplayOk(s, mid, batch, ids, Position(s.subs[sub]))
         case None => batch == [] && ((client.live == [] && wire == [] && client.start == 0) || mid == Position(s.subs[sub]))
  }

  /** While the filter is on: the batch is what follows in the log up to n, the queue starts no
      later than n, and the filter holds exactly ids from before n, all those the queue can repeat
      among them. */
  ghost predicate ReplayOk(s: State, mid: int, batch: seq<Event>, ids: set<string>, position: int) {
    var n := mid + |batch|;
    && 0 <= mid && n <= |s.log| && batch == EventsOf(s.log)[mid..n]
    && 0 <= position <= n
    && (forall j :: position <= j < n ==> s.log[j].event.id in ids)
    && (forall j :: n <= j < |s.log| ==> s.log[j].event.id !in ids)
    && ids <= s.usedIds
  }

  ghost predicate ClientOk(s: State, client: Client) {
    HistoryOk(s, client) && ConnOk(s, client)
  }

  predicate Uses(client: Client, id: SubId) {
    !client.conn.Offline? && client.conn.sub == id
  }

  /** Event ids are distinct and recorded as used, and the clock never goes back. */
  ghost predicate LogOk(s: State) {
    && DistinctIds(s.log) && ClockOrdered(s.log, s.now)
    && (forall i :: 0 <= i < |s.log| ==> s.log[i].event.id in s.usedIds)
  }

  ghost predicate SubsOk(s: State) {
    && (!s.phase.Idle? ==> s.log != [])
    && (s.phase.Sending? ==> s.phase.pending <= s.subs.Keys) && s.registered <= s.subs.Keys
    && (forall id :: id in s.subs ==> SubOk(s, id))
  }

  /** No two connections share a subscription. */
  ghost predicate Separate(s: State) {
    && (forall c :: c in s.clients && !s.clients[c].conn.Offline? ==> s.clients[c].conn.sub < s.nextSub)
    && (forall c, d :: c in s.clients && d in s.clients && c != d && !s.clients[c].conn.Offline? ==>
          !Uses(s.clients[d], s.clients[c].conn.sub))
  }

  ghost predicate ClientsOk(s: State) {
    forall c :: c in s.clients ==> ClientOk(s, s.clients[c])
  }

  ghost predicate Inv(s: State) {
    LogOk(s) && SubsOk(s) && Separate(s) && ClientsOk(s)
  }

  // ----- what other steps leave alone

  /** The log, the used ids and the clock only grow, and new events have new ids. */
  ghost predicate Extends(s: State, t: State) {
    && s.log <= t.log && s.usedIds <= t.usedIds && s.now <= t.now
    && (forall i :: |s.log| <= i < |t.log| ==> t.log[i].event.id !in s.usedIds && t.log[i].event.id != "")
  }

  lemma SliceGrows(s: seq<Entry>, t: seq<Entry>, a: int, b: int)
    requires s <= t && 0 <= a <= b <= |s|
    ensures EventsOf(t)[a..b] == EventsOf(s)[a..b]
  {
    assert forall i :: a <= i < b ==> t[i] == s[i];
  }

  /** A client is undisturbed by any step that is not its own and leaves its queue's start alone. */
  lemma ClientFrame(cfg: Config, s: State, t: State, client: Client)
    requires LogOk(s) && LogOk(t) && Extends(s, t) && ClientOk(s, client)
    requires !client.conn.Offline? && client.conn.sub in s.subs ==>
               client.conn.sub in t.subs && Position(t.subs[client.conn.sub]) == Position(s.subs[client.conn.sub])
    requires client.conn.Subscribed? && client.conn.sub in t.subs ==>
               forall j :: |s.log| <= j < |t.log| && t.log[j].event.id == client.lastId ==> j <= Position(t.subs[client.conn.sub])
    ensures ClientOk(t, client)
  {
    hide LogOk;
    var end := client.start + |client.live|;
    SliceGrows(s.log, t.log, client.start, end);
    if client.conn.Streaming? {
      var conn := client.conn;
      var mid := end + |conn.wire|;
      SliceGrows(s.log, t.log, end, mid);
      if conn.seen.Some? {
        SliceGrows(s.log, t.log, mid, mid + |conn.batch|);
      }
    }
  }

  // ----- every step keeps the subscriptions in order

  /** An event is not published under the id of a connection that has subscribed and not yet asked for its
      replay, unless that connection's queue starts with this event. */
  predicate Honest(s: State, step: Step) {
    step.Publish? ==>
      forall c :: c in s.clients && s.clients[c].conn.Subscribed? && s.clients[c].lastId == step.event.id
                  && s.clients[c].conn.sub in s.subs ==>
                    Position(s.subs[s.clients[c].conn.sub]) >= |s.log|
  }

  predicate IsQuiet(step: Step) {
    step.Tick? || step.Publish? || step.Snapshot? || step.Offer? || step.Finish? || step.CloseSub?
  }

  lemma PublishKeepsSubs(cfg: Config, s: State, e: Event)
    requires LogOk(s) && SubsOk(s) && Enabled(cfg, s, Publish(e))
    ensures SubsOk(Apply(cfg, s, Publish(e))) && LogOk(Apply(cfg, s, Publish(e)))
  {
    var t := Apply(cfg, s, Publish(e));
    forall id | id in t.subs ensures SubOk(t, id) {
      assert SubOk(s, id);
      SliceGrows(s.log, t.log, Position(s.subs[id]), s.subs[id].next);
    }
  }

  /** A subscription that is left alone stays in order. */
  lemma SubFrame(s: State, t: State, id: SubId)
    requires id in s.subs && SubOk(s, id) && t.log == s.log && s.nextSub <= t.nextSub
    requires id in t.subs && t.subs[id] == s.subs[id]
    requires id in t.registered ==> id in s.registered && Lagging(t, id) == Lagging(s, id)
    requires t.phase.Sending? && id in t.phase.pending ==> s.phase.Sending? && id in s.phase.pending
    ensures SubOk(t, id)
  {}

  /** The subscriber the event is offered to either gets it, keeping its queue a slice of the log,
      or is out for good. */
  lemma OfferedSub(cfg: Config, s: State, sub: SubId, gone: bool)
    requires sub in s.subs && SubOk(s, sub) && s.log != [] && s.phase.Sending? && sub in s.phase.pending
    ensures SubOk(OfferTo(cfg, s, sub, gone).(phase := Sending(s.phase.pending - {sub})), sub)
    ensures Position(OfferTo(cfg, s, sub, gone).subs[sub]) == Position(s.subs[sub])
  {
    var x, es := s.subs[sub], EventsOf(s.log);
    if !gone && !x.closed && |x.queue| < cfg.queueCapacity {
      assert es[Position(x)..x.next] + [es[x.next]] == es[Position(x)..x.next + 1];
    }
  }

  lemma OfferKeepsSubs(cfg: Config, s: State, sub: SubId, gone: bool)
    requires SubsOk(s) && Enabled(cfg, s, Offer(sub, gone))
    ensures SubsOk(Apply(cfg, s, Offer(sub, gone)))
    ensures forall id :: id in s.subs ==>
              id in Apply(cfg, s, Offer(sub, gone)).subs && Position(Apply(cfg, s, Offer(sub, gone)).subs[id]) == Position(s.subs[id])
  {
    hide SubOk, EventsOf;
    var t := Apply(cfg, s, Offer(sub, gone));
    OfferedSub(cfg, s, sub, gone);
    forall id | id in t.subs ensures SubOk(t, id) {
      if id != sub {
        SubFrame(s, t, id);
      }
    }
  }

  lemma SnapshotKeepsSubs(cfg: Config, s: State, step: Step)
    requires LogOk(s) && SubsOk(s) && Enabled(cfg, s, step) && (step.Snapshot? || step.Finish? || step.CloseSub? || step.Tick?)
    ensures SubsOk(Apply(cfg, s, step))
  {
    hide SubOk;
    var t := Apply(cfg, s, step);
    forall id | id in t.subs ensures SubOk(t, id) {
      if step.CloseSub? {
        ClosedSub(s, t, id, step.sub);
      } else if step.Tick? {
        SubFrame(s, t, id);
      } else {
        MovedOn(s, t, id);
      }
    }
  }

  lemma ClosedSub(s: State, t: State, id: SubId, closing: SubId)
    requires id in s.subs && SubOk(s, id) && closing in s.subs && closing !in s.registered
    requires t == s.(subs := s.subs[closing := s.subs[closing].(closed := true)])
    ensures SubOk(t, id)
  {}

  /** The publisher reads the subscribers or is done with them. */
  lemma MovedOn(s: State, t: State, id: SubId)
    requires id in s.subs && SubOk(s, id) && (s.phase.Sending? ==> s.phase.pending == {})
    requires (t == s.(phase := Sending(s.registered)) && s.phase.Added?) || (t == s.(phase := Idle) && s.phase.Sending?)
    ensures SubOk(t, id)
  {}

  /** The publisher's steps, the clock and the closing of ended subscriptions. */
  lemma QuietStepKeepsInv(cfg: Config, s: State, step: Step)
    requires Inv(s) && Enabled(cfg, s, step) && Honest(s, step) && IsQuiet(step)
    ensures Inv(Apply(cfg, s, step))
  {
    hide ClientOk, SubOk, DistinctIds, ClockOrdered, Enabled;
    var t := Apply(cfg, s, step);
    QuietEffect(cfg, s, step);
    forall c | c in t.clients ensures ClientOk(t, t.clients[c]) {
      if s.clients[c].conn.Subscribed? && s.clients[c].conn.sub in s.subs {
        HonestPublish(cfg, s, step, c);
      }
      ClientFrame(cfg, s, t, t.clients[c]);
    }
  }

  lemma HonestPublish(cfg: Config, s: State, step: Step, c: ClientId)
    requires Enabled(cfg, s, step) && Honest(s, step) && IsQuiet(step) && c in s.clients && s.clients[c].conn.Subscribed?
    requires s.clients[c].conn.sub in s.subs
    ensures forall j :: |s.log| <= j < |Apply(cfg, s, step).log| && Apply(cfg, s, step).log[j].event.id == s.clients[c].lastId ==>
                          j <= Position(s.subs[s.clients[c].conn.sub])
  {}

  lemma QuietEffect(cfg: Config, s: State, step: Step)
    requires LogOk(s) && SubsOk(s) && Separate(s) && Enabled(cfg, s, step) && Honest(s, step) && IsQuiet(step)
    ensures var t := Apply(cfg, s, step);
      && LogOk(t) && SubsOk(t) && Separate(t) && Extends(s, t) && t.clients == s.clients
      && (forall id :: id in s.subs ==> id in t.subs && Position(t.subs[id]) == Position(s.subs[id]))
  {
    hide SubsOk, LogOk, Separate;
    var t := Apply(cfg, s, step);
    SeparateSame(s, t);
    match step
    case Publish(e) =>
      PublishKeepsSubs(cfg, s, e);
    case Offer(sub, gone) =>
      OfferKeepsSubs(cfg, s, sub, gone);
      LogSame(s, t);
    case _ =>
      SnapshotKeepsSubs(cfg, s, step);
      LogSame(s, t);
  }

  lemma SeparateSame(s: State, t: State)
    requires Separate(s) && t.clients == s.clients && t.nextSub == s.nextSub
    ensures Separate(t)
  {}

  lemma LogSame(s: State, t: State)
    requires LogOk(s) && t.log == s.log && s.now <= t.now && t.usedIds == s.usedIds
    ensures LogOk(t)
  {}

  // ----- a client's own steps

  /** A step of one client leaves the log alone and every other client undisturbed. */
  ghost predicate OnlyClient(s: State, t: State, c: ClientId) {
    && t.log == s.log && t.now == s.now && t.phase == s.phase && s.nextSub <= t.nextSub
    && s.usedIds <= t.usedIds
    && s.subs.Keys <= t.subs.Keys && t.clients.Keys == s.clients.Keys + {c}
    && (forall d :: d in s.clients && d != c ==> t.clients[d] == s.clients[d])
    && (forall d :: d in s.clients && d != c && !s.clients[d].conn.Offline? && s.clients[d].conn.sub in s.subs ==>
          t.subs[s.clients[d].conn.sub] == s.subs[s.clients[d].conn.sub])
  }

  lemma OwnStepKeepsInv(cfg: Config, s: State, t: State, c: ClientId)
    requires Inv(s) && OnlyClient(s, t, c) && SubsOk(t) && Separate(t)
    requires c in t.clients && ClientOk(t, t.clients[c])
    ensures Inv(t)
  {
    hide ClientOk, SubOk, SubsOk, Separate;
    assert LogOk(t);
    forall d | d in t.clients ensures ClientOk(t, t.clients[d]) {
      if d != c {
        ClientFrame(cfg, s, t, s.clients[d]);
      }
    }
  }

  /** The subscriptions are as they were. */
  lemma SubsUnchanged(s: State, t: State)
    requires SubsOk(s) && t.log == s.log && t.phase == s.phase && t.subs == s.subs && t.nextSub == s.nextSub
    requires t.registered <= s.registered
    ensures SubsOk(t)
  {
    hide SubOk;
    forall id | id in t.subs ensures SubOk(t, id) {
      SubFrame(s, t, id);
    }
  }

  /** A connection that ends, or has not begun, shares its subscription with no one. */
  lemma OfflineIsSeparate(s: State, t: State, c: ClientId)
    requires Separate(s) && t.nextSub == s.nextSub && t.clients.Keys == s.clients.Keys + {c} && t.clients[c].conn.Offline?
    requires forall d :: d in s.clients && d != c ==> t.clients[d] == s.clients[d]
    ensures Separate(t)
  {}

  /** A client may start with any last event id. */
  lemma JoinKeepsInv(cfg: Config, s: State, c: ClientId, lastId: string)
    requires Inv(s) && Enabled(cfg, s, Join(c, lastId))
    ensures Inv(Apply(cfg, s, Join(c, lastId)))
  {
    hide SubsOk, Separate, ClientsOk, LogOk, Behind;
    var t := Apply(cfg, s, Join(c, lastId));
    SubsUnchanged(s, t);
    OfflineIsSeparate(s, t, c);
    JoinedIsOk(t, t.clients[c]);
    OwnStepKeepsInv(cfg, s, t, c);
  }

  lemma JoinedIsOk(s: State, client: Client)
    requires client.live == [] && 0 <= client.start <= |s.log| && client.conn.Offline?
    ensures ClientOk(s, client)
  {}

  lemma ConnectKeepsInv(cfg: Config, s: State, c: ClientId)
    requires Inv(s) && Enabled(cfg, s, Connect(c))
    ensures Inv(Apply(cfg, s, Connect(c)))
  {
    hide HistoryOk, SubsOk, Separate, ClientsOk, LogOk;
    var t := Apply(cfg, s, Connect(c));
    ClientAt(cfg, s, c);
    NewSubscription(s, t);
    NewIsSeparate(s, t, c);
    HistoryKept(cfg, s, t, s.clients[c], t.clients[c]);
    OwnStepKeepsInv(cfg, s, t, c);
  }

  /** A new subscription will be offered the next event to come, the one being published included. */
  lemma NewSubscription(s: State, t: State)
    requires SubsOk(s) && t.log == s.log && t.phase == s.phase && t.nextSub == s.nextSub + 1
    requires t.subs == s.subs[s.nextSub := Sub([], if s.phase.Added? then |s.log| - 1 else |s.log|, false)]
    requires t.registered == s.registered + {s.nextSub}
    ensures SubsOk(t) && s.nextSub !in s.subs && (s.phase.Added? ==> |s.log| > 0)
  {
    hide SubOk;
    assert s.nextSub !in s.subs by {
      if s.nextSub in s.subs {
        BelowNext(s, s.nextSub);
        assert false;
      }
    }
    forall id | id in t.subs ensures SubOk(t, id) {
      if id == s.nextSub {
        FreshSub(t, id);
      } else {
        SubFrame(s, t, id);
      }
    }
  }

  lemma BelowNext(s: State, id: SubId)
    requires SubsOk(s) && id in s.subs
    ensures id < s.nextSub
  {
    assert SubOk(s, id);
  }

  lemma FreshSub(t: State, id: SubId)
    requires id in t.subs && id < t.nextSub && t.subs[id] == Sub([], if t.phase.Added? then |t.log| - 1 else |t.log|, false)
    requires (t.phase.Added? ==> t.log != []) && (t.phase.Sending? ==> id !in t.phase.pending)
    ensures SubOk(t, id)
  {}

  lemma NewIsSeparate(s: State, t: State, c: ClientId)
    requires Separate(s) && t.nextSub == s.nextSub + 1 && t.clients.Keys == s.clients.Keys + {c}
    requires t.clients[c].conn == Subscribed(s.nextSub)
    requires forall d :: d in s.clients && d != c ==> t.clients[d] == s.clients[d]
    ensures Separate(t)
  {}

  lemma HistoryKept(cfg: Config, s: State, t: State, a: Client, b: Client)
    requires HistoryOk(s, a) && t.log == s.log && t.now == s.now && s.usedIds <= t.usedIds
    requires b.lastId == a.lastId && b.live == a.live && b.start == a.start
    ensures HistoryOk(t, b)
    ensures 0 <= a.start && a.start + |a.live| <= |s.log|
  {}

  lemma DropKeepsInv(cfg: Config, s: State, c: ClientId)
    requires Inv(s) && Enabled(cfg, s, Drop(c))
    ensures Inv(Apply(cfg, s, Drop(c)))
  {
    hide HistoryOk, SubsOk, Separate, ClientsOk, LogOk;
    var t := Apply(cfg, s, Drop(c));
    ClientAt(cfg, s, c);
    SubsUnchanged(s, t);
    OfflineIsSeparate(s, t, c);
    HistoryKept(cfg, s, t, s.clients[c], t.clients[c]);
    OwnStepKeepsInv(cfg, s, t, c);
  }

  /** Steps that change only the client's own record, not the subscriptions. */
  lemma RecordStepKeepsInv(cfg: Config, s: State, t: State, c: ClientId)
    requires Inv(s) && OnlyClient(s, t, c) && c in s.clients && c in t.clients
    requires t.subs == s.subs && t.registered == s.registered && t.nextSub == s.nextSub
    requires !s.clients[c].conn.Offline? && !t.clients[c].conn.Offline? && t.clients[c].conn.sub == s.clients[c].conn.sub
    requires ClientOk(t, t.clients[c])
    ensures Inv(t)
  {
    hide SubOk, ClientOk;
    forall id | id in t.subs ensures SubOk(t, id) {
      SubFrame(s, t, id);
    }
    OwnStepKeepsInv(cfg, s, t, c);
  }

  /** A replay that hits continues exactly behind the last event id; for a client that has received
      events this is where it left off. */
  lemma HitContinues(cfg: Config, s: State, client: Client)
    requires LogOk(s) && HistoryOk(s, client)
    requires Replay(s.log, cfg.ringCapacity, cfg.ringTtl, client.lastId, s.now).Hit?
    ensures 1 <= Behind(s.log, client.lastId)
    ensures client.live != [] ==> Behind(s.log, client.lastId) == client.start + |client.live|
    ensures Replay(s.log, cfg.ringCapacity, cfg.ringTtl, client.lastId, s.now).events == EventsOf(s.log)[Behind(s.log, client.lastId)..]
  {
    hide Replay, Behind;
    var n := Behind(s.log, client.lastId);
    if n == 0 {
      ReplayOfUnknown(s.log, cfg.ringCapacity, cfg.ringTtl, client.lastId, s.now);
      assert false;
    }
    ReplayIsExact(s.log, cfg.ringCapacity, cfg.ringTtl, n - 1, s.now);
    assert EventsOf(s.log[n..]) == EventsOf(s.log)[n..];
    if client.live != [] {
      assert DistinctIds(s.log);
    }
  }

  lemma PrepareKeepsInv(cfg: Config, s: State, c: ClientId, hydration: seq<string>)
    requires Inv(s) && Enabled(cfg, s, Prepare(c, hydration))
    ensures Inv(Apply(cfg, s, Prepare(c, hydration)))
  {
    hide Replay, SubsOk, LogOk, Separate, ClientsOk, Behind, IdsOf;
    var t, client := Apply(cfg, s, Prepare(c, hydration)), s.clients[c];
    assert ClientOk(s, client) by { ClientAt(cfg, s, c); }
    assert PreparedOk(cfg, s, c, hydration) by { PrepareKeepsClient(cfg, s, c, hydration); }
    RecordStepKeepsInv(cfg, s, t, c);
  }

  lemma ClientAt(cfg: Config, s: State, c: ClientId)
    requires ClientsOk(s) && c in s.clients
    ensures ClientOk(s, s.clients[c])
  {}

  lemma SubAt(s: State, id: SubId)
    requires SubsOk(s) && id in s.subs
    ensures |s.subs[id].queue| <= s.subs[id].next <= |s.log|
    ensures s.subs[id].queue == EventsOf(s.log)[Position(s.subs[id])..s.subs[id].next]
  {
    assert SubOk(s, id);
  }

  ghost predicate PreparedOk(cfg: Config, s: State, c: ClientId, hydration: seq<string>)
    requires Enabled(cfg, s, Prepare(c, hydration))
  {
    ClientOk(DoPrepare(cfg, s, c, hydration), DoPrepare(cfg, s, c, hydration).clients[c])
  }

  lemma PrepareKeepsClient(cfg: Config, s: State, c: ClientId, hydration: seq<string>)
    requires LogOk(s) && SubsOk(s) && Enabled(cfg, s, Prepare(c, hydration)) && ClientOk(s, s.clients[c])
    ensures PreparedOk(cfg, s, c, hydration)
  {
    hide Replay, SubOk, SubsOk, LogOk, ClientOk, Behind;
    var t, client := DoPrepare(cfg, s, c, hydration), s.clients[c];
    match Replay(s.log, cfg.ringCapacity, cfg.ringTtl, client.lastId, s.now)
    case Hit(events) =>
      HitKeepsClient(cfg, s, client, events);
      ClientSame(cfg, s, t, t.clients[c]);
    case Miss =>
      MissKeepsClient(cfg, s, t, client, hydration);
  }

  lemma HitKeepsClient(cfg: Config, s: State, client: Client, events: seq<Event>)
    requires LogOk(s) && SubsOk(s) && ClientOk(s, client) && client.conn.Subscribed?
    requires Replay(s.log, cfg.ringCapacity, cfg.ringTtl, client.lastId, s.now) == Hit(events)
    ensures ClientOk(s, client.(
              start := if client.live == [] then Behind(s.log, client.lastId) else client.start,
              conn := Streaming(client.conn.sub, [], events, Some({client.lastId} + IdsOf(events)), [])))
  {
    hide Replay, SubOk, SubsOk, DistinctIds, ClockOrdered, Behind, IdsOf;
    SubAt(s, client.conn.sub);
    HitContinues(cfg, s, client);
    var n := Behind(s.log, client.lastId);
    ReplayedIds(s, client, n, events);
    assert s.log[n - 1].event.id == client.lastId;
    assert EventsOf(s.log)[n..n] == [];
  }

  lemma MissKeepsClient(cfg: Config, s: State, t: State, client: Client, hydration: seq<string>)
    requires LogOk(s) && ClientOk(s, client) && client.conn.Subscribed? && t.log == s.log && t.subs == s.subs
    requires forall i :: 0 <= i < |hydration| ==> hydration[i] !in s.usedIds && hydration[i] in t.usedIds
    ensures ClientOk(t, Client(client.lastId, [], 0, Streaming(client.conn.sub, hydration, [], None, [])))
  {}

  lemma ReplayedIds(s: State, client: Client, end: int, events: seq<Event>)
    requires LogOk(s) && 1 <= end <= |s.log| && events == EventsOf(s.log)[end..] && client.lastId == s.log[end - 1].event.id
    ensures forall j :: end - 1 <= j < |s.log| ==> s.log[j].event.id in {client.lastId} + IdsOf(events)
    ensures {client.lastId} + IdsOf(events) <= s.usedIds
  {
    forall j | end <= j < |s.log| ensures s.log[j].event.id in IdsOf(events) {
      assert events[j - end] == s.log[j].event;
    }
  }

  /** A client's state depends on the log, the clock, the used ids and the subscriptions only. */
  lemma ClientSame(cfg: Config, s: State, t: State, client: Client)
    requires ClientOk(s, client) && t.log == s.log && t.now == s.now && t.subs == s.subs
    requires t.usedIds == s.usedIds
    ensures ClientOk(t, client)
  {
  }

  lemma WriteInitialKeepsClient(s: State, client: Client)
    requires ClientOk(s, client) && client.conn.Streaming? && client.conn.batch != []
    ensures var conn := client.conn;
            ClientOk(s, client.(conn := conn.(batch := conn.batch[1..], wire := conn.wire + [conn.batch[0]])))
  {
    hide ReplayOk, IdsOf;
    var end := client.start + |client.live|;
    var mid := end + |client.conn.wire|;
    if client.conn.seen.Some? && client.conn.sub in s.subs {
      BatchShrinks(s, mid, client.conn.batch, client.conn.seen.value, Position(s.subs[client.conn.sub]));
      WireGrows(s.log, end, mid);
    }
  }

  lemma BatchShrinks(s: State, mid: int, batch: seq<Event>, ids: set<string>, position: int)
    requires ReplayOk(s, mid, batch, ids, position) && batch != []
    ensures ReplayOk(s, mid + 1, batch[1..], ids, position) && mid < |s.log| && batch[0] == EventsOf(s.log)[mid]
  {
    var es := EventsOf(s.log);
    assert es[mid..mid + |batch|][1..] == es[mid + 1..mid + |batch|];
  }

  lemma WireGrows(log: seq<Entry>, end: int, mid: int)
    requires 0 <= end <= mid < |log|
    ensures EventsOf(log)[end..mid] + [EventsOf(log)[mid]] == EventsOf(log)[end..mid + 1]
  {}

  lemma WriteInitialKeepsInv(cfg: Config, s: State, c: ClientId)
    requires Inv(s) && Enabled(cfg, s, WriteInitial(c))
    ensures Inv(Apply(cfg, s, WriteInitial(c)))
  {
    hide SubOk, SubsOk, Separate, ClientsOk, LogOk, ClientOk;
    var t := Apply(cfg, s, WriteInitial(c));
    ClientAt(cfg, s, c);
    WriteInitialKeepsClient(s, s.clients[c]);
    ClientSame(cfg, s, t, t.clients[c]);
    RecordStepKeepsInv(cfg, s, t, c);
  }

  lemma ReceiveHydration(s: State, client: Client)
    requires ClientOk(s, client) && client.conn.Streaming? && client.conn.hydration != []
    ensures ClientOk(s, DoReceive(client))
  {}

  /** Receiving moves one event from the wire to what has been received. */
  lemma ReceivedHistory(cfg: Config, s: State, client: Client)
    requires ClientOk(s, client) && client.conn.Streaming? && client.conn.hydration == [] && client.conn.wire != []
    ensures HistoryOk(s, DoReceive(client))
  {
    hide ConnOk, EventsOf;
    var end := client.start + |client.live|;
    WireStarts(s, client);
    WireGrows(s.log, client.start, end);
    NamesOf(s.log, end);
  }

  /** The first event on the wire is the next one of the log. */
  lemma WireStarts(s: State, client: Client)
    requires ConnOk(s, client) && client.conn.Streaming? && client.conn.wire != []
    ensures var end := client.start + |client.live|; 0 <= end < |s.log| && client.conn.wire[0] == EventsOf(s.log)[end]
  {
    hide ReplayOk;
  }

  lemma NamesOf(log: seq<Entry>, i: int)
    requires 0 <= i < |log|
    ensures EventsOf(log)[i].id == log[i].event.id
  {}

  lemma ReceivedConn(s: State, client: Client)
    requires ConnOk(s, client) && client.conn.Streaming? && client.conn.hydration == [] && client.conn.wire != []
    ensures ConnOk(s, DoReceive(client))
  {
    hide ReplayOk;
    var es, end := EventsOf(s.log), client.start + |client.live|;
    var mid := end + |client.conn.wire|;
    assert es[end..mid][1..] == es[end + 1..mid];
  }

  lemma ReceiveEvent(cfg: Config, s: State, client: Client)
    requires ClientOk(s, client) && client.conn.Streaming? && client.conn.hydration == [] && client.conn.wire != []
    ensures ClientOk(s, DoReceive(client))
  {
    hide HistoryOk, ConnOk;
    ReceivedHistory(cfg, s, client);
    ReceivedConn(s, client);
  }

  lemma ReceiveKeepsInv(cfg: Config, s: State, c: ClientId)
    requires Inv(s) && Enabled(cfg, s, Receive(c))
    ensures Inv(Apply(cfg, s, Receive(c)))
  {
    hide SubOk, SubsOk, Separate, ClientsOk, LogOk, ClientOk;
    var t := Apply(cfg, s, Receive(c));
    ClientAt(cfg, s, c);
    if s.clients[c].conn.hydration != [] {
      ReceiveHydration(s, s.clients[c]);
    } else {
      ReceiveEvent(cfg, s, s.clients[c]);
    }
    ClientSame(cfg, s, t, t.clients[c]);
    RecordStepKeepsInv(cfg, s, t, c);
  }

  // ----- forwarding

  lemma ForwardKeepsSubs(cfg: Config, s: State, c: ClientId)
    requires SubsOk(s) && Enabled(cfg, s, Forward(c))
    ensures SubsOk(Apply(cfg, s, Forward(c)))
    ensures var sub := s.clients[c].conn.sub;
      Position(Apply(cfg, s, Forward(c)).subs[sub]) == Position(s.subs[sub]) + 1
  {
    hide SubOk;
    var t, sub := Apply(cfg, s, Forward(c)), s.clients[c].conn.sub;
    forall id | id in t.subs ensures SubOk(t, id) {
      if id != sub {
        SubFrame(s, t, id);
      } else {
        PoppedSub(s, t, sub);
      }
    }
  }

  lemma PoppedSub(s: State, t: State, id: SubId)
    requires id in s.subs && id in t.subs && SubOk(s, id) && s.subs[id].queue != []
    requires t.log == s.log && t.phase == s.phase && t.registered == s.registered && t.nextSub == s.nextSub
    requires t.subs[id] == s.subs[id].(queue := s.subs[id].queue[1..])
    ensures SubOk(t, id)
  {
    var x, es := s.subs[id], EventsOf(s.log);
    assert es[Position(x)..x.next][1..] == es[Position(x) + 1..x.next];
  }

  /** The same log, one event further along in the queue. */
  ghost predicate Advanced(s: State, t: State, sub: SubId) {
    && t.log == s.log && t.now == s.now && t.usedIds == s.usedIds && sub in s.subs && sub in t.subs
    && Position(t.subs[sub]) == Position(s.subs[sub]) + 1
  }

  lemma SkipKeepsConn(s: State, t: State, client: Client)
    requires client.conn.Streaming? && ConnOk(s, client) && client.conn.batch == [] && Advanced(s, t, client.conn.sub)
    requires client.conn.seen.Some? && 0 <= Position(s.subs[client.conn.sub]) < |s.log|
    requires s.log[Position(s.subs[client.conn.sub])].event.id in client.conn.seen.value
    ensures ConnOk(t, client)
  {}

  /** Behind the filter the queue's first event is the next one the client waits for. */
  lemma NextInQueue(s: State, client: Client)
    requires client.conn.Streaming? && ConnOk(s, client) && client.conn.batch == []
    requires 0 <= Position(s.subs[client.conn.sub]) < |s.log|
    requires client.conn.seen.Some? ==> s.log[Position(s.subs[client.conn.sub])].event.id !in client.conn.seen.value
    ensures var mid := client.start + |client.live| + |client.conn.wire|;
            mid == Position(s.subs[client.conn.sub]) || (client.live == [] && client.conn.wire == [] && client.start == 0)
  {}

  /** Writing the queue's first event puts exactly the next event of the log on the wire. */
  lemma WriteKeepsConn(s: State, t: State, client: Client, client': Client)
    requires client.conn.Streaming? && ConnOk(s, client) && client.conn.batch == [] && Advanced(s, t, client.conn.sub)
    requires 0 <= Position(s.subs[client.conn.sub]) < |s.log|
    requires client.conn.seen.Some? ==> s.log[Position(s.subs[client.conn.sub])].event.id !in client.conn.seen.value
    requires client' == client.(
               start := if client.live == [] && client.conn.wire == [] then Position(s.subs[client.conn.sub]) else client.start,
               conn := client.conn.(seen := None, wire := client.conn.wire + [EventsOf(s.log)[Position(s.subs[client.conn.sub])]]))
    ensures ConnOk(t, client')
    ensures client'.start == client.start || (client.start == 0 && client.live == [])
  {
    hide ReplayOk, EventsOf, Position;
    var es, end, position := EventsOf(s.log), client.start + |client.live|, Position(s.subs[client.conn.sub]);
    var mid := end + |client.conn.wire|;
    NextInQueue(s, client);
    if client.live == [] && client.conn.wire == [] {
      WireGrows(s.log, position, position);
    } else {
      WireGrows(s.log, end, mid);
    }
  }

  /** Forwarding writes the next event of the log, or skips one the client already has. */
  lemma ForwardKeepsClient(cfg: Config, s: State, c: ClientId)
    requires LogOk(s) && SubsOk(s) && Enabled(cfg, s, Forward(c)) && ClientOk(s, s.clients[c])
    ensures ClientOk(Apply(cfg, s, Forward(c)), Apply(cfg, s, Forward(c)).clients[c])
  {
    hide SubOk, SubsOk, LogOk, Replay, ConnOk, EventsOf;
    var t, client := Apply(cfg, s, Forward(c)), s.clients[c];
    var sub := s.subs[client.conn.sub];
    SubAt(s, client.conn.sub);
    var position := Position(sub);
    assert sub.queue[0] == EventsOf(s.log)[position];
    NamesOf(s.log, position);
    if client.conn.seen.Some? && sub.queue[0].id in client.conn.seen.value {
      SkipKeepsConn(s, t, client);
    } else {
      WriteKeepsConn(s, t, client, t.clients[c]);
    }
  }

  lemma ForwardKeepsInv(cfg: Config, s: State, c: ClientId)
    requires Inv(s) && Enabled(cfg, s, Forward(c))
    ensures Inv(Apply(cfg, s, Forward(c)))
  {
    hide SubOk, ClientOk, SubsOk;
    var t := Apply(cfg, s, Forward(c));
    ForwardKeepsSubs(cfg, s, c);
    ForwardKeepsClient(cfg, s, c);
    OwnStepKeepsInv(cfg, s, t, c);
  }

  // ----- all runs

  lemma StepKeepsInv(cfg: Config, s: State, step: Step)
    requires Inv(s) && Enabled(cfg, s, step) && Honest(s, step)
    ensures Inv(Apply(cfg, s, step))
  {
    hide Inv, Enabled, Apply;
    match step
    case Join(c, lastId) => JoinKeepsInv(cfg, s, c, lastId);
    case Connect(c) => ConnectKeepsInv(cfg, s, c);
    case Prepare(c, hydration) => PrepareKeepsInv(cfg, s, c, hydration);
    case WriteInitial(c) => WriteInitialKeepsInv(cfg, s, c);
    case Forward(c) => ForwardKeepsInv(cfg, s, c);
    case Receive(c) => ReceiveKeepsInv(cfg, s, c);
    case Drop(c) => DropKeepsInv(cfg, s, c);
    case _ => QuietStepKeepsInv(cfg, s, step);
  }

  const START := State([], 0, Idle, {}, map[], {}, 0, map[])

  /** The states a run goes through, one more than it has steps. */
  ghost predicate IsRun(cfg: Config, steps: seq<Step>, states: seq<State>) {
    && |states| == |steps| + 1 && states[0] == START
    && forall i :: 0 <= i < |steps| ==> Enabled(cfg, states[i], steps[i]) && states[i + 1] == Apply(cfg, states[i], steps[i])
  }

  /** No event of the run is published under the id of a connection between subscription and replay whose
      queue starts with an earlier event. */
  ghost predicate IsHonest(cfg: Config, steps: seq<Step>, states: seq<State>)
    requires IsRun(cfg, steps, states)
  {
    forall i :: 0 <= i < |steps| ==> Honest(states[i], steps[i])
  }

  lemma {:induction false} RunKeepsInv(cfg: Config, steps: seq<Step>, states: seq<State>, n: nat)
    requires IsRun(cfg, steps, states) && IsHonest(cfg, steps, states) && n < |states|
    ensures Inv(states[n])
  {
    hide Inv, Enabled, Apply, Honest;
    if n == 0 {
      StartIsOk(cfg);
    } else {
      RunKeepsInv(cfg, steps, states, n - 1);
      StepKeepsInv(cfg, states[n - 1], steps[n - 1]);
    }
  }

  lemma StartIsOk(cfg: Config)
    ensures Inv(START)
  {}

  // ----- an id that is lost stays lost

  lemma StepExtends(cfg: Config, s: State, step: Step)
    requires LogOk(s) && Enabled(cfg, s, step)
    ensures LogOk(Apply(cfg, s, step)) && Extends(s, Apply(cfg, s, step))
  {
    hide LogOk, Extends, Replay, Behind, IdsOf, DoReceive;
    var t := Apply(cfg, s, step);
    match step
    case Publish(e) => PublishExtends(cfg, s, e);
    case Tick(dt) => SameLogExtends(s, t);
    case Prepare(c, hydration) => SameLogExtends(s, t);
    case _ => SameLogExtends(s, t);
  }

  lemma PublishExtends(cfg: Config, s: State, e: Event)
    requires LogOk(s) && Enabled(cfg, s, Publish(e))
    ensures LogOk(Apply(cfg, s, Publish(e))) && Extends(s, Apply(cfg, s, Publish(e)))
  {}

  lemma SameLogExtends(s: State, t: State)
    requires LogOk(s) && t.log == s.log && s.usedIds <= t.usedIds && s.now <= t.now
    ensures LogOk(t) && Extends(s, t)
  {}

  lemma MissStays(cfg: Config, s: State, t: State, id: string)
    requires LogOk(s) && LogOk(t) && Extends(s, t) && (id == "" || id in s.usedIds)
    requires Replay(s.log, cfg.ringCapacity, cfg.ringTtl, id, s.now) == Miss
    ensures Replay(t.log, cfg.ringCapacity, cfg.ringTtl, id, t.now) == Miss
  {
    hide Replay;
    if i :| 0 <= i < |t.log| && t.log[i].event.id == id {
      assert t.log[i].event.id != "" || i < |s.log|;
      assert t.log[i] == s.log[i];
      ReplayIsExact(s.log, cfg.ringCapacity, cfg.ringTtl, i, s.now);
      ReplayIsExact(t.log, cfg.ringCapacity, cfg.ringTtl, i, t.now);
    } else {
      ReplayOfUnknown(t.log, cfg.ringCapacity, cfg.ringTtl, id, t.now);
    }
  }

  lemma {:induction false} RunExtends(cfg: Config, steps: seq<Step>, states: seq<State>, n: nat)
    requires IsRun(cfg, steps, states) && n < |states|
    ensures LogOk(states[n]) && forall m :: 0 <= m <= n ==> Extends(states[m], states[n])
  {
    hide Enabled, Apply, LogOk, Extends;
    if n == 0 {
      LogOfStart();
    } else {
      RunExtends(cfg, steps, states, n - 1);
      StepExtends(cfg, states[n - 1], steps[n - 1]);
      forall m | 0 <= m <= n ensures Extends(states[m], states[n]) {
        if m < n {
          ExtendsFurther(states[m], states[n - 1], states[n]);
        } else {
          ExtendsItself(states[n]);
        }
      }
    }
  }

  lemma LogOfStart()
    ensures LogOk(START) && Extends(START, START)
  {}

  lemma ExtendsItself(s: State)
    ensures Extends(s, s)
  {}

  lemma ExtendsFurther(s: State, t: State, u: State)
    requires Extends(s, t) && Extends(t, u)
    ensures Extends(s, u)
  {
    assert forall i :: |s.log| <= i < |t.log| ==> u.log[i] == t.log[i];
  }

  /** In every run, a replay of an issued id that misses once misses in every later state. */
  lemma MissedOnceMissedForever(cfg: Config, steps: seq<Step>, states: seq<State>, m: nat, n: nat, id: string)
    requires IsRun(cfg, steps, states) && m <= n < |states| && (id == "" || id in states[m].usedIds)
    requires Replay(states[m].log, cfg.ringCapacity, cfg.ringTtl, id, states[m].now) == Miss
    ensures Replay(states[n].log, cfg.ringCapacity, cfg.ringTtl, id, states[n].now) == Miss
  {
    hide Enabled, Apply, LogOk, Extends, Replay;
    RunExtends(cfg, steps, states, m);
    RunExtends(cfg, steps, states, n);
    MissStays(cfg, states[m], states[n], id);
  }

  /** In every run, an event can be replayed from exactly as long as it is among the last the buffer holds and its
      lifetime since it was published is not over; the answer is then all that was published after it. */
  lemma ReplayableIff(cfg: Config, steps: seq<Step>, states: seq<State>, m: nat, n: nat)
    requires IsRun(cfg, steps, states) && m < n < |states| && steps[m].Publish?
    ensures var s, t, id := states[m], states[n], steps[m].event.id;
      && |s.log| < |t.log|
      && Replay(t.log, cfg.ringCapacity, cfg.ringTtl, id, t.now) ==
           (if |id| <= 128 && |t.log| - |s.log| <= cfg.ringCapacity && t.now - s.now <= cfg.ringTtl
            then Hit(EventsOf(t.log[|s.log| + 1..])) else Miss)
  {
    hide Enabled, LogOk, Extends, Replay;
    var s, e := states[m], steps[m].event;
    assert Enabled(cfg, s, steps[m]) && states[m + 1] == Apply(cfg, s, steps[m]);
    PublishedAs(cfg, s, e);
    RunExtends(cfg, steps, states, n);
    EntryStays(states[m + 1], states[n], |s.log|);
    ReplayIsExact(states[n].log, cfg.ringCapacity, cfg.ringTtl, |s.log|, states[n].now);
  }

  lemma PublishedAs(cfg: Config, s: State, e: Event)
    requires Enabled(cfg, s, Publish(e))
    ensures Apply(cfg, s, Publish(e)).log == s.log + [Entry(e, s.now)] && e.id != ""
  {}

  lemma EntryStays(s: State, t: State, i: nat)
    requires LogOk(t) && Extends(s, t) && i < |s.log|
    ensures i < |t.log| && t.log[i] == s.log[i] && DistinctIds(t.log) && ClockOrdered(t.log, t.now)
  {}

  // ----- what clients receive

  /** In every state of every run, what a client has received since it started or the server last fell
      back to hydration is one contiguous stretch of the published events, in order. */
  lemma ReceivedWithoutGapOrDuplicate(cfg: Config, steps: seq<Step>, states: seq<State>, n: nat, c: ClientId)
    requires IsRun(cfg, steps, states) && IsHonest(cfg, steps, states) && n < |states| && c in states[n].clients
    ensures var s, client := states[n], states[n].clients[c];
      && 0 <= client.start && client.start + |client.live| <= |s.log|
      && client.live == EventsOf(s.log)[client.start..client.start + |client.live|]
      && (client.live != [] ==> client.lastId == client.live[|client.live| - 1].id)
  {
    hide Enabled, Apply, LogOk, SubsOk, Separate, ConnOk, Honest;
    RunKeepsInv(cfg, steps, states, n);
    assert ClientOk(states[n], states[n].clients[c]);
  }

  predicate FallsBack(cfg: Config, s: State, step: Step, c: ClientId) {
    && step.Prepare? && step.client == c && c in s.clients
    && Replay(s.log, cfg.ringCapacity, cfg.ringTtl, s.clients[c].lastId, s.now).Miss?
  }

  /** The client starts over with an id of its choice, or the server falls back to hydration. */
  predicate StartsOver(cfg: Config, s: State, step: Step, c: ClientId) {
    FallsBack(cfg, s, step, c) || (step.Join? && step.client == c)
  }

  /** The client knows where it is in the log, and no hydration is on its way to it. */
  predicate Resuming(s: State, client: Client) {
    Anchored(s, client) && (client.conn.Streaming? ==> client.conn.hydration == [])
  }

  /** Whatever evictions, dropped connections and reconnects happen, what a client has received
      only grows, and the stretch keeps its beginning, unless the client starts over or a reconnect
      falls back to hydration. */
  lemma {:induction false} NothingIsSkipped(cfg: Config, steps: seq<Step>, states: seq<State>, m: nat, n: nat, c: ClientId)
    requires IsRun(cfg, steps, states) && IsHonest(cfg, steps, states) && m <= n < |states| && c in states[m].clients
    requires forall i :: m <= i < n ==> !StartsOver(cfg, states[i], steps[i], c)
    ensures c in states[n].clients && states[m].clients[c].live <= states[n].clients[c].live
    ensures Resuming(states[m], states[m].clients[c]) ==>
              states[n].clients[c].start == states[m].clients[c].start && Resuming(states[n], states[n].clients[c])
    decreases n - m
  {
    hide Inv, Enabled, Apply, StartsOver, Honest, Resuming;
    if m < n {
      NothingIsSkipped(cfg, steps, states, m, n - 1, c);
      assert Enabled(cfg, states[n - 1], steps[n - 1]) && states[n] == Apply(cfg, states[n - 1], steps[n - 1]);
      RunKeepsInv(cfg, steps, states, n - 1);
      OneStepReceives(cfg, states[n - 1], steps[n - 1], c);
    }
  }

  // ----- hydration

  /** The ids client c receives in the steps from m to n, in order. */
  function ReceivedIds(steps: seq<Step>, states: seq<State>, m: nat, n: nat, c: ClientId): seq<string>
    requires m <= n <= |steps| <= |states|
    decreases n - m
  {
    if m == n then []
    else ReceivedIds(steps, states, m, n - 1, c) + if steps[n - 1] == Receive(c) then NextId(states[n - 1], c) else []
  }

  /** The id of what reaches the client next: hydration before events. */
  function NextId(s: State, c: ClientId): seq<string> {
    if c !in s.clients || !s.clients[c].conn.Streaming? then []
    else if s.clients[c].conn.hydration != [] then [s.clients[c].conn.hydration[0]]
    else if s.clients[c].conn.wire != [] then [s.clients[c].conn.wire[0].id]
    else []
  }

  function LiveIds(es: seq<Event>): (ids: seq<string>)
    ensures |ids| == |es| && forall i :: 0 <= i < |es| ==> ids[i] == es[i].id
  {
    seq(|es|, i requires 0 <= i < |es| => es[i].id)
  }

  /** What was received and the hydration still on its way are the batch, followed by the live events received. */
  ghost predicate Hydrating(s: State, c: ClientId, h: seq<string>, got: seq<string>) {
    && c in s.clients && s.clients[c].conn.Streaming?
    && got + s.clients[c].conn.hydration == h + LiveIds(s.clients[c].live)
    && (s.clients[c].conn.hydration != [] ==> s.clients[c].live == [])
    && (got != [] ==> s.clients[c].lastId == got[|got| - 1])
  }

  lemma MissHydrates(cfg: Config, s: State, c: ClientId, h: seq<string>)
    requires Enabled(cfg, s, Prepare(c, h)) && FallsBack(cfg, s, Prepare(c, h), c)
    ensures Hydrating(Apply(cfg, s, Prepare(c, h)), c, h, [])
  {
    hide Replay;
  }

  lemma StepHydrates(cfg: Config, s: State, step: Step, c: ClientId, h: seq<string>, got: seq<string>)
    requires Hydrating(s, c, h, got) && Enabled(cfg, s, step) && step != Drop(c)
    ensures Hydrating(Apply(cfg, s, step), c, h, got + if step == Receive(c) then NextId(s, c) else [])
  {
    hide Replay, Behind, IdsOf, DoPrepare, DoForward, DoConnect, OfferTo, SetConn;
    if step == Receive(c) {
      var conn := s.clients[c].conn;
      if conn.hydration != [] {
        assert got + conn.hydration == got + [conn.hydration[0]] + conn.hydration[1..];
      } else {
        var ids, id := LiveIds(s.clients[c].live), conn.wire[0].id;
        assert LiveIds(s.clients[c].live + [conn.wire[0]]) == ids + [id];
        assert got + [id] + [] == h + (ids + [id]) by { assert got == got + [] == h + ids; }
      }
    } else {
      OtherStepKeepsHydration(cfg, s, step, c);
    }
  }

  lemma OtherStepKeepsHydration(cfg: Config, s: State, step: Step, c: ClientId)
    requires Enabled(cfg, s, step) && c in s.clients && s.clients[c].conn.Streaming? && step != Drop(c) && step != Receive(c)
    ensures var t := Apply(cfg, s, step);
      && c in t.clients && t.clients[c].conn.Streaming? && t.clients[c].conn.hydration == s.clients[c].conn.hydration
      && t.clients[c].live == s.clients[c].live && t.clients[c].lastId == s.clients[c].lastId
  {
    hide Replay, Behind, IdsOf, DoReceive;
  }

  /** A client the server falls back on receives the whole hydration batch in order, then the live events, until the
      connection ends; it receives no live event before. */
  lemma {:induction false} HydrationComesFirst(cfg: Config, steps: seq<Step>, states: seq<State>, m: nat, n: nat, c: ClientId, h: seq<string>)
    requires IsRun(cfg, steps, states) && m < n < |states| && steps[m] == Prepare(c, h) && FallsBack(cfg, states[m], steps[m], c)
    requires forall j :: m < j < n ==> steps[j] != Drop(c)
    ensures Hydrating(states[n], c, h, ReceivedIds(steps, states, m + 1, n, c))
    decreases n - m
  {
    hide Enabled, Apply, FallsBack, Hydrating, NextId;
    if n == m + 1 {
      MissHydrates(cfg, states[m], c, h);
    } else {
      HydrationComesFirst(cfg, steps, states, m, n - 1, c, h);
      StepHydrates(cfg, states[n - 1], steps[n - 1], c, h, ReceivedIds(steps, states, m + 1, n - 1, c));
      assert ReceivedIds(steps, states, m + 1, n, c) ==
             ReceivedIds(steps, states, m + 1, n - 1, c) + if steps[n - 1] == Receive(c) then NextId(states[n - 1], c) else [];
    }
  }

  /** After as many receives as the batch has ids, the client has received exactly the batch. */
  lemma WholeBatchArrives(cfg: Config, steps: seq<Step>, states: seq<State>, m: nat, n: nat, c: ClientId, h: seq<string>)
    requires IsRun(cfg, steps, states) && m < n < |states| && steps[m] == Prepare(c, h) && FallsBack(cfg, states[m], steps[m], c)
    requires forall j :: m < j < n ==> steps[j] != Drop(c)
    ensures var got := ReceivedIds(steps, states, m + 1, n, c);
      && c in states[n].clients
      && (|got| <= |h| ==> got == h[..|got|] && states[n].clients[c].live == [])
      && (|got| >= |h| ==> got == h + LiveIds(states[n].clients[c].live))
      && (|got| == |h| > 0 ==> states[n].clients[c].lastId == h[|h| - 1])
  {
    hide Enabled, Apply, FallsBack, ReceivedIds;
    HydrationComesFirst(cfg, steps, states, m, n, c, h);
    var got, client := ReceivedIds(steps, states, m + 1, n, c), states[n].clients[c];
    var rest := client.conn.hydration;
    assert |got| + |rest| == |h| + |client.live|;
    assert rest == [] ==> got == h + LiveIds(client.live);
    assert client.live == [] ==> h + LiveIds(client.live) == h && got == (got + rest)[..|got|];
  }

  /** A client that starts with the id of a published event receives exactly what follows that event,
      in order, without gap or duplicate, for as long as no reconnect falls back to hydration. */
  lemma ResumesBehindItsId(cfg: Config, steps: seq<Step>, states: seq<State>, m: nat, n: nat, c: ClientId, i: nat)
    requires IsRun(cfg, steps, states) && IsHonest(cfg, steps, states) && m < n < |states|
    requires steps[m].Join? && steps[m].client == c && i < |states[m].log| && states[m].log[i].event.id == steps[m].lastId
    requires forall j :: m < j < n ==> !StartsOver(cfg, states[j], steps[j], c)
    ensures c in states[n].clients
    ensures var s, live := states[n], states[n].clients[c].live;
            i + 1 + |live| <= |s.log| && live == EventsOf(s.log)[i + 1..i + 1 + |live|]
  {
    hide Inv, Enabled, StartsOver, Honest, IsHonest;
    assert Enabled(cfg, states[m], steps[m]) && states[m + 1] == Apply(cfg, states[m], steps[m]);
    RunKeepsInv(cfg, steps, states, m);
    BehindIsUnique(cfg, states[m], steps[m].lastId, i);
    NothingIsSkipped(cfg, steps, states, m + 1, n, c);
    ReceivedWithoutGapOrDuplicate(cfg, steps, states, n, c);
  }

  lemma BehindIsUnique(cfg: Config, s: State, id: string, i: nat)
    requires Inv(s) && i < |s.log| && s.log[i].event.id == id
    ensures Behind(s.log, id) == i + 1
  {
    hide Behind, SubsOk, Separate, ClientsOk;
    var n := Behind(s.log, id);
    assert n > 0;
    assert DistinctIds(s.log);
  }

  lemma OneStepReceives(cfg: Config, s: State, step: Step, c: ClientId)
    requires Inv(s) && Enabled(cfg, s, step) && c in s.clients && !StartsOver(cfg, s, step, c)
    ensures var t := Apply(cfg, s, step);
      && c in t.clients && s.clients[c].live <= t.clients[c].live
      && (Resuming(s, s.clients[c]) ==> t.clients[c].start == s.clients[c].start && Resuming(t, t.clients[c]))
  {
    hide Replay, LogOk, SubsOk, Separate, ClientsOk, ConnOk, HistoryOk;
    ClientAt(cfg, s, c);
    if step == Forward(c) {
      ForwardKeepsStart(cfg, s, c);
    } else if step == Receive(c) {
      ReceiveKeepsStart(cfg, s, c);
    } else if step.Prepare? && step.client == c {
      PrepareKeepsStart(cfg, s, c, step.hydration);
    } else {
      OtherStepsKeepClient(cfg, s, step, c);
    }
  }

  lemma OtherStepsKeepClient(cfg: Config, s: State, step: Step, c: ClientId)
    requires Enabled(cfg, s, step) && c in s.clients && step != Forward(c) && step != Receive(c)
    requires !((step.Join? || step.Prepare?) && step.client == c)
    ensures var t := Apply(cfg, s, step);
      && s.log <= t.log && c in t.clients && t.clients[c].live == s.clients[c].live
      && t.clients[c].start == s.clients[c].start && t.clients[c].lastId == s.clients[c].lastId
      && (t.clients[c].conn.Streaming? ==>
            t.clients[c].conn.hydration == if s.clients[c].conn.Streaming? then s.clients[c].conn.hydration else [])
  {
    hide Replay, Anchored;
  }

  lemma PrepareKeepsStart(cfg: Config, s: State, c: ClientId, hydration: seq<string>)
    requires LogOk(s) && Enabled(cfg, s, Prepare(c, hydration)) && ClientOk(s, s.clients[c])
    requires !FallsBack(cfg, s, Prepare(c, hydration), c)
    ensures var t, client := Apply(cfg, s, Prepare(c, hydration)), s.clients[c];
      && t.log == s.log && c in t.clients && t.clients[c].live == client.live && t.clients[c].lastId == client.lastId
      && (Anchored(s, client) ==> t.clients[c].start == client.start)
      && t.clients[c].conn.Streaming? && t.clients[c].conn.hydration == []
  {
    hide Replay, Behind, ConnOk;
    var client := s.clients[c];
    HitContinues(cfg, s, client);
    if Anchored(s, client) {
      var n := Behind(s.log, client.lastId);
      assert DistinctIds(s.log);
      assert s.log[n - 1].event.id == s.log[client.start + |client.live| - 1].event.id;
    }
  }

  lemma ForwardKeepsStart(cfg: Config, s: State, c: ClientId)
    requires LogOk(s) && SubsOk(s) && Enabled(cfg, s, Forward(c)) && ClientOk(s, s.clients[c])
    ensures var t, client := Apply(cfg, s, Forward(c)), s.clients[c];
      && t.log == s.log && c in t.clients && t.clients[c].live == client.live && t.clients[c].lastId == client.lastId
      && (Anchored(s, client) ==> t.clients[c].start == client.start)
      && t.clients[c].conn.Streaming? && t.clients[c].conn.hydration == client.conn.hydration
  {
    hide SubOk, SubsOk, LogOk, Replay, ConnOk;
    var t, client := Apply(cfg, s, Forward(c)), s.clients[c];
    var sub := s.subs[client.conn.sub];
    SubAt(s, client.conn.sub);
    assert sub.queue[0] == EventsOf(s.log)[Position(sub)];
    if !(client.conn.seen.Some? && sub.queue[0].id in client.conn.seen.value) {
      WriteKeepsConn(s, t, client, t.clients[c]);
    }
  }

  lemma ReceiveKeepsStart(cfg: Config, s: State, c: ClientId)
    requires Enabled(cfg, s, Receive(c)) && ClientOk(s, s.clients[c])
    ensures var t, client := Apply(cfg, s, Receive(c)), s.clients[c];
      && t.log == s.log && c in t.clients && client.live <= t.clients[c].live && t.clients[c].start == client.start
      && (Resuming(s, client) ==> Resuming(t, t.clients[c]))
  {
    hide ReplayOk;
    var client := s.clients[c];
    var end := client.start + |client.live|;
    if client.conn.hydration == [] {
      assert client.conn.wire[0] == EventsOf(s.log)[end];
    }
  }
}
