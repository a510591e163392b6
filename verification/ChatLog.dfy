/**
  The conversation store: each key keeps a bounded, expiring list of messages, yet answers as if it
  had kept everything.
 */
module ChatLog {
  import opened Sorting
  import Text

  const DEFAULT_TTL := 1_200_000_000_000
  const DEFAULT_MAX_PER_KEY := 50

  /** A message with the time it was said, in nanoseconds. */
  datatype Message = Message(role: string, author: string, text: string, at: int)

  datatype Option<+T> = None | Some(value: T)

  /** A message whose time may still be missing. */
  datatype Draft = Draft(role: string, author: string, text: string, at: Option<int>)

  function Stamp(d: Draft, now: int): Message {
    Message(d.role, d.author, d.text, if d.at.None? then now else d.at.value)
  }

  /** The message is the draft, said at its own time or else now. */
  predicate IsStamped(m: Message, d: Draft, now: int) {
    && m.role == d.role && m.author == d.author && m.text == d.text
    && match d.at case Some(t) => m.at == t case None => m.at == now
  }

  predicate Earlier(a: Message, b: Message) {
    a.at < b.at
  }

  // ----- the reference: what an unbounded history shows

  /** The messages later than the cutoff, in order. */
  function Unexpired(ms: seq<Message>, cutoff: int): seq<Message> {
    if ms == [] then []
    else Unexpired(ms[..|ms| - 1], cutoff) + if ms[|ms| - 1].at > cutoff then [ms[|ms| - 1]] else []
  }

  function Newest(ms: seq<Message>, n: nat): seq<Message> {
    if |ms| <= n then ms else ms[|ms| - n..]
  }

  /** The newest max unexpired messages of a history, stably ordered by time. */
  function Live(history: seq<Message>, max: nat, cutoff: int): seq<Message> {
    Newest(Unexpired(Sort(history, Earlier), cutoff), max)
  }

  /** The messages are in order, not expired and of the history; one of the history that has not expired is missing only
      if there are max newer ones or others of its time. */
  ghost predicate IsNewest(shown: seq<Message>, history: seq<Message>, max: nat, cutoff: int) {
    && (forall i, j :: 0 <= i < j < |shown| ==> shown[i].at <= shown[j].at) && |shown| <= max
    && (forall m :: m in shown ==> m.at > cutoff) && multiset(shown) <= multiset(history)
    && (forall m: Message :: m.at > cutoff && multiset(shown)[m] < multiset(history)[m] ==>
          |shown| == max && forall i :: 0 <= i < |shown| ==> m.at <= shown[i].at)
  }

  lemma {:induction false} UnexpiredCounts(ms: seq<Message>, cutoff: int, m: Message)
    ensures multiset(Unexpired(ms, cutoff))[m] == if m.at > cutoff then multiset(ms)[m] else 0
  {
    if ms != [] {
      var rest, last := ms[..|ms| - 1], ms[|ms| - 1];
      assert ms == rest + [last];
      UnexpiredCounts(rest, cutoff, m);
    }
  }

  lemma NewestCounts(ms: seq<Message>, n: nat, m: Message)
    requires InOrder(ms)
    ensures multiset(Newest(ms, n)) <= multiset(ms)
    ensures multiset(Newest(ms, n))[m] < multiset(ms)[m] ==>
              |Newest(ms, n)| == n && forall i :: 0 <= i < |Newest(ms, n)| ==> m.at <= Newest(ms, n)[i].at
  {
    if |ms| > n {
      var k := |ms| - n;
      assert ms == ms[..k] + ms[k..];
      if m in ms[..k] {
        OlderFront(ms, k, m);
      } else {
        assert multiset(ms)[m] == multiset(ms[..k])[m] + multiset(ms[k..])[m];
      }
    }
  }

  lemma OlderFront(ms: seq<Message>, k: nat, m: Message)
    requires InOrder(ms) && k <= |ms| && m in ms[..k]
    ensures forall j :: 0 <= j < |ms[k..]| ==> m.at <= ms[k..][j].at
  {
    var i :| 0 <= i < k && ms[i] == m;
    forall j | 0 <= j < |ms[k..]| ensures m.at <= ms[k..][j].at {
      assert ms[k..][j] == ms[k + j];
    }
  }

  /** What a history shows are its newest messages. */
  lemma LiveIsNewest(history: seq<Message>, max: nat, cutoff: int)
    ensures IsNewest(Live(history, max, cutoff), history, max, cutoff)
  {
    hide Unexpired, Newest, Sort, Live;
    var shown := Live(history, max, cutoff);
    LiveShape(history, max, cutoff);
    forall m: Message ensures multiset(shown)[m] <= multiset(history)[m] && (m in shown ==> m.at > cutoff)
             ensures m.at > cutoff && multiset(shown)[m] < multiset(history)[m] ==>
                       |shown| == max && forall i :: 0 <= i < |shown| ==> m.at <= shown[i].at {
      LiveCounts(history, max, cutoff, m);
    }
  }

  lemma LiveShape(history: seq<Message>, max: nat, cutoff: int)
    ensures InOrder(Live(history, max, cutoff)) && |Live(history, max, cutoff)| <= max
  {
    hide Unexpired, Newest, Sort;
    SortedInOrder(history);
    UnexpiredInOrder(Sort(history, Earlier), cutoff);
    NewestInOrder(Unexpired(Sort(history, Earlier), cutoff), max);
  }

  lemma LiveCounts(history: seq<Message>, max: nat, cutoff: int, m: Message)
    ensures var shown := Live(history, max, cutoff);
      && multiset(shown)[m] <= multiset(history)[m] && (m in shown ==> m.at > cutoff)
      && (m.at > cutoff && multiset(shown)[m] < multiset(history)[m] ==>
            |shown| == max && forall i :: 0 <= i < |shown| ==> m.at <= shown[i].at)
  {
    hide Unexpired, Newest, Sort;
    var sorted := Sort(history, Earlier);
    SortedInOrder(history);
    UnexpiredInOrder(sorted, cutoff);
    UnexpiredCounts(sorted, cutoff, m);
    NewestCounts(Unexpired(sorted, cutoff), max, m);
    assert m in Live(history, max, cutoff) ==> multiset(Live(history, max, cutoff))[m] > 0;
  }

  lemma NewestInOrder(ms: seq<Message>, n: nat)
    requires InOrder(ms)
    ensures InOrder(Newest(ms, n)) && |Newest(ms, n)| <= n
  {}

  // ----- sorting, expiry and the cap commute

  predicate InOrder(ms: seq<Message>) {
    forall i, j :: 0 <= i < j < |ms| ==> ms[i].at <= ms[j].at
  }

  lemma EarlierOrders()
    ensures WeakOrder(Earlier)
  {}

  lemma SortedInOrder(ms: seq<Message>)
    ensures InOrder(Sort(ms, Earlier))
  {
    EarlierOrders();
    SortSorts(ms, Earlier);
    var s := Sort(ms, Earlier);
    forall i, j | 0 <= i < j < |s| ensures s[i].at <= s[j].at {
      assert !Earlier(s[j], s[i]);
    }
  }

  lemma {:induction false} SortOfSorted(ms: seq<Message>)
    requires InOrder(ms)
    ensures Sort(ms, Earlier) == ms
  {
    hide Insert;
    if ms != [] {
      var rest, last := ms[..|ms| - 1], ms[|ms| - 1];
      SortOfSorted(rest);
      InsertLatest(rest, last);
      assert ms == rest + [last];
    }
  }

  lemma SortAppend(ms: seq<Message>, m: Message)
    ensures Sort(ms + [m], Earlier) == Insert(Sort(ms, Earlier), m, Earlier)
  {
    assert (ms + [m])[..|ms|] == ms;
  }

  lemma {:induction false} UnexpiredInOrder(ms: seq<Message>, cutoff: int)
    requires InOrder(ms)
    ensures InOrder(Unexpired(ms, cutoff))
    ensures forall m :: m in Unexpired(ms, cutoff) ==> m in ms && m.at > cutoff
  {
    if ms != [] {
      UnexpiredInOrder(ms[..|ms| - 1], cutoff);
    }
  }

  lemma {:induction false} AllExpired(ms: seq<Message>, cutoff: int)
    requires forall i :: 0 <= i < |ms| ==> ms[i].at <= cutoff
    ensures Unexpired(ms, cutoff) == []
  {
    if ms != [] {
      AllExpired(ms[..|ms| - 1], cutoff);
    }
  }

  /** Expired earlier, expired later. */
  lemma {:induction false} ExpireTwice(ms: seq<Message>, c1: int, c2: int)
    requires c1 <= c2
    ensures Unexpired(Unexpired(ms, c1), c2) == Unexpired(ms, c2)
  {
    if ms != [] {
      var rest, last := ms[..|ms| - 1], ms[|ms| - 1];
      ExpireTwice(rest, c1, c2);
      UnexpiredAppend(Unexpired(rest, c1), last, c2);
      assert Unexpired(rest, c1) + [] == Unexpired(rest, c1);
    }
  }

  lemma UnexpiredAppend(ms: seq<Message>, m: Message, cutoff: int)
    ensures Unexpired(ms + [m], cutoff) == Unexpired(ms, cutoff) + if m.at > cutoff then [m] else []
  {
    assert (ms + [m])[..|ms|] == ms;
  }

  lemma NewestAppend(ms: seq<Message>, m: Message, n: nat)
    ensures Newest(ms + [m], n) == if n == 0 then [] else Newest(ms, n - 1) + [m]
  {}

  lemma NewestTwice(ms: seq<Message>, n: nat, k: nat)
    requires k <= n
    ensures Newest(Newest(ms, n), k) == Newest(ms, k)
  {}

  lemma InsertAppend(ms: seq<Message>, last: Message, m: Message)
    ensures Insert(ms + [last], m, Earlier) == if Earlier(m, last) then Insert(ms, m, Earlier) + [last] else ms + [last] + [m]
  {
    assert (ms + [last])[..|ms|] == ms;
  }

  /** What the cap dropped cannot come back by inserting another message. */
  lemma {:induction false} CapThenInsert(ms: seq<Message>, m: Message, n: nat)
    ensures Newest(Insert(Newest(ms, n), m, Earlier), n) == Newest(Insert(ms, m, Earlier), n)
    decreases |ms|
  {
    hide Insert, Newest;
    if ms == [] {
      NewestOfNothing(n);
    } else if n == 0 {
      NewestNone(Insert(ms, m, Earlier));
      NewestNone(Insert(Newest(ms, n), m, Earlier));
    } else {
      var rest, last := ms[..|ms| - 1], ms[|ms| - 1];
      assert ms == rest + [last];
      InsertAppend(rest, last, m);
      NewestAppend(rest, last, n);
      InsertAppend(Newest(rest, n - 1), last, m);
      if Earlier(m, last) {
        NewestAppend(Insert(rest, m, Earlier), last, n);
        NewestAppend(Insert(Newest(rest, n - 1), m, Earlier), last, n);
        CapThenInsert(rest, m, n - 1);
      } else {
        NewestAppend(ms, m, n);
        NewestAppend(Newest(ms, n), m, n);
        NewestTwice(ms, n, n - 1);
      }
    }
  }

  lemma NewestNone(ms: seq<Message>)
    ensures Newest(ms, 0) == []
  {}

  lemma NewestOfNothing(n: nat)
    ensures Newest([], n) == []
  {}

  lemma NewestWhole(ms: seq<Message>, n: nat)
    requires |ms| <= n
    ensures Newest(ms, n) == ms
  {}

  lemma NewestExpired(ms: seq<Message>, n: nat, cutoff: int)
    requires forall i :: 0 <= i < |ms| ==> ms[i].at <= cutoff
    ensures Unexpired(Newest(ms, n), cutoff) == [] && Unexpired(ms, cutoff) == []
  {
    hide Unexpired;
    AllExpired(ms, cutoff);
    AllExpired(Newest(ms, n), cutoff);
  }

  /** What the cap dropped would have expired before anything it kept. */
  lemma {:induction false} CapThenExpire(ms: seq<Message>, n: nat, cutoff: int)
    requires InOrder(ms)
    ensures Newest(Unexpired(Newest(ms, n), cutoff), n) == Newest(Unexpired(ms, cutoff), n)
    decreases |ms|
  {
    hide Unexpired, Newest;
    if |ms| <= n {
      NewestWhole(ms, n);
    } else if n == 0 {
      NewestNone(Unexpired(Newest(ms, n), cutoff));
      NewestNone(Unexpired(ms, cutoff));
    } else {
      var rest, last := ms[..|ms| - 1], ms[|ms| - 1];
      assert ms == rest + [last];
      if last.at > cutoff {
        NewestAppend(rest, last, n);
        UnexpiredAppend(rest, last, cutoff);
        UnexpiredAppend(Newest(rest, n - 1), last, cutoff);
        NewestAppend(Unexpired(rest, cutoff), last, n);
        NewestAppend(Unexpired(Newest(rest, n - 1), cutoff), last, n);
        CapThenExpire(rest, n - 1, cutoff);
      } else {
        NewestExpired(ms, n, cutoff);
      }
    }
  }

  /** Expiry before or after an insertion. */
  lemma {:induction false} ExpireThenInsert(ms: seq<Message>, m: Message, cutoff: int)
    requires InOrder(ms)
    ensures Unexpired(Insert(ms, m, Earlier), cutoff) ==
              if m.at > cutoff then Insert(Unexpired(ms, cutoff), m, Earlier) else Unexpired(ms, cutoff)
    decreases |ms|
  {
    hide Unexpired, Insert;
    if ms == [] {
      InsertIntoNothing(m, cutoff);
    } else {
      var rest, last := ms[..|ms| - 1], ms[|ms| - 1];
      assert ms == rest + [last];
      InsertAppend(rest, last, m);
      UnexpiredAppend(rest, last, cutoff);
      if Earlier(m, last) {
        UnexpiredAppend(Insert(rest, m, Earlier), last, cutoff);
        ExpireThenInsert(rest, m, cutoff);
        InsertAppend(Unexpired(rest, cutoff), last, m);
      } else {
        UnexpiredAppend(ms, m, cutoff);
        UnexpiredInOrder(ms, cutoff);
        InsertLatest(Unexpired(ms, cutoff), m);
      }
    }
  }

  lemma InsertIntoNothing(m: Message, cutoff: int)
    ensures Insert([], m, Earlier) == [m] && Unexpired([], cutoff) == [] && Unexpired([m], cutoff) == if m.at > cutoff then [m] else []
  {}

  lemma InsertLatest(ms: seq<Message>, m: Message)
    requires forall x :: x in ms ==> x.at <= m.at
    ensures Insert(ms, m, Earlier) == ms + [m]
  {}

  lemma LiveInOrder(h: seq<Message>, max: nat, cutoff: int)
    ensures InOrder(Live(h, max, cutoff))
  {
    SortedInOrder(h);
    UnexpiredInOrder(Sort(h, Earlier), cutoff);
  }

  /** Pruning again later gives what pruning the whole history later would have given. */
  lemma PruneLater(h: seq<Message>, max: nat, c1: int, c2: int)
    requires c1 <= c2
    ensures Live(Live(h, max, c1), max, c2) == Live(h, max, c2)
  {
    hide Unexpired, Newest;
    var s := Sort(h, Earlier);
    LiveInOrder(h, max, c1);
    SortOfSorted(Live(h, max, c1));
    SortedInOrder(h);
    UnexpiredInOrder(s, c1);
    CapThenExpire(Unexpired(s, c1), max, c2);
    ExpireTwice(s, c1, c2);
  }

  /** Adding to a pruned list and pruning later is adding to the whole history and pruning later. */
  lemma AddThenPrune(h: seq<Message>, max: nat, c1: int, c2: int, m: Message)
    requires c1 <= c2
    ensures Live(Live(h, max, c1) + [m], max, c2) == Live(h + [m], max, c2)
  {
    hide Unexpired, Newest, Insert;
    var kept, s := Live(h, max, c1), Sort(h, Earlier);
    LiveInOrder(h, max, c1);
    SortOfSorted(kept);
    SortedInOrder(h);
    SortAppend(kept, m);
    SortAppend(h, m);
    ExpireThenInsert(kept, m, c2);
    ExpireThenInsert(s, m, c2);
    PruneLater(h, max, c1, c2);
    CapThenInsert(Unexpired(kept, c2), m, max);
    CapThenInsert(Unexpired(s, c2), m, max);
  }

  /** Messages of the same time. */
  function SaidAt(ms: seq<Message>, at: int): seq<Message> {
    if ms == [] then []
    else SaidAt(ms[..|ms| - 1], at) + if ms[|ms| - 1].at == at then [ms[|ms| - 1]] else []
  }

  lemma SaidAtAppend(ms: seq<Message>, m: Message, at: int)
    ensures SaidAt(ms + [m], at) == SaidAt(ms, at) + if m.at == at then [m] else []
  {
    assert (ms + [m])[..|ms|] == ms;
  }

  lemma {:induction false} InsertIsStable(ms: seq<Message>, m: Message, at: int)
    ensures SaidAt(Insert(ms, m, Earlier), at) == SaidAt(ms, at) + if m.at == at then [m] else []
    decreases |ms|
  {
    hide SaidAt, Insert;
    if ms == [] {
      InsertIntoNothing(m, 0);
      SaidAtAppend(ms, m, at);
      assert ms + [m] == [m];
    } else {
      var rest, last := ms[..|ms| - 1], ms[|ms| - 1];
      assert ms == rest + [last];
      InsertAppend(rest, last, m);
      SaidAtAppend(rest, last, at);
      if Earlier(m, last) {
        InsertIsStable(rest, m, at);
        SaidAtAppend(Insert(rest, m, Earlier), last, at);
      } else {
        SaidAtAppend(ms, m, at);
      }
    }
  }

  /** Sorting keeps messages of the same time in the order in which they were added. */
  lemma {:induction false} SortIsStable(ms: seq<Message>, at: int)
    ensures SaidAt(Sort(ms, Earlier), at) == SaidAt(ms, at)
  {
    if ms != [] {
      SortIsStable(ms[..|ms| - 1], at);
      InsertIsStable(Sort(ms[..|ms| - 1], Earlier), ms[|ms| - 1], at);
    }
  }

  // ----- the store

  /** In a list in order, dropping the expired front is dropping everything expired. */
  lemma {:induction false} FrontIsExpired(ms: seq<Message>, start: nat, cutoff: int)
    requires InOrder(ms) && start <= |ms| && (start < |ms| ==> ms[start].at > cutoff)
    requires forall i :: 0 <= i < start ==> ms[i].at <= cutoff
    ensures Unexpired(ms, cutoff) == ms[start..]
    decreases |ms|
  {
    if start == |ms| {
      AllExpired(ms, cutoff);
    } else {
      var rest := ms[..|ms| - 1];
      FrontIsExpired(rest, start, cutoff);
      assert ms[start..] == rest[start..] + [ms[|ms| - 1]];
    }
  }

  lemma LessOrders()
    ensures WeakOrder(Text.Less)
  {
    forall x, y ensures Text.Less(x, y) ==> !Text.Less(y, x) {
      Text.LessIsTotal(x, y, "");
    }
    forall x, y, z ensures Text.Less(x, z) ==> Text.Less(x, y) || Text.Less(y, z) {
      Text.LessIsTotal(x, y, z);
    }
  }

  function At<T>(m: map<string, T>, key: string, default: T): T {
    if key in m then m[key] else default
  }

  /** The live messages of the accepted keys, one key after the other. */
  ghost function Gather(keys: seq<string>, match_: string -> bool, history: map<string, seq<Message>>,
                        max: nat, cutoffs: map<string, int>): seq<Message>
  {
    if keys == [] then []
    else
      var key := keys[|keys| - 1];
      Gather(keys[..|keys| - 1], match_, history, max, cutoffs)
      + if match_(key) then Live(At(history, key, []), max, At(cutoffs, key, 0)) else []
  }

  /** The data with the list under key replaced; an empty list is not kept. */
  function Put(data: map<string, seq<Message>>, key: string, ms: seq<Message>): map<string, seq<Message>> {
    if ms == [] then data - {key} else data[key := ms]
  }

  /** The stored list of every key is what its history showed when the key was pruned last. */
  ghost predicate Faithful(data: map<string, seq<Message>>, history: map<string, seq<Message>>, prunedAt: map<string, int>,
                           clock: int, max: nat, ttl: int)
  {
    && data.Keys <= history.Keys && prunedAt.Keys == history.Keys
    && (forall key :: key in data ==> data[key] != [])
    && (forall key :: key in history ==> prunedAt[key] <= clock && At(data, key, []) == Live(history[key], max, prunedAt[key] - ttl))
  }

  lemma PutAgain(data: map<string, seq<Message>>, key: string, raw: seq<Message>, ms: seq<Message>)
    ensures Put(data[key := raw], key, ms) == Put(data, key, ms) && At(Put(data, key, ms), key, []) == ms
  {}

  /** Pruning one key's new history keeps the store faithful. */
  lemma PutKeepsFaithful(data: map<string, seq<Message>>, history: map<string, seq<Message>>, prunedAt: map<string, int>,
                         clock: int, max: nat, ttl: int, now: int, key: string, h: seq<Message>)
    requires Faithful(data, history, prunedAt, clock, max, ttl) && clock <= now
    ensures Faithful(Put(data, key, Live(h, max, now - ttl)), history[key := h], prunedAt[key := now], now, max, ttl)
  {
    hide Live;
  }

  /** Adding to what is stored and pruning now is adding to the history and pruning it now. */
  lemma StoredThenPruned(data: map<string, seq<Message>>, history: map<string, seq<Message>>, prunedAt: map<string, int>,
                         clock: int, max: nat, ttl: int, now: int, key: string, m: Message)
    requires Faithful(data, history, prunedAt, clock, max, ttl) && clock <= now
    ensures Live(At(data, key, []) + [m], max, now - ttl) == Live(At(history, key, []) + [m], max, now - ttl)
    ensures Live(At(data, key, []), max, now - ttl) == Live(At(history, key, []), max, now - ttl)
  {
    hide Live;
    if key in history {
      AddThenPrune(history[key], max, prunedAt[key] - ttl, now - ttl, m);
      PruneLater(history[key], max, prunedAt[key] - ttl, now - ttl);
    }
  }

  class Store {
    const ttl: int
    const max: nat
    /** The latest reading of the clock. */
    var clock: int
    var data: map<string, seq<Message>>
    /** Everything added under each key since its last replacement, and when the key was pruned last. */
    ghost var history: map<string, seq<Message>>
    ghost var prunedAt: map<string, int>

    /** A non-positive lifetime or cap keeps the default. */
    constructor (ttl: int, max: int, start: int)
      ensures Valid() && data == map[] && history == map[] && clock == start
      ensures this.ttl == (if ttl > 0 then ttl else 20 * 60 * 1_000_000_000) && this.max == if max > 0 then max else 50
    {
      this.ttl := if ttl > 0 then ttl else DEFAULT_TTL;
      this.max := if max > 0 then max else DEFAULT_MAX_PER_KEY;
      clock, data, history, prunedAt := start, map[], map[], map[];
    }

    ghost predicate Valid()
      reads this
    {
      Faithful(data, history, prunedAt, clock, max, ttl)
    }

    /** The clock never runs backwards. */
    method Now() returns (t: int)
      modifies this`clock
      ensures t == clock >= old(clock)
    {
      t :| t >= clock;
      clock := t;
    }

    method SortAndPrune(key: string)
      requires key in data
      modifies this`clock, this`data
      ensures clock >= old(clock)
      ensures data == Put(old(data), key, Live(old(data)[key], max, clock - ttl))
    {
      hide Sort, Unexpired;
      var msgs := Sort(data[key], Earlier);
      SortedInOrder(data[key]);
      var now := Now();
      var cutoff := now - ttl;
      var start := 0;
      while start < |msgs| && msgs[start].at <= cutoff
        invariant start <= |msgs| && forall i :: 0 <= i < start ==> msgs[i].at <= cutoff
      {
        start := start + 1;
      }
      FrontIsExpired(msgs, start, cutoff);
      msgs := msgs[start..];
      if |msgs| > max {
        msgs := msgs[|msgs| - max..];
      }
      if |msgs| == 0 {
        data := data - {key};
        return;
      }
      data := data[key := msgs];
    }

    method Add(key: string, m: Draft) returns (ghost stamped: Message)
      requires Valid()
      modifies this
      ensures Valid() && clock >= old(clock)
      ensures history == old(history)[key := At(old(history), key, []) + [stamped]]
      ensures At(data, key, []) == Live(history[key], max, clock - ttl)
      ensures exists now :: old(clock) <= now <= clock && IsStamped(stamped, m, now)
      ensures IsNewest(At(data, key, []), history[key], max, clock - ttl)
    {
      hide Live, Faithful, Put, IsNewest;
      var said := Stamp(m, clock);
      if m.at.None? {
        var now := Now();
        said := Stamp(m, now);
      }
      assert said == Stamp(m, clock);
      ghost var stampedAt := clock;
      data := data[key := At(data, key, []) + [said]];
      SortAndPrune(key);
      stamped := said;
      ghost var h := At(history, key, []) + [said];
      StoredThenPruned(old(data), history, prunedAt, old(clock), max, ttl, clock, key, said);
      PutAgain(old(data), key, At(old(data), key, []) + [said], Live(h, max, clock - ttl));
      PutKeepsFaithful(old(data), history, prunedAt, old(clock), max, ttl, clock, key, h);
      history := history[key := h];
      prunedAt := prunedAt[key := clock];
      LiveIsNewest(h, max, clock - ttl);
      assert old(clock) <= stampedAt <= clock && IsStamped(stamped, m, stampedAt);
    }

    method Replace(key: string, msgs: seq<Draft>) returns (ghost now: int)
      requires Valid()
      modifies this
      ensures Valid() && old(clock) <= now <= clock
      ensures key in history && history == old(history)[key := history[key]] && |history[key]| == |msgs|
      ensures forall i :: 0 <= i < |msgs| ==> IsStamped(history[key][i], msgs[i], now)
      ensures At(data, key, []) == Live(history[key], max, clock - ttl)
      ensures IsNewest(At(data, key, []), history[key], max, clock - ttl)
    {
      hide Live, Faithful, Put, IsNewest;
      var stamp := Now();
      var out: seq<Message> := [];
      for i := 0 to |msgs|
        invariant out == StampAll(msgs[..i], stamp)
      {
        out := out + [Stamp(msgs[i], stamp)];
      }
      assert msgs[..|msgs|] == msgs;
      data := data[key := out];
      SortAndPrune(key);
      now := stamp;
      PutAgain(old(data), key, out, Live(out, max, clock - ttl));
      PutKeepsFaithful(old(data), history, prunedAt, old(clock), max, ttl, clock, key, out);
      LiveIsNewest(out, max, clock - ttl);
      history := history[key := out];
      prunedAt := prunedAt[key := clock];
    }

    /** Prunes one key on the way, without adding to its history. */
    method Refresh(key: string)
      requires Valid() && key in data
      modifies this`clock, this`data, this`prunedAt
      ensures Valid() && clock >= old(clock) && prunedAt == old(prunedAt)[key := clock]
      ensures At(data, key, []) == Live(At(history, key, []), max, clock - ttl)
      ensures data - {key} == old(data) - {key}
    {
      hide Live, Faithful;
      SortAndPrune(key);
      HasHistory(old(data), history, prunedAt, old(clock), max, ttl, key);
      StoredThenPruned(old(data), history, prunedAt, old(clock), max, ttl, clock, key, Message("", "", "", 0));
      PutKeepsFaithful(old(data), history, prunedAt, old(clock), max, ttl, clock, key, history[key]);
      assert history[key := history[key]] == history;
      prunedAt := prunedAt[key := clock];
    }

    /**
      The live messages of the accepted keys, merged oldest first. Every key is pruned at its own reading
      of the clock, recorded in `cutoffs`.
     */
    method Messages(match_: string -> bool) returns (out: seq<Message>, ghost keys: seq<string>, ghost cutoffs: map<string, int>)
      requires Valid()
      modifies this`clock, this`data, this`prunedAt
      ensures Valid() && clock >= old(clock)
      ensures Sorted(keys, Text.Less) && NoRepeats(keys) && forall key :: key in keys <==> key in old(data)
      ensures forall key :: key in keys ==> key in cutoffs && old(clock) - ttl <= cutoffs[key] <= clock - ttl
      ensures out == Sort(Gather(keys, match_, history, max, cutoffs), Earlier) && InOrder(out)
      ensures forall m :: m in out <==>
                exists key :: key in old(data) && match_(key) && m in Live(At(history, key, []), max, At(cutoffs, key, 0))
    {
      hide InOrder, Live, Faithful, Sort, Gather, NoRepeats, Sorted;
      var names := SortedKeyList(data);
      keys, cutoffs := names, map[];
      var all: seq<Message> := [];
      assert Gather(names[..0], match_, history, max, cutoffs) == [] by { NothingGathered(names, match_, history, max, cutoffs); }
      for i := 0 to |names|
        invariant Valid() && clock >= old(clock)
        invariant StillStored(names, i, data)
        invariant forall k :: 0 <= k < i ==> names[k] in cutoffs && old(clock) - ttl <= cutoffs[names[k]] <= clock - ttl
        invariant all == Gather(names[..i], match_, history, max, cutoffs)
      {
        var key := names[i];
        ghost var before := data;
        Refresh(key);
        StoredAfter(names, i, before, data);
        GatherOneMore(names, i, match_, history, max, cutoffs, clock - ttl);
        cutoffs := cutoffs[key := clock - ttl];
        if match_(key) {
          all := all + At(data, key, []);
        } else {
          assert all + [] == all;
        }
      }
      assert names[..|names|] == names;
      out := Sort(all, Earlier);
      SortedInOrder(all);
      forall m ensures m in out <==>
                 exists key :: key in old(data) && match_(key) && m in Live(At(history, key, []), max, At(cutoffs, key, 0)) {
        SameElements(all, out, m);
        Gathered(names, match_, history, max, cutoffs, m);
      }
    }
  }

  predicate StillStored(names: seq<string>, i: nat, data: map<string, seq<Message>>) {
    forall k :: i <= k < |names| ==> names[k] in data
  }

  lemma StoredAfter(names: seq<string>, i: nat, before: map<string, seq<Message>>, after: map<string, seq<Message>>)
    requires i < |names| && NoRepeats(names) && StillStored(names, i, before) && after - {names[i]} == before - {names[i]}
    ensures StillStored(names, i + 1, after)
  {
    forall k | i + 1 <= k < |names| ensures names[k] in after {
      assert names[k] in before - {names[i]};
    }
  }

  lemma NothingGathered(keys: seq<string>, match_: string -> bool, history: map<string, seq<Message>>, max: nat, cutoffs: map<string, int>)
    ensures Gather(keys[..0], match_, history, max, cutoffs) == []
  {}

  method SortedKeyList(data: map<string, seq<Message>>) returns (names: seq<string>)
    ensures Sorted(names, Text.Less) && NoRepeats(names) && forall key :: key in names <==> key in data
  {
    hide Sort, NoRepeats, Sorted;
    var keys := KeyList(data);
    names := Sort(keys, Text.Less);
    SortedKeys(data, names);
  }

  predicate NoRepeats(xs: seq<string>) {
    forall i, j :: 0 <= i < j < |xs| ==> xs[i] != xs[j]
  }

  lemma HasHistory(data: map<string, seq<Message>>, history: map<string, seq<Message>>, prunedAt: map<string, int>,
                   clock: int, max: nat, ttl: int, key: string)
    requires Faithful(data, history, prunedAt, clock, max, ttl) && key in data
    ensures key in history
  {}

  /** A key that is not stored has nothing to show, now or later. */
  lemma AbsentShowsNothing(data: map<string, seq<Message>>, history: map<string, seq<Message>>, prunedAt: map<string, int>,
                           clock: int, max: nat, ttl: int, now: int, key: string)
    requires Faithful(data, history, prunedAt, clock, max, ttl) && clock <= now && key !in data
    ensures Live(At(history, key, []), max, now - ttl) == []
  {
    hide Live, Faithful;
    StoredThenPruned(data, history, prunedAt, clock, max, ttl, now, key, Message("", "", "", 0));
    NothingLive(max, now - ttl);
  }

  method KeyList(data: map<string, seq<Message>>) returns (keys: seq<string>)
    ensures NoRepeats(keys) && forall key :: key in keys <==> key in data
  {
    keys := [];
    var rest := data.Keys;
    while rest != {}
      invariant NoRepeats(keys) && rest <= data.Keys
      invariant forall key :: key in keys <==> key in data && key !in rest
      decreases |rest|
    {
      var key :| key in rest;
      keys := keys + [key];
      rest := rest - {key};
    }
  }

  lemma SortedKeys(data: map<string, seq<Message>>, names: seq<string>)
    requires exists keys :: NoRepeats(keys) && (forall key :: key in keys <==> key in data) && names == Sort(keys, Text.Less)
    ensures Sorted(names, Text.Less) && NoRepeats(names) && forall key :: key in names <==> key in data
  {
    hide Sort;
    var keys :| NoRepeats(keys) && (forall key :: key in keys <==> key in data) && names == Sort(keys, Text.Less);
    LessOrders();
    SortSorts(keys, Text.Less);
    DistinctIgnoresOrder(keys, names, (x: string) => x);
    forall i, j | 0 <= i < j < |names| ensures names[i] != names[j] {
      assert ((x: string) => x)(names[i]) != ((x: string) => x)(names[j]);
    }
    forall key ensures key in names <==> key in data {
      SameElements(keys, names, key);
    }
  }

  /** What is gathered is shown by some accepted key. */
  lemma {:induction false} Gathered(keys: seq<string>, match_: string -> bool, history: map<string, seq<Message>>,
                                    max: nat, cutoffs: map<string, int>, m: Message)
    ensures m in Gather(keys, match_, history, max, cutoffs) <==>
              exists key :: key in keys && match_(key) && m in Live(At(history, key, []), max, At(cutoffs, key, 0))
  {
    hide Live;
    if keys != [] {
      var n := |keys| - 1;
      assert keys == keys[..n] + [keys[n]];
      Gathered(keys[..n], match_, history, max, cutoffs, m);
    }
  }

  lemma {:induction false} GatherIgnores(keys: seq<string>, match_: string -> bool, history: map<string, seq<Message>>,
                                         max: nat, cutoffs: map<string, int>, key: string, cutoff: int)
    requires key !in keys
    ensures Gather(keys, match_, history, max, cutoffs[key := cutoff]) == Gather(keys, match_, history, max, cutoffs)
  {
    hide Live;
    if keys != [] {
      GatherIgnores(keys[..|keys| - 1], match_, history, max, cutoffs, key, cutoff);
    }
  }

  lemma GatherOneMore(keys: seq<string>, i: nat, match_: string -> bool, history: map<string, seq<Message>>,
                      max: nat, cutoffs: map<string, int>, cutoff: int)
    requires i < |keys| && NoRepeats(keys)
    ensures Gather(keys[..i + 1], match_, history, max, cutoffs[keys[i] := cutoff]) ==
              Gather(keys[..i], match_, history, max, cutoffs)
              + if match_(keys[i]) then Live(At(history, keys[i], []), max, cutoff) else []
  {
    hide Live;
    assert keys[..i + 1][..i] == keys[..i];
    GatherIgnores(keys[..i], match_, history, max, cutoffs, keys[i], cutoff);
  }

  function StampAll(ds: seq<Draft>, now: int): (r: seq<Message>)
    ensures |r| == |ds| && forall i :: 0 <= i < |ds| ==> r[i] == Stamp(ds[i], now)
  {
    seq(|ds|, i requires 0 <= i < |ds| => Stamp(ds[i], now))
  }

  lemma NothingLive(max: nat, cutoff: int)
    ensures Live([], max, cutoff) == []
  {}
}
