/**
  The replay buffer: a circular array that refines "the last `capacity` events added".
 */
module Ring {

  const DEFAULT_RING_CAPACITY := 1000
  const DEFAULT_RING_TTL := 300_000_000_000
  const MAX_EVENT_ID_LENGTH := 128

  datatype Event = Event(id: string, kind: string, data: seq<char>)

  /** An event with the time it was added, in nanoseconds. */
  datatype Entry = Entry(event: Event, createdAt: int)

  datatype Replayed = Miss | Hit(events: seq<Event>)

  // ----- the list the array stands for

  function Last<T>(xs: seq<T>, n: nat): seq<T> {
    if |xs| <= n then xs else xs[|xs| - n..]
  }

  function EventsOf(entries: seq<Entry>): (es: seq<Event>)
    ensures |es| == |entries| && forall i :: 0 <= i < |entries| ==> es[i] == entries[i].event
  {
    seq(|entries|, i requires 0 <= i < |entries| => entries[i].event)
  }

  predicate Alive(e: Entry, ttl: int, now: int) {
    0 <= now - e.createdAt <= ttl
  }

  function AliveEvents(entries: seq<Entry>, ttl: int, now: int): seq<Event> {
    if entries == [] then []
    else
      var rest, last := entries[..|entries| - 1], entries[|entries| - 1];
      AliveEvents(rest, ttl, now) + if Alive(last, ttl, now) then [last.event] else []
  }

  /** The position of the first event with the given id, or the length. */
  function Find(entries: seq<Entry>, id: string): (n: nat)
    ensures n <= |entries| && (n < |entries| ==> entries[n].event.id == id)
    ensures forall i :: 0 <= i < n ==> entries[i].event.id != id
  {
    if entries == [] || entries[0].event.id == id then 0 else 1 + Find(entries[1..], id)
  }

  /** What a replay request answers, given everything ever added. */
  function Replay(log: seq<Entry>, capacity: nat, ttl: int, id: string, now: int): Replayed {
    var window := Last(log, capacity);
    var n := Find(window, id);
    if id == "" || |id| > MAX_EVENT_ID_LENGTH || n == |window| || !Alive(window[n], ttl, now) then Miss
    else Hit(AliveEvents(window[n + 1..], ttl, now))
  }

  // ----- replay returns exactly what was added later

  predicate DistinctIds(log: seq<Entry>) {
    forall i, j :: 0 <= i < j < |log| ==> log[i].event.id != log[j].event.id
  }

  predicate ClockOrdered(log: seq<Entry>, now: int) {
    && (forall i, j :: 0 <= i < j < |log| ==> log[i].createdAt <= log[j].createdAt)
    && (forall i :: 0 <= i < |log| ==> log[i].createdAt <= now)
  }

  lemma {:induction false} AllAlive(entries: seq<Entry>, ttl: int, now: int)
    requires forall i :: 0 <= i < |entries| ==> Alive(entries[i], ttl, now)
    ensures AliveEvents(entries, ttl, now) == EventsOf(entries)
  {
    if entries != [] {
      AllAlive(entries[..|entries| - 1], ttl, now);
    }
  }

  /** A hit is exactly the events added after the given one, in order: the expiry test on each
      of them never drops any. A miss means the event was never added, has been overwritten,
      has expired, or its id is too long to be looked up. */
  lemma ReplayIsExact(log: seq<Entry>, capacity: nat, ttl: int, i: nat, now: int)
    requires DistinctIds(log) && ClockOrdered(log, now) && i < |log|
    ensures Replay(log, capacity, ttl, log[i].event.id, now) ==
              if log[i].event.id == "" || |log[i].event.id| > 128 || i < |log| - capacity
                 || now - log[i].createdAt > ttl
              then Miss else Hit(EventsOf(log[i + 1..]))
  {
    hide Find, AliveEvents, Last;
    var id, window := log[i].event.id, Last(log, capacity);
    var from := |log| - |window|;
    WindowOf(log, capacity);
    if i >= from {
      assert forall j :: 0 <= j < i - from ==> window[j].event.id != id;
      FoundAt(window, id, i - from);
      assert window[i - from + 1..] == log[i + 1..];
      if Alive(log[i], ttl, now) {
        AllAlive(log[i + 1..], ttl, now);
      }
    }
  }

  lemma WindowOf(log: seq<Entry>, capacity: nat)
    ensures |Last(log, capacity)| == if |log| <= capacity then |log| else capacity
    ensures forall j :: 0 <= j < |Last(log, capacity)| ==> Last(log, capacity)[j] == log[|log| - |Last(log, capacity)| + j]
  {
    var window := Last(log, capacity);
    assert |log| > capacity ==> window == log[|log| - capacity..];
  }

  /** Adding an entry appends it to the window and drops the oldest one if the window was full. */
  lemma WindowGrows(log: seq<Entry>, e: Entry, capacity: nat)
    requires capacity > 0
    ensures Last(log + [e], capacity) == (if |log| < capacity then Last(log, capacity) else Last(log, capacity)[1..]) + [e]
  {}

  lemma FoundAt(entries: seq<Entry>, id: string, i: nat)
    requires i < |entries| && entries[i].event.id == id
    requires forall j :: 0 <= j < i ==> entries[j].event.id != id
    ensures Find(entries, id) == i
  {
    hide Find;
  }

  lemma ReplayOfUnknown(log: seq<Entry>, capacity: nat, ttl: int, id: string, now: int)
    requires forall i :: 0 <= i < |log| ==> log[i].event.id != id
    ensures Replay(log, capacity, ttl, id, now) == Miss
  {
    hide Find, AliveEvents, Last;
    WindowOf(log, capacity);
  }

  lemma NoneAlive(ttl: int, now: int)
    ensures AliveEvents([], ttl, now) == []
  {}

  lemma OneMoreAlive(entries: seq<Entry>, from: nat, k: nat, ttl: int, now: int)
    requires from <= k < |entries|
    ensures AliveEvents(entries[from..k + 1], ttl, now) ==
              AliveEvents(entries[from..k], ttl, now) + if Alive(entries[k], ttl, now) then [entries[k].event] else []
  {
    assert entries[from..k + 1][..k - from] == entries[from..k];
  }

  // ----- the array

  datatype Slot = Empty | Full(entry: Entry)

  lemma Wraps(x: int, n: int)
    requires 0 <= x < 2 * n
    ensures x % n == if x < n then x else x - n
  {
    if x >= n {
      assert x == n * 1 + (x - n);
      assert x / n == 1;
    }
  }

  class RingBuffer {
    const entries: array<Slot>
    const capacity: nat
    const ttl: int
    var head: nat
    var count: nat
    ghost var log: seq<Entry>

    constructor (capacity: int, ttl: int)
      ensures Valid() && fresh(entries) && log == []
      ensures this.capacity == if capacity <= 0 then 1000 else capacity
      ensures this.ttl == if ttl <= 0 then 5 * 60 * 1_000_000_000 else ttl
    {
      var cap := if capacity <= 0 then DEFAULT_RING_CAPACITY else capacity;
      this.capacity, this.ttl := cap, if ttl <= 0 then DEFAULT_RING_TTL else ttl;
      entries := new Slot[cap](i => Empty);
      head, count, log := 0, 0, [];
    }

    /** The array index of the i-th oldest stored entry. */
    ghost function At(i: nat): int
      reads this
      requires i < count <= capacity && head < capacity
    {
      if head >= count then head - count + i
      else if head - count + i < 0 then head - count + i + capacity else head - count + i
    }

    /** The stored entries, oldest first, are the last `capacity` of everything added. */
    ghost predicate Valid()
      reads this, entries
    {
      && entries.Length == capacity && capacity > 0 && head < capacity
      && count == |Last(log, capacity)| && (count < capacity ==> head == count)
      && forall i :: 0 <= i < count ==> entries[At(i)] == Full(Last(log, capacity)[i])
    }

    method Add(event: Event, now: int)
      requires Valid()
      modifies this, entries
      ensures Valid() && log == old(log) + [Entry(event, now)]
    {
      hide Last;
      WindowOf(log, capacity);
      WindowGrows(log, Entry(event, now), capacity);
      ghost var before := head;
      entries[head] := Full(Entry(event, now));
      Wraps(head + 1, capacity);
      head := (head + 1) % capacity;
      if count < capacity {
        count := count + 1;
      }
      log := log + [Entry(event, now)];
      assert count == |Last(log, capacity)|;
      forall i | 0 <= i < count ensures entries[At(i)] == Full(Last(log, capacity)[i]) {
        if i == count - 1 {
          assert At(i) == before;
        } else {
          ghost var j := if old(count) < capacity then i else i + 1;
          assert At(i) == old(At(j)) != before;
          assert Last(log, capacity)[i] == Last(old(log), capacity)[j];
        }
      }
    }

    /** The array index of the oldest entry. */
    function Start(): (s: nat)
      reads this, entries
      requires Valid()
    {
      WindowOf(log, capacity);
      (head - count + capacity) % capacity
    }

    /** The i-th oldest stored entry, counted from the oldest index. */
    method EntryAt(startIdx: nat, i: nat) returns (entry: Slot)
      requires Valid() && i < count && startIdx == Start()
      ensures entry == Full(Last(log, capacity)[i])
    {
      hide Last;
      WindowOf(log, capacity);
      Wraps(head - count + capacity, capacity);
      Wraps(startIdx + i, capacity);
      assert (startIdx + i) % capacity == At(i);
      entry := entries[(startIdx + i) % capacity];
    }

    method ReplaySince(lastEventID: string, now: int) returns (r: Replayed)
      requires Valid()
      ensures r == Replay(log, capacity, ttl, lastEventID, now)
    {
      hide Find, Last, Alive, Start, At, AliveEvents;
      if lastEventID == "" || |lastEventID| > MAX_EVENT_ID_LENGTH {
        return Miss;
      }
      if count == 0 {
        return Miss;
      }
      ghost var window := Last(log, capacity);
      WindowOf(log, capacity);
      var startIdx := Start();
      var foundIdx := -1;
      for i := 0 to count
        invariant foundIdx == -1 && forall j :: 0 <= j < i ==> window[j].event.id != lastEventID
      {
        var entry := EntryAt(startIdx, i);
        if entry.Full? && entry.entry.event.id == lastEventID {
          FoundAt(window, lastEventID, i);
          if !Alive(entry.entry, ttl, now) {
            return Miss;
          }
          foundIdx := i;
          break;
        }
      }
      if foundIdx == -1 {
        return Miss;
      }
      var result := [];
      NoneAlive(ttl, now);
      assert window[foundIdx + 1..foundIdx + 1] == [];
      for k := foundIdx + 1 to count
        invariant result == AliveEvents(window[foundIdx + 1..k], ttl, now)
      {
        var entry := EntryAt(startIdx, k);
        OneMoreAlive(window, foundIdx + 1, k, ttl, now);
        if entry.Full? && Alive(entry.entry, ttl, now) {
          result := result + [entry.entry.event];
        }
      }
      assert window[foundIdx + 1..count] == window[foundIdx + 1..];
      return Hit(result);
    }
  }
}
