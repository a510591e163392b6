/**
  The photo deck: one photo for each (local day, album) slot of the scraped photos,
  dealt in windows from a cursor and reconciled whenever the albums change.
 */
module PhotoDeck {

  const PRELOAD_COUNT := 500

  /** A photo with its item key, its local day and its trimmed album name. */
  datatype Photo = Photo(key: string, day: string, album: string)

  datatype Slot = Slot(day: string, album: string)

  function SlotOf(p: Photo): Slot {
    Slot(p.day, p.album)
  }

  // ----- what a deck has to be

  function Slots(ps: seq<Photo>): set<Slot> {
    set p <- ps :: SlotOf(p)
  }

  function Keys(ps: seq<Photo>): set<string> {
    set p <- ps :: p.key
  }

  predicate DistinctSlots(ps: seq<Photo>) {
    forall i, j :: 0 <= i < j < |ps| ==> SlotOf(ps[i]) != SlotOf(ps[j])
  }

  predicate DistinctKeys(ps: seq<Photo>) {
    forall i, j :: 0 <= i < j < |ps| ==> ps[i].key != ps[j].key
  }

  predicate SingleAlbum(ps: seq<Photo>) {
    forall i, j :: 0 <= i < |ps| && 0 <= j < |ps| ==> ps[i].album == ps[j].album
  }

  predicate DrawnFrom(ps: seq<Photo>, scraped: seq<Photo>) {
    forall i :: 0 <= i < |ps| ==> ps[i] in scraped
  }

  /** Exactly one photo of the scrape for each of its slots. */
  predicate Represents(deck: seq<Photo>, scraped: seq<Photo>) {
    DrawnFrom(deck, scraped) && DistinctSlots(deck) && Slots(deck) == Slots(scraped)
  }

  lemma {:induction false} SlotCount(ps: seq<Photo>)
    requires DistinctSlots(ps)
    ensures |Slots(ps)| == |ps|
  {
    if ps != [] {
      var rest, last := ps[..|ps| - 1], ps[|ps| - 1];
      SlotCount(rest);
      assert Slots(ps) == Slots(rest) + {SlotOf(last)};
    }
  }

  /** All decks for a scrape have the same size. */
  lemma SameSize(deck: seq<Photo>, deck': seq<Photo>, scraped: seq<Photo>)
    requires Represents(deck, scraped) && Represents(deck', scraped)
    ensures |deck| == |deck'| == |Slots(scraped)|
  {
    SlotCount(deck);
    SlotCount(deck');
  }

  lemma RepresentsHasDistinctKeys(deck: seq<Photo>, scraped: seq<Photo>)
    requires DrawnFrom(deck, scraped) && DistinctSlots(deck) && DistinctKeys(scraped)
    ensures DistinctKeys(deck)
  {
    forall i, j | 0 <= i < j < |deck| ensures deck[i].key != deck[j].key {
      var k :| 0 <= k < |scraped| && scraped[k] == deck[i];
      var l :| 0 <= l < |scraped| && scraped[l] == deck[j];
      assert k != l;
    }
  }

  // ----- randomness

  /** Any number below n. */
  method Intn(n: nat) returns (k: nat)
    requires n > 0
    ensures k < n
  {
    k :| 0 <= k < n;
  }

  /** Any permutation. */
  method Shuffle(xs: seq<string>) returns (r: seq<string>)
    ensures multiset(r) == multiset(xs)
  {
    r := xs;
    var i := |xs| - 1;
    while i > 0
      invariant |r| == |xs| && i < |xs|
      invariant multiset(r) == multiset(xs)
    {
      var j := Intn(i + 1);
      r := r[i := r[j]][j := r[i]];
      i := i - 1;
    }
  }

  // ----- grouping

  /** The scraped photo of each key; a later photo replaces an earlier one. */
  function ByKey(ps: seq<Photo>): map<string, Photo> {
    if ps == [] then map[] else ByKey(ps[..|ps| - 1])[ps[|ps| - 1].key := ps[|ps| - 1]]
  }

  lemma {:induction false} ByKeyHolds(ps: seq<Photo>)
    ensures ByKey(ps).Keys == Keys(ps)
    ensures forall k :: k in ByKey(ps) ==> ByKey(ps)[k] in ps && ByKey(ps)[k].key == k
  {
    if ps != [] {
      ByKeyHolds(ps[..|ps| - 1]);
      assert ps == ps[..|ps| - 1] + [ps[|ps| - 1]];
    }
  }

  lemma ByKeyExact(ps: seq<Photo>, p: Photo)
    requires DistinctKeys(ps) && p in ps
    ensures p.key in ByKey(ps) && ByKey(ps)[p.key] == p
  {
    ByKeyHolds(ps);
    var q := ByKey(ps)[p.key];
    var i :| 0 <= i < |ps| && ps[i] == p;
    var j :| 0 <= j < |ps| && ps[j] == q;
    assert i == j;
  }

  predicate NoRepeats<T(==)>(xs: seq<T>) {
    forall i, j :: 0 <= i < j < |xs| ==> xs[i] != xs[j]
  }

  datatype Buckets = Buckets(
    dayOrder: seq<string>, albumOrder: seq<string>, bySlot: map<Slot, seq<Photo>>, scrapedByKey: map<string, Photo>)

  /** The photos of one slot, in scrape order. */
  function InSlot(ps: seq<Photo>, s: Slot): seq<Photo> {
    if ps == [] then []
    else InSlot(ps[..|ps| - 1], s) + if SlotOf(ps[|ps| - 1]) == s then [ps[|ps| - 1]] else []
  }

  lemma {:induction false} InSlotHolds(ps: seq<Photo>, s: Slot)
    ensures forall p :: p in InSlot(ps, s) <==> p in ps && SlotOf(p) == s
    ensures InSlot(ps, s) == [] <==> s !in Slots(ps)
  {
    if ps != [] {
      InSlotHolds(ps[..|ps| - 1], s);
      assert ps == ps[..|ps| - 1] + [ps[|ps| - 1]];
    }
  }

  function Days(ps: seq<Photo>): set<string> {
    set p <- ps :: p.day
  }

  function Albums(ps: seq<Photo>): set<string> {
    set p <- ps :: p.album
  }

  ghost predicate Lists(xs: seq<string>, members: set<string>) {
    NoRepeats(xs) && forall x :: x in xs <==> x in members
  }

  predicate SlotsFilled(bySlot: map<Slot, seq<Photo>>, ps: seq<Photo>) {
    bySlot.Keys == Slots(ps) && forall s :: s in bySlot ==> bySlot[s] == InSlot(ps, s)
  }

  /** Before a photo of an album there are photos of all albums listed before it. */
  ghost predicate ByAppearance(albums: seq<string>, ps: seq<Photo>) {
    forall k, l, i :: 0 <= k < l < |albums| && 0 <= i < |ps| && ps[i].album == albums[l] ==> AppearsBefore(albums[k], ps, i)
  }

  predicate AppearsBefore(album: string, ps: seq<Photo>, i: int)
    requires i <= |ps|
  {
    exists j :: 0 <= j < i && ps[j].album == album
  }

  /** Days and albums without repetition, the albums in order of appearance, the photos of each slot and the photo
      of each key. */
  ghost predicate Groups(b: Buckets, ps: seq<Photo>) {
    && Lists(b.dayOrder, Days(ps)) && Lists(b.albumOrder, Albums(ps)) && ByAppearance(b.albumOrder, ps)
    && SlotsFilled(b.bySlot, ps) && b.scrapedByKey == ByKey(ps)
  }

  /** The list with x at the end unless it is there already. */
  function Noted(xs: seq<string>, x: string): seq<string> {
    if x in xs then xs else xs + [x]
  }

  function Candidates(bySlot: map<Slot, seq<Photo>>, s: Slot): seq<Photo> {
    if s in bySlot then bySlot[s] else []
  }

  method GroupPhotosByDayAndAlbum(scraped: seq<Photo>) returns (b: Buckets)
    ensures Groups(b, scraped)
  {
    hide Lists, SlotsFilled, ByAppearance;
    b := Buckets([], [], map[], map[]);
    NothingGrouped();
    for i := 0 to |scraped|
      invariant Groups(b, scraped[..i])
    {
      var item := scraped[i];
      assert scraped[..i + 1] == scraped[..i] + [item] && scraped[..i + 1][..i] == scraped[..i];
      GroupOneMore(b, scraped[..i], item);
      var albumOrder := Noted(b.albumOrder, item.album);
      var dayOrder := Noted(b.dayOrder, item.day);
      var candidates := Candidates(b.bySlot, SlotOf(item)) + [item];
      b := Buckets(dayOrder, albumOrder, b.bySlot[SlotOf(item) := candidates], b.scrapedByKey[item.key := item]);
    }
    assert scraped[..|scraped|] == scraped;
  }

  lemma NothingGrouped()
    ensures Groups(Buckets([], [], map[], map[]), [])
  {}

  lemma NotedLists(xs: seq<string>, x: string, members: set<string>)
    requires Lists(xs, members)
    ensures Lists(Noted(xs, x), members + {x})
  {}

  lemma GroupOneMore(b: Buckets, ps: seq<Photo>, item: Photo)
    requires Groups(b, ps)
    ensures Lists(Noted(b.dayOrder, item.day), Days(ps + [item]))
    ensures Lists(Noted(b.albumOrder, item.album), Albums(ps + [item]))
    ensures SlotsFilled(b.bySlot[SlotOf(item) := Candidates(b.bySlot, SlotOf(item)) + [item]], ps + [item])
    ensures ByAppearance(Noted(b.albumOrder, item.album), ps + [item])
  {
    hide Lists, SlotsFilled, Noted, ByAppearance;
    NotedByAppearance(b.albumOrder, ps, item);
    var qs := ps + [item];
    assert Days(qs) == Days(ps) + {item.day};
    assert Albums(qs) == Albums(ps) + {item.album};
    NotedLists(b.dayOrder, item.day, Days(ps));
    NotedLists(b.albumOrder, item.album, Albums(ps));
    FillOneMore(b.bySlot, ps, item);
  }

  lemma NotedByAppearance(albums: seq<string>, ps: seq<Photo>, item: Photo)
    requires Lists(albums, Albums(ps)) && ByAppearance(albums, ps)
    ensures ByAppearance(Noted(albums, item.album), ps + [item])
  {
    var more, qs := Noted(albums, item.album), ps + [item];
    forall k, l, i | 0 <= k < l < |more| && 0 <= i < |qs| && qs[i].album == more[l] ensures AppearsBefore(more[k], qs, i) {
      assert more[k] in Albums(ps);
      if i < |ps| {
        assert ps[i].album in Albums(ps);
        assert l < |albums| && AppearsBefore(albums[k], ps, i);
        var j :| 0 <= j < i && ps[j].album == albums[k];
        assert qs[j].album == more[k];
      } else {
        var p :| p in ps && p.album == more[k];
        var j :| 0 <= j < |ps| && ps[j] == p;
        assert qs[j].album == more[k];
      }
    }
  }

  lemma FillOneMore(bySlot: map<Slot, seq<Photo>>, ps: seq<Photo>, item: Photo)
    requires SlotsFilled(bySlot, ps)
    ensures SlotsFilled(bySlot[SlotOf(item) := Candidates(bySlot, SlotOf(item)) + [item]], ps + [item])
  {
    var qs := ps + [item];
    assert qs[..|ps|] == ps;
    assert Slots(qs) == Slots(ps) + {SlotOf(item)};
    InSlotHolds(ps, SlotOf(item));
    forall s | s in Slots(qs) ensures InSlot(qs, s) == InSlot(ps, s) + if SlotOf(item) == s then [item] else [] {
    }
  }

  // ----- what the old deck contributes

  /**
    After n photos of the old deck: the days of the photos still scraped, in order of first appearance
    (the k-th first appears at firsts[k]), and for each of their slots the first photo that fills it.
   */
  ghost predicate Remembered(deck: seq<Photo>, n: nat, byKey: map<string, Photo>,
                             days: seq<string>, chosen: map<Slot, Photo>, firsts: seq<nat>)
    requires n <= |deck|
  {
    && NoRepeats(days) && |firsts| == |days|
    && (forall k, l :: 0 <= k < l < |firsts| ==> firsts[k] < firsts[l])
    && (forall k :: 0 <= k < |firsts| ==> firsts[k] < n && IsFirst(deck[firsts[k]], byKey, days[k], chosen))
    && (forall i :: 0 <= i < n && deck[i].key in byKey ==> byKey[deck[i].key].day in days && SlotOf(byKey[deck[i].key]) in chosen)
    && (forall s :: s in chosen ==> s.day in days && SlotOf(chosen[s]) == s && chosen[s] in byKey.Values)
  }

  /** Each slot is filled by the first photo of the old deck that belongs there. */
  ghost predicate ChosenFirst(deck: seq<Photo>, n: nat, byKey: map<string, Photo>, chosen: map<Slot, Photo>)
    requires n <= |deck|
  {
    && (forall i :: 0 <= i < n && IsFirstOfSlot(deck, i, byKey) ==>
          SlotOf(byKey[deck[i].key]) in chosen && chosen[SlotOf(byKey[deck[i].key])] == byKey[deck[i].key])
    && (forall s :: s in chosen ==> HasSlot(deck, n, byKey, s))
  }

  lemma ChosenOneMore(deck: seq<Photo>, i: nat, byKey: map<string, Photo>, chosen: map<Slot, Photo>)
    requires i < |deck| && ChosenFirst(deck, i, byKey, chosen)
    requires forall j :: 0 <= j < i && deck[j].key in byKey ==> SlotOf(byKey[deck[j].key]) in chosen
    ensures deck[i].key !in byKey ==> ChosenFirst(deck, i + 1, byKey, chosen)
    ensures deck[i].key in byKey ==>
              var p := byKey[deck[i].key];
              ChosenFirst(deck, i + 1, byKey, if SlotOf(p) in chosen then chosen else chosen[SlotOf(p) := p])
  {
    hide IsFirstOfSlot, HasSlot, SlotOf;
    forall s ensures HasSlot(deck, i, byKey, s) ==> HasSlot(deck, i + 1, byKey, s) {
      SlotStays(deck, i, byKey, s);
    }
    forall j ensures IsFirstOfSlot(deck, j, byKey) ==> 0 <= j < |deck| && deck[j].key in byKey {
      FirstIsKnown(deck, j, byKey);
    }
    if deck[i].key in byKey {
      SlotIsHere(deck, i, byKey);
    }
  }

  lemma FirstIsKnown(deck: seq<Photo>, i: int, byKey: map<string, Photo>)
    ensures IsFirstOfSlot(deck, i, byKey) ==> 0 <= i < |deck| && deck[i].key in byKey
  {}

  lemma SlotStays(deck: seq<Photo>, i: nat, byKey: map<string, Photo>, s: Slot)
    requires i < |deck|
    ensures HasSlot(deck, i, byKey, s) ==> HasSlot(deck, i + 1, byKey, s)
  {}

  lemma SlotIsHere(deck: seq<Photo>, i: nat, byKey: map<string, Photo>)
    requires i < |deck| && deck[i].key in byKey
    ensures HasSlot(deck, i + 1, byKey, SlotOf(byKey[deck[i].key]))
    ensures HasSlot(deck, i, byKey, SlotOf(byKey[deck[i].key])) ==> !IsFirstOfSlot(deck, i, byKey)
  {}

  /** The given positions are where the days appear first. */
  ghost predicate FirstAppearances(deck: seq<Photo>, byKey: map<string, Photo>, days: seq<string>, firsts: seq<nat>) {
    |firsts| <= |days| && forall k, i :: 0 <= k < |firsts| && 0 <= i < firsts[k] && i < |deck| ==> IsOtherDay(deck[i], byKey, days[k])
  }

  predicate IsOtherDay(p: Photo, byKey: map<string, Photo>, day: string) {
    p.key in byKey ==> byKey[p.key].day != day
  }

  lemma NothingAppears(deck: seq<Photo>, byKey: map<string, Photo>)
    ensures FirstAppearances(deck, byKey, [], []) && Remembered(deck, 0, byKey, [], map[], [])
  {}

  lemma AppearsNow(deck: seq<Photo>, i: nat, byKey: map<string, Photo>, days: seq<string>, firsts: seq<nat>, day: string)
    requires FirstAppearances(deck, byKey, days, firsts) && |firsts| == |days| && day !in days && i < |deck|
    requires forall j :: 0 <= j < i && deck[j].key in byKey ==> byKey[deck[j].key].day in days
    ensures FirstAppearances(deck, byKey, days + [day], firsts + [i])
  {}

  lemma NothingChosen(deck: seq<Photo>, byKey: map<string, Photo>)
    ensures ChosenFirst(deck, 0, byKey, map[])
  {}

  /** A photo of the old deck that is still scraped, and the first of its slot. */
  predicate IsFirstOfSlot(deck: seq<Photo>, i: int, byKey: map<string, Photo>) {
    && 0 <= i < |deck| && deck[i].key in byKey
    && forall j :: 0 <= j < i && deck[j].key in byKey ==> SlotOf(byKey[deck[j].key]) != SlotOf(byKey[deck[i].key])
  }

  predicate HasSlot(deck: seq<Photo>, n: int, byKey: map<string, Photo>, s: Slot)
    requires n <= |deck|
  {
    exists j :: 0 <= j < n && deck[j].key in byKey && SlotOf(byKey[deck[j].key]) == s
  }

  predicate IsFirst(p: Photo, byKey: map<string, Photo>, day: string, chosen: map<Slot, Photo>) {
    && p.key in byKey && byKey[p.key].day == day
    && SlotOf(byKey[p.key]) in chosen && chosen[SlotOf(byKey[p.key])] == byKey[p.key]
  }

  lemma RememberedSoFar(deck: seq<Photo>, n: nat, byKey: map<string, Photo>, days: seq<string>, chosen: map<Slot, Photo>, firsts: seq<nat>)
    requires n <= |deck| && Remembered(deck, n, byKey, days, chosen, firsts)
    ensures |firsts| == |days|
    ensures forall j :: 0 <= j < n && deck[j].key in byKey ==> byKey[deck[j].key].day in days && SlotOf(byKey[deck[j].key]) in chosen
  {}

  lemma RememberOneMore(deck: seq<Photo>, i: nat, byKey: map<string, Photo>, days: seq<string>, chosen: map<Slot, Photo>, firsts: seq<nat>)
    requires i < |deck| && Remembered(deck, i, byKey, days, chosen, firsts)
    ensures deck[i].key !in byKey ==> Remembered(deck, i + 1, byKey, days, chosen, firsts)
    ensures deck[i].key in byKey ==>
              var p := byKey[deck[i].key];
              var more := if SlotOf(p) in chosen then chosen else chosen[SlotOf(p) := p];
              if p.day in days then Remembered(deck, i + 1, byKey, days, more, firsts)
              else Remembered(deck, i + 1, byKey, days + [p.day], more, firsts + [i])
  {
    hide IsFirst, SlotOf;
    if deck[i].key in byKey {
      var p := byKey[deck[i].key];
      var more := if SlotOf(p) in chosen then chosen else chosen[SlotOf(p) := p];
      SlotHasDay(p);
      forall q, day ensures IsFirst(q, byKey, day, chosen) ==> IsFirst(q, byKey, day, more) {
        FirstStays(q, byKey, day, chosen, p);
      }
      if p.day !in days {
        NewDayNewSlot(chosen, days, p);
        FirstNow(deck[i], byKey, more);
      }
    }
  }

  lemma FirstStays(q: Photo, byKey: map<string, Photo>, day: string, chosen: map<Slot, Photo>, p: Photo)
    ensures IsFirst(q, byKey, day, chosen) ==> IsFirst(q, byKey, day, if SlotOf(p) in chosen then chosen else chosen[SlotOf(p) := p])
  {}

  lemma SlotHasDay(p: Photo)
    ensures SlotOf(p).day == p.day
  {}

  lemma NewDayNewSlot(chosen: map<Slot, Photo>, days: seq<string>, p: Photo)
    requires p.day !in days && forall s :: s in chosen ==> s.day in days
    ensures SlotOf(p) !in chosen && SlotOf(p).day == p.day
  {}

  lemma FirstNow(q: Photo, byKey: map<string, Photo>, chosen: map<Slot, Photo>)
    requires q.key in byKey && SlotOf(byKey[q.key]) in chosen && chosen[SlotOf(byKey[q.key])] == byKey[q.key]
    ensures IsFirst(q, byKey, byKey[q.key].day, chosen)
  {}

  method ExtractExistingDeckState(deck: seq<Photo>, byKey: map<string, Photo>)
    returns (days: seq<string>, chosen: map<Slot, Photo>, ghost firsts: seq<nat>)
    ensures Remembered(deck, |deck|, byKey, days, chosen, firsts) && ChosenFirst(deck, |deck|, byKey, chosen)
    ensures FirstAppearances(deck, byKey, days, firsts)
  {
    hide ChosenFirst, FirstAppearances, Remembered, SlotOf;
    assert FirstAppearances(deck, byKey, [], []) && Remembered(deck, 0, byKey, [], map[], []) by { NothingAppears(deck, byKey); }
    days, chosen, firsts := [], map[], [];
    NothingChosen(deck, byKey);
    for i := 0 to |deck|
      invariant Remembered(deck, i, byKey, days, chosen, firsts) && ChosenFirst(deck, i, byKey, chosen)
      invariant FirstAppearances(deck, byKey, days, firsts)
    {
      RememberedSoFar(deck, i, byKey, days, chosen, firsts);
      ChosenOneMore(deck, i, byKey, chosen);
      RememberOneMore(deck, i, byKey, days, chosen, firsts);
      if deck[i].key !in byKey {
        continue;
      }
      var updated := byKey[deck[i].key];
      if SlotOf(updated) !in chosen {
        chosen := chosen[SlotOf(updated) := updated];
      }
      if updated.day !in days {
        AppearsNow(deck, i, byKey, days, firsts, updated.day);
        days, firsts := days + [updated.day], firsts + [i];
      }
    }
  }

  // ----- the new deck

  /** A deck under construction: one photo for each slot in done, the chosen one where there is one. */
  predicate Partial(deck: seq<Photo>, scraped: seq<Photo>, chosen: map<Slot, Photo>, done: set<Slot>) {
    && DrawnFrom(deck, scraped) && DistinctSlots(deck) && Slots(deck) == done
    && forall k :: 0 <= k < |deck| && SlotOf(deck[k]) in chosen ==> deck[k] == chosen[SlotOf(deck[k])]
  }

  lemma PartialGrows(deck: seq<Photo>, scraped: seq<Photo>, chosen: map<Slot, Photo>, done: set<Slot>, next: Photo)
    requires Partial(deck, scraped, chosen, done) && next in scraped && SlotOf(next) !in done
    requires SlotOf(next) in chosen ==> next == chosen[SlotOf(next)]
    ensures Partial(deck + [next], scraped, chosen, done + {SlotOf(next)})
  {
    var r := deck + [next];
    assert Slots(r) == done + {SlotOf(next)};
    forall i, j | 0 <= i < j < |r| ensures SlotOf(r[i]) != SlotOf(r[j]) {
      assert SlotOf(deck[i]) in Slots(deck);
    }
  }

  /** The slots of the given days, and of one more day those in the given albums. */
  function SlotsOn(scraped: seq<Photo>, days: seq<string>, day: string, albums: seq<string>): set<Slot> {
    set s <- Slots(scraped) | s.day in days || (s.day == day && s.album in albums)
  }

  lemma SlotsOnGrows(scraped: seq<Photo>, days: seq<string>, i: nat, albums: seq<string>, j: nat)
    requires i < |days| && j < |albums| && NoRepeats(days) && NoRepeats(albums)
    ensures var slot, before := Slot(days[i], albums[j]), SlotsOn(scraped, days[..i], days[i], albums[..j]);
            && slot !in before
            && SlotsOn(scraped, days[..i], days[i], albums[..j + 1]) == if slot in Slots(scraped) then before + {slot} else before
  {
    hide Slots;
    assert albums[..j + 1] == albums[..j] + [albums[j]];
  }

  lemma SlotsOnWholeDay(scraped: seq<Photo>, days: seq<string>, i: nat, albums: seq<string>, day: string)
    requires i < |days| && Lists(albums, Albums(scraped))
    ensures SlotsOn(scraped, days[..i], days[i], albums) == SlotsOn(scraped, days[..i + 1], day, [])
    ensures SlotsOn(scraped, days[..i], day, []) == SlotsOn(scraped, days[..i], days[i], albums[..0])
  {
    assert days[..i + 1] == days[..i] + [days[i]];
    forall s | s in Slots(scraped) ensures s.album in albums {
      var p :| p in scraped && SlotOf(p) == s;
    }
  }

  lemma SlotsOnAllDays(scraped: seq<Photo>, days: seq<string>)
    requires Lists(days, Days(scraped))
    ensures SlotsOn(scraped, days, "", []) == Slots(scraped)
    ensures SlotsOn(scraped, [], "", []) == {}
  {
    forall s | s in Slots(scraped) ensures s.day in days {
      var p :| p in scraped && SlotOf(p) == s;
    }
  }

  ghost predicate Choices(chosen: map<Slot, Photo>, scraped: seq<Photo>) {
    forall s :: s in chosen ==> SlotOf(chosen[s]) == s && chosen[s] in scraped
  }

  /** The deck goes day by day and, on a day, album by album: at and al say which day and which album each photo is of. */
  ghost predicate Arranged(deck: seq<Photo>, days: seq<string>, albums: seq<string>, at: seq<nat>, al: seq<nat>) {
    && |at| == |al| == |deck|
    && (forall k :: 0 <= k < |deck| ==> at[k] < |days| && deck[k].day == days[at[k]])
    && (forall k :: 0 <= k < |deck| ==> al[k] < |albums| && deck[k].album == albums[al[k]])
    && (forall k, l :: 0 <= k < l < |deck| ==> at[k] < at[l] || (at[k] == at[l] && al[k] < al[l]))
  }

  /** All photos so far are of days before the i-th, or of that day and of albums before the j-th. */
  predicate Below(at: seq<nat>, al: seq<nat>, i: nat, j: nat)
    requires |at| == |al|
  {
    forall k :: 0 <= k < |at| ==> at[k] < i || (at[k] == i && al[k] < j)
  }

  lemma ArrangedGrows(deck: seq<Photo>, days: seq<string>, albums: seq<string>, at: seq<nat>, al: seq<nat>, p: Photo, i: nat, j: nat)
    requires Arranged(deck, days, albums, at, al) && Below(at, al, i, j) && i < |days| && j < |albums|
    requires p.day == days[i] && p.album == albums[j]
    ensures Arranged(deck + [p], days, albums, at + [i], al + [j]) && Below(at + [i], al + [j], i, j + 1)
  {}

  lemma BelowLater(at: seq<nat>, al: seq<nat>, i: nat, j: nat)
    requires |at| == |al| && Below(at, al, i, j)
    ensures Below(at, al, i, j + 1) && Below(at, al, i + 1, 0)
  {}

  lemma NothingArranged(days: seq<string>, albums: seq<string>)
    ensures Arranged([], days, albums, [], []) && Below([], [], 0, 0)
  {}

  /** One photo a day, in the order of the days. */
  predicate DayByDay(deck: seq<Photo>, days: seq<string>) {
    |deck| == |days| && forall k :: 0 <= k < |days| ==> deck[k].day == days[k]
  }

  /** The deck of the given days: a remembered photo where there is one, any photo of the slot otherwise. */
  method BuildDeck(days: seq<string>, b: Buckets, chosen: map<Slot, Photo>, ghost scraped: seq<Photo>)
    returns (deck: seq<Photo>, ghost at: seq<nat>, ghost al: seq<nat>)
    requires Groups(b, scraped) && Lists(days, Days(scraped)) && Choices(chosen, scraped)
    ensures Partial(deck, scraped, chosen, Slots(scraped))
    ensures SingleAlbum(scraped) ==> DayByDay(deck, days)
    ensures Arranged(deck, days, b.albumOrder, at, al)
  {
    hide Partial, SlotsOn, Lists, SlotsFilled, Choices, SingleAlbum, Below, ByAppearance;
    deck, at, al := [], [], [];
    NothingArranged(days, b.albumOrder);
    SlotsOnAllDays(scraped, days);
    EmptyPartial(scraped, chosen);
    assert days[..0] == [];
    for i := 0 to |days|
      invariant Partial(deck, scraped, chosen, SlotsOn(scraped, days[..i], "", []))
      invariant SingleAlbum(scraped) ==> DayByDay(deck, days[..i])
      invariant Arranged(deck, days, b.albumOrder, at, al) && Below(at, al, i, 0)
    {
      deck, at, al := AppendDay(deck, days, i, b, chosen, scraped, at, al);
    }
    assert days[..|days|] == days;
  }

  lemma EmptyPartial(scraped: seq<Photo>, chosen: map<Slot, Photo>)
    ensures Partial([], scraped, chosen, {})
  {}

  method AppendDay(deck: seq<Photo>, days: seq<string>, i: nat, b: Buckets, chosen: map<Slot, Photo>, ghost scraped: seq<Photo>,
                   ghost atSoFar: seq<nat>, ghost alSoFar: seq<nat>)
    returns (r: seq<Photo>, ghost at: seq<nat>, ghost al: seq<nat>)
    requires Groups(b, scraped) && Lists(days, Days(scraped)) && Choices(chosen, scraped) && i < |days|
    requires Partial(deck, scraped, chosen, SlotsOn(scraped, days[..i], "", []))
    requires Arranged(deck, days, b.albumOrder, atSoFar, alSoFar) && Below(atSoFar, alSoFar, i, 0)
    ensures Arranged(r, days, b.albumOrder, at, al) && Below(at, al, i + 1, 0)
    ensures Partial(r, scraped, chosen, SlotsOn(scraped, days[..i + 1], "", []))
    ensures SingleAlbum(scraped) && DayByDay(deck, days[..i]) ==> DayByDay(r, days[..i + 1])
  {
    hide Partial, SlotsOn, DrawnFrom, Lists, SlotsFilled, DistinctSlots, SingleAlbum, DayByDay, Arranged, Below, ByAppearance;
    r, at, al := deck, atSoFar, alSoFar;
    ArrangedSizes(deck, days, b.albumOrder, at, al);
    SlotsOnWholeDay(scraped, days, i, b.albumOrder, "");
    ListsHasNoRepeats(days, Days(scraped));
    ListsHasNoRepeats(b.albumOrder, Albums(scraped));
    for j := 0 to |b.albumOrder|
      invariant Partial(r, scraped, chosen, SlotsOn(scraped, days[..i], days[i], b.albumOrder[..j]))
      invariant |r| >= |deck| && r == deck + r[|deck|..]
      invariant forall k :: |deck| <= k < |r| ==> r[k].day == days[i]
      invariant SingleAlbum(scraped) ==> |r| == |deck| + j
      invariant |at| == |al| && Arranged(r, days, b.albumOrder, at, al) && Below(at, al, i, j)
    {
      BelowLater(at, al, i, j);
      var slot := Slot(days[i], b.albumOrder[j]);
      var candidates := Candidates(b.bySlot, slot);
      CandidatesFillSlot(b, scraped, days, i, j);
      SlotsOnGrows(scraped, days, i, b.albumOrder, j);
      if |candidates| == 0 {
        continue;
      }
      var next;
      if slot in chosen {
        next := chosen[slot];
      } else {
        var k := Intn(|candidates|);
        next := candidates[k];
      }
      PartialGrows(r, scraped, chosen, SlotsOn(scraped, days[..i], days[i], b.albumOrder[..j]), next);
      ArrangedGrows(r, days, b.albumOrder, at, al, next, i, j);
      r, at, al := r + [next], at + [i], al + [j];
    }
    BelowLater(at, al, i, |b.albumOrder|);
    assert b.albumOrder[..|b.albumOrder|] == b.albumOrder;
    if SingleAlbum(scraped) && DayByDay(deck, days[..i]) {
      SingleAlbumOrder(b, scraped, days, i);
      DayAppended(deck, r, days, i);
    }
  }

  lemma ArrangedSizes(deck: seq<Photo>, days: seq<string>, albums: seq<string>, at: seq<nat>, al: seq<nat>)
    requires Arranged(deck, days, albums, at, al)
    ensures |at| == |al| == |deck|
  {}

  lemma ListsHasNoRepeats(xs: seq<string>, members: set<string>)
    requires Lists(xs, members)
    ensures NoRepeats(xs)
  {}

  lemma CandidatesFillSlot(b: Buckets, scraped: seq<Photo>, days: seq<string>, i: nat, j: nat)
    requires Groups(b, scraped) && Lists(days, Days(scraped)) && i < |days| && j < |b.albumOrder|
    ensures var slot := Slot(days[i], b.albumOrder[j]);
            var candidates := Candidates(b.bySlot, slot);
            && (candidates == [] <==> slot !in Slots(scraped))
            && (forall p :: p in candidates ==> p in scraped && SlotOf(p) == slot)
            && (SingleAlbum(scraped) ==> candidates != [])
  {
    var slot := Slot(days[i], b.albumOrder[j]);
    InSlotHolds(scraped, slot);
    assert days[i] in Days(scraped) && b.albumOrder[j] in Albums(scraped);
    var p :| p in scraped && p.day == days[i];
    var q :| q in scraped && q.album == b.albumOrder[j];
    if SingleAlbum(scraped) {
      var k :| 0 <= k < |scraped| && scraped[k] == p;
      var l :| 0 <= l < |scraped| && scraped[l] == q;
      assert p.album == q.album && SlotOf(p) == slot;
    }
  }

  lemma SingleAlbumOrder(b: Buckets, scraped: seq<Photo>, days: seq<string>, i: nat)
    requires Groups(b, scraped) && Lists(days, Days(scraped)) && i < |days| && SingleAlbum(scraped)
    ensures |b.albumOrder| == 1
  {
    assert days[i] in Days(scraped);
    var p :| p in scraped && p.day == days[i];
    assert p.album in b.albumOrder;
    forall j | 0 <= j < |b.albumOrder| ensures b.albumOrder[j] == p.album {
      assert b.albumOrder[j] in Albums(scraped);
      var q :| q in scraped && q.album == b.albumOrder[j];
      SameAlbum(scraped, p, q);
    }
    if |b.albumOrder| > 1 {
      FirstTwoDiffer(b.albumOrder);
      assert false;
    }
  }

  lemma FirstTwoDiffer(xs: seq<string>)
    requires NoRepeats(xs) && |xs| > 1
    ensures xs[0] != xs[1]
  {}

  lemma DayAppended(deck: seq<Photo>, r: seq<Photo>, days: seq<string>, i: nat)
    requires i < |days| && DayByDay(deck, days[..i]) && |r| == |deck| + 1
    requires r == deck + r[|deck|..] && r[|deck|].day == days[i]
    ensures DayByDay(r, days[..i + 1])
  {}

  // ----- the cursor

  /** How many of the first n photos of the deck have one of the given keys. */
  function Kept(deck: seq<Photo>, n: nat, keys: set<string>): (k: nat)
    requires n <= |deck|
    ensures k <= n
  {
    if n == 0 then 0 else Kept(deck, n - 1, keys) + if deck[n - 1].key in keys then 1 else 0
  }

  /** The cursor minus the dealt photos that left the deck, kept inside the new deck. */
  method MovedCursor(deck: seq<Photo>, cursor: int, newDeck: seq<Photo>) returns (r: int)
    ensures 0 <= r <= |newDeck|
    ensures 0 <= cursor <= |deck| && Kept(deck, cursor, Keys(newDeck)) <= |newDeck| ==> r == Kept(deck, cursor, Keys(newDeck))
  {
    var newCursor := cursor;
    var dealt := if cursor < 0 then 0 else if cursor < |deck| then cursor else |deck|;
    for i := 0 to dealt
      invariant newCursor == cursor - i + Kept(deck, i, Keys(newDeck))
    {
      if deck[i].key !in Keys(newDeck) {
        newCursor := newCursor - 1;
      }
    }
    r := if newCursor < |newDeck| then newCursor else |newDeck|;
    r := if r < 0 then 0 else r;
  }

  /** The surviving photos are the first ones of the new deck, in the order of the old one. */
  ghost predicate Survivors(deck: seq<Photo>, newDeck: seq<Photo>, firsts: seq<nat>) {
    && |firsts| <= |newDeck|
    && (forall k, l :: 0 <= k < l < |firsts| ==> firsts[k] < firsts[l])
    && (forall k :: 0 <= k < |firsts| ==> firsts[k] < |deck| && newDeck[k].key == deck[firsts[k]].key)
    && (forall i :: 0 <= i < |deck| && deck[i].key in Keys(newDeck) ==> i in firsts)
  }

  lemma {:induction false} KeptIsPrefix(deck: seq<Photo>, newDeck: seq<Photo>, firsts: seq<nat>, n: nat)
    requires Survivors(deck, newDeck, firsts) && n <= |deck|
    ensures Kept(deck, n, Keys(newDeck)) <= |firsts|
    ensures forall k :: 0 <= k < |firsts| ==> (k < Kept(deck, n, Keys(newDeck)) <==> firsts[k] < n)
  {
    hide Keys;
    if n > 0 {
      KeptIsPrefix(deck, newDeck, firsts, n - 1);
      var before := Kept(deck, n - 1, Keys(newDeck));
      SurvivorKept(deck, newDeck, firsts, n - 1);
      if deck[n - 1].key in Keys(newDeck) {
        var k :| 0 <= k < |firsts| && firsts[k] == n - 1;
        assert k == 0 || firsts[k - 1] < firsts[k];
        assert k == before;
      }
    }
  }

  /** A photo of the old deck is in the new one exactly if it is a survivor. */
  lemma SurvivorKept(deck: seq<Photo>, newDeck: seq<Photo>, firsts: seq<nat>, i: nat)
    requires Survivors(deck, newDeck, firsts) && i < |deck|
    ensures deck[i].key in Keys(newDeck) <==> i in firsts
  {
    if i in firsts {
      var k :| 0 <= k < |firsts| && firsts[k] == i;
      assert newDeck[k].key == deck[i].key;
    }
  }

  /** The photos before the new cursor are exactly the surviving ones that were before the old cursor. */
  predicate Continues(deck: seq<Photo>, cursor: int, newDeck: seq<Photo>, newCursor: int) {
    0 <= cursor <= |deck| && 0 <= newCursor <= |newDeck|
    && Keys(newDeck[..newCursor]) == Keys(deck[..cursor]) * Keys(newDeck)
  }

  lemma SurvivorsContinue(deck: seq<Photo>, cursor: nat, newDeck: seq<Photo>, firsts: seq<nat>)
    requires Survivors(deck, newDeck, firsts) && cursor <= |deck| && DistinctKeys(deck)
    ensures Kept(deck, cursor, Keys(newDeck)) <= |newDeck|
    ensures Continues(deck, cursor, newDeck, Kept(deck, cursor, Keys(newDeck)))
  {
    hide Kept;
    KeptIsPrefix(deck, newDeck, firsts, cursor);
    var c := Kept(deck, cursor, Keys(newDeck));
    forall key | key in Keys(newDeck[..c]) ensures key in Keys(deck[..cursor]) && key in Keys(newDeck) {
      var k :| 0 <= k < c && newDeck[k].key == key;
      assert deck[..cursor][firsts[k]].key == key && newDeck[..c][k] == newDeck[k];
    }
    forall key | key in Keys(deck[..cursor]) && key in Keys(newDeck) ensures key in Keys(newDeck[..c]) {
      var i :| 0 <= i < cursor && deck[..cursor][i].key == key;
      var k :| 0 <= k < |firsts| && firsts[k] == i;
      assert newDeck[..c][k].key == key;
    }
  }

  lemma SingleAlbumSurvivors(scraped: seq<Photo>, deck: seq<Photo>, days: seq<string>, newDays: seq<string>,
                             chosen: map<Slot, Photo>, firsts: seq<nat>, newDeck: seq<Photo>)
    requires DistinctKeys(scraped) && SingleAlbum(scraped) && DistinctKeys(deck)
    requires Remembered(deck, |deck|, ByKey(scraped), days, chosen, firsts)
    requires Partial(newDeck, scraped, chosen, Slots(scraped)) && DayByDay(newDeck, days + newDays) && NoRepeats(days + newDays)
    ensures Survivors(deck, newDeck, firsts)
  {
    hide ByKey, SingleAlbum, DistinctKeys;
    var byKey := ByKey(scraped);
    ByKeyHolds(scraped);
    forall k | 0 <= k < |firsts| ensures newDeck[k] == byKey[deck[firsts[k]].key] {
      var p := byKey[deck[firsts[k]].key];
      assert (days + newDays)[k] == days[k] && newDeck[k] in scraped;
      SameAlbum(scraped, p, newDeck[k]);
    }
    forall i | 0 <= i < |deck| && deck[i].key in Keys(newDeck) ensures i in firsts {
      var m :| 0 <= m < |newDeck| && newDeck[m].key == deck[i].key;
      assert newDeck[m] in scraped;
      ByKeyExact(scraped, newDeck[m]);
      var k :| 0 <= k < |days| && days[k] == newDeck[m].day;
      assert (days + newDays)[k] == days[k] && (days + newDays)[m] == newDeck[m].day;
      assert m == k;
      SameKeySamePlace(deck, i, firsts[k]);
    }
  }

  lemma SameAlbum(scraped: seq<Photo>, p: Photo, q: Photo)
    requires SingleAlbum(scraped) && p in scraped && q in scraped
    ensures p.album == q.album
  {}

  lemma SameKeySamePlace(deck: seq<Photo>, i: nat, j: nat)
    requires DistinctKeys(deck) && i < |deck| && j < |deck| && deck[i].key == deck[j].key
    ensures i == j
  {}

  /** The days of the scrape that are not in the old deck. */
  method NewDays(dayOrder: seq<string>, existing: seq<string>, ghost members: set<string>) returns (days: seq<string>)
    requires Lists(dayOrder, members) && NoRepeats(existing) && forall d :: d in existing ==> d in members
    ensures Lists(existing + days, members)
  {
    days := [];
    for i := 0 to |dayOrder|
      invariant NoRepeats(days)
      invariant forall d :: d in days <==> d in dayOrder[..i] && d !in existing
    {
      if dayOrder[i] !in existing {
        days := days + [dayOrder[i]];
      }
    }
    if |days| > 1 {
      var shuffled := Shuffle(days);
      PermutationLists(days, shuffled);
      days := shuffled;
    }
    ConcatenationLists(existing, days);
  }

  lemma ConcatenationLists(xs: seq<string>, ys: seq<string>)
    requires NoRepeats(xs) && NoRepeats(ys) && forall y :: y in ys ==> y !in xs
    ensures NoRepeats(xs + ys)
  {
    var zs := xs + ys;
    forall i, j | 0 <= i < j < |zs| ensures zs[i] != zs[j] {
      assert j >= |xs| ==> zs[j] in ys;
    }
  }

  lemma PermutationLists(xs: seq<string>, ys: seq<string>)
    requires NoRepeats(xs) && multiset(xs) == multiset(ys)
    ensures NoRepeats(ys) && forall x :: x in xs <==> x in ys
  {
    forall x | x in ys ensures x in xs { assert x in multiset(ys); }
    forall x | x in xs ensures x in ys { assert x in multiset(xs); }
    forall i, j | 0 <= i < j < |ys| ensures ys[i] != ys[j] {
      if ys[i] == ys[j] {
        TwiceCounted(ys, i, j);
        OnceCounted(xs, ys[i]);
        assert false;
      }
    }
  }

  lemma TwiceCounted(ys: seq<string>, i: nat, j: nat)
    requires i < j < |ys| && ys[i] == ys[j]
    ensures multiset(ys)[ys[i]] >= 2
  {
    assert ys == ys[..j] + ys[j..];
    assert ys[i] in multiset(ys[..j]) && ys[j] in multiset(ys[j..]) by {
      assert ys[..j][i] == ys[i] && ys[j..][0] == ys[j];
    }
  }

  lemma {:induction false} OnceCounted(xs: seq<string>, x: string)
    requires NoRepeats(xs)
    ensures multiset(xs)[x] <= 1
  {
    if xs != [] {
      var rest, last := xs[..|xs| - 1], xs[|xs| - 1];
      assert xs == rest + [last];
      OnceCounted(rest, x);
      assert last !in multiset(rest);
    }
  }

  // ----- the provider

  lemma RememberedFacts(deck: seq<Photo>, scraped: seq<Photo>, days: seq<string>, chosen: map<Slot, Photo>, firsts: seq<nat>)
    requires Remembered(deck, |deck|, ByKey(scraped), days, chosen, firsts)
    ensures NoRepeats(days) && (forall d :: d in days ==> d in Days(scraped)) && Choices(chosen, scraped)
  {
    ByKeyHolds(scraped);
    forall d | d in days ensures d in Days(scraped) {
      var k :| 0 <= k < |days| && days[k] == d;
      assert ByKey(scraped)[deck[firsts[k]].key] in scraped;
    }
  }

  lemma PartialRepresents(deck: seq<Photo>, scraped: seq<Photo>, chosen: map<Slot, Photo>)
    requires Partial(deck, scraped, chosen, Slots(scraped))
    ensures Represents(deck, scraped)
  {}

  /** For every slot that photos of the old deck still fill, the first of them is in the new deck. */
  ghost predicate KeepsSurvivors(deck: seq<Photo>, scraped: seq<Photo>, newDeck: seq<Photo>) {
    forall i :: IsFirstOfSlot(deck, i, ByKey(scraped)) ==> ByKey(scraped)[deck[i].key] in newDeck
  }

  /** The days of the old deck's photos come first, in the order in which they appeared there. */
  ghost predicate OldDaysFirst(deck: seq<Photo>, byKey: map<string, Photo>, days: seq<string>, firsts: seq<nat>) {
    && NoRepeats(days) && |firsts| <= |days| && (forall k, l :: 0 <= k < l < |firsts| ==> firsts[k] < firsts[l])
    && (forall k :: 0 <= k < |firsts| ==>
          firsts[k] < |deck| && deck[firsts[k]].key in byKey && byKey[deck[firsts[k]].key].day == days[k])
    && FirstAppearances(deck, byKey, days, firsts)
    && (forall i :: 0 <= i < |deck| && deck[i].key in byKey ==> byKey[deck[i].key].day in days[..|firsts|])
  }

  /** The new deck goes by days, the old ones first, and on a day by albums in order of appearance. */
  ghost predicate Continuing(deck: seq<Photo>, scraped: seq<Photo>, newDeck: seq<Photo>, days: seq<string>, albums: seq<string>,
                             at: seq<nat>, al: seq<nat>, firsts: seq<nat>)
  {
    && Arranged(newDeck, days, albums, at, al) && Lists(albums, Albums(scraped)) && ByAppearance(albums, scraped)
    && OldDaysFirst(deck, ByKey(scraped), days, firsts)
  }

  ghost predicate KeepsOrder(deck: seq<Photo>, scraped: seq<Photo>, newDeck: seq<Photo>) {
    exists days, albums, at, al, firsts :: Continuing(deck, scraped, newDeck, days, albums, at, al, firsts)
  }

  lemma OldDaysComeFirst(deck: seq<Photo>, byKey: map<string, Photo>, days: seq<string>, newDays: seq<string>, chosen: map<Slot, Photo>,
                         firsts: seq<nat>)
    requires Remembered(deck, |deck|, byKey, days, chosen, firsts) && FirstAppearances(deck, byKey, days, firsts)
    requires NoRepeats(days + newDays)
    ensures OldDaysFirst(deck, byKey, days + newDays, firsts)
  {
    assert (days + newDays)[..|firsts|] == days;
    forall k, i | 0 <= k < |firsts| && 0 <= i < firsts[k] && i < |deck| ensures IsOtherDay(deck[i], byKey, (days + newDays)[k]) {
      assert IsOtherDay(deck[i], byKey, days[k]);
    }
  }

  lemma SurvivorsStay(deck: seq<Photo>, scraped: seq<Photo>, chosen: map<Slot, Photo>, newDeck: seq<Photo>)
    requires ChosenFirst(deck, |deck|, ByKey(scraped), chosen) && Choices(chosen, scraped)
    requires Partial(newDeck, scraped, chosen, Slots(scraped))
    ensures KeepsSurvivors(deck, scraped, newDeck)
  {
    hide ByKey, HasSlot;
    var byKey := ByKey(scraped);
    forall i | IsFirstOfSlot(deck, i, byKey) ensures byKey[deck[i].key] in newDeck {
      var s := SlotOf(byKey[deck[i].key]);
      assert chosen[s] in scraped;
      assert s in Slots(newDeck);
      var k :| 0 <= k < |newDeck| && SlotOf(newDeck[k]) == s;
    }
  }

  lemma AlbumsInOrder(b: Buckets, scraped: seq<Photo>)
    requires Groups(b, scraped)
    ensures Lists(b.albumOrder, Albums(scraped)) && ByAppearance(b.albumOrder, scraped)
  {}

  /** The conditions of the no-skip guarantee: one album, distinct photo keys. */
  predicate Plain(scraped: seq<Photo>) {
    DistinctKeys(scraped) && SingleAlbum(scraped)
  }

  class PhotosProvider {
    var deck: seq<Photo>
    var deckCursor: int
    /** The keys dealt from this deck in this round, as long as the photos stay in the deck. */
    ghost var dealt: set<string>

    constructor ()
      ensures deck == [] && deckCursor == 0 && OnTrack()
    {
      deck, deckCursor, dealt := [], 0, {};
    }

    /** The photos before the cursor are exactly the dealt ones. */
    ghost predicate OnTrack()
      reads this
    {
      0 <= deckCursor <= |deck| && DistinctKeys(deck) && dealt == Keys(deck[..deckCursor])
    }

    method ReconcilePhotoDeck(scraped: seq<Photo>)
      modifies this
      ensures Represents(deck, scraped) && 0 <= deckCursor <= |deck|
      ensures dealt == old(dealt) * Keys(deck)
      ensures Plain(scraped) && old(OnTrack()) ==> OnTrack()
      ensures KeepsSurvivors(old(deck), scraped, deck)
      ensures KeepsOrder(old(deck), scraped, deck)
    {
      hide Groups, Partial, Lists, Represents, DayByDay, Choices, Remembered, Survivors, SingleAlbum, DistinctKeys, Kept, ChosenFirst,
        FirstAppearances, Arranged, ByAppearance, OldDaysFirst, KeepsSurvivors;
      var buckets := GroupPhotosByDayAndAlbum(scraped);
      GroupedParts(buckets, scraped);
      var existingDays, chosen, firsts := ExtractExistingDeckState(deck, buckets.scrapedByKey);
      RememberedFacts(deck, scraped, existingDays, chosen, firsts);
      var newDays := NewDays(buckets.dayOrder, existingDays, Days(scraped));
      var newDeck, at, al := BuildDeck(existingDays + newDays, buckets, chosen, scraped);
      PartialRepresents(newDeck, scraped, chosen);
      OldDaysComeFirst(deck, ByKey(scraped), existingDays, newDays, chosen, firsts);
      SurvivorsStay(deck, scraped, chosen, newDeck);
      AlbumsInOrder(buckets, scraped);
      assert Continuing(deck, scraped, newDeck, existingDays + newDays, buckets.albumOrder, at, al, firsts);
      var newCursor := MovedCursor(deck, deckCursor, newDeck);
      if Plain(scraped) && OnTrack() {
        ListsHasNoRepeats(existingDays + newDays, Days(scraped));
        SingleAlbumSurvivors(scraped, deck, existingDays, newDays, chosen, firsts, newDeck);
        SurvivorsContinue(deck, deckCursor, newDeck, firsts);
        DeckKeysDistinct(newDeck, scraped);
      }
      deckCursor := newCursor;
      deck := newDeck;
      dealt := dealt * Keys(deck);
    }

    /**
      Deals the next window. `full` is the deck the window is dealt from; `roundOver` says that the deck is
      discarded or started again.
     */
    method SelectAlbumWindow(scraped: seq<Photo>) returns (window: seq<Photo>, ghost full: seq<Photo>, ghost roundOver: bool)
      modifies this
      ensures DrawnFrom(window, scraped) && DistinctSlots(window) && |window| == AtMost(|Slots(scraped)|, 500)
      ensures |scraped| <= 1 ==> deck == [] && deckCursor == 0
      ensures |scraped| > 1 ==> Represents(deck, scraped) && 0 <= deckCursor < |deck| && Represents(full, scraped)
      ensures |scraped| > 1 && deckCursor > 0 ==> |window| <= deckCursor && window == deck[deckCursor - |window|..deckCursor]
      ensures Plain(scraped) && old(OnTrack()) ==> OnTrack()
      ensures Plain(scraped) && old(OnTrack()) && |scraped| > 1 ==> Fair(old(dealt), full, window, roundOver, dealt)
      ensures !roundOver ==> deck == full
      ensures Plain(scraped) && deckCursor == 0 && |deck| > 500 ==> window != [] && deck[0].key != window[|window| - 1].key
    {
      hide Represents, DistinctKeys, SingleAlbum, Keys, Slots, DrawnFrom, DistinctSlots, KeepsSurvivors, KeepsOrder, Fair;
      EmptyKeys();
      if |scraped| <= 1 {
        deck, deckCursor, dealt := [], 0, {};
        SmallScrape(scraped);
        return scraped, [], true;
      }
      ReconcilePhotoDeck(scraped);
      ghost var kept := dealt;
      window, full, roundOver := DealWindow(scraped);
      FairBefore(old(dealt), kept, full, window, roundOver, dealt);
    }

    /** Deals from the reconciled deck. */
    method DealWindow(scraped: seq<Photo>) returns (window: seq<Photo>, ghost full: seq<Photo>, ghost roundOver: bool)
      requires |scraped| > 1 && Represents(deck, scraped) && 0 <= deckCursor <= |deck|
      modifies this
      ensures DrawnFrom(window, scraped) && DistinctSlots(window) && |window| == AtMost(|Slots(scraped)|, 500)
      ensures Represents(deck, scraped) && 0 <= deckCursor < |deck| && full == old(deck)
      ensures deckCursor > 0 ==> |window| <= deckCursor && window == deck[deckCursor - |window|..deckCursor]
      ensures Plain(scraped) && old(OnTrack()) ==> OnTrack() && Fair(old(dealt), full, window, roundOver, dealt)
      ensures !roundOver ==> deck == full
      ensures Plain(scraped) && deckCursor == 0 && |deck| > 500 ==> window != [] && deck[0].key != window[|window| - 1].key
    {
      hide Represents, DistinctKeys, SingleAlbum, Keys, Slots, DrawnFrom, DistinctSlots, Fair;
      EmptyKeys();
      full, roundOver := deck, false;
      ghost var c := deckCursor;
      DeckSize(deck, scraped);
      if deckCursor < 0 || deckCursor >= |deck| {
        deckCursor := 0;
        dealt := {};
        roundOver := true;
      }
      assert deck[..0] == [] && deck[|deck|..] == [];
      var limit := AtMost(|deck|, PRELOAD_COUNT);
      WindowFacts(deck, scraped, deckCursor, AtMost(|deck|, deckCursor + limit));
      if Plain(scraped) {
        DeckKeysDistinct(deck, scraped);
      }
      if limit >= |deck| {
        WholeDeck(deck, scraped);
        deckCursor := 0;
        dealt := {};
        FairEnd(full, c, deck, {});
        return deck, full, true;
      }
      if deckCursor + limit < |deck| {
        window := deck[deckCursor..deckCursor + limit];
        if Plain(scraped) {
          FairNext(deck, deckCursor, deckCursor + limit);
        }
        deckCursor := deckCursor + limit;
        dealt := dealt + Keys(window);
        if roundOver {
          FairEnd(full, c, window, dealt);
        }
        return window, full, roundOver;
      }
      var tail := deck[deckCursor..];
      assert tail == deck[deckCursor..|deck|];
      if deckCursor + limit == |deck| {
        ShuffleAgain(tail, scraped);
        DeckSize(deck, scraped);
        FairEnd(full, c, tail, {});
        return tail, full, true;
      }
      ContinueWith(tail, scraped);
      DeckSize(deck, scraped);
      WindowFacts(deck, scraped, 0, limit);
      window := deck[..limit];
      assert window == deck[0..limit];
      if Plain(scraped) {
        DeckKeysDistinct(deck, scraped);
      }
      deckCursor := limit;
      dealt := Keys(window);
      roundOver := true;
      KeysOfPart(tail, window);
      FairEnd(full, c, window, dealt);
    }

    /** A fresh deck whose first photo is not the last of the window just dealt. */
    method ShuffleAgain(tail: seq<Photo>, scraped: seq<Photo>)
      requires tail != []
      modifies this
      ensures Represents(deck, scraped) && deckCursor == 0 && dealt == {}
      ensures Plain(scraped) ==> DistinctKeys(deck)
      ensures Plain(scraped) && |deck| > 1 ==> deck[0].key != tail[|tail| - 1].key
    {
      hide Represents, SingleAlbum, Keys;
      deck := [];
      ReconcilePhotoDeck(scraped);
      if |deck| > 1 && deck[0].key == tail[|tail| - 1].key {
        SwapRepresents(deck, scraped);
        if Plain(scraped) {
          DeckKeysDistinct(deck, scraped);
        }
        deck := deck[0 := deck[|deck| - 1]][|deck| - 1 := deck[0]];
      }
      if Plain(scraped) {
        DeckKeysDistinct(deck, scraped);
      }
      deckCursor := 0;
      dealt := {};
    }

    /** A fresh deck behind the tail of the old one, without the slots the tail holds. */
    method ContinueWith(tail: seq<Photo>, scraped: seq<Photo>)
      requires DrawnFrom(tail, scraped) && DistinctSlots(tail)
      modifies this
      ensures Represents(deck, scraped) && tail <= deck
    {
      deck := [];
      ReconcilePhotoDeck(scraped);
      var prefix: seq<Photo> := [];
      var shuffled := deck;
      for i := 0 to |shuffled|
        invariant DrawnFrom(prefix, scraped) && DistinctSlots(prefix)
        invariant forall s :: s in Slots(prefix) <==> s in Slots(shuffled[..i]) && s !in Slots(tail)
      {
        SlotsOneMore(shuffled, i);
        if SlotOf(shuffled[i]) !in Slots(tail) {
          SlotsAppend(prefix, shuffled[i]);
          prefix := prefix + [shuffled[i]];
        }
      }
      assert shuffled[..|shuffled|] == shuffled;
      TailRepresents(tail, prefix, scraped);
      deck := tail + prefix;
    }
  }

  lemma EmptyKeys()
    ensures Keys([]) == {} && DistinctKeys([])
  {}

  lemma WholeDeck(deck: seq<Photo>, scraped: seq<Photo>)
    requires Represents(deck, scraped)
    ensures DrawnFrom(deck, scraped) && DistinctSlots(deck)
  {}

  lemma KeysOfPart(part: seq<Photo>, whole: seq<Photo>)
    requires part <= whole
    ensures Keys(part) <= Keys(whole)
  {}

  lemma SwapRepresents(deck: seq<Photo>, scraped: seq<Photo>)
    requires Represents(deck, scraped) && |deck| > 1
    ensures Represents(deck[0 := deck[|deck| - 1]][|deck| - 1 := deck[0]], scraped)
  {
    var n := |deck|;
    var r := deck[0 := deck[n - 1]][n - 1 := deck[0]];
    assert forall k :: 0 < k < n - 1 ==> r[k] == deck[k];
    assert deck[0] == r[n - 1] && deck[n - 1] == r[0];
    assert Slots(r) == Slots(deck);
  }

  lemma SlotsOneMore(deck: seq<Photo>, i: nat)
    requires i < |deck| && DistinctSlots(deck)
    ensures Slots(deck[..i + 1]) == Slots(deck[..i]) + {SlotOf(deck[i])} && SlotOf(deck[i]) !in Slots(deck[..i])
  {
    assert deck[..i + 1] == deck[..i] + [deck[i]];
  }

  lemma SlotsAppend(ps: seq<Photo>, p: Photo)
    requires DistinctSlots(ps) && SlotOf(p) !in Slots(ps)
    ensures Slots(ps + [p]) == Slots(ps) + {SlotOf(p)} && DistinctSlots(ps + [p])
  {
    var r := ps + [p];
    forall i, j | 0 <= i < j < |r| ensures SlotOf(r[i]) != SlotOf(r[j]) {
      assert SlotOf(ps[i]) in Slots(ps);
    }
  }

  /** A tail and photos for all the other slots make a deck. */
  lemma TailRepresents(tail: seq<Photo>, prefix: seq<Photo>, scraped: seq<Photo>)
    requires DrawnFrom(tail, scraped) && DistinctSlots(tail) && DrawnFrom(prefix, scraped) && DistinctSlots(prefix)
    requires forall s :: s in Slots(prefix) <==> s in Slots(scraped) && s !in Slots(tail)
    ensures Represents(tail + prefix, scraped)
  {
    var r := tail + prefix;
    assert Slots(tail) <= Slots(scraped);
    assert Slots(r) == Slots(tail) + Slots(prefix);
    forall i, j | 0 <= i < j < |r| ensures SlotOf(r[i]) != SlotOf(r[j]) {
      assert i < |tail| ==> SlotOf(r[i]) in Slots(tail);
      assert j >= |tail| ==> SlotOf(r[j]) in Slots(prefix);
    }
  }

  function AtMost(a: int, b: int): int {
    if a <= b then a else b
  }

  /**
    Within a round no photo is dealt twice; a round is over only when every photo of the deck has been dealt
    in it, this window included.
   */
  predicate Fair(before: set<string>, full: seq<Photo>, window: seq<Photo>, roundOver: bool, after: set<string>) {
    if roundOver then Keys(full) <= before + Keys(window) && after <= Keys(window)
    else Keys(window) !! before && Keys(window) <= Keys(full) && after == before * Keys(full) + Keys(window)
  }

  lemma FairNext(deck: seq<Photo>, a: nat, b: nat)
    requires a <= b <= |deck| && DistinctKeys(deck)
    ensures Fair(Keys(deck[..a]), deck, deck[a..b], false, Keys(deck[..a]) + Keys(deck[a..b]))
    ensures Keys(deck[..b]) == Keys(deck[..a]) + Keys(deck[a..b])
  {
    hide Keys;
    KeysOfPart(deck[..a], deck);
    KeysOfWindow(deck, a, b);
  }

  /** A window that holds all that was not dealt yet ends the round. */
  lemma FairEnd(full: seq<Photo>, c: nat, window: seq<Photo>, after: set<string>)
    requires c <= |full| && after <= Keys(window) && (Keys(full[c..]) <= Keys(window) || window == full)
    ensures Fair(Keys(full[..c]), full, window, true, after)
  {
    assert full == full[..c] + full[c..];
  }

  /** Fairness towards what was dealt before the deck was reconciled. */
  lemma FairBefore(before: set<string>, kept: set<string>, full: seq<Photo>, window: seq<Photo>, roundOver: bool, after: set<string>)
    requires kept == before * Keys(full)
    ensures Fair(kept, full, window, roundOver, after) ==> Fair(before, full, window, roundOver, after)
  {
    hide Keys;
  }

  lemma SmallScrape(scraped: seq<Photo>)
    requires |scraped| <= 1
    ensures DrawnFrom(scraped, scraped) && DistinctSlots(scraped) && |scraped| == |Slots(scraped)|
  {
    SlotCount(scraped);
  }

  lemma DeckSize(deck: seq<Photo>, scraped: seq<Photo>)
    requires Represents(deck, scraped) && |scraped| > 1
    ensures |deck| == |Slots(scraped)| > 0
  {
    SameSize(deck, deck, scraped);
    assert SlotOf(scraped[0]) in Slots(scraped);
  }

  lemma WindowFacts(deck: seq<Photo>, scraped: seq<Photo>, a: nat, b: nat)
    requires Represents(deck, scraped) && a <= b <= |deck|
    ensures DrawnFrom(deck[a..b], scraped) && DistinctSlots(deck[a..b])
  {}

  lemma KeysOfWindow(deck: seq<Photo>, a: nat, b: nat)
    requires a <= b <= |deck| && DistinctKeys(deck)
    ensures Keys(deck[a..b]) !! Keys(deck[..a]) && Keys(deck[..b]) == Keys(deck[..a]) + Keys(deck[a..b])
    ensures Keys(deck[a..b]) <= Keys(deck)
  {
    assert deck[..b] == deck[..a] + deck[a..b];
  }

  lemma DeckKeysDistinct(deck: seq<Photo>, scraped: seq<Photo>)
    requires Represents(deck, scraped) && DistinctKeys(scraped)
    ensures DistinctKeys(deck)
  {
    RepresentsHasDistinctKeys(deck, scraped);
  }

  lemma GroupedParts(b: Buckets, scraped: seq<Photo>)
    requires Groups(b, scraped)
    ensures b.scrapedByKey == ByKey(scraped) && Lists(b.dayOrder, Days(scraped))
  {}
}
