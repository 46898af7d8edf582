/** Merging fetched history and live events into one list. */
module EventMerge {
  import opened Basics
  import opened Ordering

  datatype Event = Event(id: string, run: string, timestamp: string, number: Option<int>, payload: string)

  const MAX_SAFE_INTEGER := 9007199254740991

  function Number(e: Event): int { if e.number.Some? then e.number.value else MAX_SAFE_INTEGER }

  /** By timestamp, then sequence number, then id. */
  function CompareEvents(a: Event, b: Event): int {
    if a.timestamp != b.timestamp then (if LexLess(a.timestamp, b.timestamp) then -1 else 1)
    else if Number(a) != Number(b) then Number(a) - Number(b)
    else if LexLess(a.id, b.id) then -1
    else if LexLess(b.id, a.id) then 1
    else 0
  }

  function InOrder(): (Event, Event) -> bool { (a: Event, b: Event) => CompareEvents(a, b) <= 0 }

  // ------------------------------------------------------------------ the map

  /** Index of the entry with the given id, or the length. */
  function Find(entries: seq<Event>, id: string): (i: nat)
    ensures i <= |entries|
    ensures i < |entries| ==> entries[i].id == id
    ensures forall j :: 0 <= j < i ==> entries[j].id != id
  {
    if entries == [] || entries[0].id == id then 0 else 1 + Find(entries[1..], id)
  }

  /** A map that keeps its keys in insertion order; setting a known key keeps its place. */
  function Put(entries: seq<Event>, e: Event): seq<Event> {
    var i := Find(entries, e.id);
    if i < |entries| then entries[i := e] else entries + [e]
  }

  function PutAll(entries: seq<Event>, events: seq<Event>): seq<Event> {
    if events == [] then entries else Put(PutAll(entries, events[..|events| - 1]), events[|events| - 1])
  }

  function Merged(existing: seq<Event>, incoming: seq<Event>): seq<Event> {
    Sort(PutAll(PutAll([], existing), incoming), InOrder())
  }

  method MergeEvents(existing: seq<Event>, incoming: seq<Event>) returns (r: seq<Event>)
    ensures r == Merged(existing, incoming)
  {
    var byId: seq<Event> := [];
    for i := 0 to |existing|
      invariant byId == PutAll([], existing[..i])
    {
      assert existing[..i + 1][..i] == existing[..i];
      byId := Put(byId, existing[i]);
    }
    assert existing[..|existing|] == existing;
    for i := 0 to |incoming|
      invariant byId == PutAll(PutAll([], existing), incoming[..i])
    {
      assert incoming[..i + 1][..i] == incoming[..i];
      byId := Put(byId, incoming[i]);
    }
    assert incoming[..|incoming|] == incoming;
    r := Sort(byId, InOrder());
  }

  // ------------------------------------------------------------------ the order

  lemma CompareIsAntisymmetric(a: Event, b: Event)
    ensures CompareEvents(a, b) <= 0 || CompareEvents(b, a) <= 0
    ensures CompareEvents(a, b) <= 0 && CompareEvents(b, a) <= 0 ==> a.id == b.id && CompareEvents(a, b) == 0
  {
    LexTrichotomy(a.timestamp, b.timestamp);
    LexTrichotomy(a.id, b.id);
  }

  lemma CompareIsTransitive(a: Event, b: Event, c: Event)
    requires CompareEvents(a, b) <= 0 && CompareEvents(b, c) <= 0
    ensures CompareEvents(a, c) <= 0
  {
    LexTrichotomy(a.timestamp, b.timestamp);
    LexTrichotomy(b.timestamp, c.timestamp);
    LexTrichotomy(a.id, b.id);
    LexTrichotomy(b.id, c.id);
    if LexLess(a.timestamp, b.timestamp) && LexLess(b.timestamp, c.timestamp) {
      LexTransitive(a.timestamp, b.timestamp, c.timestamp);
      LexTrichotomy(a.timestamp, c.timestamp);
    }
    if LexLess(a.id, b.id) && LexLess(b.id, c.id) { LexTransitive(a.id, b.id, c.id); }
    LexTrichotomy(a.id, c.id);
  }

  lemma InOrderIsOrder()
    ensures TotalPreorder(InOrder())
  {
    forall x, y ensures InOrder()(x, y) || InOrder()(y, x) { CompareIsAntisymmetric(x, y); }
    forall x, y, z | InOrder()(x, y) && InOrder()(y, z) ensures InOrder()(x, z) { CompareIsTransitive(x, y, z); }
  }

  // ------------------------------------------------------------------ what a merge is

  /** Equal ids mean equal events. */
  ghost predicate Coherent(events: set<Event>) {
    forall a, b :: a in events && b in events && a.id == b.id ==> a == b
  }

  function Members(events: seq<Event>): set<Event> { set e | e in events }

  predicate DistinctIds(entries: seq<Event>) {
    forall i, j :: 0 <= i < j < |entries| ==> entries[i].id != entries[j].id
  }

  lemma PutKeeps(entries: seq<Event>, e: Event)
    requires DistinctIds(entries) && Coherent(Members(entries) + {e})
    ensures DistinctIds(Put(entries, e)) && Members(Put(entries, e)) == Members(entries) + {e}
  {
    var i := Find(entries, e.id);
    if i < |entries| {
      assert entries[i] in Members(entries) + {e} && entries[i] == e;
      assert entries[i := e] == entries;
    }
  }

  lemma {:induction false} PutAllKeeps(entries: seq<Event>, events: seq<Event>)
    requires DistinctIds(entries) && Coherent(Members(entries) + Members(events))
    ensures DistinctIds(PutAll(entries, events))
    ensures Members(PutAll(entries, events)) == Members(entries) + Members(events)
  {
    if events != [] {
      var init, last := events[..|events| - 1], events[|events| - 1];
      assert events == init + [last];
      assert Members(events) == Members(init) + {last};
      PutAllKeeps(entries, init);
      PutKeeps(PutAll(entries, init), last);
    }
  }

  /** Strictly ascending: sorted, and no event twice. */
  ghost predicate Strict(events: seq<Event>) {
    forall i, j :: 0 <= i < j < |events| ==> CompareEvents(events[i], events[j]) < 0
  }

  lemma {:induction false} OneOfEach(entries: seq<Event>, e: Event)
    requires DistinctIds(entries) && e in entries
    ensures multiset(entries)[e] == 1
  {
    var rest := entries[1..];
    assert entries == [entries[0]] + rest;
    if e in rest {
      OneOfEach(rest, e);
      var j :| 0 <= j < |rest| && rest[j] == e;
      assert entries[0].id != entries[j + 1].id;
    }
  }

  lemma TwiceCounts(r: seq<Event>, i: nat, j: nat)
    requires i < j < |r| && r[i] == r[j]
    ensures multiset(r)[r[i]] >= 2
  {
    assert r == r[..j] + [r[j]] + r[j + 1..];
    assert r[i] in r[..j];
  }

  /** Rearranging entries keeps their ids distinct. */
  lemma RearrangedIds(entries: seq<Event>, r: seq<Event>)
    requires DistinctIds(entries) && multiset(r) == multiset(entries)
    ensures DistinctIds(r)
  {
    SameElements(r, entries);
    forall i, j | 0 <= i < j < |r| ensures r[i].id != r[j].id {
      assert r[i] in entries && r[j] in entries;
      OneOfEach(entries, r[i]);
      if r[i] == r[j] { TwiceCounts(r, i, j); }
    }
  }

  lemma SortedIsStrict(entries: seq<Event>, r: seq<Event>)
    requires DistinctIds(entries) && multiset(r) == multiset(entries) && SortedBy(r, InOrder())
    ensures Strict(r)
  {
    RearrangedIds(entries, r);
    forall i, j | 0 <= i < j < |r| ensures CompareEvents(r[i], r[j]) < 0 {
      assert InOrder()(r[i], r[j]);
      CompareIsAntisymmetric(r[i], r[j]);
    }
  }

  lemma SortedEntries(entries: seq<Event>)
    requires DistinctIds(entries)
    ensures Strict(Sort(entries, InOrder())) && Members(Sort(entries, InOrder())) == Members(entries)
  {
    InOrderIsOrder();
    SortSorts(entries, InOrder());
    SameElements(Sort(entries, InOrder()), entries);
    SortedIsStrict(entries, Sort(entries, InOrder()));
  }

  /** What strictly ascending means: oldest first, then by number with unnumbered ones last, then by id. */
  lemma AscendingMeans(events: seq<Event>)
    requires Strict(events)
    ensures forall i, j :: 0 <= i < j < |events| ==>
      var (e, f) := (events[i], events[j]);
      var m := if e.number.Some? then e.number.value else 9007199254740991;
      var n := if f.number.Some? then f.number.value else 9007199254740991;
      || LexLess(e.timestamp, f.timestamp)
      || (e.timestamp == f.timestamp && m < n)
      || (e.timestamp == f.timestamp && m == n && LexLess(e.id, f.id))
  {
    forall i, j | 0 <= i < j < |events|
      ensures CompareEvents(events[i], events[j]) < 0
    {}
  }

  /** A merge is the strictly ascending list of the union. */
  lemma MergeIsUnion(a: seq<Event>, b: seq<Event>)
    requires Coherent(Members(a) + Members(b))
    ensures Strict(Merged(a, b)) && Members(Merged(a, b)) == Members(a) + Members(b)
  {
    assert Members([]) + Members(a) == Members(a);
    PutAllKeeps([], a);
    PutAllKeeps(PutAll([], a), b);
    SortedEntries(PutAll(PutAll([], a), b));
  }

  lemma CompareSame(a: Event)
    ensures CompareEvents(a, a) == 0
  {
    LexTrichotomy(a.id, a.id);
  }

  /** Two strictly ascending lists of the same events are the same list. */
  lemma {:induction false} StrictIsUnique(r: seq<Event>, t: seq<Event>)
    requires Strict(r) && Strict(t) && Members(r) == Members(t)
    ensures r == t
  {
    if r != [] && t != [] {
      HeadFirst(r, t);
      HeadFirst(t, r);
      SameHead(r, t);
      RestMembers(r);
      RestMembers(t);
      assert Members(r[1..]) == Members(r) - {r[0]} && Members(t[1..]) == Members(t) - {t[0]};
      StrictIsUnique(r[1..], t[1..]);
      assert r == [r[0]] + r[1..] && t == [t[0]] + t[1..];
    } else {
      NoMembers(r);
      NoMembers(t);
    }
  }

  lemma NoMembers(r: seq<Event>)
    ensures Members(r) == {} <==> r == []
  {
    if r != [] { assert r[0] in Members(r); }
  }

  lemma HeadFirst(r: seq<Event>, t: seq<Event>)
    requires Strict(r) && r != [] && t != [] && Members(r) == Members(t)
    ensures CompareEvents(r[0], t[0]) < 0 || r[0] == t[0]
  {
    assert t[0] in Members(t);
    var j :| 0 <= j < |r| && r[j] == t[0];
  }

  lemma SameHead(r: seq<Event>, t: seq<Event>)
    requires r != [] && t != []
    requires CompareEvents(r[0], t[0]) < 0 || r[0] == t[0]
    requires CompareEvents(t[0], r[0]) < 0 || r[0] == t[0]
    ensures r[0] == t[0]
  {
    CompareIsAntisymmetric(r[0], t[0]);
  }

  lemma RestMembers(r: seq<Event>)
    requires Strict(r) && r != []
    ensures r[0] !in Members(r[1..]) && Members(r) == {r[0]} + Members(r[1..])
  {
    assert r == [r[0]] + r[1..];
    CompareSame(r[0]);
    forall e | e in r[1..] ensures e != r[0] {
      var j :| 0 <= j < |r| - 1 && r[1..][j] == e;
      assert CompareEvents(r[0], r[j + 1]) < 0;
    }
  }

  lemma MergeCommutes(a: seq<Event>, b: seq<Event>)
    requires Coherent(Members(a) + Members(b))
    ensures Merged(a, b) == Merged(b, a)
  {
    assert Members(b) + Members(a) == Members(a) + Members(b);
    MergeIsUnion(a, b);
    MergeIsUnion(b, a);
    StrictIsUnique(Merged(a, b), Merged(b, a));
  }

  lemma MergeAssociates(a: seq<Event>, b: seq<Event>, c: seq<Event>)
    requires Coherent(Members(a) + Members(b) + Members(c))
    ensures Merged(Merged(a, b), c) == Merged(a, Merged(b, c))
  {
    assert Members(a) + Members(b) + Members(c) == Members(a) + (Members(b) + Members(c));
    MergeIsUnion(a, b);
    MergeIsUnion(b, c);
    MergeIsUnion(Merged(a, b), c);
    MergeIsUnion(a, Merged(b, c));
    StrictIsUnique(Merged(Merged(a, b), c), Merged(a, Merged(b, c)));
  }

  /** Merging a merge with any part of itself changes nothing. */
  lemma MergeIsIdempotent(a: seq<Event>, b: seq<Event>, part: seq<Event>)
    requires Coherent(Members(a) + Members(b)) && Members(part) <= Members(a) + Members(b)
    ensures Merged(Merged(a, b), part) == Merged(a, b)
  {
    MergeIsUnion(a, b);
    assert Members(Merged(a, b)) + Members(part) == Members(Merged(a, b));
    MergeIsUnion(Merged(a, b), part);
    StrictIsUnique(Merged(Merged(a, b), part), Merged(a, b));
  }

  // ------------------------------------------------------------------ the page's state

  /** What reaches the page: a fetched batch or one live event. */
  datatype Delivery = History(events: seq<Event>) | Live(event: Event)

  function Handle(run: string, shown: seq<Event>, d: Delivery): seq<Event> {
    match d
    case History(events) => Merged(shown, events)
    case Live(e) =>
      if e.run != run then shown
      else if exists i :: 0 <= i < |shown| && shown[i].id == e.id then shown
      else Merged(shown, [e])
  }

  function Shown(run: string, ds: seq<Delivery>): seq<Event> {
    if ds == [] then [] else Handle(run, Shown(run, ds[..|ds| - 1]), ds[|ds| - 1])
  }

  /** The events of a delivery that concern the run. */
  function Carried(run: string, d: Delivery): set<Event> {
    match d
    case History(events) => Members(events)
    case Live(e) => if e.run == run then {e} else {}
  }

  function Received(run: string, ds: seq<Delivery>): set<Event> {
    if ds == [] then {} else Received(run, ds[..|ds| - 1]) + Carried(run, ds[|ds| - 1])
  }

  lemma HandleAdds(run: string, shown: seq<Event>, d: Delivery)
    requires Strict(shown) && Coherent(Members(shown) + Carried(run, d))
    ensures Strict(Handle(run, shown, d)) && Members(Handle(run, shown, d)) == Members(shown) + Carried(run, d)
  {
    match d
    case History(events) => MergeIsUnion(shown, events);
    case Live(e) =>
      if e.run == run {
        if i :| 0 <= i < |shown| && shown[i].id == e.id {
          assert shown[i] in Members(shown) + {e};
        } else {
          assert Members([e]) == {e};
          MergeIsUnion(shown, [e]);
        }
      }
  }

  /** What was received: everything fetched, and every live event of the run. */
  lemma {:induction false} ReceivedAre(run: string, ds: seq<Delivery>, e: Event)
    ensures e in Received(run, ds) <==>
      exists k :: 0 <= k < |ds| && (if ds[k].Live? then ds[k].event == e && e.run == run else e in ds[k].events)
  {
    if ds != [] {
      var init := ds[..|ds| - 1];
      ReceivedAre(run, init, e);
      assert ds == init + [ds[|ds| - 1]];
      if e in Received(run, init) {
        var k :| 0 <= k < |init| && (if init[k].Live? then init[k].event == e && e.run == run else e in init[k].events);
        assert ds[k] == init[k];
      }
      if k :| 0 <= k < |ds| && (if ds[k].Live? then ds[k].event == e && e.run == run else e in ds[k].events) {
        if k < |init| { assert ds[k] == init[k]; }
      }
    }
  }

  /** However fetches and live events interleave, the page shows each received event once, in order. */
  lemma {:induction false} ShowsWhatWasReceived(run: string, ds: seq<Delivery>)
    requires Coherent(Received(run, ds))
    ensures Strict(Shown(run, ds)) && Members(Shown(run, ds)) == Received(run, ds)
  {
    if ds != [] {
      ShowsWhatWasReceived(run, ds[..|ds| - 1]);
      HandleAdds(run, Shown(run, ds[..|ds| - 1]), ds[|ds| - 1]);
    }
  }

  /** The same, spelled out: an event is on the page if and only if it was fetched or came live for this
      run, and of two events the earlier one has the smaller timestamp, or the same one and the smaller
      number (none counting as the largest), or the same both and the smaller id. */
  lemma PageIsOrdered(run: string, ds: seq<Delivery>, e: Event, i: nat, j: nat)
    requires Coherent(Received(run, ds))
    ensures e in Shown(run, ds) <==>
      exists k :: 0 <= k < |ds| && (if ds[k].Live? then ds[k].event == e && e.run == run else e in ds[k].events)
    ensures i < j < |Shown(run, ds)| ==>
      var (e, f) := (Shown(run, ds)[i], Shown(run, ds)[j]);
      var m := if e.number.Some? then e.number.value else 9007199254740991;
      var n := if f.number.Some? then f.number.value else 9007199254740991;
      || LexLess(e.timestamp, f.timestamp)
      || (e.timestamp == f.timestamp && m < n)
      || (e.timestamp == f.timestamp && m == n && LexLess(e.id, f.id))
  {
    ShowsWhatWasReceived(run, ds);
    ReceivedAre(run, ds, e);
    assert e in Shown(run, ds) <==> e in Members(Shown(run, ds));
    AscendingMeans(Shown(run, ds));
  }

  /** Two pages that received the same events show the same list. */
  lemma Converges(run: string, ds: seq<Delivery>, es: seq<Delivery>)
    requires Coherent(Received(run, ds)) && Received(run, ds) == Received(run, es)
    ensures Shown(run, ds) == Shown(run, es)
  {
    ShowsWhatWasReceived(run, ds);
    ShowsWhatWasReceived(run, es);
    StrictIsUnique(Shown(run, ds), Shown(run, es));
  }

  /** Two different events with one id: the last fetch wins, so the order decides. */
  lemma IncoherentDiverges(run: string, a: Event, b: Event)
    requires a.id == b.id && a != b
    ensures Received(run, [History([a]), History([b])]) == Received(run, [History([b]), History([a])])
    ensures Shown(run, [History([a]), History([b])]) != Shown(run, [History([b]), History([a])])
  {
    LastFetchWins(run, a, b);
    LastFetchWins(run, b, a);
  }

  lemma LastFetchWins(run: string, a: Event, b: Event)
    requires a.id == b.id
    ensures Shown(run, [History([a]), History([b])]) == [b]
    ensures Received(run, [History([a]), History([b])]) == {a, b}
  {
    var ds := [History([a]), History([b])];
    assert ds[..1] == [History([a])] && [History([a])][..0] == [];
    assert [a][..0] == [] && [b][..0] == [];
    assert PutAll([], [a]) == [a] && PutAll([], [b]) == [b];
    assert PutAll([a], [b]) == [b];
    assert Shown(run, [History([a])]) == [a];
    assert Members([a]) == {a} && Members([b]) == {b};
    assert Received(run, [History([a])]) == {} + {a};
    assert Received(run, ds) == Received(run, ds[..1]) + {b};
  }
}
