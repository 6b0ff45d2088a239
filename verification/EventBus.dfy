/** The in-memory event bus: prioritised subscriptions, deduplicated delivery, bounded retry. */
module EventBus {
  import opened Options

  datatype Subscription = Subscription(subscriberId: string, eventTypes: seq<string>, priority: Option<int>)

  datatype Event = Event(eventId: string, eventType: string, idempotencyKey: string)

  // -------------------------------------------------------------------- priorities

  /** A missing or zero priority counts as 100; lower numbers come first. */
  function Effective(s: Subscription): int {
    if s.priority.Some? && s.priority.value != 0 then s.priority.value else 100
  }

  /** Placed after everything of the same or a higher rank. */
  function Place(subs: seq<Subscription>, s: Subscription): seq<Subscription> {
    if subs == [] then [s]
    else
      var n := |subs| - 1;
      if Effective(subs[n]) <= Effective(s) then subs + [s] else Place(subs[..n], s) + [subs[n]]
  }

  /** The stable sort by effective priority. */
  function StableSort(subs: seq<Subscription>): seq<Subscription> {
    if subs == [] then [] else Place(StableSort(subs[..|subs| - 1]), subs[|subs| - 1])
  }

  function Without(subs: seq<Subscription>, subscriberId: string): seq<Subscription> {
    if subs == [] then []
    else
      var n := |subs| - 1;
      Without(subs[..n], subscriberId) + if subs[n].subscriberId == subscriberId then [] else [subs[n]]
  }

  /** The subscriptions of one effective priority, in order. */
  function OfRank(subs: seq<Subscription>, rank: int): seq<Subscription> {
    if subs == [] then []
    else
      var n := |subs| - 1;
      OfRank(subs[..n], rank) + if Effective(subs[n]) == rank then [subs[n]] else []
  }

  ghost predicate Ranked(subs: seq<Subscription>) {
    forall i, j :: 0 <= i < j < |subs| ==> Effective(subs[i]) <= Effective(subs[j])
  }

  lemma {:induction false} PlaceRanked(subs: seq<Subscription>, s: Subscription)
    requires Ranked(subs)
    ensures Ranked(Place(subs, s))
    ensures forall x :: x in Place(subs, s) ==> x == s || x in subs
  {
    if subs != [] && Effective(subs[|subs| - 1]) > Effective(s) {
      PlaceRanked(subs[..|subs| - 1], s);
      forall x | x in Place(subs, s) ensures x == s || x in subs {}
      var p := Place(subs[..|subs| - 1], s);
      forall i | 0 <= i < |p| ensures Effective(p[i]) <= Effective(subs[|subs| - 1]) {
        assert p[i] in p;
      }
    }
  }

  lemma OfRankAppend(subs: seq<Subscription>, s: Subscription, rank: int)
    ensures OfRank(subs + [s], rank) == OfRank(subs, rank) + if Effective(s) == rank then [s] else []
  {
    assert (subs + [s])[..|subs|] == subs;
  }

  lemma {:induction false} PlaceOfRank(subs: seq<Subscription>, s: Subscription, rank: int)
    requires Ranked(subs)
    ensures OfRank(Place(subs, s), rank) == OfRank(subs, rank) + if Effective(s) == rank then [s] else []
  {
    if subs == [] {
    } else {
      var n := |subs| - 1;
      if Effective(subs[n]) <= Effective(s) {
        OfRankAppend(subs, s, rank);
      } else {
        PlaceOfRank(subs[..n], s, rank);
        OfRankAppend(Place(subs[..n], s), subs[n], rank);
      }
    }
  }

  /** The sort orders by effective priority and keeps arrival order within a priority. */
  lemma {:induction false} SortIsStable(subs: seq<Subscription>)
    ensures Ranked(StableSort(subs))
    ensures forall rank :: OfRank(StableSort(subs), rank) == OfRank(subs, rank)
  {
    if subs != [] {
      var n := |subs| - 1;
      SortIsStable(subs[..n]);
      PlaceRanked(StableSort(subs[..n]), subs[n]);
      forall rank ensures OfRank(StableSort(subs), rank) == OfRank(subs, rank) {
        PlaceOfRank(StableSort(subs[..n]), subs[n], rank);
      }
    }
  }

  /** The number a subscription is ordered by: its own priority, or 100 when it has none or zero. */
  predicate OrderedBy(s: Subscription, n: int) {
    match s.priority
    case None => n == 100
    case Some(p) => if p == 0 then n == 100 else n == p
  }

  /** A rank holds the subscriptions ordered by its number, as often as the list does. */
  lemma {:induction false} OfRankExactly(subs: seq<Subscription>, rank: int, s: Subscription)
    ensures multiset(OfRank(subs, rank))[s] == if OrderedBy(s, rank) then multiset(subs)[s] else 0
  {
    if subs != [] {
      var n := |subs| - 1;
      OfRankExactly(subs[..n], rank, s);
      assert subs == subs[..n] + [subs[n]];
    }
  }

  lemma CountLast(subs: seq<Subscription>, x: Subscription)
    requires subs != []
    ensures multiset(subs)[x] == multiset(subs[..|subs| - 1])[x] + if x == subs[|subs| - 1] then 1 else 0
  {
    assert subs == subs[..|subs| - 1] + [subs[|subs| - 1]];
  }

  lemma {:induction false} PlaceAdds(subs: seq<Subscription>, s: Subscription, x: Subscription)
    ensures multiset(Place(subs, s))[x] == multiset(subs)[x] + if x == s then 1 else 0
  {
    if subs != [] {
      var n := |subs| - 1;
      PlaceAdds(subs[..n], s, x);
      CountLast(subs, x);
    }
  }

  lemma PlaceAtEnd(front: seq<Subscription>, s: Subscription)
    requires Ranked(front + [s])
    ensures Place(front, s) == front + [s]
  {
    if front != [] {
      assert (front + [s])[|front| - 1] == front[|front| - 1] && (front + [s])[|front|] == s;
    }
  }

  /** Sorting what is already ranked changes nothing. */
  lemma {:induction false} SortRanked(subs: seq<Subscription>)
    requires Ranked(subs)
    ensures StableSort(subs) == subs
  {
    if subs != [] {
      var n := |subs| - 1;
      SortRanked(subs[..n]);
      assert subs == subs[..n] + [subs[n]];
      PlaceAtEnd(subs[..n], subs[n]);
    }
  }

  /** Adding to a sorted list and sorting again equals sorting everything at once. */
  lemma SortAgain(subs: seq<Subscription>, s: Subscription)
    ensures StableSort(StableSort(subs) + [s]) == StableSort(subs + [s])
  {
    SortIsStable(subs);
    SortRanked(StableSort(subs));
    assert (StableSort(subs) + [s])[..|StableSort(subs)|] == StableSort(subs);
    assert (subs + [s])[..|subs|] == subs;
  }

  lemma WithoutAppend(subs: seq<Subscription>, s: Subscription, id: string)
    ensures Without(subs + [s], id) == Without(subs, id) + if s.subscriberId == id then [] else [s]
  {
    assert (subs + [s])[..|subs|] == subs;
  }

  lemma PlaceAppend(subs: seq<Subscription>, last: Subscription, s: Subscription)
    requires Effective(last) > Effective(s)
    ensures Place(subs + [last], s) == Place(subs, s) + [last]
  {
    assert (subs + [last])[..|subs|] == subs;
  }

  lemma {:induction false} PlaceWithout(subs: seq<Subscription>, s: Subscription, id: string)
    requires Ranked(subs)
    ensures Without(Place(subs, s), id) == if s.subscriberId == id then Without(subs, id) else Place(Without(subs, id), s)
  {
    if subs == [] {
      assert Place([], s) == [] + [s];
      WithoutAppend([], s, id);
    } else {
      var n := |subs| - 1;
      var last, front := subs[n], subs[..n];
      assert subs == front + [last];
      if Effective(last) <= Effective(s) {
        WithoutAppend(subs, s, id);
        PlaceLast(Without(subs, id), s, subs, id);
      } else {
        PlaceWithout(front, s, id);
        PlaceWithoutLast(front, last, s, id);
      }
    }
  }

  /** Removing a subscriber from a list whose last entry stays behind the placed one. */
  lemma PlaceWithoutLast(front: seq<Subscription>, last: Subscription, s: Subscription, id: string)
    requires Effective(last) > Effective(s)
    requires Without(Place(front, s), id) == if s.subscriberId == id then Without(front, id) else Place(Without(front, id), s)
    ensures Without(Place(front + [last], s), id)
            == if s.subscriberId == id then Without(front + [last], id) else Place(Without(front + [last], id), s)
  {
    WithoutAppend(front, last, id);
    WithoutAppend(Place(front, s), last, id);
    PlaceAppend(front, last, s);
    if last.subscriberId == id {
      assert Without(front, id) + [] == Without(front, id);
      assert Place(Without(front, id), s) + [] == Place(Without(front, id), s);
    } else {
      PlaceAppend(Without(front, id), last, s);
    }
  }

  lemma PlaceLast(w: seq<Subscription>, s: Subscription, subs: seq<Subscription>, id: string)
    requires Ranked(subs) && subs != [] && Effective(subs[|subs| - 1]) <= Effective(s) && w == Without(subs, id)
    ensures Place(w, s) == w + [s]
  {
    WithoutKeeps(subs, id);
    if w != [] {
      assert w[|w| - 1] in w;
      assert w[|w| - 1] in subs;
    }
  }

  lemma {:induction false} WithoutKeeps(subs: seq<Subscription>, id: string)
    ensures forall x :: x in Without(subs, id) ==> x in subs && x.subscriberId != id
  {
    if subs != [] {
      WithoutKeeps(subs[..|subs| - 1], id);
    }
  }

  /** What is left has no entry of the subscriber, and every other entry as often as before. */
  ghost predicate Gone(subs: seq<Subscription>, kept: seq<Subscription>, id: string) {
    forall x :: multiset(kept)[x] == if x.subscriberId == id then 0 else multiset(subs)[x]
  }

  lemma {:induction false} WithoutIsGone(subs: seq<Subscription>, id: string)
    ensures Gone(subs, Without(subs, id), id)
  {
    if subs != [] {
      var n := |subs| - 1;
      WithoutIsGone(subs[..n], id);
      assert subs == subs[..n] + [subs[n]];
    }
  }

  lemma {:induction false} SortWithout(subs: seq<Subscription>, id: string)
    ensures Without(StableSort(subs), id) == StableSort(Without(subs, id))
  {
    if subs != [] {
      var n := |subs| - 1;
      SortWithout(subs[..n], id);
      SortIsStable(subs[..n]);
      PlaceWithout(StableSort(subs[..n]), subs[n], id);
      var w := Without(subs[..n], id);
      assert (w + [subs[n]])[..|w|] == w;
      assert w + [] == w;
    }
  }

  // ---------------------------------------------------------------- subscription runs

  type Table = map<string, seq<Subscription>>

  function ListFor(t: Table, eventType: string): seq<Subscription> { if eventType in t then t[eventType] else [] }

  function Push(t: Table, eventType: string, s: Subscription): Table {
    t[eventType := StableSort(ListFor(t, eventType) + [s])]
  }

  function AddTypes(t: Table, s: Subscription, n: nat): Table
    requires n <= |s.eventTypes|
  {
    if n == 0 then t else Push(AddTypes(t, s, n - 1), s.eventTypes[n - 1], s)
  }

  function RemoveAll(t: Table, id: string): Table { map eventType | eventType in t :: Without(t[eventType], id) }

  /** The removal from every list but those of the types still to do. */
  function RemoveBut(t: Table, id: string, todo: set<string>): Table {
    map eventType | eventType in t :: if eventType in todo then t[eventType] else Without(t[eventType], id)
  }

  lemma RemoveEnds(t: Table, id: string)
    ensures RemoveBut(t, id, t.Keys) == t && RemoveBut(t, id, {}) == RemoveAll(t, id)
  {
  }

  lemma RemoveOne(t: Table, id: string, todo: set<string>, eventType: string)
    requires eventType in t && eventType in todo
    ensures RemoveBut(t, id, todo)[eventType] == t[eventType]
    ensures RemoveBut(t, id, todo)[eventType := Without(t[eventType], id)] == RemoveBut(t, id, todo - {eventType})
  {
  }

  lemma RemoveAllIsGone(t: Table, id: string)
    ensures forall eventType :: eventType in t ==> Gone(t[eventType], ListFor(RemoveAll(t, id), eventType), id)
  {
    forall eventType | eventType in t ensures Gone(t[eventType], ListFor(RemoveAll(t, id), eventType), id) {
      WithoutIsGone(t[eventType], id);
    }
  }

  datatype Command = Subscribe(subscription: Subscription) | Unsubscribe(subscriberId: string)

  function Run(cs: seq<Command>): Table {
    if cs == [] then map[]
    else
      var before := Run(cs[..|cs| - 1]);
      match cs[|cs| - 1]
      case Subscribe(s) => AddTypes(before, s, |s.eventTypes|)
      case Unsubscribe(id) => RemoveAll(before, id)
  }

  /** A subscription arrives once for each of its first `n` types that is this type. */
  function Joined(arrivals: seq<Subscription>, s: Subscription, eventType: string, n: nat): seq<Subscription>
    requires n <= |s.eventTypes|
  {
    if n == 0 then arrivals
    else
      var before := Joined(arrivals, s, eventType, n - 1);
      if s.eventTypes[n - 1] == eventType then before + [s] else before
  }

  /** The live subscriptions to a type in order of arrival. */
  function Arrivals(cs: seq<Command>, eventType: string): seq<Subscription> {
    if cs == [] then []
    else
      var before := Arrivals(cs[..|cs| - 1], eventType);
      match cs[|cs| - 1]
      case Subscribe(s) => Joined(before, s, eventType, |s.eventTypes|)
      case Unsubscribe(id) => Without(before, id)
  }

  lemma AddOne(t: Table, s: Subscription, added: string, eventType: string, arrivals: seq<Subscription>)
    requires ListFor(t, eventType) == StableSort(arrivals)
    ensures ListFor(Push(t, added, s), eventType) == StableSort(if added == eventType then arrivals + [s] else arrivals)
  {
    if added == eventType {
      SortAgain(arrivals, s);
    }
  }

  lemma {:induction false} AddTypesSorted(t: Table, s: Subscription, n: nat, eventType: string, arrivals: seq<Subscription>)
    requires n <= |s.eventTypes| && ListFor(t, eventType) == StableSort(arrivals)
    ensures ListFor(AddTypes(t, s, n), eventType) == StableSort(Joined(arrivals, s, eventType, n))
  {
    if n > 0 {
      AddTypesSorted(t, s, n - 1, eventType, arrivals);
      AddOne(AddTypes(t, s, n - 1), s, s.eventTypes[n - 1], eventType, Joined(arrivals, s, eventType, n - 1));
    }
  }

  /** Through any sequence of subscribes and unsubscribes each type's list is the stable
      sort of its live subscriptions in order of arrival: ordered by effective priority,
      first come first served within one. */
  lemma {:induction false} ListsStaySorted(cs: seq<Command>, eventType: string)
    ensures ListFor(Run(cs), eventType) == StableSort(Arrivals(cs, eventType))
    ensures Ranked(ListFor(Run(cs), eventType))
    ensures forall rank :: OfRank(ListFor(Run(cs), eventType), rank) == OfRank(Arrivals(cs, eventType), rank)
  {
    if cs != [] {
      var n := |cs| - 1;
      ListsStaySorted(cs[..n], eventType);
      match cs[n]
      case Subscribe(s) =>
        AddTypesSorted(Run(cs[..n]), s, |s.eventTypes|, eventType, Arrivals(cs[..n], eventType));
      case Unsubscribe(id) =>
        SortWithout(Arrivals(cs[..n], eventType), id);
    }
    SortIsStable(Arrivals(cs, eventType));
  }

  /** Whoever comes earlier in a type's list has the lower or the same number. */
  lemma ServedInOrder(cs: seq<Command>, eventType: string, i: nat, j: nat, p: int, q: int)
    requires i < j < |ListFor(Run(cs), eventType)|
    requires OrderedBy(ListFor(Run(cs), eventType)[i], p) && OrderedBy(ListFor(Run(cs), eventType)[j], q)
    ensures p <= q
  {
    ListsStaySorted(cs, eventType);
  }

  /** How often one of the first `n` types is this one. */
  function Named(s: Subscription, eventType: string, n: nat): nat
    requires n <= |s.eventTypes|
  {
    multiset(s.eventTypes[..n])[eventType]
  }

  lemma NamedNext(s: Subscription, eventType: string, n: nat)
    requires 0 < n <= |s.eventTypes|
    ensures Named(s, eventType, n) == Named(s, eventType, n - 1) + if s.eventTypes[n - 1] == eventType then 1 else 0
  {
    assert s.eventTypes[..n] == s.eventTypes[..n - 1] + [s.eventTypes[n - 1]];
  }

  lemma {:induction false} JoinedAdds(arrivals: seq<Subscription>, s: Subscription, eventType: string, n: nat,
                                      x: Subscription)
    requires n <= |s.eventTypes|
    ensures multiset(Joined(arrivals, s, eventType, n))[x]
            == multiset(arrivals)[x] + if x == s then Named(s, eventType, n) else 0
  {
    if n > 0 {
      JoinedAdds(arrivals, s, eventType, n - 1, x);
      NamedNext(s, eventType, n);
    }
  }

  lemma {:induction false} SortKeepsAll(subs: seq<Subscription>, x: Subscription)
    ensures multiset(StableSort(subs))[x] == multiset(subs)[x]
  {
    if subs != [] {
      var n := |subs| - 1;
      SortKeepsAll(subs[..n], x);
      PlaceAdds(StableSort(subs[..n]), subs[n], x);
      CountLast(subs, x);
    }
  }

  /** A subscribe puts the subscription into the list of each of its types, as often as it
      names the type, and changes no other count in any list. */
  lemma SubscribeReaches(cs: seq<Command>, s: Subscription, eventType: string, x: Subscription)
    ensures multiset(ListFor(Run(cs + [Subscribe(s)]), eventType))[x]
            == multiset(ListFor(Run(cs), eventType))[x] + if x == s then multiset(s.eventTypes)[eventType] else 0
  {
    assert (cs + [Subscribe(s)])[..|cs|] == cs;
    assert s.eventTypes[..|s.eventTypes|] == s.eventTypes;
    ListsStaySorted(cs, eventType);
    ListsStaySorted(cs + [Subscribe(s)], eventType);
    SortKeepsAll(Arrivals(cs, eventType), x);
    SortKeepsAll(Arrivals(cs + [Subscribe(s)], eventType), x);
    JoinedAdds(Arrivals(cs, eventType), s, eventType, |s.eventTypes|, x);
  }

  // ------------------------------------------------------------------ deduplication

  /** An id key, and an idempotency key when there is one. */
  function DedupeKeys(e: Event): set<string> {
    {"eventId:" + e.eventId} + if e.idempotencyKey == "" then {} else {"idem:" + e.idempotencyKey}
  }

  /** Two events collide on a key exactly when they share an id or a non-empty
      idempotency key: an id never collides with an idempotency key. */
  lemma KeysCollide(a: Event, b: Event)
    ensures !(DedupeKeys(a) !! DedupeKeys(b)) <==>
            a.eventId == b.eventId || (a.idempotencyKey == b.idempotencyKey && a.idempotencyKey != "")
  {
    var ia, ib := "eventId:" + a.eventId, "eventId:" + b.eventId;
    var ka, kb := "idem:" + a.idempotencyKey, "idem:" + b.idempotencyKey;
    assert ia[8..] == a.eventId && ib[8..] == b.eventId;
    assert ka[5..] == a.idempotencyKey && kb[5..] == b.idempotencyKey;
    assert ia[0] == 'e' && ib[0] == 'e' && ka[0] == 'i' && kb[0] == 'i';
    if a.eventId == b.eventId {
      assert ia in DedupeKeys(a) && ia in DedupeKeys(b);
    }
    if a.idempotencyKey == b.idempotencyKey && a.idempotencyKey != "" {
      assert ka in DedupeKeys(a) && ka in DedupeKeys(b);
    }
  }

  datatype Delivery = Delivery(event: Event, at: int)

  /** Remembered keys with the time they were marked, the deliveries, and the clock. */
  datatype Memory = Memory(processed: map<string, int>, delivered: seq<Delivery>, clock: int)

  predicate Duplicate(processed: map<string, int>, e: Event) { exists k :: k in DedupeKeys(e) && k in processed }

  function Mark(processed: map<string, int>, e: Event, now: int): map<string, int> {
    processed + map k | k in DedupeKeys(e) :: now
  }

  function Forget(processed: map<string, int>, now: int, ttl: int): map<string, int> {
    map k | k in processed && now - processed[k] <= ttl :: processed[k]
  }

  datatype Tick = Publish(event: Event, at: int) | Cleanup(at: int)

  function Next(m: Memory, t: Tick, ttl: int): Memory {
    if t.at < m.clock then m
    else
      match t
      case Publish(e, now) =>
        if Duplicate(m.processed, e) then m.(clock := now)
        else Memory(Mark(m.processed, e, now), m.delivered + [Delivery(e, now)], now)
      case Cleanup(now) => Memory(Forget(m.processed, now, ttl), m.delivered, now)
  }

  function Remember(ts: seq<Tick>, ttl: int): Memory {
    if ts == [] then Memory(map[], [], 0) else Next(Remember(ts[..|ts| - 1], ttl), ts[|ts| - 1], ttl)
  }

  /** A delivered event's keys are remembered, or its delivery is older than the ttl. */
  ghost predicate Recalls(m: Memory, ttl: int) {
    forall i :: 0 <= i < |m.delivered| ==>
      && m.delivered[i].at <= m.clock
      && (m.clock - m.delivered[i].at > ttl || RecallsOne(m, m.delivered[i]))
  }

  ghost predicate RecallsOne(m: Memory, d: Delivery) {
    forall k :: k in DedupeKeys(d.event) ==> k in m.processed && m.processed[k] >= d.at
  }

  /** Two deliveries that share a key are more than the ttl apart. */
  ghost predicate Apart(m: Memory, ttl: int) {
    forall i, j :: 0 <= i < j < |m.delivered| && !(DedupeKeys(m.delivered[i].event) !! DedupeKeys(m.delivered[j].event))
      ==> m.delivered[j].at - m.delivered[i].at > ttl
  }

  lemma RecallsNext(m: Memory, t: Tick, ttl: int)
    requires Recalls(m, ttl)
    ensures Recalls(Next(m, t, ttl), ttl)
  {
    var m' := Next(m, t, ttl);
    forall i | 0 <= i < |m'.delivered|
      ensures m'.delivered[i].at <= m'.clock
              && (m'.clock - m'.delivered[i].at > ttl || RecallsOne(m', m'.delivered[i]))
    {
      if i < |m.delivered| {
        assert m'.delivered[i] == m.delivered[i];
        assert m.clock - m.delivered[i].at > ttl || RecallsOne(m, m.delivered[i]);
      }
    }
  }

  lemma ApartNext(m: Memory, t: Tick, ttl: int)
    requires Recalls(m, ttl) && Apart(m, ttl)
    ensures Apart(Next(m, t, ttl), ttl)
  {
    var m' := Next(m, t, ttl);
    forall i, j | 0 <= i < j < |m'.delivered|
                  && !(DedupeKeys(m'.delivered[i].event) !! DedupeKeys(m'.delivered[j].event))
      ensures m'.delivered[j].at - m'.delivered[i].at > ttl
    {
      assert m'.delivered[i] == m.delivered[i];
      if j < |m.delivered| {
        assert m'.delivered[j] == m.delivered[j];
      } else {
        var k :| k in DedupeKeys(m'.delivered[i].event) && k in DedupeKeys(m'.delivered[j].event);
        assert k !in m.processed;
      }
    }
  }

  /** Over every run of publishes and clean-ups on a clock that does not go back, an event
      is delivered again only when more than the ttl has passed since an event with the same
      id or idempotency key was. */
  lemma {:induction false} DeliveredOncePerTtl(ts: seq<Tick>, ttl: int, i: nat, j: nat)
    requires i < j < |Remember(ts, ttl).delivered|
    requires var a, b := Remember(ts, ttl).delivered[i].event, Remember(ts, ttl).delivered[j].event;
             a.eventId == b.eventId || (a.idempotencyKey == b.idempotencyKey && a.idempotencyKey != "")
    ensures Remember(ts, ttl).delivered[j].at - Remember(ts, ttl).delivered[i].at > ttl
  {
    MemoryHolds(ts, ttl);
    KeysCollide(Remember(ts, ttl).delivered[i].event, Remember(ts, ttl).delivered[j].event);
  }

  lemma {:induction false} MemoryHolds(ts: seq<Tick>, ttl: int)
    ensures Recalls(Remember(ts, ttl), ttl) && Apart(Remember(ts, ttl), ttl)
  {
    if ts != [] {
      MemoryHolds(ts[..|ts| - 1], ttl);
      RecallsNext(Remember(ts[..|ts| - 1], ttl), ts[|ts| - 1], ttl);
      ApartNext(Remember(ts[..|ts| - 1], ttl), ts[|ts| - 1], ttl);
    }
  }

  /** When the last clean-up ran, or zero. */
  function LastCleanup(ts: seq<Tick>, ttl: int): int {
    if ts == [] then 0
    else
      var (before, t) := (ts[..|ts| - 1], ts[|ts| - 1]);
      if t.Cleanup? && t.at >= Remember(before, ttl).clock then t.at else LastCleanup(before, ttl)
  }

  /** A delivery the last clean-up left in memory. */
  predicate Fresh(d: Delivery, cleaned: int, ttl: int) { cleaned - d.at <= ttl }

  /** A fresh delivery's keys are remembered, no earlier than it. */
  ghost predicate Keeps(m: Memory, cleaned: int, ttl: int) {
    forall d, k :: d in m.delivered && Fresh(d, cleaned, ttl) && k in DedupeKeys(d.event) ==>
      k in m.processed && m.processed[k] >= d.at
  }

  /** A key is remembered with the time of a delivery that had it. */
  ghost predicate Marked(m: Memory, k: string) {
    k in m.processed && exists d :: d in m.delivered && k in DedupeKeys(d.event) && d.at == m.processed[k]
  }

  ghost predicate AllMarked(m: Memory) { forall k :: k in m.processed ==> Marked(m, k) }

  ghost predicate Timely(m: Memory, cleaned: int, ttl: int) {
    && cleaned <= m.clock
    && forall k :: k in m.processed ==> cleaned - m.processed[k] <= ttl
  }

  /** The remembered keys are exactly those of the fresh deliveries. */
  ghost predicate Faithful(m: Memory, cleaned: int, ttl: int) {
    Keeps(m, cleaned, ttl) && AllMarked(m) && Timely(m, cleaned, ttl) && forall d :: d in m.delivered ==> d.at <= m.clock
  }

  lemma MarkedStays(m: Memory, m': Memory, k: string)
    requires Marked(m, k) && k in m'.processed && m'.processed[k] == m.processed[k]
    requires forall d :: d in m.delivered ==> d in m'.delivered
    ensures Marked(m', k)
  {
    var d :| d in m.delivered && k in DedupeKeys(d.event) && d.at == m.processed[k];
    assert d in m'.delivered;
  }

  lemma MarkedNext(m: Memory, t: Tick, ttl: int)
    requires AllMarked(m)
    ensures AllMarked(Next(m, t, ttl))
  {
    var m' := Next(m, t, ttl);
    forall k | k in m'.processed ensures Marked(m', k) {
      if t.Publish? && m'.delivered != m.delivered && k in DedupeKeys(t.event) {
        assert Delivery(t.event, t.at) in m'.delivered;
      } else {
        MarkedStays(m, m', k);
      }
    }
  }

  lemma CleanupFaithful(m: Memory, now: int, cleaned: int, ttl: int)
    requires now >= m.clock && Faithful(m, cleaned, ttl)
    ensures Keeps(Next(m, Cleanup(now), ttl), now, ttl) && Timely(Next(m, Cleanup(now), ttl), now, ttl)
  {
  }

  lemma PublishKeeps(m: Memory, e: Event, now: int, cleaned: int, ttl: int)
    requires Keeps(m, cleaned, ttl) && !Duplicate(m.processed, e) && now >= m.clock
    ensures Keeps(Next(m, Publish(e, now), ttl), cleaned, ttl)
  {
    var m' := Next(m, Publish(e, now), ttl);
    assert m'.processed == Mark(m.processed, e, now) && m'.delivered == m.delivered + [Delivery(e, now)];
    forall d, k | d in m'.delivered && Fresh(d, cleaned, ttl) && k in DedupeKeys(d.event)
      ensures k in m'.processed && m'.processed[k] >= d.at
    {
      if d in m.delivered {
        assert k in m.processed;
      } else {
        assert d == Delivery(e, now);
      }
    }
  }

  lemma PublishTimely(m: Memory, e: Event, now: int, cleaned: int, ttl: int)
    requires ttl >= 0 && now >= m.clock && Timely(m, cleaned, ttl)
    ensures Timely(Next(m, Publish(e, now), ttl), cleaned, ttl)
  {
  }

  lemma FaithfulNext(m: Memory, t: Tick, cleaned: int, ttl: int)
    requires ttl >= 0 && Faithful(m, cleaned, ttl)
    ensures Faithful(Next(m, t, ttl), if t.Cleanup? && t.at >= m.clock then t.at else cleaned, ttl)
  {
    if t.at >= m.clock {
      MarkedNext(m, t, ttl);
      match t
      case Publish(e, now) =>
        PublishTimely(m, e, now, cleaned, ttl);
        if !Duplicate(m.processed, e) { PublishKeeps(m, e, now, cleaned, ttl); }
      case Cleanup(now) => CleanupFaithful(m, now, cleaned, ttl);
    }
  }

  lemma {:induction false} FaithfulHolds(ts: seq<Tick>, ttl: int)
    requires ttl >= 0
    ensures Faithful(Remember(ts, ttl), LastCleanup(ts, ttl), ttl)
  {
    if ts != [] {
      FaithfulHolds(ts[..|ts| - 1], ttl);
      FaithfulNext(Remember(ts[..|ts| - 1], ttl), ts[|ts| - 1], LastCleanup(ts[..|ts| - 1], ttl), ttl);
    }
  }

  /** After any run, a publish delivers the event if and only if no delivery that shares its
      id or its non-empty idempotency key was within the ttl at the last clean-up. */
  lemma DeliversExactly(ts: seq<Tick>, e: Event, now: int, ttl: int)
    requires ttl >= 0 && now >= Remember(ts, ttl).clock
    ensures var before := Remember(ts, ttl).delivered;
            var blocked := exists d :: d in before && LastCleanup(ts, ttl) - d.at <= ttl
                                       && (d.event.eventId == e.eventId
                                           || (d.event.idempotencyKey == e.idempotencyKey && e.idempotencyKey != ""));
            Remember(ts + [Publish(e, now)], ttl).delivered == if blocked then before else before + [Delivery(e, now)]
  {
    var m, cleaned := Remember(ts, ttl), LastCleanup(ts, ttl);
    assert (ts + [Publish(e, now)])[..|ts|] == ts;
    FaithfulHolds(ts, ttl);
    forall d | d in m.delivered
      ensures !(DedupeKeys(d.event) !! DedupeKeys(e)) <==>
              d.event.eventId == e.eventId || (d.event.idempotencyKey == e.idempotencyKey && e.idempotencyKey != "")
    {
      KeysCollide(d.event, e);
    }
    DuplicateExactly(m, cleaned, e, ttl);
  }

  lemma DuplicateExactly(m: Memory, cleaned: int, e: Event, ttl: int)
    requires Faithful(m, cleaned, ttl)
    ensures Duplicate(m.processed, e) <==>
            exists d :: d in m.delivered && Fresh(d, cleaned, ttl) && !(DedupeKeys(d.event) !! DedupeKeys(e))
  {
    if Duplicate(m.processed, e) {
      var k :| k in DedupeKeys(e) && k in m.processed;
      assert Marked(m, k);
      var d :| d in m.delivered && k in DedupeKeys(d.event) && d.at == m.processed[k];
      assert Fresh(d, cleaned, ttl);
    }
    if d :| d in m.delivered && Fresh(d, cleaned, ttl) && !(DedupeKeys(d.event) !! DedupeKeys(e)) {
      var k :| k in DedupeKeys(d.event) && k in DedupeKeys(e);
      assert k in m.processed;
    }
  }

  // -------------------------------------------------------------------------- the bus

  /** A handler run: which subscriber, which event, and whether it threw. */
  datatype HandlerRun = HandlerRun(subscriberId: string, eventId: string, threw: bool)

  datatype PublishResult = PublishResult(success: bool, handlersNotified: nat, failed: seq<string>)

  predicate Succeeds(fails: nat -> bool, max: nat) { exists k :: 0 <= k < max && !fails(k) }

  /** The runs of one handler from attempt `k` on: until its first success, at most up to
      the bound. */
  function RunsFrom(s: Subscription, e: Event, fails: nat -> bool, k: nat, max: nat): seq<HandlerRun>
    decreases max - k
  {
    if k >= max then []
    else [HandlerRun(s.subscriberId, e.eventId, fails(k))] + if fails(k) then RunsFrom(s, e, fails, k + 1, max) else []
  }

  /** The runs of the first `n` subscribers, one after another in list order. */
  function RunsOf(subs: seq<Subscription>, e: Event, fails: nat -> nat -> bool, max: nat, n: nat): seq<HandlerRun>
    requires n <= |subs|
  {
    if n == 0 then [] else RunsOf(subs, e, fails, max, n - 1) + RunsFrom(subs[n - 1], e, fails(n - 1), 0, max)
  }

  /** One handler's runs: all of them its own and of this event, all but the last throwing.
      There is none only when the bound is zero; it succeeds exactly when its last run does
      not throw, and it fails after exactly as many runs as the bound. */
  lemma {:induction false} HandlerRuns(s: Subscription, e: Event, fails: nat -> bool, k: nat, max: nat)
    requires k <= max
    ensures var rs := RunsFrom(s, e, fails, k, max);
            && |rs| <= max - k && (rs == [] <==> k == max)
            && (forall j :: 0 <= j < |rs| ==> rs[j] == HandlerRun(s.subscriberId, e.eventId, fails(k + j)))
            && (forall j :: 0 <= j < |rs| - 1 ==> rs[j].threw)
            && ((exists j :: k <= j < max && !fails(j)) <==> rs != [] && !rs[|rs| - 1].threw)
            && ((forall j :: k <= j < max ==> fails(j)) ==> |rs| == max - k)
    decreases max - k
  {
    if k < max && fails(k) {
      HandlerRuns(s, e, fails, k + 1, max);
      var rs, later := RunsFrom(s, e, fails, k, max), RunsFrom(s, e, fails, k + 1, max);
      assert forall j :: 0 < j < |rs| ==> rs[j] == later[j - 1];
    }
  }

  /** Each subscriber's runs stand together, in list order: those of subscriber `i` come
      after those of all earlier ones and before those of all later ones. */
  lemma {:induction false} RunsInOrder(subs: seq<Subscription>, e: Event, fails: nat -> nat -> bool, max: nat, i: nat, n: nat)
    requires i < n <= |subs|
    ensures var (all, start, end) := (RunsOf(subs, e, fails, max, n), |RunsOf(subs, e, fails, max, i)|,
                                      |RunsOf(subs, e, fails, max, i + 1)|);
            start <= end <= |all| && all[start..end] == RunsFrom(subs[i], e, fails(i), 0, max)
    decreases n
  {
    if i + 1 < n {
      RunsInOrder(subs, e, fails, max, i, n - 1);
      var (before, start, end) := (RunsOf(subs, e, fails, max, n - 1), |RunsOf(subs, e, fails, max, i)|,
                                   |RunsOf(subs, e, fails, max, i + 1)|);
      assert RunsOf(subs, e, fails, max, n)[start..end] == before[start..end];
    }
  }

  function RunsBy(rs: seq<HandlerRun>, subscriberId: string): nat {
    if rs == [] then 0 else RunsBy(rs[..|rs| - 1], subscriberId) + if rs[|rs| - 1].subscriberId == subscriberId then 1 else 0
  }

  lemma {:induction false} RunsByBoth(a: seq<HandlerRun>, b: seq<HandlerRun>, subscriberId: string)
    ensures RunsBy(a + b, subscriberId) == RunsBy(a, subscriberId) + RunsBy(b, subscriberId)
    ensures RunsBy(b, subscriberId) <= |b|
    decreases |b|
  {
    if b == [] {
      assert a + b == a;
    } else {
      RunsByBoth(a, b[..|b| - 1], subscriberId);
      assert (a + b)[..|a + b| - 1] == a + b[..|b| - 1];
    }
  }

  lemma {:induction false} RunsByOthers(s: Subscription, e: Event, fails: nat -> bool, k: nat, max: nat, subscriberId: string)
    requires s.subscriberId != subscriberId && k <= max
    ensures RunsBy(RunsFrom(s, e, fails, k, max), subscriberId) == 0
    decreases max - k
  {
    if k < max {
      var first := [HandlerRun(s.subscriberId, e.eventId, fails(k))];
      var later := if fails(k) then RunsFrom(s, e, fails, k + 1, max) else [];
      if fails(k) { RunsByOthers(s, e, fails, k + 1, max, subscriberId); }
      assert first[..0] == [];
      RunsByBoth(first, later, subscriberId);
    }
  }

  /** The places of a subscriber in a list. */
  function Places(subs: seq<Subscription>, subscriberId: string, n: nat): nat
    requires n <= |subs|
  {
    if n == 0 then 0 else Places(subs, subscriberId, n - 1) + if subs[n - 1].subscriberId == subscriberId then 1 else 0
  }

  function RunLimit(max: nat, n: nat): nat { if n == 0 then 0 else RunLimit(max, n - 1) + max }

  lemma {:induction false} RunLimitIsProduct(max: nat, n: nat)
    ensures RunLimit(max, n) == max * n
  {
    if n > 0 {
      RunLimitIsProduct(max, n - 1);
      assert max * n == max * (n - 1) + max;
    }
  }

  lemma RunsByOne(s: Subscription, e: Event, fails: nat -> bool, max: nat, subscriberId: string)
    ensures RunsBy(RunsFrom(s, e, fails, 0, max), subscriberId) <= if s.subscriberId == subscriberId then max else 0
  {
    if s.subscriberId == subscriberId {
      HandlerRuns(s, e, fails, 0, max);
      RunsByBoth([], RunsFrom(s, e, fails, 0, max), subscriberId);
    } else {
      RunsByOthers(s, e, fails, 0, max, subscriberId);
    }
  }

  lemma RunsByNext(subs: seq<Subscription>, e: Event, fails: nat -> nat -> bool, max: nat, n: nat, subscriberId: string)
    requires 0 < n <= |subs|
    ensures RunsBy(RunsOf(subs, e, fails, max, n), subscriberId)
            == RunsBy(RunsOf(subs, e, fails, max, n - 1), subscriberId)
               + RunsBy(RunsFrom(subs[n - 1], e, fails(n - 1), 0, max), subscriberId)
  {
    RunsByBoth(RunsOf(subs, e, fails, max, n - 1), RunsFrom(subs[n - 1], e, fails(n - 1), 0, max), subscriberId);
  }

  lemma {:induction false} RunsLimited(subs: seq<Subscription>, e: Event, fails: nat -> nat -> bool, max: nat, n: nat,
                                       subscriberId: string)
    requires n <= |subs|
    ensures RunsBy(RunsOf(subs, e, fails, max, n), subscriberId) <= RunLimit(max, Places(subs, subscriberId, n))
  {
    if n > 0 {
      RunsLimited(subs, e, fails, max, n - 1, subscriberId);
      RunsByNext(subs, e, fails, max, n, subscriberId);
      RunsByOne(subs[n - 1], e, fails(n - 1), max, subscriberId);
    }
  }

  /** No handler runs more than the bound for each of its places in the list. */
  lemma RunsBounded(subs: seq<Subscription>, e: Event, fails: nat -> nat -> bool, max: nat, subscriberId: string)
    ensures RunsBy(RunsOf(subs, e, fails, max, |subs|), subscriberId) <= max * Places(subs, subscriberId, |subs|)
  {
    RunsLimited(subs, e, fails, max, |subs|, subscriberId);
    RunLimitIsProduct(max, Places(subs, subscriberId, |subs|));
  }

  /** One more run of a handler. */
  lemma RunsOneMore(before: seq<HandlerRun>, s: Subscription, e: Event, fails: nat -> bool, k: nat, max: nat)
    requires k < max
    ensures before + RunsFrom(s, e, fails, k, max)
            == (before + [HandlerRun(s.subscriberId, e.eventId, fails(k))])
               + if fails(k) then RunsFrom(s, e, fails, k + 1, max) else []
  {
  }

  /** One more handler. */
  lemma HandlersOneMore(before: seq<HandlerRun>, subs: seq<Subscription>, e: Event, fails: nat -> nat -> bool, max: nat, i: nat)
    requires i < |subs|
    ensures before + RunsOf(subs, e, fails, max, i + 1)
            == (before + RunsOf(subs, e, fails, max, i)) + RunsFrom(subs[i], e, fails(i), 0, max)
  {
  }

  class EventBus {
    var subscriptions: Table
    var processedEvents: map<string, int>
    var runs: seq<HandlerRun>
    const maxRetryAttempts: nat
    const deduplicate: bool
    const ttl: int

    constructor (maxRetryAttempts: nat, deduplicate: bool, ttl: int)
      ensures subscriptions == map[] && processedEvents == map[] && runs == []
      ensures this.maxRetryAttempts == maxRetryAttempts && this.deduplicate == deduplicate && this.ttl == ttl
    {
      subscriptions, processedEvents, runs := map[], map[], [];
      this.maxRetryAttempts, this.deduplicate, this.ttl := maxRetryAttempts, deduplicate, ttl;
    }

    /** Appends to the type's list and sorts it. */
    method PushOne(eventType: string, s: Subscription)
      modifies this`subscriptions
      ensures subscriptions == Push(old(subscriptions), eventType, s)
    {
      if eventType !in subscriptions {
        subscriptions := subscriptions[eventType := []];
      }
      subscriptions := subscriptions[eventType := StableSort(subscriptions[eventType] + [s])];
    }

    method Subscribe(s: Subscription)
      modifies this`subscriptions
      ensures subscriptions == AddTypes(old(subscriptions), s, |s.eventTypes|)
    {
      for i := 0 to |s.eventTypes|
        invariant subscriptions == AddTypes(old(subscriptions), s, i)
      {
        PushOne(s.eventTypes[i], s);
      }
    }

    /** Keeps the entries of the others, in order. */
    method Filter(subs: seq<Subscription>, subscriberId: string) returns (kept: seq<Subscription>)
      ensures kept == Without(subs, subscriberId)
    {
      kept := [];
      for i := 0 to |subs|
        invariant kept == Without(subs[..i], subscriberId)
      {
        assert subs[..i + 1][..i] == subs[..i];
        if subs[i].subscriberId != subscriberId {
          kept := kept + [subs[i]];
        }
      }
      assert subs[..|subs|] == subs;
    }

    /** Removes the subscriber from the list of every type, and nothing else. */
    method Unsubscribe(subscriberId: string)
      modifies this`subscriptions
      ensures subscriptions == RemoveAll(old(subscriptions), subscriberId)
      ensures forall t :: t in old(subscriptions) ==>
                Gone(old(subscriptions)[t], ListFor(subscriptions, t), subscriberId)
    {
      ghost var before := subscriptions;
      RemoveEnds(before, subscriberId);
      var todo := subscriptions.Keys;
      while todo != {}
        invariant todo <= before.Keys
        invariant subscriptions == RemoveBut(before, subscriberId, todo)
        decreases |todo|
      {
        var eventType :| eventType in todo;
        var kept := Filter(subscriptions[eventType], subscriberId);
        RemoveOne(before, subscriberId, todo, eventType);
        subscriptions := subscriptions[eventType := kept];
        todo := todo - {eventType};
      }
      RemoveAllIsGone(before, subscriberId);
    }

    /** Forgets keys that are too old: what is left is younger, nothing young is forgotten,
        and times are as they were. */
    method Clean(now: int)
      modifies this`processedEvents
      ensures processedEvents == Forget(old(processedEvents), now, ttl)
      ensures forall k :: k in old(processedEvents) ==> (k in processedEvents <==> now - old(processedEvents)[k] <= ttl)
      ensures forall k :: k in processedEvents ==> k in old(processedEvents) && processedEvents[k] == old(processedEvents)[k]
    {
      var todo := processedEvents.Keys;
      while todo != {}
        invariant todo <= processedEvents.Keys <= old(processedEvents).Keys
        invariant forall k :: k in processedEvents ==> processedEvents[k] == old(processedEvents)[k]
        invariant forall k :: k in old(processedEvents) && k !in todo ==>
                    (k in processedEvents <==> now - old(processedEvents)[k] <= ttl)
        decreases |todo|
      {
        var key :| key in todo;
        if now - processedEvents[key] > ttl {
          processedEvents := processedEvents - {key};
        }
        todo := todo - {key};
      }
    }

    /** `fails` says which attempts of this subscriber's handler throw. */
    method NotifySubscriber(s: Subscription, e: Event, fails: nat -> bool) returns (ok: bool)
      modifies this`runs
      ensures ok == Succeeds(fails, maxRetryAttempts)
      ensures runs == old(runs) + RunsFrom(s, e, fails, 0, maxRetryAttempts)
      ensures |runs| - |old(runs)| <= maxRetryAttempts
      ensures !ok ==> |runs| - |old(runs)| == maxRetryAttempts
      ensures ok ==> runs != old(runs) && !runs[|runs| - 1].threw
    {
      HandlerRuns(s, e, fails, 0, maxRetryAttempts);
      var attempts := 0;
      while attempts < maxRetryAttempts
        invariant attempts <= maxRetryAttempts && forall k :: 0 <= k < attempts ==> fails(k)
        invariant runs + RunsFrom(s, e, fails, attempts, maxRetryAttempts)
                  == old(runs) + RunsFrom(s, e, fails, 0, maxRetryAttempts)
      {
        RunsOneMore(runs, s, e, fails, attempts, maxRetryAttempts);
        runs := runs + [HandlerRun(s.subscriberId, e.eventId, fails(attempts))];
        if !fails(attempts) {
          return true;
        }
        attempts := attempts + 1;
      }
      return false;
    }

    /** `fails(i)` says which attempts of the i-th subscriber's handler throw. */
    method Publish(e: Event, now: int, fails: nat -> nat -> bool) returns (r: PublishResult)
      modifies this`processedEvents, this`runs
      ensures deduplicate && Duplicate(old(processedEvents), e) ==>
                r == PublishResult(true, 0, []) && runs == old(runs) && processedEvents == old(processedEvents)
      ensures deduplicate && !Duplicate(old(processedEvents), e) ==> processedEvents == Mark(old(processedEvents), e, now)
      ensures !deduplicate ==> processedEvents == old(processedEvents)
      ensures !(deduplicate && Duplicate(old(processedEvents), e)) ==>
                var subs := ListFor(subscriptions, e.eventType);
                && r.handlersNotified == SuccessCount(fails, maxRetryAttempts, |subs|)
                && r.failed == FailedIds(subs, fails, maxRetryAttempts, |subs|)
                && r.success == (r.failed == [])
                && runs == old(runs) + RunsOf(subs, e, fails, maxRetryAttempts, |subs|)
    {
      if deduplicate && exists k :: k in DedupeKeys(e) && k in processedEvents {
        return PublishResult(true, 0, []);
      }
      if deduplicate {
        processedEvents := Mark(processedEvents, e, now);
      }
      var notified, failed := NotifyAll(ListFor(subscriptions, e.eventType), e, fails);
      r := PublishResult(failed == [], notified, failed);
    }

    /** Notifies the subscribers in list order. */
    method NotifyAll(subs: seq<Subscription>, e: Event, fails: nat -> nat -> bool) returns (notified: nat, failed: seq<string>)
      modifies this`runs
      ensures notified == SuccessCount(fails, maxRetryAttempts, |subs|)
      ensures failed == FailedIds(subs, fails, maxRetryAttempts, |subs|)
      ensures runs == old(runs) + RunsOf(subs, e, fails, maxRetryAttempts, |subs|)
    {
      notified, failed := 0, [];
      for i := 0 to |subs|
        invariant notified == SuccessCount(fails, maxRetryAttempts, i)
        invariant failed == FailedIds(subs, fails, maxRetryAttempts, i)
        invariant runs == old(runs) + RunsOf(subs, e, fails, maxRetryAttempts, i)
      {
        HandlersOneMore(old(runs), subs, e, fails, maxRetryAttempts, i);
        var ok := NotifySubscriber(subs[i], e, fails(i));
        if ok { notified := notified + 1; } else { failed := failed + [subs[i].subscriberId]; }
      }
    }
  }

  function SuccessCount(fails: nat -> nat -> bool, max: nat, n: nat): nat {
    if n == 0 then 0 else SuccessCount(fails, max, n - 1) + if Succeeds(fails(n - 1), max) then 1 else 0
  }

  function FailedIds(subs: seq<Subscription>, fails: nat -> nat -> bool, max: nat, n: nat): seq<string>
    requires n <= |subs|
  {
    if n == 0 then []
    else FailedIds(subs, fails, max, n - 1) + if Succeeds(fails(n - 1), max) then [] else [subs[n - 1].subscriberId]
  }

  /** All attempts of the subscriber in this place throw. */
  ghost predicate AllThrow(fails: nat -> nat -> bool, max: nat, i: nat) { forall k: nat :: k < max ==> fails(i)(k) }

  /** Every subscriber is counted once, as notified or as failed; an id is reported exactly
      when all attempts of one of its places throw, and nothing is reported exactly when
      every place has an attempt that does not. */
  lemma {:induction false} ReportsExactly(subs: seq<Subscription>, fails: nat -> nat -> bool, max: nat, n: nat)
    requires n <= |subs|
    ensures SuccessCount(fails, max, n) + |FailedIds(subs, fails, max, n)| == n
    ensures forall id :: id in FailedIds(subs, fails, max, n) <==>
              exists i: nat :: i < n && subs[i].subscriberId == id && AllThrow(fails, max, i)
    ensures FailedIds(subs, fails, max, n) == [] <==> forall i: nat :: i < n ==> !AllThrow(fails, max, i)
  {
    if n > 0 {
      ReportsExactly(subs, fails, max, n - 1);
      assert AllThrow(fails, max, n - 1) <==> !Succeeds(fails(n - 1), max);
      var before, failed := FailedIds(subs, fails, max, n - 1), FailedIds(subs, fails, max, n);
      assert failed == before + if AllThrow(fails, max, n - 1) then [subs[n - 1].subscriberId] else [];
    }
  }
}
