/**
 The two durable media, and the reading of the localStorage journal: events written before
 sequence numbers existed are given numbers when they are read.
 */
module Journal {
  import opened Prelude
  import opened StableSort
  import opened Kitchen
  import opened Outbox

  /** The value under the version-2 key: one write replaces all of it. */
  datatype LocalState = LocalState(
    snapshot: Option<Snapshot>, outbox: seq<OutboxEvent>, lastOutboxSequence: int, lastSyncedAt: Option<Stamp>)

  /** localStorage: the version-2 key and the three keys older clients wrote. */
  datatype LocalStorage = LocalStorage(
    state: Option<LocalState>,
    legacySnapshot: Option<Snapshot>, legacyOutbox: Option<seq<OutboxEvent>>, legacySyncedAt: Option<Stamp>)

  /** IndexedDB: the snapshot store, the outbox store keyed by id, and the meta store. */
  datatype Database = Database(
    snapshot: Option<Snapshot>, outbox: map<Id, OutboxEvent>, lastSequence: Option<int>, lastSyncedAt: Option<Stamp>)

  ghost predicate Keyed(outbox: map<Id, OutboxEvent>) {
    forall id | id in outbox :: outbox[id].id == id
  }

  /** The list holds exactly the values of the outbox store, each once. */
  ghost predicate Lists(events: seq<OutboxEvent>, outbox: map<Id, OutboxEvent>) {
    && UniqueEvents(events)
    && (forall e | e in events :: e.id in outbox && outbox[e.id] == e)
    && (forall id | id in outbox :: outbox[id] in events)
  }

  method GetAll(outbox: map<Id, OutboxEvent>) returns (events: seq<OutboxEvent>)
    requires Keyed(outbox)
    ensures Lists(events, outbox)
  {
    events := [];
    var rest := outbox.Keys;
    while rest != {}
      invariant rest <= outbox.Keys
      invariant UniqueEvents(events)
      invariant forall e | e in events :: e.id in outbox && outbox[e.id] == e && e.id !in rest
      invariant forall id | id in outbox && id !in rest :: outbox[id] in events
      decreases rest
    {
      var id :| id in rest;
      assert forall i | 0 <= i < |events| :: events[i] in events;
      events := events + [outbox[id]];
      rest := rest - {id};
    }
  }

  // ---------------------------------------------------------------- legacy events

  function Floor(value: int): int {
    if IsValidSequence(Some(value)) then value else 0
  }

  function ValidOrZero(e: OutboxEvent): int {
    if IsValidSequence(e.localSequence) then e.localSequence.value else 0
  }

  /** The highest valid number among the events, and the floor if none is above it. */
  function Highest(events: seq<OutboxEvent>, floor: int): int {
    if events == [] then floor
    else Max(Highest(events[..|events| - 1], floor), ValidOrZero(events[|events| - 1]))
  }

  predicate Unsequenced(e: OutboxEvent) {
    !IsValidSequence(e.localSequence)
  }

  predicate OccurredBefore(a: OutboxEvent, b: OutboxEvent) {
    a.occurredAt < b.occurredAt || (a.occurredAt == b.occurredAt && a.id <= b.id)
  }

  function Chronology(events: seq<OutboxEvent>): seq<OutboxEvent> {
    Sort(OccurredBefore, Filter(Unsequenced, events))
  }

  function Assign(sorted: seq<OutboxEvent>, base: int): map<Id, int> {
    if sorted == [] then map[]
    else Assign(sorted[..|sorted| - 1], base)[sorted[|sorted| - 1].id := base + |sorted|]
  }

  datatype Normalization = Normalization(events: seq<OutboxEvent>, lastSequence: int)

  function NormalEvent(e: OutboxEvent, numbers: map<Id, int>): OutboxEvent {
    e.(localSequence := if IsValidSequence(e.localSequence) then e.localSequence
                        else if e.id in numbers then Some(numbers[e.id]) else None,
       disposition := Some(e.disposition.GetOr(Pending)))
  }

  function Normalize(events: seq<OutboxEvent>, sequenceFloor: int): (n: Normalization)
    ensures |n.events| == |events|
  {
    var base := Highest(events, Floor(sequenceFloor));
    var sorted := Chronology(events);
    var numbers := Assign(sorted, base);
    Normalization(
      seq(|events|, i requires 0 <= i < |events| => NormalEvent(events[i], numbers)),
      base + |sorted|)
  }

  method NormalizeLegacyEvents(events: seq<OutboxEvent>, sequenceFloor: int) returns (n: Normalization)
    ensures n == Normalize(events, sequenceFloor)
  {
    var lastSequence := Floor(sequenceFloor);
    for i := 0 to |events|
      invariant lastSequence == Highest(events[..i], Floor(sequenceFloor))
    {
      lastSequence := Max(lastSequence, ValidOrZero(events[i]));
      assert events[..i + 1][..i] == events[..i];
    }
    assert events[..|events|] == events;
    ghost var base := lastSequence;
    var sorted := Sort(OccurredBefore, Filter(Unsequenced, events));
    var assignedSequences: map<Id, int> := map[];
    for i := 0 to |sorted|
      invariant lastSequence == base + i
      invariant assignedSequences == Assign(sorted[..i], base)
    {
      lastSequence := lastSequence + 1;
      assignedSequences := assignedSequences[sorted[i].id := lastSequence];
      assert sorted[..i + 1][..i] == sorted[..i];
    }
    assert sorted[..|sorted|] == sorted;
    var normal: seq<OutboxEvent> := [];
    for i := 0 to |events|
      invariant |normal| == i
      invariant forall k :: 0 <= k < i ==> normal[k] == NormalEvent(events[k], assignedSequences)
    {
      normal := normal + [NormalEvent(events[i], assignedSequences)];
    }
    n := Normalization(normal, lastSequence);
    assert n.events == Normalize(events, sequenceFloor).events;
  }

  lemma OccurredBeforeTotal()
    ensures TotalPreorder(OccurredBefore)
  {
  }

  lemma {:induction false} HighestBounds(events: seq<OutboxEvent>, floor: int)
    ensures Highest(events, floor) >= floor
    ensures forall e | e in events :: ValidOrZero(e) <= Highest(events, floor)
    ensures Highest(events, floor) == floor || exists e | e in events :: ValidOrZero(e) == Highest(events, floor)
  {
    if events != [] {
      var before := events[..|events| - 1];
      HighestBounds(before, floor);
      assert forall e :: e in events <==> e in before || e == events[|events| - 1];
    }
  }

  lemma {:induction false} AssignAt(sorted: seq<OutboxEvent>, base: int, i: int)
    requires UniqueEvents(sorted) && 0 <= i < |sorted|
    ensures sorted[i].id in Assign(sorted, base) && Assign(sorted, base)[sorted[i].id] == base + i + 1
  {
    if i < |sorted| - 1 {
      AssignAt(sorted[..|sorted| - 1], base, i);
    }
  }

  lemma ChronologyEvents(events: seq<OutboxEvent>)
    requires UniqueEvents(events)
    ensures UniqueEvents(Chronology(events)) && Sorted(OccurredBefore, Chronology(events))
    ensures forall e :: e in Chronology(events) <==> e in events && Unsequenced(e)
  {
    OccurredBeforeTotal();
    SortSorted(OccurredBefore, Filter(Unsequenced, events));
    FilterElements(Unsequenced, events);
    SortElements(OccurredBefore, Filter(Unsequenced, events));
    FilterUnique(Unsequenced, events);
    SameMultisetUnique(Filter(Unsequenced, events), Chronology(events));
  }

  lemma {:induction false} FilterUnique(p: OutboxEvent -> bool, events: seq<OutboxEvent>)
    requires UniqueEvents(events)
    ensures UniqueEvents(Filter(p, events))
  {
    if events != [] {
      var rest := events[1..];
      assert forall k | 0 <= k < |rest| :: rest[k] == events[k + 1];
      FilterUnique(p, rest);
      FilterElements(p, rest);
      var kept := Filter(p, rest);
      assert forall k | 0 <= k < |kept| :: kept[k] in rest;
      assert forall e | e in rest :: e.id != events[0].id;
    }
  }

  /** Distinct ids survive any rearrangement. */
  lemma SameMultisetUnique(a: seq<OutboxEvent>, b: seq<OutboxEvent>)
    requires UniqueEvents(a) && multiset(a) == multiset(b)
    ensures UniqueEvents(b)
  {
    RearrangedNoDuplicates(a, b);
    forall i, j | 0 <= i < j < |b|
      ensures b[i].id != b[j].id
    {
      assert b[i] in multiset(b) && b[j] in multiset(b);
      assert b[i] in a && b[j] in a;
    }
  }

  lemma AtMostOnce(a: seq<OutboxEvent>, e: OutboxEvent)
    requires UniqueEvents(a) && e in a
    ensures multiset(a)[e] == 1
  {
    var k :| 0 <= k < |a| && a[k] == e;
    assert a == a[..k] + [e] + a[k + 1..];
    assert e !in a[..k] && e !in a[k + 1..];
  }

  /** Lists of the same events, each without repeated ids, are rearrangements of one another. */
  lemma SameEventsSameMultiset(a: seq<OutboxEvent>, b: seq<OutboxEvent>)
    requires UniqueEvents(a) && UniqueEvents(b)
    requires forall e :: e in a <==> e in b
    ensures multiset(a) == multiset(b)
  {
    forall e
      ensures multiset(a)[e] == multiset(b)[e]
    {
      if e in a {
        AtMostOnce(a, e);
        AtMostOnce(b, e);
      } else {
        assert e !in multiset(a) && e !in multiset(b);
      }
    }
  }

  /** What normalization guarantees of each event. */
  lemma NormalizedEvent(events: seq<OutboxEvent>, floor: int, e: OutboxEvent) returns (rank: int)
    requires UniqueEvents(events) && e in events && Unsequenced(e)
    ensures var base, sorted := Highest(events, Floor(floor)), Chronology(events);
            && 0 <= rank < |sorted| && sorted[rank] == e
            && NormalEvent(e, Assign(sorted, base)).localSequence == Some(base + rank + 1)
  {
    ChronologyEvents(events);
    var sorted := Chronology(events);
    rank :| 0 <= rank < |sorted| && sorted[rank] == e;
    AssignAt(sorted, Highest(events, Floor(floor)), rank);
  }

  /** Of two events without numbers the one that occurred first, or has the smaller id, gets the smaller number. */
  lemma ChronologicalNumbers(events: seq<OutboxEvent>, floor: int, a: OutboxEvent, b: OutboxEvent)
    requires UniqueEvents(events) && a in events && b in events && Unsequenced(a) && Unsequenced(b)
    requires a.occurredAt < b.occurredAt || (a.occurredAt == b.occurredAt && a.id < b.id)
    ensures var n := Normalize(events, floor);
            exists a', b' | a' in n.events && b' in n.events ::
              a'.id == a.id && b'.id == b.id && Sequence(a') < Sequence(b')
  {
    var n, sorted := Normalize(events, floor), Chronology(events);
    var i := NormalizedEvent(events, floor, a);
    var j := NormalizedEvent(events, floor, b);
    ChronologyEvents(events);
    assert !OccurredBefore(sorted[j], sorted[i]);
    var x :| 0 <= x < |events| && events[x] == a;
    var y :| 0 <= y < |events| && events[y] == b;
    assert n.events[x].id == a.id && n.events[y].id == b.id && Sequence(n.events[x]) < Sequence(n.events[y]);
  }

  /** Events already complete are read back unchanged. */
  lemma NormalizeComplete(events: seq<OutboxEvent>, floor: int)
    requires forall e | e in events :: Complete(e)
    ensures Normalize(events, floor) == Normalization(events, Highest(events, Floor(floor)))
  {
    FilterNone(Unsequenced, events);
    var n := Normalize(events, floor);
    forall i | 0 <= i < |events|
      ensures n.events[i] == events[i]
    {
      assert events[i] in events;
    }
    assert n.events == events;
  }

  // ---------------------------------------------------------------- reading the journal

  function ParseLocalState(state: LocalState): LocalState {
    var n := Normalize(state.outbox, state.lastOutboxSequence);
    state.(outbox := n.events, lastOutboxSequence := n.lastSequence)
  }

  function LegacyState(local: LocalStorage): LocalState {
    var n := Normalize(local.legacyOutbox.GetOr([]), 0);
    LocalState(local.legacySnapshot, n.events, n.lastSequence, local.legacySyncedAt)
  }

  function ReadLocalState(local: LocalStorage): LocalState {
    if local.state.Some? then ParseLocalState(local.state.value) else LegacyState(local)
  }
}
