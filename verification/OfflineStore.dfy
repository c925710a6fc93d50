/**
 The offline store on its two interchangeable backends. Each operation is shown to do to either
 backend what the abstract outbox says, so no caller can tell which backend it was given.
 */
module OfflineStore {
  import opened Prelude
  import opened StableSort
  import opened Kitchen
  import opened Outbox
  import opened Journal

  datatype Backend = LocalBackend | DatabaseBackend

  /** The same events, in whatever order the medium keeps them. */
  ghost predicate Holds(list: seq<OutboxEvent>, events: seq<OutboxEvent>) {
    UniqueEvents(list) && forall e :: e in list <==> e in events
  }

  ghost predicate LocalHolds(state: LocalState, c: Store) {
    && state.snapshot == c.snapshot && state.lastSyncedAt == c.lastSynced
    && Holds(state.outbox, c.events) && state.lastOutboxSequence == c.counter
  }

  ghost predicate DatabaseHolds(db: Database, c: Store) {
    && db.snapshot == c.snapshot && db.lastSyncedAt == c.lastSynced
    && Keyed(db.outbox)
    && (forall e | e in c.events :: e.id in db.outbox && db.outbox[e.id] == e)
    && (forall id | id in db.outbox :: db.outbox[id] in c.events)
    && db.lastSequence.GetOr(0) == c.counter
  }

  function SortKey(e: OutboxEvent): int {
    e.localSequence.GetOr(MAX_SAFE_INTEGER)
  }

  predicate SequenceBefore(a: OutboxEvent, b: OutboxEvent) {
    SortKey(a) < SortKey(b) || (SortKey(a) == SortKey(b) && a.id <= b.id)
  }

  function SortOutbox(events: seq<OutboxEvent>): seq<OutboxEvent> {
    Sort(SequenceBefore, events)
  }

  lemma SequenceBeforeTotal()
    ensures TotalPreorder(SequenceBefore)
  {
  }

  /** Sorting recovers the commit order from any arrangement of the same events. */
  lemma SortRecoversOrder(list: seq<OutboxEvent>, events: seq<OutboxEvent>)
    requires Holds(list, events) && UniqueEvents(events) && Increasing(events)
    requires forall e | e in events :: Complete(e)
    ensures SortOutbox(list) == events
  {
    SequenceBeforeTotal();
    SortSorted(SequenceBefore, list);
    SameEventsSameMultiset(list, events);
    var sorted := SortOutbox(list);
    SortElements(SequenceBefore, list);
    forall x, y | x in sorted && y in sorted && SequenceBefore(x, y) && SequenceBefore(y, x)
      ensures x == y
    {
      var i :| 0 <= i < |events| && events[i] == x;
      var j :| 0 <= j < |events| && events[j] == y;
    }
    assert Sorted(SequenceBefore, events) by {
      assert forall i | 0 <= i < |events| :: events[i] in events;
    }
    SortedUnique(SequenceBefore, sorted, events);
  }

  /** Sorted events stand by number, those without one after all that can have one, and by id among equals. */
  lemma SortedByNumber(list: seq<OutboxEvent>)
    ensures var r := SortOutbox(list);
            && multiset(r) == multiset(list)
            && forall i, j | 0 <= i < j < |r| ::
                 var a, b := r[i].localSequence, r[j].localSequence;
                 && (a.Some? && b.Some? ==> a.value < b.value || (a.value == b.value && r[i].id <= r[j].id))
                 && (a.None? && b.Some? ==> b.value >= MAX_SAFE_INTEGER)
  {
    SequenceBeforeTotal();
    SortSorted(SequenceBefore, list);
    var r := SortOutbox(list);
    assert forall i, j | 0 <= i < j < |r| :: SequenceBefore(r[i], r[j]);
  }

  lemma FilterHolds(p: OutboxEvent -> bool, list: seq<OutboxEvent>, events: seq<OutboxEvent>)
    requires Holds(list, events)
    ensures Holds(Filter(p, list), Filter(p, events))
  {
    FilterElements(p, list);
    FilterElements(p, events);
    FilterUnique(p, list);
  }

  /** What is written is read back unchanged. */
  lemma ReadBack(state: LocalState, c: Store)
    requires WellFormed(c) && LocalHolds(state, c)
    ensures ParseLocalState(state) == state
  {
    NormalizeComplete(state.outbox, state.lastOutboxSequence);
    HighestBounds(state.outbox, Floor(state.lastOutboxSequence));
    assert state.outbox != [] ==> state.outbox[0] in c.events;
  }

  lemma UpdatedHolds(list: seq<OutboxEvent>, c: Store, id: Id, update: OutboxEvent -> OutboxEvent, r: seq<OutboxEvent>)
    requires Holds(list, c.events) && Harmless(update) && |r| == |list|
    requires forall i | 0 <= i < |list| :: r[i] == if list[i].id == id then update(list[i]) else list[i]
    ensures Holds(r, UpdateEvent(c, id, update).events)
  {
    var events, events' := c.events, UpdateEvent(c, id, update).events;
    forall e
      ensures e in r <==> e in events'
    {
      if e in r {
        var i :| 0 <= i < |r| && r[i] == e;
        assert list[i] in events;
        var j :| 0 <= j < |events| && events[j] == list[i];
        assert events'[j] == e;
      }
      if e in events' {
        var j :| 0 <= j < |events'| && events'[j] == e;
        assert events[j] in list;
        var i :| 0 <= i < |list| && list[i] == events[j];
        assert r[i] == e;
      }
    }
  }

  lemma DatabaseUpdated(db: Database, c: Store, id: Id, update: OutboxEvent -> OutboxEvent)
    requires DatabaseHolds(db, c) && UniqueEvents(c.events) && Harmless(update)
    ensures var outbox := if id in db.outbox then db.outbox[id := update(db.outbox[id])] else db.outbox;
            DatabaseHolds(db.(outbox := outbox), UpdateEvent(c, id, update))
  {
    var outbox := if id in db.outbox then db.outbox[id := update(db.outbox[id])] else db.outbox;
    var events, events' := c.events, UpdateEvent(c, id, update).events;
    forall e | e in events'
      ensures e.id in outbox && outbox[e.id] == e
    {
      var i :| 0 <= i < |events'| && events'[i] == e;
      assert events[i] in events;
    }
    forall k | k in outbox
      ensures outbox[k] in events' && outbox[k].id == k
    {
      var i :| 0 <= i < |events| && events[i] == db.outbox[k];
      assert events'[i] in events' && events'[i] == outbox[k];
    }
  }

  lemma DatabaseAppended(db: Database, c: Store, snapshot: Snapshot, event: OutboxEvent)
    requires DatabaseHolds(db, c) && event.id !in db.outbox && 0 <= c.counter
    ensures var stamped := Stamped(event, c.counter + 1);
            DatabaseHolds(
              db.(snapshot := Some(snapshot), outbox := db.outbox[event.id := stamped],
                  lastSequence := Some(c.counter + 1)),
              Commit(c, snapshot, Some(event)))
  {
  }

  lemma StoredAlready(state: LocalState, c: Store, id: Id)
    requires LocalHolds(state, c)
    ensures (exists e | e in state.outbox :: e.id == id) <==> HasEvent(c, id)
  {
  }

  lemma JournalAppended(state: LocalState, c: Store, snapshot: Snapshot, event: OutboxEvent)
    requires WellFormed(c) && LocalHolds(state, c) && !HasEvent(c, event.id)
    ensures var last := state.lastOutboxSequence + 1;
            LocalHolds(LocalState(Some(snapshot), state.outbox + [Stamped(event, last)], last, state.lastSyncedAt),
                       Commit(c, snapshot, Some(event)))
  {
    assert forall i | 0 <= i < |state.outbox| :: state.outbox[i] in c.events;
  }

  class OfflineStore {
    const backend: Backend
    var local: LocalStorage
    var db: Database
    ghost var Contents: Store

    ghost predicate Valid()
      reads this
    {
      && WellFormed(Contents)
      && match backend
         case LocalBackend => LocalHolds(ReadLocalState(local), Contents)
         case DatabaseBackend => DatabaseHolds(db, Contents)
    }

    /** A browser profile that has stored nothing yet. */
    constructor (backend: Backend)
      ensures Valid() && this.backend == backend
      ensures Contents == Store(None, [], 0, None)
    {
      this.backend := backend;
      local := LocalStorage(None, None, None, None);
      db := Database(None, map[], None, None);
      Contents := Store(None, [], 0, None);
      new;
      NormalizeComplete([], 0);
    }

    /** A profile on which earlier sessions have left their state. */
    constructor Open(backend: Backend, local: LocalStorage, db: Database, ghost contents: Store)
      requires WellFormed(contents)
      requires match backend
               case LocalBackend => LocalHolds(ReadLocalState(local), contents)
               case DatabaseBackend => DatabaseHolds(db, contents)
      ensures Valid() && this.backend == backend && this.local == local && this.db == db && Contents == contents
    {
      this.backend, this.local, this.db, Contents := backend, local, db, contents;
    }

    method WriteLocalState(state: LocalState, ghost c: Store)
      requires backend == LocalBackend && WellFormed(c) && LocalHolds(state, c)
      modifies this
      ensures Valid() && Contents == c && db == old(db)
    {
      local := local.(state := Some(state));
      Contents := c;
      ReadBack(state, c);
    }

    /** The journal's form: one write replaces snapshot, outbox and counter together. */
    method CommitToJournal(snapshot: Snapshot, event: Option<OutboxEvent>)
      requires Valid() && backend == LocalBackend && Contents.counter < MAX_SAFE_INTEGER
      modifies this
      ensures Valid() && Contents == Commit(old(Contents), snapshot, event)
    {
      ghost var c := Commit(Contents, snapshot, event);
      CommitKeeps(Contents, snapshot, event);
      hide Normalize, WellFormed;
      var state := ReadLocalState(local);
      if event.Some? {
        StoredAlready(state, Contents, event.value.id);
        if !HasEvent(Contents, event.value.id) {
          JournalAppended(state, Contents, snapshot, event.value);
        }
      }
      var alreadyStored := event.Some? && exists e | e in state.outbox :: e.id == event.value.id;
      var last := if alreadyStored || event.None? then state.lastOutboxSequence else state.lastOutboxSequence + 1;
      var outbox := if event.Some? && !alreadyStored then state.outbox + [Stamped(event.value, last)] else state.outbox;
      WriteLocalState(LocalState(Some(snapshot), outbox, last, state.lastSyncedAt), c);
    }

    /** The database's form: one transaction reads the highest number and writes all three. */
    method CommitToDatabase(snapshot: Snapshot, event: Option<OutboxEvent>)
      requires Valid() && backend == DatabaseBackend && Contents.counter < MAX_SAFE_INTEGER
      modifies this
      ensures Valid() && Contents == Commit(old(Contents), snapshot, event)
    {
      ghost var c := Commit(Contents, snapshot, event);
      CommitKeeps(Contents, snapshot, event);
      hide Increasing, UniqueEvents;
      db := db.(snapshot := Some(snapshot));
      if event.Some? && event.value.id !in db.outbox {
        var existing := GetAll(db.outbox);
        var lastSequence := db.lastSequence.GetOr(0);
        for i := 0 to |existing|
          invariant db.lastSequence.GetOr(0) <= lastSequence <= Contents.counter
          invariant forall k :: 0 <= k < i ==> Sequence(existing[k]) <= lastSequence
        {
          assert existing[i] in existing && existing[i] in Contents.events;
          lastSequence := Max(lastSequence, existing[i].localSequence.GetOr(0));
        }
        DatabaseAppended(old(db), Contents, snapshot, event.value);
        var stamped := Stamped(event.value, lastSequence + 1);
        db := db.(outbox := db.outbox[stamped.id := stamped], lastSequence := Some(lastSequence + 1));
      }
      Contents := c;
    }

    method CommitSnapshot(snapshot: Snapshot, event: Option<OutboxEvent>)
      requires Valid() && Contents.counter < MAX_SAFE_INTEGER
      modifies this
      ensures Valid() && Contents == Commit(old(Contents), snapshot, event)
    {
      if backend == LocalBackend {
        CommitToJournal(snapshot, event);
      } else {
        CommitToDatabase(snapshot, event);
      }
    }

    method ListOutbox(includeQuarantined: bool) returns (events: seq<OutboxEvent>)
      requires Valid()
      ensures events == Listing(Contents, includeQuarantined)
    {
      var stored: seq<OutboxEvent>;
      if backend == LocalBackend {
        stored := ReadLocalState(local).outbox;
      } else {
        stored := GetAll(db.outbox);
      }
      assert Holds(stored, Contents.events);
      FilterHolds(IsPending, stored, Contents.events);
      FilterIncreasing(IsPending, Contents.events);
      FilterElements(IsPending, Contents.events);
      SortRecoversOrder(
        if includeQuarantined then stored else Filter(IsPending, stored), Listing(Contents, includeQuarantined));
      events := SortOutbox(if includeQuarantined then stored else Filter(IsPending, stored));
    }

    method AcknowledgeOutboxEvent(id: Id, syncedAt: Stamp)
      requires Valid()
      modifies this
      ensures Valid() && Contents == Acknowledge(old(Contents), id, syncedAt)
    {
      ghost var c := Acknowledge(Contents, id, syncedAt);
      AcknowledgeKeeps(Contents, id, syncedAt);
      var others := (e: OutboxEvent) => e.id != id;
      FilterElements(others, Contents.events);
      if backend == LocalBackend {
        var state := ReadLocalState(local);
        FilterHolds(others, state.outbox, Contents.events);
        WriteLocalState(
          state.(outbox := Filter((e: OutboxEvent) => e.id != id, state.outbox), lastSyncedAt := Some(syncedAt)), c);
        return;
      }
      db := db.(outbox := db.outbox - {id}, lastSyncedAt := Some(syncedAt));
      Contents := c;
    }

    method ReplaceOutboxEvent(id: Id, update: OutboxEvent -> OutboxEvent)
      requires Valid() && Harmless(update)
      modifies this
      ensures Valid() && Contents == UpdateEvent(old(Contents), id, update)
    {
      ghost var c := UpdateEvent(Contents, id, update);
      UpdateKeeps(Contents, id, update);
      if backend == LocalBackend {
        var state := ReadLocalState(local);
        var outbox := seq(|state.outbox|, i requires 0 <= i < |state.outbox| =>
          if state.outbox[i].id == id then update(state.outbox[i]) else state.outbox[i]);
        UpdatedHolds(state.outbox, Contents, id, update, outbox);
        WriteLocalState(state.(outbox := outbox), c);
        return;
      }
      DatabaseUpdated(db, Contents, id, update);
      if id in db.outbox {
        db := db.(outbox := db.outbox[id := update(db.outbox[id])]);
      }
      Contents := c;
    }

    method IncrementOutboxAttempt(id: Id, message: Option<string>)
      requires Valid()
      modifies this
      ensures Valid() && Contents == IncrementAttempt(old(Contents), id, message)
    {
      ReplaceOutboxEvent(id, Attempted(message));
    }

    method QuarantineOutboxEvent(id: Id, message: string)
      requires Valid()
      modifies this
      ensures Valid() && Contents == Quarantine(old(Contents), id, message)
    {
      ReplaceOutboxEvent(id, Held(message));
    }

    method LoadSnapshot() returns (snapshot: Option<Snapshot>)
      requires Valid()
      ensures snapshot == Contents.snapshot
    {
      snapshot := if backend == LocalBackend then ReadLocalState(local).snapshot else db.snapshot;
    }

    method GetLastSyncedAt() returns (at: Option<Stamp>)
      requires Valid()
      ensures at == Contents.lastSynced
    {
      at := if backend == LocalBackend then ReadLocalState(local).lastSyncedAt else db.lastSyncedAt;
    }
  }

  /** What a caller sees of one operation. */
  datatype Observation = Nothing | Listed(events: seq<OutboxEvent>)

  ghost function Observed(c: Store, op: Op): Observation {
    if op.ListOp? then Listed(Listing(c, op.includeQuarantined)) else Nothing
  }

  ghost function Observations(c: Store, ops: seq<Op>): seq<Observation> {
    if ops == [] then []
    else Observations(c, ops[..|ops| - 1]) + [Observed(Run(c, ops[..|ops| - 1]), ops[|ops| - 1])]
  }

  method Perform(store: OfflineStore, op: Op) returns (seen: Observation)
    requires store.Valid() && store.Contents.counter < MAX_SAFE_INTEGER
    modifies store
    ensures store.Valid() && store.Contents == Apply(old(store.Contents), op)
    ensures seen == Observed(old(store.Contents), op)
  {
    seen := Nothing;
    match op {
      case CommitOp(snapshot, event) => store.CommitSnapshot(snapshot, event);
      case AcknowledgeOp(id, at) => store.AcknowledgeOutboxEvent(id, at);
      case AttemptOp(id, message) => store.IncrementOutboxAttempt(id, message);
      case QuarantineOp(id, reason) => store.QuarantineOutboxEvent(id, reason);
      case ListOp(includeQuarantined) =>
        var events := store.ListOutbox(includeQuarantined);
        seen := Listed(events);
    }
  }

  /**
   The same operations on any two stores with the same contents, whichever backends they run on,
   show the caller the same lists (sequence numbers included) and leave the same contents.
   */
  method RunOnBoth(a: OfflineStore, b: OfflineStore, ops: seq<Op>)
    returns (seenA: seq<Observation>, seenB: seq<Observation>)
    requires a != b && a.Valid() && b.Valid() && a.Contents == b.Contents
    requires a.Contents.counter + |ops| < MAX_SAFE_INTEGER
    modifies a, b
    ensures seenA == seenB == Observations(old(a.Contents), ops)
    ensures a.Valid() && b.Valid() && a.Contents == b.Contents == Run(old(a.Contents), ops)
  {
    seenA, seenB := [], [];
    ghost var start := a.Contents;
    for i := 0 to |ops|
      invariant a.Valid() && b.Valid() && a.Contents == b.Contents == Run(start, ops[..i])
      invariant seenA == seenB == Observations(start, ops[..i])
    {
      assert ops[..i + 1][..i] == ops[..i];
      SequencesNeverReused(start, ops[..i]);
      var sa := Perform(a, ops[i]);
      var sb := Perform(b, ops[i]);
      seenA, seenB := seenA + [sa], seenB + [sb];
    }
    assert ops[..|ops|] == ops;
  }

  // ---------------------------------------------------------------- where the sequence space ends

  ghost predicate HasNumber(events: seq<OutboxEvent>, n: int) {
    exists e | e in events :: e.localSequence == Some(n)
  }

  /** Rising numbers between lo and hi are at most as many as there are, and as many only if none is left out. */
  lemma {:induction false} Spread(events: seq<OutboxEvent>, lo: int, hi: int)
    requires Increasing(events) && lo <= hi + 1
    requires forall e | e in events :: e.localSequence.Some? && lo <= Sequence(e) <= hi
    ensures |events| <= hi - lo + 1
    ensures |events| == hi - lo + 1 <==> forall n | lo <= n <= hi :: HasNumber(events, n)
  {
    if events != [] {
      var before, last := events[..|events| - 1], events[|events| - 1];
      assert forall e :: e in events <==> e in before || e == last;
      forall e | e in before
        ensures Sequence(e) < Sequence(last)
      {
        var i :| 0 <= i < |before| && before[i] == e;
        assert events[i] == e;
      }
      Spread(before, lo, Sequence(last) - 1);
      forall n
        ensures HasNumber(events, n) <==> HasNumber(before, n) || n == Sequence(last)
      {
      }
      if forall n | lo <= n <= hi :: HasNumber(events, n) {
        assert HasNumber(events, hi) && !(exists e | e in before :: Sequence(e) == hi);
      }
    } else if lo <= hi {
      assert !HasNumber(events, lo);
    }
  }

  lemma HighestValid(events: seq<OutboxEvent>)
    ensures 0 <= Highest(events, 0) <= MAX_SAFE_INTEGER
    ensures Highest(events, 0) == MAX_SAFE_INTEGER <==> HasNumber(events, MAX_SAFE_INTEGER)
  {
    HighestBounds(events, 0);
  }

  lemma LateEvents(events: seq<OutboxEvent>, counter: int)
    requires UniqueEvents(events) && Increasing(events) && MAX_SAFE_INTEGER < counter
    requires forall e | e in events :: e.localSequence.Some? && 1 <= Sequence(e) <= counter
    ensures var late := Filter(Unsequenced, events);
            && |late| <= counter - MAX_SAFE_INTEGER
            && (|late| == counter - MAX_SAFE_INTEGER <==>
                  forall n | MAX_SAFE_INTEGER < n <= counter :: HasNumber(events, n))
  {
    var late := Filter(Unsequenced, events);
    FilterIncreasing(Unsequenced, events);
    FilterElements(Unsequenced, events);
    Spread(late, MAX_SAFE_INTEGER + 1, counter);
    forall n | MAX_SAFE_INTEGER < n <= counter
      ensures HasNumber(late, n) <==> HasNumber(events, n)
    {
    }
  }

  /**
   Where the sequence space ends. Numbers past the largest safe integer are not valid when a journal is
   read back, and are given out anew. The counter is read back as it was if and only if it is at most
   that integer, or every number from there on up to it is still waiting; otherwise it has gone back.
   */
  lemma SequenceSpaceEnds(events: seq<OutboxEvent>, counter: int)
    requires UniqueEvents(events) && Increasing(events) && 0 <= counter
    requires forall e | e in events :: e.localSequence.Some? && 1 <= Sequence(e) <= counter
    ensures var back := Normalize(events, counter).lastSequence;
            && back <= counter
            && (MAX_SAFE_INTEGER < counter ==> back == Highest(events, 0) + |Filter(Unsequenced, events)|)
            && (back == counter <==>
                  || counter <= MAX_SAFE_INTEGER
                  || forall n | MAX_SAFE_INTEGER <= n <= counter :: HasNumber(events, n))
  {
    if counter <= MAX_SAFE_INTEGER {
      FilterNone(Unsequenced, events);
      HighestBounds(events, Floor(counter));
    } else {
      HighestValid(events);
      LateEvents(events, counter);
      SortElements(OccurredBefore, Filter(Unsequenced, events));
      assert |Chronology(events)| == |multiset(Chronology(events))| == |multiset(Filter(Unsequenced, events))|;
    }
  }

  /** With nothing waiting the counter is forgotten altogether. */
  lemma CounterForgotten()
    ensures Normalize([], MAX_SAFE_INTEGER + 1).lastSequence == 0
  {
    NormalizeComplete([], MAX_SAFE_INTEGER + 1);
  }
}
