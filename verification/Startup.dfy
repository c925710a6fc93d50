/**
 What a start of the application finds and what it leaves the session with: the database, with the
 journal taken in, or the journal where the database cannot be used. Whichever it is, the session works
 on a well-formed outbox with every event of that medium, so that what is proved of the store on its
 two backends and of the link holds from there on.
 */
module Startup {
  import opened Prelude
  import opened Kitchen
  import opened Outbox
  import opened Journal
  import opened OfflineStore
  import opened JournalMigration
  import opened CrashRecovery
  import L = SyncLink

  // ---------------------------------------------------------------- events as a store

  /** Events that need only be sorted to be an outbox. */
  ghost predicate Sortable(list: seq<OutboxEvent>, counter: int) {
    && UniqueEvents(list) && 0 <= counter <= MAX_SAFE_INTEGER
    && (forall e | e in list :: Complete(e) && Sequence(e) <= counter)
    && (forall a, b | a in list && b in list && a != b :: Sequence(a) != Sequence(b))
  }

  ghost function StoreOf(snapshot: Option<Snapshot>, list: seq<OutboxEvent>, counter: int, at: Option<Stamp>): Store {
    Store(snapshot, SortOutbox(list), counter, at)
  }

  lemma SortedIsStore(snapshot: Option<Snapshot>, list: seq<OutboxEvent>, counter: int, at: Option<Stamp>)
    requires Sortable(list, counter)
    ensures var c := StoreOf(snapshot, list, counter, at);
            WellFormed(c) && Holds(list, c.events) && EventIds(c.events) == EventIds(list)
  {
    SortedJournal(list);
    var events := SortOutbox(list);
    forall i, j | 0 <= i < j < |events|
      ensures Sequence(events[i]) < Sequence(events[j])
    {
      assert SequenceBefore(events[i], events[j]) && events[i] in list && events[j] in list;
    }
  }

  lemma {:induction false} ListingOf(outbox: map<Id, OutboxEvent>) returns (events: seq<OutboxEvent>)
    requires Keyed(outbox)
    ensures Lists(events, outbox)
    decreases outbox.Keys
  {
    if outbox == map[] {
      events := [];
    } else {
      var id :| id in outbox;
      var rest := outbox - {id};
      var others := ListingOf(rest);
      assert forall i | 0 <= i < |others| :: others[i] in others && others[i].id in rest;
      events := others + [outbox[id]];
      assert forall k | k in outbox :: k == id || (k in rest && outbox[k] == rest[k] && rest[k] in others);
    }
  }

  /** A database whose events are numbered holds them in the order of their numbers. */
  lemma NumberedIsStore(db: Database) returns (c: Store)
    requires Numbered(db.outbox, db.lastSequence.GetOr(0))
    ensures WellFormed(c) && DatabaseHolds(db, c) && EventIds(c.events) == db.outbox.Keys
  {
    var listed := ListingOf(db.outbox);
    SortedIsStore(db.snapshot, listed, db.lastSequence.GetOr(0), db.lastSyncedAt);
    c := StoreOf(db.snapshot, listed, db.lastSequence.GetOr(0), db.lastSyncedAt);
    ListedIds(listed, db.outbox);
  }

  /** The events are those of the two media, each once, and each is what its copies say. */
  ghost predicate TakenTogether(events: seq<OutboxEvent>, stored: seq<OutboxEvent>, journal: seq<OutboxEvent>) {
    && EventIds(events) == EventIds(stored) + EventIds(journal)
    && (forall s, j | s in stored && j in journal && s.id == j.id :: exists e | e in events :: Combined(e, s, j))
    && (forall s | s in stored && s.id !in EventIds(journal) ::
          exists e | e in events :: KeptAs(e, s) && (!Unsequenced(s) ==> e.localSequence == s.localSequence))
    && (forall j | j in journal && j.id !in EventIds(stored) :: exists e | e in events :: KeptAs(e, j))
  }

  lemma HeldTogether(
    outbox: map<Id, OutboxEvent>, events: seq<OutboxEvent>, stored: seq<OutboxEvent>, journal: seq<OutboxEvent>)
    requires Combines(outbox, stored, journal) && forall id | id in outbox :: outbox[id] in events
    requires EventIds(events) == EventIds(stored) + EventIds(journal)
    ensures TakenTogether(events, stored, journal)
  {
    hide Combined, KeptAs, Unsequenced;
    forall s, j | s in stored && j in journal && s.id == j.id
      ensures exists e | e in events :: Combined(e, s, j)
    {
      assert outbox[s.id] in events;
    }
    forall s | s in stored && s.id !in EventIds(journal)
      ensures exists e | e in events :: KeptAs(e, s) && (!Unsequenced(s) ==> e.localSequence == s.localSequence)
    {
      assert outbox[s.id] in events;
    }
    forall j | j in journal && j.id !in EventIds(stored)
      ensures exists e | e in events :: KeptAs(e, j)
    {
      assert outbox[j.id] in events;
    }
  }

  /** A migration leaves a database that holds a well-formed outbox: the events of both media taken together. */
  lemma MigratedIsStore(db: Database, stored: seq<OutboxEvent>, journal: LocalState) returns (c: Store)
    requires Migratable(db, stored, journal) && Absorb(db, stored, journal).Ok?
    ensures WellFormed(c) && DatabaseHolds(Absorb(db, stored, journal).value, c)
    ensures EventIds(c.events) == db.outbox.Keys + EventIds(journal.outbox)
    ensures TakenTogether(c.events, stored, journal.outbox)
  {
    hide Numbered, WellFormed, Combines, TakenTogether, Absorb;
    var once := Migrated(db, stored, journal);
    c := NumberedIsStore(once);
    ListedIds(stored, db.outbox);
    HeldTogether(once.outbox, c.events, stored, journal.outbox);
  }

  function WrittenEvents(local: LocalStorage): seq<OutboxEvent> {
    if local.state.Some? then local.state.value.outbox else local.legacyOutbox.GetOr([])
  }

  /** A journal's ids differ, and so do the numbers it has. */
  ghost predicate SoundJournal(local: LocalStorage) {
    && UniqueEvents(WrittenEvents(local)) && DistinctNumbers(WrittenEvents(local))
    && ReadLocalState(local).lastOutboxSequence <= MAX_SAFE_INTEGER
  }

  lemma NormalizedCounter(written: seq<OutboxEvent>, floor: int)
    ensures 0 <= Normalize(written, floor).lastSequence
  {
    HighestBounds(written, Floor(floor));
  }

  lemma NormalizedSortable(written: seq<OutboxEvent>, floor: int)
    requires UniqueEvents(written) && DistinctNumbers(written)
    requires Normalize(written, floor).lastSequence <= MAX_SAFE_INTEGER
    ensures Sortable(Normalize(written, floor).events, Normalize(written, floor).lastSequence)
    ensures EventIds(Normalize(written, floor).events) == EventIds(written)
  {
    hide Normalize, NormalEvent;
    var n := Normalize(written, floor);
    LegacyIds(written, floor);
    NormalEvents(written, floor);
    NormalizedCounter(written, floor);
    forall e' | e' in n.events
      ensures Complete(e') && Sequence(e') <= n.lastSequence
    {
      var e :| e in written && e' == NormalEvent(e, Assign(Chronology(written), Highest(written, Floor(floor))));
      var same := NormalNumber(written, floor, e);
    }
    forall a, b | a in n.events && b in n.events && a != b
      ensures Sequence(a) != Sequence(b)
    {
      var x :| x in written && a == NormalEvent(x, Assign(Chronology(written), Highest(written, Floor(floor))));
      var y :| y in written && b == NormalEvent(y, Assign(Chronology(written), Highest(written, Floor(floor))));
      NormalNumbersDiffer(written, floor, x, y);
    }
  }

  /** And a journal, once its unnumbered events are numbered, holds one too. */
  lemma JournalIsStore(local: LocalStorage) returns (c: Store)
    requires SoundJournal(local)
    ensures WellFormed(c) && LocalHolds(ReadLocalState(local), c)
    ensures EventIds(c.events) == EventIds(WrittenEvents(local))
  {
    var state := ReadLocalState(local);
    var floor := if local.state.Some? then local.state.value.lastOutboxSequence else 0;
    NormalizedSortable(WrittenEvents(local), floor);
    SortedIsStore(state.snapshot, state.outbox, state.lastOutboxSequence, state.lastSyncedAt);
    c := StoreOf(state.snapshot, state.outbox, state.lastOutboxSequence, state.lastSyncedAt);
  }

  // ---------------------------------------------------------------- choosing the backend

  ghost predicate Startable(d: Disk) {
    && Keyed(d.db.outbox) && SoundJournal(d.local)
    && if HasJournal(d.local) then
         forall stored | Lists(stored, d.db.outbox) :: Migratable(d.db, stored, ReadLocalState(d.local))
       else Numbered(d.db.outbox, d.db.lastSequence.GetOr(0))
  }

  lemma LastPoint(d: Disk, stored: seq<OutboxEvent>)
    requires TakesJournal(d) && HasJournal(d.local)
    ensures var db', points := Absorb(d.db, stored, ReadLocalState(d.local)), CrashPoints(d, stored);
            db'.Ok? && points[|points| - 1].db == db'.value
  {
    hide ReadLocalState, ReconcileSnapshots, MergedEvents;
    var db' := Absorb(d.db, stored, ReadLocalState(d.local));
    assert CrashPoints(d, stored)[5] == DurableWrites(d.local, db'.value)[4];
  }

  lemma MigratedContents(d: Disk, stored: seq<OutboxEvent>, end: Disk) returns (c: Store)
    requires Startable(d) && Lists(stored, d.db.outbox) && TakesJournal(d)
    requires end == CrashPoints(d, stored)[|CrashPoints(d, stored)| - 1]
    ensures WellFormed(c) && DatabaseHolds(end.db, c)
    ensures EventIds(c.events) == d.db.outbox.Keys + EventIds(WrittenEvents(d.local))
  {
    hide Numbered, Migratable, WellFormed, DatabaseHolds, Keyed, Lists, SoundJournal, Absorb, ReadLocalState;
    if HasJournal(d.local) {
      LastPoint(d, stored);
      c := MigratedIsStore(d.db, stored, ReadLocalState(d.local));
      WrittenIds(d.local);
    } else {
      c := NumberedIsStore(d.db);
    }
  }

  lemma WrittenIds(local: LocalStorage)
    ensures EventIds(ReadLocalState(local).outbox) == EventIds(WrittenEvents(local))
  {
    LegacyIds(WrittenEvents(local), if local.state.Some? then local.state.value.lastOutboxSequence else 0);
  }

  /** What the session works on: everything if the database takes the journal in, else the journal. */
  method SelectBackend(profile: BrowserProfile, opens: bool) returns (store: OfflineStore)
    requires Startable(profile.disk)
    modifies profile
    ensures fresh(store) && store.Valid() && store.local == profile.disk.local && store.db == profile.disk.db
    ensures store.backend == if opens && TakesJournal(old(profile.disk)) then DatabaseBackend else LocalBackend
    ensures var journal := EventIds(WrittenEvents(old(profile.disk.local)));
            if store.backend == DatabaseBackend then
              && EventIds(store.Contents.events) == old(profile.disk.db.outbox).Keys + journal
              && profile.disk.local == LocalStorage(None, None, None, None)
            else EventIds(store.Contents.events) == journal && profile.disk == old(profile.disk)
    ensures L.Invariant(L.Resumed(store.Contents))
  {
    hide WellFormed, DatabaseHolds, LocalHolds, L.Invariant, L.Resumed, CrashPoints, TakesJournal, SoundJournal;
    ghost var c: Store;
    ghost var d := profile.disk;
    if opens {
      var done, stored := profile.MigrateLocalJournal();
      if done.Ok? {
        c := MigratedContents(d, stored, profile.disk);
        L.ResumedInvariant(c);
        store := new OfflineStore.Open(DatabaseBackend, profile.disk.local, profile.disk.db, c);
        return;
      }
    }
    c := JournalIsStore(d.local);
    L.ResumedInvariant(c);
    store := new OfflineStore.Open(LocalBackend, profile.disk.local, profile.disk.db, c);
  }

  /** A session on the database leaves a profile the next start can open again, whatever it did. */
  lemma SessionStartsAgain(local: LocalStorage, db: Database, c: Store)
    requires WellFormed(c) && DatabaseHolds(db, c) && local == LocalStorage(None, None, None, None)
    ensures Startable(Disk(local, db))
  {
    forall a, b | a in db.outbox && b in db.outbox && a != b
      ensures Sequence(db.outbox[a]) != Sequence(db.outbox[b])
    {
      var i :| 0 <= i < |c.events| && c.events[i] == db.outbox[a];
      var j :| 0 <= j < |c.events| && c.events[j] == db.outbox[b];
    }
    NormalizeComplete([], 0);
  }
}
