/**
 The journal migration as durable writes: one transaction, then one removal per source key. A
 crash may fall between any two of them, and the next start runs the migration again.
 */
module CrashRecovery {
  import opened Prelude
  import opened StableSort
  import opened Kitchen
  import opened Outbox
  import opened Journal
  import opened OfflineStore
  import opened JournalMigration

  /** Everything that survives a crash. */
  datatype Disk = Disk(local: LocalStorage, db: Database)

  predicate HasJournal(local: LocalStorage) {
    local.state.Some? || local.legacySnapshot.Some? || local.legacyOutbox.Some? || local.legacySyncedAt.Some?
  }

  function NewerTimestamp(left: Option<Stamp>, right: Option<Stamp>): Option<Stamp> {
    if left.None? then right
    else if right.None? then left
    else Some(Max(right.value, left.value))
  }

  /** The migration transaction; `stored` is what reading the whole outbox store listed. */
  function Absorb(db: Database, stored: seq<OutboxEvent>, journal: LocalState): Result<Database, MigrationError> {
    var merged := MergedEvents(stored, db.lastSequence, journal.outbox);
    var snapshot := ReconcileSnapshots(db.snapshot, journal.snapshot);
    if snapshot.Err? then Err(snapshot.error)
    else
      Ok(Database(
        snapshot.value, merged.byId, Some(Max(merged.last, journal.lastOutboxSequence)),
        NewerTimestamp(db.lastSyncedAt, journal.lastSyncedAt)))
  }

  /** The time of the last synchronization is the later of the two, where there are two. */
  lemma LaterSyncKept(db: Database, stored: seq<OutboxEvent>, journal: LocalState)
    requires Absorb(db, stored, journal).Ok?
    ensures var at := Absorb(db, stored, journal).value.lastSyncedAt;
            && (at.None? <==> db.lastSyncedAt.None? && journal.lastSyncedAt.None?)
            && (at.Some? ==> at == db.lastSyncedAt || at == journal.lastSyncedAt)
            && (db.lastSyncedAt.Some? ==> db.lastSyncedAt.value <= at.value)
            && (journal.lastSyncedAt.Some? ==> journal.lastSyncedAt.value <= at.value)
  {
    hide MergedEvents, ReconcileSnapshots;
  }

  /** There is nothing to take in, or the snapshots of the two media are of one outlet. */
  predicate TakesJournal(d: Disk) {
    !HasJournal(d.local) || ReconcileSnapshots(d.db.snapshot, ReadLocalState(d.local).snapshot).Ok?
  }

  // ---------------------------------------------------------------- the transaction a second time

  lemma MergeTwice(stored: OutboxEvent, journal: OutboxEvent, n: int)
    ensures var once := MergeDuplicate(stored, journal); MergeDuplicate(once, journal) == once
    ensures MergeDuplicate(Stamped(journal, n), journal) == Stamped(journal, n)
  {
  }

  /** Every event of the journal is in the store, and merging it again would change nothing. */
  ghost predicate Absorbed(outbox: map<Id, OutboxEvent>, journal: seq<OutboxEvent>) {
    forall e | e in journal :: e.id in outbox && MergeDuplicate(outbox[e.id], e) == outbox[e.id]
  }

  lemma {:induction false} AbsorbedIsFixed(m: Merge, journal: seq<OutboxEvent>)
    requires Absorbed(m.byId, journal)
    ensures MergeAll(m, journal) == m
  {
    if journal != [] {
      AbsorbedIsFixed(m, journal[..|journal| - 1]);
      var e := journal[|journal| - 1];
      assert e in journal;
      assert m.byId[e.id := m.byId[e.id]] == m.byId;
    }
  }

  /** A merge absorbs its journal. */
  lemma MergeAbsorbs(m: Merge, journal: seq<OutboxEvent>)
    requires UniqueEvents(journal)
    ensures Absorbed(MergeAll(m, journal).byId, journal)
  {
    forall e | e in journal
      ensures var r := MergeAll(m, journal).byId; e.id in r && MergeDuplicate(r[e.id], e) == r[e.id]
    {
      var i :| 0 <= i < |journal| && journal[i] == e;
      DecidedAt(m, journal, i);
      var before := MergeAll(m, journal[..i]);
      if e.id in before.byId {
        MergeTwice(before.byId[e.id], e, 0);
      } else {
        MergeTwice(e, e, NextSequence(before, e));
      }
    }
  }

  /** How far the counter can move: one number per event beyond the highest number already in use. */
  lemma {:induction false} CounterBound(m: Merge, journal: seq<OutboxEvent>, bound: int)
    requires m.last <= bound && forall e | e in journal :: IsValidSequence(e.localSequence) ==> Sequence(e) <= bound
    ensures MergeAll(m, journal).last <= bound + |journal|
  {
    if journal != [] {
      CounterBound(m, journal[..|journal| - 1], bound);
      assert journal[|journal| - 1] in journal;
    }
  }

  /** An outbox as the migration, or the store it feeds, leaves it. */
  ghost predicate Numbered(outbox: map<Id, OutboxEvent>, counter: int) {
    && Keyed(outbox)
    && (forall id | id in outbox :: Complete(outbox[id]) && Sequence(outbox[id]) <= counter)
    && (forall a, b | a in outbox && b in outbox && a != b :: Sequence(outbox[a]) != Sequence(outbox[b]))
    && 0 <= counter <= MAX_SAFE_INTEGER
  }

  lemma StoredIsStart(outbox: map<Id, OutboxEvent>, counter: int, stored: seq<OutboxEvent>)
    requires Numbered(outbox, counter) && Lists(stored, outbox)
    ensures StartMerge(Normalize(stored, counter)).byId == outbox
    ensures StartMerge(Normalize(stored, counter)).last == counter
  {
    NormalizeComplete(stored, counter);
    HighestBounds(stored, Floor(counter));
    ByIdLookup(stored);
    var byId := ById(stored);
    assert forall id | id in outbox :: outbox[id] in stored && id in byId && byId[id] == outbox[id];
    assert forall id | id in byId :: byId[id] in stored && id in outbox;
    assert byId == outbox;
  }

  /** Absorbing a journal already absorbed changes no event, no number and not the counter. */
  lemma AbsorbedAgain(
    outbox: map<Id, OutboxEvent>, counter: Option<int>, stored: seq<OutboxEvent>, journal: seq<OutboxEvent>)
    requires Numbered(outbox, counter.GetOr(0)) && Lists(stored, outbox) && Absorbed(outbox, journal)
    ensures MergedEvents(stored, counter, journal).byId == outbox
    ensures MergedEvents(stored, counter, journal).last == counter.GetOr(0)
  {
    StoredIsStart(outbox, counter.GetOr(0), stored);
    SortElements(SequenceBefore, journal);
    AbsorbedIsFixed(StartMerge(Normalize(stored, counter.GetOr(0))), SortOutbox(journal));
  }

  /** Room for the migration to number every event with safe integers. */
  ghost predicate Roomy(
    stored: seq<OutboxEvent>, lastSequence: Option<int>, journal: seq<OutboxEvent>, journalLast: int) {
    && 0 <= journalLast <= MAX_SAFE_INTEGER
    && Max(Highest(stored, Floor(lastSequence.GetOr(0))), Highest(journal, Floor(journalLast)))
         + |stored| + |journal| <= MAX_SAFE_INTEGER
  }

  lemma MergedBound(stored: seq<OutboxEvent>, lastSequence: Option<int>, journal: seq<OutboxEvent>, journalLast: int)
    requires Roomy(stored, lastSequence, journal, journalLast)
    ensures MergedEvents(stored, lastSequence, journal).last <= MAX_SAFE_INTEGER
  {
    var floor := lastSequence.GetOr(0);
    var sorted := SortOutbox(journal);
    SortElements(SequenceBefore, journal);
    HighestBounds(journal, Floor(journalLast));
    FilterLength(Unsequenced, stored);
    var bound := Max(Highest(stored, Floor(floor)), Highest(journal, Floor(journalLast))) + |stored|;
    forall e | e in sorted && IsValidSequence(e.localSequence)
      ensures Sequence(e) <= bound
    {
      assert ValidOrZero(e) == Sequence(e);
    }
    CounterBound(StartMerge(Normalize(stored, floor)), sorted, bound);
  }

  lemma SoundNumbered(m: Merge, counter: int)
    requires Sound(m) && m.last <= counter <= MAX_SAFE_INTEGER
    ensures Numbered(m.byId, counter)
  {
  }

  /** The merge takes in the whole journal and leaves safe, distinct numbers below the new counter. */
  lemma MigrationAbsorbs(
    stored: seq<OutboxEvent>, lastSequence: Option<int>, journal: seq<OutboxEvent>, journalLast: int)
    requires UniqueEvents(stored) && DistinctNumbers(stored) && UniqueEvents(journal)
    requires Roomy(stored, lastSequence, journal, journalLast)
    ensures var r := MergedEvents(stored, lastSequence, journal);
            && Numbered(r.byId, Max(r.last, journalLast)) && Absorbed(r.byId, journal)
            && r.byId.Keys == EventIds(stored) + EventIds(journal)
  {
    var r := MergedEvents(stored, lastSequence, journal);
    MigrationKeepsNumbers(stored, lastSequence, journal);
    MergedBound(stored, lastSequence, journal, journalLast);
    SoundNumbered(r, Max(r.last, journalLast));
    SortedJournal(journal);
    MergeAbsorbs(StartMerge(Normalize(stored, lastSequence.GetOr(0))), SortOutbox(journal));
  }

  lemma ListedIds(stored: seq<OutboxEvent>, outbox: map<Id, OutboxEvent>)
    requires Lists(stored, outbox) && Keyed(outbox)
    ensures EventIds(stored) == outbox.Keys
  {
  }

  // ---------------------------------------------------------------- snapshots a second time

  /** Same projections, whatever the order of the lists. */
  ghost predicate SameSnapshot(a: Option<Snapshot>, b: Option<Snapshot>) {
    || a == b
    || (a.Some? && b.Some?
        && multiset(a.value.orders) == multiset(b.value.orders)
        && multiset(a.value.Tickets()) == multiset(b.value.Tickets())
        && b.value == a.value.(orders := b.value.orders, tickets := b.value.tickets)
        && a.value.tickets.Some? == b.value.tickets.Some?)
  }

  ghost predicate DistinctEntities(s: Option<Snapshot>) {
    s.Some? ==> UniqueIds(s.value.orders) && UniqueIds(s.value.Tickets())
  }

  /** Lists in the order a reconciliation sorts them into. */
  ghost predicate InCreationOrder(s: Snapshot) {
    Sorted(CreatedBefore<OrderDetail>, s.orders) && Sorted(CreatedBefore<TicketDetail>, s.Tickets())
  }

  lemma ReconcileWithSelf<D(!new)>(list: seq<Entity<D>>)
    requires UniqueIds(list)
    ensures Reconciled(list, list) == Sort(CreatedBefore, list)
    ensures multiset(Reconciled(list, list)) == multiset(list)
    ensures Reconciled(list, list) == list <==> Sorted(CreatedBefore<D>, list)
  {
    var le := CreatedBefore<D>;
    ToMapUnique(list);
    forall e | e in list
      ensures Settled(list, e)
    {
    }
    SettledIsFixed(list, list);
    assert TotalPreorder(le);
    SortSorted(le, list);
    if Sorted(le, list) {
      SortFixesSorted(le, list);
    }
  }

  lemma FirstSnapshotTwice(local: Snapshot)
    requires DistinctEntities(Some(local))
    ensures var twice := ReconcileSnapshots(Some(local), Some(local));
            && twice.Ok? && SameSnapshot(Some(local), twice.value)
            && (twice.value == Some(local) <==> InCreationOrder(local))
  {
    ReconcileWithSelf(local.orders);
    ReconcileWithSelf(local.Tickets());
  }

  lemma MergedSnapshotTwice(stored: Snapshot, local: Snapshot)
    requires DistinctEntities(Some(local)) && ReconcileSnapshots(Some(stored), Some(local)).Ok?
    ensures var once := ReconcileSnapshots(Some(stored), Some(local)).value;
            ReconcileSnapshots(once, Some(local)) == Ok(once)
  {
    hide Reconciled, UniqueIds;
    ReconcileTwice(stored.orders, local.orders);
    ReconcileTwice(stored.Tickets(), local.Tickets());
  }

  /**
   Reconciling with the same local snapshot again never changes a projection. It changes nothing at
   all exactly when there was a stored snapshot to merge with, or no local one, or the local lists
   were already in creation order: a first migration into an empty database stores the journal's
   snapshot as it is, newest order first, and only the second sorts it.
   */
  lemma ReconcileSnapshotsTwice(stored: Option<Snapshot>, local: Option<Snapshot>)
    requires DistinctEntities(local)
    requires ReconcileSnapshots(stored, local).Ok?
    ensures var once := ReconcileSnapshots(stored, local).value;
            var twice := ReconcileSnapshots(once, local);
            && twice.Ok? && SameSnapshot(once, twice.value)
            && (twice.value == once <==> stored.Some? || local.None? || InCreationOrder(local.value))
  {
    if local.Some? {
      if stored.None? {
        FirstSnapshotTwice(local.value);
      } else {
        MergedSnapshotTwice(stored.value, local.value);
      }
    }
  }

  // ---------------------------------------------------------------- rerunning the migration

  /** What the migration relies on: ids are unique, stored numbers distinct, and numbers not used up. */
  ghost predicate Migratable(db: Database, stored: seq<OutboxEvent>, journal: LocalState) {
    && Keyed(db.outbox) && Lists(stored, db.outbox) && DistinctNumbers(stored)
    && UniqueEvents(journal.outbox) && DistinctEntities(journal.snapshot)
    && Roomy(stored, db.lastSequence, journal.outbox, journal.lastOutboxSequence)
  }

  lemma Migrated(db: Database, stored: seq<OutboxEvent>, journal: LocalState) returns (db': Database)
    requires Migratable(db, stored, journal) && Absorb(db, stored, journal).Ok?
    ensures Absorb(db, stored, journal) == Ok(db')
    ensures db'.lastSequence.Some? && journal.lastOutboxSequence <= db'.lastSequence.value
    ensures Numbered(db'.outbox, db'.lastSequence.value) && Absorbed(db'.outbox, journal.outbox)
    ensures db'.outbox.Keys == db.outbox.Keys + EventIds(journal.outbox)
    ensures Combines(db'.outbox, stored, journal.outbox)
  {
    db' := Absorb(db, stored, journal).value;
    MigrationCombines(stored, db.lastSequence, journal.outbox);
    MigrationAbsorbs(stored, db.lastSequence, journal.outbox, journal.lastOutboxSequence);
    ListedIds(stored, db.outbox);
  }

  /** A database that has absorbed a journal changes in nothing but, perhaps, its snapshot. */
  lemma OnlyTheSnapshot(once: Database, again: seq<OutboxEvent>, journal: LocalState)
    requires once.lastSequence.Some? && Numbered(once.outbox, once.lastSequence.value) && Lists(again, once.outbox)
    requires Absorbed(once.outbox, journal.outbox) && journal.lastOutboxSequence <= once.lastSequence.value
    requires NewerTimestamp(once.lastSyncedAt, journal.lastSyncedAt) == once.lastSyncedAt
    ensures var snapshot := ReconcileSnapshots(once.snapshot, journal.snapshot);
            Absorb(once, again, journal)
            == if snapshot.Err? then Err(snapshot.error) else Ok(once.(snapshot := snapshot.value))
  {
    AbsorbedAgain(once.outbox, once.lastSequence, again, journal.outbox);
  }

  lemma AbsorbedFields(db: Database, stored: seq<OutboxEvent>, journal: LocalState)
    requires Absorb(db, stored, journal).Ok?
    ensures var once := Absorb(db, stored, journal).value;
            && NewerTimestamp(once.lastSyncedAt, journal.lastSyncedAt) == once.lastSyncedAt
            && ReconcileSnapshots(db.snapshot, journal.snapshot) == Ok(once.snapshot)
  {
  }

  /**
   Running the migration again on the database it produced, with the journal it was produced from,
   changes no event, no sequence number, not the counter, not the synchronization time and no
   projection. So an event stays what its two copies said: refused if either was, with the journal's
   content and the larger number of attempts.
   */
  lemma MigrationTwice(db: Database, stored: seq<OutboxEvent>, journal: LocalState, again: seq<OutboxEvent>)
    requires Migratable(db, stored, journal) && Absorb(db, stored, journal).Ok?
    requires Lists(again, Absorb(db, stored, journal).value.outbox)
    ensures var once := Absorb(db, stored, journal).value;
            var twice := Absorb(once, again, journal);
            && Combines(once.outbox, stored, journal.outbox)
            && twice.Ok?
            && twice.value == once.(snapshot := twice.value.snapshot)
            && SameSnapshot(once.snapshot, twice.value.snapshot)
            && (twice.value == once <==>
                  db.snapshot.Some? || journal.snapshot.None? || InCreationOrder(journal.snapshot.value))
  {
    var once := Migrated(db, stored, journal);
    AbsorbedFields(db, stored, journal);
    OnlyTheSnapshot(once, again, journal);
    ReconcileSnapshotsTwice(db.snapshot, journal.snapshot);
  }

  // ---------------------------------------------------------------- the durable writes, one by one

  /** The journal after the first `removed` of its four keys are gone. */
  function Removed(local: LocalStorage, removed: nat): LocalStorage {
    LocalStorage(
      if removed >= 1 then None else local.state,
      if removed >= 2 then None else local.legacySnapshot,
      if removed >= 3 then None else local.legacyOutbox,
      if removed >= 4 then None else local.legacySyncedAt)
  }

  /** The disk after the transaction and after each removal. */
  function DurableWrites(local: LocalStorage, db: Database): seq<Disk> {
    seq(5, i requires 0 <= i < 5 => Disk(Removed(local, i), db))
  }

  /** Every disk a crash during one migration can leave behind. */
  function CrashPoints(d: Disk, stored: seq<OutboxEvent>): seq<Disk> {
    if !HasJournal(d.local) then [d]
    else
      var db' := Absorb(d.db, stored, ReadLocalState(d.local));
      if db'.Err? then [d] else [d] + DurableWrites(d.local, db'.value)
  }

  lemma LegacyIds(events: seq<OutboxEvent>, floor: int)
    ensures EventIds(Normalize(events, floor).events) == EventIds(events)
    ensures UniqueEvents(events) ==> UniqueEvents(Normalize(events, floor).events)
  {
    var n := Normalize(events, floor).events;
    assert forall i | 0 <= i < |events| :: n[i].id == events[i].id && n[i] in n && events[i] in events;
  }

  lemma AfterSomeRemovals(d: Disk, local: LocalStorage, db: Database, c: Disk) returns (removed: nat)
    requires c in [d] + DurableWrites(local, db) && c != d
    ensures removed <= 4 && c == Disk(Removed(local, removed), db)
  {
    var points := [d] + DurableWrites(local, db);
    var k :| 0 <= k < |points| && points[k] == c;
    removed := k - 1;
  }

  /** A crash point past the transaction has the migrated database and some of the keys left. */
  lemma PastTheTransaction(d: Disk, stored: seq<OutboxEvent>, c: Disk) returns (removed: nat)
    requires c in CrashPoints(d, stored) && c != d
    ensures Absorb(d.db, stored, ReadLocalState(d.local)) == Ok(c.db)
    ensures removed <= 4 && c.local == Removed(d.local, removed)
  {
    var db' := Absorb(d.db, stored, ReadLocalState(d.local));
    removed := AfterSomeRemovals(d, d.local, db'.value, c);
  }

  function OrdersOf(s: Option<Snapshot>): seq<Order> {
    if s.Some? then s.value.orders else []
  }

  function TicketsOf(s: Option<Snapshot>): seq<Ticket> {
    if s.Some? then s.value.Tickets() else []
  }

  /** Every order and ticket of the first snapshot is in the second, in the same version or a newer one. */
  ghost predicate NothingOlder(a: Option<Snapshot>, b: Option<Snapshot>) {
    && (forall o | o in OrdersOf(a) :: Shown(OrdersOf(b), o))
    && (forall t | t in TicketsOf(a) :: Shown(TicketsOf(b), t))
  }

  lemma NothingOlderThanItself(s: Option<Snapshot>)
    ensures NothingOlder(s, s) && NothingOlder(None, s)
  {
    forall o | o in OrdersOf(s)
      ensures Shown(OrdersOf(s), o)
    {
    }
    forall t | t in TicketsOf(s)
      ensures Shown(TicketsOf(s), t)
    {
    }
  }

  lemma ReconciledNotOlder(stored: Option<Snapshot>, local: Option<Snapshot>)
    requires DistinctEntities(stored) && DistinctEntities(local) && ReconcileSnapshots(stored, local).Ok?
    ensures var next := ReconcileSnapshots(stored, local).value;
            NothingOlder(stored, next) && NothingOlder(local, next) && DistinctEntities(next)
  {
    hide Reconciled, Shown, UniqueIds, Wins, ToMap, Sorted, LastOfItsId;
    if stored.Some? && local.Some? {
      ReconciledHolds(stored.value.orders, local.value.orders);
      ReconciledHolds(stored.value.Tickets(), local.value.Tickets());
      ReconciledShows(stored.value.orders, local.value.orders);
      ReconciledShows(stored.value.Tickets(), local.value.Tickets());
    } else {
      NothingOlderThanItself(stored);
      NothingOlderThanItself(local);
    }
  }

  /**
   At every crash point each operation is in the database or still in the journal, its event as well
   as the orders and tickets it made, and once the first source key is gone the database has them all.
   */
  lemma NoOperationLost(d: Disk, stored: seq<OutboxEvent>, c: Disk)
    requires Migratable(d.db, stored, ReadLocalState(d.local)) && c in CrashPoints(d, stored)
    ensures forall id | id in d.db.outbox.Keys + EventIds(ReadLocalState(d.local).outbox) ::
              id in c.db.outbox || id in EventIds(ReadLocalState(c.local).outbox)
    ensures c.local != d.local ==> c.db.outbox.Keys == d.db.outbox.Keys + EventIds(ReadLocalState(d.local).outbox)
    ensures c == d || (
              DistinctEntities(d.db.snapshot) ==>
                && NothingOlder(d.db.snapshot, c.db.snapshot)
                && NothingOlder(ReadLocalState(d.local).snapshot, c.db.snapshot))
  {
    if c != d {
      var journal := ReadLocalState(d.local);
      var removed := PastTheTransaction(d, stored, c);
      var db' := Migrated(d.db, stored, journal);
      AbsorbedFields(d.db, stored, journal);
      if DistinctEntities(d.db.snapshot) {
        ReconciledNotOlder(d.db.snapshot, journal.snapshot);
      }
    }
  }

  /** The crash points at which a stale legacy outbox is all that is left to read. */
  ghost predicate StaleJournal(d: Disk, c: Disk) {
    d.local.state.Some? && c.local.state.None? && c.local.legacyOutbox.Some?
  }

  lemma WhatIsLeft(local: LocalStorage, removed: nat)
    requires var db := Database(None, map[], None, None);
             !StaleJournal(Disk(local, db), Disk(Removed(local, removed), db))
    ensures var journal, left := ReadLocalState(local), ReadLocalState(Removed(local, removed));
            || (left.outbox == journal.outbox && left.lastOutboxSequence == journal.lastOutboxSequence)
            || (left.outbox == [] && left.lastOutboxSequence == 0)
  {
  }

  /**
   Starting again after a crash in the middle of the removals: unless the version-2 key is gone and a
   stale legacy outbox is not, the rerun finds every event, number and counter as the first run left
   them.
   */
  lemma RestartChangesNoEvent(d: Disk, stored: seq<OutboxEvent>, c: Disk, again: seq<OutboxEvent>)
    requires Migratable(d.db, stored, ReadLocalState(d.local)) && c in CrashPoints(d, stored) && c != d
    requires Lists(again, c.db.outbox) && !StaleJournal(d, c)
    ensures var left := ReadLocalState(c.local);
            var r := MergedEvents(again, c.db.lastSequence, left.outbox);
            r.byId == c.db.outbox && Some(Max(r.last, left.lastOutboxSequence)) == c.db.lastSequence
  {
    var removed := PastTheTransaction(d, stored, c);
    var db' := Migrated(d.db, stored, ReadLocalState(d.local));
    WhatIsLeft(d.local, removed);
    AbsorbedAgain(db'.outbox, db'.lastSequence, again, ReadLocalState(c.local).outbox);
  }

  /** What remains after some removals is the journal's own snapshot and time, none, or stale legacy ones. */
  lemma WhatElseIsLeft(local: LocalStorage, removed: nat)
    ensures var journal, left := ReadLocalState(local), ReadLocalState(Removed(local, removed));
            && (left.snapshot == journal.snapshot || left.snapshot == None
                || (local.state.Some? && removed >= 1 && left.snapshot == Removed(local, removed).legacySnapshot))
            && (left.lastSyncedAt == journal.lastSyncedAt || left.lastSyncedAt == None
                || (local.state.Some? && removed >= 1 && left.lastSyncedAt == Removed(local, removed).legacySyncedAt))
  {
    hide Normalize;
  }

  /** Version-2 key gone, and the stale snapshot or time of an older client still there. */
  predicate StaleSnapshot(d: Disk, c: Disk) {
    d.local.state.Some? && c.local.state.None? && c.local.legacySnapshot.Some?
  }

  predicate StaleTime(d: Disk, c: Disk) {
    d.local.state.Some? && c.local.state.None? && c.local.legacySyncedAt.Some?
  }

  /**
   The restarted run makes no order or ticket older. It changes none at all, and not the time either,
   unless it reads stale ones that an older client had left.
   */
  lemma RestartMakesNothingOlder(d: Disk, stored: seq<OutboxEvent>, c: Disk)
    requires Migratable(d.db, stored, ReadLocalState(d.local)) && c in CrashPoints(d, stored) && c != d
    ensures var left := ReadLocalState(c.local);
            var next := ReconcileSnapshots(c.db.snapshot, left.snapshot);
            && (!StaleSnapshot(d, c) ==> next.Ok? && SameSnapshot(c.db.snapshot, next.value))
            && (next.Ok? && DistinctEntities(d.db.snapshot) && DistinctEntities(left.snapshot) ==>
                  NothingOlder(c.db.snapshot, next.value))
            && (!StaleTime(d, c) ==> NewerTimestamp(c.db.lastSyncedAt, left.lastSyncedAt) == c.db.lastSyncedAt)
  {
    hide MergedEvents, Migratable, CrashPoints, Absorb, ReadLocalState, NothingOlder;
    var journal, left := ReadLocalState(d.local), ReadLocalState(c.local);
    var removed := PastTheTransaction(d, stored, c);
    WhatElseIsLeft(d.local, removed);
    AbsorbedFields(d.db, stored, journal);
    MigratableParts(d.db, stored, journal);
    ReconcileSnapshotsTwice(d.db.snapshot, journal.snapshot);
    if DistinctEntities(d.db.snapshot) {
      ReconciledNotOlder(d.db.snapshot, journal.snapshot);
      if ReconcileSnapshots(c.db.snapshot, left.snapshot).Ok? && DistinctEntities(left.snapshot) {
        ReconciledNotOlder(c.db.snapshot, left.snapshot);
      }
    }
  }

  lemma MigratableParts(db: Database, stored: seq<OutboxEvent>, journal: LocalState)
    requires Migratable(db, stored, journal)
    ensures DistinctEntities(journal.snapshot)
  {
  }

  lemma NumberedDiffer(outbox: map<Id, OutboxEvent>, counter: int, listed: seq<OutboxEvent>)
    requires Numbered(outbox, counter) && Lists(listed, outbox)
    ensures DistinctNumbers(listed)
  {
  }

  lemma LegacyMerged(db: Database, listed: seq<OutboxEvent>, legacy: seq<OutboxEvent>)
    requires Numbered(db.outbox, db.lastSequence.GetOr(0)) && Lists(listed, db.outbox) && UniqueEvents(legacy)
    ensures MergedEvents(listed, db.lastSequence, Normalize(legacy, 0).events).byId.Keys
            == db.outbox.Keys + EventIds(legacy)
  {
    LegacyIds(legacy, 0);
    NumberedDiffer(db.outbox, db.lastSequence.GetOr(0), listed);
    MigrationKeepsNumbers(listed, db.lastSequence, Normalize(legacy, 0).events);
    ListedIds(listed, db.outbox);
  }

  /**
   With the version-2 key gone and a stale legacy outbox still there, the rerun puts back exactly the
   legacy events the database does not hold.
   */
  lemma RestartBringsBack(d: Disk, stored: seq<OutboxEvent>, c: Disk, again: seq<OutboxEvent>)
    requires Migratable(d.db, stored, ReadLocalState(d.local)) && c in CrashPoints(d, stored) && c != d
    requires Lists(again, c.db.outbox) && StaleJournal(d, c) && UniqueEvents(c.local.legacyOutbox.value)
    ensures var keys := MergedEvents(again, c.db.lastSequence, ReadLocalState(c.local).outbox).byId.Keys;
            var legacy := EventIds(c.local.legacyOutbox.value);
            && keys == c.db.outbox.Keys + legacy
            && (keys == c.db.outbox.Keys <==> legacy <= c.db.outbox.Keys)
  {
    hide MergedEvents, Migratable, CrashPoints, Absorb, Normalize, ParseLocalState;
    var removed := PastTheTransaction(d, stored, c);
    var db' := Migrated(d.db, stored, ReadLocalState(d.local));
    LegacyMerged(c.db, again, c.local.legacyOutbox.value);
  }

  /**
   An event acknowledged long ago, left in the legacy outbox of a client that already wrote the
   version-2 key, is queued for sending again when the migration is interrupted after its first
   removal.
   */
  lemma AcknowledgedEventReturns(e: OutboxEvent)
    requires e.localSequence == None && e.disposition == None
    ensures var local := LocalStorage(Some(LocalState(None, [], 1, None)), None, Some([e]), None);
            var d := Disk(local, Database(None, map[], None, None));
            var c := CrashPoints(d, [])[2];
            && Migratable(d.db, [], ReadLocalState(d.local)) && StaleJournal(d, c)
            && c.db.outbox == map[]
            && e.id in MergedEvents([], c.db.lastSequence, ReadLocalState(c.local).outbox).byId
  {
    var local := LocalStorage(Some(LocalState(None, [], 1, None)), None, Some([e]), None);
    var d := Disk(local, Database(None, map[], None, None));
    NormalizeComplete([], 1);
    NormalizeComplete([], 0);
    var c := CrashPoints(d, [])[2];
    LegacyIds([e], 0);
    MigrationKeepsNumbers([], c.db.lastSequence, Normalize([e], 0).events);
    assert e in [e];
  }

  // ---------------------------------------------------------------- the migration as it runs

  method LoadStored(n: Normalization) returns (storedById: map<Id, OutboxEvent>, usedSequences: set<int>)
    ensures Merge(storedById, n.lastSequence, usedSequences) == StartMerge(n)
  {
    storedById, usedSequences := map[], {};
    for i := 0 to |n.events|
      invariant storedById == ById(n.events[..i])
      invariant usedSequences == set e | e in n.events[..i] && IsValidSequence(e.localSequence) :: e.localSequence.value
    {
      var e := n.events[i];
      storedById := storedById[e.id := e];
      if IsValidSequence(e.localSequence) {
        usedSequences := usedSequences + {e.localSequence.value};
      }
      assert n.events[..i + 1] == n.events[..i] + [e];
      assert (n.events[..i] + [e])[..i] == n.events[..i];
    }
    assert n.events[..|n.events|] == n.events;
  }

  method MergeJournal(stored: seq<OutboxEvent>, storedSequence: Option<int>, journal: seq<OutboxEvent>)
    returns (storedById: map<Id, OutboxEvent>, lastSequence: int)
    ensures storedById == MergedEvents(stored, storedSequence, journal).byId
    ensures lastSequence == MergedEvents(stored, storedSequence, journal).last
  {
    hide SortOutbox, StartMerge, Normalize;
    var normalized := NormalizeLegacyEvents(stored, storedSequence.GetOr(0));
    var usedSequences: set<int>;
    storedById, usedSequences := LoadStored(normalized);
    lastSequence := normalized.lastSequence;
    ghost var start := StartMerge(normalized);
    var sorted := SortOutbox(journal);
    assert sorted[..0] == [];
    for i := 0 to |sorted|
      invariant Merge(storedById, lastSequence, usedSequences) == MergeAll(start, sorted[..i])
    {
      var localEvent := sorted[i];
      assert sorted[..i + 1][..i] == sorted[..i] && sorted[..i + 1][i] == localEvent;
      if localEvent.id in storedById {
        storedById := storedById[localEvent.id := MergeDuplicate(storedById[localEvent.id], localEvent)];
      } else {
        var own := localEvent.localSequence;
        var nextSequence :=
          if IsValidSequence(own) && own.value > lastSequence && own.value !in usedSequences then own.value
          else lastSequence + 1;
        lastSequence := Max(lastSequence, nextSequence);
        usedSequences := usedSequences + {nextSequence};
        storedById := storedById[localEvent.id := Stamped(localEvent, nextSequence)];
      }
    }
    assert sorted[..|sorted|] == sorted;
  }

  /** The body of the transaction: all of the new database, or nothing. */
  method Transact(db: Database, stored: seq<OutboxEvent>, journal: LocalState)
    returns (outcome: Result<Database, MigrationError>)
    ensures outcome == Absorb(db, stored, journal)
  {
    var storedById, lastSequence := MergeJournal(stored, db.lastSequence, journal.outbox);
    lastSequence := Max(lastSequence, journal.lastOutboxSequence);
    var snapshot := ReconcileSnapshots(db.snapshot, journal.snapshot);
    if snapshot.Err? {
      return Err(snapshot.error);
    }
    outcome := Ok(Database(snapshot.value, storedById, Some(lastSequence),
                           NewerTimestamp(db.lastSyncedAt, journal.lastSyncedAt)));
  }

  class BrowserProfile {
    var disk: Disk
    /** Every disk state a crash could have left so far. */
    ghost var history: seq<Disk>

    constructor (disk: Disk)
      ensures this.disk == disk && history == [disk]
    {
      this.disk := disk;
      history := [disk];
    }

    method Write(d: Disk)
      modifies this
      ensures disk == d && history == old(history) + [d]
    {
      disk := d;
      history := history + [d];
    }

    method RemoveSources(local: LocalStorage, db: Database)
      requires disk == Disk(Removed(local, 0), db)
      modifies this
      ensures disk == Disk(Removed(local, 4), db)
      ensures history == old(history) + DurableWrites(local, db)[1..]
    {
      var writes := DurableWrites(local, db);
      for i := 0 to 4
        invariant disk == Disk(Removed(local, i), db)
        invariant history == old(history) + writes[1..i + 1]
      {
        Write(Disk(Removed(local, i + 1), disk.db));
        assert writes[1..i + 2] == writes[1..i + 1] + [writes[i + 1]];
      }
      assert writes[1..5] == writes[1..];
    }

    /** A migration passes through exactly the crash points, one durable write at a time. */
    method MigrateLocalJournal() returns (done: Result<(), MigrationError>, ghost stored: seq<OutboxEvent>)
      requires Keyed(disk.db.outbox)
      modifies this
      ensures Lists(stored, old(disk.db.outbox))
      ensures history == old(history) + CrashPoints(old(disk), stored)[1..]
      ensures done.Ok? <==> TakesJournal(old(disk))
      ensures done.Ok? ==> disk.local == LocalStorage(None, None, None, None)
      ensures done.Err? ==> disk == old(disk)
      ensures disk == CrashPoints(old(disk), stored)[|CrashPoints(old(disk), stored)| - 1]
    {
      hide ReadLocalState, MergedEvents, ReconcileSnapshots;
      var storedOutbox := GetAll(disk.db.outbox);
      stored := storedOutbox;
      if !HasJournal(disk.local) {
        return Ok(()), stored;
      }
      var outcome := Transact(disk.db, storedOutbox, ReadLocalState(disk.local));
      if outcome.Err? {
        return Err(outcome.error), stored;
      }
      var local, db := disk.local, outcome.value;
      Write(Disk(local, db));
      RemoveSources(local, db);
      assert DurableWrites(local, db)[0] == Disk(local, db);
      assert DurableWrites(local, db) == [Disk(local, db)] + DurableWrites(local, db)[1..];
      done := Ok(());
    }
  }
}
