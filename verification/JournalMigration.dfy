/**
 Moving a localStorage journal into IndexedDB: one transaction, then one removal per source key,
 with a possible crash after every durable write and a rerun at the next start.
 */
module JournalMigration {
  import opened Prelude
  import opened StableSort
  import opened Kitchen
  import opened Outbox
  import opened Journal
  import opened OfflineStore

  // ---------------------------------------------------------------- events

  /** The journal's copy of a stored event: it wins field by field where it has a value, but keeps the stored number. */
  function MergeDuplicate(stored: OutboxEvent, journal: OutboxEvent): OutboxEvent {
    OutboxEvent(
      journal.id, journal.occurredAt, journal.sourceId.OrElse(stored.sourceId), journal.mutation,
      Max(stored.attempts, journal.attempts),
      stored.localSequence,
      if stored.disposition == Some(Quarantined) || journal.disposition == Some(Quarantined) then Some(Quarantined)
      else Some(journal.disposition.GetOr(stored.disposition.GetOr(Pending))),
      journal.lastError.OrElse(stored.lastError))
  }

  datatype Merge = Merge(byId: map<Id, OutboxEvent>, last: int, used: set<int>)

  function NextSequence(m: Merge, journal: OutboxEvent): int {
    var own := journal.localSequence;
    if IsValidSequence(own) && own.value > m.last && own.value !in m.used then own.value else m.last + 1
  }

  function MergeStep(m: Merge, journal: OutboxEvent): Merge {
    if journal.id in m.byId then
      m.(byId := m.byId[journal.id := MergeDuplicate(m.byId[journal.id], journal)])
    else
      var next := NextSequence(m, journal);
      Merge(m.byId[journal.id := Stamped(journal, next)], Max(m.last, next), m.used + {next})
  }

  function MergeAll(m: Merge, journal: seq<OutboxEvent>): Merge {
    if journal == [] then m else MergeStep(MergeAll(m, journal[..|journal| - 1]), journal[|journal| - 1])
  }

  function ById(events: seq<OutboxEvent>): map<Id, OutboxEvent> {
    if events == [] then map[]
    else ById(events[..|events| - 1])[events[|events| - 1].id := events[|events| - 1]]
  }

  function StartMerge(n: Normalization): Merge {
    Merge(ById(n.events), n.lastSequence,
          set e | e in n.events && IsValidSequence(e.localSequence) :: e.localSequence.value)
  }

  function MergedEvents(stored: seq<OutboxEvent>, lastSequence: Option<int>, journal: seq<OutboxEvent>): Merge {
    MergeAll(StartMerge(Normalize(stored, lastSequence.GetOr(0))), SortOutbox(journal))
  }

  lemma {:induction false} ByIdLookup(events: seq<OutboxEvent>)
    requires UniqueEvents(events)
    ensures Keyed(ById(events))
    ensures forall e | e in events :: e.id in ById(events) && ById(events)[e.id] == e
    ensures forall id | id in ById(events) :: ById(events)[id] in events
  {
    if events != [] {
      var before := events[..|events| - 1];
      ByIdLookup(before);
      assert forall e :: e in events <==> e in before || e == events[|events| - 1];
      assert forall i | 0 <= i < |before| :: before[i] == events[i];
    }
  }

  /** What a merge knows of its events: keyed by id, numbered, and the counter above all numbers. */
  ghost predicate Sound(m: Merge) {
    && Keyed(m.byId)
    && (forall id | id in m.byId :: m.byId[id].localSequence.Some? && 0 < Sequence(m.byId[id]) <= m.last)
    && (forall id | id in m.byId :: m.byId[id].disposition.Some?)
    && (forall a, b | a in m.byId && b in m.byId && a != b :: Sequence(m.byId[a]) != Sequence(m.byId[b]))
    && 0 <= m.last
  }

  lemma StepSound(m: Merge, journal: OutboxEvent)
    requires Sound(m)
    ensures Sound(MergeStep(m, journal))
  {
    var m' := MergeStep(m, journal);
    if journal.id in m.byId {
      assert forall id | id in m.byId :: m'.byId[id].localSequence == m.byId[id].localSequence;
    }
  }

  lemma {:induction false} MergeSound(m: Merge, journal: seq<OutboxEvent>)
    requires Sound(m)
    ensures Sound(MergeAll(m, journal)) && MergeAll(m, journal).last >= m.last
  {
    if journal != [] {
      var before := journal[..|journal| - 1];
      MergeSound(m, before);
      StepSound(MergeAll(m, before), journal[|journal| - 1]);
    }
  }

  lemma {:induction false} MergeKeys(m: Merge, journal: seq<OutboxEvent>)
    ensures MergeAll(m, journal).byId.Keys == m.byId.Keys + (set e | e in journal :: e.id)
  {
    if journal != [] {
      var before, last := journal[..|journal| - 1], journal[|journal| - 1];
      MergeKeys(m, before);
      assert forall e :: e in journal <==> e in before || e == last;
    }
  }

  /** Stored events keep their numbers, and journal-only events get numbers above all of them. */
  lemma {:induction false} StoredKeepNumbers(m: Merge, journal: seq<OutboxEvent>)
    requires Sound(m)
    ensures var r := MergeAll(m, journal).byId;
            forall id | id in r ::
              if id in m.byId then r[id].localSequence == m.byId[id].localSequence else Sequence(r[id]) > m.last
    ensures forall id | id in m.byId :: id in MergeAll(m, journal).byId
  {
    if journal != [] {
      var before := journal[..|journal| - 1];
      StoredKeepNumbers(m, before);
      MergeSound(m, before);
    }
  }

  /** The event a journal entry ends up as is decided when the entry is merged. */
  lemma {:induction false} DecidedAt(m: Merge, journal: seq<OutboxEvent>, i: int)
    requires UniqueEvents(journal) && 0 <= i < |journal|
    ensures var id := journal[i].id;
            && id in MergeAll(m, journal).byId
            && MergeAll(m, journal).byId[id] == MergeStep(MergeAll(m, journal[..i]), journal[i]).byId[id]
  {
    var before, last := journal[..|journal| - 1], journal[|journal| - 1];
    if i < |journal| - 1 {
      DecidedAt(m, before, i);
      assert before[..i] == journal[..i];
      assert before[i].id != last.id;
    } else {
      assert journal[..i] == before;
    }
  }

  lemma {:induction false} CounterGrows(m: Merge, journal: seq<OutboxEvent>, i: int)
    requires 0 <= i <= |journal|
    ensures MergeAll(m, journal[..i]).last <= MergeAll(m, journal).last
    decreases |journal|
  {
    if i == |journal| {
      assert journal[..i] == journal;
    } else {
      var before := journal[..|journal| - 1];
      assert before[..i] == journal[..i];
      CounterGrows(m, before, i);
    }
  }

  lemma NotMergedEarlier(m: Merge, journal: seq<OutboxEvent>, i: int)
    requires UniqueEvents(journal) && 0 <= i < |journal| && journal[i].id !in m.byId
    ensures journal[i].id !in MergeAll(m, journal[..i]).byId
  {
    MergeKeys(m, journal[..i]);
    assert forall e | e in journal[..i] :: e.id != journal[i].id;
  }

  /** Journal-only events are numbered in the journal's order. */
  lemma JournalKeepsOrder(m: Merge, journal: seq<OutboxEvent>, i: int, j: int)
    requires UniqueEvents(journal) && 0 <= i < j < |journal|
    requires journal[i].id !in m.byId && journal[j].id !in m.byId
    ensures journal[i].id in MergeAll(m, journal).byId && journal[j].id in MergeAll(m, journal).byId
    ensures Sequence(MergeAll(m, journal).byId[journal[i].id]) < Sequence(MergeAll(m, journal).byId[journal[j].id])
  {
    DecidedAt(m, journal, i);
    DecidedAt(m, journal, j);
    NotMergedEarlier(m, journal, i);
    NotMergedEarlier(m, journal, j);
    var upToJ := journal[..j];
    assert upToJ[..i + 1][..i] == journal[..i];
    CounterGrows(m, upToJ, i + 1);
  }

  /** Stored events that already have a number have different ones. */
  ghost predicate DistinctNumbers(stored: seq<OutboxEvent>) {
    forall a, b | a in stored && b in stored && a != b ::
      !Unsequenced(a) && !Unsequenced(b) ==> a.localSequence != b.localSequence
  }

  lemma NormalNumber(stored: seq<OutboxEvent>, floor: int, e: OutboxEvent) returns (e': OutboxEvent)
    requires UniqueEvents(stored) && e in stored
    ensures var n := Normalize(stored, floor);
            var base := Highest(stored, Floor(floor));
            && e' in n.events && e'.id == e.id && e'.disposition.Some?
            && e' == NormalEvent(e, Assign(Chronology(stored), base))
            && e'.localSequence.Some? && 0 < Sequence(e') <= n.lastSequence
            && (if Unsequenced(e) then Sequence(e') > base
                else e'.localSequence == e.localSequence && Sequence(e') <= base)
  {
    var n := Normalize(stored, floor);
    var i :| 0 <= i < |stored| && stored[i] == e;
    e' := n.events[i];
    HighestBounds(stored, Floor(floor));
    if Unsequenced(e) {
      var rank := NormalizedEvent(stored, floor, e);
    }
  }

  lemma NormalNumbersDiffer(stored: seq<OutboxEvent>, floor: int, a: OutboxEvent, b: OutboxEvent)
    requires UniqueEvents(stored) && DistinctNumbers(stored) && a in stored && b in stored && a != b
    ensures var numbers := Assign(Chronology(stored), Highest(stored, Floor(floor)));
            Sequence(NormalEvent(a, numbers)) != Sequence(NormalEvent(b, numbers))
  {
    var a' := NormalNumber(stored, floor, a);
    var b' := NormalNumber(stored, floor, b);
    if Unsequenced(a) && Unsequenced(b) {
      var i := NormalizedEvent(stored, floor, a);
      var j := NormalizedEvent(stored, floor, b);
    }
  }

  lemma NormalEvents(stored: seq<OutboxEvent>, floor: int)
    requires UniqueEvents(stored)
    ensures var n := Normalize(stored, floor);
            && UniqueEvents(n.events)
            && (forall e' | e' in n.events :: exists e | e in stored ::
                  e.id == e'.id && e' == NormalEvent(e, Assign(Chronology(stored), Highest(stored, Floor(floor)))))
  {
  }

  /** Each entry the merge starts with is a stored event, normalized. */
  lemma StartEntry(stored: seq<OutboxEvent>, floor: int, id: Id) returns (e: OutboxEvent)
    requires UniqueEvents(stored) && id in ById(Normalize(stored, floor).events)
    ensures var n := Normalize(stored, floor);
            var entry := ById(n.events)[id];
            && e in stored && e.id == id && entry.id == id
            && entry == NormalEvent(e, Assign(Chronology(stored), Highest(stored, Floor(floor))))
            && entry.localSequence.Some? && 0 < Sequence(entry) <= n.lastSequence && entry.disposition.Some?
  {
    var n := Normalize(stored, floor);
    NormalEvents(stored, floor);
    ByIdLookup(n.events);
    e :| e in stored && e.id == id
         && ById(n.events)[id] == NormalEvent(e, Assign(Chronology(stored), Highest(stored, Floor(floor))));
    var e' := NormalNumber(stored, floor, e);
  }

  /** And each stored event has its entry, with the number it had. */
  lemma StartHolds(stored: seq<OutboxEvent>, floor: int, e: OutboxEvent)
    requires UniqueEvents(stored) && e in stored
    ensures var entries := ById(Normalize(stored, floor).events);
            e.id in entries && (!Unsequenced(e) ==> entries[e.id].localSequence == e.localSequence)
  {
    NormalEvents(stored, floor);
    ByIdLookup(Normalize(stored, floor).events);
    var e' := NormalNumber(stored, floor, e);
  }

  /** The merge starts from a sound state in which every numbered stored event has kept its number. */
  lemma StartSound(stored: seq<OutboxEvent>, floor: int)
    requires UniqueEvents(stored) && DistinctNumbers(stored)
    ensures var m := StartMerge(Normalize(stored, floor));
            && Sound(m)
            && m.byId.Keys == (set e | e in stored :: e.id)
            && m.last >= Highest(stored, Floor(floor))
            && (forall e | e in stored && !Unsequenced(e) :: m.byId[e.id].localSequence == e.localSequence)
  {
    hide NormalEvent, Assign, Chronology, ById;
    var m := StartMerge(Normalize(stored, floor));
    HighestBounds(stored, Floor(floor));
    forall id | id in m.byId
      ensures exists e | e in stored :: e.id == id
      ensures m.byId[id].id == id && m.byId[id].disposition.Some?
      ensures m.byId[id].localSequence.Some? && 0 < Sequence(m.byId[id]) <= m.last
    {
      var e := StartEntry(stored, floor, id);
    }
    forall a, b | a in m.byId && b in m.byId && a != b
      ensures Sequence(m.byId[a]) != Sequence(m.byId[b])
    {
      var x := StartEntry(stored, floor, a);
      var y := StartEntry(stored, floor, b);
      NormalNumbersDiffer(stored, floor, x, y);
    }
    forall e | e in stored
      ensures e.id in m.byId && (!Unsequenced(e) ==> m.byId[e.id].localSequence == e.localSequence)
    {
      StartHolds(stored, floor, e);
    }
  }

  function EventIds(events: seq<OutboxEvent>): set<Id> {
    set e | e in events :: e.id
  }

  /**
   Migration loses no event and reuses no number: every stored event that has a number keeps it,
   all numbers differ, and the counter bounds them.
   */
  lemma MigrationKeepsNumbers(stored: seq<OutboxEvent>, lastSequence: Option<int>, journal: seq<OutboxEvent>)
    requires UniqueEvents(stored) && DistinctNumbers(stored) && UniqueEvents(journal)
    ensures var r := MergedEvents(stored, lastSequence, journal);
            && Sound(r)
            && r.byId.Keys == EventIds(stored) + EventIds(journal)
            && (forall e | e in stored && !Unsequenced(e) :: r.byId[e.id].localSequence == e.localSequence)
  {
    hide Sound, MergeAll, UniqueEvents, DistinctNumbers, Normalize;
    var m := StartMerge(Normalize(stored, lastSequence.GetOr(0)));
    var sorted := SortOutbox(journal);
    StartSound(stored, lastSequence.GetOr(0));
    SortedJournal(journal);
    MergeSound(m, sorted);
    MergeKeys(m, sorted);
    assert EventIds(sorted) == EventIds(journal);
    StoredKeepNumbers(m, sorted);
  }

  /** A journal event the database did not know is numbered above everything the database did. */
  lemma MigrationAppends(
    stored: seq<OutboxEvent>, lastSequence: Option<int>, journal: seq<OutboxEvent>, a: OutboxEvent, b: OutboxEvent)
    requires UniqueEvents(stored) && DistinctNumbers(stored) && UniqueEvents(journal)
    requires a in stored && b in journal && b.id !in EventIds(stored)
    ensures var r := MergedEvents(stored, lastSequence, journal).byId;
            a.id in r && b.id in r && Sequence(r[a.id]) < Sequence(r[b.id])
  {
    var m := StartMerge(Normalize(stored, lastSequence.GetOr(0)));
    var sorted := SortOutbox(journal);
    StartSound(stored, lastSequence.GetOr(0));
    MigrationKeepsNumbers(stored, lastSequence, journal);
    StoredKeepNumbers(m, sorted);
    assert a.id in EventIds(stored) && b.id in EventIds(journal);
  }

  /** Two such events are numbered in the order in which the journal lists them. */
  lemma MigrationKeepsJournalOrder(
    stored: seq<OutboxEvent>, lastSequence: Option<int>, journal: seq<OutboxEvent>, a: OutboxEvent, b: OutboxEvent)
    requires UniqueEvents(stored) && DistinctNumbers(stored) && UniqueEvents(journal)
    requires a in journal && b in journal && a != b && SequenceBefore(a, b)
    requires a.id !in EventIds(stored) && b.id !in EventIds(stored)
    ensures var r := MergedEvents(stored, lastSequence, journal).byId;
            a.id in r && b.id in r && Sequence(r[a.id]) < Sequence(r[b.id])
  {
    var m := StartMerge(Normalize(stored, lastSequence.GetOr(0)));
    var sorted := SortOutbox(journal);
    StartSound(stored, lastSequence.GetOr(0));
    SortedJournal(journal);
    var i :| 0 <= i < |sorted| && sorted[i] == a;
    var j :| 0 <= j < |sorted| && sorted[j] == b;
    assert a.id != b.id by {
      assert i != j;
    }
    assert !SequenceBefore(b, a);
    JournalKeepsOrder(m, sorted, i, j);
  }

  /** The counter is above all numbers in use, and the event is new and numbered above the counter. */
  ghost predicate Above(m: Merge, e: OutboxEvent) {
    && (forall n | n in m.used :: n <= m.last)
    && e.id !in m.byId && IsValidSequence(e.localSequence) && m.last < Sequence(e)
  }

  lemma AboveStep(m: Merge, e: OutboxEvent)
    requires Above(m, e)
    ensures var r := MergeStep(m, e);
            && r.byId == m.byId[e.id := Stamped(e, Sequence(e))] && r.last == Sequence(e)
            && (forall n | n in r.used :: n <= r.last)
  {
  }

  lemma RisingPrefix(journal: seq<OutboxEvent>)
    requires journal != [] && UniqueEvents(journal) && Increasing(journal)
    ensures var before, last := journal[..|journal| - 1], journal[|journal| - 1];
            && UniqueEvents(before) && Increasing(before) && (forall e | e in before :: e in journal)
            && (forall e | e in journal :: e in before || e == last)
            && (forall e | e in before :: e.id != last.id && Sequence(e) < Sequence(last))
  {
    var before := journal[..|journal| - 1];
    assert forall i | 0 <= i < |before| :: before[i] == journal[i];
  }

  /** Journal events the merge does not know keep numbers that rise above all numbers in use. */
  lemma {:induction false} RisingKeepNumbers(m: Merge, journal: seq<OutboxEvent>)
    requires UniqueEvents(journal) && Increasing(journal) && forall n | n in m.used :: n <= m.last
    requires forall e | e in journal :: Above(m, e)
    ensures var r := MergeAll(m, journal);
            && (forall e | e in journal :: e.id in r.byId && r.byId[e.id].localSequence == e.localSequence)
            && (forall n | n in r.used :: n <= r.last)
            && (r.last == m.last || exists e | e in journal :: r.last == Sequence(e))
            && (forall id | id in r.byId :: id in m.byId || exists e | e in journal :: e.id == id)
  {
    if journal != [] {
      hide MergeStep, UniqueEvents, Increasing, IsValidSequence;
      var before, last := journal[..|journal| - 1], journal[|journal| - 1];
      RisingPrefix(journal);
      RisingKeepNumbers(m, before);
      assert last in journal && Above(m, last);
      var r := MergeAll(m, before);
      assert Above(r, last);
      AboveStep(r, last);
    }
  }

  /** So a journal taken into an empty database keeps all its numbers. */
  lemma EmptyDatabaseKeepsNumbers(journal: seq<OutboxEvent>)
    requires UniqueEvents(journal) && DistinctNumbers(journal)
    requires forall e | e in journal :: IsValidSequence(e.localSequence)
    ensures var r := MergedEvents([], None, journal).byId;
            forall e | e in journal :: e.id in r && r[e.id].localSequence == e.localSequence
  {
    var sorted := SortOutbox(journal);
    SortedJournal(journal);
    NormalizeComplete([], 0);
    forall i, j | 0 <= i < j < |sorted|
      ensures Sequence(sorted[i]) < Sequence(sorted[j])
    {
      assert SequenceBefore(sorted[i], sorted[j]) && sorted[i] in journal && sorted[j] in journal;
    }
    RisingKeepNumbers(StartMerge(Normalize([], 0)), sorted);
  }

  // ---------------------------------------------------------------- what becomes of each event

  /** The event a takes the database's copy s and the journal's copy j together. */
  ghost predicate Combined(a: OutboxEvent, s: OutboxEvent, j: OutboxEvent) {
    && a.id == j.id && a.occurredAt == j.occurredAt && a.mutation == j.mutation
    && a.sourceId == (if j.sourceId.Some? then j.sourceId else s.sourceId)
    && a.attempts >= s.attempts && a.attempts >= j.attempts && (a.attempts == s.attempts || a.attempts == j.attempts)
    && (a.disposition == Some(Quarantined)
        <==> s.disposition == Some(Quarantined) || j.disposition == Some(Quarantined))
    && a.disposition.Some?
    && a.lastError == (if j.lastError.Some? then j.lastError else s.lastError)
    && (!Unsequenced(s) ==> a.localSequence == s.localSequence)
  }

  /** An event only one medium held stays as it is, apart from the number and disposition it may have lacked. */
  ghost predicate KeptAs(a: OutboxEvent, e: OutboxEvent) {
    && a.id == e.id && a.occurredAt == e.occurredAt && a.mutation == e.mutation && a.sourceId == e.sourceId
    && a.attempts == e.attempts && a.lastError == e.lastError
    && (a.disposition == Some(Quarantined) <==> e.disposition == Some(Quarantined)) && a.disposition.Some?
  }

  ghost predicate Combines(outbox: map<Id, OutboxEvent>, stored: seq<OutboxEvent>, journal: seq<OutboxEvent>) {
    && (forall s, j | s in stored && j in journal && s.id == j.id :: s.id in outbox && Combined(outbox[s.id], s, j))
    && (forall s | s in stored && s.id !in EventIds(journal) ::
          s.id in outbox && KeptAs(outbox[s.id], s)
          && (!Unsequenced(s) ==> outbox[s.id].localSequence == s.localSequence))
    && (forall j | j in journal && j.id !in EventIds(stored) :: j.id in outbox && KeptAs(outbox[j.id], j))
  }

  lemma {:induction false} OthersUntouched(m: Merge, journal: seq<OutboxEvent>, id: Id)
    requires id !in EventIds(journal)
    ensures id in MergeAll(m, journal).byId <==> id in m.byId
    ensures id in m.byId ==> MergeAll(m, journal).byId[id] == m.byId[id]
  {
    if journal != [] {
      var before, last := journal[..|journal| - 1], journal[|journal| - 1];
      assert last in journal && forall e | e in before :: e in journal;
      OthersUntouched(m, before, id);
    }
  }

  lemma DecidedOnce(m: Merge, journal: seq<OutboxEvent>, j: OutboxEvent)
    requires UniqueEvents(journal) && j in journal
    ensures j.id in MergeAll(m, journal).byId
    ensures var a := MergeAll(m, journal).byId[j.id];
            if j.id in m.byId then a == MergeDuplicate(m.byId[j.id], j) else KeptAs(a, j)
  {
    var i :| 0 <= i < |journal| && journal[i] == j;
    DecidedAt(m, journal, i);
    assert forall e | e in journal[..i] :: e.id != j.id;
    OthersUntouched(m, journal[..i], j.id);
  }

  /** The entry a stored event starts the merge with. */
  lemma StartKeeps(stored: seq<OutboxEvent>, floor: int, s: OutboxEvent)
    requires UniqueEvents(stored) && s in stored
    ensures var entries := ById(Normalize(stored, floor).events);
            && s.id in entries && KeptAs(entries[s.id], s)
            && (!Unsequenced(s) ==> entries[s.id].localSequence == s.localSequence)
  {
    StartHolds(stored, floor, s);
    var e := StartEntry(stored, floor, s.id);
    assert e == s;
  }

  lemma StartIds(stored: seq<OutboxEvent>, floor: int)
    requires UniqueEvents(stored) && DistinctNumbers(stored)
    ensures StartMerge(Normalize(stored, floor)).byId.Keys == EventIds(stored)
  {
    StartSound(stored, floor);
  }

  lemma EntryCombined(entry: OutboxEvent, s: OutboxEvent, j: OutboxEvent)
    requires KeptAs(entry, s) && (!Unsequenced(s) ==> entry.localSequence == s.localSequence)
    ensures Combined(MergeDuplicate(entry, j), s, j)
  {
  }

  /** Where the merge has the database's copy of an event, the event is what its two copies say. */
  lemma CopiesCombined(m: Merge, sorted: seq<OutboxEvent>, s: OutboxEvent, j: OutboxEvent)
    requires UniqueEvents(sorted) && j in sorted && s.id == j.id && s.id in m.byId
    requires KeptAs(m.byId[s.id], s) && (!Unsequenced(s) ==> m.byId[s.id].localSequence == s.localSequence)
    ensures s.id in MergeAll(m, sorted).byId && Combined(MergeAll(m, sorted).byId[s.id], s, j)
  {
    DecidedOnce(m, sorted, j);
    EntryCombined(m.byId[s.id], s, j);
  }

  /**
   Each event of the merge is what its copies say: refused if either copy was, tried as often as the one
   that was tried more, with the content of the journal's copy, and an error of the database's only where
   the journal's has none.
   */
  lemma MigrationCombines(stored: seq<OutboxEvent>, lastSequence: Option<int>, journal: seq<OutboxEvent>)
    requires UniqueEvents(stored) && DistinctNumbers(stored) && UniqueEvents(journal)
    ensures Combines(MergedEvents(stored, lastSequence, journal).byId, stored, journal)
  {
    hide Normalize, ById, SortOutbox, UniqueEvents, DistinctNumbers, Combined, KeptAs, Unsequenced, MergeDuplicate,
        MergeAll;
    var floor := lastSequence.GetOr(0);
    var m := StartMerge(Normalize(stored, floor));
    var sorted := SortOutbox(journal);
    var r := MergeAll(m, sorted).byId;
    SortedJournal(journal);
    StartIds(stored, floor);
    forall s, j | s in stored && j in journal && s.id == j.id
      ensures s.id in r && Combined(r[s.id], s, j)
    {
      StartKeeps(stored, floor, s);
      CopiesCombined(m, sorted, s, j);
    }
    forall s | s in stored && s.id !in EventIds(journal)
      ensures s.id in r && KeptAs(r[s.id], s) && (!Unsequenced(s) ==> r[s.id].localSequence == s.localSequence)
    {
      StartKeeps(stored, floor, s);
      OthersUntouched(m, sorted, s.id);
    }
    forall j | j in journal && j.id !in EventIds(stored)
      ensures j.id in r && KeptAs(r[j.id], j)
    {
      DecidedOnce(m, sorted, j);
    }
  }

  lemma SortedJournal(journal: seq<OutboxEvent>)
    requires UniqueEvents(journal)
    ensures UniqueEvents(SortOutbox(journal)) && Sorted(SequenceBefore, SortOutbox(journal))
    ensures forall e :: e in SortOutbox(journal) <==> e in journal
  {
    SequenceBeforeTotal();
    SortSorted(SequenceBefore, journal);
    SortElements(SequenceBefore, journal);
    SameMultisetUnique(journal, SortOutbox(journal));
  }

  // ---------------------------------------------------------------- snapshots

  predicate Newer<D>(local: Entity<D>, stored: Entity<D>) {
    local.version > stored.version || (local.version == stored.version && local.updatedAt >= stored.updatedAt)
  }

  /** Entries keep their place when their id is put again; new ids go to the end. */
  function Put<D>(m: seq<Entity<D>>, e: Entity<D>): seq<Entity<D>> {
    if Find(m, e.id).Some? then Replace(m, e) else m + [e]
  }

  function ToMap<D>(list: seq<Entity<D>>): seq<Entity<D>> {
    if list == [] then [] else Put(ToMap(list[..|list| - 1]), list[|list| - 1])
  }

  function PutNewer<D>(m: seq<Entity<D>>, e: Entity<D>): seq<Entity<D>> {
    var stored := Find(m, e.id);
    if stored.None? || Newer(e, stored.value) then Put(m, e) else m
  }

  function Overlay<D>(m: seq<Entity<D>>, local: seq<Entity<D>>): seq<Entity<D>> {
    if local == [] then m else PutNewer(Overlay(m, local[..|local| - 1]), local[|local| - 1])
  }

  predicate CreatedBefore<D>(a: Entity<D>, b: Entity<D>) {
    a.createdAt < b.createdAt || (a.createdAt == b.createdAt && a.id <= b.id)
  }

  function Reconciled<D>(stored: seq<Entity<D>>, local: seq<Entity<D>>): seq<Entity<D>> {
    Sort(CreatedBefore, Overlay(ToMap(stored), local))
  }

  method ReconcileEntities<D>(stored: seq<Entity<D>>, local: seq<Entity<D>>) returns (r: seq<Entity<D>>)
    ensures r == Reconciled(stored, local)
  {
    var byId: seq<Entity<D>> := [];
    for i := 0 to |stored|
      invariant byId == ToMap(stored[..i])
    {
      byId := Put(byId, stored[i]);
      assert stored[..i + 1][..i] == stored[..i];
    }
    assert stored[..|stored|] == stored;
    for i := 0 to |local|
      invariant byId == Overlay(ToMap(stored), local[..i])
    {
      var existing := Find(byId, local[i].id);
      if existing.None? || local[i].version > existing.value.version
         || (local[i].version == existing.value.version && local[i].updatedAt >= existing.value.updatedAt)
      {
        byId := Put(byId, local[i]);
      }
      assert local[..i + 1][..i] == local[..i];
    }
    assert local[..|local|] == local;
    r := Sort(CreatedBefore, byId);
  }

  datatype MigrationError = DifferentOutlet

  function ReconcileSnapshots(
    stored: Option<Snapshot>, local: Option<Snapshot>): Result<Option<Snapshot>, MigrationError> {
    if stored.None? then Ok(local)
    else if local.None? then Ok(stored)
    else
      var s, l := stored.value, local.value;
      if s.organizationId != l.organizationId || s.outletId != l.outletId then Err(DifferentOutlet)
      else
        Ok(Some(Snapshot(
          l.organizationId, l.outletId, l.edgeId.OrElse(s.edgeId),
          Reconciled(s.orders, l.orders),
          if s.tickets.Some? || l.tickets.Some? then Some(Reconciled(s.Tickets(), l.Tickets())) else None,
          Max(s.nextOrderNumber, l.nextOrderNumber))))
  }

  lemma PutElements<D>(m: seq<Entity<D>>, e: Entity<D>)
    requires UniqueIds(m)
    ensures UniqueIds(Put(m, e))
    ensures forall x :: x in Put(m, e) <==> x == e || (x in m && x.id != e.id)
  {
  }

  lemma {:induction false} ToMapUnique<D>(list: seq<Entity<D>>)
    ensures UniqueIds(ToMap(list))
    ensures UniqueIds(list) ==> ToMap(list) == list
  {
    if list != [] {
      var before := list[..|list| - 1];
      ToMapUnique(before);
      PutElements(ToMap(before), list[|list| - 1]);
      if UniqueIds(list) {
        PutLast(list);
      }
    }
  }

  lemma PutLast<D>(list: seq<Entity<D>>)
    requires UniqueIds(list) && list != []
    ensures var before := list[..|list| - 1];
            UniqueIds(before) && Put(before, list[|list| - 1]) == list
  {
    var before := list[..|list| - 1];
    assert forall i | 0 <= i < |before| :: before[i] == list[i];
    assert forall x | x in before :: x.id != list[|list| - 1].id;
  }

  /** A journal entity is settled in m when overlaying it again would change nothing. */
  ghost predicate Settled<D>(m: seq<Entity<D>>, e: Entity<D>) {
    exists x | x in m :: x.id == e.id && (x == e || !Newer(e, x))
  }

  lemma {:induction false} OverlaySettles<D>(m: seq<Entity<D>>, local: seq<Entity<D>>)
    requires UniqueIds(m) && UniqueIds(local)
    ensures UniqueIds(Overlay(m, local))
    ensures forall e | e in local :: Settled(Overlay(m, local), e)
  {
    if local != [] {
      var before, last := local[..|local| - 1], local[|local| - 1];
      assert forall i | 0 <= i < |before| :: before[i] == local[i];
      OverlaySettles(m, before);
      var o := Overlay(m, before);
      PutElements(o, last);
      forall e | e in local
        ensures Settled(Overlay(m, local), e)
      {
        if e != last {
          assert e in before;
          var x :| x in o && x.id == e.id && (x == e || !Newer(e, x));
          assert x in Overlay(m, local);
        } else {
          var found := Find(o, last.id);
          assert found.Some? && !Newer(last, found.value) ==> found.value in Overlay(m, local);
        }
      }
    }
  }

  lemma {:induction false} SettledIsFixed<D>(m: seq<Entity<D>>, local: seq<Entity<D>>)
    requires UniqueIds(m) && forall e | e in local :: Settled(m, e)
    ensures Overlay(m, local) == m
  {
    if local != [] {
      var last := local[|local| - 1];
      SettledIsFixed(m, local[..|local| - 1]);
      assert last in local && Settled(m, last);
      var x :| x in m && x.id == last.id && (x == last || !Newer(last, x));
      FindUnique(m, x);
      ReplaceSame(m, x);
    }
  }

  lemma CreatedBeforeTotal<D(!new)>()
    ensures TotalPreorder(CreatedBefore<D>)
  {
    var le := CreatedBefore<D>;
    assert forall a: Entity<D>, b: Entity<D> :: le(a, b) <==> CreatedBefore(a, b);
  }

  lemma SortUniqueIds<D(!new)>(m: seq<Entity<D>>)
    requires UniqueIds(m)
    ensures var sorted := Sort(CreatedBefore, m);
            && UniqueIds(sorted)
            && (forall x :: x in sorted <==> x in m)
            && Sorted(CreatedBefore<D>, sorted)
  {
    hide UniqueIds, TotalPreorder;
    var sorted := Sort(CreatedBefore, m);
    CreatedBeforeTotal<D>();
    SortSorted(CreatedBefore<D>, m);
    SortElements(CreatedBefore, m);
    RearrangedIds(m, sorted);
  }

  /**
   Which of two lists' entities a reconciliation keeps: the local one of an id if it is as new, else the
   stored one.
   */
  ghost predicate Wins<D>(x: Entity<D>, stored: seq<Entity<D>>, local: seq<Entity<D>>) {
    || (x in local && forall s | s in stored && s.id == x.id ::
          x.version > s.version || (x.version == s.version && x.updatedAt >= s.updatedAt))
    || (x in stored && forall l | l in local && l.id == x.id ::
          l.version < x.version || (l.version == x.version && l.updatedAt < x.updatedAt))
  }

  lemma WinsNext<D>(m: seq<Entity<D>>, before: seq<Entity<D>>, last: Entity<D>, o: seq<Entity<D>>, x: Entity<D>)
    requires UniqueIds(m) && UniqueIds(o) && forall l | l in before :: l.id != last.id
    requires forall y :: y in o <==> Wins(y, m, before)
    ensures x in PutNewer(o, last) <==> Wins(x, m, before + [last])
  {
    PutElements(o, last);
    var existing := Find(o, last.id);
    if existing.Some? {
      assert Wins(existing.value, m, before) && existing.value in m;
      forall s | s in m && s.id == last.id
        ensures s == existing.value
      {
        SameIdSameEntity(m, s, existing.value);
      }
    } else {
      forall s | s in m
        ensures s.id != last.id
      {
        assert s.id == last.id ==> Wins(s, m, before);
      }
    }
    if existing.Some? && x in o && x.id == last.id {
      SameIdSameEntity(o, x, existing.value);
    }
  }

  lemma {:induction false} OverlayHolds<D(!new)>(m: seq<Entity<D>>, local: seq<Entity<D>>)
    requires UniqueIds(m) && UniqueIds(local)
    ensures forall x :: x in Overlay(m, local) <==> Wins(x, m, local)
  {
    if local != [] {
      var before, last := local[..|local| - 1], local[|local| - 1];
      assert forall i | 0 <= i < |before| :: before[i] == local[i];
      assert local == before + [last];
      OverlayHolds(m, before);
      OverlaySettles(m, before);
      forall x
        ensures x in Overlay(m, local) <==> Wins(x, m, local)
      {
        WinsNext(m, before, last, Overlay(m, before), x);
      }
    }
  }

  ghost predicate LastAt<D>(list: seq<Entity<D>>, i: int, x: Entity<D>) {
    0 <= i < |list| && list[i] == x && forall j :: i < j < |list| ==> list[j].id != x.id
  }

  ghost predicate LastOfItsId<D>(list: seq<Entity<D>>, x: Entity<D>) {
    exists i :: LastAt(list, i, x)
  }

  lemma LastNext<D>(before: seq<Entity<D>>, last: Entity<D>, x: Entity<D>)
    ensures LastOfItsId(before + [last], x) <==> x == last || (LastOfItsId(before, x) && x.id != last.id)
  {
    var list := before + [last];
    assert forall j | 0 <= j < |before| :: list[j] == before[j];
    if x == last {
      assert LastAt(list, |before|, x);
    } else if LastOfItsId(list, x) {
      var i :| LastAt(list, i, x);
      assert list[|before|] == last;
      assert LastAt(before, i, x);
    } else if LastOfItsId(before, x) {
      var i :| LastAt(before, i, x);
      assert x.id != last.id ==> LastAt(list, i, x);
    }
  }

  /** The map holds the last entity of each id. */
  lemma {:induction false} ToMapHolds<D(!new)>(list: seq<Entity<D>>)
    ensures forall x :: x in ToMap(list) <==> LastOfItsId(list, x)
  {
    if list != [] {
      var before, last := list[..|list| - 1], list[|list| - 1];
      assert list == before + [last];
      ToMapHolds(before);
      ToMapUnique(before);
      PutElements(ToMap(before), last);
      forall x
        ensures x in ToMap(list) <==> LastOfItsId(list, x)
      {
        hide LastOfItsId;
        LastNext(before, last, x);
      }
    }
  }

  /**
   Exactly what a reconciled list holds: for each id the local entity if it is as new as the stored one, else
   that.
   */
  lemma ReconciledHolds<D(!new)>(stored: seq<Entity<D>>, local: seq<Entity<D>>)
    requires UniqueIds(local)
    ensures UniqueIds(Reconciled(stored, local)) && Sorted(CreatedBefore<D>, Reconciled(stored, local))
    ensures forall x :: x in Reconciled(stored, local) <==> Wins(x, ToMap(stored), local)
    ensures UniqueIds(stored) ==> ToMap(stored) == stored
    ensures forall x :: x in ToMap(stored) <==> LastOfItsId(stored, x)
  {
    ToMapHolds(stored);
    ToMapUnique(stored);
    OverlaySettles(ToMap(stored), local);
    OverlayHolds(ToMap(stored), local);
    SortUniqueIds(Overlay(ToMap(stored), local));
  }

  /** The list holds the entity, or a later version, or the same version updated no earlier. */
  ghost predicate Shown<D>(list: seq<Entity<D>>, x: Entity<D>) {
    exists y | y in list ::
      y.id == x.id && (y.version > x.version || (y.version == x.version && y.updatedAt >= x.updatedAt))
  }

  /** Oldest first, and of the same age by id. */
  ghost predicate OldestFirst<D>(list: seq<Entity<D>>) {
    forall i, j :: 0 <= i < j < |list| ==>
      list[i].createdAt < list[j].createdAt || (list[i].createdAt == list[j].createdAt && list[i].id < list[j].id)
  }

  lemma ReconciledStandsInOrder<D(!new)>(stored: seq<Entity<D>>, local: seq<Entity<D>>)
    requires UniqueIds(local)
    ensures OldestFirst(Reconciled(stored, local))
  {
    hide Reconciled;
    ReconciledHolds(stored, local);
    var r := Reconciled(stored, local);
    forall i, j | 0 <= i < j < |r|
      ensures r[i].createdAt < r[j].createdAt || (r[i].createdAt == r[j].createdAt && r[i].id < r[j].id)
    {
      assert CreatedBefore(r[i], r[j]);
    }
  }

  /**
   Two snapshots are reconciled unless they are of different outlets. The outlet stays, a known edge stays
   known, tickets are there if either had them, and a number above all orders of both is above all of the
   result's.
   */
  lemma ReconciledSnapshotSays(stored: Snapshot, local: Snapshot)
    requires UniqueIds(stored.orders) && UniqueIds(local.orders)
    ensures var r := ReconcileSnapshots(Some(stored), Some(local));
            && (r.Err? <==> stored.organizationId != local.organizationId || stored.outletId != local.outletId)
            && (r.Ok? ==>
                  && r.value.Some?
                  && var s := r.value.value;
                     s.organizationId == stored.organizationId && s.outletId == stored.outletId
                     && s.edgeId == (if local.edgeId.Some? then local.edgeId else stored.edgeId)
                     && (s.tickets.None? <==> stored.tickets.None? && local.tickets.None?)
                     && ((forall o | o in stored.orders :: o.detail.number < stored.nextOrderNumber)
                         && (forall o | o in local.orders :: o.detail.number < local.nextOrderNumber) ==>
                           forall o | o in s.orders :: o.detail.number < s.nextOrderNumber))
  {
    hide Reconciled;
    ReconciledHolds(stored.orders, local.orders);
  }

  lemma ReconciledShows<D(!new)>(stored: seq<Entity<D>>, local: seq<Entity<D>>)
    requires UniqueIds(stored) && UniqueIds(local)
    ensures forall x | x in stored + local :: Shown(Reconciled(stored, local), x)
  {
    ReconciledHolds(stored, local);
    var r := Reconciled(stored, local);
    forall x | x in stored + local
      ensures Shown(r, x)
    {
      if x in stored && exists l | l in local && l.id == x.id :: Newer(l, x) {
        var l :| l in local && l.id == x.id && Newer(l, x);
        assert Wins(l, stored, local) by {
          OnlyOne(stored, x);
        }
      } else if x in stored {
        assert Wins(x, stored, local);
      } else if exists s | s in stored && s.id == x.id :: !Newer(x, s) {
        var s :| s in stored && s.id == x.id && !Newer(x, s);
        assert Wins(s, stored, local) by {
          OnlyOne(local, x);
        }
      } else {
        assert Wins(x, stored, local);
      }
    }
  }

  lemma OnlyOne<D>(list: seq<Entity<D>>, x: Entity<D>)
    requires UniqueIds(list) && x in list
    ensures forall y | y in list && y.id == x.id :: y == x
  {
    forall y | y in list && y.id == x.id
      ensures y == x
    {
      SameIdSameEntity(list, x, y);
    }
  }

  /** Reconciling with the same journal again changes nothing. */
  lemma ReconcileTwice<D(!new)>(stored: seq<Entity<D>>, local: seq<Entity<D>>)
    requires UniqueIds(local)
    ensures Reconciled(Reconciled(stored, local), local) == Reconciled(stored, local)
  {
    var le := CreatedBefore<D>;
    ToMapUnique(stored);
    var o := Overlay(ToMap(stored), local);
    OverlaySettles(ToMap(stored), local);
    SortUniqueIds(o);
    var r := Sort(le, o);
    ToMapUnique(r);
    forall e | e in local
      ensures Settled(r, e)
    {
      var x :| x in o && x.id == e.id && (x == e || !Newer(e, x));
      assert x in r;
    }
    SettledIsFixed(r, local);
    SortFixesSorted(le, r);
  }
}
