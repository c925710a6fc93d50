/**
 The durable outbox as one abstract value: the latest snapshot, the unacknowledged events in the
 order they were committed, and the counter their sequence numbers come from.
 */
module Outbox {
  import opened Prelude
  import opened Kitchen
  import opened Mutations

  datatype Disposition = Pending | Quarantined

  /** `id` doubles as the idempotency key, which the event builders set to it. */
  datatype OutboxEvent = OutboxEvent(
    id: Id, occurredAt: Stamp, sourceId: Option<Id>, mutation: Mutation,
    attempts: int, localSequence: Option<int>, disposition: Option<Disposition>, lastError: Option<string>)

  const MAX_SAFE_INTEGER: int := 9_007_199_254_740_991

  predicate IsValidSequence(value: Option<int>) {
    value.Some? && 0 < value.value <= MAX_SAFE_INTEGER
  }

  predicate IsPending(e: OutboxEvent) {
    e.disposition != Some(Quarantined)
  }

  datatype Store = Store(
    snapshot: Option<Snapshot>, events: seq<OutboxEvent>, counter: int, lastSynced: Option<Stamp>)

  function Sequence(e: OutboxEvent): int {
    e.localSequence.GetOr(0)
  }

  ghost predicate UniqueEvents(events: seq<OutboxEvent>) {
    forall i, j :: 0 <= i < j < |events| ==> events[i].id != events[j].id
  }

  ghost predicate Increasing(events: seq<OutboxEvent>) {
    forall i, j :: 0 <= i < j < |events| ==> Sequence(events[i]) < Sequence(events[j])
  }

  /** A stored event has its sequence number and its disposition. */
  predicate Complete(e: OutboxEvent) {
    IsValidSequence(e.localSequence) && e.disposition.Some?
  }

  ghost predicate WellFormed(s: Store) {
    && UniqueEvents(s.events) && Increasing(s.events)
    && (forall e | e in s.events :: Complete(e) && Sequence(e) <= s.counter)
    && 0 <= s.counter <= MAX_SAFE_INTEGER
  }

  ghost predicate HasEvent(s: Store, id: Id) {
    exists e | e in s.events :: e.id == id
  }

  // ---------------------------------------------------------------- the operations

  function Stamped(event: OutboxEvent, sequence: int): OutboxEvent {
    event.(localSequence := Some(sequence), disposition := Some(event.disposition.GetOr(Pending)))
  }

  /** Snapshot, event and counter move in one step; an event already stored is not stored again. */
  ghost function Commit(s: Store, snapshot: Snapshot, event: Option<OutboxEvent>): Store {
    if event.None? || HasEvent(s, event.value.id) then s.(snapshot := Some(snapshot))
    else
      s.(snapshot := Some(snapshot),
         events := s.events + [Stamped(event.value, s.counter + 1)],
         counter := s.counter + 1)
  }

  function Listing(s: Store, includeQuarantined: bool): seq<OutboxEvent> {
    if includeQuarantined then s.events else Filter(IsPending, s.events)
  }

  function Acknowledge(s: Store, id: Id, at: Stamp): Store {
    s.(events := Filter((e: OutboxEvent) => e.id != id, s.events), lastSynced := Some(at))
  }

  function UpdateEvent(s: Store, id: Id, update: OutboxEvent -> OutboxEvent): Store {
    s.(events := seq(|s.events|, i requires 0 <= i < |s.events| =>
         if s.events[i].id == id then update(s.events[i]) else s.events[i]))
  }

  function Attempted(message: Option<string>): OutboxEvent -> OutboxEvent {
    (e: OutboxEvent) => e.(attempts := e.attempts + 1, lastError := message.OrElse(e.lastError))
  }

  function Held(message: string): OutboxEvent -> OutboxEvent {
    (e: OutboxEvent) => e.(attempts := e.attempts + 1, disposition := Some(Quarantined), lastError := Some(message))
  }

  function IncrementAttempt(s: Store, id: Id, message: Option<string>): Store {
    UpdateEvent(s, id, Attempted(message))
  }

  function Quarantine(s: Store, id: Id, message: string): Store {
    UpdateEvent(s, id, Held(message))
  }

  // ---------------------------------------------------------------- every operation keeps the store well formed

  lemma {:induction false} FilterIncreasing(p: OutboxEvent -> bool, events: seq<OutboxEvent>)
    requires UniqueEvents(events) && Increasing(events)
    ensures UniqueEvents(Filter(p, events)) && Increasing(Filter(p, events))
  {
    if events != [] {
      var rest := events[1..];
      assert forall k | 0 <= k < |rest| :: rest[k] == events[k + 1];
      FilterIncreasing(p, rest);
      FilterElements(p, rest);
      var kept := Filter(p, rest);
      assert forall k | 0 <= k < |kept| :: kept[k] in rest;
      forall e | e in rest
        ensures e.id != events[0].id && Sequence(events[0]) < Sequence(e)
      {
        var k :| 0 <= k < |rest| && rest[k] == e;
        assert events[k + 1] == e;
      }
    }
  }

  lemma CommitKeeps(s: Store, snapshot: Snapshot, event: Option<OutboxEvent>)
    requires WellFormed(s) && s.counter < MAX_SAFE_INTEGER
    ensures WellFormed(Commit(s, snapshot, event))
  {
    var s' := Commit(s, snapshot, event);
    if s'.events != s.events {
      assert forall i | 0 <= i < |s.events| :: s'.events[i] == s.events[i] && s.events[i] in s.events;
    }
  }

  /** What was committed waits and is listed last, numbered one above the counter; the rest is listed as it was. */
  lemma CommittedIsListedLast(s: Store, snapshot: Snapshot, event: OutboxEvent, includeQuarantined: bool)
    requires WellFormed(s) && !HasEvent(s, event.id) && IsPending(event)
    ensures var s' := Commit(s, snapshot, Some(event));
            && s'.snapshot == Some(snapshot)
            && Listing(s', includeQuarantined)
               == Listing(s, includeQuarantined)
                  + [event.(localSequence := Some(s.counter + 1), disposition := Some(Pending))]
            && forall e | e in Listing(s, includeQuarantined) :: Sequence(e) < s.counter + 1
  {
    var e := event.(localSequence := Some(s.counter + 1), disposition := Some(Pending));
    assert e == Stamped(event, s.counter + 1) by {
      assert event.disposition.GetOr(Pending) == Pending;
    }
    assert Commit(s, snapshot, Some(event)).events == s.events + [e];
    FilterAppend(IsPending, s.events, [e]);
    FilterAll(IsPending, [e]);
    FilterElements(IsPending, s.events);
  }

  /** A commit without an event, or with one already stored, replaces the snapshot and nothing else. */
  lemma CommittedAgain(s: Store, snapshot: Snapshot, event: Option<OutboxEvent>)
    requires event.Some? ==> exists e | e in s.events :: e.id == event.value.id
    ensures Commit(s, snapshot, event) == Store(Some(snapshot), s.events, s.counter, s.lastSynced)
  {
  }

  lemma AcknowledgeKeeps(s: Store, id: Id, at: Stamp)
    requires WellFormed(s)
    ensures WellFormed(Acknowledge(s, id, at))
  {
    var others := (e: OutboxEvent) => e.id != id;
    FilterIncreasing(others, s.events);
    FilterElements(others, s.events);
  }

  /** An update that leaves identity and sequence alone. */
  ghost predicate Harmless(update: OutboxEvent -> OutboxEvent) {
    forall e :: update(e).id == e.id && update(e).localSequence == e.localSequence
                && (e.disposition.Some? ==> update(e).disposition.Some?)
  }

  lemma UpdateKeeps(s: Store, id: Id, update: OutboxEvent -> OutboxEvent)
    requires WellFormed(s) && Harmless(update)
    ensures WellFormed(UpdateEvent(s, id, update))
  {
  }

  // ---------------------------------------------------------------- sequence discipline over runs

  datatype Op =
    | CommitOp(snapshot: Snapshot, event: Option<OutboxEvent>)
    | AcknowledgeOp(id: Id, at: Stamp)
    | AttemptOp(id: Id, message: Option<string>)
    | QuarantineOp(id: Id, reason: string)
    | ListOp(includeQuarantined: bool)

  ghost function Apply(s: Store, op: Op): Store {
    match op
    case CommitOp(snapshot, event) => Commit(s, snapshot, event)
    case AcknowledgeOp(id, at) => Acknowledge(s, id, at)
    case AttemptOp(id, message) => IncrementAttempt(s, id, message)
    case QuarantineOp(id, reason) => Quarantine(s, id, reason)
    case ListOp(_) => s
  }

  ghost function Run(s: Store, ops: seq<Op>): Store {
    if ops == [] then s else Apply(Run(s, ops[..|ops| - 1]), ops[|ops| - 1])
  }

  /** The sequence number an operation allocates, if any. */
  ghost function Allocation(s: Store, op: Op): seq<int> {
    if op.CommitOp? && op.event.Some? && !HasEvent(s, op.event.value.id) then [s.counter + 1] else []
  }

  ghost function Allocations(s: Store, ops: seq<Op>): seq<int> {
    if ops == [] then []
    else Allocations(s, ops[..|ops| - 1]) + Allocation(Run(s, ops[..|ops| - 1]), ops[|ops| - 1])
  }

  lemma ApplyKeeps(s: Store, op: Op)
    requires WellFormed(s) && s.counter < MAX_SAFE_INTEGER
    ensures WellFormed(Apply(s, op))
  {
    match op
    case CommitOp(snapshot, event) => CommitKeeps(s, snapshot, event);
    case AcknowledgeOp(id, at) => AcknowledgeKeeps(s, id, at);
    case AttemptOp(id, message) => UpdateKeeps(s, id, Attempted(message));
    case QuarantineOp(id, reason) => UpdateKeeps(s, id, Held(reason));
    case ListOp(_) =>
  }

  /**
   Every sequence number allocated in a run is the next one after all allocated before it, whatever
   was acknowledged in between, and the counter moves with exactly those allocations.
   */
  lemma {:induction false} SequencesNeverReused(s: Store, ops: seq<Op>)
    requires WellFormed(s) && s.counter + |ops| < MAX_SAFE_INTEGER
    ensures WellFormed(Run(s, ops))
    ensures var granted := Allocations(s, ops);
            && Run(s, ops).counter == s.counter + |granted| && |granted| <= |ops|
            && forall i :: 0 <= i < |granted| ==> granted[i] == s.counter + 1 + i
  {
    if ops != [] {
      SequencesNeverReused(s, ops[..|ops| - 1]);
      ApplyKeeps(Run(s, ops[..|ops| - 1]), ops[|ops| - 1]);
    }
  }

  // ---------------------------------------------------------------- the history an event carries

  function Tries(ops: seq<Op>, id: Id): nat {
    if ops == [] then 0
    else
      var last := ops[|ops| - 1];
      Tries(ops[..|ops| - 1], id) + if (last.AttemptOp? || last.QuarantineOp?) && last.id == id then 1 else 0
  }

  /** The last error reported for the event, if any was. */
  function LastMessage(ops: seq<Op>, id: Id): Option<string> {
    if ops == [] then None
    else
      var last := ops[|ops| - 1];
      if last.QuarantineOp? && last.id == id then Some(last.reason)
      else if last.AttemptOp? && last.id == id && last.message.Some? then last.message
      else LastMessage(ops[..|ops| - 1], id)
  }

  ghost predicate Refuses(ops: seq<Op>, id: Id) {
    exists op | op in ops :: op.QuarantineOp? && op.id == id
  }

  lemma HistoryNext(before: seq<Op>, op: Op, id: Id)
    ensures Tries(before + [op], id)
            == Tries(before, id) + if (op.AttemptOp? || op.QuarantineOp?) && op.id == id then 1 else 0
    ensures LastMessage(before + [op], id)
            == if op.QuarantineOp? && op.id == id then Some(op.reason)
               else if op.AttemptOp? && op.id == id && op.message.Some? then op.message
               else LastMessage(before, id)
    ensures Refuses(before + [op], id) <==> Refuses(before, id) || (op.QuarantineOp? && op.id == id)
  {
    var ops := before + [op];
    assert ops[..|ops| - 1] == before && ops[|ops| - 1] == op;
    assert forall o :: o in ops <==> o in before || o == op;
  }

  /** The event e' is e after the operations: tried, refused and explained as often as they say, otherwise the same. */
  ghost predicate Carries(e: OutboxEvent, e': OutboxEvent, ops: seq<Op>) {
    && e'.id == e.id && e'.occurredAt == e.occurredAt && e'.sourceId == e.sourceId && e'.mutation == e.mutation
    && e'.localSequence == e.localSequence && e'.attempts == e.attempts + Tries(ops, e.id)
    && e'.disposition
       == (if Refuses(ops, e.id) then Some(Quarantined) else e.disposition)
    && e'.lastError == if LastMessage(ops, e.id).Some? then LastMessage(ops, e.id) else e.lastError
  }

  lemma CarriesNext(e: OutboxEvent, before: seq<Op>, op: Op, x: OutboxEvent, y: OutboxEvent)
    requires Carries(e, x, before)
    requires y == match op
                  case AttemptOp(id, message) => if id == x.id then Attempted(message)(x) else x
                  case QuarantineOp(id, reason) => if id == x.id then Held(reason)(x) else x
                  case _ => x
    ensures Carries(e, y, before + [op])
  {
    HistoryNext(before, op, e.id);
    hide Tries, LastMessage, Refuses;
  }

  lemma StepOfEvent(s: Store, op: Op, x: OutboxEvent) returns (y: OutboxEvent)
    requires x in s.events && !(op.AcknowledgeOp? && op.id == x.id)
    ensures y in Apply(s, op).events
    ensures y == match op
                 case AttemptOp(id, message) => if id == x.id then Attempted(message)(x) else x
                 case QuarantineOp(id, reason) => if id == x.id then Held(reason)(x) else x
                 case _ => x
  {
    var i :| 0 <= i < |s.events| && s.events[i] == x;
    match op
    case AttemptOp(id, message) => y := Apply(s, op).events[i];
    case QuarantineOp(id, reason) => y := Apply(s, op).events[i];
    case AcknowledgeOp(id, at) =>
      FilterElements((e: OutboxEvent) => e.id != id, s.events);
      y := x;
    case _ => y := x;
  }

  /** Until it is acknowledged an event stays, and says how often it was tried, whether it was refused, and why. */
  lemma {:induction false} EventCarriesHistory(s: Store, ops: seq<Op>, e: OutboxEvent) returns (e': OutboxEvent)
    requires e in s.events && forall op | op in ops :: !(op.AcknowledgeOp? && op.id == e.id)
    ensures e' in Run(s, ops).events && Carries(e, e', ops)
  {
    if ops == [] {
      e' := e;
    } else {
      var before, op := ops[..|ops| - 1], ops[|ops| - 1];
      assert forall o | o in before :: o in ops;
      var x := EventCarriesHistory(s, before, e);
      e' := StepOfEvent(Run(s, before), op, x);
      CarriesNext(e, before, op, x, e');
      assert before + [op] == ops;
    }
  }
}
