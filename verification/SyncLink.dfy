/**
 The link between one device and the receiver of its events: commits, listings, transmissions,
 deliveries, replies and crashes, interleaved in any order. One step is one durable write, one
 listing or one message; a copy once sent may be delivered at any later time, any number of times.
 */
module SyncLink {
  import opened Prelude
  import opened Kitchen
  import opened Mutations
  import opened Outbox

  /** What a receiver can tell two events apart by; attempts and errors stay on the device. */
  datatype Message = Message(id: Id, number: int, mutation: Mutation)

  /** Where the drain loop stands with the head of its batch. */
  datatype Phase = Idle | Listed | Sending | Succeeded | Refused | Failed

  datatype Link = Link(
    store: Store,
    log: seq<Message>,
    batch: seq<OutboxEvent>,
    phase: Phase,
    network: set<Message>,
    seen: seq<Message>,
    acked: set<Id>,
    held: set<Id>)

  datatype Step =
    | CommitStep(snapshot: Snapshot, event: Option<OutboxEvent>)
    | ListStep
    | TransmitStep
    | DeliverStep(message: Message)
    | ReplyOk
    | ReplyRefused
    | ReplyLost
    | AckStep(at: Stamp)
    | AckFails
    | QuarantineStep(reason: string)
    | RecordFailure(error: Option<string>)
    | HoldStep(id: Id, reason: string)
    | Crash

  function MessageOf(e: OutboxEvent): Message {
    Message(e.id, Sequence(e), e.mutation)
  }

  ghost predicate Logged(log: seq<Message>, id: Id) {
    exists m | m in log :: m.id == id
  }

  function SeenIds(seen: seq<Message>): set<Id> {
    set m | m in seen :: m.id
  }

  /**
   When a step can happen. A new event carries an id never used before; acceptance means the
   receiver has seen the event, while a refusal may come from anything in between.
   */
  ghost predicate Enabled(l: Link, step: Step) {
    match step
    case CommitStep(_, event) =>
      && l.store.counter < MAX_SAFE_INTEGER
      && (event.Some? ==>
            IsPending(event.value) && (HasEvent(l.store, event.value.id) || !Logged(l.log, event.value.id)))
    case ListStep => l.phase == Idle || (l.phase == Listed && l.batch == [])
    case TransmitStep => l.phase == Listed && l.batch != []
    case DeliverStep(message) => message in l.network
    case ReplyOk => l.phase == Sending && l.batch != [] && l.batch[0].id in SeenIds(l.seen)
    case ReplyRefused => l.phase == Sending
    case ReplyLost => l.phase == Sending
    case AckStep(_) => l.phase == Succeeded && l.batch != []
    case AckFails => l.phase == Succeeded
    case QuarantineStep(_) => l.phase == Refused && l.batch != []
    case RecordFailure(_) => l.phase == Failed && l.batch != []
    case HoldStep(id, _) => Logged(l.log, id)
    case Crash => true
  }

  /** What a step does; one that is not enabled is of no interest. */
  ghost function After(l: Link, step: Step): Link {
    match step
    case CommitStep(snapshot, event) =>
      l.(store := Commit(l.store, snapshot, event),
         log := if event.Some? && !HasEvent(l.store, event.value.id)
                then l.log + [MessageOf(Stamped(event.value, l.store.counter + 1))] else l.log)
    case ListStep =>
      var batch := Listing(l.store, false);
      l.(batch := batch, phase := if batch == [] then Idle else Listed)
    case TransmitStep =>
      if l.batch == [] then l else l.(network := l.network + {MessageOf(l.batch[0])}, phase := Sending)
    case DeliverStep(message) =>
      if message.id in SeenIds(l.seen) then l else l.(seen := l.seen + [message])
    case ReplyOk => l.(phase := Succeeded)
    case ReplyRefused => l.(phase := Refused)
    case ReplyLost => l.(phase := Failed)
    case AckStep(at) =>
      if l.batch == [] then l else
      var id := l.batch[0].id;
      l.(store := Acknowledge(l.store, id, at), acked := l.acked + {id}, batch := l.batch[1..], phase := Listed)
    case AckFails => l.(phase := Failed)
    case QuarantineStep(reason) =>
      if l.batch == [] then l else
      var id := l.batch[0].id;
      l.(store := Quarantine(l.store, id, reason), held := l.held + {id}, batch := l.batch[1..], phase := Listed)
    case RecordFailure(error) =>
      if l.batch == [] then l else
      l.(store := IncrementAttempt(l.store, l.batch[0].id, error), batch := [], phase := Idle)
    case HoldStep(id, reason) => l.(store := Quarantine(l.store, id, reason), held := l.held + {id})
    case Crash => l.(batch := [], phase := Idle)
  }

  ghost predicate EnabledRun(l: Link, steps: seq<Step>)
    decreases |steps|
  {
    steps != [] ==> Enabled(l, steps[0]) && EnabledRun(After(l, steps[0]), steps[1..])
  }

  ghost function RunLink(l: Link, steps: seq<Step>): Link
    decreases |steps|
  {
    if steps == [] then l else RunLink(After(l, steps[0]), steps[1..])
  }

  function Start(snapshot: Option<Snapshot>): Link {
    Link(Store(snapshot, [], 0, None), [], [], Idle, {}, [], {}, {})
  }

  /** The link of a device that finds a store when it starts. */
  ghost function Resumed(store: Store): (l: Link)
    ensures store == Store(store.snapshot, [], 0, None) ==> l == Start(store.snapshot)
  {
    Link(store, seq(|store.events|, i requires 0 <= i < |store.events| => MessageOf(store.events[i])), [], Idle,
         {}, [], {}, set e | e in store.events && !IsPending(e) :: e.id)
  }

  // ---------------------------------------------------------------- what every step keeps

  ghost predicate LogOk(log: seq<Message>, counter: int) {
    && (forall i, j :: 0 <= i < j < |log| ==> log[i].number < log[j].number && log[i].id != log[j].id)
    && (forall m | m in log :: m.number <= counter)
  }

  ghost predicate StoreLogged(events: seq<OutboxEvent>, log: seq<Message>, held: set<Id>, acked: set<Id>) {
    forall e | e in events ::
      MessageOf(e) in log && (if IsPending(e) then e.id !in acked && e.id !in held else e.id in held)
  }

  ghost predicate PendingIn(events: seq<OutboxEvent>, m: Message) {
    exists e | e in events :: IsPending(e) && MessageOf(e) == m
  }

  /** Conservation: an event ever committed is acknowledged, held back, or still waiting. */
  ghost predicate Accounted(log: seq<Message>, events: seq<OutboxEvent>, acked: set<Id>, held: set<Id>) {
    forall m {:trigger PendingIn(events, m)} | m in log :: m.id in acked || m.id in held || PendingIn(events, m)
  }

  ghost predicate Earlier(batch: seq<OutboxEvent>, i: nat, m: Message)
    requires i <= |batch|
  {
    exists j :: 0 <= j < i && MessageOf(batch[j]) == m
  }

  /** Nothing that waits was skipped: a waiting event below a batch entry stands before it. */
  ghost predicate BatchOk(batch: seq<OutboxEvent>, events: seq<OutboxEvent>, log: seq<Message>) {
    && Increasing(batch)
    && (forall b | b in batch :: MessageOf(b) in log)
    && (forall e, i {:trigger Earlier(batch, i, MessageOf(e))} |
          e in events && IsPending(e) && 0 <= i < |batch| && Sequence(e) < Sequence(batch[i]) ::
          Earlier(batch, i, MessageOf(e)))
  }

  ghost predicate Settled(m: Message, acked: set<Id>, held: set<Id>) {
    m.id in acked || m.id in held
  }

  /** Everything committed before a sent event was settled before it was sent. */
  ghost predicate NetworkOk(network: set<Message>, log: seq<Message>, acked: set<Id>, held: set<Id>) {
    forall n | n in network ::
      n in log && forall m | m in log && m.number < n.number :: Settled(m, acked, held)
  }

  ghost predicate SeenOk(seen: seq<Message>, network: set<Message>, acked: set<Id>, held: set<Id>) {
    && (forall m | m in seen :: m in network)
    && (forall i, j :: 0 <= i < j < |seen| ==> seen[i].id != seen[j].id)
    && acked <= SeenIds(seen)
  }

  /** Out of order only if held: the first sighting of an event that was not held back follows all smaller numbers. */
  ghost predicate InOrderUnlessHeld(seen: seq<Message>, held: set<Id>) {
    forall i, j :: 0 <= i < j < |seen| && seen[i].number >= seen[j].number ==> seen[j].id in held
  }

  ghost predicate Invariant(l: Link) {
    && WellFormed(l.store)
    && LogOk(l.log, l.store.counter)
    && StoreLogged(l.store.events, l.log, l.held, l.acked)
    && Accounted(l.log, l.store.events, l.acked, l.held)
    && BatchOk(l.batch, l.store.events, l.log)
    && NetworkOk(l.network, l.log, l.acked, l.held)
    && SeenOk(l.seen, l.network, l.acked, l.held)
    && InOrderUnlessHeld(l.seen, l.held)
    && (forall id | id in l.held :: Logged(l.log, id))
    && (l.phase == Succeeded ==> l.batch != [] && l.batch[0].id in SeenIds(l.seen))
    && (l.phase == Sending ==> l.batch != [] && MessageOf(l.batch[0]) in l.network)
  }

  lemma SameMessage(log: seq<Message>, counter: int, a: Message, b: Message)
    requires LogOk(log, counter) && a in log && b in log && (a.id == b.id || a.number == b.number)
    ensures a == b
  {
  }

  lemma AttemptStep(l: Link, id: Id, error: Option<string>)
    requires Invariant(l)
    ensures var store := IncrementAttempt(l.store, id, error);
            && WellFormed(store) && StoreLogged(store.events, l.log, l.held, l.acked)
            && Accounted(l.log, store.events, l.acked, l.held)
  {
    UpdateKeeps(l.store, id, Attempted(error));
    var events, events' := l.store.events, IncrementAttempt(l.store, id, error).events;
    assert forall i :: 0 <= i < |events| ==>
        MessageOf(events'[i]) == MessageOf(events[i]) && IsPending(events'[i]) == IsPending(events[i]);
    forall e | e in events'
      ensures MessageOf(e) in l.log && (if IsPending(e) then e.id !in l.acked && e.id !in l.held else e.id in l.held)
    {
      var i :| 0 <= i < |events'| && events'[i] == e;
      assert events[i] in events && MessageOf(events[i]).id == e.id;
    }
    forall m | m in l.log && PendingIn(events, m)
      ensures PendingIn(events', m)
    {
      var i :| 0 <= i < |events| && IsPending(events[i]) && MessageOf(events[i]) == m;
      assert events'[i] in events';
    }
  }

  /** Holding an event back changes that event only, and takes it from the waiting ones. */
  lemma HeldEvents(s: Store, id: Id, reason: string)
    ensures var events, events' := s.events, Quarantine(s, id, reason).events;
            && (forall e | e in events' :: if e.id == id then !IsPending(e) else e in events)
            && (forall e | e in events' :: exists x | x in events :: MessageOf(x) == MessageOf(e))
            && (forall e | e in events && e.id != id :: e in events')
  {
    var events, events' := s.events, Quarantine(s, id, reason).events;
    forall e | e in events'
      ensures if e.id == id then !IsPending(e) else e in events
      ensures exists x | x in events :: MessageOf(x) == MessageOf(e)
    {
      var i :| 0 <= i < |events'| && events'[i] == e;
      assert events[i] in events && MessageOf(events[i]) == MessageOf(e);
    }
    forall e | e in events && e.id != id
      ensures e in events'
    {
      var i :| 0 <= i < |events| && events[i] == e;
      assert events'[i] == e;
    }
  }

  lemma HeldLogged(
    s: Store, log: seq<Message>, held: set<Id>, acked: set<Id>, id: Id, reason: string)
    requires StoreLogged(s.events, log, held, acked) && Accounted(log, s.events, acked, held)
    ensures var events' := Quarantine(s, id, reason).events;
            StoreLogged(events', log, held + {id}, acked) && Accounted(log, events', acked, held + {id})
  {
    HeldEvents(s, id, reason);
    var events' := Quarantine(s, id, reason).events;
    forall e | e in events'
      ensures MessageOf(e) in log
      ensures (if IsPending(e) then e.id !in acked && e.id !in held + {id} else e.id in held + {id})
    {
      var x :| x in s.events && MessageOf(x) == MessageOf(e);
    }
    forall m | m in log && m.id != id && PendingIn(s.events, m)
      ensures PendingIn(events', m)
    {
      var x :| x in s.events && IsPending(x) && MessageOf(x) == m;
      assert x in events';
    }
  }

  lemma HeldBatch(s: Store, log: seq<Message>, batch: seq<OutboxEvent>, id: Id, reason: string)
    requires BatchOk(batch, s.events, log)
    ensures BatchOk(batch, Quarantine(s, id, reason).events, log)
  {
  }

  lemma HeldStep(l: Link, id: Id, reason: string)
    requires Invariant(l)
    ensures var store, held := Quarantine(l.store, id, reason), l.held + {id};
            && WellFormed(store) && StoreLogged(store.events, l.log, held, l.acked)
            && Accounted(l.log, store.events, l.acked, held)
            && BatchOk(l.batch, store.events, l.log)
            && forall e | e in store.events && IsPending(e) :: e.id != id && e in l.store.events
  {
    UpdateKeeps(l.store, id, Held(reason));
    HeldEvents(l.store, id, reason);
    HeldLogged(l.store, l.log, l.held, l.acked, id, reason);
    HeldBatch(l.store, l.log, l.batch, id, reason);
  }

  /** Dropping the head of the batch once no waiting event carries its id. */
  lemma PopBatch(batch: seq<OutboxEvent>, events: seq<OutboxEvent>, log: seq<Message>)
    requires BatchOk(batch, events, log) && batch != []
    requires forall e | e in events && IsPending(e) :: e.id != batch[0].id
    ensures BatchOk(batch[1..], events, log)
  {
    var rest := batch[1..];
    assert forall b | b in rest :: b in batch;
    forall e, i | e in events && IsPending(e) && 0 <= i < |rest| && Sequence(e) < Sequence(rest[i])
      ensures Earlier(rest, i, MessageOf(e))
    {
      assert Earlier(batch, i + 1, MessageOf(e));
      var j :| 0 <= j < i + 1 && MessageOf(batch[j]) == MessageOf(e);
      assert MessageOf(batch[j]).id == e.id;
      assert MessageOf(rest[j - 1]) == MessageOf(e);
    }
  }

  lemma AckKeepsInvariant(l: Link, at: Stamp)
    requires Invariant(l) && Enabled(l, AckStep(at))
    ensures Invariant(After(l, AckStep(at)))
  {
    var id := l.batch[0].id;
    var l' := After(l, AckStep(at));
    AcknowledgeKeeps(l.store, id, at);
    FilterElements((e: OutboxEvent) => e.id != id, l.store.events);
    assert forall e :: e in l'.store.events <==> e in l.store.events && e.id != id;
    forall m | m in l.log && m.id != id && PendingIn(l.store.events, m)
      ensures PendingIn(l'.store.events, m)
    {
      var e :| e in l.store.events && IsPending(e) && MessageOf(e) == m;
      assert e in l'.store.events;
    }
    assert BatchOk(l.batch, l'.store.events, l.log);
    PopBatch(l.batch, l'.store.events, l.log);
  }

  lemma QuarantineKeepsInvariant(l: Link, reason: string)
    requires Invariant(l) && Enabled(l, QuarantineStep(reason))
    ensures Invariant(After(l, QuarantineStep(reason)))
  {
    var id := l.batch[0].id;
    assert l.batch[0] in l.batch && MessageOf(l.batch[0]).id == id;
    HeldStep(l, id, reason);
    PopBatch(l.batch, Quarantine(l.store, id, reason).events, l.log);
  }

  lemma AckedAreLogged(l: Link)
    requires Invariant(l)
    ensures forall id | id in l.acked :: Logged(l.log, id)
  {
  }

  /** A new event is numbered above the log and waits at the end of the outbox. */
  lemma Appended(
    log: seq<Message>, events: seq<OutboxEvent>, counter: int, acked: set<Id>, held: set<Id>, e: OutboxEvent)
    requires LogOk(log, counter) && StoreLogged(events, log, held, acked) && Accounted(log, events, acked, held)
    requires IsPending(e) && Sequence(e) == counter + 1 && e.id !in acked && e.id !in held && !Logged(log, e.id)
    ensures var log', events' := log + [MessageOf(e)], events + [e];
            LogOk(log', counter + 1) && StoreLogged(events', log', held, acked) && Accounted(log', events', acked, held)
  {
    var log', events' := log + [MessageOf(e)], events + [e];
    assert e in events';
    forall m | m in log && PendingIn(events, m)
      ensures PendingIn(events', m)
    {
      var x :| x in events && IsPending(x) && MessageOf(x) == m;
      assert x in events';
    }
  }

  lemma AppendedBelow(
    log: seq<Message>, events: seq<OutboxEvent>, batch: seq<OutboxEvent>, network: set<Message>,
    counter: int, acked: set<Id>, held: set<Id>, e: OutboxEvent)
    requires LogOk(log, counter) && Sequence(e) == counter + 1
    requires BatchOk(batch, events, log) && NetworkOk(network, log, acked, held)
    ensures var log', events' := log + [MessageOf(e)], events + [e];
            BatchOk(batch, events', log') && NetworkOk(network, log', acked, held)
  {
  }

  lemma CommitNew(l: Link, snapshot: Snapshot, event: OutboxEvent)
    requires Invariant(l) && Enabled(l, CommitStep(snapshot, Some(event))) && !HasEvent(l.store, event.id)
    ensures Invariant(After(l, CommitStep(snapshot, Some(event))))
  {
    var e := Stamped(event, l.store.counter + 1);
    assert WellFormed(Commit(l.store, snapshot, Some(event))) by {
      CommitKeeps(l.store, snapshot, Some(event));
    }
    assert e.id !in l.acked && e.id !in l.held by {
      AckedAreLogged(l);
    }
    assert After(l, CommitStep(snapshot, Some(event)))
        == l.(store := Commit(l.store, snapshot, Some(event)), log := l.log + [MessageOf(e)]);
    Appended(l.log, l.store.events, l.store.counter, l.acked, l.held, e);
    AppendedBelow(l.log, l.store.events, l.batch, l.network, l.store.counter, l.acked, l.held, e);
  }

  lemma CommitKeepsInvariant(l: Link, snapshot: Snapshot, event: Option<OutboxEvent>)
    requires Invariant(l) && Enabled(l, CommitStep(snapshot, event))
    ensures Invariant(After(l, CommitStep(snapshot, event)))
  {
    if event.Some? && !HasEvent(l.store, event.value.id) {
      CommitNew(l, snapshot, event.value);
    } else {
      assert After(l, CommitStep(snapshot, event)) == l.(store := l.store.(snapshot := Some(snapshot)));
    }
  }

  lemma ListKeepsInvariant(l: Link)
    requires Invariant(l) && Enabled(l, ListStep)
    ensures Invariant(After(l, ListStep))
  {
    var events := l.store.events;
    var batch := Filter(IsPending, events);
    FilterIncreasing(IsPending, events);
    FilterElements(IsPending, events);
    assert Listing(l.store, false) == batch;
    forall b | b in batch
      ensures MessageOf(b) in l.log
    {
      assert b in events;
    }
    forall e, i | e in events && IsPending(e) && 0 <= i < |batch| && Sequence(e) < Sequence(batch[i])
      ensures Earlier(batch, i, MessageOf(e))
    {
      var j :| 0 <= j < |batch| && batch[j] == e;
      assert j < i;
    }
  }

  /** Everything below the head of the batch is settled, so the head may be sent. */
  lemma TransmitKeepsInvariant(l: Link)
    requires Invariant(l) && Enabled(l, TransmitStep)
    ensures Invariant(After(l, TransmitStep))
  {
    var head := MessageOf(l.batch[0]);
    assert l.batch[0] in l.batch;
    forall m | m in l.log && m.number < head.number
      ensures Settled(m, l.acked, l.held)
    {
      assert Settled(m, l.acked, l.held) || PendingIn(l.store.events, m);
      assert !Earlier(l.batch, 0, m);
    }
  }

  /** A first sighting below something already seen must have been held back. */
  lemma DeliverKeepsInvariant(l: Link, message: Message)
    requires Invariant(l) && Enabled(l, DeliverStep(message))
    ensures Invariant(After(l, DeliverStep(message)))
  {
    if message.id !in SeenIds(l.seen) {
      var seen' := l.seen + [message];
      assert SeenIds(seen') == SeenIds(l.seen) + {message.id};
      forall i | 0 <= i < |l.seen| && l.seen[i].number >= message.number
        ensures message.id in l.held
      {
        assert l.seen[i] in l.seen && l.seen[i] in l.network;
        if l.seen[i].number == message.number {
          SameMessage(l.log, l.store.counter, l.seen[i], message);
        }
        assert Settled(message, l.acked, l.held);
      }
    }
  }

  lemma StepKeepsInvariant(l: Link, step: Step)
    requires Invariant(l) && Enabled(l, step)
    ensures Invariant(After(l, step))
  {
    match step
    case CommitStep(snapshot, event) => CommitKeepsInvariant(l, snapshot, event);
    case ListStep => ListKeepsInvariant(l);
    case TransmitStep => TransmitKeepsInvariant(l);
    case DeliverStep(message) => DeliverKeepsInvariant(l, message);
    case AckStep(at) => AckKeepsInvariant(l, at);
    case QuarantineStep(reason) => QuarantineKeepsInvariant(l, reason);
    case RecordFailure(error) => AttemptStep(l, l.batch[0].id, error);
    case HoldStep(id, reason) => HeldStep(l, id, reason);
    case _ =>
  }

  lemma {:induction false} RunKeepsInvariant(l: Link, steps: seq<Step>)
    requires Invariant(l) && EnabledRun(l, steps)
    ensures Invariant(RunLink(l, steps))
    decreases |steps|
  {
    if steps != [] {
      StepKeepsInvariant(l, steps[0]);
      RunKeepsInvariant(After(l, steps[0]), steps[1..]);
    }
  }

  // ---------------------------------------------------------------- what holds of every run

  ghost predicate SeenExactlyOnce(seen: seq<Message>, id: Id) {
    exists i :: 0 <= i < |seen| && seen[i].id == id && forall j :: 0 <= j < |seen| && j != i ==> seen[j].id != id
  }

  lemma AckedSeenOnce(l: Link, id: Id)
    requires Invariant(l) && id in l.acked
    ensures SeenExactlyOnce(l.seen, id)
  {
  }

  lemma ResumedInvariant(store: Store)
    requires WellFormed(store)
    ensures Invariant(Resumed(store))
  {
    var l := Resumed(store);
    forall e | e in store.events
      ensures MessageOf(e) in l.log
    {
      var i :| 0 <= i < |store.events| && store.events[i] == e;
      assert l.log[i] == MessageOf(e);
    }
    forall m | m in l.log
      ensures exists e | e in store.events :: MessageOf(e) == m
    {
      var i :| 0 <= i < |l.log| && l.log[i] == m;
      assert store.events[i] in store.events;
    }
  }

  /**
   In every run, from whatever well-formed store it starts, the receiver first sees events in the order
   of their numbers, except for events that were held back; an acknowledged event is seen exactly once;
   and an event ever committed, the stored ones included, is acknowledged, held back or waiting.
   */
  lemma EveryRun(store: Store, steps: seq<Step>)
    requires WellFormed(store) && EnabledRun(Resumed(store), steps)
    ensures var l := RunLink(Resumed(store), steps);
            && InOrderUnlessHeld(l.seen, l.held)
            && (forall id | id in l.acked :: SeenExactlyOnce(l.seen, id))
            && Accounted(l.log, l.store.events, l.acked, l.held)
            && Resumed(store).log <= l.log
  {
    ResumedInvariant(store);
    RunKeepsInvariant(Resumed(store), steps);
    LogGrows(Resumed(store), steps);
    var l := RunLink(Resumed(store), steps);
    forall id | id in l.acked
      ensures SeenExactlyOnce(l.seen, id)
    {
      AckedSeenOnce(l, id);
    }
  }

  lemma {:induction false} LogGrows(l: Link, steps: seq<Step>)
    ensures l.log <= RunLink(l, steps).log
    decreases |steps|
  {
    if steps != [] {
      LogGrows(After(l, steps[0]), steps[1..]);
    }
  }

  // ---------------------------------------------------------------- runs in which nothing is held back

  ghost predicate Rising(messages: seq<Message>) {
    forall i, j :: 0 <= i < j < |messages| ==> messages[i].number < messages[j].number
  }

  /** The k-th selected message is the k-th of the log once the earlier ones are. */
  lemma NextSelected(seen: seq<Message>, log: seq<Message>, k: nat, p: nat)
    requires Rising(log) && Rising(seen) && k < |seen| && p < |log| && log[p] == seen[k]
    requires k <= |log| && forall i :: 0 <= i < k ==> seen[i] == log[i]
    requires k < p ==> log[k] in seen
    ensures p == k
  {
  }

  ghost predicate NothingLeftOutBelow(seen: seq<Message>, log: seq<Message>, number: int) {
    forall p | 0 <= p < |log| && log[p].number < number :: log[p] in seen
  }

  lemma NothingSkipped(seen: seq<Message>, log: seq<Message>, k: nat, p: nat)
    requires Rising(log) && p < |log| && NothingLeftOutBelow(seen, log, log[p].number)
    ensures k < p ==> log[k] in seen
  {
  }

  /** A selection that keeps the log's order and leaves out nothing below what it takes is a prefix. */
  lemma {:induction false} SelectionIsPrefix(seen: seq<Message>, log: seq<Message>, k: nat)
    requires Rising(log) && Rising(seen) && k <= |seen|
    requires forall m | m in seen :: m in log && NothingLeftOutBelow(seen, log, m.number)
    ensures k <= |log| && forall i :: 0 <= i < k ==> seen[i] == log[i]
    decreases k
  {
    hide NothingLeftOutBelow, Rising;
    if k > 0 {
      SelectionIsPrefix(seen, log, k - 1);
      var last := seen[k - 1];
      assert last in seen && last in log;
      var p :| 0 <= p < |log| && log[p] == last;
      NothingSkipped(seen, log, k - 1, p);
      NextSelected(seen, log, k - 1, p);
    }
  }

  lemma SeenBelow(l: Link)
    requires Invariant(l) && l.held == {}
    ensures forall n | n in l.seen :: n in l.log && NothingLeftOutBelow(l.seen, l.log, n.number)
    ensures forall id | id in l.acked :: exists m | m in l.seen :: m.id == id
  {
  }

  /** As long as nothing was held back, what the receiver has seen is a prefix of what was committed. */
  lemma SeenIsPrefix(l: Link)
    requires Invariant(l) && l.held == {}
    ensures l.seen <= l.log
  {
    SeenBelow(l);
    SelectionIsPrefix(l.seen, l.log, |l.seen|);
  }

  /** And once nothing waits any more, it is all of it. */
  lemma EmptyOutboxMeansAllSeen(l: Link)
    requires Invariant(l) && l.held == {} && Listing(l.store, false) == []
    ensures l.seen == l.log
  {
    SeenIsPrefix(l);
    SeenBelow(l);
    FilterElements(IsPending, l.store.events);
    if l.log != [] {
      var i := |l.log| - 1;
      var m := l.log[i];
      assert m in l.log && (m.id in l.acked || PendingIn(l.store.events, m));
      var s :| s in l.seen && s.id == m.id;
      SameMessage(l.log, l.store.counter, s, m);
      var q :| 0 <= q < |l.seen| && l.seen[q] == s;
      assert l.log[q] == l.log[i];
      assert q == i;
    }
  }

  // ---------------------------------------------------------------- when the order is strict

  /** The first sighting of an event that was held back, when a later event has been seen already. */
  ghost predicate SeenTooLate(l: Link, message: Message) {
    && message.id !in SeenIds(l.seen) && message.id in l.held
    && exists m | m in l.seen :: m.number > message.number
  }

  ghost predicate NothingSeenTooLate(l: Link, steps: seq<Step>)
    decreases |steps|
  {
    steps != [] ==>
      && (steps[0].DeliverStep? ==> !SeenTooLate(l, steps[0].message))
      && NothingSeenTooLate(After(l, steps[0]), steps[1..])
  }

  lemma DeliverRises(l: Link, message: Message)
    requires Invariant(l) && Rising(l.seen) && message in l.network && message.id !in SeenIds(l.seen)
    ensures Rising(l.seen + [message]) <==> !SeenTooLate(l, message)
  {
    var seen' := l.seen + [message];
    if SeenTooLate(l, message) {
      var i :| 0 <= i < |l.seen| && l.seen[i].number > message.number;
      assert seen'[i].number > seen'[|l.seen|].number;
    } else {
      forall i | 0 <= i < |l.seen|
        ensures l.seen[i].number < message.number
      {
        assert l.seen[i] in l.seen && l.seen[i] in l.network;
        assert l.seen[i].number > message.number ==> Settled(message, l.acked, l.held);
        if l.seen[i].number == message.number {
          SameMessage(l.log, l.store.counter, l.seen[i], message);
        }
      }
    }
  }

  lemma {:induction false} SeenOnlyGrows(l: Link, steps: seq<Step>)
    ensures l.seen <= RunLink(l, steps).seen
    decreases |steps|
  {
    if steps != [] {
      SeenOnlyGrows(After(l, steps[0]), steps[1..]);
    }
  }

  /**
   Whatever was lost, repeated or delayed and wherever the device crashed, the receiver sees strictly
   increasing numbers, unless and only unless a copy of an event that was held back arrives for the
   first time after a later event was seen.
   */
  lemma {:induction false} FirstSightingsRise(l: Link, steps: seq<Step>)
    requires Invariant(l) && Rising(l.seen) && EnabledRun(l, steps)
    ensures Rising(RunLink(l, steps).seen) <==> NothingSeenTooLate(l, steps)
    decreases |steps|
  {
    if steps != [] {
      var next := After(l, steps[0]);
      StepKeepsInvariant(l, steps[0]);
      if steps[0].DeliverStep? && steps[0].message.id !in SeenIds(l.seen) {
        DeliverRises(l, steps[0].message);
      }
      if Rising(next.seen) {
        FirstSightingsRise(next, steps[1..]);
      } else {
        SeenOnlyGrows(next, steps[1..]);
      }
    }
  }

  /** Only events the receiver has seen are held back by the step: known before the step is taken. */
  ghost predicate HoldsSeen(l: Link, step: Step) {
    match step
    case QuarantineStep(_) => l.batch != [] ==> l.batch[0].id in SeenIds(l.seen)
    case HoldStep(id, _) => id in SeenIds(l.seen)
    case _ => true
  }

  ghost predicate AlwaysHoldsSeen(l: Link, steps: seq<Step>)
    decreases |steps|
  {
    steps != [] ==> HoldsSeen(l, steps[0]) && AlwaysHoldsSeen(After(l, steps[0]), steps[1..])
  }

  lemma SeenStaySeen(l: Link, step: Step)
    ensures SeenIds(l.seen) <= SeenIds(After(l, step).seen)
  {
  }

  /** If an event is only held back once the receiver has seen it, the first sightings are in order. */
  lemma {:induction false} HoldingSeenKeepsOrder(l: Link, steps: seq<Step>)
    requires Invariant(l) && Rising(l.seen) && EnabledRun(l, steps)
    requires l.held <= SeenIds(l.seen) && AlwaysHoldsSeen(l, steps)
    ensures Rising(RunLink(l, steps).seen) && RunLink(l, steps).held <= SeenIds(RunLink(l, steps).seen)
    decreases |steps|
  {
    hide Invariant, Enabled;
    if steps != [] {
      var next := After(l, steps[0]);
      StepKeepsInvariant(l, steps[0]);
      SeenStaySeen(l, steps[0]);
      assert Rising(next.seen) by {
        if steps[0].DeliverStep? && steps[0].message.id !in SeenIds(l.seen) {
          EnabledDelivery(l, steps[0].message);
          DeliverRises(l, steps[0].message);
        }
      }
      HoldingSeenKeepsOrder(next, steps[1..]);
    }
  }

  lemma EnabledDelivery(l: Link, message: Message)
    requires Enabled(l, DeliverStep(message))
    ensures message in l.network
  {
  }

  lemma OneStepRun(l: Link, step: Step, rest: seq<Step>)
    requires Enabled(l, step) && EnabledRun(After(l, step), rest)
    ensures EnabledRun(l, [step] + rest) && RunLink(l, [step] + rest) == RunLink(After(l, step), rest)
  {
  }

  /** Two events committed and listed, neither sent. */
  function TwoListed(snapshot: Snapshot, first: OutboxEvent, second: OutboxEvent): Link {
    Link(Store(Some(snapshot), [first, second], 2, None), [MessageOf(first), MessageOf(second)], [first, second],
         Listed, {}, [], {}, {})
  }

  lemma CommitTwoAndList(snapshot: Snapshot, a: OutboxEvent, b: OutboxEvent) returns (steps: seq<Step>)
    requires a.id != b.id && a.disposition == Some(Pending) && b.disposition == Some(Pending)
    ensures EnabledRun(Start(None), steps)
    ensures RunLink(Start(None), steps) == TwoListed(snapshot, Stamped(a, 1), Stamped(b, 2))
  {
    var first, second := Stamped(a, 1), Stamped(b, 2);
    var c1, c2 := CommitStep(snapshot, Some(a)), CommitStep(snapshot, Some(b));
    var l1 := After(Start(None), c1);
    assert l1.store.events == [first] && l1.log == [MessageOf(first)];
    var l2 := After(l1, c2);
    assert l2.store.events == [first, second] && l2.log == [MessageOf(first), MessageOf(second)];
    assert Filter(IsPending, [first, second]) == [first] + Filter(IsPending, [second]);
    assert Filter(IsPending, [second]) == [second] + Filter(IsPending, []);
    OneStepRun(l2, ListStep, []);
    OneStepRun(l1, c2, [ListStep] + []);
    OneStepRun(Start(None), c1, [c2] + ([ListStep] + []));
    steps := [c1] + ([c2] + ([ListStep] + []));
  }

  lemma {:induction false} RunInTwoParts(l: Link, steps: seq<Step>, more: seq<Step>)
    requires EnabledRun(l, steps) && EnabledRun(RunLink(l, steps), more)
    ensures EnabledRun(l, steps + more) && RunLink(l, steps + more) == RunLink(RunLink(l, steps), more)
    decreases |steps|
  {
    if steps == [] {
      assert steps + more == more;
    } else {
      assert (steps + more)[1..] == steps[1..] + more;
      RunInTwoParts(After(l, steps[0]), steps[1..], more);
    }
  }

  lemma RefuseFirst(snapshot: Snapshot, first: OutboxEvent, second: OutboxEvent) returns (steps: seq<Step>)
    requires first.id != second.id
    ensures EnabledRun(TwoListed(snapshot, first, second), steps)
    ensures var l := RunLink(TwoListed(snapshot, first, second), steps);
            l.phase == Sending && l.network == {MessageOf(first), MessageOf(second)} && l.seen == []
  {
    var hold := QuarantineStep("");
    var l1 := After(TwoListed(snapshot, first, second), TransmitStep);
    var l2 := After(l1, ReplyRefused);
    var l3 := After(l2, hold);
    assert l3.batch == [second];
    OneStepRun(l3, TransmitStep, []);
    OneStepRun(l2, hold, [TransmitStep] + []);
    OneStepRun(l1, ReplyRefused, [hold] + ([TransmitStep] + []));
    OneStepRun(TwoListed(snapshot, first, second), TransmitStep, [ReplyRefused] + ([hold] + ([TransmitStep] + [])));
    steps := [TransmitStep] + ([ReplyRefused] + ([hold] + ([TransmitStep] + [])));
  }

  lemma DeliverInReverse(l: Link, first: Message, second: Message) returns (steps: seq<Step>)
    requires l.network == {first, second} && l.seen == [] && first.id != second.id
    ensures EnabledRun(l, steps) && RunLink(l, steps).seen == [second, first]
  {
    var l1 := After(l, DeliverStep(second));
    assert l1.seen == [second];
    OneStepRun(l1, DeliverStep(first), []);
    OneStepRun(l, DeliverStep(second), [DeliverStep(first)] + []);
    steps := [DeliverStep(second)] + ([DeliverStep(first)] + []);
  }

  /** Such a run exists: a refused event, the one after it, and then a late copy of the refused one. */
  lemma LateCopySeenOutOfOrder(snapshot: Snapshot, a: OutboxEvent, b: OutboxEvent) returns (steps: seq<Step>)
    requires a.id != b.id && a.disposition == Some(Pending) && b.disposition == Some(Pending)
    ensures EnabledRun(Start(None), steps) && !Rising(RunLink(Start(None), steps).seen)
  {
    var first, second := Stamped(a, 1), Stamped(b, 2);
    var listed := CommitTwoAndList(snapshot, a, b);
    var refused := RefuseFirst(snapshot, first, second);
    var late := DeliverInReverse(RunLink(TwoListed(snapshot, first, second), refused), MessageOf(first),
        MessageOf(second));
    RunInTwoParts(TwoListed(snapshot, first, second), refused, late);
    RunInTwoParts(Start(None), listed, refused + late);
    steps := listed + (refused + late);
    var seen := RunLink(Start(None), steps).seen;
    assert seen[0].number >= seen[1].number;
  }
}
