/**
 The serialised driver of the web client: operations, merges of fetched projections, outcomes of
 transmissions and restarts take turns on one snapshot. Whatever their order, no pull loses or
 uproots an entity that an event still waiting in the outbox is about.
 */
module PullDriver {
  import opened Prelude
  import opened Kitchen
  import opened KitchenRuns
  import opened Mutations
  import opened Outbox
  import opened Projection

  /** `current` is the snapshot on screen; the store holds what is durable. */
  datatype Driver = Driver(current: Snapshot, store: Store)

  datatype Act =
    | Submit(op: Operation, event: OutboxEvent)
    | Merge(orders: seq<Order>, tickets: seq<Ticket>)
    | Acknowledged(id: Id, at: Stamp)
    | HeldBack(id: Id, reason: string)
    | FailedOnce(id: Id, error: Option<string>)
    | Restarted

  // ---------------------------------------------------------------- what is pending

  /** The order an event is about: its aggregate, or the order in its payload. */
  function OrderOf(m: Mutation): Id {
    m.orderId
  }

  function PendingOrders(events: seq<OutboxEvent>): set<Id> {
    set e | e in events && IsPending(e) :: OrderOf(e.mutation)
  }

  function PendingTickets(events: seq<OutboxEvent>, tickets: seq<Ticket>): set<Id> {
    (set e | e in events && IsPending(e) && e.mutation.TicketStatusChanged? :: e.mutation.ticketId)
    + (set t | t in tickets && t.detail.orderId in PendingOrders(events) :: t.id)
  }

  /** The loops of a pull over the listed events and the tickets on screen. */
  method CollectPending(
    events: seq<OutboxEvent>, tickets: seq<Ticket>) returns (orders: set<Id>, pendingTickets: set<Id>)
    requires forall e | e in events :: IsPending(e)
    ensures orders == PendingOrders(events) && pendingTickets == PendingTickets(events, tickets)
  {
    orders, pendingTickets := {}, {};
    for i := 0 to |events|
      invariant orders == PendingOrders(events[..i])
      invariant pendingTickets
                == set e | e in events[..i] && IsPending(e) && e.mutation.TicketStatusChanged? :: e.mutation.ticketId
    {
      var e := events[i];
      assert events[..i + 1] == events[..i] + [e];
      orders := orders + {OrderOf(e.mutation)};
      if e.mutation.TicketStatusChanged? {
        pendingTickets := pendingTickets + {e.mutation.ticketId};
      }
    }
    assert events[..|events|] == events;
    ghost var ofEvents := pendingTickets;
    for i := 0 to |tickets|
      invariant pendingTickets == ofEvents + set t | t in tickets[..i] && t.detail.orderId in orders :: t.id
    {
      var t := tickets[i];
      assert tickets[..i + 1] == tickets[..i] + [t];
      if t.detail.orderId in orders {
        pendingTickets := pendingTickets + {t.id};
      }
    }
    assert tickets[..|tickets|] == tickets;
  }

  // ---------------------------------------------------------------- the acts

  function Pulled(d: Driver, orders: seq<Order>, tickets: seq<Ticket>): Snapshot {
    MergeEdgeProjection(
      d.current, orders, tickets, PendingOrders(d.store.events), PendingTickets(d.store.events, d.current.Tickets()))
  }

  /** What a connected client drops of the stored snapshot when it starts. */
  function WithoutDemo(s: Snapshot): Snapshot {
    var orders := Filter((o: Order) => o.origin != Demo, s.orders);
    s.(orders := orders,
       tickets := Some(Filter((t: Ticket) => t.detail.orderId in Ids(orders), s.Tickets())),
       nextOrderNumber := HighestNumber(orders) + 1)
  }

  /** The edge never moves a ticket to another order, and what it sends is marked as its own. */
  ghost predicate FromEdge(current: Snapshot, orders: seq<Order>, tickets: seq<Ticket>) {
    && (forall o | o in orders :: o.origin == Edge)
    && (forall r, t | r in tickets && t in current.Tickets() && r.id == t.id :: r.detail.orderId == t.detail.orderId)
  }

  ghost predicate CanAct(d: Driver, act: Act) {
    match act
    case Submit(op, event) =>
      && (op.Create? ==> Fresh(op.newId, d.current))
      && (Perform(d.current, op).Some? ==> event.mutation == MutationOf(d.current, op))
    case Merge(orders, tickets) => FromEdge(d.current, orders, tickets)
    case Restarted => d.store.snapshot.Some?
    case _ => true
  }

  ghost function Acted(d: Driver, act: Act): Driver
    requires CanAct(d, act)
  {
    match act
    case Submit(op, event) =>
      var next := Perform(d.current, op);
      if next.None? then d else Driver(next.value, Commit(d.store, next.value, Some(event)))
    case Merge(orders, tickets) =>
      var next := Pulled(d, orders, tickets);
      Driver(next, Commit(d.store, next, None))
    case Acknowledged(id, at) => d.(store := Acknowledge(d.store, id, at))
    case HeldBack(id, reason) => d.(store := Quarantine(d.store, id, reason))
    case FailedOnce(id, error) => d.(store := IncrementAttempt(d.store, id, error))
    case Restarted => d.(current := WithoutDemo(d.store.snapshot.value))
  }

  // ---------------------------------------------------------------- what every act keeps

  ghost predicate Has(s: Snapshot, ticketId: Id, orderId: Id) {
    exists t | t in s.Tickets() :: t.id == ticketId && t.detail.orderId == orderId
  }

  /** The snapshot shows what the event is about: its order, and its ticket under that order. */
  ghost predicate Shows(s: Snapshot, m: Mutation) {
    OrderOf(m) in Ids(s.orders) && (m.TicketStatusChanged? ==> Has(s, m.ticketId, m.orderId))
  }

  ghost predicate Anchored(s: Snapshot, events: seq<OutboxEvent>) {
    forall e | e in events && IsPending(e) :: Shows(s, e.mutation)
  }

  ghost predicate Clean(s: Snapshot) {
    WellIdentified(s) && forall o | o in s.orders :: o.origin != Demo
  }

  ghost predicate Kept(d: Driver) {
    && Clean(d.current) && Anchored(d.current, d.store.events)
    && (d.store.snapshot.Some? ==>
          d.current == d.store.snapshot.value || d.current == WithoutDemo(d.store.snapshot.value))
  }

  /** What one snapshot shows the other shows too. */
  ghost predicate Carries(a: Snapshot, b: Snapshot) {
    && Ids(a.orders) <= Ids(b.orders)
    && forall t | t in a.Tickets() :: Has(b, t.id, t.detail.orderId)
  }

  lemma CarriesShows(a: Snapshot, b: Snapshot, m: Mutation)
    requires Carries(a, b) && Shows(a, m)
    ensures Shows(b, m)
  {
  }

  // ---------------------------------------------------------------- operations

  lemma ReplaceCarries(tickets: seq<Ticket>, updated: seq<Ticket>, t: Ticket) returns (u: Ticket)
    requires |updated| == |tickets| && t in tickets
    requires forall i | 0 <= i < |tickets| ::
               updated[i].id == tickets[i].id && updated[i].detail.orderId == tickets[i].detail.orderId
    ensures u in updated && u.id == t.id && u.detail.orderId == t.detail.orderId
  {
    var i :| 0 <= i < |tickets| && tickets[i] == t;
    u := updated[i];
  }

  lemma OrdersReplaced(orders: seq<Order>, o: Order, o': Order)
    requires UniqueIds(orders) && o in orders && o'.id == o.id
    requires (forall x | x in orders :: x.origin != Demo) && (o' == o || o'.origin == Local)
    ensures UniqueIds(Replace(orders, o')) && Ids(Replace(orders, o')) == Ids(orders)
    ensures forall x | x in Replace(orders, o') :: x.origin != Demo
  {
  }

  lemma OrderMoveCarries(s: Snapshot, orderId: Id, now: Stamp)
    requires Clean(s) && AdvanceOrder(s, orderId, now).Ok?
    ensures var move := AdvanceOrder(s, orderId, now).value;
            Clean(move.snapshot) && Carries(s, move.snapshot) && Shows(move.snapshot, OrderMutation(move))
  {
    var move := AdvanceOrder(s, orderId, now).value;
    var s' := move.snapshot;
    var o := Find(s.orders, orderId).value;
    OrdersReplaced(s.orders, o, move.order);
    forall t | t in s.Tickets()
      ensures Has(s', t.id, t.detail.orderId)
    {
      var u := ReplaceCarries(s.Tickets(), s'.Tickets(), t);
    }
    assert o in s.orders;
  }

  lemma TicketMoveCarries(s: Snapshot, ticketId: Id, now: Stamp)
    requires Clean(s) && AdvanceTicket(s, ticketId, now).Ok?
    ensures var move := AdvanceTicket(s, ticketId, now).value;
            Clean(move.snapshot) && Carries(s, move.snapshot) && Shows(move.snapshot, TicketMutation(move))
  {
    var move := AdvanceTicket(s, ticketId, now).value;
    var s' := move.snapshot;
    var t := Find(s.Tickets(), ticketId).value;
    var o := Find(s.orders, t.detail.orderId).value;
    OrdersReplaced(s.orders, o, move.order);
    ReplacedElements(s.Tickets(), t, move.ticket);
    forall x | x in s.Tickets()
      ensures Has(s', x.id, x.detail.orderId)
    {
      if x == t {
        assert move.ticket in s'.Tickets();
      } else {
        assert x in s'.Tickets();
      }
    }
    assert move.ticket in s'.Tickets() && o in s.orders;
  }

  lemma ShownAfter(s: Snapshot, s': Snapshot, order: Order, tickets: seq<Ticket>)
    requires s'.orders == [order] + s.orders && s'.Tickets() == tickets + s.Tickets()
    ensures Carries(s, s') && order.id in Ids(s'.orders)
  {
  }

  lemma CreateCarries(s: Snapshot, catalog: Catalog, input: NewOrder, newId: nat -> Id, now: Stamp)
    requires Clean(s) && Fresh(newId, s) && CreateOrder(s, catalog, input, newId, now).Ok?
    ensures var created := CreateOrder(s, catalog, input, newId, now).value;
            Clean(created.snapshot) && Carries(s, created.snapshot)
                && Shows(created.snapshot, CreatedMutation(catalog, created))
  {
    hide Carries, TicketsFor, GroupByStation, RouteLines, StationTicketIds;
    var created := CreateOrder(s, catalog, input, newId, now).value;
    var kept := KeptLines(catalog, input.lines);
    var groups := GroupByStation(catalog, WithIds(kept, newId));
    var tickets := TicketsFor(groups, created.order.id, created.order.detail.dueAt, newId, |kept| + 1, now);
    NewTickets(groups, created.order.id, created.order.detail.dueAt, newId, |kept| + 1, now, s);
    PrependUnique(tickets, s.Tickets());
    PrependUnique([created.order], s.orders);
    ShownAfter(s, created.snapshot, created.order, tickets);
  }

  lemma OperationCarries(s: Snapshot, op: Operation)
    requires Clean(s) && (op.Create? ==> Fresh(op.newId, s)) && Perform(s, op).Some?
    ensures var s' := Perform(s, op).value;
            Clean(s') && Carries(s, s') && Shows(s', MutationOf(s, op))
  {
    match op
    case Create(catalog, input, newId, now) => CreateCarries(s, catalog, input, newId, now);
    case MoveOrder(orderId, now) => OrderMoveCarries(s, orderId, now);
    case MoveTicket(ticketId, now) => TicketMoveCarries(s, ticketId, now);
  }

  lemma SubmitKeeps(d: Driver, op: Operation, event: OutboxEvent)
    requires Kept(d) && CanAct(d, Submit(op, event)) && Perform(d.current, op).Some?
    ensures Kept(Acted(d, Submit(op, event)))
  {
    hide Perform, MutationOf, Carries, Shows, Clean, WithoutDemo;
    OperationCarries(d.current, op);
    var next := Perform(d.current, op).value;
    var store := Commit(d.store, next, Some(event));
    forall e | e in store.events && IsPending(e)
      ensures Shows(next, e.mutation)
    {
      if e in d.store.events {
        CarriesShows(d.current, next, e.mutation);
      }
    }
  }

  // ---------------------------------------------------------------- merges

  lemma MergedFrom<D(!new)>(
    le: (Entity<D>, Entity<D>) -> bool, current: seq<Entity<D>>, remote: seq<Entity<D>>, pending: set<Id>, x: Entity<D>)
    requires UniqueIds(current) && x in Merged(le, current, remote, pending)
    ensures x in current || x in remote
  {
    hide Merged;
    var r := Deduplicated(remote);
    MergedHolds(le, current, remote, pending);
    UniqueIsDeduplicated(current);
    if x in ChosenAll(current, pending, r) {
      var i :| 0 <= i < |r| && ChosenAll(current, pending, r)[i] == x;
      if x !in current {
        assert x == r[i] && x in r;
        DeduplicatedIsFirstBest(remote);
        var j: nat :| j < |remote| && remote[j] == x && FirstBest(remote, j);
      }
    }
  }

  /** An order in a pending event is still there after the merge. */
  lemma PendingOrderStays(d: Driver, orders: seq<Order>, tickets: seq<Ticket>, x: Order) returns (y: Order)
    requires UniqueIds(d.current.orders) && x in d.current.orders && x.id in PendingOrders(d.store.events)
    ensures y in Pulled(d, orders, tickets).orders && y.id == x.id
    ensures x.origin == Local && (forall o | o in orders && o.id == x.id :: x.version > o.version) ==> y == x
  {
    y := PendingSurvives(NewestFirst, d.current.orders, orders, PendingOrders(d.store.events), x);
  }

  /** So is a pending ticket, under the same order. */
  lemma PendingTicketStays(d: Driver, orders: seq<Order>, tickets: seq<Ticket>, x: Ticket) returns (y: Ticket)
    requires UniqueIds(d.current.Tickets()) && FromEdge(d.current, orders, tickets)
    requires x in d.current.Tickets() && x.id in PendingTickets(d.store.events, d.current.Tickets())
    ensures y in Pulled(d, orders, tickets).Tickets() && y.id == x.id && y.detail.orderId == x.detail.orderId
    ensures x.origin == Local && (forall o | o in tickets && o.id == x.id :: x.version > o.version) ==> y == x
  {
    y := PendingSurvives(
      MostUrgentFirst, d.current.Tickets(), tickets, PendingTickets(d.store.events, d.current.Tickets()), x);
  }

  lemma MergeShows(d: Driver, orders: seq<Order>, tickets: seq<Ticket>, e: OutboxEvent)
    requires Clean(d.current) && FromEdge(d.current, orders, tickets)
    requires e in d.store.events && IsPending(e) && Shows(d.current, e.mutation)
    ensures Shows(Pulled(d, orders, tickets), e.mutation)
  {
    hide Pulled;
    var m := e.mutation;
    assert OrderOf(m) in PendingOrders(d.store.events);
    var x :| x in d.current.orders && x.id == OrderOf(m);
    var y := PendingOrderStays(d, orders, tickets, x);
    if m.TicketStatusChanged? {
      var t :| t in d.current.Tickets() && t.id == m.ticketId && t.detail.orderId == m.orderId;
      assert t.id in PendingTickets(d.store.events, d.current.Tickets());
      var u := PendingTicketStays(d, orders, tickets, t);
    }
  }

  lemma PulledClean(d: Driver, orders: seq<Order>, tickets: seq<Ticket>)
    requires Clean(d.current) && FromEdge(d.current, orders, tickets)
    ensures Clean(Pulled(d, orders, tickets))
  {
    var pending, pendingTickets := PendingOrders(d.store.events), PendingTickets(d.store.events, d.current.Tickets());
    MergedHolds(NewestFirst, d.current.orders, orders, pending);
    MergedHolds(MostUrgentFirst, d.current.Tickets(), tickets, pendingTickets);
    forall o | o in Pulled(d, orders, tickets).orders
      ensures o.origin != Demo
    {
      MergedFrom(NewestFirst, d.current.orders, orders, pending, o);
    }
  }

  lemma MergeKeeps(d: Driver, orders: seq<Order>, tickets: seq<Ticket>)
    requires Kept(d) && FromEdge(d.current, orders, tickets)
    ensures Kept(Acted(d, Merge(orders, tickets)))
  {
    hide Pulled, WithoutDemo, Shows, Clean;
    PulledClean(d, orders, tickets);
    forall e | e in d.store.events && IsPending(e)
      ensures Shows(Pulled(d, orders, tickets), e.mutation)
    {
      MergeShows(d, orders, tickets, e);
    }
  }

  // ---------------------------------------------------------------- outcomes and restarts

  /** What still waits waited before, with the same payload. */
  ghost predicate OnlyFewer(events: seq<OutboxEvent>, events': seq<OutboxEvent>) {
    forall e' | e' in events' && IsPending(e') :: exists e | e in events && IsPending(e) :: e.mutation == e'.mutation
  }

  lemma OutcomesOnlyRemove(s: Store, id: Id, at: Stamp, reason: string, error: Option<string>)
    ensures OnlyFewer(s.events, Acknowledge(s, id, at).events)
    ensures OnlyFewer(s.events, Quarantine(s, id, reason).events)
    ensures OnlyFewer(s.events, IncrementAttempt(s, id, error).events)
  {
    FilterElements((e: OutboxEvent) => e.id != id, s.events);
    var held, attempted := Quarantine(s, id, reason).events, IncrementAttempt(s, id, error).events;
    forall e' | e' in held && IsPending(e')
      ensures exists e | e in s.events && IsPending(e) :: e.mutation == e'.mutation
    {
      var i :| 0 <= i < |held| && held[i] == e';
      assert s.events[i] in s.events && s.events[i].mutation == e'.mutation && IsPending(s.events[i]);
    }
    forall e' | e' in attempted && IsPending(e')
      ensures exists e | e in s.events && IsPending(e) :: e.mutation == e'.mutation
    {
      var i :| 0 <= i < |attempted| && attempted[i] == e';
      assert s.events[i] in s.events && s.events[i].mutation == e'.mutation && IsPending(s.events[i]);
    }
  }

  /** A start drops the demo orders, their tickets and no others, and numbers on from what is left. */
  lemma DemoDropped(s: Snapshot)
    ensures var r := WithoutDemo(s);
            && (forall o :: o in r.orders <==> o in s.orders && o.origin != Demo)
            && (forall t :: t in r.Tickets() <==>
                  t in s.Tickets() && exists o | o in s.orders :: o.origin != Demo && o.id == t.detail.orderId)
            && (forall o | o in r.orders :: o.detail.number < r.nextOrderNumber)
  {
    var orders := Filter((o: Order) => o.origin != Demo, s.orders);
    FilterElements((o: Order) => o.origin != Demo, s.orders);
    FilterElements((t: Ticket) => t.detail.orderId in Ids(orders), s.Tickets());
    HighestNumberBounds(orders);
  }

  /** Without demo orders every ticket of a clean snapshot that has its order stays. */
  lemma DemoFree(s: Snapshot)
    requires Clean(s)
    ensures WithoutDemo(s).orders == s.orders
    ensures WithoutDemo(s).Tickets() == Filter((t: Ticket) => t.detail.orderId in Ids(s.orders), s.Tickets())
  {
    FilterAll((o: Order) => o.origin != Demo, s.orders);
  }

  lemma WithoutDemoKeeps(s: Snapshot, m: Mutation)
    requires Clean(s)
    ensures Clean(WithoutDemo(s)) && WithoutDemo(WithoutDemo(s)) == WithoutDemo(s)
    ensures Shows(s, m) ==> Shows(WithoutDemo(s), m)
  {
    var q := (t: Ticket) => t.detail.orderId in Ids(s.orders);
    DemoFree(s);
    FilterUniqueIds(q, s.Tickets());
    DemoFree(WithoutDemo(s));
    FilterAll(q, Filter(q, s.Tickets()));
    if Shows(s, m) && m.TicketStatusChanged? {
      var t :| t in s.Tickets() && t.id == m.ticketId && t.detail.orderId == m.orderId;
      assert t in Filter(q, s.Tickets());
      assert Has(WithoutDemo(s), m.ticketId, m.orderId);
    }
  }

  lemma RestartKeeps(d: Driver)
    requires Kept(d) && d.store.snapshot.Some?
    ensures Kept(Acted(d, Restarted))
  {
    var stored := d.store.snapshot.value;
    if d.current == stored {
      hide WithoutDemo, Shows;
      forall e | e in d.store.events && IsPending(e)
        ensures Shows(WithoutDemo(stored), e.mutation)
      {
        WithoutDemoKeeps(stored, e.mutation);
      }
      CleanWithoutDemo(stored);
    }
  }

  lemma CleanWithoutDemo(s: Snapshot)
    requires Clean(s)
    ensures Clean(WithoutDemo(s))
  {
    WithoutDemoKeeps(s, OrderStatusChanged(0, Queued, 0));
  }

  lemma ActKeeps(d: Driver, act: Act)
    requires Kept(d) && CanAct(d, act)
    ensures Kept(Acted(d, act))
  {
    hide Clean, Shows, WithoutDemo, Pulled, Perform;
    match act
    case Submit(op, event) =>
      if Perform(d.current, op).Some? {
        SubmitKeeps(d, op, event);
      }
    case Merge(orders, tickets) => MergeKeeps(d, orders, tickets);
    case Acknowledged(id, at) => OutcomesOnlyRemove(d.store, id, at, "", None);
    case HeldBack(id, reason) => OutcomesOnlyRemove(d.store, id, 0, reason, None);
    case FailedOnce(id, error) => OutcomesOnlyRemove(d.store, id, 0, "", error);
    case Restarted => RestartKeeps(d);
  }

  ghost predicate CanRun(d: Driver, acts: seq<Act>)
    decreases |acts|
  {
    acts != [] ==> CanAct(d, acts[0]) && CanRun(Acted(d, acts[0]), acts[1..])
  }

  ghost function RunDriver(d: Driver, acts: seq<Act>): Driver
    requires CanRun(d, acts)
    decreases |acts|
  {
    if acts == [] then d else RunDriver(Acted(d, acts[0]), acts[1..])
  }

  /** A client that starts with a clean snapshot and nothing to send. */
  ghost predicate Started(d: Driver) {
    Clean(d.current) && d.store.events == [] && (d.store.snapshot.None? || d.store.snapshot == Some(d.current))
  }

  lemma {:induction false} RunKeeps(d: Driver, acts: seq<Act>)
    requires Kept(d) && CanRun(d, acts)
    ensures Kept(RunDriver(d, acts))
    decreases |acts|
  {
    if acts != [] {
      ActKeeps(d, acts[0]);
      RunKeeps(Acted(d, acts[0]), acts[1..]);
    }
  }

  // ---------------------------------------------------------------- what holds of every run

  /**
   At every point of every run, the orders and tickets of the events still waiting are on screen, each
   ticket under its order, and no id is shown twice.
   */
  lemma PendingWorkIsShown(d: Driver, acts: seq<Act>, e: OutboxEvent)
    requires Started(d) && CanRun(d, acts)
    requires e in RunDriver(d, acts).store.events && IsPending(e)
    ensures Shows(RunDriver(d, acts).current, e.mutation) && WellIdentified(RunDriver(d, acts).current)
  {
    RunKeeps(d, acts);
  }

  /**
   And a pull at that point keeps every pending ticket, under an order that is kept too, and changes
   neither when they are local and newer than anything fetched.
   */
  lemma PullProtectsPendingTickets(
    d: Driver, acts: seq<Act>, orders: seq<Order>, tickets: seq<Ticket>, x: Ticket, o: Order)
    returns (y: Ticket, p: Order)
    requires Started(d) && CanRun(d, acts) && FromEdge(RunDriver(d, acts).current, orders, tickets)
    requires x in RunDriver(d, acts).current.Tickets() && o in RunDriver(d, acts).current.orders
              && x.detail.orderId == o.id
    requires o.id in PendingOrders(RunDriver(d, acts).store.events)
    ensures var next := Pulled(RunDriver(d, acts), orders, tickets);
            && y in next.Tickets() && y.id == x.id && y.detail.orderId == o.id
            && p in next.orders && p.id == o.id
            && (x.origin == Local && (forall r | r in tickets && r.id == x.id :: x.version > r.version) ==> y == x)
            && (o.origin == Local && (forall r | r in orders && r.id == o.id :: o.version > r.version) ==> p == o)
  {
    hide Pulled;
    RunKeeps(d, acts);
    var end := RunDriver(d, acts);
    y := PendingTicketStays(end, orders, tickets, x);
    p := PendingOrderStays(end, orders, tickets, o);
  }

  // ---------------------------------------------------------------- what a pull drops

  /** An order is on screen after a pull if and only if it was fetched, is pending, or was active at the edge. */
  lemma OrderSurvivesIff(d: Driver, orders: seq<Order>, tickets: seq<Ticket>, o: Order)
    requires UniqueIds(d.current.orders) && o in d.current.orders
    ensures o.id in Ids(Pulled(d, orders, tickets).orders)
            <==> || o.id in Ids(orders) || o.id in PendingOrders(d.store.events)
                 || (o.origin == Edge && o.status != Completed && o.status != Cancelled)
  {
    UniqueIsDeduplicated(d.current.orders);
    SurvivesIff(NewestFirst, d.current.orders, orders, PendingOrders(d.store.events), o);
  }

  lemma TicketSurvivesIff(d: Driver, orders: seq<Order>, tickets: seq<Ticket>, t: Ticket)
    requires UniqueIds(d.current.Tickets()) && t in d.current.Tickets()
    ensures var pending := PendingTickets(d.store.events, d.current.Tickets());
            t.id in Ids(Pulled(d, orders, tickets).Tickets())
            <==> || t.id in Ids(tickets) || t.id in pending
                 || (t.origin == Edge && t.status != Completed && t.status != Cancelled)
  {
    UniqueIsDeduplicated(d.current.Tickets());
    SurvivesIff(
      MostUrgentFirst, d.current.Tickets(), tickets, PendingTickets(d.store.events, d.current.Tickets()), t);
  }

  lemma NotPendingTicket(d: Driver, t: Ticket)
    requires Kept(d) && t in d.current.Tickets() && t.detail.orderId !in PendingOrders(d.store.events)
    ensures t.id !in PendingTickets(d.store.events, d.current.Tickets())
  {
    forall u | u in d.current.Tickets() && u.id == t.id
      ensures u == t
    {
      SameIdSameEntity(d.current.Tickets(), u, t);
    }
    forall e | e in d.store.events && IsPending(e) && e.mutation.TicketStatusChanged?
      ensures e.mutation.ticketId != t.id
    {
      assert Shows(d.current, e.mutation);
      assert e.mutation.orderId in PendingOrders(d.store.events);
    }
  }

  /** An order made here that nothing waits for and the edge does not list vanishes, and its tickets with it. */
  lemma UnlistedVanishes(d: Driver, orders: seq<Order>, tickets: seq<Ticket>, o: Order)
    requires Kept(d) && FromEdge(d.current, orders, tickets)
    requires o in d.current.orders && o.origin == Local && o.id !in PendingOrders(d.store.events)
    requires forall t | t in d.current.Tickets() && t.detail.orderId == o.id :: t.origin == Local
    requires o.id !in Ids(orders) && forall r | r in tickets :: r.detail.orderId != o.id
    ensures var next := Pulled(d, orders, tickets);
            o.id !in Ids(next.orders) && forall t | t in next.Tickets() :: t.detail.orderId != o.id
  {
    OrderSurvivesIff(d, orders, tickets, o);
    var next := Pulled(d, orders, tickets);
    forall t | t in next.Tickets() && t.detail.orderId == o.id
      ensures false
    {
      MergedFrom(
        MostUrgentFirst, d.current.Tickets(), tickets, PendingTickets(d.store.events, d.current.Tickets()), t);
      assert t in d.current.Tickets() && t.id in Ids(next.Tickets());
      NotPendingTicket(d, t);
      TicketSurvivesIff(d, orders, tickets, t);
    }
  }

  lemma OthersPending(s: Store, snapshot: Snapshot, e: OutboxEvent, reason: string)
    requires !HasEvent(s, e.id)
    ensures PendingOrders(Quarantine(Commit(s, snapshot, Some(e)), e.id, reason).events) <= PendingOrders(s.events)
  {
    var before := Commit(s, snapshot, Some(e)).events;
    var events := Quarantine(Commit(s, snapshot, Some(e)), e.id, reason).events;
    forall x | x in events && IsPending(x)
      ensures x in s.events
    {
      var i :| 0 <= i < |events| && events[i] == x;
      assert before[i] in before;
    }
  }

  lemma CreatedTogether(
    s: Snapshot, catalog: Catalog, input: NewOrder, newId: nat -> Id, now: Stamp)
    requires Fresh(newId, s) && CreateOrder(s, catalog, input, newId, now).Ok?
    requires forall t | t in s.Tickets() :: t.detail.orderId in Ids(s.orders)
    ensures var created := CreateOrder(s, catalog, input, newId, now).value;
            && created.order in created.snapshot.orders && created.order.origin == Local
            && created.order.id !in Ids(s.orders)
            && forall t | t in created.snapshot.Tickets() && t.detail.orderId == created.order.id :: t.origin == Local
  {
    hide GroupByStation, WithIds;
    var created := CreateOrder(s, catalog, input, newId, now).value;
    var kept := KeptLines(catalog, input.lines);
    var groups := GroupByStation(catalog, WithIds(kept, newId));
    var tickets := TicketsFor(groups, created.order.id, created.order.detail.dueAt, newId, |kept| + 1, now);
    assert created.snapshot.Tickets() == tickets + s.Tickets();
    forall t | t in tickets
      ensures t.origin == Local
    {
      var i :| 0 <= i < |tickets| && tickets[i] == t;
    }
  }

  lemma OneAct(d: Driver, act: Act, rest: seq<Act>)
    requires CanAct(d, act) && CanRun(Acted(d, act), rest)
    ensures CanRun(d, [act] + rest) && RunDriver(d, [act] + rest) == RunDriver(Acted(d, act), rest)
  {
    assert ([act] + rest)[1..] == rest;
  }

  lemma ThreeActs(d: Driver, a: Act, b: Act, c: Act)
    requires CanAct(d, a) && CanAct(Acted(d, a), b) && CanAct(Acted(Acted(d, a), b), c)
    ensures CanRun(d, [a, b, c]) && RunDriver(d, [a, b, c]) == Acted(Acted(Acted(d, a), b), c)
    ensures CanRun(d, [a, b]) && RunDriver(d, [a, b]) == Acted(Acted(d, a), b)
  {
    hide CanAct, Acted;
    var d1 := Acted(d, a);
    var d2 := Acted(d1, b);
    OneAct(d2, c, []);
    OneAct(d1, b, [c] + []);
    OneAct(d, a, [b] + ([c] + []));
    OneAct(d1, b, []);
    OneAct(d, a, [b] + []);
    assert [a] + ([b] + ([c] + [])) == [a, b, c] && [a] + ([b] + []) == [a, b];
  }

  /** After its event is held back a new order is pending no more, and still on screen. */
  lemma HeldBackOrder(d: Driver, op: Operation, e: OutboxEvent, reason: string) returns (d2: Driver)
    requires Kept(d) && op.Create? && Fresh(op.newId, d.current) && Perform(d.current, op).Some?
    requires forall t | t in d.current.Tickets() :: t.detail.orderId in Ids(d.current.orders)
    requires e.mutation == MutationOf(d.current, op) && !HasEvent(d.store, e.id)
    ensures CreateOrder(d.current, op.catalog, op.input, op.newId, op.now).Ok?
    ensures var created := CreateOrder(d.current, op.catalog, op.input, op.newId, op.now).value;
            && CanAct(d, Submit(op, e)) && d2 == Acted(Acted(d, Submit(op, e)), HeldBack(e.id, reason))
            && Kept(d2) && d2.current == created.snapshot && created.order in d2.current.orders
            && created.order.id == e.mutation.orderId && created.order.origin == Local
            && created.order.id !in PendingOrders(d2.store.events)
            && forall t | t in d2.current.Tickets() && t.detail.orderId == created.order.id :: t.origin == Local
  {
    hide Kept, CreateOrder, StationTicketIds, RouteLines;
    var d1 := Acted(d, Submit(op, e));
    d2 := Acted(d1, HeldBack(e.id, reason));
    ActKeeps(d, Submit(op, e));
    ActKeeps(d1, HeldBack(e.id, reason));
    CreatedTogether(d.current, op.catalog, op.input, op.newId, op.now);
    OthersPending(d.store, d1.current, e, reason);
    PendingIsShown(d);
  }

  lemma PendingIsShown(d: Driver)
    requires Kept(d)
    ensures PendingOrders(d.store.events) <= Ids(d.current.orders)
  {
  }

  /**
   An order whose creation is refused, as every order with a source is, stays on screen only until the
   next pull that does not list it, which takes it and its tickets away.
   */
  lemma RefusedOrderVanishes(
    d: Driver, op: Operation, e: OutboxEvent, reason: string, orders: seq<Order>, tickets: seq<Ticket>)
    returns (acts: seq<Act>)
    requires Kept(d) && op.Create? && Fresh(op.newId, d.current) && Perform(d.current, op).Some?
    requires forall t | t in d.current.Tickets() :: t.detail.orderId in Ids(d.current.orders)
    requires e.mutation == MutationOf(d.current, op) && !HasEvent(d.store, e.id)
    requires FromEdge(Perform(d.current, op).value, orders, tickets)
    requires e.mutation.orderId !in Ids(orders) && forall r | r in tickets :: r.detail.orderId != e.mutation.orderId
    ensures acts == [Submit(op, e), HeldBack(e.id, reason), Merge(orders, tickets)]
    ensures CanRun(d, acts) && CanRun(d, acts[..2])
    ensures e.mutation.orderId in Ids(RunDriver(d, acts[..2]).current.orders)
    ensures e.mutation.orderId !in Ids(RunDriver(d, acts).current.orders)
    ensures forall t | t in RunDriver(d, acts).current.Tickets() :: t.detail.orderId != e.mutation.orderId
  {
    hide Kept, CreateOrder, Perform, MutationOf, Pulled, HasEvent;
    CreatedSnapshot(d.current, op);
    var d2 := HeldBackOrder(d, op, e, reason);
    UnlistedVanishes(d2, orders, tickets, CreateOrder(d.current, op.catalog, op.input, op.newId, op.now).value.order);
    ThreeActs(d, Submit(op, e), HeldBack(e.id, reason), Merge(orders, tickets));
    acts := [Submit(op, e), HeldBack(e.id, reason), Merge(orders, tickets)];
    assert acts[..2] == [Submit(op, e), HeldBack(e.id, reason)];
  }

  lemma CreatedSnapshot(s: Snapshot, op: Operation)
    requires op.Create? && Perform(s, op).Some?
    ensures CreateOrder(s, op.catalog, op.input, op.newId, op.now).Ok?
    ensures Perform(s, op).value == CreateOrder(s, op.catalog, op.input, op.newId, op.now).value.snapshot
  {
  }
}
