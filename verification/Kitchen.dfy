/**
 The kitchen state machine of the web client: orders fan out into one ticket per station,
 tickets advance alone or all together, and the order status follows its tickets.
 */
module Kitchen {
  import opened Prelude

  datatype Status = Queued | Fired | Preparing | Ready | Completed | Cancelled

  datatype Origin = Unknown | Demo | Local | Edge

  /** What orders and tickets have in common; both are versioned projections. */
  datatype Entity<D> = Entity(
    id: Id, status: Status, createdAt: Stamp, updatedAt: Stamp, version: int, origin: Origin, detail: D)

  type Station = string

  type ItemId = string

  datatype OrderLine = OrderLine(
    id: Id, menuItemId: ItemId, quantity: int, note: Option<string>, name: Option<string>, stationId: Option<Station>)

  datatype Aggregator = Aggregator(
    provider: string, brandName: string, externalOrderId: string, externalOutletId: Option<string>)

  datatype OrderDetail = OrderDetail(
    number: int, guestName: Option<string>, tableLabel: Option<string>, note: Option<string>,
    aggregator: Option<Aggregator>, lines: seq<OrderLine>, dueAt: Stamp)

  datatype TicketDetail = TicketDetail(
    orderId: Id, stationId: Station, lineIds: seq<Id>, priority: int, targetAt: Option<Stamp>)

  type Order = Entity<OrderDetail>
  type Ticket = Entity<TicketDetail>

  /** `tickets` is absent only in snapshots written before ticket-level support. */
  datatype Snapshot = Snapshot(
    organizationId: Id, outletId: Id, edgeId: Option<Id>,
    orders: seq<Order>, tickets: Option<seq<Ticket>>, nextOrderNumber: int)
  {
    function Tickets(): seq<Ticket> {
      tickets.GetOr([])
    }
  }

  datatype KitchenError =
    | UnknownOrder | UnknownTicket | UnknownOrderForTicket
    | AlreadyCompleted | StationsAtDifferentSteps | NoAvailableItem

  datatype OrderMove = OrderMove(snapshot: Snapshot, order: Order)
  datatype TicketMove = TicketMove(snapshot: Snapshot, ticket: Ticket, order: Order)

  // ---------------------------------------------------------------- collections of entities

  ghost predicate UniqueIds<D>(s: seq<Entity<D>>) {
    forall i, j :: 0 <= i < j < |s| ==> s[i].id != s[j].id
  }

  function Ids<D(==)>(s: seq<Entity<D>>): set<Id> {
    set e | e in s :: e.id
  }

  /** The first entity with the id, if there is one. */
  function Find<D>(s: seq<Entity<D>>, id: Id): (r: Option<Entity<D>>)
    ensures r.None? <==> forall e | e in s :: e.id != id
    ensures r.Some? ==> r.value in s && r.value.id == id
  {
    if s == [] then None
    else if s[0].id == id then Some(s[0])
    else Find(s[1..], id)
  }

  lemma FindUnique<D>(s: seq<Entity<D>>, e: Entity<D>)
    requires UniqueIds(s) && e in s
    ensures Find(s, e.id) == Some(e)
  {
  }

  lemma SameIdSameEntity<D>(s: seq<Entity<D>>, a: Entity<D>, b: Entity<D>)
    requires UniqueIds(s) && a in s && b in s
    ensures a.id == b.id ==> a == b
  {
  }

  /** Distinct ids survive any rearrangement. */
  lemma RearrangedIds<D>(a: seq<Entity<D>>, b: seq<Entity<D>>)
    requires UniqueIds(a) && multiset(a) == multiset(b)
    ensures UniqueIds(b)
  {
    RearrangedNoDuplicates(a, b);
    forall i, j | 0 <= i < j < |b|
      ensures b[i].id != b[j].id
    {
      assert b[i] in multiset(b) && b[j] in multiset(b);
      assert b[i] in a && b[j] in a;
      SameIdSameEntity(a, b[i], b[j]);
    }
  }

  /** The same list with e in place of every entity of its id. */
  function Replace<D>(s: seq<Entity<D>>, e: Entity<D>): (r: seq<Entity<D>>)
    ensures |r| == |s|
    ensures forall i :: 0 <= i < |s| ==> r[i] == if s[i].id == e.id then e else s[i]
    ensures forall i :: 0 <= i < |s| ==> r[i].id == s[i].id
  {
    seq(|s|, i requires 0 <= i < |s| => if s[i].id == e.id then e else s[i])
  }

  // ---------------------------------------------------------------- the machine

  /** The step that follows a status; completed and cancelled are final. */
  function Next(status: Status): Option<Status> {
    match status
    case Queued => Some(Fired)
    case Fired => Some(Preparing)
    case Preparing => Some(Ready)
    case Ready => Some(Completed)
    case Completed => None
    case Cancelled => None
  }

  function Rank(status: Status): int {
    match status
    case Queued => 0
    case Fired => 1
    case Preparing => 2
    case Ready => 3
    case Completed => 4
    case Cancelled => 5
  }

  predicate Belongs(t: Ticket, orderId: Id) {
    t.detail.orderId == orderId
  }

  predicate CanAdvanceOrder(s: Snapshot, orderId: Id) {
    var order := Find(s.orders, orderId);
    && order.Some?
    && Next(order.value.status).Some?
    && var next := Next(order.value.status).value;
    && (forall t | t in s.Tickets() && Belongs(t, orderId) :: t.status == next || Next(t.status) == Some(next))
    && ((exists t | t in s.Tickets() :: Belongs(t, orderId)) ==>
          exists t | t in s.Tickets() :: Belongs(t, orderId) && t.status != next)
  }

  /** The loop with the `changed` flag decides exactly `CanAdvanceOrder`. */
  method DecideCanAdvance(s: Snapshot, orderId: Id) returns (can: bool)
    ensures can == CanAdvanceOrder(s, orderId)
  {
    var order := Find(s.orders, orderId);
    if order.None? || Next(order.value.status).None? {
      return false;
    }
    var next := Next(order.value.status).value;
    var tickets := Filter((t: Ticket) => Belongs(t, orderId), s.Tickets());
    FilterElements((t: Ticket) => Belongs(t, orderId), s.Tickets());
    assert forall t :: t in tickets <==> t in s.Tickets() && Belongs(t, orderId);
    if |tickets| == 0 {
      return true;
    }
    assert tickets[0] in s.Tickets() && Belongs(tickets[0], orderId);
    var changed := false;
    for i := 0 to |tickets|
      invariant changed <==> exists k :: 0 <= k < i && tickets[k].status != next
      invariant forall k :: 0 <= k < i ==> tickets[k].status == next || Next(tickets[k].status) == Some(next)
    {
      if tickets[i].status == next {
        continue;
      }
      if Next(tickets[i].status) != Some(next) {
        assert tickets[i] in s.Tickets() && Belongs(tickets[i], orderId);
        return false;
      }
      changed := true;
    }
    if changed {
      var k :| 0 <= k < |tickets| && tickets[k].status != next;
      assert tickets[k] in s.Tickets() && Belongs(tickets[k], orderId);
    } else {
      assert forall t | t in tickets :: t.status == next;
    }
    return changed;
  }

  /** The statuses of one order's tickets: all that the derived order status looks at. */
  function Statuses(tickets: seq<Ticket>, orderId: Id): set<Status> {
    set t | t in tickets && Belongs(t, orderId) :: t.status
  }

  function DeriveOrderStatus(statuses: set<Status>): Status {
    if statuses == {} then Queued
    else
      var active := statuses - {Cancelled};
      if active == {} then Cancelled
      else if active <= {Completed} then Completed
      else if active <= {Ready, Completed} then Ready
      else if active * {Preparing, Ready, Completed} != {} then Preparing
      else if Fired in active then Fired
      else Queued
  }

  /** One step of an order or a ticket made on this device. */
  function Stepped<D>(e: Entity<D>, status: Status, now: Stamp): Entity<D> {
    e.(status := status, updatedAt := now, version := e.version + 1, origin := Local)
  }

  function AdvanceOrder(s: Snapshot, orderId: Id, now: Stamp): Result<OrderMove, KitchenError> {
    var found := Find(s.orders, orderId);
    if found.None? then Err(UnknownOrder)
    else if Next(found.value.status).None? then Err(AlreadyCompleted)
    else if !CanAdvanceOrder(s, orderId) then Err(StationsAtDifferentSteps)
    else
      var next := Next(found.value.status).value;
      var current := s.Tickets();
      var tickets := seq(|current|, i requires 0 <= i < |current| =>
        if !Belongs(current[i], orderId) || current[i].status == next then current[i]
        else Stepped(current[i], next, now));
      var updated := Stepped(found.value, next, now);
      Ok(OrderMove(
        s.(tickets := if s.tickets.Some? then Some(tickets) else None, orders := Replace(s.orders, updated)),
        updated))
  }

  function AdvanceTicket(s: Snapshot, ticketId: Id, now: Stamp): Result<TicketMove, KitchenError> {
    var found := Find(s.Tickets(), ticketId);
    if found.None? then Err(UnknownTicket)
    else
      var order := Find(s.orders, found.value.detail.orderId);
      if order.None? then Err(UnknownOrderForTicket)
      else if Next(found.value.status).None? then Err(AlreadyCompleted)
      else
        var ticket := Stepped(found.value, Next(found.value.status).value, now);
        var tickets := Replace(s.Tickets(), ticket);
        var derived := DeriveOrderStatus(Statuses(tickets, order.value.id));
        var updated := if derived == order.value.status then order.value else Stepped(order.value, derived, now);
        Ok(TicketMove(s.(tickets := Some(tickets), orders := Replace(s.orders, updated)), ticket, updated))
  }

  // ---------------------------------------------------------------- bulk moves are per-station moves

  /** Advancing the given tickets one after the other. */
  function AdvanceEach(s: Snapshot, ids: seq<Id>, now: Stamp): Result<Snapshot, KitchenError>
    decreases |ids|
  {
    if ids == [] then Ok(s)
    else
      match AdvanceTicket(s, ids[0], now)
      case Err(e) => Err(e)
      case Ok(move) => AdvanceEach(move.snapshot, ids[1..], now)
  }

  /** The tickets of an order that are not at the given step yet. */
  function Outstanding(tickets: seq<Ticket>, orderId: Id, next: Status): set<Id> {
    set t | t in tickets && Belongs(t, orderId) && t.status != next :: t.id
  }

  ghost predicate WellIdentified(s: Snapshot) {
    UniqueIds(s.orders) && UniqueIds(s.Tickets())
  }

  function Marked(tickets: seq<Ticket>, next: Status, moved: set<Id>, now: Stamp): (r: seq<Ticket>)
    ensures |r| == |tickets|
    ensures forall i :: 0 <= i < |tickets| ==> r[i].id == tickets[i].id
  {
    seq(|tickets|, i requires 0 <= i < |tickets| =>
      if tickets[i].id in moved then Stepped(tickets[i], next, now) else tickets[i])
  }

  /** Firing and preparing show on the order with the first ticket, the later steps with the last. */
  predicate OrderHasMoved(from: Status, moved: set<Id>, todo: set<Id>) {
    if from == Queued || from == Fired then moved != {} else moved == todo
  }

  function Either(order: Order, next: Status, moved: set<Id>, todo: set<Id>, now: Stamp): Order {
    if OrderHasMoved(order.status, moved, todo) then Stepped(order, next, now) else order
  }

  /** A snapshot in which the tickets in `moved`, and perhaps the order, have taken the step. */
  function Partially(s: Snapshot, order: Order, next: Status, moved: set<Id>, now: Stamp): Snapshot {
    s.(tickets := Some(Marked(s.Tickets(), next, moved, now)),
       orders := Replace(s.orders, Either(order, next, moved, Outstanding(s.Tickets(), order.id, next), now)))
  }

  ghost predicate InStep(tickets: seq<Ticket>, orderId: Id, from: Status, next: Status) {
    && Next(from) == Some(next)
    && forall t | t in tickets && Belongs(t, orderId) :: t.status == next || t.status == from
  }

  lemma StatusesPartway(tickets: seq<Ticket>, orderId: Id, from: Status, next: Status, moved: set<Id>, now: Stamp)
    requires InStep(tickets, orderId, from, next)
    requires moved <= Outstanding(tickets, orderId, next) && moved != {}
    ensures Statuses(Marked(tickets, next, moved, now), orderId)
            == if moved == Outstanding(tickets, orderId, next) then {next} else {from, next}
  {
  }

  /** With two adjacent statuses among the tickets, or one, the derived order status is forced. */
  lemma DeriveAdjacent(from: Status, next: Status)
    requires Next(from) == Some(next)
    ensures DeriveOrderStatus({next}) == next
    ensures DeriveOrderStatus({from, next}) == if from == Queued || from == Fired then next else from
  {
    assert {next} - {Cancelled} == {next};
    assert {from, next} - {Cancelled} == {from, next};
    if next == Fired {
      assert {next} * {Preparing, Ready, Completed} == {};
      assert {from, next} * {Preparing, Ready, Completed} == {};
    } else {
      assert next in {next} * {Preparing, Ready, Completed};
      assert next in {from, next} * {Preparing, Ready, Completed};
    }
  }

  ghost predicate Movable(s: Snapshot, order: Order, next: Status) {
    && WellIdentified(s)
    && order in s.orders
    && InStep(s.Tickets(), order.id, order.status, next)
  }

  lemma MarkOneMore(tickets: seq<Ticket>, t: Ticket, next: Status, moved: set<Id>, now: Stamp)
    requires UniqueIds(tickets) && t in tickets && t.id !in moved
    ensures UniqueIds(Marked(tickets, next, moved, now))
    ensures Find(Marked(tickets, next, moved, now), t.id) == Some(t)
    ensures Replace(Marked(tickets, next, moved, now), Stepped(t, next, now))
            == Marked(tickets, next, moved + {t.id}, now)
  {
    var i :| 0 <= i < |tickets| && tickets[i] == t;
    var marked := Marked(tickets, next, moved, now);
    assert marked[i] == t;
    FindUnique(marked, t);
    var a, b := Replace(marked, Stepped(t, next, now)), Marked(tickets, next, moved + {t.id}, now);
    forall k | 0 <= k < |tickets|
      ensures a[k] == b[k]
    {
      if tickets[k].id == t.id {
        assert k == i;
      }
    }
  }

  lemma ReplaceTwice<D>(s: seq<Entity<D>>, e: Entity<D>, first: Entity<D>, second: Entity<D>)
    requires UniqueIds(s) && e in s && first.id == second.id == e.id
    ensures Find(Replace(s, first), e.id) == Some(first)
    ensures Replace(Replace(s, first), second) == Replace(s, second)
  {
  }

  lemma ReplaceSame<D>(s: seq<Entity<D>>, e: Entity<D>)
    requires UniqueIds(s) && e in s
    ensures Replace(s, e) == s
  {
  }

  /** One more ticket: from one partial move to the next. */
  lemma PartialStep(s: Snapshot, order: Order, next: Status, moved: set<Id>, id: Id, now: Stamp)
    requires Movable(s, order, next)
    requires moved <= Outstanding(s.Tickets(), order.id, next)
    requires id in Outstanding(s.Tickets(), order.id, next) - moved
    ensures var step := AdvanceTicket(Partially(s, order, next, moved, now), id, now);
            step.Ok? && step.value.snapshot == Partially(s, order, next, moved + {id}, now)
  {
    var todo := Outstanding(s.Tickets(), order.id, next);
    var t :| t in s.Tickets() && Belongs(t, order.id) && t.status != next && t.id == id;
    assert t.status == order.status;
    MarkOneMore(s.Tickets(), t, next, moved, now);
    var first, second := Either(order, next, moved, todo, now), Either(order, next, moved + {id}, todo, now);
    ReplaceTwice(s.orders, order, first, second);
    StatusesPartway(s.Tickets(), order.id, order.status, next, moved + {id}, now);
    DeriveAdjacent(order.status, next);
  }

  lemma {:induction false} EachFromPartial(
    s: Snapshot, order: Order, next: Status, moved: set<Id>, ids: seq<Id>, now: Stamp)
    requires Movable(s, order, next)
    requires moved <= Outstanding(s.Tickets(), order.id, next)
    requires NoDuplicates(ids)
    requires (set id | id in ids) == Outstanding(s.Tickets(), order.id, next) - moved
    ensures AdvanceEach(Partially(s, order, next, moved, now), ids, now)
            == Ok(Partially(s, order, next, Outstanding(s.Tickets(), order.id, next), now))
    decreases |ids|
  {
    var todo := Outstanding(s.Tickets(), order.id, next);
    if ids == [] {
      assert todo - moved == {};
      assert moved == todo;
    } else {
      assert ids[0] in (set id | id in ids);
      PartialStep(s, order, next, moved, ids[0], now);
      RestOfIds(ids, todo - moved);
      assert todo - moved - {ids[0]} == todo - (moved + {ids[0]});
      EachFromPartial(s, order, next, moved + {ids[0]}, ids[1..], now);
    }
  }

  lemma RestOfIds(ids: seq<Id>, all: set<Id>)
    requires NoDuplicates(ids) && ids != []
    requires (set id | id in ids) == all
    ensures NoDuplicates(ids[1..])
    ensures (set id | id in ids[1..]) == all - {ids[0]}
  {
  }

  /**
   Whenever a whole order may advance, doing so is the same as advancing each of its outstanding
   tickets separately, in any order: same statuses, versions, timestamps and origins.
   */
  lemma BulkEqualsPerStation(s: Snapshot, orderId: Id, ids: seq<Id>, now: Stamp)
    requires WellIdentified(s)
    requires CanAdvanceOrder(s, orderId)
    requires exists t | t in s.Tickets() :: Belongs(t, orderId)
    requires NoDuplicates(ids)
    requires (set id | id in ids)
             == Outstanding(s.Tickets(), orderId, Next(Find(s.orders, orderId).value.status).value)
    ensures AdvanceOrder(s, orderId, now).Ok?
    ensures AdvanceEach(s, ids, now) == Ok(AdvanceOrder(s, orderId, now).value.snapshot)
  {
    var order := Find(s.orders, orderId).value;
    var next := Next(order.status).value;
    var todo := Outstanding(s.Tickets(), orderId, next);
    var t :| t in s.Tickets() && Belongs(t, orderId) && t.status != next;
    assert t.id in todo;
    NothingMoved(s, order, next, now);
    EachFromPartial(s, order, next, {}, ids, now);
    AllMoved(s, orderId, now);
  }

  lemma NothingMoved(s: Snapshot, order: Order, next: Status, now: Stamp)
    requires Movable(s, order, next) && s.tickets.Some?
    requires Outstanding(s.Tickets(), order.id, next) != {}
    ensures Partially(s, order, next, {}, now) == s
  {
    assert Marked(s.Tickets(), next, {}, now) == s.Tickets();
    ReplaceSame(s.orders, order);
  }

  lemma AllMoved(s: Snapshot, orderId: Id, now: Stamp)
    requires WellIdentified(s) && s.tickets.Some? && CanAdvanceOrder(s, orderId)
    requires var next := Next(Find(s.orders, orderId).value.status).value;
             Outstanding(s.Tickets(), orderId, next) != {}
    ensures var order := Find(s.orders, orderId).value;
            var next := Next(order.status).value;
            AdvanceOrder(s, orderId, now).value.snapshot
            == Partially(s, order, next, Outstanding(s.Tickets(), orderId, next), now)
  {
    var order := Find(s.orders, orderId).value;
    var next := Next(order.status).value;
    var tickets := s.Tickets();
    var todo := Outstanding(tickets, orderId, next);
    forall i | 0 <= i < |tickets|
      ensures tickets[i].id in todo <==> Belongs(tickets[i], orderId) && tickets[i].status != next
    {
      if tickets[i].id in todo {
        var v :| v in tickets && Belongs(v, orderId) && v.status != next && v.id == tickets[i].id;
        FindUnique(tickets, tickets[i]);
        FindUnique(tickets, v);
      }
    }
    assert AdvanceOrder(s, orderId, now).value.snapshot.Tickets() == Marked(tickets, next, todo, now);
  }
}
