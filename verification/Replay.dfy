/**
 The committed log rebuilds the device's kitchen at the edge: every mutation the device commits
 is accepted by the edge in commit order, and the two agree on every status and version.
 */
module Replay {
  import opened Prelude
  import opened Kitchen
  import opened KitchenRuns
  import opened Mutations
  import E = EdgeStore

  /** The edge holds exactly the device's orders and tickets, at the same statuses and versions. */
  ghost predicate Mirrors(state: E.State, s: Snapshot) {
    MirrorsOrders(state.orders, s.orders) && MirrorsTickets(state.tickets, s.Tickets())
  }

  ghost predicate MirrorsOrders(records: map<Id, E.OrderRecord>, orders: seq<Order>) {
    && records.Keys == Ids(orders)
    && forall o | o in orders :: E.ClientStatus(records[o.id].status) == o.status && records[o.id].version == o.version
  }

  function RecordOf(t: Ticket): E.TicketRecord {
    E.TicketRecord(t.detail.orderId, t.detail.stationId, t.detail.lineIds, t.status, t.version)
  }

  ghost predicate MirrorsTickets(records: map<Id, E.TicketRecord>, tickets: seq<Ticket>) {
    && records.Keys == Ids(tickets)
    && forall t | t in tickets :: records[t.id] == RecordOf(t)
  }

  lemma MirroredStatuses(records: map<Id, E.TicketRecord>, tickets: seq<Ticket>, orderId: Id)
    requires MirrorsTickets(records, tickets)
    ensures E.StatusesOf(records, orderId) == Statuses(tickets, orderId)
  {
  }

  /** The edge moves the order exactly when the client does, because the client never steps back. */
  lemma OrdersMoveTogether(order: E.OrderRecord, tickets: map<Id, E.TicketRecord>, orderId: Id, derived: Status)
    requires derived == DeriveOrderStatus(E.StatusesOf(tickets, orderId))
    requires derived != Cancelled && E.ClientStatus(order.status) != Cancelled
    requires derived == E.ClientStatus(order.status) || Next(E.ClientStatus(order.status)) == Some(derived)
    ensures var after := E.AdvanceFromTickets(order, tickets, orderId);
            && E.ClientStatus(after.status) == derived
            && after.version == if derived == E.ClientStatus(order.status) then order.version else order.version + 1
  {
    E.DerivationsAgree(E.StatusesOf(tickets, orderId));
  }

  lemma ReplacedOrderMirrored(
    records: map<Id, E.OrderRecord>, orders: seq<Order>, o: Order, o': Order, record: E.OrderRecord)
    requires MirrorsOrders(records, orders) && UniqueIds(orders) && o in orders && o'.id == o.id
    requires E.ClientStatus(record.status) == o'.status && record.version == o'.version
    ensures MirrorsOrders(records[o.id := record], Replace(orders, o'))
  {
    ReplacedElements(orders, o, o');
    assert o.id in Ids(orders);
    forall x | x in Replace(orders, o') && x != o'
      ensures x.id != o.id
    {
      FindUnique(orders, x);
      FindUnique(orders, o);
    }
  }

  lemma SteppedTicketMirrored(records: map<Id, E.TicketRecord>, tickets: seq<Ticket>, t: Ticket, to: Status, now: Stamp)
    requires MirrorsTickets(records, tickets) && UniqueIds(tickets) && t in tickets
    ensures t.id in records
    ensures MirrorsTickets(records[t.id := E.SteppedRecord(records[t.id], to)], Replace(tickets, Stepped(t, to, now)))
  {
    var t' := Stepped(t, to, now);
    ReplacedElements(tickets, t, t');
    assert t.id in Ids(tickets);
    forall x | x in Replace(tickets, t') && x != t'
      ensures x.id != t.id
    {
      FindUnique(tickets, x);
      FindUnique(tickets, t);
    }
  }

  lemma TicketMoveMirrored(
    state: E.State, orders: seq<Order>, tickets: seq<Ticket>, t: Ticket, o: Order, to: Status, now: Stamp)
    requires MirrorsOrders(state.orders, orders) && MirrorsTickets(state.tickets, tickets)
    requires UniqueIds(orders) && UniqueIds(tickets) && t in tickets && o in orders
    requires Belongs(t, o.id) && Consistent(tickets, o) && Next(t.status) == Some(to)
    ensures o.id in state.orders && t.id in state.tickets
    ensures var tickets' := Replace(tickets, Stepped(t, to, now));
            var derived := DeriveOrderStatus(Statuses(tickets', o.id));
            var o' := if derived == o.status then o else Stepped(o, derived, now);
            var records := state.tickets[t.id := E.SteppedRecord(state.tickets[t.id], to)];
            && MirrorsTickets(records, tickets')
            && MirrorsOrders(state.orders[o.id := E.AdvanceFromTickets(state.orders[o.id], records, o.id)],
               Replace(orders, o'))
  {
    assert t.id in Ids(tickets) && o.id in Ids(orders);
    var tickets' := Replace(tickets, Stepped(t, to, now));
    var derived := DeriveOrderStatus(Statuses(tickets', o.id));
    var o' := if derived == o.status then o else Stepped(o, derived, now);
    var records := state.tickets[t.id := E.SteppedRecord(state.tickets[t.id], to)];
    SteppedTicketMirrored(state.tickets, tickets, t, to, now);
    MirroredStatuses(records, tickets', o.id);
    TicketMoveOnTickets(tickets, t, o, to, now);
    NeverCancelled(tickets, o);
    StepNotCancelled(o.status, derived);
    OrdersMoveTogether(state.orders[o.id], records, o.id, derived);
    ReplacedOrderMirrored(state.orders, orders, o, o', E.AdvanceFromTickets(state.orders[o.id], records, o.id));
  }

  lemma TicketAccepted(state: E.State, m: Mutation)
    requires m.TicketStatusChanged? && m.ticketId in state.tickets
    requires var t := state.tickets[m.ticketId];
             && t.orderId == m.orderId && t.version == m.expectedVersion && t.orderId in state.orders
             && E.CanTransitionTicket(t.status, m.toStatus)
    ensures var records := state.tickets[m.ticketId := E.SteppedRecord(state.tickets[m.ticketId], m.toStatus)];
            E.TransitionTicket(state, m)
            == Ok(state.(tickets := records,
                         orders := state.orders[m.orderId :=
                             E.AdvanceFromTickets(state.orders[m.orderId], records, m.orderId)]))
  {
  }

  lemma NextIsAllowed(from: Status, to: Status)
    requires Next(from) == Some(to)
    ensures E.CanTransitionTicket(from, to)
  {
  }

  /** A ticket move committed on the device is accepted by a mirroring edge, which still mirrors. */
  lemma TicketMoveReplays(state: E.State, s: Snapshot, t: Ticket, o: Order, now: Stamp)
    requires Mirrors(state, s) && WellIdentified(s)
    requires t in s.Tickets() && o in s.orders && Belongs(t, o.id) && Consistent(s.Tickets(), o)
    requires Next(t.status).Some?
    ensures AdvanceTicket(s, t.id, now).Ok?
    ensures var move := AdvanceTicket(s, t.id, now).value;
            var reply := E.TransitionTicket(state, TicketMutation(move));
            && reply.Ok? && Mirrors(reply.value, move.snapshot) && reply.value.replies == state.replies
  {
    hide DeriveOrderStatus, Consistent, E.TransitionTicket, E.AdvanceFromTickets, E.CanTransitionTicket;
    FindUnique(s.Tickets(), t);
    FindUnique(s.orders, o);
    var to := Next(t.status).value;
    var move := AdvanceTicket(s, t.id, now).value;
    TicketMoveMirrored(state, s.orders, s.Tickets(), t, o, to, now);
    assert move.ticket == Stepped(t, to, now) && move.order.id == o.id;
    assert state.tickets[t.id] == RecordOf(t);
    NextIsAllowed(t.status, to);
    TicketAccepted(state, TicketMutation(move));
  }

  lemma StepNotCancelled(from: Status, to: Status)
    requires from != Cancelled && (to == from || Next(from) == Some(to))
    ensures to != Cancelled
  {
  }

  lemma NeverCancelled(tickets: seq<Ticket>, o: Order)
    requires Consistent(tickets, o)
    ensures o.status != Cancelled
  {
  }

  lemma MovedTicketsMirrored(records: map<Id, E.TicketRecord>, s: Snapshot, orderId: Id, now: Stamp)
    requires AdvanceOrder(s, orderId, now).Ok? && s.tickets.Some?
    requires MirrorsTickets(records, s.Tickets())
    ensures var move := AdvanceOrder(s, orderId, now).value;
            MirrorsTickets(E.MoveAll(records, orderId, move.order.status), move.snapshot.Tickets())
  {
    var move := AdvanceOrder(s, orderId, now).value;
    var before, after := s.Tickets(), move.snapshot.Tickets();
    forall t | t in after
      ensures t.id in records && E.MoveAll(records, orderId, move.order.status)[t.id] == RecordOf(t)
    {
      var i :| 0 <= i < |after| && after[i] == t;
      assert before[i] in before && before[i].id in Ids(before);
    }
    forall id | id in Ids(before)
      ensures id in Ids(after)
    {
      var t :| t in before && t.id == id;
      var i :| 0 <= i < |before| && before[i] == t;
      assert after[i] in after;
    }
  }

  lemma EdgeTicketsCanFollow(
    records: map<Id, E.TicketRecord>, tickets: seq<Ticket>, orderId: Id, from: Status, next: Status)
    requires MirrorsTickets(records, tickets) && InStep(tickets, orderId, from, next) && from != Cancelled
    ensures forall k | k in records && records[k].orderId == orderId && records[k].status != next ::
              E.CanTransitionTicket(records[k].status, next)
  {
  }

  lemma AdvanceableInStep(s: Snapshot, o: Order, now: Stamp)
    requires Find(s.orders, o.id) == Some(o) && AdvanceOrder(s, o.id, now).Ok?
    ensures InStep(s.Tickets(), o.id, o.status, Next(o.status).value)
  {
  }

  /** Nothing stands between the checks of a whole-order transition and its effect. */
  lemma OrderTransitionAccepted(state: E.State, m: Mutation, somewhere: Id)
    requires m.OrderStatusChanged? && m.orderId in state.orders
    requires m.expectedVersion != 0 && state.orders[m.orderId].version == m.expectedVersion
    requires forall k | k in state.tickets && state.tickets[k].orderId == m.orderId
              && state.tickets[k].status != m.toStatus ::
               E.CanTransitionTicket(state.tickets[k].status, m.toStatus)
    requires somewhere in state.tickets && state.tickets[somewhere].orderId == m.orderId
    requires state.tickets[somewhere].status != m.toStatus
    ensures var records := E.MoveAll(state.tickets, m.orderId, m.toStatus);
            E.TransitionOrderTickets(state, m) == Ok(state.(
              tickets := records,
              orders := state.orders[m.orderId := E.AdvanceFromTickets(state.orders[m.orderId], records, m.orderId)]))
  {
  }

  lemma SomewhereToGo(records: map<Id, E.TicketRecord>, s: Snapshot, o: Order, now: Stamp) returns (somewhere: Id)
    requires MirrorsTickets(records, s.Tickets())
    requires AdvanceOrder(s, o.id, now).Ok? && Find(s.orders, o.id) == Some(o) && Consistent(s.Tickets(), o)
    ensures somewhere in records && records[somewhere].orderId == o.id
    ensures records[somewhere].status != Next(o.status).value
  {
    var t :| t in s.Tickets() && Belongs(t, o.id) && t.status != Next(o.status).value;
    somewhere := t.id;
    assert t.id in Ids(s.Tickets());
  }

  lemma OrderMoveMirrored(state: E.State, s: Snapshot, o: Order, now: Stamp)
    requires MirrorsOrders(state.orders, s.orders) && MirrorsTickets(state.tickets, s.Tickets())
    requires UniqueIds(s.orders) && s.tickets.Some?
    requires AdvanceOrder(s, o.id, now).Ok? && Find(s.orders, o.id) == Some(o) && Consistent(s.Tickets(), o)
    ensures o.id in state.orders
    ensures var move := AdvanceOrder(s, o.id, now).value;
            var records := E.MoveAll(state.tickets, o.id, move.order.status);
            && MirrorsTickets(records, move.snapshot.Tickets())
            && MirrorsOrders(state.orders[o.id := E.AdvanceFromTickets(state.orders[o.id], records, o.id)],
               move.snapshot.orders)
  {
    hide DeriveOrderStatus, E.Derive, E.AdvanceFromTickets, MirrorsTickets, CanAdvanceOrder;
    var next := Next(o.status).value;
    var move := AdvanceOrder(s, o.id, now).value;
    var records := E.MoveAll(state.tickets, o.id, next);
    assert o.id in Ids(s.orders);
    MovedTicketsMirrored(state.tickets, s, o.id, now);
    MirroredStatuses(records, move.snapshot.Tickets(), o.id);
    OrderMoveConsistent(s, o, now);
    NeverCancelled(s.Tickets(), o);
    StepNotCancelled(o.status, next);
    OrdersMoveTogether(state.orders[o.id], records, o.id, next);
    ReplacedOrderMirrored(state.orders, s.orders, o, move.order,
        E.AdvanceFromTickets(state.orders[o.id], records, o.id));
  }

  /** A whole-order move committed on the device is accepted by a mirroring edge, which still mirrors. */
  lemma OrderMoveReplays(state: E.State, s: Snapshot, o: Order, now: Stamp)
    requires Mirrors(state, s) && UniqueIds(s.orders) && s.tickets.Some?
    requires o in s.orders && Consistent(s.Tickets(), o) && AdvanceOrder(s, o.id, now).Ok?
    ensures var move := AdvanceOrder(s, o.id, now).value;
            var reply := E.TransitionOrderTickets(state, OrderMutation(move));
            && reply.Ok? && Mirrors(reply.value, move.snapshot) && reply.value.replies == state.replies
  {
    hide DeriveOrderStatus, E.TransitionOrderTickets, E.AdvanceFromTickets, E.MoveAll;
    FindUnique(s.orders, o);
    NeverCancelled(s.Tickets(), o);
    AdvanceableInStep(s, o, now);
    EdgeTicketsCanFollow(state.tickets, s.Tickets(), o.id, o.status, Next(o.status).value);
    OrderMoveMirrored(state, s, o, now);
    var somewhere := SomewhereToGo(state.tickets, s, o, now);
    OrderTransitionAccepted(state, OrderMutation(AdvanceOrder(s, o.id, now).value), somewhere);
  }

  // ---------------------------------------------------------------- created orders

  function TicketStations(tickets: seq<Ticket>): set<Station> {
    set t | t in tickets :: t.detail.stationId
  }

  ghost predicate OwnStations(tickets: seq<Ticket>, orderId: Id) {
    && (forall t | t in tickets :: Belongs(t, orderId))
    && (forall i, j :: 0 <= i < j < |tickets| ==> tickets[i].detail.stationId != tickets[j].detail.stationId)
  }

  lemma {:induction false} OtherTicketsUnsent(a: seq<Ticket>, b: seq<Ticket>, orderId: Id)
    requires forall t | t in b :: !Belongs(t, orderId)
    ensures StationTicketIds(a + b, orderId) == StationTicketIds(a, orderId)
  {
    if b == [] {
      assert a + b == a;
    } else {
      assert (a + b)[..|a + b| - 1] == a + b[..|b| - 1];
      OtherTicketsUnsent(a, b[..|b| - 1], orderId);
    }
  }

  lemma {:induction false} SentTicketIds(tickets: seq<Ticket>, orderId: Id)
    requires OwnStations(tickets, orderId)
    ensures var ids := StationTicketIds(tickets, orderId);
            && ids.Keys == TicketStations(tickets)
            && (forall t | t in tickets :: ids[t.detail.stationId] == t.id)
  {
    if tickets != [] {
      var before, last := tickets[..|tickets| - 1], tickets[|tickets| - 1];
      SentTicketIds(before, orderId);
      assert forall t :: t in tickets <==> t in before || t == last;
      forall t | t in before
        ensures t.detail.stationId != last.detail.stationId
      {
        var i :| 0 <= i < |before| && before[i] == t;
        assert tickets[i] == t;
      }
    }
  }

  lemma {:induction false} StationOrderCovers(lines: seq<RoutedLine>)
    ensures NoDuplicates(E.StationOrder(lines))
    ensures forall station :: station in E.StationOrder(lines) <==> station in E.SentStations(lines)
  {
    if lines != [] {
      var before, last := lines[..|lines| - 1], lines[|lines| - 1];
      StationOrderCovers(before);
      assert forall l :: l in lines <==> l in before || l == last;
    }
  }

  /** The tickets an accepted order adds, when the client chose an id for every station. */
  lemma {:induction false} AddTicketsEffect(
    tickets: map<Id, E.TicketRecord>, m: Mutation, setup: E.Setup, stations: seq<Station>)
    requires m.OrderCreated? && NoDuplicates(stations)
    requires forall station | station in stations ::
               station in m.stationTicketIds && m.stationTicketIds[station] !in tickets
    requires forall a, b | a in m.stationTicketIds && b in m.stationTicketIds ::
               a != b ==> m.stationTicketIds[a] != m.stationTicketIds[b]
    ensures var r := E.AddTickets(tickets, m, setup.mint, stations);
            && r.Some?
            && (forall k | k in tickets :: k in r.value && r.value[k] == tickets[k])
            && (forall station | station in stations ::
                  && m.stationTicketIds[station] in r.value
                  && r.value[m.stationTicketIds[station]]
                     == E.TicketRecord(m.orderId, station, E.SentTo(m.lines, station), Queued, 1))
            && (forall k | k in r.value ::
                  k in tickets || exists station | station in stations :: k == m.stationTicketIds[station])
  {
    if stations != [] {
      var before, last := stations[..|stations| - 1], stations[|stations| - 1];
      assert forall station :: station in stations <==> station in before || station == last;
      assert last !in before;
      AddTicketsEffect(tickets, m, setup, before);
    }
  }

  /** A line the edge takes, its lengths counted in bytes and those of name and station without outer white space. */
  ghost predicate LineWithinLimits(setup: E.Setup, l: RoutedLine) {
    && 1 <= setup.trimmedBytes(l.name) <= 256 && 1 <= setup.trimmedBytes(l.station) <= 128
    && 1 <= l.quantity <= 10_000
    && setup.bytes(l.menuItemId) <= 128 && setup.bytes(l.preparationNote) <= 1_000
  }

  lemma LimitsOfLines(setup: E.Setup)
    ensures forall l :: LineWithinLimits(setup, l) <==> E.ValidLine(setup, l)
  {
  }

  /** What the edge demands of a created order beyond what the client checks. */
  ghost predicate WithinEdgeLimits(setup: E.Setup, catalog: Catalog, order: Order) {
    && order.detail.aggregator.None?
    && (order.detail.guestName.Some? ==> setup.bytes(order.detail.guestName.value) <= 256)
    && (order.detail.tableLabel.Some? ==> setup.bytes(order.detail.tableLabel.value) <= 64)
    && (order.detail.note.Some? ==> setup.bytes(order.detail.note.value) <= 1_000)
    && |order.detail.lines| <= 500
    && (forall l | l in order.detail.lines :: LineWithinLimits(setup, RouteLine(catalog, l)))
  }

  /** The device and the created event route every line of the order to the same station. */
  ghost predicate StationsAgree(catalog: Catalog, lines: seq<OrderLine>) {
    forall l | l in lines :: SentStation(catalog, l) == LocalStation(catalog, l)
  }

  /** Then each station gets the same lines in the same order. */
  lemma {:induction false} AgreeingLines(catalog: Catalog, lines: seq<OrderLine>, station: Station)
    requires StationsAgree(catalog, lines)
    ensures E.SentTo(RouteLines(catalog, lines), station) == LinesAt(catalog, lines, station)
  {
    if lines != [] {
      var before, last := lines[..|lines| - 1], lines[|lines| - 1];
      assert forall l | l in before :: l in lines;
      assert last in lines;
      AgreeingLines(catalog, before, station);
      assert RouteLines(catalog, lines)[..|lines| - 1] == RouteLines(catalog, before);
    }
  }

  lemma AgreeingStations(catalog: Catalog, lines: seq<OrderLine>)
    requires StationsAgree(catalog, lines)
    ensures E.SentStations(RouteLines(catalog, lines)) == LineStations(catalog, lines)
  {
    var sent := RouteLines(catalog, lines);
    forall i | 0 <= i < |lines|
      ensures sent[i] in sent && sent[i].station == LocalStation(catalog, lines[i]) && lines[i] in lines
    {
    }
  }

  lemma {:induction false} SentToHas(lines: seq<RoutedLine>, station: Station, id: Id) returns (l: RoutedLine)
    requires id in E.SentTo(lines, station)
    ensures l in lines && l.id == id && l.station == station
  {
    var before, last := lines[..|lines| - 1], lines[|lines| - 1];
    if id in E.SentTo(before, station) {
      l := SentToHas(before, station, id);
    } else {
      l := last;
    }
  }

  lemma {:induction false} LinesAtHas(catalog: Catalog, lines: seq<OrderLine>, line: OrderLine)
    requires line in lines
    ensures line.id in LinesAt(catalog, lines, LocalStation(catalog, line))
  {
    var before, last := lines[..|lines| - 1], lines[|lines| - 1];
    if line != last {
      assert line in before;
      LinesAtHas(catalog, before, line);
    }
  }

  /** The parts of a newly created order: its lines, its tickets and the mutation sent for it. */
  ghost predicate NewlyCreated(
    s: Snapshot, catalog: Catalog, order: Order, tickets: seq<Ticket>, lines: seq<OrderLine>, m: Mutation)
  {
    && order.detail.lines == lines && lines != []
    && order.id !in Ids(s.orders) && order.status == Queued && order.version == 1
    && OwnStations(tickets, order.id) && TicketStations(tickets) == LineStations(catalog, lines)
    && UniqueIds(tickets)
    && (forall t | t in tickets ::
          t.id !in Ids(s.Tickets()) && t.id != order.id && t.status == Queued && t.version == 1)
    && (forall l | l in lines :: l.quantity > 0 && l.id != order.id && forall t | t in tickets :: t.id != l.id)
    && (forall i, j :: 0 <= i < j < |lines| ==> lines[i].id != lines[j].id)
    && (forall t | t in tickets :: t.detail.lineIds == LinesAt(catalog, lines, t.detail.stationId))
    && m == OrderCreated(
              order.id, order.detail.guestName, order.detail.tableLabel, order.detail.note, order.detail.aggregator,
              StationTicketIds(tickets, order.id), RouteLines(catalog, lines))
  }

  lemma CreatedLines(catalog: Catalog, kept: seq<NewLine>, newId: nat -> Id)
    requires forall l | l in kept :: Available(catalog, l)
    requires forall i: nat, j: nat :: newId(i) == newId(j) ==> i == j
    ensures var lines := WithIds(kept, newId);
            && (forall l | l in lines :: l.quantity > 0 && exists i: nat | i < |kept| :: l.id == newId(i))
            && (forall i, j :: 0 <= i < j < |lines| ==> lines[i].id != lines[j].id)
  {
    var lines := WithIds(kept, newId);
    forall l | l in lines
      ensures l.quantity > 0 && exists i: nat | i < |kept| :: l.id == newId(i)
    {
      var i :| 0 <= i < |lines| && lines[i] == l;
      assert kept[i] in kept && l.id == newId(i);
    }
  }

  lemma CreatedTickets(
    groups: seq<StationLines>, orderId: Id, dueAt: Stamp, newId: nat -> Id, first: nat, now: Stamp)
    requires DistinctStations(groups)
    ensures var tickets := TicketsFor(groups, orderId, dueAt, newId, first, now);
            && OwnStations(tickets, orderId)
            && TicketStations(tickets) == StationsOf(groups)
            && (forall t | t in tickets :: exists i: nat | first <= i :: t.id == newId(i))
            && (forall t | t in tickets ::
                  exists g | g in groups :: t.detail.stationId == g.station && t.detail.lineIds == g.lineIds)
  {
    var tickets := TicketsFor(groups, orderId, dueAt, newId, first, now);
    forall t | t in tickets
      ensures Belongs(t, orderId) && t.detail.stationId in StationsOf(groups)
      ensures exists i: nat | first <= i :: t.id == newId(i)
      ensures exists g | g in groups :: t.detail.stationId == g.station && t.detail.lineIds == g.lineIds
    {
      var i :| 0 <= i < |tickets| && tickets[i] == t;
      assert groups[i] in groups && t.id == newId(first + i);
    }
    forall g | g in groups
      ensures g.station in TicketStations(tickets)
    {
      var i :| 0 <= i < |groups| && groups[i] == g;
      assert tickets[i] in tickets;
    }
  }

  lemma CreatedParts(s: Snapshot, catalog: Catalog, input: NewOrder, newId: nat -> Id, now: Stamp)
    returns (tickets: seq<Ticket>)
    requires Fresh(newId, s) && CreateOrder(s, catalog, input, newId, now).Ok?
    requires forall t | t in s.Tickets() :: t.detail.orderId in Ids(s.orders)
    ensures var created := CreateOrder(s, catalog, input, newId, now).value;
            && created.snapshot.orders == [created.order] + s.orders
            && created.snapshot.tickets == Some(tickets + s.Tickets())
            && NewlyCreated(s, catalog, created.order, tickets, created.order.detail.lines,
               CreatedMutation(catalog, created))
  {
    hide GroupByStation, TicketsFor, RouteLines, DeriveOrderStatus;
    var created := CreateOrder(s, catalog, input, newId, now).value;
    var order := created.order;
    var kept := KeptLines(catalog, input.lines);
    var lines := WithIds(kept, newId);
    var groups := GroupByStation(catalog, lines);
    tickets := TicketsFor(groups, order.id, order.detail.dueAt, newId, |kept| + 1, now);
    GroupsPartitionLines(catalog, lines);
    NewTickets(groups, order.id, order.detail.dueAt, newId, |kept| + 1, now, s);
    CreatedTickets(groups, order.id, order.detail.dueAt, newId, |kept| + 1, now);
    FilterElements((line: NewLine) => Available(catalog, line), input.lines);
    CreatedLines(catalog, kept, newId);
    OtherTicketsUnsent(tickets, s.Tickets(), order.id);
  }

  lemma SentLines(catalog: Catalog, lines: seq<OrderLine>)
    ensures forall l | l in RouteLines(catalog, lines) :: exists x | x in lines :: l == RouteLine(catalog, x)
    ensures forall x | x in lines :: RouteLine(catalog, x) in RouteLines(catalog, lines)
  {
    var sent := RouteLines(catalog, lines);
    forall x | x in lines
      ensures RouteLine(catalog, x) in sent
    {
      var i :| 0 <= i < |lines| && lines[i] == x;
      assert sent[i] in sent;
    }
  }

  /** The ticket ids sent are those of the created tickets, one for each station in use. */
  lemma SentIdsAreValid(s: Snapshot, catalog: Catalog, order: Order, tickets: seq<Ticket>, m: Mutation)
    requires NewlyCreated(s, catalog, order, tickets, order.detail.lines, m)
    ensures m.stationTicketIds.Keys == LineStations(catalog, order.detail.lines)
    ensures forall station | station in m.stationTicketIds ::
              exists t | t in tickets :: t.detail.stationId == station && m.stationTicketIds[station] == t.id
    ensures forall a, b | a in m.stationTicketIds && b in m.stationTicketIds ::
              a != b ==> m.stationTicketIds[a] != m.stationTicketIds[b]
  {
    SentTicketIds(tickets, order.id);
    forall station | station in m.stationTicketIds
      ensures exists t | t in tickets :: t.detail.stationId == station && m.stationTicketIds[station] == t.id
    {
      assert station in TicketStations(tickets);
    }
    forall a, b | a in m.stationTicketIds && b in m.stationTicketIds && a != b
      ensures m.stationTicketIds[a] != m.stationTicketIds[b]
    {
      DistinctTicketIds(tickets, order.id, a, b);
    }
  }

  lemma CreatedIsValid(
    s: Snapshot, catalog: Catalog, order: Order, tickets: seq<Ticket>, m: Mutation, setup: E.Setup)
    requires NewlyCreated(s, catalog, order, tickets, order.detail.lines, m)
    requires WithinEdgeLimits(setup, catalog, order) && StationsAgree(catalog, order.detail.lines)
    ensures E.ValidOrder(setup, m)
  {
    hide E.ValidLine, LineWithinLimits, StationTicketIds, LinesAt, E.SentStations, LineStations, TicketStations,
        OwnStations;
    LimitsOfLines(setup);
    SentLines(catalog, order.detail.lines);
    SentIdsAreValid(s, catalog, order, tickets, m);
    AgreeingStations(catalog, order.detail.lines);
    assert |m.stationTicketIds| == |m.stationTicketIds.Keys|;
  }

  lemma DistinctTicketIds(tickets: seq<Ticket>, orderId: Id, a: Station, b: Station)
    requires OwnStations(tickets, orderId) && UniqueIds(tickets) && a != b
    requires a in StationTicketIds(tickets, orderId) && b in StationTicketIds(tickets, orderId)
    ensures StationTicketIds(tickets, orderId)[a] != StationTicketIds(tickets, orderId)[b]
  {
    SentTicketIds(tickets, orderId);
    assert a in TicketStations(tickets) && b in TicketStations(tickets);
    var t :| t in tickets && t.detail.stationId == a;
    var u :| u in tickets && u.detail.stationId == b;
    FindUnique(tickets, t);
    FindUnique(tickets, u);
  }

  /** Whatever stations the lines were sent with, the edge adds one queued ticket for each of them. */
  lemma CreatedTicketsMirrored(
    state: E.State, s: Snapshot, catalog: Catalog, order: Order, tickets: seq<Ticket>, m: Mutation, setup: E.Setup)
    requires MirrorsTickets(state.tickets, s.Tickets())
    requires NewlyCreated(s, catalog, order, tickets, order.detail.lines, m)
    requires StationsAgree(catalog, order.detail.lines)
    ensures var added := E.AddTickets(state.tickets, m, setup.mint, E.StationOrder(m.lines));
            added.Some? && MirrorsTickets(added.value, tickets + s.Tickets())
  {
    var stations := E.StationOrder(m.lines);
    SentTicketIds(tickets, order.id);
    StationOrderCovers(m.lines);
    AgreeingStations(catalog, order.detail.lines);
    forall a, b | a in m.stationTicketIds && b in m.stationTicketIds && a != b
      ensures m.stationTicketIds[a] != m.stationTicketIds[b]
    {
      DistinctTicketIds(tickets, order.id, a, b);
    }
    forall station | station in stations
      ensures exists t | t in tickets :: t.detail.stationId == station
    {
      assert station in TicketStations(tickets);
    }
    AddTicketsEffect(state.tickets, m, setup, stations);
    var added := E.AddTickets(state.tickets, m, setup.mint, stations).value;
    forall t | t in tickets
      ensures t.id in added && added[t.id] == RecordOf(t)
    {
      assert t.detail.stationId in TicketStations(tickets);
      assert t.detail.stationId in stations;
      AgreeingLines(catalog, order.detail.lines, t.detail.stationId);
    }
    forall t | t in s.Tickets()
      ensures t.id in added && added[t.id] == RecordOf(t)
    {
      assert t.id in Ids(s.Tickets());
    }
    forall k
      ensures k in added <==> k in Ids(tickets + s.Tickets())
    {
      if k in added && k !in state.tickets {
        var station :| station in stations && k == m.stationTicketIds[station];
        var t :| t in tickets && t.detail.stationId == station;
        assert t in tickets + s.Tickets() && t.id == k;
      } else if k in state.tickets {
        var t :| t in s.Tickets() && t.id == k;
        assert t in tickets + s.Tickets();
      }
    }
  }

  /** A created order within the edge's limits, whose stations agree, is accepted and mirrored. */
  lemma CreateReplays(
    state: E.State, s: Snapshot, catalog: Catalog, input: NewOrder, newId: nat -> Id, now: Stamp, setup: E.Setup)
    requires Mirrors(state, s) && Fresh(newId, s) && CreateOrder(s, catalog, input, newId, now).Ok?
    requires forall t | t in s.Tickets() :: t.detail.orderId in Ids(s.orders)
    requires var order := CreateOrder(s, catalog, input, newId, now).value.order;
             WithinEdgeLimits(setup, catalog, order) && StationsAgree(catalog, order.detail.lines)
    ensures var created := CreateOrder(s, catalog, input, newId, now).value;
            var reply := E.CreateOrder(state, CreatedMutation(catalog, created), setup);
            && reply.Ok? && Mirrors(reply.value, created.snapshot) && reply.value.replies == state.replies
  {
    var created := CreateOrder(s, catalog, input, newId, now).value;
    var m := CreatedMutation(catalog, created);
    var tickets := CreatedParts(s, catalog, input, newId, now);
    CreatedIsValid(s, catalog, created.order, tickets, m, setup);
    CreatedTicketsMirrored(state, s, catalog, created.order, tickets, m, setup);
    CreatedOrderMirrored(state.orders, s.orders, created.order);
  }

  lemma CreatedOrderMirrored(records: map<Id, E.OrderRecord>, orders: seq<Order>, order: Order)
    requires MirrorsOrders(records, orders) && order.id !in Ids(orders) && order.status == Queued && order.version == 1
    ensures MirrorsOrders(records[order.id := E.OrderRecord(E.Received, 1)], [order] + orders)
  {
  }

  // ---------------------------------------------------------------- the discrepancies, and their exact condition

  /** Every ticket an accepted order adds is queued at a station with the lines sent there. */
  lemma {:induction false} AddedRecords(
    tickets: map<Id, E.TicketRecord>, m: Mutation, mint: Station -> Id, stations: seq<Station>, k: Id)
    requires m.OrderCreated? && E.AddTickets(tickets, m, mint, stations).Some?
    requires k in E.AddTickets(tickets, m, mint, stations).value && k !in tickets
    ensures var record := E.AddTickets(tickets, m, mint, stations).value[k];
            record == E.TicketRecord(m.orderId, record.station, E.SentTo(m.lines, record.station), Queued, 1)
  {
    if stations != [] {
      var before := stations[..|stations| - 1];
      if k in E.AddTickets(tickets, m, mint, before).value {
        AddedRecords(tickets, m, mint, before, k);
      }
    }
  }

  lemma SentThere(catalog: Catalog, lines: seq<OrderLine>, line: OrderLine, station: Station)
    requires line in lines && forall i, j :: 0 <= i < j < |lines| ==> lines[i].id != lines[j].id
    requires line.id in E.SentTo(RouteLines(catalog, lines), station)
    ensures SentStation(catalog, line) == station
  {
    var sent := SentToHas(RouteLines(catalog, lines), station, line.id);
    SentLines(catalog, lines);
    var x :| x in lines && sent == RouteLine(catalog, x);
    var i :| 0 <= i < |lines| && lines[i] == x;
    var j :| 0 <= j < |lines| && lines[j] == line;
    assert i == j;
  }

  /** A mirrored ticket has its line ids from the event, so the event sent its lines to its station. */
  lemma MirroredLines(
    before: map<Id, E.TicketRecord>, added: map<Id, E.TicketRecord>, others: seq<Ticket>, tickets: seq<Ticket>,
    m: Mutation, mint: Station -> Id, t: Ticket)
    requires m.OrderCreated? && E.AddTickets(before, m, mint, E.StationOrder(m.lines)) == Some(added)
    requires MirrorsTickets(added, tickets + others) && t in tickets && t.id !in before
    ensures t.detail.lineIds == E.SentTo(m.lines, t.detail.stationId)
  {
    assert t in tickets + others && t.id in Ids(tickets + others) && added[t.id] == RecordOf(t);
    AddedRecords(before, m, mint, E.StationOrder(m.lines), t.id);
  }

  lemma MirroredLine(
    state: E.State, s: Snapshot, catalog: Catalog, order: Order, tickets: seq<Ticket>, m: Mutation, setup: E.Setup,
    line: OrderLine)
    requires Mirrors(state, s) && NewlyCreated(s, catalog, order, tickets, order.detail.lines, m)
    requires line in order.detail.lines
    requires var added := E.AddTickets(state.tickets, m, setup.mint, E.StationOrder(m.lines));
             added.Some? && MirrorsTickets(added.value, tickets + s.Tickets())
    ensures SentStation(catalog, line) == LocalStation(catalog, line)
  {
    var station, lines := LocalStation(catalog, line), order.detail.lines;
    assert station in LineStations(catalog, lines) && station in TicketStations(tickets);
    var t :| t in tickets && t.detail.stationId == station;
    assert t.id !in state.tickets && t.detail.lineIds == LinesAt(catalog, lines, station);
    assert m.OrderCreated? && m.lines == RouteLines(catalog, lines);
    assert forall i, j :: 0 <= i < j < |lines| ==> lines[i].id != lines[j].id;
    var added := E.AddTickets(state.tickets, m, setup.mint, E.StationOrder(m.lines)).value;
    hide NewlyCreated, MirrorsTickets, MirrorsOrders, RouteLines, LinesAt, E.StationOrder, E.AddTickets, E.SentTo;
    MirroredLines(state.tickets, added, s.Tickets(), tickets, m, setup.mint, t);
    LinesAtHas(catalog, lines, line);
    SentThere(catalog, lines, line, station);
  }

  /**
   For an order otherwise within the edge's limits, the edge ends up mirroring the device if and
   only if the device and the event route each line to the same station.
   */
  lemma MirrorsIffStationsAgree(
    state: E.State, s: Snapshot, catalog: Catalog, input: NewOrder, newId: nat -> Id, now: Stamp, setup: E.Setup)
    requires Mirrors(state, s) && Fresh(newId, s) && CreateOrder(s, catalog, input, newId, now).Ok?
    requires forall t | t in s.Tickets() :: t.detail.orderId in Ids(s.orders)
    requires WithinEdgeLimits(setup, catalog, CreateOrder(s, catalog, input, newId, now).value.order)
    ensures var created := CreateOrder(s, catalog, input, newId, now).value;
            var reply := E.CreateOrder(state, CreatedMutation(catalog, created), setup);
            StationsAgree(catalog, created.order.detail.lines) <==> reply.Ok? && Mirrors(reply.value, created.snapshot)
  {
    var created := CreateOrder(s, catalog, input, newId, now).value;
    var m := CreatedMutation(catalog, created);
    if StationsAgree(catalog, created.order.detail.lines) {
      CreateReplays(state, s, catalog, input, newId, now, setup);
    }
    var reply := E.CreateOrder(state, m, setup);
    if reply.Ok? && Mirrors(reply.value, created.snapshot) {
      var tickets := CreatedParts(s, catalog, input, newId, now);
      forall line | line in created.order.detail.lines
        ensures SentStation(catalog, line) == LocalStation(catalog, line)
      {
        MirroredLine(state, s, catalog, created.order, tickets, m, setup, line);
      }
    }
  }

  lemma LimitsAreValidity(
    s: Snapshot, catalog: Catalog, order: Order, tickets: seq<Ticket>, m: Mutation, setup: E.Setup)
    requires NewlyCreated(s, catalog, order, tickets, order.detail.lines, m) && E.ValidOrder(setup, m)
    ensures WithinEdgeLimits(setup, catalog, order)
  {
    hide E.ValidLine, LineWithinLimits, StationsAgree;
    LimitsOfLines(setup);
    SentLines(catalog, order.detail.lines);
  }

  /**
   A created order ends up at the edge as it is on the device, its tickets with their stations and lines,
   if and only if its request is not too large, it has no source, keeps within the edge's numbers and
   lengths, and every line is routed alike by the device and by the event.
   */
  lemma CreateReplaysIff(
    state: E.State, s: Snapshot, catalog: Catalog, input: NewOrder, newId: nat -> Id, now: Stamp, key: Id,
    setup: E.Setup)
    requires Mirrors(state, s) && Fresh(newId, s) && CreateOrder(s, catalog, input, newId, now).Ok?
    requires forall t | t in s.Tickets() :: t.detail.orderId in Ids(s.orders)
    requires key !in state.replies
    ensures var created := CreateOrder(s, catalog, input, newId, now).value;
            var m := CreatedMutation(catalog, created);
            var reply := E.Handle(state, key, m, setup);
            && setup.fits(m) && WithinEdgeLimits(setup, catalog, created.order)
            && StationsAgree(catalog, created.order.detail.lines)
            <==> reply.Ok? && Mirrors(reply.value, created.snapshot)
  {
    hide WithinEdgeLimits, StationsAgree, E.ValidOrder;
    var created := CreateOrder(s, catalog, input, newId, now).value;
    var m := CreatedMutation(catalog, created);
    if E.ValidOrder(setup, m) {
      var tickets := CreatedParts(s, catalog, input, newId, now);
      LimitsAreValidity(s, catalog, created.order, tickets, m, setup);
    }
    if WithinEdgeLimits(setup, catalog, created.order) {
      MirrorsIffStationsAgree(state, s, catalog, input, newId, now, setup);
    }
  }

  /** In particular a catalogued line with a station of its own that is not the catalogue's never does. */
  lemma OwnStationStrays(
    state: E.State, s: Snapshot, catalog: Catalog, input: NewOrder, newId: nat -> Id, now: Stamp, key: Id,
    setup: E.Setup, line: NewLine)
    requires Mirrors(state, s) && Fresh(newId, s) && key !in state.replies
    requires forall t | t in s.Tickets() :: t.detail.orderId in Ids(s.orders)
    requires input.lines == [line] && line.quantity > 0 && line.menuItemId in catalog
    requires line.stationId.Some? && line.stationId.value != catalog[line.menuItemId].station
    ensures CreateOrder(s, catalog, input, newId, now).Ok?
    ensures var created := CreateOrder(s, catalog, input, newId, now).value;
            var reply := E.Handle(state, key, CreatedMutation(catalog, created), setup);
            reply.Err? || !Mirrors(reply.value, created.snapshot)
  {
    FilterAll((l: NewLine) => Available(catalog, l), input.lines);
    var created := CreateOrder(s, catalog, input, newId, now).value;
    var sent := created.order.detail.lines[0];
    assert sent in created.order.detail.lines && SentStation(catalog, sent) != LocalStation(catalog, sent);
    hide E.Handle, Mirrors, CreateOrder;
    CreateReplaysIff(state, s, catalog, input, newId, now, key, setup);
  }

  /** Nor does an order with a source: every edge refuses it, whatever it holds. */
  lemma AggregatorOrdersRefused(state: E.State, catalog: Catalog, created: Created, setup: E.Setup)
    requires created.order.detail.aggregator.Some?
    ensures !WithinEdgeLimits(setup, catalog, created.order)
    ensures E.CreateOrder(state, CreatedMutation(catalog, created), setup) == Err(E.InvalidPayload)
  {
  }

  // ---------------------------------------------------------------- whole logs

  /** An operation and the idempotency key its event is given. */
  datatype Work = Work(op: Operation, key: Id)

  datatype Entry = Entry(key: Id, mutation: Mutation)

  /** What an operation must meet for its event to be one the edge can follow. */
  ghost predicate Followable(s: Snapshot, op: Operation, setup: E.Setup) {
    && (Perform(s, op).Some? ==> setup.fits(MutationOf(s, op)))
    && (op.Create? ==>
          && Fresh(op.newId, s)
          && var created := CreateOrder(s, op.catalog, op.input, op.newId, op.now);
             created.Ok? ==>
               && WithinEdgeLimits(setup, op.catalog, created.value.order)
               && StationsAgree(op.catalog, created.value.order.detail.lines))
  }

  ghost predicate FollowableRun(s: Snapshot, works: seq<Work>, setup: E.Setup)
    decreases |works|
  {
    works != [] ==>
      Followable(s, works[0].op, setup) && FollowableRun(Perform(s, works[0].op).GetOr(s), works[1..], setup)
  }

  function RunWork(s: Snapshot, works: seq<Work>): Snapshot
    decreases |works|
  {
    if works == [] then s else RunWork(Perform(s, works[0].op).GetOr(s), works[1..])
  }

  /** The events committed along a run: one for each operation that succeeds. */
  function LogOf(s: Snapshot, works: seq<Work>): seq<Entry>
    decreases |works|
  {
    if works == [] then []
    else
      var after := Perform(s, works[0].op);
      (if after.Some? then [Entry(works[0].key, MutationOf(s, works[0].op))] else [])
      + LogOf(after.GetOr(s), works[1..])
  }

  /** The edge handling a log entry by entry; nothing as soon as one is refused. */
  ghost function HandleAll(state: E.State, log: seq<Entry>, setup: E.Setup): Option<E.State>
    decreases |log|
  {
    if log == [] then Some(state)
    else
      match E.Handle(state, log[0].key, log[0].mutation, setup)
      case Err(_) => None
      case Ok(next) => HandleAll(next, log[1..], setup)
  }

  ghost predicate AcceptedAs(reply: Result<E.State, E.Problem>, state: E.State, s: Snapshot) {
    reply.Ok? && Mirrors(reply.value, s) && reply.value.replies == state.replies
  }

  lemma OrderMoveExecuted(state: E.State, s: Snapshot, orderId: Id, now: Stamp)
    requires Mirrors(state, s) && AllConsistent(s) && AdvanceOrder(s, orderId, now).Ok?
    ensures var move := AdvanceOrder(s, orderId, now).value;
            AcceptedAs(E.TransitionOrderTickets(state, OrderMutation(move)), state, move.snapshot)
  {
    OrderMoveReplays(state, s, Find(s.orders, orderId).value, now);
  }

  lemma TicketMoveExecuted(state: E.State, s: Snapshot, ticketId: Id, now: Stamp)
    requires Mirrors(state, s) && AllConsistent(s) && AdvanceTicket(s, ticketId, now).Ok?
    ensures var move := AdvanceTicket(s, ticketId, now).value;
            AcceptedAs(E.TransitionTicket(state, TicketMutation(move)), state, move.snapshot)
  {
    var t := Find(s.Tickets(), ticketId).value;
    TicketMoveReplays(state, s, t, Find(s.orders, t.detail.orderId).value, now);
  }

  lemma CreateExecuted(
    state: E.State, s: Snapshot, catalog: Catalog, input: NewOrder, newId: nat -> Id, now: Stamp, setup: E.Setup)
    requires Mirrors(state, s) && AllConsistent(s) && Followable(s, Create(catalog, input, newId, now), setup)
    requires CreateOrder(s, catalog, input, newId, now).Ok?
    ensures var created := CreateOrder(s, catalog, input, newId, now).value;
            AcceptedAs(E.CreateOrder(state, CreatedMutation(catalog, created), setup), state, created.snapshot)
  {
    CreateReplays(state, s, catalog, input, newId, now, setup);
  }

  lemma Executed(state: E.State, s: Snapshot, op: Operation, setup: E.Setup)
    requires Mirrors(state, s) && AllConsistent(s) && Followable(s, op, setup) && Perform(s, op).Some?
    ensures AcceptedAs(E.Execute(state, MutationOf(s, op), setup), state, Perform(s, op).value)
  {
    hide Mirrors, AllConsistent;
    match op
    case Create(catalog, input, newId, now) => CreateExecuted(state, s, catalog, input, newId, now, setup);
    case MoveOrder(orderId, now) => OrderMoveExecuted(state, s, orderId, now);
    case MoveTicket(ticketId, now) => TicketMoveExecuted(state, s, ticketId, now);
  }

  /** One committed operation is one accepted mutation. */
  lemma CommittedIsAccepted(state: E.State, s: Snapshot, op: Operation, key: Id, setup: E.Setup)
    requires Mirrors(state, s) && AllConsistent(s) && Followable(s, op, setup) && Perform(s, op).Some?
    requires key !in state.replies
    ensures var m := MutationOf(s, op);
            var reply := E.Handle(state, key, m, setup);
            && reply.Ok? && Mirrors(reply.value, Perform(s, op).value)
            && reply.value.replies == state.replies[key := m]
  {
    Executed(state, s, op, setup);
  }

  ghost predicate UnusedKeys(state: E.State, works: seq<Work>) {
    && (forall w | w in works :: w.key !in state.replies)
    && (forall i, j :: 0 <= i < j < |works| ==> works[i].key != works[j].key)
  }

  /** The edge accepts the whole log of any run, and then mirrors the device. */
  lemma {:induction false} LogRebuildsState(state: E.State, s: Snapshot, works: seq<Work>, setup: E.Setup)
    requires Mirrors(state, s) && AllConsistent(s) && FollowableRun(s, works, setup) && UnusedKeys(state, works)
    ensures HandleAll(state, LogOf(s, works), setup).Some?
    ensures Mirrors(HandleAll(state, LogOf(s, works), setup).value, RunWork(s, works))
    decreases |works|
  {
    if works != [] {
      var op, key := works[0].op, works[0].key;
      var after := Perform(s, op);
      var rest := LogOf(after.GetOr(s), works[1..]);
      PerformKeeps(s, op);
      if after.Some? {
        CommittedIsAccepted(state, s, op, key, setup);
        var next := E.Handle(state, key, MutationOf(s, op), setup).value;
        assert forall w | w in works[1..] :: w in works;
        LogRebuildsState(next, after.value, works[1..], setup);
        assert LogOf(s, works)[0] == Entry(key, MutationOf(s, op)) && LogOf(s, works)[1..] == rest;
      } else {
        LogRebuildsState(state, s, works[1..], setup);
        assert LogOf(s, works) == rest;
      }
    }
  }
}
