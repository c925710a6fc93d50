/**
 What the edge's version checks are for: a command formed against an older state is refused, whoever
 sends it and however long it was under way, and a key answers one command only.
 */
module EdgeVersions {
  import opened Prelude
  import opened Mutations
  import opened EdgeStore
  import K = Kitchen

  datatype Command = Command(key: Id, mutation: Mutation)

  /** Commands from any devices, in the order the edge takes them; a refused one changes nothing. */
  ghost function Serve(state: State, commands: seq<Command>, setup: Setup): State
    decreases |commands|
  {
    if commands == [] then state
    else
      var reply := Handle(state, commands[0].key, commands[0].mutation, setup);
      Serve(if reply.Ok? then reply.value else state, commands[1..], setup)
  }

  /** Nothing is gone, no version is lower, and no key has been forgotten or given another command. */
  ghost predicate NoOlder(a: State, b: State) {
    && (forall k | k in a.orders :: k in b.orders && a.orders[k].version <= b.orders[k].version)
    && (forall k | k in a.tickets ::
          k in b.tickets && a.tickets[k].version <= b.tickets[k].version
          && a.tickets[k].orderId == b.tickets[k].orderId)
    && (forall k | k in a.replies :: k in b.replies && a.replies[k] == b.replies[k])
  }

  lemma {:induction false} AddedTicketsNoOlder(
    tickets: map<Id, TicketRecord>, m: Mutation, mint: K.Station -> Id, stations: seq<K.Station>)
    requires m.OrderCreated? && AddTickets(tickets, m, mint, stations).Some?
    ensures forall k | k in tickets ::
              k in AddTickets(tickets, m, mint, stations).value
              && AddTickets(tickets, m, mint, stations).value[k] == tickets[k]
  {
    if stations != [] {
      AddedTicketsNoOlder(tickets, m, mint, stations[..|stations| - 1]);
    }
  }

  lemma CreatedNoOlder(state: State, m: Mutation, setup: Setup)
    requires m.OrderCreated? && CreateOrder(state, m, setup).Ok?
    ensures NoOlder(state, CreateOrder(state, m, setup).value)
  {
    AddedTicketsNoOlder(state.tickets, m, setup.mint, StationOrder(m.lines));
  }

  lemma HandledNoOlder(state: State, key: Id, m: Mutation, setup: Setup)
    requires Handle(state, key, m, setup).Ok?
    ensures NoOlder(state, Handle(state, key, m, setup).value)
  {
    if m.OrderCreated? && key !in state.replies {
      CreatedNoOlder(state, m, setup);
    }
  }

  /** Versions never fall, whatever commands arrive. */
  lemma {:induction false} VersionsNeverFall(state: State, commands: seq<Command>, setup: Setup)
    ensures NoOlder(state, Serve(state, commands, setup))
    decreases |commands|
  {
    if commands != [] {
      var reply := Handle(state, commands[0].key, commands[0].mutation, setup);
      var next := if reply.Ok? then reply.value else state;
      if reply.Ok? {
        HandledNoOlder(state, commands[0].key, commands[0].mutation, setup);
      }
      VersionsNeverFall(next, commands[1..], setup);
    }
  }

  /** The version an order or ticket has, that the command is about. */
  ghost predicate AtVersion(state: State, m: Mutation, version: int)
    requires !m.OrderCreated?
  {
    if m.OrderStatusChanged? then m.orderId in state.orders && state.orders[m.orderId].version == version
    else m.ticketId in state.tickets && state.tickets[m.ticketId].version == version
  }

  /** The edge carries a status change out only at the version it was formed at. */
  lemma ExecutedAtItsVersion(state: State, key: Id, m: Mutation, setup: Setup)
    requires !m.OrderCreated? && key !in state.replies && Handle(state, key, m, setup).Ok?
    ensures AtVersion(state, m, m.expectedVersion)
  {
  }

  /** A change formed at an older version than the edge has reached is refused, then and ever after. */
  lemma StaleIsRefused(state: State, key: Id, m: Mutation, commands: seq<Command>, setup: Setup, version: int)
    requires !m.OrderCreated? && AtVersion(state, m, version) && m.expectedVersion < version
    ensures var later := Serve(state, commands, setup);
            key !in later.replies ==> Handle(later, key, m, setup).Err?
  {
    VersionsNeverFall(state, commands, setup);
  }

  /** Of two changes of one ticket formed at the same version at most one is carried out, whatever lies between them. */
  lemma OneTicketChangeWins(
    state: State, first: Command, between: seq<Command>, second: Command, setup: Setup)
    requires first.mutation.TicketStatusChanged? && second.mutation.TicketStatusChanged?
    requires first.mutation.ticketId == second.mutation.ticketId
    requires first.mutation.expectedVersion == second.mutation.expectedVersion
    requires first.key !in state.replies && Handle(state, first.key, first.mutation, setup).Ok?
    ensures var later := Serve(Handle(state, first.key, first.mutation, setup).value, between, setup);
            second.key !in later.replies ==> Handle(later, second.key, second.mutation, setup).Err?
  {
    var next := Handle(state, first.key, first.mutation, setup).value;
    assert AtVersion(next, second.mutation, second.mutation.expectedVersion + 1);
    StaleIsRefused(next, second.key, second.mutation, between, setup, second.mutation.expectedVersion + 1);
  }

  // ---------------------------------------------------------------- exactly which changes are carried out

  /** The client's transition map, and cancelling anything not yet over. */
  predicate Permitted(from: K.Status, to: K.Status) {
    if to == K.Cancelled then from != K.Completed && from != K.Cancelled else K.Next(from) == Some(to)
  }

  /** A ticket change under a new key is carried out if and only if nothing speaks against it. */
  lemma TicketChangeIff(state: State, key: Id, m: Mutation, setup: Setup)
    requires m.TicketStatusChanged? && key !in state.replies
    ensures Handle(state, key, m, setup).Ok?
            <==> && setup.fits(m) && m.ticketId in state.tickets && m.orderId in state.orders
                 && state.tickets[m.ticketId].orderId == m.orderId
                 && state.tickets[m.ticketId].version == m.expectedVersion
                 && Permitted(state.tickets[m.ticketId].status, m.toStatus)
  {
  }

  /** So is a whole-order change, if some ticket has to move and each that has to may. */
  lemma OrderChangeIff(state: State, key: Id, m: Mutation, setup: Setup)
    requires m.OrderStatusChanged? && key !in state.replies
    ensures var own := set k | k in state.tickets && state.tickets[k].orderId == m.orderId :: state.tickets[k].status;
            Handle(state, key, m, setup).Ok?
            <==> && setup.fits(m) && m.orderId in state.orders && m.expectedVersion != 0
                 && state.orders[m.orderId].version == m.expectedVersion
                 && (exists status :: status in own && status != m.toStatus)
                 && (forall status :: status in own && status != m.toStatus ==> Permitted(status, m.toStatus))
  {
    var own := set k | k in state.tickets && state.tickets[k].orderId == m.orderId :: state.tickets[k].status;
    forall k | k in state.tickets && state.tickets[k].orderId == m.orderId
      ensures state.tickets[k].status in own
    {
    }
  }

  /** What is not of the order stays as it was; a ticket that moved has its new status and one version more. */
  lemma ChangeEffect(state: State, key: Id, m: Mutation, setup: Setup)
    requires !m.OrderCreated? && key !in state.replies && Handle(state, key, m, setup).Ok?
    ensures var next := Handle(state, key, m, setup).value;
            && next.tickets.Keys == state.tickets.Keys && next.orders.Keys == state.orders.Keys
            && next.replies == state.replies[key := m]
            && (forall k | k in state.orders && k != m.orderId :: next.orders[k] == state.orders[k])
            && (forall k | k in state.tickets ::
                  next.tickets[k] ==
                  if (if m.TicketStatusChanged? then k == m.ticketId
                      else state.tickets[k].orderId == m.orderId && state.tickets[k].status != m.toStatus)
                  then state.tickets[k].(status := m.toStatus, version := state.tickets[k].version + 1)
                  else state.tickets[k])
  {
  }

  /**
   The order follows its tickets forward: to what the client derives from them too, if that is further on;
   to cancelled once all are, unless it is over; and otherwise not at all.
   */
  lemma OrderFollows(state: State, key: Id, m: Mutation, setup: Setup)
    requires !m.OrderCreated? && key !in state.replies && Handle(state, key, m, setup).Ok?
    ensures var next := Handle(state, key, m, setup).value;
            var before, after := state.orders[m.orderId], next.orders[m.orderId];
            var derived := K.DeriveOrderStatus(StatusesOf(next.tickets, m.orderId));
            var moves := if derived == K.Cancelled then before.status != Cancelled && before.status != Completed
                         else K.Rank(derived) > 0 && (before.status == Cancelled
                              || K.Rank(derived) > K.Rank(ClientStatus(before.status)));
            if moves then ClientStatus(after.status) == derived && after.version == before.version + 1
            else after == before
  {
    DerivationsAgree(StatusesOf(Handle(state, key, m, setup).value.tickets, m.orderId));
  }

  lemma {:induction false} TicketsAdded(
    tickets: map<Id, TicketRecord>, m: Mutation, mint: K.Station -> Id, stations: seq<K.Station>)
    requires m.OrderCreated? && AddTickets(tickets, m, mint, stations).Some?
    requires forall i, j :: 0 <= i < j < |stations| ==> stations[i] != stations[j]
    ensures var r := AddTickets(tickets, m, mint, stations).value;
            && (forall k | k in tickets :: k in r && r[k] == tickets[k])
            && (forall station | station in stations ::
                  var id := TicketIdAt(m, mint, station);
                  && id !in tickets && id in r
                  && r[id] == TicketRecord(m.orderId, station, SentTo(m.lines, station), K.Queued, 1))
            && (forall k | k in r && k !in tickets ::
                  exists station | station in stations :: k == TicketIdAt(m, mint, station))
  {
    if stations != [] {
      var before, last := stations[..|stations| - 1], stations[|stations| - 1];
      assert forall station :: station in stations <==> station in before || station == last;
      TicketsAdded(tickets, m, mint, before);
    }
  }

  lemma {:induction false} StationsInOrder(lines: seq<RoutedLine>)
    ensures forall i, j :: 0 <= i < j < |StationOrder(lines)| ==> StationOrder(lines)[i] != StationOrder(lines)[j]
    ensures forall station :: station in StationOrder(lines) <==> exists l | l in lines :: l.station == station
  {
    if lines != [] {
      var before, last := lines[..|lines| - 1], lines[|lines| - 1];
      StationsInOrder(before);
      assert forall l :: l in lines <==> l in before || l == last;
    }
  }

  /** The order is new, and a new ticket stands at each station with exactly the lines sent there. */
  ghost predicate Entered(state: State, next: State, m: Mutation, setup: Setup)
    requires m.OrderCreated?
  {
    && m.orderId !in state.orders && next.orders == state.orders[m.orderId := OrderRecord(Received, 1)]
    && (forall k | k in state.tickets :: k in next.tickets && next.tickets[k] == state.tickets[k])
    && (forall l | l in m.lines ::
          var id := if l.station in m.stationTicketIds then m.stationTicketIds[l.station] else setup.mint(l.station);
          id !in state.tickets && id in next.tickets
          && next.tickets[id] == TicketRecord(m.orderId, l.station, SentTo(m.lines, l.station), K.Queued, 1))
    && (forall k | k in next.tickets && k !in state.tickets ::
          exists l | l in m.lines ::
            k == if l.station in m.stationTicketIds then m.stationTicketIds[l.station] else setup.mint(l.station))
  }

  /** No two ids of an order that was let in are the same. */
  ghost predicate IdsDiffer(m: Mutation)
    requires m.OrderCreated?
  {
    && (forall i, j :: 0 <= i < j < |m.lines| ==> m.lines[i].id != m.lines[j].id)
    && (forall l | l in m.lines :: l.id != m.orderId)
    && (forall a | a in m.stationTicketIds ::
          && m.stationTicketIds[a] != m.orderId && (forall l | l in m.lines :: l.id != m.stationTicketIds[a])
          && (exists l | l in m.lines :: l.station == a)
          && forall b | b in m.stationTicketIds && b != a :: m.stationTicketIds[b] != m.stationTicketIds[a])
  }

  lemma OrderEntered(state: State, m: Mutation, setup: Setup)
    requires m.OrderCreated? && CreateOrder(state, m, setup).Ok?
    ensures Entered(state, CreateOrder(state, m, setup).value, m, setup)
  {
    hide ValidOrder, StationOrder, AddTickets;
    var stations := StationOrder(m.lines);
    StationsInOrder(m.lines);
    TicketsAdded(state.tickets, m, setup.mint, stations);
    forall l | l in m.lines
      ensures l.station in stations
    {
    }
  }

  lemma ValidIdsDiffer(m: Mutation, setup: Setup)
    requires m.OrderCreated? && ValidOrder(setup, m)
    ensures IdsDiffer(m)
  {
    forall a | a in m.stationTicketIds
      ensures exists l | l in m.lines :: l.station == a
    {
      assert a in SentStations(m.lines);
    }
  }

  /** An order is let in only under ids not used before, and then stands at the edge as it was sent. */
  lemma CreationEnters(state: State, key: Id, m: Mutation, setup: Setup)
    requires m.OrderCreated? && key !in state.replies && Handle(state, key, m, setup).Ok?
    ensures var next := Handle(state, key, m, setup).value;
            Entered(state, next, m, setup) && IdsDiffer(m) && next.replies == state.replies[key := m]
  {
    hide Entered, IdsDiffer, ValidOrder, AddTickets;
    OrderEntered(state, m, setup);
    ValidIdsDiffer(m, setup);
    EnteredAlike(state, CreateOrder(state, m, setup).value, Handle(state, key, m, setup).value, m, setup);
  }

  lemma EnteredAlike(state: State, a: State, b: State, m: Mutation, setup: Setup)
    requires m.OrderCreated? && Entered(state, a, m, setup) && b.orders == a.orders && b.tickets == a.tickets
    ensures Entered(state, b, m, setup)
  {
  }

  /** A key answers the command it was first used with, without doing it again, and no other, ever. */
  lemma KeyAnswersOneCommand(state: State, command: Command, commands: seq<Command>, m: Mutation, setup: Setup)
    requires Handle(state, command.key, command.mutation, setup).Ok?
    ensures var later := Serve(Handle(state, command.key, command.mutation, setup).value, commands, setup);
            Handle(later, command.key, m, setup)
            == if !setup.fits(m) then Err(BodyTooLarge)
               else if m == command.mutation then Ok(later) else Err(IdempotencyKeyReused)
  {
    VersionsNeverFall(Handle(state, command.key, command.mutation, setup).value, commands, setup);
  }

  // ---------------------------------------------------------------- two whole-order changes at one version

  /**
   Of two whole-order changes formed at the same version the second can be carried out, too: the version
   is spent if and only if the first moved the status of the order.
   */
  lemma OrderVersionSpentIff(state: State, key: Id, m: Mutation, setup: Setup)
    requires m.OrderStatusChanged? && key !in state.replies && Handle(state, key, m, setup).Ok?
    ensures var next := Handle(state, key, m, setup).value;
            && m.orderId in next.orders
            && (AtVersion(next, m, m.expectedVersion)
                <==> next.orders[m.orderId].status == state.orders[m.orderId].status)
            && (!AtVersion(next, m, m.expectedVersion) ==> AtVersion(next, m, m.expectedVersion + 1))
  {
  }

  lemma AllMoved(state: State, key: Id, m: Mutation, setup: Setup)
    requires m.OrderStatusChanged? && key !in state.replies && Handle(state, key, m, setup).Ok?
    ensures StatusesOf(Handle(state, key, m, setup).value.tickets, m.orderId) == {m.toStatus}
  {
    var next := Handle(state, key, m, setup).value;
    var k :| k in state.tickets && state.tickets[k].orderId == m.orderId && state.tickets[k].status != m.toStatus;
    assert next.tickets[k].orderId == m.orderId && next.tickets[k].status == m.toStatus;
  }

  /**
   So the second of two whole-order changes at one version is carried out right after the first if and only
   if the first left the status of the order, and the second leads on from there.
   */
  lemma SecondOrderChangeIff(state: State, first: Id, m: Mutation, second: Id, m': Mutation, setup: Setup)
    requires m.OrderStatusChanged? && m'.OrderStatusChanged? && m'.orderId == m.orderId
    requires m'.expectedVersion == m.expectedVersion
    requires first !in state.replies && second !in state.replies && second != first
    requires Handle(state, first, m, setup).Ok?
    ensures var next := Handle(state, first, m, setup).value;
            Handle(next, second, m', setup).Ok?
            <==> && setup.fits(m') && m'.toStatus != m.toStatus && Permitted(m.toStatus, m'.toStatus)
                 && next.orders[m.orderId].status == state.orders[m.orderId].status
  {
    hide Handle, Permitted;
    var next := Handle(state, first, m, setup).value;
    OrderChangeIff(state, first, m, setup);
    OrderVersionSpentIff(state, first, m, setup);
    AllMoved(state, first, m, setup);
    ChangeEffect(state, first, m, setup);
    OrderChangeIff(next, second, m', setup);
    assert m.toStatus in StatusesOf(next.tickets, m.orderId);
  }

  /** One ticket fired and one still queued. */
  function HalfFired(orderId: Id, a: Id, b: Id): State {
    State(
      map[orderId := OrderRecord(Accepted, 2)],
      map[a := TicketRecord(orderId, "hot", [], K.Fired, 2), b := TicketRecord(orderId, "bar", [], K.Queued, 1)],
      map[])
  }

  lemma StatusAfter(state: State, key: Id, m: Mutation, setup: Setup)
    requires m.OrderStatusChanged? && key !in state.replies && Handle(state, key, m, setup).Ok?
    ensures Handle(state, key, m, setup).value.orders[m.orderId]
            == AdvanceFromTickets(state.orders[m.orderId], Handle(state, key, m, setup).value.tickets, m.orderId)
  {
  }

  /** The smallest such case: the first command only brings up the ticket that lagged behind. */
  lemma BothOrderChangesTaken(setup: Setup, orderId: Id, a: Id, b: Id, first: Id, second: Id)
    requires a != b && first != second && setup.fits(OrderStatusChanged(orderId, K.Fired, 2))
    requires setup.fits(OrderStatusChanged(orderId, K.Preparing, 2))
    ensures var once := Handle(HalfFired(orderId, a, b), first, OrderStatusChanged(orderId, K.Fired, 2), setup);
            once.Ok? && Handle(once.value, second, OrderStatusChanged(orderId, K.Preparing, 2), setup).Ok?
  {
    hide Handle;
    var state, m := HalfFired(orderId, a, b), OrderStatusChanged(orderId, K.Fired, 2);
    var own := set k | k in state.tickets && state.tickets[k].orderId == orderId :: state.tickets[k].status;
    assert K.Queued in own by {
      assert b in state.tickets;
    }
    OrderChangeIff(state, first, m, setup);
    AllMoved(state, first, m, setup);
    StatusAfter(state, first, m, setup);
    SecondOrderChangeIff(state, first, m, second, OrderStatusChanged(orderId, K.Preparing, 2), setup);
  }
}
