/**
 The outlet edge (Go): the store that receives the client's mutations. Its status names, its
 derivation of the order status and its version checks are written independently of the client's.
 */
module EdgeStore {
  import opened Prelude
  import opened Mutations
  import K = Kitchen

  datatype OrderStatus = Received | Accepted | Preparing | Ready | Completed | Cancelled

  datatype OrderRecord = OrderRecord(status: OrderStatus, version: int)
  datatype TicketRecord = TicketRecord(
    orderId: Id, station: K.Station, lineIds: seq<Id>, status: K.Status, version: int)

  /**
   What a deployment brings along: the ids it mints, the length of a text in UTF-8 bytes, as it is and with
   the white space at its ends removed, and which request bodies stay below its limit.
   */
  datatype Setup = Setup(
    mint: K.Station -> Id, bytes: string -> nat, trimmedBytes: string -> nat, fits: Mutation -> bool)

  /** `replies` are the idempotency records: the command each key was first used with. */
  datatype State = State(
    orders: map<Id, OrderRecord>, tickets: map<Id, TicketRecord>, replies: map<Id, Mutation>)

  datatype Problem =
    | BodyTooLarge | InvalidPayload | OrderIdReused | TicketIdReused | NotFound | VersionConflict
    | InvalidTransition | TicketOrderMismatch | IdempotencyKeyReused

  const MAX_QUANTITY := 10_000
  const MAX_LINES := 500
  const MAX_STATION_BYTES := 128
  const MAX_ITEM_BYTES := 128
  const MAX_NAME_BYTES := 256
  const MAX_GUEST_BYTES := 256
  const MAX_TABLE_BYTES := 64
  const MAX_NOTE_BYTES := 1_000

  /** The client's reading of an edge order status. */
  function ClientStatus(status: OrderStatus): K.Status {
    match status
    case Received => K.Queued
    case Accepted => K.Fired
    case Preparing => K.Preparing
    case Ready => K.Ready
    case Completed => K.Completed
    case Cancelled => K.Cancelled
  }

  predicate CanTransitionTicket(from: K.Status, to: K.Status) {
    if to == K.Cancelled then from != K.Completed && from != K.Cancelled
    else
      match from
      case Queued => to == K.Fired
      case Fired => to == K.Preparing
      case Preparing => to == K.Ready
      case Ready => to == K.Completed
      case _ => false
  }

  /** What the flags of the Go loop amount to, as a function of the set of ticket statuses. */
  function Derive(statuses: set<K.Status>): OrderStatus {
    if statuses == {} then Received
    else if statuses <= {K.Cancelled} then Cancelled
    else if statuses <= {K.Completed, K.Cancelled} && K.Completed in statuses then Completed
    else if statuses <= {K.Ready, K.Completed, K.Cancelled} then Ready
    else if K.Preparing in statuses || K.Ready in statuses || K.Completed in statuses then Preparing
    else if K.Fired in statuses then Accepted
    else Received
  }

  method DeriveOrderStatus(tickets: seq<K.Status>) returns (status: OrderStatus)
    ensures status == Derive(set t | t in tickets)
  {
    if |tickets| == 0 {
      return Received;
    }
    var allCancelled, allTerminal, allReady := true, true, true;
    var hasCompleted, hasPreparing, hasFired := false, false, false;
    ghost var seen: set<K.Status> := {};
    for i := 0 to |tickets|
      invariant seen == set t | t in tickets[..i]
      invariant allCancelled <==> seen <= {K.Cancelled}
      invariant allTerminal <==> seen <= {K.Completed, K.Cancelled}
      invariant allReady <==> seen <= {K.Ready, K.Completed, K.Cancelled}
      invariant hasCompleted <==> K.Completed in seen
      invariant hasPreparing <==> K.Preparing in seen || K.Ready in seen
      invariant hasFired <==> K.Fired in seen
    {
      var t := tickets[i];
      assert tickets[..i + 1] == tickets[..i] + [t];
      seen := seen + {t};
      if t != K.Cancelled {
        allCancelled := false;
      }
      if t != K.Completed && t != K.Cancelled {
        allTerminal := false;
      }
      if t != K.Ready && t != K.Completed && t != K.Cancelled {
        allReady := false;
      }
      match t {
        case Completed => hasCompleted := true;
        case Preparing => hasPreparing := true;
        case Ready => hasPreparing := true;
        case Fired => hasFired := true;
        case _ =>
      }
    }
    assert tickets[..|tickets|] == tickets;
    assert tickets[0] in seen;
    if allCancelled {
      return Cancelled;
    }
    if allTerminal && hasCompleted {
      return Completed;
    }
    if allReady {
      return Ready;
    }
    if hasPreparing || hasCompleted {
      return Preparing;
    }
    if hasFired {
      return Accepted;
    }
    return Received;
  }

  function Rank(status: OrderStatus): int {
    match status
    case Received => 0
    case Accepted => 1
    case Preparing => 2
    case Ready => 3
    case Completed => 4
    case Cancelled => 0
  }

  predicate ShouldAdvanceOrder(current: OrderStatus, candidate: OrderStatus) {
    if candidate == Cancelled then current != Cancelled && current != Completed
    else Rank(candidate) > Rank(current)
  }

  // ---------------------------------------------------------------- creating an order

  function SentStations(lines: seq<RoutedLine>): set<K.Station> {
    set l | l in lines :: l.station
  }

  /** The stations in the order the lines first mention them. */
  function StationOrder(lines: seq<RoutedLine>): seq<K.Station> {
    if lines == [] then []
    else
      var before := StationOrder(lines[..|lines| - 1]);
      var station := lines[|lines| - 1].station;
      if station in before then before else before + [station]
  }

  /** The number of bytes of a text that is left out where there is none. */
  function SizeOf(setup: Setup, text: Option<string>): nat {
    if text.Some? then setup.bytes(text.value) else 0
  }

  predicate ValidTexts(setup: Setup, m: Mutation)
    requires m.OrderCreated?
  {
    SizeOf(setup, m.guestName) <= MAX_GUEST_BYTES && SizeOf(setup, m.tableLabel) <= MAX_TABLE_BYTES
    && SizeOf(setup, m.note) <= MAX_NOTE_BYTES
  }

  predicate ValidLine(setup: Setup, l: RoutedLine) {
    && 1 <= setup.trimmedBytes(l.name) <= MAX_NAME_BYTES
    && 0 < l.quantity <= MAX_QUANTITY
    && 1 <= setup.trimmedBytes(l.station) <= MAX_STATION_BYTES
    && setup.bytes(l.menuItemId) <= MAX_ITEM_BYTES && setup.bytes(l.preparationNote) <= MAX_NOTE_BYTES
  }

  /** Structural validation. A field the schema does not name, such as `aggregator`, is an error. */
  ghost predicate ValidOrder(setup: Setup, m: Mutation)
    requires m.OrderCreated?
  {
    && m.aggregator.None? && ValidTexts(setup, m)
    && 0 < |m.lines| <= MAX_LINES
    && (forall l | l in m.lines :: ValidLine(setup, l))
    && (forall i, j :: 0 <= i < j < |m.lines| ==> m.lines[i].id != m.lines[j].id)
    && (forall l | l in m.lines :: l.id != m.orderId)
    && |m.stationTicketIds| <= |SentStations(m.lines)|
    && (forall station | station in m.stationTicketIds ::
          && station in SentStations(m.lines)
          && m.stationTicketIds[station] != m.orderId
          && forall l | l in m.lines :: l.id != m.stationTicketIds[station])
    && (forall a, b | a in m.stationTicketIds && b in m.stationTicketIds ::
          a != b ==> m.stationTicketIds[a] != m.stationTicketIds[b])
  }

  /** The ids of the lines sent to a station, in the order they were sent. */
  function SentTo(lines: seq<RoutedLine>, station: K.Station): seq<Id> {
    if lines == [] then []
    else
      var last := lines[|lines| - 1];
      SentTo(lines[..|lines| - 1], station) + if last.station == station then [last.id] else []
  }

  /** A ticket id the client chose, or one the edge mints for a station without one. */
  function TicketIdAt(m: Mutation, mint: K.Station -> Id, station: K.Station): Id
    requires m.OrderCreated?
  {
    if station in m.stationTicketIds then m.stationTicketIds[station] else mint(station)
  }

  function AddTickets(
    tickets: map<Id, TicketRecord>, m: Mutation, mint: K.Station -> Id, stations: seq<K.Station>)
    : Option<map<Id, TicketRecord>>
    requires m.OrderCreated?
  {
    if stations == [] then Some(tickets)
    else
      var before := AddTickets(tickets, m, mint, stations[..|stations| - 1]);
      var station := stations[|stations| - 1];
      var id := TicketIdAt(m, mint, station);
      if before.None? || id in before.value then None
      else Some(before.value[id := TicketRecord(m.orderId, station, SentTo(m.lines, station), K.Queued, 1)])
  }

  ghost function CreateOrder(state: State, m: Mutation, setup: Setup): Result<State, Problem>
    requires m.OrderCreated?
  {
    if !ValidOrder(setup, m) then Err(InvalidPayload)
    else if m.orderId in state.orders then Err(OrderIdReused)
    else
      match AddTickets(state.tickets, m, setup.mint, StationOrder(m.lines))
      case None => Err(TicketIdReused)
      case Some(tickets) =>
        Ok(state.(orders := state.orders[m.orderId := OrderRecord(Received, 1)], tickets := tickets))
  }

  // ---------------------------------------------------------------- transitions

  function StatusesOf(tickets: map<Id, TicketRecord>, orderId: Id): set<K.Status> {
    set k | k in tickets && tickets[k].orderId == orderId :: tickets[k].status
  }

  function AdvanceFromTickets(order: OrderRecord, tickets: map<Id, TicketRecord>, orderId: Id): OrderRecord {
    var candidate := Derive(StatusesOf(tickets, orderId));
    if ShouldAdvanceOrder(order.status, candidate) then OrderRecord(candidate, order.version + 1) else order
  }

  function SteppedRecord(t: TicketRecord, to: K.Status): TicketRecord {
    t.(status := to, version := t.version + 1)
  }

  function TransitionTicket(state: State, m: Mutation): Result<State, Problem>
    requires m.TicketStatusChanged?
  {
    if m.ticketId !in state.tickets then Err(NotFound)
    else
      var t := state.tickets[m.ticketId];
      if t.orderId != m.orderId then Err(TicketOrderMismatch)
      else if t.version != m.expectedVersion then Err(VersionConflict)
      else if !CanTransitionTicket(t.status, m.toStatus) then Err(InvalidTransition)
      else if t.orderId !in state.orders then Err(NotFound)
      else
        var tickets := state.tickets[m.ticketId := SteppedRecord(t, m.toStatus)];
        var order := AdvanceFromTickets(state.orders[t.orderId], tickets, t.orderId);
        Ok(state.(tickets := tickets, orders := state.orders[t.orderId := order]))
  }

  function MoveAll(tickets: map<Id, TicketRecord>, orderId: Id, to: K.Status): map<Id, TicketRecord> {
    map k | k in tickets ::
      if tickets[k].orderId == orderId && tickets[k].status != to then SteppedRecord(tickets[k], to) else tickets[k]
  }

  function TransitionOrderTickets(state: State, m: Mutation): Result<State, Problem>
    requires m.OrderStatusChanged?
  {
    if m.orderId !in state.orders then Err(NotFound)
    else if m.expectedVersion == 0 || state.orders[m.orderId].version != m.expectedVersion then Err(VersionConflict)
    else if exists k | k in state.tickets ::
              && state.tickets[k].orderId == m.orderId && state.tickets[k].status != m.toStatus
              && !CanTransitionTicket(state.tickets[k].status, m.toStatus) then Err(InvalidTransition)
    else if forall k | k in state.tickets ::
              state.tickets[k].orderId == m.orderId ==>
                  state.tickets[k].status == m.toStatus then Err(InvalidTransition)
    else
      var tickets := MoveAll(state.tickets, m.orderId, m.toStatus);
      var order := AdvanceFromTickets(state.orders[m.orderId], tickets, m.orderId);
      Ok(state.(tickets := tickets, orders := state.orders[m.orderId := order]))
  }

  // ---------------------------------------------------------------- the endpoint

  ghost function Execute(state: State, m: Mutation, setup: Setup): Result<State, Problem> {
    if m.OrderCreated? then CreateOrder(state, m, setup)
    else if m.OrderStatusChanged? then TransitionOrderTickets(state, m)
    else TransitionTicket(state, m)
  }

  /**
   A request too large is not read. A key seen before replays its first answer; a refused command leaves
   no trace.
   */
  ghost function Handle(state: State, key: Id, m: Mutation, setup: Setup): Result<State, Problem> {
    if !setup.fits(m) then Err(BodyTooLarge)
    else if key in state.replies then
      if state.replies[key] == m then Ok(state) else Err(IdempotencyKeyReused)
    else
      match Execute(state, m, setup)
      case Err(problem) => Err(problem)
      case Ok(next) => Ok(next.(replies := state.replies[key := m]))
  }

  /** The two independent derivations agree on every set of ticket statuses. */
  lemma DerivationsAgree(statuses: set<K.Status>)
    ensures ClientStatus(Derive(statuses)) == K.DeriveOrderStatus(statuses)
  {
    var active := statuses - {K.Cancelled};
    var late := active * {K.Preparing, K.Ready, K.Completed};
    assert active == {} <==> statuses <= {K.Cancelled};
    assert active <= {K.Completed} <==> statuses <= {K.Completed, K.Cancelled};
    assert active <= {K.Ready, K.Completed} <==> statuses <= {K.Ready, K.Completed, K.Cancelled};
    assert K.Preparing in late || K.Ready in late || K.Completed in late
           <==> K.Preparing in statuses || K.Ready in statuses || K.Completed in statuses;
    assert late != {} ==> K.Preparing in late || K.Ready in late || K.Completed in late;
    if active != {} && active <= {K.Completed} {
      var x :| x in active;
    }
  }
}
