/** The mutation each successful kitchen operation commits to the outbox. */
module Mutations {
  import opened Prelude
  import opened Kitchen
  import opened KitchenRuns

  datatype RoutedLine = RoutedLine(
    id: Id, menuItemId: ItemId, name: string, quantity: int, station: Station, preparationNote: string)

  /** The event payloads. `aggregateId` is the order of the first two and the ticket of the third. */
  datatype Mutation =
    | OrderCreated(
        orderId: Id, guestName: Option<string>, tableLabel: Option<string>, note: Option<string>,
        aggregator: Option<Aggregator>, stationTicketIds: map<Station, Id>, lines: seq<RoutedLine>)
    | OrderStatusChanged(orderId: Id, toStatus: Status, expectedVersion: int)
    | TicketStatusChanged(ticketId: Id, orderId: Id, toStatus: Status, expectedVersion: int)

  /** Where the created event routes a line: here the catalogue's station wins over the line's own. */
  function SentStation(catalog: Catalog, line: OrderLine): Station {
    if line.menuItemId in catalog then catalog[line.menuItemId].station
    else line.stationId.GetOr("hot")
  }

  function SentName(catalog: Catalog, line: OrderLine): string {
    if line.menuItemId in catalog then catalog[line.menuItemId].name
    else line.name.GetOr(line.menuItemId)
  }

  function RouteLine(catalog: Catalog, line: OrderLine): RoutedLine {
    RoutedLine(
      line.id, line.menuItemId, SentName(catalog, line), line.quantity, SentStation(catalog, line), line.note.GetOr(""))
  }

  function RouteLines(catalog: Catalog, lines: seq<OrderLine>): seq<RoutedLine> {
    seq(|lines|, i requires 0 <= i < |lines| => RouteLine(catalog, lines[i]))
  }

  /** The id of the order's ticket at each station, the last one listed where there are several. */
  function StationTicketIds(tickets: seq<Ticket>, orderId: Id): map<Station, Id> {
    if tickets == [] then map[]
    else
      var last := tickets[|tickets| - 1];
      var before := StationTicketIds(tickets[..|tickets| - 1], orderId);
      if Belongs(last, orderId) then before[last.detail.stationId := last.id] else before
  }

  function CreatedMutation(catalog: Catalog, created: Created): Mutation {
    var detail := created.order.detail;
    OrderCreated(
      created.order.id, detail.guestName, detail.tableLabel, detail.note, detail.aggregator,
      StationTicketIds(created.snapshot.Tickets(), created.order.id), RouteLines(catalog, detail.lines))
  }

  function OrderMutation(move: OrderMove): Mutation {
    OrderStatusChanged(move.order.id, move.order.status, move.order.version - 1)
  }

  function TicketMutation(move: TicketMove): Mutation {
    TicketStatusChanged(move.ticket.id, move.order.id, move.ticket.status, move.ticket.version - 1)
  }

  /** The mutation committed together with the snapshot of a successful operation. */
  function MutationOf(s: Snapshot, op: Operation): Mutation
    requires Perform(s, op).Some?
  {
    match op
    case Create(catalog, input, newId, now) =>
        CreatedMutation(catalog, CreateOrder(s, catalog, input, newId, now).value)
    case MoveOrder(orderId, now) => OrderMutation(AdvanceOrder(s, orderId, now).value)
    case MoveTicket(ticketId, now) => TicketMutation(AdvanceTicket(s, ticketId, now).value)
  }
}
