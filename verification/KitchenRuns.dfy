/**
 Order entry, and what every run of the kitchen machine keeps: the order status is the one its
 tickets imply, it moves one step at a time, versions count the steps, and work runs out.
 */
module KitchenRuns {
  import opened Prelude
  import opened Kitchen
  import opened Trimming

  // ---------------------------------------------------------------- creating an order

  /** A menu item, its name in the language of the device. */
  datatype CatalogItem = CatalogItem(name: string, station: Station, prepMinutes: int)

  type Catalog = map<ItemId, CatalogItem>

  datatype NewLine = NewLine(
    menuItemId: ItemId, quantity: int, note: Option<string>, name: Option<string>, stationId: Option<Station>,
    prepMinutes: Option<int>)

  datatype NewOrder = NewOrder(
    guestName: Option<string>, tableLabel: Option<string>, note: Option<string>, aggregator: Option<Aggregator>,
    lines: seq<NewLine>)

  datatype Created = Created(snapshot: Snapshot, order: Order)

  datatype StationLines = StationLines(station: Station, lineIds: seq<Id>)

  const MILLISECONDS_PER_MINUTE := 60_000

  /** Present and not empty. */
  predicate Truthy(text: Option<string>) {
    text.Some? && text.value != ""
  }

  /** The trimmed text, and nothing where only white space was typed. */
  function Cleaned(text: Option<string>): (r: Option<string>)
    ensures r.Some? ==> r.value != ""
  {
    if text.Some? && Trim(text.value) != "" then Some(Trim(text.value)) else None
  }

  predicate Available(catalog: Catalog, line: NewLine) {
    line.quantity > 0 && (line.menuItemId in catalog || (Truthy(line.name) && Truthy(line.stationId)))
  }

  /** Where the device routes a line: the line's own station wins over the catalogue's. */
  function LocalStation(catalog: Catalog, line: OrderLine): Station {
    if line.stationId.Some? then line.stationId.value
    else if line.menuItemId in catalog then catalog[line.menuItemId].station
    else "hot"
  }

  function PrepMinutes(catalog: Catalog, line: NewLine): int {
    if line.prepMinutes.Some? then line.prepMinutes.value
    else if line.menuItemId in catalog then catalog[line.menuItemId].prepMinutes
    else 12
  }

  function LongestPrep(catalog: Catalog, lines: seq<NewLine>): int
    requires lines != []
  {
    if |lines| == 1 then PrepMinutes(catalog, lines[0])
    else Max(PrepMinutes(catalog, lines[0]), LongestPrep(catalog, lines[1..]))
  }

  /** Adds a line to its station's group; a station seen for the first time opens a group at the end. */
  function AddLine(groups: seq<StationLines>, station: Station, lineId: Id): seq<StationLines> {
    if groups == [] then [StationLines(station, [lineId])]
    else if groups[0].station == station then [groups[0].(lineIds := groups[0].lineIds + [lineId])] + groups[1..]
    else [groups[0]] + AddLine(groups[1..], station, lineId)
  }

  function GroupByStation(catalog: Catalog, lines: seq<OrderLine>): seq<StationLines> {
    if lines == [] then []
    else
      var last := lines[|lines| - 1];
      AddLine(GroupByStation(catalog, lines[..|lines| - 1]), LocalStation(catalog, last), last.id)
  }

  /** The loop over the lines that fills the station map. */
  method CollectStationLines(catalog: Catalog, lines: seq<OrderLine>) returns (groups: seq<StationLines>)
    ensures groups == GroupByStation(catalog, lines)
  {
    groups := [];
    for i := 0 to |lines|
      invariant groups == GroupByStation(catalog, lines[..i])
    {
      groups := AddLine(groups, LocalStation(catalog, lines[i]), lines[i].id);
      assert lines[..i + 1][..i] == lines[..i];
    }
    assert lines[..|lines|] == lines;
  }

  function StationsOf(groups: seq<StationLines>): set<Station> {
    set g | g in groups :: g.station
  }

  ghost predicate DistinctStations(groups: seq<StationLines>) {
    forall i, j :: 0 <= i < j < |groups| ==> groups[i].station != groups[j].station
  }

  function LinesAt(catalog: Catalog, lines: seq<OrderLine>, station: Station): seq<Id> {
    if lines == [] then []
    else
      var last := lines[|lines| - 1];
      LinesAt(catalog, lines[..|lines| - 1], station)
      + if LocalStation(catalog, last) == station then [last.id] else []
  }

  function IdsAt(groups: seq<StationLines>, station: Station): seq<Id> {
    if groups == [] then []
    else if groups[0].station == station then groups[0].lineIds
    else IdsAt(groups[1..], station)
  }

  lemma {:induction false} AddLineIds(groups: seq<StationLines>, station: Station, lineId: Id, other: Station)
    ensures IdsAt(AddLine(groups, station, lineId), other)
            == IdsAt(groups, other) + if other == station then [lineId] else []
  {
    if groups != [] && groups[0].station != station {
      AddLineIds(groups[1..], station, lineId, other);
    }
  }

  lemma {:induction false} AddLineStations(groups: seq<StationLines>, station: Station, lineId: Id)
    ensures StationsOf(AddLine(groups, station, lineId)) == StationsOf(groups) + {station}
    ensures DistinctStations(groups) ==> DistinctStations(AddLine(groups, station, lineId))
  {
    var r := AddLine(groups, station, lineId);
    if groups == [] {
    } else if groups[0].station == station {
      HeadAndTail(r);
      HeadAndTail(groups);
    } else {
      AddLineStations(groups[1..], station, lineId);
      HeadAndTail(r);
      HeadAndTail(groups);
    }
  }

  /** The stations of a nonempty list, and their distinctness, by its head and its tail. */
  lemma HeadAndTail(groups: seq<StationLines>)
    requires groups != []
    ensures StationsOf(groups) == {groups[0].station} + StationsOf(groups[1..])
    ensures DistinctStations(groups)
            <==> DistinctStations(groups[1..]) && groups[0].station !in StationsOf(groups[1..])
  {
  }

  lemma {:induction false} DistinctLookup(groups: seq<StationLines>, g: StationLines)
    requires DistinctStations(groups) && g in groups
    ensures IdsAt(groups, g.station) == g.lineIds
  {
    HeadAndTail(groups);
    if groups[0] != g {
      DistinctLookup(groups[1..], g);
    }
  }

  lemma {:induction false} GroupedIds(catalog: Catalog, lines: seq<OrderLine>, station: Station)
    ensures IdsAt(GroupByStation(catalog, lines), station) == LinesAt(catalog, lines, station)
  {
    if lines != [] {
      var last := lines[|lines| - 1];
      GroupedIds(catalog, lines[..|lines| - 1], station);
      AddLineIds(GroupByStation(catalog, lines[..|lines| - 1]), LocalStation(catalog, last), last.id, station);
    }
  }

  function LineStations(catalog: Catalog, lines: seq<OrderLine>): set<Station> {
    set l | l in lines :: LocalStation(catalog, l)
  }

  lemma {:induction false} GroupedStations(catalog: Catalog, lines: seq<OrderLine>)
    ensures StationsOf(GroupByStation(catalog, lines)) == LineStations(catalog, lines)
    ensures DistinctStations(GroupByStation(catalog, lines))
  {
    if lines != [] {
      var last := lines[|lines| - 1];
      GroupedStations(catalog, lines[..|lines| - 1]);
      AddLineStations(GroupByStation(catalog, lines[..|lines| - 1]), LocalStation(catalog, last), last.id);
      assert forall l :: l in lines <==> l in lines[..|lines| - 1] || l == last;
    }
  }

  /** Each station in use gets one group, holding exactly its lines in the order they were entered. */
  lemma GroupsPartitionLines(catalog: Catalog, lines: seq<OrderLine>)
    ensures var groups := GroupByStation(catalog, lines);
            && DistinctStations(groups)
            && StationsOf(groups) == LineStations(catalog, lines)
            && (forall g | g in groups :: g.lineIds == LinesAt(catalog, lines, g.station))
  {
    var groups := GroupByStation(catalog, lines);
    GroupedStations(catalog, lines);
    forall g | g in groups
      ensures g.lineIds == LinesAt(catalog, lines, g.station)
    {
      DistinctLookup(groups, g);
      GroupedIds(catalog, lines, g.station);
    }
  }

  function KeptLines(catalog: Catalog, lines: seq<NewLine>): seq<NewLine> {
    Filter((line: NewLine) => Available(catalog, line), lines)
  }

  /** Generated ids are taken from newId in the order the source generates them. */
  function WithIds(lines: seq<NewLine>, newId: nat -> Id): seq<OrderLine> {
    seq(|lines|, i requires 0 <= i < |lines| =>
      OrderLine(newId(i), lines[i].menuItemId, lines[i].quantity, lines[i].note, lines[i].name, lines[i].stationId))
  }

  function TicketsFor(
    groups: seq<StationLines>, orderId: Id, dueAt: Stamp, newId: nat -> Id, first: nat, now: Stamp): seq<Ticket>
  {
    seq(|groups|, i requires 0 <= i < |groups| =>
      Entity(newId(first + i), Queued, now, now, 1, Local,
             TicketDetail(orderId, groups[i].station, groups[i].lineIds, 0, Some(dueAt))))
  }

  function CreateOrder(s: Snapshot, catalog: Catalog, input: NewOrder, newId: nat -> Id, now: Stamp)
    : Result<Created, KitchenError>
  {
    var kept := KeptLines(catalog, input.lines);
    if kept == [] then Err(NoAvailableItem)
    else
      var lines := WithIds(kept, newId);
      var dueAt := now + LongestPrep(catalog, kept) * MILLISECONDS_PER_MINUTE;
      var order := Entity(newId(|kept|), Queued, now, now, 1, Local,
                          OrderDetail(
                            s.nextOrderNumber, Cleaned(input.guestName), Cleaned(input.tableLabel),
                            Cleaned(input.note), input.aggregator, lines, dueAt));
      var tickets := TicketsFor(GroupByStation(catalog, lines), order.id, dueAt, newId, |kept| + 1, now);
      Ok(Created(
        s.(nextOrderNumber := s.nextOrderNumber + 1,
           orders := [order] + s.orders,
           tickets := Some(tickets + s.Tickets())),
        order))
  }

  /** Generated ids never repeat and never meet an id already in use. */
  ghost predicate Fresh(newId: nat -> Id, s: Snapshot) {
    && (forall i: nat, j: nat :: newId(i) == newId(j) ==> i == j)
    && (forall i: nat :: newId(i) !in Ids(s.orders) && newId(i) !in Ids(s.Tickets()))
  }

  // ---------------------------------------------------------------- the invariant

  /** The order status is the one its tickets imply, and every version is one plus the steps taken. */
  ghost predicate Consistent(tickets: seq<Ticket>, o: Order) {
    && (exists t :: t in tickets && Belongs(t, o.id))
    && (forall t | t in tickets && Belongs(t, o.id) :: t.status != Cancelled && t.version == 1 + Rank(t.status))
    && o.status == DeriveOrderStatus(Statuses(tickets, o.id))
    && o.version == 1 + Rank(o.status)
  }

  ghost predicate AllConsistent(s: Snapshot) {
    && WellIdentified(s)
    && s.tickets.Some?
    && (forall o | o in s.orders :: Consistent(s.Tickets(), o))
    && (forall t | t in s.Tickets() :: t.detail.orderId in Ids(s.orders))
  }

  /** A status set without cancelled tickets, read off membership by membership. */
  lemma DeriveByMembership(statuses: set<Status>)
    requires Cancelled !in statuses && statuses != {}
    ensures DeriveOrderStatus(statuses) ==
            if Queued !in statuses && Fired !in statuses && Preparing !in statuses then
              if Ready in statuses then Ready else Completed
            else if Preparing in statuses || Ready in statuses || Completed in statuses then Preparing
            else if Fired in statuses then Fired
            else Queued
  {
    assert statuses - {Cancelled} == statuses;
    var late := statuses * {Preparing, Ready, Completed};
    assert Preparing in late <==> Preparing in statuses;
    assert Ready in late <==> Ready in statuses;
    assert Completed in late <==> Completed in statuses;
    assert late != {} ==> Preparing in late || Ready in late || Completed in late;
    forall x | x in statuses
      ensures x == Queued || x == Fired || x == Preparing || x == Ready || x == Completed
    {
    }
    assert Queued in statuses ==> !(statuses <= {Ready, Completed});
    assert Fired in statuses ==> !(statuses <= {Ready, Completed});
    assert Preparing in statuses ==> !(statuses <= {Ready, Completed});
    assert Ready in statuses ==> !(statuses <= {Completed});
  }

  /** Moving one ticket one step moves the derived order status by at most one step. */
  lemma DerivedOneStep(before: set<Status>, after: set<Status>, from: Status, to: Status)
    requires Cancelled !in before && from in before && Next(from) == Some(to)
    requires after == before + {to} || after == before - {from} + {to}
    ensures var b, a := DeriveOrderStatus(before), DeriveOrderStatus(after);
            a == b || Next(b) == Some(a)
    ensures DeriveOrderStatus(after) != Cancelled
  {
    assert to in after;
    DeriveByMembership(before);
    DeriveByMembership(after);
  }

  lemma StatusesAfterTicket(tickets: seq<Ticket>, t: Ticket, to: Status, now: Stamp)
    requires UniqueIds(tickets) && t in tickets && t.status != to
    ensures var orderId := t.detail.orderId;
            var before := Statuses(tickets, orderId);
            var after := Statuses(Replace(tickets, Stepped(t, to, now)), orderId);
            t.status in before && (after == before + {to} || after == before - {t.status} + {to})
  {
  }

  /** Every ticket of the new list is an old one, or the stepped one. */
  lemma ReplacedElements<D>(s: seq<Entity<D>>, old1: Entity<D>, new1: Entity<D>)
    requires UniqueIds(s) && old1 in s && new1.id == old1.id
    ensures UniqueIds(Replace(s, new1)) && Ids(Replace(s, new1)) == Ids(s)
    ensures forall x :: x in Replace(s, new1) <==> x == new1 || (x in s && x != old1)
  {
  }

  lemma OtherOrderUntouched(before: seq<Ticket>, after: seq<Ticket>, o: Order)
    requires Consistent(before, o)
    requires forall t | Belongs(t, o.id) :: t in after <==> t in before
    ensures Consistent(after, o)
  {
    assert Statuses(after, o.id) == Statuses(before, o.id);
    var t :| t in before && Belongs(t, o.id);
    assert t in after;
  }

  ghost predicate SameElsewhere(before: seq<Ticket>, after: seq<Ticket>, orderId: Id) {
    forall t | !Belongs(t, orderId) :: t in after <==> t in before
  }

  /** Replacing one order, and touching only its tickets, keeps the invariant if that order has it. */
  lemma OneOrderChanged(s: Snapshot, s': Snapshot, o: Order, o': Order)
    requires AllConsistent(s) && o in s.orders && o'.id == o.id
    requires s'.orders == Replace(s.orders, o') && s'.tickets.Some? && UniqueIds(s'.Tickets())
    requires SameElsewhere(s.Tickets(), s'.Tickets(), o.id)
    requires Consistent(s'.Tickets(), o')
    ensures AllConsistent(s')
  {
    ReplacedElements(s.orders, o, o');
    forall x | x in s'.orders && x != o'
      ensures Consistent(s'.Tickets(), x)
    {
      FindUnique(s.orders, x);
      FindUnique(s.orders, o);
      OtherOrderUntouched(s.Tickets(), s'.Tickets(), x);
    }
    forall t | t in s'.Tickets()
      ensures t.detail.orderId in Ids(s'.orders)
    {
      if !Belongs(t, o.id) {
        assert t in s.Tickets();
      }
    }
  }

  lemma TicketMoveOnTickets(tickets: seq<Ticket>, t: Ticket, o: Order, to: Status, now: Stamp)
    requires UniqueIds(tickets) && t in tickets && Belongs(t, o.id) && Consistent(tickets, o)
    requires Next(t.status) == Some(to)
    ensures var tickets' := Replace(tickets, Stepped(t, to, now));
            var derived := DeriveOrderStatus(Statuses(tickets', o.id));
            && UniqueIds(tickets') && SameElsewhere(tickets, tickets', o.id)
            && (derived == o.status || Next(o.status) == Some(derived))
            && Consistent(tickets', if derived == o.status then o else Stepped(o, derived, now))
  {
    hide DeriveOrderStatus;
    var t' := Stepped(t, to, now);
    var tickets' := Replace(tickets, t');
    ReplacedElements(tickets, t, t');
    StatusesAfterTicket(tickets, t, to, now);
    DerivedOneStep(Statuses(tickets, o.id), Statuses(tickets', o.id), t.status, to);
    assert t' in tickets' && Belongs(t', o.id);
  }

  /** A ticket move keeps every order consistent, and its own order moves by at most one step. */
  lemma TicketMoveKeeps(s: Snapshot, ticketId: Id, now: Stamp)
    requires AllConsistent(s) && AdvanceTicket(s, ticketId, now).Ok?
    ensures var move := AdvanceTicket(s, ticketId, now).value;
            && AllConsistent(move.snapshot)
            && var was := Find(s.orders, move.order.id);
               was.Some? && (move.order == was.value || Next(was.value.status) == Some(move.order.status))
  {
    var t := Find(s.Tickets(), ticketId).value;
    var o := Find(s.orders, t.detail.orderId).value;
    var move := AdvanceTicket(s, ticketId, now).value;
    TicketMoveOnTickets(s.Tickets(), t, o, Next(t.status).value, now);
    OneOrderChanged(s, move.snapshot, o, move.order);
  }

  lemma OrderMoveOnTickets(s: Snapshot, orderId: Id, now: Stamp)
    requires AdvanceOrder(s, orderId, now).Ok? && s.tickets.Some?
    ensures var before, after := s.Tickets(), AdvanceOrder(s, orderId, now).value.snapshot.Tickets();
            UniqueIds(before) ==> UniqueIds(after)
    ensures var before, after := s.Tickets(), AdvanceOrder(s, orderId, now).value.snapshot.Tickets();
            SameElsewhere(before, after, orderId)
    ensures var before, after := s.Tickets(), AdvanceOrder(s, orderId, now).value.snapshot.Tickets();
            forall u | u in before && Belongs(u, orderId) :: exists t | t in after :: Belongs(t, orderId)
    ensures var next := Next(Find(s.orders, orderId).value.status).value;
            var before, after := s.Tickets(), AdvanceOrder(s, orderId, now).value.snapshot.Tickets();
            forall t | t in after && Belongs(t, orderId) ::
              t.status == next
              && (t in before
                  || exists u | u in before ::
                       Belongs(u, orderId) && Next(u.status) == Some(next) && t == Stepped(u, next, now))
  {
    var before, after := s.Tickets(), AdvanceOrder(s, orderId, now).value.snapshot.Tickets();
    forall t | t in before
      ensures !Belongs(t, orderId) ==> t in after
      ensures Belongs(t, orderId) ==> exists x | x in after :: Belongs(x, orderId)
    {
      var i :| 0 <= i < |before| && before[i] == t;
      assert after[i] in after;
    }
    forall t | t in after
      ensures !Belongs(t, orderId) ==> t in before
    {
      var i :| 0 <= i < |after| && after[i] == t;
      assert before[i] in before;
    }
  }

  lemma StepRank(from: Status, to: Status)
    requires Next(from) == Some(to)
    ensures Rank(to) == Rank(from) + 1 && to != Cancelled
  {
  }

  lemma AlignedTicket(tickets: seq<Ticket>, o: Order, t: Ticket, next: Status, now: Stamp)
    requires Consistent(tickets, o) && Belongs(t, o.id) && t.status == next
    requires t in tickets
             || exists u | u in tickets ::
                  Belongs(u, o.id) && Next(u.status) == Some(next) && t == Stepped(u, next, now)
    ensures t.version == 1 + Rank(next)
  {
  }

  /** An order whose tickets all took its step is consistent again. */
  lemma AlignedConsistent(tickets: seq<Ticket>, o: Order, o': Order, next: Status)
    requires Next(o.status) == Some(next) && o.version == 1 + Rank(o.status)
    requires o'.id == o.id && o'.status == next && o'.version == o.version + 1
    requires exists t :: t in tickets && Belongs(t, o.id)
    requires forall t | t in tickets && Belongs(t, o.id) :: t.status == next && t.version == 1 + Rank(next)
    ensures Consistent(tickets, o')
  {
    hide DeriveOrderStatus;
    var t :| t in tickets && Belongs(t, o.id);
    assert Statuses(tickets, o.id) == {next} by {
      assert t.status in Statuses(tickets, o.id);
    }
    DeriveAdjacent(o.status, next);
    StepRank(o.status, next);
  }

  lemma OrderMoveConsistent(s: Snapshot, o: Order, now: Stamp)
    requires s.tickets.Some? && Find(s.orders, o.id) == Some(o) && AdvanceOrder(s, o.id, now).Ok?
    requires Consistent(s.Tickets(), o)
    ensures var move := AdvanceOrder(s, o.id, now).value; Consistent(move.snapshot.Tickets(), move.order)
  {
    hide DeriveOrderStatus;
    var next := Next(o.status).value;
    var tickets, move := s.Tickets(), AdvanceOrder(s, o.id, now).value;
    OrderMoveOnTickets(s, o.id, now);
    var u :| u in tickets && Belongs(u, o.id);
    forall t | t in move.snapshot.Tickets() && Belongs(t, o.id)
      ensures t.status == next && t.version == 1 + Rank(next)
    {
      AlignedTicket(tickets, o, t, next, now);
    }
    AlignedConsistent(move.snapshot.Tickets(), o, move.order, next);
  }

  lemma OrderMoveKeeps(s: Snapshot, orderId: Id, now: Stamp)
    requires AllConsistent(s) && AdvanceOrder(s, orderId, now).Ok?
    ensures var move := AdvanceOrder(s, orderId, now).value;
            && AllConsistent(move.snapshot)
            && Next(Find(s.orders, orderId).value.status) == Some(move.order.status)
  {
    var o := Find(s.orders, orderId).value;
    var move := AdvanceOrder(s, orderId, now).value;
    OrderMoveOnTickets(s, orderId, now);
    OrderMoveConsistent(s, o, now);
    OneOrderChanged(s, move.snapshot, o, move.order);
  }

  lemma NewTickets(
    groups: seq<StationLines>, orderId: Id, dueAt: Stamp, newId: nat -> Id, first: nat, now: Stamp, s: Snapshot)
    requires Fresh(newId, s)
    ensures var tickets := TicketsFor(groups, orderId, dueAt, newId, first, now);
            && UniqueIds(tickets)
            && (forall t | t in tickets ::
                  t.id !in Ids(s.Tickets()) && Belongs(t, orderId) && t.status == Queued && t.version == 1)
  {
  }

  lemma PrependUnique<D>(a: seq<Entity<D>>, b: seq<Entity<D>>)
    requires UniqueIds(a) && UniqueIds(b)
    requires forall x | x in a :: x.id !in Ids(b)
    ensures UniqueIds(a + b)
  {
  }

  /** A new order with queued tickets of its own joins a consistent snapshot. */
  lemma NewOrderJoins(s: Snapshot, s': Snapshot, order: Order, tickets: seq<Ticket>)
    requires AllConsistent(s)
    requires s'.orders == [order] + s.orders && s'.tickets == Some(tickets + s.Tickets())
    requires order.id !in Ids(s.orders) && order.status == Queued && order.version == 1
    requires tickets != [] && UniqueIds(tickets)
    requires forall t | t in tickets ::
               t.id !in Ids(s.Tickets()) && Belongs(t, order.id) && t.status == Queued && t.version == 1
    ensures AllConsistent(s')
  {
    PrependUnique(tickets, s.Tickets());
    PrependUnique([order], s.orders);
    forall t | t in s.Tickets()
      ensures !Belongs(t, order.id)
    {
    }
    assert Consistent(s'.Tickets(), order) by {
      assert tickets[0] in s'.Tickets();
      assert Statuses(s'.Tickets(), order.id) == {Queued} by {
        assert tickets[0].status in Statuses(s'.Tickets(), order.id);
      }
      DeriveByMembership({Queued});
    }
    forall o | o in s'.orders && o != order
      ensures Consistent(s'.Tickets(), o)
    {
      assert o in s.orders && o.id in Ids(s.orders);
      OtherOrderUntouched(s.Tickets(), s'.Tickets(), o);
    }
    assert order in s'.orders;
    assert forall o | o in s.orders :: o in s'.orders;
  }

  lemma CreateKeeps(s: Snapshot, catalog: Catalog, input: NewOrder, newId: nat -> Id, now: Stamp)
    requires AllConsistent(s) && Fresh(newId, s) && CreateOrder(s, catalog, input, newId, now).Ok?
    ensures AllConsistent(CreateOrder(s, catalog, input, newId, now).value.snapshot)
  {
    var kept := KeptLines(catalog, input.lines);
    var lines := WithIds(kept, newId);
    var groups := GroupByStation(catalog, lines);
    var created := CreateOrder(s, catalog, input, newId, now).value;
    var order := created.order;
    var tickets := TicketsFor(groups, order.id, order.detail.dueAt, newId, |kept| + 1, now);
    GroupsPartitionLines(catalog, lines);
    assert lines[0] in lines && LocalStation(catalog, lines[0]) in StationsOf(groups);
    NewTickets(groups, order.id, order.detail.dueAt, newId, |kept| + 1, now, s);
    NewOrderJoins(s, created.snapshot, order, tickets);
  }

  // ---------------------------------------------------------------- whole runs

  datatype Operation =
    | Create(catalog: Catalog, input: NewOrder, newId: nat -> Id, now: Stamp)
    | MoveOrder(orderId: Id, now: Stamp)
    | MoveTicket(ticketId: Id, now: Stamp)

  /** The snapshot after an operation, or nothing if the operation is refused. */
  function Perform(s: Snapshot, op: Operation): Option<Snapshot> {
    match op
    case Create(catalog, input, newId, now) =>
      (match CreateOrder(s, catalog, input, newId, now) case Ok(c) => Some(c.snapshot) case Err(_) => None)
    case MoveOrder(orderId, now) =>
      (match AdvanceOrder(s, orderId, now) case Ok(m) => Some(m.snapshot) case Err(_) => None)
    case MoveTicket(ticketId, now) =>
      (match AdvanceTicket(s, ticketId, now) case Ok(m) => Some(m.snapshot) case Err(_) => None)
  }

  /** Refused operations change nothing. */
  function Run(s: Snapshot, ops: seq<Operation>): Snapshot
    decreases |ops|
  {
    if ops == [] then s else Run(Perform(s, ops[0]).GetOr(s), ops[1..])
  }

  ghost predicate FreshAlong(s: Snapshot, ops: seq<Operation>)
    decreases |ops|
  {
    ops != [] ==>
      && (ops[0].Create? ==> Fresh(ops[0].newId, s))
      && FreshAlong(Perform(s, ops[0]).GetOr(s), ops[1..])
  }

  lemma PerformKeeps(s: Snapshot, op: Operation)
    requires AllConsistent(s) && (op.Create? ==> Fresh(op.newId, s))
    ensures AllConsistent(Perform(s, op).GetOr(s))
  {
    if Perform(s, op).Some? {
      match op
      case Create(catalog, input, newId, now) => CreateKeeps(s, catalog, input, newId, now);
      case MoveOrder(orderId, now) => OrderMoveKeeps(s, orderId, now);
      case MoveTicket(ticketId, now) => TicketMoveKeeps(s, ticketId, now);
    }
  }

  /** In every state any run reaches, each order's status and version are the ones its tickets imply. */
  lemma {:induction false} RunsStayConsistent(s: Snapshot, ops: seq<Operation>)
    requires AllConsistent(s) && FreshAlong(s, ops)
    ensures AllConsistent(Run(s, ops))
    decreases |ops|
  {
    if ops != [] {
      PerformKeeps(s, ops[0]);
      RunsStayConsistent(Perform(s, ops[0]).GetOr(s), ops[1..]);
    }
  }

  /** The connected client starts from an empty snapshot, which is consistent. */
  lemma EmptyIsConsistent(s: Snapshot)
    requires s.orders == [] && s.tickets == Some([])
    ensures AllConsistent(s)
  {
  }

  // ---------------------------------------------------------------- progress

  function StepsLeft(status: Status): nat {
    match status
    case Queued => 4
    case Fired => 3
    case Preparing => 2
    case Ready => 1
    case Completed => 0
    case Cancelled => 0
  }

  function WorkLeft(tickets: seq<Ticket>): nat {
    if tickets == [] then 0 else StepsLeft(tickets[0].status) + WorkLeft(tickets[1..])
  }

  lemma {:induction false} WorkLeftBound(tickets: seq<Ticket>)
    ensures WorkLeft(tickets) <= 4 * |tickets|
  {
    if tickets != [] {
      WorkLeftBound(tickets[1..]);
    }
  }

  lemma {:induction false} WorkShrinks(before: seq<Ticket>, after: seq<Ticket>, k: int)
    requires |before| == |after|
    requires forall i | 0 <= i < |before| :: StepsLeft(after[i].status) <= StepsLeft(before[i].status)
    requires 0 <= k < |before| ==> StepsLeft(after[k].status) < StepsLeft(before[k].status)
    ensures WorkLeft(after) <= WorkLeft(before)
    ensures 0 <= k < |before| ==> WorkLeft(after) < WorkLeft(before)
  {
    if before != [] {
      WorkShrinks(before[1..], after[1..], k - 1);
    }
  }

  lemma NextLeavesLess(from: Status, to: Status)
    requires Next(from) == Some(to)
    ensures StepsLeft(to) < StepsLeft(from)
  {
  }

  lemma OrderMoveShrinksWork(s: Snapshot, orderId: Id, now: Stamp)
    requires AdvanceOrder(s, orderId, now).Ok? && s.tickets.Some?
    requires exists t | t in s.Tickets() :: Belongs(t, orderId)
    ensures WorkLeft(AdvanceOrder(s, orderId, now).value.snapshot.Tickets()) < WorkLeft(s.Tickets())
  {
    var before, after := s.Tickets(), AdvanceOrder(s, orderId, now).value.snapshot.Tickets();
    var next := Next(Find(s.orders, orderId).value.status).value;
    forall i | 0 <= i < |before|
      ensures StepsLeft(after[i].status) <= StepsLeft(before[i].status)
      ensures Belongs(before[i], orderId) && before[i].status != next
              ==> StepsLeft(after[i].status) < StepsLeft(before[i].status)
    {
      assert before[i] in before;
      if Belongs(before[i], orderId) && before[i].status != next {
        NextLeavesLess(before[i].status, next);
      }
    }
    var t :| t in before && Belongs(t, orderId) && t.status != next;
    var k :| 0 <= k < |before| && before[k] == t;
    WorkShrinks(before, after, k);
  }

  lemma TicketMoveShrinksWork(tickets: seq<Ticket>, t: Ticket, to: Status, now: Stamp)
    requires UniqueIds(tickets) && t in tickets && Next(t.status) == Some(to)
    ensures WorkLeft(Replace(tickets, Stepped(t, to, now))) < WorkLeft(tickets)
  {
    var k :| 0 <= k < |tickets| && tickets[k] == t;
    NextLeavesLess(t.status, to);
    assert forall i | 0 <= i < |tickets| :: tickets[i].id == t.id ==> i == k;
    WorkShrinks(tickets, Replace(tickets, Stepped(t, to, now)), k);
  }

  /** Every successful move leaves strictly less work. */
  lemma MoveShrinksWork(s: Snapshot, op: Operation)
    requires AllConsistent(s) && !op.Create? && Perform(s, op).Some?
    ensures WorkLeft(Perform(s, op).value.Tickets()) < WorkLeft(s.Tickets())
  {
    match op
    case MoveOrder(orderId, now) =>
      assert Consistent(s.Tickets(), Find(s.orders, orderId).value);
      OrderMoveShrinksWork(s, orderId, now);
    case MoveTicket(ticketId, now) =>
      var t := Find(s.Tickets(), ticketId).value;
      TicketMoveShrinksWork(s.Tickets(), t, Next(t.status).value, now);
  }

  ghost predicate AllSucceed(s: Snapshot, ops: seq<Operation>)
    decreases |ops|
  {
    ops != [] ==> !ops[0].Create? && Perform(s, ops[0]).Some? && AllSucceed(Perform(s, ops[0]).value, ops[1..])
  }

  lemma {:induction false} MovesPayForWork(s: Snapshot, ops: seq<Operation>)
    requires AllConsistent(s) && AllSucceed(s, ops)
    ensures |ops| + WorkLeft(Run(s, ops).Tickets()) <= WorkLeft(s.Tickets())
    decreases |ops|
  {
    if ops != [] {
      MoveShrinksWork(s, ops[0]);
      PerformKeeps(s, ops[0]);
      MovesPayForWork(Perform(s, ops[0]).value, ops[1..]);
    }
  }

  /** n tickets are finished after at most 4n successful moves, however they are chosen. */
  lemma AtMostFourMovesPerTicket(s: Snapshot, ops: seq<Operation>)
    requires AllConsistent(s) && AllSucceed(s, ops)
    ensures |ops| <= 4 * |s.Tickets()|
  {
    MovesPayForWork(s, ops);
    WorkLeftBound(s.Tickets());
  }

  lemma UnfinishedTicket(tickets: seq<Ticket>, o: Order)
    requires Consistent(tickets, o) && o.status != Completed
    ensures exists t | t in tickets :: Belongs(t, o.id) && Next(t.status).Some?
  {
    var statuses := Statuses(tickets, o.id);
    var any :| any in tickets && Belongs(any, o.id);
    assert any.status in statuses;
    DeriveByMembership(statuses);
    var status :| status in statuses && status != Completed;
    assert exists t | t in tickets :: Belongs(t, o.id) && t.status == status;
  }

  /** Until an order is completed, some ticket of it can be moved. */
  lemma NotStuck(s: Snapshot, o: Order, now: Stamp)
    requires AllConsistent(s) && o in s.orders && o.status != Completed
    ensures exists t | t in s.Tickets() :: Belongs(t, o.id) && AdvanceTicket(s, t.id, now).Ok?
  {
    UnfinishedTicket(s.Tickets(), o);
    var t :| t in s.Tickets() && Belongs(t, o.id) && Next(t.status).Some?;
    FindUnique(s.Tickets(), t);
    FindUnique(s.orders, o);
    assert AdvanceTicket(s, t.id, now).Ok?;
  }
}
