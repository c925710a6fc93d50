/**
 What the kitchen operations answer, field by field: which submissions are refused, what an accepted one
 becomes on the device and in its event, and what a move changes and leaves alone.
 */
module OrderEntry {
  import opened Prelude
  import opened Kitchen
  import opened KitchenRuns
  import opened Mutations
  import opened Trimming

  // ---------------------------------------------------------------- texts

  /** What is left of a text is its middle, from its first to its last character that is not white space. */
  ghost predicate MiddleOf(text: string, middle: string) {
    exists i, j ::
      && 0 <= i < j <= |text| && middle == text[i..j] && AllSpace(text[..i]) && AllSpace(text[j..])
      && !IsSpace(text[i]) && !IsSpace(text[j - 1])
  }

  /** A typed text is kept without the white space around it, and not at all if it is nothing else. */
  lemma CleanedIs(text: Option<string>)
    ensures var r := Cleaned(text);
            && (r.None? <==> text.None? || AllSpace(text.value))
            && (r.Some? ==> text.Some? && MiddleOf(text.value, r.value))
  {
    if text.Some? {
      var i, j := TrimCuts(text.value);
      if i == j {
        assert text.value == text.value[..i] + text.value[j..];
      } else {
        var middle := text.value[i..j];
        assert middle[0] == text.value[i] && middle[|middle| - 1] == text.value[j - 1];
        assert text.value[i] in text.value;
      }
    }
  }

  // ---------------------------------------------------------------- a submission

  /** A line with a quantity, of a known item or with a name and a station of its own. */
  predicate Orderable(catalog: Catalog, l: NewLine) {
    && l.quantity > 0
    && (l.menuItemId in catalog
        || (l.name.Some? && l.name.value != "" && l.stationId.Some? && l.stationId.value != ""))
  }

  lemma {:induction false} FilterSame<T>(p: T -> bool, q: T -> bool, s: seq<T>)
    requires forall x | x in s :: p(x) == q(x)
    ensures Filter(p, s) == Filter(q, s)
  {
    if s != [] {
      FilterSame(p, q, s[1..]);
    }
  }

  lemma KeptAreOrderable(catalog: Catalog, lines: seq<NewLine>)
    ensures KeptLines(catalog, lines) == Filter((l: NewLine) => Orderable(catalog, l), lines)
    ensures KeptLines(catalog, lines) == [] <==> forall l | l in lines :: !Orderable(catalog, l)
  {
    var p := (l: NewLine) => Orderable(catalog, l);
    FilterSame((l: NewLine) => Available(catalog, l), p, lines);
    FilterElements(p, lines);
    if Filter(p, lines) == [] {
      forall l | l in lines
        ensures !Orderable(catalog, l)
      {
        assert p(l) ==> l in Filter(p, lines);
      }
    } else {
      assert Filter(p, lines)[0] in Filter(p, lines);
    }
  }

  /** A submission is refused if and only if none of its lines can be ordered. */
  lemma RefusedIff(s: Snapshot, catalog: Catalog, input: NewOrder, newId: nat -> Id, now: Stamp)
    ensures CreateOrder(s, catalog, input, newId, now) == Err(NoAvailableItem)
            <==> forall l | l in input.lines :: !Orderable(catalog, l)
    ensures CreateOrder(s, catalog, input, newId, now).Ok?
            <==> exists l | l in input.lines :: Orderable(catalog, l)
  {
    KeptAreOrderable(catalog, input.lines);
  }

  /** The minutes a line takes: its own, else the catalogue's, else twelve. */
  function Minutes(catalog: Catalog, l: NewLine): int {
    if l.prepMinutes.Some? then l.prepMinutes.value
    else if l.menuItemId in catalog then catalog[l.menuItemId].prepMinutes else 12
  }

  lemma {:induction false} LongestIs(catalog: Catalog, lines: seq<NewLine>)
    requires lines != []
    ensures forall l | l in lines :: Minutes(catalog, l) <= LongestPrep(catalog, lines)
    ensures exists l | l in lines :: Minutes(catalog, l) == LongestPrep(catalog, lines)
  {
    assert lines[0] in lines;
    if |lines| > 1 {
      LongestIs(catalog, lines[1..]);
      assert forall l :: l in lines <==> l == lines[0] || l in lines[1..];
      var l :| l in lines[1..] && Minutes(catalog, l) == LongestPrep(catalog, lines[1..]);
      assert l in lines;
    } else {
      assert forall l :: l in lines <==> l == lines[0];
    }
  }

  /** The k-th line of the order is the k-th line that can be ordered, with an id of its own. */
  ghost predicate LinesOf(lines: seq<OrderLine>, kept: seq<NewLine>) {
    && |lines| == |kept|
    && forall k | 0 <= k < |kept| ::
         && lines[k].menuItemId == kept[k].menuItemId && lines[k].quantity == kept[k].quantity
         && lines[k].note == kept[k].note && lines[k].name == kept[k].name && lines[k].stationId == kept[k].stationId
  }

  /**
   An accepted submission: a new order in front of the others, with the next number, everything typed kept
   in its place, and due when its slowest line is.
   */
  lemma CreatedSays(s: Snapshot, catalog: Catalog, input: NewOrder, newId: nat -> Id, now: Stamp)
    requires CreateOrder(s, catalog, input, newId, now).Ok?
    ensures var created := CreateOrder(s, catalog, input, newId, now).value;
            var o, kept := created.order, Filter((l: NewLine) => Orderable(catalog, l), input.lines);
            && created.snapshot.orders == [o] + s.orders && created.snapshot.nextOrderNumber == s.nextOrderNumber + 1
            && o.status == Queued && o.version == 1 && o.createdAt == o.updatedAt == now && o.origin == Local
            && o.detail.number == s.nextOrderNumber && o.detail.aggregator == input.aggregator
            && o.detail.guestName == Cleaned(input.guestName) && o.detail.tableLabel == Cleaned(input.tableLabel)
            && o.detail.note == Cleaned(input.note) && LinesOf(o.detail.lines, kept)
            && (forall l | l in kept :: now + Minutes(catalog, l) * 60_000 <= o.detail.dueAt)
            && (exists l | l in kept :: now + Minutes(catalog, l) * 60_000 == o.detail.dueAt)
            && created.snapshot.organizationId == s.organizationId && created.snapshot.outletId == s.outletId
            && created.snapshot.edgeId == s.edgeId
  {
    KeptAreOrderable(catalog, input.lines);
    LongestIs(catalog, KeptLines(catalog, input.lines));
  }

  // ---------------------------------------------------------------- its tickets

  /** The station a line is prepared at: its own, else the catalogue's, else the hot kitchen. */
  function Routed(catalog: Catalog, l: OrderLine): Station {
    if l.stationId.Some? then l.stationId.value
    else if l.menuItemId in catalog then catalog[l.menuItemId].station else "hot"
  }

  lemma {:induction false} LinesAtHolds(catalog: Catalog, lines: seq<OrderLine>, station: Station, id: Id)
    ensures id in LinesAt(catalog, lines, station)
            <==> exists l | l in lines :: l.id == id && Routed(catalog, l) == station
  {
    if lines != [] {
      var before, last := lines[..|lines| - 1], lines[|lines| - 1];
      LinesAtHolds(catalog, before, station, id);
      assert forall l :: l in lines <==> l in before || l == last;
    }
  }

  /** A ticket just made for an order. */
  ghost predicate FreshTicket(t: Ticket, o: Order, now: Stamp) {
    && t.status == Queued && t.version == 1 && t.createdAt == t.updatedAt == now && t.origin == Local
    && t.detail.orderId == o.id && t.detail.priority == 0 && t.detail.targetAt == Some(o.detail.dueAt)
  }

  /** The tickets are new and in front of the others, one for each station in use, with exactly its lines. */
  ghost predicate FannedOut(catalog: Catalog, o: Order, tickets: seq<Ticket>, now: Stamp) {
    && (forall t | t in tickets :: FreshTicket(t, o, now))
    && (forall i, j :: 0 <= i < j < |tickets| ==> tickets[i].detail.stationId != tickets[j].detail.stationId)
    && (forall t, id | t in tickets ::
          id in t.detail.lineIds
          <==> exists l | l in o.detail.lines :: l.id == id && Routed(catalog, l) == t.detail.stationId)
    && (forall l | l in o.detail.lines ::
          exists t | t in tickets :: t.detail.stationId == Routed(catalog, l) && l.id in t.detail.lineIds)
  }

  lemma CreatedFansOut(s: Snapshot, catalog: Catalog, input: NewOrder, newId: nat -> Id, now: Stamp)
    returns (tickets: seq<Ticket>)
    requires CreateOrder(s, catalog, input, newId, now).Ok?
    ensures var created := CreateOrder(s, catalog, input, newId, now).value;
            created.snapshot.tickets == Some(tickets + s.Tickets()) && FannedOut(catalog, created.order, tickets, now)
  {
    hide CreateOrder, GroupByStation, WithIds, KeptLines, TicketsFor, FannedOut;
    var o := CreateOrder(s, catalog, input, newId, now).value.order;
    var groups, first := GroupByStation(catalog, o.detail.lines), |KeptLines(catalog, input.lines)| + 1;
    CreatedPieces(s, catalog, input, newId, now);
    tickets := TicketsFor(groups, o.id, o.detail.dueAt, newId, first, now);
    GroupsPartitionLines(catalog, o.detail.lines);
    TicketsOfGroups(o, groups, newId, first, now);
    GroupsFanOut(catalog, o, groups, tickets, now);
  }

  lemma CreatedPieces(s: Snapshot, catalog: Catalog, input: NewOrder, newId: nat -> Id, now: Stamp)
    requires CreateOrder(s, catalog, input, newId, now).Ok?
    ensures var created := CreateOrder(s, catalog, input, newId, now).value;
            var o, first := created.order, |KeptLines(catalog, input.lines)| + 1;
            created.snapshot.tickets
            == Some(TicketsFor(GroupByStation(catalog, o.detail.lines), o.id, o.detail.dueAt, newId, first, now)
                    + s.Tickets())
  {
  }

  lemma TicketsOfGroups(o: Order, groups: seq<StationLines>, newId: nat -> Id, first: nat, now: Stamp)
    ensures var tickets := TicketsFor(groups, o.id, o.detail.dueAt, newId, first, now);
            && |tickets| == |groups|
            && forall i | 0 <= i < |groups| ::
                 && FreshTicket(tickets[i], o, now) && tickets[i].detail.stationId == groups[i].station
                 && tickets[i].detail.lineIds == groups[i].lineIds
  {
  }

  lemma GroupsFanOut(catalog: Catalog, o: Order, groups: seq<StationLines>, tickets: seq<Ticket>, now: Stamp)
    requires |tickets| == |groups| && DistinctStations(groups)
    requires StationsOf(groups) == LineStations(catalog, o.detail.lines)
    requires forall g | g in groups :: g.lineIds == LinesAt(catalog, o.detail.lines, g.station)
    requires forall i | 0 <= i < |groups| ::
               && FreshTicket(tickets[i], o, now) && tickets[i].detail.stationId == groups[i].station
               && tickets[i].detail.lineIds == groups[i].lineIds
    ensures FannedOut(catalog, o, tickets, now)
  {
    forall t, id | t in tickets
      ensures id in t.detail.lineIds
              <==> exists l | l in o.detail.lines :: l.id == id && Routed(catalog, l) == t.detail.stationId
    {
      var i :| 0 <= i < |tickets| && tickets[i] == t;
      assert groups[i] in groups;
      LinesAtHolds(catalog, o.detail.lines, t.detail.stationId, id);
    }
    forall l | l in o.detail.lines
      ensures exists t | t in tickets :: t.detail.stationId == Routed(catalog, l) && l.id in t.detail.lineIds
    {
      assert LocalStation(catalog, l) in StationsOf(groups);
      var g :| g in groups && g.station == LocalStation(catalog, l);
      var i :| 0 <= i < |groups| && groups[i] == g;
      LinesAtHolds(catalog, o.detail.lines, g.station, l.id);
      assert tickets[i] in tickets;
    }
  }

  // ---------------------------------------------------------------- and its event

  /** The event says of a line what the catalogue says, and only without one what was typed. */
  ghost predicate SentAs(catalog: Catalog, l: OrderLine, sent: RoutedLine) {
    && sent.id == l.id && sent.menuItemId == l.menuItemId && sent.quantity == l.quantity
    && sent.preparationNote == (if l.note.Some? then l.note.value else "")
    && (if l.menuItemId in catalog then
          sent.name == catalog[l.menuItemId].name && sent.station == catalog[l.menuItemId].station
        else
          && sent.name == (if l.name.Some? then l.name.value else l.menuItemId)
          && sent.station == (if l.stationId.Some? then l.stationId.value else "hot"))
  }

  lemma {:induction false} TicketIdsHold(tickets: seq<Ticket>, orderId: Id, station: Station)
    ensures var ids := StationTicketIds(tickets, orderId);
            && (station in ids <==>
                  exists t | t in tickets :: t.detail.orderId == orderId && t.detail.stationId == station)
            && (station in ids ==>
                  exists t | t in tickets ::
                    t.id == ids[station] && t.detail.orderId == orderId && t.detail.stationId == station)
  {
    if tickets != [] {
      var before, last := tickets[..|tickets| - 1], tickets[|tickets| - 1];
      TicketIdsHold(before, orderId, station);
      assert forall t :: t in tickets <==> t in before || t == last;
    }
  }

  /** The event of a created order holds the order as it is, and the id of its ticket at each station. */
  lemma EventSays(catalog: Catalog, created: Created)
    ensures var m, o := CreatedMutation(catalog, created), created.order;
            && m.OrderCreated? && m.orderId == o.id && m.guestName == o.detail.guestName
            && m.tableLabel == o.detail.tableLabel && m.note == o.detail.note && m.aggregator == o.detail.aggregator
            && |m.lines| == |o.detail.lines|
            && (forall k | 0 <= k < |m.lines| :: SentAs(catalog, o.detail.lines[k], m.lines[k]))
            && (forall station ::
                  station in m.stationTicketIds <==>
                    exists t | t in created.snapshot.Tickets() ::
                      t.detail.orderId == o.id && t.detail.stationId == station)
            && (forall station | station in m.stationTicketIds ::
                  exists t | t in created.snapshot.Tickets() ::
                    t.id == m.stationTicketIds[station] && t.detail.orderId == o.id && t.detail.stationId == station)
  {
    forall station: Station
      ensures station in CreatedMutation(catalog, created).stationTicketIds <==>
                exists t | t in created.snapshot.Tickets() ::
                  t.detail.orderId == created.order.id && t.detail.stationId == station
      ensures station in CreatedMutation(catalog, created).stationTicketIds ==>
                exists t | t in created.snapshot.Tickets() ::
                  && t.id == CreatedMutation(catalog, created).stationTicketIds[station]
                  && t.detail.orderId == created.order.id && t.detail.stationId == station
    {
      TicketIdsHold(created.snapshot.Tickets(), created.order.id, station);
    }
  }

  // ---------------------------------------------------------------- moves

  /** One step on, made here and now; identity, creation and content stay. */
  ghost predicate SteppedOn<D>(e: Entity<D>, e': Entity<D>, status: Status, now: Stamp) {
    && e'.id == e.id && e'.createdAt == e.createdAt && e'.detail == e.detail
    && e'.status == status && e'.updatedAt == now && e'.version == e.version + 1 && e'.origin == Local
  }

  /** The list with the entity at place k replaced and all others as they were. */
  ghost predicate OnlyAt<D>(list: seq<Entity<D>>, list': seq<Entity<D>>, k: nat) {
    && |list'| == |list| && k < |list| && forall i | 0 <= i < |list| && i != k :: list'[i] == list[i]
  }

  lemma PlaceOf<D>(list: seq<Entity<D>>, id: Id) returns (k: nat)
    requires UniqueIds(list) && Find(list, id).Some?
    ensures k < |list| && list[k] == Find(list, id).value && list[k].id == id
    ensures forall i | 0 <= i < |list| && i != k :: list[i].id != id
  {
    k :| 0 <= k < |list| && list[k] == Find(list, id).value;
  }

  /**
   A ticket move: that ticket takes the next step, its order follows to the status its tickets now imply,
   by one version if that is another one and not at all otherwise, and nothing else changes.
   */
  lemma TicketMoveSays(s: Snapshot, ticketId: Id, now: Stamp) returns (k: nat, n: nat)
    requires WellIdentified(s) && AdvanceTicket(s, ticketId, now).Ok?
    ensures var move, tickets := AdvanceTicket(s, ticketId, now).value, s.Tickets();
            && OnlyAt(tickets, move.snapshot.Tickets(), k) && OnlyAt(s.orders, move.snapshot.orders, n)
            && tickets[k].id == ticketId && Next(tickets[k].status).Some?
            && move.ticket == move.snapshot.Tickets()[k] && move.order == move.snapshot.orders[n]
            && SteppedOn(tickets[k], move.ticket, Next(tickets[k].status).value, now)
            && s.orders[n].id == tickets[k].detail.orderId
            && (var derived := DeriveOrderStatus(Statuses(move.snapshot.Tickets(), s.orders[n].id));
                if derived == s.orders[n].status then move.order == s.orders[n]
                else SteppedOn(s.orders[n], move.order, derived, now))
            && move.snapshot == s.(orders := move.snapshot.orders, tickets := move.snapshot.tickets)
  {
    k := PlaceOf(s.Tickets(), ticketId);
    n := PlaceOf(s.orders, s.Tickets()[k].detail.orderId);
  }

  /** And exactly which ticket moves are refused, and how. */
  lemma TicketMoveRefusals(s: Snapshot, ticketId: Id, now: Stamp)
    requires WellIdentified(s)
    ensures var r := AdvanceTicket(s, ticketId, now);
            && (r == Err(UnknownTicket) <==> ticketId !in Ids(s.Tickets()))
            && (forall t | t in s.Tickets() && t.id == ticketId ::
                  && (r == Err(UnknownOrderForTicket) <==> t.detail.orderId !in Ids(s.orders))
                  && (r == Err(AlreadyCompleted) <==>
                        t.detail.orderId in Ids(s.orders) && t.status in {Completed, Cancelled})
                  && (r.Ok? <==> t.detail.orderId in Ids(s.orders) && t.status !in {Completed, Cancelled}))
  {
    forall t | t in s.Tickets() && t.id == ticketId
      ensures Find(s.Tickets(), ticketId) == Some(t)
    {
      FindUnique(s.Tickets(), t);
    }
  }

  /** A whole-order move: the order and each ticket that lags behind take the step, and nothing else changes. */
  lemma OrderMoveSays(s: Snapshot, orderId: Id, now: Stamp) returns (n: nat)
    requires WellIdentified(s) && AdvanceOrder(s, orderId, now).Ok?
    ensures var move, before := AdvanceOrder(s, orderId, now).value, s.Tickets();
            && OnlyAt(s.orders, move.snapshot.orders, n) && s.orders[n].id == orderId
            && Next(s.orders[n].status).Some? && move.order == move.snapshot.orders[n]
            && SteppedOn(s.orders[n], move.order, Next(s.orders[n].status).value, now)
            && |move.snapshot.Tickets()| == |before|
            && (forall i | 0 <= i < |before| ::
                  if before[i].detail.orderId == orderId && Some(before[i].status) != Next(s.orders[n].status) then
                    SteppedOn(before[i], move.snapshot.Tickets()[i], Next(s.orders[n].status).value, now)
                  else move.snapshot.Tickets()[i] == before[i])
            && move.snapshot == s.(orders := move.snapshot.orders, tickets := move.snapshot.tickets)
  {
    n := PlaceOf(s.orders, orderId);
  }

  /** Exactly which whole-order moves are refused, and how. */
  lemma OrderMoveRefusals(s: Snapshot, o: Order, now: Stamp)
    requires WellIdentified(s) && o in s.orders
    ensures var r := AdvanceOrder(s, o.id, now);
            var own := set t | t in s.Tickets() && t.detail.orderId == o.id :: t.status;
            && (r == Err(AlreadyCompleted) <==> o.status in {Completed, Cancelled})
            && (r.Ok? <==>
                  && Next(o.status).Some?
                  && (forall status | status in own :: Some(status) == Next(o.status) || Next(status) == Next(o.status))
                  && (own == {} || own != {Next(o.status).value}))
            && (r.Err? && r.error != AlreadyCompleted ==> r.error == StationsAtDifferentSteps)
            && (forall id :: id !in Ids(s.orders) ==> AdvanceOrder(s, id, now) == Err(UnknownOrder))
  {
    FindUnique(s.orders, o);
    var own := set t | t in s.Tickets() && t.detail.orderId == o.id :: t.status;
    assert forall t | t in s.Tickets() && Belongs(t, o.id) :: t.status in own;
  }

  // ---------------------------------------------------------------- order numbers

  /** The next order number is above those of all orders. */
  ghost predicate NumberFree(s: Snapshot) {
    forall o | o in s.orders :: o.detail.number < s.nextOrderNumber
  }

  /** It stays so under every operation, so a new order's number is one no order on screen has. */
  lemma NumbersStayFree(s: Snapshot, op: Operation)
    requires NumberFree(s) && WellIdentified(s) && Perform(s, op).Some?
    ensures NumberFree(Perform(s, op).value)
    ensures op.Create? ==>
              var o := CreateOrder(s, op.catalog, op.input, op.newId, op.now).value.order;
              forall x | x in s.orders :: x.detail.number < o.detail.number
  {
    match op
    case Create(catalog, input, newId, now) => CreatedSays(s, catalog, input, newId, now);
    case MoveOrder(orderId, now) =>
      var n := OrderMoveSays(s, orderId, now);
      ReplacedNumbers(s, Perform(s, op).value, n);
    case MoveTicket(ticketId, now) =>
      var k, n := TicketMoveSays(s, ticketId, now);
      ReplacedNumbers(s, Perform(s, op).value, n);
  }

  lemma ReplacedNumbers(s: Snapshot, s': Snapshot, n: nat)
    requires NumberFree(s) && OnlyAt(s.orders, s'.orders, n) && s'.nextOrderNumber == s.nextOrderNumber
    requires s'.orders[n].detail.number == s.orders[n].detail.number
    ensures NumberFree(s')
  {
    forall o | o in s'.orders
      ensures o.detail.number < s'.nextOrderNumber
    {
      var i :| 0 <= i < |s'.orders| && s'.orders[i] == o;
      assert s.orders[i] in s.orders;
    }
  }
}
