/**
 What the edge and the device must agree on of an order or a ticket, as one value. Operations move
 these views forward, and a pull of the edge's own state leaves them as they are.
 */
module Views {
  import opened Prelude
  import opened Kitchen
  import opened KitchenRuns
  import opened Mutations
  import opened Projection
  import opened Replay
  import E = EdgeStore
  import P = PullDriver

  /** `owner` is the order concerned, `place` and `lines` are the station and the lines of a ticket. */
  datatype View = View(id: Id, status: Status, version: int, owner: Id, place: Station, lines: seq<Id>)

  function ViewOrder(o: Order): View {
    View(o.id, o.status, o.version, o.id, "", [])
  }

  function ViewTicket(t: Ticket): View {
    View(t.id, t.status, t.version, t.detail.orderId, t.detail.stationId, t.detail.lineIds)
  }

  ghost function ViewsOf<D>(view: Entity<D> -> View, list: seq<Entity<D>>): set<View> {
    set e | e in list :: view(e)
  }

  ghost function OrderViews(s: Snapshot): set<View> {
    ViewsOf(ViewOrder, s.orders)
  }

  ghost function TicketViews(s: Snapshot): set<View> {
    ViewsOf(ViewTicket, s.Tickets())
  }

  ghost predicate SameViews(a: Snapshot, b: Snapshot) {
    OrderViews(a) == OrderViews(b) && TicketViews(a) == TicketViews(b)
  }

  ghost predicate Faithful<D(!new)>(view: Entity<D> -> View) {
    forall e: Entity<D> :: view(e).id == e.id && view(e).version == e.version
  }

  ghost predicate UniqueViews(views: set<View>) {
    forall v, w | v in views && w in views && v.id == w.id :: v == w
  }

  lemma UniqueIdsUniqueViews<D(!new)>(view: Entity<D> -> View, list: seq<Entity<D>>)
    requires Faithful(view) && UniqueIds(list)
    ensures UniqueViews(ViewsOf(view, list))
  {
    forall x, y | x in list && y in list && x.id == y.id
      ensures x == y
    {
      SameIdSameEntity(list, x, y);
    }
  }

  // ---------------------------------------------------------------- views decide what matters

  lemma HasView<D>(view: Entity<D> -> View, list: seq<Entity<D>>, v: View) returns (e: Entity<D>)
    requires v in ViewsOf(view, list)
    ensures e in list && view(e) == v
  {
    e :| e in list && view(e) == v;
  }

  lemma MirrorsSame(state: E.State, a: Snapshot, b: Snapshot)
    requires SameViews(a, b) && Mirrors(state, a)
    ensures Mirrors(state, b)
  {
    SameOrdersMirror(state.orders, a.orders, b.orders);
    SameTicketsMirror(state.tickets, a.Tickets(), b.Tickets());
  }

  lemma SameOrdersMirror(records: map<Id, E.OrderRecord>, a: seq<Order>, b: seq<Order>)
    requires ViewsOf(ViewOrder, a) == ViewsOf(ViewOrder, b) && MirrorsOrders(records, a)
    ensures MirrorsOrders(records, b)
  {
    forall o | o in b
      ensures exists x | x in a :: ViewOrder(x) == ViewOrder(o)
    {
      var x := HasView(ViewOrder, a, ViewOrder(o));
    }
    forall o | o in a
      ensures o.id in Ids(b)
    {
      var x := HasView(ViewOrder, b, ViewOrder(o));
    }
  }

  lemma SameTicketsMirror(records: map<Id, E.TicketRecord>, a: seq<Ticket>, b: seq<Ticket>)
    requires ViewsOf(ViewTicket, a) == ViewsOf(ViewTicket, b) && MirrorsTickets(records, a)
    ensures MirrorsTickets(records, b)
  {
    forall t | t in b
      ensures exists x | x in a :: ViewTicket(x) == ViewTicket(t)
    {
      var x := HasView(ViewTicket, a, ViewTicket(t));
    }
    forall t | t in a
      ensures t.id in Ids(b)
    {
      var x := HasView(ViewTicket, b, ViewTicket(t));
    }
  }

  /** Two lists mirrored by the same records show the same. */
  lemma MirroredOrdersAlike(records: map<Id, E.OrderRecord>, a: seq<Order>, b: seq<Order>)
    requires MirrorsOrders(records, a) && MirrorsOrders(records, b)
    ensures ViewsOf(ViewOrder, a) == ViewsOf(ViewOrder, b)
  {
    forall x | x in a
      ensures ViewOrder(x) in ViewsOf(ViewOrder, b)
    {
      assert x.id in Ids(a) && x.id in Ids(b);
      var y :| y in b && y.id == x.id;
      assert ViewOrder(y) == ViewOrder(x);
    }
    forall x | x in b
      ensures ViewOrder(x) in ViewsOf(ViewOrder, a)
    {
      assert x.id in Ids(b) && x.id in Ids(a);
      var y :| y in a && y.id == x.id;
      assert ViewOrder(y) == ViewOrder(x);
    }
  }

  lemma MirroredTicketsAlike(records: map<Id, E.TicketRecord>, a: seq<Ticket>, b: seq<Ticket>)
    requires MirrorsTickets(records, a) && MirrorsTickets(records, b)
    ensures ViewsOf(ViewTicket, a) == ViewsOf(ViewTicket, b)
  {
    forall x | x in a
      ensures ViewTicket(x) in ViewsOf(ViewTicket, b)
    {
      assert x.id in Ids(a) && x.id in Ids(b);
      var y :| y in b && y.id == x.id;
      assert RecordOf(y) == RecordOf(x);
    }
    forall x | x in b
      ensures ViewTicket(x) in ViewsOf(ViewTicket, a)
    {
      assert x.id in Ids(b) && x.id in Ids(a);
      var y :| y in a && y.id == x.id;
      assert RecordOf(y) == RecordOf(x);
    }
  }

  lemma SameStatuses(a: seq<Ticket>, b: seq<Ticket>, orderId: Id)
    requires ViewsOf(ViewTicket, a) == ViewsOf(ViewTicket, b)
    ensures Statuses(a, orderId) == Statuses(b, orderId)
    ensures (exists t :: t in a && Belongs(t, orderId)) ==> exists t :: t in b && Belongs(t, orderId)
    ensures (forall t | t in a && Belongs(t, orderId) :: t.status != Cancelled && t.version == 1 + Rank(t.status)) ==>
              forall t | t in b && Belongs(t, orderId) :: t.status != Cancelled && t.version == 1 + Rank(t.status)
  {
    forall t | t in b
      ensures exists x | x in a :: ViewTicket(x) == ViewTicket(t)
    {
      var x := HasView(ViewTicket, a, ViewTicket(t));
    }
    forall t | t in a
      ensures exists x | x in b :: ViewTicket(x) == ViewTicket(t)
    {
      var x := HasView(ViewTicket, b, ViewTicket(t));
    }
  }

  /** The status and version invariant is about views. */
  lemma ConsistentSame(a: Snapshot, b: Snapshot)
    requires SameViews(a, b) && AllConsistent(a) && WellIdentified(b) && b.tickets.Some?
    ensures AllConsistent(b)
  {
    forall o | o in b.orders
      ensures Consistent(b.Tickets(), o)
    {
      var x := HasView(ViewOrder, a.orders, ViewOrder(o));
      assert Consistent(a.Tickets(), x);
      SameStatuses(a.Tickets(), b.Tickets(), o.id);
    }
    forall t | t in b.Tickets()
      ensures t.detail.orderId in Ids(b.orders)
    {
      var u := HasView(ViewTicket, a.Tickets(), ViewTicket(t));
      var x :| x in a.orders && x.id == u.detail.orderId;
      var o := HasView(ViewOrder, b.orders, ViewOrder(x));
    }
  }

  // ---------------------------------------------------------------- operations move views forward

  predicate Later(v: View, w: View) {
    w == v || (w.version > v.version && w == v.(status := w.status, version := w.version))
  }

  ghost predicate Survived(after: set<View>, v: View) {
    exists w | w in after :: Later(v, w)
  }

  /** Nothing disappears or goes back, and only what concerns the touched orders is new. */
  ghost predicate Advanced(before: set<View>, after: set<View>, touched: set<Id>) {
    && (forall w | w in after :: w in before || w.owner in touched)
    && (forall v | v in before :: Survived(after, v))
  }

  lemma AdvancedTwice(a: set<View>, b: set<View>, c: set<View>, t1: set<Id>, t2: set<Id>)
    requires Advanced(a, b, t1) && Advanced(b, c, t2)
    ensures Advanced(a, c, t1 + t2)
  {
    forall v | v in a
      ensures Survived(c, v)
    {
      var w :| w in b && Later(v, w);
      assert Survived(c, w);
      var x :| x in c && Later(w, x);
      assert Later(v, x);
    }
  }

  /** Entities of an operation's result that are not its input's were made on this device. */
  ghost predicate LocalChanges<D>(before: seq<Entity<D>>, after: seq<Entity<D>>) {
    forall x | x in after :: x in before || x.origin == Local
  }

  ghost predicate Steps(a: Snapshot, b: Snapshot, touched: set<Id>) {
    && WellIdentified(a) && Advanced(OrderViews(a), OrderViews(b), touched)
    && Advanced(TicketViews(a), TicketViews(b), touched)
  }

  lemma ReplacedAdvances<D(!new)>(
    view: Entity<D> -> View, list: seq<Entity<D>>, e: Entity<D>, e': Entity<D>, touched: set<Id>)
    requires Faithful(view) && UniqueIds(list) && e in list && e'.id == e.id
    requires Later(view(e), view(e')) && view(e').owner in touched
    ensures Advanced(ViewsOf(view, list), ViewsOf(view, Replace(list, e')), touched)
  {
    var after := Replace(list, e');
    ReplacedElements(list, e, e');
    forall v | v in ViewsOf(view, list)
      ensures Survived(ViewsOf(view, after), v)
    {
      var x := HasView(view, list, v);
      var y := if x == e then e' else x;
      assert y in after && view(y) in ViewsOf(view, after) && Later(v, view(y));
    }
  }

  lemma SteppedLater<D(!new)>(view: Entity<D> -> View, e: Entity<D>, status: Status, now: Stamp)
    requires Faithful(view)
    requires var v, w := view(e), view(Stepped(e, status, now)); w == v.(status := w.status, version := w.version)
    ensures Later(view(e), view(Stepped(e, status, now)))
  {
  }

  lemma TicketMoveSteps(s: Snapshot, ticketId: Id, now: Stamp)
    requires WellIdentified(s) && AdvanceTicket(s, ticketId, now).Ok?
    ensures var move := AdvanceTicket(s, ticketId, now).value;
            && Steps(s, move.snapshot, {move.order.id})
            && LocalChanges(s.orders, move.snapshot.orders) && LocalChanges(s.Tickets(), move.snapshot.Tickets())
  {
    var move := AdvanceTicket(s, ticketId, now).value;
    var t := Find(s.Tickets(), ticketId).value;
    var o := Find(s.orders, t.detail.orderId).value;
    SteppedLater(ViewTicket, t, move.ticket.status, now);
    SteppedLater(ViewOrder, o, move.order.status, now);
    ReplacedAdvances(ViewTicket, s.Tickets(), t, move.ticket, {move.order.id});
    ReplacedAdvances(ViewOrder, s.orders, o, move.order, {move.order.id});
    ReplacedElements(s.Tickets(), t, move.ticket);
    ReplacedElements(s.orders, o, move.order);
  }

  lemma EachAdvances<D(!new)>(view: Entity<D> -> View, before: seq<Entity<D>>, after: seq<Entity<D>>, owner: Id)
    requires |after| == |before|
    requires forall i | 0 <= i < |before| ::
               && Later(view(before[i]), view(after[i]))
               && (after[i] == before[i] || (after[i].origin == Local && view(after[i]).owner == owner))
    ensures Advanced(ViewsOf(view, before), ViewsOf(view, after), {owner}) && LocalChanges(before, after)
  {
    forall v | v in ViewsOf(view, before)
      ensures Survived(ViewsOf(view, after), v)
    {
      var e := HasView(view, before, v);
      var i :| 0 <= i < |before| && before[i] == e;
      assert after[i] in after && view(after[i]) in ViewsOf(view, after);
    }
    forall e | e in after
      ensures e in before || (e.origin == Local && view(e).owner == owner)
    {
      var i :| 0 <= i < |after| && after[i] == e;
      assert before[i] in before;
    }
  }

  lemma OrderMoveSteps(s: Snapshot, orderId: Id, now: Stamp)
    requires WellIdentified(s) && s.tickets.Some? && AdvanceOrder(s, orderId, now).Ok?
    ensures var move := AdvanceOrder(s, orderId, now).value;
            && Steps(s, move.snapshot, {move.order.id})
            && LocalChanges(s.orders, move.snapshot.orders) && LocalChanges(s.Tickets(), move.snapshot.Tickets())
  {
    hide CanAdvanceOrder, Advanced;
    var move := AdvanceOrder(s, orderId, now).value;
    var o := Find(s.orders, orderId).value;
    SteppedLater(ViewOrder, o, move.order.status, now);
    ReplacedAdvances(ViewOrder, s.orders, o, move.order, {orderId});
    ReplacedElements(s.orders, o, move.order);
    EachAdvances(ViewTicket, s.Tickets(), move.snapshot.Tickets(), orderId);
  }

  lemma CreateSteps(s: Snapshot, catalog: Catalog, input: NewOrder, newId: nat -> Id, now: Stamp)
    requires WellIdentified(s) && CreateOrder(s, catalog, input, newId, now).Ok?
    ensures var created := CreateOrder(s, catalog, input, newId, now).value;
            && Steps(s, created.snapshot, {created.order.id})
            && LocalChanges(s.orders, created.snapshot.orders) && LocalChanges(s.Tickets(), created.snapshot.Tickets())
  {
    hide GroupByStation, WithIds;
    var created := CreateOrder(s, catalog, input, newId, now).value;
    PrependedAdvances(ViewOrder, [created.order], s.orders, created.order.id);
    var kept := KeptLines(catalog, input.lines);
    var groups := GroupByStation(catalog, WithIds(kept, newId));
    var tickets := TicketsFor(groups, created.order.id, created.order.detail.dueAt, newId, |kept| + 1, now);
    assert created.snapshot.Tickets() == tickets + s.Tickets();
    forall t | t in tickets
      ensures t.origin == Local && ViewTicket(t).owner == created.order.id
    {
      var i :| 0 <= i < |tickets| && tickets[i] == t;
    }
    PrependedAdvances(ViewTicket, tickets, s.Tickets(), created.order.id);
  }

  lemma PrependedAdvances<D>(view: Entity<D> -> View, added: seq<Entity<D>>, list: seq<Entity<D>>, owner: Id)
    requires forall e | e in added :: view(e).owner == owner
    ensures Advanced(ViewsOf(view, list), ViewsOf(view, added + list), {owner})
  {
    forall v | v in ViewsOf(view, list)
      ensures Survived(ViewsOf(view, added + list), v)
    {
      var e := HasView(view, list, v);
      assert e in added + list && Later(v, v);
    }
  }

  /** Every operation moves what concerns its order forward, and leaves the rest alone. */
  lemma PerformSteps(s: Snapshot, op: Operation)
    requires AllConsistent(s) && Perform(s, op).Some?
    ensures var next := Perform(s, op).value;
            && Steps(s, next, {P.OrderOf(MutationOf(s, op))})
            && LocalChanges(s.orders, next.orders) && LocalChanges(s.Tickets(), next.Tickets())
  {
    hide Steps, LocalChanges;
    match op
    case Create(catalog, input, newId, now) => CreateSteps(s, catalog, input, newId, now);
    case MoveOrder(orderId, now) => OrderMoveSteps(s, orderId, now);
    case MoveTicket(ticketId, now) => TicketMoveSteps(s, ticketId, now);
  }

  // ---------------------------------------------------------------- a pull leaves the views as they are

  ghost predicate Listed(base: set<View>, id: Id) {
    exists b | b in base :: b.id == id
  }

  /** An entity the merge leaves as it is though the fetch has another version of it, or none. */
  ghost predicate StaysAhead<D>(x: Entity<D>, base: set<View>, pending: set<Id>) {
    if Listed(base, x.id) then
      x.id in pending && x.origin == Local && forall b | b in base && b.id == x.id :: x.version > b.version
    else x.id in pending || (x.origin == Edge && Active(x.status))
  }

  /** What the device shows otherwise than the fetch stays ahead of it, and what the fetch lists is on the device. */
  ghost predicate AheadOf<D>(view: Entity<D> -> View, c: seq<Entity<D>>, base: set<View>, pending: set<Id>) {
    && (forall x | x in c :: view(x) in base || StaysAhead(x, base, pending))
    && (forall b | b in base :: exists x | x in c :: x.id == b.id)
  }

  lemma ChosenView<D(!new)>(
    view: Entity<D> -> View, c: seq<Entity<D>>, r: seq<Entity<D>>, pending: set<Id>, x: Entity<D>, e: Entity<D>)
    requires Faithful(view) && UniqueIds(c) && UniqueIds(r) && AheadOf(view, c, ViewsOf(view, r), pending)
    requires x in c && e in r && x.id == e.id
    ensures view(Chosen(c, pending, e)) == view(x)
  {
    FindUnique(c, x);
    UniqueIdsUniqueViews(view, r);
    assert view(e) in ViewsOf(view, r);
  }

  lemma PulledView<D(!new)>(
    view: Entity<D> -> View, c: seq<Entity<D>>, r: seq<Entity<D>>, pending: set<Id>, m: seq<Entity<D>>, x: Entity<D>)
    returns (y: Entity<D>)
    requires Faithful(view) && UniqueIds(c) && UniqueIds(r) && AheadOf(view, c, ViewsOf(view, r), pending)
    requires forall z :: z in m <==> z in ChosenAll(c, pending, r) || (z in c && Survives(z, Ids(r), pending))
    requires x in c
    ensures y in m && view(y) == view(x)
  {
    if x.id in Ids(r) {
      var e :| e in r && e.id == x.id;
      var i :| 0 <= i < |r| && r[i] == e;
      y := Chosen(c, pending, e);
      assert ChosenAll(c, pending, r)[i] == y;
      ChosenView(view, c, r, pending, x, e);
    } else {
      y := x;
      forall e | e in r
        ensures view(e) != view(x)
      {
        assert e.id in Ids(r);
      }
    }
  }

  lemma ChosenShown<D(!new)>(
    view: Entity<D> -> View, c: seq<Entity<D>>, r: seq<Entity<D>>, pending: set<Id>, m: seq<Entity<D>>, e: Entity<D>)
    returns (x: Entity<D>)
    requires Faithful(view) && ViewsOf(view, m) == ViewsOf(view, c) && e in r
    requires forall z :: z in m <==> z in ChosenAll(c, pending, r) || (z in c && Survives(z, Ids(r), pending))
    ensures x in c && x.id == e.id && view(Chosen(c, pending, e)) == view(x)
  {
    var i :| 0 <= i < |r| && r[i] == e;
    var y := ChosenAll(c, pending, r)[i];
    assert y in m && view(y) in ViewsOf(view, m);
    x := HasView(view, c, view(y));
  }

  lemma ListedStays<D(!new)>(
    view: Entity<D> -> View, c: seq<Entity<D>>, r: seq<Entity<D>>, pending: set<Id>, m: seq<Entity<D>>, x: Entity<D>)
    requires Faithful(view) && UniqueIds(c) && UniqueIds(r) && ViewsOf(view, m) == ViewsOf(view, c)
    requires forall z :: z in m <==> z in ChosenAll(c, pending, r) || (z in c && Survives(z, Ids(r), pending))
    requires x in c && view(x) !in ViewsOf(view, r) && Listed(ViewsOf(view, r), x.id)
    ensures StaysAhead(x, ViewsOf(view, r), pending)
  {
    var base := ViewsOf(view, r);
    var b :| b in base && b.id == x.id;
    var e := HasView(view, r, b);
    var shown := ChosenShown(view, c, r, pending, m, e);
    SameIdSameEntity(c, x, shown);
    FindUnique(c, x);
    UniqueIdsUniqueViews(view, r);
  }

  lemma UnlistedStays<D(!new)>(
    view: Entity<D> -> View, c: seq<Entity<D>>, r: seq<Entity<D>>, pending: set<Id>, m: seq<Entity<D>>, x: Entity<D>)
    requires Faithful(view) && UniqueIds(c) && UniqueIds(r) && ViewsOf(view, m) == ViewsOf(view, c)
    requires forall z :: z in m <==> z in ChosenAll(c, pending, r) || (z in c && Survives(z, Ids(r), pending))
    requires x in c && !Listed(ViewsOf(view, r), x.id)
    ensures StaysAhead(x, ViewsOf(view, r), pending)
  {
    assert view(x) in ViewsOf(view, c);
    var y := HasView(view, m, view(x));
    forall e | e in r
      ensures e.id != x.id
    {
      assert view(e) in ViewsOf(view, r);
    }
    ChosenIds(c, pending, r);
    assert y.id !in Ids(r);
    assert y in ChosenAll(c, pending, r) ==> y.id in Ids(ChosenAll(c, pending, r));
    SameIdSameEntity(c, x, y);
  }

  /** A merge shows the same as before only if the device was ahead of the fetch in that way. */
  lemma MergeChangesViews<D(!new)>(
    le: (Entity<D>, Entity<D>) -> bool, view: Entity<D> -> View, c: seq<Entity<D>>, r: seq<Entity<D>>, pending: set<Id>)
    requires Faithful(view) && UniqueIds(c) && UniqueIds(r)
    requires ViewsOf(view, Merged(le, c, r, pending)) == ViewsOf(view, c)
    ensures AheadOf(view, c, ViewsOf(view, r), pending)
  {
    hide Merged, StaysAhead, Listed;
    var m, base := Merged(le, c, r, pending), ViewsOf(view, r);
    UniqueIsDeduplicated(c);
    UniqueIsDeduplicated(r);
    MergedHolds(le, c, r, pending);
    forall b | b in base
      ensures exists x | x in c :: x.id == b.id
    {
      var e := HasView(view, r, b);
      var x := ChosenShown(view, c, r, pending, m, e);
    }
    forall x | x in c && view(x) !in base
      ensures StaysAhead(x, base, pending)
    {
      if Listed(base, x.id) {
        ListedStays(view, c, r, pending, m, x);
      } else {
        UnlistedStays(view, c, r, pending, m, x);
      }
    }
  }

  /** And if it was: nothing then changes, and what is new in the lists came with the fetch. */
  lemma MergeKeepsViews<D(!new)>(
    le: (Entity<D>, Entity<D>) -> bool, view: Entity<D> -> View, c: seq<Entity<D>>, r: seq<Entity<D>>, pending: set<Id>)
    requires Faithful(view) && UniqueIds(c) && UniqueIds(r) && AheadOf(view, c, ViewsOf(view, r), pending)
    ensures ViewsOf(view, Merged(le, c, r, pending)) == ViewsOf(view, c) && UniqueIds(Merged(le, c, r, pending))
    ensures forall y | y in Merged(le, c, r, pending) :: y in r || (y in c && (y.origin == Local || y.id !in Ids(r)))
  {
    hide Merged;
    var m := Merged(le, c, r, pending);
    UniqueIsDeduplicated(c);
    UniqueIsDeduplicated(r);
    MergedHolds(le, c, r, pending);
    forall v | v in ViewsOf(view, c)
      ensures v in ViewsOf(view, m)
    {
      var x := HasView(view, c, v);
      var y := PulledView(view, c, r, pending, m, x);
    }
    forall y | y in m
      ensures view(y) in ViewsOf(view, c)
      ensures y in r || (y in c && (y.origin == Local || y.id !in Ids(r)))
    {
      if y in ChosenAll(c, pending, r) {
        var i :| 0 <= i < |r| && ChosenAll(c, pending, r)[i] == y;
        assert view(r[i]) in ViewsOf(view, r);
        var x :| x in c && x.id == r[i].id;
        ChosenView(view, c, r, pending, x, r[i]);
      }
    }
  }

  /** A merge changes nothing of what is shown if and only if the device is ahead of the fetch in that way. */
  lemma MergeShowsSameIff<D(!new)>(
    le: (Entity<D>, Entity<D>) -> bool, view: Entity<D> -> View, c: seq<Entity<D>>, r: seq<Entity<D>>, pending: set<Id>)
    requires Faithful(view) && UniqueIds(c) && UniqueIds(r)
    ensures ViewsOf(view, Merged(le, c, r, pending)) == ViewsOf(view, c)
            <==> AheadOf(view, c, ViewsOf(view, r), pending)
  {
    hide Merged, AheadOf;
    if AheadOf(view, c, ViewsOf(view, r), pending) {
      MergeKeepsViews(le, view, c, r, pending);
    }
    if ViewsOf(view, Merged(le, c, r, pending)) == ViewsOf(view, c) {
      MergeChangesViews(le, view, c, r, pending);
    }
  }

  /** Where the device is ahead of an earlier state by pending events only, a pull of that state is harmless. */
  lemma ComesAhead<D(!new)>(
    view: Entity<D> -> View, c: seq<Entity<D>>, base: set<View>, earlier: set<View>, before: set<Id>, touched: set<Id>,
    pending: set<Id>)
    requires Faithful(view) && UniqueIds(c) && UniqueViews(base)
    requires Advanced(earlier, base, before) && Advanced(base, ViewsOf(view, c), touched)
    requires forall x | x in c :: x.origin == Local || view(x) in earlier
    requires forall x | x in c && view(x).owner in touched :: x.id in pending
    ensures AheadOf(view, c, base, pending)
  {
    UniqueIdsUniqueViews(view, c);
    forall b | b in base
      ensures exists x | x in c :: x.id == b.id && Later(b, view(x))
    {
      assert Survived(ViewsOf(view, c), b);
      var w :| w in ViewsOf(view, c) && Later(b, w);
      var x := HasView(view, c, w);
    }
    forall x | x in c && view(x) !in base
      ensures StaysAhead(x, base, pending)
    {
      forall b | b in base && b.id == x.id
        ensures x.origin == Local && x.version > b.version
      {
        AheadLocal(view, c, base, earlier, x, b);
      }
    }
  }

  /** What an earlier pull brought, a later one lists. */
  lemma StillListed<D(!new)>(
    view: Entity<D> -> View, c: seq<Entity<D>>, r: seq<Entity<D>>, earlier: set<View>, before: set<Id>)
    requires Faithful(view) && Advanced(earlier, ViewsOf(view, r), before)
    requires forall x | x in c :: x.origin == Local || view(x) in earlier
    ensures forall x | x in c && x.origin != Local :: x.id in Ids(r)
  {
    forall x | x in c && x.origin != Local
      ensures x.id in Ids(r)
    {
      assert Survived(ViewsOf(view, r), view(x));
      var w :| w in ViewsOf(view, r) && Later(view(x), w);
      var e := HasView(view, r, w);
    }
  }

  lemma AheadLocal<D(!new)>(
    view: Entity<D> -> View, c: seq<Entity<D>>, base: set<View>, earlier: set<View>, x: Entity<D>, b: View)
    requires Faithful(view) && UniqueIds(c) && UniqueViews(base)
    requires forall v | v in earlier :: Survived(base, v)
    requires exists y | y in c :: y.id == b.id && Later(b, view(y))
    requires x in c && (x.origin == Local || view(x) in earlier)
    requires view(x) !in base && b in base && b.id == x.id
    ensures x.origin == Local && x.version > b.version
  {
    var y :| y in c && y.id == b.id && Later(b, view(y));
    SameIdSameEntity(c, x, y);
  }
}
