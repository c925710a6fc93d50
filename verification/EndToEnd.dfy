/**
 Device, link and edge together. Operations, transmissions, deliveries, lost replies, pulls of the
 edge's state and restarts interleave freely; the edge is never made to refuse an event, and once the
 outbox is empty it holds the device's kitchen.
 */
module EndToEnd {
  import opened Prelude
  import opened Kitchen
  import opened KitchenRuns
  import opened Mutations
  import opened Outbox
  import opened SyncLink
  import opened Projection
  import opened Replay
  import opened Views
  import E = EdgeStore
  import P = PullDriver

  /** A pull under way: what the edge held when it answered, and what had been acknowledged and seen by then. */
  datatype Fetch = Fetch(edge: E.State, acked: set<Id>, at: nat)

  /**
   `states` lists what the device held after each committed event, and `merged` is how many events the
   last merged fetch reflected; only the statements use these two.
   */
  datatype System = System(
    device: Snapshot, link: Link, edge: E.State, fetch: Option<Fetch>, states: seq<Snapshot>, merged: nat)

  datatype Move =
    | StartPull
    | Merge(orders: seq<Order>, tickets: seq<Ticket>)
    | PullFails
    | Submit(op: Operation, key: Id, at: Stamp)
    | Exchange(step: Step)
    | Deliver(message: Message)
    | Refuse(reason: string)
    | Restart

  function NewEvent(key: Id, at: Stamp, m: Mutation): OutboxEvent {
    OutboxEvent(key, at, None, m, 0, None, Some(Pending), None)
  }

  /** The link steps that involve neither a new operation nor the edge's answer. */
  predicate Routine(step: Step) {
    match step
    case ListStep => true
    case TransmitStep => true
    case ReplyOk => true
    case ReplyLost => true
    case AckStep(_) => true
    case AckFails => true
    case RecordFailure(_) => true
    case _ => false
  }

  /** A fetch brings exactly the edge's orders and tickets, each once and marked as the edge's. */
  ghost predicate ListsEdge(edge: E.State, orders: seq<Order>, tickets: seq<Ticket>) {
    && MirrorsOrders(edge.orders, orders) && MirrorsTickets(edge.tickets, tickets)
    && UniqueIds(orders) && UniqueIds(tickets)
    && (forall o | o in orders :: o.origin == Edge) && (forall t | t in tickets :: t.origin == Edge)
  }

  /**
   A fresh key for every event; the edge refuses only what its handler answers with a problem; one pull
   at a time, merged only if nothing was acknowledged since the edge answered it.
   */
  ghost predicate CanMove(sys: System, move: Move, setup: E.Setup) {
    match move
    case Submit(op, key, _) =>
      && Followable(sys.device, op, setup) && sys.link.store.counter < MAX_SAFE_INTEGER
      && key !in sys.edge.replies && !Logged(sys.link.log, key) && !HasEvent(sys.link.store, key)
    case Exchange(step) => Routine(step) && Enabled(sys.link, step)
    case Deliver(message) => Enabled(sys.link, DeliverStep(message))
    case Refuse(_) =>
      && sys.link.phase == Sending && sys.link.batch != []
      && E.Handle(sys.edge, sys.link.batch[0].id, sys.link.batch[0].mutation, setup).Err?
    case StartPull => sys.fetch.None?
    case Merge(orders, tickets) =>
      && sys.fetch.Some? && ListsEdge(sys.fetch.value.edge, orders, tickets)
      && sys.link.acked == sys.fetch.value.acked && sys.link.store.counter < MAX_SAFE_INTEGER
    case PullFails => true
    case Restart => true
  }

  function OkOr<T, P>(reply: Result<T, P>, fallback: T): T {
    if reply.Ok? then reply.value else fallback
  }

  ghost function Moved(sys: System, move: Move, setup: E.Setup): System {
    match move
    case Submit(op, key, at) =>
      var next := Perform(sys.device, op);
      if next.None? then sys
      else
        var commit := CommitStep(next.value, Some(NewEvent(key, at, MutationOf(sys.device, op))));
        sys.(device := next.value, link := After(sys.link, commit), states := sys.states + [next.value])
    case Exchange(step) => sys.(link := After(sys.link, step))
    case Deliver(message) =>
      sys.(link := After(sys.link, DeliverStep(message)),
           edge := OkOr(E.Handle(sys.edge, message.id, message.mutation, setup), sys.edge))
    case Refuse(reason) => sys.(link := After(After(sys.link, ReplyRefused), QuarantineStep(reason)))
    case StartPull => sys.(fetch := Some(Fetch(sys.edge, sys.link.acked, |sys.link.seen|)))
    case Merge(orders, tickets) =>
      if sys.fetch.None? || sys.states == [] then sys
      else
        var next := P.Pulled(P.Driver(sys.device, sys.link.store), orders, tickets);
        System(next, After(sys.link, CommitStep(next, None)), sys.edge, None,
               sys.states[..|sys.states| - 1] + [next], sys.fetch.value.at)
    case PullFails => sys.(fetch := None)
    case Restart =>
      sys.(link := After(sys.link, Crash), device := sys.link.store.snapshot.GetOr(sys.device), fetch := None)
  }

  ghost predicate CanRun(sys: System, moves: seq<Move>, setup: E.Setup)
    decreases |moves|
  {
    moves != [] ==> CanMove(sys, moves[0], setup) && CanRun(Moved(sys, moves[0], setup), moves[1..], setup)
  }

  ghost function RunSystem(sys: System, moves: seq<Move>, setup: E.Setup): System
    decreases |moves|
  {
    if moves == [] then sys else RunSystem(Moved(sys, moves[0], setup), moves[1..], setup)
  }

  /** A device with an empty outbox and an edge that already agree. */
  ghost predicate Synced(sys: System) {
    && sys.link == Start(Some(sys.device)) && sys.states == [sys.device] && sys.fetch.None? && sys.merged == 0
    && AllConsistent(sys.device) && Mirrors(sys.edge, sys.device)
  }

  // ---------------------------------------------------------------- the invariant

  /** Any edge that mirrors the state before the event, and has not seen it, mirrors the state after it. */
  ghost predicate Follows(before: Snapshot, m: Message, after: Snapshot, setup: E.Setup) {
    && setup.fits(m.mutation)
    && forall edge: E.State | Mirrors(edge, before) && m.id !in edge.replies ::
         var reply := E.Handle(edge, m.id, m.mutation, setup);
         reply.Ok? && Mirrors(reply.value, after) && reply.value.replies == edge.replies[m.id := m.mutation]
  }

  ghost predicate History(log: seq<Message>, states: seq<Snapshot>, setup: E.Setup) {
    && |states| == |log| + 1
    && forall j | 0 <= j < |log| :: Follows(states[j], log[j], states[j + 1], setup)
  }

  /** The edge has handled exactly the events it has seen, which are a prefix of the log. */
  ghost predicate EdgeAt(edge: E.State, log: seq<Message>, seen: seq<Message>, states: seq<Snapshot>) {
    && |states| == |log| + 1 && seen <= log && Mirrors(edge, states[|seen|])
    && (forall j | 0 <= j < |seen| :: log[j].id in edge.replies && edge.replies[log[j].id] == log[j].mutation)
    && (forall j | |seen| <= j < |log| :: log[j].id !in edge.replies)
  }

  ghost predicate Device(sys: System) {
    && sys.states != [] && sys.device == sys.states[|sys.states| - 1]
    && sys.link.store.snapshot == Some(sys.device) && AllConsistent(sys.device)
  }

  /** Each event moved forward what concerns its order, and nothing else. */
  ghost predicate Journey(log: seq<Message>, states: seq<Snapshot>) {
    && |states| == |log| + 1
    && (forall j | 0 <= j <= |log| :: WellIdentified(states[j]))
    && forall j | 0 <= j < |log| :: Steps(states[j], states[j + 1], {P.OrderOf(log[j].mutation)})
  }

  /** What the device did not make itself is as the last merged fetch brought it. */
  ghost predicate FromFetch(device: Snapshot, base: Snapshot) {
    && (forall o | o in device.orders :: o.origin == Local || ViewOrder(o) in OrderViews(base))
    && forall t | t in device.Tickets() :: t.origin == Local || ViewTicket(t) in TicketViews(base)
  }

  /** The pull under way reflects the events seen by then, among them all that were acknowledged. */
  ghost predicate FetchOk(
    fetch: Option<Fetch>, merged: nat, log: seq<Message>, seen: seq<Message>, states: seq<Snapshot>) {
    && |states| == |log| + 1 && merged <= |seen| <= |log|
    && (fetch.Some? ==>
          var f := fetch.value;
          merged <= f.at <= |seen| && Mirrors(f.edge, states[f.at]) && f.acked <= SeenIds(log[..f.at]))
  }

  ghost predicate Pulls(sys: System) {
    && Journey(sys.link.log, sys.states)
    && FetchOk(sys.fetch, sys.merged, sys.link.log, sys.link.seen, sys.states)
    && FromFetch(sys.device, sys.states[sys.merged])
  }

  ghost predicate Following(sys: System, setup: E.Setup) {
    && Invariant(sys.link) && sys.link.held == {} && Device(sys)
    && History(sys.link.log, sys.states, setup)
    && EdgeAt(sys.edge, sys.link.log, sys.link.seen, sys.states)
  }

  ghost predicate Good(sys: System, setup: E.Setup) {
    Following(sys, setup) && Pulls(sys)
  }

  lemma OperationFollows(s: Snapshot, op: Operation, key: Id, at: Stamp, number: int, setup: E.Setup)
    requires AllConsistent(s) && Followable(s, op, setup) && Perform(s, op).Some?
    ensures Follows(s, MessageOf(Stamped(NewEvent(key, at, MutationOf(s, op)), number)), Perform(s, op).value, setup)
  {
    forall edge: E.State | Mirrors(edge, s) && key !in edge.replies
      ensures var reply := E.Handle(edge, key, MutationOf(s, op), setup);
              && reply.Ok? && Mirrors(reply.value, Perform(s, op).value)
              && reply.value.replies == edge.replies[key := MutationOf(s, op)]
    {
      CommittedIsAccepted(edge, s, op, key, setup);
    }
  }

  lemma Extended(
    edge: E.State, log: seq<Message>, seen: seq<Message>, states: seq<Snapshot>, m: Message, next: Snapshot,
    setup: E.Setup)
    requires History(log, states, setup) && EdgeAt(edge, log, seen, states)
    requires Follows(states[|log|], m, next, setup) && m.id !in edge.replies
    ensures History(log + [m], states + [next], setup) && EdgeAt(edge, log + [m], seen, states + [next])
  {
    hide Follows, Mirrors;
    var log', states' := log + [m], states + [next];
    forall j | 0 <= j < |log'|
      ensures Follows(states'[j], log'[j], states'[j + 1], setup)
    {
      if j < |log| {
        assert states'[j] == states[j] && log'[j] == log[j] && states'[j + 1] == states[j + 1];
      }
    }
  }

  /** The operation's event is the new end of the log, and its result the device's new state. */
  lemma Submitted(sys: System, op: Operation, key: Id, at: Stamp, setup: E.Setup) returns (m: Message)
    requires CanMove(sys, Submit(op, key, at), setup) && Perform(sys.device, op).Some?
    ensures m == MessageOf(Stamped(NewEvent(key, at, MutationOf(sys.device, op)), sys.link.store.counter + 1))
    ensures var sys', next := Moved(sys, Submit(op, key, at), setup), Perform(sys.device, op).value;
            && sys'.link == After(sys.link, CommitStep(next, Some(NewEvent(key, at, MutationOf(sys.device, op)))))
            && Enabled(sys.link, CommitStep(next, Some(NewEvent(key, at, MutationOf(sys.device, op)))))
            && sys'.link.log == sys.link.log + [m] && sys'.link.seen == sys.link.seen && sys'.link.held == sys.link.held
            && sys'.link.store.snapshot == Some(next) && sys'.device == next && sys'.edge == sys.edge
            && sys'.states == sys.states + [next] && sys'.fetch == sys.fetch && sys'.merged == sys.merged
  {
    m := MessageOf(Stamped(NewEvent(key, at, MutationOf(sys.device, op)), sys.link.store.counter + 1));
  }

  lemma FollowingExtended(sys: System, sys': System, m: Message, setup: E.Setup)
    requires Following(sys, setup) && Invariant(sys'.link) && AllConsistent(sys'.device)
    requires sys'.link.log == sys.link.log + [m] && sys'.link.seen == sys.link.seen && sys'.link.held == sys.link.held
    requires sys'.link.store.snapshot == Some(sys'.device) && sys'.states == sys.states + [sys'.device]
    requires sys'.edge == sys.edge && m.id !in sys.edge.replies && Follows(sys.device, m, sys'.device, setup)
    ensures Following(sys', setup)
  {
    hide Invariant, AllConsistent, Follows;
    Extended(sys.edge, sys.link.log, sys.link.seen, sys.states, m, sys'.device, setup);
  }

  lemma SubmitFollowing(sys: System, op: Operation, key: Id, at: Stamp, setup: E.Setup)
    requires Following(sys, setup) && CanMove(sys, Submit(op, key, at), setup) && Perform(sys.device, op).Some?
    ensures Following(Moved(sys, Submit(op, key, at), setup), setup)
  {
    hide Invariant, History, EdgeAt, AllConsistent, Follows, Moved, Perform, MutationOf, Enabled, Followable;
    var m := Submitted(sys, op, key, at, setup);
    var sys' := Moved(sys, Submit(op, key, at), setup);
    StepKeepsInvariant(sys.link, CommitStep(sys'.device, Some(NewEvent(key, at, MutationOf(sys.device, op)))));
    PerformStaysConsistent(sys.device, op, setup);
    OperationFollows(sys.device, op, key, at, sys.link.store.counter + 1, setup);
    FollowingExtended(sys, sys', m, setup);
  }

  lemma PerformStaysConsistent(s: Snapshot, op: Operation, setup: E.Setup)
    requires AllConsistent(s) && Followable(s, op, setup) && Perform(s, op).Some?
    ensures AllConsistent(Perform(s, op).value)
  {
    PerformKeeps(s, op);
  }

  /** A sent event is either seen already or the next of the log; the edge accepts it in both cases. */
  lemma SentIsAccepted(sys: System, message: Message, setup: E.Setup)
    requires Following(sys, setup) && message in sys.link.network
    ensures var reply := E.Handle(sys.edge, message.id, message.mutation, setup);
            var seen' := After(sys.link, DeliverStep(message)).seen;
            reply.Ok? && EdgeAt(reply.value, sys.link.log, seen', sys.states)
  {
    hide History, EdgeAt, E.Handle;
    var l := sys.link;
    var l' := After(l, DeliverStep(message));
    assert message in l.log;
    StepKeepsInvariant(l, DeliverStep(message));
    SeenIsPrefix(l');
    if message.id in SeenIds(l.seen) {
      SeenAgain(l, message);
      RepeatAccepted(sys.edge, l.log, l.seen, sys.states, message, setup);
    } else {
      NextDelivered(sys.edge, l.log, l.seen, sys.states, message, setup);
    }
  }

  lemma SeenAgain(l: Link, message: Message)
    requires Invariant(l) && message in l.log && message.id in SeenIds(l.seen)
    ensures message in l.seen
  {
  }

  lemma RepeatAccepted(
    edge: E.State, log: seq<Message>, seen: seq<Message>, states: seq<Snapshot>, m: Message, setup: E.Setup)
    requires History(log, states, setup) && EdgeAt(edge, log, seen, states) && m in seen
    ensures E.Handle(edge, m.id, m.mutation, setup) == Ok(edge)
  {
    var j :| 0 <= j < |seen| && seen[j] == m;
    assert log[j] == m && Follows(states[j], log[j], states[j + 1], setup);
  }

  lemma NextDelivered(
    edge: E.State, log: seq<Message>, seen: seq<Message>, states: seq<Snapshot>, m: Message, setup: E.Setup)
    requires History(log, states, setup) && EdgeAt(edge, log, seen, states) && seen + [m] <= log
    requires forall i, j :: 0 <= i < j < |log| ==> log[i].id != log[j].id
    ensures var reply := E.Handle(edge, m.id, m.mutation, setup);
            reply.Ok? && EdgeAt(reply.value, log, seen + [m], states)
  {
    var k := |seen|;
    assert log[k] == m;
    assert Follows(states[k], log[k], states[k + 1], setup);
    assert m.id !in edge.replies;
  }

  lemma DeliverFollowing(sys: System, message: Message, setup: E.Setup)
    requires Following(sys, setup) && CanMove(sys, Deliver(message), setup)
    ensures Following(Moved(sys, Deliver(message), setup), setup)
  {
    hide Invariant, History, EdgeAt, Mirrors, AllConsistent, E.Handle;
    StepKeepsInvariant(sys.link, DeliverStep(message));
    SentIsAccepted(sys, message, setup);
  }

  /** Whatever is in flight, the edge's answer to it is not a refusal. */
  lemma NeverRefused(sys: System, reason: string, setup: E.Setup)
    requires Following(sys, setup)
    ensures !CanMove(sys, Refuse(reason), setup)
  {
    hide History, EdgeAt, E.Handle, Device;
    if sys.link.phase == Sending && sys.link.batch != [] {
      SentIsAccepted(sys, MessageOf(sys.link.batch[0]), setup);
    }
  }

  lemma ExchangeFollowing(sys: System, step: Step, setup: E.Setup)
    requires Following(sys, setup) && CanMove(sys, Exchange(step), setup)
    ensures Following(Moved(sys, Exchange(step), setup), setup)
  {
    StepKeepsInvariant(sys.link, step);
    var l, l' := sys.link, After(sys.link, step);
    assert l'.log == l.log && l'.seen == l.seen && l'.held == l.held && l'.store.snapshot == l.store.snapshot;
  }

  // ---------------------------------------------------------------- pulls

  /** The orders the events from i to j are about. */
  function TouchedIn(log: seq<Message>, i: nat, j: nat): set<Id>
    requires i <= j <= |log|
  {
    set k | i <= k < j :: P.OrderOf(log[k].mutation)
  }

  lemma TouchedNext(log: seq<Message>, i: nat, j: nat)
    requires i < j <= |log|
    ensures TouchedIn(log, i, j) == TouchedIn(log, i, j - 1) + {P.OrderOf(log[j - 1].mutation)}
  {
  }

  lemma JourneyAt(log: seq<Message>, states: seq<Snapshot>, j: nat)
    requires Journey(log, states) && 0 < j <= |log|
    ensures Steps(states[j - 1], states[j], {P.OrderOf(log[j - 1].mutation)})
  {
    assert Steps(states[j - 1], states[j - 1 + 1], {P.OrderOf(log[j - 1].mutation)});
  }

  lemma {:induction false} JourneyFrom(log: seq<Message>, states: seq<Snapshot>, i: nat, j: nat)
    requires |states| == |log| + 1 && Journey(log, states) && i <= j <= |log|
    ensures Advanced(OrderViews(states[i]), OrderViews(states[j]), TouchedIn(log, i, j))
    ensures Advanced(TicketViews(states[i]), TicketViews(states[j]), TouchedIn(log, i, j))
    decreases j
  {
    hide Journey, Advanced, OrderViews, TicketViews, TouchedIn;
    if i == j {
      Unmoved(OrderViews(states[i]), TouchedIn(log, i, j));
      Unmoved(TicketViews(states[i]), TouchedIn(log, i, j));
    } else {
      JourneyFrom(log, states, i, j - 1);
      var before, touched := TouchedIn(log, i, j - 1), {P.OrderOf(log[j - 1].mutation)};
      JourneyAt(log, states, j);
      TouchedNext(log, i, j);
      AdvancedTwice(OrderViews(states[i]), OrderViews(states[j - 1]), OrderViews(states[j]), before, touched);
      AdvancedTwice(TicketViews(states[i]), TicketViews(states[j - 1]), TicketViews(states[j]), before, touched);
    }
  }

  lemma Unmoved(views: set<View>, touched: set<Id>)
    ensures Advanced(views, views, touched)
  {
    forall v | v in views
      ensures Survived(views, v)
    {
      assert Later(v, v);
    }
  }

  /** What was committed after the events a fetch reflects is still waiting, if nothing was acknowledged since. */
  lemma TouchedIsPending(l: Link, at: nat)
    requires Invariant(l) && l.held == {} && at <= |l.log| && l.acked <= SeenIds(l.log[..at])
    ensures TouchedIn(l.log, at, |l.log|) <= P.PendingOrders(l.store.events)
  {
    forall k | at <= k < |l.log|
      ensures P.OrderOf(l.log[k].mutation) in P.PendingOrders(l.store.events)
    {
      var m := l.log[k];
      assert m in l.log && PendingIn(l.store.events, m);
      var e :| e in l.store.events && IsPending(e) && MessageOf(e) == m;
    }
  }

  /** Where a pull finds the device: ahead of the fetched state by waiting events only. */
  lemma PullComesAhead(sys: System, orders: seq<Order>, tickets: seq<Ticket>, setup: E.Setup)
    requires Good(sys, setup) && CanMove(sys, Merge(orders, tickets), setup)
    ensures ViewsOf(ViewOrder, orders) == OrderViews(sys.states[sys.fetch.value.at])
    ensures ViewsOf(ViewTicket, tickets) == TicketViews(sys.states[sys.fetch.value.at])
    ensures forall o | o in sys.device.orders && o.origin != Local :: o.id in Ids(orders)
    ensures forall t | t in sys.device.Tickets() && t.origin != Local :: t.id in Ids(tickets)
    ensures var events := sys.link.store.events;
            && AheadOf(ViewOrder, sys.device.orders, ViewsOf(ViewOrder, orders), P.PendingOrders(events))
            && AheadOf(ViewTicket, sys.device.Tickets(), ViewsOf(ViewTicket, tickets),
               P.PendingTickets(events, sys.device.Tickets()))
  {
    hide Invariant, History, EdgeAt, AheadOf, Advanced, MirrorsOrders, MirrorsTickets, P.PendingOrders, TouchedIn;
    var l, at, n := sys.link, sys.fetch.value.at, |sys.link.log|;
    var base, earlier := sys.states[at], sys.states[sys.merged];
    MirroredOrdersAlike(sys.fetch.value.edge.orders, orders, base.orders);
    MirroredTicketsAlike(sys.fetch.value.edge.tickets, tickets, base.Tickets());
    JourneyFrom(l.log, sys.states, sys.merged, at);
    JourneyFrom(l.log, sys.states, at, n);
    StillListed(ViewOrder, sys.device.orders, orders, OrderViews(earlier), TouchedIn(l.log, sys.merged, at));
    StillListed(ViewTicket, sys.device.Tickets(), tickets, TicketViews(earlier), TouchedIn(l.log, sys.merged, at));
    TouchedIsPending(l, at);
    UniqueIdsUniqueViews(ViewOrder, orders);
    UniqueIdsUniqueViews(ViewTicket, tickets);
    ComesAhead(ViewOrder, sys.device.orders, ViewsOf(ViewOrder, orders), OrderViews(earlier),
               TouchedIn(l.log, sys.merged, at), TouchedIn(l.log, at, n), P.PendingOrders(l.store.events));
    ComesAhead(ViewTicket, sys.device.Tickets(), ViewsOf(ViewTicket, tickets), TicketViews(earlier),
               TouchedIn(l.log, sys.merged, at), TouchedIn(l.log, at, n),
               P.PendingTickets(l.store.events, sys.device.Tickets()));
  }

  /** A pull changes no identity, status, version, owner or station of anything on the device. */
  lemma PullChangesNothing(sys: System, orders: seq<Order>, tickets: seq<Ticket>, setup: E.Setup)
    requires Good(sys, setup) && CanMove(sys, Merge(orders, tickets), setup)
    ensures var next := Moved(sys, Merge(orders, tickets), setup).device;
            && SameViews(sys.device, next) && AllConsistent(next)
            && FromFetch(next, sys.states[sys.fetch.value.at])
  {
    hide Invariant, History, EdgeAt, AheadOf, Merged, P.PendingOrders, P.PendingTickets, AllConsistent;
    var events := sys.link.store.events;
    var pending := P.PendingTickets(events, sys.device.Tickets());
    var next := Moved(sys, Merge(orders, tickets), setup).device;
    assert UniqueIds(sys.device.orders) && UniqueIds(sys.device.Tickets());
    PullComesAhead(sys, orders, tickets, setup);
    MergeKeepsViews(NewestFirst, ViewOrder, sys.device.orders, orders, P.PendingOrders(events));
    MergeKeepsViews(MostUrgentFirst, ViewTicket, sys.device.Tickets(), tickets, pending);
    ConsistentSame(sys.device, next);
  }

  lemma FollowsSame(a: Snapshot, m: Message, b: Snapshot, c: Snapshot, setup: E.Setup)
    requires Follows(a, m, b, setup) && SameViews(b, c)
    ensures Follows(a, m, c, setup)
  {
    forall edge: E.State | Mirrors(edge, a) && m.id !in edge.replies
      ensures var reply := E.Handle(edge, m.id, m.mutation, setup);
              reply.Ok? && Mirrors(reply.value, c) && reply.value.replies == edge.replies[m.id := m.mutation]
    {
      MirrorsSame(E.Handle(edge, m.id, m.mutation, setup).value, b, c);
    }
  }

  /** The device's state may be replaced by another that shows the same. */
  lemma LastReplaced(sys: System, next: Snapshot, setup: E.Setup)
    requires History(sys.link.log, sys.states, setup) && EdgeAt(sys.edge, sys.link.log, sys.link.seen, sys.states)
    requires Journey(sys.link.log, sys.states)
    requires sys.device == sys.states[|sys.states| - 1] && SameViews(sys.device, next) && WellIdentified(next)
    ensures var states' := sys.states[..|sys.states| - 1] + [next];
            && History(sys.link.log, states', setup) && EdgeAt(sys.edge, sys.link.log, sys.link.seen, states')
            && Journey(sys.link.log, states')
  {
    hide Follows, Mirrors, SameViews, Steps, WellIdentified;
    var n, states' := |sys.link.log|, sys.states[..|sys.states| - 1] + [next];
    assert forall j | 0 <= j < n :: states'[j] == sys.states[j];
    if n > 0 {
      assert Follows(sys.states[n - 1], sys.link.log[n - 1], sys.states[n - 1 + 1], setup);
      FollowsSame(sys.states[n - 1], sys.link.log[n - 1], sys.device, next, setup);
      assert Steps(sys.states[n - 1], sys.states[n - 1 + 1], {P.OrderOf(sys.link.log[n - 1].mutation)});
      StepsSame(sys.states[n - 1], sys.device, next, {P.OrderOf(sys.link.log[n - 1].mutation)});
    }
    if |sys.link.seen| == n {
      MirrorsSame(sys.edge, sys.device, next);
    }
  }

  lemma StepsSame(a: Snapshot, b: Snapshot, c: Snapshot, touched: set<Id>)
    requires Steps(a, b, touched) && SameViews(b, c)
    ensures Steps(a, c, touched)
  {
  }

  lemma MergeGood(sys: System, orders: seq<Order>, tickets: seq<Ticket>, setup: E.Setup)
    requires Good(sys, setup) && CanMove(sys, Merge(orders, tickets), setup)
    ensures Good(Moved(sys, Merge(orders, tickets), setup), setup)
  {
    hide Invariant, History, EdgeAt, Journey, P.Pulled, FromFetch;
    var sys' := Moved(sys, Merge(orders, tickets), setup);
    var next := sys'.device;
    PullChangesNothing(sys, orders, tickets, setup);
    LastReplaced(sys, next, setup);
    StepKeepsInvariant(sys.link, CommitStep(next, None));
    assert FromFetch(next, sys'.states[sys'.merged]) by {
      FetchStillShown(sys.device, next, sys.states, sys.fetch.value.at);
    }
  }

  lemma FetchStillShown(device: Snapshot, next: Snapshot, states: seq<Snapshot>, at: nat)
    requires at < |states| && states[|states| - 1] == device
    requires SameViews(device, next) && FromFetch(next, states[at])
    ensures FromFetch(next, (states[..|states| - 1] + [next])[at])
  {
  }

  lemma JourneyExtended(log: seq<Message>, states: seq<Snapshot>, m: Message, next: Snapshot)
    requires Journey(log, states) && WellIdentified(next)
    requires Steps(states[|log|], next, {P.OrderOf(m.mutation)})
    ensures Journey(log + [m], states + [next])
  {
    hide Steps, WellIdentified;
    hide Follows, Mirrors;
    var log', states' := log + [m], states + [next];
    forall j | 0 <= j < |log'|
      ensures Steps(states'[j], states'[j + 1], {P.OrderOf(log'[j].mutation)})
    {
      if j < |log| {
        assert Steps(states[j], states[j + 1], {P.OrderOf(log[j].mutation)});
      }
    }
  }

  lemma FetchExtended(
    fetch: Option<Fetch>, merged: nat, log: seq<Message>, seen: seq<Message>, states: seq<Snapshot>, m: Message,
    next: Snapshot)
    requires FetchOk(fetch, merged, log, seen, states)
    ensures FetchOk(fetch, merged, log + [m], seen, states + [next])
  {
    if fetch.Some? {
      assert (log + [m])[..fetch.value.at] == log[..fetch.value.at];
    }
  }

  lemma StillFromFetch(device: Snapshot, next: Snapshot, base: Snapshot)
    requires FromFetch(device, base)
    requires LocalChanges(device.orders, next.orders) && LocalChanges(device.Tickets(), next.Tickets())
    ensures FromFetch(next, base)
  {
  }

  lemma PullsExtended(sys: System, sys': System, m: Message)
    requires Pulls(sys) && sys.device == sys.states[|sys.states| - 1] && WellIdentified(sys'.device)
    requires sys'.link.log == sys.link.log + [m] && sys'.link.seen == sys.link.seen
    requires sys'.states == sys.states + [sys'.device] && sys'.fetch == sys.fetch && sys'.merged == sys.merged
    requires Steps(sys.device, sys'.device, {P.OrderOf(m.mutation)})
    requires LocalChanges(sys.device.orders, sys'.device.orders)
    requires LocalChanges(sys.device.Tickets(), sys'.device.Tickets())
    ensures Pulls(sys')
  {
    hide Steps, FromFetch, LocalChanges, WellIdentified, Mirrors;
    JourneyExtended(sys.link.log, sys.states, m, sys'.device);
    FetchExtended(sys.fetch, sys.merged, sys.link.log, sys.link.seen, sys.states, m, sys'.device);
    StillFromFetch(sys.device, sys'.device, sys.states[sys.merged]);
  }

  lemma SubmitPulls(sys: System, op: Operation, key: Id, at: Stamp, setup: E.Setup)
    requires Good(sys, setup) && CanMove(sys, Submit(op, key, at), setup) && Perform(sys.device, op).Some?
    ensures Pulls(Moved(sys, Submit(op, key, at), setup))
  {
    hide Invariant, History, EdgeAt, Steps, AllConsistent, Pulls, LocalChanges, WellIdentified, Moved,
        MutationOf, Perform;
    var m := Submitted(sys, op, key, at, setup);
    var sys' := Moved(sys, Submit(op, key, at), setup);
    PerformSteps(sys.device, op);
    PerformKeeps(sys.device, op);
    WellIdentifiedBy(sys'.device);
    PullsExtended(sys, sys', m);
  }

  lemma WellIdentifiedBy(s: Snapshot)
    requires AllConsistent(s)
    ensures WellIdentified(s)
  {
  }

  lemma StartPullGood(sys: System, setup: E.Setup)
    requires Good(sys, setup)
    ensures Good(Moved(sys, StartPull, setup), setup)
  {
    assert sys.link.log[..|sys.link.seen|] == sys.link.seen;
  }

  lemma PullFailsGood(sys: System, setup: E.Setup)
    requires Good(sys, setup)
    ensures Good(Moved(sys, PullFails, setup), setup)
  {
    hide Invariant, History, EdgeAt, Journey, FromFetch, AllConsistent;
  }

  lemma RestartGood(sys: System, setup: E.Setup)
    requires Good(sys, setup)
    ensures Good(Moved(sys, Restart, setup), setup)
  {
    hide Invariant, History, EdgeAt, Journey, FromFetch, AllConsistent;
    StepKeepsInvariant(sys.link, Crash);
    assert Following(Moved(sys, Restart, setup), setup);
  }

  lemma SeenWithinLog(sys: System, sys': System, setup: E.Setup)
    requires Pulls(sys) && Following(sys', setup)
    requires sys'.link.log == sys.link.log && sys'.states == sys.states && sys'.device == sys.device
    requires sys'.fetch == sys.fetch && sys'.merged == sys.merged && |sys.link.seen| <= |sys'.link.seen|
    ensures Good(sys', setup)
  {
    hide Invariant, History, Journey, FromFetch;
  }

  lemma MoveGood(sys: System, move: Move, setup: E.Setup)
    requires Good(sys, setup) && CanMove(sys, move, setup)
    ensures Good(Moved(sys, move, setup), setup)
  {
    hide Following, Pulls;
    match move
    case Submit(op, key, at) =>
      if Perform(sys.device, op).Some? {
        SubmitFollowing(sys, op, key, at, setup);
        SubmitPulls(sys, op, key, at, setup);
      }
    case Exchange(step) =>
      ExchangeFollowing(sys, step, setup);
      SeenWithinLog(sys, Moved(sys, move, setup), setup);
    case Deliver(message) =>
      DeliverFollowing(sys, message, setup);
      SeenWithinLog(sys, Moved(sys, move, setup), setup);
    case Refuse(reason) => NeverRefused(sys, reason, setup);
    case StartPull => StartPullGood(sys, setup);
    case Merge(orders, tickets) => MergeGood(sys, orders, tickets, setup);
    case PullFails => PullFailsGood(sys, setup);
    case Restart => RestartGood(sys, setup);
  }

  lemma SyncedIsGood(sys: System, setup: E.Setup)
    requires Synced(sys)
    ensures Good(sys, setup)
  {
  }

  lemma {:induction false} RunGood(sys: System, moves: seq<Move>, setup: E.Setup)
    requires Good(sys, setup) && CanRun(sys, moves, setup)
    ensures Good(RunSystem(sys, moves, setup), setup)
    decreases |moves|
  {
    if moves != [] {
      MoveGood(sys, moves[0], setup);
      RunGood(Moved(sys, moves[0], setup), moves[1..], setup);
    }
  }

  // ---------------------------------------------------------------- what holds of every run

  /**
   In every run from an agreed start the edge always mirrors one of the states the device went
   through, nothing is ever refused or held back, every acknowledged event is one the edge has
   handled, and a restart finds the device's last state.
   */
  lemma EdgeFollowsDevice(sys: System, moves: seq<Move>, setup: E.Setup) returns (k: nat)
    requires Synced(sys) && CanRun(sys, moves, setup)
    ensures var end := RunSystem(sys, moves, setup);
            && k < |end.states| && Mirrors(end.edge, end.states[k])
            && end.link.held == {} && (forall reason :: !CanMove(end, Refuse(reason), setup))
            && (forall id | id in end.link.acked :: id in end.edge.replies)
            && end.link.store.snapshot == Some(end.device)
  {
    SyncedIsGood(sys, setup);
    RunGood(sys, moves, setup);
    var end := RunSystem(sys, moves, setup);
    k := |end.link.seen|;
    forall reason: string
      ensures !CanMove(end, Refuse(reason), setup)
    {
      NeverRefused(end, reason, setup);
    }
    forall id | id in end.link.acked
      ensures id in end.edge.replies
    {
      var m :| m in end.link.seen && m.id == id;
      var j :| 0 <= j < |end.link.seen| && end.link.seen[j] == m;
      assert end.link.log[j] == m;
    }
  }

  /** When nothing is left to send, the edge holds the device's kitchen: every status and version. */
  lemma EmptyOutboxMeansAgreement(sys: System, moves: seq<Move>, setup: E.Setup)
    requires Synced(sys) && CanRun(sys, moves, setup)
    requires Listing(RunSystem(sys, moves, setup).link.store, false) == []
    ensures Mirrors(RunSystem(sys, moves, setup).edge, RunSystem(sys, moves, setup).device)
  {
    SyncedIsGood(sys, setup);
    RunGood(sys, moves, setup);
    EmptyOutboxMeansAllSeen(RunSystem(sys, moves, setup).link);
  }

  // ---------------------------------------------------------------- a fetch that is merged too late

  lemma OneMove(sys: System, move: Move, rest: seq<Move>, setup: E.Setup)
    requires CanMove(sys, move, setup) && CanRun(Moved(sys, move, setup), rest, setup)
    ensures CanRun(sys, [move] + rest, setup)
    ensures RunSystem(sys, [move] + rest, setup) == RunSystem(Moved(sys, move, setup), rest, setup)
  {
    hide CanMove, Moved;
    assert ([move] + rest)[1..] == rest;
  }

  /** One waiting event is listed, sent, delivered, accepted and acknowledged, and nothing waits any more. */
  lemma SentAndAcked(l: Link, e: OutboxEvent, at: Stamp) returns (l2: Link, l3: Link, l4: Link, l5: Link, l6: Link)
    requires l.store.events == [e] && IsPending(e) && l.phase == Idle && l.batch == [] && l.seen == []
    ensures Enabled(l, ListStep) && l2 == After(l, ListStep)
    ensures Enabled(l2, TransmitStep) && l3 == After(l2, TransmitStep)
    ensures Enabled(l3, DeliverStep(MessageOf(e))) && l4 == After(l3, DeliverStep(MessageOf(e)))
    ensures Enabled(l4, ReplyOk) && l5 == After(l4, ReplyOk)
    ensures Enabled(l5, AckStep(at)) && l6 == After(l5, AckStep(at))
    ensures l6.store.events == [] && l6.acked == l.acked + {e.id} && l6.store.snapshot == l.store.snapshot
  {
    FilterAll(IsPending, [e]);
    l2 := After(l, ListStep);
    assert l2.batch == [e];
    l3 := After(l2, TransmitStep);
    l4 := After(l3, DeliverStep(MessageOf(e)));
    assert l4.seen == [MessageOf(e)] && MessageOf(e) in l4.seen;
    l5 := After(l4, ReplyOk);
    l6 := After(l5, AckStep(at));
    FilterNone((x: OutboxEvent) => x.id != e.id, [e]);
  }

  /** The pull's answer misses an operation that nothing waits for any more. */
  ghost predicate Outdated(sys: System, next: Snapshot, key: Id, end: System) {
    && end.fetch == Some(Fetch(sys.edge, {}, 0)) && end.device == next
    && end.link.store.events == [] && end.link.acked == {key}
  }

  /** From a device whose one event waits, five moves of the link leave the pull's answer outdated. */
  lemma SentMoves(sys: System, e: OutboxEvent, at: Stamp, setup: E.Setup) returns (moves: seq<Move>)
    requires sys.link.store.events == [e] && IsPending(e)
    requires sys.link.phase == Idle && sys.link.batch == [] && sys.link.seen == []
    ensures CanRun(sys, moves, setup)
    ensures var end := RunSystem(sys, moves, setup);
            && end.fetch == sys.fetch && end.device == sys.device && end.link.store.events == []
            && end.link.acked == sys.link.acked + {e.id}
  {
    var l3, l4, l5, l6, l7 := SentAndAcked(sys.link, e, at);
    var s3 := Moved(sys, Exchange(ListStep), setup);
    var s4 := Moved(s3, Exchange(TransmitStep), setup);
    var s5 := Moved(s4, Deliver(MessageOf(e)), setup);
    var s6 := Moved(s5, Exchange(ReplyOk), setup);
    var s7 := Moved(s6, Exchange(AckStep(at)), setup);
    hide After, Moved, Enabled, E.Handle;
    OneMove(s6, Exchange(AckStep(at)), [], setup);
    var r6 := [Exchange(AckStep(at))] + [];
    OneMove(s5, Exchange(ReplyOk), r6, setup);
    var r5 := [Exchange(ReplyOk)] + r6;
    OneMove(s4, Deliver(MessageOf(e)), r5, setup);
    var r4 := [Deliver(MessageOf(e))] + r5;
    OneMove(s3, Exchange(TransmitStep), r4, setup);
    var r3 := [Exchange(TransmitStep)] + r4;
    OneMove(sys, Exchange(ListStep), r3, setup);
    moves := [Exchange(ListStep)] + r3;
  }

  /** A pull begins, then an operation is submitted, sent, delivered, accepted and acknowledged. */
  lemma OutdatedFetch(sys: System, op: Operation, key: Id, at: Stamp, setup: E.Setup) returns (moves: seq<Move>)
    requires Synced(sys) && Followable(sys.device, op, setup) && Perform(sys.device, op).Some?
    requires key !in sys.edge.replies
    ensures CanRun(sys, moves, setup)
    ensures Outdated(sys, Perform(sys.device, op).value, key, RunSystem(sys, moves, setup))
  {
    hide Followable, Perform, MutationOf, E.Handle;
    var e := Stamped(NewEvent(key, at, MutationOf(sys.device, op)), 1);
    var s1 := Moved(sys, StartPull, setup);
    var s2 := Moved(s1, Submit(op, key, at), setup);
    assert s2.link.store.events == [e];
    var r2 := SentMoves(s2, e, at, setup);
    hide After, Moved, Enabled;
    OneMove(s1, Submit(op, key, at), r2, setup);
    var r1 := [Submit(op, key, at)] + r2;
    OneMove(sys, StartPull, r1, setup);
    moves := [StartPull] + r1;
  }

  /** What merging a pull now would make of the device. */
  ghost function MergedNow(sys: System, orders: seq<Order>, tickets: seq<Ticket>): Snapshot {
    P.Pulled(P.Driver(sys.device, sys.link.store), orders, tickets)
  }

  ghost predicate PutBack(before: seq<Ticket>, after: seq<Ticket>, id: Id) {
    exists x, y | x in before && y in after :: x.id == y.id == id && y.version < x.version
  }

  ghost predicate MergePutsBack(sys: System, edge: E.State, id: Id) {
    forall orders, tickets | ListsEdge(edge, orders, tickets) ::
      PutBack(sys.device.Tickets(), MergedNow(sys, orders, tickets).Tickets(), id)
  }

  /**
   A pull begins, a ticket is moved, and the move is sent and acknowledged: merging what the edge
   answered at the start puts the ticket back to where it was.
   */
  lemma StalePullSetsBack(sys: System, ticketId: Id, now: Stamp, key: Id, at: Stamp, setup: E.Setup)
    returns (moves: seq<Move>)
    requires Synced(sys) && Perform(sys.device, MoveTicket(ticketId, now)).Some? && key !in sys.edge.replies
    requires setup.fits(MutationOf(sys.device, MoveTicket(ticketId, now)))
    ensures CanRun(sys, moves, setup) && RunSystem(sys, moves, setup).fetch.Some?
    ensures var end := RunSystem(sys, moves, setup); MergePutsBack(end, end.fetch.value.edge, ticketId)
  {
    hide CanRun, RunSystem, MutationOf, MergePutsBack, Synced, Perform;
    var op := MoveTicket(ticketId, now);
    moves := OutdatedFetch(sys, op, key, at, setup);
    OutdatedPutsBack(sys, ticketId, now, key, RunSystem(sys, moves, setup));
  }

  lemma OutdatedPutsBack(sys: System, ticketId: Id, now: Stamp, key: Id, end: System)
    requires Synced(sys) && Perform(sys.device, MoveTicket(ticketId, now)).Some?
    requires Outdated(sys, Perform(sys.device, MoveTicket(ticketId, now)).value, key, end)
    ensures MergePutsBack(end, sys.edge, ticketId)
  {
    hide ListsEdge, Mirrors, MergedNow;
    var t, x := MovedTicket(sys.device, ticketId, now);
    forall orders, tickets | ListsEdge(sys.edge, orders, tickets)
      ensures PutBack(end.device.Tickets(), MergedNow(end, orders, tickets).Tickets(), ticketId)
    {
      var y := OldTicketComes(sys, end, orders, tickets, t);
      assert x.id == y.id == ticketId && y.version < x.version;
    }
  }

  lemma MovedTicket(s: Snapshot, ticketId: Id, now: Stamp) returns (t: Ticket, x: Ticket)
    requires AllConsistent(s) && Perform(s, MoveTicket(ticketId, now)).Some?
    ensures t in s.Tickets() && x in Perform(s, MoveTicket(ticketId, now)).value.Tickets()
    ensures t.id == x.id == ticketId && t.version < x.version
  {
    t, x := Find(s.Tickets(), ticketId).value, AdvanceTicket(s, ticketId, now).value.ticket;
    ReplacedElements(s.Tickets(), t, x);
  }

  lemma OldTicketComes(sys: System, end: System, orders: seq<Order>, tickets: seq<Ticket>, t: Ticket)
    returns (y: Ticket)
    requires Mirrors(sys.edge, sys.device) && ListsEdge(sys.edge, orders, tickets) && t in sys.device.Tickets()
    requires end.link.store.events == []
    ensures y in MergedNow(end, orders, tickets).Tickets() && y.id == t.id && y.version == t.version
  {
    assert t.id in Ids(sys.device.Tickets()) && t.id in Ids(tickets);
    y :| y in tickets && y.id == t.id;
    assert RecordOf(y) == RecordOf(t);
    var i :| 0 <= i < |tickets| && tickets[i] == y;
    UniqueIsDeduplicated(tickets);
    MergedHolds(MostUrgentFirst, end.device.Tickets(), tickets, {});
    assert P.PendingOrders([]) == {} && P.PendingTickets([], end.device.Tickets()) == {};
    assert ChosenAll(Deduplicated(end.device.Tickets()), {}, tickets)[i] == y;
  }
}
