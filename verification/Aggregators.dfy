/**
 Orders from delivery partners: submitting one that is already known repairs it instead of creating
 it again, so no partner order ever appears twice.
 */
module Aggregators {
  import opened Prelude
  import opened Kitchen
  import opened KitchenRuns
  import opened Trimming

  /** Folding to lower case, and the match of the note older clients wrote: both only ever compared. */
  datatype Text = Text(lower: string -> string, mentions: (string, string) -> bool)

  function Provider(t: Text, a: Aggregator): string {
    t.lower(Trim(a.provider))
  }

  /** The same partner order at the same partner. */
  predicate SameSource(t: Text, a: Aggregator, b: Aggregator) {
    Provider(t, a) == Provider(t, b) && a.externalOrderId == b.externalOrderId
  }

  predicate LegacyMatch(t: Text, o: Order, externalOrderId: string) {
    o.detail.aggregator.None? && o.detail.note.Some? && t.mentions(o.detail.note.value, externalOrderId)
  }

  predicate Matches(t: Text, o: Order, source: Aggregator) {
    || (o.detail.aggregator.Some? && SameSource(t, o.detail.aggregator.value, source))
    || LegacyMatch(t, o, source.externalOrderId)
  }

  function FirstMatch(t: Text, orders: seq<Order>, source: Aggregator): (r: Option<Order>)
    ensures r.Some? ==> r.value in orders && Matches(t, r.value, source)
    ensures r.None? ==> forall o | o in orders :: !Matches(t, o, source)
  {
    if orders == [] then None
    else if Matches(t, orders[0], source) then Some(orders[0])
    else FirstMatch(t, orders[1..], source)
  }

  function Repaired(o: Order, input: NewOrder): Order {
    o.(detail := o.detail.(note := Cleaned(input.note), aggregator := input.aggregator))
  }

  datatype Submitted = Submitted(snapshot: Snapshot, order: Order)

  /** Reconcile first, create only what is not there yet. */
  function SubmitOrder(t: Text, s: Snapshot, catalog: Catalog, input: NewOrder, newId: nat -> Id, now: Stamp)
    : Result<Submitted, KitchenError>
  {
    var existing := if input.aggregator.None? then None else FirstMatch(t, s.orders, input.aggregator.value);
    if existing.Some? then
      var repaired := Repaired(existing.value, input);
      Ok(Submitted(s.(orders := Replace(s.orders, repaired)), repaired))
    else
      match CreateOrder(s, catalog, input, newId, now)
      case Err(e) => Err(e)
      case Ok(created) => Ok(Submitted(created.snapshot, created.order))
  }

  // ---------------------------------------------------------------- no partner order twice

  ghost predicate OnePerSource(t: Text, orders: seq<Order>) {
    forall i, j :: 0 <= i < j < |orders| && orders[i].detail.aggregator.Some? && orders[j].detail.aggregator.Some? ==>
      !SameSource(t, orders[i].detail.aggregator.value, orders[j].detail.aggregator.value)
  }

  /** No order without a source carries a note an older client would have written for one. */
  ghost predicate NoLegacyNotes(t: Text, orders: seq<Order>) {
    forall o, id | o in orders :: !LegacyMatch(t, o, id)
  }

  ghost predicate Tidy(t: Text, s: Snapshot) {
    UniqueIds(s.orders) && OnePerSource(t, s.orders) && NoLegacyNotes(t, s.orders)
  }

  ghost predicate PlainNote(t: Text, input: NewOrder) {
    var note := Cleaned(input.note);
    input.aggregator.None? && note.Some? ==> forall id :: !t.mentions(note.value, id)
  }

  /** Another order than o has the source. */
  ghost predicate TakenBesides(t: Text, orders: seq<Order>, o: Order, source: Aggregator) {
    exists x | x in orders :: x != o && x.detail.aggregator.Some? && SameSource(t, x.detail.aggregator.value, source)
  }

  /** Replacing one order leaves the sources distinct just when no other order has the source of the new one. */
  lemma ReplacedSources(t: Text, orders: seq<Order>, o: Order, o': Order)
    requires UniqueIds(orders) && OnePerSource(t, orders) && o in orders && o'.id == o.id
    ensures OnePerSource(t, Replace(orders, o'))
            <==> (o'.detail.aggregator.Some? ==> !TakenBesides(t, orders, o, o'.detail.aggregator.value))
  {
    var orders' := Replace(orders, o');
    var k :| 0 <= k < |orders| && orders[k] == o;
    assert forall i | 0 <= i < |orders| :: orders'[i] == if i == k then o' else orders[i];
    assert forall i | 0 <= i < |orders| :: orders[i] == o ==> i == k;
    if o'.detail.aggregator.Some? && TakenBesides(t, orders, o, o'.detail.aggregator.value) {
      var x :| x in orders && x != o && x.detail.aggregator.Some?
               && SameSource(t, x.detail.aggregator.value, o'.detail.aggregator.value);
      var i :| 0 <= i < |orders| && orders[i] == x;
      assert orders'[i] == x && orders'[k] == o';
    }
  }

  /** So does a new order in front of the others. */
  lemma PrependedSources(t: Text, orders: seq<Order>, o: Order)
    requires OnePerSource(t, orders) && o !in orders
    ensures OnePerSource(t, [o] + orders)
            <==> (o.detail.aggregator.Some? ==> !TakenBesides(t, orders, o, o.detail.aggregator.value))
  {
    var orders' := [o] + orders;
    assert forall i | 0 < i < |orders'| :: orders'[i] == orders[i - 1];
    if o.detail.aggregator.Some? && TakenBesides(t, orders, o, o.detail.aggregator.value) {
      var x :| x in orders && x != o && x.detail.aggregator.Some?
               && SameSource(t, x.detail.aggregator.value, o.detail.aggregator.value);
      var i :| 0 <= i < |orders| && orders[i] == x;
      assert orders'[0] == o && orders'[i + 1] == x;
    }
  }

  /** The first match is an order without a source, found by its note, though some order has the source. */
  ghost predicate HiddenByNote(t: Text, orders: seq<Order>, source: Aggregator) {
    var found := FirstMatch(t, orders, source);
    && found.Some? && found.value.detail.aggregator.None?
    && TakenBesides(t, orders, found.value, source)
  }

  /** A submission keeps the sources distinct unless, and only unless, a note hides the order that is there. */
  lemma SubmitKeepsSources(t: Text, s: Snapshot, catalog: Catalog, input: NewOrder, newId: nat -> Id, now: Stamp)
    requires UniqueIds(s.orders) && OnePerSource(t, s.orders) && Fresh(newId, s)
    requires SubmitOrder(t, s, catalog, input, newId, now).Ok?
    ensures OnePerSource(t, SubmitOrder(t, s, catalog, input, newId, now).value.snapshot.orders)
            <==> (input.aggregator.Some? ==> !HiddenByNote(t, s.orders, input.aggregator.value))
  {
    var existing := if input.aggregator.None? then None else FirstMatch(t, s.orders, input.aggregator.value);
    if existing.Some? {
      ReplacedSources(t, s.orders, existing.value, Repaired(existing.value, input));
    } else {
      var created := CreateOrder(s, catalog, input, newId, now).value;
      assert created.snapshot.orders == [created.order] + s.orders && created.order.id !in Ids(s.orders);
      PrependedSources(t, s.orders, created.order);
    }
  }

  lemma SubmitKeepsNotes(t: Text, s: Snapshot, catalog: Catalog, input: NewOrder, newId: nat -> Id, now: Stamp)
    requires Tidy(t, s) && Fresh(newId, s) && PlainNote(t, input) && SubmitOrder(t, s, catalog, input, newId, now).Ok?
    ensures var orders := SubmitOrder(t, s, catalog, input, newId, now).value.snapshot.orders;
            UniqueIds(orders) && NoLegacyNotes(t, orders)
  {
    var existing := if input.aggregator.None? then None else FirstMatch(t, s.orders, input.aggregator.value);
    if existing.Some? {
      ReplacedElements(s.orders, existing.value, Repaired(existing.value, input));
    } else {
      var created := CreateOrder(s, catalog, input, newId, now).value;
      assert created.snapshot.orders == [created.order] + s.orders;
      PrependUnique([created.order], s.orders);
    }
  }

  /** Where no order carries an older client's note, a submission leaves it so, and the sources distinct. */
  lemma SubmitKeepsTidy(t: Text, s: Snapshot, catalog: Catalog, input: NewOrder, newId: nat -> Id, now: Stamp)
    requires Tidy(t, s) && Fresh(newId, s) && PlainNote(t, input) && SubmitOrder(t, s, catalog, input, newId, now).Ok?
    ensures Tidy(t, SubmitOrder(t, s, catalog, input, newId, now).value.snapshot)
  {
    SubmitKeepsSources(t, s, catalog, input, newId, now);
    SubmitKeepsNotes(t, s, catalog, input, newId, now);
  }

  lemma SameDetailTidy(t: Text, orders: seq<Order>, o: Order, o': Order)
    requires UniqueIds(orders) && OnePerSource(t, orders) && NoLegacyNotes(t, orders)
    requires o in orders && o'.id == o.id && o'.detail == o.detail
    ensures var orders' := Replace(orders, o');
            UniqueIds(orders') && OnePerSource(t, orders') && NoLegacyNotes(t, orders')
  {
    ReplacedElements(orders, o, o');
    assert forall i | 0 <= i < |orders| :: Replace(orders, o')[i].detail == orders[i].detail by {
      forall i | 0 <= i < |orders| && orders[i].id == o.id
        ensures orders[i] == o
      {
        SameIdSameEntity(orders, orders[i], o);
      }
    }
    forall x, id | x in Replace(orders, o')
      ensures !LegacyMatch(t, x, id)
    {
      assert !LegacyMatch(t, o, id);
    }
  }

  /** Moves never touch where an order came from. */
  lemma MovesKeepTidy(t: Text, s: Snapshot, id: Id, now: Stamp)
    requires Tidy(t, s)
    ensures AdvanceOrder(s, id, now).Ok? ==> Tidy(t, AdvanceOrder(s, id, now).value.snapshot)
    ensures AdvanceTicket(s, id, now).Ok? ==> Tidy(t, AdvanceTicket(s, id, now).value.snapshot)
  {
    if AdvanceOrder(s, id, now).Ok? {
      SameDetailTidy(t, s.orders, Find(s.orders, id).value, AdvanceOrder(s, id, now).value.order);
    }
    if AdvanceTicket(s, id, now).Ok? {
      var orderId := Find(s.Tickets(), id).value.detail.orderId;
      SameDetailTidy(t, s.orders, Find(s.orders, orderId).value, AdvanceTicket(s, id, now).value.order);
    }
  }

  // ---------------------------------------------------------------- what a repair changes

  /** Everything but the note and the source. */
  ghost predicate SameButNoteAndSource(o: Order, o': Order) {
    && o'.id == o.id && o'.status == o.status && o'.version == o.version && o'.origin == o.origin
    && o'.createdAt == o.createdAt && o'.updatedAt == o.updatedAt
    && o'.detail.number == o.detail.number && o'.detail.guestName == o.detail.guestName
    && o'.detail.tableLabel == o.detail.tableLabel && o'.detail.lines == o.detail.lines
    && o'.detail.dueAt == o.detail.dueAt
  }

  /** A snapshot in which only the k-th order changed, and of that only the note and the source. */
  ghost predicate OnlyRepaired(s: Snapshot, s': Snapshot, k: nat, input: NewOrder) {
    && k < |s.orders| && |s'.orders| == |s.orders| && s' == s.(orders := s'.orders)
    && (forall i | 0 <= i < |s.orders| && i != k :: s'.orders[i] == s.orders[i])
    && SameButNoteAndSource(s.orders[k], s'.orders[k])
    && s'.orders[k].detail.note == Cleaned(input.note) && s'.orders[k].detail.aggregator == input.aggregator
  }

  /** The order has this source, at the same partner however its name is spelled, or an older client's note of it. */
  ghost predicate KnownAs(t: Text, o: Order, source: Aggregator) {
    if o.detail.aggregator.Some? then
      && t.lower(Trim(o.detail.aggregator.value.provider)) == t.lower(Trim(source.provider))
      && o.detail.aggregator.value.externalOrderId == source.externalOrderId
    else o.detail.note.Some? && t.mentions(o.detail.note.value, source.externalOrderId)
  }

  lemma {:induction false} FirstMatchAt(t: Text, orders: seq<Order>, source: Aggregator) returns (k: nat)
    requires FirstMatch(t, orders, source).Some?
    ensures k < |orders| && FirstMatch(t, orders, source) == Some(orders[k])
    ensures forall i | 0 <= i < k :: !Matches(t, orders[i], source)
  {
    if Matches(t, orders[0], source) {
      k := 0;
    } else {
      var i := FirstMatchAt(t, orders[1..], source);
      k := i + 1;
      assert orders[1..][i] == orders[k];
      forall n | 0 <= n < k
        ensures !Matches(t, orders[n], source)
      {
        assert n > 0 ==> orders[1..][n - 1] == orders[n];
      }
    }
  }

  /**
   A submission of a known source answers with the first order that matches: its note and its source are
   the new ones, and nothing else changes, of that order or of the snapshot.
   */
  lemma SubmitRepairs(t: Text, s: Snapshot, catalog: Catalog, input: NewOrder, newId: nat -> Id, now: Stamp)
    returns (k: nat)
    requires UniqueIds(s.orders) && input.aggregator.Some?
    requires exists o | o in s.orders :: KnownAs(t, o, input.aggregator.value)
    ensures var r := SubmitOrder(t, s, catalog, input, newId, now);
            && r.Ok? && OnlyRepaired(s, r.value.snapshot, k, input) && r.value.order == r.value.snapshot.orders[k]
            && KnownAs(t, s.orders[k], input.aggregator.value)
            && forall i | 0 <= i < k :: !KnownAs(t, s.orders[i], input.aggregator.value)
  {
    var o :| o in s.orders && KnownAs(t, o, input.aggregator.value);
    assert Matches(t, o, input.aggregator.value);
    k := FirstMatchAt(t, s.orders, input.aggregator.value);
  }

  /** A source no order is known by makes a new order, as any submission without one does. */
  lemma SubmitCreates(t: Text, s: Snapshot, catalog: Catalog, input: NewOrder, newId: nat -> Id, now: Stamp)
    requires input.aggregator.Some? ==> forall o | o in s.orders :: !KnownAs(t, o, input.aggregator.value)
    ensures var r, created := SubmitOrder(t, s, catalog, input, newId, now), CreateOrder(s, catalog, input, newId, now);
            if created.Err? then r == Err(created.error)
            else r == Ok(Submitted(created.value.snapshot, created.value.order))
  {
    if input.aggregator.Some? {
      var source := input.aggregator.value;
      assert forall o | o in s.orders :: Matches(t, o, source) ==> KnownAs(t, o, source);
    }
  }

  /**
   Submitting a partner order again, spelled differently or with a new note, answers with the order
   that is already there, which keeps everything but its note and its source. No other order changes,
   none is added, and no ticket is.
   */
  lemma SubmitAgain(
    t: Text, s: Snapshot, catalog: Catalog, input: NewOrder, again: NewOrder, newId: nat -> Id, otherId: nat -> Id,
    now: Stamp, later: Stamp) returns (k: nat)
    requires Tidy(t, s) && Fresh(newId, s) && PlainNote(t, input) && SubmitOrder(t, s, catalog, input, newId, now).Ok?
    requires input.aggregator.Some? && again.aggregator.Some?
    requires t.lower(Trim(input.aggregator.value.provider)) == t.lower(Trim(again.aggregator.value.provider))
    requires input.aggregator.value.externalOrderId == again.aggregator.value.externalOrderId
    ensures var first := SubmitOrder(t, s, catalog, input, newId, now).value;
            var second := SubmitOrder(t, first.snapshot, catalog, again, otherId, later);
            && second.Ok? && OnlyRepaired(first.snapshot, second.value.snapshot, k, again)
            && first.snapshot.orders[k] == first.order && second.value.order == second.value.snapshot.orders[k]
  {
    var first := SubmitOrder(t, s, catalog, input, newId, now).value;
    SubmitKeepsTidy(t, s, catalog, input, newId, now);
    var orders := first.snapshot.orders;
    var i := SubmittedAt(t, s, catalog, input, newId, now);
    assert KnownAs(t, first.order, again.aggregator.value);
    k := SubmitRepairs(t, first.snapshot, catalog, again, otherId, later);
    assert !LegacyMatch(t, orders[k], again.aggregator.value.externalOrderId);
    assert i == k;
  }

  lemma SubmittedAt(t: Text, s: Snapshot, catalog: Catalog, input: NewOrder, newId: nat -> Id, now: Stamp)
    returns (i: nat)
    requires UniqueIds(s.orders) && SubmitOrder(t, s, catalog, input, newId, now).Ok?
    ensures var first := SubmitOrder(t, s, catalog, input, newId, now).value;
            i < |first.snapshot.orders| && first.snapshot.orders[i] == first.order
            && first.order.detail.aggregator == input.aggregator
  {
    var existing := if input.aggregator.None? then None else FirstMatch(t, s.orders, input.aggregator.value);
    if existing.Some? {
      i := FirstMatchAt(t, s.orders, input.aggregator.value);
    } else {
      i := 0;
    }
  }

  // ---------------------------------------------------------------- runs with repairs

  lemma RepairKeepsConsistent(s: Snapshot, s': Snapshot, k: nat, input: NewOrder)
    requires AllConsistent(s) && OnlyRepaired(s, s', k, input)
    ensures AllConsistent(s')
  {
    assert forall i | 0 <= i < |s.orders| :: s'.orders[i].id == s.orders[i].id;
    forall o | o in s'.orders
      ensures Consistent(s'.Tickets(), o)
    {
      var i :| 0 <= i < |s'.orders| && s'.orders[i] == o;
      assert Consistent(s.Tickets(), s.orders[i]);
    }
    forall t | t in s'.Tickets()
      ensures t.detail.orderId in Ids(s'.orders)
    {
      var o :| o in s.orders && o.id == t.detail.orderId;
      var i :| 0 <= i < |s.orders| && s.orders[i] == o;
      assert s'.orders[i] in s'.orders;
    }
  }

  lemma SubmitKeepsConsistent(t: Text, s: Snapshot, catalog: Catalog, input: NewOrder, newId: nat -> Id, now: Stamp)
    requires AllConsistent(s) && Fresh(newId, s) && SubmitOrder(t, s, catalog, input, newId, now).Ok?
    ensures AllConsistent(SubmitOrder(t, s, catalog, input, newId, now).value.snapshot)
  {
    if input.aggregator.Some? && exists o | o in s.orders :: KnownAs(t, o, input.aggregator.value) {
      var k := SubmitRepairs(t, s, catalog, input, newId, now);
      RepairKeepsConsistent(s, SubmitOrder(t, s, catalog, input, newId, now).value.snapshot, k, input);
    } else {
      SubmitCreates(t, s, catalog, input, newId, now);
      CreateKeeps(s, catalog, input, newId, now);
    }
  }

  /** Every operation of the screen: a submission creates an order or repairs the one that is there. */
  ghost function Performed(t: Text, s: Snapshot, op: Operation): Snapshot {
    match op
    case Create(catalog, input, newId, now) =>
      var r := SubmitOrder(t, s, catalog, input, newId, now);
      if r.Ok? then r.value.snapshot else s
    case _ => Perform(s, op).GetOr(s)
  }

  ghost function RunSubmissions(t: Text, s: Snapshot, ops: seq<Operation>): Snapshot
    decreases |ops|
  {
    if ops == [] then s else RunSubmissions(t, Performed(t, s, ops[0]), ops[1..])
  }

  ghost predicate FreshSubmissions(t: Text, s: Snapshot, ops: seq<Operation>)
    decreases |ops|
  {
    ops != [] ==>
      && (ops[0].Create? ==> Fresh(ops[0].newId, s))
      && FreshSubmissions(t, Performed(t, s, ops[0]), ops[1..])
  }

  /** With repairs among the operations, too, each order's status and version stay those its tickets imply. */
  lemma {:induction false} SubmissionsStayConsistent(t: Text, s: Snapshot, ops: seq<Operation>)
    requires AllConsistent(s) && FreshSubmissions(t, s, ops)
    ensures AllConsistent(RunSubmissions(t, s, ops))
    decreases |ops|
  {
    if ops != [] {
      if ops[0].Create? {
        var op := ops[0];
        if SubmitOrder(t, s, op.catalog, op.input, op.newId, op.now).Ok? {
          SubmitKeepsConsistent(t, s, op.catalog, op.input, op.newId, op.now);
        }
      } else {
        PerformKeeps(s, ops[0]);
      }
      SubmissionsStayConsistent(t, Performed(t, s, ops[0]), ops[1..]);
    }
  }

  /** The smallest case of it: an older client's note in front of the order it hides. */
  lemma LegacyNoteDuplicates(
    t: Text, s: Snapshot, legacy: Order, known: Order, catalog: Catalog, input: NewOrder, newId: nat -> Id, now: Stamp)
    requires s.orders == [legacy, known] && legacy.id != known.id
    requires input.aggregator.Some? && known.detail.aggregator == input.aggregator
    requires LegacyMatch(t, legacy, input.aggregator.value.externalOrderId)
    ensures var r := SubmitOrder(t, s, catalog, input, newId, now);
            r.Ok? && OnePerSource(t, s.orders) && !OnePerSource(t, r.value.snapshot.orders)
  {
    var r := SubmitOrder(t, s, catalog, input, newId, now);
    var orders := r.value.snapshot.orders;
    assert orders[0] == Repaired(legacy, input) && orders[1] == known;
  }
}
