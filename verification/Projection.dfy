/**
 Reconciling the device with the edge's authoritative projection: repeated projections are reduced
 to the best of each id, and pending local work survives the merge.
 */
module Projection {
  import opened Prelude
  import opened StableSort
  import opened Kitchen
  import opened KitchenRuns

  // ---------------------------------------------------------------- one projection per id

  /** Strictly better evidence: a higher version, or the same version updated later. */
  predicate Better<D>(a: Entity<D>, b: Entity<D>) {
    a.version > b.version || (a.version == b.version && a.updatedAt > b.updatedAt)
  }

  /** Offers a projection to a map in order of first insertion, which takes it if it is new or better. */
  function Offer<D>(m: seq<Entity<D>>, e: Entity<D>): seq<Entity<D>> {
    var existing := Find(m, e.id);
    if existing.None? then m + [e]
    else if Better(e, existing.value) then Replace(m, e)
    else m
  }

  function OfferAll<D>(m: seq<Entity<D>>, entities: seq<Entity<D>>): seq<Entity<D>> {
    if entities == [] then m
    else Offer(OfferAll(m, entities[..|entities| - 1]), entities[|entities| - 1])
  }

  function Deduplicated<D>(entities: seq<Entity<D>>): seq<Entity<D>> {
    OfferAll([], entities)
  }

  method DeduplicateProjections<D>(entities: seq<Entity<D>>) returns (r: seq<Entity<D>>)
    ensures r == Deduplicated(entities)
  {
    r := [];
    for i := 0 to |entities|
      invariant r == OfferAll([], entities[..i])
    {
      var entity := entities[i];
      var existing := Find(r, entity.id);
      if existing.None? {
        r := r + [entity];
      } else if entity.version > existing.value.version
                || (entity.version == existing.value.version && entity.updatedAt > existing.value.updatedAt) {
        r := Replace(r, entity);
      }
      assert entities[..i + 1][..i] == entities[..i];
    }
    assert entities[..|entities|] == entities;
  }

  /** The projection at index i is the first of its id that no other of its id beats. */
  ghost predicate FirstBest<D>(entities: seq<Entity<D>>, i: nat)
    requires i < |entities|
  {
    && (forall j | 0 <= j < |entities| && entities[j].id == entities[i].id ::
          || entities[j].version < entities[i].version
          || (entities[j].version == entities[i].version && entities[j].updatedAt <= entities[i].updatedAt))
    && (forall j | 0 <= j < i && entities[j].id == entities[i].id ::
          || entities[j].version < entities[i].version
          || (entities[j].version == entities[i].version && entities[j].updatedAt < entities[i].updatedAt))
  }

  lemma OfferElements<D>(m: seq<Entity<D>>, e: Entity<D>)
    requires UniqueIds(m)
    ensures UniqueIds(Offer(m, e))
    ensures forall x :: x in Offer(m, e) ==> x == e || x in m
    ensures forall x :: x in m && x.id != e.id ==> x in Offer(m, e)
    ensures Find(m, e.id).None? ==> e in Offer(m, e)
    ensures Find(m, e.id).Some? ==> (if Better(e, Find(m, e.id).value) then e else Find(m, e.id).value) in Offer(m, e)
  {
  }

  /** m holds, for every id, its first best projection, and nothing else. */
  ghost predicate BestOf<D>(m: seq<Entity<D>>, entities: seq<Entity<D>>) {
    && UniqueIds(m)
    && (forall e | e in m :: exists i: nat | i < |entities| :: entities[i] == e && FirstBest(entities, i))
    && (forall e | e in entities :: exists x | x in m :: x.id == e.id)
  }

  lemma StillFirstBest<D>(entities: seq<Entity<D>>, i: nat)
    requires i < |entities| - 1 && FirstBest(entities[..|entities| - 1], i)
    requires var last := entities[|entities| - 1]; last.id != entities[i].id || !Better(last, entities[i])
    ensures FirstBest(entities, i)
  {
  }

  lemma LastIsFirstBest<D>(entities: seq<Entity<D>>, m: seq<Entity<D>>)
    requires entities != [] && BestOf(m, entities[..|entities| - 1])
    requires var last := entities[|entities| - 1];
             Find(m, last.id).None? || Better(last, Find(m, last.id).value)
    ensures FirstBest(entities, |entities| - 1)
  {
  }

  lemma OfferedFirstBest<D>(entities: seq<Entity<D>>, m: seq<Entity<D>>, e: Entity<D>) returns (i: nat)
    requires entities != [] && BestOf(m, entities[..|entities| - 1]) && e in Offer(m, entities[|entities| - 1])
    ensures i < |entities| && entities[i] == e && FirstBest(entities, i)
  {
    hide Offer;
    var before, last := entities[..|entities| - 1], entities[|entities| - 1];
    OfferElements(m, last);
    if e in m && (e.id != last.id || !Better(last, e)) {
      i :| i < |before| && before[i] == e && FirstBest(before, i);
      StillFirstBest(entities, i);
    } else {
      if e in m {
        FindUnique(m, e);
      }
      i := |entities| - 1;
      OfferedLast(m, last, e);
      LastIsFirstBest(entities, m);
    }
  }

  lemma OfferedLast<D>(m: seq<Entity<D>>, last: Entity<D>, e: Entity<D>)
    requires UniqueIds(m) && e in Offer(m, last) && (e in m ==> e.id == last.id && Better(last, e))
    ensures e == last && (Find(m, last.id).None? || Better(last, Find(m, last.id).value))
  {
  }

  lemma OfferedCovers<D>(m: seq<Entity<D>>, last: Entity<D>, e: Entity<D>)
    requires UniqueIds(m) && (e == last || exists x | x in m :: x.id == e.id)
    ensures exists x | x in Offer(m, last) :: x.id == e.id
  {
  }

  /** What is left for an id is its first best projection. */
  lemma {:induction false} DeduplicatedIsFirstBest<D>(entities: seq<Entity<D>>)
    ensures BestOf(Deduplicated(entities), entities)
  {
    if entities != [] {
      var before, last := entities[..|entities| - 1], entities[|entities| - 1];
      var m := Deduplicated(before);
      DeduplicatedIsFirstBest(before);
      OfferElements(m, last);
      forall e | e in Deduplicated(entities)
        ensures exists i: nat | i < |entities| :: entities[i] == e && FirstBest(entities, i)
      {
        var i := OfferedFirstBest(entities, m, e);
      }
      forall e | e in entities
        ensures exists x | x in Deduplicated(entities) :: x.id == e.id
      {
        assert e == last || e in before;
        OfferedCovers(m, last, e);
      }
    }
  }

  lemma DeduplicatedIds<D>(entities: seq<Entity<D>>)
    ensures UniqueIds(Deduplicated(entities))
  {
    DeduplicatedIsFirstBest(entities);
  }

  lemma {:induction false} UniqueIsDeduplicated<D>(entities: seq<Entity<D>>)
    requires UniqueIds(entities)
    ensures Deduplicated(entities) == entities
  {
    if entities != [] {
      var before := entities[..|entities| - 1];
      assert forall i | 0 <= i < |before| :: before[i] == entities[i];
      UniqueIsDeduplicated(before);
      assert Find(before, entities[|entities| - 1].id).None?;
    }
  }

  // ---------------------------------------------------------------- deduplicating in parts

  lemma {:induction false} OfferAllAppend<D>(m: seq<Entity<D>>, a: seq<Entity<D>>, b: seq<Entity<D>>)
    ensures OfferAll(m, a + b) == OfferAll(OfferAll(m, a), b)
  {
    if b == [] {
      assert a + b == a;
    } else {
      assert (a + b)[..|a + b| - 1] == a + b[..|b| - 1];
      OfferAllAppend(m, a, b[..|b| - 1]);
    }
  }

  lemma {:induction false} OfferAllUnique<D>(m: seq<Entity<D>>, entities: seq<Entity<D>>)
    requires UniqueIds(m)
    ensures UniqueIds(OfferAll(m, entities))
    ensures forall e | e in m || e in entities :: Find(OfferAll(m, entities), e.id).Some?
    ensures forall e | e in entities ::
              Find(OfferAll(m, entities), e.id).Some? && !Better(e, Find(OfferAll(m, entities), e.id).value)
  {
    if entities == [] {
    } else {
      var before, last := entities[..|entities| - 1], entities[|entities| - 1];
      var o := OfferAll(m, before);
      OfferAllUnique(m, before);
      OfferElements(o, last);
      forall e | e in m || e in entities
        ensures Find(Offer(o, last), e.id).Some?
        ensures e in entities ==> !Better(e, Find(Offer(o, last), e.id).value)
      {
        OfferedBest(o, last, e);
        assert e in entities ==> e in before || e == last;
      }
    }
  }

  lemma OfferedBest<D>(o: seq<Entity<D>>, last: Entity<D>, e: Entity<D>)
    requires UniqueIds(o) && (Find(o, e.id).Some? || e == last)
    ensures Find(Offer(o, last), e.id).Some?
    ensures e == last || !Better(e, Find(o, e.id).value) ==> !Better(e, Find(Offer(o, last), e.id).value)
  {
    OfferElements(o, last);
    if e.id == last.id {
      var best :=
        if Find(o, last.id).None? || Better(last, Find(o, last.id).value) then last else Find(o, last.id).value;
      FindUnique(Offer(o, last), best);
    } else {
      var x := Find(o, e.id).value;
      FindUnique(Offer(o, last), x);
    }
  }

  /** Offering a better projection after a worse one of the same id is offering just the better one. */
  lemma OfferBetter<D>(m: seq<Entity<D>>, x: Entity<D>, e: Entity<D>)
    requires UniqueIds(m) && x.id == e.id && Better(e, x)
    ensures Offer(Offer(m, x), e) == Offer(m, e)
  {
    var existing := Find(m, x.id);
    if existing.None? {
      var r := m + [x];
      OfferElements(m, x);
      FindUnique(r, x);
      assert Replace(r, e) == m + [e];
    } else if Better(x, existing.value) {
      OfferElements(m, x);
      FindUnique(Offer(m, x), x);
      assert Replace(Replace(m, x), e) == Replace(m, e);
    }
  }

  lemma FindOther<D>(m: seq<Entity<D>>, e: Entity<D>, id: Id)
    requires UniqueIds(m) && e.id != id
    ensures Find(Offer(m, e), id) == Find(m, id)
  {
  }

  lemma ReplaceApart<D>(m: seq<Entity<D>>, e: Entity<D>, y: Entity<D>)
    requires e.id != y.id
    ensures Replace(Replace(m, e), y) == Replace(Replace(m, y), e)
    ensures Replace(m + [y], e) == Replace(m, e) + [y]
  {
    var a, b := Replace(Replace(m, e), y), Replace(Replace(m, y), e);
    assert |a| == |b| && forall i | 0 <= i < |a| :: a[i] == b[i];
  }

  /** Projections of different ids may be offered in either order once one of the ids is known. */
  lemma OffersCommute<D>(m: seq<Entity<D>>, e: Entity<D>, y: Entity<D>)
    requires UniqueIds(m) && e.id != y.id && Find(m, e.id).Some?
    ensures Offer(Offer(m, e), y) == Offer(Offer(m, y), e)
  {
    FindOther(m, e, y.id);
    FindOther(m, y, e.id);
    ReplaceApart(m, e, y);
    hide Better, Replace, UniqueIds, Find;
  }

  lemma UpgradedPrefix<D>(list: seq<Entity<D>>, x: Entity<D>, e: Entity<D>)
    requires UniqueIds(list) && x in list && x.id == e.id
    ensures var before, last, upgraded := list[..|list| - 1], list[|list| - 1], Replace(list, e);
            && UniqueIds(before) && |upgraded| == |list| && upgraded[..|list| - 1] == Replace(before, e)
            && (if last.id == x.id then last == x && upgraded[|list| - 1] == e && Replace(before, e) == before
                else x in before && upgraded[|list| - 1] == last)
  {
    var before, last := list[..|list| - 1], list[|list| - 1];
    assert forall i | 0 <= i < |before| :: before[i] == list[i];
    if last.id == x.id {
      SameIdSameEntity(list, last, x);
    }
  }

  /** Upgrading one projection of a list is offering the upgrade at the end. */
  lemma {:induction false} OfferUpgraded<D>(m: seq<Entity<D>>, list: seq<Entity<D>>, x: Entity<D>, e: Entity<D>)
    requires UniqueIds(m) && UniqueIds(list) && x in list && x.id == e.id && Better(e, x)
    ensures OfferAll(m, Replace(list, e)) == Offer(OfferAll(m, list), e)
  {
    hide Better, Offer, Replace, UniqueIds;
    var before, last := list[..|list| - 1], list[|list| - 1];
    UpgradedPrefix(list, x, e);
    OfferAllUnique(m, before);
    if last.id == x.id {
      OfferBetter(OfferAll(m, before), x, e);
    } else {
      OfferUpgraded(m, before, x, e);
      OffersCommute(OfferAll(m, before), e, last);
    }
  }

  /** Only the best projections matter, whatever they are offered to. */
  lemma {:induction false} OfferOnlyBest<D>(m: seq<Entity<D>>, entities: seq<Entity<D>>)
    requires UniqueIds(m)
    ensures OfferAll(m, Deduplicated(entities)) == OfferAll(m, entities)
  {
    if entities != [] {
      var before, last := entities[..|entities| - 1], entities[|entities| - 1];
      var d := Deduplicated(before);
      OfferOnlyBest(m, before);
      DeduplicatedIsFirstBest(before);
      OfferAllUnique(m, before);
      var existing := Find(d, last.id);
      if existing.None? {
        assert (d + [last])[..|d|] == d;
      } else if Better(last, existing.value) {
        OfferUpgraded(m, d, existing.value, last);
      } else {
        var i: nat :| i < |before| && before[i] == existing.value && FirstBest(before, i);
        assert before[i] in before;
        assert !Better(last, Find(OfferAll(m, before), last.id).value);
      }
    }
  }

  /** Deduplicating parts first, as each fetched collection may be, changes nothing. */
  lemma DeduplicateInParts<D>(a: seq<Entity<D>>, b: seq<Entity<D>>)
    ensures Deduplicated(Deduplicated(a) + Deduplicated(b)) == Deduplicated(a + b)
  {
    DeduplicatedIsFirstBest(a);
    var d := Deduplicated(a);
    OfferAllAppend([], d, Deduplicated(b));
    UniqueIsDeduplicated(d);
    OfferOnlyBest(d, b);
    OfferAllAppend([], a, b);
  }

  // ---------------------------------------------------------------- the merge

  predicate Active(status: Status) {
    status != Completed && status != Cancelled
  }

  predicate LocalWins<D>(local: Entity<D>, pending: set<Id>, remote: Entity<D>) {
    local.id in pending && local.origin == Local && local.version > remote.version
  }

  /** The projection of a remote id: the device's own only while it is pending, local and newer. */
  function Chosen<D>(current: seq<Entity<D>>, pending: set<Id>, remote: Entity<D>): Entity<D> {
    var local := Find(current, remote.id);
    if local.Some? && LocalWins(local.value, pending, remote) then local.value else remote
  }

  function ChosenAll<D>(current: seq<Entity<D>>, pending: set<Id>, remote: seq<Entity<D>>): seq<Entity<D>> {
    seq(|remote|, i requires 0 <= i < |remote| => Chosen(current, pending, remote[i]))
  }

  /** What the edge did not list is kept while it is pending, or while it was active at the edge. */
  predicate Survives<D>(x: Entity<D>, remoteIds: set<Id>, pending: set<Id>) {
    x.id !in remoteIds && (x.id in pending || (x.origin == Edge && Active(x.status)))
  }

  function Survivor<D>(remoteIds: set<Id>, pending: set<Id>): Entity<D> -> bool {
    (x: Entity<D>) => Survives(x, remoteIds, pending)
  }

  function Merged<D(==)>(
    le: (Entity<D>, Entity<D>) -> bool, current: seq<Entity<D>>, remote: seq<Entity<D>>, pending: set<Id>)
    : seq<Entity<D>>
  {
    var c, r := Deduplicated(current), Deduplicated(remote);
    Sort(le, ChosenAll(c, pending, r) + Filter(Survivor(Ids(r), pending), c))
  }

  predicate NewestFirst(a: Order, b: Order) {
    a.createdAt >= b.createdAt
  }

  predicate MostUrgentFirst(a: Ticket, b: Ticket) {
    a.detail.priority > b.detail.priority
    || (a.detail.priority == b.detail.priority && a.createdAt <= b.createdAt)
  }

  /** The highest order number, and 0 where there is no order. */
  function HighestNumber(orders: seq<Order>): int {
    if orders == [] then 0 else Max(HighestNumber(orders[..|orders| - 1]), orders[|orders| - 1].detail.number)
  }

  function MergeEdgeProjection(
    s: Snapshot, remoteOrders: seq<Order>, remoteTickets: seq<Ticket>, pendingOrders: set<Id>, pendingTickets: set<Id>)
    : Snapshot
  {
    var orders := Merged(NewestFirst, s.orders, remoteOrders, pendingOrders);
    s.(orders := orders, nextOrderNumber := HighestNumber(orders) + 1,
       tickets := Some(Merged(MostUrgentFirst, s.Tickets(), remoteTickets, pendingTickets)))
  }

  /** The two loops of a merge: over what the edge listed, then over what only the device has. */
  method MergeList<D(==)>(
    le: (Entity<D>, Entity<D>) -> bool, current: seq<Entity<D>>, remote: seq<Entity<D>>, pending: set<Id>)
    returns (merged: seq<Entity<D>>)
    ensures merged == Merged(le, current, remote, pending)
  {
    var currentList := DeduplicateProjections(current);
    var remoteList := DeduplicateProjections(remote);
    merged := [];
    for i := 0 to |remoteList|
      invariant merged == ChosenAll(currentList, pending, remoteList[..i])
    {
      var local := Find(currentList, remoteList[i].id);
      if local.Some? && remoteList[i].id in pending && local.value.origin == Local
         && local.value.version > remoteList[i].version {
        merged := merged + [local.value];
      } else {
        merged := merged + [remoteList[i]];
      }
      assert remoteList[..i + 1][..i] == remoteList[..i];
    }
    assert remoteList[..|remoteList|] == remoteList;
    var remoteIds := Ids(remoteList);
    ghost var chosen := merged;
    for i := 0 to |currentList|
      invariant merged == chosen + Filter(Survivor(remoteIds, pending), currentList[..i])
    {
      var x := currentList[i];
      if x.id !in remoteIds && (x.id in pending || (x.origin == Edge && Active(x.status))) {
        merged := merged + [x];
      }
      FilterNext(Survivor(remoteIds, pending), currentList, i);
    }
    assert currentList[..|currentList|] == currentList;
    merged := Sort(le, merged);
  }

  method MergeProjections(
    s: Snapshot, remoteOrders: seq<Order>, remoteTickets: seq<Ticket>, pendingOrders: set<Id>, pendingTickets: set<Id>)
    returns (next: Snapshot)
    ensures next == MergeEdgeProjection(s, remoteOrders, remoteTickets, pendingOrders, pendingTickets)
  {
    var orders := MergeList(NewestFirst, s.orders, remoteOrders, pendingOrders);
    var highest := 0;
    for i := 0 to |orders|
      invariant highest == HighestNumber(orders[..i])
    {
      highest := Max(highest, orders[i].detail.number);
      assert orders[..i + 1][..i] == orders[..i];
    }
    assert orders[..|orders|] == orders;
    var tickets := MergeList(MostUrgentFirst, s.Tickets(), remoteTickets, pendingTickets);
    next := s.(orders := orders, nextOrderNumber := highest + 1, tickets := Some(tickets));
  }

  // ---------------------------------------------------------------- what a merge contains

  lemma ChosenIds<D>(c: seq<Entity<D>>, pending: set<Id>, r: seq<Entity<D>>)
    requires UniqueIds(r)
    ensures UniqueIds(ChosenAll(c, pending, r)) && Ids(ChosenAll(c, pending, r)) == Ids(r)
  {
    var chosen := ChosenAll(c, pending, r);
    assert forall i | 0 <= i < |r| :: chosen[i].id == r[i].id;
    forall id
      ensures id in Ids(chosen) <==> id in Ids(r)
    {
      if id in Ids(chosen) {
        var i :| 0 <= i < |chosen| && chosen[i].id == id;
        assert r[i] in r;
      }
      if id in Ids(r) {
        var i :| 0 <= i < |r| && r[i].id == id;
        assert chosen[i] in chosen;
      }
    }
  }

  lemma {:induction false} FilterUniqueIds<D>(p: Entity<D> -> bool, s: seq<Entity<D>>)
    requires UniqueIds(s)
    ensures UniqueIds(Filter(p, s))
    ensures forall x :: x in Filter(p, s) ==> x in s && p(x)
    ensures forall x :: x in s && p(x) ==> x in Filter(p, s)
  {
    if s != [] {
      var rest := s[1..];
      assert forall k | 0 <= k < |rest| :: rest[k] == s[k + 1];
      FilterUniqueIds(p, rest);
      var kept := Filter(p, rest);
      assert forall k | 0 <= k < |kept| :: kept[k] in rest;
      assert forall x | x in rest :: x.id != s[0].id;
    }
  }

  lemma PartsUnique<D(!new)>(c: seq<Entity<D>>, r: seq<Entity<D>>, pending: set<Id>)
    requires UniqueIds(c) && UniqueIds(r)
    ensures UniqueIds(ChosenAll(c, pending, r) + Filter(Survivor(Ids(r), pending), c))
    ensures forall x :: x in ChosenAll(c, pending, r) + Filter(Survivor(Ids(r), pending), c)
                   <==> x in ChosenAll(c, pending, r) || (x in c && Survives(x, Ids(r), pending))
  {
    hide ChosenAll;
    var chosen, kept := ChosenAll(c, pending, r), Filter(Survivor(Ids(r), pending), c);
    ChosenIds(c, pending, r);
    FilterUniqueIds(Survivor<D>(Ids(r), pending), c);
    assert Ids(chosen) !! Ids(kept);
    PrependUnique(chosen, kept);
  }

  lemma MergedParts<D(!new)>(le: (Entity<D>, Entity<D>) -> bool, c: seq<Entity<D>>, r: seq<Entity<D>>, pending: set<Id>)
    requires UniqueIds(c) && UniqueIds(r)
    ensures var m := Sort(le, ChosenAll(c, pending, r) + Filter(Survivor(Ids(r), pending), c));
            && UniqueIds(m)
            && forall x :: x in m <==> x in ChosenAll(c, pending, r) || (x in c && Survives(x, Ids(r), pending))
  {
    var parts := ChosenAll(c, pending, r) + Filter(Survivor(Ids(r), pending), c);
    var m := Sort(le, parts);
    PartsUnique(c, r, pending);
    RearrangedIds(parts, m);
    forall x
      ensures x in m <==> x in ChosenAll(c, pending, r) || (x in c && Survives(x, Ids(r), pending))
    {
      SameMembers(parts, m, x);
    }
  }

  lemma SameMembers<T>(a: seq<T>, b: seq<T>, x: T)
    requires multiset(a) == multiset(b)
    ensures x in a <==> x in b
  {
    assert x in a <==> x in multiset(a);
    assert x in b <==> x in multiset(b);
  }

  /**
   Exactly what a merge of two lists holds: one projection for each id the edge sent, and those of
   the device's own that survive without one. No id is held twice.
   */
  lemma MergedHolds<D(!new)>(
    le: (Entity<D>, Entity<D>) -> bool, current: seq<Entity<D>>, remote: seq<Entity<D>>, pending: set<Id>)
    ensures var c, r, m := Deduplicated(current), Deduplicated(remote), Merged(le, current, remote, pending);
            && UniqueIds(m)
            && forall x :: x in m <==> x in ChosenAll(c, pending, r) || (x in c && Survives(x, Ids(r), pending))
  {
    DeduplicatedIds(current);
    DeduplicatedIds(remote);
    MergedParts(le, Deduplicated(current), Deduplicated(remote), pending);
  }

  lemma PendingChosen<D(!new)>(
    current: seq<Entity<D>>, remote: seq<Entity<D>>, pending: set<Id>, x: Entity<D>, o: Entity<D>)
    requires UniqueIds(current) && x in current && x.id in pending && o in Deduplicated(remote) && o.id == x.id
    ensures var y := Chosen(current, pending, o);
            && y.id == x.id && y in ChosenAll(current, pending, Deduplicated(remote))
            && (x.origin == Local && (forall e | e in remote && e.id == x.id :: x.version > e.version) ==> y == x)
  {
    var r := Deduplicated(remote);
    FindUnique(current, x);
    var j :| 0 <= j < |r| && r[j] == o;
    assert ChosenAll(current, pending, r)[j] == Chosen(current, pending, o);
    DeduplicatedIsFirstBest(remote);
    var i: nat :| i < |remote| && remote[i] == o && FirstBest(remote, i);
    assert o in remote;
  }

  lemma DeduplicatedFrom<D(!new)>(remote: seq<Entity<D>>)
    ensures Ids(Deduplicated(remote)) == Ids(remote)
  {
    DeduplicatedIsFirstBest(remote);
    forall e | e in Deduplicated(remote)
      ensures e in remote
    {
      var i: nat :| i < |remote| && remote[i] == e && FirstBest(remote, i);
    }
  }

  /**
   Pending work survives: an entity whose event is still in the outbox is never dropped, and it is
   kept unchanged when it is local and newer than anything the edge sent, or when the edge sent
   nothing for it.
   */
  lemma PendingSurvives<D(!new)>(
    le: (Entity<D>, Entity<D>) -> bool, current: seq<Entity<D>>, remote: seq<Entity<D>>, pending: set<Id>, x: Entity<D>)
    returns (y: Entity<D>)
    requires UniqueIds(current) && x in current && x.id in pending
    ensures y in Merged(le, current, remote, pending) && y.id == x.id
    ensures x.origin == Local && (forall o | o in remote && o.id == x.id :: x.version > o.version) ==> y == x
    ensures y == x || y in remote
  {
    hide Merged, Deduplicated, Chosen, ChosenAll;
    var r := Deduplicated(remote);
    UniqueIsDeduplicated(current);
    MergedHolds(le, current, remote, pending);
    DeduplicatedFrom(remote);
    if x.id in Ids(r) {
      var o :| o in r && o.id == x.id;
      PendingChosen(current, remote, pending, x, o);
      y := Chosen(current, pending, o);
      ChosenOrRemote(current, remote, pending, x, o);
    } else {
      y := x;
    }
  }

  lemma ChosenOrRemote<D(!new)>(
    current: seq<Entity<D>>, remote: seq<Entity<D>>, pending: set<Id>, x: Entity<D>, o: Entity<D>)
    requires UniqueIds(current) && x in current && o in Deduplicated(remote) && o.id == x.id
    ensures Chosen(current, pending, o) == x || Chosen(current, pending, o) in remote
  {
    FindUnique(current, x);
    DeduplicatedIsFirstBest(remote);
    var i: nat :| i < |remote| && remote[i] == o && FirstBest(remote, i);
  }

  // ---------------------------------------------------------------- what a merge loses

  ghost predicate NotSetBack<D>(merged: seq<Entity<D>>, x: Entity<D>) {
    exists y | y in merged :: y.id == x.id && y.version >= x.version
  }

  /** The edge lists nothing older, unless the entity is pending and the device's own; unlisted, it survives. */
  ghost predicate KeepsUp<D>(x: Entity<D>, remote: seq<Entity<D>>, pending: set<Id>) {
    if x.id in Ids(remote) then
      (x.id in pending && x.origin == Local) || forall e | e in remote && e.id == x.id :: e.version >= x.version
    else Survives(x, Ids(remote), pending)
  }

  lemma ListedKeepsUp<D(!new)>(
    c: seq<Entity<D>>, r: seq<Entity<D>>, pending: set<Id>, m: seq<Entity<D>>, x: Entity<D>, e: Entity<D>)
    requires UniqueIds(c) && UniqueIds(r) && UniqueIds(m) && x in c && e in r && e.id == x.id
    requires forall z :: z in m <==> z in ChosenAll(c, pending, r) || (z in c && Survives(z, Ids(r), pending))
    ensures NotSetBack(m, x) <==> (x.id in pending && x.origin == Local) || e.version >= x.version
  {
    FindUnique(c, x);
    var i :| 0 <= i < |r| && r[i] == e;
    var y := ChosenAll(c, pending, r)[i];
    assert y in m && y.id == x.id;
    forall z | z in m && z.id == x.id
      ensures z == y
    {
      SameIdSameEntity(m, y, z);
    }
  }

  lemma UnlistedKeepsUp<D(!new)>(
    c: seq<Entity<D>>, r: seq<Entity<D>>, pending: set<Id>, m: seq<Entity<D>>, x: Entity<D>)
    requires UniqueIds(c) && UniqueIds(r) && x in c && x.id !in Ids(r)
    requires forall z :: z in m <==> z in ChosenAll(c, pending, r) || (z in c && Survives(z, Ids(r), pending))
    ensures x.id in Ids(m) <==> Survives(x, Ids(r), pending)
    ensures NotSetBack(m, x) <==> Survives(x, Ids(r), pending)
  {
    ChosenIds(c, pending, r);
    forall z | z in m && z.id == x.id
      ensures z == x
    {
      assert z in ChosenAll(c, pending, r) ==> z.id in Ids(ChosenAll(c, pending, r));
      SameIdSameEntity(c, x, z);
    }
  }

  /** An id is still there after a merge if and only if the edge lists it, it is pending, or active at the edge. */
  lemma SurvivesIff<D(!new)>(
    le: (Entity<D>, Entity<D>) -> bool, current: seq<Entity<D>>, remote: seq<Entity<D>>, pending: set<Id>, x: Entity<D>)
    requires x in Deduplicated(current)
    ensures x.id in Ids(Merged(le, current, remote, pending))
            <==> || x.id in Ids(remote) || x.id in pending
                 || (x.origin == Edge && x.status != Completed && x.status != Cancelled)
  {
    var c, r, m := Deduplicated(current), Deduplicated(remote), Merged(le, current, remote, pending);
    hide Merged, Deduplicated, ChosenAll;
    DeduplicatedIds(current);
    DeduplicatedIds(remote);
    DeduplicatedFrom(remote);
    MergedHolds(le, current, remote, pending);
    ChosenIds(c, pending, r);
    if x.id in Ids(r) {
      var y :| y in ChosenAll(c, pending, r) && y.id == x.id;
      assert y in m;
    } else {
      UnlistedKeepsUp(c, r, pending, m, x);
    }
  }

  /** A merge sets nothing back and loses nothing if and only if all the device shows keeps up with the fetch. */
  lemma MergeSetsNothingBackIff<D(!new)>(
    le: (Entity<D>, Entity<D>) -> bool, current: seq<Entity<D>>, remote: seq<Entity<D>>, pending: set<Id>)
    ensures var c, r, m := Deduplicated(current), Deduplicated(remote), Merged(le, current, remote, pending);
            (forall x | x in c :: NotSetBack(m, x)) <==> forall x | x in c :: KeepsUp(x, r, pending)
  {
    var c, r, m := Deduplicated(current), Deduplicated(remote), Merged(le, current, remote, pending);
    hide Merged, Deduplicated, ChosenAll, NotSetBack;
    DeduplicatedIds(current);
    DeduplicatedIds(remote);
    MergedHolds(le, current, remote, pending);
    forall x | x in c
      ensures NotSetBack(m, x) <==> KeepsUp(x, r, pending)
    {
      if x.id in Ids(r) {
        var e :| e in r && e.id == x.id;
        ListedKeepsUp(c, r, pending, m, x, e);
        forall f | f in r && f.id == x.id
          ensures f == e
        {
          SameIdSameEntity(r, e, f);
        }
      } else {
        UnlistedKeepsUp(c, r, pending, m, x);
      }
    }
  }

  // ---------------------------------------------------------------- order numbers

  lemma {:induction false} HighestNumberBounds(orders: seq<Order>)
    ensures forall o | o in orders :: o.detail.number <= HighestNumber(orders)
    ensures HighestNumber(orders) == 0 || exists o | o in orders :: o.detail.number == HighestNumber(orders)
    ensures HighestNumber(orders) >= 0
  {
    if orders != [] {
      var before, last := orders[..|orders| - 1], orders[|orders| - 1];
      HighestNumberBounds(before);
      assert forall o :: o in orders <==> o in before || o == last;
    }
  }

  /** The next order number is one above every order the device now shows, and no higher than it must be. */
  lemma NextNumberIsFree(
    s: Snapshot, remoteOrders: seq<Order>, remoteTickets: seq<Ticket>, pendingOrders: set<Id>, pendingTickets: set<Id>)
    ensures var m := MergeEdgeProjection(s, remoteOrders, remoteTickets, pendingOrders, pendingTickets);
            && (forall o | o in m.orders :: o.detail.number < m.nextOrderNumber)
            && 1 <= m.nextOrderNumber
            && (m.nextOrderNumber == 1 || exists o | o in m.orders :: o.detail.number + 1 == m.nextOrderNumber)
  {
    HighestNumberBounds(MergeEdgeProjection(s, remoteOrders, remoteTickets, pendingOrders, pendingTickets).orders);
  }

  // ---------------------------------------------------------------- the order on screen

  /** The list has x somewhere before y. */
  ghost predicate FetchedBefore(list: seq<Id>, x: Id, y: Id) {
    exists a, b :: 0 <= a < b < |list| && list[a] == x && list[b] == y
  }

  function IdsInOrder<D>(list: seq<Entity<D>>): seq<Id> {
    seq(|list|, i requires 0 <= i < |list| => list[i].id)
  }

  /** Entities the sort does not tell apart: fetched ones first, in the order they were fetched. */
  ghost predicate TiesAsFetched<D(!new)>(le: (Entity<D>, Entity<D>) -> bool, m: seq<Entity<D>>, fetched: seq<Id>) {
    forall i, j | 0 <= i < |m| && 0 <= j < |m| && le(m[i], m[j]) && le(m[j], m[i]) ::
      && (m[i].id in fetched && m[j].id !in fetched ==> i < j)
      && (FetchedBefore(fetched, m[i].id, m[j].id) ==> i < j)
  }

  lemma PlaceInParts<D(!new)>(
    c: seq<Entity<D>>, r: seq<Entity<D>>, pending: set<Id>, a: nat, x: Entity<D>)
    requires UniqueIds(c) && UniqueIds(r) && a < |r| && x.id == r[a].id
    requires x in ChosenAll(c, pending, r) || (x in c && Survives(x, Ids(r), pending))
    ensures a < |ChosenAll(c, pending, r)| && ChosenAll(c, pending, r)[a] == x
  {
    var chosen := ChosenAll(c, pending, r);
    ChosenIds(c, pending, r);
    assert r[a] in r && chosen[a].id == x.id && chosen[a] in chosen;
    if x in chosen {
      SameIdSameEntity(chosen, chosen[a], x);
    }
  }

  lemma TieKeepsPlaces<D(!new)>(
    le: (Entity<D>, Entity<D>) -> bool, parts: seq<Entity<D>>, a: nat, b: nat, i: nat, j: nat)
    requires TotalPreorder(le) && UniqueIds(parts) && a < b < |parts| && i < |parts| && j < |parts|
    requires Sort(le, parts)[i] == parts[a] && Sort(le, parts)[j] == parts[b] && le(parts[a], parts[b])
    ensures i < j
  {
    assert NoDuplicates(parts);
    SortKeepsOrder(le, parts, a, b, i, j);
  }

  lemma TiesInParts<D(!new)>(
    le: (Entity<D>, Entity<D>) -> bool, c: seq<Entity<D>>, r: seq<Entity<D>>, pending: set<Id>)
    requires TotalPreorder(le) && UniqueIds(c) && UniqueIds(r)
    ensures TiesAsFetched(
              le, Sort(le, ChosenAll(c, pending, r) + Filter(Survivor(Ids(r), pending), c)), IdsInOrder(r))
  {
    hide ChosenAll, Survivor, UniqueIds, TotalPreorder, IdsInOrder, FetchedBefore;
    var chosen, kept := ChosenAll(c, pending, r), Filter(Survivor(Ids(r), pending), c);
    var m := Sort(le, chosen + kept);
    forall i, j | 0 <= i < |m| && 0 <= j < |m| && le(m[i], m[j]) && le(m[j], m[i])
      ensures m[i].id in IdsInOrder(r) && m[j].id !in IdsInOrder(r) ==> i < j
      ensures FetchedBefore(IdsInOrder(r), m[i].id, m[j].id) ==> i < j
    {
      if m[i].id in IdsInOrder(r) && m[j].id !in IdsInOrder(r) {
        TieWithKept(le, c, r, pending, i, j);
      }
      if FetchedBefore(IdsInOrder(r), m[i].id, m[j].id) {
        TieOfFetched(le, c, r, pending, i, j);
      }
    }
  }

  lemma TieOfFetched<D(!new)>(
    le: (Entity<D>, Entity<D>) -> bool, c: seq<Entity<D>>, r: seq<Entity<D>>, pending: set<Id>, i: nat, j: nat)
    requires TotalPreorder(le) && UniqueIds(c) && UniqueIds(r)
    requires var m := Sort(le, ChosenAll(c, pending, r) + Filter(Survivor(Ids(r), pending), c));
             i < |m| && j < |m| && le(m[i], m[j]) && FetchedBefore(IdsInOrder(r), m[i].id, m[j].id)
    ensures i < j
  {
    hide Survivor, UniqueIds, TotalPreorder;
    var chosen, kept := ChosenAll(c, pending, r), Filter(Survivor(Ids(r), pending), c);
    var m := Sort(le, chosen + kept);
    var fetched := IdsInOrder(r);
    var a, b :| 0 <= a < b < |fetched| && fetched[a] == m[i].id && fetched[b] == m[j].id;
    PartsUnique(c, r, pending);
    MergedParts(le, c, r, pending);
    PlaceInParts(c, r, pending, a, m[i]);
    PlaceInParts(c, r, pending, b, m[j]);
    TieKeepsPlaces(le, chosen + kept, a, b, i, j);
  }

  lemma TieWithKept<D(!new)>(
    le: (Entity<D>, Entity<D>) -> bool, c: seq<Entity<D>>, r: seq<Entity<D>>, pending: set<Id>, i: nat, j: nat)
    requires TotalPreorder(le) && UniqueIds(c) && UniqueIds(r)
    requires var m := Sort(le, ChosenAll(c, pending, r) + Filter(Survivor(Ids(r), pending), c));
             && i < |m| && j < |m| && le(m[i], m[j])
             && m[i].id in IdsInOrder(r) && m[j].id !in IdsInOrder(r)
    ensures i < j
  {
    hide Survivor, Survives, UniqueIds, TotalPreorder, ChosenAll, IdsInOrder, Sort, Filter;
    var chosen, kept := ChosenAll(c, pending, r), Filter(Survivor(Ids(r), pending), c);
    var m := Sort(le, chosen + kept);
    PartsUnique(c, r, pending);
    MergedParts(le, c, r, pending);
    assert m[i] in m && m[j] in m;
    var a := PlaceOfFetched(c, r, pending, m[i]);
    var b := PlaceOfKept(c, r, pending, m[j]);
    TieKeepsPlaces(le, chosen + kept, a, |chosen| + b, i, j);
  }

  lemma PlaceOfFetched<D(!new)>(c: seq<Entity<D>>, r: seq<Entity<D>>, pending: set<Id>, x: Entity<D>) returns (a: nat)
    requires UniqueIds(c) && UniqueIds(r) && x.id in IdsInOrder(r)
    requires x in ChosenAll(c, pending, r) || (x in c && Survives(x, Ids(r), pending))
    ensures a < |ChosenAll(c, pending, r)| && ChosenAll(c, pending, r)[a] == x
  {
    a :| 0 <= a < |r| && IdsInOrder(r)[a] == x.id;
    PlaceInParts(c, r, pending, a, x);
  }

  lemma PlaceOfKept<D(!new)>(c: seq<Entity<D>>, r: seq<Entity<D>>, pending: set<Id>, x: Entity<D>) returns (b: nat)
    requires UniqueIds(r) && x.id !in IdsInOrder(r)
    requires x in ChosenAll(c, pending, r) || (x in c && Survives(x, Ids(r), pending))
    ensures var kept := Filter(Survivor(Ids(r), pending), c); b < |kept| && kept[b] == x
  {
    var chosen := ChosenAll(c, pending, r);
    FilterElements(Survivor<D>(Ids(r), pending), c);
    assert forall i | 0 <= i < |r| :: chosen[i].id == r[i].id == IdsInOrder(r)[i];
    var kept := Filter(Survivor(Ids(r), pending), c);
    b :| 0 <= b < |kept| && kept[b] == x;
  }

  lemma MergedInOrder<D(!new)>(
    le: (Entity<D>, Entity<D>) -> bool, current: seq<Entity<D>>, remote: seq<Entity<D>>, pending: set<Id>)
    requires TotalPreorder(le)
    ensures var m := Merged(le, current, remote, pending);
            Sorted(le, m) && TiesAsFetched(le, m, IdsInOrder(Deduplicated(remote)))
  {
    DeduplicatedIds(current);
    DeduplicatedIds(remote);
    var c, r := Deduplicated(current), Deduplicated(remote);
    SortSorted(le, ChosenAll(c, pending, r) + Filter(Survivor(Ids(r), pending), c));
    TiesInParts(le, c, r, pending);
  }

  /** Orders from the newest to the oldest, and equally old ones as they were fetched. */
  ghost predicate OrdersInOrder(orders: seq<Order>, fetched: seq<Id>) {
    && (forall i, j :: 0 <= i < j < |orders| ==> orders[i].createdAt >= orders[j].createdAt)
    && (forall i, j | 0 <= i < |orders| && 0 <= j < |orders| && orders[i].createdAt == orders[j].createdAt ::
          && (orders[i].id in fetched && orders[j].id !in fetched ==> i < j)
          && (FetchedBefore(fetched, orders[i].id, orders[j].id) ==> i < j))
  }

  /** Tickets by falling priority, then from the oldest to the newest, then as they were fetched. */
  ghost predicate TicketsInOrder(tickets: seq<Ticket>, fetched: seq<Id>) {
    && (forall i, j :: 0 <= i < j < |tickets| ==>
          || tickets[i].detail.priority > tickets[j].detail.priority
          || (tickets[i].detail.priority == tickets[j].detail.priority
              && tickets[i].createdAt <= tickets[j].createdAt))
    && (forall i, j | 0 <= i < |tickets| && 0 <= j < |tickets| && tickets[i].createdAt == tickets[j].createdAt
                      && tickets[i].detail.priority == tickets[j].detail.priority ::
          && (tickets[i].id in fetched && tickets[j].id !in fetched ==> i < j)
          && (FetchedBefore(fetched, tickets[i].id, tickets[j].id) ==> i < j))
  }

  /** What a merge shows stands in order, and what the order does not tell apart stands as the edge listed it. */
  lemma MergeShowsInOrder(
    s: Snapshot, remoteOrders: seq<Order>, remoteTickets: seq<Ticket>, pendingOrders: set<Id>, pendingTickets: set<Id>)
    ensures var m := MergeEdgeProjection(s, remoteOrders, remoteTickets, pendingOrders, pendingTickets);
            && OrdersInOrder(m.orders, IdsInOrder(Deduplicated(remoteOrders)))
            && TicketsInOrder(m.Tickets(), IdsInOrder(Deduplicated(remoteTickets)))
  {
    hide Deduplicated, FetchedBefore, IdsInOrder, Merged;
    NewestFirstTotal();
    MostUrgentFirstTotal();
    MergedInOrder(NewestFirst, s.orders, remoteOrders, pendingOrders);
    MergedInOrder(MostUrgentFirst, s.Tickets(), remoteTickets, pendingTickets);
    SortedOrders(Merged(NewestFirst, s.orders, remoteOrders, pendingOrders), IdsInOrder(Deduplicated(remoteOrders)));
    SortedTickets(
      Merged(MostUrgentFirst, s.Tickets(), remoteTickets, pendingTickets), IdsInOrder(Deduplicated(remoteTickets)));
  }

  lemma NewestFirstTotal()
    ensures TotalPreorder(NewestFirst)
  {
  }

  lemma MostUrgentFirstTotal()
    ensures TotalPreorder(MostUrgentFirst)
  {
  }

  lemma SortedOrders(orders: seq<Order>, fetched: seq<Id>)
    requires Sorted(NewestFirst, orders) && TiesAsFetched(NewestFirst, orders, fetched)
    ensures OrdersInOrder(orders, fetched)
  {
    hide FetchedBefore;
  }

  lemma SortedTickets(tickets: seq<Ticket>, fetched: seq<Id>)
    requires Sorted(MostUrgentFirst, tickets) && TiesAsFetched(MostUrgentFirst, tickets, fetched)
    ensures TicketsInOrder(tickets, fetched)
  {
    hide FetchedBefore;
  }

  // ---------------------------------------------------------------- merging again

  /** The remote ids get the same projections again when the lookup goes to the merged list. */
  lemma ChosenAgain<D>(c: seq<Entity<D>>, m: seq<Entity<D>>, pending: set<Id>, r: seq<Entity<D>>)
    requires UniqueIds(m) && forall x | x in ChosenAll(c, pending, r) :: x in m
    ensures ChosenAll(m, pending, r) == ChosenAll(c, pending, r)
  {
    forall i | 0 <= i < |r|
      ensures Chosen(m, pending, r[i]) == Chosen(c, pending, r[i])
    {
      var x := Chosen(c, pending, r[i]);
      assert ChosenAll(c, pending, r)[i] == x;
      FindUnique(m, x);
    }
  }

  lemma KeptAgain<D(!new)>(
    le: (Entity<D>, Entity<D>) -> bool, p: Entity<D> -> bool, chosen: seq<Entity<D>>, c: seq<Entity<D>>)
    requires TotalPreorder(le) && forall x | x in chosen :: !p(x)
    ensures Filter(p, Sort(le, chosen + Filter(p, c))) == Sort(le, Filter(p, c))
  {
    var kept := Filter(p, c);
    FilterElements(p, c);
    FilterSort(le, p, chosen + kept);
    FilterAppend(p, chosen, kept);
    FilterNone(p, chosen);
    FilterAll(p, kept);
    assert [] + kept == kept;
  }

  lemma ChosenDoNotSurvive<D(!new)>(c: seq<Entity<D>>, r: seq<Entity<D>>, pending: set<Id>)
    requires UniqueIds(c) && UniqueIds(r)
    ensures forall x | x in ChosenAll(c, pending, r) :: !Survivor(Ids(r), pending)(x)
  {
  }

  lemma MergePartsTwice<D(!new)>(
    le: (Entity<D>, Entity<D>) -> bool, c: seq<Entity<D>>, r: seq<Entity<D>>, pending: set<Id>)
    requires TotalPreorder(le) && UniqueIds(c) && UniqueIds(r)
    ensures var p := Survivor(Ids(r), pending);
            var m := Sort(le, ChosenAll(c, pending, r) + Filter(p, c));
            Sort(le, ChosenAll(m, pending, r) + Filter(p, m)) == m
  {
    var p := Survivor<D>(Ids(r), pending);
    var chosen := ChosenAll(c, pending, r);
    var m := Sort(le, chosen + Filter(p, c));
    MergedParts(le, c, r, pending);
    ChosenAgain(c, m, pending, r);
    ChosenDoNotSurvive(c, r, pending);
    KeptAgain(le, p, chosen, c);
    SortSuffixFirst(le, chosen, Filter(p, c));
  }

  /** Merging the same fetch again, with the same events pending, changes nothing. */
  lemma MergedTwice<D(!new)>(
    le: (Entity<D>, Entity<D>) -> bool, current: seq<Entity<D>>, remote: seq<Entity<D>>, pending: set<Id>)
    requires TotalPreorder(le)
    ensures Merged(le, Merged(le, current, remote, pending), remote, pending) == Merged(le, current, remote, pending)
  {
    var c, r := Deduplicated(current), Deduplicated(remote);
    DeduplicatedIds(current);
    DeduplicatedIds(remote);
    MergedParts(le, c, r, pending);
    UniqueIsDeduplicated(Merged(le, current, remote, pending));
    MergePartsTwice(le, c, r, pending);
  }

  lemma MergeTwice(
    s: Snapshot, remoteOrders: seq<Order>, remoteTickets: seq<Ticket>, pendingOrders: set<Id>, pendingTickets: set<Id>)
    ensures var m := MergeEdgeProjection(s, remoteOrders, remoteTickets, pendingOrders, pendingTickets);
            && UniqueIds(m.orders) && UniqueIds(m.Tickets())
            && MergeEdgeProjection(m, remoteOrders, remoteTickets, pendingOrders, pendingTickets) == m
  {
    hide Merged;
    MergedHolds(NewestFirst, s.orders, remoteOrders, pendingOrders);
    MergedHolds(MostUrgentFirst, s.Tickets(), remoteTickets, pendingTickets);
    MergedTwice(NewestFirst, s.orders, remoteOrders, pendingOrders);
    MergedTwice(MostUrgentFirst, s.Tickets(), remoteTickets, pendingTickets);
  }
}
