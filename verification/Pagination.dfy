/**
 Cursor pagination: the Go server cuts one page out of the list it currently holds, and the client
 follows the cursors until there is none.
 */
module Pagination {
  import opened Prelude

  datatype Item = Item(id: Id, content: string)

  datatype Page = Page(data: seq<Item>, nextCursor: Option<Id>)

  datatype PageError = InvalidPageLimit | InvalidCursor

  const DEFAULT_LIMIT := 50
  const MAX_LIMIT := 200

  // ---------------------------------------------------------------- the server

  /** The position after the first item with the given id. */
  function After(values: seq<Item>, id: Id): (r: Option<nat>)
    ensures r.Some? ==> 0 < r.value <= |values| && values[r.value - 1].id == id
    ensures r.Some? ==> forall j :: 0 <= j < r.value - 1 ==> values[j].id != id
    ensures r.None? ==> forall v | v in values :: v.id != id
  {
    if values == [] then None
    else if values[0].id == id then Some(1)
    else
      var rest := After(values[1..], id);
      if rest.None? then None else Some(rest.value + 1)
  }

  function Min(a: int, b: int): int {
    if a < b then a else b
  }

  function PageOf(values: seq<Item>, limit: Option<int>, cursor: Option<Id>): Result<Page, PageError> {
    var size := limit.GetOr(DEFAULT_LIMIT);
    if size < 1 || size > MAX_LIMIT then Err(InvalidPageLimit)
    else
      var start := if cursor.None? then Some(0) else After(values, cursor.value);
      if start.None? then Err(InvalidCursor)
      else
        var end := Min(start.value + size, |values|);
        var page := values[start.value..end];
        Ok(Page(page, if end < |values| && |page| > 0 then Some(page[|page| - 1].id) else None))
  }

  method WritePaginated(values: seq<Item>, limit: Option<int>, cursor: Option<Id>) returns (r: Result<Page, PageError>)
    ensures r == PageOf(values, limit, cursor)
  {
    var size := DEFAULT_LIMIT;
    if limit.Some? {
      if limit.value < 1 || limit.value > MAX_LIMIT {
        return Err(InvalidPageLimit);
      }
      size := limit.value;
    }
    var start := 0;
    if cursor.Some? {
      var found := false;
      var index := 0;
      while index < |values| && !found
        invariant 0 <= index <= |values|
        invariant !found ==> start == 0 && forall j :: 0 <= j < index ==> values[j].id != cursor.value
        invariant found ==> After(values, cursor.value) == Some(start) && 0 <= start <= |values|
      {
        if values[index].id == cursor.value {
          start := index + 1;
          found := true;
          FirstFound(values, cursor.value, index);
        }
        index := index + 1;
      }
      if !found {
        return Err(InvalidCursor);
      }
    }
    var end := start + size;
    if end > |values| {
      end := |values|;
    }
    var page := values[start..end];
    var nextCursor: Option<Id> := None;
    if end < |values| && |page| > 0 {
      nextCursor := Some(page[|page| - 1].id);
    }
    r := Ok(Page(page, nextCursor));
  }

  lemma {:induction false} FirstFound(values: seq<Item>, id: Id, index: nat)
    requires index < |values| && values[index].id == id
    requires forall j :: 0 <= j < index ==> values[j].id != id
    ensures After(values, id) == Some(index + 1)
  {
  }

  /**
   What a request is answered: an error for a limit outside 1 to 200 or a cursor no item has, and otherwise
   the items right behind the first one with the cursor's id, as many as there are up to the limit, 50
   unless stated; with the id of the last of them as the next cursor if and only if more follow.
   */
  lemma PageAnswers(values: seq<Item>, limit: Option<int>, cursor: Option<Id>)
    ensures var r := PageOf(values, limit, cursor);
            && (r == Err(InvalidPageLimit) <==> limit.Some? && !(1 <= limit.value <= 200))
            && (r == Err(InvalidCursor) <==>
                  && (limit.Some? ==> 1 <= limit.value <= 200)
                  && cursor.Some? && forall v | v in values :: v.id != cursor.value)
            && (r.Ok? ==>
                  exists start :: PageFrom(values, limit, cursor, start, r.value))
  {
    var r := PageOf(values, limit, cursor);
    if r.Ok? {
      var start := if cursor.None? then 0 else After(values, cursor.value).value;
      assert PageFrom(values, limit, cursor, start, r.value);
    }
  }

  ghost predicate PageFrom(values: seq<Item>, limit: Option<int>, cursor: Option<Id>, start: int, page: Page) {
    var size := if limit.Some? then limit.value else 50;
    && 0 <= start <= start + |page.data| <= |values| && page.data == values[start..start + |page.data|]
    && (if cursor.None? then start == 0
        else start > 0 && values[start - 1].id == cursor.value
             && forall j | 0 <= j < start - 1 :: values[j].id != cursor.value)
    && |page.data| <= size && (|page.data| < size ==> start + |page.data| == |values|)
    && (page.nextCursor.None? <==> start + |page.data| == |values|)
    && (page.nextCursor.Some? ==> page.data != [] && page.nextCursor.value == page.data[|page.data| - 1].id)
  }

  method FilterSlice(values: seq<Item>, keep: Item -> bool) returns (filtered: seq<Item>)
    ensures filtered == Filter(keep, values)
  {
    filtered := [];
    for i := 0 to |values|
      invariant filtered == Filter(keep, values[..i])
    {
      if keep(values[i]) {
        filtered := filtered + [values[i]];
      }
      FilterNext(keep, values, i);
    }
    assert values[..|values|] == values;
  }

  // ---------------------------------------------------------------- the client, on a list that does not change

  ghost predicate Unique(values: seq<Item>) {
    forall i, j :: 0 <= i < j < |values| ==> values[i].id != values[j].id
  }

  lemma AfterUnique(values: seq<Item>, index: nat)
    requires Unique(values) && index < |values|
    ensures After(values, values[index].id) == Some(index + 1)
  {
  }

  /** Following the cursors through a list with unique ids ends, and returns exactly the list. */
  method ListAll(list: seq<Item>, limit: int) returns (r: Result<seq<Item>, PageError>)
    requires Unique(list)
    ensures if 1 <= limit <= MAX_LIMIT then r == Ok(list) else r == Err(InvalidPageLimit)
  {
    hide Unique;
    var values: seq<Item> := [];
    var cursor: Option<Id> := None;
    var more := true;
    while more
      invariant |values| <= |list| && values == list[..|values|]
      invariant more ==> if |values| == 0 then cursor.None? else cursor == Some(list[|values| - 1].id)
      invariant !more ==> 1 <= limit <= MAX_LIMIT && values == list
      invariant more && 1 <= limit <= MAX_LIMIT && |values| > 0 ==> |values| < |list|
      decreases |list| - |values|, more
    {
      if |values| > 0 {
        AfterUnique(list, |values| - 1);
      }
      var page := WritePaginated(list, Some(limit), cursor);
      if page.Err? {
        return Err(page.error);
      }
      ghost var start := |values|;
      var data := page.value.data;
      values := values + data;
      assert values == list[..start + |data|];
      cursor := page.value.nextCursor;
      more := cursor.Some?;
    }
    r := Ok(values);
  }

  // ---------------------------------------------------------------- one request after the other

  function Occurrences(values: seq<Item>, id: Id): nat {
    if values == [] then 0
    else Occurrences(values[..|values| - 1], id) + if values[|values| - 1].id == id then 1 else 0
  }

  /** One request per list, from the given cursor, up to the request that ends the collection. */
  datatype Collection = Collection(values: seq<Item>, complete: bool)

  function Collect(lists: seq<seq<Item>>, limit: int, cursor: Option<Id>): Result<Collection, PageError>
    decreases |lists|
  {
    if lists == [] then Ok(Collection([], false))
    else
      match PageOf(lists[0], Some(limit), cursor)
      case Err(e) => Err(e)
      case Ok(page) =>
        if page.nextCursor.None? then Ok(Collection(page.data, true))
        else
          match Collect(lists[1..], limit, page.nextCursor)
          case Err(e) => Err(e)
          case Ok(rest) => Ok(Collection(page.data + rest.values, rest.complete))
  }

  // ---------------------------------------------------------------- lists with repeated ids

  function Requests(list: seq<Item>, n: nat): seq<seq<Item>> {
    seq(n, i => list)
  }

  /** The id at which a page ends leads to where the page ends, and not to an earlier item with the same id. */
  predicate LeadsOn(list: seq<Item>, end: int)
    requires 0 < end <= |list|
  {
    After(list, list[end - 1].id) == Some(end)
  }

  ghost predicate EndsLeadOn(list: seq<Item>, limit: int, start: nat)
    requires 1 <= limit
    decreases |list| - start
  {
    start + limit < |list| ==> LeadsOn(list, start + limit) && EndsLeadOn(list, limit, start + limit)
  }

  function StartOf(list: seq<Item>, cursor: Option<Id>): Option<nat> {
    if cursor.None? then Some(0) else After(list, cursor.value)
  }

  lemma NoRequest(list: seq<Item>, limit: int, cursor: Option<Id>)
    ensures Collect(Requests(list, 0), limit, cursor) == Ok(Collection([], false))
  {
    assert Requests(list, 0) == [];
  }

  lemma LastRequest(list: seq<Item>, n: nat, limit: int, cursor: Option<Id>)
    requires 1 <= limit <= MAX_LIMIT && n > 0 && StartOf(list, cursor).Some?
    requires StartOf(list, cursor).value + limit >= |list|
    ensures Collect(Requests(list, n), limit, cursor) == Ok(Collection(list[StartOf(list, cursor).value..], true))
  {
    var start := StartOf(list, cursor).value;
    assert list[start..|list|] == list[start..];
  }

  lemma NextStart(list: seq<Item>, end: int)
    requires 0 < end <= |list|
    ensures var next := After(list, list[end - 1].id); next.Some? && next.value <= end
  {
    assert list[end - 1] in list;
  }

  lemma NextRequest(list: seq<Item>, n: nat, limit: int, cursor: Option<Id>)
    requires 1 <= limit <= MAX_LIMIT && n > 0 && StartOf(list, cursor).Some?
    requires StartOf(list, cursor).value + limit < |list|
    ensures var start := StartOf(list, cursor).value;
            var next := Some(list[start + limit - 1].id);
            var rest := Collect(Requests(list, n - 1), limit, next);
            && StartOf(list, next).Some? && StartOf(list, next).value <= start + limit
            && Collect(Requests(list, n), limit, cursor)
               == if rest.Err? then rest
                  else Ok(Collection(list[start..start + limit] + rest.value.values, rest.value.complete))
  {
    var start := StartOf(list, cursor).value;
    var page := Page(list[start..start + limit], Some(list[start + limit - 1].id));
    assert PageOf(list, Some(limit), cursor) == Ok(page);
    NextStart(list, start + limit);
    assert Requests(list, n)[1..] == Requests(list, n - 1);
    hide PageOf, After;
  }

  lemma {:induction false} CollectsRest(list: seq<Item>, n: nat, limit: int, cursor: Option<Id>)
    requires 1 <= limit <= MAX_LIMIT && StartOf(list, cursor).Some?
    requires EndsLeadOn(list, limit, StartOf(list, cursor).value) && n > |list| - StartOf(list, cursor).value
    ensures Collect(Requests(list, n), limit, cursor) == Ok(Collection(list[StartOf(list, cursor).value..], true))
    decreases n
  {
    hide Collect, Requests, After;
    var start := StartOf(list, cursor).value;
    if start + limit < |list| {
      NextRequest(list, n, limit, cursor);
      CollectsRest(list, n - 1, limit, Some(list[start + limit - 1].id));
      assert list[start..start + limit] + list[start + limit..] == list[start..];
    } else {
      LastRequest(list, n, limit, cursor);
    }
  }

  /** A collection that completes is no shorter than the rest of the list, and as short only if no page went back. */
  lemma {:induction false} CompletesLonger(list: seq<Item>, n: nat, limit: int, cursor: Option<Id>)
    requires 1 <= limit <= MAX_LIMIT && StartOf(list, cursor).Some?
    requires var r := Collect(Requests(list, n), limit, cursor); r.Ok? && r.value.complete
    ensures var length := |Collect(Requests(list, n), limit, cursor).value.values|;
            var start := StartOf(list, cursor).value;
            length >= |list| - start && (length == |list| - start ==> EndsLeadOn(list, limit, start))
    decreases n
  {
    hide Collect, Requests, After, PageOf;
    if n == 0 {
      NoRequest(list, limit, cursor);
    } else {
      var start := StartOf(list, cursor).value;
      if start + limit < |list| {
        NextRequest(list, n, limit, cursor);
        CompletesLonger(list, n - 1, limit, Some(list[start + limit - 1].id));
      } else {
        LastRequest(list, n, limit, cursor);
      }
    }
  }

  function PageEnd(k: nat, limit: int): int {
    k * limit
  }

  lemma {:induction false} EndsByNumber(list: seq<Item>, limit: int, k: nat)
    requires 1 <= limit
    ensures EndsLeadOn(list, limit, PageEnd(k, limit))
            <==> forall j: nat | k < j && PageEnd(j, limit) < |list| :: LeadsOn(list, PageEnd(j, limit))
    decreases |list| - PageEnd(k, limit)
  {
    assert PageEnd(k + 1, limit) == PageEnd(k, limit) + limit;
    if PageEnd(k + 1, limit) < |list| {
      EndsByNumber(list, limit, k + 1);
    } else {
      forall j: nat | k < j
        ensures PageEnd(j, limit) >= |list|
      {
        LaterPage(k + 1, j, limit);
      }
    }
  }

  lemma LaterPage(k: nat, j: nat, limit: int)
    requires k <= j && 1 <= limit
    ensures PageEnd(k, limit) <= PageEnd(j, limit)
  {
    assert (j - k) * limit >= 0;
    assert k * limit + (j - k) * limit == j * limit;
  }

  /**
   Following the cursors through any list that does not change returns exactly the list if and only
   if every page but the last ends at the first item with its id.
   */
  lemma CollectsListIff(list: seq<Item>, limit: int)
    requires 1 <= limit <= MAX_LIMIT
    ensures (exists n: nat :: Collect(Requests(list, n), limit, None) == Ok(Collection(list, true)))
            <==> forall k: nat | 0 < k && PageEnd(k, limit) < |list| :: LeadsOn(list, PageEnd(k, limit))
  {
    EndsByNumber(list, limit, 0);
    assert PageEnd(0, limit) == 0;
    if EndsLeadOn(list, limit, 0) {
      CollectsRest(list, |list| + 1, limit, None);
    }
    forall n: nat | Collect(Requests(list, n), limit, None) == Ok(Collection(list, true))
      ensures EndsLeadOn(list, limit, 0)
    {
      CompletesLonger(list, n, limit, None);
    }
  }

  /** When the first two pages end with the same id, the collection never completes. */
  lemma {:induction false} RepeatedIdsLoop(list: seq<Item>, limit: int, n: nat)
    requires 1 <= limit <= MAX_LIMIT && 2 * limit < |list|
    requires LeadsOn(list, limit) && list[2 * limit - 1].id == list[limit - 1].id
    ensures var r := Collect(Requests(list, n), limit, Some(list[limit - 1].id)); r.Ok? && !r.value.complete
    ensures var r := Collect(Requests(list, n), limit, None); r.Ok? && !r.value.complete
    decreases n
  {
    hide Collect, Requests, After, PageOf;
    if n == 0 {
      NoRequest(list, limit, None);
      NoRequest(list, limit, Some(list[limit - 1].id));
    } else {
      NextRequest(list, n, limit, None);
      NextRequest(list, n, limit, Some(list[limit - 1].id));
      RepeatedIdsLoop(list, limit, n - 1);
    }
  }

  // ---------------------------------------------------------------- lists that keep what stays in order

  ghost predicate Holds(values: seq<Item>, id: Id) {
    exists v | v in values :: v.id == id
  }

  /** x stands at or before y in the list. */
  ghost predicate UpTo(values: seq<Item>, x: Id, y: Id) {
    exists i, j :: 0 <= i <= j < |values| && values[i].id == x && values[j].id == y
  }

  /** Items that are in both lists keep their order. */
  ghost predicate SameOrder(a: seq<Item>, b: seq<Item>) {
    forall x, y | Holds(a, x) && Holds(a, y) && Holds(b, x) && Holds(b, y) :: UpTo(a, x, y) <==> UpTo(b, x, y)
  }

  ghost predicate StableLists(lists: seq<seq<Item>>) {
    && (forall l | l in lists :: Unique(l))
    && (forall k | 0 <= k < |lists| - 1 :: SameOrder(lists[k], lists[k + 1]))
  }

  lemma {:induction false} OccurrencesAppend(a: seq<Item>, b: seq<Item>, id: Id)
    ensures Occurrences(a + b, id) == Occurrences(a, id) + Occurrences(b, id)
  {
    if b == [] {
      assert a + b == a;
    } else {
      assert (a + b)[..|a + b| - 1] == a + b[..|b| - 1];
      OccurrencesAppend(a, b[..|b| - 1], id);
    }
  }

  lemma {:induction false} UniqueOccurrences(values: seq<Item>, id: Id)
    requires Unique(values)
    ensures Occurrences(values, id) == if Holds(values, id) then 1 else 0
  {
    if values != [] {
      var before := values[..|values| - 1];
      UniqueOccurrences(before, id);
      assert forall v | v in before :: v in values;
      if Holds(values, id) {
        var v :| v in values && v.id == id;
        if v != values[|values| - 1] {
          assert v in before;
        }
      }
      if Holds(before, id) {
        var v :| v in before && v.id == id;
        var i :| 0 <= i < |before| && before[i] == v;
        assert values[i] == v;
      }
    }
  }

  /** Whether x was passed already when the collection stands at the cursor. */
  ghost predicate Passed(values: seq<Item>, x: Id, cursor: Option<Id>) {
    cursor.Some? && UpTo(values, x, cursor.value)
  }

  /** A page holds x once if it lies past the old cursor and not past the new one, and otherwise not at all. */
  lemma PageHolds(values: seq<Item>, limit: int, cursor: Option<Id>, x: Id)
    requires Unique(values) && PageOf(values, Some(limit), cursor).Ok? && Holds(values, x)
    ensures var page := PageOf(values, Some(limit), cursor).value;
            var reached := page.nextCursor.None? || UpTo(values, x, page.nextCursor.value);
            && Occurrences(page.data, x) == (if reached && !Passed(values, x, cursor) then 1 else 0)
            && (Passed(values, x, cursor) ==> reached)
            && (page.nextCursor.Some? ==> Holds(values, page.nextCursor.value))
  {
    hide Occurrences, UpTo, Unique;
    var page := PageOf(values, Some(limit), cursor).value;
    var start := if cursor.None? then 0 else After(values, cursor.value).value;
    var end := start + |page.data|;
    var v :| v in values && v.id == x;
    var p :| 0 <= p < |values| && values[p] == v;
    SliceHolds(values, start, end, p);
    if cursor.Some? {
      UpToIsBefore(values, p, start - 1);
    }
    if page.nextCursor.Some? {
      assert values[end - 1] in values;
      UpToIsBefore(values, p, end - 1);
    }
  }

  lemma UpToIsBefore(values: seq<Item>, p: nat, q: nat)
    requires Unique(values) && p < |values| && q < |values|
    ensures UpTo(values, values[p].id, values[q].id) <==> p <= q
  {
  }

  lemma SliceHolds(values: seq<Item>, start: nat, end: nat, p: nat)
    requires Unique(values) && start <= end <= |values| && p < |values|
    ensures Occurrences(values[start..end], values[p].id) == if start <= p < end then 1 else 0
  {
    var slice := values[start..end];
    UniqueOccurrences(slice, values[p].id);
    if start <= p < end {
      assert slice[p - start] in slice;
    }
  }

  lemma StableTail(lists: seq<seq<Item>>)
    requires StableLists(lists) && lists != []
    ensures StableLists(lists[1..])
  {
  }

  lemma {:induction false} DeliveredOnce(lists: seq<seq<Item>>, limit: int, cursor: Option<Id>, x: Id)
    requires StableLists(lists) && (forall l | l in lists :: Holds(l, x))
    requires Collect(lists, limit, cursor).Ok? && Collect(lists, limit, cursor).value.complete
    ensures lists != []
    ensures Occurrences(Collect(lists, limit, cursor).value.values, x) == if Passed(lists[0], x, cursor) then 0 else 1
    decreases |lists|
  {
    var page := PageOf(lists[0], Some(limit), cursor).value;
    PageHolds(lists[0], limit, cursor, x);
    if page.nextCursor.Some? {
      var rest := lists[1..];
      assert forall l | l in rest :: l in lists;
      StableTail(lists);
      DeliveredOnce(rest, limit, page.nextCursor, x);
      CursorSurvives(rest[0], limit, page.nextCursor.value);
      assert SameOrder(lists[0], lists[1]);
      OccurrencesAppend(page.data, Collect(rest, limit, page.nextCursor).value.values, x);
    }
  }

  lemma CursorSurvives(values: seq<Item>, limit: int, cursor: Id)
    requires PageOf(values, Some(limit), Some(cursor)).Ok?
    ensures Holds(values, cursor)
  {
  }

  /**
   The list may change between pages: as long as no cursor is lost and what stays keeps its order, a
   collection that completes holds every item that was there throughout exactly once.
   */
  lemma PersistentItemsOnce(lists: seq<seq<Item>>, limit: int, x: Id)
    requires StableLists(lists) && (forall l | l in lists :: Holds(l, x))
    requires Collect(lists, limit, None).Ok? && Collect(lists, limit, None).value.complete
    ensures Occurrences(Collect(lists, limit, None).value.values, x) == 1
  {
    DeliveredOnce(lists, limit, None, x);
  }
}
