/**
 `Array.prototype.sort` is a stable sort: its result is the sorted permutation that keeps
 equally ranked elements in their original order. Insertion sort computes that permutation.
 */
module StableSort {
  import opened Prelude

  ghost predicate TotalPreorder<T(!new)>(le: (T, T) -> bool) {
    && (forall a, b :: le(a, b) || le(b, a))
    && (forall a, b, c :: le(a, b) && le(b, c) ==> le(a, c))
  }

  ghost predicate Sorted<T>(le: (T, T) -> bool, s: seq<T>) {
    forall i, j :: 0 <= i < j < |s| ==> le(s[i], s[j])
  }

  /** Puts x in front of the first element it may precede. */
  function Insert<T>(le: (T, T) -> bool, x: T, s: seq<T>): (r: seq<T>)
    ensures multiset(r) == multiset{x} + multiset(s)
    ensures |r| == |s| + 1
  {
    if s == [] then [x]
    else if le(x, s[0]) then [x] + s
    else
      assert s == [s[0]] + s[1..];
      [s[0]] + Insert(le, x, s[1..])
  }

  function Sort<T>(le: (T, T) -> bool, s: seq<T>): (r: seq<T>)
    ensures multiset(r) == multiset(s)
    ensures |r| == |s|
  {
    if s == [] then []
    else
      assert s == [s[0]] + s[1..];
      Insert(le, s[0], Sort(le, s[1..]))
  }

  lemma SortElements<T>(le: (T, T) -> bool, s: seq<T>)
    ensures forall x :: x in Sort(le, s) <==> x in s
  {
    forall x
      ensures x in Sort(le, s) <==> x in s
    {
      assert x in Sort(le, s) <==> x in multiset(Sort(le, s));
      assert x in s <==> x in multiset(s);
    }
  }

  lemma {:induction false} InsertSorted<T(!new)>(le: (T, T) -> bool, x: T, s: seq<T>)
    requires TotalPreorder(le) && Sorted(le, s)
    ensures Sorted(le, Insert(le, x, s))
  {
    if s == [] || le(x, s[0]) {
    } else {
      InsertSorted(le, x, s[1..]);
      var rest := Insert(le, x, s[1..]);
      forall y | y in rest
        ensures le(s[0], y)
      {
        assert y in multiset(rest);
        assert y == x || y in s[1..];
      }
    }
  }

  lemma {:induction false} SortSorted<T(!new)>(le: (T, T) -> bool, s: seq<T>)
    requires TotalPreorder(le)
    ensures Sorted(le, Sort(le, s))
  {
    if s != [] {
      SortSorted(le, s[1..]);
      InsertSorted(le, s[0], Sort(le, s[1..]));
    }
  }

  /** A sorted sequence is a fixed point, so sorting twice is sorting once. */
  lemma {:induction false} SortFixesSorted<T>(le: (T, T) -> bool, s: seq<T>)
    requires Sorted(le, s)
    ensures Sort(le, s) == s
  {
    if s != [] {
      SortFixesSorted(le, s[1..]);
      if |s| > 1 {
        assert le(s[0], s[1]);
      }
    }
  }

  /** Sorting a suffix beforehand is invisible to a stable sort. */
  lemma {:induction false} SortSuffixFirst<T(!new)>(le: (T, T) -> bool, a: seq<T>, b: seq<T>)
    requires TotalPreorder(le)
    ensures Sort(le, a + Sort(le, b)) == Sort(le, a + b)
  {
    hide Sorted, TotalPreorder, Insert;
    if a == [] {
      assert a + b == b && a + Sort(le, b) == Sort(le, b);
      SortSorted(le, b);
      SortFixesSorted(le, Sort(le, b));
    } else {
      assert (a + b)[1..] == a[1..] + b;
      assert (a + Sort(le, b))[1..] == a[1..] + Sort(le, b);
      SortSuffixFirst(le, a[1..], b);
    }
  }

  lemma {:induction false} FilterInsert<T(!new)>(le: (T, T) -> bool, p: T -> bool, x: T, s: seq<T>)
    requires TotalPreorder(le) && Sorted(le, s)
    ensures Filter(p, Insert(le, x, s)) ==
            if p(x) then Insert(le, x, Filter(p, s)) else Filter(p, s)
  {
    if s == [] {
    } else if le(x, s[0]) {
      assert Insert(le, x, s)[1..] == s;
      InsertFirst(le, x, Filter(p, s)) by {
        FilterElements(p, s);
        assert forall y :: y in s ==> le(x, y);
      }
    } else {
      FilterInsert(le, p, x, s[1..]);
      assert Insert(le, x, s)[1..] == Insert(le, x, s[1..]);
      if p(s[0]) {
        assert Filter(p, s)[1..] == Filter(p, s[1..]);
      }
    }
  }

  lemma InsertFirst<T>(le: (T, T) -> bool, x: T, s: seq<T>)
    requires forall y | y in s :: le(x, y)
    ensures Insert(le, x, s) == [x] + s
  {
  }

  /** A stable sort commutes with filtering. */
  lemma {:induction false} FilterSort<T(!new)>(le: (T, T) -> bool, p: T -> bool, s: seq<T>)
    requires TotalPreorder(le)
    ensures Filter(p, Sort(le, s)) == Sort(le, Filter(p, s))
  {
    if s != [] {
      var rest := Sort(le, s[1..]);
      FilterSort(le, p, s[1..]);
      SortSorted(le, s[1..]);
      FilterInsert(le, p, s[0], rest);
      var kept := Filter(p, s[1..]);
      if p(s[0]) {
        assert Filter(p, s) == [s[0]] + kept;
        assert ([s[0]] + kept)[1..] == kept;
      }
    }
  }

  /** Where ties are impossible, the sorted permutation is unique. */
  lemma {:induction false} SortedUnique<T(!new)>(le: (T, T) -> bool, a: seq<T>, b: seq<T>)
    requires Sorted(le, a) && Sorted(le, b)
    requires multiset(a) == multiset(b)
    requires forall x, y | x in a && y in a :: le(x, y) && le(y, x) ==> x == y
    ensures a == b
  {
    if a == [] {
      assert |multiset(b)| == 0;
    } else {
      SameHead(le, a, b);
      SameTails(a, b);
      assert forall x | x in a[1..] :: x in a;
      SortedUnique(le, a[1..], b[1..]);
    }
  }

  lemma SameTails<T>(a: seq<T>, b: seq<T>)
    requires a != [] && b != [] && a[0] == b[0] && multiset(a) == multiset(b)
    ensures multiset(a[1..]) == multiset(b[1..])
    ensures a[1..] == b[1..] ==> a == b
  {
    assert a == [a[0]] + a[1..] && b == [b[0]] + b[1..];
    assert multiset(a[1..]) == multiset(a) - multiset{a[0]};
    assert multiset(b[1..]) == multiset(b) - multiset{b[0]};
  }

  lemma SameHead<T(!new)>(le: (T, T) -> bool, a: seq<T>, b: seq<T>)
    requires Sorted(le, a) && Sorted(le, b)
    requires multiset(a) == multiset(b) && a != []
    requires forall x, y | x in a && y in a :: le(x, y) && le(y, x) ==> x == y
    ensures |b| == |a| && b[0] == a[0]
  {
    assert |a| == |multiset(a)| == |multiset(b)| == |b|;
    assert a[0] in multiset(b) && b[0] in multiset(a);
    var i :| 0 <= i < |b| && b[i] == a[0];
    var j :| 0 <= j < |a| && a[j] == b[0];
    assert i == 0 || le(b[0], b[i]);
    assert j == 0 || le(a[0], a[j]);
  }

  /** Elements stand in the order a filter leaves them in. */
  lemma InFilterOrder<T(!new)>(p: T -> bool, t: seq<T>, x: T, y: T, i: nat, j: nat)
    requires NoDuplicates(t) && i < |t| && j < |t| && t[i] == x && t[j] == y && x != y
    requires Filter(p, t) == [x, y]
    ensures i < j
  {
    var before, after := t[..i], t[i..];
    assert t == before + after;
    FilterAppend(p, before, after);
    FilterElements(p, before);
    FilterElements(p, t);
    assert forall k | 0 <= k < |before| :: before[k] == t[k] != x;
    assert Filter(p, before) <= [x, y];
    assert Filter(p, before) == [];
    assert forall k | 0 <= k < i :: t[k] in before;
  }

  lemma TwoInOrder<T(!new)>(p: T -> bool, s: seq<T>, a: nat, b: nat)
    requires NoDuplicates(s) && a < b < |s| && forall z :: p(z) <==> z == s[a] || z == s[b]
    ensures Filter(p, s) == [s[a], s[b]]
  {
    var first, second, third := s[..a], s[a + 1..b], s[b + 1..];
    assert s == first + [s[a]] + second + [s[b]] + third;
    FilterAppend(p, first + [s[a]] + second + [s[b]], third);
    FilterAppend(p, first + [s[a]] + second, [s[b]]);
    FilterAppend(p, first + [s[a]], second);
    FilterAppend(p, first, [s[a]]);
    FilterNone(p, first);
    FilterNone(p, second);
    FilterNone(p, third);
    FilterAll(p, [s[a]]);
    FilterAll(p, [s[b]]);
  }

  /** Two elements in an order that the sort accepts keep that order. */
  lemma SortKeepsOrder<T(!new)>(le: (T, T) -> bool, s: seq<T>, a: nat, b: nat, i: nat, j: nat)
    requires TotalPreorder(le) && NoDuplicates(s) && a < b < |s| && le(s[a], s[b])
    requires i < |s| && j < |s| && Sort(le, s)[i] == s[a] && Sort(le, s)[j] == s[b]
    ensures i < j
  {
    var x, y, t := s[a], s[b], Sort(le, s);
    var p := (z: T) => z == x || z == y;
    TwoInOrder(p, s, a, b);
    FilterSort(le, p, s);
    assert Sort(le, [x, y]) == [x, y] by {
      SortFixesSorted(le, [x, y]);
    }
    RearrangedNoDuplicates(s, t);
    InFilterOrder(p, t, x, y, i, j);
  }
}
