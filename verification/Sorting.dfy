/** A stable sort by a strict order, as JavaScript's Array.prototype.sort promises, and what its callers rely on. */
module Sorting {

  function Insert<T(==)>(x: T, sorted: seq<T>, less: (T, T) -> bool): (r: seq<T>)
    ensures multiset(r) == multiset(sorted) + multiset{x}
  {
    if sorted == [] then [x]
    else if less(x, sorted[0]) then [x] + sorted
    else
      assert sorted == [sorted[0]] + sorted[1..];
      [sorted[0]] + Insert(x, sorted[1..], less)
  }

  function Sort<T(==)>(items: seq<T>, less: (T, T) -> bool): (r: seq<T>)
    ensures multiset(r) == multiset(items)
  {
    if items == [] then []
    else
      assert items == items[..|items| - 1] + [items[|items| - 1]];
      Insert(items[|items| - 1], Sort(items[..|items| - 1], less), less)
  }

  predicate Sorted<T>(items: seq<T>, less: (T, T) -> bool) {
    forall i, j :: 0 <= i < j < |items| ==> less(items[i], items[j])
  }

  predicate Distinct<T(==)>(items: seq<T>) {
    forall i, j :: 0 <= i < j < |items| ==> items[i] != items[j]
  }

  /** `less` orders every two different items, and orders them transitively. */
  predicate Total<T(==)>(less: (T, T) -> bool, items: set<T>) {
    && (forall x, y | x in items && y in items :: x != y ==> less(x, y) || less(y, x))
    && (forall x, y, z | x in items && y in items && z in items :: less(x, y) && less(y, z) ==> less(x, z))
  }

  predicate Asymmetric<T(==)>(less: (T, T) -> bool, items: set<T>) {
    forall x, y | x in items && y in items :: !(less(x, y) && less(y, x))
  }

  lemma Contents<T>(items: seq<T>, sorted: seq<T>, x: T)
    requires multiset(items) == multiset(sorted)
    ensures x in items <==> x in sorted
  {
    assert x in items <==> x in multiset(items);
  }

  lemma {:induction false} InsertSorts<T>(x: T, sorted: seq<T>, less: (T, T) -> bool, all: set<T>)
    requires Total(less, all) && x in all && Sorted(sorted, less) && x !in sorted
    requires forall y :: y in sorted ==> y in all
    ensures Sorted(Insert(x, sorted, less), less)
  {
    if sorted != [] {
      var rest := sorted[1..];
      assert sorted[0] in sorted;
      if less(x, sorted[0]) {
        forall j | 0 <= j < |sorted| ensures less(x, sorted[j]) {
          assert sorted[j] in sorted;
        }
      } else {
        InsertSorts(x, rest, less, all);
        var r := Insert(x, rest, less);
        forall j | 0 <= j < |r| ensures less(sorted[0], r[j]) {
          assert r[j] in multiset(r);
          assert r[j] == x || r[j] in rest;
        }
      }
    }
  }

  lemma SortKeeps<T>(items: seq<T>, less: (T, T) -> bool)
    ensures |Sort(items, less)| == |items|
    ensures forall x :: x in Sort(items, less) <==> x in items
  {
    forall x ensures x in Sort(items, less) <==> x in items { Contents(items, Sort(items, less), x); }
    assert |multiset(items)| == |multiset(Sort(items, less))|;
  }

  /** Distinct items come out strictly sorted. */
  lemma {:induction false} SortSorts<T>(items: seq<T>, less: (T, T) -> bool, all: set<T>)
    requires Distinct(items) && Total(less, all) && forall x :: x in items ==> x in all
    ensures Sorted(Sort(items, less), less)
  {
    if items != [] {
      var front, last := items[..|items| - 1], items[|items| - 1];
      assert forall x :: x in front ==> x in items;
      SortSorts(front, less, all);
      SortKeeps(front, less);
      assert last in items;
      assert last !in front;
      assert Sorted(Sort(front, less), less);
      assert forall y :: y in Sort(front, less) ==> y in all;
      InsertSorts(last, Sort(front, less), less, all);
    }
  }

  lemma HeadOnce<T>(items: seq<T>, less: (T, T) -> bool)
    requires items != [] && Sorted(items, less) && Asymmetric(less, set x | x in items)
    ensures forall x :: x in items <==> x == items[0] || x in items[1..]
    ensures items[0] !in items[1..]
  {
    assert items == [items[0]] + items[1..];
    assert items[0] in items;
  }

  lemma Inhabited<T>(items: seq<T>)
    ensures items == [] || exists x :: x in items
  {
    if items != [] { assert items[0] in items; }
  }

  /** A strictly sorted list is determined by its contents. */
  lemma {:induction false} SortedUnique<T>(left: seq<T>, right: seq<T>, less: (T, T) -> bool)
    requires Sorted(left, less) && Sorted(right, less) && Asymmetric(less, set x | x in left)
    requires forall x :: x in left <==> x in right
    ensures left == right
  {
    if left == [] {
      Inhabited(right);
    } else {
      Inhabited(left);
      assert left[0] in right && right[0] in left;
      assert (set x | x in left) == (set x | x in right);
      assert left[0] == right[0];
      HeadOnce(left, less);
      HeadOnce(right, less);
      SortedUnique(left[1..], right[1..], less);
      assert left == [left[0]] + left[1..] && right == [right[0]] + right[1..];
    }
  }

  // ----- orders with ties -----

  /** Nothing is before itself, and whatever is between two ordered items is ordered against one of them. */
  predicate WeakOrder<T(==)>(less: (T, T) -> bool, items: set<T>) {
    && Asymmetric(less, items)
    && forall x, y, z | x in items && y in items && z in items :: less(x, y) ==> less(x, z) || less(z, y)
  }

  predicate NonDescending<T>(items: seq<T>, less: (T, T) -> bool) {
    forall i, j :: 0 <= i < j < |items| ==> !less(items[j], items[i])
  }

  predicate Tie<T>(x: T, y: T, less: (T, T) -> bool) { !less(x, y) && !less(y, x) }

  function Ties<T>(items: seq<T>, x: T, less: (T, T) -> bool): seq<T> {
    if items == [] then []
    else Ties(items[..|items| - 1], x, less)
         + if Tie(items[|items| - 1], x, less) then [items[|items| - 1]] else []
  }

  lemma {:induction false} InsertOrders<T>(x: T, sorted: seq<T>, less: (T, T) -> bool, all: set<T>)
    requires WeakOrder(less, all) && x in all && NonDescending(sorted, less) && forall y :: y in sorted ==> y in all
    ensures NonDescending(Insert(x, sorted, less), less)
  {
    if sorted != [] {
      var rest := sorted[1..];
      assert sorted[0] in sorted;
      if less(x, sorted[0]) {
        forall j | 0 <= j < |sorted| ensures !less(sorted[j], x) { assert sorted[j] in sorted; }
      } else {
        InsertOrders(x, rest, less, all);
        var r := Insert(x, rest, less);
        forall j | 0 <= j < |r| ensures !less(r[j], sorted[0]) {
          assert r[j] in multiset(r);
          assert r[j] == x || r[j] in rest;
        }
      }
    }
  }

  lemma {:induction false} TiesConcat<T>(a: seq<T>, b: seq<T>, x: T, less: (T, T) -> bool)
    ensures Ties(a + b, x, less) == Ties(a, x, less) + Ties(b, x, less)
  {
    if b == [] {
      assert a + b == a;
    } else {
      assert (a + b)[..|a + b| - 1] == a + b[..|b| - 1];
      TiesConcat(a, b[..|b| - 1], x, less);
    }
  }

  lemma {:induction false} NoTies<T>(items: seq<T>, x: T, less: (T, T) -> bool)
    requires forall y :: y in items ==> !Tie(y, x, less)
    ensures Ties(items, x, less) == []
  {
    if items != [] {
      assert items[|items| - 1] in items;
      NoTies(items[..|items| - 1], x, less);
    }
  }

  /** An item that goes before the first of a list ties with nothing in it. */
  lemma AheadTies<T>(x: T, sorted: seq<T>, less: (T, T) -> bool, all: set<T>, k: T)
    requires WeakOrder(less, all) && x in all && k in all && NonDescending(sorted, less)
    requires forall y :: y in sorted ==> y in all
    requires sorted != [] && less(x, sorted[0])
    ensures Ties([x] + sorted, k, less) == Ties(sorted, k, less) + Ties([x], k, less)
  {
    TiesConcat([x], sorted, k, less);
    assert sorted[0] in sorted;
    if Tie(x, k, less) {
      forall y | y in sorted ensures !Tie(y, k, less) {
        var j :| 0 <= j < |sorted| && sorted[j] == y;
        assert less(x, y);
      }
      NoTies(sorted, k, less);
    } else {
      NoTies([x], k, less);
    }
  }

  /** A new item goes behind all it ties with. */
  lemma {:induction false} InsertTies<T>(x: T, sorted: seq<T>, less: (T, T) -> bool, all: set<T>, k: T)
    requires WeakOrder(less, all) && x in all && k in all && NonDescending(sorted, less)
    requires forall y :: y in sorted ==> y in all
    ensures Ties(Insert(x, sorted, less), k, less) == Ties(sorted, k, less) + Ties([x], k, less)
  {
    if sorted == [] {
      assert Ties(sorted, k, less) + Ties([x], k, less) == Ties([x], k, less);
    } else if less(x, sorted[0]) {
      AheadTies(x, sorted, less, all, k);
    } else {
      var rest := sorted[1..];
      InsertTies(x, rest, less, all, k);
      HeadTies(sorted[0], rest, Insert(x, rest, less), x, less, k);
      assert sorted == [sorted[0]] + rest;
    }
  }

  lemma HeadTies<T>(head: T, rest: seq<T>, inserted: seq<T>, x: T, less: (T, T) -> bool, k: T)
    requires Ties(inserted, k, less) == Ties(rest, k, less) + Ties([x], k, less)
    ensures Ties([head] + inserted, k, less) == Ties([head] + rest, k, less) + Ties([x], k, less)
  {
    TiesConcat([head], rest, k, less);
    TiesConcat([head], inserted, k, less);
    var a, b, c := Ties([head], k, less), Ties(rest, k, less), Ties([x], k, less);
    assert (a + b) + c == a + (b + c);
  }

  /** No later item is before an earlier one, and the items that tie with `k` are in the order of `items`. */
  predicate OrderedAs<T(==)>(sorted: seq<T>, items: seq<T>, less: (T, T) -> bool, k: T) {
    NonDescending(sorted, less) && Ties(sorted, k, less) == Ties(items, k, less)
  }

  lemma SortSnoc<T>(front: seq<T>, last: T, less: (T, T) -> bool)
    ensures Sort(front + [last], less) == Insert(last, Sort(front, less), less)
  {
    assert (front + [last])[..|front|] == front;
  }

  /** Sorting orders the items, and leaves those that tie in their order. */
  lemma {:induction false} SortOrders<T>(items: seq<T>, less: (T, T) -> bool, all: set<T>, k: T)
    requires WeakOrder(less, all) && k in all && forall x :: x in items ==> x in all
    ensures OrderedAs(Sort(items, less), items, less, k)
  {
    if items != [] {
      var front, last := items[..|items| - 1], items[|items| - 1];
      assert items == front + [last];
      FrontWithin(items, all);
      SortOrders(front, less, all, k);
      SortOrdersLast(front, last, less, all, k);
    }
  }

  lemma SortOrdersLast<T>(front: seq<T>, last: T, less: (T, T) -> bool, all: set<T>, k: T)
    requires WeakOrder(less, all) && k in all && last in all && forall x :: x in front ==> x in all
    requires OrderedAs(Sort(front, less), front, less, k)
    ensures OrderedAs(Sort(front + [last], less), front + [last], less, k)
  {
    SortWithin(front, less, all);
    LastOrders(front, last, Sort(front, less), less, all, k);
    SortSnoc(front, last, less);
  }

  lemma FrontWithin<T>(items: seq<T>, all: set<T>)
    requires items != [] && forall x :: x in items ==> x in all
    ensures forall x :: x in items[..|items| - 1] ==> x in all
    ensures items[|items| - 1] in all
  {
    assert items[|items| - 1] in items;
  }

  lemma SortWithin<T>(items: seq<T>, less: (T, T) -> bool, all: set<T>)
    requires forall x :: x in items ==> x in all
    ensures forall x :: x in Sort(items, less) ==> x in all
  {
    forall x | x in Sort(items, less) ensures x in all { Contents(items, Sort(items, less), x); }
  }

  lemma LastOrders<T>(front: seq<T>, last: T, sorted: seq<T>, less: (T, T) -> bool, all: set<T>, k: T)
    requires WeakOrder(less, all) && k in all && last in all && OrderedAs(sorted, front, less, k)
    requires forall y :: y in sorted ==> y in all
    ensures OrderedAs(Insert(last, sorted, less), front + [last], less, k)
  {
    InsertOrders(last, sorted, less, all);
    InsertTies(last, sorted, less, all, k);
    TiesConcat(front, [last], k, less);
  }
}
