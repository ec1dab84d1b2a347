/**
  * The one piece of business logic: keep the orders above a size threshold
  * (LINQ `Where(order => order.Size > threshold)`) and order them by price
  * with a stable sort (LINQ `OrderBy(order => order.Price)`).
  */
module Selection {
  import opened OrderModel

  /** The size thresholds of the two operations: small orders are those
      with size above 10, large orders those with size above 100. */
  const SmallThreshold: int := 10
  const LargeThreshold: int := 100

  /** The orders of `s` whose size exceeds `threshold`, in their order in `s`. */
  function Where(s: seq<Order>, threshold: int): (r: seq<Order>)
    ensures |r| <= |s|
    ensures forall i :: 0 <= i < |r| ==> r[i].size > threshold
    ensures forall o :: o in r ==> o in s
  {
    if s == [] then []
    else if s[0].size > threshold then [s[0]] + Where(s[1..], threshold)
    else Where(s[1..], threshold)
  }

  /** The orders of `s` with price `p`, in their order in `s`. Two orders
      with equal prices keep their relative order exactly when this
      subsequence is preserved. */
  function WithPrice(s: seq<Order>, p: real): (r: seq<Order>)
  {
    if s == [] then []
    else if s[0].price == p then [s[0]] + WithPrice(s[1..], p)
    else WithPrice(s[1..], p)
  }

  predicate SortedByPrice(s: seq<Order>)
  {
    forall i, j :: 0 <= i < j < |s| ==> s[i].price <= s[j].price
  }

  /** Inserts `x` before the first order whose price is not below its own,
      so that `x` precedes every order of equal price. */
  function Insert(x: Order, s: seq<Order>): (r: seq<Order>)
    ensures multiset(r) == multiset(s) + multiset{x}
  {
    if s == [] || x.price <= s[0].price then [x] + s
    else
      assert s == [s[0]] + s[1..];
      [s[0]] + Insert(x, s[1..])
  }

  /** A stable insertion sort by ascending price, the semantics of
      `OrderBy(order => order.Price)`. */
  function SortByPrice(s: seq<Order>): (r: seq<Order>)
    ensures SortedByPrice(r)
    ensures multiset(r) == multiset(s)
  {
    if s == [] then []
    else
      assert s == [s[0]] + s[1..];
      var rest := SortByPrice(s[1..]);
      InsertSorted(s[0], rest);
      Insert(s[0], rest)
  }

  /** What both service operations hand to the writer: the orders above
      the threshold, ascending by price. Its full characterisation is
      SelectedIsPriceOrderedSelection and SelectedIsUnique below. */
  function Selected(s: seq<Order>, threshold: int): (r: seq<Order>)
    ensures |r| <= |s|
    ensures forall i :: 0 <= i < |r| ==> r[i].size > threshold
    ensures SortedByPrice(r)
  {
    var kept := Where(s, threshold);
    var sorted := SortByPrice(kept);
    assert |sorted| == |multiset(sorted)| == |multiset(kept)| == |kept|;
    assert forall i :: 0 <= i < |sorted| ==> sorted[i] in multiset(kept);
    sorted
  }

  /** What the source promises of the written sequence `r`, stated without
      reference to the sort: every order in it meets the size threshold,
      each store order meeting it occurs as often as in the store, it is
      ascending by price, and the orders of any one price appear as they do
      in the store. The last clause uses the filter `Where`, which WhereCount
      and WhereSnoc pin down. The first clause follows from the second; it
      is kept because it is the promise as the source's tests state it. */
  ghost predicate IsPriceOrderedSelection(s: seq<Order>, threshold: int, r: seq<Order>)
  {
    && (forall i :: 0 <= i < |r| ==> r[i].size > threshold)
    && (forall o :: multiset(r)[o] == if o.size > threshold then multiset(s)[o] else 0)
    && SortedByPrice(r)
    && (forall p :: WithPrice(r, p) == Where(WithPrice(s, p), threshold))
  }

  // ---------------------------------------------------------------------
  // The filter

  /** Every store order meeting the threshold is kept exactly as often as it
      occurs, and no other order is kept. */
  lemma {:induction false} WhereCount(s: seq<Order>, threshold: int, o: Order)
    ensures multiset(Where(s, threshold))[o] == if o.size > threshold then multiset(s)[o] else 0
  {
    if s != [] {
      assert s == [s[0]] + s[1..];
      WhereCount(s[1..], threshold, o);
    }
  }

  lemma {:induction false} WhereMembership(s: seq<Order>, threshold: int, o: Order)
    ensures o in Where(s, threshold) <==> o in s && o.size > threshold
  {
    WhereCount(s, threshold, o);
    assert o in Where(s, threshold) <==> multiset(Where(s, threshold))[o] > 0;
    assert o in s <==> multiset(s)[o] > 0;
  }

  /** Filtering one more order at the end extends the result by at most that
      order: the filter reads its input front to back. */
  lemma {:induction false} WhereSnoc(s: seq<Order>, o: Order, threshold: int)
    ensures Where(s + [o], threshold) == Where(s, threshold) + (if o.size > threshold then [o] else [])
  {
    if s != [] {
      assert (s + [o])[1..] == s[1..] + [o];
      WhereSnoc(s[1..], o, threshold);
    }
  }

  /** Filtering by size and selecting one price commute. */
  lemma {:induction false} WhereWithPriceCommute(s: seq<Order>, threshold: int, p: real)
    ensures WithPrice(Where(s, threshold), p) == Where(WithPrice(s, p), threshold)
  {
    if s != [] {
      WhereWithPriceCommute(s[1..], threshold, p);
    }
  }

  // ---------------------------------------------------------------------
  // The sort

  /** A sequence that starts with an order no dearer than any later one,
      followed by a sorted sequence, is sorted. */
  lemma PrependSorted(x: Order, s: seq<Order>)
    requires SortedByPrice(s)
    requires forall i :: 0 <= i < |s| ==> x.price <= s[i].price
    ensures SortedByPrice([x] + s)
  {
    var r := [x] + s;
    forall i, j | 0 <= i < j < |r|
      ensures r[i].price <= r[j].price
    {
      assert r[j] == s[j - 1];
      if i > 0 {
        assert r[i] == s[i - 1];
      }
    }
  }

  lemma {:induction false} InsertSorted(x: Order, s: seq<Order>)
    requires SortedByPrice(s)
    ensures SortedByPrice(Insert(x, s))
  {
    if s == [] || x.price <= s[0].price {
      PrependSorted(x, s);
    } else {
      var rest := Insert(x, s[1..]);
      assert SortedByPrice(s[1..]);
      InsertSorted(x, s[1..]);
      forall i | 0 <= i < |rest|
        ensures s[0].price <= rest[i].price
      {
        assert rest[i] in multiset(rest);
        assert rest[i] == x || rest[i] in multiset(s[1..]);
      }
      PrependSorted(s[0], rest);
    }
  }

  lemma {:induction false} WithPriceInsert(x: Order, s: seq<Order>, p: real)
    ensures WithPrice(Insert(x, s), p) == (if x.price == p then [x] else []) + WithPrice(s, p)
  {
    if s != [] && x.price > s[0].price {
      WithPriceInsert(x, s[1..], p);
    }
  }

  /** The sort is stable: the orders of any one price keep their order. */
  lemma {:induction false} SortByPriceStable(s: seq<Order>, p: real)
    ensures WithPrice(SortByPrice(s), p) == WithPrice(s, p)
  {
    if s != [] {
      SortByPriceStable(s[1..], p);
      WithPriceInsert(s[0], SortByPrice(s[1..]), p);
    }
  }

  /** A stable sort by price is determined by its input: two sequences that
      are both ascending by price, hold the same orders and agree on the
      order within each price are equal. */
  lemma {:induction false} StableSortUnique(a: seq<Order>, b: seq<Order>)
    requires SortedByPrice(a) && SortedByPrice(b)
    requires multiset(a) == multiset(b)
    requires forall p :: WithPrice(a, p) == WithPrice(b, p)
    ensures a == b
  {
    if a == [] {
      assert |multiset(b)| == 0;
    } else {
      SameFirstPrice(a, b);
      SameHead(a, b);
      TailsAgree(a, b);
      assert a == [a[0]] + a[1..];
      assert b == [b[0]] + b[1..];
      assert multiset(a[1..]) == multiset(a) - multiset{a[0]};
      assert multiset(b[1..]) == multiset(b) - multiset{b[0]};
      assert SortedByPrice(a[1..]) && SortedByPrice(b[1..]);
      StableSortUnique(a[1..], b[1..]);
    }
  }

  /** Sequences that agree on the orders of each price and start at the
      same price start with the same order. */
  lemma SameHead(a: seq<Order>, b: seq<Order>)
    requires a != [] && b != [] && a[0].price == b[0].price
    requires forall p :: WithPrice(a, p) == WithPrice(b, p)
    ensures a[0] == b[0]
  {
    var m := a[0].price;
    assert WithPrice(a, m) == [a[0]] + WithPrice(a[1..], m);
    assert WithPrice(b, m) == [b[0]] + WithPrice(b[1..], m);
    assert WithPrice(a, m) == WithPrice(b, m);
    assert WithPrice(a, m)[0] == a[0] && WithPrice(b, m)[0] == b[0];
  }

  /** Removing the same first order from two sequences keeps their
      agreement on the orders of each price. */
  lemma TailsAgree(a: seq<Order>, b: seq<Order>)
    requires a != [] && b != [] && a[0] == b[0]
    requires forall p :: WithPrice(a, p) == WithPrice(b, p)
    ensures forall p :: WithPrice(a[1..], p) == WithPrice(b[1..], p)
  {
    forall p
      ensures WithPrice(a[1..], p) == WithPrice(b[1..], p)
    {
      assert WithPrice(a, p) == WithPrice(b, p);
      if a[0].price == p {
        assert WithPrice(a[1..], p) == WithPrice(a, p)[1..];
        assert WithPrice(b[1..], p) == WithPrice(b, p)[1..];
      }
    }
  }

  /** Two sorted sequences holding the same orders start at the same price. */
  lemma SameFirstPrice(a: seq<Order>, b: seq<Order>)
    requires SortedByPrice(a) && SortedByPrice(b)
    requires multiset(a) == multiset(b)
    requires a != []
    ensures b != [] && a[0].price == b[0].price
  {
    assert a[0] in multiset(b);
    assert b != [];
    assert b[0] in multiset(a);
    var j :| 0 <= j < |b| && b[j] == a[0];
    var k :| 0 <= k < |a| && a[k] == b[0];
  }

  // ---------------------------------------------------------------------
  // The pipeline

  /** The sequence the service writes has every property the source
      promises of it. */
  lemma SelectedIsPriceOrderedSelection(s: seq<Order>, threshold: int)
    ensures IsPriceOrderedSelection(s, threshold, Selected(s, threshold))
  {
    var r := Selected(s, threshold);
    forall o: Order
      ensures multiset(r)[o] == if o.size > threshold then multiset(s)[o] else 0
    {
      WhereCount(s, threshold, o);
    }
    forall p
      ensures WithPrice(r, p) == Where(WithPrice(s, p), threshold)
    {
      SortByPriceStable(Where(s, threshold), p);
      WhereWithPriceCommute(s, threshold, p);
    }
  }

  /** ... and it is the only sequence with those properties. */
  lemma SelectedIsUnique(s: seq<Order>, threshold: int, r: seq<Order>)
    requires IsPriceOrderedSelection(s, threshold, r)
    ensures r == Selected(s, threshold)
  {
    var sel := Selected(s, threshold);
    SelectedIsPriceOrderedSelection(s, threshold);
    assert multiset(r) == multiset(sel) by {
      forall o: Order
        ensures multiset(r)[o] == multiset(sel)[o]
      {
      }
    }
    StableSortUnique(r, sel);
  }

  /** An order is written exactly when it is in the store and meets the
      threshold, whatever the threshold. */
  lemma SelectedMembership(s: seq<Order>, threshold: int, o: Order)
    ensures o in Selected(s, threshold) <==> o in s && o.size > threshold
  {
    WhereMembership(s, threshold, o);
    assert o in Selected(s, threshold) <==> o in multiset(Selected(s, threshold));
  }

  /** When no order meets the threshold the written sequence is empty. */
  lemma {:induction false} SelectedEmpty(s: seq<Order>, threshold: int)
    requires forall i :: 0 <= i < |s| ==> s[i].size <= threshold
    ensures Selected(s, threshold) == []
  {
    if s != [] {
      SelectedEmpty(s[1..], threshold);
    }
  }

  /** The scenarios of the service's unit tests: no order above the
      threshold gives the empty sequence; two orders above it arrive
      cheapest first. */
  lemma NoSmallOrdersScenario()
    ensures Selected([Order("", 0.0, 8), Order("", 0.0, 9), Order("", 0.0, 10)], SmallThreshold) == []
  {
    SelectedEmpty([Order("", 0.0, 8), Order("", 0.0, 9), Order("", 0.0, 10)], SmallThreshold);
  }

  lemma SomeSmallOrdersScenario()
    ensures Selected([Order("", 0.0, 10), Order("12", 12.0, 12), Order("11", 11.0, 11)], SmallThreshold)
         == [Order("11", 11.0, 11), Order("12", 12.0, 12)]
  {
    var s := [Order("", 0.0, 10), Order("12", 12.0, 12), Order("11", 11.0, 11)];
    assert Where(s[2..], SmallThreshold) == [s[2]];
    assert Where(s, SmallThreshold) == [s[1], s[2]];
  }

  lemma NoLargeOrdersScenario()
    ensures Selected([Order("", 0.0, 98), Order("", 0.0, 99), Order("", 0.0, 100)], LargeThreshold) == []
  {
    SelectedEmpty([Order("", 0.0, 98), Order("", 0.0, 99), Order("", 0.0, 100)], LargeThreshold);
  }

  lemma SomeLargeOrdersScenario()
    ensures Selected([Order("", 0.0, 100), Order("102", 102.0, 102), Order("101", 101.0, 101)], LargeThreshold)
         == [Order("101", 101.0, 101), Order("102", 102.0, 102)]
  {
    var s := [Order("", 0.0, 100), Order("102", 102.0, 102), Order("101", 101.0, 101)];
    assert Where(s[2..], LargeThreshold) == [s[2]];
    assert Where(s, LargeThreshold) == [s[1], s[2]];
  }
}
