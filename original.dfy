/**
  * The code before review: an OrderManager that builds a size filter per
  * call, a LargeOrderFilter whose threshold is text ("100"), a subclass
  * SmallOrderFilter that overrides it with "10", and the conversion
  * `toNumber` on Order. As written, the filter loop indexes one past the
  * end of the list, so no operation ever reaches the writer; and the price
  * ordering it computes is thrown away. Both defects are proved here, next
  * to corrected versions of the two methods.
  */
module Original {
  import opened Outcomes
  import opened OrderModel
  import opened Selection
  import opened Conversion

  /** The number `toNumber` yields for a text: the converted value, or 0
      when the conversion fails. */
  function ToInt32OrZero(input: string): (n: int)
    ensures ParseInt32(input).Some? ==> n == ParseInt32(input).value
    ensures ParseInt32(input).None? ==> n == 0
    ensures MinInt32 <= n <= MaxInt32
  {
    match ParseInt32(input)
    case Some(v) => v
    case None => 0
  }

  /** `Order.toNumber`: the conversion never throws; it returns the
      converted value when that is non-zero and 0 otherwise, which covers
      both a text converting to 0 and a text that does not convert. */
  method ToNumber(input: string) returns (n: int)
    ensures ParseInt32(input).Some? ==> n == ParseInt32(input).value
    ensures ParseInt32(input).None? ==> n == 0
  {
    var canBeConverted := false;
    n := 0;
    // Convert.ToInt32 inside try/catch: a failed conversion (None) is
    // swallowed and leaves n at its initial 0.
    var converted := ParseInt32(input);
    if converted.Some? {
      n := converted.value;
      if n != 0 {
        canBeConverted := true;
      }
    }
    if canBeConverted {
      return n;
    } else {
      return 0;
    }
  }

  /** The two threshold texts of the filters convert to the thresholds of
      the reviewed service. */
  lemma FilterThresholds()
    ensures ToInt32OrZero("100") == LargeThreshold
    ensures ToInt32OrZero("10") == SmallThreshold
  {
    assert FormatInt32(100) == "100";
    ParseFormatRoundTrip(100);
    assert FormatInt32(10) == "10";
    ParseFormatRoundTrip(10);
  }

  function Min(a: nat, b: nat): (m: nat)
  {
    if a <= b then a else b
  }

  /** LargeOrderFilter, together with its subclass SmallOrderFilter, which
      only differs in the threshold text its constructor leaves behind. */
  class LargeOrderFilter {
    var orderWriter: OrderWriter
    var orders: seq<Order>
    var filterSize: string

    constructor (orderWriter: OrderWriter, orders: seq<Order>)
      ensures this.orderWriter == orderWriter && this.orders == orders
      ensures filterSize == "100"
    {
      filterSize := "100";
      this.orderWriter := orderWriter;
      this.orders := orders;
    }

    /** The SmallOrderFilter constructor: the base constructor's body, then
        the threshold text overwritten with "10". */
    constructor Small(orderWriter: OrderWriter, orders: seq<Order>)
      ensures this.orderWriter == orderWriter && this.orders == orders
      ensures filterSize == "10"
    {
      filterSize := "100";
      this.orderWriter := orderWriter;
      this.orders := orders;
      filterSize := "10";
    }

    /** `FilterOrdersSmallerThan` as written. The loop runs while
        `i <= |allOrders|` and reads `orders[i]` (the field) before
        `allOrders[i]` (the argument), so it always reaches an index that is
        out of range for one of them and throws; it never returns a list. */
    method FilterOrdersSmallerThan(allOrders: seq<Order>, size: string)
      returns (r: Result<seq<Order>, Exception>)
      ensures r == Failure(ArgumentOutOfRangeException(Min(|orders|, |allOrders|)))
    {
      var filtered: seq<Order> := [];
      var i := 0;
      while i <= |allOrders|
        invariant i <= |allOrders| && i <= |orders|
      {
        if i >= |orders| {
          return Failure(ArgumentOutOfRangeException(i));
        }
        var number := ToNumber(size);
        if i >= |allOrders| {
          return Failure(ArgumentOutOfRangeException(i));
        }
        if allOrders[i].size <= number {
          i := i + 1;
          continue;
        } else {
          filtered := filtered + [orders[i]];
        }
        i := i + 1;
      }
      assert false;
    }

    /** The filter loop with the bound corrected to `i < |allOrders|` and
        every read taken from `allOrders`: it returns exactly the orders
        whose size exceeds the converted threshold, in their order. */
    method FilterOrdersSmallerThanFixed(allOrders: seq<Order>, size: string)
      returns (filtered: seq<Order>)
      ensures filtered == Where(allOrders, ToInt32OrZero(size))
    {
      filtered := [];
      var i := 0;
      while i < |allOrders|
        invariant i <= |allOrders|
        invariant filtered == Where(allOrders[..i], ToInt32OrZero(size))
      {
        var number := ToNumber(size);
        assert allOrders[..i + 1] == allOrders[..i] + [allOrders[i]];
        WhereSnoc(allOrders[..i], allOrders[i], number);
        if allOrders[i].size > number {
          filtered := filtered + [allOrders[i]];
        }
        i := i + 1;
      }
      assert allOrders[..i] == allOrders;
    }

    /** `WriteOutFiltrdAndPriceSortedOrders` as written: the filter is
        applied to the field `orders` (which is also the list it indexes),
        so it throws at index |orders| and the writer is never called. The
        rest of the method, lines that the throw makes unreachable, is
        ForwardFiltered below. */
    method WriteOutFiltrdAndPriceSortedOrders(writer: OrderWriter)
      returns (r: Outcome<Exception>)
      modifies writer
      ensures r == Fail(ArgumentOutOfRangeException(|orders|))
      ensures writer.written == old(writer.written)
    {
      var filteredOrders := FilterOrdersSmallerThan(orders, filterSize);
      match filteredOrders
      case Failure(e) => return Fail(e);
    }

    /** The remainder of `WriteOutFiltrdAndPriceSortedOrders`: the price
        ordering is computed and discarded, the filtered orders are copied
        one by one into a new collection and that copy is written, so the
        writer receives the filtered orders in their original order. */
    method ForwardFiltered(filteredOrders: seq<Order>, writer: OrderWriter)
      modifies writer
      ensures writer.written == old(writer.written) + [filteredOrders]
    {
      var discarded := SortByPrice(filteredOrders);
      var observableCollection: seq<Order> := [];
      for k := 0 to |filteredOrders|
        invariant observableCollection == filteredOrders[..k]
      {
        observableCollection := observableCollection + [filteredOrders[k]];
      }
      assert observableCollection == filteredOrders;
      writer.WriteOrders(observableCollection);
    }

    /** `WriteOutFiltrdAndPriceSortedOrders` with only the loop bound
        corrected: the filter now returns, and the remaining lines write the
        filtered orders in their store order, not by price. */
    method WriteOutWithCorrectedBound(writer: OrderWriter)
      modifies writer
      ensures writer.written == old(writer.written) + [Where(orders, ToInt32OrZero(filterSize))]
    {
      var filteredOrders := FilterOrdersSmallerThanFixed(orders, filterSize);
      ForwardFiltered(filteredOrders, writer);
    }

    /** `WriteOutFiltrdAndPriceSortedOrders` with both defects corrected:
        the filter loop stays in range and the price ordering is what is
        written. */
    method WriteOutFiltrdAndPriceSortedOrdersFixed(writer: OrderWriter)
      modifies writer
      ensures writer.written == old(writer.written) + [Selected(orders, ToInt32OrZero(filterSize))]
    {
      var filteredOrders := FilterOrdersSmallerThanFixed(orders, filterSize);
      var sorted := SortByPrice(filteredOrders);
      writer.WriteOrders(sorted);
    }
  }

  /** The contrast with the reviewed service on the input of
      DiscardedOrderByExample, which proves the unsorted write itself: the
      two orders pass the small-order filter in store order, out of price
      order, while the reviewed service's selection reverses them. */
  lemma DiscardedOrderByLeavesPriceOrder()
    ensures var orders := [Order("A", 2.0, 20), Order("B", 1.0, 15)];
      && Where(orders, SmallThreshold) == orders
      && !SortedByPrice(Where(orders, SmallThreshold))
      && Selected(orders, SmallThreshold) == [orders[1], orders[0]]
  {
    var orders := [Order("A", 2.0, 20), Order("B", 1.0, 15)];
    assert orders[1..] == [orders[1]];
    assert Where(orders[1..], SmallThreshold) == [orders[1]];
    assert Where(orders, SmallThreshold) == orders;
    assert orders[0].price > orders[1].price;
    assert SortByPrice(orders[1..]) == [orders[1]];
    assert Insert(orders[0], [orders[1]]) == [orders[1], orders[0]];
  }

  /** With the loop bound corrected, a SmallOrderFilter over orders of
      (size 20, price 2) then (size 15, price 1) writes them in that order,
      which is not ascending by price. */
  method DiscardedOrderByExample(writer: OrderWriter)
    modifies writer
    ensures |writer.written| > 0
    ensures writer.written[|writer.written| - 1] == [Order("A", 2.0, 20), Order("B", 1.0, 15)]
    ensures !SortedByPrice(writer.written[|writer.written| - 1])
  {
    var orders := [Order("A", 2.0, 20), Order("B", 1.0, 15)];
    var filterWriter := new OrderWriter();
    var filter := new LargeOrderFilter.Small(filterWriter, orders);
    FilterThresholds();
    assert Where(orders, SmallThreshold) == orders;
    filter.WriteOutWithCorrectedBound(writer);
    assert orders[0].price > orders[1].price;
  }

  class OrderManager {
    const orderStore: OrderStore

    constructor (orderStore: OrderStore)
      ensures this.orderStore == orderStore
    {
      this.orderStore := orderStore;
    }

    /** Always throws the out-of-range exception of the filter loop, at the
        index equal to the number of stored orders. */
    method WriteOutSmallOrders() returns (r: Outcome<Exception>)
      ensures r == Fail(ArgumentOutOfRangeException(|orderStore.orders|))
    {
      var orders := orderStore.GetOrders();
      var filterWriter := new OrderWriter();
      var filter := new LargeOrderFilter.Small(filterWriter, orders);
      var writer := new OrderWriter();
      r := filter.WriteOutFiltrdAndPriceSortedOrders(writer);
    }

    /** The same with the large-order filter. */
    method WriteOutLargeOrders() returns (r: Outcome<Exception>)
      ensures r == Fail(ArgumentOutOfRangeException(|orderStore.orders|))
    {
      var orders := orderStore.GetOrders();
      var filterWriter := new OrderWriter();
      var filter := new LargeOrderFilter(filterWriter, orders);
      var writer := new OrderWriter();
      r := filter.WriteOutFiltrdAndPriceSortedOrders(writer);
    }
  }
}
