/**
  * The reviewed service: it reads the current orders from its store, keeps
  * the small (size above 10) or large (size above 100) ones, orders them by
  * price and hands the result to its writer, once per call.
  */
module Services {
  import opened Outcomes
  import opened OrderModel
  import opened Selection

  class OrdersService {
    const orderStore: OrderStore
    const orderWriter: OrderWriter

    constructor (orderStore: OrderStore, orderWriter: OrderWriter)
      ensures this.orderStore == orderStore && this.orderWriter == orderWriter
    {
      this.orderStore := orderStore;
      this.orderWriter := orderWriter;
    }

    /** The public constructor with its null guards: a missing store is
        reported first, then a missing writer; otherwise both are kept as
        given. */
    static method Create(orderStore: OrderStore?, orderWriter: OrderWriter?)
      returns (r: Result<OrdersService, Exception>)
      ensures orderStore == null ==> r == Failure(ArgumentException("orderStore"))
      ensures orderStore != null && orderWriter == null ==> r == Failure(ArgumentException("orderWriter"))
      ensures orderStore != null && orderWriter != null ==>
        && r.Success?
        && fresh(r.value)
        && r.value.orderStore == orderStore
        && r.value.orderWriter == orderWriter
    {
      if orderStore == null {
        return Failure(ArgumentException("orderStore"));
      }
      if orderWriter == null {
        return Failure(ArgumentException("orderWriter"));
      }
      var service := new OrdersService(orderStore, orderWriter);
      r := Success(service);
    }

    /** Writes the orders of size above 10, ascending by price: exactly one
        call to the writer, whose argument is the selection of the store's
        current orders; the store is left as it was. */
    method WriteOutSmallOrders()
      modifies orderWriter
      ensures orderWriter.written == old(orderWriter.written) + [Selected(orderStore.orders, SmallThreshold)]
      ensures orderStore.orders == old(orderStore.orders)
      ensures IsPriceOrderedSelection(orderStore.orders, SmallThreshold, orderWriter.written[|orderWriter.written| - 1])
    {
      var orders := orderStore.GetOrders();
      var filteredOrders := Selected(orders, SmallThreshold);
      SelectedIsPriceOrderedSelection(orders, SmallThreshold);
      orderWriter.WriteOrders(filteredOrders);
    }

    /** Writes the orders of size above 100, ascending by price, in the same
        way. */
    method WriteOutLargeOrders()
      modifies orderWriter
      ensures orderWriter.written == old(orderWriter.written) + [Selected(orderStore.orders, LargeThreshold)]
      ensures orderStore.orders == old(orderStore.orders)
      ensures IsPriceOrderedSelection(orderStore.orders, LargeThreshold, orderWriter.written[|orderWriter.written| - 1])
    {
      var orders := orderStore.GetOrders();
      var filteredOrders := Selected(orders, LargeThreshold);
      SelectedIsPriceOrderedSelection(orders, LargeThreshold);
      orderWriter.WriteOrders(filteredOrders);
    }
  }
}
