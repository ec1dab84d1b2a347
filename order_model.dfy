/**
  * The entities both versions of the program share: the order record, the
  * order store that hands out the current orders, the order writer that
  * receives a finished sequence, and the .NET exceptions the program raises.
  */
module OrderModel {

  /** A trade order. Price is a floating-point number in the program; only
      its ordering matters here, so it is a real. */
  datatype Order = Order(symbol: string, price: real, size: int)

  /** The exceptions the modelled code can throw. */
  datatype Exception =
    | ArgumentException(message: string)
    | ArgumentOutOfRangeException(index: int)

  /** The order store: GetOrders returns the list it currently holds. */
  class OrderStore {
    var orders: seq<Order>

    constructor (orders: seq<Order>)
      ensures this.orders == orders
    {
      this.orders := orders;
    }

    method GetOrders() returns (r: seq<Order>)
      ensures r == orders
    {
      r := orders;
    }
  }

  /** The order writer, modelled as a recorder: every call to WriteOrders
      appends the sequence it receives to the log `written`. */
  class OrderWriter {
    ghost var written: seq<seq<Order>>

    constructor ()
      ensures written == []
    {
      written := [];
    }

    method WriteOrders(orders: seq<Order>)
      modifies this
      ensures written == old(written) + [orders]
    {
      written := written + [orders];
    }
  }
}
