/** The order schema of the storefront's server (backend/models/Order.js):
    an order line and an order as values, and the rules the schema enforces
    when an order is stored. Prices are integer cents; dates are
    milliseconds since the epoch. */
module OrderModel {
  import opened Common

  /** One purchased line. `product` is the referenced catalogue id, absent
      when the request omitted it. */
  datatype OrderItem = OrderItem(product: Option<string>, size: string, quantity: int, price: int)

  /** A stored order: its owner, its lines in request order, the total
      computed when it was created and the order date. */
  datatype Order = Order(user: string, items: seq<OrderItem>, totalPrice: int, orderDate: int)

  /** The line rules of the schema: a product reference is required, the
      size is one of S, M, L, XL, the quantity is at least 1 and the price
      at least 0. */
  predicate ValidItem(item: OrderItem)
  {
    && item.product.Some?
    && IsSize(item.size)
    && item.quantity >= 1
    && item.price >= 0
  }

  predicate ValidItems(items: seq<OrderItem>)
  {
    forall i :: 0 <= i < |items| ==> ValidItem(items[i])
  }

  /** The order rules of the schema: every line is valid and the required
      total is at least 0. (The owner is always supplied: it is the
      authenticated caller.) */
  predicate ValidOrder(order: Order)
  {
    ValidItems(order.items) && order.totalPrice >= 0
  }

  /** The `orderDate` the schema stores: the supplied date, or the creation
      time `now` when none was supplied. */
  function OrderDate(supplied: Option<int>, now: int): (d: int)
    ensures supplied.Some? ==> d == supplied.value
    ensures supplied.None? ==> d == now
  {
    if supplied.Some? then supplied.value else now
  }
}
