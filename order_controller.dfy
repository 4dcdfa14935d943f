/** The order handlers of the storefront's server
    (backend/controllers/order.controller.js): placing an order from the
    lines in the request body, and listing the caller's orders. The database
    is a sequence of stored orders passed in; the clock is the parameter
    `now`. */
module OrderController {
  import opened Common
  import opened OrderModel
  import Seqs

  /** What one line adds to an order's total. */
  function LineTotal(item: OrderItem): int
  {
    item.price * item.quantity
  }

  /** The reference sum of price times quantity over the lines. */
  function Sum(items: seq<OrderItem>): int
  {
    if items == [] then 0 else LineTotal(items[0]) + Sum(items[1..])
  }

  /** The running total of the handler's `reduce` over the lines, started
      from `acc`: each line adds its price times its quantity, so the fold
      ends at `acc` plus the reference sum. */
  function Fold(acc: int, items: seq<OrderItem>): (r: int)
    ensures r == acc + Sum(items)
    decreases items
  {
    if items == [] then acc else Fold(acc + LineTotal(items[0]), items[1..])
  }

  /** The total `createOrder` computes: the fold started from 0. It is the
      sum of price times quantity over the lines, and 0 for no lines. */
  function TotalPrice(items: seq<OrderItem>): (r: int)
    ensures r == Sum(items)
    ensures items == [] ==> r == 0
  {
    Fold(0, items)
  }

  lemma {:induction false} SumAppend(items: seq<OrderItem>, item: OrderItem)
    ensures Sum(items + [item]) == Sum(items) + LineTotal(item)
  {
    if items == [] {
      assert items + [item] == [item];
    } else {
      assert (items + [item])[1..] == items[1..] + [item];
      SumAppend(items[1..], item);
    }
  }

  /** Appending one line raises the total by that line's price times quantity. */
  lemma TotalAppend(items: seq<OrderItem>, item: OrderItem)
    ensures TotalPrice(items + [item]) == TotalPrice(items) + item.price * item.quantity
  {
    SumAppend(items, item);
  }

  lemma {:induction false} SumNonNegative(items: seq<OrderItem>)
    requires ValidItems(items)
    ensures Sum(items) >= 0
  {
    if items != [] {
      assert ValidItem(items[0]);
      SumNonNegative(items[1..]);
    }
  }

  /** When every line meets the schema, the total meets the schema's
      minimum of 0. */
  lemma TotalNonNegative(items: seq<OrderItem>)
    requires ValidItems(items)
    ensures TotalPrice(items) >= 0
  {
    SumNonNegative(items);
  }

  const CREATE_ERROR := "Server error creating order"

  /** `createOrder`: the caller `user` submits `body` (the `items` of the
      request body, absent when the body has none). The total is folded from
      the submitted lines; the order stores exactly those lines, with their
      submitted prices, owned by the caller and dated `now`. When the body
      has no items, or a line breaks the schema, storing fails and the
      handler answers with its server error. An empty list of lines is
      accepted. */
  function CreateOrder(user: string, body: Option<seq<OrderItem>>, now: int): (r: Result<Order>)
    ensures r.Success? <==> body.Some? && ValidItems(body.value)
    ensures r.Success? ==>
      && r.value.user == user
      && r.value.items == body.value
      && r.value.totalPrice == Sum(body.value)
      && r.value.orderDate == now
      && ValidOrder(r.value)
    ensures r.Failure? ==> r.error == CREATE_ERROR
  {
    if body.None? then Failure(CREATE_ERROR)
    else
      var items := body.value;
      var order := Order(user, items, TotalPrice(items), OrderDate(None, now));
      if ValidItems(items) then
        TotalNonNegative(items);
        Success(order)
      else Failure(CREATE_ERROR)
  }

  /** The query `{ user: user }`. */
  function OwnedBy(user: string): Order -> bool
  {
    (o: Order) => o.user == user
  }

  /** The sort key `{ orderDate: -1 }`. */
  function ByOrderDate(o: Order): int
  {
    o.orderDate
  }

  /** `getMyOrders`: the stored orders whose owner is the caller, newest
      order date first. */
  function MyOrders(orders: seq<Order>, user: string): (r: seq<Order>)
    ensures forall i :: 0 <= i < |r| ==> r[i].user == user
    ensures forall i :: 0 <= i < |orders| && orders[i].user == user ==> orders[i] in r
    ensures multiset(r) == multiset(Seqs.Filter(orders, OwnedBy(user)))
    ensures Seqs.SortedDesc(r, ByOrderDate)
  {
    var mine := Seqs.Filter(orders, OwnedBy(user));
    var r := Seqs.SortDesc(mine, ByOrderDate);
    OrderedKeepsMembers(mine, r);
    r
  }

  lemma OrderedKeepsMembers(mine: seq<Order>, r: seq<Order>)
    requires multiset(r) == multiset(mine)
    ensures forall i :: 0 <= i < |r| ==> r[i] in mine
    ensures forall i :: 0 <= i < |mine| ==> mine[i] in r
  {
    forall i | 0 <= i < |r| ensures r[i] in mine {
      assert r[i] in multiset(r);
    }
    forall i | 0 <= i < |mine| ensures mine[i] in r {
      assert mine[i] in multiset(mine);
    }
  }
}
