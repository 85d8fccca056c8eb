/** The orders API (`useOrders`, `useCreateOrder`). An order is created by one request that
    carries its items inline; no total and no per-item price is sent. */
module Orders {
  import opened Wrappers
  import Restify

  datatype OrderStatus = Pending | Delivered | Cancelled

  datatype OrderItem = OrderItem(
    id: nat,
    orderId: nat,
    productId: nat,
    quantity: int,
    priceAtTime: string,
    createdAt: string,
    updatedAt: string)

  /** An order; `items` may be missing from what the backend sends. */
  datatype Order = Order(
    id: nat,
    clientId: nat,
    userId: nat,
    totalAmount: string,
    status: OrderStatus,
    items: Option<seq<OrderItem>>,
    createdAt: string)

  /** One line of the create request: a product and a quantity, nothing else. */
  datatype OrderItemInput = OrderItemInput(productId: nat, quantity: int)

  datatype CreateOrderInput = CreateOrderInput(clientId: nat, items: seq<OrderItemInput>)

  const OrdersPath := "restify/orders"

  function WithId(o: Order, id: nat): Order
  {
    o.(id := id)
  }

  /** The order list: one order per entry, in entry order, id from the envelope. */
  function NormaliseList<R>(entries: seq<Restify.Entry<Order, R>>): seq<Order>
  {
    Restify.Normalise(entries, WithId)
  }

  function IdOf(o: Order): nat { o.id }

  lemma ListRoundTrip<R>(os: seq<Order>)
    ensures NormaliseList(Restify.Wrap<Order, R>(os, IdOf, "orders")) == os
  {
    Restify.NormaliseWrap<Order, R>(os, IdOf, WithId, "orders");
  }

  /** The result of creating an order: the envelope's `data` node itself when present (its
      attributes are not unwrapped), else the body. */
  function UnwrapCreated(b: Restify.Body<Order>): (r: Restify.UnwrappedData<Order>)
    ensures r.DataNode? <==> b.data.Some?
    ensures r.DataNode? ==> r.node == b.data.value
    ensures r.WholeBody? ==> r.body == b
  {
    Restify.UnwrapData(b)
  }
}
