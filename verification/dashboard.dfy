/** The home dashboard: a delivery person sees order counts and the latest orders, an
    administrator sees sales, counts and the product list. */
module Dashboard {
  import opened Wrappers
  import Seqs
  import Orders
  import Products
  import Auth

  // ---------------------------------------------------------------------------
  // Counts
  // ---------------------------------------------------------------------------

  function HasStatus(status: Orders.OrderStatus): Orders.Order -> bool
  {
    (o: Orders.Order) => o.status == status
  }

  /** `orders?.filter(o => o.status === status).length ?? 0`: the number of listed orders
      with that status, 0 before the orders arrive. */
  function CountStatus(orders: Option<seq<Orders.Order>>, status: Orders.OrderStatus): (n: nat)
    ensures orders.None? ==> n == 0
    ensures orders.Some? ==> n == |set i | 0 <= i < |orders.value| && orders.value[i].status == status|
  {
    if orders.None? then 0
    else
      Seqs.FilterCountsPositions(orders.value, HasStatus(status));
      assert Seqs.Positions(orders.value, HasStatus(status))
          == set i | 0 <= i < |orders.value| && orders.value[i].status == status;
      |Seqs.Filter(orders.value, HasStatus(status))|
  }

  /** `orders?.length ?? 0`. */
  function CountAll(orders: Option<seq<Orders.Order>>): nat
  {
    if orders.None? then 0 else |orders.value|
  }

  /** The three status counts add up to the total, so the pending and delivered cards never
      show more orders than the total card. */
  lemma StatusCountsPartition(orders: Option<seq<Orders.Order>>)
    ensures CountStatus(orders, Orders.Pending) + CountStatus(orders, Orders.Delivered)
            + CountStatus(orders, Orders.Cancelled) == CountAll(orders)
    ensures CountStatus(orders, Orders.Pending) + CountStatus(orders, Orders.Delivered) <= CountAll(orders)
  {
    if orders.Some? {
      PartitionSeq(orders.value);
    }
  }

  lemma {:induction false} PartitionSeq(xs: seq<Orders.Order>)
    ensures |Seqs.Filter(xs, HasStatus(Orders.Pending))| + |Seqs.Filter(xs, HasStatus(Orders.Delivered))|
            + |Seqs.Filter(xs, HasStatus(Orders.Cancelled))| == |xs|
  {
    if |xs| > 0 {
      PartitionSeq(xs[1..]);
    }
  }

  // ---------------------------------------------------------------------------
  // Sales
  // ---------------------------------------------------------------------------

  /** The sum of the amounts, folded from the right. */
  function Sum(orders: seq<Orders.Order>, amount: Orders.Order -> int): int
  {
    if |orders| == 0 then 0 else amount(orders[0]) + Sum(orders[1..], amount)
  }

  /** `orders.reduce((sum, o) => sum + amount(o), acc)`: the fold from the left. */
  function Reduce(orders: seq<Orders.Order>, amount: Orders.Order -> int, acc: int): int
    decreases |orders|
  {
    if |orders| == 0 then acc else Reduce(orders[1..], amount, acc + amount(orders[0]))
  }

  /** The left fold the screen uses is the sum: the total does not depend on the order. */
  lemma {:induction false} ReduceIsSum(orders: seq<Orders.Order>, amount: Orders.Order -> int, acc: int)
    ensures Reduce(orders, amount, acc) == acc + Sum(orders, amount)
    decreases |orders|
  {
    if |orders| > 0 {
      ReduceIsSum(orders[1..], amount, acc + amount(orders[0]));
    }
  }

  /** Total sales: the sum of every order's amount, 0 before the orders arrive. */
  function TotalSales(orders: Option<seq<Orders.Order>>, amount: Orders.Order -> int): (total: int)
    ensures orders.None? ==> total == 0
    ensures orders.Some? ==> total == Sum(orders.value, amount)
  {
    if orders.None? then 0
    else
      ReduceIsSum(orders.value, amount, 0);
      Reduce(orders.value, amount, 0)
  }

  /** Sales over a list made of two parts are the sales of each part added up. */
  lemma {:induction false} SumAppend(a: seq<Orders.Order>, b: seq<Orders.Order>, amount: Orders.Order -> int)
    ensures Sum(a + b, amount) == Sum(a, amount) + Sum(b, amount)
  {
    if |a| > 0 {
      assert (a + b)[1..] == a[1..] + b;
      SumAppend(a[1..], b, amount);
    } else {
      assert a + b == b;
    }
  }

  // ---------------------------------------------------------------------------
  // Order cards
  // ---------------------------------------------------------------------------

  /** An order card: number, how many lines, the badge, the amount text. */
  datatype OrderCard = OrderCard(id: nat, itemCount: nat, badge: string, total: string)

  /** The badge: `Pendiente` for a pending order, `Entregado` for any other. */
  function StatusLabel(status: Orders.OrderStatus): (badge: string)
    ensures badge == "Pendiente" <==> status == Orders.Pending
    ensures badge == "Entregado" <==> status != Orders.Pending
  {
    if status == Orders.Pending then "Pendiente" else "Entregado"
  }

  function Card(o: Orders.Order): OrderCard
  {
    OrderCard(o.id, if o.items.Some? then |o.items.value| else 0, StatusLabel(o.status), o.totalAmount)
  }

  const RecentLimit := 5

  /** The cards: one per order among the first five, in list order. */
  function RecentCards(orders: seq<Orders.Order>): (cards: seq<OrderCard>)
    ensures |cards| == if |orders| < RecentLimit then |orders| else RecentLimit
    ensures forall i | 0 <= i < |cards| :: cards[i] == Card(orders[i])
  {
    var shown := if |orders| < RecentLimit then orders else orders[..RecentLimit];
    seq(|shown|, i requires 0 <= i < |shown| => Card(shown[i]))
  }

  /** Cards show the first orders of the list and no other: orders after the fifth never
      change the cards, and every card is the card of some listed order. */
  lemma RecentCardsAreFirstFive(a: seq<Orders.Order>, b: seq<Orders.Order>)
    ensures |a| >= RecentLimit ==> RecentCards(a + b) == RecentCards(a)
    ensures forall c | c in RecentCards(a) :: exists o | o in a :: c == Card(o)
  {
    forall c | c in RecentCards(a)
      ensures exists o | o in a :: c == Card(o)
    {
      var i :| 0 <= i < |RecentCards(a)| && RecentCards(a)[i] == c;
      assert a[i] in a;
    }
  }

  /** A cancelled order's badge reads the same as a delivered one's. */
  lemma CancelledBadgeReadsDelivered()
    ensures StatusLabel(Orders.Cancelled) == StatusLabel(Orders.Delivered)
  {
  }

  // ---------------------------------------------------------------------------
  // The two dashboards
  // ---------------------------------------------------------------------------

  datatype OrdersBody = OrdersSpinner | Cards(cards: seq<OrderCard>) | NoOrders

  datatype DeliveryView = DeliveryView(pending: nat, delivered: nat, total: nat, body: OrdersBody)

  function Delivery(isLoading: bool, orders: Option<seq<Orders.Order>>): (v: DeliveryView)
    ensures v.pending == CountStatus(orders, Orders.Pending)
    ensures v.delivered == CountStatus(orders, Orders.Delivered)
    ensures v.total == CountAll(orders)
    ensures v.body.OrdersSpinner? <==> isLoading
    ensures v.body.Cards? <==> !isLoading && orders.Some? && |orders.value| > 0
    ensures v.body.Cards? ==> v.body.cards == RecentCards(orders.value)
  {
    DeliveryView(CountStatus(orders, Orders.Pending), CountStatus(orders, Orders.Delivered), CountAll(orders),
      if isLoading then OrdersSpinner
      else if orders.Some? && |orders.value| > 0 then Cards(RecentCards(orders.value))
      else NoOrders)
  }

  datatype AdminView = AdminView(sales: int, pending: nat, productCount: nat, orderCount: nat,
                                 productList: Option<seq<Products.Product>>)

  function Admin(orders: Option<seq<Orders.Order>>, products: Option<seq<Products.Product>>,
                 amount: Orders.Order -> int): (v: AdminView)
    ensures v.sales == TotalSales(orders, amount) && v.pending == CountStatus(orders, Orders.Pending)
    ensures v.orderCount == CountAll(orders)
    ensures v.productCount == if products.None? then 0 else |products.value|
    ensures v.productList.Some? <==> products.Some? && |products.value| > 0
    ensures v.productList.Some? ==> v.productList.value == products.value
  {
    AdminView(TotalSales(orders, amount), CountStatus(orders, Orders.Pending),
      if products.None? then 0 else |products.value|, CountAll(orders),
      if products.Some? && |products.value| > 0 then products else None)
  }

  datatype Home = AdminHome | DeliveryHome

  /** Administrators get the administrator dashboard; everyone else — a delivery person, or
      nobody signed in — gets the delivery dashboard. */
  function HomeFor(user: Option<Auth.User>): (h: Home)
    ensures h == AdminHome <==> user.Some? && user.value.role == Auth.Admin
  {
    if user.Some? && user.value.role == Auth.Admin then AdminHome else DeliveryHome
  }
}
