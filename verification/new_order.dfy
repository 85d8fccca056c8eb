/** The new-order screen: a three-step wizard (client, products, checkout) around a cart of
    order lines, and the single create-order request it submits. */
module NewOrder {
  import opened Wrappers
  import Seqs
  import Products
  import Clients
  import Orders
  import Gateway

  // ---------------------------------------------------------------------------
  // The cart
  // ---------------------------------------------------------------------------

  /** One cart line; `product` is the snapshot taken when the line was created, and its
      price is the one the total uses. */
  datatype CartLine = CartLine(productId: nat, quantity: int, product: Products.Product)

  type Cart = seq<CartLine>

  /** Position of the first line for `productId` (`prev.find(...)`). */
  function FindLine(cart: Cart, productId: nat): (r: Option<nat>)
    ensures r.Some? ==> r.value < |cart| && cart[r.value].productId == productId
    ensures r.Some? ==> forall j | 0 <= j < r.value :: cart[j].productId != productId
    ensures r.None? ==> forall j | 0 <= j < |cart| :: cart[j].productId != productId
  {
    if |cart| == 0 then None
    else if cart[0].productId == productId then Some(0)
    else match FindLine(cart[1..], productId)
      case Some(k) => Some(k + 1)
      case None => None
  }

  predicate HasLine(cart: Cart, productId: nat)
  {
    FindLine(cart, productId).Some?
  }

  /** The quantity shown next to a product: its line's quantity, or 0 without a line. */
  function DisplayedQuantity(cart: Cart, productId: nat): int
  {
    match FindLine(cart, productId)
    case Some(k) => cart[k].quantity
    case None => 0
  }

  /** What the screen maintains: every line has a positive quantity, and no two lines are
      for the same product. */
  predicate WellFormed(cart: Cart)
  {
    && (forall i | 0 <= i < |cart| :: cart[i].quantity >= 1)
    && (forall i, j | 0 <= i < j < |cart| :: cart[i].productId != cart[j].productId)
  }

  function SetQuantity(cart: Cart, productId: nat, quantity: int): (r: Cart)
    ensures |r| == |cart|
    ensures forall i | 0 <= i < |r| ::
      r[i] == if cart[i].productId == productId then cart[i].(quantity := quantity) else cart[i]
  {
    seq(|cart|, i requires 0 <= i < |cart| =>
      if cart[i].productId == productId then cart[i].(quantity := quantity) else cart[i])
  }

  function Without(cart: Cart, productId: nat): Cart
  {
    Seqs.Filter(cart, (l: CartLine) => l.productId != productId)
  }

  /** `updateQuantity(productId, delta, product)`: adjust an existing line and drop it when
      its quantity falls to 0 or below; for a product without a line, a positive delta
      appends a line of quantity 1 whatever the delta, anything else changes nothing. */
  function UpdateQuantity(cart: Cart, productId: nat, delta: int, product: Products.Product): (r: Cart)
    ensures forall i | 0 <= i < |r| :: r[i].productId != productId ==> r[i] in cart
    ensures |r| <= |cart| + 1
  {
    match FindLine(cart, productId)
    case Some(k) =>
      var newQuantity := cart[k].quantity + delta;
      if newQuantity <= 0 then Without(cart, productId)
      else SetQuantity(cart, productId, newQuantity)
    case None =>
      if delta > 0 then cart + [CartLine(productId, 1, product)] else cart
  }

  /** `totalAmount`: the sum of quantity times unit price over the lines. */
  function Total(cart: Cart): int
  {
    if |cart| == 0 then 0 else LineAmount(cart[0]) + Total(cart[1..])
  }

  function LineAmount(l: CartLine): int
  {
    l.quantity * l.product.salePrice
  }

  // ---------------------------------------------------------------------------
  // Properties of the cart
  // ---------------------------------------------------------------------------

  lemma {:induction false} WithoutRemovesOnlyThatProduct(cart: Cart, productId: nat)
    ensures forall i | 0 <= i < |Without(cart, productId)| :: Without(cart, productId)[i].productId != productId
    ensures Seqs.IsSubsequence(Without(cart, productId), cart)
  {
    Seqs.FilterIsSubsequence(cart, (l: CartLine) => l.productId != productId);
  }

  /** The cart invariant holds after every update of a well-formed cart (and so, from the
      empty cart, after any sequence of updates). */
  lemma UpdatePreservesWellFormed(cart: Cart, productId: nat, delta: int, product: Products.Product)
    requires WellFormed(cart)
    ensures WellFormed(UpdateQuantity(cart, productId, delta, product))
  {
    var r := UpdateQuantity(cart, productId, delta, product);
    match FindLine(cart, productId)
    case Some(k) =>
      if cart[k].quantity + delta <= 0 {
        WithoutRemovesOnlyThatProduct(cart, productId);
        SubsequenceKeepsWellFormed(r, cart);
      }
    case None =>
  }

  lemma {:induction false} SubsequenceKeepsWellFormed(xs: Cart, ys: Cart)
    requires WellFormed(ys) && Seqs.IsSubsequence(xs, ys)
    ensures WellFormed(xs)
    decreases |ys|
  {
    if |xs| > 0 {
      assert |ys| > 0;
      assert WellFormed(ys[1..]);
      if xs[0] == ys[0] && Seqs.IsSubsequence(xs[1..], ys[1..]) {
        SubsequenceKeepsWellFormed(xs[1..], ys[1..]);
        SubsequenceMembers(xs[1..], ys[1..]);
        forall j | 0 < j < |xs|
          ensures xs[0].productId != xs[j].productId
        {
          assert xs[1..][j - 1] in ys[1..];
        }
      } else {
        SubsequenceKeepsWellFormed(xs, ys[1..]);
      }
    }
  }

  lemma {:induction false} SubsequenceMembers(xs: Cart, ys: Cart)
    requires Seqs.IsSubsequence(xs, ys)
    ensures forall i | 0 <= i < |xs| :: xs[i] in ys
    decreases |ys|
  {
    if |xs| > 0 {
      if xs[0] == ys[0] && Seqs.IsSubsequence(xs[1..], ys[1..]) {
        SubsequenceMembers(xs[1..], ys[1..]);
        forall i | 0 < i < |xs|
          ensures xs[i] in ys
        {
          assert xs[1..][i - 1] in ys[1..];
        }
      } else {
        SubsequenceMembers(xs, ys[1..]);
      }
    }
  }

  /** What the product card shows after an update: for the updated product the old quantity
      plus the delta, or 0 once the line is gone; a first increment shows 1, a decrement of
      an absent product shows 0; every other product shows what it showed before. */
  lemma UpdateDisplayedQuantity(cart: Cart, productId: nat, delta: int, product: Products.Product, other: nat)
    requires WellFormed(cart)
    ensures var r := UpdateQuantity(cart, productId, delta, product);
      && (other != productId ==> DisplayedQuantity(r, other) == DisplayedQuantity(cart, other))
      && (HasLine(cart, productId) ==>
            DisplayedQuantity(r, productId)
              == if DisplayedQuantity(cart, productId) + delta > 0
                 then DisplayedQuantity(cart, productId) + delta else 0)
      && (!HasLine(cart, productId) ==>
            DisplayedQuantity(r, productId) == if delta > 0 then 1 else 0)
  {
    var r := UpdateQuantity(cart, productId, delta, product);
    match FindLine(cart, productId)
    case Some(k) =>
      if cart[k].quantity + delta <= 0 {
        FindInWithout(cart, productId, other);
        FindInWithout(cart, productId, productId);
      } else {
        FindInSetQuantity(cart, productId, cart[k].quantity + delta, other);
        FindInSetQuantity(cart, productId, cart[k].quantity + delta, productId);
      }
    case None =>
      if delta > 0 {
        FindInAppend(cart, CartLine(productId, 1, product), other);
        FindInAppend(cart, CartLine(productId, 1, product), productId);
      }
  }

  lemma {:induction false} FindInWithout(cart: Cart, productId: nat, other: nat)
    ensures other != productId ==> DisplayedQuantity(Without(cart, productId), other) == DisplayedQuantity(cart, other)
    ensures other == productId ==> DisplayedQuantity(Without(cart, productId), other) == 0
  {
    var keep := (l: CartLine) => l.productId != productId;
    if |cart| > 0 {
      FindInWithout(cart[1..], productId, other);
      if keep(cart[0]) {
        assert Without(cart, productId) == [cart[0]] + Without(cart[1..], productId);
        assert ([cart[0]] + Without(cart[1..], productId))[1..] == Without(cart[1..], productId);
      } else {
        assert Without(cart, productId) == Without(cart[1..], productId);
      }
    }
  }

  lemma {:induction false} FindInSetQuantity(cart: Cart, productId: nat, quantity: int, other: nat)
    ensures FindLine(SetQuantity(cart, productId, quantity), other) == FindLine(cart, other)
    ensures other != productId ==> DisplayedQuantity(SetQuantity(cart, productId, quantity), other) == DisplayedQuantity(cart, other)
    ensures other == productId && HasLine(cart, productId) ==>
      DisplayedQuantity(SetQuantity(cart, productId, quantity), other) == quantity
  {
    if |cart| > 0 {
      FindInSetQuantity(cart[1..], productId, quantity, other);
      assert SetQuantity(cart, productId, quantity)[1..] == SetQuantity(cart[1..], productId, quantity);
    }
  }

  lemma {:induction false} FindInAppend(cart: Cart, line: CartLine, other: nat)
    requires !HasLine(cart, line.productId)
    ensures other != line.productId ==> FindLine(cart + [line], other) == FindLine(cart, other)
    ensures FindLine(cart + [line], line.productId) == Some(|cart|)
  {
    if |cart| > 0 {
      assert (cart + [line])[1..] == cart[1..] + [line];
      FindInAppend(cart[1..], line, other);
    }
  }

  /** Lines for other products are exactly the ones before, in the same order: an update
      touches only the updated product's line. */
  lemma UpdateKeepsOtherLines(cart: Cart, productId: nat, delta: int, product: Products.Product)
    ensures Without(UpdateQuantity(cart, productId, delta, product), productId) == Without(cart, productId)
  {
    var keep := (l: CartLine) => l.productId != productId;
    match FindLine(cart, productId)
    case Some(k) =>
      if cart[k].quantity + delta <= 0 {
        Seqs.FilterIdempotent(cart, keep);
      } else {
        WithoutSetQuantity(cart, productId, cart[k].quantity + delta);
      }
    case None =>
      if delta > 0 {
        WithoutAppend(cart, CartLine(productId, 1, product));
      }
  }

  /** Where the updated product's line ends up: a new product's line is appended at the
      end with quantity 1; an existing line that survives the update stays at its index,
      with the new quantity and nothing else changed. */
  lemma UpdateKeepsPosition(cart: Cart, productId: nat, delta: int, product: Products.Product)
    ensures var r := UpdateQuantity(cart, productId, delta, product);
      !HasLine(cart, productId) && delta > 0 ==>
        && |r| == |cart| + 1
        && FindLine(r, productId) == Some(|cart|)
        && r[|cart|] == CartLine(productId, 1, product)
    ensures var r := UpdateQuantity(cart, productId, delta, product);
      var k := FindLine(cart, productId);
      HasLine(cart, productId) && DisplayedQuantity(cart, productId) + delta > 0 ==>
        && |r| == |cart|
        && FindLine(r, productId) == k
        && r[k.value] == cart[k.value].(quantity := DisplayedQuantity(cart, productId) + delta)
  {
    match FindLine(cart, productId)
    case Some(k) =>
      FindInSetQuantity(cart, productId, cart[k].quantity + delta, productId);
    case None =>
      if delta > 0 {
        FindInAppend(cart, CartLine(productId, 1, product), productId);
      }
  }

  lemma {:induction false} WithoutSetQuantity(cart: Cart, productId: nat, quantity: int)
    ensures Without(SetQuantity(cart, productId, quantity), productId) == Without(cart, productId)
  {
    if |cart| > 0 {
      WithoutSetQuantity(cart[1..], productId, quantity);
      assert SetQuantity(cart, productId, quantity)[1..] == SetQuantity(cart[1..], productId, quantity);
    }
  }

  lemma {:induction false} WithoutAppend(cart: Cart, line: CartLine)
    ensures Without(cart + [line], line.productId) == Without(cart, line.productId)
  {
    if |cart| > 0 {
      assert (cart + [line])[1..] == cart[1..] + [line];
      WithoutAppend(cart[1..], line);
    } else {
      assert [line][1..] == [];
    }
  }

  lemma {:induction false} TotalAppend(a: Cart, b: Cart)
    ensures Total(a + b) == Total(a) + Total(b)
  {
    if |a| > 0 {
      assert (a + b)[1..] == a[1..] + b;
      TotalAppend(a[1..], b);
    } else {
      assert a + b == b;
    }
  }

  /** `orderItems.reduce((sum, item) => sum + amount(item), acc)`: the left fold the screen
      computes the total with. */
  function ReduceTotal(cart: Cart, acc: int): int
    decreases |cart|
  {
    if |cart| == 0 then acc else ReduceTotal(cart[1..], acc + LineAmount(cart[0]))
  }

  /** The screen's left fold from 0 is the total: the order of the lines does not matter. */
  lemma {:induction false} ReduceIsTotal(cart: Cart, acc: int)
    ensures ReduceTotal(cart, acc) == acc + Total(cart)
    decreases |cart|
  {
    if |cart| > 0 {
      ReduceIsTotal(cart[1..], acc + LineAmount(cart[0]));
    }
  }

  /** The unit price an update of `productId` is charged at: the existing line's snapshot,
      or the product passed in for a new line. */
  function UpdatePrice(cart: Cart, productId: nat, product: Products.Product): int
  {
    match FindLine(cart, productId)
    case Some(k) => cart[k].product.salePrice
    case None => product.salePrice
  }

  /** The total moves by the change in the product's shown quantity times its unit price:
      the total stays the sum over the current lines after every update. */
  lemma UpdateTotal(cart: Cart, productId: nat, delta: int, product: Products.Product)
    requires WellFormed(cart)
    ensures var r := UpdateQuantity(cart, productId, delta, product);
      Total(r) == Total(cart)
        + (DisplayedQuantity(r, productId) - DisplayedQuantity(cart, productId)) * UpdatePrice(cart, productId, product)
  {
    UpdateDisplayedQuantity(cart, productId, delta, product, productId);
    match FindLine(cart, productId)
    case Some(k) =>
      if cart[k].quantity + delta <= 0 {
        TotalWithout(cart, productId, product);
      } else {
        TotalSetQuantity(cart, productId, cart[k].quantity + delta, product);
      }
    case None =>
      if delta > 0 {
        TotalAppend(cart, [CartLine(productId, 1, product)]);
      }
  }

  lemma {:induction false} TotalWithout(cart: Cart, productId: nat, product: Products.Product)
    requires WellFormed(cart)
    ensures Total(Without(cart, productId))
      == Total(cart) - DisplayedQuantity(cart, productId) * UpdatePrice(cart, productId, product)
  {
    var keep := (l: CartLine) => l.productId != productId;
    if |cart| > 0 {
      assert WellFormed(cart[1..]);
      if keep(cart[0]) {
        TotalWithout(cart[1..], productId, product);
        assert Without(cart, productId) == [cart[0]] + Without(cart[1..], productId);
        assert ([cart[0]] + Without(cart[1..], productId))[1..] == Without(cart[1..], productId);
      } else {
        assert Without(cart, productId) == Without(cart[1..], productId);
        Seqs.FilterAll(cart[1..], keep);
      }
    }
  }

  lemma {:induction false} TotalSetQuantity(cart: Cart, productId: nat, quantity: int, product: Products.Product)
    requires WellFormed(cart) && HasLine(cart, productId)
    ensures Total(SetQuantity(cart, productId, quantity))
      == Total(cart) + (quantity - DisplayedQuantity(cart, productId)) * UpdatePrice(cart, productId, product)
  {
    var r := SetQuantity(cart, productId, quantity);
    assert r[1..] == SetQuantity(cart[1..], productId, quantity);
    assert WellFormed(cart[1..]);
    if cart[0].productId == productId {
      assert !HasLine(cart[1..], productId);
      SetQuantityAbsent(cart[1..], productId, quantity);
    } else {
      TotalSetQuantity(cart[1..], productId, quantity, product);
    }
  }

  lemma {:induction false} SetQuantityAbsent(cart: Cart, productId: nat, quantity: int)
    requires !HasLine(cart, productId)
    ensures SetQuantity(cart, productId, quantity) == cart
  {
  }

  // ---------------------------------------------------------------------------
  // Submitting the order
  // ---------------------------------------------------------------------------

  /** The create-order request `handleSubmit` sends: none without a client; otherwise the
      client's id and the cart's (product, quantity) pairs in cart order — no total and no
      unit price. */
  function OrderRequest(client: Option<Clients.Client>, cart: Cart): (r: Option<Orders.CreateOrderInput>)
    ensures r.None? <==> client.None?
    ensures r.Some? ==> r.value.clientId == client.value.id && |r.value.items| == |cart|
    ensures r.Some? ==> forall i | 0 <= i < |cart| ::
      r.value.items[i] == Orders.OrderItemInput(cart[i].productId, cart[i].quantity)
  {
    match client
    case None => None
    case Some(c) =>
      Some(Orders.CreateOrderInput(c.id,
        seq(|cart|, i requires 0 <= i < |cart| => Orders.OrderItemInput(cart[i].productId, cart[i].quantity))))
  }

  /** Each requested item carries exactly the quantity the screen showed for its product,
      every product with a line is requested, and no product is requested twice. */
  lemma OrderRequestMatchesScreen(client: Clients.Client, cart: Cart)
    requires WellFormed(cart)
    ensures var items := OrderRequest(Some(client), cart).value.items;
      && (forall i | 0 <= i < |items| ::
            items[i].quantity == DisplayedQuantity(cart, items[i].productId) && items[i].quantity >= 1)
      && (forall i, j | 0 <= i < j < |items| :: items[i].productId != items[j].productId)
      && (forall p: nat :: HasLine(cart, p) ==> exists i | 0 <= i < |items| :: items[i].productId == p)
  {
    var items := OrderRequest(Some(client), cart).value.items;
    forall i | 0 <= i < |items|
      ensures items[i].quantity == DisplayedQuantity(cart, items[i].productId)
    {
      assert items[i] == Orders.OrderItemInput(cart[i].productId, cart[i].quantity);
      var k := FindLine(cart, cart[i].productId).value;
      assert k == i;
    }
    forall p: nat | HasLine(cart, p)
      ensures exists i | 0 <= i < |items| :: items[i].productId == p
    {
      var k := FindLine(cart, p).value;
      assert items[k].productId == p;
    }
  }

  datatype SubmitOutcome = NoClient | OrderCreated | OrderFailed

  datatype Submission = Submission(
    calls: seq<Gateway.Call>,
    outcome: SubmitOutcome,
    invalidated: seq<Gateway.QueryKey>)

  /** `handleSubmit` against the backend: no request without a client; otherwise exactly one
      create-order call; on success the orders query is invalidated, on failure nothing is. */
  function Submit(client: Option<Clients.Client>, cart: Cart, oracle: Gateway.Oracle): (s: Submission)
    ensures client.None? <==> s.calls == []
    ensures client.None? <==> s.outcome == NoClient
    ensures client.Some? ==> s.calls == [Gateway.CreateOrder(OrderRequest(client, cart).value)]
    ensures s.outcome == OrderCreated <==> client.Some? && oracle(0).Ok?
    ensures s.invalidated == (if s.outcome == OrderCreated then [Gateway.OrdersQuery] else [])
  {
    match OrderRequest(client, cart)
    case None => Submission([], NoClient, [])
    case Some(request) =>
      var calls := Gateway.Issued([Gateway.CreateOrder(request)], oracle);
      if oracle(0).Ok? then Submission(calls, OrderCreated, [Gateway.OrdersQuery])
      else Submission(calls, OrderFailed, [])
  }

  // ---------------------------------------------------------------------------
  // The wizard
  // ---------------------------------------------------------------------------

  datatype Step = ClientStep | ProductStep | CheckoutStep

  /** The screen's state; `open` turns false when the first step's back button leaves it. */
  datatype Wizard = Wizard(open: bool, step: Step, client: Option<Clients.Client>, cart: Cart)

  const Start := Wizard(true, ClientStep, None, [])

  /** What the user can press: a client card, a product's minus or plus button, the continue
      button, the back button. */
  datatype Action =
    | SelectClient(client: Clients.Client)
    | Minus(product: Products.Product)
    | Plus(product: Products.Product)
    | Continue
    | Back

  /** The control for `a` is on screen: client cards on step 1, quantity buttons on step 2,
      continue on step 2 only with a non-empty cart, back everywhere. */
  predicate Offered(w: Wizard, a: Action)
  {
    && w.open
    && match a
       case SelectClient(_) => w.step == ClientStep
       case Minus(_) => w.step == ProductStep
       case Plus(_) => w.step == ProductStep
       case Continue => w.step == ProductStep && |w.cart| > 0
       case Back => true
  }

  function Apply(w: Wizard, a: Action): (r: Wizard)
    ensures !Offered(w, a) ==> r == w
  {
    if !Offered(w, a) then w
    else match a
      case SelectClient(c) => w.(client := Some(c), step := ProductStep)
      case Minus(p) => w.(cart := UpdateQuantity(w.cart, p.id, -1, p))
      case Plus(p) => w.(cart := UpdateQuantity(w.cart, p.id, 1, p))
      case Continue => w.(step := CheckoutStep)
      case Back =>
        match w.step
        case ClientStep => w.(open := false)
        case ProductStep => w.(step := ClientStep)
        case CheckoutStep => w.(step := ProductStep)
  }

  function Run(w: Wizard, actions: seq<Action>): Wizard
    decreases |actions|
  {
    if |actions| == 0 then w else Run(Apply(w, actions[0]), actions[1..])
  }

  /** What holds on every screen the wizard can reach: the cart invariant, each line's
      product snapshot is the product it is for, steps 2 and 3 have a client, and the
      checkout step has a non-empty cart. */
  predicate Consistent(w: Wizard)
  {
    && WellFormed(w.cart)
    && (forall i | 0 <= i < |w.cart| :: w.cart[i].product.id == w.cart[i].productId)
    && (w.step != ClientStep ==> w.client.Some?)
    && (w.step == CheckoutStep ==> |w.cart| > 0)
  }

  /** Step 1 moves to step 2 on a client choice; step 2 moves to step 3 on continue, and
      only with a non-empty cart; back goes from 3 to 2, from 2 to 1, and from 1 out. */
  lemma Transitions(w: Wizard, c: Clients.Client)
    requires w.open
    ensures w.step == ClientStep ==> Apply(w, SelectClient(c)) == w.(client := Some(c), step := ProductStep)
    ensures w.step == ProductStep ==>
      Apply(w, Continue).step == if |w.cart| > 0 then CheckoutStep else ProductStep
    ensures Apply(w, Back).step == match w.step
      case ClientStep => ClientStep
      case ProductStep => ClientStep
      case CheckoutStep => ProductStep
    ensures Apply(w, Back).open <==> w.step != ClientStep
  {
  }

  lemma ApplyPreservesConsistent(w: Wizard, a: Action)
    requires Consistent(w)
    ensures Consistent(Apply(w, a))
  {
    if Offered(w, a) {
      match a
      case Minus(p) =>
        UpdatePreservesWellFormed(w.cart, p.id, -1, p);
        UpdateSnapshots(w.cart, p.id, -1, p);
      case Plus(p) =>
        UpdatePreservesWellFormed(w.cart, p.id, 1, p);
        UpdateSnapshots(w.cart, p.id, 1, p);
      case _ =>
    }
  }

  lemma UpdateSnapshots(cart: Cart, productId: nat, delta: int, product: Products.Product)
    requires forall i | 0 <= i < |cart| :: cart[i].product.id == cart[i].productId
    requires product.id == productId
    ensures var r := UpdateQuantity(cart, productId, delta, product);
      forall i | 0 <= i < |r| :: r[i].product.id == r[i].productId
  {
  }

  /** Every screen reachable from the start is consistent. */
  lemma {:induction false} RunConsistent(w: Wizard, actions: seq<Action>)
    requires Consistent(w)
    ensures Consistent(Run(w, actions))
    decreases |actions|
  {
    if |actions| > 0 {
      ApplyPreservesConsistent(w, actions[0]);
      RunConsistent(Apply(w, actions[0]), actions[1..]);
    }
  }

  /** Submitting from any reachable checkout step sends exactly one create-order request,
      and it is never empty. */
  lemma CheckoutSubmits(actions: seq<Action>, oracle: Gateway.Oracle)
    requires Run(Start, actions).step == CheckoutStep
    ensures var w := Run(Start, actions);
      var s := Submit(w.client, w.cart, oracle);
      |s.calls| == 1 && s.calls[0].CreateOrder? && |s.calls[0].order.items| > 0
  {
    RunConsistent(Start, actions);
  }
}
