/** The adjustment detail screen: the adjustment with the given id, looked up in the
    adjustment list, its lines with product names and units, and — while it is a draft —
    the edit and finalize buttons. */
module AdjustmentDetail {
  import opened Wrappers
  import Text
  import Products
  import Inventory
  import Gateway
  import Restify

  // ---------------------------------------------------------------------------
  // Finding the adjustment
  // ---------------------------------------------------------------------------

  /** The first record of the list with that id (`adjustments?.find(a => a.id === id)`). */
  function FindAdjustment(list: Option<seq<Inventory.AdjustmentWithItems>>, id: nat): (r: Option<Inventory.AdjustmentWithItems>)
    ensures r.Some? <==> list.Some? && exists i | 0 <= i < |list.value| :: list.value[i].adjustment.id == id
    ensures r.Some? ==> exists i | 0 <= i < |list.value| ::
      && list.value[i] == r.value && r.value.adjustment.id == id
      && forall j | 0 <= j < i :: list.value[j].adjustment.id != id
  {
    if list.None? then None else FindIn(list.value, id)
  }

  function FindIn(xs: seq<Inventory.AdjustmentWithItems>, id: nat): (r: Option<Inventory.AdjustmentWithItems>)
    ensures r.Some? <==> exists i | 0 <= i < |xs| :: xs[i].adjustment.id == id
    ensures r.Some? ==> exists i | 0 <= i < |xs| ::
      && xs[i] == r.value && r.value.adjustment.id == id
      && forall j | 0 <= j < i :: xs[j].adjustment.id != id
  {
    if |xs| == 0 then None
    else if xs[0].adjustment.id == id then Some(xs[0])
    else
      var r := FindIn(xs[1..], id);
      if r.Some? then
        var i :| 0 <= i < |xs[1..]| && xs[1..][i] == r.value && r.value.adjustment.id == id
          && forall j | 0 <= j < i :: xs[1..][j].adjustment.id != id;
        assert xs[i + 1] == r.value;
        r
      else
        assert forall i | 1 <= i < |xs| :: xs[i] == xs[1..][i - 1];
        r
  }

  // ---------------------------------------------------------------------------
  // The lines
  // ---------------------------------------------------------------------------

  /** `products?.find(p => p.id === productId)`: the first listed product with that id. */
  function FindProduct(products: Option<seq<Products.Product>>, productId: nat): (r: Option<Products.Product>)
    ensures r.Some? ==> products.Some? && FirstWithId(products.value, productId, r.value)
    ensures r.None? ==> products.None? || forall p | p in products.value :: p.id != productId
  {
    if products.None? then None else FindProductIn(products.value, productId)
  }

  /** `p` is the product at the first position of `ps` holding `productId`. */
  predicate FirstWithId(ps: seq<Products.Product>, productId: nat, p: Products.Product)
  {
    exists i | 0 <= i < |ps| :: ps[i] == p && p.id == productId && forall j | 0 <= j < i :: ps[j].id != productId
  }

  function FindProductIn(ps: seq<Products.Product>, productId: nat): (r: Option<Products.Product>)
    ensures r.Some? ==> FirstWithId(ps, productId, r.value)
    ensures r.None? ==> forall p | p in ps :: p.id != productId
  {
    if |ps| == 0 then None
    else if ps[0].id == productId then Some(ps[0])
    else
      var r := FindProductIn(ps[1..], productId);
      if r.Some? then
        var i :| 0 <= i < |ps[1..]| && ps[1..][i] == r.value && r.value.id == productId
          && forall j | 0 <= j < i :: ps[1..][j].id != productId;
        assert ps[i + 1] == r.value;
        assert forall j | 0 <= j < i + 1 :: ps[j].id != productId by {
          forall j | 0 <= j < i + 1
            ensures ps[j].id != productId
          {
            if j > 0 {
              assert ps[j] == ps[1..][j - 1];
            }
          }
        }
        r
      else
        assert ps == [ps[0]] + ps[1..];
        r
  }

  /** Two products that are each the first with an id in the same list are the same. */
  lemma FirstWithIdUnique(ps: seq<Products.Product>, productId: nat, p: Products.Product, q: Products.Product)
    requires FirstWithId(ps, productId, p) && FirstWithId(ps, productId, q)
    ensures p == q
  {
    var i :| 0 <= i < |ps| && ps[i] == p && p.id == productId && forall j | 0 <= j < i :: ps[j].id != productId;
    var k :| 0 <= k < |ps| && ps[k] == q && q.id == productId && forall j | 0 <= j < k :: ps[j].id != productId;
    assert !(i < k) && !(k < i);
  }

  /** A line's product name: the known product's name, falling back to `Producto #<id>`
      when the product is unknown or its name is empty. */
  function ProductName(products: Option<seq<Products.Product>>, productId: nat): (name: string)
    ensures products.None? || (forall p | p in products.value :: p.id != productId)
      ==> name == "Producto #" + Text.NatToString(productId)
    ensures forall p | products.Some? && FirstWithId(products.value, productId, p) ::
      name == if p.name != "" then p.name else "Producto #" + Text.NatToString(productId)
    ensures name != ""
  {
    var p := FindProduct(products, productId);
    assert products.Some? ==> forall q | FirstWithId(products.value, productId, q) :: p == Some(q) by {
      if products.Some? {
        forall q | FirstWithId(products.value, productId, q)
          ensures p == Some(q)
        {
          var i :| 0 <= i < |products.value| && products.value[i] == q && q.id == productId
            && forall j | 0 <= j < i :: products.value[j].id != productId;
          assert q in products.value;
          FirstWithIdUnique(products.value, productId, p.value, q);
        }
      }
    }
    if p.Some? && p.value.name != "" then p.value.name else "Producto #" + Text.NatToString(productId)
  }

  /** A line's unit: the known product's unit type, or nothing. */
  function ProductUnit(products: Option<seq<Products.Product>>, productId: nat): string
  {
    var p := FindProduct(products, productId);
    if p.Some? then p.value.unitType else ""
  }

  datatype LineRow = LineRow(key: nat, name: string, unit: string, quantity: int)

  function Rows(items: Option<seq<Inventory.InventoryAdjustmentItem>>, products: Option<seq<Products.Product>>): (rows: seq<LineRow>)
    ensures items.None? ==> rows == []
    ensures items.Some? ==> |rows| == |items.value|
    ensures items.Some? ==> forall i | 0 <= i < |rows| ::
      && rows[i].key == items.value[i].id
      && rows[i].quantity == items.value[i].quantity
      && rows[i].name == ProductName(products, items.value[i].productId)
      && rows[i].unit == ProductUnit(products, items.value[i].productId)
  {
    match items
    case None => []
    case Some(xs) =>
      seq(|xs|, i requires 0 <= i < |xs| =>
        LineRow(xs[i].id, ProductName(products, xs[i].productId), ProductUnit(products, xs[i].productId), xs[i].quantity))
  }

  /** The "no items" notice: the related items are missing or empty. */
  predicate NoItemsNotice(items: Option<seq<Inventory.InventoryAdjustmentItem>>)
  {
    items.None? || |items.value| == 0
  }

  /** The notice is shown exactly when there is no row. */
  lemma NoticeIffNoRows(items: Option<seq<Inventory.InventoryAdjustmentItem>>, products: Option<seq<Products.Product>>)
    ensures NoItemsNotice(items) <==> |Rows(items, products)| == 0
  {
  }

  // ---------------------------------------------------------------------------
  // The action bar
  // ---------------------------------------------------------------------------

  const EditPrefix := "/inventory/adjustment/edit/"

  /** The route the edit button opens. */
  function EditPath(id: nat): (path: string)
    ensures |path| > |EditPrefix| && path[..|EditPrefix|] == EditPrefix
    ensures Text.AllDigits(path[|EditPrefix|..])
  {
    EditPrefix + Text.NatToString(id)
  }

  /** The edit route reads its segment back as the adjustment's id, so the form opens on the
      adjustment the detail screen showed. */
  lemma EditPathRoundTrip(id: nat)
    ensures Text.DigitsValue(EditPath(id)[|EditPrefix|..]) == id
  {
    assert EditPath(id)[|EditPrefix|..] == Text.NatToString(id);
    Text.NatToStringRoundTrip(id);
  }

  /** The action bar of a draft: both buttons are disabled while finalizing, and the finalize
      button then shows a spinner instead of its label. */
  datatype ActionBar = ActionBar(editPath: string, disabled: bool, spinner: bool)

  function Actions(id: nat, isFinalized: bool, finalizing: bool): (bar: Option<ActionBar>)
    ensures bar.None? <==> isFinalized
    ensures bar.Some? ==> bar.value.disabled == finalizing && bar.value.spinner == finalizing
    ensures bar.Some? ==> bar.value.editPath == EditPath(id)
  {
    if isFinalized then None else Some(ActionBar(EditPath(id), finalizing, finalizing))
  }

  // ---------------------------------------------------------------------------
  // The screen
  // ---------------------------------------------------------------------------

  datatype DetailView =
    | Loading
    | Shown(adjustment: Inventory.InventoryAdjustment, rows: seq<LineRow>, noItems: bool, actions: Option<ActionBar>)

  /** The screen for route id `id`: a spinner while the list loads or when no adjustment has
      that id; otherwise the adjustment, its lines, and the action bar unless finalized. */
  function Screen(isLoading: bool, list: Option<seq<Inventory.AdjustmentWithItems>>,
                  products: Option<seq<Products.Product>>, id: nat, finalizing: bool): (v: DetailView)
    ensures v.Loading? <==> isLoading || FindAdjustment(list, id).None?
    ensures v.Shown? ==>
      && v.adjustment.id == id
      && v.adjustment == FindAdjustment(list, id).value.adjustment
      && v.rows == Rows(FindAdjustment(list, id).value.items, products)
      && (v.noItems <==> |v.rows| == 0)
      && (v.actions.None? <==> v.adjustment.status == Inventory.Finalized)
  {
    var found := FindAdjustment(list, id);
    if isLoading || found.None? then Loading
    else
      var a := found.value;
      NoticeIffNoRows(a.items, products);
      Shown(a.adjustment, Rows(a.items, products), NoItemsNotice(a.items),
            Actions(id, a.adjustment.status == Inventory.Finalized, finalizing))
  }

  /** The screen as written: the list it searches is the normalised one, whose records have
      no related items, so every adjustment is shown with the notice and no line. */
  function ScreenAsWritten(isLoading: bool, list: Option<seq<Inventory.InventoryAdjustment>>,
                           products: Option<seq<Products.Product>>, id: nat, finalizing: bool): (v: DetailView)
    ensures v.Shown? ==> v.rows == [] && v.noItems
  {
    var bare := if list.None? then None
      else Some(seq(|list.value|, i requires 0 <= i < |list.value| => Inventory.AdjustmentWithItems(list.value[i], None)));
    Screen(isLoading, bare, products, id, finalizing)
  }

  /** An adjustment whose list entry relates one line: the screen as written shows no line
      and the notice; fed the list that keeps related items, it shows the line. */
  lemma RelatedItemsLostOnDetail(adjustment: Inventory.InventoryAdjustment, item: Inventory.InventoryAdjustmentItem)
    requires adjustment.status == Inventory.Draft
    ensures var entries := [ListEntry(adjustment, item)];
      && ScreenAsWritten(false, Some(Inventory.NormaliseList(entries)), None, adjustment.id, false).Shown?
      && ScreenAsWritten(false, Some(Inventory.NormaliseList(entries)), None, adjustment.id, false).rows == []
      && Screen(false, Some(Inventory.NormaliseListWithItems(entries)), None, adjustment.id, false).Shown?
      && |Screen(false, Some(Inventory.NormaliseListWithItems(entries)), None, adjustment.id, false).rows| == 1
  {
    var entries := [ListEntry(adjustment, item)];
    Text.NatToStringRoundTrip(adjustment.id);
    assert Inventory.NormaliseList(entries)[0].id == adjustment.id;
    assert Inventory.NormaliseListWithItems(entries)[0].adjustment.id == adjustment.id;
  }

  /** The list entry the backend sends for `adjustment` with one related line. */
  function ListEntry(adjustment: Inventory.InventoryAdjustment, item: Inventory.InventoryAdjustmentItem): Inventory.AdjustmentEntry
  {
    Restify.Entry(Text.NatToString(adjustment.id), "inventory-adjustments", adjustment,
      Some(Inventory.Relationships(Some([item]))))
  }

  // ---------------------------------------------------------------------------
  // Finalizing
  // ---------------------------------------------------------------------------

  datatype FinalizeResult = FinalizeResult(
    calls: seq<Gateway.Call>,
    finalized: bool,
    invalidated: seq<Gateway.QueryKey>,
    refetched: bool,
    finalizing: seq<bool>)      // the successive values of the busy flag

  /** `handleFinalize` once the confirmation was answered: a cancel does nothing; a confirm
      raises the busy flag, posts the finalize action for the route id, on success refreshes
      the list and the products and refetches, and lowers the flag in every case. */
  function HandleFinalize(confirmed: bool, id: nat, oracle: Gateway.Oracle): (r: FinalizeResult)
    ensures !confirmed ==> r.calls == [] && r.finalizing == [] && !r.finalized
    ensures confirmed ==> r.calls == [Gateway.FinalizeAdjustment(Some(id))] && r.finalizing == [true, false]
    ensures r.finalized <==> confirmed && oracle(0).Ok?
    ensures r.refetched <==> r.finalized
    ensures r.invalidated == if r.finalized then [Gateway.AdjustmentsQuery, Gateway.ProductsQuery] else []
  {
    if !confirmed then FinalizeResult([], false, [], false, [])
    else
      var calls := Gateway.Issued([Gateway.FinalizeAdjustment(Some(id))], oracle);
      if oracle(0).Ok? then FinalizeResult(calls, true, [Gateway.AdjustmentsQuery, Gateway.ProductsQuery], true, [true, false])
      else FinalizeResult(calls, false, [], false, [true, false])
  }

  /** The finalize action is posted to the URL of the adjustment the screen shows. */
  lemma FinalizeTargetsShownAdjustment(isLoading: bool, list: Option<seq<Inventory.AdjustmentWithItems>>,
                                       products: Option<seq<Products.Product>>, id: nat, oracle: Gateway.Oracle)
    requires Screen(isLoading, list, products, id, false).Shown?
    ensures var v := Screen(isLoading, list, products, id, false);
      Gateway.Endpoint(HandleFinalize(true, id, oracle).calls[0]) == Some(Inventory.FinalizePath(Some(v.adjustment.id)))
  {
  }
}
