/** The stock-in screen: pick a product from a row of chips, type a quantity, and record an
    input adjustment of one line that is finalized at once. */
module StockIn {
  import opened Wrappers
  import Text
  import Products
  import Inventory
  import Gateway
  import Auth
  import AdjustmentForm

  datatype Icon = Cube | Water | Snow

  /** The chip icon by unit type: bales get a cube, large bottles a drop, anything else a
      snowflake. */
  function ChipIcon(unitType: string): (icon: Icon)
    ensures icon == Cube <==> unitType == "paca"
    ensures icon == Water <==> unitType == "botellon"
  {
    if unitType == "paca" then Cube else if unitType == "botellon" then Water else Snow
  }

  datatype ProductsPanel = Spinner | Chips(products: seq<Products.Product>) | NoProducts

  /** While loading a spinner; then the chips when there is at least one product, otherwise
      the empty notice. */
  function Panel(isLoading: bool, products: Option<seq<Products.Product>>): (p: ProductsPanel)
    ensures p.Spinner? <==> isLoading
    ensures p.Chips? <==> !isLoading && products.Some? && |products.value| > 0
    ensures p.Chips? ==> p.products == products.value
  {
    if isLoading then Spinner
    else if products.Some? && |products.value| > 0 then Chips(products.value)
    else NoProducts
  }

  /** The description sent: the typed one, or one naming the product. */
  function Description(description: string, product: Products.Product): (d: string)
    ensures description != "" ==> d == description
    ensures description == "" ==> d == "Ingreso de " + product.name
  {
    if description != "" then description else "Ingreso de " + product.name
  }

  /** The three calls of a stock-in when nothing fails: the input header, its single line,
      and the finalize action, the last two naming the header's id. */
  function Plan(user: Auth.User, product: Products.Product, quantity: int, description: string, headerId: Option<nat>): seq<Gateway.Call>
  {
    [ Gateway.CreateAdjustment(Inventory.CreateAdjustmentInput(user.id, Inventory.Input, Description(description, product))),
      Gateway.CreateAdjustmentItem(Inventory.CreateItemInput(headerId, product.id, quantity)),
      Gateway.FinalizeAdjustment(headerId) ]
  }

  datatype Outcome = NotSignedIn | InvalidQuantity | Recorded(quantity: int) | RecordFailed

  datatype StockInResult = StockInResult(
    calls: seq<Gateway.Call>,
    outcome: Outcome,
    invalidated: seq<Gateway.QueryKey>,
    submitting: seq<bool>,       // the successive values of the button's busy flag
    selection: Option<Products.Product>)

  /** `handleSubmit` for the selected product: nothing without a user; a quantity text that
      does not read as a positive integer is refused before any call; otherwise the three
      calls run in order until one fails, the busy flag is raised for the run and lowered
      after it, and only a complete run refreshes the queries and clears the selection. */
  function Submit(user: Option<Auth.User>, product: Products.Product, quantityText: string,
                  description: string, oracle: Gateway.Oracle): (r: StockInResult)
    ensures user.None? ==> r.outcome == NotSignedIn
    ensures r.outcome == InvalidQuantity <==>
      user.Some? && (Text.ParseInt(quantityText).None? || Text.ParseInt(quantityText).value <= 0)
    ensures r.outcome.NotSignedIn? || r.outcome.InvalidQuantity? <==> r.calls == []
    ensures r.calls != [] ==>
      r.calls == Gateway.Issued(Plan(user.value, product, Text.ParseInt(quantityText).value, description,
                                     HeaderIdOf(oracle)), oracle)
    ensures r.outcome.Recorded? <==> r.calls != [] && Gateway.SucceedsUpTo(oracle, 3)
    ensures r.outcome.Recorded? ==> Some(r.outcome.quantity) == Text.ParseInt(quantityText)
    ensures r.invalidated == (if r.outcome.Recorded? then [Gateway.AdjustmentsQuery, Gateway.ProductsQuery] else [])
    ensures r.submitting == (if r.calls != [] then [true, false] else [])
    ensures r.selection.None? <==> r.outcome.Recorded?
  {
    var q := Text.ParseInt(quantityText);
    if user.None? then StockInResult([], NotSignedIn, [], [], Some(product))
    else if q.None? || q.value <= 0 then StockInResult([], InvalidQuantity, [], [], Some(product))
    else
      var plan := Plan(user.value, product, q.value, description, HeaderIdOf(oracle));
      var calls := Gateway.Issued(plan, oracle);
      Gateway.IssuedSpec(plan, oracle);
      if Gateway.SucceedsUpTo(oracle, |plan|) then
        StockInResult(calls, Recorded(q.value), [Gateway.AdjustmentsQuery, Gateway.ProductsQuery], [true, false], None)
      else
        StockInResult(calls, RecordFailed, [], [true, false], Some(product))
  }

  /** The id the line and the finalize action name: the one the create reply carries. */
  function HeaderIdOf(oracle: Gateway.Oracle): Option<nat>
  {
    if oracle(0).Ok? then Inventory.HeaderId(oracle(0).body) else None
  }

  /** A stock-in is the adjustment form's create-and-finalize of one line: with a typed
      description both send the same calls. */
  lemma SameAsOneLineForm(user: Auth.User, product: Products.Product, quantity: int, description: string, oracle: Gateway.Oracle)
    requires description != ""
    ensures var v := AdjustmentForm.FormValues(Inventory.Input, description, [AdjustmentForm.FormItem(product, quantity)]);
      Plan(user, product, quantity, description, HeaderIdOf(oracle))
        == AdjustmentForm.Plan(user, None, None, v, AdjustmentForm.Finalize, AdjustmentForm.HeaderIdOf(None, oracle))
  {
    var v := AdjustmentForm.FormValues(Inventory.Input, description, [AdjustmentForm.FormItem(product, quantity)]);
    assert AdjustmentForm.ItemCalls(HeaderIdOf(oracle), v.items)
      == [Gateway.CreateAdjustmentItem(Inventory.CreateItemInput(HeaderIdOf(oracle), product.id, quantity))];
  }

  /** Typing a positive numeral records exactly that many units when every call succeeds. */
  lemma TypedQuantityIsRecorded(user: Auth.User, product: Products.Product, n: nat, description: string, oracle: Gateway.Oracle)
    requires n >= 1 && Gateway.SucceedsUpTo(oracle, 3)
    ensures Submit(Some(user), product, Text.NatToString(n), description, oracle).outcome == Recorded(n)
  {
    Text.ParseIntNumeral("", n, "");
    assert "" + Text.NatToString(n) + "" == Text.NatToString(n);
  }
}
