/** The adjustment form: create a new inventory adjustment or edit an existing draft, add
    product lines through a quantity prompt, and save it as a draft or finalize it. */
module AdjustmentForm {
  import opened Wrappers
  import Text
  import Seqs
  import Products
  import Inventory
  import Gateway
  import Auth

  /** One line of the form: a product and how many units of it. */
  datatype FormItem = FormItem(product: Products.Product, quantity: int)

  datatype FormValues = FormValues(kind: Inventory.AdjustmentType, description: string, items: seq<FormItem>)

  // ---------------------------------------------------------------------------
  // Validation
  // ---------------------------------------------------------------------------

  /** What the schema reports: no lines at all, or a line whose quantity is below 1. */
  datatype FieldError = NoItems | QuantityBelowOne(index: nat)

  predicate Valid(v: FormValues)
  {
    |v.items| >= 1 && forall i | 0 <= i < |v.items| :: v.items[i].quantity >= 1
  }

  function QuantityErrors(items: seq<FormItem>, from: nat): (errors: seq<FieldError>)
    requires from <= |items|
    ensures forall e | e in errors :: e.QuantityBelowOne? && from <= e.index < |items|
    ensures forall i | from <= i < |items| :: QuantityBelowOne(i) in errors <==> items[i].quantity < 1
    ensures (forall i | from <= i < |items| :: items[i].quantity >= 1) ==> errors == []
    decreases |items| - from
  {
    if from == |items| then []
    else (if items[from].quantity < 1 then [QuantityBelowOne(from)] else []) + QuantityErrors(items, from + 1)
  }

  /** The form schema: at least one line, every quantity at least 1; each violation is
      reported, and nothing else is. */
  function Validate(v: FormValues): (errors: seq<FieldError>)
    ensures |errors| == 0 <==> Valid(v)
    ensures NoItems in errors <==> |v.items| == 0
    ensures forall i: nat :: QuantityBelowOne(i) in errors <==> i < |v.items| && v.items[i].quantity < 1
  {
    (if |v.items| == 0 then [NoItems] else []) + QuantityErrors(v.items, 0)
  }

  // ---------------------------------------------------------------------------
  // Initial values
  // ---------------------------------------------------------------------------

  /** The related items of the adjustment being edited, or none. */
  function ExistingItems(existing: Option<Inventory.AdjustmentWithItems>): seq<Inventory.InventoryAdjustmentItem>
  {
    if existing.Some? && existing.value.items.Some? then existing.value.items.value else []
  }

  /** The stand-in product an existing line is shown with: only the id is known. */
  function PlaceholderProduct(productId: nat): (p: Products.Product)
    ensures p.id == productId
  {
    Products.Product(productId, "Producto #" + Text.NatToString(productId), "", "UN", 0, "", "")
  }

  /** The values the form starts from: an empty input adjustment, or the existing
      adjustment's type, description and lines (product and quantity) in their order. */
  function InitialValues(existing: Option<Inventory.AdjustmentWithItems>): (v: FormValues)
    ensures existing.None? ==> v == FormValues(Inventory.Input, "", [])
    ensures existing.Some? ==>
      && v.kind == existing.value.adjustment.kind
      && v.description == existing.value.adjustment.description
    ensures |v.items| == |ExistingItems(existing)|
    ensures forall i | 0 <= i < |v.items| ::
      && v.items[i].product.id == ExistingItems(existing)[i].productId
      && v.items[i].quantity == ExistingItems(existing)[i].quantity
  {
    match existing
    case None => FormValues(Inventory.Input, "", [])
    case Some(e) =>
      var items := ExistingItems(existing);
      FormValues(e.adjustment.kind, e.adjustment.description,
        seq(|items|, i requires 0 <= i < |items| =>
          FormItem(PlaceholderProduct(items[i].productId), items[i].quantity)))
  }

  // ---------------------------------------------------------------------------
  // Adding a line
  // ---------------------------------------------------------------------------

  datatype AddOutcome = InvalidQuantity | NoProduct | Added(items: seq<FormItem>)

  /** `confirmAddItem`: the typed text is read with `parseInt(text, 10)`; an unreadable or
      non-positive number is refused; otherwise the selected product is appended with that
      quantity (and with no product selected nothing happens). */
  function ConfirmAddItem(items: seq<FormItem>, selected: Option<Products.Product>, text: string): (r: AddOutcome)
    ensures r == InvalidQuantity <==> Text.ParseInt(text).None? || Text.ParseInt(text).value <= 0
    ensures r == NoProduct <==> !(r == InvalidQuantity) && selected.None?
    ensures r.Added? ==>
      && |r.items| == |items| + 1
      && r.items[..|items|] == items
      && r.items[|items|].product == selected.value
      && Some(r.items[|items|].quantity) == Text.ParseInt(text)
      && r.items[|items|].quantity >= 1
  {
    var q := Text.ParseInt(text);
    if q.None? || q.value <= 0 then InvalidQuantity
    else if selected.None? then NoProduct
    else Added(items + [FormItem(selected.value, q.value)])
  }

  /** Typing a positive numeral (optionally after blanks, optionally followed by anything
      that is not a digit) adds exactly that many units of the selected product. */
  lemma ConfirmAddNumeral(items: seq<FormItem>, p: Products.Product, blanks: string, n: nat, rest: string)
    requires Text.AllSpace(blanks) && n >= 1
    requires |rest| == 0 || !Text.IsDigit(rest[0])
    ensures ConfirmAddItem(items, Some(p), blanks + Text.NatToString(n) + rest) == Added(items + [FormItem(p, n)])
  {
    Text.ParseIntNumeral(blanks, n, rest);
  }

  /** Adding to lines that pass validation gives lines that pass validation: the prompt
      cannot introduce a line the schema rejects. */
  lemma ConfirmAddKeepsValid(v: FormValues, selected: Option<Products.Product>, text: string)
    requires forall i | 0 <= i < |v.items| :: v.items[i].quantity >= 1
    ensures var r := ConfirmAddItem(v.items, selected, text);
      r.Added? ==> Valid(v.(items := r.items))
  {
  }

  // ---------------------------------------------------------------------------
  // Saving
  // ---------------------------------------------------------------------------

  /** The form edits an existing adjustment when it was opened with a non-zero id. */
  predicate IsEditing(adjustmentId: Option<nat>)
  {
    adjustmentId.Some? && adjustmentId.value != 0
  }

  /** In create mode an empty description is replaced by one naming the direction. */
  function HeaderDescription(v: FormValues): (d: string)
    ensures v.description != "" ==> d == v.description
    ensures v.description == "" ==> d == if v.kind == Inventory.Input then "Ajuste de Entrada" else "Ajuste de Salida"
  {
    if v.description != "" then v.description
    else "Ajuste de " + (if v.kind == Inventory.Input then "Entrada" else "Salida")
  }

  /** An existing line is the same line as a form line when product and quantity agree. */
  predicate SameLine(ex: Inventory.InventoryAdjustmentItem, item: FormItem)
  {
    ex.productId == item.product.id && ex.quantity == item.quantity
  }

  predicate AlreadyExists(existing: seq<Inventory.InventoryAdjustmentItem>, item: FormItem)
  {
    exists j | 0 <= j < |existing| :: SameLine(existing[j], item)
  }

  /** The lines an edit sends: the form lines with no existing line of the same product and
      quantity, in form order. */
  function NewLines(existing: seq<Inventory.InventoryAdjustmentItem>, items: seq<FormItem>): seq<FormItem>
  {
    Seqs.Filter(items, (item: FormItem) => !AlreadyExists(existing, item))
  }

  /** An edit sends exactly the lines that are not already on the adjustment, keeping their
      order, and never a line that is. */
  lemma NewLinesSpec(existing: seq<Inventory.InventoryAdjustmentItem>, items: seq<FormItem>)
    ensures var r := NewLines(existing, items);
      && Seqs.IsSubsequence(r, items)
      && (forall i | 0 <= i < |r| :: !AlreadyExists(existing, r[i]))
      && (forall i | 0 <= i < |items| :: !AlreadyExists(existing, items[i]) ==> items[i] in r)
      && (forall x :: multiset(r)[x] == if AlreadyExists(existing, x) then 0 else multiset(items)[x])
  {
    Seqs.FilterIsSubsequence(items, (item: FormItem) => !AlreadyExists(existing, item));
  }

  /** Reconciling what was already reconciled changes nothing. */
  lemma NewLinesIdempotent(existing: seq<Inventory.InventoryAdjustmentItem>, items: seq<FormItem>)
    ensures NewLines(existing, NewLines(existing, items)) == NewLines(existing, items)
  {
    Seqs.FilterIdempotent(items, (item: FormItem) => !AlreadyExists(existing, item));
  }

  /** Saving an edit whose lines were left as loaded sends no line at all. */
  lemma UnchangedEditSendsNoLines(existing: Inventory.AdjustmentWithItems)
    ensures NewLines(ExistingItems(Some(existing)), InitialValues(Some(existing)).items) == []
  {
    var ex := ExistingItems(Some(existing));
    var items := InitialValues(Some(existing)).items;
    forall i | 0 <= i < |items|
      ensures AlreadyExists(ex, items[i])
    {
      assert SameLine(ex[i], items[i]);
    }
    Seqs.FilterNone(items, (item: FormItem) => !AlreadyExists(ex, item));
  }

  /** Matching is by value, not by count: a second line equal to an existing one is not
      sent, so adding the same product with the same quantity again during an edit has no
      effect, while a different quantity is sent. */
  lemma RepeatedLineIsNotSent(ex: Inventory.InventoryAdjustmentItem, p: Products.Product, other: int)
    requires ex.productId == p.id && other != ex.quantity
    ensures NewLines([ex], [FormItem(p, ex.quantity), FormItem(p, ex.quantity)]) == []
    ensures NewLines([ex], [FormItem(p, ex.quantity), FormItem(p, other)]) == [FormItem(p, other)]
  {
    var keep := (item: FormItem) => !AlreadyExists([ex], item);
    var same, changed := FormItem(p, ex.quantity), FormItem(p, other);
    assert SameLine([ex][0], same);
    assert !keep(same);
    assert keep(changed);
    assert [same, same][1..] == [same] && [same][1..] == [];
    assert [same, changed][1..] == [changed] && [changed][1..] == [];
    assert Seqs.Filter([same], keep) == Seqs.Filter([], keep);
    assert Seqs.Filter([changed], keep) == [changed] + Seqs.Filter([], keep);
  }

  function ItemCalls(adjustmentId: Option<nat>, items: seq<FormItem>): (calls: seq<Gateway.Call>)
    ensures |calls| == |items|
    ensures forall i | 0 <= i < |calls| ::
      calls[i] == Gateway.CreateAdjustmentItem(Inventory.CreateItemInput(adjustmentId, items[i].product.id, items[i].quantity))
  {
    seq(|items|, i requires 0 <= i < |items| =>
      Gateway.CreateAdjustmentItem(Inventory.CreateItemInput(adjustmentId, items[i].product.id, items[i].quantity)))
  }

  datatype SubmitAction = SaveDraft | Finalize

  /** The calls a save makes when nothing fails, given the id of the adjustment being saved:
      the header (created, or updated when editing), then the lines (all of them when
      creating, the new ones when editing), then the finalize action when asked for. */
  function Plan(user: Auth.User, adjustmentId: Option<nat>, existing: Option<Inventory.AdjustmentWithItems>,
                v: FormValues, action: SubmitAction, headerId: Option<nat>): seq<Gateway.Call>
  {
    var header :=
      if IsEditing(adjustmentId) then Gateway.UpdateAdjustment(adjustmentId.value, v.kind, v.description)
      else Gateway.CreateAdjustment(Inventory.CreateAdjustmentInput(user.id, v.kind, HeaderDescription(v)));
    var lines := if IsEditing(adjustmentId) then NewLines(ExistingItems(existing), v.items) else v.items;
    [header] + ItemCalls(headerId, lines) + (if action == Finalize then [Gateway.FinalizeAdjustment(headerId)] else [])
  }

  /** The id the lines and the finalize action refer to: the edited adjustment's, or the one
      the create reply carries. */
  function HeaderIdOf(adjustmentId: Option<nat>, oracle: Gateway.Oracle): Option<nat>
  {
    if IsEditing(adjustmentId) then adjustmentId
    else if oracle(0).Ok? then Inventory.HeaderId(oracle(0).body)
    else None
  }

  /** Queries refreshed after a successful save: the list and the products always, the
      edited adjustment's detail when editing. */
  function Invalidations(adjustmentId: Option<nat>): (keys: seq<Gateway.QueryKey>)
    ensures Gateway.AdjustmentsQuery in keys && Gateway.ProductsQuery in keys
    ensures forall id: nat :: Gateway.AdjustmentQuery(id) in keys <==> IsEditing(adjustmentId) && id == adjustmentId.value
  {
    [Gateway.AdjustmentsQuery, Gateway.ProductsQuery]
      + if IsEditing(adjustmentId) then [Gateway.AdjustmentQuery(adjustmentId.value)] else []
  }

  datatype SubmitOutcome = NotSignedIn | Saved | SaveFailed

  /** The save handler: nothing without a signed-in user; otherwise the plan is run call by
      call, a failure ends it (and is reported), and only a complete run refreshes queries. */
  method Submit(user: Option<Auth.User>, adjustmentId: Option<nat>, existing: Option<Inventory.AdjustmentWithItems>,
                v: FormValues, action: SubmitAction, oracle: Gateway.Oracle)
    returns (calls: seq<Gateway.Call>, outcome: SubmitOutcome, invalidated: seq<Gateway.QueryKey>)
    ensures user.None? ==> calls == [] && outcome == NotSignedIn
    ensures user.Some? ==> calls == Gateway.Issued(Plan(user.value, adjustmentId, existing, v, action, HeaderIdOf(adjustmentId, oracle)), oracle)
    ensures outcome == Saved <==>
      user.Some? && Gateway.SucceedsUpTo(oracle, |Plan(user.value, adjustmentId, existing, v, action, HeaderIdOf(adjustmentId, oracle))|)
    ensures invalidated == if outcome == Saved then Invalidations(adjustmentId) else []
  {
    if user.None? {
      return [], NotSignedIn, [];
    }
    var plan := Plan(user.value, adjustmentId, existing, v, action, HeaderIdOf(adjustmentId, oracle));
    var ok;
    calls, ok := Gateway.Run(plan, oracle);
    if ok {
      outcome, invalidated := Saved, Invalidations(adjustmentId);
    } else {
      outcome, invalidated := SaveFailed, [];
    }
  }

  /** Creating sends the header with the user and direction, then one line call per form
      line in form order, all naming the id the create reply carries, then the finalize
      action for that id exactly when finalizing. */
  lemma CreatePlanShape(user: Auth.User, adjustmentId: Option<nat>, existing: Option<Inventory.AdjustmentWithItems>,
                        v: FormValues, action: SubmitAction, oracle: Gateway.Oracle)
    requires !IsEditing(adjustmentId) && oracle(0).Ok?
    ensures var plan := Plan(user, adjustmentId, existing, v, action, HeaderIdOf(adjustmentId, oracle));
      var hid := Inventory.HeaderId(oracle(0).body);
      && |plan| == 1 + |v.items| + (if action == Finalize then 1 else 0)
      && plan[0] == Gateway.CreateAdjustment(Inventory.CreateAdjustmentInput(user.id, v.kind, HeaderDescription(v)))
      && (forall i | 0 <= i < |v.items| ::
            plan[1 + i] == Gateway.CreateAdjustmentItem(Inventory.CreateItemInput(hid, v.items[i].product.id, v.items[i].quantity)))
      && (action == Finalize ==> plan[|plan| - 1] == Gateway.FinalizeAdjustment(hid))
  {
  }

  /** Editing sends the header update with the type and description as typed (no default
      description), then one line call per new line in form order, all naming the edited
      adjustment, then the finalize action for it exactly when finalizing. */
  lemma EditPlanShape(user: Auth.User, id: nat, existing: Option<Inventory.AdjustmentWithItems>,
                      v: FormValues, action: SubmitAction, oracle: Gateway.Oracle)
    requires id != 0
    ensures var plan := Plan(user, Some(id), existing, v, action, HeaderIdOf(Some(id), oracle));
      var lines := NewLines(ExistingItems(existing), v.items);
      && |plan| == 1 + |lines| + (if action == Finalize then 1 else 0)
      && plan[0] == Gateway.UpdateAdjustment(id, v.kind, v.description)
      && (forall i | 0 <= i < |lines| ::
            plan[1 + i] == Gateway.CreateAdjustmentItem(Inventory.CreateItemInput(Some(id), lines[i].product.id, lines[i].quantity)))
      && (action == Finalize ==> plan[|plan| - 1] == Gateway.FinalizeAdjustment(Some(id)))
  {
    assert HeaderIdOf(Some(id), oracle) == Some(id);
    var lines := NewLines(ExistingItems(existing), v.items);
    var calls := ItemCalls(Some(id), lines);
    var tail := if action == Finalize then [Gateway.FinalizeAdjustment(Some(id))] else [];
    PlanLayout(Gateway.UpdateAdjustment(id, v.kind, v.description), calls, tail);
  }

  /** Where the parts of a plan sit: the header first, the line calls from index 1 on, the
      tail at the end. */
  lemma PlanLayout(header: Gateway.Call, calls: seq<Gateway.Call>, tail: seq<Gateway.Call>)
    ensures var plan := [header] + calls + tail;
      && |plan| == 1 + |calls| + |tail|
      && plan[0] == header
      && (forall i | 0 <= i < |calls| :: plan[1 + i] == calls[i])
      && (|tail| > 0 ==> plan[|plan| - 1] == tail[|tail| - 1])
  {
  }

  /** The finalize action comes once, last, and only when finalizing: no plan finalizes
      before all its lines are sent. */
  lemma FinalizeComesLast(user: Auth.User, adjustmentId: Option<nat>, existing: Option<Inventory.AdjustmentWithItems>,
                          v: FormValues, action: SubmitAction, headerId: Option<nat>)
    ensures var plan := Plan(user, adjustmentId, existing, v, action, headerId);
      && (forall i | 0 <= i < |plan| - 1 :: !plan[i].FinalizeAdjustment?)
      && (plan[|plan| - 1].FinalizeAdjustment? <==> action == Finalize)
  {
  }

  /** Saving an unchanged edit as a draft sends the header update alone. */
  lemma UnchangedDraftOnlyUpdates(user: Auth.User, id: nat, existing: Inventory.AdjustmentWithItems, oracle: Gateway.Oracle)
    requires id != 0
    ensures var v := InitialValues(Some(existing));
      Plan(user, Some(id), Some(existing), v, SaveDraft, HeaderIdOf(Some(id), oracle))
        == [Gateway.UpdateAdjustment(id, existing.adjustment.kind, existing.adjustment.description)]
  {
    UnchangedEditSendsNoLines(existing);
  }
}
