# aguaditas-app: a Dafny model of the client-side business logic

aguaditas-app is a mobile app for a water-delivery business. It is written in React Native and
TypeScript. Delivery staff ("repartidores") use it to take orders for clients. Administrators
use it to track stock through inventory adjustments and to read the dashboard.

This project models the logic that runs on the phone:

- **Order wizard** (`NewOrder`). A three-step wizard: choose a client, then build a cart by
  tapping a product's +/- buttons, then check out. Checking out sends one create-order
  request.
- **Adjustment form** (`AdjustmentForm`). Edits the draft of an inventory adjustment:
  - validates the form;
  - adds a line from a typed quantity;
  - reconciles the draft against the adjustment's existing items when editing;
  - saves in order: header, then lines, then an optional finalize, stopping at the first
    failure.
- **Item list** (`AdjustmentItemList`). The adjustment's lines, with a remove button on each
  row and a React key per row.
- **Product picker** (`ProductSelector`). Searches products by name or SKU, ignoring letter
  case.
- **Stock-in screen** (`StockIn`). Records incoming stock in three calls: header, one line,
  finalize.
- **Adjustment detail** (`AdjustmentDetail`). Finds the adjustment in the list, shows its lines
  (falling back to a placeholder when the product is unknown), offers edit and finalize only
  for a draft, and runs the finalize action.
- **Session store** (`Auth`). The signed-in session kept in memory and in key-value storage:
  sign in, sign out, and hydrate at start-up.
- **Dashboard** (`Dashboard`). Order counts, the five most recent orders, the sales total,
  and the choice of dashboard by role.
- **API hooks** (`Restify`, `Products`, `Clients`, `Orders`, `Inventory`):
  - list normalisation: `{...attributes, id: Number(id)}`;
  - create-response unwrapping;
  - the clients search parameter;
  - the finalize URL.

Shared modules:

- `Text` holds the JavaScript string conventions the code relies on:
  - decimal numerals;
  - ASCII `toLowerCase`;
  - `includes`;
  - `Number.parseInt(s, 10)` as defined in section 19.2.5 of ECMA-262, with white space per
    sections 12.2 and 12.3, computed over exact integers rather than doubles (see Left out).
- `Seqs` holds `filter` and the order-preserving subsequence relation.
- `Gateway` holds the remote calls.

The backend is an oracle that answers the k-th call of a flow with success (and a response
body) or failure. `Gateway.Issued` is the one definition of "call in order, stop at the first
failure, undo nothing". `Gateway.Run` is the loop that carries it out. Every multi-call flow
is stated against these two.

## Model

| member | source | states |
|---|---|---|
| Restify.Normalise | src/features/inventory/api.ts:67-70 | list normalisation, shared by the products, clients, orders and adjustments lists, keeps length and order; element i is entry i's attributes with the id replaced by the envelope id read as a decimal number |
| Restify.NormaliseWrap | src/features/products/api.ts:48-51 | reading back a list the backend wrapped (ids printed as numerals) returns the original records |
| Restify.NormaliseIgnoresRelationships | src/features/inventory/api.ts:32-39 | entries that differ only in `relationships` normalise to the same list |
| Restify.UnwrapAttributes | src/features/clients/api.ts:66 | a create result is `data.attributes` exactly when the body has a `data` node with attributes, otherwise the whole body |
| Restify.UnwrapData | src/features/orders/api.ts:69 | the order create result is the `data` node itself (attributes still wrapped) when present, otherwise the body |
| Restify.UnwrapEnvelope | src/features/inventory/api.ts:86 | on the standard envelope, attribute unwrapping yields the attributes and data unwrapping yields the node with its id |
| Products.NormaliseDetail | src/features/products/api.ts:61-64 | the detail result is the attributes with id = Number(data.id); every other field is unchanged |
| Products.ListRoundTrip | src/features/products/api.ts:48-51 | normalising the backend's envelope of a product list gives back that list |
| Clients.SearchParams | src/features/clients/api.ts:43-46 | `search` is sent if and only if the variables carry a non-empty search string, with that value; no other parameter is ever sent |
| Clients.ListRoundTrip | src/features/clients/api.ts:50-53 | normalising the envelope of a client list returns that list |
| Orders.ListRoundTrip | src/features/orders/api.ts:53-56 | normalising the envelope of an order list returns that list |
| Orders.UnwrapCreated | src/features/orders/api.ts:69 | the created order is the `data` node when present, otherwise the body; attributes are not unwrapped |
| Inventory.NormaliseListDropsRelationships | src/features/inventory/api.ts:32-39 | two entry lists that differ only in their related items give the same normalised list |
| Inventory.NormaliseListWithItems | src/features/inventory/adjustment-detail-screen.tsx:99-122 | corrected normalisation: each record is paired with the related items its entry carried |
| Inventory.HeaderId | src/features/inventory/adjustment-form-screen.tsx:133 | corrected header id: none exactly when neither the attributes, nor the body, nor the envelope's `data` carry an id |
| Inventory.HeaderIdExtendsAsWritten | src/features/inventory/inventory-screen.tsx:136 | wherever the screens' `adj.id ?? adj.data?.id` finds an id, the corrected resolution finds the same one |
| Inventory.HeaderIdLostOnEnvelope | src/features/inventory/inventory-screen.tsx:136 | for a standard envelope whose attributes lack an id, the as-written expression yields no id and the corrected one yields the envelope id |
| Inventory.FinalizePath | src/features/inventory/api.ts:110 | the finalize URL is `restify/inventory-adjustments/`, then the id's numeral (`undefined` for an unknown id), then `/actions/finalize`, each part in its place |
| Inventory.FinalizePathInjective | src/features/inventory/api.ts:110 | distinct adjustment ids are finalized at distinct URLs |
| Gateway.IssuedSpec | src/features/inventory/adjustment-form-screen.tsx:97-198 | the calls issued are a prefix of the plan; every issued call except the last succeeded; the whole plan runs exactly when nothing fails; an early stop ends on the failed call |
| Gateway.IssuedStopsAt | src/features/inventory/adjustment-form-screen.tsx:195-198 | a failure at step k, after k successes, means exactly the first k+1 calls were issued |
| Gateway.Run | src/features/inventory/adjustment-form-screen.tsx:128-180 | issuing the calls one by one and stopping at the first failure produces exactly `Issued`, and reports success iff every call succeeded |
| NewOrder.FindLine | src/features/orders/new-order-screen.tsx:333 | `find` returns the first line for the product, or none when no line has it |
| NewOrder.UpdateQuantity | src/features/orders/new-order-screen.tsx:331-346 | an update adds at most one line and never a line for a product other than the updated one |
| NewOrder.UpdateKeepsPosition | src/features/orders/new-order-screen.tsx:339-344 | a new product's line is appended at the end with quantity 1; an adjusted line that survives stays at its index with only its quantity changed to old+delta |
| NewOrder.UpdatePreservesWellFormed | src/features/orders/new-order-screen.tsx:328-346 | after any update of a well-formed cart, every quantity is still at least 1 and no two lines share a product |
| NewOrder.UpdateDisplayedQuantity | src/features/orders/new-order-screen.tsx:200 | the updated product then shows old+delta (or 0 once its line is removed), a new product shows 1 after a positive delta and 0 otherwise, and every other product shows what it showed before |
| NewOrder.UpdateKeepsOtherLines | src/features/orders/new-order-screen.tsx:333-344 | lines of other products are exactly the previous ones, in the same order |
| NewOrder.TotalAppend | src/features/orders/new-order-screen.tsx:348-351 | the total of two carts joined is the sum of their totals |
| NewOrder.ReduceIsTotal | src/features/orders/new-order-screen.tsx:348-351 | the screen's left `reduce` from an accumulator equals the accumulator plus the cart total |
| NewOrder.UpdateTotal | src/features/orders/new-order-screen.tsx:348-351 | after an update, the total changes by (new shown quantity − old shown quantity) × the line's unit price |
| NewOrder.OrderRequest | src/features/orders/new-order-screen.tsx:353-358 | there is no request without a client; otherwise the request has the client's id and item i is cart line i's (product id, quantity), in cart order, with nothing else sent |
| NewOrder.OrderRequestMatchesScreen | src/features/orders/new-order-screen.tsx:358 | in a well-formed cart, every requested item has the quantity shown for its product (at least 1), no product is requested twice, and every product with a line is requested |
| NewOrder.Submit | src/features/orders/new-order-screen.tsx:353-369 | no call without a client; otherwise exactly one create-order call; the orders query is invalidated only when it succeeds |
| NewOrder.Apply | src/features/orders/new-order-screen.tsx:371-405 | an action whose control is not on screen changes nothing |
| NewOrder.Transitions | src/features/orders/new-order-screen.tsx:371-405 | step 1 goes to 2 on a client choice; step 2 goes to 3 on continue, and only with a non-empty cart; back goes 3→2, 2→1, and from 1 leaves the wizard |
| NewOrder.ApplyPreservesConsistent | src/features/orders/new-order-screen.tsx:211 | every action keeps the invariant: a well-formed cart, line snapshots match their product, steps 2 and 3 have a client, step 3 has a non-empty cart |
| NewOrder.RunConsistent | src/features/orders/new-order-screen.tsx:326-346 | every screen reachable by any sequence of actions satisfies the invariant |
| NewOrder.CheckoutSubmits | src/features/orders/new-order-screen.tsx:353-358 | submitting from any reachable checkout sends exactly one create-order call, with a non-empty item list |
| AdjustmentForm.Validate | src/features/inventory/adjustment-form-screen.tsx:34-41 | there are no errors iff there is at least one line and every quantity is ≥ 1; the no-lines error and each below-one error are reported exactly when they apply |
| AdjustmentForm.InitialValues | src/features/inventory/adjustment-form-screen.tsx:70-86 | new mode starts as input with an empty description and no lines; edit mode takes the type, the description, and the related items' (product, quantity) pairs in order |
| AdjustmentForm.ConfirmAddItem | src/features/inventory/adjustment-form-screen.tsx:209-220 | text whose parseInt is NaN or ≤ 0 is refused; otherwise the selected product is appended at the end with that quantity (never merged), and nothing happens with no product selected |
| AdjustmentForm.ConfirmAddNumeral | src/features/inventory/adjustment-form-screen.tsx:210-216 | typing a positive numeral (after optional blanks, before any non-digit text) appends exactly that many units of the selected product |
| AdjustmentForm.ConfirmAddKeepsValid | src/features/inventory/adjustment-form-screen.tsx:209-217 | adding to lines with valid quantities gives lines that pass validation |
| AdjustmentForm.HeaderDescription | src/features/inventory/adjustment-form-screen.tsx:131 | an empty description becomes `Ajuste de Entrada` or `Ajuste de Salida` depending on the type; a non-empty one is kept |
| AdjustmentForm.NewLinesSpec | src/features/inventory/adjustment-form-screen.tsx:166-176 | reconciliation keeps an order-preserving subsequence of the draft: exactly the lines with no existing item of the same product and quantity, each as many times as the draft has it |
| AdjustmentForm.NewLinesIdempotent | src/features/inventory/adjustment-form-screen.tsx:166-176 | reconciling twice is the same as reconciling once |
| AdjustmentForm.UnchangedEditSendsNoLines | src/features/inventory/adjustment-form-screen.tsx:75-78 | a draft left as loaded in edit mode has nothing to create |
| AdjustmentForm.RepeatedLineIsNotSent | src/features/inventory/adjustment-form-screen.tsx:168 | matching is by value: a second line equal to an existing one is not sent, while a different quantity is sent |
| AdjustmentForm.Invalidations | src/features/inventory/adjustment-form-screen.tsx:187-191 | after a save, the list and products queries are refreshed, plus the edited adjustment's own query only when editing |
| AdjustmentForm.Submit | src/features/inventory/adjustment-form-screen.tsx:93-199 | no call without a user; otherwise exactly the issued prefix of the plan is sent; the save succeeds iff every planned call succeeds; queries are refreshed only then |
| AdjustmentForm.CreatePlanShape | src/features/inventory/adjustment-form-screen.tsx:127-154 | create mode sends the header (user, type, description with default), then one line call per draft line in order carrying the returned header id, then finalize for that id exactly when finalizing |
| AdjustmentForm.EditPlanShape | src/features/inventory/adjustment-form-screen.tsx:100-106 | edit mode sends the header update (type and description as typed), then the reconciled lines for the edited id, then finalize when asked |
| AdjustmentForm.FinalizeComesLast | src/features/inventory/adjustment-form-screen.tsx:179-180 | the finalize call appears only as the last call, and it is there iff the action is finalize |
| AdjustmentForm.UnchangedDraftOnlyUpdates | src/features/inventory/adjustment-form-screen.tsx:100-176 | saving an unchanged edit as a draft sends only the header update |
| AdjustmentItemList.RowKeyInjective | src/features/inventory/components/adjustment-item-list.tsx:36 | two rows have the same key iff they have the same product id and quantity |
| AdjustmentItemList.KeysUniqueIff | src/features/inventory/components/adjustment-item-list.tsx:36 | keys are unique iff no two lines repeat a (product, quantity) pair |
| AdjustmentItemList.Render | src/features/inventory/components/adjustment-item-list.tsx:14-74 | the count equals the number of lines; rows follow line order; row i removes index i; the empty notice is shown iff there are no rows |
| AdjustmentItemList.RemoveAt | src/features/inventory/components/adjustment-item-list.tsx:51 | removing index i deletes exactly that line; the lines before it stay in place and the lines after it shift down by one |
| AdjustmentItemList.RemoveAtInverse | src/features/inventory/components/adjustment-item-list.tsx:51 | putting the removed line back at its index restores the list |
| AdjustmentItemList.RowRemovesItsLine | src/features/inventory/components/adjustment-item-list.tsx:34-51 | each row's button removes the line that row shows, and only that line (as a multiset) |
| ProductSelector.FilteredSpec | src/features/inventory/components/product-selector.tsx:28-31 | a product is shown iff it is listed and its lower-cased name or SKU contains the lower-cased search; shown rows keep list order |
| ProductSelector.EmptySearchShowsAll | src/features/inventory/components/product-selector.tsx:28-31 | an empty search shows every product |
| ProductSelector.SearchIgnoresCase | src/features/inventory/components/product-selector.tsx:29-30 | searches that differ only in letter case show the same rows |
| ProductSelector.LongerSearchNarrows | src/features/inventory/components/product-selector.tsx:28-31 | if the shorter search occurs inside the longer one, the longer search's rows are the shorter search's rows filtered again, so never more rows |
| ProductSelector.Select | src/features/inventory/components/product-selector.tsx:55 | tapping a shown row hands back a listed product that matches the search |
| StockIn.ChipIcon | src/features/inventory/inventory-screen.tsx:35-40 | `paca` gets a cube, `botellon` a water drop, anything else a snowflake |
| StockIn.Panel | src/features/inventory/inventory-screen.tsx:200-225 | a spinner while loading; chips iff loaded with at least one product; otherwise the empty notice |
| StockIn.Description | src/features/inventory/inventory-screen.tsx:134 | an empty description becomes `Ingreso de <product name>` |
| StockIn.Submit | src/features/inventory/inventory-screen.tsx:118-156 | no call without a user or with a quantity that is not a positive parseInt; otherwise the issued prefix of header → line → finalize; success iff all three succeed; then the two queries are refreshed and the selection is cleared; the busy flag goes true then false whenever calls were made |
| StockIn.SameAsOneLineForm | src/features/inventory/inventory-screen.tsx:131-142 | a stock-in with a typed description sends the same calls as finalizing a one-line input adjustment in the form |
| StockIn.TypedQuantityIsRecorded | src/features/inventory/inventory-screen.tsx:126-146 | typing a positive numeral records exactly that many units when every call succeeds |
| AdjustmentDetail.FindAdjustment | src/features/inventory/adjustment-detail-screen.tsx:24-28 | the adjustment found is the first one in the list with the route id, and there is one iff some listed adjustment has that id |
| AdjustmentDetail.FindProduct | src/features/inventory/adjustment-detail-screen.tsx:71-77 | `find` returns the first listed product with the id, and nothing when no listed product has it or the products have not arrived |
| AdjustmentDetail.ProductName | src/features/inventory/adjustment-detail-screen.tsx:71-73 | with no listed product of that id the name is `Producto #<id>`; otherwise it is the first such product's name, or `Producto #<id>` when that name is empty; it is never empty |
| AdjustmentDetail.Rows | src/features/inventory/adjustment-detail-screen.tsx:99-117 | one row per related item, in order, with its quantity, resolved name and unit (`''` when the product is unknown) |
| AdjustmentDetail.NoticeIffNoRows | src/features/inventory/adjustment-detail-screen.tsx:118-122 | the "no items" notice is shown iff there is no row |
| AdjustmentDetail.EditPathRoundTrip | src/features/inventory/components/adjustment-detail-actions.tsx:27 | the edit route's segment reads back as the adjustment id |
| AdjustmentDetail.Actions | src/features/inventory/components/adjustment-detail-actions.tsx:21-64 | no actions for a finalized adjustment; for a draft, edit opens `/inventory/adjustment/edit/<id>`, both buttons are disabled while finalizing, and a spinner shows then |
| AdjustmentDetail.Screen | src/features/inventory/adjustment-detail-screen.tsx:32-131 | loading iff the list is loading or has no adjustment with the id; otherwise it shows that adjustment, its rows, the notice iff no rows, and actions iff it is not finalized |
| AdjustmentDetail.ScreenAsWritten | src/features/inventory/adjustment-detail-screen.tsx:99-122 | fed the normalised list as the code is written, any adjustment it shows has no rows and shows the notice |
| AdjustmentDetail.RelatedItemsLostOnDetail | src/features/inventory/adjustment-detail-screen.tsx:118-122 | for a draft whose list entry relates one line, the as-written screen shows no line and the corrected screen shows one |
| AdjustmentDetail.HandleFinalize | src/features/inventory/adjustment-detail-screen.tsx:40-69 | cancel does nothing; confirm posts one finalize for the route id; on success both queries are refreshed and the list refetched; the finalizing flag goes true then false either way |
| AdjustmentDetail.FinalizeTargetsShownAdjustment | src/features/inventory/adjustment-detail-screen.tsx:52 | the finalize POST goes to the URL of the adjustment the screen shows |
| Auth.SignIn | src/features/auth/use-auth-store.tsx:27-31 | both values are stored and held, and the status is signed in |
| Auth.SignOut | src/features/auth/use-auth-store.tsx:32-36 | both keys are removed, nothing is held, and the status is signed out |
| Auth.Hydrate | src/features/auth/use-auth-store.tsx:37-51 | a read error leaves everything as it was; otherwise the status is never idle, it is signed in exactly when both values are stored, with exactly the stored token and user, and the session it settles on is consistent and mirrored in storage |
| Auth.OperationsKeepInvariant | src/features/auth/use-auth-store.tsx:27-46 | every operation keeps "signed in ⇒ token and user held, not signed in ⇒ both null" and keeps storage mirroring memory |
| Auth.InitialConsistent | src/features/auth/use-auth-store.tsx:24-26 | the initial idle state with nothing held satisfies the invariant |
| Auth.SignInSurvivesRestart | src/features/auth/use-auth-store.tsx:38-43 | hydrating from what sign-in stored restores the same signed-in session |
| Auth.SignOutSurvivesRestart | src/features/auth/use-auth-store.tsx:38-46 | hydrating after sign-out stays signed out |
| Auth.HydrateLeavesIdle | src/features/auth/use-auth-store.tsx:38-50 | from the initial state, hydrating leaves the status idle iff storage could not be read |
| Auth.HydrateIdempotent | src/features/auth/use-auth-store.tsx:37-51 | hydrating twice is the same as hydrating once |
| Dashboard.CountStatus | src/features/dashboard/dashboard-screen.tsx:126-127 | the count for a status is the number of list positions holding an order with that status, and 0 before orders arrive |
| Dashboard.StatusCountsPartition | src/features/dashboard/dashboard-screen.tsx:126-141 | pending + delivered + cancelled = total, so pending + delivered ≤ total |
| Dashboard.ReduceIsSum | src/features/dashboard/dashboard-screen.tsx:196 | the left `reduce` from an accumulator equals the accumulator plus the sum of the amounts |
| Dashboard.TotalSales | src/features/dashboard/dashboard-screen.tsx:196 | sales are the sum of the order amounts, and 0 before orders arrive |
| Dashboard.SumAppend | src/features/dashboard/dashboard-screen.tsx:196 | sales over two parts of a list add up |
| Dashboard.StatusLabel | src/features/dashboard/dashboard-screen.tsx:58-100 | the badge reads `Pendiente` iff the order is pending, and `Entregado` for every other status |
| Dashboard.RecentCards | src/features/dashboard/dashboard-screen.tsx:150-159 | there are min(5, n) cards, card i is order i's, and its item count is `items.length`, or 0 when items are missing |
| Dashboard.RecentCardsAreFirstFive | src/features/dashboard/dashboard-screen.tsx:150-152 | orders after the fifth never change the cards, and each card belongs to a listed order |
| Dashboard.CancelledBadgeReadsDelivered | src/features/dashboard/dashboard-screen.tsx:100 | a cancelled order's badge reads the same as a delivered one's |
| Dashboard.Delivery | src/features/dashboard/dashboard-screen.tsx:122-164 | the delivery dashboard's counts are the status counts and the total; a spinner iff loading; cards iff loaded and non-empty |
| Dashboard.Admin | src/features/dashboard/dashboard-screen.tsx:192-253 | the admin dashboard shows sales, the pending count, the product and order counts, and the product list iff there is at least one product |
| Dashboard.HomeFor | src/features/dashboard/dashboard-screen.tsx:260-263 | the admin dashboard is shown iff a user is signed in with the admin role |
| Text.NatToStringRoundTrip | src/features/products/api.ts:50 | `Number` of the decimal numeral of n is n |
| Text.NatToStringInjective | src/features/inventory/api.ts:110 | distinct numbers print as distinct numerals |
| Text.IntToStringInjective | src/features/inventory/components/adjustment-item-list.tsx:36 | distinct integers, negative ones included, print distinctly |
| Text.ParseIntDefined | src/features/inventory/adjustment-form-screen.tsx:210-211 | parseInt yields a number iff a decimal digit follows the leading white space and an optional sign; otherwise it yields NaN |
| Text.ParseIntNumeral | src/features/inventory/inventory-screen.tsx:126 | parseInt of white space, a numeral and any text not starting with a digit is the numeral's value |
| Text.ParseIntNegative | src/features/inventory/inventory-screen.tsx:127 | a numeral after a minus sign reads as minus its value, a non-positive number that both screens refuse (`-0` reads as 0 here where JavaScript gives -0; both are refused) |
| Text.LowerIdempotent | src/features/inventory/components/product-selector.tsx:29-30 | lower-casing twice is lower-casing once |
| Text.ContainsTransitive | src/features/inventory/components/product-selector.tsx:29-30 | a substring of a substring is a substring |
| Text.ContainsLower | src/features/inventory/components/product-selector.tsx:29-30 | lower-casing keeps an occurrence of a substring |
| Seqs.Filter | src/features/inventory/components/product-selector.tsx:28 | `filter` keeps only accepted elements, keeps each accepted element as many times as it occurs, and never lengthens the list |
| Seqs.FilterCountsPositions | src/features/dashboard/dashboard-screen.tsx:126-127 | the length of a filtered list is the number of positions whose element is accepted |
| Seqs.FilterIsSubsequence | src/features/orders/new-order-screen.tsx:336 | filtering keeps the order of what it keeps |
| Seqs.FilterOfFilter | src/features/inventory/components/product-selector.tsx:28-31 | filtering by a stronger condition after a weaker one is the same as filtering by the stronger one alone |

## Left out

- Rendering, styling, dialogs (`Alert`), navigation (`router`) and icons are left out. The
  model records only what the user sees as data (rows, counts, notices, badges, enabled
  buttons) and what is sent or refreshed as traces.
- Asynchrony, react-query caching and concurrency are left out. Each remote call is one
  atomic step whose outcome an oracle supplies. Query invalidation and refetch are events
  in the result; cache contents are not modelled.
- `useInventoryAdjustment` and `useUpdateAdjustment` are not defined in the inventory API.
  The adjustment being edited is an input (`existing`). The update is a call in the trace
  whose URL is unknown.
- Floating-point amounts are left out. Prices are integers, and the sales total takes the
  per-order amount as a function parameter. `Number(total_amount)` and
  `Number(sale_price)` on decimal strings, NaN propagation and `toLocaleString` are not
  modelled.
- `toLowerCase` is ASCII-only. Unicode case mapping is not modelled.
- Text.ParseInt: integers are exact and unbounded. JavaScript numbers are doubles, so `parseInt` rounds numerals above 2^53 and reads a long enough numeral as Infinity. The ids and quantities the app handles are far below 2^53.
- Text.NatToStringRoundTrip: exact for every natural number. In JavaScript, `Number` of a numeral is exact only up to 2^53, and a template literal prints 1e21 and above in exponent form.
- Text.ParseIntNumeral: exact for every natural number. JavaScript's `parseInt` rounds numerals above 2^53.
- Restify.EntryId: `Number(id)` is modelled as the exact value of the numeral, with no rounding above 2^53.
- Envelope ids are decimal digit strings. `Number` of any other text (NaN, signs,
  exponents) is not modelled, nor is a NaN route id. The form's `!!adjustmentId` is modelled
  on natural numbers: 0 means create mode.
- The form library's submit gate is left out. `AdjustmentForm.Submit` is stated for any
  values, and `AdjustmentForm.Validate` states what the gate checks. The same goes for
  double-submit protection through `isSubmitting` and `isPending` (disabled buttons).
- An edit-mode line is shown with a stand-in product (`Producto #<id>`, unit `UN`). The
  stand-in has an empty SKU and a price of 0, where the code leaves those fields undefined.
- Storage is two slots, `token` and `user`. Each slot is empty, holds a value, or holds a
  value whose read throws. The storage library and JSON parsing are not modelled.
- Storage writes are assumed not to throw in `signIn` and `signOut`.
- Login, profile, the client screens, the product form and the lists are left out. They
  are render-only glue.
- The login and product-form schemas are left out. The e-mail validator is a library
  function, and the product price is a float.
- The axios client and its interceptors are left out.
- AdjustmentForm.Submit: the header id used in create mode is `Inventory.HeaderId`, the
  corrected resolution (see Findings). The code as written uses the weaker
  `Inventory.HeaderIdAsWritten`.
- StockIn.Submit: the header id likewise comes from the corrected `Inventory.HeaderId`.
- AdjustmentDetail.Screen: the screen is fed the corrected list, with related items kept
  (see Findings). `AdjustmentDetail.ScreenAsWritten` models the code as written.

## Findings

| source | as written | input that shows it | evidently intended | confidence | as-written member | corrected member |
|---|---|---|---|---|---|---|
| src/features/inventory/adjustment-detail-screen.tsx:99-122 | The list hook normalises each entry to `{...attributes, id}`, which drops `relationships` (src/features/inventory/api.ts:67-70). The detail screen then reads `relationships?.items` from that result. | Any adjustment whose list entry relates items, e.g. a draft with one related line | Show the adjustment's related lines | medium (not executed) | AdjustmentDetail.ScreenAsWritten (see also AdjustmentDetail.RelatedItemsLostOnDetail, Inventory.NormaliseListDropsRelationships) | AdjustmentDetail.Screen over Inventory.NormaliseListWithItems |
| src/features/inventory/inventory-screen.tsx:136 | `adj.id ?? adj.data?.id` is applied to the result of the create hook. The hook (src/features/inventory/api.ts:86) already replaced an envelope whose `data` has attributes with those attributes, so `adj.data?.id` is reached only when the envelope's `data` has no attributes. The same expression is at src/features/inventory/adjustment-form-screen.tsx:133. | The response `{data: {id: 7, attributes: {…no id…}}}` gives `undefined` instead of 7. The line and the finalize are then sent for `undefined`. | Take the id from the attributes, the body or the envelope, whichever carries it | low (not executed; depends on whether the backend echoes the id inside the attributes) | Inventory.HeaderIdAsWritten (see Inventory.HeaderIdLostOnEnvelope) | Inventory.HeaderId |
