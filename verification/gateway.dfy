/** The remote calls the screens issue, the replies they get back, and the one rule every
    multi-step flow follows: calls are issued one after another, each only after the
    previous one succeeded, and the first failure ends the flow with nothing undone. */
module Gateway {
  import opened Wrappers
  import Inventory
  import Orders

  datatype Call =
    | CreateAdjustment(header: Inventory.CreateAdjustmentInput)
      /** The update hook is not among the files modelled; only its arguments are recorded. */
    | UpdateAdjustment(id: nat, kind: Inventory.AdjustmentType, description: string)
    | CreateAdjustmentItem(item: Inventory.CreateItemInput)
    | FinalizeAdjustment(target: Option<nat>)
    | CreateOrder(order: Orders.CreateOrderInput)

  /** The POST endpoint of a call; the update hook's endpoint is unknown. */
  function Endpoint(c: Call): Option<string>
  {
    match c
    case CreateAdjustment(_) => Some("restify/inventory-adjustments")
    case UpdateAdjustment(_, _, _) => None
    case CreateAdjustmentItem(_) => Some("restify/inventory-adjustment-items")
    case FinalizeAdjustment(id) => Some(Inventory.FinalizePath(id))
    case CreateOrder(_) => Some(Orders.OrdersPath)
  }

  /** The cached queries a flow invalidates once it has fully succeeded. */
  datatype QueryKey =
    | AdjustmentsQuery            // ['inventory-adjustments']
    | ProductsQuery               // ['products']
    | AdjustmentQuery(id: nat)    // ['inventory-adjustment', {id}]
    | OrdersQuery                 // ['orders']

  /** A reply: success with the response body (read only after creating an adjustment
      header) or failure. */
  datatype Reply = Ok(body: Inventory.CreateResponse) | Failed

  /** The backend, as seen by one flow: the reply to the k-th call it issues (from 0). */
  type Oracle = nat -> Reply

  /** The calls 0 .. n-1 all succeed. */
  predicate SucceedsUpTo(oracle: Oracle, n: nat)
  {
    forall k | 0 <= k < n :: oracle(k).Ok?
  }

  /** Position of the first failing call of `plan` at or after `from`, or `|plan|`. */
  function FirstFailure(plan: seq<Call>, oracle: Oracle, from: nat): (f: nat)
    requires from <= |plan|
    ensures from <= f <= |plan|
    ensures f < |plan| ==> oracle(f).Failed?
    ensures forall k | from <= k < f :: oracle(k).Ok?
    decreases |plan| - from
  {
    if from == |plan| then from
    else if oracle(from).Failed? then from
    else FirstFailure(plan, oracle, from + 1)
  }

  /** The calls actually issued when `plan` is run against `oracle`: everything up to and
      including the first failure. */
  function Issued(plan: seq<Call>, oracle: Oracle): seq<Call>
  {
    var f := FirstFailure(plan, oracle, 0);
    if f < |plan| then plan[..f + 1] else plan
  }

  /** Running a plan issues a prefix of it; every issued call but the last succeeded; the
      plan runs to its end exactly when no call fails, and when it stops early the last
      issued call is the one that failed. */
  lemma IssuedSpec(plan: seq<Call>, oracle: Oracle)
    ensures var calls := Issued(plan, oracle);
      && calls <= plan
      && SucceedsUpTo(oracle, if |calls| == 0 then 0 else |calls| - 1)
      && (SucceedsUpTo(oracle, |plan|) <==> calls == plan && SucceedsUpTo(oracle, |calls|))
      && (!SucceedsUpTo(oracle, |plan|) ==> 0 < |calls| && oracle(|calls| - 1).Failed?)
  {
    var f := FirstFailure(plan, oracle, 0);
    if f < |plan| {
      assert !SucceedsUpTo(oracle, |plan|);
    }
  }

  /** A stop at the first failure is the issued prefix: everything up to and including the
      failing call. */
  lemma IssuedStopsAt(plan: seq<Call>, oracle: Oracle, k: nat)
    requires k < |plan| && SucceedsUpTo(oracle, k) && oracle(k).Failed?
    ensures Issued(plan, oracle) == plan[..k + 1]
  {
    var f := FirstFailure(plan, oracle, 0);
    assert f <= k && !(f < k);
  }

  /** Issues the calls of `plan` in order, each after the previous one succeeded, until one
      fails; `ok` tells whether the whole plan went through. */
  method Run(plan: seq<Call>, oracle: Oracle) returns (calls: seq<Call>, ok: bool)
    ensures calls == Issued(plan, oracle)
    ensures ok <==> SucceedsUpTo(oracle, |plan|)
  {
    calls := [];
    var k := 0;
    while k < |plan|
      invariant 0 <= k <= |plan|
      invariant calls == plan[..k]
      invariant SucceedsUpTo(oracle, k)
    {
      calls := calls + [plan[k]];
      if oracle(k).Failed? {
        IssuedStopsAt(plan, oracle, k);
        return calls, false;
      }
      k := k + 1;
    }
    assert calls == plan;
    ok := true;
  }
}
