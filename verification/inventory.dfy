/** The inventory-adjustments API: adjustment records, the list query, creation of a header
    and of its items one at a time, and the finalize action. */
module Inventory {
  import opened Wrappers
  import Text
  import Restify

  datatype AdjustmentType = Input | Output

  /** An adjustment is a draft until finalized; finalizing is one-way. */
  datatype AdjustmentStatus = Draft | Finalized

  datatype InventoryAdjustmentItem = InventoryAdjustmentItem(
    id: nat,
    adjustmentId: nat,
    productId: nat,
    quantity: int,
    createdAt: string,
    updatedAt: string)

  datatype InventoryAdjustment = InventoryAdjustment(
    id: nat,
    userId: nat,
    kind: AdjustmentType,
    description: string,
    status: AdjustmentStatus,
    finalizedAt: Option<string>,
    createdAt: string,
    updatedAt: string)

  /** What a list entry may carry beside its attributes (the query asks for `related: items`). */
  datatype Relationships = Relationships(items: Option<seq<InventoryAdjustmentItem>>)

  type AdjustmentEntry = Restify.Entry<InventoryAdjustment, Relationships>

  function WithId(a: InventoryAdjustment, id: nat): InventoryAdjustment
  {
    a.(id := id)
  }

  /** The adjustment list as the query returns it: attributes with the envelope's id, in
      entry order. The result type has no room for `relationships`: they are dropped. */
  function NormaliseList(entries: seq<AdjustmentEntry>): seq<InventoryAdjustment>
  {
    Restify.Normalise(entries, WithId)
  }

  /** Entries that differ only in their related items normalise to the same list. */
  lemma NormaliseListDropsRelationships(a: seq<AdjustmentEntry>, b: seq<AdjustmentEntry>)
    requires |a| == |b|
    requires forall i | 0 <= i < |a| :: a[i].(relationships := None) == b[i].(relationships := None)
    ensures NormaliseList(a) == NormaliseList(b)
  {
    Restify.NormaliseIgnoresRelationships(a, b, WithId);
  }

  /** `entry.relationships?.items`. */
  function RelatedItems(rel: Option<Relationships>): Option<seq<InventoryAdjustmentItem>>
  {
    if rel.Some? then rel.value.items else None
  }

  /** An adjustment together with the items the backend related to it. */
  datatype AdjustmentWithItems = AdjustmentWithItems(
    adjustment: InventoryAdjustment,
    items: Option<seq<InventoryAdjustmentItem>>)

  /** Normalisation that keeps each entry's related items next to the record. */
  function NormaliseListWithItems(entries: seq<AdjustmentEntry>): (r: seq<AdjustmentWithItems>)
    ensures |r| == |entries|
    ensures forall i | 0 <= i < |r| ::
      r[i].adjustment == NormaliseList(entries)[i] && r[i].items == RelatedItems(entries[i].relationships)
  {
    var plain := NormaliseList(entries);
    seq(|entries|, i requires 0 <= i < |entries| =>
      AdjustmentWithItems(plain[i], RelatedItems(entries[i].relationships)))
  }

  // ---------------------------------------------------------------------------
  // Mutations
  // ---------------------------------------------------------------------------

  datatype CreateAdjustmentInput = CreateAdjustmentInput(userId: nat, kind: AdjustmentType, description: string)

  /** The item payload: which adjustment (possibly unknown, sent as `undefined`), which
      product, how many. */
  datatype CreateItemInput = CreateItemInput(adjustmentId: Option<nat>, productId: nat, quantity: int)

  /** The record a create-adjustment response describes, as far as the screens read it:
      only its id, which the attributes may or may not include. */
  datatype CreatedAdjustment = CreatedAdjustment(id: Option<nat>)

  type CreateResponse = Restify.Body<CreatedAdjustment>

  /** The create hooks' result: `data.data?.attributes ?? data`. */
  function UnwrapCreated(b: CreateResponse): Restify.Unwrapped<CreatedAdjustment>
  {
    Restify.UnwrapAttributes(b)
  }

  /** The header id the screens take from a create response, as written: `adj.id ??
      adj.data?.id` applied to the already unwrapped result. When the response was an
      envelope with attributes, the unwrapped value is those attributes, which have no `data`,
      so the envelope's own id is out of reach. */
  function HeaderIdAsWritten(b: CreateResponse): Option<nat>
  {
    match UnwrapCreated(b)
    case Attributes(a) => a.id
    case Whole(body) => body.id.Or(if body.data.Some? then body.data.value.id else None)
  }

  /** The header id a create response carries: the attributes' id, else the body's own id,
      else the envelope's `data.id`. */
  function HeaderId(b: CreateResponse): (r: Option<nat>)
    ensures r.None? <==>
      && (b.data.Some? && b.data.value.attributes.Some? ==> b.data.value.attributes.value.id.None?)
      && b.id.None?
      && (b.data.Some? ==> b.data.value.id.None?)
  {
    var attributesId :=
      if b.data.Some? && b.data.value.attributes.Some? then b.data.value.attributes.value.id else None;
    var dataId := if b.data.Some? then b.data.value.id else None;
    attributesId.Or(b.id).Or(dataId)
  }

  /** Wherever the screens' expression finds an id, the corrected resolution finds the same. */
  lemma HeaderIdExtendsAsWritten(b: CreateResponse)
    ensures HeaderIdAsWritten(b).Some? ==> HeaderId(b) == HeaderIdAsWritten(b)
  {
  }

  /** The standard envelope whose attributes omit the id: the screens' expression loses the
      header id, the corrected resolution reads it from `data.id`. */
  lemma HeaderIdLostOnEnvelope(id: nat)
    ensures HeaderIdAsWritten(Restify.Envelope(id, CreatedAdjustment(None))) == None
    ensures HeaderId(Restify.Envelope(id, CreatedAdjustment(None))) == Some(id)
  {
  }

  /** `Some(n)` prints as the numeral of `n`, an unknown id as `undefined`. */
  function IdText(id: Option<nat>): string
  {
    if id.Some? then Text.NatToString(id.value) else "undefined"
  }

  const FinalizePrefix := "restify/inventory-adjustments/"
  const FinalizeSuffix := "/actions/finalize"

  /** The URL the finalize action is posted to. */
  function FinalizePath(id: Option<nat>): (p: string)
    ensures |p| == |FinalizePrefix| + |IdText(id)| + |FinalizeSuffix|
    ensures p[..|FinalizePrefix|] == FinalizePrefix
    ensures p[|p| - |FinalizeSuffix|..] == FinalizeSuffix
    ensures p[|FinalizePrefix|..|p| - |FinalizeSuffix|] == IdText(id)
  {
    FinalizePrefix + IdText(id) + FinalizeSuffix
  }

  /** The finalize URL names its adjustment: distinct ids are posted to distinct URLs. */
  lemma FinalizePathInjective(a: nat, b: nat)
    ensures FinalizePath(Some(a)) == FinalizePath(Some(b)) ==> a == b
  {
    var pa, pb := FinalizePath(Some(a)), FinalizePath(Some(b));
    if pa == pb {
      assert pa[|FinalizePrefix|..|pa| - |FinalizeSuffix|] == Text.NatToString(a);
      assert pb[|FinalizePrefix|..|pb| - |FinalizeSuffix|] == Text.NatToString(b);
      Text.NatToStringInjective(a, b);
    }
  }
}
