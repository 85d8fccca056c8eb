/** The backend's response envelopes and the two ways the API hooks take them apart:
    list normalisation (`{...attributes, id: Number(id)}` per entry) and the unwrapping of a
    create response (`body.data?.attributes ?? body` or `body.data ?? body`). */
module Restify {
  import opened Wrappers
  import Text

  /** One element of a list envelope's `data` array (or a detail envelope's `data`): the id
      arrives as a numeral string, the record itself under `attributes`, and related records
      optionally under `relationships`. */
  datatype Entry<A, R> = Entry(id: Text.Digits, kind: string, attributes: A, relationships: Option<R>)

  /** `Number(entry.id)`. */
  function EntryId<A, R>(e: Entry<A, R>): nat
  {
    Text.DigitsValue(e.id)
  }

  /** `data.map(item => ({...item.attributes, id: Number(item.id)}))`, where `withId`
      replaces the record's `id` field. */
  function Normalise<A, R>(entries: seq<Entry<A, R>>, withId: (A, nat) -> A): (r: seq<A>)
    ensures |r| == |entries|
    ensures forall i | 0 <= i < |r| :: r[i] == withId(entries[i].attributes, EntryId(entries[i]))
  {
    seq(|entries|, i requires 0 <= i < |entries| => withId(entries[i].attributes, EntryId(entries[i])))
  }

  /** The envelope a backend sends for records whose ids are printed as numerals. */
  function Wrap<A, R>(xs: seq<A>, idOf: A -> nat, kind: string): (r: seq<Entry<A, R>>)
    ensures |r| == |xs|
  {
    seq(|xs|, i requires 0 <= i < |xs| => Entry(Text.NatToString(idOf(xs[i])), kind, xs[i], None))
  }

  /** Normalising what the backend wrapped gives back the records it wrapped. */
  lemma NormaliseWrap<A, R>(xs: seq<A>, idOf: A -> nat, withId: (A, nat) -> A, kind: string)
    requires forall x :: withId(x, idOf(x)) == x
    ensures Normalise(Wrap<A, R>(xs, idOf, kind), withId) == xs
  {
    var w := Wrap<A, R>(xs, idOf, kind);
    forall i | 0 <= i < |xs|
      ensures Normalise(w, withId)[i] == xs[i]
    {
      Text.NatToStringRoundTrip(idOf(xs[i]));
      assert w[i] == Entry(Text.NatToString(idOf(xs[i])), kind, xs[i], None);
    }
  }

  /** Normalisation never looks at `relationships`. */
  lemma NormaliseIgnoresRelationships<A, R>(a: seq<Entry<A, R>>, b: seq<Entry<A, R>>, withId: (A, nat) -> A)
    requires |a| == |b|
    requires forall i | 0 <= i < |a| :: a[i].(relationships := None) == b[i].(relationships := None)
    ensures Normalise(a, withId) == Normalise(b, withId)
  {
    forall i | 0 <= i < |a|
      ensures Normalise(a, withId)[i] == Normalise(b, withId)[i]
    {
      assert a[i].id == a[i].(relationships := None).id;
      assert a[i].attributes == a[i].(relationships := None).attributes;
    }
  }

  // ---------------------------------------------------------------------------
  // Create responses
  // ---------------------------------------------------------------------------

  /** A `data` node of a response; either part may be missing. */
  datatype Node<A> = Node(id: Option<nat>, attributes: Option<A>)

  /** A response body, as far as the hooks read it: an `id` of its own (a flat record) and an
      optional `data` node (an envelope). */
  datatype Body<A> = Body(id: Option<nat>, data: Option<Node<A>>)

  /** The standard envelope `{data: {id, attributes}}` of a created record. */
  function Envelope<A>(id: nat, attributes: A): Body<A>
  {
    Body(None, Some(Node(Some(id), Some(attributes))))
  }

  datatype Unwrapped<A> = Attributes(attributes: A) | Whole(body: Body<A>)

  /** `body.data?.attributes ?? body`. */
  function UnwrapAttributes<A>(b: Body<A>): (r: Unwrapped<A>)
    ensures r.Attributes? <==> b.data.Some? && b.data.value.attributes.Some?
    ensures r.Attributes? ==> r.attributes == b.data.value.attributes.value
    ensures r.Whole? ==> r.body == b
  {
    match b.data
    case Some(Node(_, Some(a))) => Attributes(a)
    case _ => Whole(b)
  }

  datatype UnwrappedData<A> = DataNode(node: Node<A>) | WholeBody(body: Body<A>)

  /** `body.data ?? body`: the node is returned as it is, attributes still wrapped. */
  function UnwrapData<A>(b: Body<A>): (r: UnwrappedData<A>)
    ensures r.DataNode? <==> b.data.Some?
    ensures r.DataNode? ==> r.node == b.data.value
    ensures r.WholeBody? ==> r.body == b
  {
    match b.data
    case Some(n) => DataNode(n)
    case None => WholeBody(b)
  }

  /** On the standard envelope the first unwrapping yields the attributes and the second
      the whole node with its id. */
  lemma UnwrapEnvelope<A>(id: nat, a: A)
    ensures UnwrapAttributes(Envelope(id, a)) == Attributes(a)
    ensures UnwrapData(Envelope(id, a)) == DataNode(Node(Some(id), Some(a)))
  {
  }
}
