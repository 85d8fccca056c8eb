/** The products API (`useProducts`, `useProduct`): products are reference data the
    screens read and never change. */
module Products {
  import Restify

  /** A product; `salePrice` is an integer amount (the backend sends a decimal string). */
  datatype Product = Product(
    id: nat,
    name: string,
    sku: string,
    unitType: string,
    salePrice: int,
    createdAt: string,
    updatedAt: string)

  function WithId(p: Product, id: nat): Product
  {
    p.(id := id)
  }

  /** The product list: one product per entry, in entry order, each the entry's attributes
      with the id taken from the envelope; every other field passes through. */
  function NormaliseList<R>(entries: seq<Restify.Entry<Product, R>>): seq<Product>
  {
    Restify.Normalise(entries, WithId)
  }

  /** One product: the detail envelope's attributes with the envelope's id. */
  function NormaliseDetail<R>(data: Restify.Entry<Product, R>): (p: Product)
    ensures p.id == Restify.EntryId(data)
    ensures p.(id := data.attributes.id) == data.attributes
  {
    WithId(data.attributes, Restify.EntryId(data))
  }

  function IdOf(p: Product): nat { p.id }

  /** Reading back the list a backend sends for `ps` gives `ps`. */
  lemma ListRoundTrip<R>(ps: seq<Product>)
    ensures NormaliseList(Restify.Wrap<Product, R>(ps, IdOf, "products")) == ps
  {
    Restify.NormaliseWrap<Product, R>(ps, IdOf, WithId, "products");
  }
}
