/** The product picker: the product list narrowed by a search text matched, without regard
    to letter case, against each product's name or SKU. */
module ProductSelector {
  import opened Wrappers
  import Text
  import Seqs
  import Products

  /** The search text occurs in the product's name or in its SKU, both lower-cased. */
  predicate Matches(p: Products.Product, search: string)
  {
    || Text.Contains(Text.Lower(p.name), Text.Lower(search))
    || Text.Contains(Text.Lower(p.sku), Text.Lower(search))
  }

  function Keep(search: string): Products.Product -> bool
  {
    (p: Products.Product) => Matches(p, search)
  }

  /** The rows shown: nothing while the products have not arrived, otherwise the matching
      products in list order. */
  function Filtered(products: Option<seq<Products.Product>>, search: string): (r: Option<seq<Products.Product>>)
    ensures r.Some? <==> products.Some?
  {
    match products
    case None => None
    case Some(ps) => Some(Seqs.Filter(ps, Keep(search)))
  }

  /** A product is shown exactly when it is in the list and matches; the shown rows keep the
      list's order. */
  lemma FilteredSpec(ps: seq<Products.Product>, search: string)
    ensures var r := Filtered(Some(ps), search).value;
      && Seqs.IsSubsequence(r, ps)
      && (forall p :: p in r <==> p in ps && Matches(p, search))
  {
    var r := Filtered(Some(ps), search).value;
    Seqs.FilterIsSubsequence(ps, Keep(search));
    forall p | p in ps && Matches(p, search)
      ensures p in r
    {
      var i :| 0 <= i < |ps| && ps[i] == p;
      assert Keep(search)(ps[i]);
    }
    forall p | p in r
      ensures p in ps && Matches(p, search)
    {
      var i :| 0 <= i < |r| && r[i] == p;
      assert Keep(search)(r[i]);
    }
  }

  /** With an empty search every product is shown. */
  lemma EmptySearchShowsAll(ps: seq<Products.Product>)
    ensures Filtered(Some(ps), "") == Some(ps)
  {
    forall i | 0 <= i < |ps|
      ensures Keep("")(ps[i])
    {
      Text.ContainsEmpty(Text.Lower(ps[i].name));
    }
    Seqs.FilterAll(ps, Keep(""));
  }

  /** The letter case of the search does not matter. */
  lemma SearchIgnoresCase(ps: seq<Products.Product>, search: string)
    ensures Filtered(Some(ps), Text.Lower(search)) == Filtered(Some(ps), search)
  {
    Text.LowerIdempotent(search);
    Seqs.FilterCongruent(ps, Keep(Text.Lower(search)), Keep(search));
  }

  /** Typing more narrows the list: when the longer search contains the shorter one,
      filtering the shorter search's rows by the longer search gives the longer search's rows. */
  lemma LongerSearchNarrows(ps: seq<Products.Product>, shorter: string, longer: string)
    requires Text.Contains(longer, shorter)
    ensures Seqs.Filter(Filtered(Some(ps), shorter).value, Keep(longer)) == Filtered(Some(ps), longer).value
    ensures |Filtered(Some(ps), longer).value| <= |Filtered(Some(ps), shorter).value|
  {
    Text.ContainsLower(longer, shorter);
    forall p | Matches(p, longer)
      ensures Matches(p, shorter)
    {
      if Text.Contains(Text.Lower(p.name), Text.Lower(longer)) {
        Text.ContainsTransitive(Text.Lower(shorter), Text.Lower(longer), Text.Lower(p.name));
      } else {
        Text.ContainsTransitive(Text.Lower(shorter), Text.Lower(longer), Text.Lower(p.sku));
      }
    }
    Seqs.FilterOfFilter(ps, Keep(shorter), Keep(longer));
  }

  /** Tapping a shown row hands back a product of the list that matches the search. */
  function Select(products: Option<seq<Products.Product>>, search: string, row: nat): (p: Products.Product)
    requires Filtered(products, search).Some? && row < |Filtered(products, search).value|
    ensures p in products.value && Matches(p, search)
  {
    Filtered(products, search).value[row]
  }
}
