/** The two fixed product selections: "You May Also Like" (the same
    rule in the Next component and on the React-Router detail page) and the
    home page's best sellers. Both filter the catalog and keep the first four. */
module Selections {
  import opened Types
  import Seqs

  const Shown: nat := 4

  function RelatedTo(currentProductId: int, category: string): Product -> bool {
    (p: Product) => p.id != currentProductId && p.category == category
  }

  function BestSeller(): Product -> bool { (p: Product) => p.isBestSeller }

  /** `products.filter(p => p.id !== currentProductId && p.category === category).slice(0, 4)`. */
  function Related(catalog: seq<Product>, currentProductId: int, category: string): (r: seq<Product>)
    ensures |r| <= Shown
    ensures forall p :: p in r ==> p.id != currentProductId && p.category == category && p in catalog
    ensures var all := Seqs.Filter(catalog, RelatedTo(currentProductId, category));
      |r| <= |all| && r == all[..|r|] && (|all| <= Shown ==> r == all)
  {
    var all := Seqs.Filter(catalog, RelatedTo(currentProductId, category));
    var r := Seqs.Take(all, Shown);
    assert forall i :: 0 <= i < |r| ==> r[i] in all;
    r
  }

  /** `products.filter(product => product.isBestSeller).slice(0, 4)`. */
  function Featured(catalog: seq<Product>): (r: seq<Product>)
    ensures |r| <= Shown
    ensures forall p :: p in r ==> p.isBestSeller && p in catalog
    ensures var all := Seqs.Filter(catalog, BestSeller());
      |r| <= |all| && r == all[..|r|] && (|all| <= Shown ==> r == all)
  {
    var all := Seqs.Filter(catalog, BestSeller());
    var r := Seqs.Take(all, Shown);
    assert forall i :: 0 <= i < |r| ==> r[i] in all;
    r
  }

  /** The selections are in catalog order, and are as long as they can be:
      four, or every qualifying product when there are fewer. */
  lemma SelectionsInCatalogOrder(catalog: seq<Product>, currentProductId: int, category: string)
    ensures Seqs.IsSubseq(Related(catalog, currentProductId, category), catalog)
    ensures Seqs.IsSubseq(Featured(catalog), catalog)
    ensures |Related(catalog, currentProductId, category)| ==
      if |Seqs.Filter(catalog, RelatedTo(currentProductId, category))| < Shown
      then |Seqs.Filter(catalog, RelatedTo(currentProductId, category))| else Shown
    ensures |Featured(catalog)| ==
      if |Seqs.Filter(catalog, BestSeller())| < Shown then |Seqs.Filter(catalog, BestSeller())| else Shown
  {
    var rel := Seqs.Filter(catalog, RelatedTo(currentProductId, category));
    var best := Seqs.Filter(catalog, BestSeller());
    Seqs.FilterSubseq(catalog, RelatedTo(currentProductId, category));
    Seqs.FilterSubseq(catalog, BestSeller());
    PrefixSubseq(rel, |Related(catalog, currentProductId, category)|);
    PrefixSubseq(best, |Featured(catalog)|);
    Seqs.SubseqTrans(Related(catalog, currentProductId, category), rel, catalog);
    Seqs.SubseqTrans(Featured(catalog), best, catalog);
  }

  /** A prefix is a subsequence. */
  lemma {:induction false} PrefixSubseq<T>(s: seq<T>, n: nat)
    requires n <= |s|
    ensures Seqs.IsSubseq(s[..n], s)
    decreases n
  {
    if n > 0 {
      PrefixSubseq(s[1..], n - 1);
      assert s[..n][1..] == s[1..][..n - 1];
    }
  }
}
