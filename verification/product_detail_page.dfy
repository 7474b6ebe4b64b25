/** The React-Router application's product page: the product is looked up
    by the route's id, a selection is made with the same buttons as the
    Next component, and "Add to Cart" goes to the React-Router `CartProvider`. */
module ProductDetailPage {
  import opened Types
  import Seqs
  import ProductDetail
  import SrcCartContext
  import CartContext
  import Selections

  function IdIs(id: int): Product -> bool { (p: Product) => p.id == id }

  /** No entry before `i` carries the id. */
  predicate FirstWithId(catalog: seq<Product>, id: int, i: int)
    requires 0 <= i <= |catalog|
  {
    forall j :: 0 <= j < i ==> catalog[j].id != id
  }

  /** `products.find(p => p.id === Number.parseInt(id))`. The parsed route
      parameter is `None` when `parseInt` gives `NaN`, which equals no id. */
  function Lookup(catalog: seq<Product>, parsed: Option<int>): (r: Option<Product>)
    ensures r.None? <==> parsed.None? || forall i :: 0 <= i < |catalog| ==> catalog[i].id != parsed.value
    ensures r.Some? ==> r.value.id == parsed.value
    ensures r.Some? ==> exists i :: 0 <= i < |catalog| && catalog[i] == r.value && FirstWithId(catalog, parsed.value, i)
  {
    if parsed.None? then None
    else
      var i := Seqs.FirstIndex(catalog, IdIs(parsed.value));
      if i < 0 then None else Some(catalog[i])
  }

  /** The selection hooks run before the not-found branch returns, so a
      missing product starts from empty color and size. */
  function DefaultSelection(found: Option<Product>): (s: ProductDetail.Selection)
    requires found.Some? ==> |found.value.colors| > 0 && |found.value.sizes| > 0
    ensures found.None? ==> s == ProductDetail.Selection("", "", 1)
    ensures found.Some? ==> s == ProductDetail.Init(found.value)
  {
    match found
    case None => ProductDetail.Selection("", "", 1)
    case Some(product) => ProductDetail.Selection(product.colors[0], product.sizes[0], 1)
  }

  /** `handleAddToCart`: `addToCart(product, quantity, selectedSize, selectedColor)`
      on the React-Router provider; the count grows by the chosen quantity. */
  function HandleAddToCart(c: SrcCartContext.SrcState, product: Product, s: ProductDetail.Selection): (r: SrcCartContext.SrcState)
    requires SrcCartContext.Consistent(c)
    ensures SrcCartContext.Consistent(r)
    ensures exists j :: 0 <= j < |r.cart| && SrcCartContext.Same(product.id, s.size, s.color)(r.cart[j])
    ensures r.itemCount == c.itemCount + s.quantity
  {
    var r := SrcCartContext.AddToCart(c, product, s.quantity, s.size, s.color);
    SrcCartContext.AddAgrees(c, product, s.quantity, s.size, s.color);
    SrcCartContext.SumsAgree(c.cart);
    CartContext.AddMergesByQuantity(SrcCartContext.Lift(c), product, s.quantity, s.size, s.color);
    r
  }

  /** Starting from the default selection of a found product, the page's
      buttons keep a color and a size it offers and at least one piece. */
  lemma StepperKeepsSelection(product: Product, clicks: seq<ProductDetail.Click>)
    requires |product.colors| > 0 && |product.sizes| > 0
    requires forall i :: 0 <= i < |clicks| ==> ProductDetail.Offered(product, clicks[i])
    ensures ProductDetail.Valid(product, ProductDetail.Run(DefaultSelection(Some(product)), clicks))
    ensures ProductDetail.Run(DefaultSelection(Some(product)), clicks).quantity >= 1
  {
    ProductDetail.RunKeepsValid(product, DefaultSelection(Some(product)), clicks);
  }

  /** "You May Also Like" under the found product: other products of its
      category, at most four, in catalog order. */
  function RelatedTo(catalog: seq<Product>, product: Product): (r: seq<Product>)
    ensures |r| <= Selections.Shown
    ensures forall p :: p in r ==> p in catalog && p.id != product.id && p.category == product.category
    ensures Seqs.IsSubseq(r, catalog)
  {
    Selections.SelectionsInCatalogOrder(catalog, product.id, product.category);
    Selections.Related(catalog, product.id, product.category)
  }

  /** A number that is some product's id finds the first catalog entry
      carrying it, whatever comes after. */
  lemma FoundIsFirstWithId(catalog: seq<Product>, id: int, i: int)
    requires 0 <= i < |catalog| && catalog[i].id == id
    requires forall j :: 0 <= j < i ==> catalog[j].id != id
    ensures Lookup(catalog, Some(id)) == Some(catalog[i])
  {
    assert IdIs(id)(catalog[i]);
  }
}
