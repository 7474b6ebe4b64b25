/** The Next application's `ProductDetail` component: a color, a size and a
    quantity are chosen with buttons, then added to the `CartProvider`'s
    cart; a heart button flips the product's place in the wishlist. The
    React-Router page has the same quantity stepper and reuses it. */
module ProductDetail {
  import opened Types
  import opened Lines
  import CartContext
  import WishlistContext

  /** The component's selection state. */
  datatype Selection = Selection(color: string, size: string, quantity: int)

  /** A click on one of the selection buttons. */
  datatype Click = PickColor(color: string) | PickSize(size: string) | Decrement | Increment

  /** The first color, the first size, one piece. The source indexes
      `colors[0]` and `sizes[0]` unguarded. */
  function Init(product: Product): (s: Selection)
    requires |product.colors| > 0 && |product.sizes| > 0
    ensures Valid(product, s) && s.quantity == 1
    ensures s.color == product.colors[0] && s.size == product.sizes[0]
  {
    Selection(product.colors[0], product.sizes[0], 1)
  }

  /** A selection the page can show: a color and a size the product offers,
      and at least one piece. */
  predicate Valid(product: Product, s: Selection) {
    s.color in product.colors && s.size in product.sizes && s.quantity >= 1
  }

  /** Buttons are rendered only for the product's own colors and sizes. */
  predicate Offered(product: Product, c: Click) {
    match c
    case PickColor(color) => color in product.colors
    case PickSize(size) => size in product.sizes
    case _ => true
  }

  /** The quantity stepper: minus never goes below one, plus has no cap. */
  function Step(q: int, up: bool): (r: int)
    ensures up ==> r == q + 1
    ensures !up ==> r >= 1 && (q > 1 ==> r == q - 1) && (q <= 1 ==> r == 1)
  {
    if up then q + 1 else if 1 > q - 1 then 1 else q - 1
  }

  function Press(s: Selection, c: Click): (r: Selection)
    ensures c.PickColor? ==> r == s.(color := c.color)
    ensures c.PickSize? ==> r == s.(size := c.size)
    ensures c == Decrement || c == Increment ==>
      r.color == s.color && r.size == s.size && r.quantity == Step(s.quantity, c == Increment)
  {
    match c
    case PickColor(color) => s.(color := color)
    case PickSize(size) => s.(size := size)
    case Decrement => s.(quantity := Step(s.quantity, false))
    case Increment => s.(quantity := Step(s.quantity, true))
  }

  /** The selection after a series of clicks, in order. */
  function Run(s: Selection, clicks: seq<Click>): Selection
    decreases |clicks|
  {
    if |clicks| == 0 then s else Run(Press(s, clicks[0]), clicks[1..])
  }

  /** Whatever the user clicks, the selection stays one the product offers,
      with at least one piece, and each click adds at most one piece. */
  lemma {:induction false} RunKeepsValid(product: Product, s: Selection, clicks: seq<Click>)
    requires Valid(product, s)
    requires forall i :: 0 <= i < |clicks| ==> Offered(product, clicks[i])
    ensures Valid(product, Run(s, clicks))
    ensures Run(s, clicks).quantity <= s.quantity + |clicks|
    decreases |clicks|
  {
    if |clicks| > 0 {
      assert Offered(product, clicks[0]);
      assert forall i :: 0 <= i < |clicks| - 1 ==> clicks[1..][i] == clicks[i + 1];
      RunKeepsValid(product, Press(s, clicks[0]), clicks[1..]);
    }
  }

  /** `handleAddToCart`: `addToCart(product, quantity, selectedSize, selectedColor)`;
      the line for the selection gains the chosen quantity. */
  function HandleAddToCart(c: CartContext.CartState, product: Product, s: Selection): (r: CartContext.CartState)
    ensures HasKey(r.cart, Key(product.id, s.color, s.size))
    ensures r.itemCount == TotalItems(c.cart) + s.quantity
  {
    CartContext.AddMergesByQuantity(c, product, s.quantity, s.size, s.color);
    CartContext.AddToCart(c, product, s.quantity, s.size, s.color)
  }

  /** `handleWishlistClick`: remove when present, add when absent. */
  function HandleWishlistClick(w: seq<Product>, product: Product): (r: seq<Product>)
    ensures WishlistContext.IsInWishlist(r, product.id) <==> !WishlistContext.IsInWishlist(w, product.id)
    ensures forall p :: p in w && p.id != product.id ==> p in r
    ensures forall p :: p in r && p.id != product.id ==> p in w
  {
    if WishlistContext.IsInWishlist(w, product.id) then WishlistContext.RemoveFromWishlist(w, product.id)
    else WishlistContext.AddToWishlist(w, product)
  }

  /** Two clicks on a product that was not in the wishlist leave it as it was. */
  lemma WishlistClickTwice(w: seq<Product>, product: Product)
    requires !WishlistContext.IsInWishlist(w, product.id)
    ensures HandleWishlistClick(HandleWishlistClick(w, product), product) == w
  {
    WishlistContext.RemoveUndoesAdd(w, product);
  }
}
