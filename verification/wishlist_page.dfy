/** The Next application's wishlist page: each entry can be moved to the
    cart, and the whole list cleared. */
module WishlistPage {
  import opened Types
  import opened Lines
  import opened Storage
  import Seqs
  import CartContext
  import WishlistContext

  /** `handleAddToCart(product)`: one of the product in its first size and
      first color goes to the cart, and the product leaves the wishlist.
      The source indexes `sizes[0]` and `colors[0]` unguarded. */
  function MoveToCart(w: seq<Product>, s: CartContext.CartState, product: Product): (r: (seq<Product>, CartContext.CartState))
    requires |product.sizes| > 0 && |product.colors| > 0
    ensures !WishlistContext.IsInWishlist(r.0, product.id)
    ensures forall p :: p in w && p.id != product.id <==> p in r.0
    ensures HasKey(r.1.cart, Key(product.id, product.colors[0], product.sizes[0]))
    ensures r.1.itemCount == TotalItems(s.cart) + 1
  {
    CartContext.AddMergesByQuantity(s, product, 1, product.sizes[0], product.colors[0]);
    var cart := CartContext.AddToCart(s, product, 1, product.sizes[0], product.colors[0]);
    (WishlistContext.RemoveFromWishlist(w, product.id), cart)
  }

  /** Moving keeps the other entries in their order. */
  lemma MoveKeepsOthersInOrder(w: seq<Product>, s: CartContext.CartState, product: Product)
    requires |product.sizes| > 0 && |product.colors| > 0
    ensures Seqs.IsSubseq(MoveToCart(w, s, product).0, w)
    ensures !WishlistContext.IsInWishlist(w, product.id) ==> MoveToCart(w, s, product).0 == w
  {
    WishlistContext.RemoveKeepsOrder(w, product.id);
  }

  /** "Clear All": the list is emptied and its record removed. */
  function ClearAll(b: Browser): (r: (seq<Product>, Browser))
    ensures r.0 == [] && WishlistContext.Load(r.1) == Ok([])
  {
    WishlistContext.ClearWishlist(b)
  }
}
