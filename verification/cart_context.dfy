/** The Next application's `CartProvider`: an in-memory cart whose lines are
    product snapshots with `selectedSize` and `selectedColor`, persisted to
    the `"fashlyCart"` record by an effect that also recomputes `itemCount`.
    Each operation is one atomic transition followed by that effect. */
module CartContext {
  import opened Types
  import opened Lines
  import opened Storage
  import Seqs

  datatype CartState = CartState(cart: seq<Line>, itemCount: int)

  /** `itemCount` is the number of items in the cart. */
  predicate Consistent(s: CartState) { s.itemCount == TotalItems(s.cart) }

  const Empty: CartState := CartState([], 0)

  /** The persist effect's in-memory half: `itemCount` follows the cart. */
  function Commit(cart: seq<Line>): (s: CartState)
    ensures s.cart == cart && Consistent(s)
  {
    CartState(cart, TotalItems(cart))
  }

  /** The persist effect's storage half: the cart is written to `"fashlyCart"`. */
  function Persist(s: CartState, b: Browser): (r: Browser)
    ensures r.cart == b.cart && r.fashlyWishlist == b.fashlyWishlist && r.cartUpdated == b.cartUpdated
    ensures r.fashlyCart.Valid? && r.fashlyCart.items == s.cart
  {
    b.(fashlyCart := Valid(s.cart))
  }

  /** The load effect: a missing record leaves the empty cart; a present one
      is parsed with no recovery, so bad JSON throws, and a non-array value
      throws at the `reduce` that counts its items. */
  function Load(b: Browser): (r: Result<CartState>)
    ensures b.fashlyCart.Missing? ==> r == Ok(Empty)
    ensures b.fashlyCart.Corrupt? ==> r == Throws(ParseError)
    ensures b.fashlyCart.NonArray? ==> r == Throws(NotAnArray)
    ensures r.Ok? ==> Consistent(r.value)
  {
    match b.fashlyCart
    case Missing => Ok(Empty)
    case Corrupt => Throws(ParseError)
    case NonArray => Throws(NotAnArray)
    case Valid(items) => Ok(Commit(items))
  }

  /** The line item a product becomes: the whole product plus the selection. */
  function ItemFor(product: Product, selectedSize: string, selectedColor: string): (i: Item)
    ensures ItemKey(i) == Key(product.id, selectedColor, selectedSize)
    ensures i.price == product.price
  {
    Item(product.id, product.price, selectedColor, selectedSize, Snapshot(product))
  }

  /** `addToCart(product, quantity, selectedSize, selectedColor)`; callers
      always pass the quantity, whose default is 1. */
  function AddToCart(s: CartState, product: Product, quantity: int, selectedSize: string, selectedColor: string): (r: CartState)
    ensures Consistent(r)
    ensures HasKey(r.cart, Key(product.id, selectedColor, selectedSize))
    ensures r.itemCount == TotalItems(s.cart) + quantity
  {
    TotalsAfterMerge(s.cart, ItemFor(product, selectedSize, selectedColor), quantity);
    Commit(Merge(s.cart, ItemFor(product, selectedSize, selectedColor), quantity))
  }

  /** `removeFromCart(itemId, size, color)`. */
  function RemoveFromCart(s: CartState, itemId: int, size: string, color: string): (r: CartState)
    ensures Consistent(r)
    ensures !HasKey(r.cart, Key(itemId, color, size))
    ensures forall l :: l in r.cart <==> l in s.cart && KeyOf(l) != Key(itemId, color, size)
  {
    Commit(RemoveKey(s.cart, Key(itemId, color, size)))
  }

  /** `updateQuantity(itemId, size, color, quantity)`: no lower bound. */
  function UpdateQuantity(s: CartState, itemId: int, size: string, color: string, quantity: int): (r: CartState)
    ensures Consistent(r)
    ensures |r.cart| == |s.cart| && Keys(r.cart) == Keys(s.cart)
    ensures forall j :: 0 <= j < |s.cart| ==>
      r.cart[j].item == s.cart[j].item &&
      r.cart[j].quantity == if KeyOf(s.cart[j]) == Key(itemId, color, size) then quantity else s.cart[j].quantity
  {
    Commit(SetQuantity(s.cart, Key(itemId, color, size), quantity))
  }

  /** `clearCart`: empties the cart and removes the record. */
  function ClearCart(s: CartState, b: Browser): (r: (CartState, Browser))
    ensures r.0 == Empty && Consistent(r.0)
    ensures r.1.fashlyCart == Missing && r.1.cart == b.cart && r.1.cartUpdated == b.cartUpdated
  {
    (Empty, b.(fashlyCart := Missing))
  }

  /** `getCartTotal`: the sum of price times quantity. */
  function GetCartTotal(s: CartState): (r: int)
    ensures (forall i :: 0 <= i < |s.cart| ==> LineTotal(s.cart[i]) >= 0) ==> r >= 0
    ensures s.cart == [] ==> r == 0
  {
    PriceNonNegative(s.cart);
    TotalPrice(s.cart)
  }

  /** An existing `(id, selectedSize, selectedColor)` gains `quantity` and the
      length is unchanged; otherwise the snapshot line is appended at the end. */
  lemma AddMergesByQuantity(s: CartState, product: Product, quantity: int, size: string, color: string)
    ensures var k := Key(product.id, color, size);
      var after := AddToCart(s, product, quantity, size, color).cart;
      TotalItems(after) == TotalItems(s.cart) + quantity &&
      (HasKey(s.cart, k) ==>
        |after| == |s.cart| &&
        var i := FindIndex(s.cart, k);
        after[i] == Line(s.cart[i].item, s.cart[i].quantity + quantity) &&
        forall j :: 0 <= j < |s.cart| && j != i ==> after[j] == s.cart[j]) &&
      (!HasKey(s.cart, k) ==> after == s.cart + [Line(ItemFor(product, size, color), quantity)])
  {
    var item := ItemFor(product, size, color);
    TotalsAfterMerge(s.cart, item, quantity);
    var after := Merge(s.cart, item, quantity);
    if HasKey(s.cart, ItemKey(item)) {
      var i := FindIndex(s.cart, ItemKey(item));
      forall j | 0 <= j < |s.cart| && j != i
        ensures after[j] == s.cart[j]
      {
        assert after[j].item == s.cart[j].item && after[j].quantity == s.cart[j].quantity;
      }
    }
  }

  /** Removal drops the matching lines and keeps the rest in order. */
  lemma RemoveKeepsOrder(s: CartState, itemId: int, size: string, color: string)
    ensures var after := RemoveFromCart(s, itemId, size, color).cart;
      !HasKey(after, Key(itemId, color, size)) &&
      Seqs.IsSubseq(after, s.cart) &&
      forall l :: l in after <==> l in s.cart && KeyOf(l) != Key(itemId, color, size)
  {
  }

  /** A quantity of zero or less is stored, not removed: the line stays and
      the cart no longer has only positive quantities. */
  lemma UpdateStoresNonPositive(s: CartState, itemId: int, size: string, color: string, quantity: int)
    requires HasKey(s.cart, Key(itemId, color, size)) && quantity <= 0
    ensures var after := UpdateQuantity(s, itemId, size, color, quantity).cart;
      |after| == |s.cart| && HasKey(after, Key(itemId, color, size)) && !AllPositive(after)
  {
    var k := Key(itemId, color, size);
    var i := FindIndex(s.cart, k);
    var after := UpdateQuantity(s, itemId, size, color, quantity).cart;
    assert after[i].quantity == quantity;
  }

  /** Add, remove and update keep "no two lines share a key". */
  lemma OperationsKeepUniqueKeys(s: CartState, product: Product, quantity: int, itemId: int, size: string, color: string)
    requires UniqueKeys(s.cart)
    ensures UniqueKeys(AddToCart(s, product, quantity, size, color).cart)
    ensures UniqueKeys(RemoveFromCart(s, itemId, size, color).cart)
    ensures UniqueKeys(UpdateQuantity(s, itemId, size, color, quantity).cart)
  {
    MergeKeepsInvariant(s.cart, ItemFor(product, size, color), quantity);
    RemoveKeepsInvariant(s.cart, Key(itemId, color, size));
    SetQuantityKeepsInvariant(s.cart, Key(itemId, color, size), quantity);
  }

  /** Persisting and loading again gives back the same cart. */
  lemma PersistLoadRoundTrip(s: CartState, b: Browser)
    requires Consistent(s)
    ensures Load(Persist(s, b)) == Ok(s)
  {
  }

  /** The record removed by `clearCart` is written back as `[]` by the persist
      effect that follows; either way a later load sees the empty cart. */
  lemma ClearThenPersist(s: CartState, b: Browser)
    ensures var r := ClearCart(s, b);
      var stored := Persist(r.0, r.1);
      stored.fashlyCart == Valid([]) && Load(r.1) == Ok(Empty) && Load(stored) == Ok(Empty)
  {
  }
}
