/** The header's `CartButton`: a badge with the number of items in the
    `"cart"` record, read on mount and re-read on every `"cartUpdated"`
    event. It has its own copy of the reader and of the item count. */
module CartButton {
  import opened Lines
  import opened Storage
  import CartUtils
  import UseCart
  import CartContext
  import WishlistContext
  import opened Types

  datatype Button = Button(mounted: bool, totalItems: int)

  /** What the badge shows: nothing, the count, or `"99+"`. */
  datatype Badge = NoBadge | Count(n: int) | Capped

  /** Before the mount effect: nothing counted, nothing shown. */
  const Unmounted: Button := Button(false, 0)

  /** `getCartFromStorage`: outside a browser, or for a missing or
      unparseable record, the empty cart; a parsed value is returned as is,
      and a non-array one makes the next `reduce` throw. */
  function GetCartFromStorage(env: Env, b: Browser): (r: Result<seq<Line>>)
    ensures !env.inBrowser || b.cart.Missing? || b.cart.Corrupt? ==> r == Ok([])
    ensures r.Throws? <==> env.inBrowser && b.cart.NonArray?
    ensures env.inBrowser && b.cart.Valid? ==> r == Ok(b.cart.items)
  {
    if !env.inBrowser then Ok([])
    else
      match b.cart
      case Missing => Ok([])
      case Corrupt => Ok([])
      case NonArray => Throws(NotAnArray)
      case Valid(items) => Ok(items)
  }

  /** Reads the record and counts it: the mount effect and the event handler. */
  function Refresh(env: Env, b: Browser): (r: Result<Button>)
    ensures r.Ok? ==> r.value.mounted
    ensures env.inBrowser && b.cart.Valid? ==> r == Ok(Button(true, TotalItems(b.cart.items)))
  {
    match GetCartFromStorage(env, b)
    case Throws(e) => Throws(e)
    case Ok(items) => Ok(Button(true, TotalItems(items)))
  }

  /** The listener: it runs once per event dispatched since `before`, and
      each run reads the current record; no event, no change. */
  function Observe(env: Env, s: Button, before: Browser, after: Browser): (r: Result<Button>)
    ensures after.cartUpdated == before.cartUpdated ==> r == Ok(s)
  {
    if after.cartUpdated == before.cartUpdated then Ok(s) else Refresh(env, after)
  }

  /** The rendered badge. */
  function Render(s: Button): (r: Badge)
    ensures r != NoBadge <==> s.mounted && s.totalItems > 0
    ensures r == Capped <==> s.mounted && s.totalItems > 99
    ensures r.Count? ==> r.n == s.totalItems && 0 < r.n <= 99
  {
    if !s.mounted || s.totalItems <= 0 then NoBadge
    else if s.totalItems > 99 then Capped
    else Count(s.totalItems)
  }

  /** The button's reader and count are `cartUtils.getCart` and
      `cartUtils.getTotalItems`: both read the same record the same way. */
  lemma ReadsLikeCartUtils(env: Env, b: Browser)
    ensures GetCartFromStorage(env, b) == CartUtils.GetCart(env, b)
    ensures Refresh(env, b).Ok? <==> CartUtils.GetTotalItems(env, b).Ok?
    ensures Refresh(env, b).Ok? ==> Refresh(env, b).value.totalItems == CartUtils.GetTotalItems(env, b).value
  {
  }

  /** After a `cartUtils` change that was written, the listener has the badge
      show the new stored total. */
  lemma FollowsCartUtils(env: Env, s: Button, b: Browser, item: Item)
    requires env.inBrowser && env.writable && CartUtils.GetCart(env, b).Ok?
    ensures var after := CartUtils.AddToCart(env, b, item).value;
      Observe(env, s, b, after) == Ok(Button(true, CartUtils.GetTotalItems(env, after).value))
    ensures var after := CartUtils.ClearCart(env, b);
      Observe(env, s, b, after) == Ok(Button(true, 0)) && Render(Observe(env, s, b, after).value) == NoBadge
  {
  }

  /** The `useCart` hook writes the same record but dispatches no event, and
      the contexts write other records: none of them moves the badge. */
  lemma OtherStoresGoUnseen(env: Env, s: Button, b: Browser, h: UseCart.Hook, writable: bool, item: Item,
                            c: CartContext.CartState, w: seq<Product>)
    ensures Observe(env, s, b, UseCart.AddToCart(h, b, writable, item).1) == Ok(s)
    ensures Observe(env, s, b, UseCart.ClearCart(h, b, writable).1) == Ok(s)
    ensures Observe(env, s, b, CartContext.Persist(c, b)) == Ok(s)
    ensures Observe(env, s, b, CartContext.ClearCart(c, b).1) == Ok(s)
    ensures Observe(env, s, b, WishlistContext.Persist(w, b)) == Ok(s)
  {
  }
}
