/** The Next application's `/cart` page. Its lines come from the `"cart"`
    record through `cartUtils`; the order summary reads its subtotal from
    storage again and adds a shipping fee that is waived above a threshold. */
module CartPage {
  import opened Lines
  import opened Storage
  import CartUtils
  import opened Types

  const FreeShippingAbove: int := 500000
  const ShippingFee: int := 25000

  datatype Page = Page(items: seq<Line>, mounted: bool, isLoading: bool)

  /** Before the mount effect: nothing loaded, the skeleton is shown. */
  const Initial: Page := Page([], false, true)

  /** `loadCart`. `getCart` never throws (it catches parse errors itself), so
      the `catch` is never taken; a record that parses to a non-array value
      passes through and the first array method applied to it throws outside
      any `try`. */
  function Load(env: Env, b: Browser): (r: Result<Page>)
    ensures r.Ok? ==> r.value.mounted && !r.value.isLoading
    ensures r.Ok? <==> CartUtils.GetCart(env, b).Ok?
    ensures r.Ok? ==> r.value.items == CartUtils.GetCart(env, b).value
  {
    match CartUtils.GetCart(env, b)
    case Ok(items) => Ok(Page(items, true, false))
    case Throws(e) => Throws(e)
  }

  /** `handleCartUpdate`, the page's `"cartUpdated"` listener: the same
      `getCart() || []` read as `loadCart`, replacing only the lines. */
  function OnCartUpdated(env: Env, p: Page, b: Browser): (r: Result<Page>)
    ensures r.Ok? <==> CartUtils.GetCart(env, b).Ok?
    ensures r.Ok? ==> r.value.mounted == p.mounted && r.value.isLoading == p.isLoading
  {
    match CartUtils.GetCart(env, b)
    case Ok(items) => Ok(p.(items := items))
    case Throws(e) => Throws(e)
  }

  /** On a loaded page, the listener is a fresh `loadCart`. */
  lemma ListenerIsReload(env: Env, p: Page, b: Browser)
    requires p.mounted && !p.isLoading
    ensures OnCartUpdated(env, p, b) == Load(env, b)
  {
  }

  /** After a written `cartUtils` add, the listener shows the stored lines,
      which now carry the added item's key. */
  lemma ListenerFollowsCartUtils(env: Env, p: Page, b: Browser, item: Item)
    requires CartUtils.GetCart(env, b).Ok? && env.inBrowser && env.writable
    ensures var w := CartUtils.AddToCart(env, b, item);
      w.Ok? && w.value.cart.Valid? &&
      var r := OnCartUpdated(env, p, w.value);
      r.Ok? && r.value.items == w.value.cart.items && HasKey(r.value.items, ItemKey(item))
  {
    CartUtils.AddMergesOrAppends(env, b, item);
  }

  /** The fee: waived only strictly above the threshold. */
  function Shipping(subtotal: int): (r: int)
    ensures r == 0 <==> subtotal > FreeShippingAbove
    ensures r == 0 || r == ShippingFee
  {
    if subtotal > FreeShippingAbove then 0 else ShippingFee
  }

  /** The order summary: subtotal, fee, total and the free-shipping hint
      (how much more to spend), which is shown only below the threshold. */
  datatype OrderSummary = OrderSummary(subtotal: int, shipping: int, total: int, freeShippingBanner: bool, hint: Option<int>)

  function Summarize(subtotal: int): (s: OrderSummary)
    ensures s.total == s.subtotal + s.shipping && s.total >= s.subtotal
    ensures s.freeShippingBanner <==> s.shipping == 0
    ensures s.hint.Some? <==> subtotal < FreeShippingAbove
    ensures s.hint.Some? ==> s.hint.value > 0 && subtotal + s.hint.value == FreeShippingAbove
  {
    var shipping := Shipping(subtotal);
    OrderSummary(subtotal, shipping, subtotal + shipping, shipping == 0,
      if subtotal < FreeShippingAbove then Some(FreeShippingAbove - subtotal) else None)
  }

  /** The summary as rendered: `getTotalPrice() || 0` read from storage. */
  function RenderSummary(env: Env, b: Browser): (r: Result<OrderSummary>)
    ensures r.Ok? <==> CartUtils.GetTotalPrice(env, b).Ok?
    ensures r.Ok? ==> r.value.subtotal == CartUtils.GetTotalPrice(env, b).value
  {
    match CartUtils.GetTotalPrice(env, b)
    case Throws(e) => Throws(e)
    case Ok(subtotal) => Ok(Summarize(subtotal))
  }

  /** `handleQuantityChange`: a quantity below 1 is ignored; otherwise the
      change goes to `cartUtils.updateQuantity(id, color, size, q)` and the
      cart is read back. A throw is caught and changes nothing on screen. */
  function HandleQuantityChange(env: Env, p: Page, b: Browser, id: int, color: string, size: string, q: int): (r: (Page, Browser))
    ensures q < 1 ==> r == (p, b)
  {
    if q < 1 then (p, b)
    else
      match CartUtils.UpdateQuantity(env, b, id, color, size, q)
      case Throws(_) => (p, b)
      case Ok(b') =>
        match CartUtils.GetCart(env, b')
        case Ok(items) => (p.(items := items), b')
        case Throws(_) => (p, b')
  }

  /** `handleRemoveItem`: `cartUtils.removeFromCart(id, color, size)`, then a re-read. */
  function HandleRemoveItem(env: Env, p: Page, b: Browser, id: int, color: string, size: string): (r: (Page, Browser))
    ensures CartUtils.RemoveFromCart(env, b, id, color, size).Throws? ==> r == (p, b)
  {
    match CartUtils.RemoveFromCart(env, b, id, color, size)
    case Throws(_) => (p, b)
    case Ok(b') =>
      match CartUtils.GetCart(env, b')
      case Ok(items) => (p.(items := items), b')
      case Throws(_) => (p, b')
  }

  /** The waiver and the hint are complementary except at the threshold
      itself, where there is neither free shipping nor a hint. */
  lemma ThresholdBoundary(subtotal: int)
    ensures Summarize(subtotal).shipping == 0 ==> Summarize(subtotal).hint.None?
    ensures subtotal != FreeShippingAbove ==> (Summarize(subtotal).shipping == 0 <==> Summarize(subtotal).hint.None?)
    ensures var s := Summarize(FreeShippingAbove); s.shipping == ShippingFee && s.hint.None? && !s.freeShippingBanner
  {
  }

  /** With storage writable, a valid quantity change sets exactly the
      addressed line to that quantity (the arguments are passed in the order
      `cartUtils` expects), and the screen shows what was stored. */
  lemma QuantityChangeForwards(env: Env, p: Page, b: Browser, id: int, color: string, size: string, q: int)
    requires env.inBrowser && env.writable && CartUtils.GetCart(env, b).Ok? && q >= 1
    ensures var before := CartUtils.GetCart(env, b).value;
      var r := HandleQuantityChange(env, p, b, id, color, size, q);
      r.1.cart == Valid(r.0.items) &&
      r.0.items == SetQuantity(before, Key(id, color, size), q) &&
      forall j :: 0 <= j < |before| && KeyOf(before[j]) == Key(id, color, size) ==> r.0.items[j].quantity == q
  {
  }

  /** A removal leaves no line with the key on screen or in storage. */
  lemma RemoveForwards(env: Env, p: Page, b: Browser, id: int, color: string, size: string)
    requires env.inBrowser && env.writable && CartUtils.GetCart(env, b).Ok?
    ensures var r := HandleRemoveItem(env, p, b, id, color, size);
      r.1.cart == Valid(r.0.items) && !HasKey(r.0.items, Key(id, color, size))
  {
  }

  /** Right after loading, the summary's subtotal is the sum of the line
      totals (price times quantity) shown on the page. */
  lemma SummaryMatchesLines(env: Env, b: Browser)
    requires Load(env, b).Ok?
    ensures RenderSummary(env, b).Ok?
    ensures RenderSummary(env, b).value.subtotal == TotalPrice(Load(env, b).value.items)
  {
  }
}
