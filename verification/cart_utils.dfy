/** The static `cartUtils` object: every operation reads the `"cart"`
    record, computes a new line sequence and writes it back, and a
    successful write dispatches `"cartUpdated"`. Each operation is a
    transition of the `Browser`; nothing is kept in memory between calls. */
module CartUtils {
  import opened Lines
  import opened Storage
  import Seqs

  /** `getCart`: outside a browser, or for a missing or unparseable record,
      the empty cart; `JSON.parse` errors are caught. A record that parses to
      a non-array is handed back as is, and the caller's first array method
      throws on it. */
  function GetCart(env: Env, b: Browser): (r: Result<seq<Line>>)
    ensures r.Throws? <==> env.inBrowser && b.cart.NonArray?
    ensures r.Throws? ==> r.fault == NotAnArray
    ensures !env.inBrowser || b.cart.Missing? || b.cart.Corrupt? ==> r == Ok([])
    ensures r.Ok? && r.value != [] ==> b.cart == Valid(r.value)
    ensures env.inBrowser && b.cart.Valid? ==> r == Ok(b.cart.items)
  {
    if !env.inBrowser then Ok([])
    else
      match b.cart
      case Missing => Ok([])
      case Corrupt => Ok([])
      case NonArray => Throws(NotAnArray)
      case Valid(items) => Ok(items)
  }

  /** `saveCart`: writes the record and then dispatches `"cartUpdated"`; a
      failed write is caught, dispatches nothing and keeps the old record. */
  function SaveCart(env: Env, b: Browser, items: seq<Line>): (r: Browser)
    ensures r.fashlyCart == b.fashlyCart && r.fashlyWishlist == b.fashlyWishlist
    ensures r.cartUpdated == b.cartUpdated || r.cartUpdated == b.cartUpdated + 1
    ensures r.cartUpdated == b.cartUpdated + 1 <==> env.inBrowser && env.writable
    ensures r.cartUpdated == b.cartUpdated ==> r == b
    ensures r.cartUpdated > b.cartUpdated ==> r.cart == Valid(items)
  {
    if env.inBrowser && env.writable then
      b.(cart := Valid(items), cartUpdated := b.cartUpdated + 1)
    else
      b
  }

  /** Runs `f` on the current cart and saves its result; throws when the
      stored value is not an array. */
  function Rewrite(env: Env, b: Browser, f: seq<Line> -> seq<Line>): (r: Result<Browser>)
    ensures r.Throws? <==> GetCart(env, b).Throws?
    ensures r.Ok? ==> r.value.fashlyCart == b.fashlyCart && r.value.fashlyWishlist == b.fashlyWishlist
  {
    match GetCart(env, b)
    case Throws(e) => Throws(e)
    case Ok(cart) => Ok(SaveCart(env, b, f(cart)))
  }

  function AddLine(item: Item): seq<Line> -> seq<Line> { cart => Merge(cart, item, 1) }

  function DropLine(k: Key): seq<Line> -> seq<Line> { cart => RemoveKey(cart, k) }

  function SetLine(k: Key, q: int): seq<Line> -> seq<Line> { cart => SetQuantity(cart, k, q) }

  /** `addToCart`: one more of an existing `(id, color, size)`, or a new line of one. */
  function AddToCart(env: Env, b: Browser, item: Item): (r: Result<Browser>)
    ensures r.Throws? <==> GetCart(env, b).Throws?
    ensures r.Ok? ==> r.value.fashlyCart == b.fashlyCart && r.value.fashlyWishlist == b.fashlyWishlist
    ensures r.Ok? && env.inBrowser && env.writable ==>
      r.value.cart.Valid? && HasKey(r.value.cart.items, ItemKey(item)) &&
      TotalItems(r.value.cart.items) == TotalItems(GetCart(env, b).value) + 1
  {
    TotalsAfterMerge(if GetCart(env, b).Ok? then GetCart(env, b).value else [], item, 1);
    Rewrite(env, b, AddLine(item))
  }

  /** `removeFromCart(id, color, size)`. */
  function RemoveFromCart(env: Env, b: Browser, id: int, color: string, size: string): (r: Result<Browser>)
    ensures r.Throws? <==> GetCart(env, b).Throws?
    ensures r.Ok? ==> r.value.fashlyCart == b.fashlyCart && r.value.fashlyWishlist == b.fashlyWishlist
    ensures r.Ok? && env.inBrowser && env.writable ==>
      r.value.cart.Valid? && !HasKey(r.value.cart.items, Key(id, color, size)) &&
      forall l :: l in r.value.cart.items <==> l in GetCart(env, b).value && KeyOf(l) != Key(id, color, size)
  {
    Rewrite(env, b, DropLine(Key(id, color, size)))
  }

  /** `updateQuantity(id, color, size, quantity)`: a quantity of zero or less removes the line. */
  function UpdateQuantity(env: Env, b: Browser, id: int, color: string, size: string, quantity: int): (r: Result<Browser>)
    ensures r.Throws? <==> GetCart(env, b).Throws?
    ensures r.Ok? ==> r.value.fashlyCart == b.fashlyCart && r.value.fashlyWishlist == b.fashlyWishlist
    ensures r.Ok? && env.inBrowser && env.writable && quantity <= 0 ==>
      r.value.cart.Valid? && !HasKey(r.value.cart.items, Key(id, color, size))
    ensures r.Ok? && env.inBrowser && env.writable && quantity > 0 ==>
      var before := GetCart(env, b).value;
      r.value.cart.Valid? && |r.value.cart.items| == |before| &&
      forall j :: 0 <= j < |before| && KeyOf(before[j]) == Key(id, color, size) ==> r.value.cart.items[j].quantity == quantity
  {
    if quantity <= 0 then RemoveFromCart(env, b, id, color, size)
    else Rewrite(env, b, SetLine(Key(id, color, size), quantity))
  }

  /** `clearCart`: saves the empty array (without reading the old record). */
  function ClearCart(env: Env, b: Browser): (r: Browser)
    ensures env.inBrowser && env.writable ==> r.cart == Valid([]) && GetTotalItems(env, r) == Ok(0)
    ensures !(env.inBrowser && env.writable) ==> r == b
  {
    SaveCart(env, b, [])
  }

  /** `getTotalItems`: the sum of the stored quantities. */
  function GetTotalItems(env: Env, b: Browser): (r: Result<int>)
    ensures r.Throws? <==> env.inBrowser && b.cart.NonArray?
    ensures !env.inBrowser || b.cart.Missing? || b.cart.Corrupt? ==> r == Ok(0)
    ensures env.inBrowser && b.cart.Valid? ==> r == Ok(TotalItems(b.cart.items))
  {
    match GetCart(env, b)
    case Throws(e) => Throws(e)
    case Ok(cart) => Ok(TotalItems(cart))
  }

  /** `getTotalPrice`: the sum of price times quantity over the stored lines. */
  function GetTotalPrice(env: Env, b: Browser): (r: Result<int>)
    ensures r.Throws? <==> env.inBrowser && b.cart.NonArray?
    ensures !env.inBrowser || b.cart.Missing? || b.cart.Corrupt? ==> r == Ok(0)
    ensures env.inBrowser && b.cart.Valid? ==> r == Ok(TotalPrice(b.cart.items))
  {
    match GetCart(env, b)
    case Throws(e) => Throws(e)
    case Ok(cart) => Ok(TotalPrice(cart))
  }

  /** A record that can be read at all holds unique keys and positive quantities. */
  predicate WellFormed(b: Browser) {
    b.cart.Valid? ==> UniqueKeys(b.cart.items) && AllPositive(b.cart.items)
  }

  /** Whatever the write did, reading back afterwards gives either the new
      cart (write and dispatch happened) or the old record unchanged. */
  lemma {:induction false} SaveThenRead(env: Env, b: Browser, items: seq<Line>)
    ensures var r := SaveCart(env, b, items);
      (r.cartUpdated == b.cartUpdated + 1 && GetCart(env, r) == Ok(items)) ||
      (r.cartUpdated == b.cartUpdated && r == b)
  {
  }

  /** Adding an existing key adds exactly one to that line and keeps the
      length; otherwise a line of one is appended at the end. */
  lemma AddMergesOrAppends(env: Env, b: Browser, item: Item)
    requires GetCart(env, b).Ok? && env.inBrowser && env.writable
    ensures var before := GetCart(env, b).value;
      var r := AddToCart(env, b, item);
      r.Ok? && r.value.cart.Valid? &&
      var after := r.value.cart.items;
      HasKey(after, ItemKey(item)) &&
      TotalItems(after) == TotalItems(before) + 1 &&
      (HasKey(before, ItemKey(item)) ==>
        |after| == |before| &&
        var i := FindIndex(before, ItemKey(item));
        after[i].quantity == before[i].quantity + 1 &&
        forall j :: 0 <= j < |before| && j != i ==> after[j] == before[j]) &&
      (!HasKey(before, ItemKey(item)) ==> after == before + [Line(item, 1)])
  {
    var before := GetCart(env, b).value;
    TotalsAfterMerge(before, item, 1);
    var after := Merge(before, item, 1);
    if HasKey(before, ItemKey(item)) {
      var i := FindIndex(before, ItemKey(item));
      forall j | 0 <= j < |before| && j != i
        ensures after[j] == before[j]
      {
        assert after[j].item == before[j].item && after[j].quantity == before[j].quantity;
      }
    }
  }

  /** Removing deletes every line with the key and keeps the rest, in order. */
  lemma RemoveKeepsOthersInOrder(env: Env, b: Browser, id: int, color: string, size: string)
    requires GetCart(env, b).Ok? && env.inBrowser && env.writable
    ensures var before := GetCart(env, b).value;
      var r := RemoveFromCart(env, b, id, color, size);
      r.Ok? && r.value.cart.Valid? &&
      var after := r.value.cart.items;
      !HasKey(after, Key(id, color, size)) &&
      Seqs.IsSubseq(after, before) &&
      (forall l :: l in after <==> l in before && KeyOf(l) != Key(id, color, size))
  {
  }

  /** Updating to zero or less is removal; otherwise the matching line gets
      the quantity exactly, every other line is unchanged, and with no match
      the cart is rewritten unchanged. */
  lemma UpdateSetsOrRemoves(env: Env, b: Browser, id: int, color: string, size: string, q: int)
    requires GetCart(env, b).Ok? && env.inBrowser && env.writable
    ensures q <= 0 ==> UpdateQuantity(env, b, id, color, size, q) == RemoveFromCart(env, b, id, color, size)
    ensures q > 0 ==>
      var before := GetCart(env, b).value;
      var r := UpdateQuantity(env, b, id, color, size, q);
      r.Ok? && r.value.cart.Valid? &&
      var after := r.value.cart.items;
      |after| == |before| &&
      (forall j :: 0 <= j < |before| ==>
        after[j].item == before[j].item &&
        after[j].quantity == if KeyOf(before[j]) == Key(id, color, size) then q else before[j].quantity) &&
      (!HasKey(before, Key(id, color, size)) ==> after == before)
  {
    if q > 0 {
      var before := GetCart(env, b).value;
      var after := SetQuantity(before, Key(id, color, size), q);
      if !HasKey(before, Key(id, color, size)) {
        assert forall j :: 0 <= j < |before| ==> KeyOf(before[j]) != Key(id, color, size) by {
          forall j | 0 <= j < |before|
            ensures KeyOf(before[j]) != Key(id, color, size)
          {
            assert Keys(before)[j] == KeyOf(before[j]);
          }
        }
        assert after == before;
      }
    }
  }

  /** Every operation keeps a well-formed record well-formed, whatever the
      environment does (a failed write leaves the old record). */
  lemma OperationsKeepWellFormed(env: Env, b: Browser, item: Item, id: int, color: string, size: string, q: int)
    requires WellFormed(b)
    ensures AddToCart(env, b, item).Ok? ==> WellFormed(AddToCart(env, b, item).value)
    ensures RemoveFromCart(env, b, id, color, size).Ok? ==> WellFormed(RemoveFromCart(env, b, id, color, size).value)
    ensures UpdateQuantity(env, b, id, color, size, q).Ok? ==> WellFormed(UpdateQuantity(env, b, id, color, size, q).value)
    ensures WellFormed(ClearCart(env, b))
  {
    var read := GetCart(env, b);
    if read.Ok? {
      var cart := read.value;
      assert UniqueKeys(cart) && AllPositive(cart) by {
        if cart != [] {
          assert b.cart == Valid(cart);
        } else {
          assert Keys(cart) == [];
        }
      }
      MergeKeepsInvariant(cart, item, 1);
      RemoveKeepsInvariant(cart, Key(id, color, size));
      SetQuantityKeepsInvariant(cart, Key(id, color, size), q);
    }
    assert Keys([]) == [];
  }

  /** The sums are over the stored cart: adding one line bumps the item count
      by one, and clearing brings it to zero. */
  lemma TotalsFollowOperations(env: Env, b: Browser, item: Item)
    requires GetCart(env, b).Ok? && env.inBrowser && env.writable
    ensures GetTotalItems(env, AddToCart(env, b, item).value) == Ok(GetTotalItems(env, b).value + 1)
    ensures GetTotalPrice(env, ClearCart(env, b)) == Ok(0)
  {
    TotalsAfterMerge(GetCart(env, b).value, item, 1);
  }
}
