/** The React-Router application's `CartProvider`. Its lines are product
    snapshots extended with `quantity`, `size` and `color` (rather than
    `selectedSize` and `selectedColor`), and it persists to its own
    `"fashlyCart"` record, which is kept here as a separate stored value.
    The last lemmas show it is the Next context's state machine up to the
    renaming of those two fields. */
module SrcCartContext {
  import opened Types
  import opened Lines
  import opened Storage
  import Seqs
  import CartContext

  datatype SrcLine = SrcLine(product: Product, quantity: int, size: string, color: string)

  datatype SrcState = SrcState(cart: seq<SrcLine>, itemCount: int)

  function Same(id: int, size: string, color: string): SrcLine -> bool {
    (l: SrcLine) => l.product.id == id && l.size == size && l.color == color
  }

  function Other(id: int, size: string, color: string): SrcLine -> bool {
    (l: SrcLine) => !(l.product.id == id && l.size == size && l.color == color)
  }

  function Requantify(id: int, size: string, color: string, quantity: int): SrcLine -> SrcLine {
    (l: SrcLine) => if l.product.id == id && l.size == size && l.color == color then l.(quantity := quantity) else l
  }

  function Count(cart: seq<SrcLine>): int {
    if |cart| == 0 then 0 else cart[0].quantity + Count(cart[1..])
  }

  function Total(cart: seq<SrcLine>): int {
    if |cart| == 0 then 0 else cart[0].product.price * cart[0].quantity + Total(cart[1..])
  }

  predicate Consistent(s: SrcState) { s.itemCount == Count(s.cart) }

  /** The persist effect's in-memory half. */
  function Commit(cart: seq<SrcLine>): (s: SrcState)
    ensures s.cart == cart && Consistent(s)
  {
    SrcState(cart, Count(cart))
  }

  /** The persist effect's storage half. */
  function Persist(s: SrcState): (r: Stored<SrcLine>)
    ensures r.Valid? && r.items == s.cart
    ensures Consistent(s) ==> Load(r) == Ok(s)
  {
    Valid(s.cart)
  }

  /** The load effect: missing leaves the empty cart, anything unreadable throws. */
  function Load(stored: Stored<SrcLine>): (r: Result<SrcState>)
    ensures stored.Missing? ==> r == Ok(SrcState([], 0))
    ensures stored.Corrupt? ==> r == Throws(ParseError)
    ensures stored.NonArray? ==> r == Throws(NotAnArray)
    ensures r.Ok? ==> Consistent(r.value)
  {
    match stored
    case Missing => Ok(SrcState([], 0))
    case Corrupt => Throws(ParseError)
    case NonArray => Throws(NotAnArray)
    case Valid(items) => Ok(Commit(items))
  }

  /** The `setCart` updater of `addToCart`: the first matching line gains
      the quantity, or a new line is appended. */
  function AddLine(cart: seq<SrcLine>, product: Product, quantity: int, size: string, color: string): (r: seq<SrcLine>)
    ensures exists j :: 0 <= j < |r| && Same(product.id, size, color)(r[j])
  {
    var i := Seqs.FirstIndex(cart, Same(product.id, size, color));
    if 0 <= i then
      var r := cart[i := cart[i].(quantity := cart[i].quantity + quantity)];
      assert Same(product.id, size, color)(r[i]);
      r
    else
      var r := cart + [SrcLine(product, quantity, size, color)];
      assert Same(product.id, size, color)(r[|cart|]);
      r
  }

  /** `AddLine` unfolded, for each of its two cases. */
  lemma AddLineAt(cart: seq<SrcLine>, product: Product, quantity: int, size: string, color: string, i: int)
    requires i == Seqs.FirstIndex(cart, Same(product.id, size, color)) && 0 <= i
    ensures AddLine(cart, product, quantity, size, color) == cart[i := cart[i].(quantity := cart[i].quantity + quantity)]
  {
  }

  lemma AddLineAppends(cart: seq<SrcLine>, product: Product, quantity: int, size: string, color: string)
    requires Seqs.FirstIndex(cart, Same(product.id, size, color)) < 0
    ensures AddLine(cart, product, quantity, size, color) == cart + [SrcLine(product, quantity, size, color)]
  {
  }

  /** `addToCart(product, quantity, selectedSize, selectedColor)`. */
  function AddToCart(s: SrcState, product: Product, quantity: int, selectedSize: string, selectedColor: string): (r: SrcState)
    ensures Consistent(r)
    ensures exists j :: 0 <= j < |r.cart| && Same(product.id, selectedSize, selectedColor)(r.cart[j])
  {
    Commit(AddLine(s.cart, product, quantity, selectedSize, selectedColor))
  }

  /** `removeFromCart(itemId, size, color)`. */
  function RemoveFromCart(s: SrcState, itemId: int, size: string, color: string): (r: SrcState)
    ensures Consistent(r)
    ensures forall l :: l in r.cart <==> l in s.cart && !Same(itemId, size, color)(l)
  {
    Commit(Seqs.Filter(s.cart, Other(itemId, size, color)))
  }

  /** `updateQuantity(itemId, size, color, quantity)`: no lower bound. */
  function UpdateQuantity(s: SrcState, itemId: int, size: string, color: string, quantity: int): (r: SrcState)
    ensures Consistent(r)
    ensures |r.cart| == |s.cart|
    ensures forall j :: 0 <= j < |s.cart| && Same(itemId, size, color)(s.cart[j]) ==> r.cart[j].quantity == quantity
  {
    Commit(Seqs.Map(s.cart, Requantify(itemId, size, color, quantity)))
  }

  /** `clearCart`: the empty cart, and the record removed. */
  function ClearCart(s: SrcState): (r: (SrcState, Stored<SrcLine>))
    ensures r.0.cart == [] && r.0.itemCount == 0 && r.1 == Missing
  {
    (Commit([]), Missing)
  }

  /** `getCartTotal`: the Next provider's price sum over the renamed lines. */
  function GetCartTotal(s: SrcState): (r: int)
    ensures r == TotalPrice(Seqs.Map(s.cart, ToLine))
    ensures s.cart == [] ==> r == 0
  {
    SumsAgree(s.cart);
    Total(s.cart)
  }

  /** The field renaming `size`/`color` to `selectedSize`/`selectedColor`. */
  function ToLine(l: SrcLine): Line {
    Line(CartContext.ItemFor(l.product, l.size, l.color), l.quantity)
  }

  function Lift(s: SrcState): CartContext.CartState {
    CartContext.CartState(Seqs.Map(s.cart, ToLine), s.itemCount)
  }

  /** The two sums agree with the Next context's sums under the renaming. */
  lemma {:induction false} SumsAgree(cart: seq<SrcLine>)
    ensures TotalItems(Seqs.Map(cart, ToLine)) == Count(cart)
    ensures TotalPrice(Seqs.Map(cart, ToLine)) == Total(cart)
  {
    if |cart| > 0 {
      SumsAgree(cart[1..]);
      assert Seqs.Map(cart, ToLine)[1..] == Seqs.Map(cart[1..], ToLine);
    }
  }

  lemma CommitAgrees(cart: seq<SrcLine>)
    ensures Lift(Commit(cart)) == CartContext.Commit(Seqs.Map(cart, ToLine))
  {
    SumsAgree(cart);
  }

  /** Raising one line's quantity commutes with the renaming. */
  lemma BumpAgrees(cart: seq<SrcLine>, i: int, quantity: int)
    requires 0 <= i < |cart|
    ensures var lifted := Seqs.Map(cart, ToLine);
      Seqs.Map(cart[i := cart[i].(quantity := cart[i].quantity + quantity)], ToLine) ==
      lifted[i := Line(lifted[i].item, lifted[i].quantity + quantity)]
  {
    Seqs.MapUpdate(cart, ToLine, i, cart[i].(quantity := cart[i].quantity + quantity));
  }

  /** The updater is `Merge` under the renaming: when a line matches, both
      raise the same line; otherwise both append the same line. */
  lemma AddLineAgrees(cart: seq<SrcLine>, product: Product, quantity: int, size: string, color: string)
    ensures Seqs.Map(AddLine(cart, product, quantity, size, color), ToLine) ==
            Merge(Seqs.Map(cart, ToLine), CartContext.ItemFor(product, size, color), quantity)
  {
    var i := Seqs.FirstIndex(cart, Same(product.id, size, color));
    var item := CartContext.ItemFor(product, size, color);
    Seqs.FirstIndexMap(cart, ToLine, Same(product.id, size, color), Matching(ItemKey(item)));
    if 0 <= i {
      BumpCaseAgrees(cart, product, quantity, size, color, i);
    } else {
      AppendCaseAgrees(cart, product, quantity, size, color);
    }
  }

  lemma BumpCaseAgrees(cart: seq<SrcLine>, product: Product, quantity: int, size: string, color: string, i: int)
    requires i == Seqs.FirstIndex(cart, Same(product.id, size, color)) && 0 <= i
    requires i == FindIndex(Seqs.Map(cart, ToLine), Key(product.id, color, size))
    ensures Seqs.Map(AddLine(cart, product, quantity, size, color), ToLine) ==
            Merge(Seqs.Map(cart, ToLine), CartContext.ItemFor(product, size, color), quantity)
  {
    var item := CartContext.ItemFor(product, size, color);
    var lifted := Seqs.Map(cart, ToLine);
    calc {
      Seqs.Map(AddLine(cart, product, quantity, size, color), ToLine);
      { AddLineAt(cart, product, quantity, size, color, i); }
      Seqs.Map(cart[i := cart[i].(quantity := cart[i].quantity + quantity)], ToLine);
      { BumpAgrees(cart, i, quantity); }
      lifted[i := Line(lifted[i].item, lifted[i].quantity + quantity)];
      { MergeAt(lifted, item, quantity, i); }
      Merge(lifted, item, quantity);
    }
  }

  lemma AppendCaseAgrees(cart: seq<SrcLine>, product: Product, quantity: int, size: string, color: string)
    requires Seqs.FirstIndex(cart, Same(product.id, size, color)) < 0
    requires FindIndex(Seqs.Map(cart, ToLine), Key(product.id, color, size)) < 0
    ensures Seqs.Map(AddLine(cart, product, quantity, size, color), ToLine) ==
            Merge(Seqs.Map(cart, ToLine), CartContext.ItemFor(product, size, color), quantity)
  {
    var item := CartContext.ItemFor(product, size, color);
    var line := SrcLine(product, quantity, size, color);
    calc {
      Seqs.Map(AddLine(cart, product, quantity, size, color), ToLine);
      { AddLineAppends(cart, product, quantity, size, color); }
      Seqs.Map(cart + [line], ToLine);
      { Seqs.MapAppend(cart, ToLine, line); }
      Seqs.Map(cart, ToLine) + [Line(item, quantity)];
      { MergeAppends(Seqs.Map(cart, ToLine), item, quantity); }
      Merge(Seqs.Map(cart, ToLine), item, quantity);
    }
  }

  /** `addToCart` is the Next context's `addToCart` under the renaming. */
  lemma AddAgrees(s: SrcState, product: Product, quantity: int, size: string, color: string)
    ensures Lift(AddToCart(s, product, quantity, size, color)) ==
            CartContext.AddToCart(Lift(s), product, quantity, size, color)
  {
    AddLineAgrees(s.cart, product, quantity, size, color);
    CommitAgrees(AddLine(s.cart, product, quantity, size, color));
  }

  /** `removeFromCart` is the Next context's `removeFromCart` under the renaming. */
  lemma RemoveAgrees(s: SrcState, itemId: int, size: string, color: string)
    ensures Lift(RemoveFromCart(s, itemId, size, color)) ==
            CartContext.RemoveFromCart(Lift(s), itemId, size, color)
  {
    var k := Key(itemId, color, size);
    Seqs.FilterMap(s.cart, ToLine, Other(itemId, size, color), NotMatching(k));
    CommitAgrees(Seqs.Filter(s.cart, Other(itemId, size, color)));
  }

  /** `updateQuantity` is the Next context's `updateQuantity` under the renaming. */
  lemma UpdateAgrees(s: SrcState, itemId: int, size: string, color: string, quantity: int)
    ensures Lift(UpdateQuantity(s, itemId, size, color, quantity)) ==
            CartContext.UpdateQuantity(Lift(s), itemId, size, color, quantity)
  {
    var c := Seqs.Map(s.cart, Requantify(itemId, size, color, quantity));
    var k := Key(itemId, color, size);
    assert Seqs.Map(c, ToLine) == SetQuantity(Seqs.Map(s.cart, ToLine), k, quantity);
    CommitAgrees(c);
  }

  /** Clearing and totals agree as well. */
  lemma ClearAndTotalAgree(s: SrcState)
    ensures Lift(ClearCart(s).0) == CartContext.Empty
    ensures GetCartTotal(s) == CartContext.GetCartTotal(Lift(s))
  {
    SumsAgree(s.cart);
  }
}
