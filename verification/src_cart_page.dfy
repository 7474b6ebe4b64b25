/** The React-Router application's cart page: quantity and removal buttons
    forwarding to its `CartProvider`, and a coupon box that grants a flat
    ten percent discount for any non-blank code. */
module SrcCartPage {
  import opened SrcCartContext

  /** The coupon box: the typed code and whether a coupon was applied. */
  datatype Coupon = Coupon(code: string, applied: bool)

  const NoCoupon: Coupon := Coupon("", false)

  /** The characters `String.prototype.trim` removes, restricted to ASCII. */
  predicate IsSpace(c: char) {
    c == ' ' || c == '\t' || c == '\n' || c == '\r' || c == '\U{0B}' || c == '\U{0C}'
  }

  /** `code.trim() === ""`: the code is whitespace only. */
  function Blank(code: string): (r: bool)
    ensures r <==> forall i :: 0 <= i < |code| ==> IsSpace(code[i])
  {
    if |code| == 0 then true
    else
      var rest := Blank(code[1..]);
      assert forall i :: 1 <= i < |code| ==> code[i] == code[1..][i - 1];
      IsSpace(code[0]) && rest
  }

  /** Typing in the box; the input is disabled once a coupon is applied. */
  function EditCode(c: Coupon, code: string): (r: Coupon)
    ensures c.applied ==> r == c
    ensures !c.applied ==> r == Coupon(code, false)
  {
    if c.applied then c else c.(code := code)
  }

  /** `handleApplyCoupon`: any code that is not blank is accepted; the
      button is disabled once applied. */
  function ApplyCoupon(c: Coupon): (r: Coupon)
    ensures r.applied <==> c.applied || !Blank(c.code)
    ensures r.code == c.code
  {
    if c.applied || Blank(c.code) then c else c.(applied := true)
  }

  /** The discount (a `real`: the source multiplies by `0.1`) and the total. */
  function Discount(subtotal: int, c: Coupon): (d: real)
    ensures c.applied ==> d == subtotal as real / 10.0
    ensures !c.applied ==> d == 0.0
  {
    if c.applied then subtotal as real * 0.1 else 0.0
  }

  function Total(subtotal: int, c: Coupon): (t: real)
    ensures t == subtotal as real - Discount(subtotal, c)
    ensures subtotal >= 0 ==> 0.0 <= t <= subtotal as real
  {
    subtotal as real - Discount(subtotal, c)
  }

  /** `handleQuantityChange(item, q)`: below 1 is ignored, otherwise
      `updateQuantity(item.id, item.size, item.color, q)`. */
  function HandleQuantityChange(s: SrcState, item: SrcLine, q: int): (r: SrcState)
    ensures q < 1 ==> r == s
    ensures q >= 1 ==> Consistent(r) && |r.cart| == |s.cart|
    ensures q >= 1 ==> forall j :: 0 <= j < |s.cart| && Same(item.product.id, item.size, item.color)(s.cart[j]) ==> r.cart[j].quantity == q
  {
    if q < 1 then s else UpdateQuantity(s, item.product.id, item.size, item.color, q)
  }

  /** `handleRemoveItem(item)`: `removeFromCart(item.id, item.size, item.color)`. */
  function HandleRemoveItem(s: SrcState, item: SrcLine): (r: SrcState)
    ensures Consistent(r)
    ensures item !in r.cart
    ensures forall l :: l in r.cart <==> l in s.cart && !Same(item.product.id, item.size, item.color)(l)
  {
    RemoveFromCart(s, item.product.id, item.size, item.color)
  }

  /** Once applied, no sequence of edits or clicks takes the coupon back. */
  lemma CouponSticky(c: Coupon)
    requires c.applied
    ensures forall code :: EditCode(c, code) == c
    ensures ApplyCoupon(c) == c
    ensures Total(100, c) == 90.0
  {
  }

  /** The arguments reach the provider in the order it expects: the line the
      button belongs to gets the new quantity, and removal takes it away. */
  lemma ButtonsHitTheirLine(s: SrcState, j: int, q: int)
    requires 0 <= j < |s.cart| && q >= 1
    ensures HandleQuantityChange(s, s.cart[j], q).cart[j].quantity == q
    ensures s.cart[j] !in HandleRemoveItem(s, s.cart[j]).cart
  {
    var item := s.cart[j];
    assert Same(item.product.id, item.size, item.color)(s.cart[j]);
  }
}
