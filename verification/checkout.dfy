/** The Next application's checkout page, over the Next `CartProvider`:
    a form, a payment choice, a summary with a flat shipping fee, and a
    submit that clears the cart once a payment method is chosen. */
module Checkout {
  import opened Storage
  import CartContext
  import CartPage

  const FlatShipping: int := 25000

  /** The form fields by name, and the chosen payment method (`""` for none). */
  datatype Form = Form(fields: map<string, string>, selectedPayment: string)

  const FieldNames: seq<string> := ["firstName", "lastName", "email", "phone", "address", "city", "postalCode", "province"]

  /** Every field empty, no payment chosen. */
  function InitialForm(): (f: Form)
    ensures f.selectedPayment == ""
    ensures forall name :: name in f.fields <==> name in FieldNames
    ensures forall name :: name in f.fields ==> f.fields[name] == ""
  {
    Form(map name | name in FieldNames :: "", "")
  }

  /** `handleInputChange`: `{ ...formData, [name]: value }`. */
  function HandleInputChange(f: Form, name: string, value: string): (r: Form)
    ensures name in r.fields && r.fields[name] == value
    ensures forall other :: other != name ==> (other in r.fields <==> other in f.fields)
    ensures forall other :: other != name && other in f.fields ==> r.fields[other] == f.fields[other]
    ensures r.selectedPayment == f.selectedPayment
  {
    f.(fields := f.fields[name := value])
  }

  /** Choosing a payment radio button. */
  function SelectPayment(f: Form, paymentId: string): (r: Form)
    ensures r.selectedPayment == paymentId && r.fields == f.fields
  {
    f.(selectedPayment := paymentId)
  }

  /** What submitting does: nothing but an alert, or the cart cleared and
      a move to the success page. */
  datatype Outcome = AlertNoPayment | Placed

  /** `handleSubmit`: without a payment method the cart is untouched;
      with one, `clearCart` runs. */
  function HandleSubmit(f: Form, s: CartContext.CartState, b: Browser): (r: (Outcome, CartContext.CartState, Browser))
    ensures f.selectedPayment == "" <==> r.0 == AlertNoPayment
    ensures f.selectedPayment == "" ==> r.1 == s && r.2 == b
    ensures f.selectedPayment != "" ==> r.1 == CartContext.Empty && r.2.fashlyCart == Missing
  {
    if f.selectedPayment == "" then (AlertNoPayment, s, b)
    else
      var cleared := CartContext.ClearCart(s, b);
      (Placed, cleared.0, cleared.1)
  }

  datatype View = RedirectToCart | Summary(subtotal: int, shipping: int, total: int)

  /** The render: an empty cart redirects and shows nothing; otherwise the
      summary charges the flat fee whatever the subtotal. */
  function Render(s: CartContext.CartState): (v: View)
    ensures v == RedirectToCart <==> |s.cart| == 0
    ensures v.Summary? ==> v.subtotal == CartContext.GetCartTotal(s) && v.shipping == FlatShipping
    ensures v.Summary? ==> v.total == v.subtotal + FlatShipping
  {
    var subtotal := CartContext.GetCartTotal(s);
    if |s.cart| == 0 then RedirectToCart else Summary(subtotal, FlatShipping, subtotal + FlatShipping)
  }

  /** The cart page waives shipping above 500000 but checkout never does:
      for the same subtotal above the threshold, checkout asks 25000 more;
      at or below it the two totals agree. */
  lemma ShippingDisagreesWithCartPage(s: CartContext.CartState)
    requires |s.cart| > 0
    ensures var v := Render(s);
      var shown := CartPage.Summarize(v.subtotal);
      (v.subtotal > CartPage.FreeShippingAbove ==> v.total == shown.total + FlatShipping) &&
      (v.subtotal <= CartPage.FreeShippingAbove ==> v.total == shown.total)
  {
  }

  /** A placed order leaves an empty cart behind, so the page would next
      redirect; a refused submit renders the same summary again. */
  lemma SubmitThenRender(f: Form, s: CartContext.CartState, b: Browser)
    ensures var r := HandleSubmit(f, s, b);
      (r.0 == Placed ==> Render(r.1) == RedirectToCart) &&
      (r.0 == AlertNoPayment ==> Render(r.1) == Render(s))
  {
  }
}
