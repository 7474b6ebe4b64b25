/** The `useCart` hook: an in-memory line sequence, loaded from the `"cart"`
    record once the component mounts on the client, and written back on
    every change. Unlike `cartUtils` it never dispatches `"cartUpdated"`. */
module UseCart {
  import opened Lines
  import opened Storage
  import Seqs

  datatype Hook = Hook(items: seq<Line>, isLoading: bool, isClient: bool)

  /** The state before the mount effect has run. */
  const Initial: Hook := Hook([], true, false)

  /** What a fresh mount makes of a record: only an array is adopted. */
  function Loaded(s: Stored<Line>): seq<Line> {
    if s.Valid? then s.items else []
  }

  /** The mount effect: `isClient` becomes true and loading ends. A missing
      record and a non-array value leave the initial empty cart; a parse
      error sets it to the empty cart; an array is adopted. */
  function Mount(b: Browser): (h: Hook)
    ensures h.isClient && !h.isLoading
    ensures b.cart.Valid? ==> h.items == b.cart.items
    ensures !b.cart.Valid? ==> h.items == []
  {
    match b.cart
    case Valid(items) => Hook(items, false, true)
    case Corrupt => Hook([], false, true)
    case Missing => Initial.(isLoading := false, isClient := true)
    case NonArray => Initial.(isLoading := false, isClient := true)
  }

  /** `saveCart`: the in-memory cart is only replaced after the write
      succeeded; a throwing write leaves both unchanged. */
  function Save(h: Hook, b: Browser, writable: bool, items: seq<Line>): (r: (Hook, Browser))
    ensures r.1.cartUpdated == b.cartUpdated
    ensures r.1.fashlyCart == b.fashlyCart && r.1.fashlyWishlist == b.fashlyWishlist
    ensures writable ==> r.0.items == items && r.1.cart == Valid(items)
    ensures !writable ==> r == (h, b)
  {
    if writable then (h.(items := items), b.(cart := Valid(items))) else (h, b)
  }

  /** The check `!id || !name || !price || !color || !size`: zero and the
      empty string are falsy, so a free item or an item with id 0 is refused. */
  predicate Acceptable(item: Item) {
    item.id != 0 && NameOf(item) != "" && item.price != 0 && item.color != "" && item.size != ""
  }

  /** `addToCart`: refused before mount and for an unacceptable item. */
  function AddToCart(h: Hook, b: Browser, writable: bool, item: Item): (r: (Hook, Browser))
    ensures r.1.cartUpdated == b.cartUpdated && r.0.isClient == h.isClient && r.0.isLoading == h.isLoading
    ensures r.0.items != h.items ==> h.isClient && Acceptable(item) && writable
    ensures h.isClient && Acceptable(item) && writable ==>
      HasKey(r.0.items, ItemKey(item)) && r.1.cart == Valid(r.0.items)
  {
    if !h.isClient || !Acceptable(item) then (h, b)
    else Save(h, b, writable, Merge(h.items, item, 1))
  }

  /** `removeFromCart(id, color, size)`. */
  function RemoveFromCart(h: Hook, b: Browser, writable: bool, id: int, color: string, size: string): (r: (Hook, Browser))
    ensures r.1.cartUpdated == b.cartUpdated && r.0.isClient == h.isClient
    ensures !h.isClient || !writable ==> r == (h, b)
    ensures h.isClient && writable ==>
      !HasKey(r.0.items, Key(id, color, size)) && r.1.cart == Valid(r.0.items) &&
      forall l :: l in r.0.items <==> l in h.items && KeyOf(l) != Key(id, color, size)
  {
    if !h.isClient then (h, b)
    else Save(h, b, writable, RemoveKey(h.items, Key(id, color, size)))
  }

  /** `updateQuantity(id, color, size, quantity)`: zero or less removes the line. */
  function UpdateQuantity(h: Hook, b: Browser, writable: bool, id: int, color: string, size: string, quantity: int): (r: (Hook, Browser))
    ensures r.1.cartUpdated == b.cartUpdated && r.0.isClient == h.isClient
    ensures !h.isClient || !writable ==> r == (h, b)
    ensures h.isClient && writable && quantity <= 0 ==> !HasKey(r.0.items, Key(id, color, size))
    ensures h.isClient && writable && quantity > 0 ==>
      |r.0.items| == |h.items| && r.1.cart == Valid(r.0.items) &&
      forall j :: 0 <= j < |h.items| && KeyOf(h.items[j]) == Key(id, color, size) ==> r.0.items[j].quantity == quantity
  {
    if !h.isClient then (h, b)
    else if quantity <= 0 then RemoveFromCart(h, b, writable, id, color, size)
    else Save(h, b, writable, SetQuantity(h.items, Key(id, color, size), quantity))
  }

  /** `clearCart`: saves the empty cart. */
  function ClearCart(h: Hook, b: Browser, writable: bool): (r: (Hook, Browser))
    ensures r.1.cartUpdated == b.cartUpdated
    ensures !h.isClient || !writable ==> r == (h, b)
    ensures h.isClient && writable ==> r.0.items == [] && r.1.cart == Valid([])
  {
    if !h.isClient then (h, b) else Save(h, b, writable, [])
  }

  /** `getTotalItems`: the sum of the in-memory quantities. */
  function GetTotalItems(h: Hook): (r: int)
    ensures WellFormed(h) ==> r >= |h.items|
    ensures h.items == [] ==> r == 0
  {
    assert AllPositive(h.items) ==> TotalItems(h.items) >= |h.items| by {
      if AllPositive(h.items) { PositiveCount(h.items); }
    }
    TotalItems(h.items)
  }

  /** `getTotalPrice`: the sum of price times quantity in memory. */
  function GetTotalPrice(h: Hook): (r: int)
    ensures (forall i :: 0 <= i < |h.items| ==> LineTotal(h.items[i]) >= 0) ==> r >= 0
    ensures h.items == [] ==> r == 0
  {
    PriceNonNegative(h.items);
    TotalPrice(h.items)
  }

  /** The memory agrees with what a fresh mount would load from storage. */
  predicate Agrees(h: Hook, b: Browser) { h.items == Loaded(b.cart) }

  /** Memory holds unique keys and positive quantities. */
  predicate WellFormed(h: Hook) { UniqueKeys(h.items) && AllPositive(h.items) }

  /** A mount agrees with the storage it read. */
  lemma MountAgrees(b: Browser)
    ensures Agrees(Mount(b), b)
  {
  }

  /** Adding is refused before mount and for an unacceptable item; otherwise,
      once written, the first line with the key gains one and every other line
      is kept, or a line of one is appended. */
  lemma AddValidatesThenMerges(h: Hook, b: Browser, writable: bool, item: Item)
    ensures !h.isClient || !Acceptable(item) || !writable ==> AddToCart(h, b, writable, item) == (h, b)
    ensures h.isClient && Acceptable(item) && writable ==>
      var after := AddToCart(h, b, writable, item).0.items;
      TotalItems(after) == TotalItems(h.items) + 1 &&
      (HasKey(h.items, ItemKey(item)) ==>
        |after| == |h.items| &&
        var i := FindIndex(h.items, ItemKey(item));
        after[i].quantity == h.items[i].quantity + 1 &&
        forall j :: 0 <= j < |h.items| && j != i ==> after[j] == h.items[j]) &&
      (!HasKey(h.items, ItemKey(item)) ==> after == h.items + [Line(item, 1)])
  {
    TotalsAfterMerge(h.items, item, 1);
  }

  /** Before mount every mutator is a no-op. */
  lemma MutatorsWaitForClient(h: Hook, b: Browser, writable: bool, item: Item, id: int, color: string, size: string, q: int)
    requires !h.isClient
    ensures AddToCart(h, b, writable, item) == (h, b)
    ensures RemoveFromCart(h, b, writable, id, color, size) == (h, b)
    ensures UpdateQuantity(h, b, writable, id, color, size, q) == (h, b)
    ensures ClearCart(h, b, writable) == (h, b)
  {
  }

  /** Updating to zero or less is removal; otherwise only the matching line's quantity changes. */
  lemma UpdateSetsOrRemoves(h: Hook, b: Browser, writable: bool, id: int, color: string, size: string, q: int)
    requires h.isClient && writable
    ensures q <= 0 ==> UpdateQuantity(h, b, writable, id, color, size, q) == RemoveFromCart(h, b, writable, id, color, size)
    ensures q > 0 ==>
      var after := UpdateQuantity(h, b, writable, id, color, size, q).0.items;
      |after| == |h.items| &&
      forall j :: 0 <= j < |h.items| ==>
        after[j].item == h.items[j].item &&
        after[j].quantity == if KeyOf(h.items[j]) == Key(id, color, size) then q else h.items[j].quantity
  {
  }

  /** Removal filters out exactly the lines with the key, keeping the others in order. */
  lemma RemoveFiltersKey(h: Hook, b: Browser, writable: bool, id: int, color: string, size: string)
    requires h.isClient && writable
    ensures var after := RemoveFromCart(h, b, writable, id, color, size).0.items;
      Seqs.IsSubseq(after, h.items) &&
      forall l :: l in after <==> l in h.items && KeyOf(l) != Key(id, color, size)
  {
  }

  /** Every mutator keeps memory and storage in agreement (a failed write
      changes neither) and keeps memory well-formed. */
  lemma MutatorsKeepInvariants(h: Hook, b: Browser, writable: bool, item: Item, id: int, color: string, size: string, q: int)
    requires Agrees(h, b) && WellFormed(h)
    ensures var r := AddToCart(h, b, writable, item); Agrees(r.0, r.1) && WellFormed(r.0)
    ensures var r := RemoveFromCart(h, b, writable, id, color, size); Agrees(r.0, r.1) && WellFormed(r.0)
    ensures var r := UpdateQuantity(h, b, writable, id, color, size, q); Agrees(r.0, r.1) && WellFormed(r.0)
    ensures var r := ClearCart(h, b, writable); Agrees(r.0, r.1) && WellFormed(r.0)
  {
    MergeKeepsInvariant(h.items, item, 1);
    RemoveKeepsInvariant(h.items, Key(id, color, size));
    SetQuantityKeepsInvariant(h.items, Key(id, color, size), q);
    assert Keys([]) == [];
  }
}
