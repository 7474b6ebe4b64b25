/** The `WishlistProvider`: an in-memory sequence of products, loaded from
    the `"fashlyWishlist"` record on mount and written back by an effect
    after every change. Products are identified by `id` alone. */
module WishlistContext {
  import opened Types
  import opened Storage
  import Seqs

  function IdOf(p: Product): int { p.id }

  function HasId(id: int): Product -> bool { (p: Product) => p.id == id }

  function OtherId(id: int): Product -> bool { (p: Product) => p.id != id }

  function Ids(w: seq<Product>): seq<int> { Seqs.Map(w, IdOf) }

  /** No product id occurs twice. */
  predicate UniqueIds(w: seq<Product>) { Seqs.NoDup(Ids(w)) }

  /** `isInWishlist(productId)`, the `some` over ids. */
  function IsInWishlist(w: seq<Product>, productId: int): (r: bool)
    ensures r <==> exists i :: 0 <= i < |w| && w[i].id == productId
  {
    assert forall i :: 0 <= i < |w| ==> Ids(w)[i] == w[i].id;
    productId in Ids(w)
  }

  /** `addToWishlist(product)`: appended when no product has its id, else a no-op. */
  function AddToWishlist(w: seq<Product>, product: Product): (r: seq<Product>)
    ensures IsInWishlist(r, product.id)
    ensures IsInWishlist(w, product.id) ==> r == w
    ensures !IsInWishlist(w, product.id) ==> r == w + [product]
  {
    if Seqs.FirstIndex(w, HasId(product.id)) < 0 then
      var r := w + [product];
      assert r[|w|].id == product.id;
      r
    else w
  }

  /** `removeFromWishlist(productId)`: every product with the id goes, the rest stay. */
  function RemoveFromWishlist(w: seq<Product>, productId: int): (r: seq<Product>)
    ensures !IsInWishlist(r, productId)
    ensures forall p :: p in r <==> p in w && p.id != productId
  {
    var r := Seqs.Filter(w, OtherId(productId));
    assert forall i :: 0 <= i < |r| ==> r[i].id != productId by {
      forall i | 0 <= i < |r| ensures r[i].id != productId {
        assert r[i] in r;
      }
    }
    r
  }

  /** `clearWishlist`: the empty list, and the record removed. */
  function ClearWishlist(b: Browser): (r: (seq<Product>, Browser))
    ensures r.0 == [] && r.1.fashlyWishlist == Missing
    ensures r.1.cart == b.cart && r.1.fashlyCart == b.fashlyCart && r.1.cartUpdated == b.cartUpdated
  {
    ([], b.(fashlyWishlist := Missing))
  }

  /** The persist effect: the list is written as it is. */
  function Persist(w: seq<Product>, b: Browser): (r: Browser)
    ensures r.fashlyWishlist == Valid(w)
    ensures r.cart == b.cart && r.fashlyCart == b.fashlyCart && r.cartUpdated == b.cartUpdated
  {
    b.(fashlyWishlist := Valid(w))
  }

  /** The load effect: a missing record keeps the empty list, bad JSON throws,
      and a value that is not an array throws at its first use as one. */
  function Load(b: Browser): (r: Result<seq<Product>>)
    ensures r.Ok? <==> b.fashlyWishlist.Missing? || b.fashlyWishlist.Valid?
    ensures b.fashlyWishlist.Missing? ==> r == Ok([])
    ensures b.fashlyWishlist.Corrupt? ==> r == Throws(ParseError)
    ensures b.fashlyWishlist.NonArray? ==> r == Throws(NotAnArray)
  {
    match b.fashlyWishlist
    case Missing => Ok([])
    case Corrupt => Throws(ParseError)
    case NonArray => Throws(NotAnArray)
    case Valid(items) => Ok(items)
  }

  /** Adding twice is adding once. */
  lemma AddIdempotent(w: seq<Product>, product: Product)
    ensures AddToWishlist(AddToWishlist(w, product), product) == AddToWishlist(w, product)
  {
  }

  /** Removing what was just added restores a list that did not hold the id. */
  lemma RemoveUndoesAdd(w: seq<Product>, product: Product)
    requires !IsInWishlist(w, product.id)
    ensures RemoveFromWishlist(AddToWishlist(w, product), product.id) == w
  {
    Seqs.FilterAppend(w, [product], OtherId(product.id));
    assert Seqs.Filter([product], OtherId(product.id)) == [];
    forall p | p in w ensures OtherId(product.id)(p) {
      var i :| 0 <= i < |w| && w[i] == p;
    }
    Seqs.FilterAll(w, OtherId(product.id));
  }

  /** Removal keeps the other products in their order. */
  lemma RemoveKeepsOrder(w: seq<Product>, productId: int)
    ensures Seqs.IsSubseq(RemoveFromWishlist(w, productId), w)
    ensures !IsInWishlist(w, productId) ==> RemoveFromWishlist(w, productId) == w
  {
    Seqs.FilterSubseq(w, OtherId(productId));
    if !IsInWishlist(w, productId) {
      forall p | p in w ensures OtherId(productId)(p) {
        var i :| 0 <= i < |w| && w[i] == p;
      }
      Seqs.FilterAll(w, OtherId(productId));
    }
  }

  /** Add and remove keep ids unique. */
  lemma OperationsKeepUniqueIds(w: seq<Product>, product: Product, productId: int)
    requires UniqueIds(w)
    ensures UniqueIds(AddToWishlist(w, product))
    ensures UniqueIds(RemoveFromWishlist(w, productId))
  {
    if !IsInWishlist(w, product.id) {
      var r := w + [product];
      assert Ids(r) == Ids(w) + [product.id];
      assert product.id !in Ids(w);
    }
    Seqs.FilterMap(w, IdOf, OtherId(productId), (id: int) => id != productId);
    Seqs.FilterNoDup(Ids(w), (id: int) => id != productId);
  }

  /** Persisting and loading again gives back the same list. */
  lemma PersistLoadRoundTrip(w: seq<Product>, b: Browser)
    ensures Load(Persist(w, b)) == Ok(w)
  {
  }

  /** The record removed by `clearWishlist` is written back as `[]` by the
      persist effect; either way a later load sees the empty list. */
  lemma ClearThenPersist(b: Browser)
    ensures var r := ClearWishlist(b);
      Persist(r.0, r.1).fashlyWishlist == Valid([]) && Load(r.1) == Ok([]) && Load(Persist(r.0, r.1)) == Ok([])
  {
  }
}
