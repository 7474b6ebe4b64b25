/** Cart lines and the keyed-sequence operations every cart store is built
    from: find by `(id, color, size)`, merge-or-append, filter out a key,
    set a quantity on a key, and the two sums (item count and price). */
module Lines {
  import opened Types
  import Seqs

  /** What a line remembers about its product. The `"cart"` stores keep a
      name and one image; the context stores spread the whole product. */
  datatype Detail = Summary(name: string, image: string) | Snapshot(product: Product)

  /** A line without its quantity (`Omit<CartItem, "quantity">`). The price
      is captured when the line is created and never re-read. */
  datatype Item = Item(id: int, price: int, color: string, size: string, detail: Detail)

  datatype Line = Line(item: Item, quantity: int)

  /** The identity of a line: product id, colour and size. */
  datatype Key = Key(id: int, color: string, size: string)

  function ItemKey(i: Item): Key { Key(i.id, i.color, i.size) }

  function KeyOf(l: Line): Key { ItemKey(l.item) }

  function NameOf(i: Item): string {
    match i.detail
    case Summary(name, _) => name
    case Snapshot(p) => p.name
  }

  function Keys(ls: seq<Line>): seq<Key> { Seqs.Map(ls, KeyOf) }

  predicate HasKey(ls: seq<Line>, k: Key) { k in Keys(ls) }

  /** No two lines share a key. */
  predicate UniqueKeys(ls: seq<Line>) { Seqs.NoDup(Keys(ls)) }

  /** Every line has quantity at least 1. */
  predicate AllPositive(ls: seq<Line>) {
    forall i :: 0 <= i < |ls| ==> ls[i].quantity >= 1
  }

  function Matching(k: Key): Line -> bool { l => KeyOf(l) == k }

  function NotMatching(k: Key): Line -> bool { l => KeyOf(l) != k }

  /** `findIndex` on the key. */
  function FindIndex(ls: seq<Line>, k: Key): (r: int)
    ensures -1 <= r < |ls|
    ensures r == -1 <==> !HasKey(ls, k)
    ensures 0 <= r ==> KeyOf(ls[r]) == k && forall j :: 0 <= j < r ==> KeyOf(ls[j]) != k
  {
    Seqs.FirstIndex(ls, Matching(k))
  }

  /** `filter` dropping every line with key `k`. */
  function RemoveKey(ls: seq<Line>, k: Key): (r: seq<Line>)
    ensures !HasKey(r, k)
    ensures forall l :: l in r <==> l in ls && KeyOf(l) != k
    ensures Seqs.IsSubseq(r, ls)
    ensures !HasKey(ls, k) ==> r == ls
  {
    var r := Seqs.Filter(ls, NotMatching(k));
    Seqs.FilterSubseq(ls, NotMatching(k));
    assert !HasKey(r, k) by {
      forall i | 0 <= i < |r|
        ensures Keys(r)[i] != k
      {
        assert r[i] in r;
      }
    }
    if !HasKey(ls, k) then
      assert forall l :: l in ls ==> KeyOf(l) != k by {
        forall l | l in ls
          ensures KeyOf(l) != k
        {
          var j :| 0 <= j < |ls| && ls[j] == l;
          assert Keys(ls)[j] == KeyOf(l);
        }
      }
      Seqs.FilterAll(ls, NotMatching(k));
      r
    else
      r
  }

  function Requantify(k: Key, q: int): Line -> Line {
    l => if KeyOf(l) == k then Line(l.item, q) else l
  }

  /** `map` giving every line with key `k` the quantity `q`. */
  function SetQuantity(ls: seq<Line>, k: Key, q: int): (r: seq<Line>)
    ensures |r| == |ls|
    ensures forall i :: 0 <= i < |ls| ==> r[i].item == ls[i].item
    ensures forall i :: 0 <= i < |ls| ==> r[i].quantity == if KeyOf(ls[i]) == k then q else ls[i].quantity
    ensures Keys(r) == Keys(ls)
  {
    Seqs.Map(ls, Requantify(k, q))
  }

  /** Adds `q` to the first line with the item's key (keeping that line's
      snapshot, so its captured price), or appends a new line of quantity `q`. */
  function Merge(ls: seq<Line>, item: Item, q: int): (r: seq<Line>)
    ensures HasKey(r, ItemKey(item))
    ensures HasKey(ls, ItemKey(item)) ==>
      |r| == |ls| && Keys(r) == Keys(ls) &&
      forall j :: 0 <= j < |ls| ==>
        r[j].item == ls[j].item &&
        r[j].quantity == ls[j].quantity + (if j == FindIndex(ls, ItemKey(item)) then q else 0)
    ensures !HasKey(ls, ItemKey(item)) ==> r == ls + [Line(item, q)]
  {
    var i := FindIndex(ls, ItemKey(item));
    if 0 <= i then
      var r := ls[i := Line(ls[i].item, ls[i].quantity + q)];
      assert Keys(r) == Keys(ls) by {
        assert forall j :: 0 <= j < |ls| ==> Keys(r)[j] == Keys(ls)[j];
      }
      assert Keys(r)[i] == ItemKey(item);
      r
    else
      var r := ls + [Line(item, q)];
      assert Keys(r)[|ls|] == ItemKey(item);
      r
  }

  function LineTotal(l: Line): int { l.item.price * l.quantity }

  /** The sum of the quantities. */
  function TotalItems(ls: seq<Line>): int {
    if |ls| == 0 then 0 else ls[0].quantity + TotalItems(ls[1..])
  }

  /** The sum of price times quantity. */
  function TotalPrice(ls: seq<Line>): int {
    if |ls| == 0 then 0 else LineTotal(ls[0]) + TotalPrice(ls[1..])
  }

  lemma {:induction false} TotalsAppend(a: seq<Line>, b: seq<Line>)
    ensures TotalItems(a + b) == TotalItems(a) + TotalItems(b)
    ensures TotalPrice(a + b) == TotalPrice(a) + TotalPrice(b)
  {
    if |a| == 0 {
      assert a + b == b;
    } else {
      TotalsAppend(a[1..], b);
      assert (a + b)[1..] == a[1..] + b;
    }
  }

  /** Replacing one line changes the sums by exactly that line's difference. */
  lemma {:induction false} TotalsReplace(ls: seq<Line>, i: int, l: Line)
    requires 0 <= i < |ls|
    ensures TotalItems(ls[i := l]) == TotalItems(ls) - ls[i].quantity + l.quantity
    ensures TotalPrice(ls[i := l]) == TotalPrice(ls) - LineTotal(ls[i]) + LineTotal(l)
  {
    if i > 0 {
      TotalsReplace(ls[1..], i - 1, l);
      assert ls[i := l][1..] == ls[1..][i - 1 := l];
    }
  }

  /** `Merge` unfolded: the line at the key's index gains `q`, or a line is
      appended. */
  lemma MergeAt(ls: seq<Line>, item: Item, q: int, i: int)
    requires i == FindIndex(ls, ItemKey(item)) && 0 <= i
    ensures Merge(ls, item, q) == ls[i := Line(ls[i].item, ls[i].quantity + q)]
  {
  }

  lemma MergeAppends(ls: seq<Line>, item: Item, q: int)
    requires FindIndex(ls, ItemKey(item)) < 0
    ensures Merge(ls, item, q) == ls + [Line(item, q)]
  {
  }

  /** A merge adds exactly `q` items, priced at the receiving line's price. */
  lemma TotalsAfterMerge(ls: seq<Line>, item: Item, q: int)
    ensures TotalItems(Merge(ls, item, q)) == TotalItems(ls) + q
    ensures var i := FindIndex(ls, ItemKey(item));
      TotalPrice(Merge(ls, item, q)) == TotalPrice(ls) + (if 0 <= i then ls[i].item.price else item.price) * q
  {
    var i := FindIndex(ls, ItemKey(item));
    if 0 <= i {
      var l := Line(ls[i].item, ls[i].quantity + q);
      MergeAt(ls, item, q, i);
      TotalsReplace(ls, i, l);
      Distribute(ls[i].item.price, ls[i].quantity, q);
    } else {
      MergeAppends(ls, item, q);
      TotalsAppend(ls, [Line(item, q)]);
      assert TotalItems([Line(item, q)]) == q && TotalPrice([Line(item, q)]) == item.price * q;
    }
  }

  lemma Distribute(p: int, a: int, q: int)
    ensures p * (a + q) == p * a + p * q
  {
  }

  /** The quantity of the line holding `k`, or 0 when there is none. */
  function QuantityAt(ls: seq<Line>, k: Key): int {
    var i := FindIndex(ls, k);
    if 0 <= i then ls[i].quantity else 0
  }

  /** `RemoveKey` and `QuantityAt` looked at from the first line. */
  lemma RemoveKeyHead(ls: seq<Line>, k: Key)
    requires |ls| > 0
    ensures KeyOf(ls[0]) != k ==> RemoveKey(ls, k) == [ls[0]] + RemoveKey(ls[1..], k)
    ensures KeyOf(ls[0]) != k ==> QuantityAt(ls, k) == QuantityAt(ls[1..], k)
    ensures KeyOf(ls[0]) == k ==> RemoveKey(ls, k) == RemoveKey(ls[1..], k)
    ensures KeyOf(ls[0]) == k ==> QuantityAt(ls, k) == ls[0].quantity
  {
    assert NotMatching(k)(ls[0]) <==> KeyOf(ls[0]) != k;
    assert Matching(k)(ls[0]) <==> KeyOf(ls[0]) == k;
  }

  /** The tail of a list with unique keys has unique keys and lacks the head's key. */
  lemma UniqueTail(ls: seq<Line>)
    requires |ls| > 0 && UniqueKeys(ls)
    ensures UniqueKeys(ls[1..]) && !HasKey(ls[1..], KeyOf(ls[0]))
  {
    var tail := ls[1..];
    assert forall j :: 0 <= j < |tail| ==> Keys(tail)[j] == Keys(ls)[j + 1];
    forall j | 0 <= j < |tail| ensures Keys(tail)[j] != KeyOf(ls[0]) {
      assert Keys(ls)[0] == KeyOf(ls[0]);
    }
  }

  /** With unique keys, removing a key drops exactly the quantity of its line. */
  lemma {:induction false} TotalsAfterRemove(ls: seq<Line>, k: Key)
    requires UniqueKeys(ls)
    ensures TotalItems(RemoveKey(ls, k)) == TotalItems(ls) - QuantityAt(ls, k)
  {
    if |ls| > 0 {
      var tail := ls[1..];
      UniqueTail(ls);
      TotalsAfterRemove(tail, k);
      RemoveKeyHead(ls, k);
      if KeyOf(ls[0]) == k {
        assert RemoveKey(tail, k) == tail;
      } else {
        assert ([ls[0]] + RemoveKey(tail, k))[1..] == RemoveKey(tail, k);
      }
    }
  }

  /** Merging keeps keys unique; with a positive quantity it keeps quantities positive. */
  lemma MergeKeepsInvariant(ls: seq<Line>, item: Item, q: int)
    requires UniqueKeys(ls)
    ensures UniqueKeys(Merge(ls, item, q))
    ensures AllPositive(ls) && q >= 1 ==> AllPositive(Merge(ls, item, q))
  {
    if !HasKey(ls, ItemKey(item)) {
      var r := Merge(ls, item, q);
      assert Keys(r) == Keys(ls) + [ItemKey(item)];
    }
  }

  /** Removing a key keeps keys unique and quantities positive. */
  lemma RemoveKeepsInvariant(ls: seq<Line>, k: Key)
    requires UniqueKeys(ls)
    ensures UniqueKeys(RemoveKey(ls, k))
    ensures AllPositive(ls) ==> AllPositive(RemoveKey(ls, k))
  {
    Seqs.FilterMap(ls, KeyOf, NotMatching(k), key => key != k);
    Seqs.FilterNoDup(Keys(ls), key => key != k);
    var r := RemoveKey(ls, k);
    if AllPositive(ls) {
      forall i | 0 <= i < |r|
        ensures r[i].quantity >= 1
      {
        assert r[i] in ls;
      }
    }
  }

  /** Setting a quantity keeps keys unique; a positive quantity keeps quantities positive. */
  lemma SetQuantityKeepsInvariant(ls: seq<Line>, k: Key, q: int)
    requires UniqueKeys(ls)
    ensures UniqueKeys(SetQuantity(ls, k, q))
    ensures AllPositive(ls) && q >= 1 ==> AllPositive(SetQuantity(ls, k, q))
  {
  }

  /** The `reduce` that counts items: a left-to-right loop computing the sum. */
  method CountItems(ls: seq<Line>) returns (total: int)
    ensures total == TotalItems(ls)
  {
    total := 0;
    var i := 0;
    while i < |ls|
      invariant 0 <= i <= |ls|
      invariant total == TotalItems(ls[..i])
    {
      TotalsAppend(ls[..i], [ls[i]]);
      assert ls[..i + 1] == ls[..i] + [ls[i]];
      total := total + ls[i].quantity;
      i := i + 1;
    }
    assert ls[..i] == ls;
  }

  /** The `reduce` that prices the cart: a left-to-right loop computing the sum. */
  method CountPrice(ls: seq<Line>) returns (total: int)
    ensures total == TotalPrice(ls)
  {
    total := 0;
    var i := 0;
    while i < |ls|
      invariant 0 <= i <= |ls|
      invariant total == TotalPrice(ls[..i])
    {
      TotalsAppend(ls[..i], [ls[i]]);
      assert ls[..i + 1] == ls[..i] + [ls[i]];
      total := total + ls[i].item.price * ls[i].quantity;
      i := i + 1;
    }
    assert ls[..i] == ls;
  }

  /** When no line costs less than nothing, neither does the cart. */
  lemma {:induction false} PriceNonNegative(ls: seq<Line>)
    ensures (forall i :: 0 <= i < |ls| ==> LineTotal(ls[i]) >= 0) ==> TotalPrice(ls) >= 0
  {
    if |ls| > 0 && forall i :: 0 <= i < |ls| ==> LineTotal(ls[i]) >= 0 {
      PriceNonNegative(ls[1..]);
      assert LineTotal(ls[0]) >= 0;
    }
  }

  /** With positive quantities the item count is at least the number of lines. */
  lemma {:induction false} PositiveCount(ls: seq<Line>)
    requires AllPositive(ls)
    ensures TotalItems(ls) >= |ls|
  {
    if |ls| > 0 {
      PositiveCount(ls[1..]);
    }
  }
}
