/** The catalog's `result.sort(comparator)`. `Array.prototype.sort` is a
    stable sort, so each comparator `a - b` / `b - a` amounts to ordering by
    a key, with ties kept in their incoming order. The sort is modelled as a
    stable insertion sort by that key. */
module ProductOrder {
  import opened Types
  import Seqs

  /** The `sort` filter value: three named orders and the default. */
  datatype SortMode = PriceLow | PriceHigh | Rating | Newest

  /** `"price-low"`, `"price-high"` and `"rating"` choose their order; any
      other value, `"newest"` included, falls to the default case. */
  function ParseSort(sort: string): (m: SortMode)
    ensures m == PriceLow <==> sort == "price-low"
    ensures m == PriceHigh <==> sort == "price-high"
    ensures m == Rating <==> sort == "rating"
  {
    if sort == "price-low" then PriceLow
    else if sort == "price-high" then PriceHigh
    else if sort == "rating" then Rating
    else Newest
  }

  /** The key each comparator sorts ascending by: `a.price - b.price` is the
      price, `b.price - a.price` the negated price, and so on. */
  function Key(m: SortMode, p: Product): real {
    match m
    case PriceLow => p.price as real
    case PriceHigh => -(p.price as real)
    case Rating => -p.rating
    case Newest => -(p.id as real)
  }

  predicate Sorted(m: SortMode, s: seq<Product>) {
    forall i, j :: 0 <= i < j < |s| ==> Key(m, s[i]) <= Key(m, s[j])
  }

  function KeyIs(m: SortMode, k: real): Product -> bool { (p: Product) => Key(m, p) == k }

  /** Places `x` before the first element whose key is not smaller. */
  function Insert(m: SortMode, x: Product, s: seq<Product>): (r: seq<Product>)
    requires Sorted(m, s)
    ensures Sorted(m, r)
    ensures |r| == |s| + 1
    ensures r[0] == x || (|s| > 0 && r[0] == s[0])
  {
    if |s| == 0 then [x]
    else if Key(m, x) <= Key(m, s[0]) then [x] + s
    else
      SortedTail(m, s);
      var rest := Insert(m, x, s[1..]);
      assert s == [s[0]] + s[1..];
      assert Key(m, s[0]) <= Key(m, rest[0]) by {
        if rest[0] != x {
          assert rest[0] == s[1];
        }
      }
      ConsSorted(m, s[0], rest);
      [s[0]] + rest
  }

  lemma SortedTail(m: SortMode, s: seq<Product>)
    requires Sorted(m, s) && |s| > 0
    ensures Sorted(m, s[1..])
  {
    forall i, j | 0 <= i < j < |s| - 1 ensures Key(m, s[1..][i]) <= Key(m, s[1..][j]) {
      assert s[1..][i] == s[i + 1] && s[1..][j] == s[j + 1];
    }
  }

  /** A sorted list stays sorted behind an element no larger than its head. */
  lemma ConsSorted(m: SortMode, y: Product, rest: seq<Product>)
    requires Sorted(m, rest) && |rest| > 0 && Key(m, y) <= Key(m, rest[0])
    ensures Sorted(m, [y] + rest)
  {
    var r := [y] + rest;
    forall i, j | 0 <= i < j < |r| ensures Key(m, r[i]) <= Key(m, r[j]) {
      if i == 0 && j > 1 {
        assert Key(m, rest[0]) <= Key(m, rest[j - 1]);
      }
    }
  }

  /** Inserting adds exactly `x`. */
  lemma {:induction false} InsertPermutes(m: SortMode, x: Product, s: seq<Product>)
    requires Sorted(m, s)
    ensures multiset(Insert(m, x, s)) == multiset(s) + multiset{x}
  {
    if |s| > 0 && Key(m, x) > Key(m, s[0]) {
      SortedTail(m, s);
      InsertPermutes(m, x, s[1..]);
      assert s == [s[0]] + s[1..];
      assert Insert(m, x, s) == [s[0]] + Insert(m, x, s[1..]);
    }
  }

  /** The sort: ordered by the mode's key and a permutation of its input. */
  function Sort(m: SortMode, s: seq<Product>): (r: seq<Product>)
    ensures Sorted(m, r)
    ensures multiset(r) == multiset(s)
  {
    if |s| == 0 then []
    else
      assert s == [s[0]] + s[1..];
      InsertPermutes(m, s[0], Sort(m, s[1..]));
      Insert(m, s[0], Sort(m, s[1..]))
  }

  /** Inserting `x` adds it at the front of its key class and leaves every
      other key class as it was. */
  lemma {:induction false} InsertKeyClass(m: SortMode, x: Product, s: seq<Product>, k: real)
    requires Sorted(m, s)
    ensures Seqs.Filter(Insert(m, x, s), KeyIs(m, k)) ==
      if Key(m, x) == k then [x] + Seqs.Filter(s, KeyIs(m, k)) else Seqs.Filter(s, KeyIs(m, k))
  {
    var f := KeyIs(m, k);
    if |s| == 0 || Key(m, x) <= Key(m, s[0]) {
      assert Insert(m, x, s) == [x] + s;
      Seqs.FilterCons(x, s, f);
    } else {
      SortedTail(m, s);
      InsertKeyClass(m, x, s[1..], k);
      var rest := Insert(m, x, s[1..]);
      assert Insert(m, x, s) == [s[0]] + rest;
      Seqs.FilterCons(s[0], rest, f);
      assert s == [s[0]] + s[1..];
      Seqs.FilterCons(s[0], s[1..], f);
      assert Key(m, x) == k ==> !f(s[0]);
    }
  }

  /** Stability: within each key class the sort keeps the incoming order. */
  lemma {:induction false} SortStable(m: SortMode, s: seq<Product>, k: real)
    ensures Seqs.Filter(Sort(m, s), KeyIs(m, k)) == Seqs.Filter(s, KeyIs(m, k))
  {
    if |s| > 0 {
      var f := KeyIs(m, k);
      var tail := Sort(m, s[1..]);
      assert Sort(m, s) == Insert(m, s[0], tail);
      SortStable(m, s[1..], k);
      InsertKeyClass(m, s[0], tail, k);
      assert Seqs.Filter(s, f) == if f(s[0]) then [s[0]] + Seqs.Filter(s[1..], f) else Seqs.Filter(s[1..], f);
    }
  }

  /** What each order means in terms of the products' fields. */
  lemma SortOrders(m: SortMode, s: seq<Product>)
    ensures var r := Sort(m, s);
      forall i, j :: 0 <= i < j < |r| ==>
        (m == PriceLow ==> r[i].price <= r[j].price) &&
        (m == PriceHigh ==> r[i].price >= r[j].price) &&
        (m == Rating ==> r[i].rating >= r[j].rating) &&
        (m == Newest ==> r[i].id >= r[j].id)
  {
    var r := Sort(m, s);
    forall i, j | 0 <= i < j < |r|
      ensures m == PriceLow ==> r[i].price <= r[j].price
      ensures m == PriceHigh ==> r[i].price >= r[j].price
      ensures m == Rating ==> r[i].rating >= r[j].rating
      ensures m == Newest ==> r[i].id >= r[j].id
    {
      assert Key(m, r[i]) <= Key(m, r[j]);
    }
  }

  /** With unique ids the default order is strictly newest first. */
  lemma NewestStrictlyDecreasing(s: seq<Product>)
    requires forall i, j :: 0 <= i < j < |s| ==> s[i].id != s[j].id
    ensures var r := Sort(Newest, s);
      forall i, j :: 0 <= i < j < |r| ==> r[i].id > r[j].id
  {
    var r := Sort(Newest, s);
    SortOrders(Newest, s);
    forall i, j | 0 <= i < j < |r| ensures r[i].id > r[j].id {
      assert r[i] in multiset(s) && r[j] in multiset(s);
      if r[i] == r[j] {
        CountTwo(r, i, j);
        UniqueCount(s, r[i]);
      } else {
        SameIdSameProduct(s, r[i], r[j]);
      }
    }
  }

  /** In a list with unique ids, an id names one product. */
  lemma SameIdSameProduct(s: seq<Product>, p: Product, q: Product)
    requires forall i, j :: 0 <= i < j < |s| ==> s[i].id != s[j].id
    requires p in s && q in s && p != q
    ensures p.id != q.id
  {
    var a :| 0 <= a < |s| && s[a] == p;
    var b :| 0 <= b < |s| && s[b] == q;
    assert a != b;
  }

  lemma {:induction false} UniqueCount(s: seq<Product>, x: Product)
    requires forall i, j :: 0 <= i < j < |s| ==> s[i].id != s[j].id
    ensures multiset(s)[x] <= 1
  {
    if |s| > 0 {
      UniqueCount(s[1..], x);
      assert s == [s[0]] + s[1..];
      if s[0] == x {
        assert x !in s[1..] by {
          forall i | 0 <= i < |s[1..]| ensures s[1..][i] != x {
            assert s[0].id != s[i + 1].id;
          }
        }
      }
    }
  }

  lemma {:induction false} CountTwo(r: seq<Product>, i: int, j: int)
    requires 0 <= i < j < |r| && r[i] == r[j]
    ensures multiset(r)[r[i]] >= 2
  {
    assert r == r[..i] + [r[i]] + r[i + 1..j] + [r[j]] + r[j + 1..];
  }
}
