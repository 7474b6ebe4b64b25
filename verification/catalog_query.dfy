/** The React-Router catalog page: a filter state (seeded from the URL's
    `category` and `subcategory`), two further URL parameters (`search` and
    `filter`), and the effect that recomputes the visible products by a
    chain of filters followed by a sort. */
module CatalogQuery {
  import opened Types
  import Seqs
  import Text
  import ProductOrder

  /** `priceRange`, the two-element array `[min, max]`. */
  datatype PriceRange = PriceRange(min: int, max: int)

  datatype Filters = Filters(
    category: string,
    subcategory: string,
    priceRange: PriceRange,
    colors: seq<string>,
    sizes: seq<string>,
    sort: string)

  /** The URL parameters read on every render; `None` is an absent parameter. */
  datatype Query = Query(search: Option<string>, filter: Option<string>)

  const FullRange: PriceRange := PriceRange(0, 1000000)

  /** The initial filter state: the URL's category and subcategory (absent
      reads as `""`), the full price range, no colors or sizes, newest first. */
  function InitialFilters(categoryParam: Option<string>, subcategoryParam: Option<string>): (f: Filters)
    ensures f.category == (if categoryParam.Some? then categoryParam.value else "")
    ensures f.subcategory == (if subcategoryParam.Some? then subcategoryParam.value else "")
    ensures f.priceRange == PriceRange(0, 1000000) && f.colors == [] && f.sizes == []
    ensures ProductOrder.ParseSort(f.sort) == ProductOrder.Newest
  {
    Filters(
      if categoryParam.Some? then categoryParam.value else "",
      if subcategoryParam.Some? then subcategoryParam.value else "",
      FullRange, [], [], "newest")
  }

  function CategoryIs(c: string): Product -> bool { (p: Product) => p.category == c }

  function SubcategoryIs(c: string): Product -> bool { (p: Product) => p.subcategory == c }

  function PriceWithin(r: PriceRange): Product -> bool {
    (p: Product) => p.price >= r.min && p.price <= r.max
  }

  /** `product.colors.some((color) => filters.colors.includes(color))`. */
  function AnyColorOf(colors: seq<string>): Product -> bool {
    (p: Product) => exists c :: c in p.colors && c in colors
  }

  function AnySizeOf(sizes: seq<string>): Product -> bool {
    (p: Product) => exists s :: s in p.sizes && s in sizes
  }

  /** The lowercased term occurs in the lowercased name or description. */
  function Mentions(term: string): Product -> bool {
    (p: Product) => Text.Contains(Text.Lower(p.name), Text.Lower(term)) ||
                    Text.Contains(Text.Lower(p.description), Text.Lower(term))
  }

  function IsNew(): Product -> bool { (p: Product) => p.isNew }

  function IsBestSeller(): Product -> bool { (p: Product) => p.isBestSeller }

  /** The search parameter is truthy: present and non-empty. */
  predicate Searching(q: Query) { q.search.Some? && q.search.value != "" }

  function Term(q: Query): string { if q.search.Some? then q.search.value else "" }

  /** One `if (cond) result = result.filter(keep)` step. */
  function Stage(s: seq<Product>, active: bool, keep: Product -> bool): (r: seq<Product>)
    ensures forall x :: multiset(r)[x] == if !active || keep(x) then multiset(s)[x] else 0
    ensures Seqs.IsSubseq(r, s)
  {
    if active then
      Seqs.FilterCounts(s, keep);
      Seqs.FilterSubseq(s, keep);
      Seqs.Filter(s, keep)
    else
      Seqs.SubseqRefl(s);
      s
  }

  /** The filters held in the page state, in the order the effect applies them. */
  function ByFilters(catalog: seq<Product>, f: Filters): (r: seq<Product>)
    ensures Seqs.IsSubseq(r, catalog)
    ensures forall x :: x in r ==> f.priceRange.min <= x.price <= f.priceRange.max
  {
    var s1 := Stage(catalog, f.category != "", CategoryIs(f.category));
    var s2 := Stage(s1, f.subcategory != "", SubcategoryIs(f.subcategory));
    var s3 := Stage(s2, true, PriceWithin(f.priceRange));
    var s4 := Stage(s3, |f.colors| > 0, AnyColorOf(f.colors));
    var s5 := Stage(s4, |f.sizes| > 0, AnySizeOf(f.sizes));
    Seqs.SubseqTrans(s2, s1, catalog);
    Seqs.SubseqTrans(s3, s2, catalog);
    Seqs.SubseqTrans(s4, s3, catalog);
    Seqs.SubseqTrans(s5, s4, catalog);
    assert forall x :: x in s5 ==> x in s3 by {
      Seqs.SubseqTrans(s5, s4, s3);
      Seqs.SubseqMembers(s5, s3);
    }
    s5
  }

  /** The filters taken from the URL, applied after those of the state. */
  function ByQuery(s: seq<Product>, q: Query): (r: seq<Product>)
    ensures Seqs.IsSubseq(r, s)
    ensures !Searching(q) && q.filter != Some("new") && q.filter != Some("bestseller") ==> r == s
  {
    var s6 := Stage(s, Searching(q), Mentions(Term(q)));
    var s7 := Stage(s6, q.filter == Some("new"), IsNew());
    var s8 := Stage(s7, q.filter == Some("bestseller"), IsBestSeller());
    Seqs.SubseqTrans(s7, s6, s);
    Seqs.SubseqTrans(s8, s7, s);
    s8
  }

  /** The whole chain of filters. */
  function Narrow(catalog: seq<Product>, f: Filters, q: Query): (r: seq<Product>)
    ensures forall x :: x in r ==> x in catalog && f.priceRange.min <= x.price <= f.priceRange.max
  {
    var r := ByQuery(ByFilters(catalog, f), q);
    Seqs.SubseqTrans(r, ByFilters(catalog, f), catalog);
    Seqs.SubseqMembers(r, ByFilters(catalog, f));
    Seqs.SubseqMembers(r, catalog);
    r
  }

  /** Which products the state's filters let through, stated field by field. */
  predicate FilterSelected(f: Filters, p: Product) {
    (f.category != "" ==> p.category == f.category) &&
    (f.subcategory != "" ==> p.subcategory == f.subcategory) &&
    f.priceRange.min <= p.price <= f.priceRange.max &&
    (|f.colors| > 0 ==> exists c :: c in p.colors && c in f.colors) &&
    (|f.sizes| > 0 ==> exists s :: s in p.sizes && s in f.sizes)
  }

  /** Which products the URL's search and special filter let through. */
  predicate QuerySelected(q: Query, p: Product) {
    (Searching(q) ==>
      Text.Contains(Text.Lower(p.name), Text.Lower(q.search.value)) ||
      Text.Contains(Text.Lower(p.description), Text.Lower(q.search.value))) &&
    (q.filter == Some("new") ==> p.isNew) &&
    (q.filter == Some("bestseller") ==> p.isBestSeller)
  }

  /** Which products the page shows. */
  predicate Selected(f: Filters, q: Query, p: Product) {
    FilterSelected(f, p) && QuerySelected(q, p)
  }

  /** The effect's result: the narrowed products in the chosen order. */
  function Visible(catalog: seq<Product>, f: Filters, q: Query): (r: seq<Product>)
    ensures ProductOrder.Sorted(ProductOrder.ParseSort(f.sort), r)
    ensures multiset(r) == multiset(Narrow(catalog, f, q))
  {
    ProductOrder.Sort(ProductOrder.ParseSort(f.sort), Narrow(catalog, f, q))
  }

  /** The narrowed list keeps the catalog's order. */
  lemma NarrowKeepsOrder(catalog: seq<Product>, f: Filters, q: Query)
    ensures Seqs.IsSubseq(Narrow(catalog, f, q), catalog)
  {
    var s1 := Stage(catalog, f.category != "", CategoryIs(f.category));
    var s2 := Stage(s1, f.subcategory != "", SubcategoryIs(f.subcategory));
    var s3 := Stage(s2, true, PriceWithin(f.priceRange));
    var s4 := Stage(s3, |f.colors| > 0, AnyColorOf(f.colors));
    var s5 := Stage(s4, |f.sizes| > 0, AnySizeOf(f.sizes));
    var s6 := Stage(s5, Searching(q), Mentions(Term(q)));
    var s7 := Stage(s6, q.filter == Some("new"), IsNew());
    var s8 := Stage(s7, q.filter == Some("bestseller"), IsBestSeller());
    Seqs.SubseqTrans(s2, s1, catalog);
    Seqs.SubseqTrans(s3, s2, catalog);
    Seqs.SubseqTrans(s4, s3, catalog);
    Seqs.SubseqTrans(s5, s4, catalog);
    Seqs.SubseqTrans(s6, s5, catalog);
    Seqs.SubseqTrans(s7, s6, catalog);
    Seqs.SubseqTrans(s8, s7, catalog);
  }

  lemma ByFiltersCount(catalog: seq<Product>, f: Filters, p: Product)
    ensures multiset(ByFilters(catalog, f))[p] == if FilterSelected(f, p) then multiset(catalog)[p] else 0
  {
    var s1 := Stage(catalog, f.category != "", CategoryIs(f.category));
    var s2 := Stage(s1, f.subcategory != "", SubcategoryIs(f.subcategory));
    var s3 := Stage(s2, true, PriceWithin(f.priceRange));
    var s4 := Stage(s3, |f.colors| > 0, AnyColorOf(f.colors));
    var s5 := Stage(s4, |f.sizes| > 0, AnySizeOf(f.sizes));
    var k1, k2, k3, k4, k5 := CategoryIs(f.category)(p), SubcategoryIs(f.subcategory)(p),
      PriceWithin(f.priceRange)(p), AnyColorOf(f.colors)(p), AnySizeOf(f.sizes)(p);
    assert multiset(s1)[p] == if !(f.category != "") || k1 then multiset(catalog)[p] else 0;
    assert multiset(s2)[p] == if !(f.subcategory != "") || k2 then multiset(s1)[p] else 0;
    assert multiset(s3)[p] == if !true || k3 then multiset(s2)[p] else 0;
    assert multiset(s4)[p] == if !(|f.colors| > 0) || k4 then multiset(s3)[p] else 0;
    assert multiset(s5)[p] == if !(|f.sizes| > 0) || k5 then multiset(s4)[p] else 0;
    assert FilterSelected(f, p) <==>
      (f.category == "" || k1) && (f.subcategory == "" || k2) && k3 && (|f.colors| == 0 || k4) && (|f.sizes| == 0 || k5);
  }

  lemma ByQueryCount(s: seq<Product>, q: Query, p: Product)
    ensures multiset(ByQuery(s, q))[p] == if QuerySelected(q, p) then multiset(s)[p] else 0
  {
    var s6 := Stage(s, Searching(q), Mentions(Term(q)));
    var s7 := Stage(s6, q.filter == Some("new"), IsNew());
    var s8 := Stage(s7, q.filter == Some("bestseller"), IsBestSeller());
    assert multiset(s6)[p] == if !Searching(q) || Mentions(Term(q))(p) then multiset(s)[p] else 0;
    assert multiset(s7)[p] == if q.filter != Some("new") || p.isNew then multiset(s6)[p] else 0;
    assert multiset(s8)[p] == if q.filter != Some("bestseller") || p.isBestSeller then multiset(s7)[p] else 0;
  }

  /** Each product is kept exactly as often as the catalog holds it when it
      is selected, and dropped otherwise. */
  lemma NarrowCount(catalog: seq<Product>, f: Filters, q: Query, p: Product)
    ensures multiset(Narrow(catalog, f, q))[p] == if Selected(f, q, p) then multiset(catalog)[p] else 0
  {
    ByFiltersCount(catalog, f, p);
    ByQueryCount(ByFilters(catalog, f), q, p);
  }

  /** A product is visible iff the catalog holds it and it is selected. */
  lemma VisibleSelects(catalog: seq<Product>, f: Filters, q: Query)
    ensures forall p :: p in Visible(catalog, f, q) <==> p in catalog && Selected(f, q, p)
  {
    var r := Visible(catalog, f, q);
    forall p ensures p in r <==> p in catalog && Selected(f, q, p) {
      NarrowCount(catalog, f, q, p);
      assert p in r <==> multiset(r)[p] > 0;
      assert p in catalog <==> multiset(catalog)[p] > 0;
    }
  }

  /** A partial filter object, as passed to `handleFilterChange`; `None` is a
      key the object does not have. */
  datatype Patch = Patch(
    category: Option<string>,
    subcategory: Option<string>,
    priceRange: Option<PriceRange>,
    colors: Option<seq<string>>,
    sizes: Option<seq<string>>,
    sort: Option<string>)

  const NoChange: Patch := Patch(None, None, None, None, None, None)

  function Pick<T>(o: Option<T>, old_: T): T { if o.Some? then o.value else old_ }

  /** `handleFilterChange`: `{ ...filters, ...newFilters }`. */
  function HandleFilterChange(f: Filters, patch: Patch): (r: Filters)
    ensures patch == NoChange ==> r == f
    ensures patch.category.None? ==> r.category == f.category
    ensures patch.subcategory.None? ==> r.subcategory == f.subcategory
    ensures patch.priceRange.None? ==> r.priceRange == f.priceRange
    ensures patch.colors.None? ==> r.colors == f.colors
    ensures patch.sizes.None? ==> r.sizes == f.sizes
    ensures patch.sort.None? ==> r.sort == f.sort
  {
    Filters(
      Pick(patch.category, f.category),
      Pick(patch.subcategory, f.subcategory),
      Pick(patch.priceRange, f.priceRange),
      Pick(patch.colors, f.colors),
      Pick(patch.sizes, f.sizes),
      Pick(patch.sort, f.sort))
  }

  /** The later object's keys win when two spreads are combined. */
  function Then(p1: Patch, p2: Patch): Patch {
    Patch(
      if p2.category.Some? then p2.category else p1.category,
      if p2.subcategory.Some? then p2.subcategory else p1.subcategory,
      if p2.priceRange.Some? then p2.priceRange else p1.priceRange,
      if p2.colors.Some? then p2.colors else p1.colors,
      if p2.sizes.Some? then p2.sizes else p1.sizes,
      if p2.sort.Some? then p2.sort else p1.sort)
  }

  /** Every supplied key is overwritten; applying a change twice is applying
      it once; two changes in a row are their combination. */
  lemma FilterChangeOverwrites(f: Filters, p1: Patch, p2: Patch)
    ensures var r := HandleFilterChange(f, p1);
      (p1.category.Some? ==> r.category == p1.category.value) &&
      (p1.subcategory.Some? ==> r.subcategory == p1.subcategory.value) &&
      (p1.priceRange.Some? ==> r.priceRange == p1.priceRange.value) &&
      (p1.colors.Some? ==> r.colors == p1.colors.value) &&
      (p1.sizes.Some? ==> r.sizes == p1.sizes.value) &&
      (p1.sort.Some? ==> r.sort == p1.sort.value)
    ensures HandleFilterChange(HandleFilterChange(f, p1), p1) == HandleFilterChange(f, p1)
    ensures HandleFilterChange(HandleFilterChange(f, p1), p2) == HandleFilterChange(f, Then(p1, p2))
  {
  }

  /** The "Clear Filters" button of the empty result: every filter key but
      `sort` is reset. */
  const ClearFilters: Patch := Patch(Some(""), Some(""), Some(FullRange), Some([]), Some([]), None)

  /** After clearing, only the URL's search and special filter still narrow
      the result, and the sort order is kept. */
  lemma ClearFiltersWidens(f: Filters, q: Query, p: Product)
    ensures var c := HandleFilterChange(f, ClearFilters);
      c.sort == f.sort &&
      (Selected(c, q, p) <==>
        0 <= p.price <= 1000000 &&
        (Searching(q) ==>
          Text.Contains(Text.Lower(p.name), Text.Lower(q.search.value)) ||
          Text.Contains(Text.Lower(p.description), Text.Lower(q.search.value))) &&
        (q.filter == Some("new") ==> p.isNew) &&
        (q.filter == Some("bestseller") ==> p.isBestSeller))
  {
  }
}
