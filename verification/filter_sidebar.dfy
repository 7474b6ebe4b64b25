/** The React-Router catalog's `FilterSidebar`: it holds no filter state of
    its own and turns each click into a partial filter object handed to the
    page's `handleFilterChange`. */
module FilterSidebar {
  import opened Types
  import Seqs
  import opened CatalogQuery

  /** Choosing a category (or "All Products", the empty category) also
      resets the subcategory. */
  function CategoryChange(category: string): (p: Patch)
    ensures p.category == Some(category) && p.subcategory == Some("")
    ensures p.priceRange.None? && p.colors.None? && p.sizes.None? && p.sort.None?
  {
    NoChange.(category := Some(category), subcategory := Some(""))
  }

  function SubcategoryChange(subcategory: string): (p: Patch)
    ensures p == NoChange.(subcategory := Some(subcategory))
  {
    Patch(None, Some(subcategory), None, None, None, None)
  }

  function PriceChange(min: int, max: int): (p: Patch)
    ensures p == NoChange.(priceRange := Some(PriceRange(min, max)))
  {
    Patch(None, None, Some(PriceRange(min, max)), None, None, None)
  }

  /** The color swatch: removes the color when selected, appends it otherwise. */
  function ColorToggle(f: Filters, color: string): (p: Patch)
    ensures p.colors.Some? && (color in p.colors.value <==> color !in f.colors)
    ensures forall c :: c != color ==> (c in p.colors.value <==> c in f.colors)
    ensures p == NoChange.(colors := p.colors)
  {
    NoChange.(colors := Some(Seqs.Toggle(f.colors, color)))
  }

  /** The size button: the same toggle on sizes. */
  function SizeToggle(f: Filters, size: string): (p: Patch)
    ensures p.sizes.Some? && (size in p.sizes.value <==> size !in f.sizes)
    ensures forall s :: s != size ==> (s in p.sizes.value <==> s in f.sizes)
    ensures p == NoChange.(sizes := p.sizes)
  {
    NoChange.(sizes := Some(Seqs.Toggle(f.sizes, size)))
  }

  /** The three price presets. */
  const Under300k: Patch := PriceChange(0, 300000)
  const From300kTo500k: Patch := PriceChange(300000, 500000)
  const Over500k: Patch := PriceChange(500000, 1000000)

  /** "Clear All Filters": every filter key but `sort`. */
  function ClearAll(): (p: Patch)
    ensures p.sort.None?
    ensures p.category == Some("") && p.subcategory == Some("")
    ensures p.priceRange == Some(PriceRange(0, 1000000)) && p.colors == Some([]) && p.sizes == Some([])
  {
    Patch(Some(""), Some(""), Some(PriceRange(0, 1000000)), Some([]), Some([]), None)
  }

  /** A category click through the page: the category is set, the
      subcategory cleared, and nothing else changes. */
  lemma CategoryResetsSubcategory(f: Filters, category: string)
    ensures HandleFilterChange(f, CategoryChange(category)) ==
      f.(category := category, subcategory := "")
  {
  }

  /** Toggling a color that is not selected, twice, restores the selection;
      toggles never add a duplicate. */
  lemma TogglesRestoreAndStayUnique(f: Filters, color: string, size: string)
    ensures color !in f.colors ==>
      var once := HandleFilterChange(f, ColorToggle(f, color));
      HandleFilterChange(once, ColorToggle(once, color)) == f
    ensures size !in f.sizes ==>
      var once := HandleFilterChange(f, SizeToggle(f, size));
      HandleFilterChange(once, SizeToggle(once, size)) == f
    ensures Seqs.NoDup(f.colors) ==> Seqs.NoDup(HandleFilterChange(f, ColorToggle(f, color)).colors)
    ensures Seqs.NoDup(f.sizes) ==> Seqs.NoDup(HandleFilterChange(f, SizeToggle(f, size)).sizes)
  {
    if color !in f.colors {
      Seqs.ToggleTwice(f.colors, color);
    }
    if size !in f.sizes {
      Seqs.ToggleTwice(f.sizes, size);
    }
    if Seqs.NoDup(f.colors) {
      Seqs.ToggleNoDup(f.colors, color);
    }
    if Seqs.NoDup(f.sizes) {
      Seqs.ToggleNoDup(f.sizes, size);
    }
  }

  /** The price filter is inclusive at both ends, so the presets share their
      boundaries: a price of exactly 300000 or 500000 passes two adjacent
      bands, and every price from 0 to 1000000 passes at least one. */
  lemma PresetsOverlapAtBoundaries(f: Filters, p: Product)
    ensures var under := HandleFilterChange(f, Under300k).priceRange;
      var mid := HandleFilterChange(f, From300kTo500k).priceRange;
      var over := HandleFilterChange(f, Over500k).priceRange;
      (p.price == 300000 ==> PriceWithin(under)(p) && PriceWithin(mid)(p)) &&
      (p.price == 500000 ==> PriceWithin(mid)(p) && PriceWithin(over)(p)) &&
      (0 <= p.price <= 1000000 <==> PriceWithin(under)(p) || PriceWithin(mid)(p) || PriceWithin(over)(p))
  {
  }

  /** The sidebar's "Clear All Filters" is the page's "Clear Filters", and
      neither touches the sort order. */
  lemma ClearAllKeepsSort(f: Filters)
    ensures ClearAll() == ClearFilters
    ensures var c := HandleFilterChange(f, ClearAll());
      c.sort == f.sort && c == InitialFilters(None, None).(sort := f.sort)
  {
  }
}
