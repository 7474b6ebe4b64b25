/** The Next application's `FilterSidebar`: checkbox selections and a price
    range held locally, reported to the parent only when the filters are
    applied. Prices are numbers the user types, so they are reals here. */
module FilterPanel {
  import Seqs
  import opened Types

  datatype Range = Range(min: real, max: real)

  datatype Panel = Panel(categories: seq<string>, colors: seq<string>, sizes: seq<string>, priceRange: Range)

  /** The object handed to `onFilterChange`. */
  datatype Emitted = Emitted(categories: seq<string>, colors: seq<string>, sizes: seq<string>, priceRange: Range)

  /** What the user can do in the panel. */
  datatype Event =
    | ToggleCategory(category: string)
    | ToggleColor(color: string)
    | ToggleSize(size: string)
    | EditMin(min: real)
    | EditMax(max: real)
    | Apply

  /** Nothing selected; the price range spans the props' bounds. */
  function Init(minPrice: real, maxPrice: real): (p: Panel)
    ensures p.categories == [] && p.colors == [] && p.sizes == []
    ensures p.priceRange.min == minPrice && p.priceRange.max == maxPrice
  {
    Panel([], [], [], Range(minPrice, maxPrice))
  }

  /** `applyFilters`: exactly the four current selections. */
  function ApplyFilters(p: Panel): (e: Emitted)
    ensures e.categories == p.categories && e.colors == p.colors && e.sizes == p.sizes
    ensures e.priceRange == p.priceRange
  {
    Emitted(p.categories, p.colors, p.sizes, p.priceRange)
  }

  /** One event: the new panel, and what is reported to the parent. */
  function Handle(p: Panel, e: Event): (r: (Panel, Option<Emitted>))
    ensures r.1.Some? <==> e.Apply?
    ensures e.Apply? ==> r == (p, Some(ApplyFilters(p)))
    ensures e.ToggleCategory? ==>
      r.0 == p.(categories := r.0.categories) &&
      (e.category in r.0.categories <==> e.category !in p.categories) &&
      forall c :: c != e.category ==> (c in r.0.categories <==> c in p.categories)
    ensures e.ToggleColor? ==>
      r.0 == p.(colors := r.0.colors) &&
      (e.color in r.0.colors <==> e.color !in p.colors) &&
      forall c :: c != e.color ==> (c in r.0.colors <==> c in p.colors)
    ensures e.ToggleSize? ==>
      r.0 == p.(sizes := r.0.sizes) &&
      (e.size in r.0.sizes <==> e.size !in p.sizes) &&
      forall s :: s != e.size ==> (s in r.0.sizes <==> s in p.sizes)
    ensures e.EditMin? ==> r.0 == p.(priceRange := Range(e.min, p.priceRange.max))
    ensures e.EditMax? ==> r.0 == p.(priceRange := Range(p.priceRange.min, e.max))
  {
    match e
    case ToggleCategory(c) => (p.(categories := Seqs.Toggle(p.categories, c)), None)
    case ToggleColor(c) => (p.(colors := Seqs.Toggle(p.colors, c)), None)
    case ToggleSize(s) => (p.(sizes := Seqs.Toggle(p.sizes, s)), None)
    case EditMin(v) => (p.(priceRange := p.priceRange.(min := v)), None)
    case EditMax(v) => (p.(priceRange := p.priceRange.(max := v)), None)
    case Apply => (p, Some(ApplyFilters(p)))
  }

  /** A run of events: the final panel and every report, in order. Without
      an `Apply` the parent hears nothing; a run that ends with `Apply` has
      last reported exactly the final panel's selections. */
  function Run(p: Panel, events: seq<Event>): (r: (Panel, seq<Emitted>))
    ensures (forall i :: 0 <= i < |events| ==> !events[i].Apply?) ==> r.1 == []
    ensures |events| > 0 && events[|events| - 1].Apply? ==> |r.1| > 0 && r.1[|r.1| - 1] == ApplyFilters(r.0)
    decreases |events|
  {
    if |events| == 0 then (p, [])
    else
      var step := Handle(p, events[0]);
      var rest := Run(step.0, events[1..]);
      (rest.0, (if step.1.Some? then [step.1.value] else []) + rest.1)
  }

  /** The parent hears from the panel once per `Apply` and at no other time. */
  lemma {:induction false} ReportsOnlyOnApply(p: Panel, events: seq<Event>)
    ensures |Run(p, events).1| == |Seqs.Filter(events, (e: Event) => e.Apply?)|
    decreases |events|
  {
    if |events| > 0 {
      ReportsOnlyOnApply(Handle(p, events[0]).0, events[1..]);
      assert events == [events[0]] + events[1..];
      Seqs.FilterAppend([events[0]], events[1..], (e: Event) => e.Apply?);
      assert [events[0]][1..] == [];
    }
  }

  /** The two bounds are edited independently and never checked against
      each other, so a reported range can be empty. */
  lemma BoundsUnchecked(minPrice: real, maxPrice: real, v: real)
    requires v > maxPrice
    ensures var p := Handle(Init(minPrice, maxPrice), EditMin(v)).0;
      var r := Handle(p, Apply).1;
      r.Some? && r.value.priceRange.min > r.value.priceRange.max
  {
  }

  /** Toggling a category twice restores a selection that lacked it, and
      toggles never introduce duplicates. */
  lemma ToggleTwiceRestores(p: Panel, category: string)
    requires category !in p.categories
    ensures Handle(Handle(p, ToggleCategory(category)).0, ToggleCategory(category)).0 == p
    ensures Seqs.NoDup(p.categories) ==> Seqs.NoDup(Handle(p, ToggleCategory(category)).0.categories)
  {
    Seqs.ToggleTwice(p.categories, category);
    if Seqs.NoDup(p.categories) {
      Seqs.ToggleNoDup(p.categories, category);
    }
  }
}
