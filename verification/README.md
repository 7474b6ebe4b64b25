# Fashly storefront — a Dafny model of its stores and list pipelines

Fashly is a fashion storefront written twice: a Next application (`app/`,
`components/`, `contexts/`, `hooks/`, `lib/`) and an older React-Router
application (`src/`). Apart from rendering, its logic is a handful of
client-side collection stores and pure list pipelines. This project models
them as immutable Dafny datatypes and pure functions, and proves what each
store and page promises.

- **Four cart stores**, kept apart because they behave differently:
  - `cartUtils` (`CartUtils`) reads and writes the `"cart"` record on every call and dispatches `"cartUpdated"`;
  - the `useCart` hook (`UseCart`) keeps the `"cart"` lines in memory and validates additions;
  - the Next `CartProvider` (`CartContext`) stores product snapshots under `"fashlyCart"`;
  - the React-Router `CartProvider` (`SrcCartContext`) uses `size`/`color` field names. It is proved to be the Next provider's state machine up to that renaming.
- **The wishlist store** (`WishlistContext`): a list with set semantics on the product id.
- **The catalog pipeline** (`CatalogQuery`, `ProductOrder`, `Text`): the filter-then-sort effect of the catalog page, and its `handleFilterChange` merge.
- **The fixed selections** (`Selections`): the related products and the best sellers.
- **Filter editing**: the React-Router sidebar that emits partial filter objects (`FilterSidebar`), and the Next sidebar that holds local checkboxes until they are applied (`FilterPanel`).
- **Page rules**:
  - the header badge (`CartButton`);
  - the Next cart page's shipping threshold (`CartPage`);
  - the coupon box (`SrcCartPage`);
  - the checkout form and submit guard (`Checkout`);
  - the wishlist page (`WishlistPage`);
  - the Next product component's selection and buttons (`ProductDetail`);
  - the React-Router product page (`ProductDetailPage`).

The shared layer is `Lines`. It holds a cart line keyed by `(id, color, size)`, and the keyed-sequence operations every store is built from: find, merge-or-append, filter out a key, set a quantity, and the two sums.

Local storage is not modelled as JSON text. Each record is one of four values:
- `Missing`: no record, or an empty string;
- `Corrupt`: `JSON.parse` throws on it;
- `NonArray`: it parses to something that is not an array;
- `Valid(items)`: an array.

The `Browser` datatype holds the three records (`"cart"`, `"fashlyCart"`, `"fashlyWishlist"`) and a counter of dispatched `"cartUpdated"` events. Whether code runs in a browser is an input (`Env`). Whether `setItem` succeeds is an input (`writable`) only for `cartUtils` and the hook, which catch a failed write. An operation that may throw returns `Result` (`Ok` or `Throws`).

## Model

| member | source | states |
|---|---|---|
| Lines.FindIndex | lib/cart-utils.ts:37-39 | the index of the first line carrying the key, and -1 exactly when no line carries it |
| Lines.RemoveKey | lib/cart-utils.ts:52 | no line with the key is left; a line survives iff it was there with another key; survivors keep their order; with no match the cart is unchanged |
| Lines.SetQuantity | lib/cart-utils.ts:63-65 | same length, same items and keys; every line with the key now has exactly the given quantity and every other line keeps its own |
| Lines.Merge | lib/cart-utils.ts:37-45 | afterwards the key is present; an existing key's first line gains the delta, no other line changes and the length is kept; a new key is appended at the end |
| Lines.TotalsAppend | lib/cart-utils.ts:69-77 | item count and price sum are additive over concatenation |
| Lines.TotalsReplace | lib/cart-utils.ts:69-77 | replacing one line changes each sum by exactly that line's difference |
| Lines.TotalsAfterMerge | lib/cart-utils.ts:41-45 | a merge adds exactly the delta to the item count, and the delta times the receiving line's captured price to the price sum |
| Lines.TotalsAfterRemove | lib/cart-utils.ts:52 | with unique keys, removing a key drops exactly the quantity of the line that held it |
| Lines.MergeKeepsInvariant | lib/cart-utils.ts:35-48 | merging keeps keys unique, and with a positive delta keeps every quantity at least 1 |
| Lines.RemoveKeepsInvariant | lib/cart-utils.ts:50-54 | removal keeps keys unique and quantities positive |
| Lines.SetQuantityKeepsInvariant | lib/cart-utils.ts:56-67 | setting a quantity keeps keys unique; a positive quantity keeps quantities positive |
| Lines.CountItems | lib/cart-utils.ts:69-72 | the left-to-right `reduce` loop ends with the recursive sum of the quantities |
| Lines.CountPrice | hooks/use-cart.ts:118-120 | the left-to-right `reduce` loop ends with the recursive sum of price times quantity |
| Lines.PriceNonNegative | lib/cart-utils.ts:74-77 | when no line's price times quantity is negative, the price sum is not negative |
| Lines.PositiveCount | lib/cart-utils.ts:69-72 | when every quantity is at least 1, the item count is at least the number of lines |
| CartUtils.GetCart | lib/cart-utils.ts:14-22 | outside a browser, or for a missing or unparseable record, the empty cart; in a browser a stored array is returned as it is; a record that parses to a non-array gives `Throws(NotAnArray)`, which stands for the TypeError of the caller's first array method |
| CartUtils.AddToCart | lib/cart-utils.ts:35-48 | it throws exactly when the read does and touches no other record; a written add leaves the key present and the stored count one higher |
| CartUtils.RemoveFromCart | lib/cart-utils.ts:50-54 | it throws exactly when the read does; a written removal leaves no line with the key and keeps exactly the lines with another key |
| CartUtils.UpdateQuantity | lib/cart-utils.ts:56-67 | it throws exactly when the read does; zero or less leaves no line with the key; otherwise the length is kept and matching lines take the quantity |
| CartUtils.GetTotalItems | lib/cart-utils.ts:69-72 | 0 outside a browser or for a missing or corrupt record, the stored quantities' sum for an array, and a throw exactly for a non-array |
| CartUtils.GetTotalPrice | lib/cart-utils.ts:74-77 | 0 outside a browser or for a missing or corrupt record, the stored price sum for an array, and a throw exactly for a non-array |
| CartUtils.SaveCart | lib/cart-utils.ts:24-33 | the event is dispatched exactly when the code runs in a browser and the write succeeds, and then the record holds the items; otherwise nothing changes; other records are never touched |
| CartUtils.Rewrite | lib/cart-utils.ts:51-53 | the read-modify-save pattern throws exactly when the read does, and never touches the other records |
| CartUtils.ClearCart | lib/cart-utils.ts:79-81 | after a successful write the record is `[]` and the item count reads 0; after a failed write nothing changes |
| CartUtils.SaveThenRead | lib/cart-utils.ts:24-33 | after a save, either one event was dispatched and a read gives the new items, or no event and the browser is unchanged |
| CartUtils.AddMergesOrAppends | lib/cart-utils.ts:35-48 | an existing key gains exactly 1, the length and every other line are kept; a new key gets a line of 1 at the end; the count grows by 1 |
| CartUtils.RemoveKeepsOthersInOrder | lib/cart-utils.ts:50-54 | the stored cart afterwards lacks the key, is a subsequence of the old one, and holds exactly the old lines with other keys |
| CartUtils.UpdateSetsOrRemoves | lib/cart-utils.ts:56-67 | a quantity of zero or less is removal; otherwise matching lines get that quantity absolutely, others are kept, and no match rewrites the cart unchanged |
| CartUtils.OperationsKeepWellFormed | lib/cart-utils.ts:35-81 | a stored cart with unique keys and positive quantities keeps both after add, remove, update or clear, whether or not the write succeeds |
| CartUtils.TotalsFollowOperations | lib/cart-utils.ts:69-81 | the stored item count grows by one after an add; the stored price sum is 0 after a clear |
| UseCart.Mount | hooks/use-cart.ts:20-42 | after mount the hook is on the client and not loading; only a stored array is adopted, anything else leaves the empty cart |
| UseCart.Save | hooks/use-cart.ts:44-53 | memory and the record both take the new items when the write succeeds; when it throws neither changes; no event is dispatched |
| UseCart.AddToCart | hooks/use-cart.ts:55-86 | no event; memory changes only on the client for an acceptable item and a successful write, and then the key is present and storage holds memory |
| UseCart.RemoveFromCart | hooks/use-cart.ts:88-93 | no event; before mount or on a failed write nothing changes; otherwise no line has the key and exactly the other-key lines stay |
| UseCart.UpdateQuantity | hooks/use-cart.ts:95-107 | no event; before mount or on a failed write nothing changes; zero or less removes the key; otherwise the length is kept and matching lines take the quantity |
| UseCart.ClearCart | hooks/use-cart.ts:109-112 | no event; before mount or on a failed write nothing changes; otherwise memory and storage are both `[]` |
| UseCart.GetTotalItems | hooks/use-cart.ts:114-116 | with unique keys and positive quantities the count is at least the number of lines; the empty cart counts 0 |
| UseCart.GetTotalPrice | hooks/use-cart.ts:118-120 | when no line costs less than nothing the total is not negative; the empty cart costs 0 |
| UseCart.MountAgrees | hooks/use-cart.ts:22-39 | right after mount, memory is what the record holds |
| UseCart.AddValidatesThenMerges | hooks/use-cart.ts:55-86 | before mount, for an item with a falsy id, name, price, color or size, or when the write fails, nothing changes; otherwise the count grows by one: the first line with an existing key gains exactly 1 with the length and every other line kept, or a line of 1 is appended |
| UseCart.MutatorsWaitForClient | hooks/use-cart.ts:55-112 | before mount, add, remove, update and clear leave memory and storage unchanged |
| UseCart.UpdateSetsOrRemoves | hooks/use-cart.ts:95-107 | zero or less is removal; otherwise only matching lines take the new quantity |
| UseCart.RemoveFiltersKey | hooks/use-cart.ts:88-93 | removal keeps exactly the lines with another key, in order |
| UseCart.MutatorsKeepInvariants | hooks/use-cart.ts:44-112 | every mutator keeps memory equal to what a fresh mount would read, and keeps keys unique and quantities positive |
| CartContext.Commit | contexts/CartContext.tsx:47-50 | after the persist effect `itemCount` is the number of items in the cart |
| CartContext.Persist | contexts/CartContext.tsx:47-50 | the effect writes the cart to `"fashlyCart"` and touches no other record and dispatches nothing |
| CartContext.Load | contexts/CartContext.tsx:38-45 | a missing record gives the empty cart; bad JSON and a non-array value throw; a loaded cart has a consistent count |
| CartContext.ItemFor | contexts/CartContext.tsx:62-71 | the new line's key is `(product.id, selectedColor, selectedSize)` and its price is the product's |
| CartContext.AddToCart | contexts/CartContext.tsx:52-74 | afterwards a line carries `(id, selectedSize, selectedColor)` and `itemCount` has grown by exactly the given quantity |
| CartContext.RemoveFromCart | contexts/CartContext.tsx:76-80 | no line with the key is left, a line survives iff it was there with another key, and the count agrees with the cart |
| CartContext.UpdateQuantity | contexts/CartContext.tsx:82-91 | same lines and keys; matching lines take the given quantity whatever its sign, others keep theirs; the count agrees with the cart |
| CartContext.ClearCart | contexts/CartContext.tsx:93-96 | the cart is empty with count 0, the `"fashlyCart"` record is removed, and nothing else changes |
| CartContext.GetCartTotal | contexts/CartContext.tsx:98-100 | when no line costs less than nothing the total is not negative; the empty cart costs 0 |
| CartContext.AddMergesByQuantity | contexts/CartContext.tsx:52-74 | an existing `(id, size, color)` gains the given quantity at its index and nothing else changes; a new one appends the snapshot line; the count grows by the quantity |
| CartContext.RemoveKeepsOrder | contexts/CartContext.tsx:76-80 | removal leaves no matching line, keeps the others in order, and keeps exactly the lines with another key |
| CartContext.UpdateStoresNonPositive | contexts/CartContext.tsx:82-91 | a quantity of zero or less is stored: the line stays, the length is kept, and the cart no longer has all quantities positive |
| CartContext.OperationsKeepUniqueKeys | contexts/CartContext.tsx:52-91 | add, remove and update keep "no two lines share a key" |
| CartContext.PersistLoadRoundTrip | contexts/CartContext.tsx:38-50 | loading what the persist effect wrote gives back the same consistent state |
| CartContext.ClearThenPersist | contexts/CartContext.tsx:93-96 | the removed record is written back as `[]` by the persist effect; a load sees the empty cart either way |
| SrcCartContext.Commit | src/contexts/CartContext.jsx:22-25 | after the persist effect `itemCount` is the number of items in the cart |
| SrcCartContext.Load | src/contexts/CartContext.jsx:13-20 | a missing record gives the empty cart; bad JSON and a non-array value throw; a loaded cart has a consistent count |
| SrcCartContext.AddLine | src/contexts/CartContext.jsx:28-48 | afterwards some line carries `(id, size, color)`; its full effect is stated by `SrcCartContext.AddLineAgrees` |
| SrcCartContext.AddToCart | src/contexts/CartContext.jsx:27-49 | the count agrees with the cart and some line carries the selection |
| SrcCartContext.RemoveFromCart | src/contexts/CartContext.jsx:51-55 | the count agrees; a line survives iff it was there and does not match |
| SrcCartContext.UpdateQuantity | src/contexts/CartContext.jsx:57-66 | the count agrees; the length is kept; every matching line has exactly the new quantity, with no lower bound |
| SrcCartContext.ClearCart | src/contexts/CartContext.jsx:68-71 | the cart is empty, the count 0 and the record removed |
| SrcCartContext.Persist | src/contexts/CartContext.jsx:22-25 | the record holds the cart as it is, and loading it gives back a consistent state unchanged |
| SrcCartContext.GetCartTotal | src/contexts/CartContext.jsx:73-75 | the total is the Next provider's price sum over the renamed lines; the empty cart costs 0 |
| SrcCartContext.SumsAgree | src/contexts/CartContext.jsx:73-75 | the item count and total equal the Next provider's sums over the renamed lines |
| SrcCartContext.CommitAgrees | src/contexts/CartContext.jsx:22-25 | the persist effect commutes with the renaming |
| SrcCartContext.AddLineAgrees | src/contexts/CartContext.jsx:28-48 | the add updater is the Next provider's merge under the renaming, in both the match and the append case |
| SrcCartContext.AddAgrees | src/contexts/CartContext.jsx:27-49 | `addToCart` is the Next provider's `addToCart` under the renaming |
| SrcCartContext.RemoveAgrees | src/contexts/CartContext.jsx:51-55 | `removeFromCart` is the Next provider's under the renaming |
| SrcCartContext.UpdateAgrees | src/contexts/CartContext.jsx:57-66 | `updateQuantity` is the Next provider's under the renaming |
| SrcCartContext.ClearAndTotalAgree | src/contexts/CartContext.jsx:68-75 | clearing and `getCartTotal` agree with the Next provider's |
| WishlistContext.IsInWishlist | contexts/WishlistContext.tsx:53-55 | true exactly when some entry has the id |
| WishlistContext.AddToWishlist | contexts/WishlistContext.tsx:40-47 | afterwards the id is present; a present id leaves the list as it was; an absent one appends the product |
| WishlistContext.RemoveFromWishlist | contexts/WishlistContext.tsx:49-51 | afterwards the id is absent; an entry survives iff it was there with another id |
| WishlistContext.ClearWishlist | contexts/WishlistContext.tsx:57-60 | the list is empty, the record removed, the other records untouched |
| WishlistContext.Persist | contexts/WishlistContext.tsx:36-38 | the effect writes the list as it is and touches no other record |
| WishlistContext.Load | contexts/WishlistContext.tsx:29-34 | it succeeds exactly for a missing record (empty list) or an array; bad JSON throws; a non-array gives `Throws(NotAnArray)`, which stands for the TypeError of the first `some`, `find` or `filter` on it |
| WishlistContext.AddIdempotent | contexts/WishlistContext.tsx:40-47 | adding twice is adding once |
| WishlistContext.RemoveUndoesAdd | contexts/WishlistContext.tsx:40-51 | removing a product just added to a list without its id restores the list |
| WishlistContext.RemoveKeepsOrder | contexts/WishlistContext.tsx:49-51 | removal keeps the others in order, and an absent id changes nothing |
| WishlistContext.OperationsKeepUniqueIds | contexts/WishlistContext.tsx:40-51 | add and remove keep ids unique |
| WishlistContext.PersistLoadRoundTrip | contexts/WishlistContext.tsx:29-38 | loading what was persisted gives the same list |
| WishlistContext.ClearThenPersist | contexts/WishlistContext.tsx:57-60 | the removed record is written back as `[]`; a load sees the empty list either way |
| Text.Lower | src/pages/CatalogPage.jsx:62 | same length; each character lower-cased when it is an ASCII capital, kept otherwise |
| Text.Contains | src/pages/CatalogPage.jsx:65 | `includes` holds iff the needle occurs at some index of the text |
| ProductOrder.ParseSort | src/pages/CatalogPage.jsx:77-92 | `"price-low"`, `"price-high"` and `"rating"` select their order; every other value selects the default |
| ProductOrder.Insert | src/pages/CatalogPage.jsx:77-92 | inserting into a sorted list keeps it sorted and adds one element |
| ProductOrder.InsertPermutes | src/pages/CatalogPage.jsx:77-92 | insertion adds exactly the inserted product |
| ProductOrder.Sort | src/pages/CatalogPage.jsx:77-92 | the result is sorted by the mode's key and is a permutation of the input |
| ProductOrder.InsertKeyClass | src/pages/CatalogPage.jsx:77-92 | insertion puts the product at the front of its key class and leaves the other classes as they were |
| ProductOrder.SortStable | src/pages/CatalogPage.jsx:77-92 | within each key class the sort keeps the incoming order, as `Array.prototype.sort` does |
| ProductOrder.SortOrders | src/pages/CatalogPage.jsx:77-92 | price-low is non-decreasing price; price-high non-increasing price; rating non-increasing rating; the default non-increasing id |
| ProductOrder.NewestStrictlyDecreasing | src/pages/CatalogPage.jsx:87-91 | with unique ids the default order is strictly decreasing id |
| CatalogQuery.InitialFilters | src/pages/CatalogPage.jsx:22-29 | category and subcategory come from the URL (absent is `""`), the price range is `[0, 1000000]`, nothing else is selected, and the sort is the default |
| CatalogQuery.Stage | src/pages/CatalogPage.jsx:36-74 | a conditional filter keeps each product as often as before when inactive or kept, and drops it otherwise; the result is a subsequence |
| CatalogQuery.ByFilters | src/pages/CatalogPage.jsx:36-58 | the state's filters keep a subsequence of the catalog, every product of which is inside the price range |
| CatalogQuery.ByQuery | src/pages/CatalogPage.jsx:61-74 | the URL's filters keep a subsequence; with no search and no `new` or `bestseller` filter the list is unchanged |
| CatalogQuery.Narrow | src/pages/CatalogPage.jsx:33-74 | every product left is from the catalog and inside the price range |
| CatalogQuery.Visible | src/pages/CatalogPage.jsx:32-95 | the shown list is sorted by the chosen order and is a permutation of the filtered catalog |
| CatalogQuery.NarrowKeepsOrder | src/pages/CatalogPage.jsx:33-74 | the filtered list is a subsequence of the catalog |
| CatalogQuery.ByFiltersCount | src/pages/CatalogPage.jsx:36-58 | each product is kept with its catalog multiplicity iff it passes category, subcategory, inclusive price, any-shared-color and any-shared-size, each applied only when set |
| CatalogQuery.ByQueryCount | src/pages/CatalogPage.jsx:61-74 | each product is kept iff it passes the case-insensitive name or description search and the `new` or `bestseller` flag |
| CatalogQuery.NarrowCount | src/pages/CatalogPage.jsx:33-74 | the whole chain keeps a product with its catalog multiplicity iff it is selected, and drops it otherwise |
| CatalogQuery.VisibleSelects | src/pages/CatalogPage.jsx:32-95 | a product is shown iff the catalog holds it and every active filter selects it |
| CatalogQuery.HandleFilterChange | src/pages/CatalogPage.jsx:98-100 | every key the partial object lacks keeps its value; the empty object changes nothing |
| CatalogQuery.FilterChangeOverwrites | src/pages/CatalogPage.jsx:98-100 | every supplied key takes the supplied value; the same change twice is the change once; two changes are their right-biased combination |
| CatalogQuery.ClearFiltersWidens | src/pages/CatalogPage.jsx:175-183 | after "Clear Filters" the sort is kept and a product is selected iff its price is in `[0, 1000000]` and it passes the URL's search and special filter |
| FilterSidebar.CategoryChange | src/components/catalog/FilterSidebar.jsx:22-27 | a category choice sends the category and an empty subcategory, and no other key |
| FilterSidebar.SubcategoryChange | src/components/catalog/FilterSidebar.jsx:29-31 | sends only the subcategory |
| FilterSidebar.PriceChange | src/components/catalog/FilterSidebar.jsx:33-35 | sends only the price range |
| FilterSidebar.ColorToggle | src/components/catalog/FilterSidebar.jsx:37-43 | sends only colors; the toggled color's membership flips and every other color's is kept |
| FilterSidebar.SizeToggle | src/components/catalog/FilterSidebar.jsx:45-49 | sends only sizes; the toggled size's membership flips and every other size's is kept |
| FilterSidebar.ClearAll | src/components/catalog/FilterSidebar.jsx:219-227 | resets category, subcategory, price range, colors and sizes, and omits sort |
| FilterSidebar.CategoryResetsSubcategory | src/components/catalog/FilterSidebar.jsx:22-27 | through the page, a category click sets it, clears the subcategory and changes nothing else |
| FilterSidebar.TogglesRestoreAndStayUnique | src/components/catalog/FilterSidebar.jsx:37-49 | toggling an absent color or size twice restores the filters; toggles never add a duplicate |
| FilterSidebar.PresetsOverlapAtBoundaries | src/components/catalog/FilterSidebar.jsx:135-147 | prices of exactly 300000 and 500000 pass two adjacent presets, and the presets together cover exactly `[0, 1000000]` |
| FilterSidebar.ClearAllKeepsSort | src/components/catalog/FilterSidebar.jsx:219-227 | the sidebar's clear-all is the page's "Clear Filters"; it yields the initial filters with the old sort |
| FilterPanel.Init | components/catalog/FilterSidebar.tsx:34-40 | no selection, and the price range spans the bounds given as props |
| FilterPanel.ApplyFilters | components/catalog/FilterSidebar.tsx:67-75 | the emitted object is exactly the four current selections |
| FilterPanel.Handle | components/catalog/FilterSidebar.tsx:49-75 | only Apply reports, and it reports the current selections; each toggle flips one value's membership and keeps the rest; a bound edit changes that bound only |
| FilterPanel.Run | components/catalog/FilterSidebar.tsx:49-75 | a run without Apply reports nothing; a run that ends with Apply last reported exactly the final panel's selections |
| FilterPanel.ReportsOnlyOnApply | components/catalog/FilterSidebar.tsx:67-75 | the parent hears from the panel exactly as many times as Apply was pressed |
| FilterPanel.BoundsUnchecked | components/catalog/FilterSidebar.tsx:63-65 | a minimum typed above the maximum is reported as it is, giving an empty range |
| FilterPanel.ToggleTwiceRestores | components/catalog/FilterSidebar.tsx:49-53 | toggling an absent category twice restores the panel; toggles add no duplicate |
| Selections.Related | components/product/RelatedProducts.tsx:21 | at most four products, none with the current id, all of its category and from the catalog, the first ones of the qualifying list, and all of them when there are four or fewer |
| Selections.Featured | components/home/FeaturedProducts.tsx:7 | at most four best sellers from the catalog, a prefix of the best-seller list, and all of them when there are four or fewer |
| Selections.SelectionsInCatalogOrder | components/product/RelatedProducts.tsx:21 | both selections keep catalog order and have length min(4, number qualifying) |
| CartButton.GetCartFromStorage | components/cart-button.tsx:19-27 | outside a browser, or for a missing or corrupt record, the empty cart; in a browser a stored array is returned as it is; a non-array record gives `Throws(NotAnArray)`, which stands for the TypeError of the `reduce` at line 30 |
| CartButton.Refresh | components/cart-button.tsx:37-45 | after a read the button is mounted and counts the stored quantities |
| CartButton.Observe | components/cart-button.tsx:42-47 | with no event since the last read the badge state is unchanged |
| CartButton.Render | components/cart-button.tsx:66-73 | a badge shows iff mounted with a positive total; it reads "99+" iff the total exceeds 99, and the number otherwise |
| CartButton.ReadsLikeCartUtils | components/cart-button.tsx:19-31 | the button's reader and count agree with `cartUtils.getCart` and `getTotalItems` on every input |
| CartButton.FollowsCartUtils | components/cart-button.tsx:42-45 | after a written `cartUtils` add, the badge shows the new stored total; after a clear, no badge |
| CartButton.OtherStoresGoUnseen | components/cart-button.tsx:47 | the hook's writes, the contexts' records and the wishlist dispatch no event, so the badge does not move |
| CartPage.Load | app/cart/page.tsx:34-44 | loading succeeds exactly when `getCart` does and shows its lines; a non-array record gives `Throws(NotAnArray)`, which stands for the page's crash in `getTotalPrice` at line 79 |
| CartPage.OnCartUpdated | app/cart/page.tsx:49-57 | the listener succeeds exactly when `getCart` does and changes neither `mounted` nor `isLoading` |
| CartPage.ListenerIsReload | app/cart/page.tsx:34-57 | on a loaded page the `"cartUpdated"` listener gives the same page as a fresh `loadCart` |
| CartPage.ListenerFollowsCartUtils | app/cart/page.tsx:49-63 | after a written `cartUtils` add the listener shows exactly the stored lines, which carry the added key |
| CartPage.Shipping | app/cart/page.tsx:80 | the fee is 0 iff the subtotal is above 500000, and 25000 otherwise |
| CartPage.Summarize | app/cart/page.tsx:79-81 | total is subtotal plus fee, so never below the subtotal; the free-shipping banner iff the fee is waived; the hint iff below 500000, and it names the positive amount still missing |
| CartPage.RenderSummary | app/cart/page.tsx:79 | the summary's subtotal is the stored price sum, and it renders iff that can be computed |
| CartPage.HandleQuantityChange | app/cart/page.tsx:84-93 | a quantity below 1 changes nothing |
| CartPage.HandleRemoveItem | app/cart/page.tsx:95-103 | a throwing removal changes nothing on screen or in storage |
| CartPage.ThresholdBoundary | app/cart/page.tsx:239-248 | waiver and hint exclude each other and are complementary except at exactly 500000, where neither shows |
| CartPage.QuantityChangeForwards | app/cart/page.tsx:84-93 | a valid change reaches `updateQuantity` in its `(id, color, size)` order: the addressed lines show the new quantity and the screen shows what was stored |
| CartPage.RemoveForwards | app/cart/page.tsx:95-103 | after a removal neither the screen nor storage has a line with the key, and they agree |
| CartPage.SummaryMatchesLines | app/cart/page.tsx:167 | the summary's subtotal is the sum of the per-line totals shown |
| SrcCartPage.Blank | src/pages/CartPage.jsx:33 | a code is blank iff every character is whitespace |
| SrcCartPage.EditCode | src/pages/CartPage.jsx:190 | the code can be edited only while no coupon is applied |
| SrcCartPage.ApplyCoupon | src/pages/CartPage.jsx:32-36 | applied afterwards iff already applied or the code is not blank; any such code is accepted |
| SrcCartPage.Discount | src/pages/CartPage.jsx:39 | a tenth of the subtotal when applied, nothing otherwise |
| SrcCartPage.Total | src/pages/CartPage.jsx:38-40 | the total is subtotal minus discount, between 0 and the subtotal for a non-negative subtotal |
| SrcCartPage.HandleQuantityChange | src/pages/CartPage.jsx:23-26 | a quantity below 1 leaves the cart as it was; otherwise the length is kept and the button's `(id, size, color)` lines take the quantity |
| SrcCartPage.HandleRemoveItem | src/pages/CartPage.jsx:28-30 | the button's line is gone, every line with another `(id, size, color)` stays, and the count agrees |
| SrcCartPage.CouponSticky | src/pages/CartPage.jsx:190-197 | once applied, no edit or click takes the coupon back, and 100 costs 90 |
| SrcCartPage.ButtonsHitTheirLine | src/pages/CartPage.jsx:23-30 | `(id, size, color)` reaches the provider in its own order: the button's line gets the new quantity, and removal takes that line away |
| Checkout.InitialForm | app/checkout/page.tsx:23-32 | exactly the eight named fields, all empty, and no payment method |
| Checkout.HandleInputChange | app/checkout/page.tsx:55-60 | only the named field changes; the others and the payment choice are kept |
| Checkout.SelectPayment | app/checkout/page.tsx:188-189 | the choice changes and the fields are kept |
| Checkout.HandleSubmit | app/checkout/page.tsx:62-72 | without a payment method there is an alert and nothing changes; with one the cart is cleared and its record removed |
| Checkout.Render | app/checkout/page.tsx:74-81 | an empty cart redirects; otherwise the summary charges the flat 25000 on top of the cart total, whatever the subtotal |
| Checkout.ShippingDisagreesWithCartPage | app/checkout/page.tsx:74-76 | above 500000 checkout asks 25000 more than the cart page showed; at or below it the totals agree |
| Checkout.SubmitThenRender | app/checkout/page.tsx:62-81 | a placed order leaves an empty cart so the page redirects; a refused submit renders the same summary |
| WishlistPage.MoveToCart | app/wishlist/page.tsx:21-25 | the product leaves the wishlist, the others stay, its first color and size are in the cart, and the count grows by one |
| WishlistPage.MoveKeepsOthersInOrder | app/wishlist/page.tsx:24 | the remaining entries keep their order; a product not in the list changes nothing |
| WishlistPage.ClearAll | app/wishlist/page.tsx:49 | the list is empty and a later load sees the empty list |
| ProductDetail.Init | components/product/ProductDetail.tsx:21-23 | the first color, the first size and one piece: a selection the product offers |
| ProductDetail.Step | components/product/ProductDetail.tsx:216-228 | plus adds one; minus subtracts one but never goes below 1 |
| ProductDetail.Press | components/product/ProductDetail.tsx:169-228 | a color or size click sets only that field; the stepper changes only the quantity |
| ProductDetail.RunKeepsValid | components/product/ProductDetail.tsx:169-228 | any run of offered clicks keeps a color and size the product offers and at least one piece, and adds at most one piece per click |
| ProductDetail.HandleAddToCart | components/product/ProductDetail.tsx:66-70 | the selection's `(id, color, size)` is in the cart and the count grows by the chosen quantity |
| ProductDetail.HandleWishlistClick | components/product/ProductDetail.tsx:72-78 | membership of the product flips and every other product's is kept |
| ProductDetail.WishlistClickTwice | components/product/ProductDetail.tsx:72-78 | two clicks on a product not in the wishlist leave the list as it was |
| ProductDetailPage.Lookup | src/pages/ProductDetailPage.jsx:23 | no product iff the id does not parse or matches no entry; otherwise the first entry with that id |
| ProductDetailPage.DefaultSelection | src/pages/ProductDetailPage.jsx:27-29 | a found product starts from its first color and size; a missing one from empty strings; one piece either way |
| ProductDetailPage.HandleAddToCart | src/pages/ProductDetailPage.jsx:48-51 | the count stays consistent, a line carries the selection, and the count grows by the chosen quantity |
| ProductDetailPage.StepperKeepsSelection | src/pages/ProductDetailPage.jsx:225-237 | from the default selection, any offered clicks keep a valid selection with at least one piece |
| ProductDetailPage.RelatedTo | src/pages/ProductDetailPage.jsx:318-320 | other products of the same category, at most four, in catalog order |
| ProductDetailPage.FoundIsFirstWithId | src/pages/ProductDetailPage.jsx:23 | an id carried by some entry finds the first such entry |

## Differences between the two applications and their stores

- There are four cart stores. They differ as follows:
  - the merge delta is 1 in `cartUtils` and the hook, and the given quantity in the contexts;
  - `updateQuantity` with zero or less removes the line in `cartUtils` and the hook, but the contexts store the value (`CartContext.UpdateStoresNonPositive`);
  - the key-argument order is `(id, color, size)` in `cartUtils` and the hook, and `(id, size, color)` in the contexts.
- Corrupt storage is recovered as an empty cart only by `cartUtils`, the hook and the badge. Both cart contexts and the wishlist context throw on it.
- A failed write in the hook leaves memory unchanged rather than keeping the in-memory state authoritative.
- The catalog search looks at name and description only, not at the category.
- The default `newest` order sorts by decreasing id, not by the `isNew` flag. There is no `name` sort: `"name"` falls to the default.
- Checkout charges a flat 25000 shipping while the cart page waives it above 500000 (`Checkout.ShippingDisagreesWithCartPage`).

## Left out

- Rendering, styling, routing and navigation. `router.push` appears only as the `RedirectToCart` view and the `Placed` outcome.
- JSON text and `localStorage` are abstracted to the four `Stored` values:
  - `null`, numbers and objects all count as `NonArray`;
  - a stored array is trusted to hold well-shaped lines;
  - a `getItem` that throws is treated like a corrupt record.
- `window` events are reduced to a count of dispatched `"cartUpdated"` events. Listener registration and removal are not modelled.
- React scheduling is not modelled; each operation is one atomic transition followed by its effect. Left out with it:
  - batched updates and stale closures;
  - the development-mode double call of updaters, which would apply the in-place `quantity +=` of the contexts twice.
- Floating point is not modelled:
  - prices and quantities are integers;
  - `rating`, the coupon discount and the typed price bounds are reals;
  - `NaN` from `Number(...)` and `parseInt` appears only as the `None` route id.
- `toLowerCase` and `trim` are modelled on ASCII only.
- Price formatting (`Intl.NumberFormat`), the expandable sections, `selectedImage`, and the `addedToCart` flag with its `setTimeout`.
- The fetch-based catalog page, the success page (random order number and dates), the product cards, navbars and the other presentational components.
- ProductDetail.Init: requires a non-empty color and size list; the source reads `colors[0]` and `sizes[0]` unguarded and would select `undefined`.
- ProductDetailPage.DefaultSelection: requires a found product to have colors and sizes, for the same reason.
- WishlistPage.MoveToCart: requires non-empty size and color lists, for the same reason.
- CartPage.HandleQuantityChange: its own contract states only the ignored case; `CartPage.QuantityChangeForwards` states the forwarded one.
- CartPage.HandleRemoveItem: its own contract states only the throwing case; `CartPage.RemoveForwards` states the rest.
- UseCart.Mount: the `isLoading` flag and the `finally` are modelled, but the moment the effect runs is not.
- CartUtils.GetCart: `Throws(NotAnArray)` stands for the TypeError raised by the first array method a caller applies to the returned non-array; `getCart` itself never throws.
- CartButton.GetCartFromStorage: `Throws(NotAnArray)` stands for the TypeError of the `reduce` in `getTotalItems`; the reader itself returns the parsed value.
- WishlistContext.Load: the provider adopts a non-array without a check and writes it back; `Throws(NotAnArray)` stands for the TypeError of the first `some`, `find` or `filter` applied to it.
- CartPage.Load: `getCart() || []` turns a stored `null`, `0` or `false` into `[]`, so that load succeeds and the page crashes only at `getTotalPrice` (line 79); the model throws at load for every non-array record.
- CartContext.AddToCart: the default argument `quantity = 1` is not modelled; the quantity is always passed, as every caller in the application does. The same holds for SrcCartContext.AddToCart.
- CartContext.Persist: a throwing `localStorage.setItem` in the persist effect (no `try`) is not modelled; the write always succeeds.
- WishlistContext.Persist: a throwing `localStorage.setItem` in the persist effect (no `try`) is not modelled; the write always succeeds.
- SrcCartContext.Persist: a throwing `localStorage.setItem` in the persist effect (no `try`) is not modelled; the write always succeeds.
- Checkout.HandleSubmit: the browser's `required` and `type="email"` validation, which blocks the submit event while a required field is empty or malformed, is not modelled; the model reaches `handleSubmit` with any form, and only the payment check guards the order.
