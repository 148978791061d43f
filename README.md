# espace-voitures: catalog, filters and cart stock, in Dafny

espace-voitures is an Angular shop front for cars and accessories. The model covers two components.

The admin component, `GestionProduitsComponent`, has:
- a product table that can be searched, 7 rows per page;
- an image-path field in the product form;
- product deletion;
- a cart.

The storefront, `AppComponent`, has:
- a product list filtered by a search box and a category selector;
- the same kind of cart.

In both components the cart moves stock around. Adding a product takes one unit from that product's stock. Removing a cart line gives back all the units it held. Clearing the cart gives back every line's units.

The model is one Dafny module per concern:

- `Text`: `trim`, ASCII `toLowerCase`, `includes` and `split` over `string`.
- `Sequences`: `findIndex`, `filter` and `slice`. `slice` keeps JavaScript's rules for negative and out-of-range indices.
- `Paging`: the page slice and `Math.ceil` of the page count.
- `Catalog`: the product record, `find` by id, and the in-place stock updates:
  - `AdjustAt` models `original.stock += delta` at a known index;
  - `Restocked` models `find` followed by `stock += q` when the product is found.
- `Cart`: cart lines, which are a snapshot of the product plus a quantity. It also defines the sums over the cart:
  - units per product id;
  - the badge count;
  - the total price.
- `Reconciliation`: `Add`, `Remove` and `Clear` as functions on a `Session`, which is a catalog plus a cart. Proved about them:
  - a few frame lemmas;
  - preservation of the cart shape;
  - the conservation law, over any sequence of cart calls: stock plus reserved units stays constant for every product id.
- `ImagePaths`: the path rule of `onImageUrlChanged`, its file name, and the first-image rule of `onEdit`.
- `GestionProduits` and `App`: the two components as classes.
  - Their fields are the components' fields.
  - Each cart method is proved to leave the class in the state of the matching `Reconciliation` function applied to the old state.
  - Each view method re-derives the display. The page, or the filtered list, is proved equal to a specification function. Lemmas about that function give its meaning.
- `Scenario`: a concrete session on a two-product catalog.

Prices are integers, for example cents. The model cannot see the HTTP layer. It therefore receives a loaded catalog as a method argument (`LoadProduits`), and a confirmed deletion is a plain method call (`DeleteProduit`).

Some behaviours of the code worth knowing, all modelled as written:
- Adding an unknown id is a silent no-op: nothing changes and no error is raised.
- A product counts as out of stock when `stock <= 0`, not only when `stock == 0`.
- `removeFromCart` and `clearCart` skip products that are no longer in the catalog, without an error. Those lines' units are not returned to any stock.
- The admin filter lower-cases the search term but does not trim it. It searches the category as a substring.
- The storefront's category is matched exactly.
- There is no diacritic folding.

## Model

| member | source | states |
|---|---|---|
| Text.TrimSpec | src/app/app.component.ts:74 | `trim` returns the infix left after removing white space at both ends; what it removes is white space, and the result neither starts nor ends with it |
| Text.TrimStartSpec | src/app/app.component.ts:74 | stripping leading white space leaves a suffix that does not start with white space, and everything dropped is white space |
| Text.TrimEndSpec | src/app/app.component.ts:74 | stripping trailing white space leaves a prefix that does not end with white space, and everything dropped is white space |
| Text.TrimEmptyIff | src/app/gestion-produits/gestion-produits.component.ts:94 | a term trims to the empty string exactly when it is all white space |
| Text.TrimOfTrimmed | src/app/gestion-produits/gestion-produits.component.ts:253 | a string with no white space at either end is its own trim |
| Text.TrimIdempotent | src/app/gestion-produits/gestion-produits.component.ts:253 | trimming twice is trimming once |
| Text.Lower | src/app/app.component.ts:80-81 | `toLowerCase` keeps the length and leaves no upper-case letter: each upper-case letter becomes the lower-case letter at the same place in the alphabet, and every other character is kept |
| Text.ContainsIff | src/app/app.component.ts:80-81 | `includes` holds exactly when the term occurs at some position of the text |
| Text.Split | src/app/gestion-produits/gestion-produits.component.ts:258 | `split` returns at least one piece, and no piece contains the separator |
| Text.JoinSplit | src/app/gestion-produits/gestion-produits.component.ts:258 | joining the pieces of `split` with the separator gives back the string |
| Text.SplitJoin | src/app/gestion-produits/gestion-produits.component.ts:258 | splitting a join of separator-free pieces gives back the pieces |
| Text.SplitPrefix | src/app/gestion-produits/gestion-produits.component.ts:258 | a separator-free prefix is glued to the first piece of the split of the rest |
| Text.SplitLast | src/app/gestion-produits/gestion-produits.component.ts:258 | the last piece of `split` is the suffix after the last separator, or all of the string when there is none |
| Sequences.FirstIndex | src/app/app.component.ts:144 | `findIndex` returns the first position holding the element, and none exactly when the element is absent |
| Sequences.Filter | src/app/app.component.ts:77-87 | `filter` keeps exactly the elements satisfying the predicate, in their original order, and only elements satisfying it |
| Sequences.FilterMultiset | src/app/app.component.ts:77-87 | `filter` keeps each satisfying element as many times as it occurs, and no other element |
| Sequences.FilterLength | src/app/gestion-produits/gestion-produits.component.ts:103 | the length of the filtered list is the number of elements satisfying the predicate |
| Sequences.FilterAll | src/app/app.component.ts:77-87 | a predicate that holds for every element keeps the sequence whole |
| Sequences.SubsequenceRefl | src/app/gestion-produits/gestion-produits.component.ts:92 | the unfiltered copy is a subsequence of the catalog |
| Sequences.RelativeIndex | src/app/gestion-produits/gestion-produits.component.ts:105 | a non-negative `slice` bound is clamped to the length; a negative bound `i` counts back from the end, giving `n + i`, and one below `-n` gives 0 |
| Sequences.JsSliceSpec | src/app/gestion-produits/gestion-produits.component.ts:105 | with non-negative bounds, `slice` is empty from a start at or past the end, and is otherwise the run from the start up to the end bound or the end of the list |
| Paging.PageSpec | src/app/gestion-produits/gestion-produits.component.ts:104-105 | the page holds at most `itemsPerPage` products. Past the end it is empty; otherwise it is the contiguous run starting at `(page - 1) * itemsPerPage` |
| Paging.PageOfItem | src/app/gestion-produits/gestion-produits.component.ts:104-105 | every product of the filtered list appears on page `i / size + 1`, at position `i % size` |
| Paging.CeilDiv | src/app/gestion-produits/gestion-produits.component.ts:127 | `Math.ceil(total / size)` is the least page count whose pages hold every item |
| Paging.CanGoNextIff | src/app/gestion-produits/gestion-produits.component.ts:122-128 | `page * size < total` holds exactly when `page` is below the page count |
| Catalog.Find | src/app/gestion-produits/gestion-produits.component.ts:269 | `find(p => p.id === id)` returns the first product with that id, and none exactly when no product has it |
| Catalog.FindUnique | src/app/gestion-produits/gestion-produits.component.ts:305 | when ids are unique, looking up a product's id finds that product |
| Catalog.FindSameIds | src/app/gestion-produits/gestion-produits.component.ts:284 | stock updates do not move any lookup |
| Catalog.AdjustAt | src/app/gestion-produits/gestion-produits.component.ts:284 | `original.stock += delta` raises that product's stock by exactly `delta` and changes no other field of it; every other product is unchanged |
| Catalog.AdjustAtStock | src/app/gestion-produits/gestion-produits.component.ts:284 | adjusting the found product changes the stock seen for its id by `delta`, and the stock seen for every other id not at all |
| Catalog.Restocked | src/app/gestion-produits/gestion-produits.component.ts:293-296 | `find` followed by `stock += q` changes only stock fields and keeps every id |
| Catalog.RestockedStock | src/app/gestion-produits/gestion-produits.component.ts:293-296 | the stock seen for the id rises by `q` when the product is found. If it is not found, no stock changes |
| Catalog.WithoutId | src/app/gestion-produits/gestion-produits.component.ts:227 | after a delete, the products without the id remain, in their order and as many times as they occurred, and no product with the id is left |
| Cart.FindLine | src/app/gestion-produits/gestion-produits.component.ts:290 | `cartItems.findIndex(p => p.id === id)` returns the first line for the id, and -1 (none) exactly when there is no such line |
| Cart.SumConcat | src/app/app.component.ts:118 | a `reduce` sum over two carts joined is the sum of the two |
| Cart.SumUpdate | src/app/gestion-produits/gestion-produits.component.ts:279 | replacing one line changes a sum by the difference of that line's weights |
| Cart.SumRemoveAt | src/app/gestion-produits/gestion-produits.component.ts:297 | splicing a line out lowers a sum by that line's weight |
| Cart.SumAppend | src/app/gestion-produits/gestion-produits.component.ts:281 | pushing a line raises a sum by that line's weight |
| Cart.ReservedAbsent | src/app/gestion-produits/gestion-produits.component.ts:290-291 | a cart with no line for an id reserves none of its units |
| Cart.ReservedIsLineQuantity | src/app/gestion-produits/gestion-produits.component.ts:277-282 | with one line per id, the units reserved for an id are the quantity of the line `find` returns, or 0 |
| Cart.CountOfShape | src/app/app.component.ts:117-119 | with positive quantities, the badge count is at least the number of lines, and zero only for the empty cart |
| Reconciliation.AddRejected | src/app/gestion-produits/gestion-produits.component.ts:269-275 | an unknown id, or a product with no stock left, leaves catalog and cart unchanged |
| Reconciliation.AddTakesStock | src/app/gestion-produits/gestion-produits.component.ts:284 | a successful add takes exactly one unit of that id out of stock. Other ids' stock and every other product field are unchanged |
| Reconciliation.AddReservesUnit | src/app/gestion-produits/gestion-produits.component.ts:277-282 | a successful add reserves exactly one more unit of that id and no other. No line is dropped, and other products' lines are unchanged |
| Reconciliation.AddSnapshot | src/app/gestion-produits/gestion-produits.component.ts:277-282 | a successful add keeps the product snapshot of every existing line; an existing line for the id gains exactly one unit, and otherwise a line holding a copy of the catalog product as it was before the stock update, with quantity 1, is pushed at the end |
| Reconciliation.AddTotals | src/app/gestion-produits/gestion-produits.component.ts:315-317 | after a successful add the id has a line; the count rises by one and the total by that line's recorded price |
| Reconciliation.AddToLineReserves | src/app/gestion-produits/gestion-produits.component.ts:279 | one more unit in a line reserves one more unit of that line's id and nothing for any other id |
| Reconciliation.AppendReserves | src/app/gestion-produits/gestion-produits.component.ts:281 | a pushed line reserves its quantity for its own id and nothing for any other id |
| Reconciliation.AddToLineTotals | src/app/gestion-produits/gestion-produits.component.ts:279 | one more unit in an existing line: the id is still found at that line, count +1, total + its price, the same ids |
| Reconciliation.AppendLineTotals | src/app/gestion-produits/gestion-produits.component.ts:281 | a new line of one unit: it is found at the end, count +1, total + its price |
| Reconciliation.AddConserves | src/app/gestion-produits/gestion-produits.component.ts:268-287 | `addToCart` keeps stock plus reserved units constant for every id |
| Reconciliation.AddPreservesWellFormed | src/app/gestion-produits/gestion-produits.component.ts:268-287 | `addToCart` keeps a well-formed session well formed: one line per id, positive quantities, every line's product in the catalog, no negative stock |
| Reconciliation.ShapeAddToLine | src/app/gestion-produits/gestion-produits.component.ts:279 | one more unit in a line keeps one line per id with positive quantities |
| Reconciliation.ShapeAppend | src/app/gestion-produits/gestion-produits.component.ts:281 | pushing a fresh line for a new id keeps one line per id with positive quantities |
| Reconciliation.RemoveAbsent | src/app/gestion-produits/gestion-produits.component.ts:290-291 | removing an id with no line changes nothing |
| Reconciliation.RemoveRestores | src/app/gestion-produits/gestion-produits.component.ts:289-301 | removing takes out the whole line and keeps the others in order. Its units go back to the product's stock when the product is in the catalog, and other ids are untouched |
| Reconciliation.RemoveWholeLine | src/app/gestion-produits/gestion-produits.component.ts:297 | with one line per id, no unit of the id remains in the cart after removal |
| Reconciliation.RemoveConserves | src/app/gestion-produits/gestion-produits.component.ts:289-301 | `removeFromCart` keeps stock plus reserved units constant for every id, provided the line's product is still in the catalog |
| Reconciliation.RemovePreservesWellFormed | src/app/gestion-produits/gestion-produits.component.ts:289-301 | `removeFromCart` keeps a well-formed session well formed |
| Reconciliation.ShapeRemoveAt | src/app/gestion-produits/gestion-produits.component.ts:297 | splicing a line out keeps one line per id with positive quantities |
| Reconciliation.RestockIds | src/app/gestion-produits/gestion-produits.component.ts:304-309 | the `forEach` of `clearCart` changes nothing but stock fields, and keeps every id |
| Reconciliation.RestockAt | src/app/gestion-produits/gestion-produits.component.ts:304-309 | after the `forEach`, a product's stock is its old stock plus every unit the cart held for its id, if it is the first product with that id |
| Reconciliation.ClearRestores | src/app/gestion-produits/gestion-produits.component.ts:303-313 | after `clearCart` the stock seen for an id in the catalog rises by every unit the cart held for it; the cart is empty and count and total are 0 |
| Reconciliation.ClearRestoresEach | src/app/gestion-produits/gestion-produits.component.ts:303-313 | with unique ids, every product's stock rises by exactly the units its line held |
| Reconciliation.ClearConserves | src/app/gestion-produits/gestion-produits.component.ts:303-313 | `clearCart` keeps stock plus reserved units constant for every id, provided every line's product is still in the catalog |
| Reconciliation.ClearPreservesWellFormed | src/app/gestion-produits/gestion-produits.component.ts:303-313 | `clearCart` keeps a well-formed session well formed |
| Reconciliation.ReservedNonNegative | src/app/gestion-produits/gestion-produits.component.ts:307 | with positive quantities no id has negative reserved units, so clearing never lowers a stock |
| Reconciliation.ApplyConserves | src/app/app.component.ts:121-170 | any one cart call keeps a well-formed session well formed and conserves stock plus reserved units |
| Reconciliation.RunConserves | src/app/app.component.ts:121-170 | any sequence of cart calls keeps a well-formed session well formed and conserves stock plus reserved units |
| Reconciliation.SessionConserves | src/app/app.component.ts:44-52 | from a freshly loaded catalog with no negative stock and an empty cart, after any sequence of cart calls, for each id, the stock seen for it plus its units in the cart equal the stock first seen for it when loaded |
| ImagePaths.NormalisedImagePath | src/app/gestion-produits/gestion-produits.component.ts:253-256 | the path is the trimmed input, prefixed with `assets/images/` exactly when it is non-empty and starts with neither `http` nor `assets/`. The result is empty or starts with one of the two |
| ImagePaths.NormalisedIdempotent | src/app/gestion-produits/gestion-produits.component.ts:253-256 | normalising a normalised path changes nothing |
| ImagePaths.PrefixedIsTrimmed | src/app/gestion-produits/gestion-produits.component.ts:255 | a prefixed path is trimmed and lies under `assets/` |
| ImagePaths.TrimmedUnderAssetsIsNormal | src/app/gestion-produits/gestion-produits.component.ts:254 | a trimmed path under `assets/` is left as it is |
| ImagePaths.FileName | src/app/gestion-produits/gestion-produits.component.ts:258 | `split('/').pop()` is the slash-free suffix after the last `/`, or the whole path when it holds none |
| ImagePaths.FileNameUnderImagesDir | src/app/gestion-produits/gestion-produits.component.ts:255-258 | for a slash-free name placed under `assets/images/`, the shown file name is the name itself |
| GestionProduits.FilteredSpec | src/app/gestion-produits/gestion-produits.component.ts:94-101 | an all-white-space term keeps every product. Any other term keeps exactly the products whose name, description or category contains the lower-cased, untrimmed term, in their order and as often as they occur, and the match count is the number of such products |
| GestionProduits.GestionProduitsComponent.constructor | src/app/gestion-produits/gestion-produits.component.ts:21-43 | the initial state: empty catalog and cart, page 1, no search, not editing |
| GestionProduits.GestionProduitsComponent.LoadProduits | src/app/gestion-produits/gestion-produits.component.ts:75-82 | the catalog is replaced and the page and match count are re-derived. The cart, search, page number and form are unchanged |
| GestionProduits.GestionProduitsComponent.SetSearchTerm | src/app/gestion-produits/gestion-produits.component.ts:36 | the search box binding changes only the term: cart, stock, page, table, match count and form are kept |
| GestionProduits.GestionProduitsComponent.FilterProduits | src/app/gestion-produits/gestion-produits.component.ts:86-89 | back to page 1 with the view re-derived; stock, cart, total, search term and form unchanged |
| GestionProduits.GestionProduitsComponent.ApplyFilterAndPagination | src/app/gestion-produits/gestion-produits.component.ts:91-106 | the match count is the size of the filtered list and the table holds its current page. Stock, cart, search and form are unchanged |
| GestionProduits.GestionProduitsComponent.PrevPage | src/app/gestion-produits/gestion-produits.component.ts:108-113 | one page back and the view re-derived when above page 1; otherwise nothing changes, so the page never drops below 1. Stock, cart, total, search and form are kept either way |
| GestionProduits.GestionProduitsComponent.NextPage | src/app/gestion-produits/gestion-produits.component.ts:115-120 | one page on, only while items remain past the current page; otherwise nothing changes. After a step from a current view, the new page starts inside the filtered list and is non-empty. Stock, cart, total, search and form are kept either way |
| GestionProduits.GestionProduitsComponent.CanGoNext | src/app/gestion-produits/gestion-produits.component.ts:122-124 | holds exactly when the current page is below `totalPages` |
| GestionProduits.GestionProduitsComponent.TotalPages | src/app/gestion-produits/gestion-produits.component.ts:126-128 | the least page count whose pages hold every match |
| GestionProduits.GestionProduitsComponent.OnEdit | src/app/gestion-produits/gestion-produits.component.ts:132-147 | editing mode with a copy of the product. The form and the preview show its first image or '', and the file name is that image's last path segment. Cart, stock, total, search, page, table and match count are kept |
| GestionProduits.GestionProduitsComponent.SetImagesField | src/app/gestion-produits/gestion-produits.component.ts:65 | the `images` control binding changes only that control: preview, file name, editing state, cart, stock, total, search, page, table and match count are kept |
| GestionProduits.GestionProduitsComponent.OnImageUrlChanged | src/app/gestion-produits/gestion-produits.component.ts:252-260 | the control and the preview hold the normalised path, and the file name is its last segment. Editing state, cart, stock, total, search, page, table and match count are kept |
| GestionProduits.GestionProduitsComponent.DeleteProduit | src/app/gestion-produits/gestion-produits.component.ts:226-228 | the products with the id leave the catalog, the others stay in order, the cart is untouched and the view is re-derived |
| GestionProduits.GestionProduitsComponent.AddToCart | src/app/gestion-produits/gestion-produits.component.ts:268-287 | the new catalog and cart are `Add` of the old ones, and the outcome names the branch taken. After a reservation the view and total are current; after an early return nothing changed |
| GestionProduits.GestionProduitsComponent.RemoveFromCart | src/app/gestion-produits/gestion-produits.component.ts:289-301 | the new catalog and cart are `Remove` of the old ones. The view and total are current when a line was removed; otherwise nothing changed |
| GestionProduits.GestionProduitsComponent.ClearCart | src/app/gestion-produits/gestion-produits.component.ts:303-313 | the new catalog and cart are `Clear` of the old ones. The cart is empty, the total 0, and the view is current |
| GestionProduits.GestionProduitsComponent.ReturnStock | src/app/gestion-produits/gestion-produits.component.ts:304-309 | the `forEach` loop gives back every line's quantity in order, as `Restock` does |
| GestionProduits.GestionProduitsComponent.UpdateCartTotal | src/app/gestion-produits/gestion-produits.component.ts:315-317 | the total is the sum of `price * quantity`; nothing else changes |
| App.ShownSpec | src/app/app.component.ts:73-88 | the list keeps exactly the products matching the trimmed, lower-cased term in name or description and equal to the chosen category, in their order and as often as they occur. A blank search with no category keeps everything |
| App.ShownIgnoresSurroundingSpace | src/app/app.component.ts:74 | white space around the search term does not change the list |
| App.AppComponent.constructor | src/app/app.component.ts:28-40 | the initial state: empty catalog, list and cart, no search and no category |
| App.AppComponent.LoadProduits | src/app/app.component.ts:46-50 | the catalog is replaced and shown whole. That agrees with the filter when the search is blank and no category is set; the cart is unchanged |
| App.AppComponent.SetSearchTerm | src/app/app.component.ts:33 | the search box binding changes only the term |
| App.AppComponent.SetCategory | src/app/app.component.ts:34 | the category binding changes only the category |
| App.AppComponent.FilterProduits | src/app/app.component.ts:73-88 | the displayed list is re-derived from catalog, term and category; nothing else changes |
| App.AppComponent.CartCount | src/app/app.component.ts:117-119 | the badge is the sum of the line quantities: at least the number of lines, and zero only for an empty cart |
| App.AppComponent.AddToCart | src/app/app.component.ts:121-141 | the new catalog and cart are `Add` of the old ones, and the outcome names the branch taken. After a reservation the total and the list are current; after an early return nothing changed |
| App.AppComponent.RemoveFromCart | src/app/app.component.ts:143-157 | the new catalog and cart are `Remove` of the old ones, for the line with the item's id. The total and list are current when a line was removed; otherwise nothing changed |
| App.AppComponent.ClearCart | src/app/app.component.ts:159-170 | the new catalog and cart are `Clear` of the old ones. The cart is empty, the total 0, and the list is current |
| App.AppComponent.ReturnStock | src/app/app.component.ts:160-165 | the `forEach` loop gives back every line's quantity in order, as `Restock` does |
| App.AppComponent.UpdateCartTotal | src/app/app.component.ts:172-177 | the total is the sum of `(price \|\| 0) * quantity`; nothing else changes |
| Scenario.ShowCars | src/app/app.component.ts:73-88 | with a blank search and the category `car`, only the sedan of a sedan-and-truck catalog is shown |
| Scenario.FindBoth | src/app/app.component.ts:122 | in that catalog the two ids are found at their own positions |
| Scenario.AddSedanOnce | src/app/app.component.ts:130-137 | the first add opens a line of one unit and leaves two in stock |
| Scenario.AddSedanAgain | src/app/app.component.ts:131-132 | the second add raises that line to two units and leaves one in stock |
| Scenario.TwoSedansInCart | src/app/app.component.ts:125-128 | with two sedans carted: one in stock, a count of 2, a total of twice the price. The sold-out truck is refused with nothing changed |
| Scenario.AddSedanTwiceThenTruck | src/app/app.component.ts:121-141 | adding the sedan twice, then the sold-out truck, gives that state |

## Left out

- HTTP: `ApiService` and its `subscribe` callbacks are not modelled. A loaded catalog is a method argument, and a failed fetch changes nothing, as in the code. `loadCategories`, `categories` and `getCategories` are out for the same reason.
- Dialogs: the Swal dialogs and `alert` are not modelled.
  - The out-of-stock warning is the `OutOfStock` outcome of `AddToCart`.
  - The delete confirmation is not modelled; `DeleteProduit` is the effect once the dialog is confirmed and the call has succeeded.
- Browser and routing: `setTimeout`, `scrollIntoView`, the DOM, `Router`, `currentRoute`, `isAccueil`, `toggleCart`, `showCart` and `voirDetails` are presentation only.
- Image handling: `onFileSelected` (a `FileReader`) and `onImageError` (a DOM event) need the browser.
- Forms: `initForm`, the validators, `ajouterProduit`, `updateProduit` and `cancelEdit` are left out. They depend on Angular's `FormBuilder`, `Date.now`, `parseFloat` and the HTTP layer. Of the form, only the `images` control is a field.
- Numbers: prices are integers, not floating point. For an integer price, `price || 0` is the price itself.
- Text.Lower: only ASCII letters are lower-cased, not all of Unicode, and there is no diacritic folding.
- Optional chaining: `p.name?.` and `images?.` on absent fields is not modelled; every product field is present.
- Aliasing: product objects are shared between `produitsData` and `paginatedProduits`, and between `produits` and `filteredProduits`. The model treats products as values, and every view is re-derived after each change, as the code does.
- `itemsPerPage` is a constant 7; the code never changes it.
- Reconciliation.RemoveConserves: conserves stock plus reserved units only while the removed line's product is still in the catalog. The code silently drops the units of a line whose product has been deleted.
- Reconciliation.ClearConserves: same condition; every line's product must still be in the catalog.
