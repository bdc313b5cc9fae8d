# Storefront cart and favorites state

This project models the state logic of a single-page storefront for decorative
items. The page shows a fixed catalog of six products. It keeps four pieces of
state: the active tab, the selected category filter, a favorites list and a
shopping cart. The page's event handlers change this state; the filtered
catalog, the favorites tab, the cart panel and the cart total are computed from
it.

Modules, one per concern of `src/pages/Index.tsx`:

- `Sequences` (`sequences.dfy`): duplicate-freedom, order-preserving
  subsequences and occurrence counts.
- `Catalog` (`catalog.dfy`): the `Product` and `Category` datatypes, the
  six-product catalog, product lookup by id, the price a cart line is charged,
  and the catalog view filtered by the selected category.
- `Favorites` (`favorites.dfy`): the toggle applied by a heart button, runs of
  toggles, and the favorites tab.
- `Cart` (`cart.dfy`): cart lines, the add, remove and set-quantity updates, the
  cart invariant (one line per product, every quantity at least 1), the cart
  total, and the cart's lines joined with their catalog products.
- `Storefront` (`storefront.dfy`): the class `StorefrontState`, which owns the
  four state fields. Its methods are the page's handlers. Each handler assigns
  its field the result of the matching pure update and keeps the invariant
  `Valid()`. `SeededSession` is a client session that uses only the handlers'
  contracts.

Modelling decisions (the model follows the code):

- Favorites are a list in insertion order, not a favorites set. A toggle appends at
  the end or removes every occurrence.
- The tab and the category selection are plain strings that the handlers store
  unchecked; selections outside the enumerated values are not rejected. A
  category selection that is neither `"all"` nor a category identifier shows no
  product (`Catalog.UnknownSelectionShowsNothing`).
- The add, remove and set-quantity updates act on every line holding the id, as
  the code's map and filter do. Uniqueness of ids is an invariant the updates
  keep, not an assumption they make.
- The filters keep every copy of what they keep: the multiplicity lemmas
  (`Favorites.WithoutCounts`, `Cart.RemoveLineCounts`,
  `Catalog.FilterCategoryCounts`, `Favorites.FilterFavoritesCounts`) state the
  number of occurrences of each element in the result, which together with the
  subsequence clauses fixes the result completely.

## Model

| member | source | states |
|---|---|---|
| `Catalog.CatalogWellFormed` | src/pages/Index.tsx:18-25 | the catalog's ids are pairwise distinct and every price is positive |
| `Catalog.Find` | src/pages/Index.tsx:81 | a search of a product list by id yields only a product with that id |
| `Catalog.FindFirstMatch` | src/pages/Index.tsx:81 | the search yields nothing exactly when no product of the list has the id, and otherwise the first product of the list that has it |
| `Catalog.Lookup` | src/pages/Index.tsx:81 | a catalog lookup yields only a product with the requested id and a positive price |
| `Catalog.LookupFindsCatalog` | src/pages/Index.tsx:81 | a lookup succeeds exactly when some catalog product has the id, and what it yields is in the catalog |
| `Catalog.LookupCatalogProduct` | src/pages/Index.tsx:81 | looking up the id of any catalog product yields that product, because ids are unique |
| `Catalog.PriceOf` | src/pages/Index.tsx:82 | the price charged for an id is never negative, and it is positive exactly when the id is in the catalog (0 otherwise) |
| `Catalog.PriceOfCatalogProduct` | src/pages/Index.tsx:81-82 | a catalog product is charged its catalog price |
| `Catalog.FilterCategory` | src/pages/Index.tsx:46 | the category filter's result holds exactly the products of the chosen category, as a subsequence of its input |
| `Catalog.FilterCategoryCounts` | src/pages/Index.tsx:46 | the category filter keeps every copy of a product of the chosen category and no copy of any other |
| `Catalog.FilteredProducts` | src/pages/Index.tsx:44-46 | the catalog tab shows the whole catalog for "all"; otherwise exactly the catalog products of the selected category, in catalog order |
| `Catalog.UnknownSelectionShowsNothing` | src/pages/Index.tsx:44-46 | a selection that is neither "all" nor a category identifier shows no product |
| `Catalog.VaseSelection` | src/pages/Index.tsx:44-46 | the vase filter shows products 1 and 5, in that order |
| `Favorites.Without` | src/pages/Index.tsx:50 | after removing an id, the list holds exactly the other ids, as a subsequence of the old list; it is the identity when the id is absent, and keeps a duplicate-free list duplicate-free |
| `Favorites.WithoutCounts` | src/pages/Index.tsx:50 | the removal keeps every copy of every other id and no copy of the removed one, so the list shrinks by exactly the removed id's occurrences |
| `Favorites.WithoutSnoc` | src/pages/Index.tsx:50 | removing an id from a list extended at the end removes it from the prefix and drops the last element only if it is that id |
| `Favorites.Toggle` | src/pages/Index.tsx:48-52 | a toggle flips the membership of its id and leaves every other id's membership alone |
| `Favorites.ToggleKeepsDistinct` | src/pages/Index.tsx:48-52 | a toggle keeps a duplicate-free list duplicate-free |
| `Favorites.ToggleTwice` | src/pages/Index.tsx:48-52 | two toggles of the same id restore every id's membership, and restore the list itself when the id was absent |
| `Favorites.ToggleAll` | src/pages/Index.tsx:48-52 | a run of heart presses, one toggle per id in order; its properties are the two lemmas below |
| `Favorites.ToggleAllKeepsDistinct` | src/pages/Index.tsx:48-52 | any run of toggles keeps a duplicate-free list duplicate-free |
| `Favorites.ToggleParity` | src/pages/Index.tsx:48-52 | after a run of toggles, an id is a favorite exactly when it started as one xor it was toggled an odd number of times |
| `Favorites.PressFiveThenOne` | src/pages/Index.tsx:48-52 | toggling 5 and then 1 on an empty list gives the list [5, 1] |
| `Favorites.FilterFavorites` | src/pages/Index.tsx:85 | the favorites filter's result holds exactly the products whose ids are favorites, as a subsequence of its input |
| `Favorites.FilterFavoritesCounts` | src/pages/Index.tsx:85 | the favorites filter keeps every copy of a product whose id is a favorite and no copy of any other |
| `Favorites.FilterFavoritesByMembership` | src/pages/Index.tsx:85 | the favorites filter depends only on which ids are favorites, not on their order or repetition |
| `Favorites.FavoriteProducts` | src/pages/Index.tsx:85 | the favorites tab shows exactly the catalog products whose ids are favorites, in catalog order |
| `Favorites.ToggleOrderIrrelevant` | src/pages/Index.tsx:85 | toggling two ids in either order gives the same favorites tab |
| `Favorites.FavoritesFiveOneTail` | src/pages/Index.tsx:85 | among catalog products 3 to 6, only product 5 has an id among the favorites [5, 1] |
| `Favorites.FavoritesInCatalogOrder` | src/pages/Index.tsx:85 | after toggling 5 and then 1, the favorites tab shows product 1 before product 5 |
| `Cart.WellFormed` | src/pages/Index.tsx:54-78 | the cart invariant the handlers keep: at most one line per product id (add raises an existing line rather than appending a second), every quantity at least 1 (a request below 1 removes the line) |
| `Cart.Increment` | src/pages/Index.tsx:58-60 | the increment keeps length and ids and raises by exactly 1 the quantity of each line of the id, leaving other lines unchanged |
| `Cart.AddLine` | src/pages/Index.tsx:54-64 | add to cart raises by 1 the quantity of the id's line and leaves the cart's length, ids and other quantities unchanged; for a new id it appends a line with quantity 1 after the untouched old lines; it keeps the cart invariant, and keeps an all-catalog cart all-catalog when the id is in the catalog |
| `Cart.AddLineSingleLine` | src/pages/Index.tsx:54-64 | in a well-formed cart, after an add the id has exactly one line |
| `Cart.AddTwice` | src/pages/Index.tsx:54-64 | adding an id new to the cart twice appends one line with quantity 2 |
| `Cart.RemoveLine` | src/pages/Index.tsx:66-68 | after a removal no line has the id; the remaining lines are lines of other products, every such line survives, and they keep their relative order; an absent id leaves the cart unchanged |
| `Cart.RemoveLineCounts` | src/pages/Index.tsx:67 | the removal keeps every copy of every line of another product, so the cart shrinks by exactly the number of lines holding the id |
| `Cart.RemoveLineIds` | src/pages/Index.tsx:67 | a removal introduces no id |
| `Cart.RemoveLineSnoc` | src/pages/Index.tsx:67 | removing an id from a cart extended at the end removes it from the prefix and drops the last line only if it has that id |
| `Cart.RemoveLineKeepsWellFormed` | src/pages/Index.tsx:66-68 | a removal keeps the cart invariant (unique ids, quantities at least 1) |
| `Cart.RemoveLineKeepsInCatalog` | src/pages/Index.tsx:66-68 | a removal keeps every line's id in the catalog |
| `Cart.SetQuantity` | src/pages/Index.tsx:75-77 | setting a quantity keeps length and ids, gives the id's lines exactly the new quantity, and leaves the other lines unchanged |
| `Cart.SetQuantityAbsent` | src/pages/Index.tsx:75-77 | setting the quantity of an id without a line changes nothing |
| `Cart.UpdateQuantity` | src/pages/Index.tsx:70-78 | a quantity below 1 acts exactly as a removal; otherwise length and ids are kept and the id's line gets exactly the new quantity, with other lines unchanged |
| `Cart.UpdateQuantityAbsent` | src/pages/Index.tsx:70-78 | a quantity change never adds a line: for an id without a line the cart is unchanged |
| `Cart.UpdateQuantityKeepsInvariants` | src/pages/Index.tsx:70-78 | a quantity change keeps the cart invariant and keeps an all-catalog cart all-catalog |
| `Cart.LineTotal` | src/pages/Index.tsx:81-82 | one line's share of the total: the catalog price of its id, or 0 for an unknown id, times its quantity |
| `Cart.CartTotal` | src/pages/Index.tsx:80-83 | the cart total as a right fold over the lines; `Cart.ReduceTotalIsCartTotal` shows it equals the page's left fold, `Cart.CartTotalAppend` gives its left-fold step, and `Cart.CartTotalMatchesCartProducts` relates it to the joined view |
| `Cart.ReduceTotal` | src/pages/Index.tsx:80-83 | the page's `reduce`: a left fold that adds each line's value to a running sum, first line first |
| `Cart.ReduceTotalIsCartTotal` | src/pages/Index.tsx:80-83 | the left fold from any start value ends at that value plus the right-fold total, so from 0 the page's total and `Cart.CartTotal` agree |
| `Cart.CartTotalAppend` | src/pages/Index.tsx:80-83 | a line appended at the end adds its price times its quantity to the total |
| `Cart.IncrementTotal` | src/pages/Index.tsx:80-83 | incrementing an id's lines raises the total by that id's price once per such line |
| `Cart.AddLineTotal` | src/pages/Index.tsx:80-83 | in a well-formed cart, add to cart raises the total by exactly the product's price (0 for an unknown id) |
| `Cart.RemoveLineTotal` | src/pages/Index.tsx:80-83 | a removal lowers the total by the id's price times the quantity it removed |
| `Cart.SetQuantityTotal` | src/pages/Index.tsx:80-83 | in a well-formed cart, setting a line's quantity replaces that line's share of the total by the price times the new quantity |
| `Cart.CartTotalNonNegative` | src/pages/Index.tsx:80-83 | with non-negative quantities the total is never negative |
| `Cart.RemoveAfterAdd` | src/pages/Index.tsx:70-78 | adding an id new to the cart and then asking for quantity 0 restores the original cart |
| `Cart.CartProducts` | src/pages/Index.tsx:86-89 | for a cart of catalog ids, the joined view has one entry per line in cart order, each with the line's id, the price the total charges and the line's quantity |
| `Cart.CartProductAt` | src/pages/Index.tsx:87 | each joined entry is the catalog lookup of its line's id |
| `Cart.CartProductsFromCatalog` | src/pages/Index.tsx:86-89 | every joined entry is a catalog product |
| `Cart.CartTotalMatchesCartProducts` | src/pages/Index.tsx:80-89 | for a cart of catalog ids, the total equals the sum of price times quantity over the joined view, so the zero fallback of the total never applies |
| `Storefront.StorefrontState.Valid` | src/pages/Index.tsx:36-39 | the page invariant over the state fields: no id is a favorite twice, and the cart is well-formed |
| `Storefront.StorefrontState.constructor` | src/pages/Index.tsx:36-39 | the page starts on the catalog tab with the "all" selection, no favorites and an empty cart, satisfying the invariant |
| `Storefront.StorefrontState.ToggleFavorite` | src/pages/Index.tsx:48-52 | the heart button replaces the favorites by their toggle, flipping only that id's membership and keeping them duplicate-free |
| `Storefront.StorefrontState.AddToCart` | src/pages/Index.tsx:54-64 | the add button replaces the cart by its add update, keeps the invariant, raises the total by the product's price, and keeps an all-catalog cart all-catalog for a catalog id |
| `Storefront.StorefrontState.RemoveFromCart` | src/pages/Index.tsx:66-68 | the remove button replaces the cart by its removal update, keeps the invariant, leaves no line for the id, lowers the total by the removed value, and keeps an all-catalog cart all-catalog |
| `Storefront.StorefrontState.UpdateQuantity` | src/pages/Index.tsx:70-78 | the quantity buttons replace the cart by the quantity update, remove the line below 1, never add a line, keep the invariant, and keep an all-catalog cart all-catalog |
| `Storefront.StorefrontState.SetActiveTab` | src/pages/Index.tsx:226 | a tab button stores the tab and changes nothing else |
| `Storefront.StorefrontState.SetSelectedCategory` | src/pages/Index.tsx:249 | a category button stores the selection and changes nothing else |
| `Storefront.SeededAdds` | src/pages/Index.tsx:54-64 | on an empty cart, adding product 1 once and product 2 twice gives the lines (1, 1) and (2, 2) |
| `Storefront.SeededRemoval` | src/pages/Index.tsx:70-78 | asking for quantity 0 of product 1 in that cart leaves the single line (2, 2) |
| `Storefront.SeededTotals` | src/pages/Index.tsx:80-83 | at the seed prices those two carts total 122300 and 97800 |
| `Storefront.SeededSession` | src/pages/Index.tsx:54-83 | on a fresh page, adding product 1 once and product 2 twice totals 24500 + 2 * 48900 = 122300; asking for quantity 0 of product 1 then leaves the single line (2, 2) and a total of 97800 |

## Left out

- Rendering is not modelled: the JSX and the sheet, card, badge, button, scroll-area and icon components (src/pages/Index.tsx:91-405). They are presentation built on a foreign UI library.
- Price formatting with `toLocaleString` is not modelled. It is locale-dependent number formatting.
- The seeded `orders` list and the static profile screen are not modelled. They are read-only constants that no operation touches.
- The "place order" button is not modelled. It has no handler, so it has no effect to model.
- React's state and re-render mechanics are not modelled. Each setter that takes an updater is modelled as a synchronous assignment of the update's result to the field of the one state object. The derived views are pure functions of the fields.
- Product names, descriptions, images and the category labels and icons are not modelled. Only ids, prices and categories affect the logic.
- Ids, prices and quantities are unbounded integers. The page's JavaScript numbers are floating point; with integer quantities that change by whole steps and these prices, the totals stay exact far beyond any reachable cart.
- `Cart.CartProducts`: requires every line's id to be in the catalog. The page asserts the lookup non-null there. What its spread would produce for a missing product (an entry with nothing but a quantity) is not modelled. The requirement holds in every state the handlers reach from the initial page as long as added ids are catalog ids, which the page's add buttons always pass: `AddToCart`, `RemoveFromCart` and `UpdateQuantity` each keep an all-catalog cart all-catalog.
- `Cart.SetQuantityTotal`: stated only for a well-formed cart and the index of the id's line. Carts with several lines for one id never arise (`Storefront.StorefrontState.Valid`).
- `Cart.AddLineTotal`: stated for well-formed carts. For arbitrary carts `Cart.IncrementTotal` gives the increase, one price per line of the id.
