# Order cart of the field-sales app's place-order screen

This project models the order cart of the place-order screen
(`app/orders/place.tsx`) of the agrochemical field-sales mobile app. A sales
representative picks a dealer, searches the product catalog, and builds a cart
of product lines before submitting the order. The screen keeps its state in
React state cells: the search query, the selected dealer, whether the dealer
dropdown is open, the cart, and whether an order is being placed.

Modules, one per concern of that file:

- `Wrappers`: `Option`, standing for JavaScript's `null`/`undefined`.
- `Sequences`: `Array.prototype.find` (`FindFirst`) and `Array.prototype.filter`
  (`Filter`). Also the order-preserving `Subsequence` relation and the lemmas
  that make filtering predictable.
- `Text`: the string built-ins the screen relies on, as ECMA-262 defines them.
  These are `toLowerCase` (ASCII letters), `includes`, `parseInt` with no radix,
  and the decimal rendering of an integer.
- `Catalog`: the `PRODUCTS` and `DEALERS` mock catalogs, the catalog lookup, and
  the two case-insensitive name searches.
- `Cart`: the cart transforms as pure functions over `seq<Line>`, with the
  lemmas that state what each one does. The transforms are `addToCart`,
  `removeFromCart`, `updateQuantity` and the total.
- `PlaceOrder`: class `PlaceOrderScreen`, whose fields are the screen's state
  cells and whose methods are its handlers. Each cart method's postcondition is
  the matching `Cart` function. The class invariant is one line per product,
  every quantity at least 1.

A cart line is `Line(item, quantity)`: the product record the screen copies into
the line with `{...product, quantity}`, plus the quantity.

Points the code decides:

- `addToCart` never clamps. Pressing "+" on a product card raises its line by
  one with no look at the stock, so a line can go past `available`
  (`Cart.AddToCartExisting`). Only the quantity editor clamps, and it takes the
  ceiling from the catalog entry, not from the line. One consequence: on a
  line pushed above its stock, the cart line's own "+" (place.tsx:249) asks for
  one more, is clamped to the stock, and so lowers the line
  (`Cart.PlusAtOrAboveStockSetsStock`).
- The cart is sometimes described as enforcing the stock ceiling on every
  change. The code does not, and the model follows the code. No global
  "quantity <= available" invariant is stated.
- `updateQuantity` looks the product up only for a positive quantity. So its
  precondition asks for the id to be in the catalog only in that case: the code
  would dereference `undefined` otherwise.
- The dealer search box and the product search box share one query cell.
  Picking a dealer therefore also clears the product search.

## Model

| member | source | states |
|---|---|---|
| `Sequences.FindFirst` | app/orders/place.tsx:74 | the index returned holds the first element the callback accepts; None exactly when no element is accepted |
| `Sequences.Filter` | app/orders/place.tsx:88 | the filtered array is never longer than the input |
| `Sequences.FilterMembers` | app/orders/place.tsx:88 | every kept element is an accepted input element; every accepted input element is kept |
| `Sequences.FilterDropsOne` | app/orders/place.tsx:88 | when exactly one element is rejected, filtering cuts out just that element |
| `Sequences.FilterIsSubsequence` | app/orders/place.tsx:65-71 | what filter keeps is an order-preserving subsequence of the input |
| `Sequences.FilterAppend` | app/orders/place.tsx:88 | filtering a concatenation is the concatenation of the filtered parts |
| `Sequences.FilterCongruent` | app/orders/place.tsx:65-67 | two callbacks that agree on every element give the same filter result |
| `Sequences.FilterKeepsAll` | app/orders/place.tsx:88 | when every element is accepted the input comes back unchanged |
| `Text.ToLower` | app/orders/place.tsx:66 | `toLowerCase` keeps the length and turns each ASCII capital into its small letter (code point + 32) and leaves every other character unchanged |
| `Text.Includes` | app/orders/place.tsx:66 | `includes`; its meaning is stated by `Text.IncludesIffOccurs` and `Text.IncludesEmpty` |
| `Text.ToLowerIdempotent` | app/orders/place.tsx:66 | lower-casing an already lower-cased string changes nothing |
| `Text.IncludesIffOccurs` | app/orders/place.tsx:66 | `includes` answers true exactly when the query occurs at some position of the name |
| `Text.IncludesEmpty` | app/orders/place.tsx:70 | every name includes the empty query |
| `Text.ParseInt` | app/orders/place.tsx:241 | `parseInt(text)` with no radix, NaN as None; its meaning is stated by `Text.ParseIntToString` and `Text.NoDigitParsesToZero` |
| `Text.ParseQuantity` | app/orders/place.tsx:241 | the parsed number, with NaN read as 0; see `Text.ParseIntToString` (the displayed quantity reads back) and `Text.NoDigitParsesToZero` (digit-free text gives 0) |
| `Text.IntToString` | app/orders/place.tsx:239 | `quantity.toString()`; see `Text.ParseIntToString`, which proves the field's text parses back to the quantity |
| `Text.TrimStart` | app/orders/place.tsx:241 | parseInt skips exactly the leading whitespace and line terminators |
| `Text.DigitPrefix` | app/orders/place.tsx:241 | parseInt reads the longest run of digits of the radix and stops at the first non-digit |
| `Text.NatToStringValue` | app/orders/place.tsx:239 | the decimal digits of a number read back, most significant first, give the number |
| `Text.ParseIntToString` | app/orders/place.tsx:239-242 | parsing the quantity text the field displays gives back that quantity, negative numbers included |
| `Text.NoDigitParsesToZero` | app/orders/place.tsx:241 | text without a decimal digit parses to NaN, which `|| 0` turns into quantity 0 |
| `Catalog.FilteredProducts` | app/orders/place.tsx:65-67 | the product search; see `Catalog.FilteredProductsSpec`, `Catalog.EmptyQueryKeepsAll`, `Catalog.SearchIgnoresQueryCase` |
| `Catalog.FilteredDealers` | app/orders/place.tsx:69-71 | the dealer search; see `Catalog.FilteredDealersSpec` and `Catalog.EmptyQueryKeepsAll` |
| `Catalog.ProductsWellFormed` | app/orders/place.tsx:9-45 | of the `PRODUCTS` constant, which copies the five products field by field: ids are unique, prices positive, every product has stock of at least 1 |
| `Catalog.DealersWellFormed` | app/orders/place.tsx:47-54 | of the `DEALERS` constant, which copies the five dealers: dealer ids are unique |
| `Catalog.LookUp` | app/orders/place.tsx:97 | the product found has the requested id and is in the catalog; with unique ids it is the only such entry |
| `Catalog.FilteredProductsSpec` | app/orders/place.tsx:65-67 | the product search keeps catalog order, and keeps a product exactly when its lower-cased name contains the lower-cased query |
| `Catalog.FilteredDealersSpec` | app/orders/place.tsx:69-71 | the dealer search keeps list order, and keeps a dealer exactly when its lower-cased name contains the lower-cased query |
| `Catalog.EmptyQueryKeepsAll` | app/orders/place.tsx:57-71 | with the initial empty query both searches list the whole catalog |
| `Catalog.SearchIgnoresQueryCase` | app/orders/place.tsx:65-67 | lower-casing the query first does not change the product search |
| `Cart.IncrementWhere` | app/orders/place.tsx:77-81 | the mapped cart has the same length and the same products, and every line with the id holds one more unit |
| `Cart.AddToCart` | app/orders/place.tsx:73-85 | afterwards the product has a line; the length is unchanged when it already had one and grows by one otherwise |
| `Cart.AddToCartExisting` | app/orders/place.tsx:73-81 | an existing line's quantity goes up by exactly one, with no stock check; every other line and the order are unchanged |
| `Cart.AddToCartNew` | app/orders/place.tsx:82-84 | a new product is appended at the end as one line of quantity 1 carrying the product's data; length grows by one |
| `Cart.AddToCartKeepsUnique` | app/orders/place.tsx:73-84 | after adding, the cart still has one line per product id, and the product has a line |
| `Cart.AddToCartKeepsPositive` | app/orders/place.tsx:73-84 | adding never leaves a line at quantity 0 or below |
| `Cart.RemoveFromCart` | app/orders/place.tsx:87-89 | the filtered cart is never longer; its meaning is stated by `Cart.RemoveFromCartSpec` |
| `Cart.RemoveFromCartSpec` | app/orders/place.tsx:87-89 | no line with the id remains, every other line remains, and the survivors keep their relative order |
| `Cart.RemoveAbsentIsNoop` | app/orders/place.tsx:87-89 | removing an id not in the cart leaves the cart unchanged |
| `Cart.RemoveIdempotent` | app/orders/place.tsx:87-89 | removing twice equals removing once |
| `Cart.RemoveUniqueLine` | app/orders/place.tsx:87-89 | in a cart with unique ids, removal cuts out exactly the matching line and nothing else |
| `Cart.RemoveKeepsPositive` | app/orders/place.tsx:87-89 | removal keeps every remaining quantity positive |
| `Cart.RemoveKeepsUnique` | app/orders/place.tsx:87-89 | removal keeps the ids unique |
| `Cart.Clamp` | app/orders/place.tsx:98-100 | the clamped quantity is the request or the ceiling, and never above either |
| `Cart.SetQuantityWhere` | app/orders/place.tsx:102-106 | the mapped cart has the same length; see `Cart.SetQuantityWhereUnique` for the exact result |
| `Cart.UpdateQuantity` | app/orders/place.tsx:91-107 | zero or less behaves as removal; a positive request keeps the length and every line's product, and changes only lines with the id |
| `Cart.UpdateQuantityClamps` | app/orders/place.tsx:97-106 | the matching line gets min(request, catalog stock): the request when within stock, the stock otherwise, so within 1..stock when stock is at least 1 |
| `Cart.PlusAtOrAboveStockSetsStock` | app/orders/place.tsx:97-100 | the cart-line "+" (line 249) on a line at or past its stock sets it to the stock, so a line above its stock goes down |
| `Cart.UpdateQuantityNeverAdds` | app/orders/place.tsx:102-106 | an id absent from the cart stays absent and the cart is unchanged |
| `Cart.UpdateQuantityKeepsUnique` | app/orders/place.tsx:91-106 | the quantity editor keeps the ids unique |
| `Cart.UpdateQuantityKeepsPositive` | app/orders/place.tsx:91-106 | with a catalog where every product has stock, the editor never leaves a line at quantity 0 or below |
| `Cart.SetQuantityWhereUnique` | app/orders/place.tsx:102-106 | with unique ids, the quantity map changes exactly the one matching position |
| `Cart.MinusOnSingleUnitRemoves` | app/orders/place.tsx:230-233 | "-" on a line of quantity 1 requests 0 and cuts out exactly that line |
| `Cart.NonNumericTextRemoves` | app/orders/place.tsx:240-242 | typing text without a digit sets quantity 0 and so removes the line |
| `Cart.TotalFrom` | app/orders/place.tsx:110 | the `reduce` fold; see `Cart.TotalFromIsSum` |
| `Cart.CalculateTotal` | app/orders/place.tsx:109-111 | `calculateTotal`; see `Cart.TotalIsSumOfSubtotals` |
| `Cart.Line.Subtotal` | app/orders/place.tsx:264 | the displayed subtotal, price times quantity; see `Cart.SumReplace` and `Cart.SumRemoveAt` |
| `Cart.TotalFromIsSum` | app/orders/place.tsx:110 | the reduce fold from any start value is that value plus the sum of the line subtotals |
| `Cart.TotalIsSumOfSubtotals` | app/orders/place.tsx:109-111 | the displayed total is the sum of price times quantity over the lines; 0 for an empty cart |
| `Cart.SumAppend` | app/orders/place.tsx:110 | the sum of subtotals over two joined carts is the sum of their sums |
| `Cart.SumReplace` | app/orders/place.tsx:264 | replacing one line changes the sum by the difference of the two displayed subtotals |
| `Cart.SumRemoveAt` | app/orders/place.tsx:110 | cutting one line out lowers the sum by that line's subtotal |
| `Cart.RemoveLowersTotal` | app/orders/place.tsx:109-111 | removing a line lowers the total by exactly that line's subtotal |
| `Cart.AddToCartRaisesTotal` | app/orders/place.tsx:73-84 | adding raises the total by one unit price: the existing line's price, or the product's for a new line |
| `Cart.UpdateQuantityChangesTotal` | app/orders/place.tsx:97-111 | setting a quantity changes the total by the line's price times the change in quantity |
| `Cart.ExampleOrderTotal` | app/orders/place.tsx:9-23 | two fertilizer bags (750) and one seed packet (320) give two lines and a total of 1820 |
| `PlaceOrder.CheckOrder` | app/orders/place.tsx:113-124 | no dealer rejects first, whatever the cart; a dealer with an empty cart rejects; submission exactly when a dealer is set and the cart is non-empty |
| `PlaceOrder.ButtonEnabled` | app/orders/place.tsx:282 | the negation of the button's `disabled` expression; see `PlaceOrder.EnabledIffGuardsPass` |
| `PlaceOrder.EnabledIffGuardsPass` | app/orders/place.tsx:282 | the button is enabled exactly when no order is being placed and the handler's guards would pass |
| `PlaceOrder.PlaceOrderScreen.constructor` | app/orders/place.tsx:57-61 | the screen starts with an empty query, no dealer, the dropdown closed, an empty cart, not placing |
| `PlaceOrder.PlaceOrderScreen.SetSearchQuery` | app/orders/place.tsx:188-193 | typing in a search box sets the shared query and nothing else |
| `PlaceOrder.PlaceOrderScreen.ToggleDealerDropdown` | app/orders/place.tsx:145-147 | the dealer selector flips the dropdown and nothing else |
| `PlaceOrder.PlaceOrderScreen.SelectDealer` | app/orders/place.tsx:168-172 | picking a dealer selects it, closes the dropdown and clears the shared query |
| `PlaceOrder.PlaceOrderScreen.AddToCart` | app/orders/place.tsx:73-85 | the cart becomes the addToCart of the old cart; one line per product, positive quantities kept |
| `PlaceOrder.PlaceOrderScreen.RemoveFromCart` | app/orders/place.tsx:87-89 | the cart becomes the removal from the old cart; invariant kept |
| `PlaceOrder.PlaceOrderScreen.UpdateQuantity` | app/orders/place.tsx:91-107 | the cart becomes the quantity update of the old cart against the catalog; invariant kept, so the clamp never yields 0 |
| `PlaceOrder.PlaceOrderScreen.OnQuantityTextChange` | app/orders/place.tsx:240-243 | the text is read with `parseInt(text) || 0` and handed to the quantity editor |
| `PlaceOrder.PlaceOrderScreen.HandlePlaceOrder` | app/orders/place.tsx:113-124 | returns the guard outcome with its alert message; a rejection leaves the placing flag as it was, a submission sets it |

## Left out

- The punch clock of the dashboard (`app/(tabs)/dashboard.tsx:10-33`): a separate screen whose toggle is held only in React state and stamped with the device clock; it has no bearing on the order cart, so it is not part of this model.
- The simulated submission after the guards pass (a 1.5 s timer that clears the placing flag, navigates and alerts, place.tsx:126-133). The model stops once the placing flag is set.
- Rendering, styles, icons and navigation in `place.tsx`, and the `alert` pop-ups (the rejection message is returned instead).
- `toLocaleString` on the total (place.tsx:272): a locale library call; the model gives the number.
- The other files (`services/api.ts`, `app/auth/AuthContext.tsx`, `app/orders/my-orders.tsx`, components, tab screens, configuration): network, storage and presentation.
- React's batching of state updates and stale closures: each handler is modelled as one atomic update of the current state.
- Prices, quantities and totals are JavaScript numbers (doubles). The model uses unbounded integers, which agree with them up to 2^53.
- ParseInt: a digit run longer than double precision would be rounded by JavaScript; the model keeps the exact value.
- ToLower: only ASCII capitals are lowered. JavaScript lowers all Unicode letters, sometimes changing the length. Every catalog name is ASCII, but the query is typed by the user: a query holding a non-ASCII capital that JavaScript lowers to ASCII (U+212A KELVIN SIGN becomes "k") matches "Krishi Kendra" in the app and nothing in the model.
- IntToString: JavaScript writes integers of 10^21 and above in exponent notation; the model always writes plain decimal.
- The "+" button on a cart line (place.tsx:249) is a plain quantity-editor call with quantity + 1. `Cart.UpdateQuantityClamps` and `Cart.PlusAtOrAboveStockSetsStock` cover it, so it has no handler of its own.
