# Marketplace pricing and checkout, modelled in Dafny

This project models the pricing and settlement code of a desktop storefront
(`main.py`). The sqlite tables become in-memory state:

- `products`: a map from product id to a row with its category, seller, base price and stock.
- `promotions`: a sequence of rows with id, name, discount percent and validity window.
- `promotion_items`: a set of (promotion id, product id) pairs.
- `sales`: an append-only sequence of sale rows.
- `categories`: a map from name to id.

There are three parts.

- **Pricing** (`pricing.dfy`, module `Pricing`). This is the promotion lookup. Among the promotions linked to a product whose window holds the instant `t` (bounds inclusive), it takes the one with the largest discount. The price is `base * (1 - d/100)`, or `base` when no promotion applies. The earlier definition, which asks the store for the maximal discount instead, gives the same price.
- **The cart and checkout** (`settlement.dfy`, module `Settlement`, and the class `Marketplace.ShoppingCart` in `marketplace.dfy`). The cart is a sequence of lines. `Settle` specifies checkout. It works through the lines in cart order against a working copy of the stock, and each line sees the decrements of the lines before it. `ShoppingCart.Checkout` runs that loop inside one transaction. It commits all the sales and stock decrements, or on a shortfall it leaves the store and the cart as they were.
- **Table maintenance** (`validation.dfy` and the class `Marketplace.Database`). This covers promotion creation and its checks, assigning or removing a product's promotions, the category lookup-or-insert, and the price and quantity checks of the two product forms. `Database.Valid()` is the store invariant, and every method keeps it. It says base prices are positive, stock is never negative, promotion windows are ordered, discounts are in 0..99, and ids are distinct.

Units. Instants are integers. The stored `"yyyy-MM-dd HH:mm:ss"` strings sort lexically in chronological order, so integers stand for them. Base prices are integer cents. Effective prices and sale prices are in hundredths of a cent, so `base * (100 - d)` is exact. The code never rounds a price, and neither does the model.

`scenarios.dfy` holds concrete cases: one promotion, overlapping promotions, inclusive window bounds, a checkout that uses up a product's whole stock, a shortfall, and duplicate lines checked cumulatively.

## Model

| member | source | states |
|---|---|---|
| `Pricing.Applies` | main.py:1130-1131 | a promotion applies to a product at t exactly when the pair links them and t lies in its window, both ends included |
| `Pricing.DiscountedPrice` | main.py:1150 | with 0 <= d < 100 and base > 0 the price is positive and at most the base; with d > 0 it is strictly lower; with d = 0 it is the base |
| `Pricing.DiscountedPriceAntitone` | main.py:1150 | a larger discount never gives a higher price |
| `Pricing.FindApplicablePromotion` | main.py:1126-1136 | the promotion returned is in the table, linked to the product, and valid at t (inclusive); no applicable promotion has a larger discount; none is returned exactly when no promotion applies |
| `Pricing.MaxApplicableDiscount` | main.py:139-142 | SQL MAX over the applicable promotions: NULL exactly when none applies; otherwise a discount some applicable promotion has, and no applicable promotion exceeds it |
| `Pricing.MaxDiscountForProduct` | main.py:135-147 | the maximal discount, 0 when nothing applies; it lies in 0..99 when the table's CHECK constraint holds |
| `Pricing.EffectivePrice` | main.py:1138-1155 | the price is the base reduced by the maximal applicable discount (the base if none applies); for a positive base it is positive and at most the base |
| `Pricing.DiscountedPriceByMaxDiscount` | main.py:149-163 | the earlier pricing definition, which this one rebinds, gives the same price |
| `Pricing.TieBreakIrrelevant` | main.py:1130-1132 | whichever maximal applicable promotion the unordered tie picks, the price is the same |
| `Pricing.EffectivePriceIsBest` | main.py:1130-1132 | the effective price is at most the price under any single applicable promotion |
| `Validation.LeadingSpace` | main.py:1956 | the count of leading characters cut: all of them are whitespace, and the next character, if any, is not |
| `Validation.TrimmedEnd` | main.py:1956 | the length kept at the end: every character after it is whitespace, and the last character kept is not |
| `Validation.Strip` | main.py:1956 | the trimmed name has no whitespace at either end, and it is empty exactly when the input is all whitespace |
| `Validation.StripIsSlice` | main.py:1956 | the trimmed name is the slice of the input that starts after the leading whitespace, and every character cut from either side is whitespace |
| `Validation.CheckPromotion` | main.py:1962-1977 | a promotion is accepted exactly when its trimmed name is non-empty, start <= end and now <= end; otherwise it reports the first failing check, in the dialog's order |
| `Validation.ValidateInput` | main.py:2036-2055 | the form is accepted exactly when both fields parse and price > 0 and quantity > 0; a bad price is reported before a bad quantity |
| `Settlement.CartTotal` | main.py:1248-1251 | the sum, in line order, of each line's effective price times its quantity; 0 for an empty cart (its laws are the three rows below) |
| `Settlement.Without` | main.py:1238-1240 | no line for the product is left; the lines kept come from the input; every other product's requested quantity is unchanged; a cart without the product is returned as is |
| `Settlement.WithoutAppend` | main.py:1240 | the filter distributes over concatenation, so the kept lines stay in their original order |
| `Settlement.WithoutIdempotent` | main.py:1238-1240 | removing a product twice is the same as removing it once |
| `Settlement.WithoutCommutes` | main.py:1238-1240 | removing two products in either order gives the same cart |
| `Settlement.CartTotalAppend` | main.py:1246-1252 | the total of two carts placed end to end is the sum of their totals |
| `Settlement.CartTotalPositive` | main.py:1246-1252 | the total of an empty cart is 0; with positive base prices and quantities, a non-empty cart's total is positive |
| `Settlement.CartTotalWithout` | main.py:1238-1252 | removing a product takes exactly its effective price times its total requested quantity off the cart total |
| `Settlement.SaleFor` | main.py:1270-1282 | the sale of one line records the line's product and quantity, the buyer and the settlement instant; its price is the one set by the promotion it records (I1) |
| `Settlement.SaleAsWritten` | main.py:1270-1282 | the sale as the loop builds it from three clock readings (promotion id, price, and the `sale_date` column default of main.py:40); when the readings coincide it is the sale of `SaleFor` |
| `Settlement.Settle` | main.py:1263-1285 | the checkout loop as a function over a working stock, taking the lines in cart order; a settled checkout keeps exactly the catalog's products; that the first shortfall fails it and that every line otherwise yields one sale and one decrement are the `SettleSucceedsIff`, `SettleFailureNamesFirstShortfall`, `SettleSales` and `SettleStock` rows |
| `Settlement.Decrement` | main.py:1285 | the line's product loses exactly the line's quantity of stock; its other columns and every other product are unchanged |
| `Settlement.SettleStock` | main.py:1263-1285 | on success each product's stock drops by the sum of its lines' quantities, and no other column changes |
| `Settlement.SettleLeavesNoNegativeStock` | main.py:1265-1268 | on success every product a line asked for is left with stock >= 0 |
| `Settlement.SettlePreservesCatalog` | main.py:1263-1285 | settling keeps positive base prices and non-negative stock, and changes nothing but the stock |
| `Settlement.SettleSales` | main.py:1270-1282 | on success exactly one sale is recorded per line, in cart order, each the sale of that line priced against the catalog at the start |
| `Settlement.SettledSalesPriced` | main.py:1270-1282 | every recorded sale carries the buyer and the settlement instant, and is priced by the maximal promotion it records, or at the base price when it records none (I1) |
| `Settlement.SoldForLines` | main.py:1270-1282 | on success the sales record, per product, exactly the quantity the lines asked for |
| `Settlement.SettleConservesStock` | main.py:1280-1285 | on success each product's stock decrement equals the quantity its new sales record |
| `Settlement.SettleSucceedsIff` | main.py:1263-1268 | checkout succeeds exactly when every line's quantity is at most the stock left after the earlier lines' decrements |
| `Settlement.SettleFailureNamesFirstShortfall` | main.py:1265-1268 | a failed checkout reports the first line that does not fit, with the stock left for it and the quantity it asked for (and, as the model's addition, its product) |
| `Marketplace.AssignPromotion` | main.py:1837-1842 | with a promotion selected the pair is in the link set and nothing else changes; with no promotion selected, exactly the product's pairs are removed |
| `Marketplace.NoPromotionMeansBasePrice` | main.py:1837-1838 | after "no promotion" the product's effective price is its base price |
| `Marketplace.AssignPromotionKeepsOthers` | main.py:1837-1842 | changing one product's links changes no other product's selected promotion |
| `Marketplace.Database.constructor` | main.py:10-53 | an empty store that satisfies the invariant |
| `Marketplace.Database.CreatePromotion` | main.py:1954-1987 | the checks decide; an accepted promotion is appended under a fresh id with its trimmed name; a refused one changes nothing; the invariant (ordered windows, discounts 0..99, distinct ids) is kept |
| `Marketplace.Database.ApplyPromotion` | main.py:1831-1842 | the link set becomes `AssignPromotion` of the old one; nothing else changes |
| `Marketplace.Database.GetOrCreateCategory` | main.py:2077-2094 | an existing name returns its id and changes nothing; a new name is inserted under a fresh id that no other category has |
| `Marketplace.Database.AddProduct` | main.py:2151-2169 | a refused form changes no table and no counter; an accepted one inserts the product under the next product id, which then goes up by one, in the category of the trimmed name: an existing name keeps the category table and its counter, a new name is added under the next category id, which goes up by one |
| `Marketplace.Database.SaveChanges` | main.py:2057-2075 | a refused form changes nothing; an accepted one looks up or creates the trimmed category exactly as `GetOrCreateCategory` does, also when the row is missing, then overwrites the row's category, price and quantity, and leaves a missing row missing |
| `Marketplace.ShoppingCart.constructor` | main.py:1230-1232 | a new cart for the buyer is empty |
| `Marketplace.ShoppingCart.AddItem` | main.py:1234-1236 | exactly one line is appended at the end, and the earlier lines are unchanged |
| `Marketplace.ShoppingCart.RemoveItem` | main.py:1238-1240 | the cart becomes `Without` of the old cart |
| `Marketplace.ShoppingCart.ClearCart` | main.py:1242-1244 | the cart is empty |
| `Marketplace.ShoppingCart.GetProductPrice` | main.py:1254-1256 | the price is the effective price, the base reduced by the maximal applicable discount |
| `Marketplace.ShoppingCart.GetTotalAmount` | main.py:1246-1252 | the accumulated total equals the sum over the lines of effective price times quantity |
| `Marketplace.ShoppingCart.Transact` | main.py:1258-1285 | the transaction's loop computes exactly `Settle` of the cart: the new stock and the sales, or the first shortfall |
| `Marketplace.ShoppingCart.Checkout` | main.py:1258-1289 | all or nothing. On success the store takes the settled stock, the sales are appended and the cart is emptied. On a shortfall the error is returned and the store and the cart are unchanged. The store invariant (stock >= 0) is kept |
| `Scenarios.OnePromotionApplies` | main.py:1138-1155 | 100.00 with a valid 20% promotion costs 80.00 |
| `Scenarios.LargestDiscountWins` | main.py:1130-1132 | with overlapping 10% and 30% promotions, the 30% one is chosen and 100.00 costs 70.00 |
| `Scenarios.WindowBounds` | main.py:1131 | a window holds both of its ends; a promotion that has not started, or is not linked, does not apply |
| `Scenarios.ExactStockSucceeds` | main.py:1263-1285 | buying the whole stock of one product plus some of another succeeds: two sales, stock 0 |
| `Scenarios.ShortfallFails` | main.py:1265-1268 | asking 3 with 2 in stock fails, with the 2 left and the 3 asked for (and the product id the model adds) |
| `Scenarios.DuplicateLinesAreCumulative` | main.py:1263-1268 | two lines of 3 against a stock of 5 fail on the second line, which sees 2 left |
| `Scenarios.TwoClockReadsBreakPricing` | main.py:1270-1277 | with the two clock readings on either side of a promotion's end, the sale records the promotion but charges the base price |

## Left out

- The PyQt6 windows and dialogs, the style sheet, navigation and message boxes are left out. They are UI code.
- The sqlite connections and the SQL text are left out; the tables are values. The commit at the end of checkout is read as "all or nothing": work happens on local copies, and the commit is the final write to the fields.
- Concurrency is left out. Two checkouts on separate connections are not isolated from each other, and a sequential model says nothing about overselling between sessions.
- Floating point is left out. Prices are exact integers, and no rounding rule is invented. The marketplace commission (0.006) and the seller's share (0.994) are not modelled, and neither are the `round`/`:.2f` display calls.
- Clock reads are left out. Every operation takes its instant as a parameter. The SQL lookup uses `datetime('now')` (UTC), while the earlier maximal-discount query and the promotion dialog use `datetime.now()` (local time); that difference is not modelled.
- `ShoppingCart.Checkout`: it uses one settlement instant for the promotion lookup, the price and `sale_date`. The source reads the clock separately for each of these; see Findings.
- `ShoppingCart.GetTotalAmount`: it prices every line at one instant. The source reads the clock once per line.
- `Pricing.FindApplicablePromotion`: ties between equal discounts come out in whatever order the store returns them. The model picks the earliest row. The price does not depend on the choice (`TieBreakIrrelevant`), but the recorded promotion id can.
- Missing products are left out. A lookup of a missing product fails with an incidental error, not a designed one, so every operation that reads a product requires the product to exist.
- Checkout returns no sale ids, because the code returns nothing.
- `Settlement.CheckoutError`: the shortfall error carries the product id as well as the stock left and the quantity asked for. The program's message (main.py:1268) names only the two numbers; the product id is the model's addition.
- `Settlement.SaleFor`: it stamps the sale at the settlement instant. The program leaves `sale_date` to the column default `CURRENT_TIMESTAMP` (main.py:40), a clock reading of its own at each insert.
- Authentication, registration, password hashing and profile checks are left out.
- Reviews and the read-only listings, searches and history windows are left out.
- Product titles and descriptions are left out. They are text columns that nothing in the core reads.
- `Validation.ValidateInput`: it takes the price as already parsed into whole cents. Text parsing is not modelled, and a positive price below one cent cannot be represented.
- `Validation.Strip`: it trims the six characters space, \t, \n, \v, \f and \r. Python's `strip` also trims U+001C to U+001F and the other Unicode whitespace.
- `Marketplace.Database.CreatePromotion`: it takes the discount spin box's range 0..99 (main.py:1929) as a precondition. The error branch of the dialog (main.py:1989-1991) is not modelled. That branch handles a failed insert, and it calls `traceback`, which the module never imports.
- `Marketplace.ShoppingCart.AddItem`: it takes the quantity spin box's range (main.py:1071) as the precondition `quantity > 0`. `add_item` itself checks nothing.

## Findings

| source | as written | input that shows it | evidently intended | confidence | as-written member | corrected member |
|---|---|---|---|---|---|---|
| main.py:1270-1277 | checkout reads the clock for the promotion id (`find_applicable_promotion`) and again for the price (`get_product_price` repeats the lookup) | a promotion valid until instant 100, with the first reading at 100 and the second at 101: the sale records that promotion but charges the full base price | one settlement instant for every pricing decision of a checkout, so the recorded promotion is the one that priced the sale | not executed; it needs the two readings to fall on either side of a window's end | `Scenarios.TwoClockReadsBreakPricing` | `Settlement.SaleFor` |
