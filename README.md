# Bike parts ledger — a Dafny model

This project models the bookkeeping core of a small spare-parts shop
manager. The shop keeps two ledgers: purchases (part, units, unit price,
date) and sales (part, units, sale price, date). From them it derives a stock view. There is
one entry per distinct part key `itemName|modelName|partNumber`. Each
entry holds the units left and the weighted-average purchase price. Four
dashboard totals are folds over the stock view and the sales: stock value,
units in stock, profit and sales value.

Around the stock view the model covers:

- the ledger handlers: save a purchase (replace by id, or append), delete
  purchases by id, append a sale;
- the sell form: which stock can be sold, which entry a key selects, the
  last price the part sold at, the form's effects, and the checks made
  before a sale is emitted;
- the delete-password gate: set a password once, then verify it on every
  deletion;
- the low-stock alert.

Modules, one per source component:

- `Types` (types.ts): the records and the stock key.
- `StockDeriver` (App.tsx 27-68):
  - `Stock` is a key-by-key reference definition.
  - `DeriveStock` is the source's own algorithm: a map filled by a purchase
    pass and a sale pass, then read out in insertion order. It is proved
    equal to `Stock`.
- `Totals` (App.tsx 121-148): the four totals and what they amount to in
  terms of the ledgers.
- `App` (App.tsx 70-111, 259-266): the handlers, as pure functions and as
  methods of the class `AppState`.
- `SellForm` (components/SellForm.tsx): derived values as functions, the
  form state as the class `SellFormState`.
- `ConfirmDelete` (components/ConfirmDeleteModal.tsx): the decision as the
  function `Judge`, the modal state as the class `DeleteGate`.
- `LowStock` (components/LowStockWarning.tsx).
- `Scenarios`: worked cases on small ledgers.
- `Sequences`, `Wrappers`: `filter` and an option type.

Conventions:

- Money is an exact `real`.
- Quantities are unbounded integers.
- A date is an integer day number.
- Ids are opaque strings supplied by the caller.

## Model

| member | source | states |
|---|---|---|
| Types.KeyAgreesWithPart | App.tsx:38-46 | when no field contains '\|', two parts get the same stock key exactly when their three fields are equal |
| Types.KeyCollision | App.tsx:38 | two different parts ("a\|b","c","d") and ("a","b\|c","d") produce the same stock key |
| StockDeriver.KeysOf | App.tsx:37-51 | the stock keys have no duplicates |
| StockDeriver.KeysOfListsPurchaseKeys | App.tsx:37-51 | a key is in the stock exactly when some purchase carries it; sales never add a key |
| StockDeriver.KeysInFirstAppearanceOrder | App.tsx:37-61 | keys come out in the order their first purchase appears (Map insertion order) |
| StockDeriver.FirstWithKey | App.tsx:39-46 | the purchase that supplies an entry's fields exists exactly for listed keys and carries that key |
| StockDeriver.FirstWithKeyIsEarliest | App.tsx:39-46 | that purchase is the earliest purchase with the key |
| StockDeriver.Entries | App.tsx:61-67 | one read-out entry per key, each the accumulated value of that key |
| StockDeriver.Stock | App.tsx:27-68 | one entry per distinct purchase key, in key order; for each entry: quantity = units bought minus units sold under its key; price = weighted-average cost; fields from the first purchase with the key |
| StockDeriver.AbsentKeyBoughtNothing | App.tsx:39-49 | a key no purchase carries has bought no units and cost nothing |
| StockDeriver.FoldPurchases | App.tsx:37-51 | the purchase pass leaves the map holding, for each key in first-appearance order, the units, cost and first-purchase fields of that key |
| StockDeriver.SubtractSales | App.tsx:53-59 | the sale pass lowers each listed key by the units sold under it; sales with an unknown key are dropped |
| StockDeriver.ReadOut | App.tsx:61-67 | reading the map out in insertion order gives the entries of the keys, average 0 when no unit was bought |
| StockDeriver.DeriveStock | App.tsx:27-68 | the source's two-pass fold returns exactly the reference stock view `Stock` |
| StockDeriver.AppendSale | App.tsx:53-59 | one more sale lowers only the entry with the sale's key, by the sale's units; an orphan sale changes nothing |
| StockDeriver.TalliesConcat | App.tsx:47-49 | units and cost per key add up over concatenated ledgers |
| StockDeriver.PermutationKeepsTallies | App.tsx:47-49 | units and cost per key do not depend on purchase order |
| StockDeriver.AveragePermutationInvariant | App.tsx:47-66 | reordering purchases changes neither the set of keys nor any average price |
| StockDeriver.CostWithinPriceRange | App.tsx:48 | if every purchase of a key has a unit price in [lo, hi] and a non-negative quantity, the key's cost is between lo and hi times its units |
| StockDeriver.AverageWithinPriceRange | App.tsx:66 | if every purchase of a key has a unit price in [lo, hi] and a non-negative quantity, and the key bought at least one unit, its average price lies in [lo, hi] |
| StockDeriver.ToStockItem | App.tsx:61-67 | an entry keeps the accumulated units and part fields; with a positive unit count its price times that count is the accumulated cost, otherwise its price is 0 |
| Totals.TotalStockValue | App.tsx:121-123 | totalStockValue is not negative while no entry has a negative quantity or price |
| Totals.TotalItemsInStock | App.tsx:125-127 | while no entry has a negative quantity, totalItemsInStock is not negative and is at least every entry's quantity |
| Totals.TotalProfit | App.tsx:129-144 | sales that find no stock entry earn nothing, so a ledger of only such sales has profit 0; while no sale has a negative quantity or a price below the average cost of the entry it finds, the profit is not negative |
| Totals.TotalSalesValue | App.tsx:146-148 | totalSalesValue is not negative while no sale has a negative quantity or price |
| Totals.FindByPart | App.tsx:131-135 | finds the first stock entry whose three fields equal the part, and none exactly when no entry matches |
| Totals.TotalItemsMatchesLedgers | App.tsx:125-127 | totalItemsInStock = units bought minus units sold by sales whose key has a purchase |
| Totals.EntriesItems | App.tsx:125-127 | the units of any set of listed keys are the units bought minus sold under them |
| Totals.KeysCoverPurchases | App.tsx:37-51 | summed over the stock keys, the per-key tallies give back all units bought and the whole cost |
| Totals.KeysCoverSales | App.tsx:53-59 | summed over distinct keys, per-key sales give back the units sold under those keys |
| Totals.EntriesValue | App.tsx:121-123 | with no sales, and when every listed key is a stock key that bought a positive number of units, the value of the listed entries is what was paid for their keys |
| Totals.UnitsTimesAverage | App.tsx:66 | for an entry whose units equal the key's positive number of units bought (no sales under the key) and whose price is the key's average, units times price is the key's total cost |
| Totals.StockValueWithoutSales | App.tsx:121-123 | with positive purchase quantities and no sales, totalStockValue equals the total paid for all purchases |
| Totals.ListedKeyBoughtSomething | App.tsx:47-49 | with positive purchase quantities, every listed key has bought units |
| Totals.FindInStock | App.tsx:131-135 | an entry found for a sale carries the sale's key and its average price; with no separators, an entry is found exactly when the key was bought |
| Totals.OneSaleAgrees | App.tsx:137-142 | with no separators, one sale earns (price − average cost) × units when its key was bought, else nothing |
| Totals.ProfitAgreesWithStockKeys | App.tsx:129-144 | with no separators, totalProfit = Σ (salePrice − average cost) × units over sales whose key was bought |
| Totals.OrphanSaleEarnsNothing | App.tsx:137-143 | a sale of a part no purchase has adds nothing to totalProfit |
| Totals.SalesValueConcat | App.tsx:146-148 | totalSalesValue adds up over concatenated sale ledgers |
| App.IndexOfId | App.tsx:72 | findIndex: the first position holding the id, or none when no record has it |
| App.WithPurchaseSaved | App.tsx:70-79 | a known id replaces the first record with it, same length, every other position unchanged; an unknown id is appended |
| App.WithoutPurchase | App.tsx:95-97 | no record with the id remains; the result is a subsequence of the ledger (relative order kept), and every record without the id occurs as often as before |
| App.SaveIsIdempotent | App.tsx:70-79 | saving the same purchase twice equals saving it once |
| App.SaveKeepsIdsUnique | App.tsx:70-79 | saving keeps ids unique |
| App.DeleteAbsentIsNoop | App.tsx:96 | deleting an id that does not occur changes nothing |
| App.DeleteUniqueRemovesOne | App.tsx:96 | when no other record has its id, deleting that id removes exactly that one record |
| App.SaveThenDeleteRestores | App.tsx:70-96 | saving a new purchase and then deleting its id gives back the ledger |
| App.SaveAdjustsTallies | App.tsx:70-79 | an append adds the purchase's units and cost to its key; an edit swaps the old record's units and cost for the new one's |
| App.DeleteAdjustsTallies | App.tsx:95-97 | when no other record has its id, deleting a record takes its units and cost out of its key |
| App.AppState.CurrentStock | App.tsx:27-68 | the stock view has one entry per distinct purchase key |
| App.AppState.SavePurchase | App.tsx:70-81 | the ledger becomes the saved ledger; sales and password unchanged |
| App.AppState.DeletePurchase | App.tsx:95-97 | the ledger loses the id's records; sales and password unchanged |
| App.AppState.SaveSale | App.tsx:109-111 | the sale is appended exactly once; nothing else changes |
| App.AppState.ConfirmDeletion | App.tsx:259-266 | a password set in the gate is stored; the pending id is deleted only when the gate accepts and the id is present and non-empty |
| ConfirmDelete.IsSettingPassword | components/ConfirmDeleteModal.tsx:26 | the gate is in setting mode exactly when the stored password is empty (an absent password is the empty string) |
| ConfirmDelete.Judge | components/ConfirmDeleteModal.tsx:26-56 | accepted exactly when (setting mode) the new password has 4+ characters and matches its confirmation, or (verify mode) the typed password equals the stored one; the length error comes before the mismatch error; "Incorrect password." otherwise; only a set returns a password to store, and it has 4+ characters |
| ConfirmDelete.SetThenVerify | components/ConfirmDeleteModal.tsx:26-54 | after a successful set the gate is in verify mode and accepts exactly the password that was set |
| ConfirmDelete.DeleteGate.OnOpenChange | components/ConfirmDeleteModal.tsx:28-33 | clears all three password fields and the error |
| ConfirmDelete.DeleteGate.HandleConfirm | components/ConfirmDeleteModal.tsx:35-56 | on rejection sets the verdict's error, saves nothing and confirms nothing; on acceptance hands back the password to save and confirms |
| LowStock.LowStockItems | components/LowStockWarning.tsx:9 | every listed entry has quantity below 5 |
| LowStock.LowStockMembership | components/LowStockWarning.tsx:9 | an entry is listed exactly when it is in stock with quantity below 5 |
| LowStock.LowStockKeepsOrder | components/LowStockWarning.tsx:9 | the list is a subsequence of the stock and keeps every low entry's multiplicity |
| LowStock.NonPositiveIsLow | components/LowStockWarning.tsx:9 | entries with zero or negative quantity are always listed |
| LowStock.ShowsWarning | components/LowStockWarning.tsx:11-13 | the alert shows exactly when some entry has quantity below 5 |
| SellForm.NatToStringRoundTrip | components/SellForm.tsx:60-80 | the decimal rendering of a count in the error texts reads back as that count |
| SellForm.IntToString | components/SellForm.tsx:60-80 | a count, negative ones included, renders as digits with at most a leading '-', and reads back as that count |
| SellForm.OnlyInStockMessage | components/SellForm.tsx:60 | the text starts "Only " and ends " items in stock.", and what lies between reads back as the entry's units |
| SellForm.CannotSellMessage | components/SellForm.tsx:80 | the text starts "Cannot sell " and ends " in stock."; between them the requested quantity, ", only " and the entry's units, each reading back as its count |
| SellForm.AvailableStock | components/SellForm.tsx:20 | every available entry has positive quantity; the list is a subsequence of the stock, and each entry with positive quantity occurs as often as in the stock, the others not at all |
| SellForm.AvailableStockExactly | components/SellForm.tsx:20 | an entry is available exactly when it is in stock with positive quantity |
| SellForm.FindByKey | components/SellForm.tsx:22-24 | the first entry whose stock key equals the key, none when no entry has it |
| SellForm.SelectedItem | components/SellForm.tsx:22-24 | a key selects an entry exactly when some entry with that key has positive quantity, and the selection is such a stock entry |
| SellForm.LatestSale | components/SellForm.tsx:29-39 | none exactly when no sale has the part; otherwise a sale of the part with the greatest date, the earliest recorded among ties |
| SellForm.LastSalePrice | components/SellForm.tsx:26-41 | no price without a selection or without a sale of the selected part; otherwise the price of a sale of that part with the greatest date |
| SellForm.Submitted | components/SellForm.tsx:73-94 | emits a sale exactly when something is selected and the quantity does not exceed its units; "Please select an item." / "Cannot sell Q, only N in stock." otherwise; the sale copies the entry's part and takes id, quantity, price and date from the form |
| SellForm.SaleFromFormKeepsStock | components/SellForm.tsx:79-92 | a sale emitted against the derived stock has a purchased key, leaves its entry with zero or more units, and finds an entry for the profit |
| SellForm.SellFormState.OnOpenChange | components/SellForm.tsx:43-56 | closing resets key, quantity 1, price 0, date and error; opening with no key selects the first available entry |
| SellForm.SellFormState.SyncError | components/SellForm.tsx:58-64 | the error is non-empty exactly when a selected entry has fewer units than the quantity, and then reads "Only N items in stock." |
| SellForm.SellFormState.SyncSalePrice | components/SellForm.tsx:66-70 | selecting an entry sets the price to its average cost; otherwise the price is kept |
| SellForm.SellFormState.Submit | components/SellForm.tsx:73-94 | returns the emitted sale and keeps the error, or returns nothing and shows the refusal |
| Scenarios.SinglePurchase | App.tsx:27-123 | ten units at 100 give one entry of ten at 100, worth 1000 |
| Scenarios.TwoPurchasesAverage | App.tsx:47-66 | ten at 100 and ten at 200 give twenty at 150 |
| Scenarios.SaleAgainstStock | App.tsx:53-144 | ten bought at 100 and four sold at 150 leave six at 100 and a profit of 200 |
| Scenarios.OrphanSale | App.tsx:53-144 | a sale with no purchase adds no entry and no profit |
| Scenarios.SeparatorMergesParts | App.tsx:38-135 | parts that differ only in where a '\|' falls share one entry, but the second part's sale finds no entry and earns nothing |
| Scenarios.DeleteOnePurchase | App.tsx:96 | deleting one of two purchases by id leaves the other and its units |

## Left out

- Rendering, CSS, navigation and the modal open flags: these are presentation only.
- The `useLocalStorage` persistence is not part of this model. The ledgers and the stored password are plain fields of `AppState`.
- React scheduling (`useMemo`, `useCallback`, effect dependencies) is not modelled. Each memo is a function of its inputs. Each effect is a method the caller invokes.
- The order of effects within a render is not modelled.
- The close callbacks (`onClose`) are not modelled. Closing is `OnOpenChange(false)` on the form and `OnOpenChange()` on the gate.
- JavaScript `number` is not modelled: no IEEE-754 rounding, no `toFixed(2)` display.
  - Prices are exact reals.
  - Quantities are integers, so a fractional or `NaN` quantity typed into the form is not covered.
- Date strings and `new Date(...).getTime()` are not modelled. Dates are integer day numbers, so invalid dates (a `NaN` comparator) are not covered.
- Ids come from `new Date().toISOString()` in the source. Here they are parameters.
- HTML input constraints (`min`, `max`, `required`) are enforced by the browser, not by the handlers, and are not modelled.
- Text length:
  - The password length check counts characters.
  - JavaScript counts UTF-16 code units.
  - The two differ only for characters outside the Basic Multilingual Plane.
- The input setters (field plumbing of the forms) are not methods. They are direct assignments to the public fields of the classes.
- The `.sort` in the lists is not modelled, and neither is its in-place reordering of the ledger arrays. The files components/PurchaseList.tsx, components/SellList.tsx, components/StockList.tsx and components/PurchaseForm.tsx are not part of this model.
- The password is stored in plain text. No security property is claimed for the gate.
- App.WithPurchaseSaved: `handleSavePurchase` copies the array and assigns one slot. This is modelled as a sequence update, with no aliasing.
- Id uniqueness is not enforced by the source. It appears only as a precondition of the lemmas that need it.
- Totals.UnitsTimesAverage: promises that units times average gives back the cost paid only while nothing was sold under the key. With sales an entry is worth the units left times the average, not the cost paid; `StockValueWithoutSales` is stated for the no-sales case only.
- SellForm.LatestSale: ties on the greatest date resolve to the earliest recorded sale. This relies on `Array.prototype.sort` being stable, which ECMAScript requires.
