# Candy shop stock engine — a Dafny model

This is a model of the stock core of a candy shop backend. The shop sells two kinds of things:

- **3-packs**: three pieces chosen by recipe (e.g. "3 × Red Twist", or "Watermelon, Cherry, Berry Delight") at a fixed 27.00.
- **Ordinary products**: these have a price, a stock counter and a list of flavors.

Each flavor has an inventory row with three counters: `onHand`, `reserved` and `safetyStock`.

- When a 3-pack enters a cart, it *reserves* `item.quantity × packs` units of each flavor in its recipe.
- Changing the line's quantity reserves or releases the difference.
- Removing the line, or clearing the cart, releases the units, never going below zero.
- Sellable stock is `onHand − reserved − safetyStock`.

Administrators maintain:

- the flavor registry: names, aliases, an active flag;
- the inventory rows: one at a time or in bulk, plus a low-stock report;
- the product catalogue: create, update and delete, with each product's flavor links resolved from names or aliases.

Checkout turns either a list of direct order items or the user's generic cart into an order, then decrements product stock.

## Modules and files

| file | module | what it holds |
|---|---|---|
| `wrappers.dfy` | `Wrappers` | `Option`, `Result` |
| `text.dfy` | `Text` | `trim`, digit strings, split and join, ASCII case-insensitive equality, the string order |
| `tables.dfy` | `Tables` | the entities and the `Store` class that holds every table the handlers read and write |
| `ledger.dfy` | `Ledger` | availability figures and the two ways a run of per-flavor writes can land: a snapshot (last write wins) or cumulative |
| `sku.dfy` | `Sku` | `generateSKU` and its decoder |
| `three_pack_cart.dfy` | `ThreePackCart` | add, update, remove, clear and view of 3-pack cart lines |
| `cart_laws.dfy` | `CartLaws` | what those cart operations promise |
| `three_pack.dfy` | `ThreePack` | the 3-pack product and its variants, the availability check, the flavor registry |
| `inventory_admin.dfy` | `InventoryAdmin` | inventory views, single and bulk updates, low-stock alerts |
| `orders.dfy` | `Orders` | checkout |
| `products.dfy` | `Products` | product create, update and delete, flavor resolution, pagination arithmetic |

How the model represents the source:

- Handlers that write the database are methods on a `Tables.Store`. Each method frames exactly the fields it may change.
- Each method's `ensures` ties the new tables to pure functions of the old ones. The promises of the handlers are proved about those functions as lemmas.
- Money is in integer cents.
- A JavaScript-falsy body field is modelled as `""`, `None` or `0`, whichever the handler's `!x` test sees.
- A failed Prisma write, or a `TypeError` that the handler's `catch` turns into a 500, is an `Internal` (or `RowMissing`) error. An error changes nothing.
- Clocks, random numbers and generated ids are parameters.

## Model

| member | source | states |
|---|---|---|
| `Ledger.WrittenAt` | src/controller/threePackCartController.ts:468-480 | writes computed from rows loaded once leave each row at the value of the last write to its flavor, and leave untouched rows as they were |
| `Ledger.ItemWritesEffect` | src/controller/threePackCartController.ts:181-191 | with distinct recipe flavors, the writes of one request set each recipe flavor's `reserved` to `snapshot ± quantity × n`, clamped on release; other rows stay as loaded |
| `Ledger.ReleaseKeepsSound` | src/controller/threePackCartController.ts:418-428 | releases clamped at zero keep every row sound |
| `Ledger.ReserveKeepsSound` | src/controller/threePackCartController.ts:103-120 | reserving amounts that passed the `available < required` test keeps every row sound |
| `Ledger.AccumulatedReleaseAt` | src/controller/threePackCartController.ts:468-480 | cumulative releases subtract the flavor's total, clamped once at zero |
| `Ledger.AccumulatedReleaseKeepsSound` | src/controller/threePackCartController.ts:468-480 | cumulative clamped releases keep every row sound |
| `Ledger.AccumulatedUntouched` | src/controller/threePackCartController.ts:468-480 | a cumulative run of writes leaves rows it never targets unchanged |
| `Ledger.WrittenIsAccumulated` | src/controller/threePackCartController.ts:468-480 | when no flavor is written twice, the snapshot writes and the cumulative writes give the same table |
| `Ledger.ReserveThenRelease` | src/controller/threePackCartController.ts:181-191 | releasing exactly what a request reserved gives every row back |
| `Sku.KindCodeIsCode` | src/controller/threePackCartController.ts:7-37 | every kind code is three upper-case letters |
| `Sku.FlavorCodeIsCode` | src/controller/threePackCartController.ts:7-37 | every flavor code, including "UNK", is a non-empty run of upper-case letters |
| `Sku.SuffixOnlyWhenRepeated` | src/controller/threePackCartController.ts:7-37 | a component carries `x<count>` exactly when the flavor counts more than once |
| `Sku.ComponentHasNoDash` | src/controller/threePackCartController.ts:31-34 | a component never contains `-`, so the `-` join can be split back |
| `Sku.DecodeComponentOf` | src/controller/threePackCartController.ts:31-34 | a component reads back as its flavor code and its count (1 when there is no `x` suffix) |
| `Sku.DecodeComponentsOf` | src/controller/threePackCartController.ts:31-36 | the item components read back as every item's flavor code and count, in recipe order |
| `Sku.DecodeGenerate` | src/controller/threePackCartController.ts:7-37 | round trip: decoding a generated SKU gives back the kind code and each item's flavor code and count, in recipe order |
| `Sku.SeedSkuTraditionalRedTwist` | prisma/seed-products.ts:73 | the generator agrees with the seeded SKU "3P-TRD-REDx3" |
| `Sku.SeedSkuSourWatermelonCherryBerry` | prisma/seed-products.ts:99 | the generator agrees with the seeded SKU "3P-SOR-WAT-CHE-BERDEL" |
| `Text.ParseNatToString` | src/controller/threePackCartController.ts:33 | the decimal text of a count parses back to that count |
| `Text.SplitJoin` | src/controller/threePackCartController.ts:36 | parts without the separator, joined by it, split back into the same parts |
| `Text.TrimIdempotent` | src/controller/productController.ts:8 | trimming twice is trimming once |
| `Text.TrimEmptyIffBlank` | src/controller/threePackController.ts:229 | a name trims to empty exactly when it is blank |
| `Tables.FindRecipe` | src/controller/threePackCartController.ts:67-80 | `findUnique` on recipe id: a found recipe has that id and is stored |
| `ThreePackCart.FirstProblem` | src/controller/threePackCartController.ts:103-120 | the stock loop stops at the first recipe item with no row or too little sellable stock, and at no earlier one |
| `ThreePackCart.FindProblem` | src/controller/threePackCartController.ts:103-120 | the loop returns exactly `FirstProblem` of the current inventory and writes nothing |
| `ThreePackCart.FindLine` | src/controller/threePackCartController.ts:126-133 | the position of a line of this user, product and recipe; `None` exactly when there is no such line |
| `ThreePackCart.WriteRows` | src/controller/threePackCartController.ts:181-191 | the new inventory is `Written(old, writes)`: each write reads the row as it was loaded |
| `ThreePackCart.AccumulateRows` | src/controller/threePackCartController.ts:468-480 | the new inventory is `Accumulated(old, writes)`: each write reads the current row |
| `ThreePackCart.CheckAdd` | src/controller/threePackCartController.ts:45-120 | the handler's checks, in their order, give exactly the `ValidateAdd` verdict, and write nothing |
| `ThreePackCart.ReserveLine` | src/controller/threePackCartController.ts:123-191 | once the checks pass: the line is merged or appended as `AddLine` says, the reservations are `Written` from the loaded rows, and store facts are kept |
| `ThreePackCart.AddToCart` | src/controller/threePackCartController.ts:40-210 | validation error ⇒ nothing changes; otherwise the line is merged or appended as `AddLine` says, and the reservations are `Written` from the loaded rows; store facts are kept |
| `ThreePackCart.CheckUpdate` | src/controller/threePackCartController.ts:270-320 | the quantity check, the owner lookup and the increase-only stock loop give exactly the `ValidateUpdate` verdict, and write nothing |
| `ThreePackCart.UpdateCartLine` | src/controller/threePackCartController.ts:264-382 | a rejection changes nothing; otherwise the user's own line with that id gets the requested quantity and every other line stays, and the inventory gets exactly the difference writes |
| `ThreePackCart.FindOwnLine` | src/controller/threePackCartController.ts:277-283 | the position of the line with this id owned by this user; `None` exactly when the user has no such line |
| `ThreePackCart.ValidateUpdate` | src/controller/threePackCartController.ts:270-332 | an accepted update names the line with the requested id owned by the user, its recipe, and the requested quantity, which is at least 1 |
| `ThreePackCart.RemoveCartLine` | src/controller/threePackCartController.ts:385-433 | a rejection changes nothing; otherwise release `item.quantity × line.quantity` per recipe item, clamped at zero, then delete the line `ValidateRemove` names |
| `ThreePackCart.ValidateRemove` | src/controller/threePackCartController.ts:391-416 | an accepted remove names the line with the requested id owned by the user, and its recipe, whose flavors all have rows |
| `ThreePackCart.RemoveAt` | src/controller/threePackCartController.ts:431 | deleting one line keeps every other line, in order |
| `ThreePackCart.ClearCart` | src/controller/threePackCartController.ts:443-485 | as written: every release is computed from rows loaded once, then the user's lines are deleted and other users' lines kept in order |
| `ThreePackCart.ClearCartCorrected` | src/controller/threePackCartController.ts:443-485 | corrected clear: each release reads the current row; the user's lines are deleted |
| `ThreePackCart.UserLines` | src/controller/threePackCartController.ts:448-450 | exactly the user's lines, in storage order |
| `ThreePackCart.OtherLines` | src/controller/threePackCartController.ts:483-485 | exactly the other users' lines, in storage order |
| `ThreePackCart.Reverse` | src/controller/threePackCartController.ts:230 | `orderBy createdAt desc` on lines stored in creation order: element `i` is element `n−1−i` |
| `CartLaws.AddAccepted` | src/controller/threePackCartController.ts:46-120 | add succeeds exactly when: the fields are present; the product is "3-pack"; qty ≥ 1; the recipe exists, is active and sums to 3; every item has a row with enough sellable stock |
| `CartLaws.AddRejections` | src/controller/threePackCartController.ts:46-120 | the 400/404 answers of add in the handler's order; qty 0 counts as missing; a stock failure names the first failing item |
| `CartLaws.AddReserves` | src/controller/threePackCartController.ts:181-191 | with distinct flavors, a successful add raises each recipe flavor's `reserved` by `quantity × qty` and leaves every other row as it was |
| `CartLaws.AddLineMerges` | src/controller/threePackCartController.ts:123-178 | an existing (user, "3-pack", recipe) line grows, keeping its id and SKU; otherwise one new line at 27.00 is appended; never a second line for the triple |
| `CartLaws.AddKeepsSound` | src/controller/threePackCartController.ts:103-191 | an accepted add leaves sound rows sound |
| `CartLaws.UpdateWritesDifference` | src/controller/threePackCartController.ts:303-346 | an update writes only the quantity difference: nothing when unchanged, a reservation when the line grows, a clamped release when it shrinks |
| `CartLaws.UpdateAcceptedIff` | src/controller/threePackCartController.ts:270-320 | update succeeds exactly when `qty` ≥ 1, the user owns a line with that id, its recipe exists, and an increase passes the stock test for every item (a decrease needs only the rows) |
| `CartLaws.UpdateRejections` | src/controller/threePackCartController.ts:270-320 | absent or non-positive `qty` ⇒ 400; no line with that id owned by the user ⇒ 404, whoever owns it; a stock failure names the first item short of `quantity × difference` |
| `CartLaws.UpdateAccepted` | src/controller/threePackCartController.ts:304-320 | an accepted change has a row for each recipe item, and an accepted increase passed the stock test for every item |
| `CartLaws.ChangeWritesEffect` | src/controller/threePackCartController.ts:304-346 | the difference writes target existing rows; no change writes nothing; with distinct flavors, each recipe flavor gains `quantity × delta` or loses `quantity × |delta|` clamped at zero |
| `CartLaws.UpdateKeepsSound` | src/controller/threePackCartController.ts:306-346 | an accepted update leaves sound rows sound |
| `CartLaws.RemoveRejections` | src/controller/threePackCartController.ts:391-416 | remove succeeds exactly when the user owns a line with that id whose recipe exists and has every row; no such line ⇒ 404, whoever owns a line with that id |
| `CartLaws.RemoveDeletesOwnLine` | src/controller/threePackCartController.ts:395-431 | the deleted line is the user's own line with that id; every other line, each other user's included, stays; with unique ids none with that id remains |
| `CartLaws.RemoveKeepsSound` | src/controller/threePackCartController.ts:418-428 | remove leaves sound rows sound |
| `CartLaws.AddThenRemove` | src/controller/threePackCartController.ts:40-433 | round trip: adding a recipe the user has no line for, then removing that line, gives back the cart and every inventory row |
| `CartLaws.ClearKeepsSound` | src/controller/threePackCartController.ts:468-480 | clear leaves sound rows sound |
| `CartLaws.ClearCumulativeWhenDistinct` | src/controller/threePackCartController.ts:468-480 | when no flavor is written twice, the clear as written equals the corrected clear |
| `CartLaws.ClearCorrectedReleasesTotal` | src/controller/threePackCartController.ts:468-480 | the corrected clear takes from each row the total that the user's lines held of that flavor, clamped once at zero |
| `CartLaws.LostUpdateWrites` | src/controller/threePackCartController.ts:448-480 | in the two-line example, both lines belong to the user and the clear writes F 3, F 1, G 2 in that order |
| `CartLaws.LostUpdateWrittenF` | src/controller/threePackCartController.ts:468-480 | releasing those writes from the loaded rows leaves F at 4 − 1 = 3 |
| `CartLaws.LostUpdateWrittenG` | src/controller/threePackCartController.ts:468-480 | G's single release takes both reserved units |
| `CartLaws.LostUpdateAccumulatedF` | src/controller/threePackCartController.ts:468-480 | releasing those writes one after another takes all four from F |
| `CartLaws.ClearLostUpdate` | src/controller/threePackCartController.ts:468-480 | with lines [F:3] and [F:1, G:2] and F reserved 4, the clear as written leaves F at 3 while the corrected clear leaves it at 0 |
| `CartLaws.UserLinesViewable` | src/controller/threePackCartController.ts:213-256 | when every line is backed, each of the user's lines has its recipe, so the newest-first view exists |
| `CartLaws.UserCartTotals` | src/controller/threePackCartController.ts:213-256 | the view lists the user's lines newest first; `total_items` counts lines; `cart_total` sums `quantity × unitPrice` |
| `CartLaws.FixedPriceCart` | src/controller/threePackCartController.ts:92-100 | at the fixed price, the cart total is 27.00 per pack: one line of two packs shows 1 item and 54.00 |
| `ThreePack.Entry` | src/controller/threePackController.ts:127-157 | an availability item requires `quantity × qty`; a flavor without a row reports zeros |
| `ThreePack.Entries` | src/controller/threePackController.ts:125-157 | one availability entry per recipe item, in recipe order |
| `ThreePack.FirstFailing` | src/controller/threePackController.ts:160-165 | the first entry whose sellable stock is below the requirement; `None` exactly when every entry passes |
| `ThreePack.CheckAvailability` | src/controller/threePackController.ts:96-179 | missing `recipe_id` ⇒ 400; unknown recipe ⇒ 404; otherwise one entry per item; purchasable exactly when every item passes; the limiting factor is the first failing item |
| `ThreePack.AvailabilityAgreesWithAdd` | src/controller/threePackController.ts:160-165 | on a stocked recipe, availability says purchasable exactly when add's stock loop passes, and names the item add would name |
| `ThreePack.MissingRowEntry` | src/controller/threePackController.ts:130-141 | an item without a row passes exactly when nothing is required of it |
| `ThreePack.SortByKeyCorrect` | src/controller/threePackController.ts:52-62 | the (kind, title) sort is sorted and a permutation |
| `ThreePack.ActiveRecipes` | src/controller/threePackController.ts:52-56 | the selection holds only active stored recipes, and every active stored recipe |
| `ThreePack.SortedActiveRecipes` | src/controller/threePackController.ts:52-62 | the variants' source list holds exactly the active recipes, each as often as stored, in (kind, title) order |
| `ThreePack.VariantsAreActiveSorted` | src/controller/threePackController.ts:41-87 | 404 exactly when the "3-pack" product is missing; otherwise one variant per sorted active recipe, each with the SKU of its kind and items |
| `ThreePack.FindFlavorByName` | src/controller/threePackController.ts:234-240 | the position of the flavor with this exact name; `None` exactly when no flavor has it |
| `Tables.FlavorIndex` | src/controller/threePackController.ts:275-278 | the position of the flavor with this id; `None` exactly when there is none |
| `ThreePack.NewFlavorLaw` | src/controller/threePackController.ts:225-250 | a blank name is the only reason for "name is required"; a new flavor has a trimmed, non-blank, unused name; aliases are taken only when given as an array |
| `ThreePack.CreateFlavor` | src/controller/threePackController.ts:225-250 | appends exactly the new flavor, or changes nothing |
| `ThreePack.PatchFlavor` | src/controller/threePackController.ts:263-273 | only supplied fields change: the name is trimmed, non-array aliases become `[]`, the id is kept |
| `ThreePack.PatchNothing` | src/controller/threePackController.ts:258-280 | an update that supplies nothing changes nothing |
| `ThreePack.UpdatedFlavorLaw` | src/controller/threePackController.ts:258-280 | the patch fails exactly when no row has the id or another row already has the patched name; on success it gives the row's position and the patched flavor, whose name no other row has |
| `ThreePack.AppendKeepsUnique` | src/controller/threePackController.ts:225-250 | appending a flavor whose id and name are new keeps ids and names unique |
| `ThreePack.ReplaceKeepsUnique` | src/controller/threePackController.ts:275-278 | replacing a row by one with the same id and a name no other row has keeps ids and names unique |
| `ThreePack.UpdateFlavor` | src/controller/threePackController.ts:258-280 | replaces the row in place with the patched flavor; a missing id or a taken name is a failed write that changes nothing |
| `ThreePack.RemoveFlavor` | src/controller/threePackController.ts:307-309 | the table without the flavor: every other flavor stays and nothing with that id remains |
| `ThreePack.RemoveFlavorKeepsUnique` | src/controller/threePackController.ts:307 | removing a flavor keeps the flavor ids and the flavor names unique |
| `ThreePack.DeleteFlavor` | src/controller/threePackController.ts:288-311 | refused while a product link or a recipe uses the flavor; a missing id fails; otherwise exactly that flavor leaves the table |
| `InventoryAdmin.View` | src/controller/inventoryController.ts:20-30 | `available = onHand − reserved`, and `available_after_safety` additionally subtracts `safetyStock` |
| `InventoryAdmin.AllInventory` | src/controller/inventoryController.ts:7-30 | one view per inventory row |
| `InventoryAdmin.FlavorInventory` | src/controller/inventoryController.ts:40-66 | 404 exactly when the flavor has no row |
| `InventoryAdmin.UpdatedRowLaw` | src/controller/inventoryController.ts:76-126 | fails exactly on an unacceptable field (`on_hand` first) or a missing row; on success only the supplied fields change, and `reserved` never does |
| `InventoryAdmin.UpdateBelowReserved` | src/controller/inventoryController.ts:76-106 | any non-negative `on_hand` is accepted; the answered `available` is negative exactly when it is below `reserved`; the row then holds less than it reserves and, with a non-negative safety stock, is unsound |
| `InventoryAdmin.UpdateInventory` | src/controller/inventoryController.ts:76-126 | writes exactly the updated row, or changes nothing |
| `InventoryAdmin.BulkFoldResults` | src/controller/inventoryController.ts:146-216 | one result per entry, at the same position; a failure names the flavor or "unknown"; an invalid `on_hand` is reported before `safety_stock`; success exactly when both fields are acceptable and the row exists |
| `InventoryAdmin.BulkEntryEffect` | src/controller/inventoryController.ts:149-215 | a failed entry leaves the table as the earlier entries left it; a successful one changes only its own row and reports that row as written |
| `InventoryAdmin.CountsAddUp` | src/controller/inventoryController.ts:218-223 | `successful + failed` equals the number of entries |
| `InventoryAdmin.BulkUpdateInventory` | src/controller/inventoryController.ts:134-224 | a non-array body ⇒ 400; otherwise the results and the table are those of the entries applied in order |
| `InventoryAdmin.BulkCounts` | src/controller/inventoryController.ts:218-223 | the counts of a bulk report cover every entry |
| `InventoryAdmin.TypeAndSeverityAgree` | src/controller/inventoryController.ts:272-284 | the alert type and its severity always name the same band |
| `InventoryAdmin.AlertsLaw` | src/controller/inventoryController.ts:232-293 | the threshold defaults to 10; the alerts are exactly the selected rows; critical + warning ≤ total |
| `InventoryAdmin.SelectedRowsAlert` | src/controller/inventoryController.ts:241-284 | a selected row with non-negative counters is never reported as normal |
| `Orders.ValidateDirect` | src/controller/orderController.ts:36-70 | as written: Ok exactly when every item passes its own check against unchanged stock; on Ok, item `i` is `(productId, quantity, price, price × quantity)` |
| `Orders.CheckDirectItems` | src/controller/orderController.ts:36-70 | the loop returns `ValidateDirect` and the calculated total |
| `Orders.DirectStep` | src/controller/orderController.ts:36-70 | one more loop step: a failing item makes the prefix fail with its error, a passing one appends its order item |
| `Orders.ItemsTotalAppend` | src/controller/orderController.ts:61-69 | appending an order item adds its line total to `calculatedTotal` |
| `Orders.FailedPrefix` | src/controller/orderController.ts:36-60 | the loop's first rejection is the error of the first failing item |
| `Orders.UserCartItems` | src/controller/orderController.ts:75-77 | exactly the user's cart items, in order |
| `Orders.OtherCartItems` | src/controller/orderController.ts:165-167 | exactly the other users' cart items, in order |
| `Orders.ValidCartItems` | src/controller/orderController.ts:86-88 | exactly the items whose product id is neither empty nor "unknown" |
| `Orders.FirstShort` | src/controller/orderController.ts:97-109 | the first valid item whose product exists with too little stock, and no earlier one |
| `Orders.CartPlanLaw` | src/controller/orderController.ts:75-122 | an empty cart ⇒ "cart is empty"; no valid items ⇒ "no valid products"; on Ok, the items are the valid ones and stock suffices wherever the product exists; conversely valid items none of which is short give Ok, and a short one gives "Insufficient stock" naming the product of the first short item |
| `Orders.FindCartShortfall` | src/controller/orderController.ts:97-109 | the loop returns exactly `FirstShort` |
| `Orders.FirstShortIs` | src/controller/orderController.ts:97-109 | a position whose product is short and has no short item before it is what `FirstShort` returns |
| `Orders.Decremented` | src/controller/orderController.ts:145-161 | decrementing keeps the product keys; a missing product is skipped |
| `Orders.DecrementedAt` | src/controller/orderController.ts:145-161 | each product's stock drops by the total ordered quantity of that product; nothing else changes |
| `Orders.DecrementStock` | src/controller/orderController.ts:145-161 | the loop leaves the products `Decremented` |
| `Orders.PlanOrder` | src/controller/orderController.ts:32-126 | the path choice and validation, read-only, equal to `Plan` |
| `Orders.CreateOrder` | src/controller/orderController.ts:7-178 | an unknown user ⇒ 404; a plan error changes nothing; otherwise the order is appended, stock is decremented, and the user's cart is cleared exactly when `ClearsCart` holds |
| `Orders.ClearCartLaw` | src/controller/orderController.ts:163-168 | as written, the cart is cleared exactly for a missing list or `[]`; never on the direct path; the one cart-path request left uncleared is a non-array `orderItems` |
| `Orders.DirectDistinctKeepsStock` | src/controller/orderController.ts:44-161 | with distinct products, an accepted direct order never drives stock below zero |
| `Orders.DirectRepeatedProductOversells` | src/controller/orderController.ts:44-161 | two items of 3 against stock 5 pass the check as written, and stock ends at −1; the cumulative check rejects them |
| `Orders.ValidateDirectCumulative` | src/controller/orderController.ts:36-70 | corrected: each item is checked against the stock left by the items before it |
| `Orders.DirectCumulativeKeepsStock` | src/controller/orderController.ts:44-161 | corrected: an accepted order never drives a product's stock below zero |
| `Orders.NonArrayItemsKeepCart` | src/controller/orderController.ts:32-168 | a truthy non-array `orderItems` takes the cart path, but the code as written does not clear that cart; the corrected rule does |
| `Products.FirstMatch` | src/controller/productController.ts:10-17 | the first flavor whose name equals the candidate ignoring case, or whose aliases hold it |
| `Products.ResolveFlavor` | src/controller/productController.ts:7-19 | a resolved flavor is one of the stored flavors |
| `Products.ResolveFlavorLaw` | src/controller/productController.ts:7-19 | blank ⇒ no flavor; a hit is the first match; whenever a match exists, a non-blank name resolves |
| `Products.ResolveTrimmed` | src/controller/productController.ts:8 | resolving an already trimmed name gives the same flavor |
| `Products.LinkQuantity` | src/controller/productController.ts:86-87 | a link quantity is at least 1: it is the given number if that is positive, else 1 |
| `Products.ResolveEntry` | src/controller/productController.ts:85-91 | a resolved entry's link quantity is at least 1 |
| `Products.ResolveEntryLaw` | src/controller/productController.ts:85-91 | an entry is skipped exactly when its name is blank or unknown; otherwise it gives (resolved id, quantity) |
| `Products.Lookups` | src/controller/productController.ts:85-90 | one lookup per flavor entry, in order, each that entry's resolution |
| `Products.ResolvedLaw` | src/controller/productController.ts:85-103 | every resolving entry gives a link, and every link comes from a resolving entry |
| `Products.UpsertsKeys` | src/controller/productController.ts:92-102 | after the upserts the product's keys are the old ones plus exactly the resolved flavors |
| `Products.UpsertsLastWins` | src/controller/productController.ts:92-102 | a flavor named twice keeps the quantity of its last entry |
| `Products.UpsertsElsewhere` | src/controller/productController.ts:92-102 | links of other products are untouched |
| `Products.WithoutProduct` | src/controller/productController.ts:283 | `deleteMany({ productId })`: exactly the other products' links remain |
| `Products.UpsertLinks` | src/controller/productController.ts:84-103 | the loop leaves the links `Upserts(old, product, resolved)` |
| `Products.CreateProduct` | src/controller/productController.ts:22-116 | no body ⇒ 400; a missing field ⇒ 400; not admin ⇒ 403 (in that order); on success the active product is stored and its links upserted; an error changes nothing |
| `Products.CreateLinksLaw` | src/controller/productController.ts:84-103 | each resolved flavor is linked with the quantity of the last entry resolving to it, which is at least 1 and comes from an entry |
| `Products.CreateLinksExactly` | src/controller/productController.ts:84-103 | a product with no links before ends with a link for a flavor exactly when some entry resolved to that flavor |
| `Products.Patched` | src/controller/productController.ts:268-279 | an update keeps a product's id and SKU |
| `Products.PatchedLaw` | src/controller/productController.ts:270-278 | patching is idempotent; nothing supplied changes nothing; each supplied name, description, category and `isActive` is set and each absent one kept; a non-zero price or stock is set, and 0 keeps the old value |
| `Products.RelinkedLaw` | src/controller/productController.ts:281-299 | replacing the flavors leaves other products' links alone and gives the product exactly the resolved flavors with their quantities |
| `Products.RelinkedUntouched` | src/controller/productController.ts:254-265 | absent or unparseable flavors leave the links as they were |
| `Products.RepeatedLink` | src/controller/productController.ts:291-297 | a flavor resolved twice makes the replaced link set non-distinct, so the second create fails |
| `Products.CreateLinks` | src/controller/productController.ts:284-298 | the create loop succeeds exactly when the resolved flavors are distinct, and then leaves the upserted links |
| `Products.UpdateProduct` | src/controller/productController.ts:236-309 | no body ⇒ 400; not admin ⇒ 403; a missing product or a failed relink ⇒ 500 and a rollback; otherwise the product is patched and its links replaced |
| `Products.DeleteProduct` | src/controller/productController.ts:312-331 | not admin ⇒ 403; a missing product ⇒ 500; otherwise exactly that product leaves the table |
| `Products.Pages` | src/controller/productController.ts:181 | `ceil(total / limit)`: `pages × limit` covers `total`, and one page fewer does not |
| `Products.PagesCoverRows` | src/controller/productController.ts:123-181 | with `skip = (page−1) × limit`, every row index below `total` lies on exactly one page, and that page is at most `pages` |

## Left out

- Login, roles and tokens: the user and the admin flag are parameters. Email, payments, file uploads and `imageUrl` are outside the stock core.
- Route wiring is left out, including which routes reach a handler.
- JavaScript coercions are left out: `parseInt`, `parseFloat`, `Number(...)` on strings, `NaN` and fractional quantities. Quantities and prices are integers here.
  - A JSON-parsed flavors string that is itself a string is treated as not a list.
- `Date.now()`, `Math.random()` and generated ids (the product SKU, new flavor and product ids) are parameters.
- Prisma's `null` versus `undefined`, and keys of the code tables that JavaScript objects inherit, are left out.
- Name comparisons fold only ASCII letters. The database's collation and case rules are not modelled, so `ResolveFlavor` matches names ASCII-case-insensitively only.
- Database ordering:
  - `getAllInventory` and `getLowStockAlerts` are answered keyed by flavor, not in the database's name or `onHand` order.
  - `findFirst` picks the first row in storage order.
  - `findMany` without `orderBy` (the user's lines in `clearCart`, the user's cart items in `createOrder`) is taken in storage order. In `clearCart` that order decides which release to a shared flavor wins: with the two lines of `CartLaws.ClearLostUpdate` read the other way round, F ends at 4 − 3 = 1 rather than 3.
  - Recipe variants are ordered by character code, not by the database's collation (which may, for example, put "apple" before "Banana").
- The schema file is not part of this model, so cascades and foreign keys are left out:
  - deleting a flavor or a product does not cascade to links, recipes, cart items or order items;
  - an order item may name a product that no longer exists.
- Concurrency and interleaving between requests are left out: each handler runs alone.
- The soundness lemmas (`CartLaws.AddKeepsSound`, `CartLaws.UpdateKeepsSound`, `CartLaws.RemoveKeepsSound`, `CartLaws.ClearKeepsSound`) assume that recipe item quantities are non-negative. No handler checks this, and an item of −1 would lower `reserved` on add, so row soundness is not promised for such recipes.
- The model adds two facts the code does not state:
  - **Partial writes.** A `TypeError` raised after some writes outside a transaction is modelled as an error that writes nothing.
  - **Compound key.** `updateProduct` failing on a flavor named twice relies on the (product, flavor) compound unique key that the upsert in `createProduct` uses.
- `Orders.CartOrderItem`: the cart path's unit price `item.total / item.quantity` is a float in the source. The model records it as `None` and keeps only the line total.
- `Orders.NonArrayItemsKeepCart`: `orderItems` values whose `length` is 0 but which are truthy non-arrays (an object `{ length: 0 }`) are not distinguished from other non-arrays.
- Not modelled, because they are reads outside the stock core:
  - `getAllProducts` and `getAllProductsForAdmin`: listing filters, search and sort. Only the pagination arithmetic is modelled.
  - `getProductById`, `getCategories`, `getAllFlavors`, `getAllPackRecipes`;
  - `getUserOrders`, `getOrderById`, `updateOrderStatus`, `getAllOrders`.
- `Products.Pages`: needs `limit > 0`. A limit of 0 or below gives `Infinity` or a negative page count in the source, and is not modelled.
- The generic `cartController` that fills `cartItems` is not part of this model. Checkout reads `cartItems` as stored.
- Logging (`console.log`, `console.warn`) is left out.

## Findings

| source | as written | input that shows it | evidently intended | confidence | as-written member | corrected member |
|---|---|---|---|---|---|---|
| src/controller/threePackCartController.ts:468-480 | `clearCart` loads every line with its inventory rows once, before the loop, and writes `max(0, reserved − release)` from the loaded value; a second line that uses the same flavor overwrites the first release (a lost update) | flavor F with onHand 10, reserved 4, safety 0; two lines of one user stored in this order, [F:3] ×1 and [F:1, G:2] ×1 (the other storage order leaves F at 1) | F released by 3 + 1 and left at 0 | high (not executed) | `CartLaws.ClearLostUpdate` (of `ThreePackCart.ClearCart`) | `CartLaws.ClearCorrectedReleasesTotal` (of `ThreePackCart.ClearCartCorrected`) |
| src/controller/orderController.ts:44-161 | each direct item is checked against the product's stock before any decrement, so the same product listed twice is checked twice against the full stock | product "p" ("Gummies"), stock 5; items (p, 3, 1.00) and (p, 3, 1.00) | reject with "Insufficient stock" (5 available, 6 requested); stock never negative | high (not executed) | `Orders.DirectRepeatedProductOversells` (of `Orders.ValidateDirect`) | `Orders.DirectCumulativeKeepsStock` (of `Orders.ValidateDirectCumulative`) |
| src/controller/orderController.ts:32-168 | a truthy non-array `orderItems` takes the cart path at line 32, but line 164 clears the cart only when `orderItems` is falsy or has length 0 | `orderItems: "x"` with a non-empty cart | a cart-path checkout clears the cart | medium (not executed) | `Orders.NonArrayItemsKeepCart` (of `Orders.ClearsCart`) | `Orders.ClearsCartCorrected`, stated in `Orders.NonArrayItemsKeepCart` |
