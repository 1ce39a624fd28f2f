# Stock ledger model

A Dafny model of the stock ledger of a small warehouse/field-staff stock
application. A staff member's on-hand quantity of a product is not stored
anywhere. It is recomputed by folding four append-only tables:

- admin-to-staff transfers: a header plus its lines;
- staff-to-warehouse returns: a header plus its lines;
- staff-to-customer sales: user transactions of type `TRANSFER`;
- customer-to-staff job returns: user transactions of type `JOB_RETURN`.

The warehouse count `stock_qty` is a counter on each product. Transfers and
returns change it directly.

The application has two local backends, and they disagree:

- the localStorage backend, `src/services/mockBackend.js`;
- the Express mock server, `mock-server.js`.

There is also a Supabase service layer, `src/services/api.js`, with its own
simpler fold over a single `transactions` table. Finally, the Issue Stock and
Return Stock pages keep a cart whose helpers form a small state machine.

Modules:

- `Outcomes` (`outcomes.dfy`):
  - `Option`, `Result` and the JavaScript `||` fallback;
  - `FirstFailure`, the "check every line, stop at the first failure" loop.
- `Sums` (`sums.dfy`):
  - the `reduce`/`filter` idioms as `SumOf` and `Filter`;
  - their algebra, including exchanging a double sum.
- `Ledger` (`ledger.dfy`):
  - the tables and the `State`;
  - the holding fold `Holding`;
  - table well-formedness;
  - the stock-moving helpers;
  - the product catalogue, the dashboard figures and the stock report.
- `Inventory` (`inventory.dfy`):
  - the two map-building inventory folds: the localStorage backend's, and the mock server's guarded one;
  - their relation to `Holding`.
- `Movements` (`movements.dfy`):
  - the commit step of each mutating operation;
  - what a commit does to holdings and to the warehouse balance.
- `LocalBackend` (`local_backend.dfy`): the operations of the localStorage backend.
- `MockServer` (`mock_server.dfy`): the request handlers of the mock server, with one variant switch:
  - `AsWritten` uses the server's own staff-stock function;
  - `Corrected` uses the ledger holding.
- `Agreement` (`agreement.dfy`):
  - where the two backends agree;
  - the concrete requests on which the server as written departs.
- `Api` (`api.dfy`):
  - the client-side folds of the Supabase service layer;
  - item expansion;
  - the type-to-stock-effect rule.
- `Cart` (`cart.dfy`):
  - the cart helpers, the submit guards and the manual-entry match;
  - what a submitted cart writes through the service layer's `createTransfer` and `createReturn`.

In the localStorage backend and the mock server, each mutating operation
validates every line against the balance as it was before the request. Only
then does it commit, so a failed request returns an error and no new state.
The Supabase layer validates nothing. It inserts one row at a time, and a
refused insert leaves the earlier rows committed (`Api.RunSequentially`). Quantities are unbounded integers, because the source
never rejects zero or negative quantities. Ids are integers; `parseInt` on an
id is the identity.

## Model

| member | source | states |
|---|---|---|
| Outcomes.FirstFailure | src/services/mockBackend.js:233-239 | The validation loop fails exactly when some line fails its check. The error it reports is that of the first failing line, and every earlier line passed. |
| Ledger.IndexOfProduct | src/services/mockBackend.js:234 | `findIndex` semantics: -1 exactly when no product has the id. Otherwise the index of the first product with it. |
| Ledger.BatchedQtyAfterAppend | src/services/mockBackend.js:244-262 | Appending a header with id `length + 1` and lines pointing at it adds exactly the new lines' quantity to the header's staff member, and nothing to anyone else. |
| Ledger.AdjustStock | src/services/mockBackend.js:251 | Only the first product with the id changes. Its stock becomes `max(0, old + delta)` when floored, otherwise `old + delta`. |
| Ledger.BatchLinesQty | src/services/mockBackend.js:254-259 | When every product exists, the written lines carry exactly the requested quantity of each product. |
| Ledger.NextProductId | src/services/mockBackend.js:184 | The new id exceeds every existing id. It is 1 for an empty catalogue, and otherwise one more than an existing id (the maximum). |
| Ledger.InitialStock | src/services/mockBackend.js:186 | `stock \|\| stock_qty \|\| 0`: a nonzero `stock` wins, and otherwise `stock_qty` when given. |
| Ledger.AddProduct | src/services/mockBackend.js:180-192 | Appends one product with the initial stock. Its id is the submitted `id` when the body carries one, because the spread comes after the fresh id. Otherwise it is the fresh id, which differs from every existing id. The ids stay unique exactly when the new id differs from every existing one. |
| Ledger.SubmittedIdDuplicates | mock-server.js:178-183 | A body carrying an existing product's id creates a second product with that id, so the ids are no longer unique. |
| Ledger.UpdateProduct | mock-server.js:189-196 | The PUT handler's merge: no result (404) exactly when the id is absent. Otherwise only the first product with the id is replaced by the field-wise merge, and every other product is unchanged. |
| Ledger.GetStats | src/services/mockBackend.js:380-394 | totalProducts is the catalogue length. lowStockCount is the number of products with a count below 10, counted with repetition, and is zero exactly when every count is at least 10. The totals are nonnegative when the counts and prices are. recentTransactions is the number of transfers plus returns. |
| Ledger.StatsFacts | mock-server.js:386-401 | The server's low-stock count is the number of products below 10, and is zero exactly when there are none. The stock total and stock value are nonnegative for nonnegative counts and prices. |
| Ledger.AdjustStockTotal | src/services/mockBackend.js:388 | Adjusting one product's count moves the catalogue's total stock by exactly that change when the product exists and the floor does not bite. An absent product leaves the total alone. |
| Ledger.MoveStockDepositTotal | mock-server.js:364-368 | Depositing a return raises the total stock by the quantity of the lines whose product exists. Lines for unknown products add nothing. |
| Ledger.BatchLinesQtyPresent | mock-server.js:364-375 | For any request, the written lines carry the requested quantity of each existing product, and nothing for a product that does not exist. |
| Ledger.BatchLinesOfPresent | mock-server.js:364-375 | The written lines carry exactly the requested items whose product exists, in request order. |
| Ledger.ReturnTxsOfPresent | mock-server.js:364-375 | A return writes exactly one `RETURN` row per requested item whose product exists, in request order, for the returner. |
| Ledger.LowStock | src/services/mockBackend.js:472-474 | Keeps exactly the products whose count is below the threshold, duplicates included, in catalogue order. The i-th result is the product at the i-th such position, and the length is the number of low products. |
| Sums.FilterAtKeptIndices | src/services/mockBackend.js:473 | `filter` keeps exactly the elements at the positions its callback accepts. Those positions are listed in increasing order, so the result has one entry per accepted position, in order. |
| Ledger.StockReportColumns | mock-server.js:444-466 | `distributed` and `returned` are the filtered-then-summed quantities of the product's transfer and return lines. |
| Ledger.OtherTxsDoNotCount | src/services/mockBackend.js:76-84 | User transactions of another type contribute nothing to a typed sum, so `RETURN` rows never count in the holding. |
| Inventory.TallyValue | src/services/mockBackend.js:97-119 | An unguarded pass leaves each entry at its start value plus every selected row's delta for it. |
| Inventory.DropNonPositive | src/services/mockBackend.js:122-125 | Keeps exactly the entries with a positive value, unchanged. |
| Inventory.LocalRawIsHolding | src/services/mockBackend.js:88-120 | With unique header ids, each entry of the localStorage inventory before clean-up equals the holding fold of `getStaffStockForProduct`. |
| Inventory.LocalInventoryIsPositiveHolding | src/services/mockBackend.js:88-130 | With unique header ids, the inventory contains exactly the products with positive holding, each mapped to that holding. |
| Inventory.GuardedTracksUnguarded | mock-server.js:99-115 | The server's "subtract only when the entry is nonzero" pass tracks the unguarded pass: entries agree, or the guarded one sits at 0 while the unguarded one is at most 0. |
| Inventory.InventoriesAgree | mock-server.js:84-125 | Without job returns, and with nonnegative return and sale quantities, the server's inventory equals the localStorage backend's. |
| Inventory.JobReturnIgnoredByServer | mock-server.js:108-115 | Concrete case: after a job return of 3 on top of a transfer of 5, the localStorage inventory shows 8 and the server's shows 5. |
| Inventory.ZeroEntryStopsServerUpdates | mock-server.js:99-106 | Concrete case: a return that drives an entry to 0 makes the server skip later rows for that product. The two inventories then differ (4 against empty). |
| Inventory.MapTotalOfPositive | src/services/mockBackend.js:396-406 | The total of a positive inventory is nonnegative. It is zero exactly for the empty inventory, and at least every entry. |
| Inventory.LocalUserStatsPositive | src/services/mockBackend.js:396-406 | The dashboard total is positive exactly when some product has positive holding. |
| Movements.CommitTransferHolding | src/services/mockBackend.js:241-263 | A committed transfer raises the recipient's holding of each product by the requested quantity of it. Everyone else is unaffected. |
| Movements.CommitReturnHolding | mock-server.js:346-377 | For any request, a committed return lowers the returner's holding of each existing product by the quantity returned of it. The holding of a product that does not exist is unchanged, because its lines are skipped. `RETURN` rows do not count twice. |
| Movements.SaleRowsHolding | src/services/mockBackend.js:287-298 | Appending sale rows lowers the seller's holding by their quantity for `TRANSFER`, raises it for `JOB_RETURN`, and leaves it alone for any other type. |
| Movements.MoveStockDeposit | src/services/mockBackend.js:350-351 | A return adds to each product's count the total returned quantity of that product. |
| Movements.MoveStockWithdraw | src/services/mockBackend.js:250-251 | When the lines name distinct products and each passes the check, the zero floor never bites. Each count drops by exactly the requested quantity. |
| Movements.MoveStockWithdrawNonnegative | src/services/mockBackend.js:251 | Withdrawing never makes a nonnegative count negative. |
| Movements.CommitTransferConserves | src/services/mockBackend.js:241-263 | For a checked transfer of distinct products, stock plus distributed minus returned is unchanged. |
| Movements.CommitReturnConserves | mock-server.js:346-377 | For any request, a return leaves stock plus distributed minus returned unchanged for every existing product, whether or not other lines were skipped. |
| Movements.CommitReturnTables | mock-server.js:346-377 | A committed return appends one return line and one `RETURN` row per requested item whose product exists, in request order, and nothing for the others. |
| Movements.MoveStockWithdrawTotal | src/services/mockBackend.js:388 | A withdrawal with one checked line per product lowers the total stock by exactly the quantity requested. |
| Movements.CommitTransferStats | src/services/mockBackend.js:380-394 | After a checked transfer with one line per product, the dashboard's totalStock drops by the quantity sent and recentTransactions grows by 1. The product count is unchanged. |
| Movements.CommitReturnStats | mock-server.js:386-401 | After any return, the dashboard's totalStock rises by the quantity of the lines whose product exists and recentTransactions grows by 1. |
| LocalBackend.CreateTransfer | src/services/mockBackend.js:226-266 | Accepted exactly when every line names an existing product with `qty <= stock_qty`. Otherwise the first failing line's error (not found, or insufficient stock with the name). On success the new transfer has id `length + 1` and names the recipient. |
| LocalBackend.TransferHolding | src/services/mockBackend.js:241-263 | An accepted transfer keeps the tables well formed and adds the requested quantities to the recipient's holding. |
| LocalBackend.TransferStockNonnegative | src/services/mockBackend.js:251 | After an accepted transfer no count is negative, when none was before. |
| LocalBackend.TransferConserves | src/services/mockBackend.js:241-263 | With distinct lines, each count drops by exactly its requested quantity and the warehouse balance is conserved. |
| LocalBackend.DuplicateLinesOverdraw | src/services/mockBackend.js:233-239 | Concrete case: two lines of 3 against a stock of 5 both pass the per-line check. Stock is clamped to 0 while the recipient holds 6, so the balance grows by 1. |
| LocalBackend.CreateUserTransaction | src/services/mockBackend.js:272-301 | Refused exactly when the type is absent or `TRANSFER` and some line exceeds the holding. `qty == holding` is accepted and `JOB_RETURN` is never checked. A refusal is the first failing line's, with the product's name (if any) and the holding. On success, only the user transactions change, with one row per line, type defaulting to `TRANSFER` and customer to `Customer`. |
| LocalBackend.UserTransactionHolding | src/services/mockBackend.js:287-298 | An accepted sale lowers the seller's holding by its quantities. A job return raises it. Other types leave it alone. |
| LocalBackend.SingleSaleKeepsHoldingNonnegative | src/services/mockBackend.js:277-285 | A single accepted sale line leaves the seller's holding at `old - qty`, which is not negative. |
| LocalBackend.DuplicateLinesOversell | src/services/mockBackend.js:277-285 | Concrete case: two sale lines of 3 against a holding of 5 are both accepted, leaving the holding at -1. |
| LocalBackend.CreateReturn | src/services/mockBackend.js:325-374 | Accepted exactly when every line is within the holding and names an existing product. If some line exceeds the holding, the refusal is the first such line's, reporting its holding. Otherwise the refusal names the first line's product that no longer exists. On success the new return has id `length + 1`. |
| LocalBackend.ReturnEffects | src/services/mockBackend.js:340-371 | An accepted return keeps the tables well formed and lowers the returner's holding. It adds each returned quantity to the warehouse count and conserves the balance. |
| LocalBackend.TransferThenReturn | src/services/mockBackend.js:333-338 | A staff member with no holding who receives a line can return that same line. |
| LocalBackend.UpdateProductLocal | src/services/mockBackend.js:194-203 | Fails with not-found exactly when the id is absent. Otherwise it is the catalogue merge. |
| LocalBackend.DeleteProduct | src/services/mockBackend.js:205-211 | Keeps exactly the products with a different id, and as many of them as there are. An unknown id leaves the catalogue as it was. A single match is cut out with the others kept in order. |
| LocalBackend.DeleteOrder | src/services/mockBackend.js:208 | The filter keeps the other products in their order: all of them when no product has the id, all but the single match when there is one. |
| LocalBackend.AddThenDelete | src/services/mockBackend.js:180-211 | When the body carries no id, deleting the product just added by its new id gives back the original catalogue. |
| LocalBackend.UserStatsLocalPositive | src/services/mockBackend.js:396-406 | `productsTaken` is positive exactly when the user holds some product. |
| LocalBackend.StockReportBalance | src/services/mockBackend.js:432-446 | In each stock-report row, in-warehouse plus distributed minus returned is the product's warehouse balance. |
| LocalBackend.LowStockReport | src/services/mockBackend.js:472-474 | The low-stock report holds exactly the products below 10. Its length is the dashboard's lowStockCount. |
| MockServer.Status | mock-server.js:211-380 | Each refusal maps to 400, 401, 404 or 409. It is 401 exactly for a missing user, and 409 exactly for an existing mobile. |
| MockServer.StaffStockAsWrittenIgnoresBatches | mock-server.js:52-81 | As written, the server's staff stock is job returns minus sales for every input. Equivalently, the holding with the received and returned terms dropped. |
| MockServer.FindByToken | mock-server.js:269-271 | `users.find(u => u.token === token)`: none exactly when no user carries that token value. An absent token matches a user without one. |
| MockServer.MissingHeaderActsAsSeedAdmin | mock-server.js:13-15 | With the seed users, a request without a token authenticates as the seed admin. The strict lookup refuses it. |
| MockServer.MissingHeaderMatchesTokenless | mock-server.js:328-330 | A missing token matches exactly when some user has no token. The strict lookup never matches it. |
| MockServer.PostTransfers | mock-server.js:211-261 | 404 exactly for an unknown recipient. Accepted exactly when the recipient exists and every line names an existing product with `qty <= stock_qty`. Otherwise the error is the first failing line's: 404 with the product id for an unknown product, or 400 with the product's name, its `stock_qty` and the requested quantity. The new transfer names the recipient. |
| MockServer.PostUserTransactions | mock-server.js:267-299 | 401 exactly without a matching user. Accepted exactly when authenticated and, for outbound types, every line is within the staff stock. A refusal is the first failing line's, with the product's name (if any), the staff stock and the requested quantity. Products are untouched and one row is added per line. |
| MockServer.HoldingRefusalIsFirst | mock-server.js:275-283 | A refused sale names the first line beyond the staff stock, every earlier line being within it, and reports that product's name, the staff stock and the requested quantity. |
| MockServer.PostReturns | mock-server.js:326-380 | 401 exactly without a matching user. Accepted exactly when every line is within the staff stock, even when a line names an unknown product. A refusal is the first failing line's: the requested quantity, the product's name or `this product`, and the staff stock. On success it commits the return for the authenticated user. |
| MockServer.ReturnRefusalIsFirst | mock-server.js:333-343 | A refused return names the first line beyond the staff stock, every earlier line being within it, and reports the requested quantity, the product's name or `this product`, and the staff stock. |
| MockServer.PostReturnsCommit | mock-server.js:346-377 | For any accepted request: a header for the user, then one return line and one `RETURN` row per line whose product exists, in request order. Lines for unknown products leave no trace. |
| MockServer.PostReturnsEffects | mock-server.js:353-377 | For any accepted request, the user's holding of each existing product drops by the quantity returned, and nothing else's holding moves. With unique product ids every count rises by the quantity returned of it. |
| MockServer.DeleteProduct | mock-server.js:198-205 | 404 exactly when the id is absent. Otherwise exactly the first product with the id is spliced out and returned. |
| MockServer.DeleteIsFilterWhenUnique | mock-server.js:198-205 | With unique ids, splicing out the one match equals the localStorage backend's filter. |
| MockServer.Signup | mock-server.js:131-148 | 400 exactly for a missing mobile or password. 409 exactly for an existing mobile. Otherwise it appends one user with id `users.length + 1`, the given name, mobile, password and token, and role defaulting to `USER`. Unique mobiles stay unique. |
| MockServer.SignupTwice | mock-server.js:134 | Signing up the same mobile again is refused with 409. |
| MockServer.SignupTokenAuthenticates | mock-server.js:140-146 | A fresh token issued at signup authenticates the new user. |
| MockServer.UserStats | mock-server.js:403-416 | 401 exactly without a matching user. Otherwise productsTaken equals balanceToReturn, is nonnegative, and is zero exactly when the server inventory is empty. |
| MockServer.LowStockThreshold | mock-server.js:522 | `parseInt(threshold) \|\| 10`: an absent or zero threshold means 10. |
| MockServer.LowStockReport | mock-server.js:521-526 | Keeps exactly the products below the threshold, duplicates included, in catalogue order. Its length is the number of such products. |
| Agreement.TransfersAgree | mock-server.js:216-258 | For an existing recipient both backends accept the same transfers and commit them identically. |
| Agreement.CorrectedSalesAgree | mock-server.js:273-297 | With the ledger holding, the server's sale endpoint accepts and writes exactly what the localStorage backend does. |
| Agreement.CorrectedReturnsAgree | mock-server.js:333-377 | With the ledger holding and every product present, the server's return endpoint accepts and commits exactly what the localStorage backend does. |
| Agreement.ReturnsDisagreeOnMissingProduct | mock-server.js:346-377 | When a line names a missing product, the localStorage backend always fails, reporting the missing product once every line is covered. The server with the ledger holding accepts exactly when every line is covered. |
| Agreement.MissingProductSkippedByServer | mock-server.js:364-375 | Concrete case: returning one unit each of a deleted product and of product 1. The localStorage backend refuses with the missing product. The server writes one line and one `RETURN` row for product 1 and raises its count to 1. |
| Agreement.LowStockReportsAgree | mock-server.js:521-526 | Without a threshold the server's low-stock report is the localStorage backend's. |
| Agreement.TransferredStockInvisibleToServer | mock-server.js:57-68 | Concrete case: a staff member holding 5 units through a transfer is refused a return of 1 ("0 available") and a sale of 1 by the server as written. With the ledger holding, both are accepted. |
| Api.GetDashboardStats | src/services/api.js:227-240 | No data gives all zeros. Otherwise the count is the row count, and the stock total is nonnegative when the counts are. |
| Api.DashboardAgreesWithStats | src/services/api.js:230-232 | On the same catalogue, the Supabase dashboard's count, stock total and stock value equal the local backends'. |
| Api.StockEffectOf | src/services/api.js:267-277 | `TRANSFER` requests a decrement and `RETURN` an increment, of that product and quantity. Any other type requests nothing. |
| Api.CreateUserTransaction | src/services/api.js:246-280 | Fails exactly when the insert is refused. Otherwise it appends one row for `payload.user_id` or the signed-in user, and records the type's stock effect. |
| Api.Expand | src/services/api.js:372-386 | With an items array, one payload per item in order, carrying that item's product and quantity and the fixed type. Without one, the single payload. |
| Api.RunSequentially | src/services/api.js:375-383 | Calls run in order until the first refused insert. Exactly the calls before it stay committed, and the run fails exactly when some insert is refused. |
| Api.RunRows | src/services/api.js:375-383 | The k-th committed row and stock effect are those of the k-th payload. |
| Api.TransferExpansion | src/services/api.js:372-386 | Transferring an items array requests a decrement of each item. |
| Api.ReturnAndUsedExpansion | src/services/api.js:388-418 | Returning an items array requests an increment of each item. Recording it as used requests no stock change. |
| Api.GetUserStats | src/services/api.js:335-366 | No data gives zeros. Otherwise productsTaken is the sum of today's `TRANSFER` rows, and the holding is all `TRANSFER` minus all `RETURN` and `USED` rows of the signed-in user. |
| Api.TakenTodayAtMostTaken | src/services/api.js:348-355 | With nonnegative quantities, what was taken today lies between 0 and what was taken in total. |
| Api.OtherTypesIgnored | src/services/api.js:350-360 | A row of any other type changes neither figure. |
| Api.SelectedUser | src/services/api.js:439-444 | A non-admin, or a call without a user id, gets the caller's rows. An admin naming a user gets that user's rows. |
| Api.StaffRows | src/services/api.js:420-444 | The query returns exactly the selected user's `TRANSFER` rows. Each such row appears as often as in the table, in table order, and the length is their count. |
| Api.GroupByProduct | src/services/api.js:454-469 | One group per distinct product. Each holds exactly that product's rows in order, and their quantity total. Every row's product has a group and every group's product occurs. |
| Api.GroupTotals | src/services/api.js:454-469 | The group quantities add up to the total quantity of the rows, so every row is counted in exactly one group. |
| Cart.AddItemSpec | src/pages/Transfer.jsx:45-51 | Adding keeps the cart valid (unique ids, quantities at least 1). It adds exactly one unit of that product, leaves the others alone, and raises the total by 1. |
| Cart.AddItem | src/pages/Return.jsx:23-29 | An existing line keeps the length. A new product is appended with quantity 1. The ids become the old ids plus this one. |
| Cart.UpdateQtySpec | src/pages/Transfer.jsx:53-55 | Keeps the cart valid and the ids. The product's quantity becomes `max(1, qty + delta)` and every other product is unchanged. |
| Cart.AdjustCounts | src/pages/Return.jsx:31-33 | Rewriting one product's line changes that product's quantity only and keeps the ids unique. |
| Cart.ClampInput | src/pages/Transfer.jsx:251-253 | The typed quantity when it is at least 1, otherwise 1 (including `NaN`). |
| Cart.SetQtySpec | src/pages/Transfer.jsx:251-253 | Typing a quantity keeps the cart valid and sets only that product, to the clamped value. |
| Cart.RemoveItem | src/pages/Return.jsx:35-37 | Keeps exactly the lines of other products. |
| Cart.RemoveItemSpec | src/pages/Transfer.jsx:57-59 | Removing keeps the cart valid and drops the product entirely. The other lines stay in order: just that product's line is cut out, and an absent product changes nothing. Other quantities are unchanged, and the total falls by the removed quantity. |
| Cart.RemoveItemOrder | src/pages/Return.jsx:35-37 | The filter cuts out exactly the product's line and keeps the rest in order. A product with no line leaves the cart as it was. |
| Cart.TotalsOrdered | src/pages/Transfer.jsx:276-280 | In a valid cart the total quantity is at least the number of unique items. |
| Cart.Payload | src/pages/Transfer.jsx:69 | The payload lists the cart's lines in order, as product id and quantity. |
| Cart.CartTransferIsExact | src/services/api.js:372-386 | An admin's transfer of a valid cart, every insert accepted, writes one `TRANSFER` row per line in cart order. Each row is recorded under the signed-in user, whatever recipient was picked. The decrement requests add up to the cart's quantity of every product, and no increment is requested. |
| Cart.CartReturnIsExact | src/pages/Return.jsx:39-51 | A return of a valid cart, every insert accepted, writes one `RETURN` row per line under the signed-in user. The increment requests add up to the cart's quantity of every product. |
| Cart.PayloadIsDistinct | src/pages/Transfer.jsx:69 | A payload built from a valid cart names each product once, with a quantity of at least 1. |
| Cart.AdminBranchUnreachableAsWritten | src/pages/Transfer.jsx:17-18 | As written, `isAdmin` is false for every user, so no submit is a transfer to a recipient. An admin's `TRANSFER` is sent as a take-stock request. |
| Cart.AdminTransfersWhenAwaited | src/pages/Transfer.jsx:61-70 | With the user awaited, an admin with a recipient and a non-empty cart sends a transfer to that recipient. |
| Cart.TransferSubmit | src/pages/Transfer.jsx:61-102 | An admin without a recipient is refused, and so is an empty cart. An admin transfers to the recipient. A staff `TRANSFER` takes stock. Any other type records user transactions, with the customer defaulting to `Self`. |
| Cart.ReturnSubmit | src/pages/Return.jsx:39-51 | Refused exactly for an empty cart. Otherwise a return of the cart's lines. |
| Cart.Settle | src/pages/Transfer.jsx:95-97 | A successful submit clears the cart, the recipient and the customer. A failed one leaves the form as it was. |
| Cart.FirstMatch | src/pages/Transfer.jsx:36 | The first product whose barcode equals the input, or whose lower-cased name contains the lower-cased input. -1 exactly when none does. |
| Cart.ManualAdd | src/pages/Transfer.jsx:34-43 | Blank input is ignored. With no match the page alerts. Otherwise the first match is added to the cart. |
| Cart.ManualAddKeepsValid | src/pages/Transfer.jsx:37-38 | A manual add keeps the cart valid and adds one unit. |

## Left out

- Persistence, networking and scheduling are not modelled. This covers localStorage reads and writes, the artificial delay, Express routing and CORS, and async sequencing. Each operation is one atomic step, and HTTP outcomes are error values (`MockServer.Status`).
- Login, both logout paths and the localStorage backend's `signup` are not modelled: they are authentication plumbing. The server's signup validation is modelled. Its token comes from a random generator, so it is a parameter.
- Timestamps are left out of the ledger records. The `created_at` of a Supabase row is the parameter `now`, and "today" is a string parameter; only its prefix rule is modelled.
- Sorting by date is not modelled (`getUserTransactions`, and the query order in `fetchStaffInventory`).
- A failed query in `fetchStaffInventory` (src/services/api.js:448-451) answers `[]`. `Api.StaffRows` and `Api.GroupByProduct` model only a query that succeeds, since the error comes from the database.
- User-transaction ids are not modelled. They are random fractions, so rows have no id.
- The transfers and returns branches of the reports are not modelled. They are joins for display only.
- The staff-inventory endpoints are not modelled. They only attach product records to the inventory map.
- `getUsers`, `getProducts` and `getUserTransactions` are not modelled. They are plain reads.
- Prices are integers; floating-point prices are not modelled. `Number(x) || 0` coercions and `parseInt` on ids are the identity on integers.
- The key order of JavaScript objects is not modelled. The inventories are maps. `Api.GroupByProduct` lists groups in order of first appearance, whereas `Object.values` lists integer keys in ascending order. No contract depends on the order.
- Cart lines keep only the product id and quantity. The other product fields copied into a line are display-only.
- `String.prototype.trim` and `toLowerCase` are modelled on ASCII only (`Cart.IsBlank`, `Cart.Lower`).
- Supabase queries are filters over an abstract row list. The `decrement_stock`/`increment_stock` procedures are foreign calls, so `Api.CreateUserTransaction` records the effect it requests instead of applying it. Their errors are ignored by the source and by the model.
- The mock server's transfer handler looks up the calling user and never uses the result. There is no authorisation on transfers, and the model has none either.
- Barcode scanning is left out. It is an exact-barcode `find` feeding `addItem`, which is modelled.
- The `/take-stock` and `/user-transactions` requests of the Issue Stock page go through `client`, which `src/services/api.js` does not export as a default. Even otherwise, neither backend defines `/take-stock`. The model builds the payload and does not interpret it.
- The page passes `{toUserId, items}` to `createTransfer`. `src/services/mockBackend.js` and `mock-server.js` are not reached from the pages; their stock movements are modelled as backends in their own right.
- Api.GetDashboardStats: states no bound on the stock value, because prices in Supabase can be negative or null.
- MockServer.PostUserTransactions: states the row count but not the row contents. The contents are those of the localStorage backend, by `Agreement.CorrectedSalesAgree`, since the commit does not depend on the variant.

## Findings

| source | as written | input that shows it | evidently intended | confidence | as-written member | corrected member |
|---|---|---|---|---|---|---|
| mock-server.js:57-68 | The staff-stock function filters transfers by `toUserId` and returns by `userId`, and flattens their `items`. Stored records carry only `staff_id` (mock-server.js:237-241, 346-350), so received and returned quantities are always 0. | Staff member 7 receives a transfer of 5 units of product 1, then posts a return of 1 unit. The server answers "You only have 0 available". | The same holding as `getStaffStockForProduct` in `src/services/mockBackend.js`: received minus returned minus sold plus job returns, via `staff_id` and the line tables. | high, not executed | Agreement.TransferredStockInvisibleToServer | Agreement.CorrectedReturnsAgree |
| mock-server.js:269-271 | `users.find(u => u.token === token)` runs with `token` undefined when the Authorization header is missing. The seed admin (mock-server.js:13-15) has no token, so it matches. | POST `/api/returns` or `/api/user-transactions` with no Authorization header, against the seed users. The request is authenticated as the admin. | A request without a token is refused with 401. | high, not executed | MockServer.MissingHeaderActsAsSeedAdmin | MockServer.MissingHeaderMatchesTokenless |
| src/pages/Transfer.jsx:17-18 | `getCurrentUser` is `async` (src/services/api.js:83), so `currentUser` is a promise. `currentUser?.role` is then undefined, and `isAdmin` is false for every user. | The page is reachable only once `RequireAuth` (src/App.jsx:16-20) is fixed too. That guard reads `token` off the same unawaited promise, so as written it sends every protected route, `/transfer` included, to `/login`. With it fixed: an admin opens Issue Stock, picks a recipient, adds one line and confirms. The page sends a take-stock request instead of calling `createTransfer`. | The role of the awaited user decides the branch, so an admin transfers to the recipient. | medium, not executed | Cart.AdminBranchUnreachableAsWritten | Cart.AdminTransfersWhenAwaited |
