# Inventory backend, modelled in Dafny

This project models the backend of a small inventory system: a table of SKUs
(stock-keeping units, each with a name, a category, a reorder level, a current
quantity and a unit price) and a ledger of stock movements. Each movement has
one of four types, PURCHASE, SALE, DAMAGE or RETURN. The model covers the
HTTP handlers that read and write these two tables:

- recording a movement, which appends to the ledger and moves the SKU's
  quantity;
- listing movements with filters;
- listing, reading, creating, updating and deleting SKUs;
- the four analytical reports (dead stock, reorder, top-selling,
  slow-moving);
- the dashboard statistics.

Modules, one per concern:

| module | what it holds |
|---|---|
| `Schema` | The two tables' rows, the movement types, the error replies. Time is whole seconds and a date is a day number. Money is integer hundredths, which holds the two decimals of a `DECIMAL(10,2)` column exactly; the column's range bound is not modelled. |
| `Seqs` | The SQL building blocks on sequences: WHERE (`Filter`), SUM/COUNT, ORDER BY (an insertion sort under a total preorder) and LIMIT, with their algebra. |
| `Text` | `ORDER BY` on text (code-point order) and the `ILIKE` matcher. |
| `Registry` | The SKU handlers that only read, and the pure parts of create, update and delete. The update handler builds its SET list step by step, so it is a method. |
| `Ledger` | Movement types, the signed effect of a movement, the ledger fold, the request checks and the transaction list. |
| `Store` | The class `Inventory` holding both tables. Its methods are the handlers that write (record, create, update, delete). Its invariant `Valid()` says each SKU's quantity is its opening quantity plus the ledger's net movement for it, and that every movement references an existing SKU. |
| `Reports` | Dead stock, reorder, top-selling and slow-moving, with their derived columns, orders and summaries. |
| `Dashboard` | The overview figures, recent transactions, today's movements by type and the per-category statistics. Lemmas tie each figure to the report that lists the same rows. |

Effects outside the tables become parameters:

- `NOW()` and `CURRENT_DATE` are a `now` argument.
- A row's `created_at` is the `now` of the call that wrote it.
- Query-string and body fields are `Option` values. `None` stands for a
  field that is absent, or falsy in the handler's JavaScript test.

## Model

| member | source | states |
|---|---|---|
| `Schema.Lookup` | backend/src/routes/transactions.js:90-93 | `SELECT * FROM skus WHERE id`: none exactly when no row carries the id, otherwise a row of the table with that id |
| `Schema.LookupUnique` | backend/src/db/init.js:20 | under the primary key, looking up a row's id finds that very row |
| `Ledger.ParseType` | backend/src/routes/transactions.js:7 | a text names a movement type exactly when it is one of the four type names |
| `Ledger.CheckRequest` | backend/src/routes/transactions.js:67-88 | the checks run in order, each as an iff: a missing or falsy id, type or quantity (so quantity 0) is "required"; otherwise an unknown type is invalid-type; otherwise a negative quantity is "> 0"; success carries the request's id, type and a positive quantity |
| `Ledger.NullIfEmpty` | backend/src/routes/transactions.js:110 | an absent or empty reason/notes is stored as null, any other value unchanged |
| `Ledger.ReplayIsNet` | backend/src/routes/transactions.js:95-116 | applying the ledger's movements one by one to an opening quantity ends at that quantity plus the net movement |
| `Ledger.NetIsInMinusOut` | backend/src/routes/transactions.js:8 | the net movement of a SKU is the sum of its PURCHASE and RETURN quantities minus the sum of its SALE and DAMAGE quantities |
| `Ledger.NetMovementOrderFree` | backend/src/routes/transactions.js:95-116 | the net movement, and the replay from 0, do not depend on the order of the ledger |
| `Ledger.NetMovementAppend` | backend/src/routes/transactions.js:107-116 | appending a movement changes its own SKU's net by the signed quantity and no other SKU's net |
| `Ledger.NetMovementUnreferenced` | backend/src/db/init.js:35 | a SKU that no movement references has net movement 0 |
| `Ledger.Join` | backend/src/routes/transactions.js:15-20 | a row is joined iff its movement is in the ledger and it carries the name and category of that movement's SKU; each movement whose SKU exists gives exactly as many rows as it occurs, and one whose SKU is gone gives none |
| `Ledger.Selected` | backend/src/routes/transactions.js:24-42 | a joined row is kept iff it passes every supplied filter (SKU, type, from midnight of the start date, up to 23:59:59 of the end date) |
| `Ledger.ListTransactions` | backend/src/routes/transactions.js:13-47 | min(limit, matches) rows (default limit 100), each a matching joined row, newest first; no dropped row is newer than a kept one |
| `Text.SearchIsSubstring` | backend/src/routes/skus.js:18-21 | for search text without LIKE wildcards, `ILIKE '%q%'` holds iff q occurs in the name ignoring case |
| `Registry.ListSkus` | backend/src/routes/skus.js:10-25 | exactly the rows passing the category, name-search and `low_stock === "true"` filters, each as often as in the table, ordered by name |
| `Registry.ListSkusBySearch` | backend/src/routes/skus.js:18-21 | with only a search filter and search text without LIKE wildcards (`%`, `_`, `\`), a SKU is listed iff its name contains the search text ignoring case; empty text lists every SKU |
| `Registry.Categories` | backend/src/routes/skus.js:38-41 | each category in use exactly once, in ascending order, and nothing else |
| `Registry.GetSku` | backend/src/routes/skus.js:53-59 | success iff some row has the id, returning such a row; otherwise not-found |
| `Registry.NewSkuRow` | backend/src/routes/skus.js:69-87 | refused iff the name or category is missing or empty; otherwise the new row has the fresh id and the given fields, with reorder level 10, quantity 0 and price 0 where absent |
| `Registry.Patched` | backend/src/routes/skus.js:100-120 | name and category change only when non-empty, reorder level and price whenever present (0 included); id, quantity and creation time never change |
| `Registry.CollectAssignments` | backend/src/routes/skus.js:103-122 | the SET list is empty iff no field applies, and applying it to any row gives exactly the patched row |
| `Registry.ReferenceCount` | backend/src/routes/skus.js:152-156 | the count is 0 iff no movement references the id |
| `Store.LedgerBalance` | backend/src/routes/transactions.js:95-116 | under the ledger invariant a SKU's quantity is opening + Σ inflow − Σ outflow, and replaying the movements in any order from the opening quantity reaches it |
| `Store.RecordKeepsConsistent` | backend/src/routes/transactions.js:107-116 | appending a movement with the next id and moving its SKU's quantity by the signed amount keeps keys, references and the ledger invariant |
| `Store.CreateKeepsConsistent` | backend/src/routes/skus.js:83-87 | appending a SKU under the next id keeps every invariant, the new id being unused |
| `Store.UpdateKeepsConsistent` | backend/src/routes/skus.js:128-134 | rewriting fields other than id and quantity keeps every invariant |
| `Store.DeleteKeepsConsistent` | backend/src/routes/skus.js:162-165 | removing an unreferenced row removes exactly the rows with its id and keeps every invariant |
| `Store.Inventory.constructor` | backend/src/db/init.js:18-42 | empty tables with both id sequences at 1 satisfy the invariants |
| `Store.Inventory.Get` | backend/src/routes/skus.js:53-59 | the lookup's result; the quantity read is the opening quantity with the whole ledger replayed |
| `Store.Inventory.Record` | backend/src/routes/transactions.js:63-124 | errors in the handler's order, each leaving both tables unchanged; success iff the checks pass and the SKU exists; then the committed state below |
| `Store.Inventory.Commit` | backend/src/routes/transactions.js:95-123 | exactly one movement appended, only that SKU's quantity moved by +q (PURCHASE, RETURN) or −q (SALE, DAMAGE) even below zero, the reply's new quantity equal to the stored one |
| `Store.Inventory.Create` | backend/src/routes/skus.js:67-89 | refusal leaves the tables unchanged; success appends exactly the new row under a fresh id |
| `Store.Inventory.Update` | backend/src/routes/skus.js:97-139 | no applicable field is refused before the id is looked at; an unknown id is not found; both leave the tables unchanged; otherwise only that row changes, to its patched form |
| `Store.Inventory.Delete` | backend/src/routes/skus.js:147-169 | a referenced id is refused before the existence check; an unknown id is not found; both leave the tables unchanged; otherwise exactly that row goes |
| `Reports.RoundToUnit` | backend/src/routes/reports.js:42 | the nearest whole unit to an amount in hundredths, halves rounding up |
| `Reports.LastSale` | backend/src/routes/reports.js:13-16 | null iff the SKU never sold, otherwise the time of a sale of it that no other sale of it follows |
| `Reports.WholeDays` | backend/src/routes/reports.js:17-21 | the whole days in a span, truncated toward zero |
| `Reports.DeadStock` | backend/src/routes/reports.js:10-30 | one row per SKU with stock and no sale in 90 days; never-sold rows first, then days since the last sale descending |
| `Reports.DeadStockLongUnsold` | backend/src/routes/reports.js:17-28 | a dead-stock row that ever sold has its last sale before the 90-day window and at least 90 days since it |
| `Reports.NeverSoldIsDeadStock` | backend/src/routes/reports.js:13-29 | a SKU with stock and no sale at all is listed, with null last sale and days |
| `Reports.DeadStockSummary` | backend/src/routes/reports.js:32-43 | the summary counts the report's rows, and its total is the sum of their stock values to the nearest whole unit |
| `Reports.DeadStockValue` | backend/src/routes/reports.js:32-43 | the summary's total is the rounded stock value of the dead-stock SKUs |
| `Reports.Reorder` | backend/src/routes/reports.js:56-65 | one row per SKU at or below its level, shortage = level − quantity ≥ 0, suggestion = 2 × level; zero-quantity rows first, shortage non-increasing within each group |
| `Reports.ReorderSummaryOf` | backend/src/routes/reports.js:70-73 | the summary counts the report's rows; its out-of-stock figure is at most that count, and positive iff some row is at zero |
| `Reports.ReorderOutOfStock` | backend/src/routes/reports.js:72 | the summary's out-of-stock figure counts the SKUs both at or below their level and at zero |
| `Reports.TopRowFacts` | backend/src/routes/reports.js:89-97 | revenue = units sold × price; the sale count is positive iff the SKU sold in the window |
| `Reports.TopSelling` | backend/src/routes/reports.js:86-101 | min(10, sellers) rows, drawn from the rows of the SKUs with a sale in the window (default 30 days) with none repeated beyond its SKU's occurrences, by units sold descending; a left-out seller sold no more than any kept one |
| `Reports.TopSellingOnePerSku` | backend/src/routes/reports.js:97 | under the primary key no SKU appears twice in the top-selling report |
| `Reports.UnmovedIsZero` | backend/src/routes/reports.js:124-128 | a SKU with no movement in the window has total movement 0 |
| `Reports.SlowMoving` | backend/src/routes/reports.js:119-134 | min(10, SKUs with stock) rows, drawn from the rows of the SKUs with stock with none repeated beyond its SKU's occurrences, by movement ascending then stock value descending; a left-out SKU with stock ranks no earlier than any kept one (it moved more, or as much with no larger stock value) |
| `Reports.SlowMovingOnePerSku` | backend/src/routes/reports.js:129-132 | under the primary key no SKU appears twice in the slow-moving report |
| `Dashboard.OverviewOf` | backend/src/routes/dashboard.js:10-54 | totalSkus is the SKU count and bounds the other counts; outOfStock and deadStockCount are positive iff some SKU is at zero, respectively dead stock; stockValue is the inventory's value to the nearest whole unit |
| `Dashboard.OverviewMatchesReports` | backend/src/routes/dashboard.js:10-54 | totalSkus is the SKU count; reorderCount and deadStockCount are the report lengths; deadStockValue is the report's total; stockValue is the inventory's value to the nearest unit, 0 for no SKUs |
| `Dashboard.OutOfStockMatchesReorder` | backend/src/routes/dashboard.js:25-29 | with no negative reorder level, outOfStock equals the reorder report's out-of-stock figure |
| `Dashboard.OutOfStockDiverges` | backend/src/routes/dashboard.js:25-29 | a SKU at zero with reorder level −1 is counted by the overview's outOfStock and not by the reorder report's |
| `Dashboard.UnfilteredSelectsAll` | backend/src/routes/dashboard.js:56-60 | with no filter the transaction list selects every joined row |
| `Dashboard.RecentTransactions` | backend/src/routes/dashboard.js:56-62 | min(10, joined rows) rows drawn from the joined rows, none more often than it is joined, newest first, none dropped newer than one kept |
| `Dashboard.TodayStats` | backend/src/routes/dashboard.js:64-69 | a type has a row iff it occurred today; each row's count and total are that type's today; no type twice |
| `Dashboard.CategoryStats` | backend/src/routes/dashboard.js:71-77 | one row per category in use and no other, each with that category's SKU count, quantity sum and value sum, no category twice, value descending |
| `Dashboard.CategoryCountsAddUp` | backend/src/routes/dashboard.js:71-77 | the categories' SKU counts add up to the number of SKUs |

## Left out

- The HTTP layer is not modelled: Express routing, CORS, JSON encoding, status
  codes beyond `Schema.Status`, and the 500 replies on database errors.
- The database connection is not modelled. backend/src/db/connection.js
  exports a pg `Pool`, yet three route files call `db.all`, `db.get` and
  `db.run` on it. The model gives those queries their evident SQL meaning
  rather than the runtime failure.
- The DDL and seed script in backend/src/db/init.js is not modelled; only
  its schema shapes the datatypes.
- The frontend is not part of this model.
- The two writes of a recorded movement run with no transaction around
  them. `Store.Inventory.Commit` performs both in one step, so a partial
  failure or an interleaving with another request is not modelled.
- Floating point is not modelled. `parseFloat` and `Math.round` work on a
  double; here amounts are exact integer hundredths and `Reports.RoundToUnit`
  rounds an exact sum. Figures are exact even where a double would drift.
- Query-string coercion is not modelled. Values arrive as typed `Option`
  fields, so a non-numeric or negative `limit`, a non-numeric `days`, or a
  date that is not a date are outside the model. `limit` is a natural number.
- `Registry.NewSkuRow`: an explicit JSON `null` for a defaulted field is read
  as absent. The handler would pass the null on to the INSERT, where the
  column default does not apply.
- Text order and case folding are simplified. ORDER BY on text follows code
  points rather than the database collation. ILIKE folds only ASCII letters.
- Ties are not fixed. Rows a sort ranks equal come in no particular order in
  SQL; the model fixes one order and proves only the ordering properties.
- `Store.Inventory.Commit`: integer width is not modelled.
  `current_quantity` and `reorder_level` are 32-bit `INTEGER` columns, and
  `unit_price` stops at 99999999.99. A new quantity outside the 32-bit range
  would make the handler's UPDATE fail with a 500 after its INSERT has gone
  through, leaving a ledger row with no quantity change. The model's
  quantities are unbounded, so Commit always succeeds.
- `Registry.Patched`: an explicit JSON `null` for `reorder_level` or
  `unit_price` in an update is read as absent, so the old value is kept.
  The handler tests `!== undefined`, so it would write NULL to the column.
  `Store.Inventory.Update` and `Registry.CollectAssignments` inherit this.
- Timestamps are whole seconds on one clock, with no time zones. `DATE()`
  of a timestamp is its day number.
- `Store.Inventory.Record` and `Store.Inventory.Commit`: the reply's row holds
  the transaction's own columns and the SKU's name, category and new
  quantity. `created_at` is the call's `now` rather than the database clock.
