# AMAS-Inventory data rules in Dafny

AMAS-Inventory is a web app for a small stock room. It keeps a catalogue
of items, their suppliers and batches of stock, and it handles purchase
orders from proposal to receipt. It also produces a supplier-performance
report. Its pages are thin forms over SQL queries. This project models the
queries and the pages' data logic, and proves what they guarantee:

- the tables of the database are fields of one `Schema.Database` class;
- each handler's commands are methods that change those fields;
- each handler's queries are functions over them;
- each page becomes either a method that applies the commands it issues,
  in their order, or a function from its inputs to what it shows and what
  it asks for.

The modules follow the program's files:

| module | models |
|---|---|
| `Schema` | tables, cell values, Python truthiness, the `Database` class |
| `Relational` | `drop_duplicates`/`unique` (`Dedup`) and `dict(zip(...))` (`ToDict`, where the last pair wins) |
| `PoHandler` | low-stock query, automatic orders, order listing |
| `ReceiveHandler` | received orders, stock entry, completion, storage locations |
| `ReceivedPo` | the page that books in a received order |
| `ItemHandler` | items, item–supplier links, dropdown lists |
| `AddItem` | the add-item form |
| `ManualPo` | the manual order form |
| `TrackPo` | the order tracking page |
| `ProposedPo` | the page reviewing supplier proposals |
| `ReportHandler` | the supplier-performance query |
| `SupPerformance` | the supplier-performance report |

How the model represents things:

- Keyed tables (Item, Supplier) are maps.
- Link tables with a uniqueness constraint are sets.
- The other tables are sequences in scan order.
- A query without an ORDER BY returns rows in no guaranteed order. Its
  result is a set when only membership matters. Otherwise it is the
  sequence in scan order, and the contracts then speak of membership.
- Dates are day numbers; timestamps are integers.
- Prices are whole cents.
- The current date and time are parameters.
- PoHandler.SendAutoPo: every inserted order gets the same `now`. In the code each INSERT runs in its own transaction with its own CURRENT_TIMESTAMP, so the order dates may differ slightly.
- Widget values are parameters too. A widget left untouched sends its
  default.

## Model

| member | source | states |
|---|---|---|
| PoHandler.InventorySumAppend | PO/po_handler.py:10-14 | an item's SUM(Quantity) over two batches of rows is the sum over the first plus the sum over the second |
| PoHandler.GetLowStockItemsWithSupplier | PO/po_handler.py:5-16 | each proposed row is for an existing item that has inventory rows, names one of its linked existing suppliers and carries the item's name |
| PoHandler.LowStockRowsForItem | PO/po_handler.py:5-16 | when the linked suppliers' names are distinct, each row of the item has a linked supplier, the item has inventory rows and its stock is below the threshold, and RequiredQuantity = AverageRequired − stock; a row appears for every linked supplier exactly when the item has inventory and its stock is below the threshold |
| PoHandler.SingleNamedLink | PO/po_handler.py:11-13 | when names are distinct, a supplier-name group of an item holds exactly one link |
| PoHandler.NoInventoryRowsNoProposal | PO/po_handler.py:10 | an item without inventory rows has stock 0, yet the inner join never proposes it |
| PoHandler.NoSupplierNoProposal | PO/po_handler.py:11-12 | an item linked to no existing supplier is never proposed |
| PoHandler.NegativeRequiredQuantity | PO/po_handler.py:8-14 | stock 8 below threshold 10 but above target 5 is proposed with required quantity −3 |
| PoHandler.SharedSupplierNameCountsStockTwice | PO/po_handler.py:13-14 | two linked suppliers with the same name double the group sum, so an item under its threshold is not proposed |
| PoHandler.FirstFailure | PO/po_handler.py:18-25 | index of the first row whose insert fails (NULL quantity, or a supplier name matching several rows); every earlier row inserts |
| PoHandler.AutoOrder | PO/po_handler.py:20-24 | the inserted order is Pending, dated now, for the row's item and quantity; its supplier has the row's supplier name, and is NULL exactly when no supplier has that name |
| PoHandler.AutoOrders | PO/po_handler.py:18-25 | one order per row, numbered consecutively from the next POID |
| PoHandler.SendAutoPo | PO/po_handler.py:18-25 | appends the orders of the rows before the first failing one, advances the POID serial by that count, and reports the failing row and its cause |
| PoHandler.InsertAutoOrder | PO/po_handler.py:20-24 | one INSERT appends that row's order and advances the serial |
| PoHandler.LookUpSupplier | PO/po_handler.py:21-22 | the scalar sub-query gives NULL when no supplier has the name, else that one supplier |
| PoHandler.JoinedOrders | PO/po_handler.py:27-32 | a listing row exists exactly for each order whose item and supplier both exist, and there are no more rows than orders |
| PoHandler.InsertByDate | PO/po_handler.py:33 | inserting into a newest-first list keeps it newest-first and adds exactly that row |
| PoHandler.SortNewestFirst | PO/po_handler.py:33 | the result is newest-first and a permutation of its input |
| PoHandler.GetAllPurchaseOrders | PO/po_handler.py:27-35 | newest-first, a permutation of the joined rows, and a row exists exactly for each order whose item and supplier exist |
| ReceiveHandler.GetReceivedPos | receive_items/receive_handler.py:6-14 | a row exists exactly for each Received order whose supplier exists |
| ReceiveHandler.GetPoItems | receive_items/receive_handler.py:16-24 | a row exists exactly for each line of that order whose item exists, with its ordered and received quantities |
| ReceiveHandler.EntryRows | receive_items/receive_handler.py:26-38 | one inventory row per entry, in entry order |
| ReceiveHandler.AddItemsToInventory | receive_items/receive_handler.py:26-38 | appends one new inventory row per entry, each dated today |
| ReceiveHandler.EntryRowsAppend | receive_items/receive_handler.py:30-37 | one more entry gives exactly one more row at the end |
| ReceiveHandler.EntryRowsSum | receive_items/receive_handler.py:26-38 | the new rows raise each item's stock by the sum of its entries' quantities |
| ReceiveHandler.NoMergeOfBatches | receive_items/receive_handler.py:30-37 | an entry matching an existing row's item, expiry and location still becomes a separate row; the old row is kept |
| ReceiveHandler.CompletedAt | receive_items/receive_handler.py:43-45 | the UPDATE keeps every order and its POID, and the matching order's status becomes Completed |
| ReceiveHandler.CompletedAtChangesOnlyThatOrder | receive_items/receive_handler.py:40-47 | only that order's status changes, to Completed; other orders and columns are unchanged; repeating the update changes nothing |
| ReceiveHandler.MarkPoCompleted | receive_items/receive_handler.py:40-47 | the orders become CompletedAt of the old orders |
| ReceiveHandler.CompletedOrderLeavesReceivedList | receive_items/receive_handler.py:12 | after completion the order no longer appears among the received orders |
| ReceiveHandler.WithReceivedQuantity | receive_items/receive_handler.py:51-54 | the UPDATE keeps every line with its POID, item and ordered quantity, and the matching line's received quantity becomes the given one |
| ReceiveHandler.ReceivedQuantityOverwrites | receive_items/receive_handler.py:49-56 | the matching line's received quantity is set, not added to; other lines are unchanged; a later write replaces an earlier one |
| ReceiveHandler.OverReceiptIsStored | receive_items/receive_handler.py:49-56 | 12 received on a line ordered as 10 is stored as 12 |
| ReceiveHandler.UpdateReceivedQuantity | receive_items/receive_handler.py:49-56 | order lines become WithReceivedQuantity of the old lines |
| ReceiveHandler.GetItemsWithLocations | receive_items/receive_handler.py:59-66 | each row is for an existing item with its name; a location other than "Not Assigned" is the stored location of one of the item's inventory rows; "Not Assigned" appears only for an item with no inventory or with an inventory row whose location is NULL or "Not Assigned" |
| ReceiveHandler.EveryItemListed | receive_items/receive_handler.py:59-66 | every item is listed; an item without stock has "Not Assigned"; each of its rows' locations is listed, with "Not Assigned" for NULL |
| ReceiveHandler.Relocated | receive_items/receive_handler.py:71-74 | the UPDATE keeps every inventory row with its item, quantity and expiry, and each row of the item gets the new location |
| ReceiveHandler.RelocatedMovesOnlyThatItem | receive_items/receive_handler.py:69-76 | all the item's rows move to the new location; other rows are unchanged; no item's stock changes |
| ReceiveHandler.UpdateItemLocation | receive_items/receive_handler.py:69-76 | the inventory becomes Relocated of the old inventory |
| ReceivedPo.DefaultQuantity | receive_items/received_po.py:36 | the quantity widget starts at the stored received quantity when it is non-zero, else at the ordered one |
| ReceivedPo.InputAt | receive_items/received_po.py:34-49 | a line's widget values as entered, or untouched widgets: no quantity typed, today's date, an empty location |
| ReceivedPo.WidgetAccepts | receive_items/received_po.py:34-39 | the default respects min_value 0 exactly when the received quantity is not negative and, when it is 0, the ordered one is not negative |
| ReceivedPo.EntryFor | receive_items/received_po.py:33-56 | the entry is for the line's item, with the typed quantity or the default (received, else ordered), and the chosen expiry and location |
| ReceivedPo.FirstRefused | receive_items/received_po.py:36-37 | index of the first line whose default quantity is below the widget's minimum 0 |
| ReceivedPo.EntriesFor | receive_items/received_po.py:29-56 | entries exist exactly when no line's default is refused, otherwise the error names the first refused line; one entry per line |
| ReceivedPo.BuildEntries | receive_items/received_po.py:29-56 | the loop returns EntriesFor of its inputs |
| ReceivedPo.ApplyReceivedSetsEachLine | receive_items/received_po.py:59-60 | after the update loop, each line of the order that has an entry holds the last such entry's quantity, and every other line is unchanged |
| ReceivedPo.UpdateReceivedQuantities | receive_items/received_po.py:59-60 | the update loop leaves the order lines as ApplyReceived of the old lines and the entries, in entry order |
| ReceivedPo.ConfirmReceipt | receive_items/received_po.py:58-63 | quantities updated, the entries' rows appended and the order Completed, in that order; the order then leaves the received list and each item's stock rises by its entries |
| ReceivedPo.ReceivedPoTab | receive_items/received_po.py:6-66 | each page outcome, in order: no received orders, no lines, widget error, awaiting confirmation, confirmed; the database is unchanged unless confirmed; on confirmation: received quantities set, the entries' rows appended, the order Completed and no longer listed, and each item's stock raised by its entries |
| ReceivedPo.ReceiptClearsLowStock | receive_items/received_po.py:62 | when names are distinct and received stock reaches the threshold, the item is no longer proposed for reordering |
| ItemHandler.GetItemSuppliers | item/item_handler.py:46-57 | a name is returned exactly when an existing supplier of that name is linked to the item |
| ItemHandler.Linked | item/item_handler.py:78-96 | the links gain exactly (item, s) for each given s; no ids means no change |
| ItemHandler.Unlinked | item/item_handler.py:120-122 | all links of the item are removed, and only those |
| ItemHandler.BuildLinkParams | item/item_handler.py:86-89 | the flat parameter list alternates item id and supplier id, two per supplier |
| ItemHandler.PairsOfParams | item/item_handler.py:86-89 | the parameter list encodes exactly the pairs (item, s) for the given suppliers |
| ItemHandler.LinkItemSuppliers | item/item_handler.py:78-96 | the links become Linked of the old links |
| ItemHandler.LinkingIsIdempotent | item/item_handler.py:91-96 | thanks to ON CONFLICT DO NOTHING, linking twice equals linking once, and linking never removes a link |
| ItemHandler.UpdateItemSuppliers | item/item_handler.py:116-127 | deletes the item's links and inserts one per id; it fails exactly when an id repeats, at the first repeat, with the ids before it linked; on success the item's links are exactly the ids and other items' links are unchanged |
| ItemHandler.ReplacedSupplierNames | item/item_handler.py:116-127 | after replacement the item's supplier names are exactly those of the newly chosen existing suppliers |
| ItemHandler.AddItem | item/item_handler.py:59-76 | when the insert returns an id: a fresh item with the data and both timestamps now, the id serial advanced, and the given suppliers linked; otherwise nothing changes |
| ItemHandler.Updated | item/item_handler.py:98-114 | only that item changes: the given columns take the new values, others keep theirs, CreatedAt is kept and UpdatedAt is now |
| ItemHandler.UpdateItem | item/item_handler.py:98-114 | an empty update warns and changes nothing; otherwise the items become Updated |
| ItemHandler.GetDropdownValues | item/item_handler.py:130-139 | a value is returned exactly when it is stored under that section |
| ItemHandler.AddDropdownValue | item/item_handler.py:141-150 | the pair is added, and nothing else changes |
| ItemHandler.DeleteDropdownValue | item/item_handler.py:152-157 | the pair is removed, and nothing else changes |
| ItemHandler.DropdownEdits | item/item_handler.py:141-157 | adding offers the value in its section, deleting withdraws just that value, other sections are untouched, and adding twice is adding once |
| AddItem.FieldLists | item/add_item.py:12-38 | each of the three field lists holds exactly the columns of its kind |
| AddItem.ItemData | item/add_item.py:40-68 | every form column is present: text as typed or "", numbers ≥ 0 as typed or 0, dropdowns the choice or "" when the section has no values |
| AddItem.BuildItemData | item/add_item.py:44-68 | the three loops build ItemData |
| AddItem.MissingOf | item/add_item.py:86-89 | a field is listed exactly when it is required and its value is falsy |
| AddItem.MissingFields | item/add_item.py:83-89 | no field is missing exactly when every required field is truthy |
| AddItem.ZeroNumberIsMissing | item/add_item.py:86-89 | a required number left at 0 counts as missing |
| AddItem.EmptySectionIsMissing | item/add_item.py:55-65 | a required dropdown whose section has no values counts as missing |
| AddItem.SupplierOptions | item/add_item.py:77 | the options are exactly the listed supplier names, each mapped to the id of the last row with that name |
| AddItem.SelectedIds | item/add_item.py:77-80 | one id per chosen name, namely the last supplier row with that name, as dict(zip) keeps |
| AddItem.AddItemTab | item/add_item.py:97-101 | outcomes in order: not clicked, missing fields, no supplier chosen, added or failed; nothing changes unless an item is added |
| AddItem.ChosenSuppliersLinked | item/add_item.py:71-101 | after adding, each chosen name's supplier is linked to the new item and has that name |
| ManualPo.InputFor | PO/manualpo.py:28-29 | an item's widget values as entered, or untouched widgets: no quantity typed (so 1) and a price of 0 |
| ManualPo.PriceOrNone | PO/manualpo.py:34 | a price of 0 is sent as NULL, any other price as itself |
| ManualPo.LineFor | PO/manualpo.py:28-34 | the line is for the item, with the typed quantity (≥ 1) or 1 by default, and the price or NULL |
| ManualPo.PoLinesFor | PO/manualpo.py:21-35 | one line per chosen item name, for the last item row with that name |
| ManualPo.BuildPoLines | PO/manualpo.py:21-35 | the loop returns PoLinesFor |
| ManualPo.LinesHaveDistinctItems | PO/manualpo.py:21-35 | when item ids are unique, distinct chosen names give lines for distinct items, so no item is ordered twice in one order |
| ManualPo.ManualPoTab | PO/manualpo.py:13-41 | no suppliers is a key error; not submitted or no items shows nothing to create; otherwise a create request for the supplier with one line per item, each with quantity ≥ 1 |
| TrackPo.Summary | PO/trackpo.py:19-20 | the distinct summary rows, exactly those occurring, no more than the rows, in order of first appearance |
| TrackPo.Details | PO/trackpo.py:32 | exactly the rows of the chosen order |
| TrackPo.DetailsCount | PO/trackpo.py:32 | each row of the chosen order is kept as often as the listing has it, and no other row is kept |
| TrackPo.OfferedActions | PO/trackpo.py:76-93 | Mark as Received is offered exactly when the status is not Received; Accept and Decline exactly for a proposal |
| TrackPo.TrackPoTab | PO/trackpo.py:15-93 | empty shows no orders; the panel shows the chosen order's details, its actions and the proposal columns; a NULL expected date (or proposed date for a proposal) stops the page, so a panel always has those dates; a click requests the matching handler call |
| TrackPo.SelectedOrderHasDetails | PO/trackpo.py:27-36 | a chosen order always has detail rows, so the "no details" branch is unreachable |
| TrackPo.MarkReceivedOfferedUnlessReceived | PO/trackpo.py:76-81 | Completed and Declined orders still offer Mark as Received; a Received one does not |
| ProposedPo.ProposedRows | PO/proposedpo.py:15 | exactly the proposed rows |
| ProposedPo.ProposedPoids | PO/proposedpo.py:22 | the distinct proposed order ids, exactly those occurring, in order of first appearance |
| ProposedPo.NoteText | PO/proposedpo.py:27 | a NULL or empty note shows "No note provided", any other note itself |
| ProposedPo.DateLineOf | PO/proposedpo.py:31-44 | dates are shown exactly when a delivery date was proposed, with the original and the proposed date |
| ProposedPo.BlockFor | PO/proposedpo.py:22-44 | a block holds the order's proposed rows and shows the supplier, note and dates of its first row |
| ProposedPo.Blocks | PO/proposedpo.py:22-44 | one block per given order, in order, each with that order's rows and its first row's supplier, note and dates |
| ProposedPo.ProposedPoTab | PO/proposedpo.py:17-84 | no proposals exactly when no row is proposed; otherwise one block per proposed order, holding that order's proposed rows in listing order and showing its first row's supplier name, note and dates; a click on Accept, Modify or Decline gives the matching call or notice |
| ProposedPo.EveryListedOrderHasLines | PO/proposedpo.py:22-24 | every listed proposed order has at least one line in its block |
| ReportHandler.RowOf | reports/report_handler.py:11-13 | a joined row carries the order's POID, dates and Completed status, its supplier's name and the line's ordered and received quantities |
| ReportHandler.RowsOfOrder | reports/report_handler.py:7-19 | a row exists exactly for each line of a Completed order whose supplier exists |
| ReportHandler.GetSupplierPerformanceData | reports/report_handler.py:7-19 | a row exists exactly for some order and one of its lines, when the order is Completed and its supplier exists |
| ReportHandler.RowsPerOrder | reports/report_handler.py:15-17 | with unique POIDs, an order gives as many rows as it has lines if it contributes, else none |
| ReportHandler.NoRowsForAbsentOrder | reports/report_handler.py:16 | an order without lines gives no rows |
| SupPerformance.DelayDays | reports/sup_performance.py:19 | the delay is actual − expected, and is missing when either date is NULL |
| SupPerformance.OnTime | reports/sup_performance.py:20 | on time exactly when both dates are known and the delivery came no later than expected; a NULL date is never on time |
| SupPerformance.QuantityMatch | reports/sup_performance.py:21 | accurate exactly when the received quantity equals the ordered one; short and over deliveries are both inaccurate |
| SupPerformance.Aggregate | reports/sup_performance.py:24-29 | no rows give no groups, and every group holds at least one row |
| SupPerformance.AggregateKeys | reports/sup_performance.py:24-29 | a supplier name is a key exactly when some row has it |
| SupPerformance.AggregateEntry | reports/sup_performance.py:24-29 | a name's entry counts its rows, on-time rows, accurate rows and known delays, and sums those delays |
| SupPerformance.RatesBounded | reports/sup_performance.py:32-33 | a listed supplier has at least one row, and its on-time, accurate and known-delay counts never exceed its rows, so both rates lie between 0% and 100% |
| SupPerformance.RateBelow | reports/sup_performance.py:32-33 | comparing count/total×100 with a bound is the same as comparing 100×count with bound×total |
| SupPerformance.LowPerformer | reports/sup_performance.py:48-50 | a supplier is low exactly when its on-time rate or its accuracy rate, as count/total×100, is below 80 |
| SupPerformance.AvgDelay | reports/sup_performance.py:34 | without known delays the average is 0 (fillna(0)), else the delay sum over their count |
| SupPerformance.AvgDelayOfRows | reports/sup_performance.py:28-34 | a supplier's AvgDelayDays is the mean of the known delays of its rows, as (sum, count), or 0 when none of its rows has both dates |
| SupPerformance.SupPerformanceTab | reports/sup_performance.py:12-59 | no data exactly when there are no rows; otherwise the aggregates and, as low performers, exactly the names with on-time or accuracy rate below 80% |
| SupPerformance.TwoLineOrderCountsTwice | reports/sup_performance.py:24-25 | an order with two lines counts as two orders in TotalOrders |
| Relational.Dedup | PO/trackpo.py:20 | first occurrences in order: the same members, no repeats, no longer than the input |
| Relational.ToDict | item/add_item.py:77 | a key maps to the value of its last pair, and keys are exactly those occurring |

## Left out

- The database wrapper that runs the SQL is not part of this model. A failing statement is taken to raise and end the call. Each command is its own transaction.
- Data that rows may receive on insert, such as `INSERT … RETURNING`, is a parameter (`stored` in `ItemHandler.AddItem` and `AddItem.AddItemTab`), because it depends on the database.
- Floating point is not modelled. Rates are compared by integer cross-multiplication. The mean delay is kept as an exact pair (sum, count), and the rounding to two decimals is not modelled.
- AddItem.AddItemTab: the page calls add_item, get_dropdown_values and get_suppliers on a bare `DatabaseManager` (item/add_item.py:2-4, 54, 71, 97), whose methods are not part of this model. The model takes them to be ItemHandler's.
- AddItem.AddItemTab: ItemHandler's get_suppliers (item/item_handler.py:39-44) lower-cases its column names, but the form reads "SupplierName"/"SupplierID". As written, this would most likely raise a KeyError whenever a supplier exists. The model assumes the intended columns are found.
- SupPerformance: the report reads the columns "POID", "SupplierName", "OrderedQuantity", "ReceivedQuantity", "ActualDelivery" and "ExpectedDelivery". The query selects them unquoted and without aliases, so PostgreSQL returns them lower-cased. The model assumes the intended columns are found.
- Printing prices with `:.2f` is not modelled. On the tracking page the proposed price of a proposal is formatted without a NULL check, so a NULL there would fail. The proposal page checks both prices with `pd.notnull` first. Only the NULL-date failures of `strftime` are modelled.
- `st.rerun`, session state, page layout and messages are not modelled. The pages are modelled for one render with the given widget values.
- Duplicate widget keys are not modelled.
- Foreign-key violations are not modelled. A link or order line naming a missing row is stored.
- The handlers create_manual_po, accept_proposed_po, decline_proposed_po and update_po_status_to_received are not part of this model. The pages' requests to them are returned as values (`TrackPo.HandlerCall`, `ManualPo.ManualPoOutcome.CreateRequested`).
- The tracking and proposal pages read proposal columns, such as the proposed status, dates, prices and note. The order listing does not select these, so those pages are modelled over a record of the columns they read (`TrackPo.PoDetailRow`).
- The order of rows from queries without ORDER BY is not modelled. GetItemSuppliers, GetDropdownValues, GetItemsWithLocations and the low-stock query return sets, and their duplicates collapse.
- The code enforces none of these rules, and the model keeps them unenforced:
  - the stock entry never merges with an existing batch (see `ReceiveHandler.NoMergeOfBatches`);
  - received quantities are not checked against ordered ones (see `ReceiveHandler.OverReceiptIsStored`);
  - status changes are not checked for valid transitions;
  - the low-stock query groups by supplier name, not by supplier (see `PoHandler.SharedSupplierNameCountsStockTwice`).
- Sign-in, user management, bulk import, the dropdown admin page, item editing and the archived, main and near-expiry pages are not part of this model. They are outside the core.
- ReceivedPo.ReceivedPoTab: the expiry date is any day number. An untouched date widget sends today. Nothing bounds the date.
