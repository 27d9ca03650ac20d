/**
 * The receiving page: pick a Received order, build one inventory entry
 * per order line from what the operator typed (or the defaults), and on
 * confirmation write the received quantities, append the entries to
 * Inventory and complete the order, in that order.
 */
module ReceivedPo {
  import opened Wrappers
  import opened Schema
  import PoHandler
  import RH = ReceiveHandler

  /** What the operator left in one line's quantity, expiry and location widgets. */
  datatype LineInput = LineInput(quantity: Option<nat>, expirationDate: int, storageLocation: string)

  /** The line's quantity widget starts at the stored received quantity, or at the ordered one when that is 0. */
  function DefaultQuantity(row: RH.PoItemRow): (q: int)
    ensures q == row.receivedQuantity || q == row.orderedQuantity
    ensures row.receivedQuantity != 0 ==> q == row.receivedQuantity
    ensures row.receivedQuantity == 0 ==> q == row.orderedQuantity
  {
    if row.receivedQuantity != 0 then row.receivedQuantity else row.orderedQuantity
  }

  /** The widgets of line `k`; untouched ones hold their defaults (today's date, an empty location). */
  function InputAt(inputs: seq<LineInput>, k: nat, today: int): (input: LineInput)
    ensures k < |inputs| ==> input == inputs[k]
    ensures k >= |inputs| ==> input.quantity.None? && input.expirationDate == today && input.storageLocation == ""
  {
    if k < |inputs| then inputs[k] else LineInput(None, today, "")
  }

  /** The quantity widget refuses (min_value=0) a default below 0. */
  function WidgetAccepts(row: RH.PoItemRow): (accepted: bool)
    ensures accepted <==> row.receivedQuantity >= 0 && (row.receivedQuantity == 0 ==> row.orderedQuantity >= 0)
  {
    DefaultQuantity(row) >= 0
  }

  /** The entry built for one line. */
  function EntryFor(row: RH.PoItemRow, input: LineInput): (e: RH.InventoryEntry)
    requires WidgetAccepts(row)
    ensures e.itemId == row.itemId && e.quantity >= 0
    ensures e.quantity == if input.quantity.Some? then input.quantity.value else DefaultQuantity(row)
    ensures e.expirationDate == input.expirationDate && e.storageLocation == input.storageLocation
  {
    var q := if input.quantity.Some? then input.quantity.value else DefaultQuantity(row);
    RH.InventoryEntry(row.itemId, q, input.expirationDate, input.storageLocation)
  }

  datatype Entries = Built(entries: seq<RH.InventoryEntry>) | WidgetError(row: nat)

  /** The index of the first line whose widget refuses its default, or the number of lines. */
  function FirstRefused(rows: seq<RH.PoItemRow>): (k: nat)
    ensures k <= |rows|
    ensures forall j :: 0 <= j < k ==> WidgetAccepts(rows[j])
    ensures k < |rows| ==> !WidgetAccepts(rows[k])
  {
    if rows == [] || !WidgetAccepts(rows[0]) then 0 else 1 + FirstRefused(rows[1..])
  }

  /**
   * The entry list the page builds: one entry per line, in line order,
   * carrying the line's item; or the first line whose widget fails.
   */
  ghost function EntriesFor(rows: seq<RH.PoItemRow>, inputs: seq<LineInput>, today: int): (r: Entries)
    ensures r.Built? <==> FirstRefused(rows) == |rows|
    ensures r.WidgetError? ==> r.row == FirstRefused(rows)
    ensures r.Built? ==> |r.entries| == |rows|
    ensures r.Built? ==> forall k :: 0 <= k < |rows| ==> r.entries[k] == EntryFor(rows[k], InputAt(inputs, k, today))
  {
    var k := FirstRefused(rows);
    if k < |rows| then WidgetError(k)
    else Built(seq(|rows|, j requires 0 <= j < |rows| => EntryFor(rows[j], InputAt(inputs, j, today))))
  }

  /** The loop that appends one entry per line to `inventory_entries`. */
  method BuildEntries(rows: seq<RH.PoItemRow>, inputs: seq<LineInput>, today: int) returns (r: Entries)
    ensures r == EntriesFor(rows, inputs, today)
  {
    var entries: seq<RH.InventoryEntry> := [];
    var i := 0;
    while i < |rows|
      invariant 0 <= i <= |rows|
      invariant forall j :: 0 <= j < i ==> WidgetAccepts(rows[j])
      invariant |entries| == i
      invariant forall j :: 0 <= j < i ==> entries[j] == EntryFor(rows[j], InputAt(inputs, j, today))
    {
      if !WidgetAccepts(rows[i]) {
        return WidgetError(i);
      }
      var input := InputAt(inputs, i, today);
      var quantity := if input.quantity.Some? then input.quantity.value else DefaultQuantity(rows[i]);
      entries := entries + [RH.InventoryEntry(rows[i].itemId, quantity, input.expirationDate, input.storageLocation)];
      i := i + 1;
    }
    return Built(entries);
  }

  /** The received-quantity UPDATEs of the entries, applied in entry order. */
  function ApplyReceived(lines: seq<PurchaseOrderItem>, poid: int, entries: seq<RH.InventoryEntry>): seq<PurchaseOrderItem>
  {
    if entries == [] then lines
    else
      var last := entries[|entries| - 1];
      RH.WithReceivedQuantity(ApplyReceived(lines, poid, entries[..|entries| - 1]), poid, last.itemId, last.quantity)
  }

  /** The quantity of the last entry for the item, if there is one. */
  function LastQuantityFor(entries: seq<RH.InventoryEntry>, itemId: int): Option<int> {
    if entries == [] then None
    else if entries[|entries| - 1].itemId == itemId then Some(entries[|entries| - 1].quantity)
    else LastQuantityFor(entries[..|entries| - 1], itemId)
  }

  /**
   * After the UPDATEs, each line of the order whose item has an entry holds
   * that entry's quantity (the last one's, should there be several); every
   * other line, and every other column, is as it was.
   */
  lemma {:induction false} ApplyReceivedSetsEachLine(lines: seq<PurchaseOrderItem>, poid: int, entries: seq<RH.InventoryEntry>)
    ensures var after := ApplyReceived(lines, poid, entries);
      && |after| == |lines|
      && forall k :: 0 <= k < |lines| ==>
           after[k] == if lines[k].poid == poid && LastQuantityFor(entries, lines[k].itemId).Some?
                       then lines[k].(receivedQuantity := LastQuantityFor(entries, lines[k].itemId).value)
                       else lines[k]
  {
    if entries != [] {
      ApplyReceivedSetsEachLine(lines, poid, entries[..|entries| - 1]);
      var last := entries[|entries| - 1];
      var before := ApplyReceived(lines, poid, entries[..|entries| - 1]);
      RH.ReceivedQuantityOverwrites(before, poid, last.itemId, last.quantity, last.quantity);
    }
  }

  /** The confirm button's received-quantity UPDATEs, one per entry, in entry order. */
  method UpdateReceivedQuantities(db: Database, poid: int, entries: seq<RH.InventoryEntry>)
    modifies db`purchaseOrderItems
    ensures db.purchaseOrderItems == ApplyReceived(old(db.purchaseOrderItems), poid, entries)
  {
    var i := 0;
    while i < |entries|
      invariant 0 <= i <= |entries|
      invariant db.purchaseOrderItems == ApplyReceived(old(db.purchaseOrderItems), poid, entries[..i])
    {
      assert entries[..i + 1][..i] == entries[..i];
      RH.UpdateReceivedQuantity(db, poid, entries[i].itemId, entries[i].quantity);
      i := i + 1;
    }
    assert entries[..i] == entries;
  }

  /**
   * The confirm button: the quantity UPDATEs, the stock INSERT and the
   * status UPDATE, in that order. The order then leaves the received list
   * and each item's stock rises by its entries.
   */
  method ConfirmReceipt(db: Database, poid: int, entries: seq<RH.InventoryEntry>, today: int)
    requires db.Valid()
    modifies db`purchaseOrderItems, db`inventory, db`purchaseOrders
    ensures db.Valid()
    ensures db.purchaseOrderItems == ApplyReceived(old(db.purchaseOrderItems), poid, entries)
    ensures db.inventory == old(db.inventory) + RH.EntryRows(entries, today)
    ensures db.purchaseOrders == RH.CompletedAt(old(db.purchaseOrders), poid)
    ensures forall r :: r in RH.GetReceivedPos(db.purchaseOrders, db.suppliers) ==> r.poid != poid
    ensures forall id :: PoHandler.InventorySum(db.inventory, id)
                         == PoHandler.InventorySum(old(db.inventory), id) + RH.EntriesSum(entries, id)
  {
    UpdateReceivedQuantities(db, poid, entries);
    RH.AddItemsToInventory(db, entries, today);
    RH.MarkPoCompleted(db, poid);
    RH.CompletedOrderLeavesReceivedList(old(db.purchaseOrders), db.suppliers, poid);
    forall id ensures PoHandler.InventorySum(db.inventory, id)
                      == PoHandler.InventorySum(old(db.inventory), id) + RH.EntriesSum(entries, id) {
      PoHandler.InventorySumAppend(old(db.inventory), RH.EntryRows(entries, today), id);
      RH.EntryRowsSum(entries, today, id);
    }
  }

  /** What the page ends with. */
  datatype TabOutcome =
    | NoReceivedPos
    | NoItems(poid: int)
    | EntryError(poid: int, row: nat)
    | AwaitingConfirm(poid: int, entries: seq<RH.InventoryEntry>)
    | Confirmed(poid: int, entries: seq<RH.InventoryEntry>)

  /**
   * One run of the page. `choice` is the selected order's position in the
   * list, `inputs` the operator's widgets, `confirm` the button, `today`
   * CURRENT_DATE. Nothing is written unless the order has lines, every
   * widget accepted its default and the button was pressed.
   */
  method ReceivedPoTab(db: Database, choice: nat, inputs: seq<LineInput>, confirm: bool, today: int)
    returns (outcome: TabOutcome)
    requires db.Valid()
    requires RH.GetReceivedPos(db.purchaseOrders, db.suppliers) != [] ==>
      choice < |RH.GetReceivedPos(db.purchaseOrders, db.suppliers)|
    modifies db`purchaseOrderItems, db`inventory, db`purchaseOrders
    ensures db.Valid()
    ensures var received := RH.GetReceivedPos(old(db.purchaseOrders), db.suppliers);
      received == [] ==> outcome == NoReceivedPos
    ensures var received := RH.GetReceivedPos(old(db.purchaseOrders), db.suppliers);
      received != [] ==>
        && !outcome.NoReceivedPos?
        && outcome.poid == received[choice].poid
        && var rows := RH.GetPoItems(old(db.purchaseOrderItems), db.items, outcome.poid);
           && (rows == [] ==> outcome == NoItems(outcome.poid))
           && (rows != [] ==>
                 match EntriesFor(rows, inputs, today)
                 case WidgetError(k) => outcome == EntryError(outcome.poid, k)
                 case Built(entries) =>
                   outcome == if confirm then Confirmed(outcome.poid, entries) else AwaitingConfirm(outcome.poid, entries))
    ensures !outcome.Confirmed? ==>
      && db.purchaseOrderItems == old(db.purchaseOrderItems)
      && db.inventory == old(db.inventory)
      && db.purchaseOrders == old(db.purchaseOrders)
    ensures outcome.Confirmed? ==>
      && db.purchaseOrderItems == ApplyReceived(old(db.purchaseOrderItems), outcome.poid, outcome.entries)
      && db.inventory == old(db.inventory) + RH.EntryRows(outcome.entries, today)
      && db.purchaseOrders == RH.CompletedAt(old(db.purchaseOrders), outcome.poid)
      && (forall r :: r in RH.GetReceivedPos(db.purchaseOrders, db.suppliers) ==> r.poid != outcome.poid)
      && (forall id :: PoHandler.InventorySum(db.inventory, id)
                       == PoHandler.InventorySum(old(db.inventory), id) + RH.EntriesSum(outcome.entries, id))
  {
    var received := RH.GetReceivedPos(db.purchaseOrders, db.suppliers);
    if received == [] {
      return NoReceivedPos;
    }
    var poid := received[choice].poid;
    var rows := RH.GetPoItems(db.purchaseOrderItems, db.items, poid);
    if rows == [] {
      return NoItems(poid);
    }
    var built := BuildEntries(rows, inputs, today);
    if built.WidgetError? {
      return EntryError(poid, built.row);
    }
    var entries := built.entries;
    if !confirm {
      return AwaitingConfirm(poid, entries);
    }
    ConfirmReceipt(db, poid, entries, today);
    return Confirmed(poid, entries);
  }

  /**
   * Receiving links back to the low-stock proposal: once the entries bring
   * an item's stock up to its threshold, the item (with distinct supplier
   * names) is no longer proposed.
   */
  lemma ReceiptClearsLowStock(items: map<int, Item>, inventory: seq<InventoryRow>, links: set<(int, int)>,
                              suppliers: map<int, string>, entries: seq<RH.InventoryEntry>, today: int, itemId: int)
    requires itemId in items
    requires PoHandler.DistinctSupplierNames(links, suppliers, itemId)
    requires NumberOf(Cell(items[itemId].cols, Threshold)).Some?
    requires PoHandler.InventorySum(inventory, itemId) + RH.EntriesSum(entries, itemId)
             >= NumberOf(Cell(items[itemId].cols, Threshold)).value
    ensures forall r :: (r in PoHandler.GetLowStockItemsWithSupplier(items, inventory + RH.EntryRows(entries, today), links, suppliers))
                        ==> r.itemId != itemId
  {
    var after := inventory + RH.EntryRows(entries, today);
    PoHandler.InventorySumAppend(inventory, RH.EntryRows(entries, today), itemId);
    RH.EntryRowsSum(entries, today, itemId);
    PoHandler.LowStockRowsForItem(items, after, links, suppliers, itemId);
  }
}
