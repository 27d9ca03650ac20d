/**
 * The receiving handler: the two queries the receiving page reads, the
 * three UPDATEs and the INSERT loop it writes with, and the item-location
 * query and update.
 */
module ReceiveHandler {
  import opened Wrappers
  import opened Schema
  import PoHandler

  // ---------------------------------------------------------------------
  // get_received_pos
  // ---------------------------------------------------------------------

  datatype ReceivedPoRow = ReceivedPoRow(poid: int, expectedDelivery: Option<int>, supplierName: string)

  /** WHERE Status = 'Received', joined with an existing supplier. */
  predicate AwaitsEntry(po: PurchaseOrder, suppliers: map<int, string>) {
    po.status == Received && po.supplierId.Some? && po.supplierId.value in suppliers
  }

  function ReceivedRowOf(po: PurchaseOrder, suppliers: map<int, string>): ReceivedPoRow
    requires AwaitsEntry(po, suppliers)
  {
    ReceivedPoRow(po.poid, po.expectedDelivery, suppliers[po.supplierId.value])
  }

  /** Exactly the Received orders whose supplier exists, in scan order. */
  function GetReceivedPos(orders: seq<PurchaseOrder>, suppliers: map<int, string>): (rows: seq<ReceivedPoRow>)
    ensures |rows| <= |orders|
    ensures forall x :: x in rows <==>
      exists po :: po in orders && AwaitsEntry(po, suppliers) && x == ReceivedRowOf(po, suppliers)
  {
    if orders == [] then []
    else
      var rest := GetReceivedPos(orders[1..], suppliers);
      assert forall po :: po in orders <==> po == orders[0] || po in orders[1..];
      if AwaitsEntry(orders[0], suppliers) then [ReceivedRowOf(orders[0], suppliers)] + rest else rest
  }

  // ---------------------------------------------------------------------
  // get_po_items
  // ---------------------------------------------------------------------

  datatype PoItemRow = PoItemRow(itemId: int, itemName: Value, orderedQuantity: int, receivedQuantity: int)

  function PoItemRowOf(line: PurchaseOrderItem, items: map<int, Item>): PoItemRow
    requires line.itemId in items
  {
    PoItemRow(line.itemId, Cell(items[line.itemId].cols, ItemNameEnglish), line.orderedQuantity, line.receivedQuantity)
  }

  /** Exactly the order's lines whose item exists, in scan order. */
  function GetPoItems(lines: seq<PurchaseOrderItem>, items: map<int, Item>, poid: int): (rows: seq<PoItemRow>)
    ensures |rows| <= |lines|
    ensures forall x :: x in rows <==>
      exists line :: line in lines && line.poid == poid && line.itemId in items && x == PoItemRowOf(line, items)
  {
    if lines == [] then []
    else
      var rest := GetPoItems(lines[1..], items, poid);
      assert forall l :: l in lines <==> l == lines[0] || l in lines[1..];
      if lines[0].poid == poid && lines[0].itemId in items then [PoItemRowOf(lines[0], items)] + rest else rest
  }

  // ---------------------------------------------------------------------
  // add_items_to_inventory
  // ---------------------------------------------------------------------

  /** One entry the receiving page hands to the INSERT loop. */
  datatype InventoryEntry = InventoryEntry(itemId: int, quantity: int, expirationDate: int, storageLocation: string)

  /** The Inventory row an entry's INSERT creates on day `today`. */
  function EntryRow(e: InventoryEntry, today: int): InventoryRow {
    InventoryRow(e.itemId, e.quantity, e.expirationDate, Some(e.storageLocation), today)
  }

  /** The rows the entries' INSERTs append, in entry order. */
  function EntryRows(entries: seq<InventoryEntry>, today: int): (rows: seq<InventoryRow>)
    ensures |rows| == |entries|
    ensures forall k :: 0 <= k < |entries| ==> rows[k] == EntryRow(entries[k], today)
  {
    if entries == [] then [] else [EntryRow(entries[0], today)] + EntryRows(entries[1..], today)
  }

  /**
   * One plain INSERT per entry: the rows already there are kept as they
   * are and one new row per entry follows them, dated `today`, even when
   * a row with the same item, expiry and location exists.
   */
  method AddItemsToInventory(db: Database, entries: seq<InventoryEntry>, today: int)
    modifies db`inventory
    ensures db.inventory == old(db.inventory) + EntryRows(entries, today)
  {
    var i := 0;
    while i < |entries|
      invariant 0 <= i <= |entries|
      invariant db.inventory == old(db.inventory) + EntryRows(entries[..i], today)
    {
      assert entries[..i + 1] == entries[..i] + [entries[i]];
      EntryRowsAppend(entries[..i], entries[i], today);
      db.inventory := db.inventory + [EntryRow(entries[i], today)];
      i := i + 1;
    }
    assert entries[..i] == entries;
  }

  lemma EntryRowsAppend(entries: seq<InventoryEntry>, e: InventoryEntry, today: int)
    ensures EntryRows(entries + [e], today) == EntryRows(entries, today) + [EntryRow(e, today)]
  {
    var lhs, rhs := EntryRows(entries + [e], today), EntryRows(entries, today) + [EntryRow(e, today)];
    assert |lhs| == |rhs|;
    forall k | 0 <= k < |lhs| ensures lhs[k] == rhs[k] {
      assert (entries + [e])[k] == if k < |entries| then entries[k] else e;
    }
  }

  /** The summed quantity of the entries for one item. */
  function EntriesSum(entries: seq<InventoryEntry>, itemId: int): int {
    if entries == [] then 0
    else (if entries[0].itemId == itemId then entries[0].quantity else 0) + EntriesSum(entries[1..], itemId)
  }

  /** The appended rows raise the item's stock by exactly its entries' quantities. */
  lemma {:induction false} EntryRowsSum(entries: seq<InventoryEntry>, today: int, itemId: int)
    ensures PoHandler.InventorySum(EntryRows(entries, today), itemId) == EntriesSum(entries, itemId)
  {
    if entries != [] {
      var rows := EntryRows(entries, today);
      assert rows == [EntryRow(entries[0], today)] + EntryRows(entries[1..], today);
      PoHandler.InventorySumAppend([EntryRow(entries[0], today)], EntryRows(entries[1..], today), itemId);
      assert [EntryRow(entries[0], today)][..0] == [];
      EntryRowsSum(entries[1..], today, itemId);
    }
  }

  /**
   * A batch already on the shelf under the same item, expiry and location
   * as an entry is not merged with it: afterwards both rows are there.
   */
  lemma NoMergeOfBatches(inventory: seq<InventoryRow>, entries: seq<InventoryEntry>, today: int, k: nat, j: nat)
    requires k < |inventory| && j < |entries|
    requires inventory[k].itemId == entries[j].itemId
    requires inventory[k].expirationDate == entries[j].expirationDate
    requires inventory[k].storageLocation == Some(entries[j].storageLocation)
    ensures var after := inventory + EntryRows(entries, today);
      && |after| == |inventory| + |entries|
      && after[k] == inventory[k]
      && after[|inventory| + j] == EntryRow(entries[j], today)
  {
  }

  // ---------------------------------------------------------------------
  // mark_po_completed
  // ---------------------------------------------------------------------

  /** UPDATE PurchaseOrders SET Status = 'Completed' WHERE POID = poid. */
  function CompletedAt(orders: seq<PurchaseOrder>, poid: int): (after: seq<PurchaseOrder>)
    ensures |after| == |orders|
    ensures forall k :: 0 <= k < |orders| ==> after[k].poid == orders[k].poid
    ensures forall k :: 0 <= k < |orders| && orders[k].poid == poid ==> after[k].status == Completed
  {
    seq(|orders|, k requires 0 <= k < |orders| =>
      if orders[k].poid == poid then orders[k].(status := Completed) else orders[k])
  }

  /**
   * Only that order's status changes, to Completed; every other order and
   * every other column is as it was, and doing it twice is doing it once.
   */
  lemma CompletedAtChangesOnlyThatOrder(orders: seq<PurchaseOrder>, poid: int)
    ensures var after := CompletedAt(orders, poid);
      && |after| == |orders|
      && (forall k :: 0 <= k < |orders| && orders[k].poid == poid ==>
            after[k].status == Completed && after[k].(status := orders[k].status) == orders[k])
      && (forall k :: 0 <= k < |orders| && orders[k].poid != poid ==> after[k] == orders[k])
      && CompletedAt(after, poid) == after
  {
  }

  method MarkPoCompleted(db: Database, poid: int)
    requires db.Valid()
    modifies db`purchaseOrders
    ensures db.Valid()
    ensures db.purchaseOrders == CompletedAt(old(db.purchaseOrders), poid)
  {
    db.purchaseOrders := CompletedAt(db.purchaseOrders, poid);
  }

  /** Once completed, the order is no longer listed for inventory entry. */
  lemma {:induction false} CompletedOrderLeavesReceivedList(orders: seq<PurchaseOrder>, suppliers: map<int, string>, poid: int)
    ensures forall r :: r in GetReceivedPos(CompletedAt(orders, poid), suppliers) ==> r.poid != poid
  {
    var after := CompletedAt(orders, poid);
    forall r | r in GetReceivedPos(after, suppliers) ensures r.poid != poid {
      var po :| po in after && AwaitsEntry(po, suppliers) && r == ReceivedRowOf(po, suppliers);
      var k :| 0 <= k < |after| && after[k] == po;
    }
  }

  // ---------------------------------------------------------------------
  // update_received_quantity
  // ---------------------------------------------------------------------

  /** UPDATE PurchaseOrderItems SET ReceivedQuantity = q WHERE POID = poid AND ItemID = itemId. */
  function WithReceivedQuantity(lines: seq<PurchaseOrderItem>, poid: int, itemId: int, q: int): (after: seq<PurchaseOrderItem>)
    ensures |after| == |lines|
    ensures forall k :: 0 <= k < |lines| ==>
      after[k].poid == lines[k].poid && after[k].itemId == lines[k].itemId && after[k].orderedQuantity == lines[k].orderedQuantity
    ensures forall k :: 0 <= k < |lines| && lines[k].poid == poid && lines[k].itemId == itemId ==> after[k].receivedQuantity == q
  {
    seq(|lines|, k requires 0 <= k < |lines| =>
      if lines[k].poid == poid && lines[k].itemId == itemId then lines[k].(receivedQuantity := q) else lines[k])
  }

  /**
   * The quantity is overwritten, not added to: the line then holds `q`
   * whatever it held, a second write replaces the first, and other lines
   * and columns are untouched. Nothing bounds `q` by the ordered quantity.
   */
  lemma ReceivedQuantityOverwrites(lines: seq<PurchaseOrderItem>, poid: int, itemId: int, q: int, q': int)
    ensures var after := WithReceivedQuantity(lines, poid, itemId, q);
      && |after| == |lines|
      && (forall k :: 0 <= k < |lines| && lines[k].poid == poid && lines[k].itemId == itemId ==>
            after[k] == lines[k].(receivedQuantity := q))
      && (forall k :: 0 <= k < |lines| && !(lines[k].poid == poid && lines[k].itemId == itemId) ==>
            after[k] == lines[k])
      && WithReceivedQuantity(after, poid, itemId, q') == WithReceivedQuantity(lines, poid, itemId, q')
  {
  }

  /** Receiving 12 on a line that ordered 10 stores 12. */
  lemma OverReceiptIsStored()
    ensures WithReceivedQuantity([PurchaseOrderItem(7, 1, 10, 0)], 7, 1, 12) == [PurchaseOrderItem(7, 1, 10, 12)]
  {
  }

  method UpdateReceivedQuantity(db: Database, poid: int, itemId: int, q: int)
    modifies db`purchaseOrderItems
    ensures db.purchaseOrderItems == WithReceivedQuantity(old(db.purchaseOrderItems), poid, itemId, q)
  {
    db.purchaseOrderItems := WithReceivedQuantity(db.purchaseOrderItems, poid, itemId, q);
  }

  // ---------------------------------------------------------------------
  // get_items_with_locations
  // ---------------------------------------------------------------------

  const NotAssigned := "Not Assigned"

  datatype LocationRow = LocationRow(itemId: int, itemName: Value, storageLocation: string)

  /**
   * Item LEFT JOIN Inventory with COALESCE(StorageLocation, 'Not
   * Assigned'): one row per inventory row of an item, and one 'Not
   * Assigned' row for an item without any. Rows carry no order and equal
   * rows are not told apart, hence a set.
   */
  function GetItemsWithLocations(items: map<int, Item>, inventory: seq<InventoryRow>): (rows: set<LocationRow>)
    ensures forall r :: r in rows ==> r.itemId in items && r.itemName == Cell(items[r.itemId].cols, ItemNameEnglish)
    ensures forall r :: r in rows && r.storageLocation != NotAssigned ==>
      exists k :: 0 <= k < |inventory| && inventory[k].itemId == r.itemId && inventory[k].storageLocation == Some(r.storageLocation)
    ensures forall r :: r in rows && r.storageLocation == NotAssigned ==>
      || !PoHandler.HasInventory(inventory, r.itemId)
      || exists k :: 0 <= k < |inventory| && inventory[k].itemId == r.itemId
                     && (inventory[k].storageLocation.None? || inventory[k].storageLocation == Some(NotAssigned))
  {
    StockedRows(items, inventory) + UnstockedRows(items, inventory)
  }

  /** The LEFT JOIN's matched rows: one per inventory row of an existing item. */
  function StockedRows(items: map<int, Item>, inventory: seq<InventoryRow>): (rows: set<LocationRow>)
    ensures forall r :: r in rows ==> r.itemId in items && r.itemName == Cell(items[r.itemId].cols, ItemNameEnglish)
    ensures forall r :: r in rows ==>
      exists k :: 0 <= k < |inventory| && inventory[k].itemId == r.itemId && inventory[k].storageLocation.GetOr(NotAssigned) == r.storageLocation
  {
    set id, k | id in items && 0 <= k < |inventory| && inventory[k].itemId == id ::
      LocationRow(id, Cell(items[id].cols, ItemNameEnglish), inventory[k].storageLocation.GetOr(NotAssigned))
  }

  /** The LEFT JOIN's unmatched rows: an item without inventory, as 'Not Assigned'. */
  function UnstockedRows(items: map<int, Item>, inventory: seq<InventoryRow>): (rows: set<LocationRow>)
    ensures forall r :: r in rows ==> r.itemId in items && r.itemName == Cell(items[r.itemId].cols, ItemNameEnglish)
    ensures forall r :: r in rows ==> r.storageLocation == NotAssigned && !PoHandler.HasInventory(inventory, r.itemId)
  {
    set id | id in items && !PoHandler.HasInventory(inventory, id) ::
      LocationRow(id, Cell(items[id].cols, ItemNameEnglish), NotAssigned)
  }

  /**
   * Every item is listed at least once; an item without inventory is
   * listed exactly once, as 'Not Assigned'; a stocked item is listed with
   * each of its rows' locations.
   */
  lemma EveryItemListed(items: map<int, Item>, inventory: seq<InventoryRow>, id: int)
    requires id in items
    ensures exists r :: r in GetItemsWithLocations(items, inventory) && r.itemId == id
    ensures !PoHandler.HasInventory(inventory, id) ==>
      forall r :: r in GetItemsWithLocations(items, inventory) && r.itemId == id ==>
        r == LocationRow(id, Cell(items[id].cols, ItemNameEnglish), NotAssigned)
    ensures forall k :: 0 <= k < |inventory| && inventory[k].itemId == id ==>
      LocationRow(id, Cell(items[id].cols, ItemNameEnglish), inventory[k].storageLocation.GetOr(NotAssigned))
        in GetItemsWithLocations(items, inventory)
  {
    var name := Cell(items[id].cols, ItemNameEnglish);
    if PoHandler.HasInventory(inventory, id) {
      var k :| 0 <= k < |inventory| && inventory[k].itemId == id;
      assert LocationRow(id, name, inventory[k].storageLocation.GetOr(NotAssigned)) in GetItemsWithLocations(items, inventory);
    } else {
      assert LocationRow(id, name, NotAssigned) in GetItemsWithLocations(items, inventory);
    }
  }

  // ---------------------------------------------------------------------
  // update_item_location
  // ---------------------------------------------------------------------

  /** UPDATE Inventory SET StorageLocation = location WHERE ItemID = itemId. */
  function Relocated(inventory: seq<InventoryRow>, itemId: int, location: string): (after: seq<InventoryRow>)
    ensures |after| == |inventory|
    ensures forall k :: 0 <= k < |inventory| ==>
      after[k].itemId == inventory[k].itemId && after[k].quantity == inventory[k].quantity
      && after[k].expirationDate == inventory[k].expirationDate
    ensures forall k :: 0 <= k < |inventory| && inventory[k].itemId == itemId ==> after[k].storageLocation == Some(location)
  {
    seq(|inventory|, k requires 0 <= k < |inventory| =>
      if inventory[k].itemId == itemId then inventory[k].(storageLocation := Some(location)) else inventory[k])
  }

  /**
   * Every row of the item moves to the new location, other items' rows
   * stay as they were, and no item's stock changes.
   */
  lemma {:induction false} RelocatedMovesOnlyThatItem(inventory: seq<InventoryRow>, itemId: int, location: string, other: int)
    ensures var after := Relocated(inventory, itemId, location);
      && |after| == |inventory|
      && (forall k :: 0 <= k < |inventory| && inventory[k].itemId == itemId ==>
            after[k] == inventory[k].(storageLocation := Some(location)))
      && (forall k :: 0 <= k < |inventory| && inventory[k].itemId != itemId ==> after[k] == inventory[k])
      && PoHandler.InventorySum(after, other) == PoHandler.InventorySum(inventory, other)
  {
    if inventory != [] {
      var front := inventory[..|inventory| - 1];
      assert Relocated(inventory, itemId, location)[..|inventory| - 1] == Relocated(front, itemId, location);
      RelocatedMovesOnlyThatItem(front, itemId, location, other);
    }
  }

  method UpdateItemLocation(db: Database, itemId: int, location: string)
    modifies db`inventory
    ensures db.inventory == Relocated(old(db.inventory), itemId, location)
  {
    db.inventory := Relocated(db.inventory, itemId, location);
  }
}
