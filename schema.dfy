/**
 * The relational tables the handlers read and write, held in memory.
 * Keyed tables (Item, Supplier) are maps from their serial id; the link
 * tables with a unique constraint (ItemSupplier, Dropdowns) are sets of
 * pairs; the tables without a key the code relies on (Inventory,
 * PurchaseOrders, PurchaseOrderItems) are sequences in scan order.
 * Dates are day numbers, timestamps are integers.
 */
module Schema {
  import opened Wrappers

  /** PurchaseOrders.Status, the fulfilment state of an order. */
  datatype Status = Pending | Accepted | Declined | Shipping | Received | Completed

  /** The columns of the `item` table that the forms fill in and update. */
  datatype Column =
    | ItemNameEnglish | ItemNameKurdish | ClassCat | DepartmentCat | SectionCat
    | FamilyCat | SubFamilyCat | ShelfLife | Threshold | AverageRequired
    | OriginCountry | Manufacturer | Brand | Barcode | UnitType | Packaging
    | ItemPicture

  /** A table cell as the page code sees it. */
  datatype Value = Null | Text(text: string) | Number(number: int)

  /** Python's truth value of a cell: NULL, "" and 0 are false. */
  predicate Truthy(v: Value) {
    match v
    case Null => false
    case Text(t) => t != ""
    case Number(n) => n != 0
  }

  /** A numeric cell read in SQL arithmetic; anything else behaves as NULL. */
  function NumberOf(v: Value): Option<int> {
    match v
    case Number(n) => Some(n)
    case _ => None
  }

  /** A column of a row; a column the row does not name is NULL. */
  function Cell(cols: map<Column, Value>, c: Column): Value {
    if c in cols then cols[c] else Null
  }

  /** A row of `item`: its columns and the two timestamps the handler sets. */
  datatype Item = Item(cols: map<Column, Value>, createdAt: int, updatedAt: int)

  /** A row of `Inventory` (a received batch). */
  datatype InventoryRow = InventoryRow(
    itemId: int,
    quantity: int,
    expirationDate: int,
    storageLocation: Option<string>,
    dateReceived: int)

  /**
   * A row of `PurchaseOrders`. ItemID and Quantity are the columns the
   * auto-order code writes; orders created elsewhere carry their lines in
   * `PurchaseOrderItems` and leave these NULL.
   */
  datatype PurchaseOrder = PurchaseOrder(
    poid: int,
    itemId: Option<int>,
    supplierId: Option<int>,
    quantity: Option<int>,
    status: Status,
    orderDate: int,
    expectedDelivery: Option<int>,
    actualDelivery: Option<int>)

  /** A row of `PurchaseOrderItems`, one line of an order. */
  datatype PurchaseOrderItem = PurchaseOrderItem(
    poid: int,
    itemId: int,
    orderedQuantity: int,
    receivedQuantity: int)

  /** The database every handler works on. */
  class Database {
    var items: map<int, Item>
    var suppliers: map<int, string>
    var itemSuppliers: set<(int, int)>
    var inventory: seq<InventoryRow>
    var purchaseOrders: seq<PurchaseOrder>
    var purchaseOrderItems: seq<PurchaseOrderItem>
    var dropdowns: set<(string, string)>
    /** The next values of the serial columns item.ItemID and PurchaseOrders.POID. */
    var nextItemId: int
    var nextPoId: int

    /** The serial counters are ahead of every id already in use. */
    ghost predicate Valid()
      reads this
    {
      && (forall id :: id in items ==> id < nextItemId)
      && (forall k :: 0 <= k < |purchaseOrders| ==> purchaseOrders[k].poid < nextPoId)
    }

    constructor ()
      ensures Valid()
      ensures items == map[] && suppliers == map[] && itemSuppliers == {}
      ensures inventory == [] && purchaseOrders == [] && purchaseOrderItems == []
      ensures dropdowns == {}
      ensures nextItemId == 1 && nextPoId == 1
    {
      items, suppliers, itemSuppliers := map[], map[], {};
      inventory, purchaseOrders, purchaseOrderItems := [], [], [];
      dropdowns := {};
      nextItemId, nextPoId := 1, 1;
    }
  }
}
