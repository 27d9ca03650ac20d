/**
 * The purchase-order handler: the low-stock proposal query, the loop that
 * turns its rows into Pending orders, and the order listing.
 */
module PoHandler {
  import opened Wrappers
  import opened Schema
  import Relational

  // ---------------------------------------------------------------------
  // get_low_stock_items_with_supplier
  // ---------------------------------------------------------------------

  /** SUM(Quantity) over the item's Inventory rows; 0 when it has none. */
  function InventorySum(inventory: seq<InventoryRow>, itemId: int): int
  {
    if inventory == [] then 0
    else
      var last := inventory[|inventory| - 1];
      InventorySum(inventory[..|inventory| - 1], itemId)
        + (if last.itemId == itemId then last.quantity else 0)
  }

  /** Stock received later adds to the sum of what was there. */
  lemma {:induction false} InventorySumAppend(a: seq<InventoryRow>, b: seq<InventoryRow>, itemId: int)
    ensures InventorySum(a + b, itemId) == InventorySum(a, itemId) + InventorySum(b, itemId)
  {
    if b == [] {
      assert a + b == a;
    } else {
      var b' := b[..|b| - 1];
      assert (a + b)[..|a + b| - 1] == a + b';
      assert (a + b)[|a + b| - 1] == b[|b| - 1];
      InventorySumAppend(a, b', itemId);
    }
  }

  /** The item has an Inventory row for the inner join to match. */
  predicate HasInventory(inventory: seq<InventoryRow>, itemId: int) {
    exists k :: 0 <= k < |inventory| && inventory[k].itemId == itemId
  }

  /** The item's ItemSupplier rows whose supplier exists and carries `name`. */
  function NamedLinks(links: set<(int, int)>, suppliers: map<int, string>, itemId: int, name: string): set<(int, int)>
  {
    set p | p in links && p.0 == itemId && p.1 in suppliers && suppliers[p.1] == name
  }

  /** The names of the existing suppliers linked to the item. */
  function LinkedSupplierNames(links: set<(int, int)>, suppliers: map<int, string>, itemId: int): set<string>
  {
    set p | p in links && p.0 == itemId && p.1 in suppliers :: suppliers[p.1]
  }

  /**
   * SUM(inv.Quantity) over one (item, supplier name) group of the join:
   * each Inventory row of the item meets every link in the group, so the
   * stock is counted once per supplier of that name.
   */
  function GroupSum(inventory: seq<InventoryRow>, links: set<(int, int)>, suppliers: map<int, string>,
                    itemId: int, name: string): int
  {
    |NamedLinks(links, suppliers, itemId, name)| * InventorySum(inventory, itemId)
  }

  /** SQL `a < b`, which is not true when `b` is NULL. */
  predicate LessThan(a: int, b: Option<int>) {
    b.Some? && a < b.value
  }

  /** SQL `a - b`, NULL when `a` is NULL. */
  function Minus(a: Option<int>, b: int): Option<int> {
    match a
    case Some(x) => Some(x - b)
    case None => None
  }

  /** A row of the low-stock result (the columns the pages use). */
  datatype LowStockRow = LowStockRow(
    itemId: int,
    itemName: Value,
    itemPicture: Value,
    supplierName: string,
    requiredQuantity: Option<int>)

  function GroupRow(items: map<int, Item>, inventory: seq<InventoryRow>, links: set<(int, int)>,
                    suppliers: map<int, string>, itemId: int, name: string): LowStockRow
    requires itemId in items
  {
    var cols := items[itemId].cols;
    LowStockRow(itemId, Cell(cols, ItemNameEnglish), Cell(cols, ItemPicture), name,
                Minus(NumberOf(Cell(cols, AverageRequired)), GroupSum(inventory, links, suppliers, itemId, name)))
  }

  /** HAVING SUM(inv.Quantity) < i.Threshold, for one group. */
  predicate GroupBelowThreshold(items: map<int, Item>, inventory: seq<InventoryRow>, links: set<(int, int)>,
                                suppliers: map<int, string>, itemId: int, name: string)
    requires itemId in items
  {
    LessThan(GroupSum(inventory, links, suppliers, itemId, name), NumberOf(Cell(items[itemId].cols, Threshold)))
  }

  /**
   * The low-stock query: Item joined with Inventory, ItemSupplier and
   * Supplier, grouped per item and supplier name, kept when the group's
   * sum is below the threshold. The result has no order, hence a set.
   */
  function GetLowStockItemsWithSupplier(items: map<int, Item>, inventory: seq<InventoryRow>,
                                     links: set<(int, int)>, suppliers: map<int, string>): (result: set<LowStockRow>)
    ensures forall r :: r in result ==>
      && r.itemId in items
      && HasInventory(inventory, r.itemId)
      && r.supplierName in LinkedSupplierNames(links, suppliers, r.itemId)
      && r.itemName == Cell(items[r.itemId].cols, ItemNameEnglish)
  {
    set itemId, name |
      && itemId in items
      && name in LinkedSupplierNames(links, suppliers, itemId)
      && HasInventory(inventory, itemId)
      && GroupBelowThreshold(items, inventory, links, suppliers, itemId, name)
      :: GroupRow(items, inventory, links, suppliers, itemId, name)
  }

  /** No two existing suppliers linked to the item share a name. */
  predicate DistinctSupplierNames(links: set<(int, int)>, suppliers: map<int, string>, itemId: int) {
    forall p, q ::
      (p in links && q in links && p.0 == itemId && q.0 == itemId && p.1 in suppliers && q.1 in suppliers
       && suppliers[p.1] == suppliers[q.1]) ==> p == q
  }

  lemma SingleNamedLink(links: set<(int, int)>, suppliers: map<int, string>, itemId: int, name: string)
    requires DistinctSupplierNames(links, suppliers, itemId)
    requires name in LinkedSupplierNames(links, suppliers, itemId)
    ensures |NamedLinks(links, suppliers, itemId, name)| == 1
  {
    var p :| p in links && p.0 == itemId && p.1 in suppliers && suppliers[p.1] == name;
    assert NamedLinks(links, suppliers, itemId, name) == {p};
  }

  /**
   * With distinct supplier names, each row's required quantity is the
   * target stock minus the item's inventory sum, and a row for a linked
   * supplier is present exactly when the item has inventory rows and that
   * sum is below the threshold. Nothing asks the quantity to be positive.
   */
  lemma LowStockRowsForItem(items: map<int, Item>, inventory: seq<InventoryRow>,
                            links: set<(int, int)>, suppliers: map<int, string>, itemId: int)
    requires itemId in items
    requires DistinctSupplierNames(links, suppliers, itemId)
    ensures forall r :: r in GetLowStockItemsWithSupplier(items, inventory, links, suppliers) && r.itemId == itemId ==>
      && r.supplierName in LinkedSupplierNames(links, suppliers, itemId)
      && HasInventory(inventory, itemId)
      && LessThan(InventorySum(inventory, itemId), NumberOf(Cell(items[itemId].cols, Threshold)))
      && r.requiredQuantity == Minus(NumberOf(Cell(items[itemId].cols, AverageRequired)), InventorySum(inventory, itemId))
    ensures forall s :: (itemId, s) in links && s in suppliers ==>
      (LowStockRow(itemId, Cell(items[itemId].cols, ItemNameEnglish), Cell(items[itemId].cols, ItemPicture), suppliers[s],
                   Minus(NumberOf(Cell(items[itemId].cols, AverageRequired)), InventorySum(inventory, itemId)))
         in GetLowStockItemsWithSupplier(items, inventory, links, suppliers)
       <==> HasInventory(inventory, itemId)
            && LessThan(InventorySum(inventory, itemId), NumberOf(Cell(items[itemId].cols, Threshold))))
  {
    var result := GetLowStockItemsWithSupplier(items, inventory, links, suppliers);
    forall r | r in result && r.itemId == itemId
      ensures r.supplierName in LinkedSupplierNames(links, suppliers, itemId)
      ensures HasInventory(inventory, itemId)
      ensures LessThan(InventorySum(inventory, itemId), NumberOf(Cell(items[itemId].cols, Threshold)))
      ensures r.requiredQuantity == Minus(NumberOf(Cell(items[itemId].cols, AverageRequired)), InventorySum(inventory, itemId))
    {
      var id, name :| id in items && name in LinkedSupplierNames(links, suppliers, id)
        && HasInventory(inventory, id) && GroupBelowThreshold(items, inventory, links, suppliers, id, name)
        && r == GroupRow(items, inventory, links, suppliers, id, name);
      SingleNamedLink(links, suppliers, itemId, name);
    }
    forall s | (itemId, s) in links && s in suppliers
      ensures (LowStockRow(itemId, Cell(items[itemId].cols, ItemNameEnglish), Cell(items[itemId].cols, ItemPicture), suppliers[s],
                   Minus(NumberOf(Cell(items[itemId].cols, AverageRequired)), InventorySum(inventory, itemId)))
         in result
       <==> HasInventory(inventory, itemId)
            && LessThan(InventorySum(inventory, itemId), NumberOf(Cell(items[itemId].cols, Threshold))))
    {
      var name := suppliers[s];
      assert name in LinkedSupplierNames(links, suppliers, itemId) by {
        assert (itemId, s) in links && (itemId, s).1 in suppliers;
      }
      SingleNamedLink(links, suppliers, itemId, name);
      var row := GroupRow(items, inventory, links, suppliers, itemId, name);
      if row in result {
        var id, n :| id in items && n in LinkedSupplierNames(links, suppliers, id)
          && HasInventory(inventory, id) && GroupBelowThreshold(items, inventory, links, suppliers, id, n)
          && row == GroupRow(items, inventory, links, suppliers, id, n);
        assert id == itemId && n == name;
      }
    }
  }

  /** An item without any Inventory row has stock 0, yet the inner join drops it. */
  lemma {:induction false} NoInventoryRowsNoProposal(items: map<int, Item>, inventory: seq<InventoryRow>,
                                                     links: set<(int, int)>, suppliers: map<int, string>, itemId: int)
    requires !HasInventory(inventory, itemId)
    ensures InventorySum(inventory, itemId) == 0
    ensures forall r :: r in GetLowStockItemsWithSupplier(items, inventory, links, suppliers) ==> r.itemId != itemId
  {
    if inventory != [] {
      var front := inventory[..|inventory| - 1];
      assert forall k :: 0 <= k < |front| ==> front[k] == inventory[k];
      NoInventoryRowsNoProposal(items, front, links, suppliers, itemId);
    }
  }

  /** An item linked to no existing supplier is never proposed. */
  lemma NoSupplierNoProposal(items: map<int, Item>, inventory: seq<InventoryRow>,
                             links: set<(int, int)>, suppliers: map<int, string>, itemId: int)
    requires forall s :: (itemId, s) in links ==> s !in suppliers
    ensures LinkedSupplierNames(links, suppliers, itemId) == {}
    ensures forall r :: r in GetLowStockItemsWithSupplier(items, inventory, links, suppliers) ==> r.itemId != itemId
  {
    forall p | p in links && p.0 == itemId ensures p.1 !in suppliers {
      var s := p.1;
      assert p == (itemId, s);
      assert (itemId, s) in links;
    }
    assert LinkedSupplierNames(links, suppliers, itemId) == {};
  }

  /** A one-item, one-supplier catalogue used by the two examples below. */
  const exampleItem := Item(map[Threshold := Number(10), AverageRequired := Number(5)], 0, 0)

  /**
   * Stock 8 is below the threshold 10 but above the target 5: the item is
   * proposed with a required quantity of -3.
   */
  lemma NegativeRequiredQuantity()
    ensures LowStockRow(1, Null, Null, "Acme", Some(-3))
      in GetLowStockItemsWithSupplier(map[1 := exampleItem], [InventoryRow(1, 8, 0, None, 0)], {(1, 10)}, map[10 := "Acme"])
  {
    var items, inventory, links, suppliers := map[1 := exampleItem], [InventoryRow(1, 8, 0, None, 0)], {(1, 10)}, map[10 := "Acme"];
    assert NamedLinks(links, suppliers, 1, "Acme") == {(1, 10)};
    assert InventorySum(inventory, 1) == 8;
    assert (1, 10) in links && (1, 10).1 in suppliers;
    assert "Acme" in LinkedSupplierNames(links, suppliers, 1);
    assert HasInventory(inventory, 1) by { assert inventory[0].itemId == 1; }
  }

  /**
   * Two suppliers called "Acme" both linked to the item fall into one
   * group, so its 6 units are summed twice: 12 is not below 10 and the
   * item is not proposed, although its stock is below the threshold.
   */
  lemma SharedSupplierNameCountsStockTwice()
    ensures InventorySum([InventoryRow(1, 6, 0, None, 0)], 1) == 6
    ensures GetLowStockItemsWithSupplier(map[1 := exampleItem], [InventoryRow(1, 6, 0, None, 0)],
                                      {(1, 10), (1, 11)}, map[10 := "Acme", 11 := "Acme"]) == {}
  {
    var items, inventory, links, suppliers :=
      map[1 := exampleItem], [InventoryRow(1, 6, 0, None, 0)], {(1, 10), (1, 11)}, map[10 := "Acme", 11 := "Acme"];
    assert NamedLinks(links, suppliers, 1, "Acme") == {(1, 10), (1, 11)};
    assert LinkedSupplierNames(links, suppliers, 1) == {"Acme"};
    assert InventorySum(inventory, 1) == 6;
    assert !GroupBelowThreshold(items, inventory, links, suppliers, 1, "Acme");
  }

  // ---------------------------------------------------------------------
  // send_auto_po
  // ---------------------------------------------------------------------

  /** The suppliers (SELECT SupplierID FROM Supplier WHERE SupplierName = name) finds. */
  function SuppliersNamed(suppliers: map<int, string>, name: string): set<int>
  {
    set id | id in suppliers && suppliers[id] == name
  }

  /** Why inserting a row's order fails. */
  datatype AutoPoError =
    /** int() of a NULL required quantity. */
    | MissingRequiredQuantity(row: nat)
    /** The scalar sub-query found more than one supplier of that name. */
    | AmbiguousSupplierName(row: nat)

  /** The row's insert succeeds. */
  predicate Insertable(row: LowStockRow, suppliers: map<int, string>) {
    |SuppliersNamed(suppliers, row.supplierName)| <= 1 && row.requiredQuantity.Some?
  }

  /** The index of the first row whose insert fails, or the number of rows. */
  function FirstFailure(rows: seq<LowStockRow>, suppliers: map<int, string>): (k: nat)
    ensures k <= |rows|
    ensures forall i :: 0 <= i < k ==> Insertable(rows[i], suppliers)
    ensures k < |rows| ==> !Insertable(rows[k], suppliers)
  {
    if rows == [] then 0
    else if !Insertable(rows[0], suppliers) then 0
    else 1 + FirstFailure(rows[1..], suppliers)
  }

  /** The Pending order inserted for one row, as `poid`, at time `now`. */
  ghost function AutoOrder(row: LowStockRow, suppliers: map<int, string>, poid: int, now: int): (po: PurchaseOrder)
    requires Insertable(row, suppliers)
    ensures po.poid == poid && po.status == Pending && po.orderDate == now
    ensures po.itemId == Some(row.itemId) && po.quantity == row.requiredQuantity
    ensures po.supplierId.Some? ==> po.supplierId.value in SuppliersNamed(suppliers, row.supplierName)
    ensures po.supplierId.None? <==> SuppliersNamed(suppliers, row.supplierName) == {}
  {
    var named := SuppliersNamed(suppliers, row.supplierName);
    var supplierId :=
      if exists id :: id in suppliers && suppliers[id] == row.supplierName
      then var id :| id in suppliers && suppliers[id] == row.supplierName; assert id in named; Some(id)
      else assert forall id :: id !in named; None;
    PurchaseOrder(poid, Some(row.itemId), supplierId, row.requiredQuantity, Pending, now, None, None)
  }

  /** The orders inserted for `rows`, numbered from `firstPoId`. */
  ghost function AutoOrders(rows: seq<LowStockRow>, suppliers: map<int, string>, firstPoId: int, now: int): (pos: seq<PurchaseOrder>)
    requires forall i :: 0 <= i < |rows| ==> Insertable(rows[i], suppliers)
    ensures |pos| == |rows|
    ensures forall i :: 0 <= i < |rows| ==> pos[i] == AutoOrder(rows[i], suppliers, firstPoId + i, now)
  {
    if rows == [] then []
    else [AutoOrder(rows[0], suppliers, firstPoId, now)] + AutoOrders(rows[1..], suppliers, firstPoId + 1, now)
  }

  /**
   * One INSERT per row, in row order, each a Pending order for the row's
   * item, its supplier looked up by name and its required quantity. The
   * first row whose insert fails stops the loop; the rows before it stay
   * inserted, as each insert is its own command.
   */
  method SendAutoPo(db: Database, rows: seq<LowStockRow>, now: int) returns (err: Option<AutoPoError>)
    requires db.Valid()
    modifies db`purchaseOrders, db`nextPoId
    ensures db.Valid()
    ensures var k := FirstFailure(rows, db.suppliers);
      && db.purchaseOrders == old(db.purchaseOrders) + AutoOrders(rows[..k], db.suppliers, old(db.nextPoId), now)
      && db.nextPoId == old(db.nextPoId) + k
      && (err.None? <==> k == |rows|)
      && (err.Some? ==> err.value == if rows[k].requiredQuantity.None? then MissingRequiredQuantity(k)
                                     else AmbiguousSupplierName(k))
  {
    var suppliers := db.suppliers;
    ghost var k := FirstFailure(rows, suppliers);
    ghost var orders0, poid0 := db.purchaseOrders, db.nextPoId;
    var i := 0;
    while i < |rows| && Insertable(rows[i], suppliers)
      invariant 0 <= i <= k
      invariant db.suppliers == suppliers && db.Valid()
      invariant db.nextPoId == poid0 + i
      invariant db.purchaseOrders == orders0 + AutoOrders(rows[..i], suppliers, poid0, now)
    {
      assert rows[..i + 1] == rows[..i] + [rows[i]];
      AutoOrdersAppend(rows[..i], rows[i], suppliers, poid0, now);
      InsertAutoOrder(db, rows[i], now);
      i := i + 1;
    }
    assert i == k;
    if i == |rows| {
      return None;
    }
    // int() of the quantity is evaluated before the INSERT runs its sub-query
    err := Some(if rows[i].requiredQuantity.None? then MissingRequiredQuantity(i) else AmbiguousSupplierName(i));
  }

  /** The INSERT of one row's Pending order, under the next serial POID. */
  method InsertAutoOrder(db: Database, row: LowStockRow, now: int)
    requires db.Valid() && Insertable(row, db.suppliers)
    modifies db`purchaseOrders, db`nextPoId
    ensures db.Valid()
    ensures db.purchaseOrders == old(db.purchaseOrders) + [AutoOrder(row, db.suppliers, old(db.nextPoId), now)]
    ensures db.nextPoId == old(db.nextPoId) + 1
  {
    var supplierId := LookUpSupplier(db.suppliers, row.supplierName);
    var po := PurchaseOrder(db.nextPoId, Some(row.itemId), supplierId, Some(row.requiredQuantity.value as int),
                            Pending, now, None, None);
    InsertedOrder(row, db.suppliers, db.nextPoId, now, supplierId);
    db.purchaseOrders := db.purchaseOrders + [po];
    db.nextPoId := db.nextPoId + 1;
  }

  /** The scalar sub-query's value when it finds at most one supplier. */
  method LookUpSupplier(suppliers: map<int, string>, name: string) returns (supplierId: Option<int>)
    requires |SuppliersNamed(suppliers, name)| <= 1
    ensures supplierId.None? <==> SuppliersNamed(suppliers, name) == {}
    ensures supplierId.Some? ==> SuppliersNamed(suppliers, name) == {supplierId.value}
  {
    supplierId := None;
    if exists id :: id in suppliers && suppliers[id] == name {
      var id :| id in suppliers && suppliers[id] == name;
      Relational.AtMostOne(SuppliersNamed(suppliers, name), id);
      supplierId := Some(id);
    }
  }

  lemma InsertedOrder(row: LowStockRow, suppliers: map<int, string>, poid: int, now: int, supplierId: Option<int>)
    requires Insertable(row, suppliers)
    requires supplierId.None? <==> SuppliersNamed(suppliers, row.supplierName) == {}
    requires supplierId.Some? ==> SuppliersNamed(suppliers, row.supplierName) == {supplierId.value}
    ensures AutoOrder(row, suppliers, poid, now)
         == PurchaseOrder(poid, Some(row.itemId), supplierId, row.requiredQuantity, Pending, now, None, None)
  {
    var named := SuppliersNamed(suppliers, row.supplierName);
    var expected := AutoOrder(row, suppliers, poid, now);
    if supplierId.Some? {
      assert supplierId.value in named;
      assert expected.supplierId.value in named;
    }
  }

  lemma AutoOrdersAppend(rows: seq<LowStockRow>, row: LowStockRow, suppliers: map<int, string>,
                         firstPoId: int, now: int)
    requires forall i :: 0 <= i < |rows| ==> Insertable(rows[i], suppliers)
    requires Insertable(row, suppliers)
    ensures AutoOrders(rows + [row], suppliers, firstPoId, now)
         == AutoOrders(rows, suppliers, firstPoId, now) + [AutoOrder(row, suppliers, firstPoId + |rows|, now)]
  {
    var lhs := AutoOrders(rows + [row], suppliers, firstPoId, now);
    var rhs := AutoOrders(rows, suppliers, firstPoId, now) + [AutoOrder(row, suppliers, firstPoId + |rows|, now)];
    assert |lhs| == |rhs|;
    forall i | 0 <= i < |lhs| ensures lhs[i] == rhs[i] {
      assert (rows + [row])[i] == if i < |rows| then rows[i] else row;
    }
  }

  // ---------------------------------------------------------------------
  // get_all_purchase_orders
  // ---------------------------------------------------------------------

  /** A row of the order listing. */
  datatype OrderRow = OrderRow(
    poid: int,
    itemId: int,
    itemName: Value,
    itemPicture: Value,
    quantity: Option<int>,
    status: Status,
    orderDate: int,
    expectedDelivery: Option<int>,
    supplierName: string)

  /** The order meets an item and a supplier in the two inner joins. */
  predicate Joins(po: PurchaseOrder, items: map<int, Item>, suppliers: map<int, string>) {
    po.itemId.Some? && po.itemId.value in items && po.supplierId.Some? && po.supplierId.value in suppliers
  }

  function OrderRowOf(po: PurchaseOrder, items: map<int, Item>, suppliers: map<int, string>): OrderRow
    requires Joins(po, items, suppliers)
  {
    var cols := items[po.itemId.value].cols;
    OrderRow(po.poid, po.itemId.value, Cell(cols, ItemNameEnglish), Cell(cols, ItemPicture), po.quantity,
             po.status, po.orderDate, po.expectedDelivery, suppliers[po.supplierId.value])
  }

  /** The joined rows, in scan order. */
  function JoinedOrders(orders: seq<PurchaseOrder>, items: map<int, Item>, suppliers: map<int, string>): (rows: seq<OrderRow>)
    ensures |rows| <= |orders|
    ensures forall x :: x in rows <==>
      exists po :: po in orders && Joins(po, items, suppliers) && x == OrderRowOf(po, items, suppliers)
  {
    if orders == [] then []
    else
      var rest := JoinedOrders(orders[1..], items, suppliers);
      assert forall po :: po in orders <==> po == orders[0] || po in orders[1..];
      if Joins(orders[0], items, suppliers) then [OrderRowOf(orders[0], items, suppliers)] + rest else rest
  }

  predicate NewestFirst(rows: seq<OrderRow>) {
    forall i, j :: 0 <= i < j < |rows| ==> rows[i].orderDate >= rows[j].orderDate
  }

  lemma ConsNewestFirst(x: OrderRow, rows: seq<OrderRow>)
    requires NewestFirst(rows)
    requires rows != [] ==> x.orderDate >= rows[0].orderDate
    ensures NewestFirst([x] + rows)
  {
    forall i, j | 0 <= i < j < |rows| + 1 ensures ([x] + rows)[i].orderDate >= ([x] + rows)[j].orderDate {
      if i == 0 && j > 1 {
        assert rows[0].orderDate >= rows[j - 1].orderDate;
      }
    }
  }

  function InsertByDate(x: OrderRow, rows: seq<OrderRow>): (r: seq<OrderRow>)
    requires NewestFirst(rows)
    ensures NewestFirst(r)
    ensures multiset(r) == multiset(rows) + multiset{x}
    ensures |r| > 0 && (r[0] == x || (rows != [] && r[0] == rows[0]))
  {
    if rows == [] then [x]
    else if rows[0].orderDate <= x.orderDate then
      ConsNewestFirst(x, rows);
      [x] + rows
    else
      assert NewestFirst(rows[1..]) by {
        forall i, j | 0 <= i < j < |rows| - 1 ensures rows[1..][i].orderDate >= rows[1..][j].orderDate {
          assert rows[1..][i] == rows[i + 1] && rows[1..][j] == rows[j + 1];
        }
      }
      var tail := InsertByDate(x, rows[1..]);
      assert rows == [rows[0]] + rows[1..];
      assert rows[1..] != [] ==> rows[0].orderDate >= rows[1].orderDate;
      ConsNewestFirst(rows[0], tail);
      [rows[0]] + tail
  }

  /** ORDER BY OrderDate DESC: newest first, the same rows. */
  function SortNewestFirst(rows: seq<OrderRow>): (r: seq<OrderRow>)
    ensures NewestFirst(r)
    ensures multiset(r) == multiset(rows)
  {
    if rows == [] then []
    else
      assert rows == [rows[0]] + rows[1..];
      InsertByDate(rows[0], SortNewestFirst(rows[1..]))
  }

  /**
   * The order listing: every order whose item and supplier exist, as one
   * row each, newest order date first.
   */
  function GetAllPurchaseOrders(orders: seq<PurchaseOrder>, items: map<int, Item>, suppliers: map<int, string>): (rows: seq<OrderRow>)
    ensures NewestFirst(rows)
    ensures multiset(rows) == multiset(JoinedOrders(orders, items, suppliers))
    ensures forall x :: x in rows <==>
      exists po :: po in orders && Joins(po, items, suppliers) && x == OrderRowOf(po, items, suppliers)
  {
    var joined := JoinedOrders(orders, items, suppliers);
    var sorted := SortNewestFirst(joined);
    Relational.SameMembers(sorted, joined);
    sorted
  }
}
