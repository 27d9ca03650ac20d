/**
 * The supplier-performance query: completed orders joined with their
 * supplier and with each of their order lines.
 */
module ReportHandler {
  import opened Wrappers
  import opened Schema

  /** One row of the query. */
  datatype PerformanceRow = PerformanceRow(
    poid: int,
    expectedDelivery: Option<int>,
    actualDelivery: Option<int>,
    status: Status,
    supplierName: string,
    orderedQuantity: int,
    receivedQuantity: int)

  /** An order takes part when it is Completed and its supplier exists (the inner join). */
  predicate Contributes(po: PurchaseOrder, suppliers: map<int, string>) {
    po.status == Completed && po.supplierId.Some? && po.supplierId.value in suppliers
  }

  function RowOf(po: PurchaseOrder, suppliers: map<int, string>, line: PurchaseOrderItem): (r: PerformanceRow)
    requires Contributes(po, suppliers)
    ensures r.poid == po.poid && r.status == Completed && r.supplierName == suppliers[po.supplierId.value]
    ensures r.expectedDelivery == po.expectedDelivery && r.actualDelivery == po.actualDelivery
    ensures r.orderedQuantity == line.orderedQuantity && r.receivedQuantity == line.receivedQuantity
  {
    PerformanceRow(po.poid, po.expectedDelivery, po.actualDelivery, po.status,
                   suppliers[po.supplierId.value], line.orderedQuantity, line.receivedQuantity)
  }

  /** The joined rows of one order: one per order line with its POID. */
  function RowsOfOrder(po: PurchaseOrder, suppliers: map<int, string>, lines: seq<PurchaseOrderItem>): (rows: seq<PerformanceRow>)
    requires Contributes(po, suppliers)
    ensures forall r :: r in rows <==> exists line :: line in lines && line.poid == po.poid && r == RowOf(po, suppliers, line)
  {
    if lines == [] then []
    else
      var rest := RowsOfOrder(po, suppliers, lines[1..]);
      assert forall line :: line in lines <==> line == lines[0] || line in lines[1..];
      if lines[0].poid == po.poid then [RowOf(po, suppliers, lines[0])] + rest else rest
  }

  /**
   * get_supplier_performance_data: a row for every (order, line) pair the
   * joins and the WHERE clause keep, and no other.
   */
  function GetSupplierPerformanceData(orders: seq<PurchaseOrder>, suppliers: map<int, string>,
                                      lines: seq<PurchaseOrderItem>): (rows: seq<PerformanceRow>)
    ensures forall r :: r in rows <==>
      exists po, line :: po in orders && Contributes(po, suppliers) && line in lines && line.poid == po.poid
                         && r == RowOf(po, suppliers, line)
  {
    if orders == [] then []
    else
      var rest := GetSupplierPerformanceData(orders[1..], suppliers, lines);
      assert forall po :: po in orders <==> po == orders[0] || po in orders[1..];
      if Contributes(orders[0], suppliers) then RowsOfOrder(orders[0], suppliers, lines) + rest else rest
  }

  /** How many order lines carry the POID. */
  function LineCount(lines: seq<PurchaseOrderItem>, poid: int): nat {
    if lines == [] then 0 else (if lines[0].poid == poid then 1 else 0) + LineCount(lines[1..], poid)
  }

  /** How many rows carry the POID. */
  function RowCount(rows: seq<PerformanceRow>, poid: int): nat {
    if rows == [] then 0 else (if rows[0].poid == poid then 1 else 0) + RowCount(rows[1..], poid)
  }

  lemma {:induction false} RowCountAppend(a: seq<PerformanceRow>, b: seq<PerformanceRow>, poid: int)
    ensures RowCount(a + b, poid) == RowCount(a, poid) + RowCount(b, poid)
  {
    if a != [] {
      assert (a + b)[1..] == a[1..] + b;
      RowCountAppend(a[1..], b, poid);
    } else {
      assert a + b == b;
    }
  }

  lemma {:induction false} RowsOfOrderCount(po: PurchaseOrder, suppliers: map<int, string>, lines: seq<PurchaseOrderItem>, poid: int)
    requires Contributes(po, suppliers)
    ensures RowCount(RowsOfOrder(po, suppliers, lines), poid) == if po.poid == poid then LineCount(lines, po.poid) else 0
  {
    if lines != [] {
      RowsOfOrderCount(po, suppliers, lines[1..], poid);
      var rest := RowsOfOrder(po, suppliers, lines[1..]);
      if lines[0].poid == po.poid {
        RowCountAppend([RowOf(po, suppliers, lines[0])], rest, poid);
      }
    }
  }

  /**
   * An order with n lines yields n rows when it is Completed with an
   * existing supplier and 0 rows otherwise (its POID is unique).
   */
  lemma {:induction false} RowsPerOrder(orders: seq<PurchaseOrder>, suppliers: map<int, string>,
                                        lines: seq<PurchaseOrderItem>, k: nat)
    requires k < |orders|
    requires forall i, j :: 0 <= i < j < |orders| ==> orders[i].poid != orders[j].poid
    ensures RowCount(GetSupplierPerformanceData(orders, suppliers, lines), orders[k].poid)
            == if Contributes(orders[k], suppliers) then LineCount(lines, orders[k].poid) else 0
  {
    var poid := orders[k].poid;
    var rest := GetSupplierPerformanceData(orders[1..], suppliers, lines);
    if k == 0 {
      NoRowsForAbsentOrder(orders[1..], suppliers, lines, poid);
    } else {
      RowsPerOrder(orders[1..], suppliers, lines, k - 1);
    }
    if Contributes(orders[0], suppliers) {
      RowCountAppend(RowsOfOrder(orders[0], suppliers, lines), rest, poid);
      RowsOfOrderCount(orders[0], suppliers, lines, poid);
    }
  }

  lemma {:induction false} NoRowsForAbsentOrder(orders: seq<PurchaseOrder>, suppliers: map<int, string>,
                                                lines: seq<PurchaseOrderItem>, poid: int)
    requires forall i :: 0 <= i < |orders| ==> orders[i].poid != poid
    ensures RowCount(GetSupplierPerformanceData(orders, suppliers, lines), poid) == 0
  {
    if orders != [] {
      var rest := GetSupplierPerformanceData(orders[1..], suppliers, lines);
      NoRowsForAbsentOrder(orders[1..], suppliers, lines, poid);
      if Contributes(orders[0], suppliers) {
        RowCountAppend(RowsOfOrder(orders[0], suppliers, lines), rest, poid);
        RowsOfOrderCount(orders[0], suppliers, lines, poid);
      }
    }
  }
}
