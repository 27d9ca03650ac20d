/**
 * The manual purchase-order form: one PO line per selected item, the
 * optional price that becomes NULL when not positive, and the guard that
 * refuses an order without lines.
 */
module ManualPo {
  import opened Wrappers
  import opened Schema
  import Relational

  /** A quantity widget's value: min_value 1, step 1. */
  type Quantity = q: int | q >= 1 witness 1

  /** A line's two widgets (keyed by the item id): quantity, and price in cents (min 0, default 0). */
  datatype LineInput = LineInput(quantity: Option<Quantity>, priceCents: nat)

  /** The widgets of one item; untouched ones sit at their minimums. */
  function InputFor(inputs: map<int, LineInput>, itemId: int): (input: LineInput)
    ensures itemId in inputs ==> input == inputs[itemId]
    ensures itemId !in inputs ==> input.quantity.None? && input.priceCents == 0
  {
    if itemId in inputs then inputs[itemId] else LineInput(None, 0)
  }

  /** One entry of `po_items`. Prices are integer cents; NULL is `None`. */
  datatype PoLine = PoLine(itemId: int, quantity: int, estimatedPrice: Option<nat>)

  /** The estimated price is kept only when positive. */
  function PriceOrNone(priceCents: nat): (p: Option<nat>)
    ensures p.Some? <==> priceCents > 0
    ensures p.Some? ==> p.value == priceCents
  {
    if priceCents > 0 then Some(priceCents) else None
  }

  /** The line for one item. */
  function LineFor(itemId: int, input: LineInput): (line: PoLine)
    ensures line.itemId == itemId && line.quantity >= 1
    ensures input.quantity.Some? ==> line.quantity == input.quantity.value
    ensures input.quantity.None? ==> line.quantity == 1
    ensures line.estimatedPrice == PriceOrNone(input.priceCents)
  {
    PoLine(itemId, if input.quantity.Some? then input.quantity.value else 1, PriceOrNone(input.priceCents))
  }

  /**
   * The lines for the selected item names: one per name, in selection order,
   * for the id the name maps to (the last item row carrying that name).
   */
  ghost function PoLinesFor(itemRows: seq<(Value, int)>, names: seq<Value>, inputs: map<int, LineInput>): (lines: seq<PoLine>)
    requires forall k :: 0 <= k < |names| ==> names[k] in Relational.ToDict(itemRows)
    ensures |lines| == |names|
    ensures forall k :: 0 <= k < |names| ==>
      && Relational.LastFor(itemRows, names[k]) == Some(lines[k].itemId)
      && lines[k] == LineFor(lines[k].itemId, InputFor(inputs, lines[k].itemId))
  {
    var options := Relational.ToDict(itemRows);
    seq(|names|, k requires 0 <= k < |names| => LineFor(options[names[k]], InputFor(inputs, options[names[k]])))
  }

  /** The loop that appends one line to `po_items` per selected name. */
  method BuildPoLines(itemRows: seq<(Value, int)>, names: seq<Value>, inputs: map<int, LineInput>) returns (lines: seq<PoLine>)
    requires forall k :: 0 <= k < |names| ==> names[k] in Relational.ToDict(itemRows)
    ensures lines == PoLinesFor(itemRows, names, inputs)
  {
    var options := Relational.ToDict(itemRows);
    ghost var spec := PoLinesFor(itemRows, names, inputs);
    lines := [];
    var i := 0;
    while i < |names|
      invariant 0 <= i <= |names|
      invariant |lines| == i
      invariant forall k :: 0 <= k < i ==> lines[k] == spec[k]
    {
      var itemId := options[names[i]];
      var input := InputFor(inputs, itemId);
      var quantity := if input.quantity.Some? then input.quantity.value else 1;
      lines := lines + [PoLine(itemId, quantity, if input.priceCents > 0 then Some(input.priceCents) else None)];
      i := i + 1;
    }
  }

  /**
   * Distinct names of items with distinct ids give lines for distinct
   * items, so no item is ordered twice in one PO.
   */
  lemma LinesHaveDistinctItems(itemRows: seq<(Value, int)>, names: seq<Value>, inputs: map<int, LineInput>)
    requires forall k :: 0 <= k < |names| ==> names[k] in Relational.ToDict(itemRows)
    requires forall i, j :: 0 <= i < j < |names| ==> names[i] != names[j]
    requires forall i, j :: 0 <= i < j < |itemRows| ==> itemRows[i].1 != itemRows[j].1
    ensures var lines := PoLinesFor(itemRows, names, inputs);
      forall i, j :: 0 <= i < j < |lines| ==> lines[i].itemId != lines[j].itemId
  {
    var lines := PoLinesFor(itemRows, names, inputs);
    forall i, j | 0 <= i < j < |lines| ensures lines[i].itemId != lines[j].itemId {
      var a := Relational.LastFor(itemRows, names[i]);
      var b := Relational.LastFor(itemRows, names[j]);
      var ka :| 0 <= ka < |itemRows| && itemRows[ka] == (names[i], a.value);
      var kb :| 0 <= kb < |itemRows| && itemRows[kb] == (names[j], b.value);
      assert ka != kb;
    }
  }

  /** Requests to handler methods whose effects are not part of this model. */
  datatype ManualPoOutcome =
    | SupplierKeyError
    | NotSubmitted
    | EmptyOrder
    | CreateRequested(supplierId: int, lines: seq<PoLine>)

  /**
   * One run of the form. `supplierRows` and `itemRows` are the fetched
   * (name, id) listings; `supplierName` and `itemNames` the selections. With
   * no suppliers the selectbox yields nothing and the id lookup raises.
   */
  method ManualPoTab(supplierRows: seq<(string, int)>, itemRows: seq<(Value, int)>, supplierName: string,
                     itemNames: seq<Value>, inputs: map<int, LineInput>, submitted: bool)
    returns (outcome: ManualPoOutcome)
    requires supplierRows != [] ==> supplierName in Relational.ToDict(supplierRows)
    requires forall k :: 0 <= k < |itemNames| ==> itemNames[k] in Relational.ToDict(itemRows)
    ensures supplierRows == [] <==> outcome == SupplierKeyError
    ensures supplierRows != [] && !submitted ==> outcome == NotSubmitted
    ensures supplierRows != [] && submitted && itemNames == [] ==> outcome == EmptyOrder
    ensures supplierRows != [] && submitted && itemNames != [] ==>
      outcome == CreateRequested(Relational.LastFor(supplierRows, supplierName).value, PoLinesFor(itemRows, itemNames, inputs))
    ensures outcome.CreateRequested? ==> outcome.lines != [] && forall k :: 0 <= k < |outcome.lines| ==> outcome.lines[k].quantity >= 1
  {
    if supplierRows == [] {
      return SupplierKeyError;
    }
    var supplierId := Relational.ToDict(supplierRows)[supplierName];
    var lines := BuildPoLines(itemRows, itemNames, inputs);
    if !submitted {
      return NotSubmitted;
    }
    if lines == [] {
      return EmptyOrder;
    }
    return CreateRequested(supplierId, lines);
  }
}
