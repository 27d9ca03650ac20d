/**
 * The purchase-order tracking page: the de-duplicated summary, the detail
 * rows of the selected order, and which lifecycle actions it offers.
 */
module TrackPo {
  import opened Wrappers
  import opened Schema
  import Relational

  /**
   * One row of the all-orders listing as the tracking and proposal pages
   * read it: an order line joined with its order, supplier and item.
   * Prices are integer cents.
   */
  datatype PoDetailRow = PoDetailRow(
    poid: int,
    supplierName: string,
    status: Status,
    orderDate: int,
    expectedDelivery: Option<int>,
    proposedStatus: Option<string>,
    supProposedDeliver: Option<int>,
    supplierNote: Option<string>,
    respondedAt: Option<int>,
    itemName: Value,
    itemPicture: Value,
    orderedQuantity: int,
    receivedQuantity: int,
    estimatedPrice: Option<nat>,
    supProposedQuantity: Option<int>,
    supProposedPrice: Option<nat>)

  /** The value of ProposedStatus for an order awaiting review. */
  const Proposed := "Proposed"

  predicate IsProposed(r: PoDetailRow) {
    r.proposedStatus == Some(Proposed)
  }

  /** The five summary columns of a row. */
  datatype SummaryRow = SummaryRow(poid: int, supplierName: string, status: Status,
                                   expectedDelivery: Option<int>, proposedStatus: Option<string>)

  function SummaryOf(r: PoDetailRow): SummaryRow {
    SummaryRow(r.poid, r.supplierName, r.status, r.expectedDelivery, r.proposedStatus)
  }

  function Projected(rows: seq<PoDetailRow>): (s: seq<SummaryRow>)
    ensures |s| == |rows|
    ensures forall k :: 0 <= k < |rows| ==> s[k] == SummaryOf(rows[k])
  {
    seq(|rows|, k requires 0 <= k < |rows| => SummaryOf(rows[k]))
  }

  /**
   * The summary table: one row per distinct combination of the five
   * columns, in order of first appearance.
   */
  function Summary(rows: seq<PoDetailRow>): (summary: seq<SummaryRow>)
    ensures forall s :: s in summary <==> exists k :: 0 <= k < |rows| && SummaryOf(rows[k]) == s
    ensures forall i, j :: 0 <= i < j < |summary| ==> summary[i] != summary[j]
    ensures |summary| <= |rows|
    ensures forall s :: s in summary ==> s in Projected(rows)
    ensures forall i, j :: 0 <= i < j < |summary| ==>
      Relational.FirstIndex(Projected(rows), summary[i]) < Relational.FirstIndex(Projected(rows), summary[j])
  {
    var projected := Projected(rows);
    var summary := Relational.Dedup(projected);
    assert forall s :: s in projected <==> exists k :: 0 <= k < |rows| && SummaryOf(rows[k]) == s by {
      forall s | s in projected ensures exists k :: 0 <= k < |rows| && SummaryOf(rows[k]) == s {
        var k :| 0 <= k < |projected| && projected[k] == s;
      }
    }
    summary
  }

  /** The rows of one order, in listing order. */
  function Details(rows: seq<PoDetailRow>, poid: int): (details: seq<PoDetailRow>)
    ensures forall r :: r in details <==> r in rows && r.poid == poid
    ensures |details| <= |rows|
  {
    if rows == [] then []
    else (if rows[0].poid == poid then [rows[0]] else []) + Details(rows[1..], poid)
  }

  /** An order's rows keep every row of that order as often as the listing has it, and no other. */
  lemma {:induction false} DetailsCount(rows: seq<PoDetailRow>, poid: int)
    ensures forall r :: multiset(Details(rows, poid))[r] == if r.poid == poid then multiset(rows)[r] else 0
  {
    if rows != [] {
      DetailsCount(rows[1..], poid);
      assert rows == [rows[0]] + rows[1..];
      assert multiset(rows) == multiset{rows[0]} + multiset(rows[1..]);
    }
  }

  /** The lifecycle actions the page can offer. */
  datatype Action = MarkReceived | Accept | Decline

  /** The calls the page makes into handler methods whose effects are not part of this model. */
  datatype HandlerCall = UpdatePoStatusToReceived(poid: int) | AcceptProposedPo(poid: int) | DeclineProposedPo(poid: int)

  /** The actions offered for an order, decided from its first detail row. */
  function OfferedActions(info: PoDetailRow): (offered: set<Action>)
    ensures MarkReceived in offered <==> info.status != Received
    ensures Accept in offered <==> IsProposed(info)
    ensures Decline in offered <==> IsProposed(info)
  {
    (if info.status != Received then {MarkReceived} else {}) + (if IsProposed(info) then {Accept, Decline} else {})
  }

  function CallFor(action: Action, poid: int): HandlerCall {
    match action
    case MarkReceived => UpdatePoStatusToReceived(poid)
    case Accept => AcceptProposedPo(poid)
    case Decline => DeclineProposedPo(poid)
  }

  /** What the page shows and does in one run. */
  datatype TrackView =
    | NoOrders
    | NoDetails(poid: int)
    | DateFormatError(poid: int)
    | Panel(summary: seq<SummaryRow>, info: PoDetailRow, details: seq<PoDetailRow>,
            offered: set<Action>, proposedColumns: bool, call: Option<HandlerCall>)

  /**
   * One run of the page over the all-orders listing. `choice` is the
   * selected summary row, `clicked` the button pressed, if any. The panel
   * formats the order and expected dates, and for a proposed order the
   * proposed delivery date; a NULL there stops the page before any button.
   */
  function TrackPoTab(rows: seq<PoDetailRow>, choice: nat, clicked: Option<Action>): (view: TrackView)
    requires rows != [] ==> choice < |Summary(rows)|
    ensures view.NoOrders? <==> rows == []
    ensures !view.NoDetails?
    ensures view.Panel? ==>
      && view.details != []
      && view.info == view.details[0]
      && view.summary == Summary(rows)
      && view.details == Details(rows, Summary(rows)[choice].poid)
      && view.offered == OfferedActions(view.info)
      && (view.proposedColumns <==> IsProposed(view.info))
      && (view.call.Some? <==> clicked.Some? && clicked.value in view.offered)
      && (view.call.Some? ==> view.call.value == CallFor(clicked.value, view.info.poid))
      && view.info.expectedDelivery.Some?
      && (IsProposed(view.info) ==> view.info.supProposedDeliver.Some?)
    ensures view.DateFormatError? ==>
      && rows != []
      && var details := Details(rows, Summary(rows)[choice].poid);
         && details != []
         && (details[0].expectedDelivery.None? || (IsProposed(details[0]) && details[0].supProposedDeliver.None?))
  {
    if rows == [] then NoOrders
    else
      var summary := Summary(rows);
      var poid := summary[choice].poid;
      var details := Details(rows, poid);
      SelectedOrderHasDetails(rows, choice);
      if details == [] then NoDetails(poid)
      else
        var info := details[0];
        if info.expectedDelivery.None? || (IsProposed(info) && info.supProposedDeliver.None?) then DateFormatError(poid)
        else
          var offered := OfferedActions(info);
          var call := if clicked.Some? && clicked.value in offered then Some(CallFor(clicked.value, poid)) else None;
          Panel(summary, info, details, offered, IsProposed(info), call)
  }

  /** The selected summary row comes from some order row, so its details are never empty. */
  lemma SelectedOrderHasDetails(rows: seq<PoDetailRow>, choice: nat)
    requires rows != [] && choice < |Summary(rows)|
    ensures Details(rows, Summary(rows)[choice].poid) != []
  {
    var s := Summary(rows)[choice];
    assert s in Summary(rows);
    var k :| 0 <= k < |rows| && SummaryOf(rows[k]) == s;
    assert rows[k] in Details(rows, s.poid);
  }

  /** Completed and Declined orders are still offered "mark received"; Received ones are not. */
  lemma MarkReceivedOfferedUnlessReceived(info: PoDetailRow)
    ensures info.status == Completed ==> MarkReceived in OfferedActions(info)
    ensures info.status == Declined ==> MarkReceived in OfferedActions(info)
    ensures info.status == Received ==> MarkReceived !in OfferedActions(info)
  {
  }
}
