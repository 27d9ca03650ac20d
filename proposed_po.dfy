/**
 * The supplier-proposal review page: the orders awaiting review, one
 * review block per order, and the Accept / Modify / Decline buttons.
 */
module ProposedPo {
  import opened Wrappers
  import opened Schema
  import Relational
  import opened TrackPo

  /** The rows whose ProposedStatus is 'Proposed', in listing order. */
  function ProposedRows(rows: seq<PoDetailRow>): (proposed: seq<PoDetailRow>)
    ensures forall r :: r in proposed <==> r in rows && IsProposed(r)
    ensures |proposed| <= |rows|
  {
    if rows == [] then []
    else (if IsProposed(rows[0]) then [rows[0]] else []) + ProposedRows(rows[1..])
  }

  function Poids(rows: seq<PoDetailRow>): (ids: seq<int>)
    ensures |ids| == |rows|
    ensures forall k :: 0 <= k < |rows| ==> ids[k] == rows[k].poid
  {
    seq(|rows|, k requires 0 <= k < |rows| => rows[k].poid)
  }

  /** The distinct order ids under review, in order of first appearance. */
  function ProposedPoids(rows: seq<PoDetailRow>): (ids: seq<int>)
    ensures forall id :: id in ids <==> exists r :: r in rows && IsProposed(r) && r.poid == id
    ensures forall i, j :: 0 <= i < j < |ids| ==> ids[i] != ids[j]
    ensures forall id :: id in ids ==> id in Poids(ProposedRows(rows))
    ensures forall i, j :: 0 <= i < j < |ids| ==>
      Relational.FirstIndex(Poids(ProposedRows(rows)), ids[i]) < Relational.FirstIndex(Poids(ProposedRows(rows)), ids[j])
  {
    var proposed := ProposedRows(rows);
    var all := Poids(proposed);
    assert forall id :: id in all <==> exists r :: r in proposed && r.poid == id by {
      forall id | id in all ensures exists r :: r in proposed && r.poid == id {
        var k :| 0 <= k < |all| && all[k] == id;
        assert proposed[k] in proposed;
      }
      forall id | exists r :: r in proposed && r.poid == id ensures id in all {
        var r :| r in proposed && r.poid == id;
        var k :| 0 <= k < |proposed| && proposed[k] == r;
        assert all[k] == id;
      }
    }
    Relational.Dedup(all)
  }

  const NoNote := "No note provided"

  /** `suppliernote or "No note provided"`: a NULL or empty note is replaced. */
  function NoteText(note: Option<string>): (text: string)
    ensures note.None? || note == Some("") ==> text == NoNote
    ensures note.Some? && note.value != "" ==> text == note.value
  {
    if note.Some? && note.value != "" then note.value else NoNote
  }

  /** The delivery-date line; an original of `None` is shown as "N/A". */
  datatype DateLine = Dates(original: Option<int>, proposed: int) | NotSpecified

  function DateLineOf(info: PoDetailRow): (line: DateLine)
    ensures line.Dates? <==> info.supProposedDeliver.Some?
    ensures line.Dates? ==> line.original == info.expectedDelivery && line.proposed == info.supProposedDeliver.value
  {
    if info.supProposedDeliver.Some? then Dates(info.expectedDelivery, info.supProposedDeliver.value) else NotSpecified
  }

  /** One order's review block, headed by its first row. */
  datatype ReviewBlock = ReviewBlock(poid: int, supplierName: string, note: string, dates: DateLine, lines: seq<PoDetailRow>)

  function BlockFor(proposed: seq<PoDetailRow>, poid: int): (block: ReviewBlock)
    requires Details(proposed, poid) != []
    ensures block.poid == poid && block.lines == Details(proposed, poid)
    ensures block.supplierName == block.lines[0].supplierName
    ensures block.note == NoteText(block.lines[0].supplierNote) && block.dates == DateLineOf(block.lines[0])
  {
    var lines := Details(proposed, poid);
    var info := lines[0];
    ReviewBlock(poid, info.supplierName, NoteText(info.supplierNote), DateLineOf(info), lines)
  }

  /** One review block per listed order, in the order given. */
  function Blocks(proposed: seq<PoDetailRow>, ids: seq<int>): (blocks: seq<ReviewBlock>)
    requires forall k :: 0 <= k < |ids| ==> Details(proposed, ids[k]) != []
    ensures |blocks| == |ids|
    ensures forall k :: 0 <= k < |ids| ==>
      && blocks[k].poid == ids[k]
      && blocks[k].lines == Details(proposed, ids[k]) != []
      && blocks[k].supplierName == blocks[k].lines[0].supplierName
      && (forall r :: r in blocks[k].lines <==> r in proposed && r.poid == ids[k])
      && blocks[k].note == NoteText(blocks[k].lines[0].supplierNote)
      && blocks[k].dates == DateLineOf(blocks[k].lines[0])
  {
    seq(|ids|, k requires 0 <= k < |ids| => BlockFor(proposed, ids[k]))
  }

  datatype Button = AcceptButton | ModifyButton | DeclineButton

  datatype ProposedView =
    | NoProposals
    | Review(blocks: seq<ReviewBlock>, call: Option<HandlerCall>, modifyNotice: bool)

  /**
   * One run of the page. `clicked` is the button pressed, if any, with the
   * order id in its key. Accept and Decline delegate one call for that
   * order; Modify only shows a notice.
   */
  function ProposedPoTab(rows: seq<PoDetailRow>, clicked: Option<(Button, int)>): (view: ProposedView)
    ensures view.NoProposals? <==> forall r :: r in rows ==> !IsProposed(r)
    ensures view.Review? ==>
      var ids := ProposedPoids(rows);
      && |view.blocks| == |ids|
      && (forall k :: 0 <= k < |ids| ==>
            && view.blocks[k].poid == ids[k]
            && view.blocks[k].lines == Details(ProposedRows(rows), ids[k]) != []
            && view.blocks[k].supplierName == view.blocks[k].lines[0].supplierName
            && (forall r :: r in view.blocks[k].lines <==> r in rows && IsProposed(r) && r.poid == ids[k])
            && view.blocks[k].note == NoteText(view.blocks[k].lines[0].supplierNote)
            && view.blocks[k].dates == DateLineOf(view.blocks[k].lines[0]))
      && (view.call.Some? <==> clicked.Some? && clicked.value.0 != ModifyButton && clicked.value.1 in ids)
      && (view.call.Some? && clicked.value.0 == AcceptButton ==> view.call.value == AcceptProposedPo(clicked.value.1))
      && (view.call.Some? && clicked.value.0 == DeclineButton ==> view.call.value == DeclineProposedPo(clicked.value.1))
      && (view.modifyNotice <==> clicked.Some? && clicked.value.0 == ModifyButton && clicked.value.1 in ids)
  {
    var proposed := ProposedRows(rows);
    if proposed == [] then
      assert forall r :: r in rows ==> !IsProposed(r);
      NoProposals
    else
      assert proposed[0] in proposed;
      var ids := ProposedPoids(rows);
      EveryListedOrderHasLines(rows);
      var blocks := Blocks(proposed, ids);
      var listed := clicked.Some? && clicked.value.1 in ids;
      var call :=
        if listed && clicked.value.0 == AcceptButton then Some(AcceptProposedPo(clicked.value.1))
        else if listed && clicked.value.0 == DeclineButton then Some(DeclineProposedPo(clicked.value.1))
        else None;
      Review(blocks, call, listed && clicked.value.0 == ModifyButton)
  }

  /** Every order under review has at least one proposed row. */
  lemma EveryListedOrderHasLines(rows: seq<PoDetailRow>)
    ensures forall id :: id in ProposedPoids(rows) ==> Details(ProposedRows(rows), id) != []
  {
    forall id | id in ProposedPoids(rows) ensures Details(ProposedRows(rows), id) != [] {
      var r :| r in rows && IsProposed(r) && r.poid == id;
      assert r in Details(ProposedRows(rows), id);
    }
  }
}
