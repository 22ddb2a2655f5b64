/** Refunding one payment (app/services/refunds.py, refund_refs.py and ebarimt/): its tax
    receipts, the receipts the tax authority holds, and the seat. Each commit is one step, so
    a request may stop after any of them. */
module Refunds {
  import opened Wrappers
  import opened Books

  datatype ReceiptStatus = Temp | Issued | Returned | Failed

  /** A receipt's id is its place in the payment's list. `ddtd` is the tax authority's number
      and `corrects` the receipt this one corrects. */
  datatype Receipt = Receipt(total: real, status: ReceiptStatus, tempMode: bool, ddtd: Option<nat>,
                             corrects: Option<nat>)

  datatype Seat = NoSeat | Held | Sold | Cancelled | Released

  /** `remote` are the numbers the tax authority holds as valid, `minted` how many it has
      given out. */
  datatype World = World(payment: Payment, receipts: seq<Receipt>, remote: set<nat>, minted: nat, seat: Seat,
                         enrolled: bool)

  predicate Live(r: Receipt) {
    r.status != Returned
  }

  // ----------------------------------------------------------------- references

  /** The live receipt with the highest id, if there is one. */
  function NewestLive(receipts: seq<Receipt>): (r: Option<nat>)
    ensures r.Some? ==> r.value < |receipts| && Live(receipts[r.value])
    ensures r.Some? ==> forall i :: r.value < i < |receipts| ==> !Live(receipts[i])
    ensures r.None? ==> forall i :: 0 <= i < |receipts| ==> !Live(receipts[i])
  {
    if receipts == [] then None
    else
      var k := |receipts| - 1;
      if Live(receipts[k]) then Some(k) else NewestLive(receipts[..k])
  }

  /** The receipt a refund of this payment has to void. */
  function ReceiptFor(receipts: seq<Receipt>): (r: Option<nat>)
    ensures r.Some? ==> r.value < |receipts|
    ensures r.None? <==> receipts == []
  {
    var live := NewestLive(receipts);
    if live.Some? then live else if receipts == [] then None else Some(|receipts| - 1)
  }

  /** A request names the payment, or one of its receipts. */
  datatype Request = Request(basis: Basis, void: bool, receipt: Option<nat>)

  function Resolved(w: World, req: Request): (r: Option<nat>)
    ensures r.Some? && (req.receipt.Some? ==> req.receipt.value < |w.receipts|) ==> r.value < |w.receipts|
  {
    if req.receipt.Some? then req.receipt else ReceiptFor(w.receipts)
  }

  // ----------------------------------------------------------------- the plan

  datatype Outlook = NoReceipt | LeftStanding | AlreadyReturned | NotIssued | AlreadyCorrected | ToVoid

  /** What the buyer keeps once the refund lands; a bad body is refused here. */
  function Kept(p: Payment, basis: Basis): Result<real> {
    if p.status == Refunded then Ok(0.0)
    else
      var total := RefundTotal(p, basis);
      if total.Err? then Err(total.status, total.code) else Ok(p.amount - total.value)
  }

  function VoidOutlook(w: World, r: Option<nat>, void: bool, kept: real): (o: Outlook)
    requires r.Some? ==> r.value < |w.receipts|
    ensures o == NoReceipt <==> r.None?
    ensures o == ToVoid ==> void && Live(w.receipts[r.value])
  {
    if r.None? then NoReceipt
    else if !void then LeftStanding
    else if w.receipts[r.value].status == Returned then AlreadyReturned
    else if w.receipts[r.value].status == ReceiptStatus.Failed then NotIssued
    else if kept > 0.0 && w.receipts[r.value].total == kept then AlreadyCorrected
    else ToVoid
  }

  /** Read before anything moves. */
  datatype Plan = Plan(receipt: Option<nat>, kept: real, outlook: Outlook)

  predicate Names(w: World, req: Request) {
    req.receipt.Some? ==> req.receipt.value < |w.receipts|
  }

  function Planned(w: World, req: Request): (r: Result<Plan>)
    requires Names(w, req)
    ensures r.Ok? && r.value.receipt.Some? ==> r.value.receipt.value < |w.receipts|
  {
    var kept := Kept(w.payment, req.basis);
    if kept.Err? then Err(kept.status, kept.code)
    else
      var r := Resolved(w, req);
      Ok(Plan(r, kept.value, VoidOutlook(w, r, req.void, kept.value)))
  }

  // ---------------------------------------------------------------- the steps

  /** Voided at the tax authority, unless it never was there, and marked so. */
  function ReturnReceipt(w: World, r: nat): World
    requires r < |w.receipts| && Live(w.receipts[r])
  {
    var x := w.receipts[r];
    w.(receipts := w.receipts[r := x.(status := Returned)],
       remote := if !x.tempMode && x.ddtd.Some? then w.remote - {x.ddtd.value} else w.remote)
  }

  function VoidStep(w: World, plan: Plan): World
    requires plan.receipt.Some? ==> plan.receipt.value < |w.receipts|
  {
    if plan.outlook == ToVoid && plan.receipt.Some? && Live(w.receipts[plan.receipt.value]) then
      ReturnReceipt(w, plan.receipt.value)
    else w
  }

  function MoneyStep(w: World, basis: Basis): World {
    var total := RefundTotal(w.payment, basis);
    if w.payment.status == Refunded || total.Err? then w else w.(payment := WithRefund(w.payment, total.value))
  }

  /** A new receipt: a row of our own in temp mode, else a number from the tax authority. */
  function Issue(w: World, total: real, corrects: Option<nat>, live: bool): World {
    var x := if live then Receipt(total, Issued, false, Some(w.minted), corrects)
             else Receipt(total, Temp, true, None, corrects);
    w.(receipts := w.receipts + [x],
       remote := if live then w.remote + {w.minted} else w.remote,
       minted := if live then w.minted + 1 else w.minted)
  }

  predicate NeedsReplacement(w: World, plan: Plan, void: bool) {
    plan.receipt.Some? && void && plan.outlook != NotIssued && plan.kept > 0.0 && w.payment.status == PartlyRefunded
  }

  predicate HasLiveFor(w: World, total: real) {
    exists i :: 0 <= i < |w.receipts| && Live(w.receipts[i]) && w.receipts[i].total == total
  }

  function IssueReplacement(w: World, original: nat, total: real, live: bool): World {
    if HasLiveFor(w, total) then w else Issue(w, total, Some(original), live)
  }

  function ReplacementStep(w: World, plan: Plan, void: bool, live: bool): World {
    if NeedsReplacement(w, plan, void) then IssueReplacement(w, plan.receipt.value, plan.kept, live) else w
  }

  /** Nothing was left to undo: the payment had gone back before, and no receipt was touched. */
  predicate NothingToUndo(w: World, plan: Plan) {
    w.payment.status == Refunded
        && (plan.outlook == AlreadyReturned || plan.outlook == NoReceipt || plan.outlook == NotIssued)
  }

  function SeatStep(w: World): World {
    if w.payment.status != Refunded then w
    else w.(seat := if w.seat == Held || w.seat == Sold then Seat.Cancelled else w.seat, enrolled := false)
  }

  /** Where a refund leaves the world when it gets through `n` of its steps. A step that
      fails, at the tax authority or in between, is one that was not got through. */
  function Reached(w: World, req: Request, live: bool, n: nat): (reached: World)
    requires Names(w, req)
    ensures |reached.receipts| >= |w.receipts|
  {
    var plan := Planned(w, req);
    if plan.Err? || n == 0 then w
    else
      var voided := VoidStep(w, plan.value);
      if n == 1 then voided
      else
        var paid := MoneyStep(voided, req.basis);
        if n == 2 then paid
        else
          var replaced := ReplacementStep(paid, plan.value, req.void, live);
          if n == 3 || NothingToUndo(w, plan.value) then replaced else SeatStep(replaced)
  }

  // ------------------------------------------------------------ other operations

  /** The first receipt, for the whole payment; one that exists already is answered with. */
  function IssueForPayment(w: World, live: bool): World {
    if w.receipts != [] then w else Issue(w, w.payment.amount, None, live)
  }

  /** A receipt captured in temp mode gets its number. */
  function Reissue(w: World, r: nat): World
    requires r < |w.receipts|
  {
    var x := w.receipts[r];
    if !x.tempMode then w
    else w.(receipts := w.receipts[r := x.(status := Issued, tempMode := false, ddtd := Some(w.minted))],
            remote := w.remote + {w.minted}, minted := w.minted + 1)
  }

  /** Storing a receipt that the tax authority may hold already: when the row is refused, its
      number is handed back, if that call gets through. */
  function PersistOrVoid(w: World, after: World, stored: bool, handedBack: bool): World {
    if stored then after
    else after.(payment := w.payment, receipts := w.receipts, remote := if handedBack then w.remote else after.remote)
  }
}
