/** What a refund comes to when it gets through (app/services/refunds.py:94-195), read off the
    request: the money, the receipts, the seat. */
module RefundOutcomes {
  import opened Wrappers
  import opened Books
  import BooksProof
  import opened Refunds
  import opened RefundsProof
  import opened RefundDesk

  /** A figure in whole cents that can be returned in total. */
  predicate Returnable(p: Payment, x: real, n: int) {
    p.status != Refunded && x == n as real / 100.0 && 0.0 < x <= p.amount && p.refunded <= x
  }

  ghost predicate AllReturned(receipts: seq<Receipt>) {
    forall i :: 0 <= i < |receipts| ==> receipts[i].status == Returned
  }

  /** The last receipt stands, for that amount. */
  predicate LastStands(receipts: seq<Receipt>, total: real) {
    && receipts != [] && receipts[|receipts| - 1].total == total
    && (receipts[|receipts| - 1].status == Temp || receipts[|receipts| - 1].status == Issued)
  }

  lemma TotalIs(p: Payment, x: real, n: int)
    requires BooksProof.Consistent(p) && Returnable(p, x, n)
    ensures RefundTotal(p, Amount(x)) == Ok(x)
    ensures Kept(p, Amount(x)) == Ok(p.amount - x)
    ensures WithRefund(p, x) == p.(refunded := x, status := if x == p.amount then Refunded else PartlyRefunded)
  {
    BooksProof.CentsIsNearest(x, n);
    hide Cents;
  }

  /** The money and the seat, whether or not the receipt is voided: the figure named has gone
      back in total, and the seat and the enrollment go exactly when it is the whole payment. */
  lemma MoneyOutcome(w: World, req: Request, x: real, n: int, live: bool)
    requires Safe(w) && Names(w, req) && req.basis == Amount(x) && Returnable(w.payment, x, n)
    ensures Planned(w, req).Ok? && !NothingToUndo(w, Planned(w, req).value)
    ensures var end := Reached(w, req, live, 4);
            && end.payment.refunded == x && end.payment.amount == w.payment.amount
            && (end.payment.status == Refunded <==> x == w.payment.amount)
            && (end.payment.status == PartlyRefunded <==> x != w.payment.amount)
            && (end.seat == if x == w.payment.amount && (w.seat == Held || w.seat == Sold) then Seat.Cancelled
                            else w.seat)
            && end.enrolled == (w.enrolled && x != w.payment.amount)
  {
    TotalIs(w.payment, x, n);
    hide RefundTotal, Kept, VoidOutlook, WithRefund, HasLiveFor;
    var plan := Planned(w, req).value;
    var voided := VoidStep(w, plan);
    assert voided.payment == w.payment && voided.seat == w.seat && voided.enrolled == w.enrolled;
  }

  /** The receipt that corrects number k: a row of our own in temp mode, otherwise one stamped
      with the next number of the tax authority. */
  function Correction(w: World, k: nat, total: real, live: bool): Receipt {
    if live then Receipt(total, Issued, false, Some(w.minted), Some(k)) else Receipt(total, Temp, true, None, Some(k))
  }

  /** A partial refund row by row, with what the tax authority holds: the last receipt is
      returned there and here and corrected by a new one, unless it is already the correction
      this refund asks for. */
  lemma CorrectionOutcome(w: World, x: real, n: int, live: bool)
    requires Safe(w) && Returnable(w.payment, x, n) && x != w.payment.amount && w.receipts != []
    ensures var end, k, kept := Reached(w, Request(Amount(x), true, None), live, 4), |w.receipts| - 1,
            w.payment.amount - x;
            var last := w.receipts[k];
            if last.status != Returned && last.total == kept then
              end.receipts == w.receipts && end.remote == w.remote && end.minted == w.minted
            else
              && end.receipts == w.receipts[k := last.(status := Returned)] + [Correction(w, k, kept, live)]
              && end.remote == (if last.status == Issued then w.remote - {last.ddtd.value} else w.remote)
                               + (if live then {w.minted} else {})
              && end.minted == (if live then w.minted + 1 else w.minted)
  {
    var req, k := Request(Amount(x), true, None), |w.receipts| - 1;
    TotalIs(w.payment, x, n);
    hide RefundTotal, Kept, WithRefund, Standing, BooksProof.Consistent;
    assert Numbered(w.receipts[k], w.minted);
    var plan := Planned(w, req).value;
    var paid := MoneyStep(VoidStep(w, plan), Amount(x));
    assert plan.receipt == Some(k);
    assert HasLiveFor(paid, plan.kept) ==> Live(paid.receipts[k]) && paid.receipts[k].total == plan.kept;
    assert Live(paid.receipts[k]) && paid.receipts[k].total == plan.kept ==> HasLiveFor(paid, plan.kept);
    assert w.receipts[k].status == Returned ==> w.receipts[k := w.receipts[k].(status := Returned)] == w.receipts;
  }

  /** A payment without a receipt gets none by being refunded. */
  lemma NoReceiptOutcome(w: World, x: real, n: int, live: bool)
    requires Safe(w) && Returnable(w.payment, x, n) && w.receipts == []
    ensures Reached(w, Request(Amount(x), true, None), live, 4).receipts == []
  {
    TotalIs(w.payment, x, n);
    hide RefundTotal, Kept, WithRefund, Mirrored, BooksProof.Consistent;
  }

  /** A full refund returns the receipt that stands and issues none. */
  lemma FullOutcome(w: World, x: real, n: int, live: bool)
    requires Safe(w) && Returnable(w.payment, x, n) && x == w.payment.amount && w.receipts != []
    ensures var k := |w.receipts| - 1;
            Reached(w, Request(Amount(x), true, None), live, 4).receipts
            == w.receipts[k := w.receipts[k].(status := Returned)]
  {
    TotalIs(w.payment, x, n);
    hide RefundTotal, Kept, WithRefund, Mirrored, BooksProof.Consistent, HasLiveFor;
    var k := |w.receipts| - 1;
    assert Planned(w, Request(Amount(x), true, None)).value.receipt == Some(k);
    assert w.receipts[k].status == Returned ==> w.receipts[k := w.receipts[k].(status := Returned)] == w.receipts;
  }

  /** So a full refund leaves none standing, and a partial one leaves one, for what the buyer
      keeps, if there was any receipt to correct. */
  lemma ReceiptOutcome(w: World, x: real, n: int, live: bool)
    requires Safe(w) && Returnable(w.payment, x, n)
    ensures var end := Reached(w, Request(Amount(x), true, None), live, 4);
            && (w.receipts == [] ==> end.receipts == [])
            && (x == w.payment.amount ==> AllReturned(end.receipts))
            && (x != w.payment.amount && w.receipts != [] ==>
                  LastStands(end.receipts, w.payment.amount - x)
                  && AllReturned(end.receipts[..|end.receipts| - 1]))
  {
    hide Reached, Mirrored, BooksProof.Consistent, Returnable;
    if w.receipts == [] {
      NoReceiptOutcome(w, x, n, live);
    } else if x == w.payment.amount {
      FullOutcome(w, x, n, live);
    } else {
      CorrectionOutcome(w, x, n, live);
    }
  }

  /** A refund that is asked to leave the receipt standing touches none. */
  lemma StandingOutcome(w: World, receipt: Option<nat>, basis: Basis, live: bool, n: nat)
    requires receipt.Some? ==> receipt.value < |w.receipts|
    ensures var end := Reached(w, Request(basis, false, receipt), live, n);
            end.receipts == w.receipts && end.remote == w.remote && end.minted == w.minted
  {
    hide RefundTotal, HasLiveFor;
  }

  /** A figure that is not positive, more than was paid or less than has gone back is refused
      before anything moves, whatever the request names. */
  lemma RefusedOutcome(w: World, req: Request, x: real, m: int, live: bool, n: nat)
    requires BooksProof.Consistent(w.payment) && w.payment.status != Refunded && Names(w, req)
    requires req.basis == Amount(x) && x == m as real / 100.0
    requires x <= 0.0 || x > w.payment.amount || x < w.payment.refunded
    ensures Planned(w, req).Err? && Planned(w, req).status == 400 && Reached(w, req, live, n) == w
  {
    BooksProof.CentsIsNearest(x, m);
    hide Cents;
  }

  /** A payment that has gone back before: with a receipt still standing, that is returned, none
      is issued and the seat is given back; otherwise there is nothing to undo, which is the
      answer, and nothing changes. */
  lemma AgainOutcome(w: World, basis: Basis, live: bool)
    requires Safe(w) && w.payment.status == Refunded
    ensures var req := Request(basis, true, None);
            var end, k := Reached(w, req, live, 4), |w.receipts| - 1;
            && Planned(w, req).Ok? && end.payment == w.payment
            && (k >= 0 && w.receipts[k].status != Returned ==>
                  && !NothingToUndo(w, Planned(w, req).value)
                  && end.receipts == w.receipts[k := w.receipts[k].(status := Returned)]
                  && end.seat == (if w.seat == Held || w.seat == Sold then Seat.Cancelled else w.seat)
                  && !end.enrolled)
            && (k < 0 || w.receipts[k].status == Returned ==> NothingToUndo(w, Planned(w, req).value) && end == w)
  {
    var req, k := Request(basis, true, None), |w.receipts| - 1;
    hide RefundTotal, WithRefund, Mirrored, BooksProof.Consistent, HasLiveFor;
    if k >= 0 {
      assert Planned(w, req).value.receipt == Some(k);
    }
  }

  /** The receipt a request is about: the one it names, else the last one not returned, else
      the last one. */
  ghost predicate IsAbout(w: World, req: Request, r: Option<nat>) {
    if req.receipt.Some? then r == req.receipt
    else if r.None? then w.receipts == []
    else
      && r.value < |w.receipts|
      && (forall i :: r.value < i < |w.receipts| ==> w.receipts[i].status == Returned)
      && (w.receipts[r.value].status == Returned ==> r.value == |w.receipts| - 1 && AllReturned(w.receipts))
  }

  /** There was nothing to undo exactly when all the money had gone back before and there is no
      receipt, or one to be voided that was returned before or never issued. */
  lemma NothingLeftExactly(w: World, req: Request, r: Option<nat>)
    requires Names(w, req) && Planned(w, req).Ok? && IsAbout(w, req, r)
    ensures NothingToUndo(w, Planned(w, req).value)
            <==> w.payment.status == Refunded
                 && (r.None? || (req.void && w.receipts[r.value].status in {Returned, ReceiptStatus.Failed}))
  {
    assert Resolved(w, req) == r;
  }

  /** A payment's first receipt is for all of it and corrects none. */
  lemma FirstOutcome(w: World, live: bool)
    requires w.receipts == []
    ensures var end := IssueForPayment(w, live);
            && end.receipts == [if live then Receipt(w.payment.amount, Issued, false, Some(w.minted), None)
                                else Receipt(w.payment.amount, Temp, true, None, None)]
            && end.remote == w.remote + (if live then {w.minted} else {})
            && end.minted == w.minted + (if live then 1 else 0)
            && end.payment == w.payment && end.seat == w.seat && end.enrolled == w.enrolled
  {
  }

  /** A receipt captured in temp mode is sent: it gets the next number and keeps the rest. */
  lemma SentOutcome(w: World, r: nat)
    requires r < |w.receipts| && w.receipts[r].tempMode
    ensures var end, x := Reissue(w, r), w.receipts[r];
            && end.receipts == w.receipts[r := Receipt(x.total, Issued, false, Some(w.minted), x.corrects)]
            && end.remote == w.remote + {w.minted} && end.minted == w.minted + 1 && end.payment == w.payment
  {
  }

  /** How far a request gets: nowhere when its figure is refused, or when a receipt that stands
      is held by the tax authority, is not the correction asked for, and cannot be returned; past
      the money but not to the seat when a correction is due that cannot be stamped; otherwise
      all the way. */
  lemma StepsRead(w: World, x: real, n: int, live: bool, voids: bool, creates: bool)
    requires Safe(w) && Returnable(w.payment, x, n)
    ensures var kept, k := w.payment.amount - x, |w.receipts| - 1;
            var corrected := k >= 0 && w.receipts[k].status != Returned && kept > 0.0 && w.receipts[k].total == kept;
            StepsDone(w, Request(Amount(x), true, None), live, voids, creates)
            == if k >= 0 && w.receipts[k].status == Issued && !corrected && !voids then 0
               else if k >= 0 && kept > 0.0 && !corrected && live && !creates then 2 else 4
  {
    var req, k := Request(Amount(x), true, None), |w.receipts| - 1;
    TotalIs(w.payment, x, n);
    hide RefundTotal, Kept, WithRefund, Standing, BooksProof.Consistent;
    var plan := Planned(w, req).value;
    var paid := Reached(w, req, live, 2);
    if k >= 0 {
      assert Numbered(w.receipts[k], w.minted);
      assert plan.receipt == Some(k);
      LastOnly(w, paid, plan.kept);
    }
  }

  /** Of the receipts after the money step only the last can stand. */
  lemma LastOnly(w: World, paid: World, total: real)
    requires w.receipts != [] && |paid.receipts| == |w.receipts| && Matches(w)
    requires forall i :: 0 <= i < |w.receipts| - 1 ==> paid.receipts[i] == w.receipts[i]
    ensures var last := paid.receipts[|w.receipts| - 1];
            HasLiveFor(paid, total) <==> Live(last) && last.total == total
  {
    if HasLiveFor(paid, total) {
      var i :| 0 <= i < |paid.receipts| && Live(paid.receipts[i]) && paid.receipts[i].total == total;
      assert i == |w.receipts| - 1;
    }
  }
}
