/** A refund as the program runs it: rows changed in place, one commit after another, and a
    tax authority that answers or does not. */
module RefundDesk {
  import opened Wrappers
  import opened Books
  import opened Refunds

  /** Whether the tax authority holds this receipt, so that returning it is a call. */
  predicate HeldRemotely(x: Receipt) {
    !x.tempMode && x.ddtd.Some?
  }

  /** How many steps a request gets through when the tax authority answers `voids` to a
      return and `creates` to a new receipt. */
  function StepsDone(w: World, req: Request, live: bool, voids: bool, creates: bool): nat
    requires Names(w, req)
  {
    var plan := Planned(w, req);
    if plan.Err? then 0
    else if plan.value.outlook == ToVoid && HeldRemotely(w.receipts[plan.value.receipt.value]) && !voids then 0
    else
      var paid := Reached(w, req, live, 2);
      if NeedsReplacement(paid, plan.value, req.void) && !HasLiveFor(paid, plan.value.kept) && live && !creates then 2
      else 4
  }

  lemma StepsAre(w: World, req: Request, live: bool, voids: bool, creates: bool)
    requires Names(w, req)
    ensures var n, plan := StepsDone(w, req, live, voids, creates), Planned(w, req);
            && Reached(w, req, live, 0) == w
            && (plan.Err? ==> n == 0)
            && (plan.Ok? ==>
                  var refused := plan.value.outlook == ToVoid && HeldRemotely(w.receipts[plan.value.receipt.value])
                      && !voids;
                  var paid := Reached(w, req, live, 2);
                  var missing := NeedsReplacement(paid, plan.value, req.void) && !HasLiveFor(paid, plan.value.kept)
                      && live && !creates;
                  n == if refused then 0 else if missing then 2 else 4)
  {
  }

  lemma StepsReach(w: World, req: Request, live: bool, plan: Plan)
    requires Names(w, req) && Planned(w, req) == Ok(plan)
    ensures Reached(w, req, live, 2) == MoneyStep(VoidStep(w, plan), req.basis)
    ensures Reached(w, req, live, 3) == ReplacementStep(Reached(w, req, live, 2), plan, req.void, live)
    ensures Reached(w, req, live, 4)
         == if NothingToUndo(w, plan) then Reached(w, req, live, 3) else SeatStep(Reached(w, req, live, 3))
  {
  }

  class Desk {
    var payment: Payment
    var receipts: seq<Receipt>
    var remote: set<nat>
    var minted: nat
    var seat: Seat
    var enrolled: bool

    function View(): World
      reads this
    {
      World(payment, receipts, remote, minted, seat, enrolled)
    }

    constructor (w: World)
      ensures View() == w
    {
      payment, receipts, remote, minted, seat, enrolled := w.payment, w.receipts, w.remote, w.minted, w.seat,
          w.enrolled;
    }

    method VoidReceipt(r: nat, answers: bool) returns (done: Result<nat>)
      requires r < |receipts|
      modifies `receipts, `remote
      ensures done == if old(receipts[r]).status == Returned then Err(409, "already_returned")
                      else if HeldRemotely(old(receipts[r])) && !answers then Err(502, "ebarimt_failed") else Ok(r)
      ensures done.Err? ==> View() == old(View())
      ensures done.Ok? ==> View() == ReturnReceipt(old(View()), r)
    {
      var x := receipts[r];
      if x.status == Returned {
        return Err(409, "already_returned");
      }
      if !x.tempMode && x.ddtd.Some? {
        if !answers {
          return Err(502, "ebarimt_failed");
        }
        remote := remote - {x.ddtd.value};
      }
      receipts := receipts[r := x.(status := Returned)];
      return Ok(r);
    }

    /** A row in temp mode, or one stamped with the number the tax authority gives. */
    method Create(total: real, corrects: Option<nat>, live: bool, answers: bool) returns (done: bool)
      modifies `receipts, `remote, `minted
      ensures done == (!live || answers)
      ensures View() == if done then Issue(old(View()), total, corrects, live) else old(View())
    {
      var x := Receipt(total, Temp, true, None, corrects);
      if live {
        if !answers {
          return false;
        }
        x := x.(status := Issued, tempMode := false, ddtd := Some(minted));
        remote, minted := remote + {minted}, minted + 1;
      }
      receipts := receipts + [x];
      return true;
    }

    method Replace(original: nat, amount: real, live: bool, answers: bool) returns (done: bool)
      modifies `receipts, `remote, `minted
      ensures done == (HasLiveFor(old(View()), amount) || !live || answers)
      ensures View() == if done then IssueReplacement(old(View()), original, amount, live) else old(View())
    {
      for i := 0 to |receipts|
        invariant View() == old(View())
        invariant forall j :: 0 <= j < i ==> !(Live(receipts[j]) && receipts[j].total == amount)
      {
        if receipts[i].status != Returned && receipts[i].total == amount {
          return true;
        }
      }
      done := Create(amount, Some(original), live, answers);
    }

    method IssueFirst(live: bool, answers: bool) returns (done: bool)
      modifies `receipts, `remote, `minted
      ensures done == (old(receipts) != [] || !live || answers)
      ensures View() == if done then IssueForPayment(old(View()), live) else old(View())
    {
      if receipts != [] {
        return true;
      }
      done := Create(payment.amount, None, live, answers);
    }

    method ReturnMoney(basis: Basis)
      modifies `payment
      ensures View() == MoneyStep(old(View()), basis)
    {
      if payment.status == Refunded {
        return;
      }
      var total := RefundTotal(payment, basis);
      if total.Ok? {
        payment := payment.(refunded := total.value,
                            status := if total.value >= payment.amount then Refunded else PartlyRefunded);
      }
    }

    method GiveBackSeat()
      modifies `seat, `enrolled
      ensures payment.status == Refunded ==> View() == SeatStep(old(View()))
    {
      if seat == Held || seat == Sold {
        seat := Seat.Cancelled;
      }
      enrolled := false;
    }

    /** The newest standing receipt, or else the newest. */
    method FindReceipt() returns (r: Option<nat>)
      ensures r == ReceiptFor(receipts)
    {
      var i := |receipts|;
      while i > 0
        invariant 0 <= i <= |receipts|
        invariant NewestLive(receipts[..i]) == NewestLive(receipts)
        invariant receipts[..|receipts|] == receipts
      {
        i := i - 1;
        assert receipts[..i + 1][..i] == receipts[..i] && receipts[..i + 1][i] == receipts[i];
        if receipts[i].status != Returned {
          return Some(i);
        }
      }
      return if receipts == [] then None else Some(|receipts| - 1);
    }

    /** One request. It is refused before anything moves when its body is bad, and answered
        409 when there was nothing left to undo. */
    method Refund(req: Request, live: bool, voids: bool, creates: bool) returns (answer: Result<Payment>)
      requires Names(View(), req)
      modifies this
      ensures View() == Reached(old(View()), req, live, StepsDone(old(View()), req, live, voids, creates))
      ensures var plan, n := Planned(old(View()), req), StepsDone(old(View()), req, live, voids, creates);
              answer == if plan.Err? then Err(plan.status, plan.code) else if n != 4 then Err(502, "ebarimt_failed")
                        else if NothingToUndo(old(View()), plan.value) then Err(409, "already_refunded")
                        else Ok(payment)
    {
      hide RefundTotal, HasLiveFor, VoidOutlook, MoneyStep, Kept, IssueReplacement, ReceiptFor, ReturnReceipt;
      ghost var w := View();
      StepsAre(w, req, live, voids, creates);
      hide StepsDone, Reached;
      var found := FindReceipt();
      var r := if req.receipt.Some? then req.receipt else found;
      var kept := Kept(payment, req.basis);
      if kept.Err? {
        return Err(kept.status, kept.code);
      }
      var before := payment.status;
      var outlook := VoidOutlook(View(), r, req.void, kept.value);
      ghost var plan := Planned(w, req).value;
      assert plan == Plan(r, kept.value, outlook);
      StepsReach(w, req, live, plan);
      if outlook == ToVoid {
        var returned := VoidReceipt(r.value, voids);
        if returned.Err? {
          return Err(returned.status, returned.code);
        }
      }
      assert View() == VoidStep(w, plan);
      ReturnMoney(req.basis);
      assert View() == Reached(w, req, live, 2);
      if r.Some? && req.void && outlook != NotIssued && kept.value > 0.0 && payment.status == PartlyRefunded {
        var replaced := Replace(r.value, kept.value, live, creates);
        if !replaced {
          return Err(502, "ebarimt_failed");
        }
      }
      assert View() == Reached(w, req, live, 3);
      if before == Refunded && (outlook == AlreadyReturned || outlook == NoReceipt || outlook == NotIssued) {
        return Err(409, "already_refunded");
      }
      if payment.status == Refunded {
        GiveBackSeat();
      }
      return Ok(payment);
    }
  }
}
