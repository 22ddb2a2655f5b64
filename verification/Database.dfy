/** The payment service as it runs: tables changed in place, sums and dates gathered row by
    row. Every method is tied to the function in Books (or Reconcile) that says what it does. */
module Database {
  import opened Wrappers
  import opened Plans
  import opened Books
  import opened BooksProof
  import opened Reconcile

  lemma EarliestIs(dates: set<Date>, d: Date)
    requires d in dates && forall x :: x in dates ==> !Before(x, d)
    ensures Earliest(dates) == Some(d)
  {
    BeforeIsTotal(d, Earliest(dates).value);
  }

  lemma OneLess<K>(m: map<K, real>, done: set<K>, k: K)
    ensures Sum(m - done) == (if k in m && k !in done then m[k] else 0.0) + Sum(m - (done + {k}))
  {
    assert m - done - {k} == m - (done + {k});
    if k in m && k !in done {
      SumRemove(m - done, k);
    } else {
      assert m - done == m - (done + {k});
    }
  }

  lemma AllDone<K>(m: map<K, real>, done: set<K>)
    requires m.Keys <= done
    ensures Sum(m - done) == 0.0
  {
  }

  /** What one payment row adds to the sum. */
  lemma CountedAt(b: Books, e: nat, k: Key)
    requires k in b.payments
    ensures var p, all := b.payments[k], CountedPayments(b, e);
            if p.invoice in b.invoices && b.invoices[p.invoice].enrollment == Some(e) && p.status != Refunded
            then k in all && all[k] == p.amount - p.refunded else k !in all
    ensures CountedPayments(b, e).Keys <= b.payments.Keys
  {
  }

  lemma NoneCounted(b: Books, e: nat, done: set<Key>)
    requires b.payments.Keys <= done
    ensures CountedPayments(b, e).Keys <= done
  {
  }

  lemma OwedAt(b: Books, e: nat, t: nat)
    requires t in b.installments
    ensures var p, all := b.installments[t], OwedParts(b, e);
            if p.enrollment == e && p.status != Waived then t in all && all[t] == p.amount else t !in all
  {
  }

  lemma NoneOwed(b: Books, e: nat, done: set<nat>)
    requires b.installments.Keys <= done
    ensures OwedParts(b, e).Keys <= done
  {
  }

  lemma Start<K>(m: map<K, real>)
    ensures Sum(m - {}) == Sum(m)
  {
    assert m - {} == m;
  }

  class Tables {
    var invoices: map<nat, Invoice>
    var payments: map<Key, Payment>
    var installments: map<nat, Installment>
    var enrollments: map<nat, Enrollment>
    var courses: map<nat, Course>
    var ledgers: map<nat, Ledger>
    var nextId: nat

    function View(): Books
      reads this
    {
      Books(invoices, payments, installments, enrollments, courses, ledgers, nextId)
    }

    constructor (b: Books)
      ensures View() == b
    {
      invoices, payments, installments, enrollments := b.invoices, b.payments, b.installments, b.enrollments;
      courses, ledgers, nextId := b.courses, b.ledgers, b.nextId;
    }

    /** The query's sum: payments of the enrollment that are not fully refunded, net. */
    method TotalPaid(e: nat) returns (paid: real)
      ensures paid == Sum(CountedPayments(View(), e))
    {
      hide CountedPayments, Sum;
      ghost var all, done := CountedPayments(View(), e), {};
      var keys := payments.Keys;
      paid := 0.0;
      Start(all);
      while keys != {}
        invariant keys + done == payments.Keys && keys !! done
        invariant paid + Sum(all - done) == Sum(all)
        decreases |keys|
      {
        var k :| k in keys;
        OneLess(all, done, k);
        CountedAt(View(), e, k);
        var p := payments[k];
        if p.invoice in invoices && invoices[p.invoice].enrollment == Some(e) && p.status != Refunded {
          paid := paid + (p.amount - p.refunded);
        }
        keys := keys - {k};
        done := done + {k};
      }
      NoneCounted(View(), e, done);
      AllDone(all, done);
    }

    /** What the parts that are not waived come to, and whether there is a plan at all. */
    method TotalDue(e: nat) returns (planned: bool, due: real)
      ensures planned == (PlanOf(View(), e) != {})
      ensures due == Sum(OwedParts(View(), e))
    {
      hide OwedParts, Sum;
      ghost var all, done := OwedParts(View(), e), {};
      var ids := installments.Keys;
      planned, due := false, 0.0;
      Start(all);
      while ids != {}
        invariant ids + done == installments.Keys && ids !! done
        invariant planned == exists t :: t in done && installments[t].enrollment == e
        invariant due + Sum(all - done) == Sum(all)
        decreases |ids|
      {
        var t :| t in ids;
        OneLess(all, done, t);
        OwedAt(View(), e, t);
        var p := installments[t];
        if p.enrollment == e {
          planned := true;
          due := due + if p.status != Waived then p.amount else 0.0;
        }
        ids := ids - {t};
        done := done + {t};
      }
      NoneOwed(View(), e, done);
      AllDone(all, done);
      if planned {
        ghost var t :| t in done && installments[t].enrollment == e;
        assert t in PlanOf(View(), e);
      }
    }

    method NextDue(e: nat) returns (next: Option<Date>)
      ensures next == Earliest(OpenDates(View(), e))
    {
      ghost var done := {};
      var ids := installments.Keys;
      next := None;
      while ids != {}
        invariant ids + done == installments.Keys && ids !! done
        invariant next.Some? ==> next.value in OpenDates(View(), e)
        invariant forall t :: t in done && installments[t].enrollment == e && Awaited(installments[t]) ==>
                    next.Some? && !Before(installments[t].due.value, next.value)
        decreases |ids|
      {
        var t :| t in ids;
        var p := installments[t];
        ghost var before := next;
        if p.enrollment == e && Awaited(p) && (next.None? || Before(p.due.value, next.value)) {
          next := p.due;
        }
        Sooner(before, next, p, e);
        ids := ids - {t};
        done := done + {t};
      }
      if next.Some? {
        EarliestIs(OpenDates(View(), e), next.value);
      }
    }

    method RecomputeLedger(e: nat)
      requires e in enrollments
      modifies `ledgers
      ensures View() == Recomputed(old(View()), e)
    {
      var paid := TotalPaid(e);
      var planned, due := TotalDue(e);
      var next := NextDue(e);
      if !planned {
        var enr := enrollments[e];
        due := if enr.price.Some? then enr.price.value
               else if enr.course.Some? && enr.course.value in courses then courses[enr.course.value].price
               else 0.0;
        next := None;
      }
      ledgers := ledgers[e := Ledger(due, paid, due - paid, next)];
    }

    // ------------------------------------------------------------- settlement

    /** Answers with the payment when the invoice is settled, with None otherwise. */
    method SettleInvoice(i: nat, r: Report) returns (payment: Option<Key>)
      requires Linked(View()) && i in invoices
      modifies this
      ensures View() == Settle(old(View()), i, r)
      ensures payment == if Confirms(old(View()), i, r) then Some(KeyOf(old(invoices[i]), r)) else None
    {
      hide Rolled;
      if !r.paid {
        return None;
      }
      var v := invoices[i];
      var k := KeyOf(v, r);
      if k in payments {
        if payments[k].amount < v.amount {
          return None;
        }
        invoices := invoices[i := v.(status := Paid)];
        return Some(k);
      }
      InvoiceLinks(View(), i);
      var received := if r.amount.Some? then r.amount.value else v.amount;
      payments := payments[k := Payment(i, received, Received, 0.0)];
      if received < v.amount {
        if v.enrollment.Some? {
          RecomputeLedger(v.enrollment.value);
        }
        return None;
      }
      invoices := invoices[i := v.(status := Paid)];
      if v.installment.Some? && installments[v.installment.value].status != Settled {
        installments := installments[v.installment.value := installments[v.installment.value].(status := Settled)];
      }
      assert View() == FreshRows(old(View()), i, k, received);
      if v.enrollment.Some? {
        RecomputeLedger(v.enrollment.value);
      }
      return Some(k);
    }

    /** The nested loops over pending invoices and statement lines. */
    method ReconcileStatement(pending: seq<nat>, lines: seq<Line>, matches: Matcher) returns (settled: nat)
      requires Sound(View()) && forall j :: 0 <= j < |pending| ==> pending[j] in invoices
      modifies this
      ensures (View(), settled) == Through(old(View()), pending, lines, matches)
    {
      hide Settle, Linked, AllConsistent, InStep, Confirms, Later;
      ghost var whole := Through(View(), pending, lines, matches);
      settled := 0;
      assert pending[0..] == pending;
      for n := 0 to |pending|
        invariant Sound(View()) && invoices.Keys == old(invoices).Keys
        invariant Through(View(), pending[n..], lines, matches).0 == whole.0
        invariant settled + Through(View(), pending[n..], lines, matches).1 == whole.1
      {
        var i := pending[n];
        assert pending[n..][0] == i && pending[n..][1..] == pending[n + 1..];
        var line := FindLine(i, lines, matches);
        TryKeeps(View(), i, lines, matches);
        TryIsLater(View(), i, lines, matches);
        SameInvoices(View(), Try(View(), i, lines, matches));
        if line.Some? {
          var payment := SettleInvoice(i, ReportOf(line.value));
          if payment.Some? {
            settled := settled + 1;
          }
        }
      }
      assert pending[|pending|..] == [];
    }

    method FindLine(i: nat, lines: seq<Line>, matches: Matcher) returns (line: Option<Line>)
      requires i in invoices
      ensures line == FirstMatch(invoices[i], lines, matches)
    {
      var v := invoices[i];
      assert lines[0..] == lines;
      for n := 0 to |lines|
        invariant FirstMatch(v, lines[n..], matches) == FirstMatch(v, lines, matches)
      {
        assert lines[n..][0] == lines[n] && lines[n..][1..] == lines[n + 1..];
        if matches(v.reference, v.amount, lines[n]) {
          return Some(lines[n]);
        }
      }
      assert lines[|lines|..] == [];
      return None;
    }

    // ---------------------------------------------------------------- refunds

    method RefundPayment(k: Key, basis: Basis) returns (done: Result<real>)
      requires Linked(View()) && k in payments
      modifies `payments, `ledgers
      ensures done.Ok? == Refund(old(View()), k, basis).Ok?
      ensures done.Ok? ==> View() == Refund(old(View()), k, basis).value && done.value == payments[k].refunded
      ensures done.Err? ==> View() == old(View()) && Refund(old(View()), k, basis) == Err(done.status, done.code)
    {
      hide Rolled, Cents;
      var p := payments[k];
      if p.status == Refunded {
        return Err(409, "already_refunded");
      }
      var total := RefundTotal(p, basis);
      if total.Err? {
        return total;
      }
      payments := payments[k := p.(refunded := total.value,
                                   status := if total.value >= p.amount then Refunded else PartlyRefunded)];
      InvoiceLinks(old(View()), p.invoice);
      if invoices[p.invoice].enrollment.Some? {
        RecomputeLedger(invoices[p.invoice].enrollment.value);
      }
      return total;
    }

    // ----------------------------------------------------------- installments

    method CreateDefaultPlan(e: nat, today: Date) returns (created: bool)
      requires e in enrollments
      modifies `installments, `nextId
      ensures created == DefaultPlan(old(View()), e, today).Ok?
      ensures View() == if created then DefaultPlan(old(View()), e, today).value else old(View())
    {
      hide AddMonths;
      var planned, due := TotalDue(e);
      if planned {
        return false;
      }
      var total := Price(View(), e);
      if total <= 0.0 {
        return true;
      }
      var rules := RulesOf(View(), e);
      var first := if enrollments[e].start.Some? then enrollments[e].start.value else today;
      var parts := Split(total, rules.0);
      ghost var rows := PlanRows(e, parts, first, rules.1);
      assert rows[0..] == rows;
      for i := 0 to |parts|
        invariant enrollments == old(enrollments) && courses == old(courses)
        invariant Insert(View(), rows[i..]) == Insert(old(View()), rows)
      {
        assert rows[i..][0] == rows[i] && rows[i..][1..] == rows[i + 1..];
        installments := installments[nextId := Installment(e, Some(AddMonths(first, i * rules.1)), parts[i],
                                                           Scheduled)];
        nextId := nextId + 1;
      }
      assert rows[|parts|..] == [];
      return true;
    }

    method Enrolled(e: nat, today: Date)
      requires e in enrollments
      modifies this
      ensures View() == OnEnrolled(old(View()), e, today)
    {
      hide Rolled;
      if enrollments[e].price.None? {
        enrollments := enrollments[e := enrollments[e].(price := Some(Price(View(), e)))];
      }
      assert View() == if old(enrollments[e].price.None?) then Fixed(old(View()), e) else old(View());
      var planned, due := TotalDue(e);
      if !planned {
        var created := CreateDefaultPlan(e, today);
      }
      RecomputeLedger(e);
    }

    method Add(e: nat, due: Option<Date>, amount: real) returns (id: Result<nat>)
      modifies `installments, `nextId, `ledgers
      ensures id.Ok? == AddInstallment(old(View()), e, due, amount).Ok?
      ensures id.Ok? ==> View() == AddInstallment(old(View()), e, due, amount).value && id.value == old(nextId)
      ensures id.Err? ==>
              View() == old(View()) && AddInstallment(old(View()), e, due, amount) == Err(id.status, id.code)
    {
      hide Rolled, Cents;
      if e !in enrollments {
        return Err(404, "enrollment_not_found");
      }
      if due.None? {
        return Err(400, "invalid_date");
      }
      var parsed := ToAmount(amount);
      if parsed.Err? {
        return Err(parsed.status, parsed.code);
      }
      id := Ok(nextId);
      installments, nextId := installments[nextId := Installment(e, due, parsed.value, Scheduled)], nextId + 1;
      RecomputeLedger(e);
    }

    method Update(t: nat, amount: Option<real>, due: Option<Option<Date>>) returns (done: Result<nat>)
      requires Linked(View())
      modifies `installments, `ledgers
      ensures done.Ok? == UpdateInstallment(old(View()), t, amount, due).Ok?
      ensures View() == if done.Ok? then UpdateInstallment(old(View()), t, amount, due).value else old(View())
      ensures done.Err? ==> UpdateInstallment(old(View()), t, amount, due) == Err(done.status, done.code)
    {
      hide Rolled, Cents;
      if t !in installments {
        return Err(404, "installment_not_found");
      }
      var p := Edited(installments[t], amount, due);
      if p.Err? {
        return Err(p.status, p.code);
      }
      installments := installments[t := p.value];
      RecomputeLedger(p.value.enrollment);
      return Ok(t);
    }

    method Waive(t: nat) returns (done: Result<nat>)
      requires Linked(View())
      modifies `installments, `ledgers
      ensures done.Ok? == WaiveInstallment(old(View()), t).Ok?
      ensures View() == if done.Ok? then WaiveInstallment(old(View()), t).value else old(View())
      ensures done.Err? ==> WaiveInstallment(old(View()), t) == Err(done.status, done.code)
    {
      hide Rolled;
      if t !in installments {
        return Err(404, "installment_not_found");
      }
      var p := installments[t];
      if !Editable(p) {
        return Err(409, "installment_settled");
      }
      installments := installments[t := p.(status := Waived)];
      RecomputeLedger(p.enrollment);
      return Ok(t);
    }

    method Delete(t: nat) returns (done: Result<nat>)
      requires Linked(View())
      modifies `installments, `ledgers
      ensures done.Ok? == DeleteInstallment(old(View()), t).Ok?
      ensures View() == if done.Ok? then DeleteInstallment(old(View()), t).value else old(View())
      ensures done.Err? ==> DeleteInstallment(old(View()), t) == Err(done.status, done.code)
    {
      hide Rolled;
      if t !in installments {
        return Err(404, "installment_not_found");
      }
      var p := installments[t];
      if !Editable(p) {
        return Err(409, "installment_settled");
      }
      if i :| i in invoices && invoices[i].installment == Some(t) {
        return Err(409, "installment_has_invoices");
      }
      installments := installments - {t};
      RecomputeLedger(p.enrollment);
      return Ok(t);
    }
  }

  lemma Sooner(before: Option<Date>, now: Option<Date>, p: Installment, e: nat)
    requires now == if p.enrollment == e && Awaited(p) && (before.None? || Before(p.due.value, before.value))
                    then p.due else before
    ensures p.enrollment == e && Awaited(p) ==> now.Some? && !Before(p.due.value, now.value)
    ensures before.Some? ==> now.Some? && forall d :: !Before(d, before.value) ==> !Before(d, now.value)
  {
  }
}
