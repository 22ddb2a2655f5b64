/** What moves an enrollment's balance: its plan adds up to the price, and every settlement
    and refund moves it by exactly the money that changed hands. */
module Balance {
  import opened Wrappers
  import opened Plans
  import opened Books
  import opened BooksProof

  // ---------------------------------------------------------- a new enrollment

  function Amounts(rows: seq<Installment>): seq<real> {
    seq(|rows|, i requires 0 <= i < |rows| => rows[i].amount)
  }

  lemma OneOwed(b: Books, row: Installment, e: nat)
    requires Linked(b) && row.enrollment == e && row.status == Scheduled
    ensures var b' := b.(installments := b.installments[b.nextId := row], nextId := b.nextId + 1);
            Sum(OwedParts(b', e)) == Sum(OwedParts(b, e)) + row.amount
  {
    var b' := b.(installments := b.installments[b.nextId := row], nextId := b.nextId + 1);
    assert OwedParts(b', e) == OwedParts(b, e)[b.nextId := row.amount];
    SumUpdate(OwedParts(b, e), b.nextId, row.amount);
    assert OwedParts(b, e) - {b.nextId} == OwedParts(b, e);
  }

  lemma {:induction false} InsertOwes(b: Books, rows: seq<Installment>, e: nat)
    requires Linked(b) && e in b.enrollments
    requires forall i :: 0 <= i < |rows| ==> rows[i].enrollment == e && rows[i].status == Scheduled
    ensures Sum(OwedParts(Insert(b, rows), e)) == Sum(OwedParts(b, e)) + SumSeq(Amounts(rows))
    decreases |rows|
  {
    if rows == [] {
      assert Amounts(rows) == [];
    } else {
      var b' := b.(installments := b.installments[b.nextId := rows[0]], nextId := b.nextId + 1);
      OneOwed(b, rows[0], e);
      assert Linked(b');
      hide OwedParts, Linked;
      InsertOwes(b', rows[1..], e);
      assert Amounts(rows)[1..] == Amounts(rows[1..]);
    }
  }

  /** The rows are what is inserted, under the ids from nextId on. */
  lemma {:induction false} InsertedRows(b: Books, rows: seq<Installment>)
    requires forall t :: t in b.installments ==> t < b.nextId
    ensures forall t :: t in Insert(b, rows).installments <==> t in b.installments || b.nextId <= t < b.nextId + |rows|
    ensures forall t :: t in b.installments ==> Insert(b, rows).installments[t] == b.installments[t]
    ensures forall i :: 0 <= i < |rows| ==>
              b.nextId + i in Insert(b, rows).installments && Insert(b, rows).installments[b.nextId + i] == rows[i]
    decreases |rows|
  {
    if rows != [] {
      var b' := b.(installments := b.installments[b.nextId := rows[0]], nextId := b.nextId + 1);
      InsertedRows(b', rows[1..]);
      forall i | 0 <= i < |rows|
        ensures b.nextId + i in Insert(b, rows).installments && Insert(b, rows).installments[b.nextId + i] == rows[i]
      {
        if i > 0 { assert b'.nextId + (i - 1) == b.nextId + i; }
      }
    }
  }

  lemma FirstInserted(b: Books, rows: seq<Installment>)
    requires rows != [] && forall t :: t in b.installments ==> t < b.nextId
    ensures b.nextId in Insert(b, rows).installments && Insert(b, rows).installments[b.nextId] == rows[0]
  {
    InsertedRows(b.(installments := b.installments[b.nextId := rows[0]], nextId := b.nextId + 1), rows[1..]);
  }

  lemma FirstMonth(first: Date)
    ensures AddMonths(first, 0) == first
  {
  }

  ghost predicate OnSchedule(d: Date, first: Date, every: nat) {
    exists i: nat :: d == AddMonths(first, i * every)
  }

  lemma AfterFirst(d: Date, first: Date, every: nat)
    requires every >= 1 && OnSchedule(d, first, every)
    ensures d == first || Before(first, d)
  {
  }

  /** Of dates every so many months from the first, the first is the earliest. */
  lemma EarliestIsFirst(dates: set<Date>, first: Date, every: nat)
    requires every >= 1 && first in dates
    requires forall d :: d in dates ==> OnSchedule(d, first, every)
    ensures Earliest(dates) == Some(first)
  {
    var r := Earliest(dates).value;
    AfterFirst(r, first, every);
    assert !Before(first, r);
  }

  /** The plan the course's rule lays out: it owes the whole price, its first part is due on
      the first day. */
  lemma PlanOwesPrice(b: Books, e: nat, today: Date)
    requires Linked(b) && e in b.enrollments && PlanOf(b, e) == {} && Price(b, e) > 0.0
    ensures var r := DefaultPlan(b, e, today);
            && r.Ok? && PlanOf(r.value, e) != {}
            && Sum(OwedParts(r.value, e)) == Price(b, e)
            && Earliest(OpenDates(r.value, e)) == Some(FirstDue(b, e, today))
  {
    var rules, first := RulesOf(b, e), FirstDue(b, e, today);
    var parts := Split(Price(b, e), rules.0);
    var rows := PlanRows(e, parts, first, rules.1);
    SplitAddsUp(Price(b, e), rules.0);
    hide Price, Split, AddMonths, RulesOf, FirstDue;
    assert Amounts(rows) == parts;
    InsertOwes(b, rows, e);
    assert OwedParts(b, e) == map[];
    var after := Insert(b, rows);
    FirstInserted(b, rows);
    assert b.nextId in PlanOf(after, e);
    hide Insert, OpenDates;
    PlanDates(b, e, rows, parts, first, rules.1);
    EarliestIsFirst(OpenDates(after, e), first, rules.1);
  }

  lemma PlanDates(b: Books, e: nat, rows: seq<Installment>, parts: seq<real>, first: Date, every: nat)
    requires Linked(b) && PlanOf(b, e) == {} && parts != [] && rows == PlanRows(e, parts, first, every)
    ensures first in OpenDates(Insert(b, rows), e)
    ensures forall d :: d in OpenDates(Insert(b, rows), e) ==> OnSchedule(d, first, every)
  {
    InsertedRows(b, rows);
    var after := Insert(b, rows);
    FirstMonth(first);
    hide AddMonths;
    FirstInserted(b, rows);
    assert rows[0].due == Some(AddMonths(first, 0 * every)) && 0 * every == 0;
    assert b.nextId in after.installments && Awaited(after.installments[b.nextId])
           && after.installments[b.nextId].due.value == first;
    forall d | d in OpenDates(after, e) ensures OnSchedule(d, first, every) {
      var t :| t in after.installments && after.installments[t].enrollment == e && Awaited(after.installments[t])
               && after.installments[t].due.value == d;
      assert t !in b.installments by { assert t !in PlanOf(b, e); }
      var i := t - b.nextId;
      assert after.installments[b.nextId + i] == rows[i];
      assert d == AddMonths(first, i * every);
    }
  }

  /** A new enrollment freezes its price and owes exactly that. */
  lemma NewEnrollmentOwesItsPrice(b: Books, e: nat, today: Date)
    requires Linked(b) && e in b.enrollments && PlanOf(b, e) == {} && CountedPayments(b, e) == map[]
    ensures var r := OnEnrolled(b, e, today);
            && e in r.ledgers && e in r.enrollments && r.enrollments[e].price == Some(Price(b, e))
            && r.ledgers[e] == Ledger(Price(b, e), 0.0, Price(b, e),
                                      if Price(b, e) > 0.0 then Some(FirstDue(b, e, today)) else None)
  {
    var fixed := if b.enrollments[e].price.None? then Fixed(b, e) else b;
    FrozenSame(b, e, today);
    FixedTouchesOne(b, e);
    hide Price, FirstDue, Earliest, OpenDates, OwedParts, CountedPayments, Linked, Fixed, PlanOf;
    if Price(b, e) > 0.0 {
      PlanOwesPrice(fixed, e, today);
      PlanIs(fixed, e, today);
      hide DefaultPlan;
      SameMoney(fixed, DefaultPlan(fixed, e, today).value, e);
    }
  }

  lemma FrozenSame(b: Books, e: nat, today: Date)
    requires e in b.enrollments
    ensures var f := if b.enrollments[e].price.None? then Fixed(b, e) else b;
            && e in f.enrollments && f.enrollments[e].price == Some(Price(b, e)) && Price(f, e) == Price(b, e)
            && FirstDue(f, e, today) == FirstDue(b, e, today)
            && PlanOf(f, e) == PlanOf(b, e) && CountedPayments(f, e) == CountedPayments(b, e)
  {
  }

  lemma SameMoney(b: Books, b': Books, e: nat)
    requires b'.payments == b.payments && b'.invoices == b.invoices
    ensures CountedPayments(b', e) == CountedPayments(b, e) && AllPayments(b', e) == AllPayments(b, e)
  {
  }

  // -------------------------------------------------------- money changes hands

  /** A waived part whose invoice is paid after all is owed again. */
  function Revived(b: Books, i: nat, received: real): real
    requires i in b.invoices
  {
    var t := b.invoices[i].installment;
    if !Short(b.invoices[i], received) && t.Some? && t.value in b.installments
        && b.installments[t.value].status == Waived
    then b.installments[t.value].amount else 0.0
  }

  /** A new transaction lowers the balance by exactly what was received, short or not. */
  lemma SettlementLowersBalance(b: Books, i: nat, r: Report, e: nat)
    requires Linked(b) && i in b.invoices && b.invoices[i].enrollment == Some(e) && e in b.enrollments
    requires r.paid && KeyOf(b.invoices[i], r) !in b.payments
    ensures var received := ReceivedOf(b.invoices[i], r);
            var l := Settle(b, i, r).ledgers;
            && e in l
            && l[e].paid == Rolled(b, e).paid + received
            && l[e].balance == Rolled(b, e).balance - received + Revived(b, i, received)
  {
    var k, received := KeyOf(b.invoices[i], r), ReceivedOf(b.invoices[i], r);
    var rows := FreshRows(b, i, k, received);
    FreshIsRebooked(b, i, k, received);
    RowsAdded(b, i, k, received, e);
    MarkedOwes(b, i, received, e, rows);
    hide Fresh, FreshRows, KeyOf, ReceivedOf, CountedPayments, OwedParts, PlanOf, OpenDates, Earliest, Revived, Linked,
        Price;
    SamePrice(b, rows, e);
  }

  lemma SamePrice(b: Books, b': Books, e: nat)
    requires e in b.enrollments && b'.enrollments == b.enrollments && b'.courses == b.courses
    ensures Price(b', e) == Price(b, e)
  {
  }

  /** The source rows once a new transaction is in. */
  lemma RowsAdded(b: Books, i: nat, k: Key, received: real, e: nat)
    requires Linked(b) && i in b.invoices && b.invoices[i].enrollment == Some(e) && k !in b.payments
    ensures var rows := FreshRows(b, i, k, received);
            && rows.enrollments == b.enrollments && rows.courses == b.courses
            && Sum(CountedPayments(rows, e)) == Sum(CountedPayments(b, e)) + received
            && PlanOf(rows, e) == PlanOf(b, e)
            && rows.installments == (var t := b.invoices[i].installment;
                                     if Short(b.invoices[i], received) || t.None? || t.value !in b.installments
                                     then b.installments
                                     else b.installments[t.value := b.installments[t.value].(status := Settled)])
  {
    InvoiceLinks(b, i);
    hide Linked, CountedPayments;
    var rows := FreshRows(b, i, k, received);
    PaymentCounted(b, rows, i, k, received, e);
    var t := b.invoices[i].installment;
    if !Short(b.invoices[i], received) && t.Some? {
      StatusOnly(b, rows, t.value, e);
    }
  }

  lemma PaymentCounted(b: Books, rows: Books, i: nat, k: Key, received: real, e: nat)
    requires i in b.invoices && b.invoices[i].enrollment == Some(e) && k !in b.payments
    requires rows.payments == b.payments[k := Payment(i, received, Received, 0.0)]
    requires rows.invoices == b.invoices || rows.invoices == b.invoices[i := b.invoices[i].(status := Paid)]
    ensures Sum(CountedPayments(rows, e)) == Sum(CountedPayments(b, e)) + received
  {
    assert CountedPayments(rows, e) == CountedPayments(b, e)[k := received];
    SumUpdate(CountedPayments(b, e), k, received);
    assert CountedPayments(b, e) - {k} == CountedPayments(b, e);
  }

  lemma StatusOnly(b: Books, rows: Books, t: nat, e: nat)
    requires t in b.installments && rows.installments == b.installments[t := b.installments[t].(status := Settled)]
    ensures PlanOf(rows, e) == PlanOf(b, e)
  {
  }

  lemma MarkedOwes(b: Books, i: nat, received: real, e: nat, rows: Books)
    requires Linked(b) && i in b.invoices && b.invoices[i].enrollment == Some(e) && e in b.enrollments
    requires var t := b.invoices[i].installment;
             rows.installments == if Short(b.invoices[i], received) || t.None? || t.value !in b.installments
                                  then b.installments
                                  else b.installments[t.value := b.installments[t.value].(status := Settled)]
    ensures Sum(OwedParts(rows, e)) == Sum(OwedParts(b, e)) + Revived(b, i, received)
    ensures PlanOf(b, e) == {} ==> Revived(b, i, received) == 0.0
  {
    InvoiceLinks(b, i);
    var t := b.invoices[i].installment;
    if Short(b.invoices[i], received) || t.None? {
      assert OwedParts(rows, e) == OwedParts(b, e);
    } else if b.installments[t.value].status == Waived {
      assert t.value in PlanOf(b, e);
      assert OwedParts(rows, e) == OwedParts(b, e)[t.value := b.installments[t.value].amount];
      SumUpdate(OwedParts(b, e), t.value, b.installments[t.value].amount);
      assert OwedParts(b, e) - {t.value} == OwedParts(b, e);
    } else {
      assert OwedParts(rows, e) == OwedParts(b, e);
    }
  }

  /** A refund raises the balance by exactly what goes back now. */
  lemma RefundRaisesBalance(b: Books, k: Key, basis: Basis, e: nat)
    requires Linked(b) && AllConsistent(b) && k in b.payments && Refund(b, k, basis).Ok?
    requires b.invoices[b.payments[k].invoice].enrollment == Some(e) && e in b.enrollments
    ensures var back := RefundTotal(b.payments[k], basis).value - b.payments[k].refunded;
            var l := Refund(b, k, basis).value.ledgers;
            && back >= 0.0 && e in l
            && l[e].paid == Rolled(b, e).paid - back
            && l[e].balance == Rolled(b, e).balance + back
  {
    var p := b.payments[k];
    var total := RefundTotal(p, basis).value;
    var q := WithRefund(p, total);
    RefundConsistent(p, basis);
    var rows := b.(payments := b.payments[k := q]);
    hide RefundTotal, WithRefund, Consistent, Linked, Earliest, CountedPayments, OwedParts, PlanOf, OpenDates, Price;
    RefundCounted(b, rows, k, q, e);
    SameMoneyOwed(b, rows, e);
    SamePrice(b, rows, e);
  }

  lemma SameMoneyOwed(b: Books, b': Books, e: nat)
    requires b'.installments == b.installments
    ensures PlanOf(b', e) == PlanOf(b, e) && OwedParts(b', e) == OwedParts(b, e)
  {
  }

  lemma RefundCounted(b: Books, rows: Books, k: Key, q: Payment, e: nat)
    requires AllConsistent(b) && Consistent(q) && k in b.payments && Paying(b, k, e)
             && q.invoice == b.payments[k].invoice
    requires rows == b.(payments := b.payments[k := q])
    ensures Sum(CountedPayments(rows, e)) == Sum(CountedPayments(b, e)) + Net(q) - Net(b.payments[k])
  {
    hide Consistent, CountedPayments;
    assert AllConsistent(rows);
    ExclusionIsNeutral(b, e);
    ExclusionIsNeutral(rows, e);
    assert AllPayments(rows, e) == AllPayments(b, e)[k := Net(q)];
    SumUpdate(AllPayments(b, e), k, Net(q));
    SumRemove(AllPayments(b, e), k);
  }
}
