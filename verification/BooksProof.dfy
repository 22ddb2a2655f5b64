/** What every operation on the books keeps: the stored ledger rows equal what would be
    recomputed, refunds and their status agree, and foreign keys hold. */
module BooksProof {
  import opened Wrappers
  import opened Plans
  import opened Books

  // --------------------------------------------------------------------- sums

  lemma SumTakes<K>(m: map<K, real>) returns (k: K)
    requires m != map[]
    ensures k in m && Sum(m) == m[k] + Sum(m - {k})
  {
    k :| k in m && Sum(m) == m[k] + Sum(m - {k});
  }

  /** The order in which a sum is taken does not matter. */
  lemma {:induction false} SumRemove<K>(m: map<K, real>, k: K)
    requires k in m
    ensures Sum(m) == m[k] + Sum(m - {k})
    decreases |m|
  {
    var p := SumTakes(m);
    if p != k {
      assert m - {p} - {k} == m - {k} - {p};
      Smaller(m, p);
      Smaller(m, k);
      SumRemove(m - {p}, k);
      SumRemove(m - {k}, p);
    }
  }

  lemma Smaller<K>(m: map<K, real>, k: K)
    requires k in m
    ensures |m - {k}| < |m|
  {
  }

  lemma SumUpdate<K>(m: map<K, real>, k: K, v: real)
    ensures Sum(m[k := v]) == v + Sum(m - {k})
  {
    SumRemove(m[k := v], k);
    assert m[k := v] - {k} == m - {k};
  }

  // ------------------------------------------------------------ consistent rows

  /** Full refunds, and only they, are marked so; nothing more than was paid goes back. */
  predicate Consistent(p: Payment) {
    && p.refunded >= 0.0
    && (p.refunded > 0.0 ==> p.refunded <= p.amount)
    && (p.status == Refunded ==> p.refunded == p.amount)
    && (p.amount > 0.0 && p.refunded == p.amount ==> p.status == Refunded)
    && (p.status == Received ==> p.refunded == 0.0)
  }

  ghost predicate AllConsistent(b: Books) {
    forall k :: k in b.payments ==> Consistent(b.payments[k])
  }

  /** Quantizing gives a whole number of cents, none nearer; a whole number is left alone. */
  lemma CentsIsNearest(x: real, n: int)
    ensures -0.005 <= Cents(x) - x <= 0.005
    ensures (Cents(x) * 100.0).Floor as real == Cents(x) * 100.0
    ensures x == n as real / 100.0 ==> Cents(x) == x
    ensures x - n as real / 100.0 == 0.005 ==> Cents(x) == (if n % 2 == 0 then n else n + 1) as real / 100.0
  {
    var m := (x * 100.0).Floor;
    assert x * 100.0 - 1.0 < m as real <= x * 100.0;
    assert Cents(x) * 100.0 == m as real || Cents(x) * 100.0 == (m + 1) as real;
  }

  /** The pilot rule: under 20 percent attended the buyer keeps half, otherwise everything. */
  lemma PilotRule(p: Payment, pct: int)
    requires Consistent(p) && p.amount > 0.0
    ensures pct >= 20 ==> RefundTotal(p, Attended(pct)).Err?
    ensures pct < 20 ==> (RefundTotal(p, Attended(pct)).Ok? <==> p.refunded <= p.amount / 2.0)
    ensures pct < 20 && RefundTotal(p, Attended(pct)).Ok? ==>
              var q := WithRefund(p, RefundTotal(p, Attended(pct)).value);
              Net(q) == p.amount / 2.0 && q.status == PartlyRefunded
  {
  }

  /** A refund keeps its row consistent, and never takes back money already returned. */
  lemma RefundConsistent(p: Payment, basis: Basis)
    requires Consistent(p) && p.status != Refunded && RefundTotal(p, basis).Ok?
    ensures Consistent(WithRefund(p, RefundTotal(p, basis).value))
    ensures RefundTotal(p, basis).value >= p.refunded
    ensures p.amount > 0.0 ==>
              (WithRefund(p, RefundTotal(p, basis).value).status == Refunded
               <==> RefundTotal(p, basis).value == p.amount)
  {
  }

  /** Sending the same refund again, before it is complete, changes nothing more: the figure
      is the total returned, not an increment. */
  lemma RefundRepeats(p: Payment, basis: Basis)
    requires Consistent(p) && RefundTotal(p, basis).Ok?
    ensures var once := WithRefund(p, RefundTotal(p, basis).value);
            RefundTotal(once, basis).Ok? && WithRefund(once, RefundTotal(once, basis).value) == once
  {
  }

  /** A payment row, the other rows and the tables beside them once a refund has landed. */
  ghost predicate GaveBack(b: Books, after: Books, k: Key, total: real)
    requires k in b.payments
  {
    && after.payments.Keys == b.payments.Keys
    && (forall j :: j in b.payments && j != k ==> after.payments[j] == b.payments[j])
    && after.payments[k].refunded == total
    && after.payments[k].amount == b.payments[k].amount && after.payments[k].invoice == b.payments[k].invoice
    && (after.payments[k].status == Refunded <==> total == b.payments[k].amount)
    && (after.payments[k].status == PartlyRefunded <==> total != b.payments[k].amount)
    && after.invoices == b.invoices && after.installments == b.installments && after.enrollments == b.enrollments
  }

  /** A figure in whole cents is exactly what has gone back afterwards; it is refused, and the
      books stay, when it is not positive, when it is more than was paid and when it is less
      than has gone back before. */
  lemma RefundGivesBack(b: Books, k: Key, x: real, n: int)
    requires Linked(b) && k in b.payments && Consistent(b.payments[k]) && x == n as real / 100.0
    ensures var p, r := b.payments[k], Refund(b, k, Amount(x));
            && (r.Ok? <==> p.status != Refunded && 0.0 < x <= p.amount && p.refunded <= x)
            && (r.Ok? ==> GaveBack(b, r.value, k, x))
            && (p.status == Refunded ==> r == Err(409, "already_refunded"))
            && (p.status != Refunded && x <= 0.0 ==> r == Err(400, "amount_must_be_positive"))
            && (p.status != Refunded && x > 0.0 && x > p.amount ==> r == Err(400, "refund_exceeds_payment"))
            && (p.status != Refunded && 0.0 < x < p.refunded ==> r == Err(400, "refund_below_already_refunded"))
  {
    CentsIsNearest(x, n);
    hide Rolled, Cents;
  }

  /** Under 20 percent attended half goes back, unless more has; otherwise nothing does, and the
      refusal says whether some has gone back before. */
  lemma AttendedGivesBack(b: Books, k: Key, pct: int)
    requires Linked(b) && k in b.payments && Consistent(b.payments[k])
    requires b.payments[k].amount > 0.0 && b.payments[k].status != Refunded
    ensures var p, r := b.payments[k], Refund(b, k, Attended(pct));
            && (r.Ok? <==> pct < 20 && 2.0 * p.refunded <= p.amount)
            && (r.Err? ==> r == if pct >= 20 && p.refunded == 0.0 then Err(409, "nothing_to_refund")
                                else Err(400, "refund_below_already_refunded"))
            && (r.Ok? ==> GaveBack(b, r.value, k, r.value.payments[k].refunded)
                          && 2.0 * r.value.payments[k].refunded == p.amount)
            && Refund(b, k, NoBasis) == Err(400, "refund_basis_required")
  {
    hide Rolled;
  }

  function AllPayments(b: Books, e: nat): map<Key, real> {
    map k | k in b.payments && Paying(b, k, e) :: Net(b.payments[k])
  }

  lemma {:induction false} SumIgnoresZeros<K>(all: map<K, real>, some: map<K, real>)
    requires forall k :: k in some ==> k in all && some[k] == all[k]
    requires forall k :: k in all && k !in some ==> all[k] == 0.0
    ensures Sum(all) == Sum(some)
    decreases |all|
  {
    if all == map[] {
      assert some == map[];
    } else {
      var k :| k in all;
      SumRemove(all, k);
      Smaller(all, k);
      if k in some {
        SumRemove(some, k);
        SumIgnoresZeros(all - {k}, some - {k});
      } else {
        SumIgnoresZeros(all - {k}, some);
      }
    }
  }

  /** Leaving fully refunded payments out of the roll-up does not change it. */
  lemma ExclusionIsNeutral(b: Books, e: nat)
    requires AllConsistent(b)
    ensures Sum(CountedPayments(b, e)) == Sum(AllPayments(b, e))
  {
    SumIgnoresZeros(AllPayments(b, e), CountedPayments(b, e));
  }

  // ------------------------------------------------------------ ledger in step

  /** The price is frozen, or a plan replaces it: what is owed no longer follows the course. */
  predicate Firm(b: Books, e: nat)
    requires e in b.enrollments
  {
    b.enrollments[e].price.Some? || PlanOf(b, e) != {}
  }

  ghost predicate RowInStep(b: Books, e: nat)
    requires e in b.enrollments && e in b.ledgers
  {
    Firm(b, e) ==> b.ledgers[e] == Rolled(b, e)
  }

  ghost predicate InStep(b: Books)
    requires Linked(b)
  {
    forall e :: e in b.ledgers ==> RowInStep(b, e)
  }

  ghost predicate Sound(b: Books) {
    Linked(b) && AllConsistent(b) && InStep(b)
  }

  /** An enrollment whose source rows are the same in both. */
  ghost predicate SameSources(b: Books, b': Books, e: nat) {
    && e in b.enrollments && e in b'.enrollments && b.enrollments[e] == b'.enrollments[e]
    && CountedPayments(b, e) == CountedPayments(b', e)
    && OwedParts(b, e) == OwedParts(b', e) && OpenDates(b, e) == OpenDates(b', e) && PlanOf(b, e) == PlanOf(b', e)
    && (PlanOf(b, e) == {} ==> Price(b, e) == Price(b', e))
  }

  lemma SameRow(b: Books, b': Books, e: nat)
    requires SameSources(b, b', e)
    ensures Rolled(b, e) == Rolled(b', e) && Firm(b, e) == Firm(b', e)
  {
  }

  /** Changing the source rows of one enrollment and rolling it up again. */
  ghost predicate OnlyTouches(b: Books, b': Books, e: Option<nat>) {
    && b'.ledgers == b.ledgers
    && forall x :: x in b.ledgers && e != Some(x) ==> SameSources(b, b', x)
  }

  lemma RecomputedSources(b: Books, e: nat, x: nat)
    requires e in b.enrollments && x in b.enrollments
    ensures Rolled(Recomputed(b, e), x) == Rolled(b, x) && Firm(Recomputed(b, e), x) == Firm(b, x)
  {
    var b' := Recomputed(b, e);
    assert CountedPayments(b, x) == CountedPayments(b', x);
    assert OwedParts(b, x) == OwedParts(b', x) && OpenDates(b, x) == OpenDates(b', x) && PlanOf(b, x) == PlanOf(b', x);
    SameRow(b, b', x);
  }

  lemma RebookedInStep(b: Books, b': Books, e: Option<nat>)
    requires Sound(b) && Linked(b') && OnlyTouches(b, b', e)
    requires e.Some? ==> e.value in b'.enrollments
    ensures Linked(Rebooked(b', e)) && InStep(Rebooked(b', e))
  {
    hide Rolled, SameSources, Firm;
    var r := Rebooked(b', e);
    forall x | x in r.ledgers ensures RowInStep(r, x) {
      if e.Some? {
        RecomputedSources(b', e.value, x);
      }
      if e != Some(x) {
        SameRow(b, b', x);
        assert RowInStep(b, x);
      }
    }
  }

  // --------------------------------------------------------------- operations

  lemma MarkInvoiceTouchesNone(b: Books, i: nat)
    requires Linked(b) && i in b.invoices
    ensures Linked(MarkInvoice(b, i)) && OnlyTouches(b, MarkInvoice(b, i), None)
  {
    var b' := MarkInvoice(b, i);
    forall x | x in b.ledgers ensures SameSources(b, b', x) {
      assert CountedPayments(b, x) == CountedPayments(b', x);
      assert OwedParts(b, x) == OwedParts(b', x) && OpenDates(b, x) == OpenDates(b', x)
             && PlanOf(b, x) == PlanOf(b', x);
    }
  }

  lemma AddPaymentTouchesOne(b: Books, k: Key, i: nat, received: real)
    requires Linked(b) && i in b.invoices && k !in b.payments
    ensures Linked(AddPayment(b, k, i, received))
            && OnlyTouches(b, AddPayment(b, k, i, received), b.invoices[i].enrollment)
  {
    var b', e := AddPayment(b, k, i, received), b.invoices[i].enrollment;
    forall x | x in b.ledgers && e != Some(x) ensures SameSources(b, b', x) {
      assert CountedPayments(b, x) == CountedPayments(b', x);
      assert OwedParts(b, x) == OwedParts(b', x) && OpenDates(b, x) == OpenDates(b', x)
             && PlanOf(b, x) == PlanOf(b', x);
    }
  }

  lemma RefundTouchesOne(b: Books, k: Key, total: real)
    requires Linked(b) && k in b.payments
    ensures var b', e := b.(payments := b.payments[k := WithRefund(b.payments[k], total)]),
            b.invoices[b.payments[k].invoice].enrollment;
            Linked(b') && OnlyTouches(b, b', e)
  {
    var b', e := b.(payments := b.payments[k := WithRefund(b.payments[k], total)]),
        b.invoices[b.payments[k].invoice].enrollment;
    forall x | x in b.ledgers && e != Some(x) ensures SameSources(b, b', x) {
      assert CountedPayments(b, x) == CountedPayments(b', x);
      assert OwedParts(b, x) == OwedParts(b', x) && OpenDates(b, x) == OpenDates(b', x)
             && PlanOf(b, x) == PlanOf(b', x);
    }
  }

  /** Any change to installment rows that keeps those of other enrollments. */
  lemma PlanTouchesOne(b: Books, rows: map<nat, Installment>, next: nat, e: nat)
    requires Linked(b) && e in b.enrollments
    requires forall t :: t in b.installments && t !in rows ==> b.installments[t].enrollment == e
    requires forall t :: t in rows && t !in b.installments ==> rows[t].enrollment == e
    requires forall t :: t in rows && t in b.installments ==>
               rows[t] == b.installments[t] || (rows[t].enrollment == e && b.installments[t].enrollment == e)
    ensures OnlyTouches(b, b.(installments := rows, nextId := next), Some(e))
  {
    var b' := b.(installments := rows, nextId := next);
    forall x | x in b.ledgers && x != e ensures SameSources(b, b', x) {
      assert PlanOf(b, x) == PlanOf(b', x);
      assert CountedPayments(b, x) == CountedPayments(b', x);
      assert OwedParts(b, x) == OwedParts(b', x);
      assert OpenDates(b, x) == OpenDates(b', x);
    }
  }

  lemma TouchesBoth(b: Books, b1: Books, b2: Books, e: Option<nat>)
    requires OnlyTouches(b, b1, e) && (OnlyTouches(b1, b2, e) || OnlyTouches(b1, b2, None))
    ensures OnlyTouches(b, b2, e)
  {
    hide SameSources;
    forall x | x in b.ledgers && e != Some(x) ensures SameSources(b, b2, x) {
      SameTwice(b, b1, b2, x);
    }
  }

  lemma SameTwice(b: Books, b1: Books, b2: Books, e: nat)
    ensures SameSources(b, b1, e) && SameSources(b1, b2, e) ==> SameSources(b, b2, e)
  {
  }

  lemma MarkInstallmentTouchesOne(b: Books, t: Option<nat>, e: Option<nat>)
    requires Linked(b)
    requires t.Some? ==> t.value in b.installments && e == Some(b.installments[t.value].enrollment)
    ensures Linked(MarkInstallment(b, t)) && OnlyTouches(b, MarkInstallment(b, t), e)
  {
    hide SameSources;
    if t.Some? {
      PlanTouchesOne(b, MarkInstallment(b, t).installments, b.nextId, e.value);
    } else {
      Untouched(b, e);
    }
  }

  lemma Untouched(b: Books, e: Option<nat>)
    requires Linked(b)
    ensures OnlyTouches(b, b, e)
  {
  }

  /** What a fresh transaction does to the source rows, before anything is rolled up. */
  function FreshRows(b: Books, i: nat, k: Key, received: real): Books
    requires i in b.invoices
  {
    var paid := AddPayment(b, k, i, received);
    if Short(b.invoices[i], received) then paid else MarkInstallment(MarkInvoice(paid, i), b.invoices[i].installment)
  }

  lemma FreshIsRebooked(b: Books, i: nat, k: Key, received: real)
    requires Linked(b) && i in b.invoices
    ensures b.invoices[i].enrollment.Some? ==>
            b.invoices[i].enrollment.value in FreshRows(b, i, k, received).enrollments
    ensures Fresh(b, i, k, received) == Rebooked(FreshRows(b, i, k, received), b.invoices[i].enrollment)
  {
    hide Rolled;
  }

  /** A settlement, a short payment or a replay keeps the books sound. */
  lemma SettleKeeps(b: Books, i: nat, r: Report)
    requires Sound(b) && i in b.invoices
    ensures Sound(Settle(b, i, r))
  {
    hide OnlyTouches, Rolled, InStep, Linked, InvoiceLinked;
    var v := b.invoices[i];
    var k := KeyOf(v, r);
    if r.paid && k in b.payments {
      MarkInvoiceTouchesNone(b, i);
      RebookedInStep(b, MarkInvoice(b, i), None);
    } else if r.paid {
      var received := ReceivedOf(v, r);
      var paid := AddPayment(b, k, i, received);
      AddPaymentTouchesOne(b, k, i, received);
      InvoiceLinks(b, i);
      if Short(v, received) {
        RebookedInStep(b, paid, v.enrollment);
      } else {
        var marked := MarkInvoice(paid, i);
        MarkInvoiceTouchesNone(paid, i);
        MarkInstallmentTouchesOne(marked, v.installment, v.enrollment);
        var done := MarkInstallment(marked, v.installment);
        TouchesBoth(b, paid, marked, v.enrollment);
        TouchesBoth(b, marked, done, v.enrollment);
        RebookedInStep(b, done, v.enrollment);
      }
    }
  }

  lemma InvoiceLinks(b: Books, i: nat)
    requires Linked(b) && i in b.invoices
    ensures InvoiceLinked(b, b.invoices[i])
    ensures b.invoices[i].enrollment.Some? ==> b.invoices[i].enrollment.value in b.enrollments
    ensures b.invoices[i].installment.Some? ==>
              && b.invoices[i].installment.value in b.installments
              && b.invoices[i].enrollment == Some(b.installments[b.invoices[i].installment.value].enrollment)
  {
  }

  lemma RefundKeeps(b: Books, k: Key, basis: Basis)
    requires Sound(b) && k in b.payments && Refund(b, k, basis).Ok?
    ensures Sound(Refund(b, k, basis).value)
  {
    hide OnlyTouches, Rolled, InStep;
    var p := b.payments[k];
    var total := RefundTotal(p, basis).value;
    var b', e := b.(payments := b.payments[k := WithRefund(p, total)]), b.invoices[p.invoice].enrollment;
    assert Consistent(p);
    RefundConsistent(p, basis);
    RefundTouchesOne(b, k, total);
    InvoiceLinks(b, p.invoice);
    RebookedInStep(b, b', e);
    hide Consistent, RefundTotal, WithRefund;
    assert AllConsistent(Rebooked(b', e));
  }

  /** One row changed, added or removed, and the enrollment rolled up again. */
  lemma RowKeeps(b: Books, rows: map<nat, Installment>, next: nat, e: nat)
    requires Sound(b) && e in b.enrollments
    requires Linked(b.(installments := rows, nextId := next))
    requires OnlyTouches(b, b.(installments := rows, nextId := next), Some(e))
    ensures Sound(Recomputed(b.(installments := rows, nextId := next), e))
  {
    hide OnlyTouches, Rolled, InStep;
    RebookedInStep(b, b.(installments := rows, nextId := next), Some(e));
  }

  lemma AddKeeps(b: Books, e: nat, due: Option<Date>, amount: real)
    requires Sound(b) && AddInstallment(b, e, due, amount).Ok?
    ensures Sound(AddInstallment(b, e, due, amount).value)
  {
    hide OnlyTouches, Rolled, InStep, ToAmount;
    var rows := b.installments[b.nextId := Installment(e, due, ToAmount(amount).value, Scheduled)];
    PlanTouchesOne(b, rows, b.nextId + 1, e);
    RowKeeps(b, rows, b.nextId + 1, e);
  }

  lemma ReplaceKeeps(b: Books, t: nat, p: Result<Installment>)
    requires Sound(b) && t in b.installments && p.Ok? && p.value.enrollment == b.installments[t].enrollment
    ensures Sound(ReplaceInstallment(b, t, p).value)
  {
    hide OnlyTouches, Rolled, InStep;
    var rows := b.installments[t := p.value];
    PlanTouchesOne(b, rows, b.nextId, p.value.enrollment);
    RowKeeps(b, rows, b.nextId, p.value.enrollment);
  }

  lemma DeleteKeeps(b: Books, t: nat)
    requires Sound(b) && DeleteInstallment(b, t).Ok?
    ensures Sound(DeleteInstallment(b, t).value)
  {
    hide OnlyTouches, Rolled, InStep;
    var rows := b.installments - {t};
    PlanTouchesOne(b, rows, b.nextId, b.installments[t].enrollment);
    RowKeeps(b, rows, b.nextId, b.installments[t].enrollment);
  }

  lemma {:induction false} InsertTouchesOne(b: Books, rows: seq<Installment>, e: nat)
    requires Linked(b) && e in b.enrollments && forall i :: 0 <= i < |rows| ==> rows[i].enrollment == e
    ensures Linked(Insert(b, rows)) && OnlyTouches(b, Insert(b, rows), Some(e))
    decreases |rows|
  {
    hide OnlyTouches;
    if rows == [] {
      Untouched(b, Some(e));
    } else {
      var b' := b.(installments := b.installments[b.nextId := rows[0]], nextId := b.nextId + 1);
      PlanTouchesOne(b, b'.installments, b'.nextId, e);
      InsertTouchesOne(b', rows[1..], e);
      TouchesBoth(b, b', Insert(b, rows), Some(e));
    }
  }

  lemma DefaultPlanTouchesOne(b: Books, e: nat, today: Date)
    requires Linked(b) && e in b.enrollments && DefaultPlan(b, e, today).Ok?
    ensures Linked(DefaultPlan(b, e, today).value) && OnlyTouches(b, DefaultPlan(b, e, today).value, Some(e))
  {
    hide OnlyTouches, Split, AddMonths;
    if Price(b, e) <= 0.0 {
      Untouched(b, Some(e));
    } else {
      var rules := RulesOf(b, e);
      InsertTouchesOne(b, PlanRows(e, Split(Price(b, e), rules.0), FirstDue(b, e, today), rules.1), e);
    }
  }

  lemma FixedTouchesOne(b: Books, e: nat)
    requires Linked(b) && e in b.enrollments
    ensures Linked(Fixed(b, e)) && OnlyTouches(b, Fixed(b, e), Some(e))
  {
    var b' := Fixed(b, e);
    forall x | x in b.ledgers && x != e ensures SameSources(b, b', x) {
      assert CountedPayments(b, x) == CountedPayments(b', x);
      assert OwedParts(b, x) == OwedParts(b', x) && OpenDates(b, x) == OpenDates(b', x)
             && PlanOf(b, x) == PlanOf(b', x);
    }
  }

  lemma EnrolledKeeps(b: Books, e: nat, today: Date)
    requires Sound(b) && e in b.enrollments
    ensures Sound(OnEnrolled(b, e, today))
  {
    hide OnlyTouches, Rolled, InStep, DefaultPlan, Fixed, Linked;
    var fixed := if b.enrollments[e].price.None? then Fixed(b, e) else b;
    FixedTouchesOne(b, e);
    FixedIs(b, e);
    Untouched(b, Some(e));
    var plan := DefaultPlan(fixed, e, today);
    if plan.Ok? {
      PlanIs(fixed, e, today);
      DefaultPlanTouchesOne(fixed, e, today);
      TouchesBoth(b, fixed, plan.value, Some(e));
      RebookedInStep(b, plan.value, Some(e));
    } else {
      RebookedInStep(b, fixed, Some(e));
    }
  }

  lemma FixedIs(b: Books, e: nat)
    requires e in b.enrollments
    ensures Fixed(b, e) == b.(enrollments := Fixed(b, e).enrollments) && e in Fixed(b, e).enrollments
  {
  }

  lemma PlanIs(b: Books, e: nat, today: Date)
    requires e in b.enrollments && DefaultPlan(b, e, today).Ok?
    ensures var r := DefaultPlan(b, e, today).value; r == b.(installments := r.installments, nextId := r.nextId)
  {
  }

  lemma RaiseKeeps(b: Books, i: nat, provider: string, reference: string, e: Option<nat>, t: Option<nat>,
                   given: Option<real>)
    requires Sound(b) && i !in b.invoices && RaiseInvoice(b, i, provider, reference, e, t, given).Ok?
    ensures Sound(RaiseInvoice(b, i, provider, reference, e, t, given).value)
  {
    hide Rolled, OnlyTouches, InStep, AmountOwed;
    var r := RaiseInvoice(b, i, provider, reference, e, t, given).value;
    var v := r.invoices[i];
    var booked := b.(ledgers := r.ledgers);
    Untouched(b, v.enrollment);
    Untouched(b, None);
    RebookedInStep(b, b, v.enrollment);
    RebookedInStep(b, b, None);
    assert AllConsistent(booked) && Linked(booked) && InStep(booked);
    RaisedTouchesNone(booked, i, v);
    RebookedInStep(booked, r, None);
  }

  /** What an invoice asks for: an installment's amount, a given part of the outstanding
      balance, or all of it to the nearest cent. */
  lemma AsksNoMoreThanOwed(b: Books, e: Option<nat>, t: Option<nat>, given: Option<real>)
    requires (e.Some? ==> e.value in b.enrollments) && (t.Some? ==> t.value in b.installments)
    requires AmountOwed(b, e, t, given).Ok?
    ensures t.Some? ==> AmountOwed(b, e, t, given).value == Cents(b.installments[t.value].amount)
                        && b.installments[t.value].status != Settled && b.installments[t.value].status != Waived
    ensures t.None? && e.Some? ==> Rolled(b, e.value).balance > 0.0
                                   && AmountOwed(b, e, t, given).value <= Rolled(b, e.value).balance + 0.005
    ensures t.None? && e.Some? && given.Some? ==> AmountOwed(b, e, t, given).value <= Rolled(b, e.value).balance
    ensures t.None? && e.Some? && given.None? ==> AmountOwed(b, e, t, given).value == Cents(Rolled(b, e.value).balance)
  {
    if e.Some? {
      hide Rolled;
      CentsIsNearest(Rolled(b, e.value).balance, 0);
      hide Cents;
    }
  }

  lemma RaisedTouchesNone(b: Books, i: nat, v: Invoice)
    requires Linked(b) && i !in b.invoices && InvoiceLinked(b, v)
    ensures var b' := b.(invoices := b.invoices[i := v]); Linked(b') && OnlyTouches(b, b', None)
  {
    var b' := b.(invoices := b.invoices[i := v]);
    forall x | x in b.ledgers ensures SameSources(b, b', x) {
      assert CountedPayments(b, x) == CountedPayments(b', x);
      assert OwedParts(b, x) == OwedParts(b', x) && OpenDates(b, x) == OpenDates(b', x)
             && PlanOf(b, x) == PlanOf(b', x);
    }
  }

  function Repriced(b: Books, c: nat, price: real): Books {
    if c in b.courses then b.(courses := b.courses[c := b.courses[c].(price := price)]) else b
  }

  /** Changing a course's price leaves every frozen price, and so every firm row, alone. */
  lemma RepriceKeeps(b: Books, c: nat, price: real)
    requires Sound(b)
    ensures Sound(Repriced(b, c, price))
  {
    hide Rolled;
    var b' := Repriced(b, c, price);
    forall x | x in b'.ledgers ensures RowInStep(b', x) {
      assert CountedPayments(b, x) == CountedPayments(b', x);
      assert OwedParts(b, x) == OwedParts(b', x) && OpenDates(b, x) == OpenDates(b', x)
             && PlanOf(b, x) == PlanOf(b', x);
      if Firm(b', x) {
        SameRow(b, b', x);
        assert RowInStep(b, x);
      }
    }
  }

  // --------------------------------------------------------------- whole runs

  datatype Act =
    | Raise(invoice: nat, provider: string, reference: string, e: Option<nat>, t: Option<nat>, given: Option<real>)
    | Settlement(invoice: nat, report: Report)
    | GiveBack(key: Key, basis: Basis)
    | Enrol(enrollment: nat, today: Date)
    | LayOut(enrollment: nat, today: Date)
    | Add(enrollment: nat, due: Option<Date>, amount: real)
    | Edit(installment: nat, newAmount: Option<real>, newDue: Option<Option<Date>>)
    | Waive(installment: nat)
    | Delete(installment: nat)
    | Reprice(course: nat, price: real)
    | Refresh(enrollment: nat)

  ghost function Kept(b: Books, r: Result<Books>): Books {
    if r.Ok? then r.value else b
  }

  /** One request; one that is refused, or names a row that is not there, changes nothing. */
  ghost function Step(b: Books, a: Act): Books
    requires Linked(b)
  {
    match a
    case Raise(i, provider, reference, e, t, given) =>
      if i in b.invoices then b else Kept(b, RaiseInvoice(b, i, provider, reference, e, t, given))
    case Settlement(i, report) => if i in b.invoices then Settle(b, i, report) else b
    case GiveBack(k, basis) => if k in b.payments then Kept(b, Refund(b, k, basis)) else b
    case Enrol(e, today) => if e in b.enrollments then OnEnrolled(b, e, today) else b
    case LayOut(e, today) =>
      if e in b.enrollments && DefaultPlan(b, e, today).Ok? then Recomputed(DefaultPlan(b, e, today).value, e) else b
    case Add(e, due, amount) => Kept(b, AddInstallment(b, e, due, amount))
    case Edit(t, amount, due) => Kept(b, UpdateInstallment(b, t, amount, due))
    case Waive(t) => Kept(b, WaiveInstallment(b, t))
    case Delete(t) => Kept(b, DeleteInstallment(b, t))
    case Reprice(c, price) => Repriced(b, c, price)
    case Refresh(e) => if e in b.enrollments then Recomputed(b, e) else b
  }

  ghost function Run(b: Books, acts: seq<Act>): Books
    decreases |acts|
  {
    if acts == [] || !Linked(b) then b else Run(Step(b, acts[0]), acts[1..])
  }

  lemma StepKeeps(b: Books, a: Act)
    requires Sound(b)
    ensures Sound(Step(b, a))
  {
    hide Linked, AllConsistent, InStep, RaiseInvoice, Settle, Refund, OnEnrolled, DefaultPlan, AddInstallment,
      DeleteInstallment, Repriced, Rolled, ToAmount;
    match a {
      case Raise(i, provider, reference, e, t, given) =>
        if i !in b.invoices && RaiseInvoice(b, i, provider, reference, e, t, given).Ok? {
          RaiseKeeps(b, i, provider, reference, e, t, given);
        }
      case Settlement(i, report) => if i in b.invoices { SettleKeeps(b, i, report); }
      case GiveBack(k, basis) => if k in b.payments && Refund(b, k, basis).Ok? { RefundKeeps(b, k, basis); }
      case Enrol(e, today) => if e in b.enrollments { EnrolledKeeps(b, e, today); }
      case LayOut(e, today) =>
        if e in b.enrollments && DefaultPlan(b, e, today).Ok? { LayOutKeeps(b, e, today); }
      case Add(e, due, amount) => if AddInstallment(b, e, due, amount).Ok? { AddKeeps(b, e, due, amount); }
      case Edit(t, amount, due) =>
        if UpdateInstallment(b, t, amount, due).Ok? { ReplaceKeeps(b, t, Edited(b.installments[t], amount, due)); }
      case Waive(t) =>
        if WaiveInstallment(b, t).Ok? { ReplaceKeeps(b, t, Ok(b.installments[t].(status := Waived))); }
      case Delete(t) => if DeleteInstallment(b, t).Ok? { DeleteKeeps(b, t); }
      case Reprice(c, price) => RepriceKeeps(b, c, price);
      case Refresh(e) => if e in b.enrollments { RefreshKeeps(b, e); }
    }
  }

  lemma LayOutKeeps(b: Books, e: nat, today: Date)
    requires Sound(b) && e in b.enrollments && DefaultPlan(b, e, today).Ok?
    ensures Sound(Recomputed(DefaultPlan(b, e, today).value, e))
  {
    hide OnlyTouches, Rolled, InStep, DefaultPlan, Linked;
    DefaultPlanTouchesOne(b, e, today);
    PlanIs(b, e, today);
    RebookedInStep(b, DefaultPlan(b, e, today).value, Some(e));
  }

  lemma RefreshKeeps(b: Books, e: nat)
    requires Sound(b) && e in b.enrollments
    ensures Sound(Recomputed(b, e))
  {
    hide OnlyTouches, Rolled, InStep, Linked;
    Untouched(b, Some(e));
    RebookedInStep(b, b, Some(e));
  }

  /** In every state a run of requests reaches, each ledger row whose price is frozen or
      that has a plan equals what its source rows add up to, and every payment row agrees
      with its refunds. */
  lemma {:induction false} RunKeeps(b: Books, acts: seq<Act>)
    requires Sound(b)
    ensures Sound(Run(b, acts))
    decreases |acts|
  {
    hide Step, AllConsistent, InStep;
    if acts != [] {
      StepKeeps(b, acts[0]);
      RunKeeps(Step(b, acts[0]), acts[1..]);
    }
  }

  // ------------------------------------------------------------------ history

  predicate History(p: Installment) {
    p.status == Settled || p.status == Waived
  }

  /** Paid and waived installments are history: only a payment's arrival touches one, and all
      it can do is mark it paid. */
  lemma HistoryStays(b: Books, a: Act, t: nat)
    requires Linked(b) && t in b.installments && History(b.installments[t])
    ensures t in Step(b, a).installments
    ensures !a.Settlement? ==> Step(b, a).installments[t] == b.installments[t]
    ensures Step(b, a).installments[t] == b.installments[t]
            || Step(b, a).installments[t] == b.installments[t].(status := Settled)
  {
    if a.Settlement? {
      SettleKeepsHistory(b, a.invoice, a.report, t);
    } else if a.Enrol? || a.LayOut? {
      PlanKeepsHistory(b, a, t);
    } else if a.Add? || a.Edit? || a.Waive? || a.Delete? {
      EditsKeepHistory(b, a, t);
    } else {
      hide Rolled, AmountOwed, RefundTotal, Cents, Price, Linked, History;
    }
  }

  lemma SettleKeepsHistory(b: Books, i: nat, r: Report, t: nat)
    requires Linked(b) && t in b.installments
    ensures i in b.invoices ==>
              var after := Settle(b, i, r).installments;
              t in after && (after[t] == b.installments[t] || after[t] == b.installments[t].(status := Settled))
  {
    hide Rolled, Linked, KeyOf, ReceivedOf;
    if i in b.invoices {
      FreshIsRebooked(b, i, KeyOf(b.invoices[i], r), ReceivedOf(b.invoices[i], r));
      hide Fresh;
    }
  }

  lemma PlanKeepsHistory(b: Books, a: Act, t: nat)
    requires Linked(b) && t in b.installments && (a.Enrol? || a.LayOut?)
    ensures t in Step(b, a).installments && Step(b, a).installments[t] == b.installments[t]
  {
    var e := a.enrollment;
    if e in b.enrollments {
      PlanKeepsRows(b, e, a.today, t);
      PlanKeepsRows(Fixed(b, e), e, a.today, t);
    }
    hide Rolled, DefaultPlan, Linked;
  }

  lemma EditsKeepHistory(b: Books, a: Act, t: nat)
    requires Linked(b) && t in b.installments && History(b.installments[t])
             && (a.Add? || a.Edit? || a.Waive? || a.Delete?)
    ensures t in Step(b, a).installments && Step(b, a).installments[t] == b.installments[t]
  {
    assert t < b.nextId;
    hide Rolled, ToAmount, Linked;
  }

  lemma {:induction false} InsertKeepsRows(b: Books, rows: seq<Installment>, t: nat)
    requires (forall x :: x in b.installments ==> x < b.nextId) && t in b.installments
    ensures t in Insert(b, rows).installments && Insert(b, rows).installments[t] == b.installments[t]
    decreases |rows|
  {
    if rows != [] {
      InsertKeepsRows(b.(installments := b.installments[b.nextId := rows[0]], nextId := b.nextId + 1), rows[1..], t);
    }
  }

  lemma PlanKeepsRows(b: Books, e: nat, today: Date, t: nat)
    requires e in b.enrollments && (forall x :: x in b.installments ==> x < b.nextId) && t in b.installments
    ensures DefaultPlan(b, e, today).Ok? ==>
              t in DefaultPlan(b, e, today).value.installments
                  && DefaultPlan(b, e, today).value.installments[t] == b.installments[t]
  {
    hide Split, AddMonths, Price;
    if DefaultPlan(b, e, today).Ok? && Price(b, e) > 0.0 {
      var rules := RulesOf(b, e);
      InsertKeepsRows(b, PlanRows(e, Split(Price(b, e), rules.0), FirstDue(b, e, today), rules.1), t);
    }
  }
}
