/** What the ledger row of an enrollment says, and what enrolling lays out
    (app/services/payments/ledger.py:27-66, plans.py:28-76), read off the source rows. */
module LedgerOutcomes {
  import opened Wrappers
  import opened Plans
  import opened Books
  import opened BooksProof
  import opened Balance

  /** The price frozen at enrolment, else the course's, else nothing. */
  predicate PriceIs(b: Books, e: nat, price: real)
    requires e in b.enrollments
  {
    var enr := b.enrollments[e];
    && (enr.price.Some? ==> price == enr.price.value)
    && (enr.price.None? && enr.course.Some? && enr.course.value in b.courses ==>
          price == b.courses[enr.course.value].price)
    && (enr.price.None? && (enr.course.None? || enr.course.value !in b.courses) ==> price == 0.0)
  }

  lemma PriceIsPrice(b: Books, e: nat, price: real)
    requires e in b.enrollments && PriceIs(b, e, price)
    ensures Price(b, e) == price
  {
  }

  /** Calendar order. */
  predicate Earlier(a: Date, b: Date) {
    a.year < b.year || (a.year == b.year && (a.month < b.month || (a.month == b.month && a.day < b.day)))
  }

  lemma EarlierIsBefore(a: Date, b: Date)
    ensures Before(a, b) <==> Earlier(a, b)
  {
  }

  /** The amounts that are owed by plan: every part that is not waived. */
  predicate Owed(b: Books, e: nat, owed: map<nat, real>) {
    && (forall t :: t in owed ==> t in b.installments && owed[t] == b.installments[t].amount)
    && forall t :: t in b.installments ==>
         (t in owed <==> b.installments[t].enrollment == e
                         && b.installments[t].status in {Scheduled, Overdue, Settled})
  }

  /** What was received on the enrollment's invoices and has not gone back. */
  predicate Had(b: Books, e: nat, had: map<Key, real>) {
    && (forall k :: k in had ==> k in b.payments && had[k] == b.payments[k].amount - b.payments[k].refunded)
    && forall k :: k in b.payments ==>
         (k in had <==> b.payments[k].invoice in b.invoices
                        && b.invoices[b.payments[k].invoice].enrollment == Some(e)
                        && b.payments[k].status in {Received, PartlyRefunded})
  }

  /** A part with a due date that is neither paid nor waived. */
  predicate Open(b: Books, e: nat, t: nat) {
    t in b.installments && b.installments[t].enrollment == e && b.installments[t].due.Some?
    && b.installments[t].status in {Scheduled, Overdue}
  }

  /** No open part; or the date is one's, and no other is due earlier. */
  predicate NextIs(b: Books, e: nat, next: Option<Date>) {
    && (next.None? ==> forall t :: t in b.installments ==> !Open(b, e, t))
    && (next.Some? ==>
          && (exists t :: t in b.installments && Open(b, e, t) && b.installments[t].due == next)
          && forall t :: t in b.installments && Open(b, e, t) ==> !Earlier(b.installments[t].due.value, next.value))
  }

  predicate HasPlan(b: Books, e: nat) {
    exists t :: t in b.installments && b.installments[t].enrollment == e
  }

  lemma HasPlanExactly(b: Books, e: nat)
    ensures HasPlan(b, e) <==> PlanOf(b, e) != {}
  {
    if HasPlan(b, e) {
      var t :| t in b.installments && b.installments[t].enrollment == e;
      assert t in PlanOf(b, e);
    }
  }

  lemma NextReads(b: Books, e: nat)
    ensures NextIs(b, e, Earliest(OpenDates(b, e)))
  {
    hide Earlier, Before;
    var dates := OpenDates(b, e);
    var next := Earliest(dates);
    forall t | t in b.installments && Open(b, e, t) ensures b.installments[t].due.value in dates {
    }
    forall x: Date, y: Date ensures Before(x, y) <==> Earlier(x, y) {
      EarlierIsBefore(x, y);
    }
    if next.Some? {
      var t :| t in b.installments && b.installments[t].enrollment == e && Awaited(b.installments[t])
               && b.installments[t].due.value == next.value;
      assert Open(b, e, t) && b.installments[t].due == next;
    }
  }

  lemma OwedIs(b: Books, e: nat, owed: map<nat, real>)
    requires Owed(b, e, owed)
    ensures OwedParts(b, e) == owed
  {
  }

  lemma HadIs(b: Books, e: nat, had: map<Key, real>)
    requires Had(b, e, had)
    ensures CountedPayments(b, e) == had
  {
  }

  /** The row that recomputing writes: without a plan the price is owed and nothing is next; with
      one, its parts. */
  lemma LedgerReads(b: Books, e: nat, price: real, owed: map<nat, real>, had: map<Key, real>)
    requires e in b.enrollments && PriceIs(b, e, price) && Owed(b, e, owed) && Had(b, e, had)
    ensures e in Recomputed(b, e).ledgers
    ensures var row := Recomputed(b, e).ledgers[e];
            && row.due == (if HasPlan(b, e) then Sum(owed) else price)
            && row.paid == Sum(had) && row.balance == row.due - row.paid
            && (HasPlan(b, e) ==> NextIs(b, e, row.next)) && (!HasPlan(b, e) ==> row.next == None)
    ensures Recomputed(b, e) == b.(ledgers := b.ledgers[e := Recomputed(b, e).ledgers[e]])
  {
    PriceIsPrice(b, e, price);
    HasPlanExactly(b, e);
    NextReads(b, e);
    OwedIs(b, e, owed);
    HadIs(b, e, had);
    hide PriceIs, Owed, Had, NextIs, HasPlan, Price, Earliest, OpenDates, CountedPayments, OwedParts, PlanOf;
  }

  // ----------------------------------------------------------------- enrolling

  /** How many parts, or how many months apart: the course's figure, and one if it is missing
      or smaller. */
  predicate RuleIs(b: Books, e: nat, count: nat, every: nat)
    requires e in b.enrollments
  {
    var c := b.enrollments[e].course;
    if c.Some? && c.value in b.courses then
      && (if b.courses[c.value].count >= 1 then count == b.courses[c.value].count else count == 1)
      && (if b.courses[c.value].every >= 1 then every == b.courses[c.value].every else every == 1)
    else count == 1 && every == 1
  }

  /** Part i of a plan: so many months after the first; a later one whole, and as large as it
      can be; the first one with what is left. */
  predicate PartAt(rows: map<nat, Installment>, from: nat, e: nat, price: real, count: nat, every: nat, first: Date,
                   i: nat)
  {
    from in rows && from + i in rows &&
    var row := rows[from + i];
    && row.enrollment == e && row.status == Scheduled && row.due == Some(AddMonths(first, i * every))
    && (i > 0 ==> PartIs(row.amount, rows[from].amount, price, count))
    && (count == 1 ==> row.amount == price)
  }

  predicate PartIs(part: real, head: real, price: real, count: nat) {
    && part == part.Floor as real && part >= 0.0
    && part * count as real <= price < (part + 1.0) * count as real
    && head == price - part * (count - 1) as real
  }

  predicate LaidOut(rows: map<nat, Installment>, from: nat, e: nat, price: real, count: nat, every: nat, first: Date) {
    forall i :: 0 <= i < count ==> PartAt(rows, from, e, price, count, every, first, i)
  }

  lemma PartsAre(price: real, count: nat, i: nat)
    requires price >= 0.0 && i < count
    ensures |Split(price, count)| == count
    ensures var part := Split(price, count)[i];
            && (i > 0 ==> PartIs(part, Split(price, count)[0], price, count))
            && (count == 1 ==> part == price)
  {
    SplitAddsUp(price, count);
    hide SumSeq;
    var part, head := Part(price, count), Split(price, count)[0];
    PartIsClose(price, count);
    hide Part;
    Distributes(part, count as real);
    if count == 1 {
      assert part * 0.0 == 0.0;
    }
  }

  lemma Distributes(part: real, c: real)
    ensures (part + 1.0) * c == part * c + c
  {
  }

  /** One row of the plan, among the rows it was inserted into. */
  lemma RowIsPart(all: map<nat, Installment>, from: nat, e: nat, price: real, count: nat, every: nat, first: Date,
                  i: nat)
    requires price >= 0.0 && i < count && |Split(price, count)| == count
    requires from + i in all && from in all
    requires all[from + i] == Installment(e, Some(AddMonths(first, i * every)), Split(price, count)[i], Scheduled)
    requires all[from].amount == Split(price, count)[0]
    ensures PartAt(all, from, e, price, count, every, first, i)
  {
    PartsAre(price, count, i);
    hide Split, AddMonths, PartIs;
  }

  lemma RowAt(e: nat, parts: seq<real>, first: Date, every: nat, i: nat)
    requires i < |parts|
    ensures |PlanRows(e, parts, first, every)| == |parts|
    ensures PlanRows(e, parts, first, every)[i]
         == Installment(e, Some(AddMonths(first, i * every)), parts[i], Scheduled)
  {
    hide AddMonths;
  }

  lemma InsertedAt(b: Books, rows: seq<Installment>, i: nat)
    requires i < |rows| && forall t :: t in b.installments ==> t < b.nextId
    ensures b.nextId + i in Insert(b, rows).installments && Insert(b, rows).installments[b.nextId + i] == rows[i]
  {
    InsertedRows(b, rows);
  }

  lemma PartInserted(b: Books, e: nat, parts: seq<real>, first: Date, every: nat, i: nat)
    requires i < |parts| && forall t :: t in b.installments ==> t < b.nextId
    ensures var all := Insert(b, PlanRows(e, parts, first, every)).installments;
            && b.nextId + i in all
            && all[b.nextId + i] == Installment(e, Some(AddMonths(first, i * every)), parts[i], Scheduled)
  {
    RowAt(e, parts, first, every, i);
    InsertedAt(b, PlanRows(e, parts, first, every), i);
    hide AddMonths, Insert, PlanRows;
  }

  lemma HeadInserted(b: Books, e: nat, parts: seq<real>, first: Date, every: nat)
    requires parts != [] && forall t :: t in b.installments ==> t < b.nextId
    ensures var all := Insert(b, PlanRows(e, parts, first, every)).installments;
            b.nextId in all && all[b.nextId].amount == parts[0]
  {
    PartInserted(b, e, parts, first, every, 0);
    hide AddMonths, Insert, PlanRows;
  }

  lemma PlanPart(b: Books, e: nat, price: real, count: nat, every: nat, first: Date, i: nat)
    requires price >= 0.0 && i < count && forall t :: t in b.installments ==> t < b.nextId
    ensures PartAt(Insert(b, PlanRows(e, Split(price, count), first, every)).installments, b.nextId, e, price, count,
                   every, first, i)
  {
    hide AddMonths, Insert, PartIs, PartAt, PlanRows;
    PartsAre(price, count, i);
    hide Split;
    var parts := Split(price, count);
    PartInserted(b, e, parts, first, every, i);
    HeadInserted(b, e, parts, first, every);
    RowIsPart(Insert(b, PlanRows(e, parts, first, every)).installments, b.nextId, e, price, count, every, first, i);
  }

  lemma RowsLaidOut(b: Books, e: nat, price: real, count: nat, every: nat, first: Date)
    requires price >= 0.0 && count >= 1 && forall t :: t in b.installments ==> t < b.nextId
    ensures LaidOut(Insert(b, PlanRows(e, Split(price, count), first, every)).installments, b.nextId, e, price, count,
                    every, first)
  {
    hide Split, AddMonths, Insert, PartAt, PlanRows;
    forall i | 0 <= i < count
      ensures PartAt(Insert(b, PlanRows(e, Split(price, count), first, every)).installments, b.nextId, e, price, count,
                     every, first, i) {
      PlanPart(b, e, price, count, every, first, i);
    }
  }

  /** Nothing else among the installments. */
  predicate OnlyAdds(before: map<nat, Installment>, after: map<nat, Installment>, from: nat, count: nat) {
    && (forall t :: t in before ==> t in after && after[t] == before[t])
    && forall t :: t in after && t !in before ==> from <= t < from + count
  }

  lemma PlanOnlyAdds(b: Books, rows: seq<Installment>)
    requires forall t :: t in b.installments ==> t < b.nextId
    ensures OnlyAdds(b.installments, Insert(b, rows).installments, b.nextId, |rows|)
  {
    InsertedRows(b, rows);
    hide Insert;
  }

  /** Enrolling: the price is frozen; an enrollment without a plan gets the one its course
      prescribes, from the day the cohort starts or else from today, unless it costs nothing;
      one with a plan keeps it. */
  lemma EnrolledReads(b: Books, e: nat, today: Date, price: real, count: nat, every: nat)
    requires Linked(b) && e in b.enrollments && PriceIs(b, e, price) && RuleIs(b, e, count, every)
    ensures var r := OnEnrolled(b, e, today);
            var start := b.enrollments[e].start;
            && r.enrollments == b.enrollments[e := b.enrollments[e].(price := Some(price))]
            && r.invoices == b.invoices && r.payments == b.payments && r.courses == b.courses
            && (HasPlan(b, e) || price <= 0.0 ==> r.installments == b.installments)
            && (!HasPlan(b, e) && price > 0.0 ==>
                  && OnlyAdds(b.installments, r.installments, b.nextId, count)
                  && LaidOut(r.installments, b.nextId, e, price, count, every,
                             if start.Some? then start.value else today))
  {
    var first := if b.enrollments[e].start.Some? then b.enrollments[e].start.value else today;
    var fixed := EnrolledIs(b, e, today, price, count, every, first);
    hide PriceIs, RuleIs, HasPlan, Rolled, OnEnrolled;
    if !HasPlan(b, e) && price > 0.0 {
      PartsAre(price, count, 0);
      RowsLaidOut(fixed, e, price, count, every, first);
      PlanOnlyAdds(fixed, PlanRows(e, Split(price, count), first, every));
      hide LaidOut, OnlyAdds, Insert, PlanRows, Linked, Split;
    }
  }

  lemma EnrolledIs(b: Books, e: nat, today: Date, price: real, count: nat, every: nat, first: Date)
    returns (fixed: Books)
    requires e in b.enrollments && PriceIs(b, e, price) && RuleIs(b, e, count, every)
    requires first == if b.enrollments[e].start.Some? then b.enrollments[e].start.value else today
    ensures count >= 1
    ensures fixed == b.(enrollments := b.enrollments[e := b.enrollments[e].(price := Some(price))])
    ensures OnEnrolled(b, e, today)
         == Recomputed(if !HasPlan(b, e) && price > 0.0
                       then Insert(fixed, PlanRows(e, Split(price, count), first, every)) else fixed, e)
  {
    fixed := if b.enrollments[e].price.None? then Fixed(b, e) else b;
    FixedReads(b, e, today, price);
    HasPlanExactly(b, e);
    RulesAre(b, fixed, e, count, every);
    hide PriceIs, Rolled, Price, RulesOf, RuleIs, HasPlan, PlanOf, Fixed, PlanRows, Split, FirstDue;
  }

  lemma FixedReads(b: Books, e: nat, today: Date, price: real)
    requires e in b.enrollments && PriceIs(b, e, price)
    ensures var fixed, start := if b.enrollments[e].price.None? then Fixed(b, e) else b, b.enrollments[e].start;
            && fixed == b.(enrollments := b.enrollments[e := b.enrollments[e].(price := Some(price))])
            && Price(fixed, e) == price && PlanOf(fixed, e) == PlanOf(b, e)
            && FirstDue(fixed, e, today) == if start.Some? then start.value else today
  {
    PriceIsPrice(b, e, price);
    var enr := b.enrollments[e];
    assert b.enrollments[e := enr.(price := Some(price))][e] == enr.(price := Some(price));
    assert enr.price.Some? ==> b.enrollments[e := enr.(price := Some(price))] == b.enrollments;
  }

  lemma RulesAre(b: Books, fixed: Books, e: nat, count: nat, every: nat)
    requires e in b.enrollments && RuleIs(b, e, count, every)
    requires e in fixed.enrollments && fixed.courses == b.courses
             && fixed.enrollments[e].course == b.enrollments[e].course
    ensures RulesOf(fixed, e) == (count, every)
  {
  }

  // -------------------------------------------------------------- editing a plan

  /** Only the installments and one enrollment's ledger row are different. */
  ghost predicate OnlyPlan(b: Books, after: Books, e: nat) {
    && after.invoices == b.invoices && after.payments == b.payments && after.enrollments == b.enrollments
    && after.courses == b.courses && e in after.enrollments && e in after.ledgers
    && after.ledgers == b.ledgers[e := after.ledgers[e]] && after.ledgers[e] == Rolled(after, e)
  }

  lemma RecomputedPlan(b: Books, rows: map<nat, Installment>, next: nat, e: nat)
    requires e in b.enrollments
    ensures OnlyPlan(b, Recomputed(b.(installments := rows, nextId := next), e), e)
  {
    var rowed := b.(installments := rows, nextId := next);
    RecomputedSources(rowed, e, e);
    hide Rolled;
  }

  /** A part is waived exactly when it is neither paid nor waived; it keeps its amount and date,
      and is owed no longer. */
  lemma WaiveReads(b: Books, t: nat)
    requires Linked(b) && t in b.installments
    ensures var p, r := b.installments[t], WaiveInstallment(b, t);
            && (r.Ok? <==> p.status in {Scheduled, Overdue})
            && (r.Err? ==> r == Err(409, "installment_settled"))
            && (r.Ok? ==>
                  && r.value.installments == b.installments[t := Installment(p.enrollment, p.due, p.amount, Waived)]
                  && r.value.nextId == b.nextId && OnlyPlan(b, r.value, p.enrollment))
  {
    var p := b.installments[t];
    RecomputedPlan(b, b.installments[t := Installment(p.enrollment, p.due, p.amount, Waived)], b.nextId, p.enrollment);
    hide Rolled, OnlyPlan, Recomputed;
  }

  /** A part is edited exactly when it is neither paid nor waived and what is given is a positive
      amount and a date; what is not given stays. */
  lemma UpdateReads(b: Books, t: nat, amount: Option<real>, due: Option<Option<Date>>, n: int)
    requires Linked(b) && t in b.installments && (amount != None ==> amount.value == n as real / 100.0)
    ensures var p, r := b.installments[t], UpdateInstallment(b, t, amount, due);
            var row := Installment(p.enrollment, if due == None then p.due else due.value,
                                   if amount == None then p.amount else amount.value, p.status);
            && (r.Ok? <==> p.status in {Scheduled, Overdue} && (amount != None ==> amount.value > 0.0)
                           && due != Some(None))
            && (p.status in {Settled, Waived} ==> r == Err(409, "installment_settled"))
            && (r.Ok? ==> r.value.installments == b.installments[t := row] && r.value.nextId == b.nextId
                          && OnlyPlan(b, r.value, p.enrollment))
  {
    var p := b.installments[t];
    var row := Installment(p.enrollment, if due == None then p.due else due.value,
                           if amount == None then p.amount else amount.value, p.status);
    if amount != None {
      CentsIsNearest(amount.value, n);
    }
    RecomputedPlan(b, b.installments[t := row], b.nextId, p.enrollment);
    hide Rolled, OnlyPlan, Cents, Recomputed;
  }

  /** A part is added to an enrollment that is there, with a date and a positive amount, as one
      still to be paid, under the next number. */
  lemma AddReads(b: Books, e: nat, due: Option<Date>, amount: real, n: int)
    requires amount == n as real / 100.0
    ensures var r := AddInstallment(b, e, due, amount);
            && (r.Ok? <==> e in b.enrollments && due != None && amount > 0.0)
            && (e !in b.enrollments ==> r == Err(404, "enrollment_not_found"))
            && (e in b.enrollments && due == None ==> r == Err(400, "invalid_date"))
            && (r.Ok? ==> r.value.installments == b.installments[b.nextId := Installment(e, due, amount, Scheduled)]
                          && r.value.nextId == b.nextId + 1 && OnlyPlan(b, r.value, e))
  {
    CentsIsNearest(amount, n);
    if e in b.enrollments {
      RecomputedPlan(b, b.installments[b.nextId := Installment(e, due, amount, Scheduled)], b.nextId + 1, e);
    }
    hide Rolled, OnlyPlan, Cents, Recomputed;
  }

  /** A part is deleted exactly when it is neither paid nor waived and no invoice asks for it. */
  lemma DeleteReads(b: Books, t: nat)
    requires Linked(b) && t in b.installments
    ensures var p, r := b.installments[t], DeleteInstallment(b, t);
            && (r.Ok? <==> p.status in {Scheduled, Overdue}
                           && forall i :: i in b.invoices ==> b.invoices[i].installment != Some(t))
            && (p.status in {Settled, Waived} ==> r == Err(409, "installment_settled"))
            && (r.Err? && p.status in {Scheduled, Overdue} ==> r == Err(409, "installment_has_invoices"))
            && (r.Ok? ==> r.value.installments == b.installments - {t} && r.value.nextId == b.nextId
                          && OnlyPlan(b, r.value, p.enrollment))
  {
    RecomputedPlan(b, b.installments - {t}, b.nextId, b.installments[t].enrollment);
    hide Rolled, OnlyPlan, Recomputed;
  }

  /** An invoice is stored as it was asked for, still to be paid: for its enrollment, an
      installment's own if it is for one. */
  lemma RaiseReads(b: Books, i: nat, provider: string, reference: string, e: Option<nat>, t: Option<nat>,
                   given: Option<real>)
    requires Linked(b) && i !in b.invoices && RaiseInvoice(b, i, provider, reference, e, t, given).Ok?
    ensures var after := RaiseInvoice(b, i, provider, reference, e, t, given).value;
            && after.invoices.Keys == b.invoices.Keys + {i}
            && (forall j :: j in b.invoices ==> after.invoices[j] == b.invoices[j])
            && after.invoices[i].provider == provider && after.invoices[i].reference == reference
            && after.invoices[i].installment == t && after.invoices[i].status == Pending
            && after.invoices[i].enrollment == (if t == None then e else Some(b.installments[t.value].enrollment))
            && (t != None && e != None ==> e == after.invoices[i].enrollment)
            && after.payments == b.payments && after.installments == b.installments
  {
    hide Rolled, AmountOwed, Linked;
  }

  /** For an installment an invoice asks exactly its amount, and is refused when it belongs to
      another enrollment, is paid or waived, or another amount is given. */
  lemma RaiseForPart(b: Books, i: nat, provider: string, reference: string, e: Option<nat>, t: nat,
                     given: Option<real>, n: int, m: int)
    requires Linked(b) && t in b.installments && b.installments[t].amount == m as real / 100.0
    requires given.Some? ==> given.value == n as real / 100.0
    ensures var p, r := b.installments[t], RaiseInvoice(b, i, provider, reference, e, Some(t), given);
            && (r.Ok? <==> (e == None || e == Some(p.enrollment)) && p.status in {Scheduled, Overdue}
                           && p.amount > 0.0 && (given == None || given == Some(p.amount)))
            && (e != None && e != Some(p.enrollment) ==> r == Err(400, "installment_not_in_enrollment"))
            && (r.Ok? ==> r.value == b.(invoices := b.invoices[i :=
                            Invoice(provider, reference, p.amount, Some(p.enrollment), Some(t), Pending)]))
  {
    CentsIsNearest(b.installments[t].amount, m);
    if given.Some? {
      CentsIsNearest(given.value, n);
    }
    hide Rolled, Cents;
  }

  /** For an enrollment it asks the amount given, which must be positive and no more than the
      balance, or else the balance to the nearest cent; and brings the ledger up to date. */
  lemma RaiseForBalance(b: Books, i: nat, provider: string, reference: string, e: nat, given: Option<real>, n: int)
    requires Linked(b) && (given.Some? ==> given.value == n as real / 100.0)
    ensures var r := RaiseInvoice(b, i, provider, reference, Some(e), None, given);
            if e !in b.enrollments then r == Err(404, "enrollment_not_found")
            else
              var ledger := Rolled(b, e);
              && (r.Ok? <==> ledger.balance > 0.0 && (given.Some? ==> 0.0 < given.value <= ledger.balance))
              && (ledger.balance <= 0.0 ==> r == Err(409, "nothing_due"))
              && (given.Some? && 0.0 < ledger.balance < given.value ==> r == Err(409, "amount_exceeds_balance"))
              && (r.Ok? ==> r.value == b.(ledgers := b.ledgers[e := ledger], invoices := b.invoices[i :=
                              Invoice(provider, reference,
                                      if given.Some? then given.value else Cents(ledger.balance),
                                      Some(e), None, Pending)]))
  {
    if given.Some? {
      CentsIsNearest(given.value, n);
    }
    hide Rolled, Cents;
  }

  /** Tied to nothing, it asks what it is told. */
  lemma RaiseAlone(b: Books, i: nat, provider: string, reference: string, given: Option<real>, n: int)
    requires Linked(b) && (given.Some? ==> given.value == n as real / 100.0)
    ensures var r := RaiseInvoice(b, i, provider, reference, None, None, given);
            && (r.Ok? <==> given.Some? && given.value > 0.0)
            && (r.Ok? ==> r.value == b.(invoices := b.invoices[i :=
                            Invoice(provider, reference, given.value, None, None, Pending)]))
  {
    if given.Some? {
      CentsIsNearest(given.value, n);
    }
    hide Rolled, Cents;
  }
}
