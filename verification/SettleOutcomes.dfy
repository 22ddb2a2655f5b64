/** What a gateway's report does to the books (app/services/payments/settlement.py), read off the
    report: which payment row, which invoice, which installment. */
module SettleOutcomes {
  import opened Wrappers
  import opened Books
  import opened BooksProof
  import opened Confluence

  /** The row of a payment: the invoice's provider with the gateway's transaction id, or with
      our own reference when the gateway names none. */
  predicate RowOf(v: Invoice, r: Report, row: Key) {
    && row.0 == v.provider
    && (r.txn != "" ==> row.1 == r.txn)
    && (r.txn == "" ==> row.1 == v.reference)
  }

  /** What was received: the reported amount, or the invoice's own when none is reported. */
  predicate AmountIs(v: Invoice, r: Report, received: real) {
    && (r.amount.Some? ==> received == r.amount.value)
    && (r.amount.None? ==> received == v.amount)
  }

  lemma RowIs(v: Invoice, r: Report, row: Key, received: real)
    requires RowOf(v, r, row) && AmountIs(v, r, received)
    ensures KeyOf(v, r) == row && ReceivedOf(v, r) == received
  {
  }

  /** Everything but the ledger rows: a payment that is new is recorded in full, and one that
      reaches the invoice's amount, new or not, marks it paid; a new one that does clears the
      installment too. Nothing else changes, and the answer is a payment exactly when the
      invoice's amount was reached. */
  lemma SettleReads(b: Books, i: nat, r: Report, row: Key, received: real)
    requires Linked(b) && i in b.invoices
    requires RowOf(b.invoices[i], r, row) && AmountIs(b.invoices[i], r, received)
    ensures var v, after := b.invoices[i], Settle(b, i, r);
            var anew := r.paid && row !in b.payments;
            var reached := r.paid && v.amount <= (if row in b.payments then b.payments[row].amount else received);
            && after.payments == (if anew then b.payments[row := Payment(i, received, Received, 0.0)] else b.payments)
            && after.invoices == (if reached then b.invoices[i := v.(status := Paid)] else b.invoices)
            && after.installments.Keys == b.installments.Keys
            && (forall t :: t in b.installments ==>
                  after.installments[t] == if anew && reached && v.installment == Some(t)
                                           then b.installments[t].(status := Settled) else b.installments[t])
            && after.enrollments == b.enrollments && after.courses == b.courses && after.nextId == b.nextId
            && (Confirms(b, i, r) <==> reached)
  {
    var v := b.invoices[i];
    RowIs(v, r, row, received);
    InvoiceLinks(b, i);
    hide Rolled, Linked, KeyOf, ReceivedOf, AmountIs, RowOf;
    if r.paid && row !in b.payments {
      FreshIsRebooked(b, i, row, received);
      hide Fresh;
    }
  }

  /** The ledger: a new payment rolls up its own enrollment, whether or not it was enough; a
      replay rolls up none. */
  lemma SettleRolls(b: Books, i: nat, r: Report, row: Key, received: real)
    requires Linked(b) && i in b.invoices
    requires RowOf(b.invoices[i], r, row) && AmountIs(b.invoices[i], r, received)
    ensures var after, e := Settle(b, i, r), b.invoices[i].enrollment;
            after.ledgers == if r.paid && row !in b.payments && e.Some? && e.value in after.enrollments
                             then b.ledgers[e.value := Rolled(after, e.value)] else b.ledgers
  {
    var v := b.invoices[i];
    RowIs(v, r, row, received);
    InvoiceLinks(b, i);
    hide Linked, KeyOf, ReceivedOf, AmountIs, RowOf;
    if r.paid && row !in b.payments {
      FreshIsRebooked(b, i, row, received);
      if v.enrollment.Some? {
        RecomputedSources(FreshRows(b, i, row, received), v.enrollment.value, v.enrollment.value);
      }
      hide Fresh, Rolled;
    }
  }

  lemma SettleIsLinked(b: Books, i: nat, r: Report)
    requires Linked(b) && i in b.invoices
    ensures Linked(Settle(b, i, r))
  {
    var v := b.invoices[i];
    var row, received := KeyOf(v, r), ReceivedOf(v, r);
    InvoiceLinks(b, i);
    hide Linked, KeyOf, ReceivedOf, OnlyTouches, Rolled;
    if r.paid && row in b.payments {
      ReplayTouches(b, i, row);
    } else if r.paid {
      FreshIsRebooked(b, i, row, received);
      FreshTouches(b, i, row, received);
      RebookedLinks(FreshRows(b, i, row, received), v.enrollment);
      hide Fresh;
    }
  }

  lemma SettleKeepsTerms(b: Books, i: nat, r: Report)
    requires Linked(b) && i in b.invoices
    ensures SameTerms(b, Settle(b, i, r))
  {
    var v := b.invoices[i];
    SettleReads(b, i, r, (v.provider, if r.txn != "" then r.txn else v.reference),
                if r.amount.Some? then r.amount.value else v.amount);
    hide Settle, Linked, Confirms;
  }

  lemma RebookedLinks(b: Books, e: Option<nat>)
    requires Linked(b) && (e.Some? ==> e.value in b.enrollments)
    ensures Linked(Rebooked(b, e))
  {
    hide Rolled;
    var after := Rebooked(b, e);
    forall i | i in after.invoices ensures InvoiceLinked(after, after.invoices[i]) {
      assert InvoiceLinked(b, b.invoices[i]);
    }
  }

  /** The same invoices, up to their status. */
  ghost predicate SameTerms(b: Books, after: Books) {
    && after.invoices.Keys == b.invoices.Keys
    && forall i :: i in b.invoices ==> after.invoices[i] == b.invoices[i].(status := after.invoices[i].status)
  }

  /** The rows that some reports pay into. */
  function ReportedRows(b: Books, acts: seq<Act>): set<Key> {
    set j | 0 <= j < |acts| && acts[j].Settlement? && acts[j].invoice in b.invoices && acts[j].report.paid
      :: (b.invoices[acts[j].invoice].provider,
          if acts[j].report.txn == "" then b.invoices[acts[j].invoice].reference else acts[j].report.txn)
  }

  /** A payment row is what one of the reports says. */
  ghost predicate Reported(b: Books, acts: seq<Act>, row: Key, p: Payment) {
    exists j :: 0 <= j < |acts| && ReportedBy(b, acts[j], row, p)
  }

  ghost predicate ReportedBy(b: Books, a: Act, row: Key, p: Payment) {
    && a.Settlement? && a.invoice in b.invoices && a.report.paid
    && RowOf(b.invoices[a.invoice], a.report, row) && AmountIs(b.invoices[a.invoice], a.report, p.amount)
    && p == Payment(a.invoice, p.amount, Received, 0.0)
  }

  lemma ReportedFirst(b: Books, acts: seq<Act>)
    requires acts != []
    ensures ReportedRows(b, acts) == ReportedRows(b, acts[..1]) + ReportedRows(b, acts[1..])
    ensures forall row, p :: ReportedBy(b, acts[0], row, p) || Reported(b, acts[1..], row, p) ==>
              Reported(b, acts, row, p)
  {
    hide ReportedBy;
  }

  lemma SameReports(b: Books, after: Books, acts: seq<Act>)
    requires SameTerms(b, after)
    ensures ReportedRows(after, acts) == ReportedRows(b, acts)
    ensures forall row, p :: Reported(after, acts, row, p) ==> Reported(b, acts, row, p)
  {
    assert forall j, row, p :: 0 <= j < |acts| && ReportedBy(after, acts[j], row, p) ==> ReportedBy(b, acts[j], row, p);
    hide ReportedBy;
  }

  lemma OneReported(b: Books, a: Act, row: Key)
    requires a.Settlement? && a.invoice in b.invoices && RowOf(b.invoices[a.invoice], a.report, row)
    ensures ReportedRows(b, [a]) == if a.report.paid then {row} else {}
  {
    if a.report.paid {
      assert [a][0] == a && row in ReportedRows(b, [a]);
    }
  }

  /** One report, in the terms of a run. */
  lemma SettleRecords(b: Books, a: Act)
    requires Linked(b) && a.Settlement?
    ensures Linked(Step(b, a)) && SameTerms(b, Step(b, a))
    ensures Step(b, a).payments.Keys == b.payments.Keys + ReportedRows(b, [a])
    ensures forall k :: k in b.payments ==> Step(b, a).payments[k] == b.payments[k]
    ensures forall k :: k in Step(b, a).payments && k !in b.payments ==> ReportedBy(b, a, k, Step(b, a).payments[k])
  {
    if a.invoice in b.invoices {
      var v, r := b.invoices[a.invoice], a.report;
      var row := (v.provider, if r.txn != "" then r.txn else v.reference);
      var received := if r.amount.Some? then r.amount.value else v.amount;
      SettleReads(b, a.invoice, r, row, received);
      SettleIsLinked(b, a.invoice, r);
      SettleKeepsTerms(b, a.invoice, r);
      hide Settle, Linked, SameTerms, Confirms;
      OneReported(b, a, row);
    } else {
      assert ReportedRows(b, [a]) == {};
    }
  }

  /** After any run of reports there is one payment for each transaction reported as paid, as
      one of the reports has it, besides those there were, which stay as they were. */
  lemma {:induction false} RunRecords(b: Books, acts: seq<Act>)
    requires Linked(b) && forall j :: 0 <= j < |acts| ==> acts[j].Settlement?
    ensures Run(b, acts).payments.Keys == b.payments.Keys + ReportedRows(b, acts)
    ensures forall k :: k in b.payments ==> Run(b, acts).payments[k] == b.payments[k]
    ensures forall k :: k in Run(b, acts).payments && k !in b.payments ==>
              Reported(b, acts, k, Run(b, acts).payments[k])
    decreases |acts|
  {
    hide Step, Linked, SameTerms, Reported, ReportedBy, ReportedRows;
    if acts == [] {
      NothingReported(b);
    } else {
      SettleRecords(b, acts[0]);
      var once := Step(b, acts[0]);
      RunRecords(once, acts[1..]);
      SameReports(b, once, acts[1..]);
      ReportedFirst(b, acts);
      assert acts[..1] == [acts[0]];
    }
  }

  lemma NothingReported(b: Books)
    ensures ReportedRows(b, []) == {}
  {
  }

  /** A new transaction of an invoice, named by its gateway. */
  lemma TransactionRecorded(b: Books, i: nat, r: Report) returns (after: Books)
    requires Linked(b) && i in b.invoices && r.paid && r.txn != "" && (b.invoices[i].provider, r.txn) !in b.payments
    ensures after == Step(b, Settlement(i, r)) && Linked(after) && i in after.invoices
    ensures after.invoices[i].provider == b.invoices[i].provider && after.invoices[i].amount == b.invoices[i].amount
    ensures var amount := if r.amount.Some? then r.amount.value else b.invoices[i].amount;
            after.payments == b.payments[(b.invoices[i].provider, r.txn) := Payment(i, amount, Received, 0.0)]
  {
    var v := b.invoices[i];
    SettleReads(b, i, r, (v.provider, r.txn), if r.amount.Some? then r.amount.value else v.amount);
    SettleIsLinked(b, i, r);
    hide Settle, Linked, Confirms;
    after := Settle(b, i, r);
  }

  lemma RunTwo(b: Books, one: Act, two: Act)
    requires Linked(b) && Linked(Step(b, one))
    ensures Run(b, [one, two]) == Step(Step(b, one), two)
  {
    hide Step, Linked;
    var acts := [one, two];
    assert acts[1..] == [two] && acts[1..][1..] == [];
    assert Run(Step(b, one), [two]) == Run(Step(Step(b, one), two), []);
  }

  lemma TwoRows(rows: map<Key, Payment>, k: Key, l: Key, p: Payment, q: Payment)
    requires k != l
    ensures var m := rows[k := p][l := q]; m.Keys == rows.Keys + {k, l} && m[k] == p && m[l] == q
  {
  }

  /** Two transactions of one invoice are two payments, the first one short or not. */
  lemma TwoTransactionsAreTwo(b: Books, i: nat, one: Report, two: Report)
    requires Linked(b) && i in b.invoices && one.paid && two.paid
    requires one.txn != "" && two.txn != "" && one.txn != two.txn
    requires (b.invoices[i].provider, one.txn) !in b.payments && (b.invoices[i].provider, two.txn) !in b.payments
    ensures var v, after := b.invoices[i], Run(b, [Settlement(i, one), Settlement(i, two)]);
            && after.payments.Keys == b.payments.Keys + {(v.provider, one.txn), (v.provider, two.txn)}
            && after.payments[(v.provider, one.txn)].amount == (if one.amount.Some? then one.amount.value else v.amount)
            && after.payments[(v.provider, two.txn)].amount == (if two.amount.Some? then two.amount.value else v.amount)
            && after.payments[(v.provider, one.txn)].invoice == after.payments[(v.provider, two.txn)].invoice == i
  {
    hide Step, Linked;
    var v := b.invoices[i];
    var once := TransactionRecorded(b, i, one);
    var twice := TransactionRecorded(once, i, two);
    RunTwo(b, Settlement(i, one), Settlement(i, two));
    hide Run;
    TwoRows(b.payments, (v.provider, one.txn), (v.provider, two.txn), once.payments[(v.provider, one.txn)],
            twice.payments[(v.provider, two.txn)]);
  }

  lemma KeysAreRows(b: Books, acts: seq<Act>)
    ensures KeysOf(b, acts) == ReportedRows(b, acts)
  {
    forall j | 0 <= j < |acts| && acts[j].Settlement? && acts[j].invoice in b.invoices
      ensures RowOf(b.invoices[acts[j].invoice], acts[j].report, KeyOf(b.invoices[acts[j].invoice], acts[j].report)) {
    }
  }

  /** Reports of the same facts that pay into the same rows, in whatever order and number, leave
      the same books, with one payment for each row. */
  lemma ReportsConverge(b: Books, facts: Facts, one: seq<Act>, two: seq<Act>)
    requires Linked(b) && Fits(b, facts) && AllTell(b, facts, one) && AllTell(b, facts, two)
    requires ReportedRows(b, one) == ReportedRows(b, two)
    ensures Run(b, one) == Run(b, two) && Run(b, one).payments.Keys == b.payments.Keys + ReportedRows(b, one)
  {
    KeysAreRows(b, one);
    KeysAreRows(b, two);
    SettlementIsConfluent(b, facts, one, two);
  }
}
