/** Settlement is confluent (app/services/payments/settlement.py): gateways repeat their
    callbacks and deliver them in any order, and the books come out the same. */
module Confluence {
  import opened Wrappers
  import opened Books
  import opened BooksProof

  /** What is true of a transaction, whoever reports it and however often. */
  datatype Fact = Fact(invoice: nat, amount: real)

  type Facts = map<Key, Fact>

  /** A gateway's transaction belongs to one invoice, and its amount is the recorded one. */
  ghost predicate Fits(b: Books, facts: Facts) {
    forall k :: k in facts ==>
      && facts[k].invoice in b.invoices
      && (k in b.payments ==> b.payments[k].amount == facts[k].amount)
  }

  /** The report tells a fact, or that nothing was paid. */
  predicate Tells(b: Books, facts: Facts, i: nat, r: Report) {
    && i in b.invoices
    && (r.paid ==>
          && KeyOf(b.invoices[i], r) in facts
          && facts[KeyOf(b.invoices[i], r)] == Fact(i, ReceivedOf(b.invoices[i], r)))
  }

  predicate Enough(b: Books, f: Fact) {
    f.invoice in b.invoices && !Short(b.invoices[f.invoice], f.amount)
  }

  ghost predicate PaidBy(b: Books, facts: Facts, keys: set<Key>, i: nat) {
    exists k :: k in keys && k in facts && facts[k].invoice == i && Enough(b, facts[k])
  }

  ghost predicate ClearedBy(b: Books, facts: Facts, keys: set<Key>, t: nat) {
    exists k :: k in keys && k in facts && k !in b.payments && Enough(b, facts[k])
                && b.invoices[facts[k].invoice].installment == Some(t)
  }

  ghost predicate BookedBy(b: Books, facts: Facts, keys: set<Key>, e: nat) {
    exists k :: k in keys && k in facts && k !in b.payments && facts[k].invoice in b.invoices
                && b.invoices[facts[k].invoice].enrollment == Some(e)
  }

  function RecordedPayments(b: Books, facts: Facts, keys: set<Key>): map<Key, Payment>
    requires keys <= facts.Keys
  {
    map k | k in b.payments.Keys + keys
      :: if k in b.payments then b.payments[k] else Payment(facts[k].invoice, facts[k].amount, Received, 0.0)
  }

  ghost function PaidInvoices(b: Books, facts: Facts, keys: set<Key>): map<nat, Invoice> {
    map i | i in b.invoices :: if PaidBy(b, facts, keys, i) then b.invoices[i].(status := Paid) else b.invoices[i]
  }

  ghost function ClearedInstallments(b: Books, facts: Facts, keys: set<Key>): map<nat, Installment> {
    map t | t in b.installments
      :: if ClearedBy(b, facts, keys, t) then b.installments[t].(status := Settled) else b.installments[t]
  }

  /** The source rows once the transactions `keys` have been told, in no particular order. */
  ghost function Sources(b: Books, facts: Facts, keys: set<Key>): Books
    requires keys <= facts.Keys
  {
    b.(payments := RecordedPayments(b, facts, keys), invoices := PaidInvoices(b, facts, keys),
       installments := ClearedInstallments(b, facts, keys))
  }

  /** And the ledger rows of the enrollments they are for. */
  ghost function Told(b: Books, facts: Facts, keys: set<Key>): Books
    requires keys <= facts.Keys && Linked(b)
  {
    var s := Sources(b, facts, keys);
    s.(ledgers := map e | e in b.enrollments && (e in b.ledgers || BookedBy(b, facts, keys, e))
                    :: if BookedBy(b, facts, keys, e) then Rolled(s, e) else b.ledgers[e])
  }

  // ------------------------------------------------------- nothing told so far

  lemma NoneYet(b: Books, facts: Facts, x: nat)
    ensures !PaidBy(b, facts, {}, x) && !ClearedBy(b, facts, {}, x) && !BookedBy(b, facts, {}, x)
  {
  }

  lemma NothingTold(b: Books, facts: Facts)
    requires Linked(b)
    ensures Told(b, facts, {}) == b
  {
    hide PaidBy, ClearedBy, BookedBy, Rolled, Linked;
    assert b.ledgers.Keys <= b.enrollments.Keys by { LedgersLinked(b); }
    forall x: nat ensures !PaidBy(b, facts, {}, x) && !ClearedBy(b, facts, {}, x) && !BookedBy(b, facts, {}, x) {
      NoneYet(b, facts, x);
    }
    assert RecordedPayments(b, facts, {}) == b.payments;
    assert PaidInvoices(b, facts, {}) == b.invoices;
    assert ClearedInstallments(b, facts, {}) == b.installments;
    assert Told(b, facts, {}).ledgers == b.ledgers;
  }

  lemma LedgersLinked(b: Books)
    requires Linked(b)
    ensures b.ledgers.Keys <= b.enrollments.Keys
  {
  }

  // --------------------------------------------------------- one more told fact

  lemma OneMorePaid(b: Books, facts: Facts, keys: set<Key>, k: Key, i: nat)
    requires k in facts
    ensures PaidBy(b, facts, keys + {k}, i)
            == (PaidBy(b, facts, keys, i) || (facts[k].invoice == i && Enough(b, facts[k])))
  {
  }

  lemma OneMoreCleared(b: Books, facts: Facts, keys: set<Key>, k: Key, t: nat)
    requires k in facts
    ensures ClearedBy(b, facts, keys + {k}, t)
         == (ClearedBy(b, facts, keys, t)
             || (k !in b.payments && Enough(b, facts[k]) && b.invoices[facts[k].invoice].installment == Some(t)))
  {
  }

  lemma OneMoreBooked(b: Books, facts: Facts, keys: set<Key>, k: Key, e: nat)
    requires k in facts && facts[k].invoice in b.invoices
    ensures BookedBy(b, facts, keys + {k}, e)
         == (BookedBy(b, facts, keys, e) || (k !in b.payments && b.invoices[facts[k].invoice].enrollment == Some(e)))
  {
  }

  lemma MorePayments(b: Books, facts: Facts, keys: set<Key>, k: Key)
    requires keys <= facts.Keys && k in facts
    ensures RecordedPayments(b, facts, keys + {k})
         == if k in keys || k in b.payments then RecordedPayments(b, facts, keys)
            else RecordedPayments(b, facts, keys)[k := Payment(facts[k].invoice, facts[k].amount, Received, 0.0)]
  {
  }

  lemma MoreInvoices(b: Books, facts: Facts, keys: set<Key>, k: Key)
    requires Fits(b, facts) && k in facts
    ensures var i, m := facts[k].invoice, PaidInvoices(b, facts, keys);
            PaidInvoices(b, facts, keys + {k}) == if Enough(b, facts[k]) then m[i := m[i].(status := Paid)] else m
  {
    hide PaidBy, Enough;
    var n := PaidInvoices(b, facts, keys + {k});
    forall i | i in b.invoices
      ensures n[i] == if i == facts[k].invoice && Enough(b, facts[k])
                      then PaidInvoices(b, facts, keys)[i].(status := Paid)
                      else PaidInvoices(b, facts, keys)[i]
    {
      OneMorePaid(b, facts, keys, k, i);
    }
  }

  lemma MoreInstallments(b: Books, facts: Facts, keys: set<Key>, k: Key)
    requires Linked(b) && Fits(b, facts) && k in facts
    ensures var m, t := ClearedInstallments(b, facts, keys), b.invoices[facts[k].invoice].installment;
            && (t.Some? ==> t.value in m)
            && ClearedInstallments(b, facts, keys + {k})
               == if k !in keys && k !in b.payments && Enough(b, facts[k]) && t.Some?
                  then m[t.value := m[t.value].(status := Settled)] else m
  {
    hide ClearedBy, Enough;
    var u := b.invoices[facts[k].invoice].installment;
    assert InvoiceLinked(b, b.invoices[facts[k].invoice]);
    var m, n := ClearedInstallments(b, facts, keys), ClearedInstallments(b, facts, keys + {k});
    forall t | t in b.installments
      ensures n[t] == if u == Some(t) && k !in keys && k !in b.payments && Enough(b, facts[k])
                      then m[t].(status := Settled) else m[t]
    {
      OneMoreCleared(b, facts, keys, k, t);
      if k in keys { AlreadyCleared(b, facts, keys, k, t); }
    }
  }

  lemma AlreadyCleared(b: Books, facts: Facts, keys: set<Key>, k: Key, t: nat)
    requires k in facts && k in keys
    ensures k !in b.payments && Enough(b, facts[k]) && b.invoices[facts[k].invoice].installment == Some(t) ==>
              ClearedBy(b, facts, keys, t)
  {
  }

  /** Settling changes nothing about an invoice but its status. */
  lemma SameInvoice(b: Books, facts: Facts, keys: set<Key>, i: nat)
    requires i in b.invoices
    ensures i in PaidInvoices(b, facts, keys)
    ensures b.invoices[i] == PaidInvoices(b, facts, keys)[i].(status := b.invoices[i].status)
  {
  }

  /** A fresh fact told after `keys`: the rows are those for one key more. */
  lemma FreshSources(b: Books, facts: Facts, keys: set<Key>, k: Key)
    requires Linked(b) && Fits(b, facts) && keys <= facts.Keys && k in facts && k !in keys && k !in b.payments
    ensures var f := facts[k];
            var s := Told(b, facts, keys);
            f.invoice in s.invoices
            && FreshRows(s, f.invoice, k, f.amount) == Sources(b, facts, keys + {k}).(ledgers := s.ledgers)
  {
    var f := facts[k];
    assert f.invoice in b.invoices;
    SameInvoice(b, facts, keys, f.invoice);
    MorePayments(b, facts, keys, k);
    MoreInvoices(b, facts, keys, k);
    MoreInstallments(b, facts, keys, k);
    hide RecordedPayments, PaidInvoices, ClearedInstallments, Rolled, Linked, Fits;
    var s := Told(b, facts, keys);
    assert Short(s.invoices[f.invoice], f.amount) == !Enough(b, f);
  }

  /** A fact whose payment is there already: the rows are those for one key more. */
  lemma ReplaySources(b: Books, facts: Facts, keys: set<Key>, k: Key)
    requires Linked(b) && Fits(b, facts) && keys <= facts.Keys && k in facts && (k in keys || k in b.payments)
    ensures var f := facts[k];
            var s := Told(b, facts, keys);
            f.invoice in s.invoices && k in s.payments
            && Replay(s, f.invoice, k) == Sources(b, facts, keys + {k}).(ledgers := s.ledgers)
  {
    var f := facts[k];
    assert f.invoice in b.invoices;
    var recorded := RecordedPayments(b, facts, keys);
    assert k in recorded && recorded[k].amount == f.amount;
    SameInvoice(b, facts, keys, f.invoice);
    MorePayments(b, facts, keys, k);
    MoreInvoices(b, facts, keys, k);
    MoreInstallments(b, facts, keys, k);
    hide RecordedPayments, PaidInvoices, ClearedInstallments, Rolled, Linked, Fits;
    var s := Told(b, facts, keys);
    assert Short(s.invoices[f.invoice], f.amount) == !Enough(b, f);
  }

  // ------------------------------------------------------------- ledger rows

  lemma RolledIgnoresLedgers(b: Books, ledgers: map<nat, Ledger>, e: nat)
    requires e in b.enrollments
    ensures Rolled(b.(ledgers := ledgers), e) == Rolled(b, e)
  {
    var b' := b.(ledgers := ledgers);
    assert CountedPayments(b, e) == CountedPayments(b', e);
    assert OwedParts(b, e) == OwedParts(b', e) && OpenDates(b, e) == OpenDates(b', e) && PlanOf(b, e) == PlanOf(b', e);
  }

  /** Rows of other enrollments stay as they were when one more fact is told. */
  lemma OthersKept(b: Books, facts: Facts, keys: set<Key>, k: Key, s: Books, e: nat)
    requires keys <= facts.Keys && keys + {k} <= facts.Keys && facts[k].invoice in b.invoices && e in b.enrollments
    requires k in keys || k in b.payments || b.invoices[facts[k].invoice].enrollment != Some(e)
    requires e in s.ledgers
    requires Linked(b) && s == Told(b, facts, keys) && Fits(b, facts) && Linked(s)
    ensures Rolled(Sources(b, facts, keys + {k}), e) == Rolled(Sources(b, facts, keys), e)
  {
    hide Rolled, RecordedPayments, PaidInvoices, ClearedInstallments, SameSources, BookedBy;
    var f := facts[k];
    var before, after := Sources(b, facts, keys), Sources(b, facts, keys + {k});
    RolledIgnoresLedgers(before, s.ledgers, e);
    RolledIgnoresLedgers(after, s.ledgers, e);
    var rows := after.(ledgers := s.ledgers);
    if k in keys || k in b.payments {
      ReplaySources(b, facts, keys, k);
      ReplayTouches(s, f.invoice, k);
    } else {
      SameInvoice(b, facts, keys, f.invoice);
      FreshSources(b, facts, keys, k);
      NotRecorded(b, facts, keys, k);
      FreshTouches(s, f.invoice, k, f.amount);
    }
    assert SameSources(s, rows, e);
    SameRow(s, rows, e);
  }

  lemma NotRecorded(b: Books, facts: Facts, keys: set<Key>, k: Key)
    requires keys <= facts.Keys && k !in keys && k !in b.payments
    ensures k !in RecordedPayments(b, facts, keys)
  {
  }

  lemma ReplayTouches(b: Books, i: nat, k: Key)
    requires Linked(b) && i in b.invoices && k in b.payments
    ensures Linked(Replay(b, i, k)) && OnlyTouches(b, Replay(b, i, k), None)
  {
    hide OnlyTouches;
    MarkInvoiceTouchesNone(b, i);
    Untouched(b, None);
  }

  lemma FreshTouches(b: Books, i: nat, k: Key, received: real)
    requires Linked(b) && i in b.invoices && k !in b.payments
    ensures Linked(FreshRows(b, i, k, received))
            && OnlyTouches(b, FreshRows(b, i, k, received), b.invoices[i].enrollment)
  {
    hide OnlyTouches, Linked;
    var v := b.invoices[i];
    var paid := AddPayment(b, k, i, received);
    var marked := MarkInvoice(paid, i);
    InvoiceLinks(b, i);
    AddPaymentTouchesOne(b, k, i, received);
    MarkInvoiceTouchesNone(paid, i);
    MarkInstallmentTouchesOne(marked, v.installment, v.enrollment);
    TouchesBoth(b, paid, marked, v.enrollment);
    TouchesBoth(b, marked, MarkInstallment(marked, v.installment), v.enrollment);
  }

  lemma ToldLinked(b: Books, facts: Facts, keys: set<Key>)
    requires Linked(b) && Fits(b, facts) && keys <= facts.Keys
    ensures Linked(Told(b, facts, keys))
  {
    hide PaidBy, ClearedBy, BookedBy, Rolled;
    var s := Told(b, facts, keys);
    forall i | i in s.invoices ensures InvoiceLinked(s, s.invoices[i]) {
      SameInvoice(b, facts, keys, i);
      assert InvoiceLinked(b, b.invoices[i]);
      assert forall t :: t in b.installments ==>
             t in s.installments && s.installments[t].enrollment == b.installments[t].enrollment;
    }
    forall k | k in s.payments ensures s.payments[k].invoice in s.invoices {
      if k !in b.payments { assert facts[k].invoice in b.invoices; }
    }
  }

  /** Telling one fact, known or not. */
  ghost function Tell(b: Books, facts: Facts, k: Key): Books
    requires Linked(b) && k in facts && facts[k].invoice in b.invoices
  {
    if k in b.payments then Replay(b, facts[k].invoice, k) else Fresh(b, facts[k].invoice, k, facts[k].amount)
  }

  lemma ToldRows(b: Books, facts: Facts, keys: set<Key>, k: Key, rows: Books)
    requires Linked(b) && Fits(b, facts) && keys <= facts.Keys && k in facts && facts[k].invoice in b.invoices
    requires Linked(Told(b, facts, keys))
    requires rows == Sources(b, facts, keys + {k}).(ledgers := Told(b, facts, keys).ledgers)
    ensures (k in keys || k in b.payments) ==> rows == Told(b, facts, keys + {k})
    ensures k !in keys && k !in b.payments ==>
              var e := b.invoices[facts[k].invoice].enrollment;
              (e.Some? ==> e.value in b.enrollments) && Rebooked(rows, e) == Told(b, facts, keys + {k})
  {
    InvoiceLinks(b, facts[k].invoice);
    hide Rolled, Told, Sources, Linked, Fits;
    SourcesAre(b, facts, keys + {k});
    ToldLedgers(b, facts, keys, k, rows);
  }

  lemma ToldLedgers(b: Books, facts: Facts, keys: set<Key>, k: Key, rows: Books)
    requires Linked(b) && Fits(b, facts) && keys <= facts.Keys && k in facts && facts[k].invoice in b.invoices
    requires Linked(Told(b, facts, keys))
    requires rows == Sources(b, facts, keys + {k}).(ledgers := Told(b, facts, keys).ledgers)
    ensures var s, t, e := Told(b, facts, keys).ledgers, Told(b, facts, keys + {k}).ledgers,
            b.invoices[facts[k].invoice].enrollment;
            if k in keys || k in b.payments || e.None? then t == s
            else e.value in rows.enrollments && t == s[e.value := Rolled(rows, e.value)]
  {
    InvoiceLinks(b, facts[k].invoice);
    hide Rolled, Told, Sources, Linked, Fits;
    SourcesAre(b, facts, keys);
    SourcesAre(b, facts, keys + {k});
    var s, t := Told(b, facts, keys).ledgers, Told(b, facts, keys + {k}).ledgers;
    var e0 := b.invoices[facts[k].invoice].enrollment;
    hide RowMoves;
    if k in keys || k in b.payments || e0.None? {
      forall e | e in b.enrollments ensures RowMoves(s, t, e, None) {
        LedgerRow(b, facts, keys, k, e, rows);
      }
      RowsMoved(s, t, b.enrollments.Keys, None, Ledger(0.0, 0.0, 0.0, None));
    } else {
      forall e | e in b.enrollments ensures RowMoves(s, t, e, if e == e0.value then Some(Rolled(rows, e)) else None) {
        LedgerRow(b, facts, keys, k, e, rows);
      }
      RowsMoved(s, t, b.enrollments.Keys, e0, Rolled(rows, e0.value));
    }
  }

  /** A row is written anew, or stays as it was. */
  predicate RowMoves(s: map<nat, Ledger>, t: map<nat, Ledger>, e: nat, row: Option<Ledger>) {
    && (e in t <==> e in s || row.Some?)
    && (e in t ==> t[e] == if row.Some? then row.value else if e in s then s[e] else t[e])
  }

  lemma RowsMoved(s: map<nat, Ledger>, t: map<nat, Ledger>, all: set<nat>, e0: Option<nat>, row: Ledger)
    requires s.Keys <= all && t.Keys <= all && (e0.Some? ==> e0.value in all)
    requires forall e :: e in all ==> RowMoves(s, t, e, if e0 == Some(e) then Some(row) else None)
    ensures t == if e0.Some? then s[e0.value := row] else s
  {
  }

  lemma SourcesAre(b: Books, facts: Facts, keys: set<Key>)
    requires keys <= facts.Keys && Linked(b)
    ensures Sources(b, facts, keys).enrollments == b.enrollments
    ensures Told(b, facts, keys) == Sources(b, facts, keys).(ledgers := Told(b, facts, keys).ledgers)
    ensures Told(b, facts, keys).ledgers.Keys <= b.enrollments.Keys
  {
  }

  lemma LedgerRow(b: Books, facts: Facts, keys: set<Key>, k: Key, e: nat, rows: Books)
    requires Linked(b) && Fits(b, facts) && keys <= facts.Keys && k in facts && facts[k].invoice in b.invoices
             && e in b.enrollments
    requires Linked(Told(b, facts, keys))
    requires rows == Sources(b, facts, keys + {k}).(ledgers := Told(b, facts, keys).ledgers)
    ensures var anew := k !in keys && k !in b.payments && b.invoices[facts[k].invoice].enrollment == Some(e);
            RowMoves(Told(b, facts, keys).ledgers, Told(b, facts, keys + {k}).ledgers, e,
                     if anew then Some(Rolled(rows, e)) else None)
  {
    hide Rolled, BookedBy, Linked, Fits, RecordedPayments, PaidInvoices, ClearedInstallments;
    var s := Told(b, facts, keys);
    var more := Sources(b, facts, keys + {k});
    OneMoreBooked(b, facts, keys, k, e);
    RolledIgnoresLedgers(more, s.ledgers, e);
    if k in keys { AlreadyBooked(b, facts, keys, k, e); }
    if e in s.ledgers && (k in keys || k in b.payments || b.invoices[facts[k].invoice].enrollment != Some(e)) {
      OthersKept(b, facts, keys, k, s, e);
    }
  }

  lemma AlreadyBooked(b: Books, facts: Facts, keys: set<Key>, k: Key, e: nat)
    requires k in facts && k in keys && facts[k].invoice in b.invoices
    ensures k !in b.payments && b.invoices[facts[k].invoice].enrollment == Some(e) ==> BookedBy(b, facts, keys, e)
  {
  }

  lemma TellOne(b: Books, facts: Facts, keys: set<Key>, k: Key)
    requires Linked(b) && Fits(b, facts) && keys <= facts.Keys && k in facts
    ensures var s := Told(b, facts, keys);
            Linked(s) && facts[k].invoice in s.invoices && Tell(s, facts, k) == Told(b, facts, keys + {k})
  {
    hide Rolled, BookedBy, RecordedPayments, PaidInvoices, ClearedInstallments, Linked;
    var s, f := Told(b, facts, keys), facts[k];
    ToldLinked(b, facts, keys);
    SameInvoice(b, facts, keys, f.invoice);
    if k in keys || k in b.payments {
      ReplaySources(b, facts, keys, k);
      ToldRows(b, facts, keys, k, Replay(s, f.invoice, k));
    } else {
      NotRecorded(b, facts, keys, k);
      FreshSources(b, facts, keys, k);
      FreshIsRebooked(s, f.invoice, k, f.amount);
      ToldRows(b, facts, keys, k, FreshRows(s, f.invoice, k, f.amount));
    }
  }

  // --------------------------------------------------------------- whole runs

  ghost predicate AllTell(b: Books, facts: Facts, acts: seq<Act>) {
    forall j :: 0 <= j < |acts| ==> acts[j].Settlement? && Tells(b, facts, acts[j].invoice, acts[j].report)
  }

  /** The transactions some reports say were paid. */
  function KeysOf(b: Books, acts: seq<Act>): set<Key> {
    set j | 0 <= j < |acts| && acts[j].Settlement? && acts[j].invoice in b.invoices && acts[j].report.paid
      :: KeyOf(b.invoices[acts[j].invoice], acts[j].report)
  }

  lemma KeysFirst(b: Books, acts: seq<Act>)
    requires acts != [] && acts[0].Settlement? && acts[0].invoice in b.invoices
    ensures KeysOf(b, acts)
         == (if acts[0].report.paid then {KeyOf(b.invoices[acts[0].invoice], acts[0].report)} else {})
             + KeysOf(b, acts[1..])
  {
  }

  lemma StepTells(b: Books, facts: Facts, keys: set<Key>, i: nat, r: Report)
    requires Linked(b) && Fits(b, facts) && keys <= facts.Keys && Tells(b, facts, i, r)
    requires Linked(Told(b, facts, keys))
    ensures var s, k := Told(b, facts, keys), KeyOf(b.invoices[i], r);
            && i in s.invoices
            && Settle(s, i, r) == if r.paid then Tell(s, facts, k) else s
  {
    hide Rolled, Linked, RecordedPayments, PaidInvoices, ClearedInstallments, BookedBy, Fits, Fresh;
    SameInvoice(b, facts, keys, i);
  }

  /** Any reports of the same facts, in any order and number, lead from what was told to
      what they tell besides. */
  lemma {:induction false} RunTells(b: Books, facts: Facts, keys: set<Key>, acts: seq<Act>)
    requires Linked(b) && Fits(b, facts) && keys <= facts.Keys && AllTell(b, facts, acts)
    ensures KeysOf(b, acts) <= facts.Keys
    ensures Run(Told(b, facts, keys), acts) == Told(b, facts, keys + KeysOf(b, acts))
    decreases |acts|
  {
    hide Told, Linked, Fits, Settle;
    if acts == [] {
      assert keys + KeysOf(b, acts) == keys;
    } else {
      var i, r := acts[0].invoice, acts[0].report;
      var k := KeyOf(b.invoices[i], r);
      ToldLinked(b, facts, keys);
      StepTells(b, facts, keys, i, r);
      KeysFirst(b, acts);
      var more := if r.paid then keys + {k} else keys;
      if r.paid { TellOne(b, facts, keys, k); }
      assert Step(Told(b, facts, keys), acts[0]) == Told(b, facts, more);
      RunTells(b, facts, more, acts[1..]);
      assert more + KeysOf(b, acts[1..]) == keys + KeysOf(b, acts);
    }
  }

  /** Confluence: two runs that report the same transactions as paid, each any number of
      times and in any order, leave the same payments, invoices, installments and ledger
      rows; and there is one payment for each distinct transaction. */
  lemma SettlementIsConfluent(b: Books, facts: Facts, one: seq<Act>, two: seq<Act>)
    requires Linked(b) && Fits(b, facts) && AllTell(b, facts, one) && AllTell(b, facts, two)
    requires KeysOf(b, one) == KeysOf(b, two)
    ensures Run(b, one) == Run(b, two)
    ensures Run(b, one).payments.Keys == b.payments.Keys + KeysOf(b, one)
  {
    hide Told, Linked, Fits, AllTell, KeysOf, Run;
    NothingTold(b, facts);
    RunTells(b, facts, {}, one);
    RunTells(b, facts, {}, two);
    assert {} + KeysOf(b, one) == KeysOf(b, one);
    ToldPayments(b, facts, KeysOf(b, one));
  }

  lemma ToldPayments(b: Books, facts: Facts, keys: set<Key>)
    requires keys <= facts.Keys && Linked(b)
    ensures Told(b, facts, keys).payments.Keys == b.payments.Keys + keys
  {
    hide Rolled, PaidBy, ClearedBy, BookedBy;
  }

  // ------------------------------------------- one transaction for two invoices

  ghost predicate CoveredBy(b: Books, i: nat, k: Key) {
    i in b.invoices && k in b.payments && b.payments[k].invoice == i && !Short(b.invoices[i], b.payments[k].amount)
  }

  /** A payment on the invoice itself reaches its amount. */
  ghost predicate Covered(b: Books, i: nat) {
    exists k :: CoveredBy(b, i, k)
  }

  ghost predicate PaidIsCovered(b: Books) {
    forall i :: i in b.invoices && b.invoices[i].status == Paid ==> Covered(b, i)
  }

  /** The replay branch never looks at whose payment it found. */
  predicate TakesOthersMoney(b: Books, i: nat, r: Report)
    requires i in b.invoices
  {
    var k := KeyOf(b.invoices[i], r);
    r.paid && k in b.payments && b.payments[k].invoice != i && !Short(b.invoices[i], b.payments[k].amount)
  }

  /** Settling keeps every paid invoice covered by its own money exactly unless it replays
      another invoice's transaction on one that is not covered. */
  lemma SettleKeepsCovered(b: Books, i: nat, r: Report)
    requires Linked(b) && PaidIsCovered(b) && i in b.invoices
    ensures PaidIsCovered(Settle(b, i, r)) <==> !(TakesOthersMoney(b, i, r) && !Covered(b, i))
  {
    hide Rolled, Linked;
    var b', k := Settle(b, i, r), KeyOf(b.invoices[i], r);
    SettledRows(b, i, r);
    forall x, y | CoveredBy(b, x, y) ensures CoveredBy(b', x, y) {
    }
    if r.paid && k !in b.payments {
      CoversItself(b, i, r);
    } else {
      forall x, y | CoveredBy(b', x, y) ensures CoveredBy(b, x, y) {
      }
    }
    assert Covered(b, i) ==> Covered(b', i);
    if TakesOthersMoney(b, i, r) {
      assert b'.invoices[i].status == Paid;
    } else if r.paid && k in b.payments && !Short(b.invoices[i], b.payments[k].amount) {
      assert CoveredBy(b, i, k);
    }
  }

  /** What settling does to invoices and payments. */
  lemma SettledRows(b: Books, i: nat, r: Report)
    requires Linked(b) && i in b.invoices
    ensures var b', k := Settle(b, i, r), KeyOf(b.invoices[i], r);
            && b'.invoices
                == (if Confirms(b, i, r) then b.invoices[i := b.invoices[i].(status := Paid)] else b.invoices)
            && b'.payments == (if r.paid && k !in b.payments
                               then b.payments[k := Payment(i, ReceivedOf(b.invoices[i], r), Received, 0.0)]
                               else b.payments)
  {
    InvoiceLinks(b, i);
    hide Rolled, Linked, KeyOf;
    var k := KeyOf(b.invoices[i], r);
    if r.paid && k !in b.payments {
      FreshIsRebooked(b, i, k, ReceivedOf(b.invoices[i], r));
      hide Fresh;
    }
  }

  lemma CoversItself(b: Books, i: nat, r: Report)
    requires Linked(b) && i in b.invoices && r.paid && KeyOf(b.invoices[i], r) !in b.payments
    ensures var b', k := Settle(b, i, r), KeyOf(b.invoices[i], r);
            Confirms(b, i, r) ==> CoveredBy(b', i, k)
  {
    hide Rolled, Linked;
    SettledRows(b, i, r);
  }
}
