/** The books of the payment service (app/services/payments): invoices, the payments settled
    against them, installments and the ledger row each enrollment's debt is rolled up into.
    Tables are maps from ids, amounts are reals, one function per operation. */
module Books {
  import opened Wrappers
  import opened Plans

  datatype InvoiceStatus = Pending | Paid | Cancelled | Expired | Failed

  datatype Invoice = Invoice(provider: string, reference: string, amount: real, enrollment: Option<nat>,
                             installment: Option<nat>, status: InvoiceStatus)

  datatype PaymentStatus = Received | PartlyRefunded | Refunded

  datatype Payment = Payment(invoice: nat, amount: real, status: PaymentStatus, refunded: real)

  datatype InstallmentStatus = Scheduled | Overdue | Settled | Waived

  datatype Installment = Installment(enrollment: nat, due: Option<Date>, amount: real, status: InstallmentStatus)

  datatype Enrollment = Enrollment(price: Option<real>, course: Option<nat>, start: Option<Date>)

  datatype Course = Course(price: real, count: int, every: int)

  datatype Ledger = Ledger(due: real, paid: real, balance: real, next: Option<Date>)

  /** Payments are unique on the provider and its transaction id. */
  type Key = (string, string)

  datatype Books = Books(invoices: map<nat, Invoice>, payments: map<Key, Payment>, installments: map<nat, Installment>,
                         enrollments: map<nat, Enrollment>, courses: map<nat, Course>, ledgers: map<nat, Ledger>,
                         nextId: nat)

  /** Foreign keys hold, and an invoice for an installment is for that enrollment's own
      (app/services/payments/invoices.py:104-121, plans.py:136-141). */
  ghost predicate Linked(b: Books) {
    && (forall k :: k in b.payments ==> b.payments[k].invoice in b.invoices)
    && (forall i :: i in b.invoices ==> InvoiceLinked(b, b.invoices[i]))
    && (forall t :: t in b.installments ==> t < b.nextId && b.installments[t].enrollment in b.enrollments)
    && (forall e :: e in b.enrollments && b.enrollments[e].course.Some? ==> b.enrollments[e].course.value in b.courses)
    && b.ledgers.Keys <= b.enrollments.Keys
  }

  ghost predicate InvoiceLinked(b: Books, v: Invoice) {
    && (v.enrollment.Some? ==> v.enrollment.value in b.enrollments)
    && (v.installment.Some? ==>
          && v.installment.value in b.installments
          && v.enrollment == Some(b.installments[v.installment.value].enrollment))
  }

  // ------------------------------------------------------------------ amounts

  /** Quantizing to 0.01, halves to even. */
  function Cents(x: real): real {
    var n := (x * 100.0).Floor;
    var rest := x * 100.0 - n as real;
    (if rest < 0.5 || (rest == 0.5 && n % 2 == 0) then n else n + 1) as real / 100.0
  }

  function ToAmount(x: real): Result<real> {
    if x <= 0.0 then Err(400, "amount_must_be_positive") else Ok(Cents(x))
  }

  // ------------------------------------------------------------------- ledger

  ghost function Sum<K>(m: map<K, real>): real {
    if m == map[] then 0.0 else var k :| k in m; m[k] + Sum(m - {k})
  }

  function Price(b: Books, e: nat): real
    requires e in b.enrollments
  {
    var enr := b.enrollments[e];
    if enr.price.Some? then enr.price.value
    else if enr.course.Some? && enr.course.value in b.courses then b.courses[enr.course.value].price
    else 0.0
  }

  predicate Paying(b: Books, k: Key, e: nat)
    requires k in b.payments
  {
    var i := b.payments[k].invoice;
    i in b.invoices && b.invoices[i].enrollment == Some(e)
  }

  function Net(p: Payment): real {
    p.amount - p.refunded
  }

  /** What the ledger's query adds up: payments that are not fully refunded, net. */
  function CountedPayments(b: Books, e: nat): map<Key, real> {
    map k | k in b.payments && Paying(b, k, e) && b.payments[k].status != Refunded :: Net(b.payments[k])
  }

  function PlanOf(b: Books, e: nat): set<nat> {
    set t | t in b.installments && b.installments[t].enrollment == e
  }

  function OwedParts(b: Books, e: nat): map<nat, real> {
    map t | t in b.installments && b.installments[t].enrollment == e && b.installments[t].status != Waived
      :: b.installments[t].amount
  }

  /** Neither paid nor waived, and with a due date. */
  predicate Awaited(p: Installment) {
    (p.status == Scheduled || p.status == Overdue) && p.due.Some?
  }

  function OpenDates(b: Books, e: nat): set<Date> {
    set t | t in b.installments && b.installments[t].enrollment == e && Awaited(b.installments[t])
      :: b.installments[t].due.value
  }

  /** The first of the dates. */
  ghost function Earliest(dates: set<Date>): (r: Option<Date>)
    ensures r.None? <==> dates == {}
    ensures r.Some? ==> r.value in dates && forall d :: d in dates ==> !Before(d, r.value)
  {
    if dates == {} then None
    else
      var d :| d in dates;
      var r := Earliest(dates - {d});
      EarliestOf(dates, d, if r.Some? then r.value else d)
  }

  ghost function EarliestOf(dates: set<Date>, d: Date, r: Date): (s: Option<Date>)
    requires d in dates && r in dates && forall x :: x in dates - {d} ==> !Before(x, r)
    ensures s.Some? && s.value in dates && forall x :: x in dates ==> !Before(x, s.value)
  {
    forall x | x in dates ensures !Before(x, if Before(d, r) then d else r) {
      BeforeIsTotal(d, r);
      BeforeIsTotal(x, d);
      BeforeIsTransitive(d, r, x);
    }
    Some(if Before(d, r) then d else r)
  }

  /** The row recompute_ledger writes. */
  ghost function Rolled(b: Books, e: nat): Ledger
    requires e in b.enrollments
  {
    var due := if PlanOf(b, e) == {} then Price(b, e) else Sum(OwedParts(b, e));
    var paid := Sum(CountedPayments(b, e));
    Ledger(due, paid, due - paid, if PlanOf(b, e) == {} then None else Earliest(OpenDates(b, e)))
  }

  ghost function Recomputed(b: Books, e: nat): Books
    requires e in b.enrollments
  {
    b.(ledgers := b.ledgers[e := Rolled(b, e)])
  }

  ghost function Rebooked(b: Books, e: Option<nat>): Books
    requires e.Some? ==> e.value in b.enrollments
  {
    if e.Some? then Recomputed(b, e.value) else b
  }

  // --------------------------------------------------------------- settlement

  /** What a gateway reports: an empty transaction id and a missing amount stand for the
      invoice's own reference and amount. */
  datatype Report = Report(paid: bool, txn: string, amount: Option<real>)

  function KeyOf(v: Invoice, r: Report): Key {
    (v.provider, if r.txn != "" then r.txn else v.reference)
  }

  function ReceivedOf(v: Invoice, r: Report): real {
    if r.amount.Some? then r.amount.value else v.amount
  }

  predicate Short(v: Invoice, received: real) {
    received < v.amount
  }

  function MarkInvoice(b: Books, i: nat): Books
    requires i in b.invoices
  {
    b.(invoices := b.invoices[i := b.invoices[i].(status := Paid)])
  }

  function MarkInstallment(b: Books, t: Option<nat>): Books {
    if t.Some? && t.value in b.installments
    then b.(installments := b.installments[t.value := b.installments[t.value].(status := Settled)])
    else b
  }

  function AddPayment(b: Books, k: Key, i: nat, received: real): Books {
    b.(payments := b.payments[k := Payment(i, received, Received, 0.0)])
  }

  /** A transaction not seen before. */
  ghost function Fresh(b: Books, i: nat, k: Key, received: real): Books
    requires Linked(b) && i in b.invoices
  {
    var v := b.invoices[i];
    var paid := AddPayment(b, k, i, received);
    if Short(v, received) then Rebooked(paid, v.enrollment)
    else Rebooked(MarkInstallment(MarkInvoice(paid, i), v.installment), v.enrollment)
  }

  /** A transaction already recorded: at most the invoice's status follows. */
  function Replay(b: Books, i: nat, k: Key): Books
    requires i in b.invoices && k in b.payments
  {
    if Short(b.invoices[i], b.payments[k].amount) then b else MarkInvoice(b, i)
  }

  ghost function Settle(b: Books, i: nat, r: Report): Books
    requires Linked(b) && i in b.invoices
  {
    var k := KeyOf(b.invoices[i], r);
    if !r.paid then b
    else if k in b.payments then Replay(b, i, k)
    else Fresh(b, i, k, ReceivedOf(b.invoices[i], r))
  }

  /** Whether settle answers with a payment. */
  predicate Confirms(b: Books, i: nat, r: Report)
    requires i in b.invoices
  {
    var k := KeyOf(b.invoices[i], r);
    r.paid && !Short(b.invoices[i], if k in b.payments then b.payments[k].amount else ReceivedOf(b.invoices[i], r))
  }

  // ------------------------------------------------------------------ refunds

  /** A refund names an amount, or an attendance percentage, or neither. */
  datatype Basis = Amount(amount: real) | Attended(pct: int) | NoBasis

  /** The running total returned once this refund lands. */
  function RefundTotal(p: Payment, basis: Basis): Result<real> {
    var asked := match basis
      case Amount(x) =>
        var total := ToAmount(x);
        if total.Ok? && total.value > p.amount then Err(400, "refund_exceeds_payment") else total
      case Attended(pct) =>
        var total := if pct < 20 then p.amount * 0.5 else 0.0;
        if total <= 0.0 && p.refunded <= 0.0 then Err(409, "nothing_to_refund") else Ok(total)
      case NoBasis => Err(400, "refund_basis_required");
    if asked.Ok? && asked.value < p.refunded then Err(400, "refund_below_already_refunded") else asked
  }

  function WithRefund(p: Payment, total: real): Payment {
    p.(refunded := total, status := if total >= p.amount then Refunded else PartlyRefunded)
  }

  ghost function Refund(b: Books, k: Key, basis: Basis): Result<Books>
    requires Linked(b) && k in b.payments
  {
    var p := b.payments[k];
    if p.status == Refunded then Err(409, "already_refunded")
    else
      var total := RefundTotal(p, basis);
      if total.Err? then Err(total.status, total.code)
      else Ok(Rebooked(b.(payments := b.payments[k := WithRefund(p, total.value)]), b.invoices[p.invoice].enrollment))
  }

  // ------------------------------------------------------------- installments

  function Fixed(b: Books, e: nat): Books
    requires e in b.enrollments
  {
    b.(enrollments := b.enrollments[e := b.enrollments[e].(price := Some(Price(b, e)))])
  }

  function AtLeastOne(n: int): nat {
    if n < 1 then 1 else n
  }

  /** The parts of the price, due month by month. */
  function PlanRows(e: nat, parts: seq<real>, first: Date, every: nat): (rows: seq<Installment>)
    ensures |rows| == |parts|
  {
    seq(|parts|, i requires 0 <= i < |parts| => Installment(e, Some(AddMonths(first, i * every)), parts[i], Scheduled))
  }

  /** Rows take the next ids, one after another. */
  function Insert(b: Books, rows: seq<Installment>): (r: Books)
    ensures r == b.(installments := r.installments, nextId := r.nextId)
    decreases |rows|
  {
    if rows == [] then b
    else Insert(b.(installments := b.installments[b.nextId := rows[0]], nextId := b.nextId + 1), rows[1..])
  }

  function RulesOf(b: Books, e: nat): (r: (nat, nat))
    requires e in b.enrollments
    ensures r.0 >= 1 && r.1 >= 1
  {
    var c := b.enrollments[e].course;
    if c.Some? && c.value in b.courses then (AtLeastOne(b.courses[c.value].count), AtLeastOne(b.courses[c.value].every))
    else (1, 1)
  }

  function FirstDue(b: Books, e: nat, today: Date): Date
    requires e in b.enrollments
  {
    if b.enrollments[e].start.Some? then b.enrollments[e].start.value else today
  }

  function DefaultPlan(b: Books, e: nat, today: Date): Result<Books>
    requires e in b.enrollments
  {
    if PlanOf(b, e) != {} then Err(409, "plan_exists")
    else if Price(b, e) <= 0.0 then Ok(b)
    else
      var rules := RulesOf(b, e);
      Ok(Insert(b, PlanRows(e, Split(Price(b, e), rules.0), FirstDue(b, e, today), rules.1)))
  }

  /** Freezing the price, laying out the plan and opening the ledger. */
  ghost function OnEnrolled(b: Books, e: nat, today: Date): Books
    requires e in b.enrollments
  {
    var fixed := if b.enrollments[e].price.None? then Fixed(b, e) else b;
    var planned := DefaultPlan(fixed, e, today);
    Recomputed(if planned.Ok? then planned.value else fixed, e)
  }

  predicate Editable(p: Installment) {
    p.status == Scheduled || p.status == Overdue
  }

  /** A malformed due date is None. */
  ghost function AddInstallment(b: Books, e: nat, due: Option<Date>, amount: real): Result<Books> {
    if e !in b.enrollments then Err(404, "enrollment_not_found")
    else if due.None? then Err(400, "invalid_date")
    else
      var parsed := ToAmount(amount);
      if parsed.Err? then Err(parsed.status, parsed.code)
      else
        var row := Installment(e, due, parsed.value, Scheduled);
        Ok(Recomputed(b.(installments := b.installments[b.nextId := row], nextId := b.nextId + 1), e))
  }

  function Edited(p: Installment, amount: Option<real>, due: Option<Option<Date>>): Result<Installment> {
    if !Editable(p) then Err(409, "installment_settled")
    else
      var parsed := if amount.Some? then ToAmount(amount.value) else Ok(p.amount);
      if parsed.Err? then Err(parsed.status, parsed.code)
      else if due.Some? && due.value.None? then Err(400, "invalid_date")
      else Ok(p.(amount := parsed.value, due := if due.Some? then due.value else p.due))
  }

  ghost function ReplaceInstallment(b: Books, t: nat, p: Result<Installment>): Result<Books>
    requires Linked(b) && t in b.installments
    requires p.Ok? ==> p.value.enrollment == b.installments[t].enrollment
  {
    if p.Err? then Err(p.status, p.code)
    else Ok(Recomputed(b.(installments := b.installments[t := p.value]), p.value.enrollment))
  }

  ghost function UpdateInstallment(b: Books, t: nat, amount: Option<real>, due: Option<Option<Date>>): Result<Books>
    requires Linked(b)
  {
    if t !in b.installments then Err(404, "installment_not_found")
    else ReplaceInstallment(b, t, Edited(b.installments[t], amount, due))
  }

  ghost function WaiveInstallment(b: Books, t: nat): Result<Books>
    requires Linked(b)
  {
    if t !in b.installments then Err(404, "installment_not_found")
    else
      var p := b.installments[t];
      ReplaceInstallment(b, t, if Editable(p) then Ok(p.(status := Waived)) else Err(409, "installment_settled"))
  }

  ghost predicate Billed(b: Books, t: nat) {
    exists i :: i in b.invoices && b.invoices[i].installment == Some(t)
  }

  ghost function DeleteInstallment(b: Books, t: nat): Result<Books>
    requires Linked(b)
  {
    if t !in b.installments then Err(404, "installment_not_found")
    else if !Editable(b.installments[t]) then Err(409, "installment_settled")
    else if Billed(b, t) then Err(409, "installment_has_invoices")
    else Ok(Recomputed(b.(installments := b.installments - {t}), b.installments[t].enrollment))
  }

  // ----------------------------------------------------------------- invoices

  /** What an invoice may ask for: an installment's amount, or any part of the balance. */
  ghost function AmountOwed(b: Books, e: Option<nat>, t: Option<nat>, given: Option<real>): Result<real>
    requires e.Some? ==> e.value in b.enrollments
    requires t.Some? ==> t.value in b.installments
  {
    if t.Some? then
      var p := b.installments[t.value];
      if p.status == Settled || p.status == Waived then Err(409, "installment_settled")
      else
        var due := ToAmount(p.amount);
        if due.Ok? && given.Some? then
          var asked := ToAmount(given.value);
          if asked.Ok? && asked.value != due.value then Err(400, "amount_mismatch") else asked
        else due
    else if e.None? then (if given.Some? then ToAmount(given.value) else Err(400, "invalid_amount"))
    else
      var balance := Rolled(b, e.value).balance;
      if balance <= 0.0 then Err(409, "nothing_due")
      else if given.None? then ToAmount(balance)
      else
        var asked := ToAmount(given.value);
        if asked.Ok? && asked.value > balance then Err(409, "amount_exceeds_balance") else asked
  }

  /** `i` is the id the new row gets. */
  ghost function RaiseInvoice(b: Books, i: nat, provider: string, reference: string, e: Option<nat>, t: Option<nat>,
                              given: Option<real>): Result<Books>
    requires Linked(b)
  {
    if t.Some? && t.value !in b.installments then Err(404, "installment_not_found")
    else if t.Some? && e.Some? && e.value != b.installments[t.value].enrollment then
      Err(400, "installment_not_in_enrollment")
    else
      var enrollment := if t.Some? then Some(b.installments[t.value].enrollment) else e;
      if enrollment.Some? && enrollment.value !in b.enrollments then Err(404, "enrollment_not_found")
      else
        var amount := AmountOwed(b, enrollment, t, given);
        if amount.Err? then Err(amount.status, amount.code)
        else
          var booked := if t.None? then Rebooked(b, enrollment) else b;
          Ok(booked.(invoices := b.invoices[i := Invoice(provider, reference, amount.value, enrollment, t, Pending)]))
  }
}
