/** The payment requests of one booking (app/services/enrolment/checkout.py:59-146): an
    invoice is reused while it can be paid, and retired before another gateway's is raised. */
module Checkout {
  import opened Wrappers
  import Sets

  datatype Status = Pending | Paid | Cancelled | Expired | Failed

  datatype Invoice = Invoice(provider: string, status: Status)

  /** Every invoice ever raised for the booking, and the one it points at. */
  datatype Desk = Desk(invoices: seq<Invoice>, current: Option<nat>)

  predicate Valid(d: Desk) {
    d.current.Some? ==> d.current.value < |d.invoices|
  }

  function Marked(d: Desk, i: nat, status: Status): Desk
    requires i < |d.invoices|
  {
    d.(invoices := d.invoices[i := d.invoices[i].(status := status)])
  }

  /** What the gateway says of a pending invoice when it is asked; short money is not payment. */
  datatype Poll = Unpaid | NowPaid | NoAnswer

  /** A reading of the invoice at its gateway, which settles it when it was paid. */
  function Checked(d: Desk, i: nat, poll: Poll): Desk
    requires i < |d.invoices|
  {
    if d.invoices[i].status != Paid && poll == NowPaid then Marked(d, i, Paid) else d
  }

  predicate Reusable(v: Invoice, provider: string) {
    v.status == Paid || (v.status == Pending && v.provider == provider)
  }

  /** The invoice of another gateway, checked and then retired. */
  function Switched(d: Desk, provider: string, poll: Poll): Desk
    requires Valid(d)
  {
    if d.current.Some? && d.invoices[d.current.value].status == Pending
       && d.invoices[d.current.value].provider != provider
    then
      var checked := Checked(d, d.current.value, poll);
      if checked.invoices[d.current.value].status == Pending then Marked(checked, d.current.value, Cancelled)
      else checked
    else d
  }

  /** How far raising gets: refused by the gateway, committed but not pointed at, or both. */
  datatype Raise = Refused | Stored | Pointed

  /** The booking's invoice at the gateway, reused or raised. A request that fails or stops
      leaves what it had committed. */
  function InvoiceFor(d: Desk, provider: string, poll: Poll, raise: Raise): (r: (Desk, Option<nat>))
    requires Valid(d)
    ensures Valid(r.0)
  {
    var asks := d.current.Some? && d.invoices[d.current.value].status == Pending
        && d.invoices[d.current.value].provider != provider;
    if asks && poll == NoAnswer then (d, None)
    else
      var s := Switched(d, provider, poll);
      if s.current.Some? && Reusable(s.invoices[s.current.value], provider) then (s, s.current)
      else if raise == Refused then (s, None)
      else if raise == Stored then (s.(invoices := s.invoices + [Invoice(provider, Pending)]), None)
      else (Desk(s.invoices + [Invoice(provider, Pending)], Some(|s.invoices|)), Some(|s.invoices|))
  }

  datatype Act =
    | Ask(provider: string, poll: Poll, raise: Raise)
    | Look(poll: Poll)              // the buyer's page polling the current invoice
    | Pay(invoice: nat)             // a callback for any of them

  function Do(d: Desk, a: Act): (r: Desk)
    requires Valid(d)
    ensures Valid(r)
  {
    match a
    case Ask(provider, poll, raise) => InvoiceFor(d, provider, poll, raise).0
    case Look(poll) => if d.current.Some? then Checked(d, d.current.value, poll) else d
    case Pay(i) => if i < |d.invoices| then Marked(d, i, Paid) else d
  }

  /** The pending invoices that the booking does not point at. */
  function Orphans(d: Desk): set<nat> {
    set i: nat | i < |d.invoices| && d.invoices[i].status == Pending && d.current != Some(i)
  }

  /** Only the invoice the booking points at can still be paid as a pending one. */
  predicate OneOpen(d: Desk) {
    Valid(d) && Orphans(d) == {}
  }

  /** Only the invoice the booking points at is paid. */
  predicate OnePaid(d: Desk) {
    Valid(d) && forall i :: 0 <= i < |d.invoices| && d.current != Some(i) ==> d.invoices[i].status != Paid
  }

  /** A payment on the invoice the booking points at. */
  predicate InTime(d: Desk, a: Act) {
    a.Pay? && a.invoice < |d.invoices| ==> d.current == Some(a.invoice)
  }

  function Run(d: Desk, acts: seq<Act>): (r: Desk)
    requires Valid(d)
    ensures Valid(r)
    decreases |acts|
  {
    if acts == [] then d else Run(Do(d, acts[0]), acts[1..])
  }

  predicate AllInTime(d: Desk, acts: seq<Act>)
    requires Valid(d)
    decreases |acts|
  {
    acts == [] || (InTime(d, acts[0]) && AllInTime(Do(d, acts[0]), acts[1..]))
  }

  /** The invoice of a request that stopped before it could point the booking at it. */
  function StoredAt(d: Desk, a: Act): set<nat>
    requires Valid(d)
  {
    if a.Ask? && a.raise == Stored && |Do(d, a).invoices| > |d.invoices| then {|d.invoices|} else {}
  }

  function AllStored(d: Desk, acts: seq<Act>): set<nat>
    requires Valid(d)
    decreases |acts|
  {
    if acts == [] then {} else StoredAt(d, acts[0]) + AllStored(Do(d, acts[0]), acts[1..])
  }

  function PaidAt(d: Desk, a: Act): set<nat> {
    if a.Pay? && a.invoice < |d.invoices| then {a.invoice} else {}
  }

  /** The invoices a callback pays in a run. */
  function AllPaid(d: Desk, acts: seq<Act>): set<nat>
    requires Valid(d)
    decreases |acts|
  {
    if acts == [] then {} else PaidAt(d, acts[0]) + AllPaid(Do(d, acts[0]), acts[1..])
  }

  lemma OrphanStep(d: Desk, a: Act)
    requires Valid(d)
    ensures Orphans(Do(d, a)) == Orphans(d) + StoredAt(d, a) - PaidAt(d, a)
    ensures forall i :: i in PaidAt(d, a) ==> i < |Do(d, a).invoices|
  {
    hide InvoiceFor;
    if a.Ask? {
      AskOrphans(d, a.provider, a.poll, a.raise);
    }
  }

  lemma SwitchedOrphans(d: Desk, provider: string, poll: Poll)
    requires Valid(d)
    ensures var s := Switched(d, provider, poll);
            && |s.invoices| == |d.invoices| && s.current == d.current && Orphans(s) == Orphans(d)
            && (s.current.Some? && s.invoices[s.current.value].status == Pending ==>
                  Reusable(s.invoices[s.current.value], provider))
  {
  }

  lemma AskOrphans(d: Desk, provider: string, poll: Poll, raise: Raise)
    requires Valid(d)
    ensures var e := InvoiceFor(d, provider, poll, raise).0;
            && |d.invoices| <= |e.invoices|
            && Orphans(e) == if raise == Stored && |e.invoices| > |d.invoices| then Orphans(d) + {|d.invoices|}
                             else Orphans(d)
  {
    SwitchedOrphans(d, provider, poll);
    hide Switched;
  }

  lemma {:induction false} StoredAreNew(d: Desk, acts: seq<Act>, i: nat)
    requires Valid(d) && i in AllStored(d, acts)
    ensures i >= |d.invoices|
    decreases |acts|
  {
    if acts != [] && i !in StoredAt(d, acts[0]) {
      StoredAreNew(Do(d, acts[0]), acts[1..], i);
    }
  }

  /** Which invoices stay open beside the current one: exactly those of requests that stopped
      between raising an invoice and pointing the booking at it, until they are paid. Switching
      gateways leaves none. */
  lemma {:induction false} RunKeeps(d: Desk, acts: seq<Act>)
    requires Valid(d)
    ensures Orphans(Run(d, acts)) == Orphans(d) + AllStored(d, acts) - AllPaid(d, acts)
    ensures OneOpen(d) ==> (OneOpen(Run(d, acts)) <==> AllStored(d, acts) <= AllPaid(d, acts))
    ensures OnePaid(d) && AllInTime(d, acts) ==> OnePaid(Run(d, acts))
    decreases |acts|
  {
    if acts != [] {
      var next := Do(d, acts[0]);
      OrphanStep(d, acts[0]);
      OnePaidKeeps(d, acts[0]);
      RunKeeps(next, acts[1..]);
      forall i | i in AllStored(next, acts[1..]) ensures i !in PaidAt(d, acts[0]) {
        StoredAreNew(next, acts[1..], i);
      }
    }
  }

  lemma OnePaidKeeps(d: Desk, a: Act)
    requires Valid(d)
    ensures OnePaid(d) && InTime(d, a) ==> OnePaid(Do(d, a))
  {
  }

  function PaidOnes(d: Desk): set<nat> {
    set i: nat | i < |d.invoices| && d.invoices[i].status == Paid
  }

  predicate CurrentPaid(d: Desk)
    requires Valid(d)
  {
    d.current.Some? && d.invoices[d.current.value].status == Paid
  }

  /** The paid invoices that the booking does not point at. */
  function Strays(d: Desk): set<nat> {
    set i: nat | i < |d.invoices| && d.invoices[i].status == Paid && d.current != Some(i)
  }

  /** The invoice a callback pays although the booking has moved on. */
  function LateAt(d: Desk, a: Act): set<nat> {
    if a.Pay? && a.invoice < |d.invoices| && d.current != Some(a.invoice) then {a.invoice} else {}
  }

  /** All those paid late in a run. */
  function Late(d: Desk, acts: seq<Act>): set<nat>
    requires Valid(d)
    decreases |acts|
  {
    if acts == [] then {} else LateAt(d, acts[0]) + Late(Do(d, acts[0]), acts[1..])
  }

  lemma StrayStep(d: Desk, a: Act)
    requires Valid(d)
    ensures Strays(Do(d, a)) == Strays(d) + LateAt(d, a)
  {
  }

  lemma {:induction false} StraysAreLate(d: Desk, acts: seq<Act>)
    requires Valid(d)
    ensures Strays(Run(d, acts)) == Strays(d) + Late(d, acts)
    decreases |acts|
  {
    hide Strays, Do, LateAt;
    if acts != [] {
      StrayStep(d, acts[0]);
      StraysAreLate(Do(d, acts[0]), acts[1..]);
    }
  }

  /** How often a buyer has paid: once for the current invoice, if it is paid, and once for
      every retired one that was paid late. So two are paid exactly when an invoice the
      booking no longer pointed at and another one have both been. */
  lemma PaidExactly(d: Desk, acts: seq<Act>)
    requires OnePaid(d)
    ensures var end := Run(d, acts);
            && |PaidOnes(end)| == |Late(d, acts)| + (if CurrentPaid(end) then 1 else 0)
            && (|PaidOnes(end)| >= 2 <==> exists i, j :: i in Late(d, acts) && j in PaidOnes(end) && i != j)
  {
    hide Run, Late, Valid;
    var end := Run(d, acts);
    StraysAreLate(d, acts);
    assert Strays(d) == {} by { OnePaidNoStrays(d); }
    assert {} + Late(d, acts) == Late(d, acts);
    PaidAndStrays(end);
    hide OnePaid, PaidOnes, Strays, CurrentPaid;
    if |PaidOnes(end)| >= 2 {
      TwoMembers(PaidOnes(end), Late(d, acts));
    } else {
      forall i, j | i in Late(d, acts) && j in PaidOnes(end) ensures i == j {
        Sets.Subset({i, j}, PaidOnes(end));
      }
    }
  }

  lemma OnePaidNoStrays(d: Desk)
    requires OnePaid(d)
    ensures Strays(d) == {}
  {
  }

  lemma PaidAndStrays(d: Desk)
    requires Valid(d)
    ensures Strays(d) <= PaidOnes(d) && |PaidOnes(d)| == |Strays(d)| + if CurrentPaid(d) then 1 else 0
  {
    if CurrentPaid(d) {
      assert PaidOnes(d) == Strays(d) + {d.current.value};
    } else {
      assert PaidOnes(d) == Strays(d);
    }
  }

  /** Of two or more, all but one of them in `late`, one is and there is another. */
  lemma TwoMembers(all: set<nat>, late: set<nat>)
    requires late <= all && |all| >= 2 && |all| <= |late| + 1
    ensures exists i, j :: i in late && j in all && i != j
  {
    assert late != {};
    var i :| i in late;
    assert all - {i} != {} by { assert |all - {i}| == |all| - 1; }
    var j :| j in all - {i};
  }

  /** Asking again at the same gateway is answered with the same invoice, and once the current
      one is paid every gateway's button is, whatever the gateways answer. */
  lemma AskingAgainReuses(d: Desk, provider: string, poll: Poll, raise: Raise, again: Poll, other: string,
                          raise': Raise)
    requires Valid(d) && InvoiceFor(d, provider, poll, raise).1.Some?
    ensures var r := InvoiceFor(d, provider, poll, raise);
            && InvoiceFor(r.0, provider, again, raise') == r
            && (r.0.invoices[r.1.value].status == Paid ==> InvoiceFor(r.0, other, again, raise') == r)
  {
  }

  /** The desk once an invoice has been raised, or has not. */
  predicate RaisedAs(d: Desk, provider: string, raise: Raise, after: Desk, answer: Option<nat>) {
    match raise
    case Refused => after == d && answer == None
    case Stored => after == Desk(d.invoices + [Invoice(provider, Pending)], d.current) && answer == None
    case Pointed => after == Desk(d.invoices + [Invoice(provider, Pending)], Some(|d.invoices|))
                    && answer == Some(|d.invoices|)
  }

  /** A request, by what the booking points at. A paid invoice, and a pending one of the same
      gateway, is the answer. Another gateway's pending one is asked for first: without an
      answer nothing happens; paid by now, it is the answer; unpaid, it is cancelled. Then, and
      when there was none that could be paid, one is raised. */
  lemma RequestReads(d: Desk, provider: string, poll: Poll, raise: Raise)
    requires Valid(d)
    ensures Do(d, Ask(provider, poll, raise)) == InvoiceFor(d, provider, poll, raise).0
    ensures var (after, answer) := InvoiceFor(d, provider, poll, raise);
            if d.current == None then RaisedAs(d, provider, raise, after, answer)
            else
              var c := d.current.value;
              var v := d.invoices[c];
              if v.status == Paid || (v.status == Pending && v.provider == provider) then
                after == d && answer == Some(c)
              else if v.status == Pending then
                && (poll == NoAnswer ==> after == d && answer == None)
                && (poll == NowPaid ==> after == Desk(d.invoices[c := Invoice(v.provider, Paid)], d.current)
                                        && answer == Some(c))
                && (poll == Unpaid ==> RaisedAs(Desk(d.invoices[c := Invoice(v.provider, Cancelled)], d.current),
                                                provider, raise, after, answer))
              else RaisedAs(d, provider, raise, after, answer)
  {
  }

  // ------------------------------------------------------ the program's own form

  class Booking {
    var invoices: seq<Invoice>
    var current: Option<nat>

    function View(): Desk
      reads this
    {
      Desk(invoices, current)
    }

    constructor ()
      ensures View() == Desk([], None) && OneOpen(View()) && OnePaid(View())
    {
      invoices, current := [], None;
    }

    method RequestInvoice(provider: string, poll: Poll, raise: Raise) returns (invoice: Option<nat>)
      requires Valid(View())
      modifies this
      ensures (View(), invoice) == InvoiceFor(old(View()), provider, poll, raise)
    {
      if current.Some? && invoices[current.value].status == Pending && invoices[current.value].provider != provider {
        if poll == NoAnswer {
          return None;
        }
        if poll == NowPaid {
          invoices := invoices[current.value := invoices[current.value].(status := Paid)];
        }
        if invoices[current.value].status == Pending {
          invoices := invoices[current.value := invoices[current.value].(status := Cancelled)];
        }
      }
      if current.Some? {
        var v := invoices[current.value];
        if v.status == Paid || (v.status == Pending && v.provider == provider) {
          return current;
        }
      }
      if raise == Refused {
        return None;
      }
      invoices := invoices + [Invoice(provider, Pending)];
      if raise == Stored {
        return None;
      }
      current := Some(|invoices| - 1);
      return current;
    }
  }
}
