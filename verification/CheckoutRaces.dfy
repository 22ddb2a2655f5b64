/** Requests for one booking's invoice that run at the same time (app/services/enrolment/
    checkout.py:113-146): between its commits a request works with what it read before, and
    others may commit. */
module CheckoutRaces {
  import opened Wrappers
  import opened Checkout

  /** Where a request stands between its commits; `seen` is what it read the booking to point at. */
  datatype Request =
    | Arrived(provider: string)
    | Asking(provider: string, polled: nat)       // another gateway's pending invoice, to be polled
    | Retiring(provider: string, polled: nat)     // polled, and not paid
    | Rechecking(provider: string, retired: nat)  // retired, to be read again
    | Raising(provider: string, seen: Option<nat>)
    | Raised(invoice: nat, seen: Option<nat>)     // committed, not yet pointed at
    | Answered(invoice: nat)
    | Failed

  datatype System = System(desk: Desk, requests: map<nat, Request>)

  datatype Step =
    | Arrive(request: nat, provider: string)
    | Go(request: nat, poll: Poll, raised: bool)  // the request's next reading or commit
    | Callback(invoice: nat)                      // a callback, or a page that polled the invoice

  /** A request reads the booking and its invoice. */
  function Reading(d: Desk, provider: string): Request
    requires Valid(d)
  {
    if d.current.None? then Raising(provider, None)
    else
      var v := d.invoices[d.current.value];
      if Reusable(v, provider) then Answered(d.current.value)
      else if v.status == Pending then Asking(provider, d.current.value)
      else Raising(provider, d.current)
  }

  /** Every index a request holds names an invoice. */
  predicate InRange(r: Request, n: nat) {
    match r
    case Asking(_, i) => i < n
    case Retiring(_, i) => i < n
    case Rechecking(_, i) => i < n
    case Raising(_, seen) => seen.Some? ==> seen.value < n
    case Raised(i, seen) => i < n && (seen.Some? ==> seen.value < n)
    case _ => true
  }

  ghost predicate Ranged(s: System) {
    Valid(s.desk) && forall p :: p in s.requests ==> InRange(s.requests[p], |s.desk.invoices|)
  }

  /** What one request does next, to the desk and to itself. */
  function Advance(d: Desk, r: Request, poll: Poll, raised: bool): (Desk, Request)
    requires Valid(d) && InRange(r, |d.invoices|)
  {
    match r
    case Arrived(provider) => (d, Reading(d, provider))
    case Asking(provider, i) =>
      if poll == NoAnswer then (d, Request.Failed)
      else if poll == NowPaid then (Marked(d, i, Paid), Answered(i))
      else (d, Retiring(provider, i))
    case Retiring(provider, i) => (Marked(d, i, Cancelled), Rechecking(provider, i))
    case Rechecking(provider, i) =>
      (d, if Reusable(d.invoices[i], provider) then Answered(i) else Raising(provider, Some(i)))
    case Raising(provider, seen) =>
      if raised then (d.(invoices := d.invoices + [Invoice(provider, Pending)]), Raised(|d.invoices|, seen))
      else (d, Request.Failed)
    case Raised(i, seen) => (d.(current := Some(i)), Answered(i))
    case _ => (d, r)
  }

  function Take(s: System, step: Step): System
    requires Ranged(s)
  {
    match step
    case Arrive(p, provider) =>
      if p in s.requests then s else s.(requests := s.requests[p := Arrived(provider)])
    case Go(p, poll, raised) =>
      if p !in s.requests then s
      else
        var next := Advance(s.desk, s.requests[p], poll, raised);
        System(next.0, s.requests[p := next.1])
    case Callback(i) => if i < |s.desk.invoices| then s.(desk := Marked(s.desk, i, Paid)) else s
  }

  // ------------------------------------------------------------------ what stays true

  predicate NotPending(d: Desk, seen: Option<nat>) {
    seen.Some? && seen.value < |d.invoices| ==> d.invoices[seen.value].status != Pending
  }

  /** A request raises only when the invoice it saw is no longer pending; the one it raised is
      not yet pointed at. */
  ghost predicate Sane(r: Request, d: Desk) {
    && InRange(r, |d.invoices|)
    && (r.Raising? ==> NotPending(d, r.seen))
    && (r.Raised? ==> NotPending(d, r.seen) && d.current != Some(r.invoice) && r.seen != Some(r.invoice))
    && (r.Rechecking? ==> NotPending(d, Some(r.retired)))
  }

  ghost predicate Orderly(s: System) {
    && Valid(s.desk)
    && (forall p :: p in s.requests ==> Sane(s.requests[p], s.desk))
    && forall p, q :: p in s.requests && q in s.requests && p != q ==>
         s.requests[p].Raised? && s.requests[q].Raised? ==> s.requests[p].invoice != s.requests[q].invoice
  }

  /** What any step does to the desk: no invoice goes away, and none becomes pending again. */
  ghost predicate Evolves(d: Desk, e: Desk) {
    && |d.invoices| <= |e.invoices|
    && forall i :: 0 <= i < |d.invoices| && d.invoices[i].status != Pending ==> e.invoices[i].status != Pending
  }

  lemma AdvanceEvolves(d: Desk, r: Request, poll: Poll, raised: bool)
    requires Valid(d) && Sane(r, d)
    ensures var n := Advance(d, r, poll, raised);
            && Valid(n.0) && Evolves(d, n.0) && Sane(n.1, n.0)
            && n.0.current == (if r.Raised? then Some(r.invoice) else d.current)
            && (n.1.Raised? ==> r.Raising? && n.1.invoice == |d.invoices| && |n.0.invoices| == |d.invoices| + 1)
  {
  }

  lemma StaysSane(r: Request, d: Desk, e: Desk)
    requires Sane(r, d) && Evolves(d, e) && (r.Raised? ==> e.current != Some(r.invoice))
    ensures Sane(r, e)
  {
  }

  lemma TakeKeeps(s: System, step: Step)
    requires Orderly(s)
    ensures Ranged(s) && Orderly(Take(s, step))
  {
    hide Sane, Evolves, Advance, Valid;
    assert Ranged(s) by { OrderlyIsRanged(s); }
    var t := Take(s, step);
    match step {
      case Arrive(p, provider) => FreshIsSane(s.desk, provider);
      case Go(p, poll, raised) =>
        if p in s.requests {
          AdvanceEvolves(s.desk, s.requests[p], poll, raised);
          forall q | q in s.requests && q != p ensures Sane(t.requests[q], t.desk) {
            if s.requests[q].Raised? { RaisedApart(s.requests[q], s.desk); }
            StaysSane(s.requests[q], s.desk, t.desk);
          }
          forall q | q in s.requests && q != p && s.requests[q].Raised?
            ensures s.requests[q].invoice < |s.desk.invoices| {
            RaisedApart(s.requests[q], s.desk);
          }
        }
      case Callback(i) =>
        if i < |s.desk.invoices| {
          PaidEvolves(s.desk, i);
          forall q | q in s.requests ensures Sane(s.requests[q], t.desk) {
            if s.requests[q].Raised? { RaisedApart(s.requests[q], s.desk); }
            StaysSane(s.requests[q], s.desk, t.desk);
          }
        }
    }
  }

  lemma OrderlyIsRanged(s: System)
    requires Orderly(s)
    ensures Ranged(s)
  {
  }

  lemma FreshIsSane(d: Desk, provider: string)
    ensures Sane(Arrived(provider), d)
  {
  }

  lemma RaisedApart(r: Request, d: Desk)
    requires Sane(r, d) && r.Raised?
    ensures r.invoice < |d.invoices| && d.current != Some(r.invoice)
  {
  }

  lemma PaidEvolves(d: Desk, i: nat)
    requires Valid(d) && i < |d.invoices|
    ensures Valid(Marked(d, i, Paid)) && Evolves(d, Marked(d, i, Paid)) && Marked(d, i, Paid).current == d.current
  {
  }

  // ---------------------------------------------------- which invoices stay open

  /** Raised by a request that has not pointed the booking at it, or never will. */
  ghost predicate InFlight(s: System, i: nat) {
    exists p :: p in s.requests && s.requests[p].Raised? && s.requests[p].invoice == i
  }

  /** The pending invoice that a request points the booking away from. */
  function OvertakenAt(s: System, step: Step): set<nat>
    requires Valid(s.desk)
  {
    if step.Go? && step.request in s.requests && s.requests[step.request].Raised? && s.desk.current.Some?
       && s.desk.invoices[s.desk.current.value].status == Pending
    then {s.desk.current.value} else {}
  }

  /** The state after a run, and every invoice overtaken in it. */
  function Play(s: System, steps: seq<Step>): (System, set<nat>)
    requires Orderly(s)
    decreases |steps|
  {
    if steps == [] then (s, {})
    else
      TakeKeeps(s, steps[0]);
      var rest := Play(Take(s, steps[0]), steps[1..]);
      (rest.0, OvertakenAt(s, steps[0]) + rest.1)
  }

  /** An open invoice is not the current one exactly when it is in flight or overtaken; an
      overtaken one is never pointed at again. */
  ghost predicate Accounted(s: System, overtaken: set<nat>) {
    && (forall i: nat :: i < |s.desk.invoices| && s.desk.invoices[i].status == Pending ==>
          (s.desk.current != Some(i) <==> InFlight(s, i) || i in overtaken))
    && forall i :: i in overtaken ==> i < |s.desk.invoices| && s.desk.current != Some(i) && !InFlight(s, i)
  }

  lemma GoAccounts(s: System, p: nat, poll: Poll, raised: bool, overtaken: set<nat>)
    requires Orderly(s) && Ranged(s) && Accounted(s, overtaken) && p in s.requests
    ensures var step := Go(p, poll, raised); Accounted(Take(s, step), overtaken + OvertakenAt(s, step))
  {
    var r, t := s.requests[p], Take(s, Go(p, poll, raised));
    AdvanceEvolves(s.desk, r, poll, raised);
    assert forall q :: q in s.requests && q != p ==> t.requests[q] == s.requests[q];
    assert forall q :: q in s.requests && s.requests[q].Raised? ==> s.requests[q].invoice < |s.desk.invoices|;
    if r.Raised? {
      PointingAccounts(s, p, poll, raised, overtaken);
    } else if r.Raising? && raised {
      assert t.requests[p].Raised? && t.requests[p].invoice == |s.desk.invoices|;
      forall i: nat ensures InFlight(t, i) <==> InFlight(s, i) || i == |s.desk.invoices| {
        if InFlight(s, i) {
          var q :| q in s.requests && s.requests[q].Raised? && s.requests[q].invoice == i;
          assert t.requests[q] == s.requests[q];
        }
      }
    } else {
      SameInFlight(s, t, p);
    }
  }

  lemma SameInFlight(s: System, t: System, p: nat)
    requires p in s.requests && t.requests.Keys == s.requests.Keys
    requires !s.requests[p].Raised? && !t.requests[p].Raised?
    requires forall q :: q in s.requests && q != p ==> t.requests[q] == s.requests[q]
    ensures forall i: nat :: InFlight(t, i) <==> InFlight(s, i)
  {
    forall i: nat ensures InFlight(t, i) <==> InFlight(s, i) {
      if InFlight(s, i) {
        var q :| q in s.requests && s.requests[q].Raised? && s.requests[q].invoice == i;
        assert t.requests[q] == s.requests[q];
      }
    }
  }

  lemma PointingAccounts(s: System, p: nat, poll: Poll, raised: bool, overtaken: set<nat>)
    requires Orderly(s) && Ranged(s) && Accounted(s, overtaken) && p in s.requests && s.requests[p].Raised?
    ensures var step := Go(p, poll, raised); Accounted(Take(s, step), overtaken + OvertakenAt(s, step))
  {
    var x, t := s.requests[p].invoice, Take(s, Go(p, poll, raised));
    assert InFlight(s, x);
    forall i: nat ensures InFlight(t, i) <==> InFlight(s, i) && i != x {
      if InFlight(s, i) && i != x {
        var q :| q in s.requests && s.requests[q].Raised? && s.requests[q].invoice == i;
        assert t.requests[q] == s.requests[q];
      }
    }
  }

  lemma TakeAccounts(s: System, step: Step, overtaken: set<nat>)
    requires Orderly(s) && Ranged(s) && Accounted(s, overtaken)
    ensures Accounted(Take(s, step), overtaken + OvertakenAt(s, step))
  {
    if step.Go? {
      if step.request in s.requests {
        GoAccounts(s, step.request, step.poll, step.raised, overtaken);
      }
    } else if step.Arrive? && step.request !in s.requests {
      var t := Take(s, step);
      forall i: nat ensures InFlight(t, i) <==> InFlight(s, i) {
        if InFlight(s, i) {
          var q :| q in s.requests && s.requests[q].Raised? && s.requests[q].invoice == i;
          assert t.requests[q] == s.requests[q];
        }
      }
    } else {
      assert Take(s, step).requests == s.requests;
    }
  }

  lemma {:induction false} PlayAccounts(s: System, steps: seq<Step>, overtaken: set<nat>)
    requires Orderly(s) && Accounted(s, overtaken)
    ensures var r := Play(s, steps); Orderly(r.0) && Accounted(r.0, overtaken + r.1)
    decreases |steps|
  {
    hide Orderly, Accounted, Take, OvertakenAt;
    if steps == [] {
      assert overtaken + {} == overtaken;
    } else {
      OrderlyIsRanged(s);
      TakeKeeps(s, steps[0]);
      TakeAccounts(s, steps[0], overtaken);
      var t := Take(s, steps[0]);
      PlayAccounts(t, steps[1..], overtaken + OvertakenAt(s, steps[0]));
      var rest := Play(t, steps[1..]);
      assert overtaken + (OvertakenAt(s, steps[0]) + rest.1) == overtaken + OvertakenAt(s, steps[0]) + rest.1;
    }
  }

  /** In every interleaving: a pending invoice is one the booking does not point at exactly when
      its request has raised it and not yet pointed, or another request pointed away from it. */
  lemma OpenExactly(d: Desk, steps: seq<Step>, i: nat)
    requires OneOpen(d)
    ensures Orderly(System(d, map[]))
    ensures var r := Play(System(d, map[]), steps);
            i in Orphans(r.0.desk) <==>
            i < |r.0.desk.invoices| && r.0.desk.invoices[i].status == Pending && (InFlight(r.0, i) || i in r.1)
  {
    var s := System(d, map[]);
    StartAccounts(d);
    PlayAccounts(s, steps, {});
    assert {} + Play(s, steps).1 == Play(s, steps).1;
    hide Play, Orderly, InFlight;
  }

  lemma StartAccounts(d: Desk)
    requires OneOpen(d)
    ensures Orderly(System(d, map[])) && Accounted(System(d, map[]), {})
  {
    forall i: nat | i < |d.invoices| && d.invoices[i].status == Pending ensures d.current == Some(i) {
      assert i !in Orphans(d);
    }
  }

  /** Overtaking takes two requests at once: the booking has been pointed elsewhere since the
      request read it. */
  lemma OvertakingIsOverlap(s: System, step: Step)
    requires Orderly(s) && OvertakenAt(s, step) != {}
    ensures step.Go? && step.request in s.requests && s.requests[step.request].Raised?
    ensures s.requests[step.request].seen != s.desk.current
  {
    assert Sane(s.requests[step.request], s.desk);
  }

  /** Whenever a request points the booking at its invoice, it still points where the request
      had read it to. */
  predicate Apart(s: System, steps: seq<Step>)
    requires Orderly(s)
    decreases |steps|
  {
    steps == [] ||
    (TakeKeeps(s, steps[0]);
     && (steps[0].Go? && steps[0].request in s.requests && s.requests[steps[0].request].Raised? ==>
           s.requests[steps[0].request].seen == s.desk.current)
     && Apart(Take(s, steps[0]), steps[1..]))
  }

  lemma {:induction false} ApartOvertakesNone(s: System, steps: seq<Step>)
    requires Orderly(s) && Apart(s, steps)
    ensures Play(s, steps).1 == {}
    decreases |steps|
  {
    hide Orderly, Take, OvertakenAt;
    if steps != [] {
      TakeKeeps(s, steps[0]);
      if OvertakenAt(s, steps[0]) != {} {
        OvertakingIsOverlap(s, steps[0]);
        assert false;
      }
      ApartOvertakesNone(Take(s, steps[0]), steps[1..]);
    }
  }

  /** So requests that keep apart leave an invoice open beside the current one exactly when one
      of them has not got from raising it to pointing. */
  lemma ApartOpenExactly(d: Desk, steps: seq<Step>)
    requires OneOpen(d) && Orderly(System(d, map[])) && Apart(System(d, map[]), steps)
    ensures var end := Play(System(d, map[]), steps).0;
            OneOpen(end.desk) <==>
            forall i :: 0 <= i < |end.desk.invoices| && InFlight(end, i) ==> end.desk.invoices[i].status != Pending
  {
    var r := Play(System(d, map[]), steps);
    ApartOvertakesNone(System(d, map[]), steps);
    StartAccounts(d);
    PlayAccounts(System(d, map[]), steps, {});
    hide Play, InFlight, Apart, Accounted;
    forall i: nat ensures i in Orphans(r.0.desk) <==>
      i < |r.0.desk.invoices| && r.0.desk.invoices[i].status == Pending && InFlight(r.0, i) {
      OpenExactly(d, steps, i);
    }
  }

  // ------------------------------------------------------------ which payments stay

  /** A paid invoice stays paid at every step but one: a request that polled it unpaid before
      the payment came, and now retires it. */
  lemma PaidStaysExactly(s: System, step: Step, i: nat)
    requires Orderly(s) && Ranged(s) && i < |s.desk.invoices| && s.desk.invoices[i].status == Paid
    ensures i < |Take(s, step).desk.invoices|
    ensures Take(s, step).desk.invoices[i].status == Paid <==>
            !(step.Go? && step.request in s.requests && s.requests[step.request].Retiring?
              && s.requests[step.request].polled == i)
  {
  }

  lemma PlayFirst(s: System, step: Step, rest: seq<Step>) returns (t: System)
    requires Orderly(s)
    ensures Ranged(s) && t == Take(s, step) && Orderly(t)
    ensures Play(s, [step] + rest) == (Play(t, rest).0, OvertakenAt(s, step) + Play(t, rest).1)
  {
    TakeKeeps(s, step);
    t := Take(s, step);
    assert ([step] + rest)[1..] == rest;
  }

  /** Such a run: the buyer pays the invoice of one gateway while the request for another one's
      has polled it and not yet retired it. The payment is overwritten. */
  lemma PaymentIsOverwritten() returns (s: System, steps: seq<Step>)
    ensures Orderly(s) && s == System(Desk([Invoice("qpay", Pending)], Some(0)), map[])
    ensures steps == [Arrive(1, "storepay"), Go(1, Unpaid, true), Go(1, Unpaid, true), Callback(0), Go(1, Unpaid, true)]
    ensures Play(s, steps).0.desk == Desk([Invoice("qpay", Cancelled)], Some(0))
  {
    s := System(Desk([Invoice("qpay", Pending)], Some(0)), map[]);
    var go := Go(1, Unpaid, true);
    steps := [Arrive(1, "storepay"), go, go, Callback(0), go];
    StartAccounts(s.desk);
    hide Orderly, Play, OvertakenAt, Ranged;
    assert steps == [Arrive(1, "storepay")] + ([go] + ([go] + ([Callback(0)] + ([go] + []))));
    var s1 := PlayFirst(s, Arrive(1, "storepay"), [go] + ([go] + ([Callback(0)] + ([go] + []))));
    var s2 := PlayFirst(s1, go, [go] + ([Callback(0)] + ([go] + [])));
    assert s2.requests[1] == Asking("storepay", 0);
    var s3 := PlayFirst(s2, go, [Callback(0)] + ([go] + []));
    assert s3.requests[1] == Retiring("storepay", 0);
    var s4 := PlayFirst(s3, Callback(0), [go] + []);
    var s5 := PlayFirst(s4, go, []);
    assert s4.desk == Desk([Invoice("qpay", Paid)], Some(0));
    PlayNone(s5);
  }

  lemma PlayNone(s: System)
    requires Orderly(s)
    ensures Play(s, []) == (s, {})
  {
  }

  lemma Raises(s: System, p: nat, provider: string)
    requires Ranged(s) && p in s.requests && s.requests[p] == Raising(provider, None)
    ensures Take(s, Go(p, Unpaid, true))
         == System(s.desk.(invoices := s.desk.invoices + [Invoice(provider, Pending)]),
                   s.requests[p := Raised(|s.desk.invoices|, None)])
    ensures OvertakenAt(s, Go(p, Unpaid, true)) == {}
  {
  }

  lemma Points(s: System, p: nat, i: nat)
    requires Ranged(s) && p in s.requests && s.requests[p] == Raised(i, None)
    ensures Take(s, Go(p, Unpaid, true)) == System(s.desk.(current := Some(i)), s.requests[p := Answered(i)])
    ensures OvertakenAt(s, Go(p, Unpaid, true))
         == if s.desk.current.Some? && s.desk.invoices[s.desk.current.value].status == Pending
            then {s.desk.current.value} else {}
  {
  }

  lemma TwoFound(s: System)
    requires s == System(Desk([], None), map[1 := Raising("qpay", None), 2 := Raising("storepay", None)])
    ensures Orderly(s)
  {
  }

  /** Two requests that both find no invoice: each raises one, the later pointing wins, and the
      invoice of the other stays open beside it. */
  lemma TwoAtOnceLeaveOneOpen() returns (s: System, steps: seq<Step>)
    ensures Orderly(s) && s == System(Desk([], None), map[1 := Raising("qpay", None), 2 := Raising("storepay", None)])
    ensures steps == [Go(1, Unpaid, true), Go(2, Unpaid, true), Go(1, Unpaid, true), Go(2, Unpaid, true)]
    ensures Play(s, steps).0.desk == Desk([Invoice("qpay", Pending), Invoice("storepay", Pending)], Some(1))
    ensures Play(s, steps).1 == {0}
  {
    s := System(Desk([], None), map[1 := Raising("qpay", None), 2 := Raising("storepay", None)]);
    var one, two := Go(1, Unpaid, true), Go(2, Unpaid, true);
    steps := [one, two, one, two];
    TwoFound(s);
    hide Play, OvertakenAt, Take, Orderly, Ranged;
    assert steps == [one] + ([two] + ([one] + ([two] + [])));
    var s1 := PlayFirst(s, one, [two] + ([one] + ([two] + [])));
    Raises(s, 1, "qpay");
    var s2 := PlayFirst(s1, two, [one] + ([two] + []));
    Raises(s1, 2, "storepay");
    assert s2.desk.invoices == [Invoice("qpay", Pending), Invoice("storepay", Pending)];
    var s3 := PlayFirst(s2, one, [two] + []);
    Points(s2, 1, 0);
    var s4 := PlayFirst(s3, two, []);
    Points(s3, 2, 1);
    PlayNone(s4);
  }

  // ------------------------------------------------------------ one request at a time

  /** A request that takes n steps with nobody else at work. */
  function Alone(d: Desk, r: Request, poll: Poll, raised: bool, n: nat): (Desk, Request)
    requires Valid(d) && Sane(r, d)
    decreases n
  {
    if n == 0 then (d, r)
    else
      AdvanceEvolves(d, r, poll, raised);
      var next := Advance(d, r, poll, raised);
      Alone(next.0, next.1, poll, raised, n - 1)
  }

  function AnswerOf(r: Request): Option<nat> {
    if r.Answered? then Some(r.invoice) else None
  }

  lemma {:induction false} Finished(d: Desk, r: Request, poll: Poll, raised: bool, n: nat)
    requires Valid(d) && (r.Answered? || r.Failed?)
    ensures Sane(r, d) && Alone(d, r, poll, raised, n) == (d, r)
    decreases n
  {
    if n > 0 {
      Finished(d, r, poll, raised, n - 1);
    }
  }

  /** From raising on, alone. */
  lemma AloneRaises(d: Desk, provider: string, seen: Option<nat>, poll: Poll, n: nat)
    requires Valid(d) && Sane(Raising(provider, seen), d) && n >= 2
    ensures var e := Desk(d.invoices + [Invoice(provider, Pending)], Some(|d.invoices|));
            && Alone(d, Raising(provider, seen), poll, true, n) == (e, Answered(|d.invoices|))
            && Alone(d, Raising(provider, seen), poll, true, 1).0 == e.(current := d.current)
            && Alone(d, Raising(provider, seen), poll, false, n) == (d, Request.Failed)
  {
    var e := d.(invoices := d.invoices + [Invoice(provider, Pending)]);
    AdvanceEvolves(d, Raising(provider, seen), poll, true);
    assert Alone(d, Raising(provider, seen), poll, true, n) == Alone(e, Raised(|d.invoices|, seen), poll, true, n - 1);
    AdvanceEvolves(e, Raised(|d.invoices|, seen), poll, true);
    Finished(e.(current := Some(|d.invoices|)), Answered(|d.invoices|), poll, true, n - 2);
    Finished(d, Request.Failed, poll, false, n - 1);
  }

  /** Whether the request has another gateway's pending invoice to poll first. */
  predicate Asks(d: Desk, provider: string)
    requires Valid(d)
  {
    Reading(d, provider).Asking?
  }

  /** With nobody else at work the steps are the request taken as one: let through, refused by
      the gateway, or stopped before the booking is pointed at the new invoice. */
  lemma AloneIsInvoiceFor(d: Desk, provider: string, poll: Poll)
    requires Valid(d)
    ensures var r := Alone(d, Arrived(provider), poll, true, 6);
            (r.0, AnswerOf(r.1)) == InvoiceFor(d, provider, poll, Pointed)
    ensures var r := Alone(d, Arrived(provider), poll, false, 6);
            (r.0, AnswerOf(r.1)) == InvoiceFor(d, provider, poll, Refused)
    ensures Alone(d, Arrived(provider), poll, true, if Asks(d, provider) then 5 else 2).0
         == InvoiceFor(d, provider, poll, Stored).0
  {
    var r := Reading(d, provider);
    FirstAlone(d, provider, poll);
    hide Sane, Evolves, Alone;
    if r.Asking? {
      AloneAsks(d, provider, r.polled, poll);
    } else if r.Raising? {
      assert Sane(r, d) by { AdvanceEvolves(d, Arrived(provider), poll, true); }
      AloneRaises(d, provider, r.seen, poll, 5);
    } else {
      Finished(d, r, poll, true, 5);
      Finished(d, r, poll, false, 5);
      Finished(d, r, poll, true, 1);
    }
  }

  lemma FirstAlone(d: Desk, provider: string, poll: Poll)
    requires Valid(d)
    ensures Sane(Reading(d, provider), d)
    ensures forall raised, n: nat :: Alone(d, Arrived(provider), poll, raised, n + 1)
                                     == Alone(d, Reading(d, provider), poll, raised, n)
  {
    AdvanceEvolves(d, Arrived(provider), poll, true);
  }

  /** The same from polling another gateway's invoice on. */
  lemma AloneAsks(d: Desk, provider: string, i: nat, poll: Poll)
    requires Valid(d) && Reading(d, provider) == Asking(provider, i) && Sane(Asking(provider, i), d)
    ensures var r := Alone(d, Asking(provider, i), poll, true, 5);
            (r.0, AnswerOf(r.1)) == InvoiceFor(d, provider, poll, Pointed)
    ensures var r := Alone(d, Asking(provider, i), poll, false, 5);
            (r.0, AnswerOf(r.1)) == InvoiceFor(d, provider, poll, Refused)
    ensures Alone(d, Asking(provider, i), poll, true, 4).0 == InvoiceFor(d, provider, poll, Stored).0
  {
    if poll == Unpaid {
      var e := Marked(d, i, Cancelled);
      forall raised, n: nat
        ensures Sane(Raising(provider, Some(i)), e)
        ensures Alone(d, Asking(provider, i), poll, raised, n + 3)
             == Alone(e, Raising(provider, Some(i)), poll, raised, n) {
        AloneRetires(d, provider, i, raised, n);
      }
      AloneRaises(e, provider, Some(i), poll, 2);
    } else {
      var e := if poll == NowPaid then Marked(d, i, Paid) else d;
      var done := if poll == NowPaid then Answered(i) else Request.Failed;
      AdvanceEvolves(d, Asking(provider, i), poll, true);
      Finished(e, done, poll, true, 4);
      Finished(e, done, poll, false, 4);
      Finished(e, done, poll, true, 3);
    }
  }

  lemma AloneRetires(d: Desk, provider: string, i: nat, raised: bool, n: nat)
    requires Valid(d) && Sane(Asking(provider, i), d)
    ensures var e := Marked(d, i, Cancelled);
            && Valid(e) && Sane(Raising(provider, Some(i)), e)
            && Alone(d, Asking(provider, i), Unpaid, raised, n + 3)
               == Alone(e, Raising(provider, Some(i)), Unpaid, raised, n)
  {
    var e := Marked(d, i, Cancelled);
    AdvanceEvolves(d, Asking(provider, i), Unpaid, raised);
    AdvanceEvolves(d, Retiring(provider, i), Unpaid, raised);
    AdvanceEvolves(e, Rechecking(provider, i), Unpaid, raised);
    assert Alone(d, Asking(provider, i), Unpaid, raised, n + 3)
        == Alone(d, Retiring(provider, i), Unpaid, raised, n + 2)
        == Alone(e, Rechecking(provider, i), Unpaid, raised, n + 1);
    assert Alone(e, Rechecking(provider, i), Unpaid, raised, n + 1)
        == Alone(e, Raising(provider, Some(i)), Unpaid, raised, n);
  }
}
