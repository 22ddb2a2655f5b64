/** Safety and convergence of refunds: at every commit at most one receipt stands, for what
    the buyer has paid and not got back, and a request that was cut short can be repeated. */
module RefundsProof {
  import opened Wrappers
  import opened Books
  import BooksProof
  import opened Refunds

  /** Every receipt but the last has been returned; the last may stand, for exactly the money
      that has not gone back. */
  ghost predicate Matches(w: World) {
    && (forall i :: 0 <= i < |w.receipts| - 1 ==> w.receipts[i].status == Returned)
    && (w.receipts != [] ==> w.receipts[|w.receipts| - 1].status != ReceiptStatus.Failed)
    && (w.receipts != [] && Live(w.receipts[|w.receipts| - 1]) ==>
          w.receipts[|w.receipts| - 1].total == w.payment.amount - w.payment.refunded)
  }

  /** The numbers of the receipts that are issued. */
  function Standing(receipts: seq<Receipt>): set<nat> {
    set i | 0 <= i < |receipts| && receipts[i].status == Issued && receipts[i].ddtd.Some? :: receipts[i].ddtd.value
  }

  predicate Numbered(x: Receipt, minted: nat) {
    && (x.status == Issued ==> !x.tempMode && x.ddtd.Some? && x.ddtd.value < minted)
    && (x.status == Temp ==> x.tempMode)
  }

  /** The tax authority holds exactly the receipts that are issued here. */
  ghost predicate Mirrored(w: World) {
    && w.remote == Standing(w.receipts)
    && (forall i :: 0 <= i < |w.receipts| ==> Numbered(w.receipts[i], w.minted))
  }

  ghost predicate Safe(w: World) {
    BooksProof.Consistent(w.payment) && Matches(w) && Mirrored(w)
  }

  /** The partial unique index on payments of receipts that are not returned. */
  ghost predicate IndexAccepts(w: World) {
    forall i, j :: 0 <= i < |w.receipts| && 0 <= j < |w.receipts| && Live(w.receipts[i]) && Live(w.receipts[j]) ==>
        i == j
  }

  /** What the invariant means: one standing receipt at most, never for more than is kept. */
  lemma SafeMeans(w: World)
    requires Safe(w)
    ensures IndexAccepts(w)
    ensures forall i :: 0 <= i < |w.receipts| && Live(w.receipts[i]) ==>
            w.receipts[i].total <= w.payment.amount - w.payment.refunded
    ensures forall i :: 0 <= i < |w.receipts| ==> w.receipts[i].status != ReceiptStatus.Failed
  {
  }

  // --------------------------------------------------------------- single steps

  lemma ReturnKeeps(w: World, r: nat)
    requires Safe(w) && r < |w.receipts| && Live(w.receipts[r])
    ensures Safe(ReturnReceipt(w, r)) && NewestLive(ReturnReceipt(w, r).receipts).None?
  {
    var x, w' := w.receipts[r], ReturnReceipt(w, r);
    assert r == |w.receipts| - 1;
    assert Standing(w'.receipts) == {};
    assert Standing(w.receipts) == if x.status == Issued then {x.ddtd.value} else {};
  }

  lemma IssueKeeps(w: World, total: real, corrects: Option<nat>, live: bool)
    requires Safe(w) && NewestLive(w.receipts).None? && total == w.payment.amount - w.payment.refunded
    ensures Safe(Issue(w, total, corrects, live))
  {
    var w' := Issue(w, total, corrects, live);
    assert Standing(w.receipts) == {};
    assert w'.receipts[|w.receipts|].ddtd == if live then Some(w.minted) else None;
    assert Standing(w'.receipts) == if live then {w.minted} else {};
  }

  /** Money may move exactly when no receipt stands, or when it does not move at all. */
  lemma MoneyKeepsExactly(w: World, basis: Basis)
    requires Safe(w) && w.payment.status != Refunded && RefundTotal(w.payment, basis).Ok?
    ensures Safe(MoneyStep(w, basis)) <==>
            NewestLive(w.receipts).None? || RefundTotal(w.payment, basis).value == w.payment.refunded
  {
    BooksProof.RefundConsistent(w.payment, basis);
    hide BooksProof.Consistent, RefundTotal;
    var w' := MoneyStep(w, basis);
    assert w'.receipts == w.receipts && w'.remote == w.remote && w'.minted == w.minted;
    assert Mirrored(w') == Mirrored(w);
  }

  // --------------------------------------------------------------- one request

  /** No money moves: the request's total has gone back before, or its body is refused. */
  predicate MoneyStays(p: Payment, basis: Basis) {
    p.status == Refunded || RefundTotal(p, basis).Err? || RefundTotal(p, basis).value == p.refunded
  }

  /** Whether a refund leaves the books safe, read off before it starts: nothing stands, the
      receipt that stands is the one it voids, or no money moves. */
  predicate Sound(w: World, req: Request)
    requires Names(w, req)
  {
    || NewestLive(w.receipts).None?
    || (req.void && Resolved(w, req) == NewestLive(w.receipts))
    || MoneyStays(w.payment, req.basis)
  }

  /** After the void step nothing stands, or it had nothing to do. */
  lemma VoidKeeps(w: World, req: Request)
    requires Safe(w) && Names(w, req) && Planned(w, req).Ok?
    ensures var plan := Planned(w, req).value;
            var voided := VoidStep(w, plan);
            && Safe(voided) && voided.payment == w.payment && |voided.receipts| == |w.receipts|
            && (NewestLive(voided.receipts).None? || voided == w) && plan.outlook != NotIssued
    ensures w.payment.status != Refunded ==>
              var voided := VoidStep(w, Planned(w, req).value);
              (NewestLive(voided.receipts).None? || RefundTotal(w.payment, req.basis).value == w.payment.refunded)
              <==> Sound(w, req)
  {
    hide RefundTotal, Mirrored, BooksProof.Consistent;
    var plan := Planned(w, req).value;
    if plan.outlook == ToVoid {
      ReturnKeeps(w, plan.receipt.value);
    }
    assert NewestLive(w.receipts).Some? ==> NewestLive(w.receipts).value == |w.receipts| - 1;
  }

  lemma PaidKeepsExactly(w: World, req: Request)
    requires Safe(w) && Names(w, req) && Planned(w, req).Ok?
    ensures var voided := VoidStep(w, Planned(w, req).value);
            && (Safe(MoneyStep(voided, req.basis)) <==> Sound(w, req))
            && MoneyStep(voided, req.basis).receipts == voided.receipts
  {
    hide RefundTotal, Safe, VoidStep;
    VoidKeeps(w, req);
    var voided := VoidStep(w, Planned(w, req).value);
    if w.payment.status != Refunded {
      MoneyKeepsExactly(voided, req.basis);
    }
  }

  /** What the plan keeps is what the payment has left once the money step is through. */
  lemma KeptIsLeft(w: World, req: Request, paid: World)
    requires Safe(w) && Names(w, req) && Planned(w, req).Ok?
    requires paid.payment == MoneyStep(w, req.basis).payment && paid.payment.status == PartlyRefunded
    ensures Planned(w, req).value.kept == paid.payment.amount - paid.payment.refunded
  {
    hide RefundTotal;
  }

  /** The replacement step mends nothing and breaks nothing. */
  lemma ReplacedKeepsExactly(w: World, req: Request, live: bool, voided: World, paid: World)
    requires Safe(w) && Names(w, req) && Planned(w, req).Ok?
    requires voided == VoidStep(w, Planned(w, req).value) && paid == MoneyStep(voided, req.basis)
    requires Safe(voided) && voided.payment == w.payment
    ensures Safe(ReplacementStep(paid, Planned(w, req).value, req.void, live)) <==> Safe(paid)
  {
    hide RefundTotal, VoidStep, Planned, MoneyStep, Mirrored, BooksProof.Consistent;
    var plan := Planned(w, req).value;
    SamePayment(voided, w, req.basis);
    MoneyMovesNothingElse(voided, req.basis);
    MoneyIsConsistent(voided, req.basis);
    if NeedsReplacement(paid, plan, req.void) && !HasLiveFor(paid, plan.kept) {
      KeptIsLeft(w, req, paid);
      var k := |paid.receipts| - 1;
      var x := Issue(paid, plan.kept, plan.receipt, live);
      if NewestLive(paid.receipts).None? {
        assert Safe(paid);
        IssueKeeps(paid, plan.kept, plan.receipt, live);
      } else {
        assert Live(x.receipts[k]) && x.receipts[k] == paid.receipts[k];
      }
    }
  }

  lemma MoneyIsConsistent(w: World, basis: Basis)
    requires Safe(w)
    ensures BooksProof.Consistent(MoneyStep(w, basis).payment)
    ensures Mirrored(MoneyStep(w, basis))
  {
    if w.payment.status != Refunded && RefundTotal(w.payment, basis).Ok? {
      BooksProof.RefundConsistent(w.payment, basis);
    }
  }

  lemma SameReceipts(a: World, b: World, total: real)
    requires a.receipts == b.receipts
    ensures HasLiveFor(a, total) == HasLiveFor(b, total)
  {
  }

  /** Wherever a refund stops, whatever receipt it names and whether or not it voids: the books
      are safe exactly when the money step has not been reached or the request is sound. */
  lemma ReachedSafeExactly(w: World, req: Request, live: bool, n: nat)
    requires Safe(w) && Names(w, req)
    ensures Safe(Reached(w, req, live, n)) <==> n < 2 || Planned(w, req).Err? || Sound(w, req)
  {
    hide RefundTotal, Safe, VoidStep, MoneyStep, ReplacementStep, Planned, Sound;
    var plan := Planned(w, req);
    if plan.Ok? && n > 0 {
      var voided := VoidStep(w, plan.value);
      VoidKeeps(w, req);
      PaidKeepsExactly(w, req);
      var paid := MoneyStep(voided, req.basis);
      ReplacedKeepsExactly(w, req, live, voided, paid);
      SeatKeeps(ReplacementStep(paid, plan.value, req.void, live));
    }
  }

  /** So a sound refund may stop anywhere: at most one receipt stands, for exactly what the
      buyer has left, and the unique index accepts every commit on the way. */
  lemma ReachedKeeps(w: World, req: Request, live: bool, n: nat)
    requires Safe(w) && Names(w, req) && Sound(w, req)
    ensures Safe(Reached(w, req, live, n)) && IndexAccepts(Reached(w, req, live, n))
  {
    hide Safe, Sound, Reached, IndexAccepts;
    ReachedSafeExactly(w, req, live, n);
    SafeMeans(Reached(w, req, live, n));
  }

  lemma SeatKeeps(w: World)
    ensures Safe(w) <==> Safe(SeatStep(w))
  {
  }

  // -------------------------------------------------------------- repetition

  /** Everything but the seat. */
  ghost predicate SameMoney(a: World, b: World) {
    a == b.(seat := a.seat, enrolled := a.enrolled)
  }

  /** Repeating the request over a world it may have left: the same plan but for the receipt
      work already done, and the same money. */
  ghost predicate PlansAgain(w: World, req: Request, again: World) {
    Names(w, req) && Names(again, req) && Planned(w, req).Ok? && Planned(again, req).Ok? &&
    var plan, next := Planned(w, req).value, Planned(again, req).value;
    && VoidStep(again, next) == again
    && MoneyStep(again, req.basis).payment == MoneyStep(w, req.basis).payment
    && next.receipt == plan.receipt
    && (MoneyStep(w, req.basis).payment.status == PartlyRefunded ==>
          next.kept == plan.kept && next.outlook != NotIssued && plan.outlook != NotIssued)
  }

  lemma MoneyTwice(w: World, basis: Basis)
    requires Safe(w)
    ensures var once := MoneyStep(w, basis).payment;
            MoneyStep(w.(payment := once), basis).payment == once
    ensures MoneyStep(w, basis).payment.status == PartlyRefunded && RefundTotal(w.payment, basis).Ok? ==>
              var once := MoneyStep(w, basis).payment;
              Kept(once, basis) == Kept(w.payment, basis) && Kept(once, basis).Ok? && Kept(once, basis).value > 0.0
  {
    if w.payment.status != Refunded && RefundTotal(w.payment, basis).Ok? {
      BooksProof.RefundRepeats(w.payment, basis);
      hide RefundTotal;
    }
  }

  /** From the receipts that the void step leaves. */
  lemma AgainAfterVoid(w: World, req: Request, again: World)
    requires Safe(w) && Names(w, req) && Planned(w, req).Ok?
    requires again.receipts == VoidStep(w, Planned(w, req).value).receipts
    requires again.payment == w.payment || again.payment == MoneyStep(w, req.basis).payment
    ensures PlansAgain(w, req, again)
  {
    var plan := Planned(w, req).value;
    MoneyTwice(w, req.basis);
    VoidKeeps(w, req);
    hide RefundTotal, Mirrored, BooksProof.Consistent, Sound;
  }

  /** What a repetition reaches from where the money step left off. */
  lemma FromPaid(w: World, req: Request, live: bool, again: World)
    requires PlansAgain(w, req, again)
    requires var voided := VoidStep(w, Planned(w, req).value);
             voided.payment == w.payment && SameMoney(MoneyStep(again, req.basis), MoneyStep(voided, req.basis))
    ensures SameMoney(Reached(again, req, live, 3), Reached(w, req, live, 3))
  {
    hide RefundTotal, Planned;
    var plan, next := Planned(w, req).value, Planned(again, req).value;
    var paid, paid' := MoneyStep(VoidStep(w, plan), req.basis), MoneyStep(again, req.basis);
    assert paid.payment == MoneyStep(w, req.basis).payment;
    SameReceipts(paid, paid', plan.kept);
    MoneyMovesNothingElse(again, req.basis);
    SameReceipts(again, paid', plan.kept);
  }

  lemma MoneyMovesNothingElse(w: World, basis: Basis)
    ensures MoneyStep(w, basis) == w.(payment := MoneyStep(w, basis).payment)
  {
  }

  lemma SamePayment(a: World, b: World, basis: Basis)
    requires a.payment == b.payment
    ensures MoneyStep(a, basis).payment == MoneyStep(b, basis).payment
  {
  }

  /** A stop that left other receipts than the void step did has issued the replacement. */
  lemma ReplacementIsLast(w: World, req: Request, live: bool, again: World)
    requires Names(w, req) && Planned(w, req).Ok? && SameMoney(again, Reached(w, req, live, 3))
    requires again.receipts != VoidStep(w, Planned(w, req).value).receipts
    ensures var plan := Planned(w, req).value;
            var paid := MoneyStep(VoidStep(w, plan), req.basis);
            && NeedsReplacement(paid, plan, req.void) && !HasLiveFor(VoidStep(w, plan), plan.kept)
            && again.payment == paid.payment && |again.receipts| == |paid.receipts| + 1
            && paid.receipts == again.receipts[..|paid.receipts|] == VoidStep(w, plan).receipts
            && again.receipts[|paid.receipts|].status in {Temp, Issued}
                && again.receipts[|paid.receipts|].total == plan.kept
  {
    hide RefundTotal, Planned, VoidStep;
    var plan := Planned(w, req).value;
    var voided := VoidStep(w, plan);
    MoneyMovesNothingElse(voided, req.basis);
    SameReceipts(MoneyStep(voided, req.basis), voided, plan.kept);
  }

  /** A replacement that stands is what a repetition finds, under whichever name. */
  lemma AgainAfterReplacement(w: World, req: Request, live: bool, again: World)
    requires Safe(w) && Names(w, req) && Planned(w, req).Ok?
    requires SameMoney(again, Reached(w, req, live, 3))
    requires again.receipts != VoidStep(w, Planned(w, req).value).receipts
    ensures Names(again, req) && Planned(again, req).Ok?
    ensures VoidStep(again, Planned(again, req).value) == again && MoneyStep(again, req.basis) == again
    ensures SameMoney(Reached(again, req, live, 3), again)
  {
    hide RefundTotal, Safe, VoidStep, Sound, Reached;
    var plan := Planned(w, req).value;
    var voided := VoidStep(w, plan);
    var paid := MoneyStep(voided, req.basis);
    VoidKeeps(w, req);
    MoneyTwice(w, req.basis);
    SamePayment(voided, w, req.basis);
    ReplacementIsLast(w, req, live, again);
    if req.receipt.Some? { NamedIsReturned(w, req, voided); }
    SamePayment(again, w.(payment := paid.payment), req.basis);
    MoneyMovesNothingElse(again, req.basis);
    var k := |again.receipts| - 1;
    assert again.receipts[..k] == voided.receipts;
    assert req.receipt.None? ==> Resolved(again, req) == Some(k);
    assert Planned(again, req).Ok? && Planned(again, req).value.outlook in {AlreadyCorrected, AlreadyReturned};
    VoidsNothing(again, Planned(again, req).value);
    FindsReplacement(again, req, live, k);
  }

  lemma FindsReplacement(again: World, req: Request, live: bool, k: nat)
    requires Names(again, req) && Planned(again, req).Ok? && k < |again.receipts| && Live(again.receipts[k])
    requires again.receipts[k].total == Planned(again, req).value.kept
    requires VoidStep(again, Planned(again, req).value) == again && MoneyStep(again, req.basis) == again
    ensures SameMoney(Reached(again, req, live, 3), again)
  {
    hide RefundTotal, Planned, VoidStep, MoneyStep;
    assert HasLiveFor(again, Planned(again, req).value.kept);
  }

  /** After a void step that leaves no receipt for what is kept, the receipt a request names
      is a returned one. */
  lemma NamedIsReturned(w: World, req: Request, voided: World)
    requires Safe(w) && Names(w, req) && req.receipt.Some? && req.void && Planned(w, req).Ok?
    requires voided == VoidStep(w, Planned(w, req).value) && !HasLiveFor(voided, Planned(w, req).value.kept)
    ensures req.receipt.value < |voided.receipts| && voided.receipts[req.receipt.value].status == Returned
  {
    hide RefundTotal, BooksProof.Consistent, Mirrored;
    var r, kept := req.receipt.value, Planned(w, req).value.kept;
    assert voided.receipts[r].total == kept ==> !Live(voided.receipts[r]);
  }

  lemma VoidsNothing(w: World, plan: Plan)
    requires (plan.receipt.Some? ==> plan.receipt.value < |w.receipts|) && plan.outlook != ToVoid
    ensures VoidStep(w, plan) == w
  {
  }

  lemma VoidIsBlind(a: World, b: World, plan: Plan)
    requires SameMoney(a, b) && (plan.receipt.Some? ==> plan.receipt.value < |a.receipts|)
    ensures SameMoney(VoidStep(a, plan), VoidStep(b, plan))
  {
  }

  lemma MoneyIsBlind(a: World, b: World, basis: Basis)
    requires SameMoney(a, b)
    ensures SameMoney(MoneyStep(a, basis), MoneyStep(b, basis))
  {
    hide RefundTotal;
  }

  lemma ReplacementIsBlind(a: World, b: World, plan: Plan, void: bool, live: bool)
    requires SameMoney(a, b)
    ensures SameMoney(ReplacementStep(a, plan, void, live), ReplacementStep(b, plan, void, live))
  {
    SameReceipts(a, b, plan.kept);
  }

  /** No step looks at the seat. */
  lemma SeatBlind(a: World, b: World, req: Request, live: bool, n: nat)
    requires SameMoney(a, b) && Names(a, req)
    ensures SameMoney(Reached(a, req, live, n), Reached(b, req, live, n))
  {
    hide VoidStep, MoneyStep, ReplacementStep, RefundTotal;
    assert Planned(a, req) == Planned(b, req);
    if Planned(a, req).Ok? && n > 0 {
      var plan := Planned(a, req).value;
      hide Planned, NothingToUndo;
      VoidIsBlind(a, b, plan);
      MoneyIsBlind(VoidStep(a, plan), VoidStep(b, plan), req.basis);
      ReplacementIsBlind(MoneyStep(VoidStep(a, plan), req.basis), MoneyStep(VoidStep(b, plan), req.basis),
                         plan, req.void, live);
    }
  }

  /** The seat step changes no money: a world got through is one that stopped before it. */
  lemma ThroughIsThree(w: World, req: Request, live: bool, n: nat)
    requires Names(w, req) && n >= 3
    ensures SameMoney(Reached(w, req, live, n), Reached(w, req, live, 3))
  {
  }

  /** Either the receipts grow or nothing has changed. */
  lemma ReplacementAppends(w: World, plan: Plan, void: bool, live: bool)
    ensures ReplacementStep(w, plan, void, live).receipts == w.receipts ==> ReplacementStep(w, plan, void, live) == w
    ensures ReplacementStep(w, plan, void, live).payment == w.payment
  {
  }

  function Max(a: nat, b: nat): nat {
    if a < b then b else a
  }

  /** Resuming: a request stopped after n steps and repeated for m has done what one attempt
      of the longer of the two does. */
  lemma Resumes(w: World, req: Request, live: bool, n: nat, again: World, m: nat)
    requires Safe(w) && Names(w, req) && SameMoney(again, Reached(w, req, live, n))
    ensures SameMoney(Reached(again, req, live, m), Reached(w, req, live, Max(n, m)))
  {
    hide RefundTotal, Safe, VoidStep, MoneyStep, ReplacementStep, Planned, PlansAgain;
    if Planned(w, req).Err? || n == 0 || m == 0 {
      SeatBlind(again, Reached(w, req, live, n), req, live, m);
    } else {
      if n >= 3 { ThroughIsThree(w, req, live, n); }
      var plan := Planned(w, req).value;
      var voided := VoidStep(w, plan);
      var paid := MoneyStep(voided, req.basis);
      VoidKeeps(w, req);
      SamePayment(voided, w, req.basis);
      MoneyMovesNothingElse(voided, req.basis);
      if again.receipts == voided.receipts {
        ReplacementAppends(paid, plan, req.void, live);
        AgainAfterVoid(w, req, again);
        ResumesBefore(w, req, live, n, again, m);
      } else {
        AgainAfterReplacement(w, req, live, again);
      }
      if m >= 3 {
        ThroughIsThree(again, req, live, m);
        ThroughIsThree(w, req, live, Max(n, m));
      }
    }
  }

  /** The case in which no replacement has been issued yet. */
  lemma ResumesBefore(w: World, req: Request, live: bool, n: nat, again: World, m: nat)
    requires Names(w, req) && PlansAgain(w, req, again) && n > 0 && m > 0
    requires var voided := VoidStep(w, Planned(w, req).value);
             && voided.payment == w.payment && again.receipts == voided.receipts
             && SameMoney(again, if n == 1 then voided else MoneyStep(voided, req.basis))
    requires n >= 3 ==> SameMoney(again, Reached(w, req, live, 3))
    ensures m >= 3 ==> SameMoney(Reached(again, req, live, 3), Reached(w, req, live, 3))
    ensures m < 3 ==> SameMoney(Reached(again, req, live, m), Reached(w, req, live, Max(n, m)))
  {
    hide RefundTotal, Planned, VoidStep, ReplacementStep;
    var voided := VoidStep(w, Planned(w, req).value);
    MoneyMovesNothingElse(again, req.basis);
    MoneyMovesNothingElse(voided, req.basis);
    SamePayment(voided, w, req.basis);
    FromPaid(w, req, live, again);
    if n > 3 { ThroughIsThree(w, req, live, n); }
  }

  /** Retry convergence: wherever a request stops, whatever receipt it names and whether or not
      it voids, repeating it reaches the payment and the receipts of a run that never stopped;
      n == 3 and 4 are the repetitions of a finished one. */
  lemma RetryConverges(w: World, req: Request, live: bool, n: nat)
    requires Safe(w) && Names(w, req)
    ensures SameMoney(Reached(Reached(w, req, live, n), req, live, 3), Reached(w, req, live, 3))
  {
    hide Safe, Reached;
    Resumes(w, req, live, n, Reached(w, req, live, n), 3);
    ThroughIsThree(w, req, live, Max(n, 3));
  }

  /** The same request sent again and again, stopping each time where `stops` says. */
  function Retried(w: World, req: Request, live: bool, stops: seq<nat>): (again: World)
    requires Names(w, req)
    ensures Names(again, req)
    decreases |stops|
  {
    if stops == [] then w
    else Reached(Retried(w, req, live, stops[..|stops| - 1]), req, live, stops[|stops| - 1])
  }

  function Farthest(stops: seq<nat>): nat
    decreases |stops|
  {
    if stops == [] then 0 else Max(Farthest(stops[..|stops| - 1]), stops[|stops| - 1])
  }

  /** Any number of attempts leaves what the one that got farthest leaves by itself. */
  lemma {:induction false} RetriedIsFarthest(w: World, req: Request, live: bool, stops: seq<nat>)
    requires Safe(w) && Names(w, req)
    ensures SameMoney(Retried(w, req, live, stops), Reached(w, req, live, Farthest(stops)))
    decreases |stops|
  {
    hide Safe;
    if stops == [] {
    } else {
      RetriedIsFarthest(w, req, live, stops[..|stops| - 1]);
      hide Reached;
      Resumes(w, req, live, Farthest(stops[..|stops| - 1]),
              Retried(w, req, live, stops[..|stops| - 1]), stops[|stops| - 1]);
    }
  }

  /** However often it is cut short, a request that is at last let through leaves the payment
      and receipts it would have left the first time; sending it again changes neither. */
  lemma RetriesConverge(w: World, req: Request, live: bool, stops: seq<nat>)
    requires Safe(w) && Names(w, req)
    ensures SameMoney(Reached(Retried(w, req, live, stops), req, live, 3), Reached(w, req, live, 3))
  {
    hide Safe, Reached;
    RetriedIsFarthest(w, req, live, stops);
    Resumes(w, req, live, Farthest(stops), Retried(w, req, live, stops), 3);
    ThroughIsThree(w, req, live, Max(Farthest(stops), 3));
  }

  lemma SafeIsBlind(a: World, b: World)
    requires SameMoney(a, b)
    ensures Safe(a) <==> Safe(b)
  {
  }

  /** A sound request stays sound, wherever it stops: its repetitions are sound too. */
  lemma SoundAgain(w: World, req: Request, live: bool, n: nat)
    requires Safe(w) && Names(w, req) && Sound(w, req)
    ensures Sound(Reached(w, req, live, n), req)
  {
    hide Safe, Reached, RefundTotal;
    var again := Reached(w, req, live, n);
    Resumes(w, req, live, n, again, 2);
    ReachedSafeExactly(w, req, live, n);
    ReachedSafeExactly(w, req, live, Max(n, 2));
    SafeIsBlind(Reached(again, req, live, 2), Reached(w, req, live, Max(n, 2)));
    ReachedSafeExactly(again, req, live, 2);
  }

  lemma SeatOfSteps(w: World, plan: Plan, req: Request, live: bool)
    requires plan.receipt.Some? ==> plan.receipt.value < |w.receipts|
    ensures VoidStep(w, plan).seat == MoneyStep(w, req.basis).seat == ReplacementStep(w, plan, req.void, live).seat
            == w.seat
    ensures |VoidStep(w, plan).receipts| == |w.receipts|
    ensures w.payment.status == Refunded ==>
              VoidStep(w, plan).payment == w.payment && MoneyStep(w, req.basis) == w
              && ReplacementStep(w, plan, req.void, live) == w
  {
    hide RefundTotal;
  }

  /** A request over a payment that has gone back in full. */
  lemma SeatOfRefunded(w: World, req: Request, live: bool)
    requires Names(w, req) && w.payment.status == Refunded
    ensures Planned(w, req).Ok?
    ensures Reached(w, req, live, 4).seat
         == if NothingToUndo(w, Planned(w, req).value) then w.seat else SeatStep(w).seat
  {
    hide RefundTotal, VoidStep, MoneyStep, ReplacementStep;
    var plan := Planned(w, req).value;
    var voided := VoidStep(w, plan);
    SeatOfSteps(w, plan, req, live);
    SeatOfSteps(voided, plan, req, live);
  }

  /** The seat is another matter: when the money of a full refund is through and the seat is
      not, a repetition gives the seat back exactly when the request leaves a receipt standing
      on purpose. All others are answered 409 and the seat stays taken. */
  lemma SeatAfterRetry(w: World, req: Request, live: bool, n: nat)
    requires Safe(w) && Names(w, req) && n < 4 && (w.seat == Held || w.seat == Sold)
    requires w.payment.status != Refunded && Reached(w, req, live, 2).payment.status == Refunded
    ensures Reached(w, req, live, 4).seat == Seat.Cancelled
    ensures Reached(Reached(w, req, live, n), req, live, 4).seat == Seat.Cancelled
            <==> n < 2 || (!req.void && w.receipts != [])
    ensures n >= 2 && (req.void || w.receipts == []) ==>
              Planned(Reached(w, req, live, n), req).Ok?
              && NothingToUndo(Reached(w, req, live, n), Planned(Reached(w, req, live, n), req).value)
  {
    hide RefundTotal, BooksProof.Consistent, Mirrored, Sound, HasLiveFor, ReplacementStep;
    var plan := Planned(w, req).value;
    var voided := VoidStep(w, plan);
    var paid := MoneyStep(voided, req.basis);
    VoidKeeps(w, req);
    MoneyMovesNothingElse(voided, req.basis);
    SeatOfSteps(paid, plan, req, live);
    SeatOfSteps(voided, plan, req, live);
    if n == 1 {
      AgainAfterVoid(w, req, voided);
      SeatOfSteps(paid, Planned(voided, req).value, req, live);
    } else if n >= 2 {
      SeatOfRefunded(paid, req, live);
    }
  }

  // ------------------------------------------------------ where the premises matter

  /** Naming an old, returned receipt of a payment whose replacement stands: a different
      partial refund then asks for a second standing receipt, which the index refuses. */
  lemma NamingReturnedTripsIndex(w: World, req: Request, live: bool)
    requires Safe(w) && Names(w, req) && req.void && Planned(w, req).Ok? && w.payment.status != Refunded
    requires req.receipt.Some? && w.receipts[req.receipt.value].status == Returned && NewestLive(w.receipts).Some?
    requires RefundTotal(w.payment, req.basis).value != w.payment.refunded
    requires RefundTotal(w.payment, req.basis).value < w.payment.amount
    ensures !IndexAccepts(Reached(w, req, live, 3))
  {
    hide RefundTotal, BooksProof.Consistent, Mirrored;
    var plan := Planned(w, req).value;
    var paid := MoneyStep(w, req.basis);
    var k := |w.receipts| - 1;
    assert !HasLiveFor(paid, plan.kept);
    var done := Issue(paid, plan.kept, plan.receipt, live);
    assert Reached(w, req, live, 3) == done;
    assert Live(done.receipts[k]) && Live(done.receipts[k + 1]);
  }

  /** A first receipt is for the whole payment, so it must come before any refund. */
  lemma IssueKeepsExactly(w: World, live: bool)
    requires Safe(w)
    ensures Safe(IssueForPayment(w, live)) <==> w.receipts != [] || w.payment.refunded == 0.0
  {
    if w.receipts == [] {
      if w.payment.refunded == 0.0 {
        IssueKeeps(w, w.payment.amount, None, live);
      } else {
        assert IssueForPayment(w, live).receipts[0].total == w.payment.amount;
      }
    }
  }

  /** A receipt that was returned in temp mode can be sent to the tax authority all the same. */
  lemma ReissueKeepsExactly(w: World, r: nat)
    requires Safe(w) && r < |w.receipts| && w.receipts[r].tempMode
    ensures Safe(Reissue(w, r)) <==>
            w.receipts[r].status != Returned
            || (r == |w.receipts| - 1 && w.receipts[r].total == w.payment.amount - w.payment.refunded)
  {
    var w' := Reissue(w, r);
    var last := |w.receipts| - 1;
    assert w'.receipts[r].status == Issued && |w'.receipts| == |w.receipts|;
    if r == last {
      assert Standing(w.receipts) == {};
      assert Standing(w'.receipts) == {w.minted} by {
        assert w'.receipts[r].ddtd == Some(w.minted);
      }
    }
  }

  /** A receipt whose row cannot be stored leaves no trace exactly when the tax authority
      never had it or takes its number back. */
  lemma PersistKeepsExactly(w: World, total: real, corrects: Option<nat>, live: bool, stored: bool, handedBack: bool)
    requires Safe(w) && NewestLive(w.receipts).None? && total == w.payment.amount - w.payment.refunded
    ensures Safe(PersistOrVoid(w, Issue(w, total, corrects, live), stored, handedBack))
            <==> stored || handedBack || !live
  {
    IssueKeeps(w, total, corrects, live);
    if !stored && !handedBack && live {
      assert w.minted in PersistOrVoid(w, Issue(w, total, corrects, live), stored, handedBack).remote;
      assert w.minted !in Standing(w.receipts);
    }
  }

  // --------------------------------------------------------------- whole runs

  datatype Deed =
    | IssueFirst(live: bool)
    | Refund(req: Request, live: bool, steps: nat)
    | Return(receipt: nat)
    | SendTemp(receipt: nat)

  /** What keeps a run safe: returns of standing receipts, sending of temp ones, a first receipt
      before any refund, and refunds under any reference that are sound or stop before the
      money step. Repetitions of a sound one are sound. */
  predicate Allowed(w: World, d: Deed) {
    match d
    case IssueFirst(_) => w.receipts != [] || w.payment.refunded == 0.0
    case Refund(req, _, n) => Names(w, req) && (n < 2 || Planned(w, req).Err? || Sound(w, req))
    case Return(r) => r < |w.receipts| && Live(w.receipts[r])
    case SendTemp(r) => r < |w.receipts| && w.receipts[r].status == Temp
  }

  function Do(w: World, d: Deed): World
    requires Allowed(w, d)
  {
    match d
    case IssueFirst(live) => IssueForPayment(w, live)
    case Refund(req, live, n) => Reached(w, req, live, n)
    case Return(r) => ReturnReceipt(w, r)
    case SendTemp(r) => Reissue(w, r)
  }

  predicate Orderly(w: World, deeds: seq<Deed>)
    decreases |deeds|
  {
    deeds == [] || (Allowed(w, deeds[0]) && Orderly(Do(w, deeds[0]), deeds[1..]))
  }

  function After(w: World, deeds: seq<Deed>): World
    requires Orderly(w, deeds)
    decreases |deeds|
  {
    if deeds == [] then w else After(Do(w, deeds[0]), deeds[1..])
  }

  lemma DoKeeps(w: World, d: Deed)
    requires Safe(w) && Allowed(w, d)
    ensures Safe(Do(w, d))
  {
    match d {
      case IssueFirst(live) => IssueKeepsExactly(w, live);
      case Refund(req, live, n) => ReachedSafeExactly(w, req, live, n);
      case Return(r) => ReturnKeeps(w, r);
      case SendTemp(r) => if w.receipts[r].tempMode { ReissueKeepsExactly(w, r); }
    }
  }

  /** After every commit of every run of refunds, failures, retries, returns and sendings. */
  lemma {:induction false} RunIsSafe(w: World, deeds: seq<Deed>)
    requires Safe(w) && Orderly(w, deeds)
    ensures Safe(After(w, deeds)) && IndexAccepts(After(w, deeds))
    decreases |deeds|
  {
    hide Safe, IndexAccepts, Do, Allowed;
    if deeds == [] {
      SafeMeans(w);
    } else {
      DoKeeps(w, deeds[0]);
      RunIsSafe(Do(w, deeds[0]), deeds[1..]);
    }
  }
}
