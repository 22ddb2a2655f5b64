/** Reconciling a bank statement (app/services/payments/callbacks.py:84-112): each pending
    invoice is settled with the first line of the statement that matches it. */
module Reconcile {
  import opened Wrappers
  import opened Books
  import opened BooksProof
  import opened Confluence

  /** A credit on the statement; some carry no transaction id. */
  datatype Line = Line(txn: string, amount: real, text: string)

  /** Whether a line is for the invoice with this reference and amount. */
  type Matcher = (string, real, Line) -> bool

  function FirstMatch(v: Invoice, lines: seq<Line>, matches: Matcher): Option<Line> {
    if lines == [] then None
    else if matches(v.reference, v.amount, lines[0]) then Some(lines[0])
    else FirstMatch(v, lines[1..], matches)
  }

  function ReportOf(line: Line): Report {
    Report(true, line.txn, Some(line.amount))
  }

  predicate Awaiting(b: Books, i: nat) {
    i in b.invoices && b.invoices[i].provider == "golomt" && b.invoices[i].status == Pending
  }

  /** The line is the first of the statement that matches. */
  lemma {:induction false} FirstMatchReads(v: Invoice, lines: seq<Line>, matches: Matcher)
    ensures FirstMatch(v, lines, matches) == None ==>
              forall k :: 0 <= k < |lines| ==> !matches(v.reference, v.amount, lines[k])
    ensures FirstMatch(v, lines, matches) != None ==>
              exists k :: 0 <= k < |lines| && FirstMatch(v, lines, matches) == Some(lines[k])
                          && matches(v.reference, v.amount, lines[k])
                          && forall j :: 0 <= j < k ==> !matches(v.reference, v.amount, lines[j])
    decreases |lines|
  {
    if lines != [] && !matches(v.reference, v.amount, lines[0]) {
      FirstMatchReads(v, lines[1..], matches);
      if FirstMatch(v, lines[1..], matches) != None {
        var k :| 0 <= k < |lines[1..]| && FirstMatch(v, lines[1..], matches) == Some(lines[1..][k])
                 && matches(v.reference, v.amount, lines[1..][k])
                 && forall j :: 0 <= j < k ==> !matches(v.reference, v.amount, lines[1..][j]);
        assert lines[k + 1] == lines[1..][k];
        assert forall j :: 0 < j < k + 1 ==> lines[j] == lines[1..][j - 1];
      }
    }
  }

  /** One invoice of the pending list, as it was when the list was read. */
  ghost function Try(b: Books, i: nat, lines: seq<Line>, matches: Matcher): Books
    requires Linked(b) && i in b.invoices
  {
    var line := FirstMatch(b.invoices[i], lines, matches);
    if line.None? then b else Settle(b, i, ReportOf(line.value))
  }

  /** The pending invoices one after another, and how many of them were settled. */
  ghost function Through(b: Books, ids: seq<nat>, lines: seq<Line>, matches: Matcher): (Books, nat)
    decreases |ids|
  {
    if ids == [] || !Linked(b) || ids[0] !in b.invoices then (b, 0)
    else
      var line := FirstMatch(b.invoices[ids[0]], lines, matches);
      var rest := Through(Try(b, ids[0], lines, matches), ids[1..], lines, matches);
      (rest.0, rest.1 + if line.Some? && Confirms(b, ids[0], ReportOf(line.value)) then 1 else 0)
  }

  /** An invoice that a second pass would leave as it is: it has no line, or its line's
      payment is recorded and does not reach its amount. */
  ghost predicate Done(b: Books, i: nat, lines: seq<Line>, matches: Matcher) {
    i in b.invoices &&
    var v := b.invoices[i];
    var line := FirstMatch(v, lines, matches);
    line.Some? ==>
      var k := KeyOf(v, ReportOf(line.value));
      k in b.payments && (v.status == Pending ==> Short(v, b.payments[k].amount))
  }

  /** Only statuses of invoices change, and payments are only added. */
  ghost predicate Later(b: Books, b': Books) {
    && b'.invoices.Keys == b.invoices.Keys
    && (forall i :: i in b.invoices ==> b'.invoices[i].(status := b.invoices[i].status) == b.invoices[i])
    && (forall i :: i in b.invoices ==> b'.invoices[i].status == b.invoices[i].status || b'.invoices[i].status == Paid)
    && (forall k :: k in b.payments ==> k in b'.payments && b'.payments[k] == b.payments[k])
  }

  lemma SameMatch(v: Invoice, w: Invoice, lines: seq<Line>, matches: Matcher)
    requires v.reference == w.reference && v.amount == w.amount
    ensures FirstMatch(v, lines, matches) == FirstMatch(w, lines, matches)
  {
  }

  lemma StaysDone(b: Books, b': Books, i: nat, lines: seq<Line>, matches: Matcher)
    requires Later(b, b') && Done(b, i, lines, matches)
    ensures Done(b', i, lines, matches)
  {
    SameMatch(b.invoices[i], b'.invoices[i], lines, matches);
    assert b'.invoices[i].(status := b.invoices[i].status) == b.invoices[i];
  }

  lemma TryIsLater(b: Books, i: nat, lines: seq<Line>, matches: Matcher)
    requires Linked(b) && i in b.invoices
    ensures Later(b, Try(b, i, lines, matches)) && Done(Try(b, i, lines, matches), i, lines, matches)
  {
    hide Linked, Rolled, Settle, KeyOf;
    var line := FirstMatch(b.invoices[i], lines, matches);
    if line.Some? {
      var r := ReportOf(line.value);
      var b' := Settle(b, i, r);
      SettledRows(b, i, r);
      SameMatch(b.invoices[i], b'.invoices[i], lines, matches);
      SameKey(b.invoices[i], b'.invoices[i], r);
    }
  }

  lemma SameKey(v: Invoice, w: Invoice, r: Report)
    requires v.provider == w.provider && v.reference == w.reference
    ensures KeyOf(v, r) == KeyOf(w, r)
  {
  }

  lemma LaterTwice(a: Books, b: Books, c: Books)
    requires Later(a, b) && Later(b, c)
    ensures Later(a, c)
  {
    forall i | i in a.invoices
      ensures c.invoices[i].(status := a.invoices[i].status) == a.invoices[i]
      ensures c.invoices[i].status == a.invoices[i].status || c.invoices[i].status == Paid
    {
      assert b.invoices[i].(status := a.invoices[i].status) == a.invoices[i];
      assert c.invoices[i].(status := b.invoices[i].status) == b.invoices[i];
    }
  }

  lemma {:induction false} ThroughFinishes(b: Books, ids: seq<nat>, lines: seq<Line>, matches: Matcher)
    requires Sound(b) && forall j :: 0 <= j < |ids| ==> ids[j] in b.invoices
    ensures Sound(Through(b, ids, lines, matches).0) && Later(b, Through(b, ids, lines, matches).0)
    ensures forall j :: 0 <= j < |ids| ==> Done(Through(b, ids, lines, matches).0, ids[j], lines, matches)
    decreases |ids|
  {
    hide Later, Done, Try, Linked, AllConsistent, InStep, Settle;
    if ids == [] {
      LaterNow(b);
    } else {
      var b' := Try(b, ids[0], lines, matches);
      TryKeeps(b, ids[0], lines, matches);
      TryIsLater(b, ids[0], lines, matches);
      SameInvoices(b, b');
      ThroughFinishes(b', ids[1..], lines, matches);
      var c := Through(b', ids[1..], lines, matches).0;
      LaterTwice(b, b', c);
      StaysDone(b', c, ids[0], lines, matches);
      forall j | 0 <= j < |ids| ensures Done(c, ids[j], lines, matches) {
        if j > 0 { assert ids[1..][j - 1] == ids[j]; }
      }
    }
  }

  lemma LaterNow(b: Books)
    ensures Later(b, b)
  {
  }

  lemma SameInvoices(b: Books, b': Books)
    requires Later(b, b')
    ensures b'.invoices.Keys == b.invoices.Keys
  {
  }

  lemma TryKeeps(b: Books, i: nat, lines: seq<Line>, matches: Matcher)
    requires Sound(b) && i in b.invoices
    ensures Sound(Try(b, i, lines, matches))
  {
    var line := FirstMatch(b.invoices[i], lines, matches);
    if line.Some? {
      SettleKeeps(b, i, ReportOf(line.value));
    }
  }

  lemma DoneStays(b: Books, i: nat, lines: seq<Line>, matches: Matcher)
    requires Linked(b) && Done(b, i, lines, matches) && Awaiting(b, i)
    ensures Try(b, i, lines, matches) == b
    ensures FirstMatch(b.invoices[i], lines, matches).Some? ==>
              !Confirms(b, i, ReportOf(FirstMatch(b.invoices[i], lines, matches).value))
  {
  }

  lemma {:induction false} NothingLeft(b: Books, ids: seq<nat>, lines: seq<Line>, matches: Matcher)
    requires Linked(b) && forall j :: 0 <= j < |ids| ==> Awaiting(b, ids[j]) && Done(b, ids[j], lines, matches)
    ensures Through(b, ids, lines, matches) == (b, 0)
    decreases |ids|
  {
    hide Done, Try, Linked, Confirms;
    if ids != [] {
      DoneStays(b, ids[0], lines, matches);
      NothingLeft(b, ids[1..], lines, matches);
    }
  }

  /** Reconciling the same statement again settles nothing and changes nothing: `ids` are the
      pending invoices of the first run, `again` those still pending at the second. */
  lemma ReconcileAgain(b: Books, ids: seq<nat>, again: seq<nat>, lines: seq<Line>, matches: Matcher)
    requires Sound(b) && (forall j :: 0 <= j < |ids| ==> ids[j] in b.invoices)
    requires forall i :: Awaiting(b, i) ==> i in ids
    requires forall j :: 0 <= j < |again| ==> Awaiting(Through(b, ids, lines, matches).0, again[j])
    ensures Through(Through(b, ids, lines, matches).0, again, lines, matches) == (Through(b, ids, lines, matches).0, 0)
  {
    hide Done, Linked, Through, AllConsistent, InStep;
    var once := Through(b, ids, lines, matches).0;
    ThroughFinishes(b, ids, lines, matches);
    forall j | 0 <= j < |again| ensures Done(once, again[j], lines, matches) {
      assert Awaiting(once, again[j]);
      assert Awaiting(b, again[j]) by {
        assert once.invoices[again[j]].(status := b.invoices[again[j]].status) == b.invoices[again[j]];
      }
    }
    NothingLeft(once, again, lines, matches);
  }

  // ---------------------------------------------------------------- the count

  /** One invoice's turn changes no other invoice, and settles its own exactly when it is
      counted. */
  lemma TryCounts(b: Books, i: nat, lines: seq<Line>, matches: Matcher)
    requires Linked(b) && i in b.invoices && b.invoices[i].status == Pending
    ensures var line, after := FirstMatch(b.invoices[i], lines, matches), Try(b, i, lines, matches);
            && after.invoices.Keys == b.invoices.Keys
            && (forall j :: j in b.invoices && j != i ==> after.invoices[j] == b.invoices[j])
            && (after.invoices[i].status == Paid <==> line.Some? && Confirms(b, i, ReportOf(line.value)))
  {
    var line := FirstMatch(b.invoices[i], lines, matches);
    if line.Some? {
      SettledRows(b, i, ReportOf(line.value));
      hide Settle, Confirms, Linked;
    }
  }

  function PaidAmong(b: Books, ids: seq<nat>): set<nat>
    requires forall j :: 0 <= j < |ids| ==> ids[j] in b.invoices
  {
    set j | 0 <= j < |ids| && b.invoices[ids[j]].status == Paid :: ids[j]
  }

  ghost predicate AllPending(b: Books, ids: seq<nat>) {
    && (forall j :: 0 <= j < |ids| ==> ids[j] in b.invoices && b.invoices[ids[j]].status == Pending)
    && forall j, k :: 0 <= j < k < |ids| ==> ids[j] != ids[k]
  }

  lemma PendingStays(b: Books, after: Books, ids: seq<nat>)
    requires ids != [] && AllPending(b, ids) && after.invoices.Keys == b.invoices.Keys
    requires forall j :: j in b.invoices && j != ids[0] ==> after.invoices[j] == b.invoices[j]
    ensures AllPending(after, ids[1..]) && ids[0] !in ids[1..]
  {
  }

  lemma PaidFirst(b: Books, ids: seq<nat>)
    requires ids != [] && ids[0] !in ids[1..] && forall j :: 0 <= j < |ids| ==> ids[j] in b.invoices
    ensures |PaidAmong(b, ids)| == |PaidAmong(b, ids[1..])| + if b.invoices[ids[0]].status == Paid then 1 else 0
  {
    var rest := PaidAmong(b, ids[1..]);
    assert PaidAmong(b, ids) == rest + if b.invoices[ids[0]].status == Paid then {ids[0]} else {} by {
      forall x | x in PaidAmong(b, ids) ensures x in rest || (x == ids[0] && b.invoices[ids[0]].status == Paid) {
        var j :| 0 <= j < |ids| && b.invoices[ids[j]].status == Paid && ids[j] == x;
        assert j > 0 ==> ids[1..][j - 1] == x;
      }
    }
  }

  /** The pass counts the invoices it settles: as many as are paid afterwards. No other invoice
      changes. */
  lemma {:induction false} SettledAreCounted(b: Books, ids: seq<nat>, lines: seq<Line>, matches: Matcher)
    requires Sound(b) && AllPending(b, ids)
    ensures var after := Through(b, ids, lines, matches).0;
            && after.invoices.Keys == b.invoices.Keys
            && (forall i :: i in b.invoices && i !in ids ==> after.invoices[i] == b.invoices[i])
            && Through(b, ids, lines, matches).1 == |PaidAmong(after, ids)|
    decreases |ids|
  {
    hide Try, Sound, Confirms, AllPending, PaidAmong, FirstMatch;
    StartsFine(b, ids);
    if ids == [] {
      NonePaid(b);
    } else {
      var next := Try(b, ids[0], lines, matches);
      TryKeeps(b, ids[0], lines, matches);
      TryCounts(b, ids[0], lines, matches);
      PendingStays(b, next, ids);
      StartsFine(next, ids[1..]);
      SettledAreCounted(next, ids[1..], lines, matches);
      PaidFirst(Through(next, ids[1..], lines, matches).0, ids);
    }
  }

  lemma StartsFine(b: Books, ids: seq<nat>)
    requires Sound(b) && AllPending(b, ids)
    ensures Linked(b) && forall j :: 0 <= j < |ids| ==> ids[j] in b.invoices && b.invoices[ids[j]].status == Pending
  {
  }

  lemma NonePaid(b: Books)
    ensures PaidAmong(b, []) == {}
  {
  }
}
