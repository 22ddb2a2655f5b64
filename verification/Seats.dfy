/** Holding and selling the seats of one run (app/services/enrolment/booking.py, checkout.py,
    _common.py:112-126). What the code calls free depends on the clock; what the database
    accepts depends on a partial unique index that knows no clock. */
module Seats {
  import opened Wrappers
  import Sets

  datatype Status = Held | Paid | Released | Cancelled

  datatype Booking = Booking(seat: int, status: Status, expires: Option<int>)

  /** A row the unique index covers. */
  predicate Claims(b: Booking) {
    b.status == Held || b.status == Paid
  }

  /** uq_seat_bookings_live_seat, checked at every commit. */
  predicate Unique(rows: seq<Booking>) {
    forall i, j :: 0 <= i < j < |rows| && Claims(rows[i]) && Claims(rows[j]) ==> rows[i].seat != rows[j].seat
  }

  predicate Claimed(rows: seq<Booking>, seat: int) {
    exists i :: 0 <= i < |rows| && Claims(rows[i]) && rows[i].seat == seat
  }

  /** A hold that ran out before now. */
  predicate Lapsed(b: Booking, now: int) {
    b.status == Held && b.expires.Some? && b.expires.value < now
  }

  /** A row _seat_counts counts: sold, or held and not run out. A hold that runs out exactly
      now is counted no longer, though it has not lapsed. */
  predicate Blocks(b: Booking, now: int) {
    b.status == Paid || (b.status == Held && (b.expires.None? || b.expires.value > now))
  }

  predicate Blocked(rows: seq<Booking>, now: int, seat: int) {
    exists i :: 0 <= i < |rows| && Blocks(rows[i], now) && rows[i].seat == seat
  }

  function Retired(b: Booking, now: int): Booking {
    if Lapsed(b, now) then b.(status := Released) else b
  }

  /** Lapsed holds are released; nothing else changes. */
  function Retire(rows: seq<Booking>, now: int): (r: seq<Booking>)
    ensures |r| == |rows| && forall i :: 0 <= i < |rows| ==> r[i] == Retired(rows[i], now)
  {
    seq(|rows|, i requires 0 <= i < |rows| => Retired(rows[i], now))
  }

  /** The seats offered, in order. */
  function FreeUpTo(rows: seq<Booking>, now: int, taken: set<int>, n: nat): (free: seq<int>)
    ensures forall s :: s in free <==> 1 <= s <= n && s !in taken && !Blocked(rows, now, s)
  {
    if n == 0 then []
    else FreeUpTo(rows, now, taken, n - 1) + (if n !in taken && !Blocked(rows, now, n) then [n] else [])
  }

  /** The wanted seat if it is free, else the first free one. */
  function Pick(rows: seq<Booking>, now: int, taken: set<int>, capacity: nat, wanted: Option<int>): (seat: Option<int>)
    ensures seat.None? <==> forall s :: 1 <= s <= capacity && s !in taken ==> Blocked(rows, now, s)
    ensures seat.Some? ==> 1 <= seat.value <= capacity && seat.value !in taken && !Blocked(rows, now, seat.value)
  {
    var free := FreeUpTo(rows, now, taken, capacity);
    if free == [] then
      assert forall s :: 1 <= s <= capacity && s !in taken ==> s in free || Blocked(rows, now, s);
      None
    else
      assert free[0] in free;
      Some(if wanted.Some? && wanted.value in free then wanted.value else free[0])
  }

  function Hold(seat: int, expires: Option<int>): Booking {
    Booking(seat, Held, expires)
  }

  /** An insert the index may refuse. */
  function Insert(rows: seq<Booking>, b: Booking): (r: seq<Booking>)
    requires !Claimed(rows, b.seat)
  {
    rows + [b]
  }

  lemma InsertIsUnique(rows: seq<Booking>, b: Booking)
    requires Unique(rows) && Claims(b)
    ensures Unique(rows + [b]) <==> !Claimed(rows, b.seat)
  {
    var r := rows + [b];
    if Claimed(rows, b.seat) {
      var i :| 0 <= i < |rows| && Claims(rows[i]) && rows[i].seat == b.seat;
      assert r[i] == rows[i] && r[|rows|] == b;
    }
  }

  // ------------------------------------------------------- the two views agree

  /** The clock is read once to retire lapsed holds (`now`) and again to count (`read`). A hold
      that runs out in between, or at either instant, was not retired and is not counted. */
  predicate RunsOutOn(rows: seq<Booking>, now: int, read: int, seat: int) {
    exists i ::
      0 <= i < |rows| && rows[i].status == Held && rows[i].seat == seat && rows[i].expires.Some?
      && now <= rows[i].expires.value <= read
  }

  /** ... on a seat that is for sale. */
  predicate RunsOut(rows: seq<Booking>, now: int, read: int, capacity: nat) {
    exists s :: 1 <= s <= capacity && RunsOutOn(rows, now, read, s)
  }

  /** A seat the index will refuse although the clock calls it free. */
  predicate Stuck(rows: seq<Booking>, now: int, q: int) {
    Claimed(rows, q) && !Blocked(rows, now, q)
  }

  /** Retiring frees in the index what a later reading counts free, except the seat of a hold
      that runs out between the two. */
  lemma StuckExactly(rows: seq<Booking>, now: int, read: int, s: int)
    requires Unique(rows) && now <= read
    ensures Blocked(Retire(rows, now), read, s) ==> Claimed(Retire(rows, now), s)
    ensures Stuck(Retire(rows, now), read, s) <==> RunsOutOn(rows, now, read, s)
  {
    var r := Retire(rows, now);
    RetireIsUnique(rows, now);
    if RunsOutOn(rows, now, read, s) {
      var i :| 0 <= i < |rows| && rows[i].status == Held && rows[i].seat == s && rows[i].expires.Some?
        && now <= rows[i].expires.value <= read;
      assert r[i] == rows[i] && Claims(r[i]) && !Blocks(r[i], read);
    }
    if Stuck(r, read, s) {
      var i :| 0 <= i < |r| && Claims(r[i]) && r[i].seat == s;
      assert !Blocks(r[i], read) && r[i] == rows[i];
    }
  }

  /** Once lapsed holds are retired, the seats counted as free are those the index accepts,
      exactly when no hold runs out between the two readings of the clock. */
  lemma ViewsAgreeExactly(rows: seq<Booking>, now: int, read: int, capacity: nat)
    requires Unique(rows) && now <= read
    ensures (forall s :: 1 <= s <= capacity ==>
               (Blocked(Retire(rows, now), read, s) <==> Claimed(Retire(rows, now), s)))
            <==> !RunsOut(rows, now, read, capacity)
  {
    hide Unique, Blocked, Claimed, RunsOutOn, Retire;
    forall s ensures Blocked(Retire(rows, now), read, s) ==> Claimed(Retire(rows, now), s)
             ensures Stuck(Retire(rows, now), read, s) <==> RunsOutOn(rows, now, read, s) {
      StuckExactly(rows, now, read, s);
    }
  }

  lemma RetireIsUnique(rows: seq<Booking>, now: int)
    requires Unique(rows)
    ensures Unique(Retire(rows, now))
  {
  }

  /** Retiring does not change what a later reading counts. */
  lemma RetireKeepsView(rows: seq<Booking>, now: int, read: int)
    requires now <= read
    ensures forall s :: Blocked(Retire(rows, now), read, s) <==> Blocked(rows, read, s)
  {
  }

  // ------------------------------------------------------------ reading and inserting

  datatype Answer = Booked(seat: int) | NoSeatsLeft

  /** A second attempt, when the first insert was refused: read again at `now`, leaving the
      collided seat out by hand. */
  function Rebook(rows: seq<Booking>, now: int, capacity: nat, collided: int,
                  expires: Option<int>): (r: (seq<Booking>, Answer)) {
    var seat := Pick(rows, now, {collided}, capacity, None);
    if seat.None? || Claimed(rows, seat.value) then (rows, NoSeatsLeft)
    else (Insert(rows, Hold(seat.value, expires)), Booked(seat.value))
  }

  /** A buyer who had lapsed holds retired at `now`, counted seats at `read`, inserts into what
      the rows have become by then and, if the insert is refused, counts again at `later`. */
  function BookAgainst(rows: seq<Booking>, after: seq<Booking>, now: int, read: int, later: int, capacity: nat,
                       wanted: Option<int>, expires: Option<int>): (seq<Booking>, Answer)
  {
    var seat := Pick(Retire(rows, now), read, {}, capacity, wanted);
    if seat.None? then (after, NoSeatsLeft)
    else if Claimed(after, seat.value) then Rebook(after, later, capacity, seat.value, expires)
    else (Insert(after, Hold(seat.value, expires)), Booked(seat.value))
  }

  /** Nobody else at work: the rows are still those that retiring left. */
  function BookAlone(rows: seq<Booking>, now: int, read: int, later: int, capacity: nat, wanted: Option<int>,
                     expires: Option<int>): (seq<Booking>, Answer) {
    BookAgainst(rows, Retire(rows, now), now, read, later, capacity, wanted, expires)
  }

  lemma {:induction false} FirstFree(rows: seq<Booking>, now: int, taken: set<int>, n: nat, s: int)
    requires FreeUpTo(rows, now, taken, n) != [] && 1 <= s < FreeUpTo(rows, now, taken, n)[0] && s !in taken
    ensures Blocked(rows, now, s)
    decreases n
  {
    if FreeUpTo(rows, now, taken, n - 1) != [] {
      FirstFree(rows, now, taken, n - 1, s);
    } else {
      assert s !in FreeUpTo(rows, now, taken, n - 1);
    }
  }

  /** The seat a second reading offers: free to the clock, every lower one taken. */
  predicate LowestFree(rows: seq<Booking>, now: int, capacity: nat, collided: int, q: int) {
    && 1 <= q <= capacity && q != collided && !Blocked(rows, now, q)
    && forall s :: 1 <= s < q && s != collided ==> Blocked(rows, now, s)
  }

  lemma PickIsLowest(rows: seq<Booking>, now: int, capacity: nat, collided: int, q: int)
    ensures Pick(rows, now, {collided}, capacity, None) == Some(q) <==> LowestFree(rows, now, capacity, collided, q)
  {
    hide Blocked;
    var free := FreeUpTo(rows, now, {collided}, capacity);
    if free != [] {
      assert free[0] in free;
      forall s | 1 <= s < free[0] && s != collided ensures Blocked(rows, now, s) {
        FirstFree(rows, now, {collided}, capacity, s);
      }
    } else {
      assert q !in free;
    }
  }

  /** Exactly when a buyer is turned away, whatever has happened in between: no seat was counted
      free, or the chosen one is owned by then and so is the lowest other one that is counted
      free, if any is. */
  lemma RefusedExactly(rows: seq<Booking>, after: seq<Booking>, now: int, read: int, later: int, capacity: nat,
                       wanted: Option<int>, expires: Option<int>)
    ensures var picked := Pick(Retire(rows, now), read, {}, capacity, wanted);
            BookAgainst(rows, after, now, read, later, capacity, wanted, expires).1 == NoSeatsLeft
            <==> picked.None?
                 || (Claimed(after, picked.value)
                     && forall q :: LowestFree(after, later, capacity, picked.value, q) ==> Stuck(after, later, q))
  {
    var picked := Pick(Retire(rows, now), read, {}, capacity, wanted);
    if picked.Some? {
      hide Claimed, Blocked, Pick, LowestFree;
      forall q ensures Pick(after, later, {picked.value}, capacity, None) == Some(q)
                       <==> LowestFree(after, later, capacity, picked.value, q) {
        PickIsLowest(after, later, capacity, picked.value, q);
      }
      LowestIsFree(after, later, capacity, picked.value);
    }
  }

  lemma LowestIsFree(rows: seq<Booking>, now: int, capacity: nat, collided: int)
    ensures forall q :: LowestFree(rows, now, capacity, collided, q) ==> (Stuck(rows, now, q) <==> Claimed(rows, q))
  {
    hide Claimed, Blocked;
  }

  /** What a buyer who is served gets, whatever the rows have become: a hold behind them, of the
      chosen seat if nobody has it by then, otherwise of the lowest other one that is counted
      free. One who is not served changes nothing. */
  lemma ServedReads(rows: seq<Booking>, after: seq<Booking>, now: int, read: int, later: int, capacity: nat,
                    wanted: Option<int>, expires: Option<int>)
    ensures var picked := Pick(Retire(rows, now), read, {}, capacity, wanted);
            var r := BookAgainst(rows, after, now, read, later, capacity, wanted, expires);
            && (r.1 == NoSeatsLeft ==> r.0 == after)
            && (r.1.Booked? ==>
                  && r.0 == after + [Booking(r.1.seat, Held, expires)] && !Claimed(after, r.1.seat) && picked.Some?
                  && (!Claimed(after, picked.value) ==> r.1.seat == picked.value)
                  && (Claimed(after, picked.value) ==> LowestFree(after, later, capacity, picked.value, r.1.seat)))
  {
    var picked := Pick(Retire(rows, now), read, {}, capacity, wanted);
    if picked.Some? && Claimed(after, picked.value) {
      var again := Pick(after, later, {picked.value}, capacity, None);
      if again.Some? {
        PickIsLowest(after, later, capacity, picked.value, again.value);
      }
    }
    hide Pick, Claimed, Blocked, LowestFree;
  }

  // ------------------------------------------------------ one buyer on their own

  /** A buyer with nobody else at work is refused exactly when every seat is sold or held, or
      the hold of the chosen seat runs out between retiring and reading and that of the lowest
      other seat counted free, if there is one, by the second reading. */
  lemma AloneRefusedExactly(rows: seq<Booking>, now: int, read: int, later: int, capacity: nat, wanted: Option<int>,
                            expires: Option<int>)
    requires Unique(rows) && now <= read <= later
    ensures var picked := Pick(Retire(rows, now), read, {}, capacity, wanted);
            && (picked.None? <==> forall s :: 1 <= s <= capacity ==> Blocked(rows, read, s))
            && (BookAlone(rows, now, read, later, capacity, wanted, expires).1 == NoSeatsLeft
                <==> picked.None?
                     || (RunsOutOn(rows, now, read, picked.value)
                         && forall q :: LowestFree(rows, later, capacity, picked.value, q) ==>
                              RunsOutOn(rows, now, later, q)))
  {
    var retired := Retire(rows, now);
    var picked := Pick(retired, read, {}, capacity, wanted);
    RetireKeepsView(rows, now, read);
    RetireKeepsView(rows, now, later);
    RefusedExactly(rows, retired, now, read, later, capacity, wanted, expires);
    if picked.Some? {
      StuckExactly(rows, now, read, picked.value);
      hide Unique, Blocked, Claimed, RunsOutOn, Retire, Pick;
      forall q ensures Stuck(retired, later, q) <==> RunsOutOn(rows, now, later, q) {
        StuckExactly(rows, now, later, q);
      }
      SameLowest(rows, retired, later, capacity, picked.value);
    }
  }

  lemma SameLowest(rows: seq<Booking>, other: seq<Booking>, now: int, capacity: nat, collided: int)
    requires forall s :: Blocked(other, now, s) <==> Blocked(rows, now, s)
    ensures forall q :: LowestFree(other, now, capacity, collided, q) <==> LowestFree(rows, now, capacity, collided, q)
  {
    hide Blocked;
  }

  /** With nobody else at work and no hold running out between the two readings, the first
      insert succeeds, and the buyer is refused only when every seat is sold or held. */
  lemma BookAloneSucceeds(rows: seq<Booking>, now: int, read: int, later: int, capacity: nat, wanted: Option<int>,
                          expires: Option<int>)
    requires Unique(rows) && now <= read && !RunsOut(rows, now, read, capacity)
    ensures var r := BookAlone(rows, now, read, later, capacity, wanted, expires);
            && Unique(r.0)
            && (r.1 == NoSeatsLeft <==> forall s :: 1 <= s <= capacity ==> Blocked(rows, read, s))
            && (r.1.Booked? ==>
                  && r.0 == Retire(rows, now) + [Hold(r.1.seat, expires)]
                  && (wanted.Some? && 1 <= wanted.value <= capacity && !Blocked(rows, read, wanted.value) ==>
                      r.1.seat == wanted.value))
  {
    var r := Retire(rows, now);
    RetireIsUnique(rows, now);
    RetireKeepsView(rows, now, read);
    var seat := Pick(r, read, {}, capacity, wanted);
    if seat.Some? {
      StuckExactly(rows, now, read, seat.value);
      InsertIsUnique(r, Hold(seat.value, expires));
    }
  }

  /** Nobody has the seat: what is booked on it was released or cancelled, or is a hold that ran
      out before. */
  predicate Vacant(rows: seq<Booking>, now: int, seat: int) {
    forall i :: 0 <= i < |rows| && rows[i].seat == seat ==>
      || rows[i].status == Released || rows[i].status == Cancelled
      || (rows[i].status == Held && rows[i].expires.Some? && rows[i].expires.value < now)
  }

  lemma VacantReads(rows: seq<Booking>, now: int, read: int, capacity: nat, seat: int)
    requires now <= read && !RunsOut(rows, now, read, capacity) && 1 <= seat <= capacity
    ensures Vacant(rows, now, seat) <==> !Blocked(rows, read, seat)
  {
    assert !RunsOutOn(rows, now, read, seat);
    assert Vacant(rows, now, seat) ==> forall i :: 0 <= i < |rows| && rows[i].seat == seat ==> !Blocks(rows[i], read);
    if !Blocked(rows, read, seat) {
      forall i | 0 <= i < |rows| && rows[i].seat == seat
        ensures rows[i].status == Released || rows[i].status == Cancelled
                || (rows[i].status == Held && rows[i].expires.Some? && rows[i].expires.value < now) {
        assert !Blocks(rows[i], read);
      }
    }
  }

  /** The seat a buyer alone gets: the wanted one if it is for sale and vacant, otherwise the
      lowest that is. */
  predicate SeatGiven(rows: seq<Booking>, now: int, capacity: nat, wanted: Option<int>, q: int) {
    && 1 <= q <= capacity && Vacant(rows, now, q)
    && (if wanted.Some? && 1 <= wanted.value <= capacity && Vacant(rows, now, wanted.value) then q == wanted.value
        else forall s :: 1 <= s < q ==> !Vacant(rows, now, s))
  }

  lemma PickReads(rows: seq<Booking>, now: int, read: int, capacity: nat, wanted: Option<int>)
    requires now <= read && !RunsOut(rows, now, read, capacity)
    ensures var picked := Pick(Retire(rows, now), read, {}, capacity, wanted);
            && (picked.None? <==> forall s :: 1 <= s <= capacity ==> !Vacant(rows, now, s))
            && (picked.Some? ==> SeatGiven(rows, now, capacity, wanted, picked.value))
  {
    RetireKeepsView(rows, now, read);
    forall s | 1 <= s <= capacity ensures Vacant(rows, now, s) <==> !Blocked(Retire(rows, now), read, s) {
      VacantReads(rows, now, read, capacity, s);
    }
    hide Vacant, Blocked, RunsOut, Retire;
    var r := Retire(rows, now);
    var free := FreeUpTo(r, read, {}, capacity);
    if free != [] {
      assert free[0] in free;
      forall s | 1 <= s < free[0] ensures Blocked(r, read, s) {
        FirstFree(r, read, {}, capacity, s);
      }
    }
  }

  /** A booking with nobody else at work, row by row: the holds that ran out are released, the
      new row is a hold of the seat that is given, and nothing else changes. */
  lemma BookAloneReads(rows: seq<Booking>, now: int, read: int, later: int, capacity: nat, wanted: Option<int>,
                       expires: Option<int>)
    requires Unique(rows) && now <= read && !RunsOut(rows, now, read, capacity)
    ensures var (after, answer) := BookAlone(rows, now, read, later, capacity, wanted, expires);
            && |rows| <= |after|
            && (forall i :: 0 <= i < |rows| ==>
                  after[i] == if rows[i].status == Held && rows[i].expires.Some? && rows[i].expires.value < now
                              then Booking(rows[i].seat, Released, rows[i].expires) else rows[i])
            && (answer == NoSeatsLeft <==> forall s :: 1 <= s <= capacity ==> !Vacant(rows, now, s))
            && (answer == NoSeatsLeft ==> |after| == |rows|)
            && (answer.Booked? ==> && SeatGiven(rows, now, capacity, wanted, answer.seat)
                                   && after[|rows|..] == [Booking(answer.seat, Held, expires)])
  {
    var r := Retire(rows, now);
    var picked := Pick(r, read, {}, capacity, wanted);
    PickReads(rows, now, read, capacity, wanted);
    if picked.Some? {
      StuckExactly(rows, now, read, picked.value);
      RetireKeepsView(rows, now, read);
      assert !Claimed(r, picked.value);
    }
    RetiredReads(rows, now);
    hide Vacant, RunsOut, Unique, Blocked, SeatGiven, Claimed, Pick, Retire;
  }

  lemma RetiredReads(rows: seq<Booking>, now: int)
    ensures forall i :: 0 <= i < |rows| ==>
              Retire(rows, now)[i] == if rows[i].status == Held && rows[i].expires.Some? && rows[i].expires.value < now
                                      then Booking(rows[i].seat, Released, rows[i].expires) else rows[i]
  {
  }

  /** Without the premise: the only hold runs out between retiring and reading, and the buyer is
      told that the run is full although no seat is sold or held. */
  lemma LapseTurnsAwayAlone(wanted: Option<int>, expires: Option<int>)
    ensures var rows := [Hold(1, Some(5))];
            && Unique(rows) && (forall s :: !Blocked(rows, 6, s))
            && BookAlone(rows, 4, 6, 6, 1, wanted, expires).1 == NoSeatsLeft
  {
    var rows := [Hold(1, Some(5))];
    assert rows[0] == Hold(1, Some(5));
    AloneRefusedExactly(rows, 4, 6, 6, 1, wanted, expires);
    var picked := Pick(Retire(rows, 4), 6, {}, 1, wanted);
    assert !Blocked(rows, 6, 1);
    assert picked == Some(1);
    assert RunsOutOn(rows, 4, 6, 1);
  }

  // ------------------------------------------------------------- one rival commit

  /** What the rows may have become between two readings when one other transaction got in:
      at most one more seat is claimed, no hold of its own has run out. */
  ghost predicate OneRival(before: seq<Booking>, after: seq<Booking>, x: int, now: int) {
    && Unique(after)
    && (forall s :: Claimed(after, s) ==> Claimed(before, s) || s == x)
    && (forall i ::
          0 <= i < |after| && after[i].status == Held && after[i].expires.Some? && after[i].expires.value <= now ==>
            exists j :: 0 <= j < |before| && before[j] == after[i])
  }

  /** No hold runs out between the instant lapsed holds were retired and `later`. */
  predicate NoneLapses(rows: seq<Booking>, now: int, later: int) {
    forall i :: 0 <= i < |rows| && rows[i].status == Held && rows[i].expires.Some? ==>
      rows[i].expires.value < now || rows[i].expires.value > later
  }

  /** While two seats are free and no other hold runs out meanwhile, one competing commit
      cannot turn the buyer away. */
  lemma OneRivalIsNoHarm(rows: seq<Booking>, after: seq<Booking>, x: int, now: int, read: int, later: int,
                         capacity: nat, wanted: Option<int>, expires: Option<int>, s: int, t: int)
    requires Unique(rows) && now <= read <= later && NoneLapses(rows, now, later)
    requires OneRival(Retire(rows, now), after, x, later)
    requires 1 <= s <= capacity && 1 <= t <= capacity && s != t
    requires !Blocked(rows, read, s) && !Blocked(rows, read, t)
    ensures var r := BookAgainst(rows, after, now, read, later, capacity, wanted, expires);
            r.1.Booked? && Unique(r.0) && |r.0| == |after| + 1
  {
    assert !RunsOut(rows, now, read, capacity);
    TurnedAwayExactly(rows, after, x, now, read, later, capacity, wanted, expires, s, t);
    forall q ensures !Stuck(after, later, q) {
      if Stuck(after, later, q) {
        StuckSeatHasLapsed(rows, after, x, now, later, q);
        assert false;
      }
    }
    InsertedIsUnique(rows, after, now, read, later, capacity, wanted, expires);
  }

  /** Whatever is inserted, the index accepts. */
  lemma InsertedIsUnique(rows: seq<Booking>, after: seq<Booking>, now: int, read: int, later: int, capacity: nat,
                         wanted: Option<int>, expires: Option<int>)
    requires Unique(after)
    ensures var r := BookAgainst(rows, after, now, read, later, capacity, wanted, expires);
            Unique(r.0) && (r.1.Booked? ==> r.0 == after + [Hold(r.1.seat, expires)])
  {
    var r := BookAgainst(rows, after, now, read, later, capacity, wanted, expires);
    hide Unique, Claimed, Pick;
    if r.1.Booked? {
      InsertIsUnique(after, Hold(r.1.seat, expires));
    }
  }

  lemma NotBlocked(rows: seq<Booking>, now: int, s: int)
    requires !Claimed(rows, s)
    ensures !Blocked(rows, now, s)
  {
  }

  /** A rival who books seat x in between is such a transaction. */
  lemma RivalBooks(before: seq<Booking>, x: int, expires: Option<int>, now: int)
    requires Unique(before) && !Claimed(before, x) && (expires.Some? ==> expires.value > now)
    ensures OneRival(before, Insert(before, Hold(x, expires)), x, now)
  {
  }

  /** When a buyer who saw two free seats is turned away all the same, no hold having run out
      before the first reading: the chosen seat was lost, and the lowest other seat the clock
      calls free is one the index still gives to somebody. */
  lemma TurnedAwayExactly(rows: seq<Booking>, after: seq<Booking>, x: int, now: int, read: int, later: int,
                          capacity: nat, wanted: Option<int>, expires: Option<int>, s: int, t: int)
    requires Unique(rows) && now <= read <= later && !RunsOut(rows, now, read, capacity)
    requires OneRival(Retire(rows, now), after, x, later)
    requires 1 <= s <= capacity && 1 <= t <= capacity && s != t
    requires !Blocked(rows, read, s) && !Blocked(rows, read, t)
    ensures var picked := Pick(Retire(rows, now), read, {}, capacity, wanted);
            picked.Some?
            && (BookAgainst(rows, after, now, read, later, capacity, wanted, expires).1 == NoSeatsLeft
                <==> Claimed(after, picked.value)
                     && exists q :: LowestFree(after, later, capacity, picked.value, q) && Stuck(after, later, q))
  {
    var retired := Retire(rows, now);
    RetireKeepsView(rows, now, read);
    RefusedExactly(rows, after, now, read, later, capacity, wanted, expires);
    var seat := Pick(retired, read, {}, capacity, wanted);
    assert !Blocked(retired, read, s);
    var first := seat.value;
    if Claimed(after, first) {
      StuckExactly(rows, now, read, first);
      assert first == x;
      var other := if first == s then t else s;
      StuckExactly(rows, now, read, other);
      NotBlocked(after, later, other);
      var again := Pick(after, later, {first}, capacity, None);
      assert again.Some?;
      hide Claimed, Blocked, OneRival, Pick, LowestFree;
      PickIsLowest(after, later, capacity, first, again.value);
      forall q ensures LowestFree(after, later, capacity, first, q) ==> q == again.value {
        PickIsLowest(after, later, capacity, first, q);
      }
    }
  }

  /** ... and that somebody is a hold that was running at the first reading and has run out by
      the second. */
  lemma StuckSeatHasLapsed(rows: seq<Booking>, after: seq<Booking>, x: int, now: int, later: int, q: int)
    requires OneRival(Retire(rows, now), after, x, later) && Stuck(after, later, q)
    ensures exists i :: 0 <= i < |rows| && rows[i].status == Held && rows[i].seat == q && rows[i].expires.Some?
                        && now <= rows[i].expires.value <= later
  {
    var retired := Retire(rows, now);
    var k :| 0 <= k < |after| && Claims(after[k]) && after[k].seat == q;
    assert !Blocks(after[k], later);
    var i :| 0 <= i < |retired| && retired[i] == after[k];
    assert rows[i] == retired[i];
  }

  /** Such a run: the hold of seat 2 runs out while the buyer loses seat 1, is picked again,
      and still owns its seat in the index. Seat 3 is free, but the buyer is told the run is
      full. */
  lemma LapseMeanwhileTurnsAway(expires: Option<int>)
    ensures var rows := [Hold(2, Some(5))];
            var after := rows + [Hold(1, Some(30))];
            && Unique(after) && OneRival(Retire(rows, 4), after, 1, 6)
            && !Claimed(after, 3) && !Blocked(after, 6, 3)
            && BookAgainst(rows, after, 4, 4, 6, 3, Some(1), expires) == (after, NoSeatsLeft)
  {
    var rows := [Hold(2, Some(5))];
    var after := rows + [Hold(1, Some(30))];
    assert Retire(rows, 4) == rows;
    LapseRival(rows, after);
    LapseReadings(rows, after);
    hide OneRival, FreeUpTo;
    assert Claimed(after, 1) by { assert after[1] == Hold(1, Some(30)); }
    assert Claimed(after, 2) by { assert after[0] == Hold(2, Some(5)); }
  }

  lemma LapseRival(rows: seq<Booking>, after: seq<Booking>)
    requires rows == [Hold(2, Some(5))] && after == rows + [Hold(1, Some(30))]
    ensures Unique(after) && OneRival(rows, after, 1, 6)
  {
    assert after[0] == rows[0] && after[1] == Hold(1, Some(30));
    forall s | Claimed(after, s) ensures Claimed(rows, s) || s == 1 {
      if s == 2 { assert Claims(rows[0]); }
    }
    assert rows[0] == after[0];
  }

  lemma LapseReadings(rows: seq<Booking>, after: seq<Booking>)
    requires rows == [Hold(2, Some(5))] && after == rows + [Hold(1, Some(30))]
    ensures Pick(rows, 4, {}, 3, Some(1)) == Some(1) && Pick(after, 6, {1}, 3, None) == Some(2)
  {
    assert after[0] == rows[0] && after[1] == Hold(1, Some(30));
    assert !Blocked(rows, 4, 1);
    assert 1 in FreeUpTo(rows, 4, {}, 3);
    assert FreeUpTo(after, 6, {1}, 1) == [];
    assert !Blocked(after, 6, 2);
    assert FreeUpTo(after, 6, {1}, 2) == [2];
    assert FreeUpTo(after, 6, {1}, 3)[0] == 2;
  }

  // ------------------------------------------------------------ from hold to sale

  /** Marking a booking paid: a hold that ran out, or was released, must find its seat not
      counted at a second reading of the clock; the index has the last word on the update. */
  function MarkPaid(rows: seq<Booking>, i: nat, now: int, read: int): Option<seq<Booking>>
    requires i < |rows|
  {
    var b := rows[i];
    if b.status == Paid then Some(rows)
    else if (Lapsed(b, now) || b.status == Released) && Blocked(rows, read, b.seat) then None
    else if Unique(rows[i := b.(status := Paid)]) then Some(rows[i := b.(status := Paid)])
    else None
  }

  /** Another row owns the seat in the index. */
  predicate ClaimedByOther(rows: seq<Booking>, i: nat)
    requires i < |rows|
  {
    exists j :: 0 <= j < |rows| && j != i && Claims(rows[j]) && rows[j].seat == rows[i].seat
  }

  /** A sale is refused exactly when another row owns the seat: one the code sees, or, for a
      cancelled booking it does not check and a hold that ran out and was not yet retired, one
      only the index sees. */
  lemma SaleRefusedExactly(rows: seq<Booking>, i: nat, now: int, read: int)
    requires Unique(rows) && i < |rows| && now <= read
    ensures MarkPaid(rows, i, now, read).None? <==> rows[i].status != Paid && ClaimedByOther(rows, i)
    ensures Claims(rows[i]) ==> MarkPaid(rows, i, now, read).Some?
    ensures MarkPaid(rows, i, now, read).Some? ==> Unique(MarkPaid(rows, i, now, read).value)
  {
    var b := rows[i];
    var sold := rows[i := b.(status := Paid)];
    if ClaimedByOther(rows, i) {
      var j :| 0 <= j < |rows| && j != i && Claims(rows[j]) && rows[j].seat == b.seat;
      assert sold[j] == rows[j] && sold[i].seat == b.seat;
      assert !Unique(sold);
    } else {
      assert Unique(sold);
      if Blocked(rows, read, b.seat) {
        var j :| 0 <= j < |rows| && Blocks(rows[j], read) && rows[j].seat == b.seat;
        assert j == i;
      }
    }
  }

  /** What a sale leaves: its own row sold, the others as they were. */
  lemma SoldReads(rows: seq<Booking>, i: nat, now: int, read: int)
    requires Unique(rows) && i < |rows| && now <= read && MarkPaid(rows, i, now, read).Some?
    ensures MarkPaid(rows, i, now, read).value == rows[i := Booking(rows[i].seat, Paid, rows[i].expires)]
  {
  }

  // ---------------------------------------------------------- everyone together

  datatype Buyer =
    | Arrived(wanted: Option<int>)
    | Chosen(seat: int)
    | Lost(seat: int)
    | ChosenAgain(seat: int)
    | Served(row: nat)
    | TurnedAway

  /** One run of a course with a fixed number of seats, and the requests under way. */
  datatype System = System(now: int, capacity: nat, rows: seq<Booking>, buyers: map<nat, Buyer>)

  datatype Step =
    | Wait(time: nat)
    | Sweep                                   // the hourly tick, or a booking's first act
    | Arrive(buyer: nat, wanted: Option<int>)
    | Read(buyer: nat)
    | Commit(buyer: nat, expires: Option<int>)
    | Settle(row: nat, delay: nat)
    | GiveBack(row: nat)

  function Reading(s: System, b: Buyer): Buyer {
    match b
    case Arrived(wanted) =>
      var seat := Pick(s.rows, s.now, {}, s.capacity, wanted);
      if seat.None? then TurnedAway else Chosen(seat.value)
    case Lost(taken) =>
      var seat := Pick(s.rows, s.now, {taken}, s.capacity, None);
      if seat.None? then TurnedAway else ChosenAgain(seat.value)
    case _ => b
  }

  function Committing(s: System, p: nat, seat: int, expires: Option<int>, refused: Buyer): System {
    if Claimed(s.rows, seat) then s.(buyers := s.buyers[p := refused])
    else s.(rows := Insert(s.rows, Hold(seat, expires)), buyers := s.buyers[p := Served(|s.rows|)])
  }

  function Take(s: System, step: Step): System {
    match step
    case Wait(t) => s.(now := s.now + t)
    case Sweep => s.(rows := Retire(s.rows, s.now))
    case Arrive(p, wanted) => if p in s.buyers then s else s.(buyers := s.buyers[p := Arrived(wanted)])
    case Read(p) => if p !in s.buyers then s else s.(buyers := s.buyers[p := Reading(s, s.buyers[p])])
    case Commit(p, expires) =>
      if p !in s.buyers then s
      else (match s.buyers[p]
            case Chosen(seat) => Committing(s, p, seat, expires, Lost(seat))
            case ChosenAgain(seat) => Committing(s, p, seat, expires, TurnedAway)
            case _ => s)
    case Settle(i, delay) =>
      if i >= |s.rows| || MarkPaid(s.rows, i, s.now, s.now + delay).None? then s
      else s.(rows := MarkPaid(s.rows, i, s.now, s.now + delay).value)
    case GiveBack(i) =>
      if i < |s.rows| && Claims(s.rows[i]) then s.(rows := s.rows[i := s.rows[i].(status := Status.Cancelled)]) else s
  }

  /** Only waiting moves the clock, and it moves it on; seats for sale are neither added nor lost. */
  lemma ClockReads(s: System, step: Step)
    ensures Take(s, step).now == (if step.Wait? then s.now + step.time else s.now)
    ensures Take(s, step).capacity == s.capacity
    ensures step.Wait? || step.Arrive? || step.Read? ==> Take(s, step).rows == s.rows
  {
    hide MarkPaid, Retire, Reading, Claimed, Insert;
  }

  /** A buyer arrives, lapsed holds are retired and, some time later, the seats are read. */
  function Asked(s: System, p: nat, wanted: Option<int>, delay: nat): System {
    Take(Take(Take(Take(s, Arrive(p, wanted)), Sweep), Wait(delay)), Read(p))
  }

  /** A buyer who has read the seats inserts a booking and, if that is refused, reads them again
      some time later and inserts once more. */
  function Tried(s: System, p: nat, expires: Option<int>, delay: nat): System {
    Take(Take(Take(Take(s, Commit(p, expires)), Wait(delay)), Read(p)), Commit(p, expires))
  }

  /** The steps of one buyer are a booking against whatever the others made of the rows. */
  lemma StepsAreBooking(s: System, p: nat, wanted: Option<int>, expires: Option<int>, delay: nat, others: System,
                        again: nat)
    requires p !in s.buyers && p in others.buyers && others.capacity == s.capacity
    requires others.buyers[p] == Asked(s, p, wanted, delay).buyers[p]
    ensures var (after, answer) := BookAgainst(s.rows, others.rows, s.now, s.now + delay, others.now + again,
                                               s.capacity, wanted, expires);
            var end := Tried(others, p, expires, again);
            && end.rows == after && p in end.buyers
            && end.buyers[p] == if answer.Booked? then Served(|others.rows|) else TurnedAway
  {
    hide Pick, Claimed, Retire, Insert, MarkPaid;
    ReadsAsBooking(s, p, wanted, delay);
    var seat := Pick(Retire(s.rows, s.now), s.now + delay, {}, s.capacity, wanted);
    var once := Take(others, Commit(p, expires));
    if seat.Some? && Claimed(others.rows, seat.value) {
      assert once.buyers[p] == Lost(seat.value) && once.rows == others.rows;
    }
  }

  lemma ReadsAsBooking(s: System, p: nat, wanted: Option<int>, delay: nat)
    requires p !in s.buyers
    ensures var seat := Pick(Retire(s.rows, s.now), s.now + delay, {}, s.capacity, wanted);
            var asked := Asked(s, p, wanted, delay);
            p in asked.buyers && asked.buyers[p] == if seat.None? then TurnedAway else Chosen(seat.value)
  {
    hide Pick, Claimed, Retire, Insert, MarkPaid;
  }

  predicate Sane(b: Buyer, capacity: nat, rows: nat) {
    match b
    case Chosen(seat) => 1 <= seat <= capacity
    case ChosenAgain(seat) => 1 <= seat <= capacity
    case Served(row) => row < rows
    case _ => true
  }

  /** Live bookings have seats of their own, among those for sale; no two buyers are served
      the same row. */
  ghost predicate Orderly(s: System) {
    && Unique(s.rows)
    && (forall i :: 0 <= i < |s.rows| ==> 1 <= s.rows[i].seat <= s.capacity)
    && (forall p :: p in s.buyers ==> Sane(s.buyers[p], s.capacity, |s.rows|))
    && (forall p, q :: p in s.buyers && q in s.buyers && p != q && s.buyers[p].Served? && s.buyers[q].Served? ==>
          s.buyers[p].row != s.buyers[q].row)
  }

  lemma CommitKeeps(s: System, p: nat, seat: int, expires: Option<int>, refused: Buyer)
    requires Orderly(s) && p in s.buyers && !s.buyers[p].Served? && 1 <= seat <= s.capacity
    requires refused.Lost? || refused.TurnedAway?
    ensures Orderly(Committing(s, p, seat, expires, refused))
  {
    if !Claimed(s.rows, seat) {
      InsertIsUnique(s.rows, Hold(seat, expires));
    }
  }

  /** A change to the rows that leaves them as many, unique, and on their seats. */
  lemma RowsKeep(s: System, rows: seq<Booking>)
    requires Orderly(s) && Unique(rows) && |rows| == |s.rows|
    requires forall i :: 0 <= i < |rows| ==> rows[i].seat == s.rows[i].seat
    ensures Orderly(s.(rows := rows))
  {
    hide Unique;
  }

  lemma ReadKeeps(s: System, p: nat)
    requires Orderly(s) && p in s.buyers
    ensures Orderly(s.(buyers := s.buyers[p := Reading(s, s.buyers[p])]))
  {
    hide Unique;
  }

  lemma GiveBackIsUnique(rows: seq<Booking>, i: nat)
    requires Unique(rows) && i < |rows|
    ensures Unique(rows[i := rows[i].(status := Status.Cancelled)])
  {
  }

  lemma TakeKeeps(s: System, step: Step)
    requires Orderly(s)
    ensures Orderly(Take(s, step)) && Take(s, step).capacity == s.capacity
  {
    hide Unique, Reading, MarkPaid, Committing;
    match step {
      case Sweep =>
        RetireIsUnique(s.rows, s.now);
        RowsKeep(s, Retire(s.rows, s.now));
      case Read(p) => if p in s.buyers { ReadKeeps(s, p); }
      case Commit(p, expires) =>
        if p in s.buyers {
          match s.buyers[p] {
            case Chosen(seat) =>
              CommitKeeps(s, p, seat, expires, Lost(seat));
              CommitIs(s, p, seat, expires, Lost(seat));
            case ChosenAgain(seat) =>
              CommitKeeps(s, p, seat, expires, TurnedAway);
              CommitIs(s, p, seat, expires, TurnedAway);
            case _ =>
          }
        }
      case Settle(i, delay) =>
        if i < |s.rows| && MarkPaid(s.rows, i, s.now, s.now + delay).Some? {
          SaleRefusedExactly(s.rows, i, s.now, s.now + delay);
          SaleKeepsSeats(s.rows, i, s.now, s.now + delay);
          RowsKeep(s, MarkPaid(s.rows, i, s.now, s.now + delay).value);
        }
      case GiveBack(i) =>
        if i < |s.rows| {
          GiveBackIsUnique(s.rows, i);
          RowsKeep(s, s.rows[i := s.rows[i].(status := Status.Cancelled)]);
        }
      case _ =>
    }
  }

  lemma SaleIsRival(rows: seq<Booking>, i: nat, now: int, read: int, later: int)
    requires Unique(rows) && i < |rows| && now <= read && MarkPaid(rows, i, now, read).Some?
    ensures OneRival(rows, MarkPaid(rows, i, now, read).value, rows[i].seat, later)
  {
    SaleRefusedExactly(rows, i, now, read);
    hide Unique;
    var sold := MarkPaid(rows, i, now, read).value;
    assert forall j :: 0 <= j < |rows| && j != i ==> sold[j] == rows[j];
  }

  lemma SweepIsRival(rows: seq<Booking>, now: int, x: int, later: int)
    requires Unique(rows)
    ensures OneRival(rows, Retire(rows, now), x, later)
  {
    RetireIsUnique(rows, now);
    hide Unique;
    var swept := Retire(rows, now);
    assert forall j :: 0 <= j < |rows| && Claims(swept[j]) ==> swept[j] == rows[j];
  }

  lemma ReturnIsRival(rows: seq<Booking>, i: nat, x: int, later: int)
    requires Unique(rows) && i < |rows|
    ensures OneRival(rows, rows[i := rows[i].(status := Status.Cancelled)], x, later)
  {
    GiveBackIsUnique(rows, i);
    hide Unique;
    var given := rows[i := rows[i].(status := Status.Cancelled)];
    assert forall j :: 0 <= j < |rows| && Claims(given[j]) ==> given[j] == rows[j];
  }

  /** Every step anybody takes is one rival commit: a booking, a sale, a sweep, a seat given
      back, or nothing at all. */
  lemma StepIsRival(s: System, step: Step, later: int) returns (x: int)
    requires Orderly(s) && (step.Commit? && step.expires.Some? ==> step.expires.value > later)
    ensures OneRival(s.rows, Take(s, step).rows, x, later)
  {
    x := 0;
    match step {
      case Sweep => SweepIsRival(s.rows, s.now, x, later);
      case Commit(p, expires) =>
        if p in s.buyers && (s.buyers[p].Chosen? || s.buyers[p].ChosenAgain?) {
          x := s.buyers[p].seat;
          if !Claimed(s.rows, x) {
            RivalBooks(s.rows, x, expires, later);
          }
        }
      case Settle(i, delay) =>
        if i < |s.rows| && MarkPaid(s.rows, i, s.now, s.now + delay).Some? {
          x := s.rows[i].seat;
          SaleIsRival(s.rows, i, s.now, s.now + delay, later);
        }
      case GiveBack(i) =>
        if i < |s.rows| {
          ReturnIsRival(s.rows, i, x, later);
        }
      case _ =>
    }
  }

  lemma CommitIs(s: System, p: nat, seat: int, expires: Option<int>, refused: Buyer)
    ensures Committing(s, p, seat, expires, refused).capacity == s.capacity
  {
  }

  lemma SaleKeepsSeats(rows: seq<Booking>, i: nat, now: int, read: int)
    requires i < |rows| && MarkPaid(rows, i, now, read).Some?
    ensures |MarkPaid(rows, i, now, read).value| == |rows|
    ensures forall j :: 0 <= j < |rows| ==> MarkPaid(rows, i, now, read).value[j].seat == rows[j].seat
  {
  }

  function Play(s: System, steps: seq<Step>): System
    decreases |steps|
  {
    if steps == [] then s else Play(Take(s, steps[0]), steps[1..])
  }

  function ClaimedSeats(rows: seq<Booking>): set<int> {
    set i | 0 <= i < |rows| && Claims(rows[i]) :: rows[i].seat
  }

  function LiveCount(rows: seq<Booking>): nat {
    if rows == [] then 0
    else LiveCount(rows[..|rows| - 1]) + (if Claims(rows[|rows| - 1]) then 1 else 0)
  }

  lemma {:induction false} DistinctSeats(rows: seq<Booking>)
    requires Unique(rows)
    ensures |ClaimedSeats(rows)| == LiveCount(rows)
    decreases |rows|
  {
    if rows == [] {
      assert ClaimedSeats(rows) == {};
    } else {
      var k := |rows| - 1;
      var rest := rows[..k];
      assert forall i :: 0 <= i < k ==> rest[i] == rows[i];
      DistinctSeats(rest);
      assert ClaimedSeats(rows) == ClaimedSeats(rest) + if Claims(rows[k]) then {rows[k].seat} else {};
      assert Claims(rows[k]) ==> rows[k].seat !in ClaimedSeats(rest);
    }
  }

  function UpTo(n: nat): (r: set<int>)
    ensures forall s :: s in r <==> 1 <= s <= n
  {
    if n == 0 then {} else UpTo(n - 1) + {n as int}
  }

  lemma {:induction false} UpToSize(n: nat)
    ensures |UpTo(n)| == n
    decreases n
  {
    if n > 0 { UpToSize(n - 1); }
  }

  /** Never more live bookings than seats. */
  lemma NeverOversold(s: System)
    requires Orderly(s)
    ensures LiveCount(s.rows) <= s.capacity
  {
    DistinctSeats(s.rows);
    UpToSize(s.capacity);
    Sets.Subset(ClaimedSeats(s.rows), UpTo(s.capacity));
  }

  /** In every interleaving of arrivals, readings, inserts, sweeps, sales, refunds and the
      passing of time. */
  lemma {:induction false} PlayKeeps(s: System, steps: seq<Step>)
    requires Orderly(s)
    ensures Orderly(Play(s, steps)) && Play(s, steps).capacity == s.capacity
    ensures LiveCount(Play(s, steps).rows) <= s.capacity
    decreases |steps|
  {
    hide Orderly, Take;
    if steps == [] {
      NeverOversold(s);
    } else {
      TakeKeeps(s, steps[0]);
      PlayKeeps(Take(s, steps[0]), steps[1..]);
    }
  }

  /** A seat that is sold stays sold, to the same booking, until it is given back. */
  lemma {:induction false} SoldStaysSold(s: System, steps: seq<Step>, i: nat)
    requires i < |s.rows| && s.rows[i].status == Paid
    requires forall k :: 0 <= k < |steps| ==> steps[k] != GiveBack(i)
    ensures i < |Play(s, steps).rows| && Play(s, steps).rows[i] == s.rows[i]
    decreases |steps|
  {
    if steps != [] {
      OneStepStaysSold(s, steps[0], i);
      SoldStaysSold(Take(s, steps[0]), steps[1..], i);
    }
  }

  lemma OneStepStaysSold(s: System, step: Step, i: nat)
    requires i < |s.rows| && s.rows[i].status == Paid && step != GiveBack(i)
    ensures i < |Take(s, step).rows| && Take(s, step).rows[i] == s.rows[i]
  {
  }

  // ------------------------------------------------------ the program's own form

  /** The bookings of one run, changed row by row. */
  class Register {
    var rows: seq<Booking>
    const capacity: nat

    constructor (capacity: nat)
      ensures this.capacity == capacity && rows == []
    {
      this.capacity := capacity;
      rows := [];
    }

    /** Releases lapsed holds and says how many. */
    method RetireLapsed(now: int) returns (freed: nat)
      modifies `rows
      ensures rows == Retire(old(rows), now)
      ensures freed == 0 <==> rows == old(rows)
    {
      freed := 0;
      for i := 0 to |rows|
        invariant |rows| == |old(rows)|
        invariant forall j :: 0 <= j < i ==> rows[j] == Retired(old(rows[j]), now)
        invariant forall j :: i <= j < |rows| ==> rows[j] == old(rows[j])
        invariant freed == 0 ==> rows == old(rows)
        invariant freed > 0 ==> exists j :: 0 <= j < i && rows[j] != old(rows[j])
      {
        if Lapsed(rows[i], now) {
          rows := rows[i := rows[i].(status := Released)];
          freed := freed + 1;
          assert rows[i] != old(rows[i]);
        }
      }
    }

    /** The seats of sold rows and of holds that have not run out. */
    method SeatCounts(now: int) returns (paid: set<int>, held: set<int>)
      ensures forall s :: s in paid + held <==> Blocked(rows, now, s)
    {
      paid, held := {}, {};
      for i := 0 to |rows|
        invariant forall s :: s in paid + held <==> Blocked(rows[..i], now, s)
      {
        ghost var before := paid + held;
        if rows[i].status == Paid {
          paid := paid + {rows[i].seat};
        } else if rows[i].status == Held && (rows[i].expires.None? || rows[i].expires.value > now) {
          held := held + {rows[i].seat};
        }
        assert paid + held == before + if Blocks(rows[i], now) then {rows[i].seat} else {};
        BlockedMore(rows, i, now);
      }
      assert rows[..|rows|] == rows;
    }

    /** The seat a booking is built for. */
    method Choose(now: int, taken: set<int>, wanted: Option<int>) returns (seat: Option<int>)
      ensures seat == Pick(rows, now, taken, capacity, wanted)
    {
      var paid, held := SeatCounts(now);
      var occupied := paid + held + taken;
      var free: seq<int> := [];
      for n := 0 to capacity
        invariant free == FreeUpTo(rows, now, taken, n)
      {
        if n + 1 !in occupied {
          free := free + [n + 1];
        }
      }
      if free == [] {
        return None;
      }
      return Some(if wanted.Some? && wanted.value in free then wanted.value else free[0]);
    }

    /** What the database does with an insert. */
    method TryInsert(b: Booking) returns (accepted: bool)
      modifies `rows
      ensures accepted == !Claimed(old(rows), b.seat)
      ensures rows == if accepted then old(rows) + [b] else old(rows)
    {
      if exists i :: 0 <= i < |rows| && Claims(rows[i]) && rows[i].seat == b.seat {
        return false;
      }
      rows := rows + [b];
      return true;
    }

    /** `now`, `read` and `later` are what the clock says at its three readings. */
    method BookSeat(now: int, read: int, later: int, wanted: Option<int>, expires: Option<int>)
      returns (answer: Answer)
      modifies `rows
      ensures (rows, answer) == BookAlone(old(rows), now, read, later, capacity, wanted, expires)
    {
      var freed := RetireLapsed(now);
      var seat := Choose(read, {}, wanted);
      if seat.None? {
        return NoSeatsLeft;
      }
      var accepted := TryInsert(Hold(seat.value, expires));
      if accepted {
        return Booked(seat.value);
      }
      answer := RebookNextFree(later, seat.value, expires);
    }

    method RebookNextFree(now: int, collided: int, expires: Option<int>) returns (answer: Answer)
      modifies `rows
      ensures (rows, answer) == Rebook(old(rows), now, capacity, collided, expires)
    {
      var seat := Choose(now, {collided}, None);
      if seat.None? {
        return NoSeatsLeft;
      }
      var accepted := TryInsert(Hold(seat.value, expires));
      return if accepted then Booked(seat.value) else NoSeatsLeft;
    }

    /** Turns a hold into a sale, unless its seat went to someone else. */
    method Sell(i: nat, now: int, read: int) returns (sold: bool)
      requires i < |rows| && Unique(rows) && now <= read
      modifies `rows
      ensures sold == MarkPaid(old(rows), i, now, read).Some?
      ensures rows == if sold then MarkPaid(old(rows), i, now, read).value else old(rows)
    {
      var b := rows[i];
      if b.status == Paid {
        return true;
      }
      if Lapsed(b, now) || b.status == Released {
        var paid, held := SeatCounts(read);
        if b.seat in paid + held {
          return false;
        }
      }
      SaleRefusedExactly(rows, i, now, read);
      if exists j :: 0 <= j < |rows| && j != i && Claims(rows[j]) && rows[j].seat == b.seat {
        return false;
      }
      rows := rows[i := b.(status := Paid)];
      return true;
    }
  }

  lemma BlockedMore(rows: seq<Booking>, i: nat, now: int)
    requires i < |rows|
    ensures forall s ::
              Blocked(rows[..i + 1], now, s) <==>
              Blocked(rows[..i], now, s) || (Blocks(rows[i], now) && rows[i].seat == s)
  {
  }
}
