/** Refusing double bookings of teachers and classrooms (app/services/cohorts.py). Days are
    ordinals, weekdays 0 for Monday to 6 for Sunday; times are the stored "HH:MM" strings. */
module Cohorts {
  import opened Wrappers
  import opened Timetable

  /** An empty set of days and an empty time are the unknown ones. */
  datatype Cohort = Cohort(teacher: Option<nat>, room: Option<nat>, first: Option<int>, last: Option<int>,
                           days: set<int>, start: string, end: string)

  datatype Answer = Accepted(id: nat) | Denied(status: nat, code: string)

  // ------------------------------------------------------------------ HH:MM

  predicate Digit(c: char) {
    '0' <= c <= '9'
  }

  /** Two digits of the hour, up to 23, and two of the minute. */
  predicate IsTime(s: string) {
    && |s| == 5 && s[2] == ':'
    && (((s[0] == '0' || s[0] == '1') && Digit(s[1])) || (s[0] == '2' && '0' <= s[1] <= '3'))
    && '0' <= s[3] <= '5' && Digit(s[4])
  }

  function Value(c: char): int {
    c as int - '0' as int
  }

  /** Minutes since midnight. */
  function Minutes(s: string): int
    requires |s| == 5
  {
    (Value(s[0]) * 10 + Value(s[1])) * 60 + Value(s[3]) * 10 + Value(s[4])
  }

  /** Comparing valid times as strings is comparing them as times of day. */
  lemma TimesCompareAsStrings(a: string, b: string)
    requires IsTime(a) && IsTime(b)
    ensures Before(a, b) <==> Minutes(a) < Minutes(b)
  {
    var a1, b1 := a[1..], b[1..];
    var a2, b2 := a1[1..], b1[1..];
    var a3, b3 := a2[1..], b2[1..];
    var a4, b4 := a3[1..], b3[1..];
    assert Before(a4[1..], b4[1..]) == false;
    assert Before(a4, b4) == (a4[0] < b4[0]);
    assert Before(a3, b3) == if a3[0] != b3[0] then a3[0] < b3[0] else Before(a4, b4);
    assert Before(a2, b2) == Before(a3, b3);
    assert Before(a1, b1) == if a1[0] != b1[0] then a1[0] < b1[0] else Before(a2, b2);
  }

  // --------------------------------------------------------------- conflicts

  predicate Dated(c: Cohort) {
    c.first.Some? && c.last.Some?
  }

  /** Unknown days are taken to clash. */
  predicate DaysOverlap(a: set<int>, b: set<int>) {
    a == {} || b == {} || a * b != {}
  }

  /** Unknown times are taken to overlap. */
  predicate TimesOverlap(a: Cohort, b: Cohort) {
    a.start == "" || a.end == "" || b.start == "" || b.end == "" || (Before(a.start, b.end) && Before(b.start, a.end))
  }

  predicate Clash(a: Cohort, b: Cohort) {
    && Dated(a) && Dated(b)
    && b.first.value <= a.last.value && b.last.value >= a.first.value
    && DaysOverlap(a.days, b.days) && TimesOverlap(a, b)
  }

  lemma ClashIsSymmetric(a: Cohort, b: Cohort)
    ensures Clash(a, b) == Clash(b, a)
  {
  }

  predicate SameOwner(a: Cohort, b: Cohort) {
    (a.teacher.Some? && a.teacher == b.teacher) || (a.room.Some? && a.room == b.room)
  }

  /** What a cohort must be like to be stored: its code, or none. */
  function ScheduleError(c: Cohort): Option<string> {
    if Dated(c) && c.last.value < c.first.value then Some("end_before_start")
    else if exists d :: d in c.days && !(0 <= d < 7) then Some("invalid_meeting_days")
    else if (c.start != "" && !IsTime(c.start)) || (c.end != "" && !IsTime(c.end)) then Some("invalid_time")
    else if c.start != "" && c.end != "" && !Before(c.start, c.end) then Some("end_time_before_start")
    else None
  }

  type Cohorts = map<nat, Cohort>

  /** A dated cohort of the same teacher (or room) that clashes with c; `self` is c's own id. */
  predicate Blocks(rows: Cohorts, i: nat, c: Cohort, self: Option<nat>, byTeacher: bool)
    requires i in rows
  {
    && self != Some(i) && Clash(c, rows[i])
    && (if byTeacher then c.teacher.Some? && rows[i].teacher == c.teacher else c.room.Some? && rows[i].room == c.room)
  }

  predicate Blocked(rows: Cohorts, c: Cohort, self: Option<nat>, byTeacher: bool) {
    exists i :: i in rows && Blocks(rows, i, c, self, byTeacher)
  }

  /** The answer to storing c under the id: the first check that fails, or the id. */
  function Judged(rows: Cohorts, c: Cohort, id: nat): Answer {
    var bad := ScheduleError(c);
    if bad.Some? then Denied(400, bad.value)
    else if Blocked(rows, c, Some(id), true) then Denied(409, "teacher_double_booked")
    else if Blocked(rows, c, Some(id), false) then Denied(409, "classroom_double_booked")
    else Accepted(id)
  }

  function Stored(rows: Cohorts, c: Cohort, id: nat): Cohorts {
    if Judged(rows, c, id).Accepted? then rows[id := c] else rows
  }

  // -------------------------------------------------- the check, clause by clause

  /** The character of a digit. */
  predicate Shows(c: char, digit: int) {
    0 <= digit < 10 && c as int == 48 + digit
  }

  /** Some time of the day, written with two digits and two. */
  ghost predicate Written(s: string) {
    exists h, m :: 0 <= h < 24 && 0 <= m < 60 && WrittenAs(s, h, m)
  }

  predicate WrittenAs(s: string, h: int, m: int) {
    |s| == 5 && Shows(s[0], h / 10) && Shows(s[1], h % 10) && s[2] == ':' && Shows(s[3], m / 10) && Shows(s[4], m % 10)
  }

  lemma WrittenMinutes(s: string, h: int, m: int)
    requires 0 <= h < 24 && 0 <= m < 60 && WrittenAs(s, h, m)
    ensures IsTime(s) && Minutes(s) == h * 60 + m
  {
  }

  lemma IsTimeReads(s: string)
    ensures IsTime(s) <==> Written(s)
  {
    if Written(s) {
      var h, m :| 0 <= h < 24 && 0 <= m < 60 && WrittenAs(s, h, m);
      WrittenMinutes(s, h, m);
    }
    if IsTime(s) {
      var h, m := 10 * (s[0] as int - 48) + s[1] as int - 48, 10 * (s[3] as int - 48) + s[4] as int - 48;
      assert h / 10 == s[0] as int - 48 && h % 10 == s[1] as int - 48;
      assert m / 10 == s[3] as int - 48 && m % 10 == s[4] as int - 48;
      assert WrittenAs(s, h, m);
    }
  }

  /** The dates, where both are known, are in order; the days are weekdays; the times, where they
      are known, are times of the day, and in order where both are. */
  ghost predicate Possible(c: Cohort) {
    && (c.first != None && c.last != None ==> c.first.value <= c.last.value)
    && (forall d :: d in c.days ==> d in {0, 1, 2, 3, 4, 5, 6})
    && (c.start != "" ==> Written(c.start)) && (c.end != "" ==> Written(c.end))
    && (c.start != "" && c.end != "" ==> Before(c.start, c.end))
  }

  lemma ScheduleErrorReads(c: Cohort)
    ensures ScheduleError(c) == None <==> Possible(c)
  {
    IsTimeReads(c.start);
    IsTimeReads(c.end);
    hide IsTime, Written, Before;
  }

  /** Another cohort whose dates are known and overlap, with a weekday in common unless one of
      them has none, and at overlapping times unless one is unknown. */
  predicate Collides(a: Cohort, b: Cohort) {
    && a.first != None && a.last != None && b.first != None && b.last != None
    && b.first.value <= a.last.value && a.first.value <= b.last.value
    && (a.days != {} && b.days != {} ==> exists d :: d in a.days && d in b.days)
    && (a.start != "" && a.end != "" && b.start != "" && b.end != "" ==>
          Before(a.start, b.end) && Before(b.start, a.end))
  }

  lemma ClashReads(a: Cohort, b: Cohort)
    ensures Clash(a, b) <==> Collides(a, b)
  {
    hide Before;
    if d :| d in a.days && d in b.days {
      assert d in a.days * b.days;
    }
    if a.days * b.days != {} {
      var d := Member(a.days * b.days);
    }
  }

  predicate TeacherTaken(rows: Cohorts, c: Cohort, id: nat) {
    c.teacher != None && exists i :: i in rows && i != id && rows[i].teacher == c.teacher && Collides(c, rows[i])
  }

  predicate RoomTaken(rows: Cohorts, c: Cohort, id: nat) {
    c.room != None && exists i :: i in rows && i != id && rows[i].room == c.room && Collides(c, rows[i])
  }

  lemma BlockedReads(rows: Cohorts, c: Cohort, id: nat)
    ensures Blocked(rows, c, Some(id), true) <==> TeacherTaken(rows, c, id)
    ensures Blocked(rows, c, Some(id), false) <==> RoomTaken(rows, c, id)
  {
    hide Clash, Collides;
    forall i | i in rows ensures Clash(c, rows[i]) <==> Collides(c, rows[i]) {
      ClashReads(c, rows[i]);
    }
    if TeacherTaken(rows, c, id) {
      var i :| i in rows && i != id && rows[i].teacher == c.teacher && Collides(c, rows[i]);
      assert Blocks(rows, i, c, Some(id), true);
    }
    if RoomTaken(rows, c, id) {
      var i :| i in rows && i != id && rows[i].room == c.room && Collides(c, rows[i]);
      assert Blocks(rows, i, c, Some(id), false);
    }
  }

  /** A cohort is stored exactly when its schedule is possible and neither its teacher nor its
      room is taken; a teacher who is taken is named first. Nothing else is touched. */
  lemma StoredExactly(rows: Cohorts, c: Cohort, id: nat)
    ensures var taken, full := TeacherTaken(rows, c, id), RoomTaken(rows, c, id);
            && (Judged(rows, c, id) == Accepted(id) <==> Possible(c) && !taken && !full)
            && (Possible(c) && taken ==> Judged(rows, c, id) == Denied(409, "teacher_double_booked"))
            && (Possible(c) && !taken && full ==> Judged(rows, c, id) == Denied(409, "classroom_double_booked"))
            && (!Possible(c) ==> Judged(rows, c, id).Denied? && Judged(rows, c, id).status == 400)
            && Do(rows, Store(id, c)) == (if Possible(c) && !taken && !full then rows[id := c] else rows)
            && Do(rows, Delete(id)) == rows - {id}
  {
    ScheduleErrorReads(c);
    BlockedReads(rows, c, id);
    hide ScheduleError, Blocked, TeacherTaken, RoomTaken, Possible;
  }

  // ---------------------------------------------------------- what is kept

  /** Every cohort has a possible schedule, and no two of one teacher or room clash. */
  ghost predicate Sound(rows: Cohorts) {
    && (forall i :: i in rows ==> ScheduleError(rows[i]).None?)
    && (forall i, j :: i in rows && j in rows && i != j && SameOwner(rows[i], rows[j]) ==> !Clash(rows[i], rows[j]))
  }

  /** Creating or updating keeps it: a stored cohort clashes with no other. */
  lemma StoredKeeps(rows: Cohorts, c: Cohort, id: nat)
    requires Sound(rows)
    ensures Sound(Stored(rows, c, id))
  {
    if Judged(rows, c, id).Accepted? {
      var after := rows[id := c];
      forall i | i in rows && i != id && SameOwner(c, rows[i]) ensures !Clash(c, rows[i]) {
        assert !Blocks(rows, i, c, Some(id), true) && !Blocks(rows, i, c, Some(id), false);
      }
      forall i, j | i in after && j in after && i != j && SameOwner(after[i], after[j])
          ensures !Clash(after[i], after[j]) {
        ClashIsSymmetric(after[i], after[j]);
        if i == id {
          assert !Clash(c, rows[j]);
        } else if j == id {
          assert SameOwner(c, rows[i]);
        }
      }
    }
  }

  datatype Act = Store(id: nat, cohort: Cohort) | Delete(id: nat)

  function Do(rows: Cohorts, a: Act): Cohorts {
    match a
    case Store(id, c) => Stored(rows, c, id)
    case Delete(id) => rows - {id}
  }

  function Run(rows: Cohorts, acts: seq<Act>): Cohorts
    decreases |acts|
  {
    if acts == [] then rows else Run(Do(rows, acts[0]), acts[1..])
  }

  lemma {:induction false} RunKeeps(rows: Cohorts, acts: seq<Act>)
    requires Sound(rows)
    ensures Sound(Run(rows, acts))
    decreases |acts|
  {
    if acts != [] {
      match acts[0] {
        case Store(id, c) => StoredKeeps(rows, c, id);
        case Delete(_) =>
      }
      RunKeeps(Do(rows, acts[0]), acts[1..]);
    }
  }

  // ----------------------------------------------------- what it is all for

  /** The cohort is in class on that date, that minute of the day. */
  predicate InClass(c: Cohort, date: int, minute: int) {
    && Dated(c) && c.first.value <= date <= c.last.value && Weekday(date) in c.days
    && IsTime(c.start) && IsTime(c.end) && Minutes(c.start) <= minute < Minutes(c.end)
  }

  lemma SharingIsClash(a: Cohort, b: Cohort, date: int, minute: int)
    requires InClass(a, date, minute) && InClass(b, date, minute)
    ensures Clash(a, b)
  {
    TimesCompareAsStrings(a.start, b.end);
    TimesCompareAsStrings(b.start, a.end);
    assert Weekday(date) in a.days * b.days;
  }

  /** Two cohorts of one teacher or room never share a date and minute. */
  lemma NeverInTwoPlaces(rows: Cohorts, i: nat, j: nat, date: int, minute: int)
    requires Sound(rows) && i in rows && j in rows && i != j
    requires (rows[i].teacher != None && rows[i].teacher == rows[j].teacher)
             || (rows[i].room != None && rows[i].room == rows[j].room)
    ensures !(InClass(rows[i], date, minute) && InClass(rows[j], date, minute))
  {
    if InClass(rows[i], date, minute) && InClass(rows[j], date, minute) {
      SharingIsClash(rows[i], rows[j], date, minute);
      assert false;
    }
  }

  function Known(time: string): Option<string> {
    if time == "" then None else Some(time)
  }

  function ScheduleOf(c: Cohort): Schedule {
    Schedule(c.days, c.first, c.last, Known(c.start), Known(c.end))
  }

  /** Two sessions on one date; a missing time is taken to fill the day. */
  predicate SessionsOverlap(s: Session, t: Session) {
    s.date == t.date &&
    (s.start.None? || s.end.None? || t.start.None? || t.end.None?
     || (Before(s.start.value, t.end.value) && Before(t.start.value, s.end.value)))
  }

  /** The schedule a cohort is laid out by: an empty time is none. */
  lemma ScheduleReads(c: Cohort)
    ensures var p := ScheduleOf(c);
            && p.days == c.days && p.first == c.first && p.last == c.last
            && (c.start == "" ==> p.start == None) && (c.start != "" ==> p.start == Some(c.start))
            && (c.end == "" ==> p.end == None) && (c.end != "" ==> p.end == Some(c.end))
  {
  }

  /** Sessions freshly laid out for two cohorts of one teacher or room never overlap. */
  lemma FreshSessionsDoNotOverlap(rows: Cohorts, i: nat, j: nat, m: nat, n: nat)
    requires Sound(rows) && i in rows && j in rows && i != j && SameOwner(rows[i], rows[j])
    requires Complete(ScheduleOf(rows[i])) && Complete(ScheduleOf(rows[j]))
    requires m < |CreatedFor([], Dates(ScheduleOf(rows[i])), ScheduleOf(rows[i]))|
    requires n < |CreatedFor([], Dates(ScheduleOf(rows[j])), ScheduleOf(rows[j]))|
    ensures !SessionsOverlap(CreatedFor([], Dates(ScheduleOf(rows[i])), ScheduleOf(rows[i]))[m],
                             CreatedFor([], Dates(ScheduleOf(rows[j])), ScheduleOf(rows[j]))[n])
  {
    var p, q := ScheduleOf(rows[i]), ScheduleOf(rows[j]);
    CreatedRows([], Dates(p), p);
    CreatedRows([], Dates(q), q);
    var s, t := CreatedFor([], Dates(p), p)[m], CreatedFor([], Dates(q), q)[n];
    hide CreatedFor, Sound, Clash, Before;
    OverlapIsClash(rows[i], rows[j], s, t);
    NoClash(rows, i, j);
  }

  lemma NoClash(rows: Cohorts, i: nat, j: nat)
    requires Sound(rows) && i in rows && j in rows && i != j && SameOwner(rows[i], rows[j])
    ensures !Clash(rows[i], rows[j])
  {
  }

  lemma OverlapIsClash(a: Cohort, b: Cohort, s: Session, t: Session)
    requires Complete(ScheduleOf(a)) && Complete(ScheduleOf(b))
    requires s == NewSession(s.date, ScheduleOf(a)) && Meets(ScheduleOf(a), s.date)
    requires t == NewSession(t.date, ScheduleOf(b)) && Meets(ScheduleOf(b), t.date)
    ensures SessionsOverlap(s, t) ==> Clash(a, b)
  {
    if SessionsOverlap(s, t) {
      assert Weekday(s.date) in a.days * b.days;
    }
  }

  /** A date in the ranges of both cohorts, on a weekday of both. */
  ghost predicate SharedDay(a: Cohort, b: Cohort) {
    Dated(a) && Dated(b) && exists d: int :: DayOfBoth(a, b, d)
  }

  predicate DayOfBoth(a: Cohort, b: Cohort, d: int)
    requires Dated(a) && Dated(b)
  {
    a.first.value <= d <= a.last.value && b.first.value <= d <= b.last.value && Weekday(d) in a.days * b.days
  }

  /** Some teacher or room would have to be in two places. */
  ghost predicate Meet(a: Cohort, b: Cohort) {
    exists date, minute :: InClass(a, date, minute) && InClass(b, date, minute)
  }

  /** Nothing about the cohort is left open. */
  predicate Definite(c: Cohort) {
    Dated(c) && c.days != {} && c.start != "" && c.end != "" && ScheduleError(c).None?
  }

  /** When the refusal is justified: cohorts whose schedules are known are really in class at
      the same time exactly when they clash and the overlap of their dates holds a shared
      weekday, the one thing the check does not look at. */
  lemma MeetExactly(a: Cohort, b: Cohort)
    requires Definite(a) && Definite(b)
    ensures Meet(a, b) <==> Clash(a, b) && SharedDay(a, b)
  {
    TimesCompareAsStrings(a.start, a.end);
    TimesCompareAsStrings(b.start, b.end);
    TimesCompareAsStrings(a.start, b.end);
    TimesCompareAsStrings(b.start, a.end);
    hide IsTime, Minutes, Before, Weekday;
    if Clash(a, b) && SharedDay(a, b) {
      var d :| DayOfBoth(a, b, d);
      var minute := if Minutes(a.start) < Minutes(b.start) then Minutes(b.start) else Minutes(a.start);
      assert InClass(a, d, minute) && InClass(b, d, minute);
    }
    if Meet(a, b) {
      var date, minute :| InClass(a, date, minute) && InClass(b, date, minute);
      SharingIsClash(a, b, date, minute);
      assert DayOfBoth(a, b, date);
    }
  }

  /** So the check is exact once the dates overlap by a week. */
  lemma AWeekIsEnough(a: Cohort, b: Cohort)
    requires Definite(a) && Definite(b)
    requires a.first.value + 6 <= b.last.value && b.first.value + 6 <= a.last.value
    requires a.first.value + 6 <= a.last.value && b.first.value + 6 <= b.last.value
    ensures Meet(a, b) <==> Clash(a, b)
  {
    MeetExactly(a, b);
    if Clash(a, b) {
      var w := Member(a.days * b.days);
      var from := if a.first.value < b.first.value then b.first.value else a.first.value;
      assert DayOfBoth(a, b, NextOn(from, w));
    }
  }

  lemma Member(days: set<int>) returns (day: int)
    requires days != {}
    ensures day in days
  {
    assert (forall d :: d !in days) ==> days == {};
    day :| day in days;
  }

  /** The first date from `from` on that falls on the weekday. */
  function NextOn(from: int, weekday: int): (d: int)
    requires 0 <= weekday < 7
    ensures from <= d < from + 7 && Weekday(d) == weekday
  {
    from + (weekday - Weekday(from)) % 7
  }

  /** A pair that is refused for nothing: the dates overlap, but on no Friday. */
  lemma RefusesMoreThanNeeded(a: Cohort, b: Cohort)
    requires a == Cohort(Some(1), None, Some(1), Some(3), {4}, "09:00", "10:00")
    requires b == Cohort(Some(1), None, Some(2), Some(9), {4}, "09:00", "10:00")
    ensures Clash(a, b) && Definite(a) && Definite(b) && !SharedDay(a, b) && !Meet(a, b)
  {
    TimesCompareAsStrings("09:00", "10:00");
    assert Minutes("09:00") == 540 && Minutes("10:00") == 600;
    assert 4 in a.days * b.days && 4 in a.days;
    assert Weekday(2) == 1 && Weekday(3) == 2;
    MeetExactly(a, b);
  }

  // ------------------------------------------------------ the program's own form

  class Registry {
    var rows: Cohorts

    constructor ()
      ensures rows == map[] && Sound(rows)
    {
      rows := map[];
    }

    /** Goes through the other cohorts of the teacher, or of the room. */
    method FindConflict(c: Cohort, self: Option<nat>, byTeacher: bool) returns (clash: Option<nat>)
      ensures clash.None? <==> !Blocked(rows, c, self, byTeacher)
      ensures clash.Some? ==> clash.value in rows && Blocks(rows, clash.value, c, self, byTeacher)
    {
      hide Clash;
      if !(c.first.Some? && c.last.Some?) {
        Undated(c);
        return None;
      }
      var ids := rows.Keys;
      while ids != {}
        invariant ids <= rows.Keys
        invariant forall i :: i in rows && i !in ids ==> !Blocks(rows, i, c, self, byTeacher)
        decreases |ids|
      {
        var i :| i in ids;
        if Blocks(rows, i, c, self, byTeacher) {
          return Some(i);
        }
        ids := ids - {i};
      }
      return None;
    }

    /** Creating a cohort, or putting new values into an existing one. */
    method Save(c: Cohort, id: nat) returns (answer: Answer)
      modifies this
      ensures answer == Judged(old(rows), c, id) && rows == Stored(old(rows), c, id)
    {
      var bad := ScheduleError(c);
      if bad.Some? {
        return Denied(400, bad.value);
      }
      if c.teacher.Some? {
        var clash := FindConflict(c, Some(id), true);
        if clash.Some? {
          return Denied(409, "teacher_double_booked");
        }
      }
      if c.room.Some? {
        var clash := FindConflict(c, Some(id), false);
        if clash.Some? {
          return Denied(409, "classroom_double_booked");
        }
      }
      rows := rows[id := c];
      return Accepted(id);
    }

    method Remove(id: nat)
      modifies this
      ensures rows == old(rows) - {id}
    {
      rows := rows - {id};
    }
  }

  lemma Undated(c: Cohort)
    requires !Dated(c)
    ensures forall other :: !Clash(c, other)
  {
  }
}
