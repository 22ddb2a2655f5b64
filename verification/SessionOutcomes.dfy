/** What a generation leaves of a timetable, and who gets which lesson
    (app/services/attendance/generate.py:27-112), read off the rows and the schedule. */
module SessionOutcomes {
  import opened Wrappers
  import opened Timetable

  /** Ordinal 1 is a Monday, and weekdays follow one another. */
  lemma WeekdayReads(date: int)
    ensures Weekday(1) == 0
    ensures Weekday(date + 1) == if Weekday(date) == 6 then 0 else Weekday(date) + 1
  {
  }

  /** A schedule is refused exactly when a date is missing, it has no weekday, or no start time. */
  lemma IncompleteExactly(p: Schedule)
    ensures !Complete(p) <==> p.first == None || p.last == None || p.days == {} || p.start == None
                              || p.start == Some("")
  {
  }

  /** Between the first and the last day of the run, on one of its weekdays. */
  predicate MeetingDay(p: Schedule, date: int) {
    p.first.Some? && p.last.Some? && p.first.value <= date && date <= p.last.value && (date + 6) % 7 in p.days
  }

  /** A session that is history: it has been held or is today's, somebody was marked, or
      somebody is asked to take it over. */
  predicate History(s: Session, today: int) {
    s.date < today || s.date == today || s.marked || s.handed
  }

  lemma MeetsReads(p: Schedule, date: int)
    requires Complete(p)
    ensures Meets(p, date) <==> MeetingDay(p, date)
  {
  }

  lemma ProtectedReads(s: Session, today: int)
    ensures Protected(s, today) <==> History(s, today)
  {
  }

  /** Some session of the date is at the schedule's time already. */
  predicate AtTime(sessions: seq<Session>, date: int, time: Option<Time>) {
    exists i :: 0 <= i < |sessions| && sessions[i].date == date && sessions[i].start == time
  }

  /** No earlier row of its date could be moved. */
  predicate FirstFree(sessions: seq<Session>, i: nat, today: int)
    requires i < |sessions|
  {
    forall j :: 0 <= j < i && sessions[j].date == sessions[i].date ==> History(sessions[j], today)
  }

  /** The row goes. */
  predicate Goes(s: Session, t: Task) {
    t.regenerate && !History(s, t.today) && !MeetingDay(t.schedule, s.date)
  }

  /** The row is brought to the schedule's time. */
  predicate IsMoved(sessions: seq<Session>, i: nat, t: Task)
    requires i < |sessions|
  {
    && t.regenerate && !History(sessions[i], t.today) && MeetingDay(t.schedule, sessions[i].date)
    && !AtTime(sessions, sessions[i].date, t.schedule.start) && FirstFree(sessions, i, t.today)
  }

  lemma RemovesReads(sessions: seq<Session>, i: nat, t: Task)
    requires i < |sessions| && Complete(t.schedule)
    ensures Removes(sessions, i, t) <==> Goes(sessions[i], t)
  {
    MeetsReads(t.schedule, sessions[i].date);
    ProtectedReads(sessions[i], t.today);
    hide Meets, Protected, MeetingDay, History;
  }

  lemma MovesReads(sessions: seq<Session>, i: nat, t: Task)
    requires i < |sessions| && Complete(t.schedule)
    ensures Moves(sessions, i, t) <==> IsMoved(sessions, i, t)
  {
    MeetsReads(t.schedule, sessions[i].date);
    forall j | 0 <= j < |sessions| ensures Protected(sessions[j], t.today) <==> History(sessions[j], t.today) {
      ProtectedReads(sessions[j], t.today);
    }
    hide Meets, Protected, MeetingDay, History;
    assert HasSlot(sessions, sessions[i].date, t.schedule.start) <==>
           AtTime(sessions, sessions[i].date, t.schedule.start);
    assert forall j :: 0 <= j < i && sessions[j].date == sessions[i].date && !Protected(sessions[j], t.today) ==>
             Movable(sessions[j], sessions[i].date, t.today);
  }

  /** What becomes of a row that stays. */
  function Becomes(sessions: seq<Session>, i: nat, t: Task): Session
    requires i < |sessions|
  {
    var s := sessions[i];
    if IsMoved(sessions, i, t) then Session(s.date, t.schedule.start, t.schedule.end, s.lesson, s.marked, s.handed)
    else s
  }

  lemma BecomesReads(s: Session, sessions: seq<Session>, i: nat, t: Task)
    requires i < |sessions| && Complete(t.schedule) && ComesFrom(s, sessions, i, t)
    ensures s == Becomes(sessions, i, t)
  {
    MovesReads(sessions, i, t);
    hide Moves, IsMoved, Removes;
  }

  /** Row by row: `origin` lists the old rows that stay, in order, and what each becomes; the
      new rows follow, one for each meeting day that had none, day by day. */
  lemma GeneratedReads(sessions: seq<Session>, t: Task) returns (origin: seq<nat>, made: seq<Session>)
    requires Complete(t.schedule)
    ensures |Generated(sessions, t)| == |origin| + |made|
    ensures forall j, k :: 0 <= j < k < |origin| ==> origin[j] < origin[k]
    ensures forall k :: 0 <= k < |origin| ==> origin[k] < |sessions|
    ensures forall i: nat :: i in origin <==> i < |sessions| && !Goes(sessions[i], t)
    ensures forall k :: 0 <= k < |origin| ==>
              Generated(sessions, t)[k] == Becomes(sessions, origin[k], t)
    ensures made == Generated(sessions, t)[|origin|..]
    ensures forall k :: 0 <= k < |made| ==>
              made[k] == Session(made[k].date, t.schedule.start, t.schedule.end, None, false, false)
    ensures forall j, k :: 0 <= j < k < |made| ==> made[j].date < made[k].date
    ensures forall d :: (exists k :: 0 <= k < |made| && made[k].date == d) <==>
              MeetingDay(t.schedule, d) && forall i :: 0 <= i < |sessions| ==> sessions[i].date != d
  {
    origin := KeptRows(sessions, t);
    made := CreatedFor(sessions, Dates(t.schedule), t.schedule);
    CreatedRows(sessions, Dates(t.schedule), t.schedule);
    forall i: nat | i < |sessions| ensures Removes(sessions, i, t) <==> Goes(sessions[i], t) {
      RemovesReads(sessions, i, t);
    }
    forall d ensures Meets(t.schedule, d) <==> MeetingDay(t.schedule, d) {
      MeetsReads(t.schedule, d);
    }
    MadeReads(sessions, made, t.schedule);
    hide Removes, Moves, Goes, Meets, MeetingDay, Dates, Becomes, ComesFrom, NewSession;
    forall k | 0 <= k < |origin| ensures Generated(sessions, t)[k] == Becomes(sessions, origin[k], t) {
      BecomesReads(KeptFrom(sessions, 0, t)[k], sessions, origin[k], t);
    }
    NewReads(made, t.schedule);
  }

  lemma NewReads(made: seq<Session>, p: Schedule)
    requires forall k :: 0 <= k < |made| ==> made[k] == NewSession(made[k].date, p)
    ensures forall k :: 0 <= k < |made| ==> made[k] == Session(made[k].date, p.start, p.end, None, false, false)
  {
  }

  lemma MadeReads(sessions: seq<Session>, made: seq<Session>, p: Schedule)
    requires Complete(p)
    requires forall k :: 0 <= k < |made| ==> made[k] == NewSession(made[k].date, p) && Meets(p, made[k].date)
                                             && !HasRow(sessions, made[k].date)
    requires forall d :: Meets(p, d) && !HasRow(sessions, d) ==> NewSession(d, p) in made
    ensures forall d :: (exists k :: 0 <= k < |made| && made[k].date == d) <==>
              Meets(p, d) && forall i :: 0 <= i < |sessions| ==> sessions[i].date != d
  {
    hide Meets;
    forall d | Meets(p, d) && forall i :: 0 <= i < |sessions| ==> sessions[i].date != d
      ensures exists k :: 0 <= k < |made| && made[k].date == d {
      assert NewSession(d, p) in made;
    }
  }

  // ------------------------------------------------------------------- lessons

  /** Strings in order: at the first place where they differ, one ends or has the smaller
      character. */
  predicate Smaller(a: string, b: string) {
    exists k :: 0 <= k <= |a| && k < |b| && a[..k] == b[..k] && (k == |a| || a[k] < b[k])
  }

  lemma SmallerRest(a: string, b: string)
    requires a != "" && b != "" && a[0] == b[0] && Smaller(a, b)
    ensures Smaller(a[1..], b[1..])
  {
    var k :| 0 <= k <= |a| && k < |b| && a[..k] == b[..k] && (k == |a| || a[k] < b[k]);
    assert k > 0;
    assert a[1..][..k - 1] == a[..k][1..] && b[1..][..k - 1] == b[..k][1..];
    assert k < |a| ==> a[1..][k - 1] == a[k] && b[1..][k - 1] == b[k];
  }

  lemma SmallerWhole(a: string, b: string)
    requires a != "" && b != "" && a[0] == b[0] && Smaller(a[1..], b[1..])
    ensures Smaller(a, b)
  {
    var k :| 0 <= k <= |a[1..]| && k < |b[1..]| && a[1..][..k] == b[1..][..k]
             && (k == |a[1..]| || a[1..][k] < b[1..][k]);
    assert a[..k + 1] == [a[0]] + a[1..][..k] && b[..k + 1] == [b[0]] + b[1..][..k];
    assert k < |a[1..]| ==> a[1..][k] == a[k + 1] && b[1..][k] == b[k + 1];
  }

  lemma {:induction false} BeforeReads(a: string, b: string)
    ensures Before(a, b) <==> Smaller(a, b)
    decreases |a|
  {
    if a == "" {
      if b != "" {
        assert a[..0] == b[..0];
      }
    } else if b != "" {
      if a[0] == b[0] {
        BeforeReads(a[1..], b[1..]);
        if Smaller(a, b) { SmallerRest(a, b); }
        if Smaller(a[1..], b[1..]) { SmallerWhole(a, b); }
      } else {
        assert a[..0] == b[..0];
        assert forall k :: 0 < k <= |a| && k < |b| ==> a[..k][0] != b[..k][0];
      }
    }
  }

  function StartText(s: Session): string {
    if s.start == None then "" else s.start.value
  }

  /** By date; on one date by start time, an unset one first; then as they are stored. */
  predicate Sooner(sessions: seq<Session>, i: nat, j: nat)
    requires i < |sessions| && j < |sessions|
  {
    var s, t := sessions[i], sessions[j];
    || s.date < t.date
    || (s.date == t.date && (Smaller(StartText(s), StartText(t)) || (StartText(s) == StartText(t) && i < j)))
  }

  lemma {:induction false} BeforeIsTotal(a: string, b: string)
    ensures Before(a, b) || Before(b, a) || a == b
    decreases |a|
  {
    if a != "" && b != "" && a[0] == b[0] {
      BeforeIsTotal(a[1..], b[1..]);
      assert a == [a[0]] + a[1..] && b == [b[0]] + b[1..];
    }
  }

  lemma PrecedesReads(sessions: seq<Session>, i: nat, j: nat)
    requires i < |sessions| && j < |sessions|
    ensures Precedes(sessions, i, j) <==> Sooner(sessions, i, j)
  {
    var a, b := StartOf(sessions[i]), StartOf(sessions[j]);
    BeforeReads(a, b);
    BeforeReads(b, a);
    BeforeIsTotal(a, b);
    hide Smaller, Before;
    if a == b {
      NotBefore(a);
    } else if Before(a, b) {
      BeforeIsAsymmetric(a, b);
    }
  }

  lemma {:induction false} NotBefore(a: string)
    ensures !Before(a, a)
    decreases |a|
  {
    if a != "" {
      NotBefore(a[1..]);
    }
  }

  /** How many of the lessons no session has yet. */
  function Left(sessions: seq<Session>, lessons: seq<nat>): nat {
    if lessons == [] then 0
    else Left(sessions, lessons[..|lessons| - 1])
         + if forall i :: 0 <= i < |sessions| ==> sessions[i].lesson != Some(lessons[|lessons| - 1]) then 1 else 0
  }

  lemma {:induction false} UntaughtConcat(sessions: seq<Session>, a: seq<nat>, b: seq<nat>)
    ensures Untaught(sessions, a + b) == Untaught(sessions, a) + Untaught(sessions, b)
    decreases |a|
  {
    hide Taught;
    if a == [] {
      assert a + b == b;
    } else {
      assert (a + b)[0] == a[0] && (a + b)[1..] == a[1..] + b;
      UntaughtConcat(sessions, a[1..], b);
    }
  }

  /** The queue of lessons: those that no session has, each behind as many as come before it. */
  lemma {:induction false} UntaughtReads(sessions: seq<Session>, lessons: seq<nat>, k: nat)
    requires k < |lessons|
    ensures |Untaught(sessions, lessons)| == Left(sessions, lessons)
    ensures (forall i :: 0 <= i < |sessions| ==> sessions[i].lesson != Some(lessons[k])) ==>
              Left(sessions, lessons[..k]) < Left(sessions, lessons)
              && Untaught(sessions, lessons)[Left(sessions, lessons[..k])] == lessons[k]
    decreases |lessons|
  {
    var m := |lessons| - 1;
    var rest, last := lessons[..m], [lessons[m]];
    assert lessons == rest + last;
    UntaughtConcat(sessions, rest, last);
    assert Untaught(sessions, last) == if Taught(sessions, lessons[m]) then [] else last;
    if k < m {
      UntaughtReads(sessions, rest, k);
      assert rest[..k] == lessons[..k];
    } else if m > 0 {
      UntaughtReads(sessions, rest, 0);
    } else {
      assert Untaught(sessions, rest) == [];
    }
  }

  /** The sessions without a lesson that come sooner. */
  function Waiting(sessions: seq<Session>, i: nat): set<nat>
    requires i < |sessions|
  {
    set j: nat | j < |sessions| && sessions[j].lesson == None && Sooner(sessions, j, i)
  }

  lemma AheadReads(sessions: seq<Session>, i: nat)
    requires i < |sessions|
    ensures Ahead(sessions, i) == Waiting(sessions, i)
  {
    forall j: nat | j < |sessions| ensures Precedes(sessions, j, i) <==> Sooner(sessions, j, i) {
      PrecedesReads(sessions, j, i);
    }
    hide Precedes, Sooner;
  }

  /** Lesson k of the course goes to the session that has none and as many such sooner than it
      as there are lessons before k that no session has. Nothing else about a session changes. */
  lemma LessonReads(sessions: seq<Session>, lessons: seq<nat>, i: nat, k: nat)
    requires i < |sessions| && k < |lessons|
    requires forall j :: 0 <= j < |sessions| ==> sessions[j].lesson != Some(lessons[k])
    requires sessions[i].lesson == None && |Waiting(sessions, i)| == Left(sessions, lessons[..k])
    ensures Give(sessions, ByDateAndTime(sessions), Untaught(sessions, lessons))[i]
            == sessions[i].(lesson := Some(lessons[k]))
  {
    LessonsByDate(sessions, lessons, i);
    UntaughtReads(sessions, lessons, k);
    AheadReads(sessions, i);
    hide Give, Untaught, ByDateAndTime, Left, Ahead, Waiting;
  }

  /** A session that has a lesson keeps it, and one with too many sooner stays without. */
  lemma NoLessonReads(sessions: seq<Session>, lessons: seq<nat>, i: nat)
    requires i < |sessions|
    requires sessions[i].lesson != None || |Waiting(sessions, i)| >= Left(sessions, lessons)
    ensures Give(sessions, ByDateAndTime(sessions), Untaught(sessions, lessons))[i] == sessions[i]
  {
    LessonsByDate(sessions, lessons, i);
    if lessons != [] {
      UntaughtReads(sessions, lessons, 0);
    }
    AheadReads(sessions, i);
    hide Give, ByDateAndTime, Ahead, Waiting;
  }
}
