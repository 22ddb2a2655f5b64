/** The class sessions of a run, generated from its schedule and regenerated when that changes
    (app/services/attendance/generate.py). Dates are ordinals, as date.toordinal() counts. */
module Timetable {
  import opened Wrappers

  type Time = string

  /** `marked` has attendance, `handed` a handover request. */
  datatype Session = Session(date: int, start: Option<Time>, end: Option<Time>, lesson: Option<nat>, marked: bool,
                             handed: bool)

  /** Weekdays are 0 for Monday to 6 for Sunday. */
  datatype Schedule = Schedule(days: set<int>, first: Option<int>, last: Option<int>, start: Option<Time>,
                               end: Option<Time>)

  function Weekday(date: int): (w: int)
    ensures 0 <= w < 7
  {
    (date + 6) % 7
  }

  /** What the generator refuses to work without. */
  predicate Complete(p: Schedule) {
    p.first.Some? && p.last.Some? && p.days != {} && p.start.Some? && p.start.value != ""
  }

  predicate Meets(p: Schedule, date: int)
    requires Complete(p)
  {
    p.first.value <= date <= p.last.value && Weekday(date) in p.days
  }

  function DatesFrom(p: Schedule, date: int): (dates: seq<int>)
    requires Complete(p) && p.first.value <= date
    ensures forall d :: d in dates <==> date <= d && Meets(p, d)
    ensures forall i, j :: 0 <= i < j < |dates| ==> dates[i] < dates[j]
    decreases p.last.value - date
  {
    if date > p.last.value then []
    else
      var rest := DatesFrom(p, date + 1);
      assert forall k :: 0 <= k < |rest| ==> rest[k] in rest;
      if Weekday(date) in p.days then [date] + rest else rest
  }

  /** Every meeting date once, in order. */
  function Dates(p: Schedule): (dates: seq<int>)
    requires Complete(p)
    ensures forall d :: d in dates <==> Meets(p, d)
    ensures forall i, j :: 0 <= i < j < |dates| ==> dates[i] < dates[j]
  {
    DatesFrom(p, p.first.value)
  }

  // ------------------------------------------------------------ one generation

  /** History: today or earlier, with attendance, or with a handover. */
  predicate Protected(s: Session, today: int) {
    s.date <= today || s.marked || s.handed
  }

  datatype Task = Task(schedule: Schedule, regenerate: bool, today: int)

  predicate HasRow(sessions: seq<Session>, date: int) {
    exists i :: 0 <= i < |sessions| && sessions[i].date == date
  }

  predicate HasSlot(sessions: seq<Session>, date: int, start: Option<Time>) {
    exists i :: 0 <= i < |sessions| && sessions[i].date == date && sessions[i].start == start
  }

  predicate Movable(s: Session, date: int, today: int) {
    s.date == date && !Protected(s, today)
  }

  /** Row i is the first of its date that may move. */
  predicate FirstMovable(sessions: seq<Session>, i: nat, today: int)
    requires i < |sessions|
  {
    Movable(sessions[i], sessions[i].date, today)
    && forall j :: 0 <= j < i ==> !Movable(sessions[j], sessions[i].date, today)
  }

  /** Row i is brought to the schedule's time. */
  predicate Moves(sessions: seq<Session>, i: nat, t: Task)
    requires i < |sessions| && Complete(t.schedule)
  {
    && t.regenerate && Meets(t.schedule, sessions[i].date)
    && !HasSlot(sessions, sessions[i].date, t.schedule.start)
    && FirstMovable(sessions, i, t.today)
  }

  /** Row i is on a day the run no longer meets, and not history. */
  predicate Removes(sessions: seq<Session>, i: nat, t: Task)
    requires i < |sessions| && Complete(t.schedule)
  {
    t.regenerate && !Meets(t.schedule, sessions[i].date) && !Protected(sessions[i], t.today)
  }

  function Timed(s: Session, p: Schedule): Session {
    s.(start := p.start, end := p.end)
  }

  function NewSession(date: int, p: Schedule): Session {
    Session(date, p.start, p.end, None, false, false)
  }

  /** The rows from i on that stay, moved where they move. */
  function KeptFrom(sessions: seq<Session>, i: nat, t: Task): seq<Session>
    requires i <= |sessions| && Complete(t.schedule)
    decreases |sessions| - i
  {
    if i == |sessions| then []
    else (if Removes(sessions, i, t) then []
          else if Moves(sessions, i, t) then [Timed(sessions[i], t.schedule)] else [sessions[i]])
         + KeptFrom(sessions, i + 1, t)
  }

  /** A session for each of the dates that has none. */
  function CreatedFor(sessions: seq<Session>, dates: seq<int>, p: Schedule): seq<Session> {
    if dates == [] then []
    else (if HasRow(sessions, dates[0]) then [] else [NewSession(dates[0], p)]) + CreatedFor(sessions, dates[1..], p)
  }

  function Generated(sessions: seq<Session>, t: Task): seq<Session>
    requires Complete(t.schedule)
  {
    KeptFrom(sessions, 0, t) + CreatedFor(sessions, Dates(t.schedule), t.schedule)
  }

  // ------------------------------------------------------------- what it keeps

  /** (date, start time) is unique among sessions; unset times never collide. */
  predicate Distinct(sessions: seq<Session>) {
    forall i, j :: 0 <= i < j < |sessions| && sessions[i].date == sessions[j].date && sessions[i].start.Some? ==>
      sessions[i].start != sessions[j].start
  }

  /** Where a kept row comes from. */
  predicate ComesFrom(s: Session, sessions: seq<Session>, i: nat, t: Task)
    requires i < |sessions| && Complete(t.schedule)
  {
    !Removes(sessions, i, t) && s == if Moves(sessions, i, t) then Timed(sessions[i], t.schedule) else sessions[i]
  }

  /** The rows from i on that are not removed. */
  function Origins(sessions: seq<Session>, i: nat, t: Task): (origin: seq<nat>)
    requires i <= |sessions| && Complete(t.schedule)
    ensures forall k :: 0 <= k < |origin| ==> i <= origin[k] < |sessions| && !Removes(sessions, origin[k], t)
    ensures |origin| == |KeptFrom(sessions, i, t)|
    decreases |sessions| - i
  {
    if i == |sessions| then []
    else if Removes(sessions, i, t) then Origins(sessions, i + 1, t)
    else [i] + Origins(sessions, i + 1, t)
  }

  lemma {:induction false} OriginsInOrder(sessions: seq<Session>, i: nat, t: Task, j: nat, k: nat)
    requires i <= |sessions| && Complete(t.schedule) && j < k < |Origins(sessions, i, t)|
    ensures Origins(sessions, i, t)[j] < Origins(sessions, i, t)[k]
    decreases |sessions| - i
  {
    hide Removes;
    if Removes(sessions, i, t) {
      OriginsInOrder(sessions, i + 1, t, j, k);
    } else if j > 0 {
      OriginsInOrder(sessions, i + 1, t, j - 1, k - 1);
    } else {
      assert Origins(sessions, i, t)[k] == Origins(sessions, i + 1, t)[k - 1];
    }
  }

  lemma {:induction false} OriginsAreAll(sessions: seq<Session>, i: nat, t: Task, n: nat)
    requires i <= n < |sessions| && Complete(t.schedule) && !Removes(sessions, n, t)
    ensures n in Origins(sessions, i, t)
    decreases |sessions| - i
  {
    hide Removes, Moves, KeptFrom;
    if i < n {
      OriginsAreAll(sessions, i + 1, t, n);
      var rest := Origins(sessions, i + 1, t);
      assert Origins(sessions, i, t) == rest || Origins(sessions, i, t) == [i] + rest;
    } else {
      assert Origins(sessions, i, t)[0] == n;
    }
  }

  lemma {:induction false} KeptAt(sessions: seq<Session>, i: nat, t: Task, k: nat)
    requires i <= |sessions| && Complete(t.schedule) && k < |Origins(sessions, i, t)|
    ensures ComesFrom(KeptFrom(sessions, i, t)[k], sessions, Origins(sessions, i, t)[k], t)
    decreases |sessions| - i
  {
    hide Removes, Moves, Timed, ComesFrom;
    if Removes(sessions, i, t) {
      KeptAt(sessions, i + 1, t, k);
    } else if k == 0 {
      RowKept(sessions, i, t);
    } else {
      KeptAt(sessions, i + 1, t, k - 1);
    }
  }

  /** The kept rows are the old ones that are not removed, in order. */
  lemma KeptRows(sessions: seq<Session>, t: Task) returns (origin: seq<nat>)
    requires Complete(t.schedule)
    ensures |origin| == |KeptFrom(sessions, 0, t)|
    ensures forall k :: 0 <= k < |origin| ==>
            origin[k] < |sessions| && ComesFrom(KeptFrom(sessions, 0, t)[k], sessions, origin[k], t)
    ensures forall j, k :: 0 <= j < k < |origin| ==> origin[j] < origin[k]
    ensures forall n :: 0 <= n < |sessions| && !Removes(sessions, n, t) ==> n in origin
  {
    hide Removes, ComesFrom;
    origin := Origins(sessions, 0, t);
    forall j, k | 0 <= j < k < |origin| ensures origin[j] < origin[k] {
      OriginsInOrder(sessions, 0, t, j, k);
    }
    forall k | 0 <= k < |origin| ensures ComesFrom(KeptFrom(sessions, 0, t)[k], sessions, origin[k], t) {
      KeptAt(sessions, 0, t, k);
    }
    forall n | 0 <= n < |sessions| && !Removes(sessions, n, t) ensures n in origin {
      OriginsAreAll(sessions, 0, t, n);
    }
  }

  lemma RowKept(sessions: seq<Session>, i: nat, t: Task)
    requires i < |sessions| && Complete(t.schedule) && !Removes(sessions, i, t)
    ensures ComesFrom(if Moves(sessions, i, t) then Timed(sessions[i], t.schedule) else sessions[i], sessions, i, t)
  {
  }

  lemma {:induction false} CreatedRows(sessions: seq<Session>, dates: seq<int>, p: Schedule)
    requires forall i, j :: 0 <= i < j < |dates| ==> dates[i] < dates[j]
    ensures forall k :: 0 <= k < |CreatedFor(sessions, dates, p)| ==>
              var s := CreatedFor(sessions, dates, p)[k];
              s == NewSession(s.date, p) && s.date in dates && !HasRow(sessions, s.date)
    ensures forall j, k :: 0 <= j < k < |CreatedFor(sessions, dates, p)| ==>
              CreatedFor(sessions, dates, p)[j].date < CreatedFor(sessions, dates, p)[k].date
    ensures forall d :: d in dates && !HasRow(sessions, d) ==> NewSession(d, p) in CreatedFor(sessions, dates, p)
    decreases |dates|
  {
    hide HasRow;
    if dates != [] {
      CreatedRows(sessions, dates[1..], p);
    }
  }

  /** History is left exactly as it is. */
  lemma ProtectedStays(sessions: seq<Session>, t: Task, i: nat)
    requires Complete(t.schedule) && i < |sessions| && Protected(sessions[i], t.today)
    ensures sessions[i] in Generated(sessions, t)
  {
    var origin := KeptRows(sessions, t);
    assert i in origin;
    var k :| 0 <= k < |origin| && origin[k] == i;
    assert Generated(sessions, t)[k] == KeptFrom(sessions, 0, t)[k];
  }

  /** Every meeting date has a session; one at the schedule's time, unless regenerating finds
      only history there, or an existing timetable is not being regenerated. */
  lemma EveryDateHasSession(sessions: seq<Session>, t: Task, date: int)
    requires Complete(t.schedule) && Meets(t.schedule, date)
    ensures HasRow(Generated(sessions, t), date)
    ensures t.regenerate && (exists i :: 0 <= i < |sessions| && Movable(sessions[i], date, t.today)) ==>
              HasSlot(Generated(sessions, t), date, t.schedule.start)
    ensures !HasRow(sessions, date) ==> HasSlot(Generated(sessions, t), date, t.schedule.start)
  {
    var after, kept := Generated(sessions, t), KeptFrom(sessions, 0, t);
    var origin := KeptRows(sessions, t);
    if !HasRow(sessions, date) {
      CreatedRows(sessions, Dates(t.schedule), t.schedule);
      var made := CreatedFor(sessions, Dates(t.schedule), t.schedule);
      var k :| 0 <= k < |made| && made[k] == NewSession(date, t.schedule);
      assert after[|kept| + k] == made[k];
    } else {
      var i :| 0 <= i < |sessions| && sessions[i].date == date;
      RowStays(sessions, t, i, origin);
      if t.regenerate && exists n :: 0 <= n < |sessions| && Movable(sessions[n], date, t.today) {
        SlotFilled(sessions, t, date, origin);
      }
    }
  }

  lemma RowStays(sessions: seq<Session>, t: Task, i: nat, origin: seq<nat>)
    requires Complete(t.schedule) && i < |sessions| && Meets(t.schedule, sessions[i].date)
    requires |origin| == |KeptFrom(sessions, 0, t)| && i in origin
    requires forall k :: 0 <= k < |origin| ==>
             origin[k] < |sessions| && ComesFrom(KeptFrom(sessions, 0, t)[k], sessions, origin[k], t)
    ensures HasRow(Generated(sessions, t), sessions[i].date)
    ensures Moves(sessions, i, t) || sessions[i].start == t.schedule.start ==>
              HasSlot(Generated(sessions, t), sessions[i].date, t.schedule.start)
  {
    var k :| 0 <= k < |origin| && origin[k] == i;
    assert Generated(sessions, t)[k] == KeptFrom(sessions, 0, t)[k];
  }

  lemma {:induction false} FindFirst(sessions: seq<Session>, date: int, today: int, n: nat) returns (i: nat)
    requires n < |sessions| && Movable(sessions[n], date, today)
    ensures i <= n && Movable(sessions[i], date, today) && forall j :: 0 <= j < i ==> !Movable(sessions[j], date, today)
    decreases n
  {
    if j :| 0 <= j < n && Movable(sessions[j], date, today) {
      i := FindFirst(sessions, date, today, j);
    } else {
      i := n;
    }
  }

  lemma SlotFilled(sessions: seq<Session>, t: Task, date: int, origin: seq<nat>)
    requires Complete(t.schedule) && Meets(t.schedule, date) && t.regenerate
    requires exists n :: 0 <= n < |sessions| && Movable(sessions[n], date, t.today)
    requires |origin| == |KeptFrom(sessions, 0, t)|
    requires forall k :: 0 <= k < |origin| ==>
             origin[k] < |sessions| && ComesFrom(KeptFrom(sessions, 0, t)[k], sessions, origin[k], t)
    requires forall n :: 0 <= n < |sessions| && !Removes(sessions, n, t) ==> n in origin
    ensures HasSlot(Generated(sessions, t), date, t.schedule.start)
  {
    if HasSlot(sessions, date, t.schedule.start) {
      var i :| 0 <= i < |sessions| && sessions[i].date == date && sessions[i].start == t.schedule.start;
      RowStays(sessions, t, i, origin);
    } else {
      var n :| 0 <= n < |sessions| && Movable(sessions[n], date, t.today);
      var i := FindFirst(sessions, date, t.today, n);
      assert Moves(sessions, i, t);
      RowStays(sessions, t, i, origin);
    }
  }

  /** After regenerating, whatever is off the meeting dates is history. */
  lemma OffDatesAreHistory(sessions: seq<Session>, t: Task, k: nat)
    requires Complete(t.schedule) && t.regenerate && k < |Generated(sessions, t)|
    ensures Meets(t.schedule, Generated(sessions, t)[k].date) || Protected(Generated(sessions, t)[k], t.today)
  {
    var kept := KeptFrom(sessions, 0, t);
    var origin := KeptRows(sessions, t);
    CreatedRows(sessions, Dates(t.schedule), t.schedule);
    if k < |kept| {
      assert ComesFrom(kept[k], sessions, origin[k], t);
    }
  }

  /** No slot is used twice, so the commit is never refused on this account. */
  lemma DistinctStays(sessions: seq<Session>, t: Task)
    requires Complete(t.schedule) && Distinct(sessions)
    ensures Distinct(Generated(sessions, t))
  {
    var after, kept := Generated(sessions, t), KeptFrom(sessions, 0, t);
    var origin := KeptRows(sessions, t);
    CreatedRows(sessions, Dates(t.schedule), t.schedule);
    forall i, j | 0 <= i < j < |after|
      ensures after[i].date == after[j].date && after[i].start.Some? ==> after[i].start != after[j].start
    {
      if j < |kept| {
        TwoKept(sessions, t, kept[i], origin[i], kept[j], origin[j]);
      } else if i < |kept| {
        NewDate(sessions, t, kept[i], origin[i], after[j].date);
      }
    }
  }

  lemma NewDate(sessions: seq<Session>, t: Task, a: Session, m: nat, date: int)
    requires Complete(t.schedule) && m < |sessions| && ComesFrom(a, sessions, m, t) && !HasRow(sessions, date)
    ensures a.date != date
  {
  }

  lemma TwoKept(sessions: seq<Session>, t: Task, a: Session, m: nat, b: Session, n: nat)
    requires Complete(t.schedule) && Distinct(sessions) && m < n < |sessions|
    requires ComesFrom(a, sessions, m, t) && ComesFrom(b, sessions, n, t)
    ensures a.date == b.date && a.start.Some? ==> a.start != b.start
  {
  }

  /** Generating again at once changes nothing. */
  lemma AgainIsNothing(sessions: seq<Session>, t: Task)
    requires Complete(t.schedule)
    ensures Generated(Generated(sessions, t), t) == Generated(sessions, t)
    ensures forall i :: 0 <= i < |Generated(sessions, t)| ==>
              !Removes(Generated(sessions, t), i, t) && !Moves(Generated(sessions, t), i, t)
    ensures CreatedFor(Generated(sessions, t), Dates(t.schedule), t.schedule) == []
  {
    var once := Generated(sessions, t);
    forall i | 0 <= i < |once| ensures !Removes(once, i, t) && !Moves(once, i, t) {
      if t.regenerate {
        OffDatesAreHistory(sessions, t, i);
        Settled(sessions, t, i);
      }
    }
    NothingKeptChanges(once, 0, t);
    forall d | d in Dates(t.schedule) ensures HasRow(once, d) {
      EveryDateHasSession(sessions, t, d);
    }
    NothingCreated(once, Dates(t.schedule), t.schedule);
    assert once[0..] == once && once + [] == once;
  }

  /** A date with a row that may still move has one at the schedule's time. */
  lemma Settled(sessions: seq<Session>, t: Task, i: nat)
    requires Complete(t.schedule) && t.regenerate && i < |Generated(sessions, t)|
    requires Meets(t.schedule, Generated(sessions, t)[i].date) || Protected(Generated(sessions, t)[i], t.today)
    ensures !Moves(Generated(sessions, t), i, t)
  {
    var once, kept := Generated(sessions, t), KeptFrom(sessions, 0, t);
    var date := once[i].date;
    if Meets(t.schedule, date) && Movable(once[i], date, t.today) {
      var origin := KeptRows(sessions, t);
      CreatedRows(sessions, Dates(t.schedule), t.schedule);
      if i < |kept| {
        assert Movable(sessions[origin[i]], date, t.today);
      }
      EveryDateHasSession(sessions, t, date);
    }
  }

  lemma {:induction false} NothingKeptChanges(sessions: seq<Session>, i: nat, t: Task)
    requires i <= |sessions| && Complete(t.schedule)
    requires forall n :: 0 <= n < |sessions| ==> !Removes(sessions, n, t) && !Moves(sessions, n, t)
    ensures KeptFrom(sessions, i, t) == sessions[i..]
    decreases |sessions| - i
  {
    hide Removes, Moves;
    if i < |sessions| {
      NothingKeptChanges(sessions, i + 1, t);
      assert sessions[i..] == [sessions[i]] + sessions[i + 1..];
    }
  }

  lemma {:induction false} NothingCreated(sessions: seq<Session>, dates: seq<int>, p: Schedule)
    requires forall d :: d in dates ==> HasRow(sessions, d)
    ensures CreatedFor(sessions, dates, p) == []
    decreases |dates|
  {
    hide HasRow;
    if dates != [] {
      NothingCreated(sessions, dates[1..], p);
    }
  }

  // ------------------------------------------------------------ handing out lessons

  predicate InRange(order: seq<nat>, n: nat) {
    forall k :: 0 <= k < |order| ==> order[k] < n
  }

  predicate NoRepeats(order: seq<nat>) {
    forall j, k :: 0 <= j < k < |order| ==> order[j] != order[k]
  }

  /** The queue's lessons go, one after another, to the sessions that have none. */
  function Give(sessions: seq<Session>, order: seq<nat>, queue: seq<nat>): (r: seq<Session>)
    requires InRange(order, |sessions|)
    ensures |r| == |sessions|
    decreases |order|
  {
    if order == [] then sessions
    else if sessions[order[0]].lesson.Some? || queue == [] then Give(sessions, order[1..], queue)
    else Give(sessions[order[0] := sessions[order[0]].(lesson := Some(queue[0]))], order[1..], queue[1..])
  }

  predicate Taught(sessions: seq<Session>, lesson: nat) {
    exists i :: 0 <= i < |sessions| && sessions[i].lesson == Some(lesson)
  }

  /** The course's lessons that no session has, in the course's order. */
  function Untaught(sessions: seq<Session>, lessons: seq<nat>): seq<nat> {
    if lessons == [] then []
    else (if Taught(sessions, lessons[0]) then [] else [lessons[0]]) + Untaught(sessions, lessons[1..])
  }

  /** How many of the first n sessions in order have no lesson yet. */
  function FreeBefore(sessions: seq<Session>, order: seq<nat>, n: nat): nat
    requires InRange(order, |sessions|) && n <= |order|
    decreases n
  {
    if n == 0 then 0
    else (if sessions[order[0]].lesson.None? then 1 else 0) + FreeBefore(sessions, order[1..], n - 1)
  }

  lemma {:induction false} FreeBeforeElsewhere(sessions: seq<Session>, order: seq<nat>, n: nat, i: nat, s: Session)
    requires InRange(order, |sessions|) && n <= |order| && i < |sessions|
    requires forall k :: 0 <= k < n ==> order[k] != i
    ensures FreeBefore(sessions[i := s], order, n) == FreeBefore(sessions, order, n)
    decreases n
  {
    if n > 0 { FreeBeforeElsewhere(sessions, order[1..], n - 1, i, s); }
  }

  lemma {:induction false} GiveElsewhere(sessions: seq<Session>, order: seq<nat>, queue: seq<nat>, i: nat)
    requires InRange(order, |sessions|) && i < |sessions| && i !in order
    ensures Give(sessions, order, queue)[i] == sessions[i]
    decreases |order|
  {
    if order != [] {
      if sessions[order[0]].lesson.Some? || queue == [] {
        GiveElsewhere(sessions, order[1..], queue, i);
      } else {
        GiveElsewhere(sessions[order[0] := sessions[order[0]].(lesson := Some(queue[0]))], order[1..], queue[1..], i);
      }
    }
  }

  /** Taken in order, the r-th session without a lesson gets the r-th lesson of the queue;
      a session that has one keeps it, and nothing else about a session changes. */
  lemma {:induction false} LessonsInOrder(sessions: seq<Session>, order: seq<nat>, queue: seq<nat>, a: nat)
    requires InRange(order, |sessions|) && NoRepeats(order) && a < |order|
    ensures var i, r := order[a], FreeBefore(sessions, order, a);
            Give(sessions, order, queue)[i]
            == if sessions[i].lesson.None? && r < |queue| then sessions[i].(lesson := Some(queue[r])) else sessions[i]
    decreases |order|
  {
    var first, rest := order[0], order[1..];
    var gives := sessions[first].lesson.None? && queue != [];
    var next := if gives then sessions[first := sessions[first].(lesson := Some(queue[0]))] else sessions;
    assert forall k :: 0 <= k < |rest| ==> rest[k] == order[k + 1];
    assert first !in rest;
    if a == 0 {
      GiveElsewhere(next, rest, if gives then queue[1..] else queue, first);
    } else {
      LessonsInOrder(next, rest, if gives then queue[1..] else queue, a - 1);
      if gives {
        FreeBeforeElsewhere(sessions, rest, a - 1, first, next[first]);
      }
    }
  }

  // ------------------------------------------------------------ the order of sessions

  /** Python's order of strings: by the first character that differs. */
  predicate Before(a: string, b: string) {
    if a == "" then b != ""
    else if b == "" then false
    else if a[0] != b[0] then a[0] < b[0]
    else Before(a[1..], b[1..])
  }

  lemma {:induction false} BeforeIsAsymmetric(a: string, b: string)
    requires Before(a, b)
    ensures !Before(b, a)
  {
    if a != "" && a[0] == b[0] {
      BeforeIsAsymmetric(a[1..], b[1..]);
    }
  }

  lemma {:induction false} BeforeSplits(a: string, b: string, c: string)
    requires Before(a, c)
    ensures Before(a, b) || Before(b, c)
  {
    if a != "" && b != "" && a[0] == c[0] == b[0] {
      BeforeSplits(a[1..], b[1..], c[1..]);
    }
  }

  function StartOf(s: Session): string {
    if s.start.Some? then s.start.value else ""
  }

  /** By date, then by start time, a missing one first. */
  predicate Later(s: Session, t: Session) {
    s.date > t.date || (s.date == t.date && Before(StartOf(t), StartOf(s)))
  }

  lemma LaterSplits(s: Session, t: Session, u: Session)
    ensures Later(s, u) ==> !Later(u, s) && (Later(s, t) || Later(t, u))
  {
    if Later(s, u) && s.date == u.date {
      BeforeIsAsymmetric(StartOf(u), StartOf(s));
      BeforeSplits(StartOf(u), StartOf(t), StartOf(s));
    }
  }

  /** Row i stands before row j, rows of one date and time as they are stored. */
  predicate Precedes(sessions: seq<Session>, i: nat, j: nat)
    requires i < |sessions| && j < |sessions|
  {
    Later(sessions[j], sessions[i]) || (!Later(sessions[i], sessions[j]) && i < j)
  }

  function InsertRow(sessions: seq<Session>, order: seq<nat>, i: nat): (r: seq<nat>)
    requires i < |sessions| && InRange(order, |sessions|)
    ensures |r| == |order| + 1 && InRange(r, |sessions|)
  {
    if order == [] then [i]
    else
      var last := |order| - 1;
      if Later(sessions[order[last]], sessions[i]) then InsertRow(sessions, order[..last], i) + [order[last]]
      else order + [i]
  }

  /** Rows in order, none of them twice. */
  ghost predicate Chain(sessions: seq<Session>, order: seq<nat>) {
    && InRange(order, |sessions|)
    && forall j, k :: 0 <= j < k < |order| ==> Precedes(sessions, order[j], order[k])
  }

  lemma ChainEnd(sessions: seq<Session>, order: seq<nat>, i: nat)
    requires Chain(sessions, order) && i < |sessions| && forall e :: e in order ==> e < i
    requires order != [] ==> !Later(sessions[order[|order| - 1]], sessions[i])
    ensures Chain(sessions, order + [i])
  {
    hide Later;
    forall j | 0 <= j < |order| ensures Precedes(sessions, order[j], i) {
      var last := order[|order| - 1];
      assert order[j] in order;
      LaterSplits(sessions[order[j]], sessions[last], sessions[i]);
      LaterSplits(sessions[order[j]], sessions[i], sessions[last]);
      assert j == |order| - 1 || Precedes(sessions, order[j], last);
      LaterSplits(sessions[last], sessions[i], sessions[order[j]]);
    }
  }

  lemma ChainSplit(sessions: seq<Session>, order: seq<nat>)
    requires Chain(sessions, order) && order != []
    ensures var front, last := order[..|order| - 1], order[|order| - 1];
            && Chain(sessions, front) && order == front + [last]
            && (forall e :: e in front ==> Precedes(sessions, e, last))
            && forall e :: e in order <==> e in front || e == last
  {
    hide Precedes;
    assert order == order[..|order| - 1] + [order[|order| - 1]];
  }

  lemma ChainPut(sessions: seq<Session>, order: seq<nat>, i: nat)
    requires Chain(sessions, order) && i < |sessions| && forall e :: e in order ==> Precedes(sessions, e, i)
    ensures Chain(sessions, order + [i])
  {
    hide Precedes;
    assert forall j :: 0 <= j < |order| ==> order[j] in order;
  }

  lemma {:induction false} InsertKeepsOrder(sessions: seq<Session>, order: seq<nat>, i: nat)
    requires Chain(sessions, order) && i < |sessions| && forall e :: e in order ==> e < i
    ensures Chain(sessions, InsertRow(sessions, order, i))
    ensures forall e :: e in InsertRow(sessions, order, i) <==> e in order || e == i
    decreases |order|
  {
    if order == [] {
      EmptyChain(sessions);
      ChainPut(sessions, [], i);
    } else {
      var front, last := order[..|order| - 1], order[|order| - 1];
      ChainSplit(sessions, order);
      if Later(sessions[last], sessions[i]) {
        assert Precedes(sessions, i, last);
        hide Chain, Precedes, Later;
        InsertKeepsOrder(sessions, front, i);
        ChainPut(sessions, InsertRow(sessions, front, i), last);
      } else {
        ChainEnd(sessions, order, i);
      }
    }
  }

  lemma EmptyChain(sessions: seq<Session>)
    ensures Chain(sessions, [])
  {
  }

  function OrderUpTo(sessions: seq<Session>, n: nat): (order: seq<nat>)
    requires n <= |sessions|
    ensures |order| == n && InRange(order, |sessions|)
  {
    if n == 0 then [] else InsertRow(sessions, OrderUpTo(sessions, n - 1), n - 1)
  }

  /** All rows by date and start time. */
  function ByDateAndTime(sessions: seq<Session>): (order: seq<nat>)
    ensures |order| == |sessions| && InRange(order, |sessions|)
  {
    OrderUpTo(sessions, |sessions|)
  }

  lemma {:induction false} OrderIs(sessions: seq<Session>, n: nat)
    requires n <= |sessions|
    ensures Chain(sessions, OrderUpTo(sessions, n))
    ensures forall i: nat :: i in OrderUpTo(sessions, n) <==> i < n
    decreases n
  {
    hide Chain, InsertRow;
    if n == 0 {
      EmptyChain(sessions);
    } else {
      OrderIs(sessions, n - 1);
      InsertKeepsOrder(sessions, OrderUpTo(sessions, n - 1), n - 1);
    }
  }

  lemma ChainHasNoRepeats(sessions: seq<Session>, order: seq<nat>)
    requires Chain(sessions, order)
    ensures NoRepeats(order)
  {
    forall j, k | 0 <= j < k < |order| ensures order[j] != order[k] {
      LaterSplits(sessions[order[j]], sessions[order[j]], sessions[order[k]]);
      assert Precedes(sessions, order[j], order[k]);
    }
  }

  /** The sessions without a lesson that stand before session i. */
  function Ahead(sessions: seq<Session>, i: nat): set<nat>
    requires i < |sessions|
  {
    set j: nat | j < |sessions| && sessions[j].lesson.None? && Precedes(sessions, j, i)
  }

  lemma PrecedesOneWay(sessions: seq<Session>, i: nat, j: nat)
    requires i < |sessions| && j < |sessions| && Precedes(sessions, i, j)
    ensures !Precedes(sessions, j, i)
  {
    LaterSplits(sessions[j], sessions[i], sessions[i]);
    LaterSplits(sessions[i], sessions[j], sessions[j]);
  }

  lemma {:induction false} FreeBeforeNext(sessions: seq<Session>, order: seq<nat>, n: nat)
    requires InRange(order, |sessions|) && n < |order|
    ensures FreeBefore(sessions, order, n + 1)
         == FreeBefore(sessions, order, n) + if sessions[order[n]].lesson.None? then 1 else 0
    decreases n
  {
    if n > 0 {
      FreeBeforeNext(sessions, order[1..], n - 1);
    }
  }

  /** The free ones among the first n of the order. */
  function FreeOnes(sessions: seq<Session>, order: seq<nat>, n: nat): set<nat>
    requires InRange(order, |sessions|) && n <= |order|
  {
    set k: nat | k < n && sessions[order[k]].lesson.None? :: order[k]
  }

  lemma FreeOnesNext(sessions: seq<Session>, order: seq<nat>, n: nat)
    requires InRange(order, |sessions|) && NoRepeats(order) && n < |order|
    ensures order[n] !in FreeOnes(sessions, order, n)
    ensures FreeOnes(sessions, order, n + 1)
         == FreeOnes(sessions, order, n) + if sessions[order[n]].lesson.None? then {order[n]} else {}
  {
  }

  lemma {:induction false} FreeBeforeIsCount(sessions: seq<Session>, order: seq<nat>, n: nat)
    requires InRange(order, |sessions|) && NoRepeats(order) && n <= |order|
    ensures |FreeOnes(sessions, order, n)| == FreeBefore(sessions, order, n)
    decreases n
  {
    if n == 0 {
      assert FreeOnes(sessions, order, 0) == {};
    } else {
      hide FreeBefore, FreeOnes, NoRepeats;
      FreeBeforeIsCount(sessions, order, n - 1);
      FreeBeforeNext(sessions, order, n - 1);
      FreeOnesNext(sessions, order, n - 1);
    }
  }

  /** Where row i stands. */
  lemma PlaceOf(sessions: seq<Session>, i: nat) returns (a: nat)
    requires i < |sessions|
    ensures a < |sessions| && ByDateAndTime(sessions)[a] == i
  {
    OrderIs(sessions, |sessions|);
    assert i in OrderUpTo(sessions, |sessions|);
    a :| 0 <= a < |sessions| && ByDateAndTime(sessions)[a] == i;
  }

  lemma PlacesCompare(sessions: seq<Session>, j: nat, a: nat)
    requires j < |sessions| && a < |sessions|
    ensures var order := ByDateAndTime(sessions); Precedes(sessions, order[j], order[a]) <==> j < a
  {
    var order := ByDateAndTime(sessions);
    OrderIs(sessions, |sessions|);
    hide Precedes;
    if j == a {
      NotBeforeItself(sessions, order[a]);
    } else if j > a {
      PrecedesOneWay(sessions, order[a], order[j]);
    }
  }

  lemma FreeBeforeIsAhead(sessions: seq<Session>, a: nat)
    requires a < |sessions|
    ensures var order := ByDateAndTime(sessions); FreeBefore(sessions, order, a) == |Ahead(sessions, order[a])|
  {
    var order := ByDateAndTime(sessions);
    OrderHasNoRepeats(sessions);
    hide Precedes, FreeBefore, ByDateAndTime;
    FreeBeforeIsCount(sessions, order, a);
    forall i: nat | i < |sessions| ensures i in FreeOnes(sessions, order, a) <==> i in Ahead(sessions, order[a]) {
      var k := PlaceOf(sessions, i);
      PlacesCompare(sessions, k, a);
    }
    assert FreeOnes(sessions, order, a) == Ahead(sessions, order[a]);
  }

  lemma OrderHasNoRepeats(sessions: seq<Session>)
    ensures NoRepeats(ByDateAndTime(sessions))
  {
    OrderIs(sessions, |sessions|);
    ChainHasNoRepeats(sessions, ByDateAndTime(sessions));
  }

  function Without(sessions: seq<Session>): set<nat> {
    set i: nat | i < |sessions| && sessions[i].lesson.None?
  }

  lemma FreeBeforeAll(sessions: seq<Session>)
    ensures NoRepeats(ByDateAndTime(sessions))
    ensures FreeBefore(sessions, ByDateAndTime(sessions), |sessions|) == |Without(sessions)|
  {
    var order := ByDateAndTime(sessions);
    OrderHasNoRepeats(sessions);
    hide ByDateAndTime, FreeBefore;
    FreeBeforeIsCount(sessions, order, |order|);
    forall i: nat | i < |sessions| ensures i in FreeOnes(sessions, order, |order|) <==> i in Without(sessions) {
      var k := PlaceOf(sessions, i);
    }
    assert FreeOnes(sessions, order, |order|) == Without(sessions);
  }

  lemma NotBeforeItself(sessions: seq<Session>, i: nat)
    requires i < |sessions|
    ensures !Precedes(sessions, i, i)
  {
    LaterSplits(sessions[i], sessions[i], sessions[i]);
  }

  /** Who gets which lesson: a session without one, with r such sessions before it by date and
      time, gets the r-th untaught lesson of the course while there is one; everything else
      about the sessions stays. */
  lemma LessonsByDate(sessions: seq<Session>, lessons: seq<nat>, i: nat)
    requires i < |sessions|
    ensures var queue, r := Untaught(sessions, lessons), |Ahead(sessions, i)|;
            Give(sessions, ByDateAndTime(sessions), queue)[i]
            == if sessions[i].lesson.None? && r < |queue| then sessions[i].(lesson := Some(queue[r])) else sessions[i]
  {
    OrderHasNoRepeats(sessions);
    hide ByDateAndTime, Ahead, Give, Untaught;
    var order := ByDateAndTime(sessions);
    var a := PlaceOf(sessions, i);
    FreeBeforeIsAhead(sessions, a);
    LessonsInOrder(sessions, order, Untaught(sessions, lessons), a);
  }

  // ------------------------------------------------------ the program's own form

  /** The indexes of the first n rows that are on the date, in order. */
  function OnDate(sessions: seq<Session>, n: nat, date: int): seq<nat>
    requires n <= |sessions|
  {
    if n == 0 then [] else OnDate(sessions, n - 1, date) + (if sessions[n - 1].date == date then [n - 1] else [])
  }

  /** Indexes below n of rows on the date, each once and in order. */
  predicate Lists(rows: seq<nat>, sessions: seq<Session>, n: nat, date: int) {
    && (forall k :: 0 <= k < |rows| ==> rows[k] < n && rows[k] < |sessions| && sessions[rows[k]].date == date)
    && (forall j, k :: 0 <= j < k < |rows| ==> rows[j] < rows[k])
    && (forall i :: 0 <= i < n && i < |sessions| && sessions[i].date == date ==> i in rows)
  }

  lemma {:induction false} OnDateIs(sessions: seq<Session>, n: nat, date: int)
    requires n <= |sessions|
    ensures Lists(OnDate(sessions, n, date), sessions, n, date)
    decreases n
  {
    if n > 0 {
      OnDateIs(sessions, n - 1, date);
      var rest := OnDate(sessions, n - 1, date);
      if sessions[n - 1].date == date {
        OneMoreListed(rest, sessions, n, date);
      } else {
        assert OnDate(sessions, n, date) == rest;
      }
    }
  }

  lemma OneMoreListed(rest: seq<nat>, sessions: seq<Session>, n: nat, date: int)
    requires 0 < n <= |sessions| && sessions[n - 1].date == date && Lists(rest, sessions, n - 1, date)
    ensures Lists(rest + [n - 1], sessions, n, date)
  {
  }

  datatype Counts = Counts(created: nat, moved: nat, removed: nat, skipped: nat)

  datatype Result = Done(counts: Counts) | Refused

  method MeetingDates(p: Schedule) returns (dates: seq<int>)
    requires Complete(p)
    ensures dates == Dates(p)
  {
    hide DatesFrom;
    var day := p.first.value;
    dates := [];
    assert [] + DatesFrom(p, day) == DatesFrom(p, day);
    while day <= p.last.value
      invariant p.first.value <= day
      invariant dates + DatesFrom(p, day) == Dates(p)
      decreases p.last.value - day
    {
      NextDate(p, day);
      assert dates + ([day] + DatesFrom(p, day + 1)) == dates + [day] + DatesFrom(p, day + 1);
      if Weekday(day) in p.days {
        dates := dates + [day];
      }
      day := day + 1;
    }
    NextDate(p, day);
    assert dates + [] == dates;
  }

  lemma NextDate(p: Schedule, date: int)
    requires Complete(p) && p.first.value <= date
    ensures DatesFrom(p, date)
         == if date > p.last.value then []
            else if Weekday(date) in p.days then [date] + DatesFrom(p, date + 1) else DatesFrom(p, date + 1)
  {
  }

  lemma OnDateNext(sessions: seq<Session>, n: nat)
    requires n < |sessions|
    ensures forall d ::
            OnDate(sessions, n + 1, d) == OnDate(sessions, n, d) + (if sessions[n].date == d then [n] else [])
  {
  }

  lemma NoneOnDate(sessions: seq<Session>, d: int)
    ensures OnDate(sessions, 0, d) == []
    ensures OnDate(sessions, |sessions|, d) == [] <==> !HasRow(sessions, d)
  {
    OnDateIs(sessions, |sessions|, d);
    var rows := OnDate(sessions, |sessions|, d);
    if rows != [] { assert sessions[rows[0]].date == d; }
  }

  method GroupByDate(sessions: seq<Session>) returns (byDate: map<int, seq<nat>>)
    ensures forall d :: d in byDate <==> HasRow(sessions, d)
    ensures forall d :: d in byDate ==> byDate[d] == OnDate(sessions, |sessions|, d)
  {
    hide OnDate, HasRow;
    byDate := map[];
    forall d ensures OnDate(sessions, 0, d) == [] && (OnDate(sessions, |sessions|, d) == [] <==> !HasRow(sessions, d)) {
      NoneOnDate(sessions, d);
    }
    for i := 0 to |sessions|
      invariant forall d :: (if d in byDate then byDate[d] else []) == OnDate(sessions, i, d)
      invariant forall d :: d in byDate ==> byDate[d] != []
    {
      OnDateNext(sessions, i);
      var d := sessions[i].date;
      byDate := byDate[d := (if d in byDate then byDate[d] else []) + [i]];
    }
  }

  class Calendar {
    var sessions: seq<Session>

    constructor (sessions: seq<Session>)
      ensures this.sessions == sessions
    {
      this.sessions := sessions;
    }

    /** What one date asks for: a new session, a move, or nothing. */
    method OneDate(rows: seq<nat>, day: int, t: Task) returns (moved: bool)
      requires Complete(t.schedule) && Meets(t.schedule, day) && rows == OnDate(sessions, |sessions|, day)
      modifies `sessions
      ensures |sessions| == |old(sessions)|
      ensures moved == exists i :: 0 <= i < |sessions| && old(sessions[i]).date == day && Moves(old(sessions), i, t)
      ensures forall i :: 0 <= i < |sessions| ==>
                sessions[i] == if old(sessions[i]).date == day && Moves(old(sessions), i, t)
                               then Timed(old(sessions[i]), t.schedule)
                               else old(sessions[i])
    {
      OnDateIs(sessions, |sessions|, day);
      hide OnDate, Protected;
      if !t.regenerate {
        return false;
      }
      var k := 0;
      while k < |rows|
        invariant k <= |rows| && forall j :: 0 <= j < k ==> sessions[rows[j]].start != t.schedule.start
      {
        if sessions[rows[k]].start == t.schedule.start {
          return false;
        }
        k := k + 1;
      }
      assert !HasSlot(sessions, day, t.schedule.start);
      k := 0;
      while k < |rows|
        invariant k <= |rows| && sessions == old(sessions)
        invariant forall j :: 0 <= j < k ==> Protected(sessions[rows[j]], t.today)
      {
        if !Protected(sessions[rows[k]], t.today) {
          var i := rows[k];
          assert FirstMovable(sessions, i, t.today);
          sessions := sessions[i := sessions[i].(start := t.schedule.start, end := t.schedule.end)];
          return true;
        }
        k := k + 1;
      }
      return false;
    }

    method AssignLessons(lessons: seq<nat>) returns (given: nat)
      modifies `sessions
      ensures sessions == Give(old(sessions), ByDateAndTime(old(sessions)), Untaught(old(sessions), lessons))
      ensures given <= |Without(old(sessions))| && given <= |Untaught(old(sessions), lessons)|
      ensures given == |Without(old(sessions))| || given == |Untaught(old(sessions), lessons)|
    {
      hide OrderUpTo, Precedes, Untaught;
      ghost var before, whole := sessions, Untaught(sessions, lessons);
      var order, queue := ByDateAndTime(sessions), Untaught(sessions, lessons);
      ghost var done := Give(sessions, order, queue);
      FreeBeforeAll(before);
      given := 0;
      assert order[0..] == order;
      for k := 0 to |order|
        invariant |sessions| == |before| && Give(sessions, order[k..], queue) == done
        invariant forall j :: k <= j < |order| ==> sessions[order[j]] == before[order[j]]
        invariant given + |queue| == |whole| && given <= FreeBefore(before, order, k)
        invariant given == FreeBefore(before, order, k) || given == |whole|
      {
        assert order[k..][0] == order[k] && order[k..][1..] == order[k + 1..];
        FreeBeforeNext(before, order, k);
        var i := order[k];
        if sessions[i].lesson.Some? || queue == [] {
          continue;
        }
        sessions := sessions[i := sessions[i].(lesson := Some(queue[0]))];
        queue := queue[1..];
        given := given + 1;
      }
      assert order[|order|..] == [];
    }

    /** The rows that stay, and how many do not: with `regenerate`, those on dates left over
        that are not history. */
    method StillMeeting(leftOver: set<int>, t: Task, ghost before: seq<Session>, ghost dates: seq<int>)
      returns (live: seq<Session>, removed: nat)
      requires Complete(t.schedule) && |sessions| == |before| && sessions == EditedBy(before, dates, t)
      requires forall d :: d in dates <==> Meets(t.schedule, d)
      requires forall d :: d in leftOver <==> HasRow(before, d) && d !in dates
      ensures live == KeptFrom(before, 0, t) && removed + |live| == |before|
    {
      hide KeptFrom, Moves, Protected, HasRow, EditedBy;
      live, removed := [], 0;
      StartKept(before, t);
      for i := 0 to |sessions|
        invariant live + KeptFrom(before, i, t) == KeptFrom(before, 0, t)
        invariant removed + |live| == i
      {
        KeptNext(before, i, dates, t);
        if t.regenerate && sessions[i].date in leftOver && !Protected(sessions[i], t.today) {
          removed := removed + 1;
        } else {
          assert live + ([sessions[i]] + KeptFrom(before, i + 1, t)) == live + [sessions[i]]
                 + KeptFrom(before, i + 1, t);
          live := live + [sessions[i]];
        }
      }
      KeptEnd(before, t);
      assert live + [] == live;
    }

    /** Lays the schedule out; with `regenerate`, brings what is there in line with it. */
    method Generate(t: Task) returns (report: Result)
      modifies `sessions
      ensures report.Refused? <==> !Complete(t.schedule)
      ensures report.Refused? ==> sessions == old(sessions)
      ensures report.Done? ==>
                && sessions == Generated(old(sessions), t)
                && report.counts.created + report.counts.moved + report.counts.skipped == |Dates(t.schedule)|
                && report.counts.created == |CreatedFor(old(sessions), Dates(t.schedule), t.schedule)|
                && report.counts.removed == |old(sessions)| - |KeptFrom(old(sessions), 0, t)|
                && report.counts.moved == |Moving(old(sessions), t)|
    {
      hide Generated, CreatedFor, KeptFrom, Moves, OnDate, Dates, Protected, HasRow, EditedBy, MovedOn, Moving;
      var p := t.schedule;
      if p.first.None? || p.last.None? || p.days == {} || p.start.None? || p.start.value == "" {
        return Refused;
      }
      ghost var before := sessions;
      var dates := MeetingDates(p);
      DatesAre(p);
      var byDate := GroupByDate(sessions);
      var created: seq<Session>, moved, kept := [], 0, 0;
      assert dates[0..] == dates && [] + CreatedFor(before, dates, p) == CreatedFor(before, dates, p);
      NoneEdited(before, t);
      MovedOnNone(before, t);
      MovedOnAll(before, t);
      for k := 0 to |dates|
        invariant created + CreatedFor(before, dates[k..], p) == CreatedFor(before, dates, p)
        invariant |created| + moved + kept == k
        invariant |sessions| == |before| && sessions == EditedBy(before, dates[..k], t)
        invariant moved == |MovedOn(before, dates[..k], t)|
        invariant forall d :: d in byDate <==> HasRow(before, d) && d !in dates[..k]
        invariant forall d :: d in byDate ==> byDate[d] == OnDate(before, |before|, d)
      {
        var day := dates[k];
        CreatedNext(before, dates, k, p);
        assert dates[..k + 1] == dates[..k] + [day];
        assert day !in dates[..k];
        ghost var now := sessions;
        if day !in byDate {
          created := created + [NewSession(day, p)];
          NoRowToEdit(before, dates[..k], day, t);
          MovedOnNext(before, dates[..k], day, t, false);
        } else {
          var rows := byDate[day];
          byDate := byDate - {day};
          SameOnDate(before, dates[..k], t, |before|, day);
          var moves := OneDate(rows, day, t);
          EditOne(before, dates[..k], day, t, now, sessions, moves);
          MovedOnNext(before, dates[..k], day, t, moves);
          if moves {
            moved := moved + 1;
          } else {
            kept := kept + 1;
          }
        }
      }
      assert dates[..|dates|] == dates && dates[|dates|..] == [];
      NothingToCreate(before, p);
      assert created + [] == created;
      var live, removed := StillMeeting(byDate.Keys, t, before, dates);
      GeneratedIs(before, t);
      sessions := live + created;
      return Done(Counts(|created|, moved, removed, kept));
    }
  }

  /** The rows once the dates in `done` have been gone through. */
  function EditedBy(sessions: seq<Session>, done: seq<int>, t: Task): (r: seq<Session>)
    requires Complete(t.schedule)
    ensures |r| == |sessions|
  {
    seq(|sessions|, i requires 0 <= i < |sessions| =>
      if sessions[i].date in done && Moves(sessions, i, t) then Timed(sessions[i], t.schedule) else sessions[i])
  }

  /** The rows that move. */
  function Moving(sessions: seq<Session>, t: Task): set<nat>
    requires Complete(t.schedule)
  {
    set i: nat | i < |sessions| && Moves(sessions, i, t)
  }

  /** Those of the dates in `done`. */
  function MovedOn(sessions: seq<Session>, done: seq<int>, t: Task): set<nat>
    requires Complete(t.schedule)
  {
    set i: nat | i < |sessions| && sessions[i].date in done && Moves(sessions, i, t)
  }

  lemma DatesAre(p: Schedule)
    requires Complete(p)
    ensures forall d :: d in Dates(p) <==> Meets(p, d)
    ensures forall i, j :: 0 <= i < j < |Dates(p)| ==> Dates(p)[i] < Dates(p)[j]
  {
  }

  lemma NoneEdited(sessions: seq<Session>, t: Task)
    requires Complete(t.schedule)
    ensures EditedBy(sessions, [], t) == sessions
  {
  }

  lemma CreatedNext(sessions: seq<Session>, dates: seq<int>, k: nat, p: Schedule)
    requires k < |dates|
    ensures CreatedFor(sessions, dates[k..], p)
         == (if HasRow(sessions, dates[k]) then [] else [NewSession(dates[k], p)])
             + CreatedFor(sessions, dates[k + 1..], p)
    ensures forall a: seq<Session>, b: seq<Session> ::
            a + ([NewSession(dates[k], p)] + b) == a + [NewSession(dates[k], p)] + b
    ensures forall b: seq<Session> :: [] + b == b
  {
  }

  lemma NothingToCreate(sessions: seq<Session>, p: Schedule)
    ensures CreatedFor(sessions, [], p) == []
  {
  }

  lemma NoRowToEdit(sessions: seq<Session>, done: seq<int>, day: int, t: Task)
    requires Complete(t.schedule) && !HasRow(sessions, day)
    ensures EditedBy(sessions, done + [day], t) == EditedBy(sessions, done, t)
    ensures forall i :: 0 <= i < |sessions| ==> sessions[i].date != day
  {
  }

  lemma {:induction false} SameOnDate(sessions: seq<Session>, done: seq<int>, t: Task, n: nat, day: int)
    requires Complete(t.schedule) && n <= |sessions|
    ensures OnDate(EditedBy(sessions, done, t), n, day) == OnDate(sessions, n, day)
    decreases n
  {
    if n > 0 { SameOnDate(sessions, done, t, n - 1, day); }
  }

  /** Whether a row of a date not gone through moves does not depend on the dates that were. */
  lemma SameMoves(sessions: seq<Session>, done: seq<int>, t: Task, i: nat)
    requires Complete(t.schedule) && i < |sessions| && sessions[i].date !in done
    ensures Moves(EditedBy(sessions, done, t), i, t) == Moves(sessions, i, t)
  {
    var now, day := EditedBy(sessions, done, t), sessions[i].date;
    assert forall j :: 0 <= j < |sessions| && sessions[j].date == day ==> now[j] == sessions[j];
    assert HasSlot(now, day, t.schedule.start) == HasSlot(sessions, day, t.schedule.start);
    assert forall j :: 0 <= j < |sessions| ==> Movable(now[j], day, t.today) == Movable(sessions[j], day, t.today);
  }

  lemma EditOne(sessions: seq<Session>, done: seq<int>, day: int, t: Task, now: seq<Session>, next: seq<Session>,
                moved: bool)
    requires Complete(t.schedule) && day !in done && now == EditedBy(sessions, done, t) && |next| == |now|
    requires moved == exists i :: 0 <= i < |now| && now[i].date == day && Moves(now, i, t)
    requires forall i :: 0 <= i < |now| ==>
               next[i] == if now[i].date == day && Moves(now, i, t) then Timed(now[i], t.schedule) else now[i]
    ensures next == EditedBy(sessions, done + [day], t)
    ensures moved <==> !forall i :: 0 <= i < |sessions| && sessions[i].date == day ==> !Moves(sessions, i, t)
  {
    hide Moves;
    forall i | 0 <= i < |sessions|
      ensures sessions[i].date == now[i].date
      ensures sessions[i].date == day ==> Moves(now, i, t) == Moves(sessions, i, t) && now[i] == sessions[i]
    {
      if sessions[i].date == day { SameMoves(sessions, done, t, i); }
    }
  }

  /** The rows that move, all of them on the dates. */
  lemma MovedOnAll(sessions: seq<Session>, t: Task)
    requires Complete(t.schedule)
    ensures MovedOn(sessions, Dates(t.schedule), t) == Moving(sessions, t)
  {
    DatesAre(t.schedule);
  }

  lemma MovedOnNone(sessions: seq<Session>, t: Task)
    requires Complete(t.schedule)
    ensures MovedOn(sessions, [], t) == {}
  {
  }

  /** A date moves one row at most. */
  lemma MovedOnNext(sessions: seq<Session>, done: seq<int>, day: int, t: Task, moved: bool)
    requires Complete(t.schedule) && day !in done
    requires moved <==> !forall i :: 0 <= i < |sessions| && sessions[i].date == day ==> !Moves(sessions, i, t)
    ensures |MovedOn(sessions, done + [day], t)| == |MovedOn(sessions, done, t)| + if moved then 1 else 0
  {
    if moved {
      var i: nat :| i < |sessions| && sessions[i].date == day && Moves(sessions, i, t);
      assert forall j: nat :: j < |sessions| && sessions[j].date == day && Moves(sessions, j, t) ==> j == i;
      hide Moves;
      assert MovedOn(sessions, done + [day], t) == MovedOn(sessions, done, t) + {i};
    } else {
      hide Moves;
      assert MovedOn(sessions, done + [day], t) == MovedOn(sessions, done, t);
    }
  }

  lemma StartKept(sessions: seq<Session>, t: Task)
    requires Complete(t.schedule)
    ensures [] + KeptFrom(sessions, 0, t) == KeptFrom(sessions, 0, t)
  {
  }

  lemma KeptNext(sessions: seq<Session>, i: nat, dates: seq<int>, t: Task)
    requires Complete(t.schedule) && i < |sessions| && forall d :: d in dates <==> Meets(t.schedule, d)
    ensures var s := EditedBy(sessions, dates, t)[i];
            && HasRow(sessions, s.date)
            && (Removes(sessions, i, t) <==> t.regenerate && s.date !in dates && !Protected(s, t.today))
            && KeptFrom(sessions, i, t) == (if Removes(sessions, i, t) then [] else [s]) + KeptFrom(sessions, i + 1, t)
    ensures [] + KeptFrom(sessions, i + 1, t) == KeptFrom(sessions, i + 1, t)
  {
  }

  lemma KeptEnd(sessions: seq<Session>, t: Task)
    requires Complete(t.schedule)
    ensures KeptFrom(sessions, |sessions|, t) == []
  {
  }

  lemma GeneratedIs(sessions: seq<Session>, t: Task)
    requires Complete(t.schedule)
    ensures Generated(sessions, t) == KeptFrom(sessions, 0, t) + CreatedFor(sessions, Dates(t.schedule), t.schedule)
  {
  }
}
