/** The order lessons open in (app/services/learning/completion.py and path.py, with the
    checks of app/services/access.py:57-75 every lesson screen goes through). */
module Learning {
  import opened Wrappers
  import Sets

  datatype Module = Module(id: nat, lessons: seq<nat>)

  /** A course in order, and the days its classes fall on: of each lesson given a class of its
      own, and of each module's first class. */
  datatype Course = Course(content: seq<Module>, lessonDay: map<nat, int>, moduleDay: map<nat, int>)

  /** The lessons in course order. */
  function Lessons(content: seq<Module>): seq<nat> {
    if content == [] then [] else content[0].lessons + Lessons(content[1..])
  }

  /** Every lesson belongs to one module. */
  predicate WellBuilt(course: Course) {
    forall i, j :: 0 <= i < j < |Lessons(course.content)| ==> Lessons(course.content)[i] != Lessons(course.content)[j]
  }

  /** A class whose day is still ahead. Without a class nothing is locked. */
  predicate Ahead(days: map<nat, int>, id: nat, today: int) {
    id in days && days[id] > today
  }

  /** The lesson's own class day has come. */
  predicate ClassHasCome(course: Course, lesson: nat, today: int) {
    lesson in course.lessonDay && course.lessonDay[lesson] <= today
  }

  predicate BehindUndone(lessons: seq<nat>, done: set<nat>, k: nat)
    requires k <= |lessons|
  {
    exists j :: 0 <= j < k && lessons[j] !in done
  }

  predicate Gated(course: Course, done: set<nat>, today: int, lesson: nat) {
    var lessons := Lessons(course.content);
    exists k ::
        0 <= k < |lessons| && lessons[k] == lesson && BehindUndone(lessons, done, k)
            && !ClassHasCome(course, lesson, today)
  }

  /** The loop that finds the gated lessons: exactly those behind an uncompleted earlier one
      whose own class day has not come. */
  method GatedIds(course: Course, done: set<nat>, today: int) returns (gated: set<nat>)
    ensures forall lesson :: lesson in gated <==> Gated(course, done, today, lesson)
  {
    hide ClassHasCome, BehindUndone;
    ghost var all := Lessons(course.content);
    ghost var n := 0;
    var behind := false;
    gated := {};
    NothingBehind(all, done);
    assert course.content[0..] == course.content;
    for m := 0 to |course.content|
      invariant n <= |all| && all[n..] == Lessons(course.content[m..])
      invariant behind == BehindUndone(all, done, n)
      invariant forall lesson :: lesson in gated <==> GatedBefore(course, done, today, lesson, n)
    {
      var lessons := course.content[m].lessons;
      assert course.content[m..][1..] == course.content[m + 1..];
      assert Lessons(course.content[m..]) == lessons + Lessons(course.content[m + 1..]);
      for i := 0 to |lessons|
        invariant n <= |all| && all[n..] == lessons[i..] + Lessons(course.content[m + 1..])
        invariant behind == BehindUndone(all, done, n)
        invariant forall lesson :: lesson in gated <==> GatedBefore(course, done, today, lesson, n)
      {
        var lesson := lessons[i];
        assert all[n] == all[n..][0] == lesson && all[n..][1..] == all[n + 1..];
        assert (lessons[i..] + Lessons(course.content[m + 1..]))[1..] == lessons[i + 1..]
               + Lessons(course.content[m + 1..]);
        BehindNext(all, done, n);
        DayAhead(course, lesson, today);
        if behind && (lesson !in course.lessonDay || course.lessonDay[lesson] > today) {
          gated := gated + {lesson};
        }
        behind := behind || lesson !in done;
        n := n + 1;
      }
      assert lessons[|lessons|..] + Lessons(course.content[m + 1..]) == Lessons(course.content[m + 1..]);
    }
    assert course.content[|course.content|..] == [] && all[n..] == [];
  }

  lemma NothingBehind(lessons: seq<nat>, done: set<nat>)
    ensures !BehindUndone(lessons, done, 0)
  {
  }

  lemma BehindNext(lessons: seq<nat>, done: set<nat>, n: nat)
    requires n < |lessons|
    ensures BehindUndone(lessons, done, n + 1) == (BehindUndone(lessons, done, n) || lessons[n] !in done)
  {
  }

  lemma DayAhead(course: Course, lesson: nat, today: int)
    ensures ClassHasCome(course, lesson, today) <==> !(lesson !in course.lessonDay || course.lessonDay[lesson] > today)
  {
  }

  predicate GatedBefore(course: Course, done: set<nat>, today: int, lesson: nat, n: nat)
    requires n <= |Lessons(course.content)|
  {
    var lessons := Lessons(course.content);
    exists k ::
        0 <= k < n && lessons[k] == lesson && BehindUndone(lessons, done, k) && !ClassHasCome(course, lesson, today)
  }

  // ----------------------------------------------------------------- openness

  predicate InModule(content: seq<Module>, m: nat, lesson: nat) {
    m < |content| && lesson in content[m].lessons
  }

  /** What a lesson screen, or completing the lesson, asks for: its module's first class and
      its own are not ahead, and it is not gated. */
  ghost predicate Open(course: Course, done: set<nat>, today: int, lesson: nat) {
    && (forall m: nat :: InModule(course.content, m, lesson) ==> !Ahead(course.moduleDay, course.content[m].id, today))
    && !Ahead(course.lessonDay, lesson, today)
    && !Gated(course, done, today, lesson)
  }

  /** Completing lessons and the passing of days never close a lesson. */
  lemma OpenStaysOpen(course: Course, done: set<nat>, today: int, done': set<nat>, later: int, lesson: nat)
    requires done <= done' && today <= later
    ensures Gated(course, done', later, lesson) ==> Gated(course, done, today, lesson)
    ensures Open(course, done, today, lesson) ==> Open(course, done', later, lesson)
  {
  }

  predicate FirstUndone(lessons: seq<nat>, done: set<nat>, k: nat) {
    k < |lessons| && lessons[k] !in done && !BehindUndone(lessons, done, k)
  }

  lemma {:induction false} FindFirst(lessons: seq<nat>, done: set<nat>, n: nat) returns (k: nat)
    requires n < |lessons| && lessons[n] !in done
    ensures k <= n && FirstUndone(lessons, done, k)
    decreases n
  {
    if j :| 0 <= j < n && lessons[j] !in done {
      k := FindFirst(lessons, done, j);
    } else {
      k := n;
    }
  }

  /** The first uncompleted lesson is never gated. */
  lemma FirstUndoneIsNotGated(course: Course, done: set<nat>, today: int, k: nat)
    requires WellBuilt(course) && FirstUndone(Lessons(course.content), done, k)
    ensures !Gated(course, done, today, Lessons(course.content)[k])
  {
  }

  // ----------------------------------------------------------------- finishing

  function LessonSet(course: Course): set<nat> {
    set k | 0 <= k < |Lessons(course.content)| :: Lessons(course.content)[k]
  }

  function Left(course: Course, done: set<nat>): set<nat> {
    LessonSet(course) - done
  }

  /** No class of the course is ahead. */
  ghost predicate NothingAhead(course: Course, today: int) {
    && (forall id :: !Ahead(course.lessonDay, id, today))
    && (forall id :: !Ahead(course.moduleDay, id, today))
  }

  /** While lessons are left and no class lies ahead, one of them is open. */
  lemma NeverStuck(course: Course, done: set<nat>, today: int) returns (lesson: nat)
    requires WellBuilt(course) && NothingAhead(course, today) && Left(course, done) != {}
    ensures lesson in Left(course, done) && Open(course, done, today, lesson)
  {
    var some :| some in Left(course, done);
    var lessons := Lessons(course.content);
    var n :| 0 <= n < |lessons| && lessons[n] == some;
    var k := FindFirst(lessons, done, n);
    FirstUndoneIsNotGated(course, done, today, k);
    lesson := lessons[k];
  }

  /** Lessons completed one after another, each open and not completed when its turn comes. */
  ghost predicate Walks(course: Course, done: set<nat>, today: int, choices: seq<nat>)
    decreases |choices|
  {
    choices == [] ||
    (&& choices[0] in Left(course, done) && Open(course, done, today, choices[0])
     && Walks(course, done + {choices[0]}, today, choices[1..]))
  }

  function DoneAfter(done: set<nat>, choices: seq<nat>): set<nat>
    decreases |choices|
  {
    if choices == [] then done else DoneAfter(done + {choices[0]}, choices[1..])
  }

  /** Each choice takes one lesson off what is left. */
  lemma {:induction false} WalkCounts(course: Course, done: set<nat>, today: int, choices: seq<nat>)
    requires Walks(course, done, today, choices)
    ensures |Left(course, DoneAfter(done, choices))| + |choices| == |Left(course, done)|
    decreases |choices|
  {
    hide Open, LessonSet;
    if choices != [] {
      WalkCounts(course, done + {choices[0]}, today, choices[1..]);
      assert Left(course, done + {choices[0]}) == Left(course, done) - {choices[0]};
    }
  }

  lemma Without(a: set<nat>, b: set<nat>)
    ensures a - b == {} <==> a <= b
  {
    assert forall x :: x in a && x !in b ==> x in a - b;
  }

  /** However a student chooses, a walk that cannot be continued has completed the course, in
      exactly as many steps as lessons were left. */
  lemma WalkFinishesExactly(course: Course, done: set<nat>, today: int, choices: seq<nat>)
    requires WellBuilt(course) && NothingAhead(course, today) && Walks(course, done, today, choices)
    ensures (forall lesson ::
             !(lesson in Left(course, DoneAfter(done, choices))
               && Open(course, DoneAfter(done, choices), today, lesson)))
       <==> |choices| == |Left(course, done)|
    ensures |choices| == |Left(course, done)| <==> LessonSet(course) <= DoneAfter(done, choices)
  {
    hide Open, LessonSet, WellBuilt, NothingAhead, Walks;
    WalkCounts(course, done, today, choices);
    var after := DoneAfter(done, choices);
    assert Left(course, after) == {} <==> |Left(course, after)| == 0;
    assert Left(course, after) == {} <==> LessonSet(course) <= after by { Without(LessonSet(course), after); }
    if Left(course, after) != {} {
      var lesson := NeverStuck(course, after, today);
    }
  }

  // ----------------------------------------------------------------- progress

  function Percent(course: Course, done: set<nat>): nat {
    var total := |LessonSet(course)|;
    if total == 0 then 0 else Share(|done * LessonSet(course)|, total)
  }

  lemma Cancel(a: nat, b: nat, t: nat)
    requires a * t < b * t
    ensures a < b
  {
  }

  function Share(x: nat, total: nat): nat
    requires total > 0
  {
    x * 100 / total
  }

  /** Dividing and rounding down. */
  lemma ShareBounds(x: nat, total: nat)
    requires total > 0
    ensures Share(x, total) * total <= x * 100 < (Share(x, total) + 1) * total
  {
  }

  lemma ShareMonotone(x: nat, y: nat, total: nat)
    requires x <= y && total > 0
    ensures Share(x, total) <= Share(y, total)
  {
    ShareBounds(x, total);
    ShareBounds(y, total);
    hide Share;
    Cancel(Share(x, total), Share(y, total) + 1, total);
  }

  lemma ShareOfAll(x: nat, total: nat)
    requires x <= total && total > 0
    ensures Share(x, total) <= 100 && (Share(x, total) == 100 <==> x == total)
  {
  }

  /** Rounding down, 100 percent is said exactly when every lesson is completed, and
      completing lessons never lowers the figure. */
  lemma PercentMeans(course: Course, done: set<nat>, done': set<nat>)
    requires LessonSet(course) != {}
    ensures Percent(course, done) <= 100
    ensures Percent(course, done) == 100 <==> LessonSet(course) <= done
    ensures done <= done' ==> Percent(course, done) <= Percent(course, done')
  {
    var all := LessonSet(course);
    hide LessonSet, Share;
    Sets.Subset(done * all, all);
    ShareOfAll(|done * all|, |all|);
    assert done * all == all <==> all <= done;
    if done <= done' {
      Sets.Subset(done * all, done' * all);
      ShareMonotone(|done * all|, |done' * all|, |all|);
    }
  }

  // ----------------------------------------------------------- where to go on

  /** The lessons of unlocked modules, with their module. */
  function Unlocked(content: seq<Module>, locked: set<nat>): seq<(nat, nat)> {
    if content == [] then []
    else
      var first := if content[0].id in locked then [] else Pairs(content[0].id, content[0].lessons);
      first + Unlocked(content[1..], locked)
  }

  function Pairs(id: nat, lessons: seq<nat>): (r: seq<(nat, nat)>)
    ensures |r| == |lessons| && forall k :: 0 <= k < |r| ==> r[k] == (id, lessons[k])
  {
    seq(|lessons|, k requires 0 <= k < |lessons| => (id, lessons[k]))
  }

  /** The first uncompleted lesson of the list, or else its last one. */
  predicate Continues(open: seq<(nat, nat)>, done: set<nat>, target: Option<(nat, nat)>) {
    match target
    case None => open == []
    case Some(t) =>
      exists k :: 0 <= k < |open| && open[k] == t && (forall j :: 0 <= j < k ==> open[j].1 in done)
                  && (open[k].1 !in done || k == |open| - 1)
  }

  lemma ContinuesAt(open: seq<(nat, nat)>, done: set<nat>, k: nat)
    requires k < |open| && (forall j :: 0 <= j < k ==> open[j].1 in done) && (open[k].1 !in done || k == |open| - 1)
    ensures Continues(open, done, Some(open[k]))
  {
  }

  /** `all` from n on is what the modules from m on contribute. */
  ghost predicate StandsAt(all: seq<(nat, nat)>, n: nat, content: seq<Module>, m: nat, locked: set<nat>) {
    n <= |all| && m <= |content| && all[n..] == Unlocked(content[m..], locked)
  }

  lemma StandsAtStart(content: seq<Module>, locked: set<nat>)
    ensures StandsAt(Unlocked(content, locked), 0, content, 0, locked)
  {
  }

  lemma StandsAtNext(all: seq<(nat, nat)>, n: nat, content: seq<Module>, m: nat, locked: set<nat>)
    requires StandsAt(all, n, content, m, locked) && m < |content|
    ensures content[m].id in locked ==> StandsAt(all, n, content, m + 1, locked)
    ensures content[m].id !in locked ==>
              && n + |content[m].lessons| <= |all| && StandsAt(all, n + |content[m].lessons|, content, m + 1, locked)
              && forall i :: 0 <= i < |content[m].lessons| ==> all[n + i] == (content[m].id, content[m].lessons[i])
  {
  }

  lemma StandsAtEnd(all: seq<(nat, nat)>, n: nat, content: seq<Module>, locked: set<nat>)
    requires StandsAt(all, n, content, |content|, locked)
    ensures n == |all|
  {
  }

  method ContinueTarget(content: seq<Module>, locked: set<nat>, done: set<nat>) returns (target: Option<(nat, nat)>)
    ensures Continues(Unlocked(content, locked), done, target)
  {
    hide Unlocked, Continues, StandsAt;
    ghost var all := Unlocked(content, locked);
    ghost var n := 0;
    target := None;
    StandsAtStart(content, locked);
    for m := 0 to |content|
      invariant n <= |all| && StandsAt(all, n, content, m, locked)
      invariant forall j :: 0 <= j < n ==> all[j].1 in done
      invariant target == if n == 0 then None else Some(all[n - 1])
    {
      var topic := content[m];
      StandsAtNext(all, n, content, m, locked);
      if topic.id in locked {
        continue;
      }
      ghost var start := n;
      for i := 0 to |topic.lessons|
        invariant n == start + i
        invariant forall j :: 0 <= j < n ==> all[j].1 in done
        invariant target == if n == 0 then None else Some(all[n - 1])
      {
        assert all[start + i] == (topic.id, topic.lessons[i]);
        target := Some((topic.id, topic.lessons[i]));
        if topic.lessons[i] !in done {
          ContinuesAt(all, done, n);
          return;
        }
        n := n + 1;
      }
    }
    StandsAtEnd(all, n, content, locked);
    if n > 0 {
      ContinuesAt(all, done, n - 1);
    } else {
      NoneContinues(all, done);
    }
  }

  lemma NoneContinues(open: seq<(nat, nat)>, done: set<nat>)
    requires open == []
    ensures Continues(open, done, None)
  {
  }

  lemma {:induction false} NothingLocked(content: seq<Module>, locked: set<nat>)
    requires forall m :: 0 <= m < |content| ==> content[m].id !in locked
    ensures |Unlocked(content, locked)| == |Lessons(content)|
    ensures forall k :: 0 <= k < |Lessons(content)| ==> Unlocked(content, locked)[k].1 == Lessons(content)[k]
    decreases |content|
  {
    if content != [] { NothingLocked(content[1..], locked); }
  }

  /** With every module unlocked the student is sent to the first uncompleted lesson, which is
      never gated; only a completed course sends them to its last lesson. */
  lemma ContinueIsNotGated(course: Course, locked: set<nat>, done: set<nat>, today: int, target: Option<(nat, nat)>)
    requires WellBuilt(course) && Continues(Unlocked(course.content, locked), done, target) && target.Some?
    requires forall m :: 0 <= m < |course.content| ==> course.content[m].id !in locked
    ensures !Gated(course, done, today, target.value.1)
    ensures target.value.1 in done ==> LessonSet(course) <= done
  {
    NothingLocked(course.content, locked);
    var open, lessons := Unlocked(course.content, locked), Lessons(course.content);
    var k :| 0 <= k < |open| && open[k] == target.value && (forall j :: 0 <= j < k ==> open[j].1 in done)
             && (open[k].1 !in done || k == |open| - 1);
    assert forall j :: 0 <= j < k ==> lessons[j] == open[j].1;
    assert !BehindUndone(lessons, done, k);
  }

  // ------------------------------------------------------------ completing lessons

  class Enrollment {
    const course: Course
    var done: set<nat>
    var percent: nat

    predicate Valid()
      reads this
    {
      percent == Percent(course, done)
    }

    constructor (course: Course)
      ensures this.course == course && done == {} && Valid()
    {
      this.course := course;
      done := {};
      percent := 0;
      new;
      percent := Percent(course, {});
    }

    /** Completion is sticky, and the stored percentage follows it. */
    method MarkCompleted(lesson: nat)
      requires Valid()
      modifies this
      ensures Valid() && done == old(done) + {lesson}
      ensures percent >= old(percent)
    {
      if LessonSet(course) != {} {
        PercentMeans(course, done, done + {lesson});
      }
      done := done + {lesson};
      percent := Percent(course, done);
    }

    /** Marked present or late, the student has done the lesson of that class, for good. */
    method OnAttended(lesson: Option<nat>, status: string)
      requires Valid()
      modifies this
      ensures Valid()
      ensures done == old(done) + if lesson.Some? && (status == "present" || status == "late") then {lesson.value}
                                  else {}
    {
      if lesson.None? || !(status == "present" || status == "late") {
        return;
      }
      MarkCompleted(lesson.value);
    }
  }
}
