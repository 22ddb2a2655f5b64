/** Which lessons are open, how far a student is and where they go on
    (app/services/learning/completion.py:54-75, path.py:107-144, app/services/access.py:57-75), read
    off the modules of a course and the days of its classes. */
module LearningOutcomes {
  import opened Wrappers
  import opened Learning

  /** Lesson i of module m. */
  predicate IsLesson(content: seq<Module>, m: nat, i: nat) {
    m < |content| && i < |content[m].lessons|
  }

  /** In a module before, or before it in its module. */
  predicate Earlier(a: nat, b: nat, m: nat, i: nat) {
    a < m || (a == m && b < i)
  }

  // ------------------------------------------------ one list of the unlocked lessons

  /** How many lessons of unlocked modules come before module m. */
  function Place(content: seq<Module>, locked: set<nat>, m: nat): nat
    requires m <= |content|
  {
    if m == 0 then 0
    else (if content[0].id in locked then 0 else |content[0].lessons|) + Place(content[1..], locked, m - 1)
  }

  lemma {:induction false} PlaceNext(content: seq<Module>, locked: set<nat>, m: nat)
    requires m < |content|
    ensures Place(content, locked, m + 1)
         == Place(content, locked, m) + if content[m].id in locked then 0 else |content[m].lessons|
    decreases m
  {
    if m > 0 {
      PlaceNext(content[1..], locked, m - 1);
    }
  }

  lemma {:induction false} PlaceGrows(content: seq<Module>, locked: set<nat>, a: nat, m: nat)
    requires a <= m <= |content|
    ensures Place(content, locked, a) <= Place(content, locked, m)
    decreases m - a
  {
    if a < m {
      PlaceNext(content, locked, m - 1);
      PlaceGrows(content, locked, a, m - 1);
    }
  }

  /** Places compare as lessons do. */
  lemma PlacesCompare(content: seq<Module>, locked: set<nat>, a: nat, b: nat, m: nat, i: nat)
    requires IsLesson(content, a, b) && IsLesson(content, m, i)
    requires content[a].id !in locked && content[m].id !in locked
    ensures Place(content, locked, a) + b < Place(content, locked, m) + i <==> Earlier(a, b, m, i)
  {
    hide Place;
    PlaceNext(content, locked, a);
    PlaceNext(content, locked, m);
    if a < m {
      PlaceGrows(content, locked, a + 1, m);
    } else if m < a {
      PlaceGrows(content, locked, m + 1, a);
    }
  }

  lemma {:induction false} UnlockedHolds(content: seq<Module>, locked: set<nat>, m: nat, i: nat)
    requires IsLesson(content, m, i) && content[m].id !in locked
    ensures Place(content, locked, m) + i < |Unlocked(content, locked)|
    ensures Unlocked(content, locked)[Place(content, locked, m) + i] == (content[m].id, content[m].lessons[i])
    decreases m
  {
    if m > 0 {
      UnlockedHolds(content[1..], locked, m - 1, i);
    }
  }

  lemma {:induction false} UnlockedAre(content: seq<Module>, locked: set<nat>, k: nat) returns (m: nat, i: nat)
    requires k < |Unlocked(content, locked)|
    ensures IsLesson(content, m, i) && content[m].id !in locked && k == Place(content, locked, m) + i
    decreases |content|
  {
    var n := if content[0].id in locked then 0 else |content[0].lessons|;
    if k < n {
      m, i := 0, k;
    } else {
      m, i := UnlockedAre(content[1..], locked, k - n);
      m := m + 1;
    }
  }

  // ------------------------------------------------------------------- openness

  /** An earlier lesson of the course is not completed. */
  predicate EarlierUndone(content: seq<Module>, done: set<nat>, m: nat, i: nat) {
    exists a, b :: 0 <= a < |content| && 0 <= b < |content[a].lessons| && Earlier(a, b, m, i)
                   && content[a].lessons[b] !in done
  }

  /** Lesson i of module m stands at its place among all. */
  lemma LessonHolds(content: seq<Module>, m: nat, i: nat)
    requires IsLesson(content, m, i)
    ensures Place(content, {}, m) + i < |Lessons(content)|
    ensures Lessons(content)[Place(content, {}, m) + i] == content[m].lessons[i]
  {
    NothingLocked(content, {});
    UnlockedHolds(content, {}, m, i);
  }

  lemma LessonAt(content: seq<Module>, k: nat) returns (m: nat, i: nat)
    requires k < |Lessons(content)|
    ensures IsLesson(content, m, i) && k == Place(content, {}, m) + i && Lessons(content)[k] == content[m].lessons[i]
  {
    NothingLocked(content, {});
    m, i := UnlockedAre(content, {}, k);
    LessonHolds(content, m, i);
  }

  lemma BehindReads(content: seq<Module>, done: set<nat>, m: nat, i: nat)
    requires IsLesson(content, m, i)
    ensures Place(content, {}, m) + i <= |Lessons(content)|
    ensures BehindUndone(Lessons(content), done, Place(content, {}, m) + i) <==> EarlierUndone(content, done, m, i)
  {
    hide Place, Lessons;
    LessonHolds(content, m, i);
    var k := Place(content, {}, m) + i;
    if BehindUndone(Lessons(content), done, k) {
      var j :| 0 <= j < k && Lessons(content)[j] !in done;
      var a, b := LessonAt(content, j);
      PlacesCompare(content, {}, a, b, m, i);
    }
    if EarlierUndone(content, done, m, i) {
      var a, b :| 0 <= a < |content| && 0 <= b < |content[a].lessons| && Earlier(a, b, m, i)
                  && content[a].lessons[b] !in done;
      LessonHolds(content, a, b);
      PlacesCompare(content, {}, a, b, m, i);
    }
  }

  /** No lesson stands in the course twice. */
  predicate NoneTwice(content: seq<Module>) {
    forall a, b, m, i :: 0 <= a < |content| && 0 <= b < |content[a].lessons| && 0 <= m < |content|
                         && 0 <= i < |content[m].lessons| && content[a].lessons[b] == content[m].lessons[i] ==>
      a == m && b == i
  }

  lemma WellBuiltReads(course: Course)
    requires NoneTwice(course.content)
    ensures WellBuilt(course)
  {
    hide Place, Lessons;
    var lessons := Lessons(course.content);
    forall j, k | 0 <= j < k < |lessons| ensures lessons[j] != lessons[k] {
      var a, b := LessonAt(course.content, j);
      var m, i := LessonAt(course.content, k);
    }
  }

  /** A lesson is gated exactly when an earlier one is not completed and it has no class of its
      own, or one whose day is still to come. */
  lemma GatedReads(course: Course, done: set<nat>, today: int, m: nat, i: nat)
    requires NoneTwice(course.content) && IsLesson(course.content, m, i)
    ensures var lesson := course.content[m].lessons[i];
            Gated(course, done, today, lesson) <==>
            EarlierUndone(course.content, done, m, i)
            && (lesson !in course.lessonDay || today < course.lessonDay[lesson])
  {
    hide Place, Lessons, EarlierUndone, BehindUndone, WellBuilt;
    var lesson := course.content[m].lessons[i];
    LessonHolds(course.content, m, i);
    BehindReads(course.content, done, m, i);
    forall k | 0 <= k < |Lessons(course.content)| && Lessons(course.content)[k] == lesson
      ensures k == Place(course.content, {}, m) + i {
      var a, b := LessonAt(course.content, k);
    }
  }

  /** A lesson is open exactly when its module's first class is not still to come, nor its own,
      and it has its own class or every earlier lesson is completed. */
  lemma OpenReads(course: Course, done: set<nat>, today: int, m: nat, i: nat)
    requires NoneTwice(course.content) && IsLesson(course.content, m, i)
    ensures var id, lesson := course.content[m].id, course.content[m].lessons[i];
            Open(course, done, today, lesson) <==>
            && (id in course.moduleDay ==> course.moduleDay[id] <= today)
            && (lesson in course.lessonDay ==> course.lessonDay[lesson] <= today)
            && (lesson in course.lessonDay || !EarlierUndone(course.content, done, m, i))
  {
    GatedReads(course, done, today, m, i);
    hide EarlierUndone, Gated;
    var lesson := course.content[m].lessons[i];
    assert InModule(course.content, m, lesson);
    forall a: nat | InModule(course.content, a, lesson) ensures a == m {
      var b :| 0 <= b < |course.content[a].lessons| && course.content[a].lessons[b] == lesson;
    }
  }

  // ------------------------------------------------------------------- progress

  /** The lessons of a course. */
  predicate AllLessons(content: seq<Module>, all: set<nat>) {
    && (forall m, i :: 0 <= m < |content| && 0 <= i < |content[m].lessons| ==> content[m].lessons[i] in all)
    && forall x :: x in all ==> exists m :: 0 <= m < |content| && x in content[m].lessons
  }

  lemma AllLessonsAre(course: Course, all: set<nat>)
    requires AllLessons(course.content, all)
    ensures LessonSet(course) == all
  {
    hide Place, Lessons;
    forall x | x in LessonSet(course) ensures x in all {
      var k :| 0 <= k < |Lessons(course.content)| && Lessons(course.content)[k] == x;
      var m, i := LessonAt(course.content, k);
    }
    forall x | x in all ensures x in LessonSet(course) {
      var m :| 0 <= m < |course.content| && x in course.content[m].lessons;
      var i :| 0 <= i < |course.content[m].lessons| && course.content[m].lessons[i] == x;
      LessonHolds(course.content, m, i);
    }
  }

  /** The figure is the whole percents of the course's lessons that are completed, and 0 for a
      course without any. */
  lemma PercentReads(course: Course, done: set<nat>, all: set<nat>)
    requires AllLessons(course.content, all)
    ensures all == {} ==> Percent(course, done) == 0
    ensures all != {} ==> Percent(course, done) * |all| <= 100 * |done * all| < (Percent(course, done) + 1) * |all|
  {
    AllLessonsAre(course, all);
    if all != {} {
      var x :| x in all;
      assert |all| > 0;
      hide LessonSet, AllLessons, Share;
      ShareBounds(|done * all|, |all|);
    }
  }

  // ------------------------------------------------------------ where to go on

  predicate UnlockedLesson(content: seq<Module>, locked: set<nat>, m: nat, i: nat) {
    IsLesson(content, m, i) && content[m].id !in locked
  }

  /** The lesson a student is sent to: completed are all of the unlocked ones before it; and it
      is not, or nothing unlocked comes after it. */
  ghost predicate SentTo(content: seq<Module>, locked: set<nat>, done: set<nat>, m: nat, i: nat) {
    && UnlockedLesson(content, locked, m, i)
    && (forall a: nat, b: nat :: UnlockedLesson(content, locked, a, b) && Earlier(a, b, m, i) ==>
          content[a].lessons[b] in done)
    && (content[m].lessons[i] !in done
        || forall a: nat, b: nat :: UnlockedLesson(content, locked, a, b) ==> !Earlier(m, i, a, b))
  }

  /** The answer of the search, module and lesson, is such a lesson's; there is none exactly when
      no lesson is unlocked. */
  lemma ContinueReads(content: seq<Module>, locked: set<nat>, done: set<nat>, target: Option<(nat, nat)>)
    requires Continues(Unlocked(content, locked), done, target)
    ensures target == None <==> forall m: nat, i: nat :: !UnlockedLesson(content, locked, m, i)
    ensures target != None ==>
              exists m: nat, i: nat :: SentTo(content, locked, done, m, i)
                                       && target == Some((content[m].id, content[m].lessons[i]))
  {
    hide Place, Unlocked;
    var open := Unlocked(content, locked);
    if target.None? {
      forall m: nat, i: nat ensures !UnlockedLesson(content, locked, m, i) {
        if UnlockedLesson(content, locked, m, i) {
          UnlockedHolds(content, locked, m, i);
        }
      }
    } else {
      var k :| 0 <= k < |open| && open[k] == target.value && (forall j :: 0 <= j < k ==> open[j].1 in done)
               && (open[k].1 !in done || k == |open| - 1);
      var m, i := UnlockedAre(content, locked, k);
      UnlockedHolds(content, locked, m, i);
      forall a: nat, b: nat | UnlockedLesson(content, locked, a, b)
        ensures Earlier(a, b, m, i) ==> content[a].lessons[b] in done
        ensures k == |open| - 1 ==> !Earlier(m, i, a, b) {
        UnlockedHolds(content, locked, a, b);
        PlacesCompare(content, locked, a, b, m, i);
        PlacesCompare(content, locked, m, i, a, b);
      }
      assert SentTo(content, locked, done, m, i);
    }
  }
}
