/**
 * The learner dashboard (`app/dashboard/DashboardPageClient.tsx`): lessons
 * are grouped by course, the signed-in learner's completed lessons are
 * counted per course, and every course gets a progress percentage and the
 * label of its button.
 */
module Dashboard {
  import opened Base
  import opened Seqs
  import opened Numbers

  /** A `courses` row. */
  datatype Course = Course(id: string, title: string, slug: string, description: Option<string>)

  /** A lesson and the course of its module. */
  datatype LessonWithCourse = LessonWithCourse(lesson_id: string, course_id: string)

  /** A `lesson_progress` row. */
  datatype ProgressRow = ProgressRow(user_id: string, lesson_id: string, status: Option<string>)

  /** The per-course tally of `lessonsByCourse`. */
  datatype Stats = Stats(total: nat, completed: nat)

  /** A course as the dashboard lists it. */
  datatype CourseWithProgress = CourseWithProgress(id: string, title: string, slug: string,
                                                   description: Option<string>, totalLessons: nat,
                                                   completedLessons: nat, progressPercent: nat)

  /**
   * `completedLessonIds`: the lessons of the learner's progress rows with
   * status "completed" (the query's two `eq` filters), as a set, so that a
   * lesson completed twice is one lesson.
   */
  function CompletedLessonIds(progress: seq<ProgressRow>, userId: string): (done: set<string>)
    ensures forall p :: p in progress && p.user_id == userId && p.status == Some("completed") ==> p.lesson_id in done
    ensures forall id :: id in done ==>
      exists p :: p in progress && p.user_id == userId && p.status == Some("completed") && p.lesson_id == id
  {
    set p | p in progress && p.user_id == userId && p.status == Some("completed") :: p.lesson_id
  }

  function InCourse(c: string): LessonWithCourse -> bool
  {
    (l: LessonWithCourse) => l.course_id == c
  }

  function DoneInCourse(c: string, done: set<string>): LessonWithCourse -> bool
  {
    (l: LessonWithCourse) => l.course_id == c && l.lesson_id in done
  }

  /** The number of lessons of course `c`. */
  function TotalFor(lessons: seq<LessonWithCourse>, c: string): nat
  {
    Count(lessons, InCourse(c))
  }

  /** The number of lessons of course `c` that are in `done`. */
  function CompletedFor(lessons: seq<LessonWithCourse>, done: set<string>, c: string): nat
  {
    Count(lessons, DoneInCourse(c, done))
  }

  /** A course never has more completed lessons than lessons. */
  lemma CompletedAtMostTotal(lessons: seq<LessonWithCourse>, done: set<string>, c: string)
    ensures CompletedFor(lessons, done, c) <= TotalFor(lessons, c)
  {
    CountMonotone(lessons, DoneInCourse(c, done), InCourse(c));
  }

  /** A course none of whose lessons is listed has no lessons and no completed lessons. */
  lemma UnlistedCourseHasNoLessons(lessons: seq<LessonWithCourse>, done: set<string>, c: string)
    requires forall l :: l in lessons ==> l.course_id != c
    ensures TotalFor(lessons, c) == 0 && CompletedFor(lessons, done, c) == 0
  {
    CountNone(lessons, InCourse(c));
    CountNone(lessons, DoneInCourse(c, done));
  }

  /** What one more lesson adds to the two tallies. */
  lemma TallyStep(lessons: seq<LessonWithCourse>, i: nat, done: set<string>, c: string)
    requires i < |lessons|
    ensures TotalFor(lessons[..i + 1], c)
            == TotalFor(lessons[..i], c) + (if lessons[i].course_id == c then 1 else 0)
    ensures CompletedFor(lessons[..i + 1], done, c)
            == CompletedFor(lessons[..i], done, c)
               + (if lessons[i].course_id == c && lessons[i].lesson_id in done then 1 else 0)
  {
    assert lessons[..i + 1] == lessons[..i] + [lessons[i]];
    CountSnoc(lessons[..i], lessons[i], InCourse(c));
    CountSnoc(lessons[..i], lessons[i], DoneInCourse(c, done));
  }

  /** `byCourse` holds the tallies of `lessons`, and an entry only for a course with a lesson. */
  ghost predicate Tallied(byCourse: map<string, Stats>, lessons: seq<LessonWithCourse>, done: set<string>)
  {
    (forall c :: c in byCourse <==> TotalFor(lessons, c) > 0)
    && (forall c :: c in byCourse ==> byCourse[c] == Stats(TotalFor(lessons, c), CompletedFor(lessons, done, c)))
  }

  /** `lessonsByCourse[c.id] ?? { total: 0, completed: 0 }`. */
  function StatsOf(byCourse: map<string, Stats>, id: string): Stats
  {
    if id in byCourse then byCourse[id] else Stats(0, 0)
  }

  /** The tallies after lesson `l`. */
  function Bumped(byCourse: map<string, Stats>, l: LessonWithCourse, done: set<string>): map<string, Stats>
  {
    var stats := StatsOf(byCourse, l.course_id);
    byCourse[l.course_id := Stats(stats.total + 1, stats.completed + if l.lesson_id in done then 1 else 0)]
  }

  /** What lesson `i` does to the entry of one course. */
  lemma TalliedStepAt(byCourse: map<string, Stats>, lessons: seq<LessonWithCourse>, i: nat, done: set<string>, c: string)
    requires i < |lessons|
    requires c in byCourse <==> TotalFor(lessons[..i], c) > 0
    requires c in byCourse ==> byCourse[c] == Stats(TotalFor(lessons[..i], c), CompletedFor(lessons[..i], done, c))
    ensures var b := Bumped(byCourse, lessons[i], done);
      (c in b <==> TotalFor(lessons[..i + 1], c) > 0)
      && (c in b ==> b[c] == Stats(TotalFor(lessons[..i + 1], c), CompletedFor(lessons[..i + 1], done, c)))
  {
    TallyStep(lessons, i, done, c);
    if c == lessons[i].course_id && c !in byCourse {
      CompletedAtMostTotal(lessons[..i], done, c);
    }
  }

  lemma TalliedStep(byCourse: map<string, Stats>, lessons: seq<LessonWithCourse>, i: nat, done: set<string>)
    requires i < |lessons| && Tallied(byCourse, lessons[..i], done)
    ensures Tallied(Bumped(byCourse, lessons[i], done), lessons[..i + 1], done)
  {
    var b := Bumped(byCourse, lessons[i], done);
    forall c
      ensures c in b <==> TotalFor(lessons[..i + 1], c) > 0
      ensures c in b ==> b[c] == Stats(TotalFor(lessons[..i + 1], c), CompletedFor(lessons[..i + 1], done, c))
    {
      TalliedStepAt(byCourse, lessons, i, done, c);
    }
  }

  /**
   * The `for (const l of lessonsWithCourse)` loop: a course has an entry
   * exactly when it has a lesson, and the entry holds its lesson count and
   * its completed-lesson count.
   */
  method LessonsByCourse(lessons: seq<LessonWithCourse>, done: set<string>) returns (byCourse: map<string, Stats>)
    ensures forall c :: c in byCourse <==> TotalFor(lessons, c) > 0
    ensures forall c :: c in byCourse ==> byCourse[c] == Stats(TotalFor(lessons, c), CompletedFor(lessons, done, c))
  {
    byCourse := map[];
    for i := 0 to |lessons|
      invariant Tallied(byCourse, lessons[..i], done)
    {
      var l := lessons[i];
      TalliedStep(byCourse, lessons, i, done);
      // `if (!lessonsByCourse[l.course_id]) lessonsByCourse[l.course_id] = { total: 0, completed: 0 }`
      var stats := if l.course_id in byCourse then byCourse[l.course_id] else Stats(0, 0);
      stats := stats.(total := stats.total + 1);
      if l.lesson_id in done {
        stats := stats.(completed := stats.completed + 1);
      }
      assert stats == Stats(StatsOf(byCourse, l.course_id).total + 1,
                            StatsOf(byCourse, l.course_id).completed + if l.lesson_id in done then 1 else 0);
      byCourse := byCourse[l.course_id := stats];
    }
    assert lessons[..|lessons|] == lessons;
  }

  /** `stats.total === 0 ? 0 : Math.round((stats.completed / stats.total) * 100)`. */
  function ProgressPercent(stats: Stats): (p: nat)
    ensures stats.total == 0 ==> p == 0
    ensures stats.total > 0 ==>
      2 * stats.total * p <= 200 * stats.completed + stats.total < 2 * stats.total * (p + 1)
  {
    if stats.total == 0 then 0 else RoundPercent(stats.completed, stats.total)
  }

  /** A percentage between 0 and 100, which is 100 when every lesson is completed and 0 when none is. */
  lemma ProgressPercentRange(stats: Stats)
    requires stats.completed <= stats.total
    ensures ProgressPercent(stats) <= 100
    ensures stats.total > 0 && stats.completed == stats.total ==> ProgressPercent(stats) == 100
    ensures stats.completed == 0 ==> ProgressPercent(stats) == 0
  {
    if stats.total > 0 {
      RoundPercentRange(stats.completed, stats.total);
    }
  }

  /** One course of `coursesWithProgress`. */
  function WithProgress(c: Course, byCourse: map<string, Stats>): CourseWithProgress
  {
    var stats := StatsOf(byCourse, c.id);
    CourseWithProgress(c.id, c.title, c.slug, c.description, stats.total, stats.completed, ProgressPercent(stats))
  }

  /**
   * `loadDashboard` after its fetches: one entry per course, in the order of
   * the course rows, with the course's fields unchanged, its lesson and
   * completed-lesson counts, and the rounded share of completed lessons as
   * its percentage, which lies in [0, 100].
   */
  method CoursesWithProgress(courses: seq<Course>, lessons: seq<LessonWithCourse>,
                             progress: seq<ProgressRow>, userId: string)
    returns (r: seq<CourseWithProgress>)
    ensures |r| == |courses|
    ensures forall i :: 0 <= i < |r| ==>
      var c, done := courses[i], CompletedLessonIds(progress, userId);
      r[i].id == c.id && r[i].title == c.title && r[i].slug == c.slug && r[i].description == c.description
      && r[i].totalLessons == TotalFor(lessons, c.id)
      && r[i].completedLessons == CompletedFor(lessons, done, c.id)
      && r[i].completedLessons <= r[i].totalLessons
      && r[i].progressPercent <= 100
      && r[i].progressPercent == ProgressPercent(Stats(r[i].totalLessons, r[i].completedLessons))
      && (r[i].totalLessons == 0 ==> r[i].progressPercent == 0)
      && (r[i].totalLessons > 0 && r[i].completedLessons == r[i].totalLessons ==> r[i].progressPercent == 100)
  {
    var done := CompletedLessonIds(progress, userId);
    var byCourse := LessonsByCourse(lessons, done);
    r := [];
    for i := 0 to |courses|
      invariant |r| == i
      invariant forall j :: 0 <= j < i ==>
        var c := courses[j];
        r[j].id == c.id && r[j].title == c.title && r[j].slug == c.slug && r[j].description == c.description
        && r[j].totalLessons == TotalFor(lessons, c.id)
        && r[j].completedLessons == CompletedFor(lessons, done, c.id)
        && r[j].completedLessons <= r[j].totalLessons
        && r[j].progressPercent <= 100
        && r[j].progressPercent == ProgressPercent(Stats(r[j].totalLessons, r[j].completedLessons))
        && (r[j].totalLessons == 0 ==> r[j].progressPercent == 0)
        && (r[j].totalLessons > 0 && r[j].completedLessons == r[j].totalLessons ==> r[j].progressPercent == 100)
    {
      var c := courses[i];
      CompletedAtMostTotal(lessons, done, c.id);
      if c.id !in byCourse {
        // a course without lessons: the fallback entry is the true tally
        CountNone(lessons, DoneInCourse(c.id, done));
      }
      ProgressPercentRange(StatsOf(byCourse, c.id));
      r := r + [WithProgress(c, byCourse)];
    }
  }

  /** The course button: "Start Course" exactly at 0 percent. */
  function ButtonLabel(progressPercent: nat): (s: string)
    ensures s == "Start Course" <==> progressPercent == 0
    ensures s == "Start Course" || s == "Continue"
  {
    if progressPercent == 0 then "Start Course" else "Continue"
  }

  /**
   * Because the percentage is rounded, a course reads "Start Course" exactly
   * when it has no lessons or fewer than one in two hundred of them are completed.
   */
  lemma StartCourseWhenBelowHalfPercent(stats: Stats)
    ensures ButtonLabel(ProgressPercent(stats)) == "Start Course"
            <==> stats.total == 0 || 200 * stats.completed < stats.total
  {
    if stats.total > 0 {
      var p := ProgressPercent(stats);
      if p == 0 {
        assert 200 * stats.completed + stats.total < 2 * stats.total;
      } else {
        MulMonotone(2 * stats.total, 1, p);
        assert 2 * stats.total <= 200 * stats.completed + stats.total;
      }
    }
  }

  /** The page's state that `loadDashboard` writes. */
  class DashboardPage {
    var courses: seq<CourseWithProgress>
    var loading: bool
    var error: Option<string>

    constructor ()
      ensures courses == [] && loading && error == None
    {
      courses := [];
      loading := true;
      error := None;
    }

    /**
     * `loadDashboard`: the three fetches in order, the first failing one's
     * message shown with the list untouched, and otherwise the list of
     * courses with their progress. A visitor who is not signed in is sent to
     * the login page, which leaves the state as it was set on entry.
     */
    method LoadDashboard(userId: Option<string>, courseRows: Result<seq<Course>>,
                         lessonRows: Result<seq<LessonWithCourse>>, progressRows: Result<seq<ProgressRow>>)
      modifies this
      ensures userId.None? ==> courses == old(courses) && loading && error == None
      ensures userId.Some? && courseRows.Err? ==>
        courses == old(courses) && !loading && error == Some(courseRows.error)
      ensures userId.Some? && courseRows.Ok? && lessonRows.Err? ==>
        courses == old(courses) && !loading && error == Some(lessonRows.error)
      ensures userId.Some? && courseRows.Ok? && lessonRows.Ok? && progressRows.Err? ==>
        courses == old(courses) && !loading && error == Some(progressRows.error)
      ensures userId.Some? && courseRows.Ok? && lessonRows.Ok? && progressRows.Ok? ==>
        !loading && error == None && |courses| == |courseRows.value|
        && forall i :: 0 <= i < |courses| ==>
             courses[i].id == courseRows.value[i].id && courses[i].title == courseRows.value[i].title
             && courses[i].slug == courseRows.value[i].slug
             && courses[i].description == courseRows.value[i].description
             && courses[i].totalLessons == TotalFor(lessonRows.value, courses[i].id)
             && courses[i].completedLessons
                == CompletedFor(lessonRows.value, CompletedLessonIds(progressRows.value, userId.value), courses[i].id)
             && courses[i].progressPercent <= 100
             && courses[i].progressPercent == ProgressPercent(Stats(courses[i].totalLessons, courses[i].completedLessons))
    {
      loading := true;
      error := None;
      if userId.None? {
        return;
      }
      if courseRows.Err? {
        error := Some(courseRows.error);
        loading := false;
        return;
      }
      if lessonRows.Err? {
        error := Some(lessonRows.error);
        loading := false;
        return;
      }
      if progressRows.Err? {
        error := Some(progressRows.error);
        loading := false;
        return;
      }
      courses := CoursesWithProgress(courseRows.value, lessonRows.value, progressRows.value, userId.value);
      loading := false;
    }
  }
}
