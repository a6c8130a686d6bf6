/**
 * The figures of the reports page (`app/reports/page.tsx`): the number of
 * passed quiz attempts and the pass rate, and the number of enrollments of
 * every course. The attempts' `passed` flags are read as stored; nothing
 * here scores a quiz.
 */
module Reports {
  import opened Base
  import opened Seqs
  import opened Numbers

  /** A `courses` row. */
  datatype Course = Course(id: string, title: string, slug: string)

  /** A `course_enrollments` row, of which the page reads the course. */
  datatype EnrollmentRow = EnrollmentRow(course_id: string)

  /** A `quiz_attempts` row. */
  datatype QuizAttempt = QuizAttempt(quiz_id: string, score: Option<int>, passed: Option<bool>)

  /** A course with its number of enrollments. */
  datatype CourseCount = CourseCount(course: Course, enrollmentCount: nat)

  /** `(a) => a.passed`: only a stored `true` is truthy; `false` and null are not. */
  function IsPassed(a: QuizAttempt): bool
  {
    a.passed == Some(true)
  }

  function IsNotPassed(a: QuizAttempt): bool
  {
    !IsPassed(a)
  }

  /** `totalPassed`: the number of attempts stored as passed. */
  function TotalPassed(attempts: seq<QuizAttempt>): (n: nat)
    ensures n <= |attempts|
  {
    Count(attempts, IsPassed)
  }

  /** Every attempt is either passed or not, so passed and other attempts add up to all of them. */
  lemma {:induction false} PassedPartition(attempts: seq<QuizAttempt>)
    ensures TotalPassed(attempts) + Count(attempts, IsNotPassed) == |attempts|
    decreases |attempts|
  {
    if attempts != [] {
      PassedPartition(attempts[..|attempts| - 1]);
    }
  }

  /** One more attempt adds one to `totalPassed` exactly when it is stored as passed. */
  lemma TotalPassedSnoc(attempts: seq<QuizAttempt>, a: QuizAttempt)
    ensures TotalPassed(attempts + [a]) == TotalPassed(attempts) + (if a.passed == Some(true) then 1 else 0)
  {
    CountSnoc(attempts, a, IsPassed);
  }

  /** `passRate`: 0 without attempts, otherwise the rounded percentage of passed attempts. */
  function PassRate(attempts: seq<QuizAttempt>): (rate: nat)
    ensures |attempts| == 0 ==> rate == 0
    ensures |attempts| > 0 ==>
      2 * |attempts| * rate <= 200 * TotalPassed(attempts) + |attempts| < 2 * |attempts| * (rate + 1)
  {
    if |attempts| == 0 then 0 else RoundPercent(TotalPassed(attempts), |attempts|)
  }

  /** The pass rate lies in [0, 100]; it is 100 when every attempt passed and 0 when none did. */
  lemma PassRateRange(attempts: seq<QuizAttempt>)
    ensures PassRate(attempts) <= 100
    ensures |attempts| > 0 && TotalPassed(attempts) == |attempts| ==> PassRate(attempts) == 100
    ensures TotalPassed(attempts) == 0 ==> PassRate(attempts) == 0
  {
    if |attempts| > 0 {
      RoundPercentRange(TotalPassed(attempts), |attempts|);
    }
  }

  function CourseOf(e: EnrollmentRow): Option<string>
  {
    Some(e.course_id)
  }

  /** `enrollCountByCourse`: every course, in order, with the number of enrollments carrying its id. */
  function EnrollCountByCourse(courses: seq<Course>, enrollments: seq<EnrollmentRow>): (r: seq<CourseCount>)
    ensures |r| == |courses|
    ensures forall i :: 0 <= i < |r| ==>
      r[i].course == courses[i] && r[i].enrollmentCount == CountKey(enrollments, CourseOf, courses[i].id)
  {
    seq(|courses|, i requires 0 <= i < |courses| =>
      CourseCount(courses[i], CountKey(enrollments, CourseOf, courses[i].id)))
  }

  function CourseIds(courses: seq<Course>): seq<string>
  {
    seq(|courses|, i requires 0 <= i < |courses| => courses[i].id)
  }

  function EnrollmentCounts(r: seq<CourseCount>): seq<nat>
  {
    seq(|r|, i requires 0 <= i < |r| => r[i].enrollmentCount)
  }

  /**
   * With distinct course ids, the per-course counts add up to the number of
   * enrollments of listed courses, and so to at most `totalEnrollments`.
   */
  lemma PerCourseWithinTotal(courses: seq<Course>, enrollments: seq<EnrollmentRow>)
    requires Distinct(CourseIds(courses))
    ensures Sum(EnrollmentCounts(EnrollCountByCourse(courses, enrollments)))
            == Count(enrollments, TagIn(CourseOf, CourseIds(courses)))
    ensures Sum(EnrollmentCounts(EnrollCountByCourse(courses, enrollments))) <= |enrollments|
  {
    assert EnrollmentCounts(EnrollCountByCourse(courses, enrollments))
           == CountsPerKey(enrollments, CourseOf, CourseIds(courses));
    SumCountsPerKey(enrollments, CourseOf, CourseIds(courses));
  }

  /** The word after a course's count: singular exactly for one enrollment. */
  function EnrollmentWord(count: nat): (w: string)
    ensures w == "enrollment" <==> count == 1
    ensures w == "enrollments" <==> count != 1
  {
    "enrollment" + (if count == 1 then "" else "s")
  }
}
