/**
 * The learner's own courses (`app/my-courses/page.tsx`): the safety filter
 * that hides internal-only courses from learners who are not internal, the
 * list update after leaving a course, and the rows that are rendered.
 */
module MyCourses {
  import opened Base
  import opened Seqs
  import opened Profiles

  /** The joined `courses` row. */
  datatype Course = Course(id: string, title: string, description: Option<string>, slug: string,
                           audience: Option<string>)

  /** A `course_enrollments` row with its course, which the join may leave out. */
  datatype EnrollmentWithCourse = EnrollmentWithCourse(id: string, course_id: string, courses: Option<Course>)

  /** The enrollment delete that leaving a course sends. */
  datatype UnenrollRequest = UnenrollRequest(user_id: string, course_id: string)

  /** `!row.courses || row.courses.audience !== "internal"`. */
  predicate NotInternalOnly(row: EnrollmentWithCourse)
  {
    row.courses.None? || row.courses.value.audience != Some("internal")
  }

  /**
   * The extra safety filter of `loadData`: internal learners keep every row;
   * everybody else keeps the rows whose course is not internal-only, which
   * includes the rows the join left without a course, in order.
   */
  function SafeRows(rows: seq<EnrollmentWithCourse>, userType: Option<string>): (r: seq<EnrollmentWithCourse>)
    ensures userType == Some("internal") ==> r == rows
    ensures userType != Some("internal") ==> forall row :: row in r <==> row in rows && NotInternalOnly(row)
    ensures IsSubsequence(r, rows)
  {
    if userType == Some("internal") then
      FilterKeepsAll(rows, Always);
      FilterIsSubsequence(rows, Always);
      rows
    else
      FilterIsSubsequence(rows, NotInternalOnly);
      Filter(rows, NotInternalOnly)
  }

  /** A learner who is not internal is never shown an internal-only course. */
  lemma NoInternalOnlyForOthers(rows: seq<EnrollmentWithCourse>, userType: Option<string>, row: EnrollmentWithCourse)
    requires userType != Some("internal") && row in SafeRows(rows, userType) && row.courses.Some?
    ensures row.courses.value.audience != Some("internal")
  {
  }

  function OtherCourse(courseId: string): EnrollmentWithCourse -> bool
  {
    (row: EnrollmentWithCourse) => row.course_id != courseId
  }

  function SameCourse(courseId: string): EnrollmentWithCourse -> bool
  {
    (row: EnrollmentWithCourse) => row.course_id == courseId
  }

  /** `prev.filter((row) => row.course_id !== courseId)`. */
  function Unenrolled(items: seq<EnrollmentWithCourse>, courseId: string): (r: seq<EnrollmentWithCourse>)
    ensures forall row :: row in r <==> row in items && row.course_id != courseId
    ensures IsSubsequence(r, items)
  {
    FilterIsSubsequence(items, OtherCourse(courseId));
    Filter(items, OtherCourse(courseId))
  }

  /** Leaving a course removes exactly its rows: the list shrinks by their number. */
  lemma UnenrolledRemovesExactly(items: seq<EnrollmentWithCourse>, courseId: string)
    ensures |Unenrolled(items, courseId)| + Count(items, SameCourse(courseId)) == |items|
  {
    CountDisjointUnion(items, OtherCourse(courseId), SameCourse(courseId), Always);
    CountAlways(items);
  }

  predicate HasCourse(row: EnrollmentWithCourse)
  {
    row.courses.Some?
  }

  /** `items.filter((row) => row.courses)`: only rows with their course are drawn. */
  function RenderedRows(items: seq<EnrollmentWithCourse>): (r: seq<EnrollmentWithCourse>)
    ensures forall row :: row in r <==> row in items && row.courses.Some?
    ensures IsSubsequence(r, items)
  {
    FilterIsSubsequence(items, HasCourse);
    Filter(items, HasCourse)
  }

  /** The page's state. */
  class MyCoursesPage {
    var loading: bool
    var items: seq<EnrollmentWithCourse>
    var profile: Option<Profile>
    var error: Option<string>

    constructor ()
      ensures loading && items == [] && profile == None && error == None
    {
      loading := true;
      items := [];
      profile := None;
      error := None;
    }

    /**
     * `loadData`: the profile (inserting the default one on a first visit),
     * then the learner's enrollments with their courses, filtered by the
     * type of the profile row in use.
     */
    method LoadData(user: Result<Option<SignedInUser>>, existing: Result<Option<Profile>>, inserted: Result<Profile>,
                    enrollmentRows: Result<seq<EnrollmentWithCourse>>)
      returns (insert: Option<NewProfile>)
      modifies this
      ensures !loading
      ensures var r := ResolveProfile(user, existing, inserted, "You must be signed in to view your courses.");
        insert == r.insert
        && (r.profile.Err? ==> error == Some(r.profile.error) && profile == old(profile) && items == old(items))
        && (r.profile.Ok? ==> profile == Some(r.profile.value))
        && (r.profile.Ok? && enrollmentRows.Err? ==> error == Some(enrollmentRows.error) && items == old(items))
        && (r.profile.Ok? && enrollmentRows.Ok? ==>
              error == None && items == SafeRows(enrollmentRows.value, r.profile.value.user_type))
    {
      loading := true;
      error := None;
      var r := ResolveProfile(user, existing, inserted, "You must be signed in to view your courses.");
      insert := r.insert;
      if r.profile.Err? {
        error := Some(r.profile.error);
        loading := false;
        return;
      }
      var profileRow := r.profile.value;
      profile := Some(profileRow);
      if enrollmentRows.Err? {
        error := Some(enrollmentRows.error);
        loading := false;
        return;
      }
      items := SafeRows(enrollmentRows.value, profileRow.user_type);
      loading := false;
    }

    /**
     * `handleUnenroll`: the delete for the signed-in learner; on success the
     * course's rows leave the list, on any failure the list stays and the
     * message is shown.
     */
    method HandleUnenroll(courseId: string, user: Result<Option<SignedInUser>>, deleteError: Option<string>)
      returns (request: Option<UnenrollRequest>)
      modifies this
      ensures loading == old(loading) && profile == old(profile)
      ensures user.Err? ==> request.None? && error == Some(user.error) && items == old(items)
      ensures user == Ok(None) ==> request.None? && error == Some("You must be signed in.") && items == old(items)
      ensures user.Ok? && user.value.Some? ==>
        request == Some(UnenrollRequest(user.value.value.id, courseId))
        && (deleteError.Some? ==> error == deleteError && items == old(items))
        && (deleteError.None? ==> error == None && items == Unenrolled(old(items), courseId))
    {
      error := None;
      request := None;
      if user.Err? {
        error := Some(user.error);
        return;
      }
      if user.value.None? {
        error := Some("You must be signed in.");
        return;
      }
      request := Some(UnenrollRequest(user.value.value.id, courseId));
      if deleteError.Some? {
        error := deleteError;
        return;
      }
      items := Unenrolled(items, courseId);
    }
  }
}
