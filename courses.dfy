/**
 * The course catalogue (`app/courses/page.tsx`): the audiences a learner
 * may see, decided by the learner's type (the default type for a first
 * visit), the enrolled check and the audience label of every course, and
 * the page state that loading and enrolling change.
 */
module Courses {
  import opened Base
  import opened Text
  import opened Seqs
  import opened Profiles

  /** A `courses` row; `audience` is the database's text column. */
  datatype Course = Course(id: string, title: string, description: Option<string>, slug: string,
                           audience: Option<string>)

  /** A `course_enrollments` row of the learner. */
  datatype Enrollment = Enrollment(id: string, course_id: string)

  /** An enrollment insert. */
  datatype EnrollRequest = EnrollRequest(user_id: string, course_id: string)

  /**
   * `effectiveUserType`: the type of the existing profile, or on a first
   * visit the default type derived from the e-mail address.
   */
  function EffectiveUserType(existing: Option<Profile>, email: Option<string>): (t: Option<string>)
    ensures existing.Some? ==> t == existing.value.user_type
    ensures existing.None? ==> t == Some(InternalType) || t == Some(ExternalType)
  {
    if existing.Some? then existing.value.user_type else Some(DefaultUserType(email))
  }

  /** A first-time visitor is internal exactly when the address is on the company domain, in any case. */
  lemma FirstVisitTypeByDomain(email: Option<string>)
    ensures EffectiveUserType(None, email) == Some("internal") <==> EndsWith(Lower(EmailOrEmpty(email)), "@anchorp.com")
  {
  }

  /** `allowedAudiences`: internal learners see every audience, everybody else external and shared courses. */
  function AllowedAudiences(userType: Option<string>): (r: seq<string>)
    ensures "internal" in r <==> userType == Some("internal")
    ensures "external" in r && "both" in r
    ensures forall a :: a in r ==> a == "internal" || a == "external" || a == "both"
  {
    if userType == Some("internal") then ["internal", "both", "external"] else ["external", "both"]
  }

  /** `.in("audience", allowedAudiences)`: a course without an audience matches no value. */
  predicate Visible(c: Course, userType: Option<string>)
  {
    c.audience.Some? && c.audience.value in AllowedAudiences(userType)
  }

  function VisibleTo(userType: Option<string>): Course -> bool
  {
    (c: Course) => Visible(c, userType)
  }

  /** The courses the query returns for a learner type, in the table's order. */
  function VisibleCourses(table: seq<Course>, userType: Option<string>): (r: seq<Course>)
    ensures forall c :: c in r <==> c in table && Visible(c, userType)
    ensures IsSubsequence(r, table)
  {
    FilterIsSubsequence(table, VisibleTo(userType));
    Filter(table, VisibleTo(userType))
  }

  /**
   * Who sees what: an internal-only course exactly the internal learners,
   * an external or shared course everybody, a course without audience nobody.
   */
  lemma VisibilityByAudience(c: Course, userType: Option<string>)
    ensures c.audience == Some("internal") ==> (Visible(c, userType) <==> userType == Some("internal"))
    ensures c.audience == Some("external") || c.audience == Some("both") ==> Visible(c, userType)
    ensures c.audience.None? ==> !Visible(c, userType)
  {
  }

  /** `enrolledCourseIds`: the courses of the learner's enrollments. */
  function EnrolledCourseIds(enrollments: seq<Enrollment>): (ids: set<string>)
    ensures forall id :: id in ids <==> exists e :: e in enrollments && e.course_id == id
  {
    set e | e in enrollments :: e.course_id
  }

  /** A course is shown as enrolled exactly when one of the learner's enrollments is for it. */
  predicate IsEnrolled(c: Course, enrollments: seq<Enrollment>)
  {
    c.id in EnrolledCourseIds(enrollments)
  }

  /** An enrollment for a course marks it enrolled, and one more enrollment unmarks nothing. */
  lemma EnrolledAfterEnrollment(c: Course, enrollments: seq<Enrollment>, e: Enrollment)
    ensures e.course_id == c.id ==> IsEnrolled(c, enrollments + [e])
    ensures IsEnrolled(c, enrollments) ==> IsEnrolled(c, enrollments + [e])
  {
    assert e in enrollments + [e];
    assert forall x :: x in enrollments ==> x in enrollments + [e];
  }

  /** `audienceLabel`: "Internal only", "External", or "Internal & external" for every other audience. */
  function AudienceLabel(audience: Option<string>): (l: string)
    ensures l == "Internal only" <==> audience == Some("internal")
    ensures l == "External" <==> audience == Some("external")
    ensures l == "Internal & external" <==> audience != Some("internal") && audience != Some("external")
  {
    if audience == Some("internal") then "Internal only"
    else if audience == Some("external") then "External"
    else "Internal & external"
  }

  /** The page's state. */
  class CoursesPage {
    var loading: bool
    var courses: seq<Course>
    var enrollments: seq<Enrollment>
    var profile: Option<Profile>
    var error: Option<string>
    var enrollingId: Option<string>

    constructor ()
      ensures loading && courses == [] && enrollments == [] && profile == None
      ensures error == None && enrollingId == None
    {
      loading := true;
      courses := [];
      enrollments := [];
      profile := None;
      error := None;
      enrollingId := None;
    }

    /**
     * `loadData`: the profile first (inserting the default one on a first
     * visit), then the courses of the allowed audiences, then the learner's
     * enrollments; the first failure's message is shown and what was set
     * before it stays.
     */
    method LoadData(user: Result<Option<SignedInUser>>, existing: Result<Option<Profile>>, inserted: Result<Profile>,
                    table: Result<seq<Course>>, enrollmentRows: Result<seq<Enrollment>>)
      returns (insert: Option<NewProfile>)
      modifies this
      ensures !loading && enrollingId == old(enrollingId)
      ensures var r := ResolveProfile(user, existing, inserted, "You must be signed in to view courses.");
        insert == r.insert
        && (r.profile.Err? ==>
              error == Some(r.profile.error) && profile == old(profile)
              && courses == old(courses) && enrollments == old(enrollments))
        && (r.profile.Ok? ==> profile == Some(r.profile.value))
        && (r.profile.Ok? && table.Err? ==>
              error == Some(table.error) && courses == old(courses) && enrollments == old(enrollments))
        && (r.profile.Ok? && table.Ok? ==>
              courses == VisibleCourses(table.value,
                           EffectiveUserType(existing.value, user.value.value.email)))
        && (r.profile.Ok? && table.Ok? && enrollmentRows.Err? ==>
              error == Some(enrollmentRows.error) && enrollments == old(enrollments))
        && (r.profile.Ok? && table.Ok? && enrollmentRows.Ok? ==>
              error == None && enrollments == enrollmentRows.value)
    {
      loading := true;
      error := None;
      var r := ResolveProfile(user, existing, inserted, "You must be signed in to view courses.");
      insert := r.insert;
      if r.profile.Err? {
        error := Some(r.profile.error);
        loading := false;
        return;
      }
      profile := Some(r.profile.value);
      var effectiveUserType := EffectiveUserType(existing.value, user.value.value.email);
      if table.Err? {
        error := Some(table.error);
        loading := false;
        return;
      }
      courses := VisibleCourses(table.value, effectiveUserType);
      if enrollmentRows.Err? {
        error := Some(enrollmentRows.error);
        loading := false;
        return;
      }
      enrollments := enrollmentRows.value;
      loading := false;
    }

    /**
     * `handleEnroll`: the enrollment insert for the signed-in learner, then a
     * fresh copy of the learner's enrollments; a failure shows its message
     * and keeps the old list. The course being enrolled is cleared either way.
     */
    method HandleEnroll(courseId: string, user: Result<Option<SignedInUser>>, insertError: Option<string>,
                        enrollmentRows: Result<seq<Enrollment>>)
      returns (request: Option<EnrollRequest>)
      modifies this
      ensures enrollingId == None && loading == old(loading) && courses == old(courses) && profile == old(profile)
      ensures user.Err? ==> request.None? && error == Some(user.error) && enrollments == old(enrollments)
      ensures user == Ok(None) ==>
        request.None? && error == Some("You must be signed in to enroll.") && enrollments == old(enrollments)
      ensures user.Ok? && user.value.Some? ==>
        request == Some(EnrollRequest(user.value.value.id, courseId))
        && (insertError.Some? ==> error == insertError && enrollments == old(enrollments))
        && (insertError.None? && enrollmentRows.Err? ==>
              error == Some(enrollmentRows.error) && enrollments == old(enrollments))
        && (insertError.None? && enrollmentRows.Ok? ==> error == None && enrollments == enrollmentRows.value)
    {
      error := None;
      enrollingId := Some(courseId);
      request := None;
      if user.Err? {
        error := Some(user.error);
      } else if user.value.None? {
        error := Some("You must be signed in to enroll.");
      } else {
        request := Some(EnrollRequest(user.value.value.id, courseId));
        if insertError.Some? {
          error := insertError;
        } else if enrollmentRows.Err? {
          error := Some(enrollmentRows.error);
        } else {
          enrollments := enrollmentRows.value;
        }
      }
      enrollingId := None;
    }
  }
}
