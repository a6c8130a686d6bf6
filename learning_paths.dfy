/**
 * The learning path (`app/learning-paths/page.tsx`): three flags read from
 * the learner's enrollments, lesson progress and certificates, the number
 * of steps completed, the overall status and its CSS class.
 */
module LearningPaths {
  import opened Base
  import opened Text
  import opened Profiles

  /** A `course_enrollments` or `certificates` row, of which the page reads only that it exists. */
  datatype IdRow = IdRow(id: string)

  /** A `lesson_progress` row. */
  datatype ProgressRow = ProgressRow(lesson_id: string, completed_at: Option<string>)

  /** `rows.length > 0`. */
  function HasRows(rows: seq<IdRow>): (b: bool)
    ensures b <==> rows != []
  {
    |rows| > 0
  }

  /** `lpRows.some((row) => row.completed_at != null)`. */
  function HasLessonsDone(rows: seq<ProgressRow>): (b: bool)
    ensures b <==> exists i :: 0 <= i < |rows| && rows[i].completed_at.Some?
    decreases |rows|
  {
    if rows == [] then false
    else if rows[0].completed_at.Some? then true
    else
      assert forall i :: 1 <= i < |rows| ==> rows[i] == rows[1..][i - 1];
      HasLessonsDone(rows[1..])
  }

  /** `stepsCompleted`: one step for each flag that holds. */
  function StepsCompleted(hasEnrollment: bool, hasLessonProgress: bool, hasCertificate: bool): (n: nat)
    ensures n <= 3
    ensures n == 0 <==> !hasEnrollment && !hasLessonProgress && !hasCertificate
    ensures n == 3 <==> hasEnrollment && hasLessonProgress && hasCertificate
  {
    (if hasEnrollment then 1 else 0) + (if hasLessonProgress then 1 else 0) + (if hasCertificate then 1 else 0)
  }

  /**
   * Each flag counts one step whatever the others are; with no step for no
   * flag, this fixes the number for every combination.
   */
  lemma EachFlagIsOneStep(hasEnrollment: bool, hasLessonProgress: bool, hasCertificate: bool)
    ensures StepsCompleted(true, hasLessonProgress, hasCertificate)
            == StepsCompleted(false, hasLessonProgress, hasCertificate) + 1
    ensures StepsCompleted(hasEnrollment, true, hasCertificate)
            == StepsCompleted(hasEnrollment, false, hasCertificate) + 1
    ensures StepsCompleted(hasEnrollment, hasLessonProgress, true)
            == StepsCompleted(hasEnrollment, hasLessonProgress, false) + 1
  {
  }

  /** `overallStatus`: a certificate completes the path; any enrollment or progress starts it. */
  function OverallStatus(hasEnrollment: bool, hasLessonProgress: bool, hasCertificate: bool): (s: string)
    ensures s == "Completed" <==> hasCertificate
    ensures s == "In progress" <==> !hasCertificate && (hasEnrollment || hasLessonProgress)
    ensures s == "Not started" <==> !hasCertificate && !hasEnrollment && !hasLessonProgress
  {
    var status := "Not started";
    if hasCertificate then "Completed"
    else if hasEnrollment || hasLessonProgress then "In progress"
    else status
  }

  /** A path is not started exactly when no step is completed; all three steps mean it is completed. */
  lemma StatusAgreesWithSteps(hasEnrollment: bool, hasLessonProgress: bool, hasCertificate: bool)
    ensures OverallStatus(hasEnrollment, hasLessonProgress, hasCertificate) == "Not started"
            <==> StepsCompleted(hasEnrollment, hasLessonProgress, hasCertificate) == 0
    ensures StepsCompleted(hasEnrollment, hasLessonProgress, hasCertificate) == 3
            ==> OverallStatus(hasEnrollment, hasLessonProgress, hasCertificate) == "Completed"
  {
  }

  /** The common start of the three status classes. */
  const StatusPrefix := "lp-status-"

  /**
   * `lp-status-${overallStatus.replace(" ", "-").toLowerCase()}`; the classes of
   * the three statuses are given by `CompletedClass`, `InProgressClass` and
   * `NotStartedClass`, and told apart by `StatusClassNames`.
   */
  function StatusClass(status: string): (c: string)
    ensures |c| == |"lp-status-"| + |status|
    ensures StartsWith(c, "lp-status-")
  {
    var c := "lp-status-" + Lower(ReplaceFirstSpace(status));
    assert c[..|"lp-status-"|] == "lp-status-";
    c
  }

  /** Replacing the first space of a text whose first word is `a`. */
  lemma {:induction false} ReplaceSpaceAfterWord(a: string, b: string)
    requires ' ' !in a
    ensures ReplaceFirstSpace(a + " " + b) == a + "-" + b
    decreases |a|
  {
    if a == "" {
      assert (a + " " + b)[1..] == b;
    } else {
      assert (a + " " + b)[1..] == a[1..] + " " + b;
      ReplaceSpaceAfterWord(a[1..], b);
    }
  }

  /** The completed status gets the class `lp-status-completed`. */
  lemma CompletedClass(status: string)
    requires status == "Completed"
    ensures StatusClass(status) == "lp-status-completed"
  {
    assert ' ' !in status;
    var lowered := Lower(status);
    assert forall i :: 0 <= i < 9 ==> lowered[i] == "completed"[i];
  }

  /** The class of a two-word status: "lp-status-" and the words joined by a dash, in lower case. */
  lemma TwoWordClass(status: string, a: string, b: string, lowered: string)
    requires ' ' !in a && status == a + " " + b
    requires |lowered| == |a| + 1 + |b|
    requires forall i :: 0 <= i < |lowered| ==> LowerChar((a + "-" + b)[i]) == lowered[i]
    ensures StatusClass(status) == StatusPrefix + lowered
  {
    ReplaceSpaceAfterWord(a, b);
    assert Lower(a + "-" + b) == lowered;
  }

  /** A path started but without a certificate is drawn with the in-progress class. */
  lemma InProgressClass(hasEnrollment: bool, hasLessonProgress: bool, hasCertificate: bool)
    requires !hasCertificate && (hasEnrollment || hasLessonProgress)
    ensures StatusClass(OverallStatus(hasEnrollment, hasLessonProgress, hasCertificate)) == StatusPrefix + "in-progress"
  {
    var status := OverallStatus(hasEnrollment, hasLessonProgress, hasCertificate);
    TwoWordClass(status, "In", "progress", "in-progress");
  }

  /** A path with no step done is drawn with the not-started class. */
  lemma NotStartedClass(hasEnrollment: bool, hasLessonProgress: bool, hasCertificate: bool)
    requires !hasCertificate && !hasEnrollment && !hasLessonProgress
    ensures StatusClass(OverallStatus(hasEnrollment, hasLessonProgress, hasCertificate)) == StatusPrefix + "not-started"
  {
    var status := OverallStatus(hasEnrollment, hasLessonProgress, hasCertificate);
    TwoWordClass(status, "Not", "started", "not-started");
  }

  /** The three statuses give the three class names of the style sheet. */
  lemma StatusClassNames(hasEnrollment: bool, hasLessonProgress: bool, hasCertificate: bool)
    ensures var status := OverallStatus(hasEnrollment, hasLessonProgress, hasCertificate);
      (status == "Completed" ==> StatusClass(status) == "lp-status-completed")
      && (status == "In progress" ==> StatusClass(status) == StatusPrefix + "in-progress")
      && (status == "Not started" ==> StatusClass(status) == StatusPrefix + "not-started")
  {
    var status := OverallStatus(hasEnrollment, hasLessonProgress, hasCertificate);
    if hasCertificate {
      CompletedClass(status);
    } else if hasEnrollment || hasLessonProgress {
      InProgressClass(hasEnrollment, hasLessonProgress, hasCertificate);
    } else {
      NotStartedClass(hasEnrollment, hasLessonProgress, hasCertificate);
    }
  }

  /** The page's state. */
  class LearningPathPage {
    var loading: bool
    var error: Option<string>
    var profile: Option<Profile>
    var hasEnrollment: bool
    var hasLessonProgress: bool
    var hasCertificate: bool

    constructor ()
      ensures loading && error == None && profile == None
      ensures !hasEnrollment && !hasLessonProgress && !hasCertificate
    {
      loading := true;
      error := None;
      profile := None;
      hasEnrollment := false;
      hasLessonProgress := false;
      hasCertificate := false;
    }

    /**
     * `loadData`: the profile (inserting the default one on a first visit),
     * then the three flags in order; the first failure's message is shown and
     * the flags set before it stay.
     */
    method LoadData(user: Result<Option<SignedInUser>>, existing: Result<Option<Profile>>, inserted: Result<Profile>,
                    enrollRows: Result<seq<IdRow>>, lpRows: Result<seq<ProgressRow>>, certRows: Result<seq<IdRow>>)
      returns (insert: Option<NewProfile>)
      modifies this
      ensures !loading
      ensures var r := ResolveProfile(user, existing, inserted, "You must be signed in to view the learning path.");
        insert == r.insert
        && (r.profile.Err? ==>
              error == Some(r.profile.error) && profile == old(profile) && hasEnrollment == old(hasEnrollment)
              && hasLessonProgress == old(hasLessonProgress) && hasCertificate == old(hasCertificate))
        && (r.profile.Ok? ==> profile == Some(r.profile.value))
        && (r.profile.Ok? && enrollRows.Err? ==>
              error == Some(enrollRows.error) && hasEnrollment == old(hasEnrollment)
              && hasLessonProgress == old(hasLessonProgress) && hasCertificate == old(hasCertificate))
        && (r.profile.Ok? && enrollRows.Ok? ==> hasEnrollment == HasRows(enrollRows.value))
        && (r.profile.Ok? && enrollRows.Ok? && lpRows.Err? ==>
              error == Some(lpRows.error) && hasLessonProgress == old(hasLessonProgress)
              && hasCertificate == old(hasCertificate))
        && (r.profile.Ok? && enrollRows.Ok? && lpRows.Ok? ==> hasLessonProgress == HasLessonsDone(lpRows.value))
        && (r.profile.Ok? && enrollRows.Ok? && lpRows.Ok? && certRows.Err? ==>
              error == Some(certRows.error) && hasCertificate == old(hasCertificate))
        && (r.profile.Ok? && enrollRows.Ok? && lpRows.Ok? && certRows.Ok? ==>
              error == None && hasCertificate == HasRows(certRows.value))
    {
      loading := true;
      error := None;
      var r := ResolveProfile(user, existing, inserted, "You must be signed in to view the learning path.");
      insert := r.insert;
      if r.profile.Err? {
        error := Some(r.profile.error);
        loading := false;
        return;
      }
      profile := Some(r.profile.value);
      if enrollRows.Err? {
        error := Some(enrollRows.error);
        loading := false;
        return;
      }
      hasEnrollment := HasRows(enrollRows.value);
      if lpRows.Err? {
        error := Some(lpRows.error);
        loading := false;
        return;
      }
      hasLessonProgress := HasLessonsDone(lpRows.value);
      if certRows.Err? {
        error := Some(certRows.error);
        loading := false;
        return;
      }
      hasCertificate := HasRows(certRows.value);
      loading := false;
    }
  }
}
