/**
 * The course administration page (`app/admin/courses/page.tsx`): the slug
 * derived from a title, the request a save issues, the eligibility gate of
 * a manual assignment, the per-course enrollment counts that skip admins,
 * the selection kept or replaced after a reload, the suggested-action
 * toggle, and the guard and order of a course deletion.
 *
 * Selections are `Option<string>`: `None` is `null`, and the id `"new"`
 * stands for the blank "add a course" form, as in the page.
 */
module AdminCourses {
  import opened Base
  import opened Text
  import opened Seqs

  const NewCourse: string := "new"
  const AdminRole: string := "admin"
  /** The typographic apostrophe of the page's messages. */
  const Apostrophe: string := ['\U{2019}']

  // ---------- slug derivation ----------

  predicate IsSlugChar(c: char)
  {
    'a' <= c <= 'z' || '0' <= c <= '9'
  }

  /** The characters a derived slug is made of. */
  predicate SlugAlphabet(s: string)
  {
    forall i :: 0 <= i < |s| ==> IsSlugChar(s[i]) || s[i] == '-'
  }

  /** No two dashes in a row. */
  predicate NoDoubleDash(s: string)
  {
    forall i :: 0 <= i < |s| - 1 ==> s[i] != '-' || s[i + 1] != '-'
  }

  /** What is left of `s` once a leading run of characters outside `[a-z0-9]` is skipped. */
  function SkipRun(s: string): (r: string)
    ensures |r| <= |s| && r == s[|s| - |r|..]
    ensures r != "" ==> IsSlugChar(r[0])
    ensures forall i :: 0 <= i < |s| - |r| ==> !IsSlugChar(s[i])
    decreases |s|
  {
    if s != "" && !IsSlugChar(s[0]) then SkipRun(s[1..]) else s
  }

  /** `s.replace(/[^a-z0-9]+/g, "-")`: every maximal run of other characters becomes one dash. */
  function DashRuns(s: string): (r: string)
    ensures SlugAlphabet(r) && NoDoubleDash(r)
    ensures s != "" ==> r != "" && (r[0] == '-' <==> !IsSlugChar(s[0]))
    ensures s == "" ==> r == ""
    decreases |s|
  {
    if s == "" then ""
    else if IsSlugChar(s[0]) then [s[0]] + DashRuns(s[1..])
    else
      var rest := SkipRun(s[1..]);
      "-" + DashRuns(rest)
  }

  /** `s.replace(/^-+/, "")`. */
  function DropLeadingDashes(s: string): (r: string)
    ensures |r| <= |s| && r == s[|s| - |r|..]
    ensures r != "" ==> r[0] != '-'
    decreases |s|
  {
    if s != "" && s[0] == '-' then DropLeadingDashes(s[1..]) else s
  }

  /** `s.replace(/-+$/, "")`. */
  function DropTrailingDashes(s: string): (r: string)
    ensures |r| <= |s| && r == s[..|r|]
    ensures r != "" ==> r[|r| - 1] != '-'
    decreases |s|
  {
    if s != "" && s[|s| - 1] == '-' then DropTrailingDashes(s[..|s| - 1]) else s
  }

  /**
   * The slug derived from a title:
   * `title.toLowerCase().replace(/[^a-z0-9]+/g, "-").replace(/^-+|-+$/g, "")`.
   */
  function Slugify(title: string): (slug: string)
    ensures SlugAlphabet(slug) && NoDoubleDash(slug)
    ensures slug != "" ==> slug[0] != '-' && slug[|slug| - 1] != '-'
  {
    var dashed := DashRuns(Lower(title));
    TrimDashesKeepsSlugShape(dashed);
    DropTrailingDashes(DropLeadingDashes(dashed))
  }

  /** Dropping the dashes at both ends keeps the slug alphabet and the single dashes, and leaves none at the ends. */
  lemma TrimDashesKeepsSlugShape(dashed: string)
    requires SlugAlphabet(dashed) && NoDoubleDash(dashed)
    ensures var slug := DropTrailingDashes(DropLeadingDashes(dashed));
      SlugAlphabet(slug) && NoDoubleDash(slug) && (slug != "" ==> slug[0] != '-' && slug[|slug| - 1] != '-')
  {
    var lead := DropLeadingDashes(dashed);
    var slug := DropTrailingDashes(lead);
    SliceKeepsSlugShape(dashed, |dashed| - |lead|, |dashed|);
    assert lead == dashed[|dashed| - |lead|..|dashed|];
    SliceKeepsSlugShape(lead, 0, |slug|);
    assert slug == lead[0..|slug|];
    if slug != "" {
      assert slug[0] == lead[0];
    }
  }

  lemma SliceKeepsSlugShape(s: string, lo: nat, hi: nat)
    requires lo <= hi <= |s|
    requires SlugAlphabet(s) && NoDoubleDash(s)
    ensures SlugAlphabet(s[lo..hi]) && NoDoubleDash(s[lo..hi])
  {
    var t := s[lo..hi];
    assert forall i :: 0 <= i < |t| ==> t[i] == s[lo + i];
  }

  /** A string made of slug characters and single dashes goes through `DashRuns` unchanged. */
  lemma {:induction false} DashRunsKeepsSlug(s: string)
    requires SlugAlphabet(s) && NoDoubleDash(s)
    ensures DashRuns(s) == s
    decreases |s|
  {
    if s != "" {
      var t := s[1..];
      assert SlugAlphabet(t) && NoDoubleDash(t) by {
        assert forall i :: 0 <= i < |t| ==> t[i] == s[i + 1];
      }
      DashRunsKeepsSlug(t);
      if !IsSlugChar(s[0]) {
        assert SkipRun(t) == t;
      }
      assert s == [s[0]] + t;
    }
  }

  /** Deriving a slug from a derived slug gives it back. */
  lemma SlugifyIdempotent(title: string)
    ensures Slugify(Slugify(title)) == Slugify(title)
  {
    var slug := Slugify(title);
    LowerKeepsSlug(slug);
    DashRunsKeepsSlug(slug);
    assert DropLeadingDashes(slug) == slug;
    assert DropTrailingDashes(slug) == slug;
  }

  /** Lower-casing leaves slug characters and dashes alone. */
  lemma LowerKeepsSlug(s: string)
    requires SlugAlphabet(s)
    ensures Lower(s) == s
  {
    var r := Lower(s);
    forall i | 0 <= i < |s|
      ensures r[i] == s[i]
    {
      assert IsSlugChar(s[i]) || s[i] == '-';
    }
  }

  // ---------- saving the course form ----------

  /** The editable fields of the course form. */
  datatype CourseForm = CourseForm(title: string, slug: string, description: string, audience: string)

  const BlankForm: CourseForm := CourseForm("", "", "", "both")

  /** The write `handleCourseSave` issues. */
  datatype SaveRequest =
    | Create(title: string, slug: string, description: string, audience: string)
    | Update(id: string, title: string, slug: string, description: string, audience: string)
  {
    function Slug(): string
    {
      match this
      case Create(_, slug, _, _) => slug
      case Update(_, _, slug, _, _) => slug
    }
  }

  /** A selection that names an existing course rather than nothing or the blank form. */
  predicate SelectsCourse(selected: Option<string>)
  {
    Truthy(selected) && selected.value != NewCourse
  }

  /** The request a save makes of the form, or the message shown instead. */
  function SaveRequestFor(form: CourseForm, selected: Option<string>): (r: Result<SaveRequest>)
    ensures Trim(form.title) == "" ==> r == Err("Please enter a course title.")
    ensures Trim(form.title) != "" ==> r.Ok?
    ensures r.Ok? ==> (r.value.Create? <==> !SelectsCourse(selected))
    ensures r.Ok? && r.value.Update? ==> Some(r.value.id) == selected
    ensures r.Ok? ==>
      r.value.title == Trim(form.title) && r.value.title != ""
      && r.value.description == Trim(form.description) && r.value.audience == form.audience
    ensures r.Ok? && Trim(form.slug) != "" ==> r.value.Slug() == Trim(form.slug)
    ensures r.Ok? && Trim(form.slug) == "" ==> r.value.Slug() == Slugify(r.value.title)
  {
    var title := Trim(form.title);
    var typed := Trim(form.slug);
    var description := Trim(form.description);
    if title == "" then Err("Please enter a course title.")
    else
      var slug := if typed != "" then typed else Slugify(title);
      if !SelectsCourse(selected) then Ok(Create(title, slug, description, form.audience))
      else Ok(Update(selected.value, title, slug, description, form.audience))
  }

  // ---------- courses and their enrollment counts ----------

  /** A `courses` row. */
  datatype Course = Course(id: string, title: string, description: Option<string>, slug: string, audience: Option<string>)

  /** A course with the counts shown beside it. */
  datatype CourseRow = CourseRow(course: Course, totalEnrollments: nat, internalEnrollments: nat, externalEnrollments: nat)

  /** A `course_enrollments` row. */
  datatype Enrollment = Enrollment(course_id: string, user_id: string)

  /** A `profiles` row as the counting query selects it. */
  datatype ProfileRow = ProfileRow(id: string, user_type: Option<string>, role: Option<string>)

  datatype UserInfo = UserInfo(user_type: Option<string>, role: Option<string>)

  /** `profiles[k]` is the last row carrying `id`. */
  predicate LastRowOf(profiles: seq<ProfileRow>, id: string, k: int)
  {
    0 <= k < |profiles| && profiles[k].id == id && forall j :: k < j < |profiles| ==> profiles[j].id != id
  }

  /** The `userMap` filled by `profileRows.forEach(p => userMap.set(p.id, ...))`: the last row per id wins. */
  function UserIndex(profiles: seq<ProfileRow>): (m: map<string, UserInfo>)
    ensures forall id :: id in m <==> exists p :: p in profiles && p.id == id
    ensures forall id :: id in m ==>
      exists k :: LastRowOf(profiles, id, k) && m[id] == UserInfo(profiles[k].user_type, profiles[k].role)
    decreases |profiles|
  {
    if profiles == [] then map[]
    else
      var init, p := profiles[..|profiles| - 1], profiles[|profiles| - 1];
      assert forall q :: q in init ==> q in profiles;
      assert profiles == init + [p];
      var m := UserIndex(init)[p.id := UserInfo(p.user_type, p.role)];
      assert LastRowOf(profiles, p.id, |profiles| - 1);
      assert forall id, k :: id != p.id && LastRowOf(init, id, k) ==> LastRowOf(profiles, id, k);
      m
  }

  /** `userMap.get(enr.user_id)?.role === "admin"`. */
  predicate IsAdminEnrollment(users: map<string, UserInfo>, e: Enrollment)
  {
    e.user_id in users && users[e.user_id].role == Some(AdminRole)
  }

  predicate HasType(users: map<string, UserInfo>, e: Enrollment, t: string)
  {
    e.user_id in users && users[e.user_id].user_type == Some(t)
  }

  /** An enrollment counted in the total of `courseId`. */
  function CountedFor(users: map<string, UserInfo>, courseId: string): Enrollment -> bool
  {
    (e: Enrollment) => e.course_id == courseId && !IsAdminEnrollment(users, e)
  }

  /** An enrollment counted among the internal (or external) learners of `courseId`. */
  function CountedWithType(users: map<string, UserInfo>, courseId: string, t: string): Enrollment -> bool
  {
    (e: Enrollment) => e.course_id == courseId && !IsAdminEnrollment(users, e) && HasType(users, e, t)
  }

  function TotalFor(enrollments: seq<Enrollment>, users: map<string, UserInfo>, courseId: string): nat
  {
    Count(enrollments, CountedFor(users, courseId))
  }

  function TypedFor(enrollments: seq<Enrollment>, users: map<string, UserInfo>, courseId: string, t: string): nat
  {
    Count(enrollments, CountedWithType(users, courseId, t))
  }

  /** `map.get(key) || 0`. */
  function MapGet(m: map<string, nat>, key: string): nat
  {
    if key in m then m[key] else 0
  }

  /** Internal and external learners of a course never outnumber its counted enrollments. */
  lemma TypedCountsBounded(enrollments: seq<Enrollment>, users: map<string, UserInfo>, courseId: string)
    ensures TypedFor(enrollments, users, courseId, "internal") + TypedFor(enrollments, users, courseId, "external")
            <= TotalFor(enrollments, users, courseId)
  {
    CountDisjointBound(enrollments, CountedWithType(users, courseId, "internal"),
      CountedWithType(users, courseId, "external"), CountedFor(users, courseId));
  }

  lemma TypedCountsBoundedAll(enrollments: seq<Enrollment>, users: map<string, UserInfo>)
    ensures forall c :: TypedFor(enrollments, users, c, "internal") + TypedFor(enrollments, users, c, "external")
                        <= TotalFor(enrollments, users, c)
  {
    forall c ensures TypedFor(enrollments, users, c, "internal") + TypedFor(enrollments, users, c, "external")
                     <= TotalFor(enrollments, users, c) {
      TypedCountsBounded(enrollments, users, c);
    }
  }

  /** Enrollments of admins are never counted, whatever their course. */
  lemma AdminEnrollmentsIgnored(enrollments: seq<Enrollment>, users: map<string, UserInfo>, e: Enrollment, courseId: string)
    requires IsAdminEnrollment(users, e)
    ensures TotalFor(enrollments + [e], users, courseId) == TotalFor(enrollments, users, courseId)
  {
    CountSnoc(enrollments, e, CountedFor(users, courseId));
  }

  /** A course nobody enrolled in counts zero. */
  lemma NoEnrollmentsNoCount(enrollments: seq<Enrollment>, users: map<string, UserInfo>, courseId: string)
    requires forall e :: e in enrollments ==> e.course_id != courseId
    ensures TotalFor(enrollments, users, courseId) == 0
  {
    CountNone(enrollments, CountedFor(users, courseId));
  }

  /** One enrollment more: the total of its course grows by one unless its learner is an admin. */
  lemma TotalStep(s: seq<Enrollment>, e: Enrollment, users: map<string, UserInfo>, m: map<string, nat>, m': map<string, nat>)
    requires forall c :: MapGet(m, c) == TotalFor(s, users, c)
    requires m' == if IsAdminEnrollment(users, e) then m else m[e.course_id := MapGet(m, e.course_id) + 1]
    ensures forall c :: MapGet(m', c) == TotalFor(s + [e], users, c)
  {
    forall c ensures TotalFor(s + [e], users, c) == TotalFor(s, users, c) + (if CountedFor(users, c)(e) then 1 else 0) {
      CountSnoc(s, e, CountedFor(users, c));
    }
  }

  /** One enrollment more: the count of learners of type `t` in its course grows by one when it is such a learner's. */
  lemma TypedStep(s: seq<Enrollment>, e: Enrollment, users: map<string, UserInfo>, t: string,
                  m: map<string, nat>, m': map<string, nat>)
    requires forall c :: MapGet(m, c) == TypedFor(s, users, c, t)
    requires m' == if !IsAdminEnrollment(users, e) && HasType(users, e, t) then m[e.course_id := MapGet(m, e.course_id) + 1] else m
    ensures forall c :: MapGet(m', c) == TypedFor(s + [e], users, c, t)
  {
    forall c ensures TypedFor(s + [e], users, c, t) == TypedFor(s, users, c, t) + (if CountedWithType(users, c, t)(e) then 1 else 0) {
      CountSnoc(s, e, CountedWithType(users, c, t));
    }
  }

  /**
   * The `enrollments.forEach` loop that fills `totalMap`, `internalMap` and
   * `externalMap`: each non-admin enrollment adds one to its course's total,
   * and one to the internal or external count by its learner's type.
   */
  method CountEnrollments(enrollments: seq<Enrollment>, users: map<string, UserInfo>)
    returns (totalMap: map<string, nat>, internalMap: map<string, nat>, externalMap: map<string, nat>)
    ensures forall c :: MapGet(totalMap, c) == TotalFor(enrollments, users, c)
    ensures forall c :: MapGet(internalMap, c) == TypedFor(enrollments, users, c, "internal")
    ensures forall c :: MapGet(externalMap, c) == TypedFor(enrollments, users, c, "external")
  {
    totalMap, internalMap, externalMap := map[], map[], map[];
    for i := 0 to |enrollments|
      invariant forall c :: MapGet(totalMap, c) == TotalFor(enrollments[..i], users, c)
      invariant forall c :: MapGet(internalMap, c) == TypedFor(enrollments[..i], users, c, "internal")
      invariant forall c :: MapGet(externalMap, c) == TypedFor(enrollments[..i], users, c, "external")
    {
      var enr := enrollments[i];
      ghost var total0, internal0, external0 := totalMap, internalMap, externalMap;
      // an admin's enrollment is skipped (`return` inside the `forEach` callback)
      if !IsAdminEnrollment(users, enr) {
        totalMap := totalMap[enr.course_id := MapGet(totalMap, enr.course_id) + 1];
        if HasType(users, enr, "internal") {
          internalMap := internalMap[enr.course_id := MapGet(internalMap, enr.course_id) + 1];
        } else if HasType(users, enr, "external") {
          externalMap := externalMap[enr.course_id := MapGet(externalMap, enr.course_id) + 1];
        }
      }
      assert enrollments[..i + 1] == enrollments[..i] + [enr];
      TotalStep(enrollments[..i], enr, users, total0, totalMap);
      TypedStep(enrollments[..i], enr, users, "internal", internal0, internalMap);
      TypedStep(enrollments[..i], enr, users, "external", external0, externalMap);
    }
    assert enrollments[..|enrollments|] == enrollments;
  }

  /** `coursesRaw.map(c => ({ ...c, totalEnrollments: ..., ... }))` with the counted enrollments. */
  function WithCounts(courses: seq<Course>, enrollments: seq<Enrollment>, users: map<string, UserInfo>): (rows: seq<CourseRow>)
    ensures |rows| == |courses|
    ensures forall i :: 0 <= i < |rows| ==>
      rows[i].course == courses[i]
      && rows[i].totalEnrollments == TotalFor(enrollments, users, courses[i].id)
      && rows[i].internalEnrollments == TypedFor(enrollments, users, courses[i].id, "internal")
      && rows[i].externalEnrollments == TypedFor(enrollments, users, courses[i].id, "external")
      && rows[i].internalEnrollments + rows[i].externalEnrollments <= rows[i].totalEnrollments
  {
    TypedCountsBoundedAll(enrollments, users);
    seq(|courses|, i requires 0 <= i < |courses| =>
      CourseRow(courses[i], TotalFor(enrollments, users, courses[i].id),
        TypedFor(enrollments, users, courses[i].id, "internal"),
        TypedFor(enrollments, users, courses[i].id, "external")))
  }

  /** The counting loops of `loadCourses`, then `coursesRaw.map(...)` reading the three maps. */
  method CountedRows(coursesRaw: seq<Course>, enrollments: seq<Enrollment>, users: map<string, UserInfo>)
    returns (rows: seq<CourseRow>)
    ensures rows == WithCounts(coursesRaw, enrollments, users)
  {
    var totalMap, internalMap, externalMap := CountEnrollments(enrollments, users);
    rows := [];
    for i := 0 to |coursesRaw|
      invariant rows == WithCounts(coursesRaw[..i], enrollments, users)
    {
      var c := coursesRaw[i];
      rows := rows + [CourseRow(c, MapGet(totalMap, c.id), MapGet(internalMap, c.id), MapGet(externalMap, c.id))];
    }
    assert coursesRaw[..|coursesRaw|] == coursesRaw;
  }

  /** The rows of the no-enrollments branch: every count is 0. */
  function ZeroCounts(courses: seq<Course>): (rows: seq<CourseRow>)
    ensures |rows| == |courses|
    ensures forall i :: 0 <= i < |rows| ==> rows[i].course == courses[i]
  {
    seq(|courses|, i requires 0 <= i < |courses| => CourseRow(courses[i], 0, 0, 0))
  }

  /** The early branch for an empty enrollment table agrees with the general counting. */
  lemma ZeroCountsAgree(courses: seq<Course>, users: map<string, UserInfo>)
    ensures ZeroCounts(courses) == WithCounts(courses, [], users)
  {
  }

  // ---------- selection after a reload ----------

  /** The form shown for an existing course: `description ?? ""`, `audience ?? "both"`. */
  function FormFor(c: Course): (f: CourseForm)
    ensures f.title == c.title && f.slug == c.slug
    ensures f.description == (if c.description.Some? then c.description.value else "")
    ensures c.audience.None? ==> f.audience == "both"
    ensures c.audience.Some? ==> f.audience == c.audience.value
  {
    CourseForm(c.title, c.slug,
      if c.description.Some? then c.description.value else "",
      if c.audience.Some? then c.audience.value else "both")
  }

  /** `withCounts.find(c => c.id === id)`. */
  function FindCourse(rows: seq<CourseRow>, id: string): (r: Option<CourseRow>)
    ensures r.None? <==> forall k :: 0 <= k < |rows| ==> rows[k].course.id != id
    ensures r.Some? ==> r.value.course.id == id && r.value in rows
    ensures r.Some? ==>
      exists k :: 0 <= k < |rows| && rows[k] == r.value && forall j :: 0 <= j < k ==> rows[j].course.id != id
    decreases |rows|
  {
    if rows == [] then None
    else if rows[0].course.id == id then Some(rows[0])
    else
      var r := FindCourse(rows[1..], id);
      assert forall k :: 1 <= k < |rows| ==> rows[k] == rows[1..][k - 1];
      if r.Some? then
        var k :| 0 <= k < |rows[1..]| && rows[1..][k] == r.value && forall j :: 0 <= j < k ==> rows[1..][j].course.id != id;
        assert rows[k + 1] == r.value && forall j :: 0 <= j < k + 1 ==> rows[j].course.id != id;
        r
      else r
  }

  /**
   * The selection and form after courses were reloaded into the non-empty
   * `rows`; `withEnrollments` tells which of the two branches ran.
   */
  function ReloadSelection(selected: Option<string>, form: CourseForm, rows: seq<CourseRow>, withEnrollments: bool)
    : (r: (Option<string>, CourseForm))
    requires rows != []
    ensures !Truthy(selected) ==> r == (Some(rows[0].course.id), FormFor(rows[0].course))
    ensures selected == Some(NewCourse) ==> r == (selected, form)
    ensures SelectsCourse(selected) && !withEnrollments ==> r == (selected, form)
    ensures SelectsCourse(selected) && withEnrollments ==>
      match FindCourse(rows, selected.value)
      case Some(row) => r == (selected, FormFor(row.course))
      case None => r == (Some(NewCourse), BlankForm)
  {
    if !Truthy(selected) then (Some(rows[0].course.id), FormFor(rows[0].course))
    else if !withEnrollments || selected.value == NewCourse then (selected, form)
    else
      match FindCourse(rows, selected.value)
      case Some(row) => (selected, FormFor(row.course))
      case None => (Some(NewCourse), BlankForm)
  }

  /** A selection that is not `"new"` names a listed course. */
  predicate SelectionListed(selected: Option<string>, rows: seq<CourseRow>)
  {
    selected == Some(NewCourse) || exists k :: 0 <= k < |rows| && selected == Some(rows[k].course.id)
  }

  /**
   * After a reload with enrollments, the selection is `"new"` or names a
   * listed course, and the form holds that course's fields unless `"new"`
   * was selected before.
   */
  lemma ReloadSelectsListedCourse(selected: Option<string>, form: CourseForm, rows: seq<CourseRow>)
    requires rows != []
    ensures var r := ReloadSelection(selected, form, rows, true);
      SelectionListed(r.0, rows)
      && (r.0 != selected || SelectsCourse(selected) ==>
            r.1 == BlankForm || exists k :: 0 <= k < |rows| && r.0 == Some(rows[k].course.id) && r.1 == FormFor(rows[k].course))
  {
    var r := ReloadSelection(selected, form, rows, true);
    if !Truthy(selected) {
      assert r.0 == Some(rows[0].course.id);
    } else if SelectsCourse(selected) {
      var found := FindCourse(rows, selected.value);
      if found.Some? {
        var k :| 0 <= k < |rows| && rows[k] == found.value;
        assert r.0 == Some(rows[k].course.id);
      }
    }
  }

  /**
   * The branch for an empty enrollment table keeps a selected id even when
   * that course is no longer listed; the branch with enrollments falls back
   * to `"new"` instead.
   */
  lemma ReloadWithoutEnrollmentsKeepsVanished(id: string, form: CourseForm, rows: seq<CourseRow>)
    requires rows != [] && id != "" && id != NewCourse
    requires forall k :: 0 <= k < |rows| ==> rows[k].course.id != id
    ensures ReloadSelection(Some(id), form, rows, false) == (Some(id), form)
    ensures !SelectionListed(Some(id), rows)
    ensures ReloadSelection(Some(id), form, rows, true) == (Some(NewCourse), BlankForm)
  {
  }

  // ---------- assigning a course to a learner ----------

  /** A non-admin profile offered in the assignment dropdown. */
  datatype Learner = Learner(id: string, full_name: Option<string>, email: Option<string>,
                             user_type: Option<string>, role: Option<string>)

  /** `learners.find(l => l.id === id)`. */
  function FindLearner(learners: seq<Learner>, id: string): (r: Option<Learner>)
    ensures r.None? <==> forall k :: 0 <= k < |learners| ==> learners[k].id != id
    ensures r.Some? ==> r.value.id == id && r.value in learners
    ensures r.Some? ==>
      exists k :: 0 <= k < |learners| && learners[k] == r.value && forall j :: 0 <= j < k ==> learners[j].id != id
    decreases |learners|
  {
    if learners == [] then None
    else if learners[0].id == id then Some(learners[0])
    else
      var r := FindLearner(learners[1..], id);
      assert forall k :: 1 <= k < |learners| ==> learners[k] == learners[1..][k - 1];
      if r.Some? then
        var k :| 0 <= k < |learners[1..]| && learners[1..][k] == r.value
                 && forall j :: 0 <= j < k ==> learners[1..][j].id != id;
        assert learners[k + 1] == r.value && forall j :: 0 <= j < k + 1 ==> learners[j].id != id;
        r
      else r
  }

  /** `profile.full_name || profile.email || fallback`. */
  function LearnerName(l: Learner, fallback: string): string
  {
    OrElse(l.full_name, OrElse(l.email, fallback))
  }

  /** The audience rules: internal-only courses refuse external learners and vice versa. */
  predicate AudienceAllows(audience: Option<string>, userType: Option<string>)
  {
    !(audience == Some("internal") && userType == Some("external"))
    && !(audience == Some("external") && userType == Some("internal"))
  }

  datatype AssignOutcome =
    | Refused(message: string)
    | Assign(userId: string, courseId: string, successMessage: string)

  /**
   * The checks of `handleAssignSubmit`, in order, once the chosen course and
   * learner have been looked up; `alreadyEnrolled` is the answer of the
   * existing-enrollment query.
   */
  function AssignChecks(assignUserId: string, courseId: string, course: Option<CourseRow>,
                        learner: Option<Learner>, alreadyEnrolled: bool): (r: AssignOutcome)
    ensures assignUserId == "" ==> r == Refused("Please select a learner from the list.")
    ensures r.Assign? <==>
      assignUserId != "" && course.Some? && learner.Some?
      && learner.value.role != Some(AdminRole)
      && AudienceAllows(course.value.course.audience, learner.value.user_type)
      && !alreadyEnrolled
    ensures r.Assign? ==> r.userId == learner.value.id && r.courseId == courseId
  {
    if assignUserId == "" then Refused("Please select a learner from the list.")
    else if course.None? then Refused("Could not find that course. Please refresh and try again.")
    else if learner.None? then Refused("That learner is no longer available. Please refresh the page.")
    else if learner.value.role == Some(AdminRole) then
      Refused("This account is an admin. Admins don" + Apostrophe + "t need course assignments.")
    else if course.value.course.audience == Some("internal") && learner.value.user_type == Some("external") then
      Refused("This course is for internal employees only and can" + Apostrophe + "t be assigned to an external learner.")
    else if course.value.course.audience == Some("external") && learner.value.user_type == Some("internal") then
      Refused("This course is targeted to external learners. If you" + Apostrophe + "d like internal learners to see it, change the audience to 'both'.")
    else if alreadyEnrolled then
      Refused(LearnerName(learner.value, "This learner") + " is already enrolled in this course.")
    else
      Assign(learner.value.id, courseId, "Course assigned to " + LearnerName(learner.value, "the selected learner") + " successfully.")
  }

  /**
   * `handleAssignSubmit`: an assignment goes ahead exactly when a listed
   * learner is chosen for a listed course, the learner is not an admin,
   * the audience rules allow it and the learner is not enrolled yet; the
   * inserted enrollment is for the chosen learner and course.
   */
  function AssignDecision(assignUserId: string, courseId: string, courses: seq<CourseRow>,
                          learners: seq<Learner>, alreadyEnrolled: bool): (r: AssignOutcome)
    ensures r.Assign? <==>
      assignUserId != ""
      && (exists k :: 0 <= k < |courses| && courses[k].course.id == courseId)
      && (exists k :: 0 <= k < |learners| && learners[k].id == assignUserId)
      && FindLearner(learners, assignUserId).value.role != Some(AdminRole)
      && AudienceAllows(FindCourse(courses, courseId).value.course.audience,
                        FindLearner(learners, assignUserId).value.user_type)
      && !alreadyEnrolled
    ensures r.Assign? ==> r.userId == assignUserId && r.courseId == courseId
  {
    AssignChecks(assignUserId, courseId, FindCourse(courses, courseId), FindLearner(learners, assignUserId), alreadyEnrolled)
  }

  const AssignFailedText := "Something went wrong assigning this course."

  /** The message `handleAssignSubmit` leaves, and whether it reloads the courses and closes the dialog. */
  datatype AssignEffect = AssignEffect(message: string, reloadAndClose: bool)

  /**
   * The end of `handleAssignSubmit`: a refusal shows its message; an
   * assignment whose insert fails shows `err.message ?? fallback` and keeps
   * the dialog open; one whose insert succeeds shows the success message,
   * reloads the courses and closes the dialog.
   */
  function AssignSubmit(outcome: AssignOutcome, insertFailure: Option<Failure>): (r: AssignEffect)
    ensures r.reloadAndClose <==> outcome.Assign? && insertFailure.None?
    ensures outcome.Refused? ==> r.message == outcome.message
    ensures outcome.Assign? && insertFailure.Some? ==> r.message == FailureText(insertFailure.value, AssignFailedText)
    ensures r.reloadAndClose ==> r.message == outcome.successMessage
  {
    match outcome
    case Refused(message) => AssignEffect(message, false)
    case Assign(_, _, successMessage) =>
      if insertFailure.Some? then AssignEffect(FailureText(insertFailure.value, AssignFailedText), false)
      else AssignEffect(successMessage, true)
  }

  /** A learner without a type, or a course for both audiences, passes the audience rules. */
  lemma AudienceAllowsUntypedOrBoth(audience: Option<string>, userType: Option<string>)
    requires userType.None? || audience == Some("both")
    ensures AudienceAllows(audience, userType)
  {
  }

  // ---------- suggested actions ----------

  datatype SuggestedAction = Outdated | PopularExternal | LowCompletion

  /** `prev === action ? null : action`. */
  function ToggleSuggested(prev: Option<SuggestedAction>, action: SuggestedAction): (r: Option<SuggestedAction>)
    ensures r.None? <==> prev == Some(action)
    ensures r.Some? ==> r.value == action
  {
    if prev == Some(action) then None else Some(action)
  }

  // ---------- the page ----------

  /** What a deletion does to the database, in order. */
  datatype DeleteEffect = DeleteEnrollmentsOf(courseId: string) | DeleteCourse(courseId: string)

  /** A failed request: `err.message`, which may be missing. */
  datatype Failure = Failure(message: Option<string>)

  /** `err.message ?? fallback`. */
  function FailureText(f: Failure, fallback: string): string
  {
    if f.message.Some? then f.message.value else fallback
  }

  /** What a query or write answered: its data, or the failure it threw. */
  datatype Answer<T> = Answered(value: T) | Failed(failure: Failure)

  const LoadFailedText := "Failed to load courses & enrollments."
  const SaveFailedText := "Something went wrong saving this course."

  /** The page's state that the modelled handlers read and write. */
  class AdminCoursesPage {
    var courses: seq<CourseRow>
    var error: Option<string>
    var selected: Option<string>
    var form: CourseForm
    var courseMessage: Option<string>
    var activeSuggested: Option<SuggestedAction>

    constructor ()
      ensures courses == [] && error == None && selected == None && form == BlankForm
      ensures courseMessage == None && activeSuggested == None
    {
      courses := [];
      error := None;
      selected := None;
      form := BlankForm;
      courseMessage := None;
      activeSuggested := None;
    }

    /**
     * `loadCourses`: the three queries' answers are the parameters; a failed
     * query ends in the catch, which shows its message (or the page's
     * fallback text when it has none) and empties the list.
     */
    method LoadCourses(courseRows: Answer<seq<Course>>, enrollmentRows: Answer<seq<Enrollment>>,
                       profileRows: Answer<seq<ProfileRow>>)
      modifies this
      ensures courseMessage == old(courseMessage) && activeSuggested == old(activeSuggested)
      ensures courseRows.Failed? ==>
        error == Some(FailureText(courseRows.failure, LoadFailedText)) && courses == [] && selected == old(selected) && form == old(form)
      ensures courseRows.Answered? && courseRows.value == [] ==>
        error == None && courses == [] && selected == Some(NewCourse) && form == BlankForm
      ensures courseRows.Answered? && courseRows.value != [] && enrollmentRows.Failed? ==>
        error == Some(FailureText(enrollmentRows.failure, LoadFailedText)) && courses == [] && selected == old(selected) && form == old(form)
      ensures courseRows.Answered? && courseRows.value != [] && enrollmentRows.Answered? && enrollmentRows.value == [] ==>
        error == None && courses == ZeroCounts(courseRows.value)
        && (selected, form) == ReloadSelection(old(selected), old(form), courses, false)
      ensures courseRows.Answered? && courseRows.value != [] && enrollmentRows.Answered? && enrollmentRows.value != []
              && profileRows.Failed? ==>
        error == Some(FailureText(profileRows.failure, LoadFailedText)) && courses == [] && selected == old(selected) && form == old(form)
      ensures courseRows.Answered? && courseRows.value != [] && enrollmentRows.Answered? && enrollmentRows.value != []
              && profileRows.Answered? ==>
        error == None
        && courses == WithCounts(courseRows.value, enrollmentRows.value, UserIndex(profileRows.value))
        && (selected, form) == ReloadSelection(old(selected), old(form), courses, true)
    {
      error := None;
      if courseRows.Failed? {
        error, courses := Some(FailureText(courseRows.failure, LoadFailedText)), [];
        return;
      }
      var coursesRaw := courseRows.value;
      if coursesRaw == [] {
        courses, selected, form := [], Some(NewCourse), BlankForm;
        return;
      }
      if enrollmentRows.Failed? {
        error, courses := Some(FailureText(enrollmentRows.failure, LoadFailedText)), [];
        return;
      }
      var enrollments := enrollmentRows.value;
      if enrollments == [] {
        courses := ZeroCounts(coursesRaw);
        selected, form := ReloadSelection(selected, form, courses, false).0, ReloadSelection(selected, form, courses, false).1;
        return;
      }
      if profileRows.Failed? {
        error, courses := Some(FailureText(profileRows.failure, LoadFailedText)), [];
        return;
      }
      courses := CountedRows(coursesRaw, enrollments, UserIndex(profileRows.value));
      var next := ReloadSelection(selected, form, courses, true);
      selected, form := next.0, next.1;
    }

    /** `handleSuggestedClick`: the active action is switched off, any other one switched on. */
    method HandleSuggestedClick(action: SuggestedAction)
      modifies this
      ensures activeSuggested == ToggleSuggested(old(activeSuggested), action)
      ensures courses == old(courses) && selected == old(selected) && form == old(form)
      ensures error == old(error) && courseMessage == old(courseMessage)
    {
      activeSuggested := ToggleSuggested(activeSuggested, action);
    }

    /**
     * `handleDeleteCourse` up to the reload: the deletes issued, in order,
     * and whether the list is reloaded afterwards. The failure of the
     * enrollment delete is only logged.
     */
    method HandleDeleteCourse(confirmed: bool, deleteFailure: Option<Failure>)
      returns (effects: seq<DeleteEffect>, reload: bool)
      modifies this
      ensures courses == old(courses) && error == old(error) && activeSuggested == old(activeSuggested)
      ensures !SelectsCourse(old(selected)) ==>
        effects == [] && !reload && courseMessage == Some("Please select a course to delete.")
        && selected == old(selected) && form == old(form)
      ensures SelectsCourse(old(selected)) && !confirmed ==>
        effects == [] && !reload && courseMessage == old(courseMessage)
        && selected == old(selected) && form == old(form)
      ensures SelectsCourse(old(selected)) && confirmed ==>
        effects == [DeleteEnrollmentsOf(old(selected).value), DeleteCourse(old(selected).value)]
      ensures SelectsCourse(old(selected)) && confirmed && deleteFailure.Some? ==>
        !reload && selected == old(selected) && form == old(form)
        && courseMessage == Some(FailureText(deleteFailure.value, "Something went wrong deleting this course."))
      ensures SelectsCourse(old(selected)) && confirmed && deleteFailure.None? ==>
        reload && selected == Some(NewCourse) && form == BlankForm
        && courseMessage == Some("Course deleted successfully.")
    {
      effects, reload := [], false;
      if !SelectsCourse(selected) {
        courseMessage := Some("Please select a course to delete.");
        return;
      }
      if !confirmed {
        return;
      }
      courseMessage := None;
      var id := selected.value;
      effects := [DeleteEnrollmentsOf(id), DeleteCourse(id)];
      if deleteFailure.Some? {
        courseMessage := Some(FailureText(deleteFailure.value, "Something went wrong deleting this course."));
        return;
      }
      courseMessage := Some("Course deleted successfully.");
      selected, form := Some(NewCourse), BlankForm;
      reload := true;
    }

    /**
     * `handleCourseSave` up to the reload: the write issued (if any), and the
     * message and selection afterwards. `outcome` is the database's answer:
     * the id of a created row (which may be missing), or the failure.
     */
    method HandleCourseSave(outcome: Answer<Option<string>>) returns (request: Option<SaveRequest>, reload: bool)
      modifies this
      ensures courses == old(courses) && error == old(error) && form == old(form) && activeSuggested == old(activeSuggested)
      ensures SaveRequestFor(form, old(selected)).Err? ==>
        request.None? && !reload && selected == old(selected)
        && courseMessage == Some("Please enter a course title.")
      ensures SaveRequestFor(form, old(selected)).Ok? ==>
        request == Some(SaveRequestFor(form, old(selected)).value)
      ensures request.Some? && outcome.Failed? ==>
        !reload && selected == old(selected) && courseMessage == Some(FailureText(outcome.failure, SaveFailedText))
      ensures request.Some? && outcome.Answered? && request.value.Create? ==>
        reload && courseMessage == Some("New course created successfully.")
        && selected == (if Truthy(outcome.value) then outcome.value else old(selected))
      ensures request.Some? && outcome.Answered? && request.value.Update? ==>
        reload && courseMessage == Some("Course details updated successfully.") && selected == old(selected)
    {
      courseMessage := None;
      request, reload := None, false;
      var r := SaveRequestFor(form, selected);
      if r.Err? {
        assert Trim(form.title) == "";
        courseMessage := Some("Please enter a course title.");
        return;
      }
      request := Some(r.value);
      if outcome.Failed? {
        courseMessage := Some(FailureText(outcome.failure, SaveFailedText));
        return;
      }
      if r.value.Create? {
        courseMessage := Some("New course created successfully.");
        if Truthy(outcome.value) {
          selected := outcome.value;
        }
      } else {
        courseMessage := Some("Course details updated successfully.");
      }
      reload := true;
    }
  }
}
