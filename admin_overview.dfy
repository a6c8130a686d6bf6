/**
 * The admin overview page (`app/admin/page.tsx`): the headline counts and
 * the internal/external percentages, the per-learner enrollment and
 * completion counts, the recent completions of non-admin learners, and the
 * learner-type filter of the table.
 */
module AdminOverview {
  import opened Base
  import opened Text
  import opened Seqs
  import opened Numbers

  /** A `profiles` row. */
  datatype Profile = Profile(id: string, full_name: Option<string>, email: Option<string>,
                             user_type: Option<string>, role: Option<string>)

  /** A `course_enrollments` row, of which the page reads the learner. */
  datatype EnrollmentRow = EnrollmentRow(user_id: string)

  /** A `lesson_progress` row as the recent-activity query returns it. */
  datatype LessonRow = LessonRow(id: string, user_id: string, completed_at: Option<string>)

  /** A row of the learner table. */
  datatype UserAnalytics = UserAnalytics(id: string, full_name: Option<string>, email: Option<string>,
                                         user_type: Option<string>, courses_enrolled: nat, lessons_completed: nat)

  /** A row of the recent-completions list. */
  datatype RecentCompletion = RecentCompletion(id: string, user_name: string, user_type: Option<string>,
                                               completed_at: Option<string>)

  /** The number of lesson rows the recent-activity query keeps. */
  const RecentLimit: nat := 25

  /**
   * `.order("completed_at", { ascending: false }).limit(25)` applied to rows
   * already in that order: the first 25 of them.
   */
  function LatestRows(newestFirst: seq<LessonRow>): (r: seq<LessonRow>)
    ensures |r| <= RecentLimit && |r| <= |newestFirst|
    ensures r == newestFirst[..|r|]
    ensures |newestFirst| <= RecentLimit ==> r == newestFirst
  {
    if |newestFirst| <= RecentLimit then newestFirst else newestFirst[..RecentLimit]
  }

  // ---------- headline counts ----------

  /** `count || 0`: a count the server did not return reads as zero. */
  function CountOrZero(count: Option<nat>): nat
  {
    if count.Some? then count.value else 0
  }

  /** `totalUsers === 0 ? 0 : Math.round((part / totalUsers) * 100)`. */
  function SharePercent(part: nat, totalUsers: nat): (p: nat)
    ensures totalUsers == 0 ==> p == 0
    ensures totalUsers > 0 ==> 2 * totalUsers * p <= 200 * part + totalUsers < 2 * totalUsers * (p + 1)
  {
    if totalUsers == 0 then 0 else RoundPercent(part, totalUsers)
  }

  /**
   * When internal and external learners together are at most all learners,
   * each share is at most 100 and the two rounded shares add up to at most 101.
   */
  lemma SharesBounded(internal: nat, external: nat, totalUsers: nat)
    requires internal + external <= totalUsers
    ensures SharePercent(internal, totalUsers) <= 100 && SharePercent(external, totalUsers) <= 100
    ensures SharePercent(internal, totalUsers) + SharePercent(external, totalUsers) <= 101
  {
    if totalUsers > 0 {
      var a, b := SharePercent(internal, totalUsers), SharePercent(external, totalUsers);
      RoundPercentRange(internal, totalUsers);
      RoundPercentRange(external, totalUsers);
      assert 2 * totalUsers * (a + b) == 2 * totalUsers * a + 2 * totalUsers * b;
      assert 200 * internal + 200 * external <= 200 * totalUsers;
      assert 2 * totalUsers * (a + b) <= 2 * totalUsers * 101;
      MulCancel(2 * totalUsers, a + b, 101);
    }
  }

  // ---------- per-learner counts ----------

  function KeyIs<T>(key: T -> string, u: string): T -> bool
  {
    (x: T) => key(x) == u
  }

  /** The number of rows that belong to learner `u`. */
  function RowsOf<T>(rows: seq<T>, key: T -> string, u: string): nat
  {
    Count(rows, KeyIs(key, u))
  }

  /** `m.get(u) || 0`. */
  function MapGet(m: map<string, nat>, u: string): nat
  {
    if u in m then m[u] else 0
  }

  lemma TallyStep<T>(rows: seq<T>, i: nat, key: T -> string, m: map<string, nat>)
    requires i < |rows|
    requires forall u :: MapGet(m, u) == RowsOf(rows[..i], key, u)
    ensures var m' := m[key(rows[i]) := MapGet(m, key(rows[i])) + 1];
      forall u :: MapGet(m', u) == RowsOf(rows[..i + 1], key, u)
  {
    assert rows[..i + 1] == rows[..i] + [rows[i]];
    var k := key(rows[i]);
    var m' := m[k := MapGet(m, k) + 1];
    forall u ensures MapGet(m', u) == RowsOf(rows[..i + 1], key, u) {
      CountSnoc(rows[..i], rows[i], KeyIs(key, u));
      assert KeyIs(key, u)(rows[i]) <==> k == u;
      assert RowsOf(rows[..i + 1], key, u) == RowsOf(rows[..i], key, u) + (if k == u then 1 else 0);
      assert MapGet(m', u) == MapGet(m, u) + (if k == u then 1 else 0);
    }
  }

  /**
   * The `forEach` loops that fill `enrollMap` and `completeMap`: every
   * learner's entry is the number of rows that are theirs.
   */
  method TallyByUser<T>(rows: seq<T>, key: T -> string) returns (m: map<string, nat>)
    ensures forall u :: MapGet(m, u) == RowsOf(rows, key, u)
  {
    m := map[];
    for i := 0 to |rows|
      invariant forall u :: MapGet(m, u) == RowsOf(rows[..i], key, u)
    {
      TallyStep(rows, i, key, m);
      var k := key(rows[i]);
      m := m[k := MapGet(m, k) + 1];
    }
    assert rows[..|rows|] == rows;
  }

  function EnrollmentUser(e: EnrollmentRow): string { e.user_id }

  function LessonUser(l: LessonRow): string { l.user_id }

  /**
   * `profileRows.map(...)` into `userAnalytics`: one row per profile, in
   * order, with the profile's fields, the number of its enrollments and the
   * number of its rows among the fetched lesson rows.
   */
  method BuildUserAnalytics(profiles: seq<Profile>, enrollments: seq<EnrollmentRow>, lessonRows: seq<LessonRow>)
    returns (users: seq<UserAnalytics>)
    ensures |users| == |profiles|
    ensures forall i :: 0 <= i < |users| ==>
      var p := profiles[i];
      users[i] == UserAnalytics(p.id, p.full_name, p.email, p.user_type,
                                RowsOf(enrollments, EnrollmentUser, p.id), RowsOf(lessonRows, LessonUser, p.id))
  {
    var enrollMap := TallyByUser(enrollments, EnrollmentUser);
    var completeMap := TallyByUser(lessonRows, LessonUser);
    users := seq(|profiles|, i requires 0 <= i < |profiles| =>
      UserAnalytics(profiles[i].id, profiles[i].full_name, profiles[i].email, profiles[i].user_type,
                    MapGet(enrollMap, profiles[i].id), MapGet(completeMap, profiles[i].id)));
  }

  /** A learner with no enrollment and no lesson row shows zero for both counts. */
  lemma NoRowsNoCounts(enrollments: seq<EnrollmentRow>, lessonRows: seq<LessonRow>, u: string)
    requires forall e :: e in enrollments ==> e.user_id != u
    requires forall l :: l in lessonRows ==> l.user_id != u
    ensures RowsOf(enrollments, EnrollmentUser, u) == 0 && RowsOf(lessonRows, LessonUser, u) == 0
  {
    forall e | e in enrollments
      ensures !KeyIs(EnrollmentUser, u)(e)
    {
      assert KeyIs(EnrollmentUser, u)(e) == (EnrollmentUser(e) == u);
    }
    CountNone(enrollments, KeyIs(EnrollmentUser, u));
    forall l | l in lessonRows
      ensures !KeyIs(LessonUser, u)(l)
    {
      assert KeyIs(LessonUser, u)(l) == (LessonUser(l) == u);
    }
    CountNone(lessonRows, KeyIs(LessonUser, u));
  }

  /** Completions are counted among the fetched rows only, so no learner shows more than 25. */
  lemma CompletionsAtMostLimit(newestFirst: seq<LessonRow>, u: string)
    ensures RowsOf(LatestRows(newestFirst), LessonUser, u) <= RecentLimit
  {
    CountMonotone(LatestRows(newestFirst), KeyIs(LessonUser, u), Always);
    CountAlways(LatestRows(newestFirst));
  }

  // ---------- recent completions ----------

  /** `profiles[k]` is the last profile row carrying `id`. */
  predicate LastProfileOf(profiles: seq<Profile>, id: string, k: int)
  {
    0 <= k < |profiles| && profiles[k].id == id && forall j :: k < j < |profiles| ==> profiles[j].id != id
  }

  /** `profileMap`: profiles by id, a later row replacing an earlier one with the same id. */
  function ProfileMap(profiles: seq<Profile>): (m: map<string, Profile>)
    ensures forall id :: id in m <==> exists p :: p in profiles && p.id == id
    ensures forall id :: id in m ==> m[id] in profiles && m[id].id == id
    ensures forall id :: id in m ==> exists k :: LastProfileOf(profiles, id, k) && m[id] == profiles[k]
    decreases |profiles|
  {
    if profiles == [] then map[]
    else
      var init, p := profiles[..|profiles| - 1], profiles[|profiles| - 1];
      assert forall q :: q in init ==> q in profiles;
      assert profiles == init + [p];
      assert LastProfileOf(profiles, p.id, |profiles| - 1);
      assert forall id, k :: id != p.id && LastProfileOf(init, id, k) ==> LastProfileOf(profiles, id, k);
      ProfileMap(init)[p.id := p]
  }

  /** `p && p.role !== "admin"` for the profile of the row's learner. */
  predicate ByListedLearner(profileMap: map<string, Profile>, l: LessonRow)
  {
    l.user_id in profileMap && profileMap[l.user_id].role != Some("admin")
  }

  function KeepCompletion(profileMap: map<string, Profile>): LessonRow -> bool
  {
    (l: LessonRow) => ByListedLearner(profileMap, l)
  }

  /** The list entry of a kept row: the learner's name or "Unknown user", and `user_type || null`. */
  function ToRecent(profileMap: map<string, Profile>, l: LessonRow): (r: RecentCompletion)
    requires l.user_id in profileMap
    ensures r.id == l.id && r.completed_at == l.completed_at
    ensures Truthy(profileMap[l.user_id].full_name) ==> r.user_name == profileMap[l.user_id].full_name.value
    ensures !Truthy(profileMap[l.user_id].full_name) ==> r.user_name == "Unknown user"
    ensures Truthy(profileMap[l.user_id].user_type) ==> r.user_type == profileMap[l.user_id].user_type
    ensures !Truthy(profileMap[l.user_id].user_type) ==> r.user_type.None?
  {
    var p := profileMap[l.user_id];
    RecentCompletion(l.id, OrElse(p.full_name, "Unknown user"), if Truthy(p.user_type) then p.user_type else None,
                     l.completed_at)
  }

  /**
   * `recent`: the rows of non-admin learners that have a profile, in their
   * fetched order, each turned into a list entry.
   */
  function RecentCompletions(lessonRows: seq<LessonRow>, profiles: seq<Profile>): (r: seq<RecentCompletion>)
    ensures |r| == |Filter(lessonRows, KeepCompletion(ProfileMap(profiles)))|
    ensures forall i :: 0 <= i < |r| ==>
      var l := Filter(lessonRows, KeepCompletion(ProfileMap(profiles)))[i];
      ByListedLearner(ProfileMap(profiles), l) && r[i] == ToRecent(ProfileMap(profiles), l)
  {
    var m := ProfileMap(profiles);
    var kept := Filter(lessonRows, KeepCompletion(m));
    assert forall i :: 0 <= i < |kept| ==> kept[i] in kept;
    seq(|kept|, i requires 0 <= i < |kept| => ToRecent(m, kept[i]))
  }

  /**
   * The profile rows are fetched without admins, so a lesson row appears in
   * the recent list exactly when its learner has a profile row.
   */
  lemma RecentKeepsProfiledLearners(lessonRows: seq<LessonRow>, profiles: seq<Profile>, l: LessonRow)
    requires forall p :: p in profiles ==> p.role != Some("admin")
    requires l in lessonRows
    ensures l in Filter(lessonRows, KeepCompletion(ProfileMap(profiles)))
            <==> exists p :: p in profiles && p.id == l.user_id
  {
  }

  /** The recent list keeps the fetched order: its ids are those of the kept rows, in order. */
  lemma RecentKeepsOrder(lessonRows: seq<LessonRow>, profiles: seq<Profile>)
    ensures var r, kept := RecentCompletions(lessonRows, profiles), Filter(lessonRows, KeepCompletion(ProfileMap(profiles)));
      IsSubsequence(kept, lessonRows) && |r| == |kept| && forall i :: 0 <= i < |r| ==> r[i].id == kept[i].id
  {
    FilterIsSubsequence(lessonRows, KeepCompletion(ProfileMap(profiles)));
  }

  // ---------- learner-type filter ----------

  /** The options of the type filter. */
  type UserFilter = f: string | f == "all" || f == "internal" || f == "external"
    witness "all"

  predicate HasUserType(u: UserAnalytics, f: string)
  {
    u.user_type == Some(f)
  }

  function TypeIs(f: string): UserAnalytics -> bool
  {
    (u: UserAnalytics) => HasUserType(u, f)
  }

  /**
   * `filteredUsers`: every learner for "all", otherwise exactly the learners
   * of that type, in order.
   */
  function FilteredUsers(users: seq<UserAnalytics>, userFilter: UserFilter): (r: seq<UserAnalytics>)
    ensures userFilter == "all" ==> r == users
    ensures userFilter != "all" ==> forall u :: u in r <==> u in users && HasUserType(u, userFilter)
    ensures IsSubsequence(r, users)
  {
    if userFilter == "all" then
      assert IsSubsequence(users, users) by {
        FilterKeepsAll(users, (u: UserAnalytics) => true);
        FilterIsSubsequence(users, (u: UserAnalytics) => true);
      }
      users
    else
      FilterIsSubsequence(users, TypeIs(userFilter));
      Filter(users, TypeIs(userFilter))
  }

  /** Learners without a type appear only under "all". */
  lemma UntypedOnlyUnderAll(users: seq<UserAnalytics>, userFilter: UserFilter, u: UserAnalytics)
    requires u.user_type.None? && u in FilteredUsers(users, userFilter)
    ensures userFilter == "all"
  {
  }

  // ---------- the page ----------

  /** The six head counts of the first batch of queries. */
  datatype HeadCounts = HeadCounts(users: Option<nat>, internal: Option<nat>, external: Option<nat>,
                                   courses: Option<nat>, enrollments: Option<nat>, completions: Option<nat>)

  /** The rows of the second batch of queries, each possibly missing. */
  datatype AnalyticsRows = AnalyticsRows(profiles: Option<seq<Profile>>, enrollments: Option<seq<EnrollmentRow>>,
                                         lessonRows: Option<seq<LessonRow>>)

  /** `x || []`. */
  function RowsOrEmpty<T>(rows: Option<seq<T>>): seq<T>
  {
    if rows.Some? then rows.value else []
  }

  /** The page's state that `loadAnalytics` writes. */
  class AdminOverviewPage {
    var totalUsers: nat
    var internalUsers: nat
    var externalUsers: nat
    var totalCourses: nat
    var totalEnrollments: nat
    var totalCompletions: nat
    var users: seq<UserAnalytics>
    var recentCompletions: seq<RecentCompletion>
    var loadingData: bool
    var error: Option<string>

    constructor ()
      ensures totalUsers == 0 && internalUsers == 0 && externalUsers == 0
      ensures totalCourses == 0 && totalEnrollments == 0 && totalCompletions == 0
      ensures users == [] && recentCompletions == [] && loadingData && error == None
    {
      totalUsers, internalUsers, externalUsers := 0, 0, 0;
      totalCourses, totalEnrollments, totalCompletions := 0, 0, 0;
      users, recentCompletions := [], [];
      loadingData, error := true, None;
    }

    /**
     * The percentages the page shows for internal and external learners:
     * 0 without learners, otherwise the share rounded half up.
     */
    function InternalPercent(): (p: nat)
      reads this
      ensures totalUsers == 0 ==> p == 0
      ensures totalUsers > 0 ==> 2 * totalUsers * p <= 200 * internalUsers + totalUsers < 2 * totalUsers * (p + 1)
    {
      SharePercent(internalUsers, totalUsers)
    }

    function ExternalPercent(): (p: nat)
      reads this
      ensures totalUsers == 0 ==> p == 0
      ensures totalUsers > 0 ==> 2 * totalUsers * p <= 200 * externalUsers + totalUsers < 2 * totalUsers * (p + 1)
    {
      SharePercent(externalUsers, totalUsers)
    }

    /**
     * `loadAnalytics`: `counts` is None when the first batch threw, `rows`
     * when the second did; either shows "Error loading admin analytics." and
     * keeps what was set before it. Missing profile rows empty the learner
     * table; the recent list is replaced only when both profiles and lesson
     * rows arrived.
     */
    method LoadAnalytics(counts: Option<HeadCounts>, rows: Option<AnalyticsRows>)
      modifies this
      ensures !loadingData
      ensures counts.None? ==>
        error == Some("Error loading admin analytics.")
        && totalUsers == old(totalUsers) && internalUsers == old(internalUsers) && externalUsers == old(externalUsers)
        && totalCourses == old(totalCourses) && totalEnrollments == old(totalEnrollments)
        && totalCompletions == old(totalCompletions)
        && users == old(users) && recentCompletions == old(recentCompletions)
      ensures counts.Some? ==>
        totalUsers == CountOrZero(counts.value.users) && internalUsers == CountOrZero(counts.value.internal)
        && externalUsers == CountOrZero(counts.value.external) && totalCourses == CountOrZero(counts.value.courses)
        && totalEnrollments == CountOrZero(counts.value.enrollments)
        && totalCompletions == CountOrZero(counts.value.completions)
      ensures counts.Some? && rows.None? ==>
        error == Some("Error loading admin analytics.")
        && users == old(users) && recentCompletions == old(recentCompletions)
      ensures counts.Some? && rows.Some? ==> error == None
      ensures counts.Some? && rows.Some? && rows.value.profiles.None? ==>
        users == [] && recentCompletions == old(recentCompletions)
      ensures counts.Some? && rows.Some? && rows.value.profiles.Some? ==>
        var ps, ls := rows.value.profiles.value, RowsOrEmpty(rows.value.lessonRows);
        |users| == |ps|
        && (forall i :: 0 <= i < |users| ==>
              users[i] == UserAnalytics(ps[i].id, ps[i].full_name, ps[i].email, ps[i].user_type,
                                        RowsOf(RowsOrEmpty(rows.value.enrollments), EnrollmentUser, ps[i].id),
                                        RowsOf(ls, LessonUser, ps[i].id)))
        && recentCompletions == (if rows.value.lessonRows.Some? then RecentCompletions(ls, ps) else old(recentCompletions))
    {
      loadingData := true;
      error := None;
      if counts.None? {
        error := Some("Error loading admin analytics.");
        loadingData := false;
        return;
      }
      var c := counts.value;
      totalUsers := CountOrZero(c.users);
      internalUsers := CountOrZero(c.internal);
      externalUsers := CountOrZero(c.external);
      totalCourses := CountOrZero(c.courses);
      totalEnrollments := CountOrZero(c.enrollments);
      totalCompletions := CountOrZero(c.completions);
      if rows.None? {
        error := Some("Error loading admin analytics.");
        loadingData := false;
        return;
      }
      var fetched := rows.value;
      if fetched.profiles.None? {
        users := [];
      } else {
        users := BuildUserAnalytics(fetched.profiles.value, RowsOrEmpty(fetched.enrollments),
                                    RowsOrEmpty(fetched.lessonRows));
      }
      if fetched.lessonRows.Some? && fetched.profiles.Some? {
        recentCompletions := RecentCompletions(fetched.lessonRows.value, fetched.profiles.value);
      }
      loadingData := false;
    }
  }
}
