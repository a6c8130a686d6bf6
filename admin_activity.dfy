/**
 * The activity page (`app/admin/activity/page.tsx`): seven day buckets of
 * lesson completions and new enrollments, the 7-day totals and the number
 * of distinct learners active in 30 days, and the reset after an
 * unexpected error.
 *
 * The seven days (their `YYYY-MM-DD` keys and display labels) come from
 * date arithmetic on the clock; here they are a parameter.
 */
module AdminActivity {
  import opened Base
  import opened Text
  import opened Seqs

  /** The number of day buckets: today and the six days before. */
  const DaysShown: nat := 7

  /** One day of the chart, as built before counting. */
  datatype Day = Day(iso: string, dayLabel: string)

  /** `{ iso, label, completions, enrollments }`. */
  datatype ActivityPoint = ActivityPoint(iso: string, dayLabel: string, completions: nat, enrollments: nat)

  datatype ActivityMetrics = ActivityMetrics(totalCompletions7d: nat, totalEnrollments7d: nat, activeLearners30d: nat)

  const ZeroMetrics: ActivityMetrics := ActivityMetrics(0, 0, 0)

  /** A `lesson_progress` row of the last seven days. */
  datatype CompletionRow = CompletionRow(user_id: string, completed_at: Option<string>, status: Option<string>)

  /** A `course_enrollments` row of the last seven days. */
  datatype EnrollmentRow = EnrollmentRow(user_id: string, created_at: Option<string>)

  /** A `lesson_progress` row of the last thirty days. */
  datatype ActiveRow = ActiveRow(user_id: string)

  /** `String(timestamp).slice(0, 10)`: the day of a timestamp. */
  function DayOf(timestamp: string): string
  {
    Prefix(timestamp, 10)
  }

  /**
   * The day a completion row is counted on: none when `completed_at` is
   * missing or empty, or when a status other than "completed" is set.
   */
  function CompletionDay(row: CompletionRow): (d: Option<string>)
    ensures d.Some? <==> Truthy(row.completed_at) && (!Truthy(row.status) || row.status.value == "completed")
    ensures d.Some? ==> d.value == DayOf(row.completed_at.value)
  {
    if !Truthy(row.completed_at) then None
    else if Truthy(row.status) && row.status.value != "completed" then None
    else Some(DayOf(row.completed_at.value))
  }

  /** The day an enrollment row is counted on: none when `created_at` is missing or empty. */
  function EnrollmentDay(row: EnrollmentRow): (d: Option<string>)
    ensures d.Some? <==> Truthy(row.created_at)
    ensures d.Some? ==> d.value == DayOf(row.created_at.value)
  {
    if !Truthy(row.created_at) then None else Some(DayOf(row.created_at.value))
  }

  /** One count per bucket key: `buckets[iso].completions` (or `.enrollments`) after both passes. */
  datatype Bucket = Bucket(completions: nat, enrollments: nat)

  /** The 7-day keys as `Record` keys. */
  predicate IsBucketKey(days: seq<Day>, k: string)
  {
    exists i :: 0 <= i < |days| && days[i].iso == k
  }

  /** The buckets after counting the completions `c` and the enrollments `e`. */
  ghost predicate BucketsHold(buckets: map<string, Bucket>, days: seq<Day>, c: seq<CompletionRow>, e: seq<EnrollmentRow>)
  {
    (forall k :: k in buckets <==> IsBucketKey(days, k))
    && (forall k :: k in buckets ==>
          buckets[k] == Bucket(CountKey(c, CompletionDay, k), CountKey(e, EnrollmentDay, k)))
  }

  /** The `for (let i = 0; i < 7; i++)` loop: one empty bucket and one zero point per day. */
  method MakeBuckets(days: seq<Day>) returns (buckets: map<string, Bucket>, built: seq<ActivityPoint>)
    requires |days| == DaysShown
    ensures BucketsHold(buckets, days, [], [])
    ensures |built| == DaysShown
    ensures forall j :: 0 <= j < DaysShown ==> built[j] == ActivityPoint(days[j].iso, days[j].dayLabel, 0, 0)
  {
    buckets, built := map[], [];
    for i := 0 to DaysShown
      invariant |built| == i
      invariant forall k :: k in buckets <==> exists j :: 0 <= j < i && days[j].iso == k
      invariant forall k :: k in buckets ==> buckets[k] == Bucket(0, 0)
      invariant forall j :: 0 <= j < i ==> built[j] == ActivityPoint(days[j].iso, days[j].dayLabel, 0, 0)
    {
      buckets := buckets[days[i].iso := Bucket(0, 0)];
      built := built + [ActivityPoint(days[i].iso, days[i].dayLabel, 0, 0)];
    }
  }

  /** One completion row more: the bucket of its day, if it has one and there is such a bucket, grows by one. */
  lemma CompletionStep(buckets: map<string, Bucket>, days: seq<Day>, c: seq<CompletionRow>, row: CompletionRow,
                       next: map<string, Bucket>)
    requires BucketsHold(buckets, days, c, [])
    requires next == if CompletionDay(row).Some? && CompletionDay(row).value in buckets
                     then buckets[CompletionDay(row).value := buckets[CompletionDay(row).value].(
                            completions := buckets[CompletionDay(row).value].completions + 1)]
                     else buckets
    ensures BucketsHold(next, days, c + [row], [])
  {
    forall k ensures CountKey(c + [row], CompletionDay, k)
                     == CountKey(c, CompletionDay, k) + (if CompletionDay(row) == Some(k) then 1 else 0) {
      CountKeySnoc(c, row, CompletionDay, k);
    }
  }

  /** `completions.forEach(...)`: a counted completion adds one to the bucket of its day, if there is one. */
  method FillCompletions(buckets0: map<string, Bucket>, days: seq<Day>, completions: seq<CompletionRow>)
    returns (buckets: map<string, Bucket>)
    requires BucketsHold(buckets0, days, [], [])
    ensures BucketsHold(buckets, days, completions, [])
  {
    buckets := buckets0;
    for j := 0 to |completions|
      invariant BucketsHold(buckets, days, completions[..j], [])
    {
      var row := completions[j];
      ghost var before := buckets;
      // the callback returns early for a missing date or a status other than "completed"
      if Truthy(row.completed_at) && !(Truthy(row.status) && row.status.value != "completed") {
        var isoDate := DayOf(row.completed_at.value);
        if isoDate in buckets {
          buckets := buckets[isoDate := buckets[isoDate].(completions := buckets[isoDate].completions + 1)];
        }
      }
      CompletionStep(before, days, completions[..j], row, buckets);
      assert completions[..j + 1] == completions[..j] + [row];
    }
    assert completions[..|completions|] == completions;
  }

  /** One enrollment row more: the bucket of its day, if it has one and there is such a bucket, grows by one. */
  lemma EnrollmentStep(buckets: map<string, Bucket>, days: seq<Day>, c: seq<CompletionRow>, e: seq<EnrollmentRow>,
                       row: EnrollmentRow, next: map<string, Bucket>)
    requires BucketsHold(buckets, days, c, e)
    requires next == if EnrollmentDay(row).Some? && EnrollmentDay(row).value in buckets
                     then buckets[EnrollmentDay(row).value := buckets[EnrollmentDay(row).value].(
                            enrollments := buckets[EnrollmentDay(row).value].enrollments + 1)]
                     else buckets
    ensures BucketsHold(next, days, c, e + [row])
  {
    forall k ensures CountKey(e + [row], EnrollmentDay, k)
                     == CountKey(e, EnrollmentDay, k) + (if EnrollmentDay(row) == Some(k) then 1 else 0) {
      CountKeySnoc(e, row, EnrollmentDay, k);
    }
  }

  /** `enrollments.forEach(...)`: an enrollment with a creation date adds one to the bucket of its day, if there is one. */
  method FillEnrollments(buckets0: map<string, Bucket>, days: seq<Day>, completions: seq<CompletionRow>,
                         enrollments: seq<EnrollmentRow>)
    returns (buckets: map<string, Bucket>)
    requires BucketsHold(buckets0, days, completions, [])
    ensures BucketsHold(buckets, days, completions, enrollments)
  {
    buckets := buckets0;
    for j := 0 to |enrollments|
      invariant BucketsHold(buckets, days, completions, enrollments[..j])
    {
      var row := enrollments[j];
      ghost var before := buckets;
      // the callback returns early for a missing creation date
      if Truthy(row.created_at) {
        var isoDate := DayOf(row.created_at.value);
        if isoDate in buckets {
          buckets := buckets[isoDate := buckets[isoDate].(enrollments := buckets[isoDate].enrollments + 1)];
        }
      }
      EnrollmentStep(before, days, completions, enrollments[..j], row, buckets);
      assert enrollments[..j + 1] == enrollments[..j] + [row];
    }
    assert enrollments[..|enrollments|] == enrollments;
  }

  /** `days.map(d => ({ ...d, completions: buckets[d.iso].completions, enrollments: buckets[d.iso].enrollments }))`. */
  method ReadBuckets(buckets: map<string, Bucket>, days: seq<Day>, built: seq<ActivityPoint>,
                     completions: seq<CompletionRow>, enrollments: seq<EnrollmentRow>)
    returns (points: seq<ActivityPoint>)
    requires |built| == |days|
    requires forall j :: 0 <= j < |days| ==> built[j].iso == days[j].iso && built[j].dayLabel == days[j].dayLabel
    requires forall j :: 0 <= j < |days| ==>
      days[j].iso in buckets
      && buckets[days[j].iso] == Bucket(CountKey(completions, CompletionDay, days[j].iso),
                                        CountKey(enrollments, EnrollmentDay, days[j].iso))
    ensures |points| == |days|
    ensures forall i :: 0 <= i < |points| ==>
      points[i].iso == days[i].iso && points[i].dayLabel == days[i].dayLabel
      && points[i].completions == CountKey(completions, CompletionDay, days[i].iso)
      && points[i].enrollments == CountKey(enrollments, EnrollmentDay, days[i].iso)
  {
    points := [];
    for i := 0 to |days|
      invariant |points| == i
      invariant forall j :: 0 <= j < i ==>
        points[j].iso == days[j].iso && points[j].dayLabel == days[j].dayLabel
        && points[j].completions == CountKey(completions, CompletionDay, days[j].iso)
        && points[j].enrollments == CountKey(enrollments, EnrollmentDay, days[j].iso)
    {
      var d := built[i];
      points := points + [d.(completions := buckets[d.iso].completions, enrollments := buckets[d.iso].enrollments)];
    }
  }

  /**
   * The bucket building and filling of `loadActivity`: one point per day,
   * in day order, with the completions and enrollments counted on that day.
   */
  method BuildActivity(days: seq<Day>, completions: seq<CompletionRow>, enrollments: seq<EnrollmentRow>)
    returns (points: seq<ActivityPoint>)
    requires |days| == DaysShown
    ensures |points| == DaysShown
    ensures forall i :: 0 <= i < |points| ==>
      points[i].iso == days[i].iso && points[i].dayLabel == days[i].dayLabel
      && points[i].completions == CountKey(completions, CompletionDay, days[i].iso)
      && points[i].enrollments == CountKey(enrollments, EnrollmentDay, days[i].iso)
  {
    var buckets, built := MakeBuckets(days);
    buckets := FillCompletions(buckets, days, completions);
    buckets := FillEnrollments(buckets, days, completions, enrollments);
    forall j | 0 <= j < |days|
      ensures days[j].iso in buckets
    {
      assert IsBucketKey(days, days[j].iso);
    }
    points := ReadBuckets(buckets, days, built, completions, enrollments);
  }

  function Completions(points: seq<ActivityPoint>): seq<nat>
  {
    seq(|points|, i requires 0 <= i < |points| => points[i].completions)
  }

  function Enrollments(points: seq<ActivityPoint>): seq<nat>
  {
    seq(|points|, i requires 0 <= i < |points| => points[i].enrollments)
  }

  function Keys(days: seq<Day>): seq<string>
  {
    seq(|days|, i requires 0 <= i < |days| => days[i].iso)
  }

  /**
   * With seven different day keys, no row is counted twice: the per-day
   * completions and enrollments add up to at most the 7-day totals.
   */
  lemma PerDayWithinTotals(days: seq<Day>, completions: seq<CompletionRow>, enrollments: seq<EnrollmentRow>,
                           points: seq<ActivityPoint>)
    requires Distinct(Keys(days)) && |points| == |days|
    requires forall i :: 0 <= i < |points| ==>
      points[i].completions == CountKey(completions, CompletionDay, days[i].iso)
      && points[i].enrollments == CountKey(enrollments, EnrollmentDay, days[i].iso)
    ensures Sum(Completions(points)) <= |completions|
    ensures Sum(Enrollments(points)) <= |enrollments|
  {
    assert Completions(points) == CountsPerKey(completions, CompletionDay, Keys(days));
    assert Enrollments(points) == CountsPerKey(enrollments, EnrollmentDay, Keys(days));
    SumCountsPerKey(completions, CompletionDay, Keys(days));
    SumCountsPerKey(enrollments, EnrollmentDay, Keys(days));
  }

  /** The user of an active row. */
  function ActiveUser(row: ActiveRow): string
  {
    row.user_id
  }

  /** `new Set(active.map(row => row.user_id)).size`. */
  function ActiveLearners(active: seq<ActiveRow>): (n: nat)
    ensures n <= |active|
    ensures active != [] ==> n >= 1
  {
    ImageSizeBound(active, ActiveUser);
    ImageNonEmpty(active, ActiveUser);
    |Image(active, ActiveUser)|
  }

  /** One row more adds one learner exactly when no earlier row has the same user. */
  lemma ActiveLearnersSnoc(active: seq<ActiveRow>, row: ActiveRow)
    ensures ActiveLearners(active + [row])
            == ActiveLearners(active) + if exists a :: a in active && a.user_id == row.user_id then 0 else 1
  {
    var before := Image(active, ActiveUser);
    forall x
      ensures x in Image(active + [row], ActiveUser) <==> x in before + {row.user_id}
    {
      if x in Image(active + [row], ActiveUser) {
        var y :| y in active + [row] && ActiveUser(y) == x;
        assert y in active || y == row;
      }
      if x in before {
        var y :| y in active && ActiveUser(y) == x;
        assert y in active + [row];
      }
      if x == row.user_id {
        assert row in active + [row] && ActiveUser(row) == x;
      }
    }
    assert Image(active + [row], ActiveUser) == before + {row.user_id};
    if exists a :: a in active && a.user_id == row.user_id {
      var a :| a in active && a.user_id == row.user_id;
      assert ActiveUser(a) in before;
      assert before + {row.user_id} == before;
    } else {
      assert row.user_id !in before;
    }
  }

  /**
   * The three answers of the page's queries; a failed query contributes
   * `null`, read as no rows.
   */
  datatype ActivityFetch = ActivityFetch(
    completionRows: Option<seq<CompletionRow>>,
    enrollmentRows: Option<seq<EnrollmentRow>>,
    activeRows: Option<seq<ActiveRow>>)

  /** `data || []`. */
  function RowsOrEmpty<T>(rows: Option<seq<T>>): seq<T>
  {
    if rows.Some? then rows.value else []
  }

  /** The page's state that `loadActivity` writes. */
  class ActivityPage {
    var activity: seq<ActivityPoint>
    var metrics: ActivityMetrics
    var error: Option<string>

    constructor ()
      ensures activity == [] && metrics == ZeroMetrics && error == None
    {
      activity := [];
      metrics := ZeroMetrics;
      error := None;
    }

    /**
     * `loadActivity`: nothing without the admin's id; after an unexpected
     * error (`fetched == None`), an empty chart and zero metrics; otherwise
     * the seven points and the three metrics.
     */
    method LoadActivity(adminId: Option<string>, days: seq<Day>, fetched: Option<ActivityFetch>)
      requires |days| == DaysShown
      modifies this
      ensures !Truthy(adminId) ==> activity == old(activity) && metrics == old(metrics) && error == old(error)
      ensures Truthy(adminId) && fetched.None? ==>
        activity == [] && metrics == ZeroMetrics && error == Some("Failed to load activity data.")
      ensures Truthy(adminId) && fetched.Some? ==>
        var completions := RowsOrEmpty(fetched.value.completionRows);
        var enrollments := RowsOrEmpty(fetched.value.enrollmentRows);
        var active := RowsOrEmpty(fetched.value.activeRows);
        error == None
        && metrics == ActivityMetrics(|completions|, |enrollments|, ActiveLearners(active))
        && |activity| == DaysShown
        && (forall i :: 0 <= i < DaysShown ==>
              activity[i].iso == days[i].iso && activity[i].dayLabel == days[i].dayLabel
              && activity[i].completions == CountKey(completions, CompletionDay, days[i].iso)
              && activity[i].enrollments == CountKey(enrollments, EnrollmentDay, days[i].iso))
    {
      if !Truthy(adminId) {
        return;
      }
      error := None;
      if fetched.None? {
        error := Some("Failed to load activity data.");
        activity := [];
        metrics := ZeroMetrics;
        return;
      }
      var completions := RowsOrEmpty(fetched.value.completionRows);
      var enrollments := RowsOrEmpty(fetched.value.enrollmentRows);
      var active := RowsOrEmpty(fetched.value.activeRows);
      var points := BuildActivity(days, completions, enrollments);
      activity := points;
      metrics := ActivityMetrics(|completions|, |enrollments|, ActiveLearners(active));
    }
  }
}
