/**
 * The `notify-course-created` edge function: when a course is published
 * for external learners, every external learner who has e-mail
 * notifications switched on is sent one message announcing it. The two
 * queries and the e-mail service are inputs: the `profiles` and
 * `user_settings` tables as read (or the error the query reported), and the
 * outcome of the delivery request.
 */
module NotifyCourseCreated {
  import opened Base
  import opened Text
  import opened Seqs

  /** The inserted `courses` row carried by the database webhook. */
  datatype CourseRecord = CourseRecord(id: string, title: string, slug: Option<string>,
                                       audience: Option<string>, description: Option<string>)

  /** A `profiles` row, as far as the function selects it. */
  datatype ProfileRow = ProfileRow(id: string, email: Option<string>, user_type: Option<string>)

  /** A `user_settings` row; `email_notifications` is a nullable boolean column. */
  datatype SettingsRow = SettingsRow(user_id: string, email_notifications: Option<bool>)

  /** A query the function sends, in order. */
  datatype Query = ProfilesQuery | SettingsQuery

  /** The single message handed to the e-mail service. */
  datatype EmailRequest = EmailRequest(from: string, to: seq<string>, subject: string, courseUrl: string)

  /** What the e-mail service answers: accepted, refused with its error text, or the request threw. */
  datatype Delivery = Accepted | Refused(text: string) | Thrown

  /** A JSON body `{ message, count? }` or a plain-text body. */
  datatype Body = Json(message: string, count: Option<nat>) | Plain(text: string)

  datatype Response = Response(status: nat, body: Body)

  /** The response and everything the function asked of the outside world. */
  datatype Outcome = Outcome(response: Response, queries: seq<Query>, email: Option<EmailRequest>)

  const SiteUrl := "https://your-lms-domain.com"
  const Sender := "AnchorP LMS <no-reply@yourdomain.com>"
  const SubjectPrefix := "New course available: "

  /** The audience gate: only courses for external learners or for everybody are announced. */
  predicate ForExternalLearners(course: CourseRecord)
  {
    course.audience == Some("external") || course.audience == Some("both")
  }

  /** `.eq("user_type", "external")` on the profiles table. */
  predicate IsExternal(p: ProfileRow)
  {
    p.user_type == Some("external")
  }

  /** `.eq("email_notifications", true)` on the settings table: null does not match. */
  predicate WantsEmail(s: SettingsRow)
  {
    s.email_notifications == Some(true)
  }

  /** `allowedUserIds`: the users of the settings rows that switched notifications on. */
  function AllowedUserIds(settings: seq<SettingsRow>): (ids: set<string>)
    ensures forall id :: id in ids <==> exists s :: s in settings && WantsEmail(s) && s.user_id == id
  {
    set s | s in settings && WantsEmail(s) :: s.user_id
  }

  /** `allowedUserIds.has(p.id) && p.email`. */
  function Eligible(allowed: set<string>): ProfileRow -> bool
  {
    (p: ProfileRow) => p.id in allowed && Truthy(p.email)
  }

  /**
   * The e-mail list: the address of every eligible profile, in the order of
   * the profiles; one address per eligible profile.
   */
  function Recipients(profiles: seq<ProfileRow>, allowed: set<string>): (emails: seq<string>)
    ensures |emails| == Count(profiles, Eligible(allowed))
    ensures forall e :: e in emails <==> exists p :: p in profiles && Eligible(allowed)(p) && p.email == Some(e)
    ensures var kept := Filter(profiles, Eligible(allowed));
      |emails| == |kept| && forall i :: 0 <= i < |kept| ==> kept[i].email == Some(emails[i])
    decreases |profiles|
  {
    if profiles == [] then []
    else
      var init := profiles[..|profiles| - 1];
      var last := profiles[|profiles| - 1];
      var rest := Recipients(init, allowed);
      assert profiles == init + [last];
      CountSnoc(init, last, Eligible(allowed));
      FilterSnoc(init, last, Eligible(allowed));
      if Eligible(allowed)(last) then rest + [last.email.value] else rest
  }

  /**
   * The addresses the function collects from the two tables as read: each is
   * non-empty and belongs to an external profile, one per such profile at most.
   */
  function SelectRecipients(profilesTable: seq<ProfileRow>, settingsTable: seq<SettingsRow>): (r: seq<string>)
    ensures forall e :: e in r ==> e != "" && exists p :: p in profilesTable && IsExternal(p) && p.email == Some(e)
    ensures |r| <= Count(profilesTable, IsExternal)
  {
    Recipients(Filter(profilesTable, IsExternal), AllowedUserIds(settingsTable))
  }

  /**
   * Who is written to: an address is a recipient exactly when an external
   * profile carries it, not empty, and that profile's user has a settings row
   * with notifications switched on. Nobody else is included.
   */
  lemma RecipientsAreExternalOptedIn(profilesTable: seq<ProfileRow>, settingsTable: seq<SettingsRow>, e: string)
    ensures e in SelectRecipients(profilesTable, settingsTable) <==>
      e != "" && exists p :: p in profilesTable && p.user_type == Some("external") && p.email == Some(e)
                             && exists s :: s in settingsTable && s.user_id == p.id && s.email_notifications == Some(true)
  {
    var allowed := AllowedUserIds(settingsTable);
    var external := Filter(profilesTable, IsExternal);
    if e in SelectRecipients(profilesTable, settingsTable) {
      var p :| p in external && Eligible(allowed)(p) && p.email == Some(e);
      assert p in profilesTable && IsExternal(p);
    }
    if e != "" && exists p :: p in profilesTable && p.user_type == Some("external") && p.email == Some(e)
                             && exists s :: s in settingsTable && s.user_id == p.id && s.email_notifications == Some(true) {
      var p :| p in profilesTable && p.user_type == Some("external") && p.email == Some(e)
               && exists s :: s in settingsTable && s.user_id == p.id && s.email_notifications == Some(true);
      assert IsExternal(p) && p in external;
      assert Eligible(allowed)(p);
    }
  }

  /** Without an opted-in setting nobody is written to, whatever the profiles. */
  lemma {:induction false} NoOptInNoRecipients(profiles: seq<ProfileRow>)
    ensures Recipients(profiles, {}) == []
    decreases |profiles|
  {
    if profiles != [] {
      NoOptInNoRecipients(profiles[..|profiles| - 1]);
    }
  }

  /** `` `New course available: ${course.title}` ``. */
  function Subject(title: string): (subject: string)
    ensures StartsWith(subject, SubjectPrefix)
    ensures subject[|SubjectPrefix|..] == title
  {
    var subject := SubjectPrefix + title;
    assert subject[..|SubjectPrefix|] == SubjectPrefix;
    subject
  }

  /** Different titles give different subjects. */
  lemma SubjectInjective(t1: string, t2: string)
    requires Subject(t1) == Subject(t2)
    ensures t1 == t2
  {
    assert t1 == Subject(t1)[|SubjectPrefix|..];
  }

  /** `courseUrl`: the course's own page when it has a slug, the course list otherwise. */
  function CourseUrl(slug: Option<string>): (url: string)
    ensures StartsWith(url, SiteUrl + "/courses")
    ensures Truthy(slug) ==> StartsWith(url, SiteUrl + "/courses/") && url[|SiteUrl + "/courses/"|..] == slug.value
    ensures !Truthy(slug) ==> url == SiteUrl + "/courses"
  {
    if Truthy(slug) then
      var url := SiteUrl + "/courses/" + slug.value;
      assert url[..|SiteUrl + "/courses"|] == SiteUrl + "/courses";
      assert url[..|SiteUrl + "/courses/"|] == SiteUrl + "/courses/";
      url
    else
      SiteUrl + "/courses"
  }

  /** Two courses with slugs share a link exactly when they share the slug; no slug never looks like a slug. */
  lemma CourseUrlDistinguishesSlugs(s1: Option<string>, s2: Option<string>)
    ensures Truthy(s1) && Truthy(s2) ==> (CourseUrl(s1) == CourseUrl(s2) <==> s1 == s2)
    ensures Truthy(s1) ==> CourseUrl(s1) != CourseUrl(None)
  {
    if Truthy(s1) && Truthy(s2) && CourseUrl(s1) == CourseUrl(s2) {
      assert s1.value == CourseUrl(s1)[|SiteUrl + "/courses/"|..];
    }
    if Truthy(s1) {
      assert |CourseUrl(s1)| > |CourseUrl(None)|;
    }
  }

  /**
   * The handler. `course` is `None` when the request body holds no record
   * (reading its audience throws); `profiles` and `settings` are the tables
   * as read, or the error the query reported.
   */
  function Notify(course: Option<CourseRecord>, profiles: Result<seq<ProfileRow>>,
                  settings: Result<seq<SettingsRow>>, delivery: Delivery): (o: Outcome)
    ensures course.None? ==> o == Outcome(Response(500, Plain("Internal error")), [], None)
    ensures course.Some? && !ForExternalLearners(course.value) ==>
      o == Outcome(Response(200, Json("Course is not external. Skipping.", None)), [], None)
    ensures o.email.Some? ==>
      course.Some? && ForExternalLearners(course.value) && profiles.Ok? && settings.Ok?
      && o.email.value.to == SelectRecipients(profiles.value, settings.value) && o.email.value.to != []
      && o.queries == [ProfilesQuery, SettingsQuery]
    ensures o.response.status == 200 && o.response.body.Json? && o.response.body.count.Some? ==>
      o.email.Some? && delivery == Accepted && o.response.body.count.value == |o.email.value.to|
  {
    if course.None? then Outcome(Response(500, Plain("Internal error")), [], None)
    else if !ForExternalLearners(course.value) then
      Outcome(Response(200, Json("Course is not external. Skipping.", None)), [], None)
    else if profiles.Err? then Outcome(Response(500, Plain("Error fetching profiles")), [ProfilesQuery], None)
    else if settings.Err? then
      Outcome(Response(500, Plain("Error fetching settings")), [ProfilesQuery, SettingsQuery], None)
    else
      var emails := SelectRecipients(profiles.value, settings.value);
      if |emails| == 0 then
        Outcome(Response(200, Json("No external users with notifications enabled.", None)),
                [ProfilesQuery, SettingsQuery], None)
      else
        var email := EmailRequest(Sender, emails, Subject(course.value.title), CourseUrl(course.value.slug));
        var queries := [ProfilesQuery, SettingsQuery];
        match delivery
        case Accepted => Outcome(Response(200, Json("Emails sent", Some(|emails|))), queries, Some(email))
        case Refused(_) => Outcome(Response(500, Plain("Failed to send email")), queries, Some(email))
        case Thrown => Outcome(Response(500, Plain("Internal error")), queries, Some(email))
  }

  /**
   * An announced course with recipients sends exactly one message, to all of
   * them, with the course's subject and link; an empty list sends nothing
   * and still answers 200.
   */
  lemma AnnouncementSent(course: CourseRecord, profiles: seq<ProfileRow>, settings: seq<SettingsRow>, delivery: Delivery)
    requires ForExternalLearners(course)
    ensures var o := Notify(Some(course), Ok(profiles), Ok(settings), delivery);
      var emails := SelectRecipients(profiles, settings);
      (emails == [] ==> o.email.None? && o.response == Response(200, Json("No external users with notifications enabled.", None)))
      && (emails != [] ==>
            o.email == Some(EmailRequest(Sender, emails, Subject(course.title), CourseUrl(course.slug)))
            && (delivery == Accepted <==> o.response == Response(200, Json("Emails sent", Some(|emails|))))
            && (delivery != Accepted ==> o.response.status == 500))
  {
  }

  /** A failed query answers 500 and nothing is sent. */
  lemma QueryFailureSendsNothing(course: CourseRecord, profiles: Result<seq<ProfileRow>>,
                                 settings: Result<seq<SettingsRow>>, delivery: Delivery)
    requires ForExternalLearners(course) && (profiles.Err? || settings.Err?)
    ensures var o := Notify(Some(course), profiles, settings, delivery);
      o.email.None? && o.response.status == 500
      && (profiles.Err? ==> o.response.body == Plain("Error fetching profiles") && o.queries == [ProfilesQuery])
      && (profiles.Ok? ==> o.response.body == Plain("Error fetching settings"))
  {
  }
}
