# AnchorP LMS — a verified model of its core rules

AnchorP LMS is a learning-management web application built on Supabase. Learners browse the courses meant for their audience, enrol, follow lessons, see their progress and learning path, and receive PDF certificates. Administrators manage courses, enrolments, users and invitations, and watch activity dashboards. An edge function e-mails external learners when a course is published for them.

This project models, in Dafny, the logic of that application that is not I/O:

- the certificate generator (`lib/certificateService.ts`): a greedy word wrap by rendered width, the page layout arithmetic, the storage path, and the order of the template, drawing, upload, public URL and database steps;
- the rules of every page that shapes fetched rows: course administration, user administration, activity buckets, the admin overview, the learner dashboard, reports, the course catalogue, "my courses" and the learning path;
- the course-created notification (`supabase/functions/notify-course-created/index.ts`);
- the two sidebars' initials, fallbacks and navigation classes.

Every database query, auth call and storage call is an input to the model: the rows it returned, or the error message it reported. Pages whose handlers update React state step by step are classes whose fields are that state. Their methods have `modifies this` and state the whole new state. Pure derivations are functions, each with lemmas about it. Loops in the source (`wrapByWidth`, the line-drawing loop, the counting `forEach` loops, the 7-day bucket loops, the `lessonsByCourse` loop) are methods with loop invariants. Each such method is proved equal to a specification function whose properties are proved separately.

Modules:

| file | module | models |
|---|---|---|
| base.dfy | Base | `Option`, `Result` |
| text.dfy | Text | JavaScript string operations: truthiness, `or` fallbacks, ASCII case mapping, `trim`, `split`, `startsWith`/`endsWith`/`includes` |
| seqs.dfy | Seqs | `filter`, counting, sums, distinct keys, the size of a `Set` of mapped values |
| numbers.dfy | Numbers | `Math.round(100 * a / b)` on exact integers; decimal rendering of a millisecond timestamp |
| profiles.dfy | Profiles | the default profile of a first visit, and the shared opening of the learner pages' `loadData` |
| certificate_service.dfy | CertificateService | `lib/certificateService.ts` |
| admin_courses.dfy | AdminCourses | `app/admin/courses/page.tsx` |
| admin_users.dfy | AdminUsers | `app/admin/users/page.tsx` |
| admin_activity.dfy | AdminActivity | `app/admin/activity/page.tsx` |
| admin_overview.dfy | AdminOverview | `app/admin/page.tsx` |
| dashboard.dfy | Dashboard | `app/dashboard/DashboardPageClient.tsx` |
| reports.dfy | Reports | `app/reports/page.tsx` |
| courses.dfy | Courses | `app/courses/page.tsx` |
| my_courses.dfy | MyCourses | `app/my-courses/page.tsx` |
| learning_paths.dfy | LearningPaths | `app/learning-paths/page.tsx` |
| notify_course_created.dfy | NotifyCourseCreated | `supabase/functions/notify-course-created/index.ts` |
| sidebar.dfy | Sidebar | what both sidebars share: `getInitials` and `itemClass` |
| admin_sidebar.dfy | AdminSidebar | `app/components/AdminSidebar.tsx` |
| app_sidebar.dfy | AppSidebar | `app/components/AppSidebar.tsx` |

Conventions:

- A nullable text column is `Option<string>`.
- JavaScript truthiness of such a value is `Text.Truthy`: present and not empty.
- `a || "fallback"` (a JavaScript `or` fallback) is `Text.OrElse`.
- Percentages `Math.round(100 * part / whole)` are computed exactly as `(200 * part + whole) / (2 * whole)`. `Numbers.RoundPercent` states the rounding bounds that this integer satisfies.
- Font metrics are a parameter `width: string -> real`, one per font and size.

## Model

| member | source | states |
|---|---|---|
| Text.OrElse | app/components/AdminSidebar.tsx:29-30 | `s or fallback` in JavaScript: the value when it is truthy, the fallback otherwise |
| Text.Lower | app/admin/users/page.tsx:137-141 | `toLowerCase`: same length, every character mapped to lower case |
| Text.LowerIdempotent | app/admin/users/page.tsx:137-141 | lower-casing twice is lower-casing once |
| Text.UpperFirst | app/components/AdminSidebar.tsx:15-19 | `charAt(0).toUpperCase()`: at most one character, the upper-cased first one of a non-empty text |
| Text.Trim | app/admin/users/page.tsx:137 | `trim` never lengthens its text |
| Text.TrimSpec | app/admin/users/page.tsx:137 | `trim` removes exactly the leading and trailing white space: the result is a slice of the input with no white space at either end, and everything cut off is white space |
| Text.TrimBlank | app/admin/users/page.tsx:162 | a text trims to empty exactly when it is all white space |
| Text.Split | lib/certificateService.ts:31 | `split(sep)` yields at least one part and no part contains the separator |
| Text.JoinSplit | lib/certificateService.ts:31 | joining the parts of `split(sep)` with `sep` gives back the text |
| Text.BeforeFirst | app/courses/page.tsx:64 | the text before the first separator: a prefix without the separator, followed by it when shorter than the text |
| Text.BeforeFirstIsFirstPart | app/courses/page.tsx:64 | `email.split("@")[0]` is the text before the first `@` |
| Text.AfterLast | app/components/AdminSidebar.tsx:18 | the text after the last separator: a suffix without the separator, the whole text when there is none |
| Text.SplitSingle | app/components/AdminSidebar.tsx:14-15 | `split` yields a single part exactly when the separator does not occur, and that part is the text |
| Text.SplitLast | app/components/AdminSidebar.tsx:18 | the last part of `split(sep)` is the text after the last separator |
| Text.Prefix | app/admin/activity/page.tsx:169 | `slice(0, n)`: the first `min(n, length)` characters |
| Text.ReplaceFirstSpace | app/learning-paths/page.tsx:184 | `replace(" ", "-")` keeps the length and leaves a text without spaces unchanged |
| Seqs.Filter | app/admin/users/page.tsx:134-144 | `filter`: an element is kept exactly when it is in the input and satisfies the predicate |
| Seqs.FilterIsSubsequence | app/admin/users/page.tsx:134-144 | `filter` keeps the input order: its result is a subsequence of the input |
| Seqs.FilterKeepsAll | app/admin/page.tsx:230-231 | filtering with a predicate that holds everywhere returns the input |
| Seqs.SumCountsPerKey | app/reports/page.tsx:142-145 | counts per distinct key add up to the rows whose key is listed, so to at most all rows |
| Seqs.ImageSizeBound | app/admin/activity/page.tsx:192-194 | a `Set` of mapped values has at most as many elements as the rows |
| Numbers.RoundPercent | app/reports/page.tsx:136-139 | the integer nearest to `100 * part / whole`, halves rounded up, as `Math.round` does |
| Numbers.RoundPercentRange | app/dashboard/DashboardPageClient.tsx:117-120 | for `part <= whole` the percentage lies in 0..100, is 100 when `part == whole` and 0 when `part == 0` |
| Numbers.NatToString | lib/certificateService.ts:151 | the decimal rendering of a number is non-empty and made of digits |
| Numbers.ParseNatToString | lib/certificateService.ts:151 | reading the decimal rendering back gives the number |
| Numbers.NatToStringInjective | lib/certificateService.ts:151 | different numbers render differently |
| Profiles.DefaultUserType | app/courses/page.tsx:67-70 | `internal` exactly when the lower-cased e-mail ends with `@anchorp.com`, `external` otherwise |
| Profiles.DefaultUserTypeIgnoresCase | app/learning-paths/page.tsx:53-56 | the default type does not depend on the case of the e-mail |
| Profiles.DefaultFullName | app/courses/page.tsx:61-65 | the metadata name when truthy, else the text before the first `@` when that is non-empty, else "Learner"; never empty |
| Profiles.DefaultFullNameFallback | app/my-courses/page.tsx:63-65 | without a name, an e-mail that is empty or starts with `@` gives "Learner" |
| Profiles.ResolveProfile | app/courses/page.tsx:40-87 | an auth error or a missing user stops the page with its message; an existing profile is used unchanged; only a missing profile inserts the default one, and the inserted row is then used |
| Profiles.FirstVisitInsertsDefault | app/my-courses/page.tsx:61-82 | a first visit inserts a named profile for the user, typed internal exactly for the company domain |
| CertificateService.ScanLinesNonEmpty | lib/certificateService.ts:42 | the loop of `wrapByWidth` never pushes an empty line |
| CertificateService.ScanFits | lib/certificateService.ts:36-44 | every line the loop builds that holds a space fits `maxWidth` |
| CertificateService.ScanJoin | lib/certificateService.ts:35-45 | the finished lines followed by the current one, joined by spaces, are the words joined by spaces |
| CertificateService.ScanGreedy | lib/certificateService.ts:39-43 | a line is closed only when adding the next word would make it wider than `maxWidth` |
| CertificateService.WrapEmpty | lib/certificateService.ts:31-47 | empty text wraps to no lines |
| CertificateService.WrapNoEmptyLines | lib/certificateService.ts:42-46 | no wrapped line is empty |
| CertificateService.WrapLinesFit | lib/certificateService.ts:36-44 | any line wider than `maxWidth` is a single word: every line holding a space fits |
| CertificateService.WrapRoundTrip | lib/certificateService.ts:31-47 | for text without leading, trailing or repeated spaces, joining the lines with single spaces gives back the text, so no word is split or lost |
| CertificateService.WrapIsGreedy | lib/certificateService.ts:39-43 | for such text, each line followed by the first word of the next one is wider than `maxWidth` |
| CertificateService.WrapByWidth | lib/certificateService.ts:25-48 | the loop computes the wrap: no empty line, every multi-word line fits, and for well-spaced text the round trip and greediness hold |
| CertificateService.CenterX | lib/certificateService.ts:90 | the left margin equals the right one: `x + w == pageWidth - x` |
| CertificateService.NameOp | lib/certificateService.ts:89-99 | the name is drawn bold at size 28, centred by its own width, at 0.46 of the page height |
| CertificateService.LineOps | lib/certificateService.ts:103-133 | one draw per wrapped line, each centred by its width; baselines step down by 19; with two or more lines the first and last baselines are symmetric about 0.24 of the page height; a single line sits 9.5 above it |
| CertificateService.DrawCourseLines | lib/certificateService.ts:120-133 | the drawing loop, with `lineY` decremented each time, produces exactly those draws |
| CertificateService.DateOp | lib/certificateService.ts:136-146 | the date is drawn at size 12 at (0.14 × width, 0.12 × height), whatever its width |
| CertificateService.CertificatePath | lib/certificateService.ts:150-152 | the path is inside the user's folder and ends in `.pdf` |
| CertificateService.CertificatePathDistinctTimes | lib/certificateService.ts:150-152 | for one user and course, different milliseconds give different paths |
| CertificateService.Drawn | lib/certificateService.ts:93-146 | one drawing effect per draw, in order |
| CertificateService.GenerateCertificate | lib/certificateService.ts:50-209 | no template URL: nothing is drawn and it throws; otherwise everything is drawn, then the file is uploaded to its path; an upload error or a missing public URL throws before any insert; each failure throws its own message; on success the effects are exactly the drawing, the upload and one insert of the row with the public URL, the certificate number and `issued_at == completed_at`; a failed insert throws "Failed to save certificate record.", otherwise the returned row is the inserted one |
| AdminCourses.SkipRun | app/admin/courses/page.tsx:586 | dropping a run of characters outside `[a-z0-9]` leaves a suffix that starts with a slug character |
| AdminCourses.DashRuns | app/admin/courses/page.tsx:586 | `replace(/[^a-z0-9]+/g, "-")`: only `[a-z0-9-]`, no `--`, a dash in front exactly when the text started with a non-slug character |
| AdminCourses.DropLeadingDashes | app/admin/courses/page.tsx:587 | the result is a suffix that does not start with `-` |
| AdminCourses.DropTrailingDashes | app/admin/courses/page.tsx:587 | the result is a prefix that does not end with `-` |
| AdminCourses.Slugify | app/admin/courses/page.tsx:584-587 | a derived slug has only `[a-z0-9-]`, no `--`, and neither starts nor ends with `-` |
| AdminCourses.SliceKeepsSlugShape | app/admin/courses/page.tsx:587 | a slice of a slug-shaped text is slug-shaped |
| AdminCourses.TrimDashesKeepsSlugShape | app/admin/courses/page.tsx:587 | removing the dashes at both ends keeps the slug alphabet and single dashes, and leaves no dash at either end |
| AdminCourses.DashRunsKeepsSlug | app/admin/courses/page.tsx:586 | collapsing runs leaves a slug-shaped text unchanged |
| AdminCourses.LowerKeepsSlug | app/admin/courses/page.tsx:585 | lower-casing leaves a text of slug characters and dashes unchanged |
| AdminCourses.SlugifyIdempotent | app/admin/courses/page.tsx:584-587 | deriving a slug from a derived slug changes nothing |
| AdminCourses.SaveRequestFor | app/admin/courses/page.tsx:573-622 | a blank trimmed title is refused before any write; otherwise a create without a selected course and an update of the selected one; title and description trimmed; a non-blank trimmed slug used as it is, a blank one derived from the title |
| AdminCourses.UserIndex | app/admin/courses/page.tsx:234-240 | the user map has exactly the profiles' ids, and every id maps to the type and role of the last profile row carrying it |
| AdminCourses.TypedCountsBounded | app/admin/courses/page.tsx:245-269 | per course, internal plus external enrolments never exceed the total |
| AdminCourses.TypedCountsBoundedAll | app/admin/courses/page.tsx:245-269 | the same bound for every course at once |
| AdminCourses.AdminEnrollmentsIgnored | app/admin/courses/page.tsx:247-249 | an admin's enrolment changes no count |
| AdminCourses.NoEnrollmentsNoCount | app/admin/courses/page.tsx:264-269 | a course without enrolments counts 0 |
| AdminCourses.TotalStep | app/admin/courses/page.tsx:245-262 | one `forEach` step keeps the total map equal to the count of the rows seen |
| AdminCourses.TypedStep | app/admin/courses/page.tsx:245-262 | one `forEach` step keeps each typed map equal to the count of the rows seen |
| AdminCourses.CountEnrollments | app/admin/courses/page.tsx:242-262 | the three maps hold, per course, the non-admin enrolments, the internal ones and the external ones |
| AdminCourses.CountedRows | app/admin/courses/page.tsx:242-269 | the counting loops followed by the per-course map give one row per course, in order, with its non-admin, internal and external enrolments |
| AdminCourses.WithCounts | app/admin/courses/page.tsx:264-269 | one row per course, in order, with the course unchanged, its non-admin enrolments as the total, and its internal and external learners' enrolments as the two typed counts (which add up to at most the total) |
| AdminCourses.ZeroCounts | app/admin/courses/page.tsx:184-185 | one row per course, in order, with zero counts |
| AdminCourses.ZeroCountsAgree | app/admin/courses/page.tsx:184-185 | without enrolments the zero rows are what counting would give |
| AdminCourses.FindCourse | app/admin/courses/page.tsx:276-277 | `find` by id: the first listed course with that id, or none exactly when no course has it |
| AdminCourses.FormFor | app/admin/courses/page.tsx:549-554 | the form has the course's title and slug, its description or `""`, and its audience or `both` |
| AdminCourses.ReloadSelection | app/admin/courses/page.tsx:191-210 | nothing selected picks the first course and its form; `"new"` is kept; after counting, a listed id reloads its form and a vanished one becomes `"new"` with a blank form; without enrolments a selected id is kept |
| AdminCourses.ReloadSelectsListedCourse | app/admin/courses/page.tsx:273-321 | after a reload with enrolments the selection is `"new"` or a listed course |
| AdminCourses.ReloadWithoutEnrollmentsKeepsVanished | app/admin/courses/page.tsx:191-210 | with no enrolments a vanished id stays selected, while with enrolments it would become `"new"` |
| AdminCourses.FindLearner | app/admin/courses/page.tsx:371 | `find` by id among the assignable users: the first with that id, or none exactly when no user has it |
| AdminCourses.AssignChecks | app/admin/courses/page.tsx:356-399 | no learner selected is refused first; an assignment happens exactly when the course and learner exist, the learner is not an admin, and neither an internal course meets an external learner nor an external course an internal one; it names that learner and course |
| AdminCourses.AssignDecision | app/admin/courses/page.tsx:350-427 | assignment happens exactly under those conditions, looked up in the lists, for the selected learner and course |
| AdminCourses.AssignSubmit | app/admin/courses/page.tsx:419-441 | the courses reload and the dialog closes exactly when an assignment's insert succeeds, with the success message; a refusal shows its message; a failed insert shows `err.message` or "Something went wrong assigning this course." |
| AdminCourses.AudienceAllowsUntypedOrBoth | app/admin/courses/page.tsx:387-399 | a learner without a type, or a course for both audiences, passes the audience checks |
| AdminCourses.ToggleSuggested | app/admin/courses/page.tsx:455-458 | clicking the active action clears it; any other click makes that action active |
| AdminCourses.AdminCoursesPage.LoadCourses | app/admin/courses/page.tsx:136-329 | a failed query shows its message, or "Failed to load courses & enrollments." when it has none, and empties the list; no courses clears the list and selects `"new"`; otherwise the rows with their counts and the selection after reload |
| AdminCourses.AdminCoursesPage.HandleSuggestedClick | app/admin/courses/page.tsx:455-458 | only the active suggestion changes, by the toggle rule |
| AdminCourses.AdminCoursesPage.HandleDeleteCourse | app/admin/courses/page.tsx:640-690 | without a selected course it asks for one and deletes nothing; unconfirmed does nothing; confirmed deletes the course's enrolments, then the course; on success selects `"new"` with a blank form and reloads; on failure shows the message and keeps the selection |
| AdminCourses.AdminCoursesPage.HandleCourseSave | app/admin/courses/page.tsx:569-638 | sends the save request, or none with the title message; a failure shows its message, or "Something went wrong saving this course." when it has none, and does not reload; a creation or update reports success and reloads, and a created course with an id becomes selected |
| AdminUsers.KeepUser | app/admin/users/page.tsx:134-144 | with an empty search a user is kept exactly when the type filter is `all` or matches; a kept user under a search has the term inside the lower-cased name or e-mail |
| AdminUsers.FilteredUsers | app/admin/users/page.tsx:134-144 | a user is kept exactly when the type filter is `all` or matches, and the trimmed lower-cased term is empty or inside the lower-cased name or e-mail; the order is kept |
| AdminUsers.FilterAllBlank | app/admin/users/page.tsx:134-144 | `all` with a blank search returns the whole list |
| AdminUsers.FilterExcludesOtherTypes | app/admin/users/page.tsx:135-136 | a specific type filter drops every user of another type |
| AdminUsers.SearchIgnoresCase | app/admin/users/page.tsx:137-143 | the search does not depend on the case of the term |
| AdminUsers.RoleToSave | app/admin/users/page.tsx:105 | the option `""` saves null, every other option itself |
| AdminUsers.ApplyRole | app/admin/users/page.tsx:116-125 | same length; the users with that id get the role with every other field unchanged; everybody else is unchanged |
| AdminUsers.ApplyRoleChangesOne | app/admin/users/page.tsx:116-125 | with distinct ids, at most one record differs afterwards, only in its role, and the ids stay distinct |
| AdminUsers.ApplyRoleIdempotent | app/admin/users/page.tsx:116-125 | applying the same role update twice is applying it once |
| AdminUsers.InviteUserType | app/admin/users/page.tsx:176-177 | `external` only for an external invite; admin invites are internal |
| AdminUsers.InviteRole | app/admin/users/page.tsx:178 | `admin` only for an admin invite, null otherwise |
| AdminUsers.RedirectTo | app/admin/users/page.tsx:180-185 | the sign-up URL carries the type, and `role=admin` only for an admin invite |
| AdminUsers.AdminUsersPage.HandleRoleChange | app/admin/users/page.tsx:101-131 | sends the mapped role for that user; on success the list gets the role update and "Role updated."; on failure the list stays with an error message; the invite form is untouched |
| AdminUsers.AdminUsersPage.HandleSendInvite | app/admin/users/page.tsx:159-215 | no invite mode does nothing; a blank e-mail is refused before any call; otherwise the invite for the trimmed e-mail carries the derived type, role, redirect and inviting admin; success reports the invite and clears the form, a failure reports the error and keeps it |
| AdminActivity.CompletionDay | app/admin/activity/page.tsx:165-170 | a completion row has a day exactly when `completed_at` is truthy and its status is absent or `completed`; the day is its first 10 characters |
| AdminActivity.EnrollmentDay | app/admin/activity/page.tsx:175-178 | an enrolment row has a day exactly when `created_at` is truthy; the day is its first 10 characters |
| AdminActivity.MakeBuckets | app/admin/activity/page.tsx:145-162 | seven zero buckets, keyed by the days, and seven zero points in day order with their keys and labels |
| AdminActivity.FillCompletions | app/admin/activity/page.tsx:165-172 | each bucket's completions are the rows whose day is its key |
| AdminActivity.CompletionStep | app/admin/activity/page.tsx:165-172 | one completion row more adds one to the bucket of its day when it is counted and that bucket exists, and keeps every bucket equal to its count |
| AdminActivity.FillEnrollments | app/admin/activity/page.tsx:175-180 | each bucket's enrolments are the rows whose day is its key |
| AdminActivity.EnrollmentStep | app/admin/activity/page.tsx:175-180 | one enrolment row more adds one to the bucket of its day when it has a date and that bucket exists, and keeps every bucket equal to its count |
| AdminActivity.ReadBuckets | app/admin/activity/page.tsx:182-186 | each point keeps its day and label and takes the counts of its bucket |
| AdminActivity.BuildActivity | app/admin/activity/page.tsx:145-186 | seven points in day order, each counting the completions and enrolments dated that day |
| AdminActivity.PerDayWithinTotals | app/admin/activity/page.tsx:189-190 | with distinct days, the per-day completions and enrolments add up to at most the 7-day totals |
| AdminActivity.ActiveLearners | app/admin/activity/page.tsx:192-194 | the number of distinct users is at most the rows and at least 1 when there are rows |
| AdminActivity.ActiveLearnersSnoc | app/admin/activity/page.tsx:192-194 | one row more adds one learner exactly when no earlier row has the same user, so the number is that of distinct users |
| AdminActivity.ActivityPage.LoadActivity | app/admin/activity/page.tsx:80-214 | without an admin nothing changes; an unexpected error shows "Failed to load activity data." and resets the activity to empty and the three metrics to 0; otherwise seven points in day order with the counts of their day, the two 7-day totals and the distinct active learners |
| AdminOverview.LatestRows | app/admin/page.tsx:143-147 | the at most 25 first rows of the newest-first order |
| AdminOverview.SharePercent | app/admin/page.tsx:235-238 | 0 without users, otherwise the rounded percentage |
| AdminOverview.SharesBounded | app/admin/page.tsx:235-238 | when internal and external users are at most all users, each share is at most 100 and the two add up to at most 101 |
| AdminOverview.TallyStep | app/admin/page.tsx:156-162 | one `forEach` step keeps the map equal to the per-user count of the rows seen |
| AdminOverview.TallyByUser | app/admin/page.tsx:153-162 | the map holds, per user, the number of rows with that user id |
| AdminOverview.BuildUserAnalytics | app/admin/page.tsx:164-171 | one entry per profile, in order, with its enrolments and its completions among the latest rows |
| AdminOverview.NoRowsNoCounts | app/admin/page.tsx:169-170 | a user without rows gets 0 for both counts |
| AdminOverview.CompletionsAtMostLimit | app/admin/page.tsx:146-147 | no user has more than 25 counted completions |
| AdminOverview.ProfileMap | app/admin/page.tsx:178-179 | the map has exactly the profiles' ids, each mapped to the last profile row carrying that id |
| AdminOverview.ToRecent | app/admin/page.tsx:186-194 | a recent completion keeps the row's id and time; the name is the profile's or "Unknown user"; the type is the profile's when it is non-empty, and none otherwise |
| AdminOverview.RecentCompletions | app/admin/page.tsx:177-195 | one recent completion per kept row, in order |
| AdminOverview.RecentKeepsProfiledLearners | app/admin/page.tsx:181-184 | with the non-admin profiles, every completion whose user is profiled is kept |
| AdminOverview.RecentKeepsOrder | app/admin/page.tsx:181-194 | the recent list follows the kept rows in their original order |
| AdminOverview.FilteredUsers | app/admin/page.tsx:230-233 | `all` returns every user; any other filter exactly the users of that type; the order is kept |
| AdminOverview.UntypedOnlyUnderAll | app/admin/page.tsx:230-233 | a user without a type is shown only under `all` |
| AdminOverview.AdminOverviewPage.LoadAnalytics | app/admin/page.tsx:91-204 | a failure shows "Error loading admin analytics." and keeps what was set before it; otherwise the counts (0 for a missing one), one analytics entry per profile, in order, with that profile's id, name, e-mail and type and exactly its enrolment and completion rows (none without profile rows), and the recent completions when both profiles and lesson rows arrived |
| AdminOverview.AdminOverviewPage.InternalPercent | app/admin/page.tsx:235-236 | 0 without users, otherwise the rounded internal share |
| AdminOverview.AdminOverviewPage.ExternalPercent | app/admin/page.tsx:237-238 | 0 without users, otherwise the rounded external share |
| Dashboard.CompletedLessonIds | app/dashboard/DashboardPageClient.tsx:80-94 | exactly the lessons of the user's rows whose status is `completed`, as a set, so each counts once |
| Dashboard.CompletedAtMostTotal | app/dashboard/DashboardPageClient.tsx:101-109 | per course, completed lessons never exceed its lessons |
| Dashboard.UnlistedCourseHasNoLessons | app/dashboard/DashboardPageClient.tsx:113-120 | a course without lessons has total 0 and completed 0 |
| Dashboard.TallyStep | app/dashboard/DashboardPageClient.tsx:101-109 | one more lesson adds 1 to its course's total, and 1 to its completed when done |
| Dashboard.TalliedStepAt | app/dashboard/DashboardPageClient.tsx:101-109 | one loop step keeps a course's entry equal to its counts over the lessons seen |
| Dashboard.TalliedStep | app/dashboard/DashboardPageClient.tsx:101-109 | one loop step keeps the whole map equal to the counts over the lessons seen |
| Dashboard.LessonsByCourse | app/dashboard/DashboardPageClient.tsx:101-109 | a course has an entry exactly when it has lessons, and the entry is its total and completed lessons |
| Dashboard.ProgressPercent | app/dashboard/DashboardPageClient.tsx:117-120 | 0 without lessons, otherwise the rounded completed share |
| Dashboard.ProgressPercentRange | app/dashboard/DashboardPageClient.tsx:117-120 | the percentage lies in 0..100, is 100 when all lessons are done and 0 when none is |
| Dashboard.CoursesWithProgress | app/dashboard/DashboardPageClient.tsx:111-131 | one entry per course, in order, with its fields unchanged, its lesson count, the user's completed lessons among them, and the rounded share of completed lessons as its percentage (at most 100, 0 without lessons) |
| Dashboard.ButtonLabel | app/dashboard/DashboardPageClient.tsx:262 | "Start Course" exactly at 0 %, "Continue" otherwise |
| Dashboard.StartCourseWhenBelowHalfPercent | app/dashboard/DashboardPageClient.tsx:117-120 | a course whose completed share is below half a percent still shows "Start Course" |
| Dashboard.DashboardPage.LoadDashboard | app/dashboard/DashboardPageClient.tsx:35-135 | without a user nothing changes; each failed query shows its message and leaves the courses; otherwise one entry per course, in order, with the course's id, title, slug and description, its lessons, the user's completed lessons among them, and their rounded share as the percentage |
| Reports.TotalPassed | app/reports/page.tsx:135 | at most the number of attempts |
| Reports.PassedPartition | app/reports/page.tsx:135 | passed attempts and the others (false or null) add up to all attempts |
| Reports.TotalPassedSnoc | app/reports/page.tsx:135 | an attempt counts exactly when its `passed` is true |
| Reports.PassRate | app/reports/page.tsx:136-139 | 0 without attempts, otherwise the rounded passed share |
| Reports.PassRateRange | app/reports/page.tsx:136-139 | the rate lies in 0..100, is 100 when all passed and 0 when none did |
| Reports.EnrollCountByCourse | app/reports/page.tsx:142-145 | one entry per course, in order, counting the enrolments with that course id |
| Reports.PerCourseWithinTotal | app/reports/page.tsx:132-145 | with distinct course ids the per-course counts add up to at most all enrolments |
| Reports.EnrollmentWord | app/reports/page.tsx:256-257 | "enrollment" exactly for a count of 1, "enrollments" otherwise |
| Courses.EffectiveUserType | app/courses/page.tsx:86-92 | an existing profile's type, or the default type of the e-mail |
| Courses.FirstVisitTypeByDomain | app/courses/page.tsx:67-70 | a first visit is internal exactly for an `@anchorp.com` e-mail, in any case |
| Courses.AllowedAudiences | app/courses/page.tsx:92-95 | `internal` is allowed exactly for internal users; `external` and `both` for everybody; nothing else |
| Courses.VisibleCourses | app/courses/page.tsx:98-105 | exactly the courses whose audience is allowed, in order |
| Courses.VisibilityByAudience | app/courses/page.tsx:92-105 | an internal course is visible exactly to internal users; external and both courses to everybody; a course without audience to nobody |
| Courses.EnrolledCourseIds | app/courses/page.tsx:138 | exactly the course ids of the enrolments |
| Courses.EnrolledAfterEnrollment | app/courses/page.tsx:160-166 | after an enrolment is added its course shows as enrolled, and no enrolled course stops being enrolled |
| Courses.AudienceLabel | app/courses/page.tsx:218-220 | "Internal only" exactly for internal, "External" exactly for external, "Internal & external" otherwise |
| Courses.CoursesPage.LoadData | app/courses/page.tsx:35-132 | the profile step, then the courses visible to the effective user type and the learner's enrolments; each failure shows its message and keeps what was not read yet |
| Courses.CoursesPage.HandleEnroll | app/courses/page.tsx:140-171 | signed out, no insert and the enrolments stay; otherwise the insert for the user and course, then the re-read enrolments; any failure shows its message and keeps the old list; the course being enrolled is cleared either way |
| MyCourses.SafeRows | app/my-courses/page.tsx:110-120 | internal users keep every row; everybody else exactly the rows whose course is not internal-only, rows without a course included; the order is kept |
| MyCourses.NoInternalOnlyForOthers | app/my-courses/page.tsx:114-120 | a learner who is not internal is never shown an internal-only course |
| MyCourses.Unenrolled | app/my-courses/page.tsx:157 | exactly the rows of other courses, in order |
| MyCourses.UnenrolledRemovesExactly | app/my-courses/page.tsx:157 | the list shrinks by exactly the rows of that course |
| MyCourses.RenderedRows | app/my-courses/page.tsx:218-219 | exactly the rows that carry their course, in order |
| MyCourses.MyCoursesPage.LoadData | app/my-courses/page.tsx:37-129 | the profile step, then the safe rows for the profile's type; each failure shows its message |
| MyCourses.MyCoursesPage.HandleUnenroll | app/my-courses/page.tsx:138-165 | sends the delete for the user; on success the course's rows leave the list; on failure the list stays with the message |
| LearningPaths.HasRows | app/learning-paths/page.tsx:84 | true exactly when there are rows |
| LearningPaths.HasLessonsDone | app/learning-paths/page.tsx:94-96 | true exactly when some progress row has a `completed_at` |
| LearningPaths.StepsCompleted | app/learning-paths/page.tsx:123-126 | at most 3; 0 exactly when no flag holds; 3 exactly when all hold |
| LearningPaths.EachFlagIsOneStep | app/learning-paths/page.tsx:123-126 | each of the three flags adds exactly one step whatever the other two are, which with 0 for no flag fixes the count of every combination |
| LearningPaths.OverallStatus | app/learning-paths/page.tsx:128-130 | "Completed" exactly with a certificate; "In progress" exactly without one but with an enrolment or progress; "Not started" otherwise |
| LearningPaths.StatusAgreesWithSteps | app/learning-paths/page.tsx:123-130 | "Not started" exactly when no step is done; all three steps mean "Completed" |
| LearningPaths.StatusClass | app/learning-paths/page.tsx:183-185 | `lp-status-` followed by the status, same length |
| LearningPaths.ReplaceSpaceAfterWord | app/learning-paths/page.tsx:184 | replacing the first space of `word + " " + rest` gives `word + "-" + rest` |
| LearningPaths.InProgressClass | app/learning-paths/page.tsx:183-185 | a path started without a certificate is drawn with `lp-status-in-progress` |
| LearningPaths.NotStartedClass | app/learning-paths/page.tsx:183-185 | a path with no step done is drawn with `lp-status-not-started` |
| LearningPaths.CompletedClass | app/learning-paths/page.tsx:183-185 | the status `Completed` gets the class `lp-status-completed` |
| LearningPaths.StatusClassNames | app/learning-paths/page.tsx:183-185 | the three statuses give `lp-status-completed`, `lp-status-in-progress` and `lp-status-not-started` |
| LearningPaths.LearningPathPage.LoadData | app/learning-paths/page.tsx:23-114 | the profile step, then the three flags in order; the first failure shows its message and keeps the flags not yet read |
| NotifyCourseCreated.AllowedUserIds | supabase/functions/notify-course-created/index.ts:46-56 | exactly the users of settings rows with notifications switched on |
| NotifyCourseCreated.Recipients | supabase/functions/notify-course-created/index.ts:59-61 | one address per eligible profile, in the order of the eligible profiles, each entry the e-mail of the profile at the same position; an address is listed exactly when an eligible profile has it |
| NotifyCourseCreated.SelectRecipients | supabase/functions/notify-course-created/index.ts:35-61 | every address is non-empty and is the e-mail of an external profile; there are at most as many as external profiles |
| NotifyCourseCreated.RecipientsAreExternalOptedIn | supabase/functions/notify-course-created/index.ts:35-61 | an address is a recipient exactly when it is non-empty, an external profile has it, and that user switched notifications on |
| NotifyCourseCreated.NoOptInNoRecipients | supabase/functions/notify-course-created/index.ts:56-61 | with nobody opted in there are no recipients |
| NotifyCourseCreated.Subject | supabase/functions/notify-course-created/index.ts:73 | the subject is the fixed prefix followed by the title |
| NotifyCourseCreated.SubjectInjective | supabase/functions/notify-course-created/index.ts:73 | different titles give different subjects |
| NotifyCourseCreated.CourseUrl | supabase/functions/notify-course-created/index.ts:74-76 | the course's page when the slug is truthy, the course list otherwise |
| NotifyCourseCreated.CourseUrlDistinguishesSlugs | supabase/functions/notify-course-created/index.ts:74-76 | two slugs share a link exactly when equal, and a slug never gives the list's link |
| NotifyCourseCreated.Notify | supabase/functions/notify-course-created/index.ts:27-133 | a course not for external learners is skipped before any query; an e-mail goes only to the selected recipients, never to an empty list, after both queries; a reported count means delivery was accepted and equals the number of recipients |
| NotifyCourseCreated.AnnouncementSent | supabase/functions/notify-course-created/index.ts:63-129 | no recipients: nothing sent and 200; otherwise one message with the subject and link, 200 with the count exactly when accepted, 500 otherwise |
| NotifyCourseCreated.QueryFailureSendsNothing | supabase/functions/notify-course-created/index.ts:39-54 | a failed query answers 500 with its message and sends nothing |
| Sidebar.Initials | app/components/AdminSidebar.tsx:12-20 | without a name the fallback; with one at most two characters |
| Sidebar.InitialsByWords | app/components/AppSidebar.tsx:20-28 | one word gives its upper-cased first letter; several give those of the first and last words |
| Sidebar.BlankNameHasNoInitials | app/components/AppSidebar.tsx:20-28 | a name of white space only gets no fallback and empty initials |
| Sidebar.ItemClass | app/components/AdminSidebar.tsx:32-33 | the active class exactly for the active key |
| Sidebar.OneActiveItem | app/components/AppSidebar.tsx:46-47 | with distinct keys exactly one button is active when the key is listed, none otherwise |
| AdminSidebar.Shown | app/components/AdminSidebar.tsx:29-50 | the name shown is the profile name or "Admin User", the address the e-mail or "admin@anchorp.com", so neither is ever empty; the avatar shows `getInitials` of the displayed name, at most two characters |
| AdminSidebar.TwoWordInitials | app/components/AdminSidebar.tsx:16-19 | a two-word name gives the upper-cased first letters of both words |
| AdminSidebar.AvatarWithoutName | app/components/AdminSidebar.tsx:12-50 | without a name the avatar shows "AU", the initials of "Admin User" |
| AdminSidebar.OneAdminItemActive | app/components/AdminSidebar.tsx:70-102 | exactly one of the four admin buttons is active |
| AppSidebar.Shown | app/components/AppSidebar.tsx:20-35 | the name shown is the profile name or "Learner"; the address line is non-empty exactly when the e-mail is truthy; the avatar shows `getInitials` of the profile name itself, not of the displayed one, so a missing name gives "U"; at most two characters |
| AppSidebar.MissingNameShowsLearnerAndU | app/components/AppSidebar.tsx:21-35 | without a name the avatar "U" is not the initial of the displayed "Learner" |
| AppSidebar.OneNavItemActive | app/components/AppSidebar.tsx:37-47 | the six items have distinct routes and exactly one is active |

## Left out

- Supabase I/O: every query, auth call, storage upload and public-URL lookup is an input of the model (the rows returned or the error reported). The query filters the code relies on (`.eq`, `.in`, `.neq`) are modelled as filters over the rows where a property depends on them. Server-side ordering and `.limit` are taken as given: `AdminOverview.LatestRows` takes the rows newest first.
- Routing and redirects (`router.replace`, `router.push`), logout, and `handleViewAsLearner` at app/admin/courses/page.tsx:692-697, which only navigates.
- pdf-lib (`PDFDocument.load`, `embedFont`, `drawText`, `save`) and real font metrics: a width is a parameter, and drawing appends a record to a list.
- CertificateService.GenerateCertificate: a failing `fetch(templateUrl)` or a `PDFDocument.load` that throws (lib/certificateService.ts:67-70) is not modelled; the template is taken to load whenever its URL resolves.
- `Math.random` for the certificate number: an input. `Date.now`, `toISOString` and `toLocaleDateString`: the timestamp and the seven day keys and labels are inputs.
- Floating point: percentages use exact integer rounding, so rare floating-point ties may differ. Layout constants are `real`, not IEEE doubles.
- Concurrency: the parallel fetches of `Promise.all` are modelled through their joined results only.
- Resend delivery and the HTML body of the notification e-mail: the delivery outcome is an input, and the message is modelled by its sender, recipients, subject and link.
- React rendering, effects, loading spinners, messages cleared by `setTimeout`, and the undefined `sidebarOpen` at app/admin/activity/page.tsx:242-246.
- `err.message ?? fallback` in the learner pages' `catch` blocks: an error carries its message, so the fallback texts are not modelled.
- Case mapping is ASCII only. `toLowerCase`/`toUpperCase` on other characters are not modelled.
- Sidebar.Initials and Text.UpperFirst: a JavaScript string is a sequence of UTF-16 code units, and `charAt(0)`, `length` and slicing count code units. A Dafny `string` is a sequence of Unicode scalar values. So for a name starting with a character outside the Basic Multilingual Plane, `charAt(0)` yields half a surrogate pair in the page, but the whole character in the model.
- Quiz scoring and pass thresholds: no file of the repository holds them. The reports page counts stored `passed` flags, and that is what is modelled.
- Files with no logic beyond I/O or markup are not part of this model: `lib/supabaseClient.ts`, `app/layout.tsx`, `app/page.tsx`, `app/login/*`, `app/signup/page.tsx`, `app/settings/page.tsx`, `app/certificates/page.tsx`, the lesson, quiz and course-detail pages, and the course content editor.
- `handleSelectExistingCourse` and the form-field handler of app/admin/courses/page.tsx: `AdminCourses.FormFor` models the form a selection loads, but the handler itself is not a member.
- AdminCourses.AdminCoursesPage.LoadCourses: the stale `selectedCourseId` that the `useCallback` closure reads is modelled as the page's current selection.
- AdminActivity.PerDayWithinTotals: requires the seven day keys to be distinct, and the page does not guarantee that. It steps the days in local time (`setDate`) but keys them by the UTC date (`toISOString().slice(0, 10)`, app/admin/activity/page.tsx:145-149). Across a spring-forward daylight-saving change, two chart points can then share a key; for example, in US Eastern time the local days 2026-03-07 and 2026-03-08 both get the key `2026-03-08`. The two points read the same bucket, and the per-day sums can exceed the 7-day totals. The model takes the keys as inputs and promises the bound only for distinct keys.
