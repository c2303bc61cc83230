# Alumni portal: a verified model of its core rules

This project models the request handlers, data schemas and client-side form
logic of an alumni portal in Dafny. On the server: students, alumni and
administrators sign in with a token cookie, post events and jobs that wait
for moderation, list what they may see, register for events, apply for jobs,
read notifications, and search the alumni directory. On the client: the job
and event forms with their tag chips, the sign-up checks, the "time ago"
labels of the notification menu, and the paged, filtered alumni directory.

The Mongo collections are sequences held in store classes
(`EventsController.EventsStore`, `JobsController.JobsStore`,
`NotificationsController.NotificationsStore`), whose methods change them and
keep their invariants:

- every user is registered for an event at most once;
- an event's `attendees` are exactly its registered users;
- nobody applies for a job twice.

A Mongo filter is a value of `MongoQuery.Query`, so each lemma about a
handler's filter states which documents it matches.

Modules:

- **`Base`, `Seqs`, `Text`, `MongoQuery`**: shared vocabulary. This covers
  replies, the sequence operations behind `find`, `sort` and `limit`, and
  JavaScript's `trim`, `toLowerCase`, `Number` and `String`. It also covers
  which documents a query matches.
- **`UserSchema`, `EventSchema`, `JobSchema`, `NotificationSchema`**: the
  Mongoose schemas. Each schema gives its required fields, enums and
  defaults, as validation functions.
- **`Auth`**: `authMiddleware` and `requireRole`.
- **`EventsController`, `JobsController`, `NotificationsController`,
  `AlumniSearch`**: the handlers.
- **`EventRoutes`, `JobRoutes`**: the routers. Each one is a middleware
  chain followed by its handler.
- **`AlumniDirectory`**: the client's `getMany`.
- **`FormatDate`**: the notification menu's `formatDate`.
- **`SignUp`**: the sign-up page's `validateInputs` and `handleSubmit`.
- **`TagList`, `JobsPage`, `EventsPage`**: the job and event pages' form
  state.

createEvent writes status `pending` (server/controllers/eventsController.js:41),
which the Event schema's status enum (server/schemas/events.js:13) does not
list, so as written every create answers 500. listJobs' spread replaces the
deadline `$or` for non-administrators (server/controllers/jobsController.js:41-47).
For each, the model states the code as written and a corrected version, and
the two rows under "## Findings" name both halves. The stores
(`EventsController.EventsStore`, `JobsController.JobsStore`) and the routers
built on them run the corrected handlers; "## Left out" says so.

## Model

| member | source | states |
|---|---|---|
| UserSchema.ParseRole | server/schemas/users.js:47-51 | a role string is accepted exactly when it names one of alumni, student, admin, and parses to that role |
| UserSchema.ParseAccountStatus | server/schemas/users.js:52-56 | an account status is accepted exactly when it is pending, verified or blocked |
| UserSchema.ParseDegree | server/schemas/users.js:28-31 | a degree is accepted exactly when it is BTech, MTech or PhD |
| UserSchema.ValidateUser | server/schemas/users.js:8-56 | a user validates iff name and email are given and every enum field that is present names a member; the stored user keeps name, email, password, graduation year, department, expertise, industry, location and organization as given, has a degree exactly when one is given, and that degree; role defaults to student and status to pending |
| UserSchema.InsertUser | server/schemas/users.js:12-16 | the unique email index: inserting succeeds iff no stored user has that email, appends the user, and keeps emails unique |
| UserSchema.FindUser | server/middleware/authMiddleware.js:7 | `User.findById`: a found user is stored and has that id; nothing is found only when no stored user has it |
| UserSchema.UserDocument | server/controllers/alumniController.js:7-11 | the stored document has role and name, and holds department, graduation year and degree exactly when the user has them |
| UserSchema.WithoutPassword | server/controllers/alumniController.js:14 | `select("-password")` drops the password and nothing else |
| Auth.Authenticate | server/middleware/authMiddleware.js:19-32 | a missing or empty cookie is 401; a token that does not verify is 400 (and only then); otherwise the request carries the token's `_id` |
| Auth.RequireRole | server/middleware/authMiddleware.js:4-16 | no caller id is 401; the request passes iff the caller is stored and the stored role is listed, and the passed user is that stored user; every other refusal is 403 |
| Auth.RoleDecisionIsByStoredRole | server/middleware/authMiddleware.js:7-8 | the role check depends only on the caller's stored role: two collections that give the caller the same role give the same decision |
| Auth.Guard | server/middleware/authMiddleware.js:4-32 | the two middlewares in sequence: no token is refused with 401 first; a request passes iff the token verifies, names a stored user, and that user's role is allowed |
| EventRoutes.AllowedRoles | server/router/events.js:7-22 | only the verify route leaves out students and alumni; every route admits administrators |
| EventRoutes.VerifyIsForAdminsOnly | server/router/events.js:7 | a request passes the verify route's guard iff its token names a stored administrator |
| EventRoutes.OtherRoutesAdmitEveryRole | server/router/events.js:9-22 | on every other events route, any signed-in stored user passes, whatever the role |
| EventRoutes.MissingTokenIsRefusedFirst | server/router/events.js:7-22 | without a token every events route answers 401 before any role check |
| EventRoutes.Serve | server/router/events.js:7-22 | a refused request changes nothing and returns the guard's reply; no route removes events; event statuses change only through an admitted verify request, and only administrators are admitted to it; each admitted request gets the reply and new state of its own handler (verifyEvent, getRegisteredEvents, unregisterForEvent, createEvent, listEvents, registerForEvent) |
| JobRoutes.AllowedRoles | server/router/jobs.js:9-15 | only job creation leaves out students; alumni and administrators are admitted everywhere |
| JobRoutes.StudentsCannotPostJobs | server/router/jobs.js:9 | a request passes the create-job guard iff its token names a stored alumnus or administrator |
| JobRoutes.SignedInUsersAdmitted | server/router/jobs.js:12-15 | listing and applying admit every signed-in stored user; creating admits every one who is not a student |
| JobRoutes.MissingTokenIsRefusedFirst | server/router/jobs.js:9-15 | without a token every jobs route answers 401 |
| JobRoutes.Serve | server/router/jobs.js:3-15 | a refused request changes nothing; jobs are only appended and never changed, since verifyJob is not mounted; applications never disappear; an admitted creator is not a student; each admitted request gets the reply and new state of its own handler (createJob, listJobs, applyForJob) |
| EventSchema.ParseEventStatus | server/schemas/events.js:13 | the status strings the handlers write are the declared enum plus pending, each parsed to its status |
| EventSchema.ValidateEventAgainst | server/schemas/events.js:3-16 | an event validates iff title, organizer, date, end date and location are given and the status is absent or in the enum; the stored event keeps title, organizer, organizer name, dates, location, description and capacity as given, and the given tags or none; it starts with no attendees, defaults to upcoming, and is stamped with the publication time |
| EventSchema.ValidateEventAsDeclared | server/schemas/events.js:13 | validation with the status enum exactly as the schema declares it, without `pending`; `CreateEventAsWrittenAlwaysFails` states its effect on createEvent |
| EventSchema.ValidateEvent | server/schemas/events.js:3-16 | validation with `pending` admitted, the enum the moderation workflow needs; `CreatedEventIsPendingAndOwned` states what it stores |
| EventSchema.NewRegistration | server/schemas/events.js:18-23 | a new registration row is for that event and user, registered now, with status registered |
| EventsController.FindEvent | server/controllers/eventsController.js:77-78 | `findById`: a found position holds that id; none is found only when no event has it |
| EventsController.FindRegistration | server/controllers/eventsController.js:89 | `findOne({ eventId, userId })`: a found position holds that pair; none iff the user is not registered |
| EventsController.UpdateEvent | server/controllers/eventsController.js:92 | `findByIdAndUpdate`: the event with that id is updated, every other one is kept |
| EventsController.VerifiedIn | server/controllers/eventsController.js:77 | verifying sets that event's status to upcoming and changes nothing else |
| EventsController.VerifyIdempotent | server/controllers/eventsController.js:74-83 | verifying an event twice is the same as verifying it once |
| EventsController.VerifyKeepsConsistent | server/controllers/eventsController.js:74-83 | verifying keeps the registrations and attendee lists consistent |
| EventsController.CreateKeepsConsistent | server/controllers/eventsController.js:28-47 | adding a new event with no attendees keeps the collections consistent |
| EventsController.RegisterKeepsConsistent | server/controllers/eventsController.js:86-97 | a registration row plus `$addToSet` keeps every user registered at most once, with attendees equal to the registered users |
| EventsController.RemoveRowUnregisters | server/controllers/eventsController.js:16 | deleting a registration row removes exactly that pair and keeps the rows duplicate-free |
| EventsController.UnregisterKeepsConsistent | server/controllers/eventsController.js:12-24 | deleting the row and `$pull` keep attendees equal to the registered users |
| EventsController.UnregisterUndoesRegister | server/controllers/eventsController.js:12-97 | unregistering right after registering restores both collections |
| EventsController.CreateEventReply | server/controllers/eventsController.js:43-45 | a stored event is answered with 201 and the event; a validation failure is answered with 500 "Error creating event" |
| EventsController.CreateEventDraft | server/controllers/eventsController.js:30-42 | the object createEvent hands to `Event.create`: the body's fields, the caller as organizer and name, status `pending`; its effect is stated by the two lemmas below |
| EventsController.CreateEventAsWritten | server/controllers/eventsController.js:28-47 | createEvent against the enum as declared; `CreateEventAsWrittenAlwaysFails` states that it always answers 500 |
| EventsController.CreateEventAsWrittenAlwaysFails | server/controllers/eventsController.js:41 | with the schema enum as declared, every create request answers 500 |
| EventsController.CreatedEventIsPendingAndOwned | server/controllers/eventsController.js:28-47 | with pending admitted, creation succeeds iff title, date, end date and location are given, and stores a pending event organized by the caller, named after the caller, with no attendees |
| EventsController.EventMatchIsVisible | server/controllers/eventsController.js:50-64 | the listEvents filter matches an event iff it has not ended and the caller is an administrator, or it is upcoming, or it is the caller's own pending event |
| EventsController.EventsQuery | server/controllers/eventsController.js:52-65 | the filter listEvents builds; its meaning is stated by `EventMatchIsVisible` and `EventsQueryMeaning` |
| EventsController.EventsQueryMeaning | server/controllers/eventsController.js:50-64 | the same, for every event at once |
| EventsController.ListedEvents | server/controllers/eventsController.js:66 | the listing is exactly the visible events, each as often as stored, none ended, ordered by date |
| EventsController.CreatedEventListedOnlyForOrganizer | server/controllers/eventsController.js:53-64 | a new pending event is listed for its organizer and hidden from other non-administrators |
| EventsController.RegisteredEventIds | server/controllers/eventsController.js:2-10 | the ids returned are exactly the events the user is registered for, one per registration row |
| EventsController.RegisteredIdsAgreeWithAttendees | server/controllers/eventsController.js:2-10 | in a consistent store, an event is among the user's registered ids iff the user is among its attendees |
| EventsController.EventsStore.constructor | server/schemas/events.js:3-23 | both collections start empty and consistent |
| EventsController.EventsStore.CreateEvent | server/controllers/eventsController.js:28-47 | the reply is the create reply for the corrected validation; on 201 exactly that event is appended; otherwise nothing changes; consistency is kept |
| EventsController.EventsStore.ListEvents | server/controllers/eventsController.js:50-71 | answers 200 with the listed events |
| EventsController.EventsStore.VerifyEvent | server/controllers/eventsController.js:74-83 | an unknown id is 404 and changes nothing; otherwise only that event becomes upcoming and is returned |
| EventsController.EventsStore.RegisterForEvent | server/controllers/eventsController.js:86-97 | a registered user gets 400 "Already registered" and nothing changes; otherwise a row is appended, the user is added to the attendees, and 201 is returned with the row |
| EventsController.EventsStore.UnregisterForEvent | server/controllers/eventsController.js:12-24 | a user who is not registered gets 404 and nothing changes; otherwise the row is deleted, the user is pulled from the attendees, and the user is no longer registered |
| EventsController.EventsStore.GetRegisteredEvents | server/controllers/eventsController.js:2-10 | answers 200 with the caller's registered event ids |
| JobSchema.ParseJobType | server/schemas/jobs.js:9 | a job type is accepted exactly when it is Full-time, Internship or Contract |
| JobSchema.ParseJobStatus | server/schemas/jobs.js:13 | a job status is accepted exactly when it is pending, published or closed |
| JobSchema.ValidateJob | server/schemas/jobs.js:3-16 | a job validates iff its required fields are given, its type is known, and its status is absent or known; the stored job keeps the given fields, application link and deadline included; tags and skillsRequired are as given or default to []; status defaults to pending; internalApply defaults to false |
| JobSchema.NewApplication | server/schemas/jobs.js:19-27 | a new application is for that job and applicant, applied now, with status applied and no résumé, cover letter or notes |
| JobsController.FindJob | server/controllers/jobsController.js:60-61 | a found position holds that id; none is found only when no job has it |
| JobsController.CreatedJobIsPendingAndOwned | server/controllers/jobsController.js:4-25 | creation succeeds iff title, company, location, description and a known type are given, and stores a pending job posted by the caller |
| JobsController.CreateJobDraft | server/controllers/jobsController.js:6-20 | the object createJob hands to `Job.create`: the body's fields, the caller as poster, status `pending`; its effect is stated by `CreatedJobIsPendingAndOwned` |
| JobsController.DeadlineClauseMeaning | server/controllers/jobsController.js:31-36 | the deadline `$or` matches a job iff it has no deadline or the deadline has not passed |
| JobsController.StatusClauseMeaning | server/controllers/jobsController.js:41-47 | the status `$or` matches a job iff it is published or is the caller's own pending job |
| JobsController.AdminQueryAsWrittenMeaning | server/controllers/jobsController.js:38 | as written, an administrator sees every open job |
| JobsController.OthersQueryAsWrittenMeaning | server/controllers/jobsController.js:41-47 | as written, the spread replaces the deadline `$or`, so other callers are filtered by status and ownership only |
| JobsController.QueryAsWrittenMeaning | server/controllers/jobsController.js:28-47 | what the filter as written matches, for every caller |
| JobsController.QueryMeaning | server/controllers/jobsController.js:28-47 | with both clauses under `$and`, a job matches iff it is open and visible to the caller |
| JobsController.JobsQueryAsWritten | server/controllers/jobsController.js:30-48 | the filter listJobs builds as written, with the status `$or` replacing the deadline one; its meaning is stated by `QueryAsWrittenMeaning` |
| JobsController.JobsQuery | server/controllers/jobsController.js:30-48 | the corrected filter, both clauses under `$and`; its meaning is stated by `QueryMeaning` |
| JobsController.SortNewestFirst | server/controllers/jobsController.js:49 | the same jobs, newest first |
| JobsController.ListedJobsAsWritten | server/controllers/jobsController.js:28-54 | as written, the listing holds exactly the jobs the overwritten filter lets through, each as often as stored, newest first |
| JobsController.ListedJobs | server/controllers/jobsController.js:28-54 | the listing is exactly the open jobs the caller may see, each as often as stored, newest first |
| JobsController.ExpiredJobShownAsWritten | server/controllers/jobsController.js:41-47 | as written, a published job past its deadline is shown to a student; the corrected listing hides it |
| JobsController.PublishedIn | server/controllers/jobsController.js:60 | verifying sets that job's status to published and changes nothing else |
| JobsController.VerifyJobIdempotent | server/controllers/jobsController.js:57-66 | verifying a job twice is the same as verifying it once |
| JobsController.JobsStore.constructor | server/schemas/jobs.js:3-27 | both collections start empty |
| JobsController.JobsStore.CreateJob | server/controllers/jobsController.js:4-25 | a valid job is appended and answered with 201; an invalid one is answered with 500 "Error creating job" and nothing changes |
| JobsController.JobsStore.ListJobs | server/controllers/jobsController.js:28-54 | answers 200 with the corrected listing |
| JobsController.JobsStore.VerifyJob | server/controllers/jobsController.js:57-66 | an unknown id is 404 and changes nothing; otherwise only that job becomes published and is returned |
| JobsController.JobsStore.ApplyForJob | server/controllers/jobsController.js:69-79 | a second application is 400 "Already applied" and changes nothing; otherwise exactly one application is appended with 201; afterwards the caller has applied |
| NotificationSchema.ParseNotificationType | server/schemas/notifications.js:9-13 | a notification type is accepted exactly when it is event or job |
| NotificationSchema.ValidateNotification | server/schemas/notifications.js:3-34 | a notification validates iff user, known type, title, message and reference are given; read defaults to false and createdAt to now |
| NotificationsController.UnreadCount | server/controllers/notificationsController.js:61 | the count is at most the number of notifications, and is zero iff the user has no unread notification |
| NotificationsController.OwnedBy | server/controllers/notificationsController.js:7 | exactly the user's notifications |
| NotificationsController.UserNotifications | server/controllers/notificationsController.js:7-9 | at most 50 notifications, each owned by the user and none more often than stored; fewer than 50 only when the user has fewer |
| NotificationsController.UserNotificationsAreNewest | server/controllers/notificationsController.js:7-9 | the notifications are newest first, and none of the user's notifications left out is newer than one shown |
| NotificationsController.FindOwned | server/controllers/notificationsController.js:24-25 | the first notification with that id that belongs to the caller; none iff the caller owns no such notification |
| NotificationsController.MarkRead | server/controllers/notificationsController.js:24-32 | only the `read` flag of the caller's matching notification changes, and it becomes true; without a match nothing changes |
| NotificationsController.MarkAllRead | server/controllers/notificationsController.js:45-48 | every notification of the user is read afterwards; other users' notifications and all other fields are unchanged |
| NotificationsController.MarkReadIdempotent | server/controllers/notificationsController.js:24-28 | marking the same notification twice is the same as marking it once |
| NotificationsController.MarkReadSparesOthers | server/controllers/notificationsController.js:24-25 | marking never touches another user's notifications |
| NotificationsController.MarkReadCount | server/controllers/notificationsController.js:24-28 | marking lowers the unread count by one iff it found an unread notification, and otherwise leaves the count unchanged |
| NotificationsController.MarkAllLeavesNoneUnread | server/controllers/notificationsController.js:45-48 | after marking all, the unread count is zero |
| NotificationsController.MarkAllIdempotent | server/controllers/notificationsController.js:42-55 | marking all twice is the same as marking all once |
| NotificationsController.NotificationsStore.constructor | server/schemas/notifications.js:3-34 | the collection starts empty |
| NotificationsController.NotificationsStore.CreateNotification | server/schemas/notifications.js:3-34 | a valid notification is appended; an invalid one changes nothing |
| NotificationsController.NotificationsStore.GetUserNotifications | server/controllers/notificationsController.js:4-16 | answers 200 with the caller's latest notifications |
| NotificationsController.NotificationsStore.MarkNotificationAsRead | server/controllers/notificationsController.js:19-39 | updates as MarkRead; 404 "Notification not found" when the caller owns no such notification, else 200 with the updated one |
| NotificationsController.NotificationsStore.MarkAllNotificationsAsRead | server/controllers/notificationsController.js:42-55 | updates as MarkAllRead and answers "All notifications marked as read" |
| NotificationsController.NotificationsStore.GetUnreadCount | server/controllers/notificationsController.js:58-67 | answers 200 with the caller's unread count |
| AlumniSearch.WithIf | server/controllers/alumniController.js:8-11 | a filter key is added exactly when its query parameter is non-empty |
| AlumniSearch.RoleKey | server/controllers/alumniController.js:7 | the `role` key matches a user iff the user is an alumnus |
| AlumniSearch.AlumniFilter | server/controllers/alumniController.js:6-11 | the filter fails iff a non-empty graduation year is not white space around decimal digits (what `Text.JsNumber` accepts); otherwise it requires role alumni and uses only the search keys |
| AlumniSearch.StepMeaning | server/controllers/alumniController.js:8-11 | adding one optional key adds its condition to what the filter matches |
| AlumniSearch.NameStep | server/controllers/alumniController.js:11 | the name key adds the `nameMatches` condition on the name; the case-insensitive regular-expression engine is a parameter |
| AlumniSearch.FilterMeansWanted | server/controllers/alumniController.js:7-11 | the filter matches a user iff the user is an alumnus meeting each given criterion |
| AlumniSearch.FilterFields | server/controllers/alumniController.js:7-11 | the filter always requires role alumni and uses no keys but the search keys |
| AlumniSearch.RoleDepartmentYearMeaning | server/controllers/alumniController.js:7-9 | the first three keys match a user iff the user is an alumnus in the given department and of the given year, each where given |
| AlumniSearch.FieldsMeaning | server/controllers/alumniController.js:7-11 | the filter's keys match a user iff the user meets every given criterion |
| AlumniSearch.SearchResults | server/controllers/alumniController.js:14 | for a selection test, the results are the selected stored users in stored order, each once per stored copy and without the password |
| AlumniSearch.SameSelectionSameResults | server/controllers/alumniController.js:14 | two tests that select the same users give the same results |
| AlumniSearch.FoundAreWanted | server/controllers/alumniController.js:7-14 | with the filter built from the query, the results are exactly the wanted users, in stored order, each once per stored copy, without their passwords |
| AlumniSearch.SearchAlumni | server/controllers/alumniController.js:4-19 | 500 "Error searching alumni" iff a non-empty year is not white space around decimal digits; otherwise 200 with exactly the wanted alumni in stored order, each once per stored copy and without password |
| AlumniSearch.ResultsAreAlumniWithoutPassword | server/controllers/alumniController.js:7-14 | every user returned is an alumnus and carries no password |
| AlumniSearch.OnlySearchKeysMatter | server/controllers/alumniController.js:7-11 | query parameters other than the four search keys do not change the answer |
| AlumniSearch.YearIsComparedAsNumber | server/controllers/alumniController.js:9 | a year written in digits is cast, and a user is found by it iff their graduation year is that number |
| Text.Trim | client/src/pages/Jobs.jsx:103 | `trim`: the result is the input without leading and trailing white space |
| Text.TrimIdempotent | client/src/pages/Jobs.jsx:103 | trimming twice is trimming once |
| Text.TrimEmptyIff | client/src/pages/Jobs.jsx:104 | the trimmed input is empty iff the input is all white space |
| Text.ToLower | client/src/components/home/data/alumni.jsx:113 | `toLowerCase` keeps the length and lowers each ASCII capital |
| Text.Utf16Length | client/src/pages/SignUp.jsx:92 | `length` counts UTF-16 units: between one and two per character, one each in the Basic Multilingual Plane |
| Text.NatToString | client/src/components/home/data/alumni.jsx:125 | a number is written as a non-empty string of digits |
| Text.NatToStringRoundTrip | client/src/components/home/data/alumni.jsx:125 | reading back the digits gives the number |
| Text.JsNumber | server/controllers/alumniController.js:9 | `Number`: an all-space string is 0 and a string of digits is its value |
| Text.NumberOfRenderedNat | server/controllers/alumniController.js:9 | casting a number written in digits gives the number back |
| AlumniDirectory.ChainIsOneFilter | client/src/components/home/data/alumni.jsx:108-140 | the first k filters applied one after the other equal one filter by all k conditions |
| AlumniDirectory.PassesAllIsWanted | client/src/components/home/data/alumni.jsx:108-140 | passing all five filters is being wanted by the filter model |
| AlumniDirectory.Filtered | client/src/components/home/data/alumni.jsx:105-140 | the filters never add records |
| AlumniDirectory.FilteredMeaning | client/src/components/home/data/alumni.jsx:105-140 | every kept record is in the data and wanted, and every wanted record is kept |
| AlumniDirectory.FilteredIsOneFilter | client/src/components/home/data/alumni.jsx:105-140 | without a filter model the data is untouched; with one, the chain equals one filter by the five conditions |
| AlumniDirectory.FilteredKeepsOrder | client/src/components/home/data/alumni.jsx:105-140 | the filtered list is a subsequence of the data, holding each wanted record as often as the data |
| AlumniDirectory.Slice | client/src/components/home/data/alumni.jsx:143-145 | `slice(start, end)` is clamped to the list, and holds the list's elements from start on |
| AlumniDirectory.GetMany | client/src/components/home/data/alumni.jsx:102-151 | itemCount is the number of filtered records; the page is empty past the end, holds exactly pageSize items when that many remain and the rest otherwise, and holds the filtered records from page*pageSize on |
| AlumniDirectory.PageItemsAreWanted | client/src/components/home/data/alumni.jsx:142-150 | every item on a page is a stored record that the filters want |
| AlumniDirectory.FilterCaseIsIgnored | client/src/components/home/data/alumni.jsx:111-139 | two filter models that differ only in letter case select the same page |
| AlumniDirectory.YearFilterIsExact | client/src/components/home/data/alumni.jsx:123-127 | the year filter compares the year's digits with the typed text for equality, so a year typed in digits keeps exactly the records of that year |
| FormatDate.FloorDiv | client/src/components/home/components/NotificationIcon.jsx:110-112 | `Math.floor(a / b)`: the largest q with q*b at most a |
| FormatDate.FormatDate | client/src/components/home/components/NotificationIcon.jsx:106-119 | `formatDate` on the elapsed milliseconds; its labels are stated by the five lemmas below |
| FormatDate.JustNowUnderAMinute | client/src/components/home/components/NotificationIcon.jsx:114 | "Just now" is shown iff less than a minute has passed, future times included |
| FormatDate.MinutesBucket | client/src/components/home/components/NotificationIcon.jsx:115 | from one minute up to an hour, the label is the number of whole minutes followed by "m ago" |
| FormatDate.HoursBucket | client/src/components/home/components/NotificationIcon.jsx:116 | from one hour up to a day, the label is the number of whole hours followed by "h ago" |
| FormatDate.DaysBucket | client/src/components/home/components/NotificationIcon.jsx:117 | from one day up to a week, the label is the number of whole days followed by "d ago" |
| FormatDate.LocaleDateFromAWeek | client/src/components/home/components/NotificationIcon.jsx:118 | the calendar date is shown iff a week or more has passed |
| SignUp.SignUpForm.constructor | client/src/pages/SignUp.jsx:62-68 | no error flags, no messages, no submit error |
| SignUp.SignUpForm.ValidateInputs | client/src/pages/SignUp.jsx:73-102 | valid iff the name is non-empty, the email matches the pattern, and the password has at least 6 units; each field's flag and message are set when it fails and cleared when it passes |
| SignUp.SignUpForm.HandleSubmit | client/src/pages/SignUp.jsx:107-116 | the submit error is cleared; every error flag and message is set as validateInputs sets it; a request is built iff every field passes, and it carries the three fields as typed |
| SignUp.EmailMatchesInside | client/src/pages/SignUp.jsx:84 | the pattern is not anchored: text around a matching address does not stop it matching |
| SignUp.NoDotAfterAtRejected | client/src/pages/SignUp.jsx:84 | an address with no dot after an `@` is refused |
| SignUp.SpaceBetweenRejected | client/src/pages/SignUp.jsx:84 | an address with white space between the `@` and every later dot is refused |
| SignUp.EmailExamples | client/src/pages/SignUp.jsx:84 | "a@b.c" passes; "a@b.", "a@.c", "@b.c" and "a @b.c" are refused |
| SignUp.PasswordBoundary | client/src/pages/SignUp.jsx:92 | five characters are refused and six pass |
| SignUp.PasswordLengthInCharacters | client/src/pages/SignUp.jsx:92 | for text in the Basic Multilingual Plane, the length rule counts characters |
| TagList.WithTag | client/src/pages/Jobs.jsx:101-111 | the trimmed input is appended iff it is non-empty and not already a tag; otherwise the tags are unchanged |
| TagList.WithoutTag | client/src/pages/Jobs.jsx:113-118 | every copy of the tag is removed, every other tag is kept, and order is kept |
| TagList.AddKeepsTagsWellFormed | client/src/pages/Jobs.jsx:101-111 | adding keeps the tags free of duplicates, empty tags and untrimmed tags |
| TagList.DeleteKeepsTagsWellFormed | client/src/pages/Jobs.jsx:113-118 | deleting keeps the tags well formed |
| TagList.DeleteUndoesAdd | client/src/pages/Jobs.jsx:101-118 | a tag just added is present, and deleting it restores the list |
| TagList.AddIsIdempotent | client/src/pages/Jobs.jsx:104 | adding the same input twice is adding it once |
| JobsPage.JobPostingsPage.constructor | client/src/pages/Jobs.jsx:26-38 | no jobs, dialog closed, empty tag input, the default form with type Full-time |
| JobsPage.JobPostingsPage.Load | client/src/pages/Jobs.jsx:40-79 | the jobs become the sample, numbered from 1; the form is untouched |
| JobsPage.JobPostingsPage.ClickOpen | client/src/pages/Jobs.jsx:81 | the dialog opens and nothing else changes |
| JobsPage.JobPostingsPage.Close | client/src/pages/Jobs.jsx:82-94 | the dialog closes and the form and tag input are reset; the jobs are kept |
| JobsPage.JobPostingsPage.AddTag | client/src/pages/Jobs.jsx:101-111 | the form's tags become WithTag of the input, the input is always cleared, and the tags stay well formed |
| JobsPage.JobPostingsPage.DeleteTag | client/src/pages/Jobs.jsx:113-118 | the form's tags lose that tag and nothing else changes |
| JobsPage.JobPostingsPage.Submit | client/src/pages/Jobs.jsx:120-124 | the form is appended as job number length+1, and the page is reset |
| EventsPage.EventsPageState.constructor | client/src/pages/Events.jsx:23-32 | no events and an empty, closed form |
| EventsPage.EventsPageState.Load | client/src/pages/Events.jsx:34-54 | the events become the sample, numbered from 1; the form is untouched |
| EventsPage.EventsPageState.Close | client/src/pages/Events.jsx:57-65 | every field and the tags are emptied and the dialog closes; the events are kept |
| EventsPage.EventsPageState.AddTag | client/src/pages/Events.jsx:67-72 | the tags become WithTag of the input; the input is cleared only when a tag was added |
| EventsPage.EventsPageState.DeleteTag | client/src/pages/Events.jsx:74-76 | the tags lose that tag and nothing else changes |
| EventsPage.EventsPageState.CreateEvent | client/src/pages/Events.jsx:78-90 | the form's fields and tags are appended as event number length+1, and the form is emptied |

## Left out

- Database I/O, the Mongoose driver, indexes other than the unique email index, `_id` generation (fresh ids are parameters), and the `createdAt`/`updatedAt` timestamps of rows.
- JSON Web Token verification itself is a parameter (`verify`). Cookies, Express wiring and response headers are not modelled.
- The catch branches that answer 500 are modelled only where a modelled cause exists: validation in createEvent and createJob, and the cast of the year in searchAlumni. Errors from the database itself, such as a malformed id in `findById`, are not modelled. Request bodies arrive already typed (`date: Option<Time>`, `capacity: Option<int>`, `internalApply: Option<bool>`), so Mongoose's casts of body values are not modelled, and neither is the 500 that createEvent and createJob answer on a CastError, for example for `date: "soon"`.
- The regular-expression engine for the name search is a parameter (`nameMatches`).
- Case folding is ASCII only. `toLowerCase` beyond ASCII is not modelled.
- The wall clock is a parameter (`now`, or the difference `diffMs` in FormatDate). `toLocaleDateString` is a single value `LocaleDate`.
- Text.JsNumber: weaker than JavaScript's `Number`. Signs, fractions, exponents, hexadecimal and `Infinity` are treated as not numbers.
- AlumniSearch.AlumniFilter: because of Text.JsNumber, a year such as `"2020.0"`, `"-5"`, `"1e3"` or `"Infinity"` is an error here, while `Number` casts it and Mongoose, which rejects only NaN, runs the query (`"2020.0"` finds the 2020 alumni).
- AlumniSearch.SearchAlumni: for the same years it answers 500 "Error searching alumni", where alumniController.js:9-14 answers 200 with the alumni whose graduation year equals that number.
- getMany's behaviour on a negative page is not modelled: page and pageSize are natural numbers.
- Jobs.jsx `handleChange` and its inline `setTagInput` (client/src/pages/Jobs.jsx:232), and Events.jsx's field setters and `handleOpen` (client/src/pages/Events.jsx:56), are plain field assignments and are not modelled as separate operations; a caller reaches a non-empty `tagInput` or an open events dialog by assigning the field.
- The mock data loaded on mount is a `Load` parameter numbered from 1, not the literal sample records.
- React rendering, the notification menu's polling, and any concurrency between requests are not modelled.
- eventsController.js and jobsController.js send no notification on verification and have no reject or delete handler, so none is modelled.
- EventsController.EventsStore.CreateEvent: validates with `pending` admitted (`ValidateEvent`), so a complete body gets 201 and a stored event; the code as written answers 500 to every create, which `EventsController.CreateEventAsWritten` and `CreateEventAsWrittenAlwaysFails` state. The store, and `EventRoutes.Serve` on it, follow the corrected handler because a store built on the code as written could never hold an event.
- JobsController.JobsStore.ListJobs: answers the corrected listing (`ListedJobs`, both clauses under `$and`); the code as written also lists expired published jobs to non-administrators, which `JobsController.ListedJobsAsWritten` and `ExpiredJobShownAsWritten` state. `JobRoutes.Serve` uses the corrected listing too.
- JobsController.DeadlineClauseMeaning: `applicationDeadline` is `Option<Time>`, so a body sending `null` or `""` is modelled as no deadline. Mongoose would store `null`, which matches neither `$exists: false` nor `$gte: now` (server/controllers/jobsController.js:31-36), so such a job is hidden from everyone; the model lists it as having no deadline.

## Findings

| source | as written | input that shows it | evidently intended | confidence | as-written member | corrected member |
|---|---|---|---|---|---|---|
| server/controllers/eventsController.js:41 | createEvent stores status `pending`, but the Event schema's status enum (server/schemas/events.js:13) lacks `pending`, so validation rejects every new event and the handler answers 500 | any complete body, e.g. title, date, end date and location all given, from any signed-in user | new events are stored as pending, awaiting an administrator's verification | high, not executed | EventsController.CreateEventAsWrittenAlwaysFails | EventsController.CreatedEventIsPendingAndOwned |
| server/controllers/jobsController.js:41-47 | for a non-administrator, the spread `{ ...query, $or: [...] }` replaces the deadline `$or` with the status `$or`, so jobs whose application deadline has passed are still listed | a published job whose deadline is before now, listed by a student | only open jobs are listed for everyone: both conditions kept, e.g. under `$and` | high, not executed | JobsController.ExpiredJobShownAsWritten | JobsController.ListedJobs |
