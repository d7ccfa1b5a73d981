# skillhire job-board server, modelled in Dafny

This project models the server-side domain logic of the skillhire job
board: candidates apply to jobs that recruiters post, recruiters move
applications through a status workflow (notes, interviews, timeline), and
the two sides chat in rooms. The database is replaced by an in-memory
store: users and jobs are maps keyed by id, and applications and chat
messages are sequences in the collection's natural order.

The model follows the source's own shape:

- **Documents are classes.** `ChatDocument`, `ApplicationDocument` and
  `JobDocument` are hydrated from a stored record (`Load`) or created
  (`New`). Their methods change fields in place, like the schema methods
  they model. Each method's contract gives the new record as a function
  of the old one: `Record() == MarkedAsRead(old(Record()), u, now)`. The
  properties are lemmas about those record functions.
- **Saving is a store method.** `Store.Database` saves in three steps:
  it validates the document against the schema, runs the pre-save hook,
  then inserts or replaces the record. Enumerations are kept as the
  strings the store holds, so an invalid status is a validation failure
  (HTTP 500), as in the source. The database invariant `Valid()` is kept
  by every save. It says: every record passes validation, ids are
  distinct, the (job, candidate) unique index holds, and no message has
  two read markers for one user.
- **Writing handlers are methods on the store.** Each takes the
  authenticated caller and the request fields as parameters. Its
  `ensures` equals a pure outcome function of the collections before the
  request: the reply (status code with body or error message) and the
  collections after. The route properties are lemmas about those outcome
  functions. Read-only handlers are functions.
- **Middleware role checks are preconditions.** `authorize('candidate')`
  and `authorize('recruiter', 'admin')` become `requires` clauses on the
  caller's `userType`. Everything the handlers check themselves is
  modelled as an error reply.
- **JavaScript truthiness of optional strings** is `Common.Present`.
  Both a missing value and `""` are falsy, as in `if (notes)`,
  `if (status)` and `details || default`.
- **Cursor semantics are `Query`.** A descending sort is a sorted
  permutation that is stable on equal keys. `skip`/`limit` form a
  window: a negative skip is refused (500), a limit of 0 means no limit,
  and a negative limit returns at most its absolute value.
  `Math.ceil(total / limit)` is reported as None when `limit` is 0.
- **JavaScript numbers stored in documents are `real`.** `aiMatchScore`
  and an interview's `duration` and `rating` may be fractional: a rating
  of 4.5 passes the schema's `min: 1, max: 5`, and 0.5 fails it. Times
  (milliseconds) and counters are integers.
- **The clock is a parameter.** Each operation takes the current time
  `now` in milliseconds. A newly created document's id is also a
  parameter.

Files: `common.dfy` (ids, options, replies, users), `query.dfy` (sort,
skip/limit, page count), `chat_model.dfy`, `application_model.dfy`,
`job_model.dfy` (the three documents), `store.dfy` (lookups, saves,
invariants, the `Database` class), `application_routes.dfy`,
`chat_routes.dfy`, `user_routes.dfy` (the handlers).

## Model

| member | source | states |
|---|---|---|
| Common.Utf16Length | skillhire-server/models/Application.js:24-27 | the length `maxlength` checks is JavaScript's `.length`, in UTF-16 code units: at least the number of characters and at most twice it |
| Common.Utf16LengthAllAstral | skillhire-server/models/Chat.js:23-27 | a text made only of characters outside the Basic Multilingual Plane counts two UTF-16 code units per character |
| Query.SortDesc | skillhire-server/models/Chat.js:142 | `.sort({ field: -1 })` returns a permutation of its input ordered by the key, largest first |
| Query.Window | skillhire-server/models/Chat.js:143-144 | `.skip(n).limit(m)`: refused iff the skip is negative; the k-th result is input element `skip + k`; exactly min(`abs(limit)`, elements remaining after the skip) results, or all remaining when the limit is 0 |
| Query.TotalPages | skillhire-server/routes/applications.js:90 | `Math.ceil(total / limit)`: for a positive limit the least number of pages covering the total; undefined (None) exactly for limit 0 |
| ChatModel.ReadBy | skillhire-server/models/Chat.js:113-115 | `isReadBy(u)` holds iff some read marker belongs to `u` |
| ChatModel.ChatDocument.New | skillhire-server/models/Chat.js:3-80 | a new message has no markers, type `text` unless given, not edited, not deleted |
| ChatModel.ChatDocument.Load | skillhire-server/routes/chat.js:171 | a document loaded by `findById` holds the stored record and is not new |
| ChatModel.ChatDocument.PreSave | skillhire-server/models/Chat.js:89-97 | a new message gets one marker for its sender on first save; an existing one is unchanged |
| ChatModel.ChatDocument.MarkAsRead | skillhire-server/models/Chat.js:100-110 | appends a marker for `u` only when `u` has none, and saves exactly then |
| ChatModel.ChatDocument.EditMessage | skillhire-server/models/Chat.js:118-123 | sets the body, `isEdited` and `editedAt`, nothing else |
| ChatModel.ChatDocument.DeleteMessage | skillhire-server/models/Chat.js:126-131 | sets `isDeleted`, `deletedAt` and the `[Message deleted]` body, nothing else |
| ChatModel.NewMessageReadBySenderOnly | skillhire-server/models/Chat.js:89-97 | a newly saved message has exactly one marker, the sender's, so it is read by the sender and nobody else |
| ChatModel.MarkAsReadIdempotent | skillhire-server/models/Chat.js:100-110 | marking read twice equals marking read once, whatever the times |
| ChatModel.MarkAsReadEffect | skillhire-server/models/Chat.js:100-115 | afterwards `isReadBy(u)` holds; other users' read state is unchanged; the markers are unchanged or gain exactly one for `u`; markers stay distinct per user; no other field changes |
| ChatModel.EditKeepsDeletionAndMarkers | skillhire-server/models/Chat.js:118-123 | an edit leaves `isDeleted`, the markers and the sender alone, so an edited deleted message is still deleted |
| ChatModel.DeletionIsPermanent | skillhire-server/models/Chat.js:126-131 | a delete sets the flag and placeholder and keeps the message valid; mark-read, edit and delete all keep a deleted message deleted |
| ChatModel.RoomQuery | skillhire-server/models/Chat.js:136-139 | the matches of `{ roomId, isDeleted: false }` are exactly the room's undeleted messages, each as often as stored |
| ChatModel.RoomMessagesSelection | skillhire-server/models/Chat.js:134-145 | `getRoomMessages`: only the room's undeleted messages, newest first; for page ≥ 1 and limit > 0 exactly min(`limit`, matches remaining after the skip) of them (0 when none remain), the k-th being match `(page-1)*limit + k` of the newest-first order |
| ChatModel.GetRoomMessages | skillhire-server/models/Chat.js:134-145 | `getRoomMessages` is refused exactly for a negative skip; every message it returns is stored, in the room and not deleted |
| ChatModel.GetUnreadCount | skillhire-server/models/Chat.js:148-159 | the count of unread messages is at most the number of messages |
| ChatModel.UnreadCountZero | skillhire-server/models/Chat.js:148-159 | the unread count is 0 iff no message is undeleted, in the room (when given) and without a marker for the user |
| ChatModel.UnreadInRoomAtMostOverall | skillhire-server/models/Chat.js:154-156 | restricting the unread count to one room never raises it |
| ChatModel.UnreadAfterMarkAsRead | skillhire-server/models/Chat.js:148-159 | marking one message read lowers the user's unread count by one if that message was counted, else leaves it |
| ChatModel.SortIds | skillhire-server/models/Chat.js:163 | the default string sort yields a sorted permutation of the ids |
| ChatModel.CreateOrGetRoom | skillhire-server/models/Chat.js:162-166 | `createOrGetRoom` of no ids is the empty string and of one id that id; the order-freedom and two-id lemmas below give the rest |
| ChatModel.CreateOrGetRoomOrderFree | skillhire-server/models/Chat.js:162-166 | `createOrGetRoom` depends only on the multiset of ids, not on their order |
| ChatModel.CreateOrGetRoomPair | skillhire-server/models/Chat.js:162-166 | for two ids the room is symmetric and is the smaller id, `_`, the larger |
| JobModel.JobDocument.New | skillhire-server/models/Job.js:85-99 | a new job is active unless told otherwise, with both counters 0 |
| JobModel.JobDocument.Load | skillhire-server/routes/applications.js:17 | a loaded job holds the stored record |
| JobModel.JobDocument.IncrementViewCount | skillhire-server/models/Job.js:151-154 | `viewCount` goes up by exactly 1; no other field changes |
| JobModel.JobDocument.IncrementApplicationCount | skillhire-server/models/Job.js:157-160 | `applicationCount` goes up by exactly 1; no other field changes |
| JobModel.NewJobDefaults | skillhire-server/models/Job.js:85-99 | a new job is `active` with zero counters; it is valid iff its status is one of the five |
| JobModel.IncrementsOnlyGrow | skillhire-server/models/Job.js:150-160 | each increment raises its counter by one, changes no other field and keeps the status valid |
| ApplicationModel.ApplicationDocument.New | skillhire-server/models/Application.js:19-46 | a new application is `pending` with score 0 and empty notes, interviews, timeline and communication |
| ApplicationModel.ApplicationDocument.Load | skillhire-server/routes/applications.js:183 | a loaded application holds the stored record |
| ApplicationModel.ApplicationDocument.PreSave | skillhire-server/models/Application.js:135-144 | the first save appends the `Application submitted` entry performed by the candidate |
| ApplicationModel.ApplicationDocument.UpdateStatus | skillhire-server/models/Application.js:147-155 | sets the status and appends the status-change timeline entry |
| ApplicationModel.ApplicationDocument.AddCommunication | skillhire-server/models/Application.js:158-166 | appends one unread communication entry |
| ApplicationModel.ApplicationDocument.ScheduleInterview | skillhire-server/models/Application.js:169-182 | appends the interview and its `Interview scheduled` timeline entry |
| ApplicationModel.DaysBetween | skillhire-server/models/Application.js:185-189 | `daysSinceApplication` is the least whole number of days covering the absolute time difference, so it is non-negative |
| ApplicationModel.SubmittedApplication | skillhire-server/models/Application.js:135-144 | a new application is `pending`, score 0, with exactly one timeline entry, `Application submitted` by the candidate; it is valid iff the cover letter has at most 2000 UTF-16 code units |
| ApplicationModel.UpdateStatusEffect | skillhire-server/models/Application.js:147-155 | sets the status; appends exactly one entry `Status changed to s` by the actor, with the details or the default sentence; keeps the earlier timeline as a prefix; notes, interviews and communication untouched |
| ApplicationModel.UpdateStatusValidity | skillhire-server/models/Application.js:19-23 | a valid record stays valid across a status change iff the new status is one of the seven |
| ApplicationModel.ScheduleInterviewEffect | skillhire-server/models/Application.js:169-182 | exactly one interview and one `Interview scheduled` entry by `scheduledBy`; earlier entries kept; status unchanged; the result is valid iff the new interview is |
| ApplicationModel.AddCommunicationEffect | skillhire-server/models/Application.js:158-166 | exactly one entry with the given type, content and sender, unread; nothing else changes; valid iff the type is one of the four |
| ApplicationModel.TimelineAppendOnly | skillhire-server/models/Application.js:135-182 | every document method keeps the earlier timeline as a prefix |
| Store.FindById | skillhire-server/routes/chat.js:171-174 | the one `findById` lookup, over any collection and id field: a position holding the id, or None exactly when no record holds it |
| Store.FindApplication | skillhire-server/routes/applications.js:183-186 | `FindById` over applications: a position holding the id, or a report that no application holds it |
| Store.FindChat | skillhire-server/routes/chat.js:171-174 | `FindById` over messages: a position holding the id, or a report that no message holds it |
| Store.HasApplied | skillhire-server/routes/applications.js:27-34 | the duplicate check holds iff some application has that job and candidate |
| Store.ApplicationsAfterSave | skillhire-server/models/Application.js:128-144 | a save succeeds only for a valid record; an insert appends the record after its pre-save hook; a replace keeps the length and puts the record where its id is |
| Store.ChatsAfterSave | skillhire-server/models/Chat.js:89-97 | a save succeeds only for a valid message; an insert appends it with the sender's marker; a replace keeps the length and puts it where its id is |
| Store.ApplicationSaveKeepsInvariant | skillhire-server/models/Application.js:128 | a successful save keeps every application valid and every id and (job, candidate) pair unique |
| Store.ChatSaveKeepsInvariant | skillhire-server/models/Chat.js:3-97 | a successful message save keeps every message valid, ids unique and markers distinct per user |
| Store.JobSaveKeepsInvariant | skillhire-server/models/Job.js:85-89 | a job save succeeds iff the job is valid and is new exactly when its id is unused; jobs stay valid |
| Store.Database.SaveApplication | skillhire-server/models/Application.js:128-144 | validate, run the pre-save hook, insert or replace; the database invariant is kept and a failure leaves the collection unchanged |
| Store.Database.SaveChat | skillhire-server/models/Chat.js:89-97 | the same for messages |
| Store.Database.SaveJob | skillhire-server/models/Job.js:150-160 | the same for jobs |
| ApplicationRoutes.Submit | skillhire-server/routes/applications.js:12-65 | the submit handler's reply and store are exactly `SubmitOutcome`, and the database invariant is kept |
| ApplicationRoutes.SubmitOutcome | skillhire-server/routes/applications.js:12-65 | a submit answers 201 with the caller's application to that job, which is appended to the collection; a failure leaves the jobs unchanged |
| ApplicationRoutes.SubmitEffect | skillhire-server/routes/applications.js:17-48 | success iff the job exists, is active, has no application from the caller, the id is free and the cover letter fits. On success exactly one application is appended: the caller's, recruiter = the job's poster, pending, resume = body or profile resume, one timeline entry. The job's count rises by 1; other jobs are unchanged. An unknown job is 404 `Job not found`; an inactive job is 400 `Job is not accepting applications` even when the caller already applied; a duplicate is 400; any other failure is 500. Any failure changes nothing |
| ApplicationRoutes.SubmitTwiceRejected | skillhire-server/routes/applications.js:27-34 | after a successful submit, the same candidate's second submit to that job gets 400 `You have already applied for this job` and changes nothing |
| ApplicationRoutes.PageArithmetic | skillhire-server/routes/applications.js:79-92 | for page ≥ 1 and limit > 0 a page skips `(page-1)*limit` entries and holds exactly min(`limit`, entries remaining), 0 when none remain; `totalPages` covers the total with less than one page to spare |
| ApplicationRoutes.PageOf | skillhire-server/routes/applications.js:79-92 | a page is refused (500) exactly for a negative skip; otherwise it reports the page number and the number of matches, and holds only matches |
| ApplicationRoutes.MyApplications | skillhire-server/routes/applications.js:70-98 | the candidate listing fails only with 500, and its total is the number of the caller's applications with the requested status |
| ApplicationRoutes.SortApplications | skillhire-server/routes/applications.js:122-130 | the requested sort is a permutation of the matches |
| ApplicationRoutes.JobApplications | skillhire-server/routes/applications.js:103-144 | an unknown job is 404, a caller who neither posted it nor is an admin 403; the total is the number of the job's applications with the requested status |
| ApplicationRoutes.MyApplicationsListing | skillhire-server/routes/applications.js:70-98 | every listed entry is the caller's, with the requested status if given; newest first; for page ≥ 1 and limit > 0 exactly min(`limit`, matches remaining after the skip) entries; the total counts exactly the matches |
| ApplicationRoutes.JobApplicationsOrder | skillhire-server/routes/applications.js:122-130 | the listing is a permutation of the matches, ordered by `createdAt` or `aiMatchScore`, descending for `desc` and ascending otherwise |
| ApplicationRoutes.JobApplicationsAccess | skillhire-server/routes/applications.js:103-144 | for page ≥ 1 and limit > 0: the job listing succeeds iff the job exists and the caller posted it or is an admin; it lists only that job's applications |
| ApplicationRoutes.GetApplicationAccess | skillhire-server/routes/applications.js:149-174 | an application is shown only to its candidate, its recruiter or an admin, and to them whenever it exists; 404 exactly when no application has the id |
| ApplicationRoutes.GetApplication | skillhire-server/routes/applications.js:149-174 | a shown application is stored, has the requested id and the caller is a party to it or an admin; a refusal is 403, 404 or 500 |
| ApplicationRoutes.UpdateStatus | skillhire-server/routes/applications.js:179-220 | the status handler's reply and store are exactly `UpdateStatusOutcome`; the invariant is kept |
| ApplicationRoutes.UpdateStatusOutcome | skillhire-server/routes/applications.js:179-220 | jobs never change and the collection keeps its size; a success returns a stored application with the requested status |
| ApplicationRoutes.UpdateStatusEffect | skillhire-server/routes/applications.js:183-205 | 403 iff the caller neither posted the job nor is an admin. Success iff permitted and the status is valid; then only that application changes: new status, exactly one more timeline entry, by the caller and reading `Status changed to` the new status; job, candidate, recruiter, cover letter, resume, score and every other field but status, timeline and notes unchanged; one public note iff `notes` is non-empty, else the notes unchanged. Jobs never change; failures change nothing. A refusal is 403 `Not authorized to update this application`; every other failure (missing job, invalid status) is 500 |
| ApplicationRoutes.AddNote | skillhire-server/routes/applications.js:225-259 | the note handler's reply and store are exactly `AddNoteOutcome`; the invariant is kept |
| ApplicationRoutes.AddNoteOutcome | skillhire-server/routes/applications.js:225-259 | jobs never change and the collection keeps its size; a failure changes nothing; a success returns the stored application, whose last note is the caller's |
| ApplicationRoutes.AddNoteEffect | skillhire-server/routes/applications.js:227-249 | success iff the caller is the candidate, the recruiter or an admin. Exactly one note by the caller is appended, private only when asked; status and timeline unchanged. A refusal is 403 and changes nothing |
| ApplicationRoutes.ScheduleInterview | skillhire-server/routes/applications.js:264-292 | the interview handler's reply and store are exactly `ScheduleInterviewOutcome`; the invariant is kept |
| ApplicationRoutes.ScheduleInterviewOutcome | skillhire-server/routes/applications.js:264-292 | jobs never change and the collection keeps its size; a failure changes nothing; a success returns the stored application, whose last interview names the caller |
| ApplicationRoutes.ScheduleInterviewEffect | skillhire-server/routes/applications.js:266-282 | success iff the caller posted the job or is an admin and the interview is valid. The stored interview and timeline entry name the caller whatever the body says; exactly one of each is appended; status and notes unchanged. A caller who neither posted the job nor is an admin gets 403 `Not authorized to schedule interview for this application`; a missing job or an invalid interview is 500 |
| ApplicationRoutes.UnknownApplication | skillhire-server/routes/applications.js:149-282 | an id no application holds gets 404 `Application not found` from view, status change, note and interview, and nothing changes |
| ApplicationRoutes.StatusCountsBounded | skillhire-server/routes/applications.js:299-351 | pending + shortlisted + interviewed never exceeds the total |
| ApplicationRoutes.CandidateCountsMatchListing | skillhire-server/routes/applications.js:301-322 | a candidate's dashboard counts equal the totals their listing reports with the same status filter |
| ApplicationRoutes.DashboardStats | skillhire-server/routes/applications.js:297-356 | admins get no statistics; the others a total of at most the number of applications, with `totalJobs` exactly for recruiters; what the counts count is stated by `RecruiterDashboard` and `CandidateDashboard` |
| ApplicationRoutes.RecruiterCountsMatchJobListing | skillhire-server/routes/applications.js:328-340 | counting `job: { $in: [j] }` with a status filter gives the total the job's own listing reports with that filter |
| ApplicationRoutes.RecruiterCountsAdd | skillhire-server/routes/applications.js:328-340 | `$in` over two disjoint sets of jobs counts the sum of the two counts |
| ApplicationRoutes.NoJobsNoCount | skillhire-server/routes/applications.js:325-328 | a recruiter who posted no job counts no applications |
| ApplicationRoutes.RecruiterCountsMatchListings | skillhire-server/routes/applications.js:325-340 | a recruiter's count over any set of jobs is the sum of those jobs' listing totals under the same status filter |
| ApplicationRoutes.RecruiterDashboard | skillhire-server/routes/applications.js:323-348 | a recruiter's total, pending, shortlisted and interviewed counts are each the sum, over the jobs they posted, of that job's listing total with that status filter, and `totalJobs` is the number of those jobs |
| ApplicationRoutes.CandidateDashboard | skillhire-server/routes/applications.js:301-322 | a candidate's four counts are the totals of their own listing with no filter and with each of the three statuses, and there is no `totalJobs` |
| ApplicationRoutes.DashboardShape | skillhire-server/routes/applications.js:297-356 | admins get no statistics; candidates and recruiters get counts whose status parts fit in the total, which is at most the number of applications; only recruiters get `totalJobs`, the number of jobs they posted |
| ChatRoutes.ApplicationRoomId | skillhire-server/routes/chat.js:34 | the application room is `app_` followed by exactly the application id |
| ChatRoutes.OpenRoom | skillhire-server/routes/chat.js:11-86 | the intended `POST /room`: a room is opened only when an id is present; an application room names the application and only its candidate or recruiter gets it; a direct room is between the caller and an existing user |
| ChatRoutes.OpenRoomAsWritten | skillhire-server/routes/chat.js:11-86 | `POST /room` as written: only application rooms are ever opened; a direct-room request answers 500 |
| ChatRoutes.ApplicationRoomAccess | skillhire-server/routes/chat.js:16-34 | an application room is granted iff the caller is the application's candidate or recruiter (admins included in the refusal); otherwise 403 |
| ChatRoutes.OpenRoomErrors | skillhire-server/routes/chat.js:16-81 | neither id present gives 400; an unknown application gives 404 |
| ChatRoutes.DirectRoomSymmetric | skillhire-server/routes/chat.js:57-64 | in the intended handler two existing users obtain the same direct room whoever initiates, namely the two ids sorted and joined by `_` |
| ChatRoutes.DirectRoomAsWrittenFails | skillhire-server/routes/chat.js:57-64 | as written, opening a direct room with an existing user answers 500, where the intended handler answers 200 |
| ChatRoutes.AsWrittenAgreesElsewhere | skillhire-server/routes/chat.js:11-86 | the handler as written and as intended differ only on direct rooms |
| ChatRoutes.RoomHistory | skillhire-server/routes/chat.js:140-162 | history is only shown to a caller listed on some message of the room (403 otherwise), and holds only stored, undeleted messages of the room |
| ChatRoutes.RoomHistoryAccess | skillhire-server/routes/chat.js:140-162 | for page ≥ 1 and limit > 0: history is returned iff some message of the room (deleted or not) lists the caller, so never for an empty room; it holds only the room's undeleted messages, newest first, exactly min(`limit`, matches remaining after the skip) of them |
| ChatRoutes.RoomHistoryDefaults | skillhire-server/routes/chat.js:143 | without page and limit the first 50 messages are returned |
| ChatRoutes.MarkRead | skillhire-server/routes/chat.js:167-189 | the mark-read handler's reply and store are exactly `MarkReadOutcome`; the invariant is kept |
| ChatRoutes.Edit | skillhire-server/routes/chat.js:194-216 | the edit handler's reply and store are exactly `EditOutcome`; the invariant is kept |
| ChatRoutes.Delete | skillhire-server/routes/chat.js:221-242 | the delete handler's reply and store are exactly `DeleteOutcome`; the invariant is kept |
| ChatRoutes.MarkReadOutcome | skillhire-server/routes/chat.js:167-189 | the collection keeps its size; a failure changes nothing; a success is for a stored message listing the caller |
| ChatRoutes.EditOutcome | skillhire-server/routes/chat.js:194-216 | the collection keeps its size; a failure changes nothing; a success is the sender's edit of a stored message to a valid body |
| ChatRoutes.DeleteOutcome | skillhire-server/routes/chat.js:221-242 | the collection keeps its size; a failure changes nothing; a success is the sender's delete of a stored message |
| ChatRoutes.UnreadCount | skillhire-server/routes/chat.js:247-258 | the unread-count route always answers, with a count of at most the number of messages that is 0 iff nothing counts as unread |
| ChatRoutes.MarkReadEffect | skillhire-server/routes/chat.js:171-182 | mark-read succeeds iff the caller is a participant; then only that message changes, by `markAsRead`, and the caller has read it; otherwise 403 and nothing changes |
| ChatRoutes.MarkReadIdempotent | skillhire-server/routes/chat.js:167-189 | marking a message read twice gives the same reply and store as marking it once |
| ChatRoutes.SenderOnly | skillhire-server/routes/chat.js:194-242 | edit and delete by anyone but the sender give 403 and change nothing |
| ChatRoutes.UnknownMessage | skillhire-server/routes/chat.js:167-242 | an id no message holds gets 404 `Message not found` from mark-read, edit and delete, and nothing changes |
| ChatRoutes.SenderEditDelete | skillhire-server/routes/chat.js:194-242 | the sender's delete always succeeds and leaves the placeholder; the sender's edit succeeds iff the text is a non-empty body of at most 1000 UTF-16 code units; a failed edit is 500 and changes nothing |
| ChatRoutes.DeletedStaysDeleted | skillhire-server/routes/chat.js:167-242 | after mark-read, edit or delete, the collection keeps its length and every id at its position, and every message that was deleted is still deleted |
| UserRoutes.FilterUpdates | skillhire-server/routes/users.js:67-72 | the `forEach` loop yields exactly the whitelisted part of the body |
| UserRoutes.WhitelistExact | skillhire-server/routes/users.js:57-72 | every kept key is allowed; every allowed key of the body is kept with its value |
| UserRoutes.SensitiveKeysDropped | skillhire-server/routes/users.js:57-64 | `password`, `email`, `userType`, `isActive` and a whole `profile` object are always dropped; `preferences` is kept |
| UserRoutes.WhitelistIdempotent | skillhire-server/routes/users.js:67-72 | filtering a filtered body changes nothing |
| UserRoutes.CheckUpload | skillhire-server/routes/users.js:25-37 | a file is accepted iff its MIME type starts with `image/` and it has at most 5·1024·1024 bytes; a wrong type is refused whatever the size |
| UserRoutes.UploadFilterExact | skillhire-server/routes/users.js:30-36 | the filter accepts exactly the strings `image/` followed by anything |
| UserRoutes.UploadExamples | skillhire-server/routes/users.js:25-37 | `image/png` is accepted; `application/pdf`, `image` and `text/image/png` are not; the limit is 5242880 bytes (concrete cases illustrating `CheckUpload` and `UploadFilterExact`) |

## Left out

- Client pages, the Express bootstrap, `routes/jobs.js` and
  `models/User.js` are not part of this model. Users are reduced to an
  id, a user type and a profile resume. Jobs are reduced to poster,
  status and the two counters.
- Job `formattedSalary`: float division and `toFixed` rounding.
- The chat `/rooms` aggregation pipeline: it relies on the store's
  `$group`/`$lookup` semantics.
- Socket real-time messaging. This includes the creation of chat
  messages, which no route shown performs.
- `Store.Database.SaveChat` requires a new message's read markers to
  hold no marker for its sender yet. The pre-save hook adds the sender's
  marker unconditionally; the precondition keeps the invariant's
  distinct-readers part. No modelled route saves a new message.
- Multer disk storage: upload directories, generated file names and
  deletion of the old picture are file-system I/O with random names.
  Only the filter and size decision are modelled.
- The `findByIdAndUpdate` write of a profile update, and the
  profile-picture save: the user document is not part of this model
  beyond its id.
- The authentication middleware: modelled only as preconditions on the
  caller's identity and role.
- Concurrency: requests run one at a time. The read-modify-write
  counter update is treated as atomic +1.
- `populate`: records are returned unpopulated. A populated reference to
  a removed user is modelled as the 500 it causes wherever the handler
  reads its `_id`. The unpopulated `application.job.title` read in the
  room reply (`routes/chat.js:53`) yields no title and is not modelled.
- Invalid ObjectId strings (the store's CastError, a 500) are not
  modelled: ids are plain strings.
- Query-string coercion: page and limit are integers. Non-numeric values
  (NaN) are not modelled.
- `NaN` and the infinities are not modelled for the `Number` fields
  (`aiMatchScore`, `duration`, `rating`): they are reals.
- `ApplicationRoutes.UpdateStatus`: a request without `status` (an
  undefined assignment) is not modelled; the status is a string.
- `ApplicationRoutes.ScheduleInterview`: a request without `scheduledAt` is
  not modelled; `Date` parsing is a parameter (`scheduledTime`, None for
  an invalid date).
- `ApplicationRoutes.SortApplications`, `ChatModel.NewestFirst` and
  `ChatModel.GetRoomMessages`: ties keep the collection's order, which
  the store does not promise. Fields other than `createdAt` and
  `aiMatchScore` are treated as keys that leave the order unchanged.
- `ChatModel.IdLessEq`: compares Dafny characters, which matches
  JavaScript's UTF-16 code-unit order for the hex ObjectIds in use.
  `createOrGetRoom` also sorts its argument array in place; the model
  returns the room id and leaves the argument unchanged.
- Attachments, `replyTo`, `metadata`, `documents`, `matchFactors` and the
  `updatedAt` timestamp are not carried by the records.
- `ApplicationModel.ApplicationDocument.AddCommunication`: no route
  calls it, so it is modelled only at the document level.
- `JobModel.JobDocument.IncrementViewCount`: its caller is in
  `routes/jobs.js`, so it is modelled only at the document level.

## Findings

| source | as written | input that shows it | evidently intended | confidence | as-written member | corrected member |
|---|---|---|---|---|---|---|
| skillhire-server/routes/chat.js:59 | the direct-chat branch calls `User.findById`, but the file only requires `Chat`, `Application` and `auth` (lines 1-4), so `User` is unbound and the branch throws into the 500 handler | a POST /room body with `participantId` of an existing user and no `applicationId` | look the participant up (404 if unknown) and answer with the room `createOrGetRoom([caller, participant])` | not executed | ChatRoutes.DirectRoomAsWrittenFails | ChatRoutes.DirectRoomSymmetric |
