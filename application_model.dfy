/** The application document: the status enum and the schema's bounds, the
    timeline entry added when a new application is first saved, and the
    status, communication and interview methods that append to its logs. */
module ApplicationModel {
  import opened Common

  const Statuses := ["pending", "reviewed", "shortlisted", "interviewed", "rejected", "accepted", "withdrawn"]
  const InterviewTypes := ["phone", "video", "in-person", "technical", "hr"]
  const InterviewStatuses := ["scheduled", "completed", "cancelled", "rescheduled"]
  const CommunicationTypes := ["email", "message", "call", "meeting"]
  const MaxCoverLetterLength := 2000
  const MsPerDay := 1000 * 60 * 60 * 24

  datatype Note = Note(addedBy: Id, content: Option<string>, addedAt: int, isPrivate: bool)

  /** One entry of `interviewSchedule`. `scheduledAt` is None when the
      requested time is not a valid date. */
  datatype Interview = Interview(
    scheduledBy: Id,
    scheduledAt: Option<int>,
    duration: Option<real>,
    kind: Option<string>,
    location: Option<string>,
    meetingLink: Option<string>,
    status: string,
    feedback: Option<string>,
    rating: Option<real>)

  datatype TimelineEntry = TimelineEntry(action: string, performedBy: Id, timestamp: int, details: string)

  datatype Communication = Communication(kind: Option<string>, content: Option<string>, sentBy: Id, sentAt: int, isRead: bool)

  /** What the interview route passes to `scheduleInterview`: the request's
      fields with `scheduledBy` set by the route. `scheduledAt` is the text
      sent, `scheduledTime` what `new Date(scheduledAt)` makes of it. */
  datatype InterviewData = InterviewData(
    scheduledBy: Id,
    scheduledAt: string,
    scheduledTime: Option<int>,
    duration: Option<real>,
    kind: Option<string>,
    location: Option<string>,
    meetingLink: Option<string>,
    status: Option<string>,
    feedback: Option<string>,
    rating: Option<real>)

  datatype ApplicationRecord = ApplicationRecord(
    id: Id,
    job: Id,
    candidate: Id,
    recruiter: Id,
    status: string,
    coverLetter: Option<string>,
    resume: Option<FileRef>,
    aiMatchScore: real,
    notes: seq<Note>,
    interviewSchedule: seq<Interview>,
    timeline: seq<TimelineEntry>,
    communication: seq<Communication>,
    createdAt: int)

  predicate ValidInterview(i: Interview) {
    && i.scheduledAt.Some?
    && (i.kind.Some? ==> i.kind.value in InterviewTypes)
    && i.status in InterviewStatuses
    && (i.rating.Some? ==> 1.0 <= i.rating.value <= 5.0)
  }

  predicate ValidCommunication(c: Communication) {
    c.kind.Some? ==> c.kind.value in CommunicationTypes
  }

  /** The schema validation run before every save. */
  predicate ValidApplication(a: ApplicationRecord) {
    && a.status in Statuses
    && (a.coverLetter.Some? ==> Utf16Length(a.coverLetter.value) <= MaxCoverLetterLength)
    && 0.0 <= a.aiMatchScore <= 100.0
    && (forall i :: 0 <= i < |a.interviewSchedule| ==> ValidInterview(a.interviewSchedule[i]))
    && (forall i :: 0 <= i < |a.communication| ==> ValidCommunication(a.communication[i]))
  }

  // ---------------------------------------------------------------------
  // What each document method does to the stored record

  /** `new Application({...})` before its first save. */
  function NewApplication(id: Id, job: Id, candidate: Id, recruiter: Id,
                          coverLetter: Option<string>, resume: Option<FileRef>, now: int): ApplicationRecord {
    ApplicationRecord(id, job, candidate, recruiter, "pending", coverLetter, resume, 0.0, [], [], [], [], now)
  }

  /** The pre-save hook of a new application. */
  function Submitted(a: ApplicationRecord, now: int): ApplicationRecord {
    a.(timeline := a.timeline + [TimelineEntry("Application submitted", a.candidate, now,
                                               "Application was submitted for the job")])
  }

  /** `updateStatus(newStatus, performedBy, details)`; a missing or empty
      `details` falls back to the standard sentence. */
  function StatusUpdated(a: ApplicationRecord, newStatus: string, performedBy: Id,
                         details: Option<string>, now: int): ApplicationRecord {
    var text := if Present(details) then details.value else "Application status updated to " + newStatus;
    a.(status := newStatus,
       timeline := a.timeline + [TimelineEntry("Status changed to " + newStatus, performedBy, now, text)])
  }

  /** `addCommunication(type, content, sentBy)`. */
  function CommunicationAdded(a: ApplicationRecord, kind: Option<string>, content: Option<string>,
                              sentBy: Id, now: int): ApplicationRecord {
    a.(communication := a.communication + [Communication(kind, content, sentBy, now, false)])
  }

  /** The interview entry `scheduleInterview` stores: the data as given,
      the parsed date, and status "scheduled" unless one was sent. */
  function InterviewEntry(data: InterviewData): Interview {
    Interview(data.scheduledBy, data.scheduledTime, data.duration, data.kind, data.location,
              data.meetingLink, data.status.GetOr("scheduled"), data.feedback, data.rating)
  }

  /** `scheduleInterview(data)`. */
  function InterviewScheduled(a: ApplicationRecord, data: InterviewData, now: int): ApplicationRecord {
    a.(interviewSchedule := a.interviewSchedule + [InterviewEntry(data)],
       timeline := a.timeline + [TimelineEntry("Interview scheduled", data.scheduledBy, now,
                                               "Interview scheduled for " + data.scheduledAt)])
  }

  /** The `daysSinceApplication` virtual: whole days, rounded up, between
      the creation time and `now`, in either direction. */
  function DaysBetween(createdAt: int, now: int): (days: nat)
    ensures var gap := if now >= createdAt then now - createdAt else createdAt - now;
      days * MsPerDay >= gap && (days == 0 || (days - 1) * MsPerDay < gap)
  {
    var gap := if now >= createdAt then now - createdAt else createdAt - now;
    (gap + MsPerDay - 1) / MsPerDay
  }

  class ApplicationDocument {
    var id: Id
    var job: Id
    var candidate: Id
    var recruiter: Id
    var status: string
    var coverLetter: Option<string>
    var resume: Option<FileRef>
    var aiMatchScore: real
    var notes: seq<Note>
    var interviewSchedule: seq<Interview>
    var timeline: seq<TimelineEntry>
    var communication: seq<Communication>
    var createdAt: int
    /** True until the document has been saved once. */
    var isNew: bool

    function Record(): ApplicationRecord
      reads this
    {
      ApplicationRecord(id, job, candidate, recruiter, status, coverLetter, resume, aiMatchScore,
                        notes, interviewSchedule, timeline, communication, createdAt)
    }

    /** `new Application({...})`: status pending, score 0, empty logs. */
    constructor New(id: Id, job: Id, candidate: Id, recruiter: Id,
                    coverLetter: Option<string>, resume: Option<FileRef>, now: int)
      ensures isNew
      ensures Record() == NewApplication(id, job, candidate, recruiter, coverLetter, resume, now)
    {
      this.id, this.job, this.candidate, this.recruiter := id, job, candidate, recruiter;
      this.coverLetter, this.resume := coverLetter, resume;
      status, aiMatchScore := "pending", 0.0;
      notes, interviewSchedule, timeline, communication := [], [], [], [];
      createdAt, isNew := now, true;
    }

    /** A document hydrated from a stored record (`findById`). */
    constructor Load(r: ApplicationRecord)
      ensures !isNew && Record() == r
    {
      id, job, candidate, recruiter := r.id, r.job, r.candidate, r.recruiter;
      status, coverLetter, resume, aiMatchScore := r.status, r.coverLetter, r.resume, r.aiMatchScore;
      notes, interviewSchedule, timeline, communication := r.notes, r.interviewSchedule, r.timeline, r.communication;
      createdAt, isNew := r.createdAt, false;
    }

    /** The pre-save hook: a new application records its submission. */
    method PreSave(now: int)
      modifies this
      ensures isNew == old(isNew)
      ensures Record() == if old(isNew) then Submitted(old(Record()), now) else old(Record())
    {
      if isNew {
        timeline := timeline + [TimelineEntry("Application submitted", candidate, now,
                                              "Application was submitted for the job")];
      }
    }

    /** `updateStatus`, before its save. */
    method UpdateStatus(newStatus: string, performedBy: Id, details: Option<string>, now: int)
      modifies this
      ensures isNew == old(isNew)
      ensures Record() == StatusUpdated(old(Record()), newStatus, performedBy, details, now)
    {
      status := newStatus;
      var text := if details.Some? && details.value != "" then details.value
                  else "Application status updated to " + newStatus;
      timeline := timeline + [TimelineEntry("Status changed to " + newStatus, performedBy, now, text)];
    }

    /** `addCommunication`, before its save. */
    method AddCommunication(kind: Option<string>, content: Option<string>, sentBy: Id, now: int)
      modifies this
      ensures isNew == old(isNew)
      ensures Record() == CommunicationAdded(old(Record()), kind, content, sentBy, now)
    {
      communication := communication + [Communication(kind, content, sentBy, now, false)];
    }

    /** `scheduleInterview`, before its save. */
    method ScheduleInterview(data: InterviewData, now: int)
      modifies this
      ensures isNew == old(isNew)
      ensures Record() == InterviewScheduled(old(Record()), data, now)
    {
      interviewSchedule := interviewSchedule + [InterviewEntry(data)];
      timeline := timeline + [TimelineEntry("Interview scheduled", data.scheduledBy, now,
                                            "Interview scheduled for " + data.scheduledAt)];
    }

    function DaysSinceApplication(now: int): nat
      reads this
    {
      DaysBetween(createdAt, now)
    }
  }

  // ---------------------------------------------------------------------
  // Properties of the document methods

  /** `old` is kept unchanged at the front of `new`, which has exactly one
      more entry. */
  predicate AppendedOne<T(==)>(old_: seq<T>, new_: seq<T>) {
    |new_| == |old_| + 1 && new_[..|old_|] == old_
  }

  /** A new application is pending, with score 0 and exactly one timeline
      entry, the submission, performed by the candidate; it passes
      validation exactly when its cover letter fits in 2000 UTF-16 code units. */
  lemma SubmittedApplication(id: Id, job: Id, candidate: Id, recruiter: Id,
                             coverLetter: Option<string>, resume: Option<FileRef>, now: int)
    ensures var a := Submitted(NewApplication(id, job, candidate, recruiter, coverLetter, resume, now), now);
      && a.status == "pending" && a.aiMatchScore == 0.0
      && |a.timeline| == 1
      && a.timeline[0].action == "Application submitted" && a.timeline[0].performedBy == candidate
      && a.notes == [] && a.interviewSchedule == [] && a.communication == []
      && (ValidApplication(a) <==> (coverLetter.None? || Utf16Length(coverLetter.value) <= MaxCoverLetterLength))
  {
  }

  /** `updateStatus` sets the status, appends exactly one timeline entry that
      names the new status and the actor, keeps every earlier entry, and
      leaves notes, interviews and communication alone. */
  lemma UpdateStatusEffect(a: ApplicationRecord, s: string, actor: Id, details: Option<string>, now: int)
    ensures var r := StatusUpdated(a, s, actor, details, now);
      && r.status == s
      && AppendedOne(a.timeline, r.timeline)
      && r.timeline[|a.timeline|].action == "Status changed to " + s
      && r.timeline[|a.timeline|].performedBy == actor
      && r.timeline[|a.timeline|].details == (if Present(details) then details.value
                                              else "Application status updated to " + s)
      && r.notes == a.notes && r.interviewSchedule == a.interviewSchedule
      && r.communication == a.communication
      && r.(status := a.status, timeline := a.timeline) == a
  {
    var r := StatusUpdated(a, s, actor, details, now);
    assert r.timeline[..|a.timeline|] == a.timeline;
  }

  /** The record stays valid across a status change exactly when the new
      status is one of the seven. */
  lemma UpdateStatusValidity(a: ApplicationRecord, s: string, actor: Id, details: Option<string>, now: int)
    requires ValidApplication(a)
    ensures ValidApplication(StatusUpdated(a, s, actor, details, now)) <==> s in Statuses
  {
  }

  /** `scheduleInterview` appends one interview and one "Interview
      scheduled" timeline entry performed by `scheduledBy`; the status is
      unchanged; the result is valid exactly when the new interview is. */
  lemma ScheduleInterviewEffect(a: ApplicationRecord, data: InterviewData, now: int)
    ensures var r := InterviewScheduled(a, data, now);
      && AppendedOne(a.interviewSchedule, r.interviewSchedule)
      && r.interviewSchedule[|a.interviewSchedule|].scheduledBy == data.scheduledBy
      && AppendedOne(a.timeline, r.timeline)
      && r.timeline[|a.timeline|].action == "Interview scheduled"
      && r.timeline[|a.timeline|].performedBy == data.scheduledBy
      && r.status == a.status && r.notes == a.notes && r.communication == a.communication
      && (ValidApplication(a) ==> (ValidApplication(r) <==> ValidInterview(InterviewEntry(data))))
  {
    var r := InterviewScheduled(a, data, now);
    assert r.timeline[..|a.timeline|] == a.timeline;
    assert r.interviewSchedule[..|a.interviewSchedule|] == a.interviewSchedule;
    if ValidApplication(a) && ValidApplication(r) {
      assert r.interviewSchedule[|a.interviewSchedule|] == InterviewEntry(data);
    }
  }

  /** `addCommunication` appends exactly one unread entry with the given
      type, content and sender, and touches nothing else. */
  lemma AddCommunicationEffect(a: ApplicationRecord, kind: Option<string>, content: Option<string>,
                               sentBy: Id, now: int)
    ensures var r := CommunicationAdded(a, kind, content, sentBy, now);
      && AppendedOne(a.communication, r.communication)
      && r.communication[|a.communication|] == Communication(kind, content, sentBy, now, false)
      && !r.communication[|a.communication|].isRead
      && r.(communication := a.communication) == a
      && (ValidApplication(a) ==> (ValidApplication(r) <==> (kind.None? || kind.value in CommunicationTypes)))
  {
    var r := CommunicationAdded(a, kind, content, sentBy, now);
    assert r.communication[..|a.communication|] == a.communication;
    if ValidApplication(a) && ValidApplication(r) {
      assert ValidCommunication(r.communication[|a.communication|]);
    }
  }

  /** The timeline is append-only: every document method keeps the earlier
      entries as a prefix. */
  lemma TimelineAppendOnly(a: ApplicationRecord, s: string, actor: Id, details: Option<string>,
                           data: InterviewData, kind: Option<string>, content: Option<string>, now: int)
    ensures a.timeline <= Submitted(a, now).timeline
    ensures a.timeline <= StatusUpdated(a, s, actor, details, now).timeline
    ensures a.timeline <= InterviewScheduled(a, data, now).timeline
    ensures a.timeline == CommunicationAdded(a, kind, content, actor, now).timeline
  {
  }
}
