/** The handlers under `/api/applications`. Each handler that writes is a
    method on the store whose effect is stated by an outcome function of the
    store's collections before the request; the read-only handlers are
    functions. The authentication middleware's role checks are
    preconditions on the caller. */
module ApplicationRoutes {
  import opened Common
  import Query
  import opened JobModel
  import opened ApplicationModel
  import opened Store

  const DefaultPage := 1
  const DefaultLimit := 10

  /** A handler's reply together with the jobs and applications it leaves. */
  datatype Outcome<T> = Outcome(reply: Reply<T>, jobs: map<Id, JobRecord>, applications: seq<ApplicationRecord>)

  /** The resume stored with a new application: the one sent, or else the
      one on the candidate's profile. */
  function ResumeFor(resume: Option<FileRef>, caller: User): Option<FileRef> {
    if resume.Some? then resume else caller.profileResume
  }

  /** The record `notes.push` leaves. */
  function NoteAdded(a: ApplicationRecord, n: Note): ApplicationRecord {
    a.(notes := a.notes + [n])
  }

  /** Whether `caller` may change an application to a job posted by `poster`. */
  predicate ManagesJob(caller: User, poster: Id) {
    poster == caller.id || caller.userType == Admin
  }

  /** Whether `caller` is a party to the application or an admin. */
  predicate PartyTo(caller: User, a: ApplicationRecord) {
    a.candidate == caller.id || a.recruiter == caller.id || caller.userType == Admin
  }

  // ---------------------------------------------------------------------
  // POST /api/applications

  function SubmitOutcome(jobs: map<Id, JobRecord>, apps: seq<ApplicationRecord>, caller: User, jobId: Id,
                         coverLetter: Option<string>, resume: Option<FileRef>, newId: Id, now: int)
    : (o: Outcome<ApplicationRecord>)
    ensures o.reply.Ok? ==> o.reply.code == 201 && o.applications == apps + [o.reply.value]
                            && o.reply.value.candidate == caller.id && o.reply.value.job == jobId
    ensures o.reply.Fail? ==> o.jobs == jobs
  {
    if jobId !in jobs then Outcome(Fail(404, "Job not found"), jobs, apps)
    else if jobs[jobId].status != "active" then Outcome(Fail(400, "Job is not accepting applications"), jobs, apps)
    else if HasApplied(apps, jobId, caller.id) then
      Outcome(Fail(400, "You have already applied for this job"), jobs, apps)
    else
      var a := NewApplication(newId, jobId, caller.id, jobs[jobId].postedBy, coverLetter, ResumeFor(resume, caller), now);
      match ApplicationsAfterSave(apps, a, true, now)
      case None => Outcome(ServerError(), jobs, apps)
      case Some(apps1) =>
        match JobsAfterSave(jobs, ApplicationCounted(jobs[jobId]), false)
        case None => Outcome(ServerError(), jobs, apps1)
        case Some(jobs1) => Outcome(Ok(201, Submitted(a, now)), jobs1, apps1)
  }

  /** Apply for a job (candidates only). `newId` is the id the new document
      receives. */
  method Submit(db: Database, caller: User, jobId: Id, coverLetter: Option<string>, resume: Option<FileRef>,
                newId: Id, now: int) returns (reply: Reply<ApplicationRecord>)
    requires db.Valid() && caller.userType == Candidate
    modifies db
    ensures db.Valid()
    ensures var o := SubmitOutcome(old(db.jobs), old(db.applications), caller, jobId, coverLetter, resume, newId, now);
      reply == o.reply && db.jobs == o.jobs && db.applications == o.applications
    ensures db.users == old(db.users) && db.chats == old(db.chats)
  {
    if jobId !in db.jobs {
      return Fail(404, "Job not found");
    }
    var job := new JobDocument.Load(db.jobs[jobId]);
    if job.status != "active" {
      return Fail(400, "Job is not accepting applications");
    }
    if HasApplied(db.applications, jobId, caller.id) {
      return Fail(400, "You have already applied for this job");
    }
    var application := new ApplicationDocument.New(newId, jobId, caller.id, job.postedBy, coverLetter,
                                                   ResumeFor(resume, caller), now);
    var saved := db.SaveApplication(application, now);
    if !saved {
      return ServerError();
    }
    job.IncrementApplicationCount();
    var counted := db.SaveJob(job);
    if !counted {
      return ServerError();
    }
    return Ok(201, application.Record());
  }

  /** A submit succeeds exactly when the job exists and is active, the
      candidate has not applied to it, the chosen id is unused and the cover
      letter fits. The checks run in that order: an unknown job is 404, an
      inactive one 400 even for a candidate who already applied, a
      duplicate 400, and a refused save 500. Then one application is appended: the caller's, for the
      job's poster, pending, with the chosen resume and the submission as
      its only timeline entry; the job's application count goes up by one
      and no other job changes. Any failure leaves the store as it was. */
  lemma SubmitEffect(jobs: map<Id, JobRecord>, apps: seq<ApplicationRecord>, caller: User, jobId: Id,
                     coverLetter: Option<string>, resume: Option<FileRef>, newId: Id, now: int)
    requires JobsInvariant(jobs) && ApplicationsInvariant(apps)
    ensures var o := SubmitOutcome(jobs, apps, caller, jobId, coverLetter, resume, newId, now);
      && (o.reply.Ok? <==> jobId in jobs && jobs[jobId].status == "active" && !HasApplied(apps, jobId, caller.id)
                           && FindApplication(apps, newId).None?
                           && (coverLetter.None? || Utf16Length(coverLetter.value) <= MaxCoverLetterLength))
      && (o.reply.Fail? ==> o.jobs == jobs && o.applications == apps)
      && (jobId !in jobs ==> o.reply == Fail(404, "Job not found"))
      && (jobId in jobs && jobs[jobId].status != "active" ==>
            o.reply == Fail(400, "Job is not accepting applications"))
      && (jobId in jobs && jobs[jobId].status == "active" && HasApplied(apps, jobId, caller.id) ==>
            o.reply == Fail(400, "You have already applied for this job"))
      && (jobId in jobs && jobs[jobId].status == "active" && !HasApplied(apps, jobId, caller.id) && o.reply.Fail? ==>
            o.reply == ServerError())
      && (o.reply.Ok? ==>
            && |o.applications| == |apps| + 1 && o.applications[..|apps|] == apps
            && o.reply.value == o.applications[|apps|]
            && o.reply.value.id == newId && o.reply.value.job == jobId
            && o.reply.value.candidate == caller.id && o.reply.value.recruiter == jobs[jobId].postedBy
            && o.reply.value.status == "pending" && o.reply.value.resume == ResumeFor(resume, caller)
            && |o.reply.value.timeline| == 1 && o.reply.value.timeline[0].action == "Application submitted"
            && o.jobs.Keys == jobs.Keys
            && o.jobs[jobId].applicationCount == jobs[jobId].applicationCount + 1
            && (forall k :: k in jobs && k != jobId ==> o.jobs[k] == jobs[k]))
  {
    var o := SubmitOutcome(jobs, apps, caller, jobId, coverLetter, resume, newId, now);
    if jobId in jobs && jobs[jobId].status == "active" && !HasApplied(apps, jobId, caller.id) {
      var a := NewApplication(newId, jobId, caller.id, jobs[jobId].postedBy, coverLetter, ResumeFor(resume, caller), now);
      SubmittedApplication(newId, jobId, caller.id, jobs[jobId].postedBy, coverLetter, ResumeFor(resume, caller), now);
      if ApplicationsAfterSave(apps, a, true, now).Some? {
        assert ValidJob(ApplicationCounted(jobs[jobId]));
        assert o.applications == apps + [Submitted(a, now)];
      }
    }
  }

  /** Once a candidate's application to a job has gone through, a second
      one to the same job is refused as a duplicate and changes nothing. */
  lemma SubmitTwiceRejected(jobs: map<Id, JobRecord>, apps: seq<ApplicationRecord>, caller: User, jobId: Id,
                            coverLetter: Option<string>, resume: Option<FileRef>, newId: Id, now: int,
                            coverLetter2: Option<string>, resume2: Option<FileRef>, newId2: Id, later: int)
    requires JobsInvariant(jobs) && ApplicationsInvariant(apps)
    requires SubmitOutcome(jobs, apps, caller, jobId, coverLetter, resume, newId, now).reply.Ok?
    ensures var o1 := SubmitOutcome(jobs, apps, caller, jobId, coverLetter, resume, newId, now);
      var o2 := SubmitOutcome(o1.jobs, o1.applications, caller, jobId, coverLetter2, resume2, newId2, later);
      && o2.reply == Fail(400, "You have already applied for this job")
      && o2.jobs == o1.jobs && o2.applications == o1.applications
  {
    SubmitEffect(jobs, apps, caller, jobId, coverLetter, resume, newId, now);
    var o1 := SubmitOutcome(jobs, apps, caller, jobId, coverLetter, resume, newId, now);
    assert o1.applications[|apps|].job == jobId && o1.applications[|apps|].candidate == caller.id;
    assert ValidJob(o1.jobs[jobId]) by {
      assert o1.jobs[jobId] == ApplicationCounted(jobs[jobId]);
    }
  }

  // ---------------------------------------------------------------------
  // GET /api/applications/my-applications and /job/:jobId

  /** One page of a listing: the documents, `Math.ceil(total / limit)`, the
      page number and the number of matches. */
  datatype Page = Page(applications: seq<ApplicationRecord>, totalPages: Option<int>, currentPage: int, total: nat)

  function CreatedAtOf(a: ApplicationRecord): real {
    a.createdAt as real
  }

  function NegCreatedAt(a: ApplicationRecord): real {
    -a.createdAt as real
  }

  function ScoreOf(a: ApplicationRecord): real {
    a.aiMatchScore
  }

  function NegScore(a: ApplicationRecord): real {
    -a.aiMatchScore
  }

  /** The status filter both listings add when a status is given. */
  predicate StatusMatches(a: ApplicationRecord, status: Option<string>) {
    Present(status) ==> a.status == status.value
  }

  predicate OwnMatch(a: ApplicationRecord, caller: User, status: Option<string>) {
    a.candidate == caller.id && StatusMatches(a, status)
  }

  /** `find({ candidate: caller, status? })` in the collection's order. */
  function OwnQuery(apps: seq<ApplicationRecord>, caller: User, status: Option<string>): (r: seq<ApplicationRecord>)
    ensures forall a :: multiset(r)[a] == if OwnMatch(a, caller, status) then multiset(apps)[a] else 0
  {
    if apps == [] then []
    else
      assert apps == [apps[0]] + apps[1..];
      (if OwnMatch(apps[0], caller, status) then [apps[0]] else []) + OwnQuery(apps[1..], caller, status)
  }

  predicate JobMatch(a: ApplicationRecord, jobId: Id, status: Option<string>) {
    a.job == jobId && StatusMatches(a, status)
  }

  /** `find({ job: jobId, status? })` in the collection's order. */
  function JobQuery(apps: seq<ApplicationRecord>, jobId: Id, status: Option<string>): (r: seq<ApplicationRecord>)
    ensures forall a :: multiset(r)[a] == if JobMatch(a, jobId, status) then multiset(apps)[a] else 0
  {
    if apps == [] then []
    else
      assert apps == [apps[0]] + apps[1..];
      (if JobMatch(apps[0], jobId, status) then [apps[0]] else []) + JobQuery(apps[1..], jobId, status)
  }

  /** The page of `matches` after sorting: skip `(page - 1) * limit`, take
      `limit`; a negative skip is refused by the store (500). */
  function PageOf(sorted: seq<ApplicationRecord>, page: int, limit: int): (r: Reply<Page>)
    ensures r.Ok? <==> Query.SkipFor(page, limit) >= 0
    ensures r.Fail? ==> r == ServerError()
    ensures r.Ok? ==> r.value.total == |sorted| && r.value.currentPage == page
                      && forall k :: 0 <= k < |r.value.applications| ==> r.value.applications[k] in sorted
  {
    match Query.Window(sorted, Query.SkipFor(page, limit), limit)
    case None => ServerError()
    case Some(w) => Ok(200, Page(w, Query.TotalPages(|sorted|, limit), page, |sorted|))
  }

  /** The candidate's own applications, newest first, one page at a time;
      `page` defaults to 1 and `limit` to 10. */
  function MyApplications(apps: seq<ApplicationRecord>, caller: User, page: Option<int>, limit: Option<int>,
                          status: Option<string>): (r: Reply<Page>)
    requires caller.userType == Candidate
    ensures r.Fail? ==> r == ServerError()
    ensures r.Ok? ==> r.value.total == |OwnQuery(apps, caller, status)|
  {
    PageOf(Query.SortDesc(OwnQuery(apps, caller, status), CreatedAtOf),
           page.GetOr(DefaultPage), limit.GetOr(DefaultLimit))
  }

  /** `.sort({ [sortBy]: sortOrder === 'desc' ? -1 : 1 })` on the fields an
      application sorts by; any other field name leaves the order of the
      matches as it is. */
  function SortApplications(s: seq<ApplicationRecord>, sortBy: string, sortOrder: string): (r: seq<ApplicationRecord>)
    ensures multiset(r) == multiset(s)
  {
    if sortBy == "createdAt" then
      if sortOrder == "desc" then Query.SortDesc(s, CreatedAtOf) else Query.SortDesc(s, NegCreatedAt)
    else if sortBy == "aiMatchScore" then
      if sortOrder == "desc" then Query.SortDesc(s, ScoreOf) else Query.SortDesc(s, NegScore)
    else s
  }

  /** The applications to one job, for its poster or an admin; sorting
      defaults to `createdAt` descending. */
  function JobApplications(jobs: map<Id, JobRecord>, apps: seq<ApplicationRecord>, caller: User, jobId: Id,
                           page: Option<int>, limit: Option<int>, status: Option<string>,
                           sortBy: Option<string>, sortOrder: Option<string>): (r: Reply<Page>)
    requires caller.userType == Recruiter || caller.userType == Admin
    ensures jobId !in jobs ==> r == Fail(404, "Job not found")
    ensures jobId in jobs && !ManagesJob(caller, jobs[jobId].postedBy) ==>
              r == Fail(403, "Not authorized to view these applications")
    ensures r.Ok? ==> r.value.total == |JobQuery(apps, jobId, status)|
  {
    if jobId !in jobs then Fail(404, "Job not found")
    else if !ManagesJob(caller, jobs[jobId].postedBy) then Fail(403, "Not authorized to view these applications")
    else
      PageOf(SortApplications(JobQuery(apps, jobId, status), sortBy.GetOr("createdAt"), sortOrder.GetOr("desc")),
             page.GetOr(DefaultPage), limit.GetOr(DefaultLimit))
  }

  /** A page of a sorted list keeps the list's order and its elements: the
      k-th entry is the one at `(page - 1) * limit + k`; it has `limit`
      entries, or all that remain when fewer do; and `totalPages` pages of
      `limit` cover the total with less than one page to spare. */
  lemma PageArithmetic(sorted: seq<ApplicationRecord>, page: int, limit: int)
    requires page >= 1 && limit > 0
    ensures PageOf(sorted, page, limit).Ok?
    ensures var p := PageOf(sorted, page, limit).value;
      && p.total == |sorted| && p.currentPage == page
      && |p.applications| <= limit
      && |p.applications| == Query.PageLength(|sorted|, Query.SkipFor(page, limit), limit)
      && (forall k :: 0 <= k < |p.applications| ==>
            Query.SkipFor(page, limit) + k < |sorted| && p.applications[k] == sorted[Query.SkipFor(page, limit) + k])
      && p.totalPages.Some?
      && p.totalPages.value * limit >= p.total && (p.totalPages.value - 1) * limit < p.total
  {
    Query.SkipNonNegative(page, limit);
  }

  /** Every entry of a candidate's listing is the caller's own application,
      with the requested status when one is given; the entries come newest
      first; the total counts exactly the matching applications. */
  lemma MyApplicationsListing(apps: seq<ApplicationRecord>, caller: User, page: int, limit: int,
                              status: Option<string>)
    requires caller.userType == Candidate && page >= 1 && limit > 0
    ensures MyApplications(apps, caller, Some(page), Some(limit), status).Ok?
    ensures var p := MyApplications(apps, caller, Some(page), Some(limit), status).value;
      && |p.applications| <= limit
      && |p.applications| == Query.PageLength(|OwnQuery(apps, caller, status)|, Query.SkipFor(page, limit), limit)
      && (forall k :: 0 <= k < |p.applications| ==>
            p.applications[k] in apps && p.applications[k].candidate == caller.id
            && StatusMatches(p.applications[k], status))
      && (forall i, j :: 0 <= i < j < |p.applications| ==>
            p.applications[i].createdAt >= p.applications[j].createdAt)
      && p.total == |OwnQuery(apps, caller, status)|
  {
    var sorted := Query.SortDesc(OwnQuery(apps, caller, status), CreatedAtOf);
    OwnMatchesSorted(apps, caller, status, sorted);
    PageArithmetic(sorted, page, limit);
    OwnPage(sorted, apps, caller, status, page, limit);
    assert |sorted| == |multiset(sorted)| == |multiset(OwnQuery(apps, caller, status))|
           == |OwnQuery(apps, caller, status)|;
    assert MyApplications(apps, caller, Some(page), Some(limit), status) == PageOf(sorted, page, limit);
  }

  /** The sorted matches are the caller's applications, newest first. */
  lemma OwnMatchesSorted(apps: seq<ApplicationRecord>, caller: User, status: Option<string>,
                         sorted: seq<ApplicationRecord>)
    requires sorted == Query.SortDesc(OwnQuery(apps, caller, status), CreatedAtOf)
    ensures forall k :: 0 <= k < |sorted| ==> sorted[k] in apps && OwnMatch(sorted[k], caller, status)
    ensures forall i, j :: 0 <= i < j < |sorted| ==> sorted[i].createdAt >= sorted[j].createdAt
  {
    var matches := OwnQuery(apps, caller, status);
    forall k | 0 <= k < |sorted|
      ensures sorted[k] in apps && OwnMatch(sorted[k], caller, status)
    {
      assert sorted[k] in multiset(sorted);
      assert multiset(sorted)[sorted[k]] == multiset(matches)[sorted[k]];
    }
    forall i, j | 0 <= i < j < |sorted|
      ensures sorted[i].createdAt >= sorted[j].createdAt
    {
      assert CreatedAtOf(sorted[i]) >= CreatedAtOf(sorted[j]);
    }
  }

  /** A page keeps what holds of every element of the sorted list, and its
      order. */
  lemma OwnPage(sorted: seq<ApplicationRecord>, apps: seq<ApplicationRecord>, caller: User, status: Option<string>,
                page: int, limit: int)
    requires page >= 1 && limit > 0
    requires forall k :: 0 <= k < |sorted| ==> sorted[k] in apps && OwnMatch(sorted[k], caller, status)
    requires forall i, j :: 0 <= i < j < |sorted| ==> sorted[i].createdAt >= sorted[j].createdAt
    ensures PageOf(sorted, page, limit).Ok?
    ensures var p := PageOf(sorted, page, limit).value;
      && (forall k :: 0 <= k < |p.applications| ==>
            p.applications[k] in apps && OwnMatch(p.applications[k], caller, status))
      && (forall i, j :: 0 <= i < j < |p.applications| ==>
            p.applications[i].createdAt >= p.applications[j].createdAt)
  {
    PageArithmetic(sorted, page, limit);
    var p := PageOf(sorted, page, limit).value;
    var skip := Query.SkipFor(page, limit);
    forall i, j | 0 <= i < j < |p.applications|
      ensures p.applications[i].createdAt >= p.applications[j].createdAt
    {
      assert p.applications[i] == sorted[skip + i] && p.applications[j] == sorted[skip + j];
    }
  }

  /** The job listing sorts a permutation of the job's matching
      applications, in the order its two query parameters ask for. */
  lemma JobApplicationsOrder(s: seq<ApplicationRecord>, sortBy: string, sortOrder: string)
    ensures var r := SortApplications(s, sortBy, sortOrder);
      && multiset(r) == multiset(s)
      && (sortBy == "createdAt" && sortOrder == "desc" ==>
            forall i, j :: 0 <= i < j < |r| ==> r[i].createdAt >= r[j].createdAt)
      && (sortBy == "createdAt" && sortOrder != "desc" ==>
            forall i, j :: 0 <= i < j < |r| ==> r[i].createdAt <= r[j].createdAt)
      && (sortBy == "aiMatchScore" && sortOrder == "desc" ==>
            forall i, j :: 0 <= i < j < |r| ==> r[i].aiMatchScore >= r[j].aiMatchScore)
      && (sortBy == "aiMatchScore" && sortOrder != "desc" ==>
            forall i, j :: 0 <= i < j < |r| ==> r[i].aiMatchScore <= r[j].aiMatchScore)
  {
    var r := SortApplications(s, sortBy, sortOrder);
    forall i, j | 0 <= i < j < |r|
      ensures sortBy == "createdAt" && sortOrder == "desc" ==> r[i].createdAt >= r[j].createdAt
      ensures sortBy == "createdAt" && sortOrder != "desc" ==> r[i].createdAt <= r[j].createdAt
      ensures sortBy == "aiMatchScore" && sortOrder == "desc" ==> r[i].aiMatchScore >= r[j].aiMatchScore
      ensures sortBy == "aiMatchScore" && sortOrder != "desc" ==> r[i].aiMatchScore <= r[j].aiMatchScore
    {
      if sortBy == "createdAt" {
        if sortOrder == "desc" {
          assert CreatedAtOf(r[i]) >= CreatedAtOf(r[j]);
        } else {
          assert NegCreatedAt(r[i]) >= NegCreatedAt(r[j]);
        }
      } else if sortBy == "aiMatchScore" {
        if sortOrder == "desc" {
          assert ScoreOf(r[i]) >= ScoreOf(r[j]);
        } else {
          assert NegScore(r[i]) >= NegScore(r[j]);
        }
      }
    }
  }

  /** The job listing is refused to anyone but the job's poster and admins,
      and lists only applications to that job. */
  lemma JobApplicationsAccess(jobs: map<Id, JobRecord>, apps: seq<ApplicationRecord>, caller: User, jobId: Id,
                              page: int, limit: int, status: Option<string>, sortBy: Option<string>,
                              sortOrder: Option<string>)
    requires caller.userType == Recruiter || caller.userType == Admin
    requires page >= 1 && limit > 0
    ensures var r := JobApplications(jobs, apps, caller, jobId, Some(page), Some(limit), status, sortBy, sortOrder);
      && (r.Ok? <==> jobId in jobs && ManagesJob(caller, jobs[jobId].postedBy))
      && (r.Ok? ==> forall k :: 0 <= k < |r.value.applications| ==>
                      r.value.applications[k] in apps && r.value.applications[k].job == jobId
                      && StatusMatches(r.value.applications[k], status))
  {
    if jobId in jobs && ManagesJob(caller, jobs[jobId].postedBy) {
      var matches := JobQuery(apps, jobId, status);
      var sorted := SortApplications(matches, sortBy.GetOr("createdAt"), sortOrder.GetOr("desc"));
      JobApplicationsOrder(matches, sortBy.GetOr("createdAt"), sortOrder.GetOr("desc"));
      PageArithmetic(sorted, page, limit);
      var p := PageOf(sorted, page, limit).value;
      forall k | 0 <= k < |p.applications|
        ensures p.applications[k] in apps && JobMatch(p.applications[k], jobId, status)
      {
        var x := p.applications[k];
        assert x == sorted[Query.SkipFor(page, limit) + k];
        assert x in multiset(sorted);
      }
    }
  }

  // ---------------------------------------------------------------------
  // GET /api/applications/:id

  /** The application, to its candidate, its recruiter or an admin. The
      candidate and recruiter are populated first, so a reference to a
      removed user fails when the handler reads its id (500). */
  function GetApplication(apps: seq<ApplicationRecord>, users: map<Id, User>, caller: User, id: Id)
    : (r: Reply<ApplicationRecord>)
    ensures r.Ok? ==> r.value in apps && r.value.id == id && PartyTo(caller, r.value)
    ensures r.Fail? ==> r.code in {403, 404, 500}
  {
    match FindApplication(apps, id)
    case None => Fail(404, "Application not found")
    case Some(i) =>
      if apps[i].candidate !in users || apps[i].recruiter !in users then ServerError()
      else if !PartyTo(caller, apps[i]) then Fail(403, "Not authorized to view this application")
      else Ok(200, apps[i])
  }

  /** The application is shown exactly to its parties and to admins. */
  lemma GetApplicationAccess(apps: seq<ApplicationRecord>, users: map<Id, User>, caller: User, id: Id)
    ensures var r := GetApplication(apps, users, caller, id);
      && (r.Ok? ==> r.value in apps && r.value.id == id && PartyTo(caller, r.value))
      && (forall i :: 0 <= i < |apps| && apps[i].id == id && apps[i].candidate in users
                      && apps[i].recruiter in users && ApplicationsInvariant(apps) ==>
            (r.Ok? <==> PartyTo(caller, apps[i])))
      && (r == Fail(404, "Application not found") <==> forall i :: 0 <= i < |apps| ==> apps[i].id != id)
  {
    forall i | 0 <= i < |apps| && apps[i].id == id && apps[i].candidate in users
               && apps[i].recruiter in users && ApplicationsInvariant(apps)
      ensures GetApplication(apps, users, caller, id).Ok? <==> PartyTo(caller, apps[i])
    {
      FindApplicationUnique(apps, id, i);
    }
  }

  // ---------------------------------------------------------------------
  // PUT /api/applications/:id/status

  function UpdateStatusOutcome(jobs: map<Id, JobRecord>, apps: seq<ApplicationRecord>, caller: User, id: Id,
                               status: string, notes: Option<string>, now: int): (o: Outcome<ApplicationRecord>)
    ensures o.jobs == jobs && |o.applications| == |apps|
    ensures o.reply.Ok? ==> o.reply.value.status == status && o.reply.value in o.applications
  {
    match FindApplication(apps, id)
    case None => Outcome(Fail(404, "Application not found"), jobs, apps)
    case Some(i) =>
      if apps[i].job !in jobs then Outcome(ServerError(), jobs, apps)
      else if !ManagesJob(caller, jobs[apps[i].job].postedBy) then
        Outcome(Fail(403, "Not authorized to update this application"), jobs, apps)
      else
        var updated := StatusUpdated(apps[i], status, caller.id, notes, now);
        match ApplicationsAfterSave(apps, updated, false, now)
        case None => Outcome(ServerError(), jobs, apps)
        case Some(apps1) =>
          assert apps1[FindApplication(apps, updated.id).value] == updated;
          if !Present(notes) then Outcome(Ok(200, updated), jobs, apps1)
          else
            var noted := NoteAdded(updated, Note(caller.id, notes, now, false));
            match ApplicationsAfterSave(apps1, noted, false, now)
            case None => Outcome(ServerError(), jobs, apps1)
            case Some(apps2) =>
              assert apps2[FindApplication(apps1, noted.id).value] == noted;
              Outcome(Ok(200, noted), jobs, apps2)
  }

  /** Change the status (recruiters and admins). A missing job reference
      makes the handler read a property of null (500). */
  method UpdateStatus(db: Database, caller: User, id: Id, status: string, notes: Option<string>, now: int)
    returns (reply: Reply<ApplicationRecord>)
    requires db.Valid() && (caller.userType == Recruiter || caller.userType == Admin)
    modifies db
    ensures db.Valid()
    ensures var o := UpdateStatusOutcome(old(db.jobs), old(db.applications), caller, id, status, notes, now);
      reply == o.reply && db.jobs == o.jobs && db.applications == o.applications
    ensures db.users == old(db.users) && db.chats == old(db.chats)
  {
    var found := FindApplication(db.applications, id);
    if found.None? {
      return Fail(404, "Application not found");
    }
    var application := new ApplicationDocument.Load(db.applications[found.value]);
    if application.job !in db.jobs {
      return ServerError();
    }
    var job := db.jobs[application.job];
    if job.postedBy != caller.id && caller.userType != Admin {
      return Fail(403, "Not authorized to update this application");
    }
    application.UpdateStatus(status, caller.id, notes, now);
    var saved := db.SaveApplication(application, now);
    if !saved {
      return ServerError();
    }
    if notes.Some? && notes.value != "" {
      application.notes := application.notes + [Note(caller.id, notes, now, false)];
      saved := db.SaveApplication(application, now);
      if !saved {
        return ServerError();
      }
    }
    return Ok(200, application.Record());
  }

  /** A status update is refused (403) to anyone but the job's poster and
      admins; it succeeds exactly when the caller may change it and the new
      status is one of the seven. Then the one application changes: its
      status is the new one, its timeline grows by exactly one entry by the
      caller whose action names the new status, and its notes grow by one
      public note holding `notes` exactly when `notes` is non-empty; every
      other field stays; every other application and every job stays. A refusal changes
      nothing. */
  lemma UpdateStatusEffect(jobs: map<Id, JobRecord>, apps: seq<ApplicationRecord>, caller: User, i: nat,
                           status: string, notes: Option<string>, now: int)
    requires JobsInvariant(jobs) && ApplicationsInvariant(apps)
    requires i < |apps|
    ensures var o := UpdateStatusOutcome(jobs, apps, caller, apps[i].id, status, notes, now);
      var a := apps[i];
      && (o.reply.Fail? && o.reply.code == 403 <==> a.job in jobs && !ManagesJob(caller, jobs[a.job].postedBy))
      && (a.job in jobs && !ManagesJob(caller, jobs[a.job].postedBy) ==>
            o.reply == Fail(403, "Not authorized to update this application"))
      && (o.reply.Ok? <==> a.job in jobs && ManagesJob(caller, jobs[a.job].postedBy) && status in Statuses)
      && (o.reply.Fail? && o.reply.code != 403 ==> o.reply == ServerError())
      && (o.reply.Fail? ==> o.applications == apps)
      && o.jobs == jobs
      && (o.reply.Ok? ==>
            var r := o.applications[i];
            && |o.applications| == |apps|
            && (forall k :: 0 <= k < |apps| && k != i ==> o.applications[k] == apps[k])
            && r == o.reply.value
            && r.status == status
            && AppendedOne(a.timeline, r.timeline) && r.timeline[|a.timeline|].performedBy == caller.id
            && r.timeline[|a.timeline|].action == "Status changed to " + status
            && r.(status := a.status, timeline := a.timeline, notes := a.notes) == a
            && (Present(notes) ==> AppendedOne(a.notes, r.notes)
                                   && r.notes[|a.notes|] == Note(caller.id, notes, now, false))
            && (!Present(notes) ==> r.notes == a.notes)
            && r.interviewSchedule == a.interviewSchedule && r.communication == a.communication)
  {
    var a := apps[i];
    FindApplicationUnique(apps, a.id, i);
    ApplicationModel.UpdateStatusEffect(a, status, caller.id, notes, now);
    StatusSaves(apps, i, status, caller.id, notes, now);
  }

  /** The status save succeeds exactly when the status is one of the
      statuses, and the note save after it always succeeds; each replaces
      the record in place. */
  lemma StatusSaves(apps: seq<ApplicationRecord>, i: nat, status: string, actor: Id, notes: Option<string>, now: int)
    requires ApplicationsInvariant(apps) && i < |apps|
    ensures var updated := StatusUpdated(apps[i], status, actor, notes, now);
      ApplicationsAfterSave(apps, updated, false, now)
      == (if status in Statuses then Some(apps[i := updated]) else None)
    ensures var updated := StatusUpdated(apps[i], status, actor, notes, now);
      var noted := NoteAdded(updated, Note(actor, notes, now, false));
      status in Statuses ==>
        ApplicationsAfterSave(apps[i := updated], noted, false, now) == Some(apps[i := updated][i := noted])
  {
    var a := apps[i];
    FindApplicationUnique(apps, a.id, i);
    ApplicationModel.UpdateStatusEffect(a, status, actor, notes, now);
    var updated := StatusUpdated(a, status, actor, notes, now);
    UpdateStatusValidity(a, status, actor, notes, now);
    if status in Statuses {
      assert !PairTakenElsewhere(apps, i, updated);
      var apps1 := apps[i := updated];
      ApplicationSaveKeepsInvariant(apps, updated, false, now);
      var noted := NoteAdded(updated, Note(actor, notes, now, false));
      FindApplicationUnique(apps1, a.id, i);
      assert !PairTakenElsewhere(apps1, i, noted);
    }
  }

  // ---------------------------------------------------------------------
  // POST /api/applications/:id/notes

  function AddNoteOutcome(jobs: map<Id, JobRecord>, apps: seq<ApplicationRecord>, caller: User, id: Id,
                          content: Option<string>, isPrivate: Option<bool>, now: int): (o: Outcome<ApplicationRecord>)
    ensures o.jobs == jobs && |o.applications| == |apps|
    ensures o.reply.Fail? ==> o.applications == apps
    ensures o.reply.Ok? ==> o.reply.value in o.applications && o.reply.value.notes != []
                            && o.reply.value.notes[|o.reply.value.notes| - 1].addedBy == caller.id
  {
    match FindApplication(apps, id)
    case None => Outcome(Fail(404, "Application not found"), jobs, apps)
    case Some(i) =>
      if !PartyTo(caller, apps[i]) then Outcome(Fail(403, "Not authorized to add notes to this application"), jobs, apps)
      else
        var noted := NoteAdded(apps[i], Note(caller.id, content, now, isPrivate.GetOr(false)));
        match ApplicationsAfterSave(apps, noted, false, now)
        case None => Outcome(ServerError(), jobs, apps)
        case Some(apps1) =>
          assert apps1[FindApplication(apps, noted.id).value] == noted;
          assert noted.notes[|noted.notes| - 1] == Note(caller.id, content, now, isPrivate.GetOr(false));
          Outcome(Ok(200, noted), jobs, apps1)
  }

  /** Add a note (any party to the application, or an admin). */
  method AddNote(db: Database, caller: User, id: Id, content: Option<string>, isPrivate: Option<bool>, now: int)
    returns (reply: Reply<ApplicationRecord>)
    requires db.Valid()
    modifies db
    ensures db.Valid()
    ensures var o := AddNoteOutcome(old(db.jobs), old(db.applications), caller, id, content, isPrivate, now);
      reply == o.reply && db.jobs == o.jobs && db.applications == o.applications
    ensures db.users == old(db.users) && db.chats == old(db.chats)
  {
    var found := FindApplication(db.applications, id);
    if found.None? {
      return Fail(404, "Application not found");
    }
    var application := new ApplicationDocument.Load(db.applications[found.value]);
    var isOwner := application.candidate == caller.id;
    var isRecruiter := application.recruiter == caller.id;
    var isAdmin := caller.userType == Admin;
    if !isOwner && !isRecruiter && !isAdmin {
      return Fail(403, "Not authorized to add notes to this application");
    }
    application.notes := application.notes + [Note(caller.id, content, now, isPrivate.GetOr(false))];
    var saved := db.SaveApplication(application, now);
    if !saved {
      return ServerError();
    }
    return Ok(200, application.Record());
  }

  /** A note is added exactly when the caller is the candidate, the
      recruiter or an admin; it is the only change: one note by the caller,
      private only when asked, with status and timeline untouched. */
  lemma AddNoteEffect(jobs: map<Id, JobRecord>, apps: seq<ApplicationRecord>, caller: User, i: nat,
                      content: Option<string>, isPrivate: Option<bool>, now: int)
    requires ApplicationsInvariant(apps) && i < |apps|
    ensures var o := AddNoteOutcome(jobs, apps, caller, apps[i].id, content, isPrivate, now);
      var a := apps[i];
      && (o.reply.Ok? <==> PartyTo(caller, a))
      && (o.reply.Fail? ==> o.reply == Fail(403, "Not authorized to add notes to this application")
                            && o.applications == apps)
      && o.jobs == jobs
      && (o.reply.Ok? ==>
            && o.applications == apps[i := o.reply.value]
            && AppendedOne(a.notes, o.reply.value.notes)
            && o.reply.value.notes[|a.notes|] == Note(caller.id, content, now, isPrivate.GetOr(false))
            && (isPrivate.None? ==> !o.reply.value.notes[|a.notes|].isPrivate)
            && o.reply.value.status == a.status && o.reply.value.timeline == a.timeline)
  {
    var a := apps[i];
    FindApplicationUnique(apps, a.id, i);
    var noted := NoteAdded(a, Note(caller.id, content, now, isPrivate.GetOr(false)));
    assert !PairTakenElsewhere(apps, i, noted);
    assert noted.notes[..|a.notes|] == a.notes;
  }

  // ---------------------------------------------------------------------
  // POST /api/applications/:id/interview

  function ScheduleInterviewOutcome(jobs: map<Id, JobRecord>, apps: seq<ApplicationRecord>, caller: User, id: Id,
                                    body: InterviewData, now: int): (o: Outcome<ApplicationRecord>)
    ensures o.jobs == jobs && |o.applications| == |apps|
    ensures o.reply.Fail? ==> o.applications == apps
    ensures o.reply.Ok? ==>
              && o.reply.value in o.applications && o.reply.value.interviewSchedule != []
              && o.reply.value.interviewSchedule[|o.reply.value.interviewSchedule| - 1].scheduledBy == caller.id
  {
    var data := body.(scheduledBy := caller.id);
    match FindApplication(apps, id)
    case None => Outcome(Fail(404, "Application not found"), jobs, apps)
    case Some(i) =>
      if apps[i].job !in jobs then Outcome(ServerError(), jobs, apps)
      else if !ManagesJob(caller, jobs[apps[i].job].postedBy) then
        Outcome(Fail(403, "Not authorized to schedule interview for this application"), jobs, apps)
      else
        var scheduled := InterviewScheduled(apps[i], data, now);
        match ApplicationsAfterSave(apps, scheduled, false, now)
        case None => Outcome(ServerError(), jobs, apps)
        case Some(apps1) =>
          assert apps1[FindApplication(apps, scheduled.id).value] == scheduled;
          assert scheduled.interviewSchedule[|scheduled.interviewSchedule| - 1] == InterviewEntry(data);
          Outcome(Ok(200, scheduled), jobs, apps1)
  }

  /** Schedule an interview (recruiters and admins). `body` is the request
      body; whatever `scheduledBy` it holds is replaced by the caller. */
  method ScheduleInterview(db: Database, caller: User, id: Id, body: InterviewData, now: int)
    returns (reply: Reply<ApplicationRecord>)
    requires db.Valid() && (caller.userType == Recruiter || caller.userType == Admin)
    modifies db
    ensures db.Valid()
    ensures var o := ScheduleInterviewOutcome(old(db.jobs), old(db.applications), caller, id, body, now);
      reply == o.reply && db.jobs == o.jobs && db.applications == o.applications
    ensures db.users == old(db.users) && db.chats == old(db.chats)
  {
    var interviewData := body.(scheduledBy := caller.id);
    var found := FindApplication(db.applications, id);
    if found.None? {
      return Fail(404, "Application not found");
    }
    var application := new ApplicationDocument.Load(db.applications[found.value]);
    if application.job !in db.jobs {
      return ServerError();
    }
    var job := db.jobs[application.job];
    if job.postedBy != caller.id && caller.userType != Admin {
      return Fail(403, "Not authorized to schedule interview for this application");
    }
    application.ScheduleInterview(interviewData, now);
    var saved := db.SaveApplication(application, now);
    if !saved {
      return ServerError();
    }
    return Ok(200, application.Record());
  }

  /** An interview is added only for the job's poster or an admin, and only
      when it is valid; anyone else gets 403, and a missing job or a refused
      save 500. The stored interview and its timeline entry name the caller,
      whatever the body said; the status stays. */
  lemma ScheduleInterviewEffect(jobs: map<Id, JobRecord>, apps: seq<ApplicationRecord>, caller: User, i: nat,
                                body: InterviewData, now: int)
    requires JobsInvariant(jobs) && ApplicationsInvariant(apps) && i < |apps|
    ensures var o := ScheduleInterviewOutcome(jobs, apps, caller, apps[i].id, body, now);
      var a := apps[i];
      && (o.reply.Ok? <==> a.job in jobs && ManagesJob(caller, jobs[a.job].postedBy)
                           && ValidInterview(InterviewEntry(body.(scheduledBy := caller.id))))
      && (a.job in jobs && !ManagesJob(caller, jobs[a.job].postedBy) ==>
            o.reply == Fail(403, "Not authorized to schedule interview for this application"))
      && (o.reply.Fail? && o.reply.code != 403 ==> o.reply == ServerError())
      && (o.reply.Fail? ==> o.applications == apps)
      && o.jobs == jobs
      && (o.reply.Ok? ==>
            var r := o.reply.value;
            && o.applications == apps[i := r]
            && AppendedOne(a.interviewSchedule, r.interviewSchedule)
            && r.interviewSchedule[|a.interviewSchedule|].scheduledBy == caller.id
            && AppendedOne(a.timeline, r.timeline)
            && r.timeline[|a.timeline|].action == "Interview scheduled"
            && r.timeline[|a.timeline|].performedBy == caller.id
            && r.status == a.status && r.notes == a.notes)
  {
    var a := apps[i];
    var data := body.(scheduledBy := caller.id);
    FindApplicationUnique(apps, a.id, i);
    ApplicationModel.ScheduleInterviewEffect(a, data, now);
    var scheduled := InterviewScheduled(a, data, now);
    assert !PairTakenElsewhere(apps, i, scheduled);
  }

  /** An id no application holds gets 404 from every handler on one
      application, and nothing changes. */
  lemma UnknownApplication(jobs: map<Id, JobRecord>, apps: seq<ApplicationRecord>, users: map<Id, User>,
                           caller: User, id: Id, status: string, notes: Option<string>, content: Option<string>,
                           isPrivate: Option<bool>, body: InterviewData, now: int)
    requires forall k :: 0 <= k < |apps| ==> apps[k].id != id
    ensures GetApplication(apps, users, caller, id) == Fail(404, "Application not found")
    ensures UpdateStatusOutcome(jobs, apps, caller, id, status, notes, now)
            == Outcome(Fail(404, "Application not found"), jobs, apps)
    ensures AddNoteOutcome(jobs, apps, caller, id, content, isPrivate, now)
            == Outcome(Fail(404, "Application not found"), jobs, apps)
    ensures ScheduleInterviewOutcome(jobs, apps, caller, id, body, now)
            == Outcome(Fail(404, "Application not found"), jobs, apps)
  {
    assert FindApplication(apps, id).None?;
  }

  // ---------------------------------------------------------------------
  // GET /api/applications/dashboard/stats

  /** The `stats` object: empty for an admin; `totalJobs` only for a
      recruiter. */
  datatype Stats =
    | NoStats
    | Stats(totalApplications: nat, pendingApplications: nat, shortlistedApplications: nat,
            interviewedApplications: nat, totalJobs: Option<nat>)

  /** The ids of the jobs `u` posted (`Job.find({ postedBy })`). */
  function PostedBy(jobs: map<Id, JobRecord>, u: Id): set<Id> {
    set k | k in jobs && jobs[k].postedBy == u
  }

  /** Whose applications the caller's statistics count: a candidate's own,
      a recruiter's those to the jobs they posted. */
  predicate Counted(a: ApplicationRecord, caller: User, myJobs: set<Id>) {
    if caller.userType == Candidate then a.candidate == caller.id else a.job in myJobs
  }

  /** `countDocuments`, with a status filter when one is given. */
  function CountApplications(apps: seq<ApplicationRecord>, caller: User, myJobs: set<Id>, status: Option<string>)
    : (n: nat)
    ensures n <= |apps|
  {
    if apps == [] then 0
    else
      (if Counted(apps[0], caller, myJobs) && (status.Some? ==> apps[0].status == status.value) then 1 else 0)
      + CountApplications(apps[1..], caller, myJobs, status)
  }

  function StatsFor(apps: seq<ApplicationRecord>, caller: User, myJobs: set<Id>, totalJobs: Option<nat>): Stats {
    Stats(CountApplications(apps, caller, myJobs, None),
          CountApplications(apps, caller, myJobs, Some("pending")),
          CountApplications(apps, caller, myJobs, Some("shortlisted")),
          CountApplications(apps, caller, myJobs, Some("interviewed")),
          totalJobs)
  }

  function DashboardStats(jobs: map<Id, JobRecord>, apps: seq<ApplicationRecord>, caller: User): (s: Stats)
    ensures s.NoStats? <==> caller.userType == Admin
    ensures s.Stats? ==> s.totalApplications <= |apps| && (s.totalJobs.Some? <==> caller.userType == Recruiter)
  {
    match caller.userType
    case Candidate => StatsFor(apps, caller, {}, None)
    case Recruiter =>
      var myJobs := PostedBy(jobs, caller.id);
      StatsFor(apps, caller, myJobs, Some(|myJobs|))
    case Admin => NoStats
  }

  /** An application has one status, so the three status counts together
      never exceed the total. */
  lemma {:induction false} StatusCountsBounded(apps: seq<ApplicationRecord>, caller: User, myJobs: set<Id>)
    ensures CountApplications(apps, caller, myJobs, Some("pending"))
            + CountApplications(apps, caller, myJobs, Some("shortlisted"))
            + CountApplications(apps, caller, myJobs, Some("interviewed"))
            <= CountApplications(apps, caller, myJobs, None)
  {
    if apps != [] {
      StatusCountsBounded(apps[1..], caller, myJobs);
    }
  }

  /** A candidate's dashboard agrees with their listing: the total and each
      status count are the totals the listing reports with that filter. */
  lemma {:induction false} CandidateCountsMatchListing(apps: seq<ApplicationRecord>, caller: User, status: Option<string>)
    requires caller.userType == Candidate && status != Some("")
    ensures CountApplications(apps, caller, {}, status) == |OwnQuery(apps, caller, status)|
  {
    if apps != [] {
      CandidateCountsMatchListing(apps[1..], caller, status);
    }
  }

  /** A recruiter's count over one job is the total that job's listing
      (`GET /job/:jobId`) reports with the same status filter. */
  lemma {:induction false} RecruiterCountsMatchJobListing(apps: seq<ApplicationRecord>, caller: User, j: Id,
                                                          status: Option<string>)
    requires caller.userType == Recruiter && status != Some("")
    ensures CountApplications(apps, caller, {j}, status) == |JobQuery(apps, j, status)|
  {
    if apps != [] {
      RecruiterCountsMatchJobListing(apps[1..], caller, j, status);
      assert Counted(apps[0], caller, {j}) <==> apps[0].job == j;
      assert CountApplications(apps, caller, {j}, status)
             == (if JobMatch(apps[0], j, status) then 1 else 0) + CountApplications(apps[1..], caller, {j}, status);
      assert JobQuery(apps, j, status)
             == (if JobMatch(apps[0], j, status) then [apps[0]] else []) + JobQuery(apps[1..], j, status);
    }
  }

  /** `job: { $in: jobIds }` over two disjoint sets of jobs counts the sum of
      the two counts. */
  lemma {:induction false} RecruiterCountsAdd(apps: seq<ApplicationRecord>, caller: User, a: set<Id>, b: set<Id>,
                                              status: Option<string>)
    requires caller.userType == Recruiter && a !! b
    ensures CountApplications(apps, caller, a + b, status)
            == CountApplications(apps, caller, a, status) + CountApplications(apps, caller, b, status)
  {
    if apps != [] {
      RecruiterCountsAdd(apps[1..], caller, a, b, status);
    }
  }

  /** Some job of a non-empty set, the same one on every call. */
  ghost function PickJob(js: set<Id>): (j: Id)
    requires js != {}
    ensures j in js
  {
    var j :| j in js; j
  }

  /** The job listings' totals summed over a set of jobs: what a recruiter
      would add up by opening each of their jobs' applications. */
  ghost function JobListingsTotal(apps: seq<ApplicationRecord>, js: set<Id>, status: Option<string>): nat
    decreases js
  {
    if js == {} then 0
    else |JobQuery(apps, PickJob(js), status)| + JobListingsTotal(apps, js - {PickJob(js)}, status)
  }

  /** A recruiter's count over any set of jobs is the sum of those jobs'
      listing totals. */
  lemma {:induction false} RecruiterCountsMatchListings(apps: seq<ApplicationRecord>, caller: User, js: set<Id>,
                                                        status: Option<string>)
    requires caller.userType == Recruiter && status != Some("")
    ensures CountApplications(apps, caller, js, status) == JobListingsTotal(apps, js, status)
    decreases js
  {
    if js == {} {
      NoJobsNoCount(apps, caller, status);
    } else {
      var j := PickJob(js);
      assert js == {j} + (js - {j});
      RecruiterCountsAdd(apps, caller, {j}, js - {j}, status);
      RecruiterCountsMatchJobListing(apps, caller, j, status);
      RecruiterCountsMatchListings(apps, caller, js - {j}, status);
    }
  }

  /** A recruiter who posted no job counts no application. */
  lemma {:induction false} NoJobsNoCount(apps: seq<ApplicationRecord>, caller: User, status: Option<string>)
    requires caller.userType == Recruiter
    ensures CountApplications(apps, caller, {}, status) == 0
  {
    if apps != [] {
      NoJobsNoCount(apps[1..], caller, status);
    }
  }

  /** A recruiter's dashboard: each count is the sum, over the jobs they
      posted, of what that job's listing reports with the same status
      filter, and `totalJobs` is the number of those jobs. */
  lemma RecruiterDashboard(jobs: map<Id, JobRecord>, apps: seq<ApplicationRecord>, caller: User)
    requires caller.userType == Recruiter
    ensures var s := DashboardStats(jobs, apps, caller);
      var mine := PostedBy(jobs, caller.id);
      && s.Stats?
      && s.totalApplications == JobListingsTotal(apps, mine, None)
      && s.pendingApplications == JobListingsTotal(apps, mine, Some("pending"))
      && s.shortlistedApplications == JobListingsTotal(apps, mine, Some("shortlisted"))
      && s.interviewedApplications == JobListingsTotal(apps, mine, Some("interviewed"))
      && s.totalJobs == Some(|mine|)
  {
    var mine := PostedBy(jobs, caller.id);
    RecruiterCountsMatchListings(apps, caller, mine, None);
    RecruiterCountsMatchListings(apps, caller, mine, Some("pending"));
    RecruiterCountsMatchListings(apps, caller, mine, Some("shortlisted"));
    RecruiterCountsMatchListings(apps, caller, mine, Some("interviewed"));
  }

  /** A candidate's dashboard: each count is the total their own listing
      reports with the same status filter. */
  lemma CandidateDashboard(jobs: map<Id, JobRecord>, apps: seq<ApplicationRecord>, caller: User)
    requires caller.userType == Candidate
    ensures var s := DashboardStats(jobs, apps, caller);
      && s.Stats?
      && s.totalApplications == |OwnQuery(apps, caller, None)|
      && s.pendingApplications == |OwnQuery(apps, caller, Some("pending"))|
      && s.shortlistedApplications == |OwnQuery(apps, caller, Some("shortlisted"))|
      && s.interviewedApplications == |OwnQuery(apps, caller, Some("interviewed"))|
      && s.totalJobs == None
  {
    CandidateCountsMatchListing(apps, caller, None);
    CandidateCountsMatchListing(apps, caller, Some("pending"));
    CandidateCountsMatchListing(apps, caller, Some("shortlisted"));
    CandidateCountsMatchListing(apps, caller, Some("interviewed"));
  }

  /** The dashboard by user type: candidates and recruiters get counts whose
      status parts fit in the total, recruiters also the number of jobs they
      posted, admins nothing. */
  lemma DashboardShape(jobs: map<Id, JobRecord>, apps: seq<ApplicationRecord>, caller: User)
    ensures var s := DashboardStats(jobs, apps, caller);
      && (s.NoStats? <==> caller.userType == Admin)
      && (s.Stats? ==> s.pendingApplications + s.shortlistedApplications + s.interviewedApplications
                       <= s.totalApplications <= |apps|)
      && (s.Stats? ==> (s.totalJobs.Some? <==> caller.userType == Recruiter))
      && (caller.userType == Recruiter ==> s.totalJobs == Some(|PostedBy(jobs, caller.id)|))
  {
    match caller.userType
    case Candidate => StatusCountsBounded(apps, caller, {});
    case Recruiter => StatusCountsBounded(apps, caller, PostedBy(jobs, caller.id));
    case Admin =>
  }
}
