/** The job posting document, reduced to what the application workflow
    consults: its poster, its status and its two counters. */
module JobModel {
  import opened Common

  const JobStatuses := ["draft", "active", "paused", "closed", "filled"]

  datatype JobRecord = JobRecord(id: Id, postedBy: Id, status: string, applicationCount: int, viewCount: int)

  /** The schema's enum check on `status`. */
  predicate ValidJob(j: JobRecord) {
    j.status in JobStatuses
  }

  /** `incrementViewCount()` on the stored record. */
  function ViewCounted(j: JobRecord): JobRecord {
    j.(viewCount := j.viewCount + 1)
  }

  /** `incrementApplicationCount()` on the stored record. */
  function ApplicationCounted(j: JobRecord): JobRecord {
    j.(applicationCount := j.applicationCount + 1)
  }

  /** The record of a job posting that has just been created. */
  function NewJob(id: Id, postedBy: Id, status: Option<string>): JobRecord {
    JobRecord(id, postedBy, status.GetOr("active"), 0, 0)
  }

  class JobDocument {
    var id: Id
    var postedBy: Id
    var status: string
    var applicationCount: int
    var viewCount: int
    var isNew: bool

    function Record(): JobRecord
      reads this
    {
      JobRecord(id, postedBy, status, applicationCount, viewCount)
    }

    /** `new Job({...})`: status defaults to active, both counters to 0. */
    constructor New(id: Id, postedBy: Id, status: Option<string>)
      ensures isNew && Record() == NewJob(id, postedBy, status)
    {
      this.id, this.postedBy, this.status := id, postedBy, status.GetOr("active");
      applicationCount, viewCount, isNew := 0, 0, true;
    }

    constructor Load(r: JobRecord)
      ensures !isNew && Record() == r
    {
      id, postedBy, status, applicationCount, viewCount := r.id, r.postedBy, r.status, r.applicationCount, r.viewCount;
      isNew := false;
    }

    /** `incrementViewCount()`, before its save. */
    method IncrementViewCount()
      modifies this
      ensures viewCount == old(viewCount) + 1
      ensures id == old(id) && postedBy == old(postedBy) && status == old(status)
      ensures applicationCount == old(applicationCount) && isNew == old(isNew)
      ensures Record() == ViewCounted(old(Record()))
    {
      viewCount := viewCount + 1;
    }

    /** `incrementApplicationCount()`, before its save. */
    method IncrementApplicationCount()
      modifies this
      ensures applicationCount == old(applicationCount) + 1
      ensures id == old(id) && postedBy == old(postedBy) && status == old(status)
      ensures viewCount == old(viewCount) && isNew == old(isNew)
      ensures Record() == ApplicationCounted(old(Record()))
    {
      applicationCount := applicationCount + 1;
    }
  }

  /** A new posting is active with both counters at zero unless the poster
      chose another status; a status from the enum keeps it valid. */
  lemma NewJobDefaults(id: Id, postedBy: Id, status: Option<string>)
    ensures NewJob(id, postedBy, None).status == "active" && ValidJob(NewJob(id, postedBy, None))
    ensures NewJob(id, postedBy, status).applicationCount == 0 && NewJob(id, postedBy, status).viewCount == 0
    ensures ValidJob(NewJob(id, postedBy, status)) <==> (status.None? || status.value in JobStatuses)
  {
  }

  /** The increments raise their own counter by one and touch nothing else,
      so neither counter ever goes down and the status stays valid. */
  lemma IncrementsOnlyGrow(j: JobRecord)
    ensures ViewCounted(j).viewCount == j.viewCount + 1 && ViewCounted(j).(viewCount := j.viewCount) == j
    ensures ApplicationCounted(j).applicationCount == j.applicationCount + 1
    ensures ApplicationCounted(j).(applicationCount := j.applicationCount) == j
    ensures ValidJob(j) ==> ValidJob(ViewCounted(j)) && ValidJob(ApplicationCounted(j))
  {
  }
}
