/** The Job and Application collections: fields, enums, defaults, Mongoose's
    validation of a new job, and the document view queries see. */
module JobSchema {
  import opened Base
  import opened MongoQuery

  datatype JobType = FullTime | Internship | Contract

  function JobTypeName(t: JobType): string {
    match t
    case FullTime => "Full-time"
    case Internship => "Internship"
    case Contract => "Contract"
  }

  function ParseJobType(s: string): (r: Option<JobType>)
    ensures r.Some? <==> s in {"Full-time", "Internship", "Contract"}
    ensures r.Some? ==> JobTypeName(r.value) == s
    ensures forall t :: JobTypeName(t) == s ==> r == Some(t)
  {
    if s == "Full-time" then Some(FullTime)
    else if s == "Internship" then Some(Internship)
    else if s == "Contract" then Some(Contract)
    else None
  }

  /** A job awaits moderation (`pending`), is visible (`published`), or is
      `closed`. */
  datatype JobStatus = Pending | Published | Closed

  function JobStatusName(s: JobStatus): string {
    match s
    case Pending => "pending"
    case Published => "published"
    case Closed => "closed"
  }

  function ParseJobStatus(s: string): (r: Option<JobStatus>)
    ensures r.Some? <==> s in {"pending", "published", "closed"}
    ensures r.Some? ==> JobStatusName(r.value) == s
    ensures forall x :: JobStatusName(x) == s ==> r == Some(x)
  {
    if s == "pending" then Some(Pending)
    else if s == "published" then Some(Published)
    else if s == "closed" then Some(Closed)
    else None
  }

  datatype Job = Job(
    id: Id,
    title: string,
    company: string,
    location: string,
    description: string,
    applicationLink: Option<string>,
    jobType: JobType,
    tags: seq<string>,
    postedByUserId: Id,
    postedAt: Time,
    status: JobStatus,
    skillsRequired: seq<string>,
    applicationDeadline: Option<Time>,
    internalApply: bool)

  /** The fields handed to `Job.create`, as given (None: not supplied). */
  datatype JobDraft = JobDraft(
    title: Option<string>,
    company: Option<string>,
    location: Option<string>,
    description: Option<string>,
    applicationLink: Option<string>,
    jobType: Option<string>,
    tags: Option<seq<string>>,
    skillsRequired: Option<seq<string>>,
    applicationDeadline: Option<Time>,
    internalApply: Option<bool>,
    postedByUserId: Option<Id>,
    status: Option<string>)

  /** The schema's `required` paths: title, company, location, description,
      type and postedByUserId. */
  predicate RequiredPresent(d: JobDraft) {
    && Given(d.title) && Given(d.company) && Given(d.location) && Given(d.description)
    && Given(d.jobType) && d.postedByUserId.Some?
  }

  /** Schema validation and defaults for a new job. */
  function ValidateJob(d: JobDraft, id: Id, now: Time): (r: Result<Job>)
    ensures r.Ok? <==> && RequiredPresent(d) && ParseJobType(d.jobType.value).Some?
                       && (d.status.None? || ParseJobStatus(d.status.value).Some?)
    ensures r.Ok? ==> && r.value.id == id && Some(r.value.title) == d.title
                      && Some(r.value.company) == d.company && Some(r.value.location) == d.location
                      && Some(r.value.description) == d.description
                      && Some(r.value.postedByUserId) == d.postedByUserId
                      && Some(JobTypeName(r.value.jobType)) == d.jobType
                      && r.value.applicationDeadline == d.applicationDeadline
                      && r.value.postedAt == now
    ensures r.Ok? && d.status.None? ==> r.value.status == Pending
    ensures r.Ok? && d.status.Some? ==> JobStatusName(r.value.status) == d.status.value
    ensures r.Ok? ==> r.value.internalApply == (d.internalApply == Some(true))
    ensures r.Ok? ==> r.value.applicationLink == d.applicationLink
    ensures r.Ok? && d.tags.None? ==> r.value.tags == []
    ensures r.Ok? && d.tags.Some? ==> r.value.tags == d.tags.value
    ensures r.Ok? && d.skillsRequired.None? ==> r.value.skillsRequired == []
    ensures r.Ok? && d.skillsRequired.Some? ==> r.value.skillsRequired == d.skillsRequired.value
  {
    if !RequiredPresent(d) then Err("Job validation failed: a required path is missing")
    else if ParseJobType(d.jobType.value).None? then Err("Job validation failed: `type` is not a valid enum value")
    else if d.status.Some? && ParseJobStatus(d.status.value).None? then Err("Job validation failed: `status` is not a valid enum value")
    else
      Ok(Job(
        id, d.title.value, d.company.value, d.location.value, d.description.value,
        d.applicationLink, ParseJobType(d.jobType.value).value,
        if d.tags.Some? then d.tags.value else [],
        d.postedByUserId.value, now,
        if d.status.Some? then ParseJobStatus(d.status.value).value else Pending,
        if d.skillsRequired.Some? then d.skillsRequired.value else [],
        d.applicationDeadline,
        if d.internalApply.Some? then d.internalApply.value else false))
  }

  datatype ApplicationStatus = Applied | Shortlisted | Rejected | Hired

  function ApplicationStatusName(s: ApplicationStatus): string {
    match s
    case Applied => "applied"
    case Shortlisted => "shortlisted"
    case Rejected => "rejected"
    case Hired => "hired"
  }

  /** An Application row: `jobId` and `applicantUserId` are required; no
      index makes the pair unique. */
  datatype Application = Application(
    jobId: Id,
    applicantUserId: Id,
    resumeUrl: Option<string>,
    coverLetter: Option<string>,
    status: ApplicationStatus,
    appliedAt: Time,
    notes: Option<string>)

  /** `Application.create({ jobId, applicantUserId })`: the defaults fill in
      status `applied` and the time. */
  function NewApplication(jobId: Id, applicant: Id, now: Time): (a: Application)
    ensures a.jobId == jobId && a.applicantUserId == applicant
    ensures a.status == Applied && ApplicationStatusName(a.status) == "applied"
    ensures a.appliedAt == now
    ensures a.resumeUrl.None? && a.coverLetter.None? && a.notes.None?
  {
    Application(jobId, applicant, None, None, Applied, now, None)
  }

  /** The job as `find` sees it; an unset deadline is an absent field. */
  function JobDocument(j: Job): Document {
    map["_id" := ObjectId(j.id), "title" := Str(j.title), "type" := Str(JobTypeName(j.jobType)),
        "postedByUserId" := ObjectId(j.postedByUserId), "postedAt" := Date(j.postedAt),
        "status" := Str(JobStatusName(j.status)), "internalApply" := Bool(j.internalApply)]
    + (if j.applicationDeadline.Some? then map["applicationDeadline" := Date(j.applicationDeadline.value)] else map[])
  }

  /** The document fields the listing query reads. */
  lemma JobDocumentFields(j: Job)
    ensures var d := JobDocument(j);
            && "status" in d && d["status"] == Str(JobStatusName(j.status))
            && "postedByUserId" in d && d["postedByUserId"] == ObjectId(j.postedByUserId)
            && ("applicationDeadline" in d <==> j.applicationDeadline.Some?)
            && (j.applicationDeadline.Some? ==> d["applicationDeadline"] == Date(j.applicationDeadline.value))
  {
  }

  /** The listing query's two status names pick out one status each. */
  lemma JobStatusNames(s: JobStatus)
    ensures JobStatusName(s) == "published" <==> s == Published
    ensures JobStatusName(s) == "pending" <==> s == Pending
  {
  }
}
