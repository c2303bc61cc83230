/** The job handlers: posting a job for moderation, listing the jobs a caller
    may see, an administrator's verification, and applying once per job. */
module JobsController {
  import opened Base
  import opened Seqs
  import opened MongoQuery
  import opened UserSchema
  import opened JobSchema

  ghost predicate UniqueJobIds(jobs: seq<Job>) {
    forall i, j :: 0 <= i < j < |jobs| ==> jobs[i].id != jobs[j].id
  }

  /** `Job.findById(id)`, as a position in the collection. */
  function FindJob(jobs: seq<Job>, id: Id): (r: Option<nat>)
    ensures r.Some? ==> r.value < |jobs| && jobs[r.value].id == id
    ensures r.None? <==> forall j :: 0 <= j < |jobs| ==> jobs[j].id != id
  {
    FirstIndex(jobs, (x: Job) => x.id == id)
  }

  predicate HasApplied(apps: seq<Application>, jobId: Id, applicant: Id) {
    exists i | 0 <= i < |apps| :: apps[i].jobId == jobId && apps[i].applicantUserId == applicant
  }

  /** No applicant has two rows for one job; the duplicate check keeps it. */
  ghost predicate NoDuplicateApplications(apps: seq<Application>) {
    forall i, j :: 0 <= i < j < |apps| ==>
      !(apps[i].jobId == apps[j].jobId && apps[i].applicantUserId == apps[j].applicantUserId)
  }

  // -------------------------------------------------------------- creation

  /** The fields `createJob` reads from `req.body`; the deadline is already
      cast to milliseconds. */
  datatype JobBody = JobBody(
    title: Option<string>,
    company: Option<string>,
    location: Option<string>,
    description: Option<string>,
    applicationLink: Option<string>,
    jobType: Option<string>,
    tags: Option<seq<string>>,
    skillsRequired: Option<seq<string>>,
    applicationDeadline: Option<Time>,
    internalApply: Option<bool>)

  /** The object `createJob` hands to `Job.create`: the body's fields, the
      caller as poster, and status `pending`. */
  function CreateJobDraft(body: JobBody, caller: Id): JobDraft {
    JobDraft(body.title, body.company, body.location, body.description, body.applicationLink,
             body.jobType, body.tags, body.skillsRequired, body.applicationDeadline, body.internalApply,
             Some(caller), Some("pending"))
  }

  /** `createJob` succeeds exactly when the body has the required fields and
      a known type, and stores a pending job posted by the caller. */
  lemma CreatedJobIsPendingAndOwned(body: JobBody, caller: Id, id: Id, now: Time)
    ensures var r := ValidateJob(CreateJobDraft(body, caller), id, now);
            && (r.Ok? <==> && Given(body.title) && Given(body.company) && Given(body.location)
                           && Given(body.description) && body.jobType.Some?
                           && body.jobType.value in {"Full-time", "Internship", "Contract"})
            && (r.Ok? ==> && r.value.status == JobStatus.Pending && r.value.postedByUserId == caller
                          && r.value.id == id && r.value.postedAt == now
                          && r.value.internalApply == (body.internalApply == Some(true)))
  {
    var r := ValidateJob(CreateJobDraft(body, caller), id, now);
    if r.Ok? {
      assert JobStatusName(r.value.status) == "pending";
    }
  }

  // --------------------------------------------------------------- listing

  /** Still open for applications: no deadline, or a deadline not passed. */
  predicate JobOpen(j: Job, now: Time) {
    j.applicationDeadline.None? || j.applicationDeadline.value >= now
  }

  /** Who may see which job by status: administrators everything, others
      published jobs and their own pending ones. */
  predicate JobVisibleTo(j: Job, caller: User) {
    || caller.role == Admin
    || j.status == Published
    || (j.status == JobStatus.Pending && j.postedByUserId == caller.id)
  }

  /** `{ $or: [ no deadline, deadline >= now ] }`. */
  function DeadlineClause(now: Time): Query {
    Query(map[], [Where(map["applicationDeadline" := Exists(false)]),
                  Where(map["applicationDeadline" := Gte(Date(now))])], [])
  }

  /** `{ $or: [ published, own pending ] }`. */
  function StatusClause(caller: User): Query {
    Query(map[], [Where(map["status" := Eq(Str("published"))]),
                  Where(map["status" := Eq(Str("pending")), "postedByUserId" := Eq(ObjectId(caller.id))])], [])
  }

  /** The filter `listJobs` builds as written: for a non-administrator the
      spread keeps the deadline `$or` only until the status `$or` replaces it. */
  function JobsQueryAsWritten(caller: User, now: Time): Query {
    var query := DeadlineClause(now);
    if caller.role == Admin then query
    else query.(anyOf := StatusClause(caller).anyOf)
  }

  /** The filter with both conditions kept, under `$and`. */
  function JobsQuery(caller: User, now: Time): Query {
    if caller.role == Admin then DeadlineClause(now)
    else Query(map[], [], [DeadlineClause(now), StatusClause(caller)])
  }

  lemma DeadlineClauseMeaning(j: Job, now: Time)
    ensures Matches(JobDocument(j), DeadlineClause(now)) <==> JobOpen(j, now)
  {
    var d := JobDocument(j);
    JobDocumentFields(j);
    MatchesEither(d, map[], Where(map["applicationDeadline" := Exists(false)]), Where(map["applicationDeadline" := Gte(Date(now))]));
    MatchesOneKey(d, "applicationDeadline", Exists(false));
    MatchesOneKey(d, "applicationDeadline", Gte(Date(now)));
  }

  lemma StatusClauseMeaning(j: Job, caller: User)
    requires caller.role != Admin
    ensures Matches(JobDocument(j), StatusClause(caller)) <==> JobVisibleTo(j, caller)
  {
    var d := JobDocument(j);
    JobDocumentFields(j);
    JobStatusNames(j.status);
    MatchesEither(d, map[], Where(map["status" := Eq(Str("published"))]),
      Where(map["status" := Eq(Str("pending")), "postedByUserId" := Eq(ObjectId(caller.id))]));
    MatchesOneKey(d, "status", Eq(Str("published")));
    MatchesTwoKeys(d, "status", Eq(Str("pending")), "postedByUserId", Eq(ObjectId(caller.id)));
  }

  /** As written, an administrator is filtered by deadline only. */
  lemma AdminQueryAsWrittenMeaning(caller: User, now: Time)
    requires caller.role == Admin
    ensures forall j :: Matches(JobDocument(j), JobsQueryAsWritten(caller, now)) <==> JobOpen(j, now)
  {
    forall j | true
      ensures Matches(JobDocument(j), JobsQueryAsWritten(caller, now)) <==> JobOpen(j, now)
    {
      DeadlineClauseMeaning(j, now);
    }
  }

  /** As written, anyone else is filtered by status and ownership only: the
      deadline clause is gone. */
  lemma OthersQueryAsWrittenMeaning(caller: User, now: Time)
    requires caller.role != Admin
    ensures JobsQueryAsWritten(caller, now) == StatusClause(caller)
    ensures forall j :: Matches(JobDocument(j), JobsQueryAsWritten(caller, now)) <==> JobVisibleTo(j, caller)
  {
    forall j | true
      ensures Matches(JobDocument(j), StatusClause(caller)) <==> JobVisibleTo(j, caller)
    {
      StatusClauseMeaning(j, caller);
    }
  }

  /** With `$and`, every caller is filtered by both conditions. */
  lemma QueryMeaning(caller: User, now: Time)
    ensures forall j :: Matches(JobDocument(j), JobsQuery(caller, now)) <==> JobOpen(j, now) && JobVisibleTo(j, caller)
  {
    forall j | true
      ensures Matches(JobDocument(j), JobsQuery(caller, now)) <==> JobOpen(j, now) && JobVisibleTo(j, caller)
    {
      DeadlineClauseMeaning(j, now);
      if caller.role != Admin {
        StatusClauseMeaning(j, caller);
        var q := JobsQuery(caller, now);
        assert q.allOf[0] == DeadlineClause(now) && q.allOf[1] == StatusClause(caller);
      }
    }
  }

  /** `sort({ postedAt: -1 })`: the same jobs, newest first. */
  function SortNewestFirst(s: seq<Job>): (r: seq<Job>)
    ensures multiset(r) == multiset(s)
    ensures forall j :: j in r <==> j in s
    ensures forall a, b :: 0 <= a < b < |r| ==> r[a].postedAt >= r[b].postedAt
  {
    SortDescendingBy(s, PostedAt)
  }

  /** The listing's sort key. */
  function PostedAt(j: Job): int {
    j.postedAt
  }

  /** What the as-written filter lets through: the deadline for an
      administrator, status and ownership for anyone else. */
  predicate ShownAsWritten(j: Job, caller: User, now: Time) {
    if caller.role == Admin then JobOpen(j, now) else JobVisibleTo(j, caller)
  }

  lemma QueryAsWrittenMeaning(caller: User, now: Time)
    ensures forall j :: Matches(JobDocument(j), JobsQueryAsWritten(caller, now)) <==> ShownAsWritten(j, caller, now)
  {
    if caller.role == Admin {
      AdminQueryAsWrittenMeaning(caller, now);
    } else {
      OthersQueryAsWrittenMeaning(caller, now);
    }
  }

  /** The jobs the listing is meant to show. */
  function ShownTo(caller: User, now: Time): Job -> bool {
    (j: Job) => JobOpen(j, now) && JobVisibleTo(j, caller)
  }

  /** The jobs the as-written listing shows. */
  function ShownAsWrittenTo(caller: User, now: Time): Job -> bool {
    (j: Job) => ShownAsWritten(j, caller, now)
  }

  /** The jobs a query selects. */
  function SelectedBy(q: Query): Job -> bool {
    (j: Job) => Matches(JobDocument(j), q)
  }

  /** `Job.find(query).sort({ postedAt: -1 })` with the query as written. */
  function ListedJobsAsWritten(jobs: seq<Job>, caller: User, now: Time): (r: seq<Job>)
    ensures forall j :: j in r <==> j in jobs && ShownAsWritten(j, caller, now)
    ensures forall j :: multiset(r)[j] == if ShownAsWritten(j, caller, now) then multiset(jobs)[j] else 0
    ensures forall a, b :: 0 <= a < b < |r| ==> r[a].postedAt >= r[b].postedAt
  {
    var q := JobsQueryAsWritten(caller, now);
    var selected := SelectedBy(q);
    QueryAsWrittenMeaning(caller, now);
    FilterSameValues(jobs, selected, ShownAsWrittenTo(caller, now));
    SortNewestFirst(Filter(jobs, selected))
  }

  /** `Job.find(query).sort({ postedAt: -1 })` with both conditions: exactly
      the open jobs the caller may see, each as often as stored, newest first. */
  function ListedJobs(jobs: seq<Job>, caller: User, now: Time): (r: seq<Job>)
    ensures forall j :: j in r <==> j in jobs && JobOpen(j, now) && JobVisibleTo(j, caller)
    ensures forall j :: multiset(r)[j] == if JobOpen(j, now) && JobVisibleTo(j, caller) then multiset(jobs)[j] else 0
    ensures forall a, b :: 0 <= a < b < |r| ==> r[a].postedAt >= r[b].postedAt
  {
    var q := JobsQuery(caller, now);
    QueryMeaning(caller, now);
    var selected := SelectedBy(q);
    FilterSameValues(jobs, selected, ShownTo(caller, now));
    SortNewestFirst(Filter(jobs, selected))
  }

  /** `{ status: 'published' }` on the job with that id. */
  function PublishedIn(jobs: seq<Job>, id: Id): (r: seq<Job>)
    ensures |r| == |jobs|
    ensures forall i :: 0 <= i < |r| && jobs[i].id == id ==>
              r[i].status == Published && r[i].(status := jobs[i].status) == jobs[i]
    ensures forall i :: 0 <= i < |r| && jobs[i].id != id ==> r[i] == jobs[i]
  {
    seq(|jobs|, i requires 0 <= i < |jobs| => if jobs[i].id == id then jobs[i].(status := Published) else jobs[i])
  }

  /** Verifying twice is verifying once. */
  lemma VerifyJobIdempotent(jobs: seq<Job>, id: Id)
    ensures PublishedIn(PublishedIn(jobs, id), id) == PublishedIn(jobs, id)
  {
  }

  /** As written, anyone but an administrator is shown a published job whose
      deadline has passed; with both conditions kept, it is hidden. */
  lemma ExpiredJobShownAsWritten(j: Job, caller: User, now: Time)
    requires j.status == Published && j.applicationDeadline.Some? && j.applicationDeadline.value < now
    requires caller.role != Admin
    ensures j in ListedJobsAsWritten([j], caller, now)
    ensures j !in ListedJobs([j], caller, now)
  {
    assert j in [j];
    assert JobVisibleTo(j, caller) && !JobOpen(j, now);
  }

  // ------------------------------------------------------------------ store

  /** The Job and Application collections and the handlers that change them. */
  class JobsStore {
    var jobs: seq<Job>
    var applications: seq<Application>

    ghost predicate Valid()
      reads this
    {
      UniqueJobIds(jobs) && NoDuplicateApplications(applications)
    }

    constructor ()
      ensures Valid() && jobs == [] && applications == []
    {
      jobs := [];
      applications := [];
    }

    /** `createJob`; `newId` is the ObjectId Mongoose generates. */
    method CreateJob(body: JobBody, caller: Id, newId: Id, now: Time) returns (reply: Reply<Job>)
      requires Valid()
      requires forall i :: 0 <= i < |jobs| ==> jobs[i].id != newId
      modifies this
      ensures Valid()
      ensures applications == old(applications)
      ensures ValidateJob(CreateJobDraft(body, caller), newId, now).Ok? ==>
                && reply == Reply(CREATED, Payload(ValidateJob(CreateJobDraft(body, caller), newId, now).value))
                && jobs == old(jobs) + [reply.body.value]
      ensures ValidateJob(CreateJobDraft(body, caller), newId, now).Err? ==>
                reply == Reply(SERVER_ERROR, Message("Error creating job")) && jobs == old(jobs)
    {
      var created := ValidateJob(CreateJobDraft(body, caller), newId, now);
      if created.Ok? {
        jobs := jobs + [created.value];
        reply := Reply(CREATED, Payload(created.value));
      } else {
        reply := Reply(SERVER_ERROR, Message("Error creating job"));
      }
    }

    /** `listJobs`, with both conditions kept. */
    method ListJobs(caller: User, now: Time) returns (reply: Reply<seq<Job>>)
      ensures reply == Reply(OK, Payload(ListedJobs(jobs, caller, now)))
    {
      reply := Reply(OK, Payload(ListedJobs(jobs, caller, now)));
    }

    /** `verifyJob`: status `published` whatever it was, or 404. */
    method VerifyJob(jobId: Id) returns (reply: Reply<Job>)
      requires Valid()
      modifies this
      ensures Valid()
      ensures applications == old(applications)
      ensures FindJob(old(jobs), jobId).None? ==>
                reply == Reply(NOT_FOUND, Message("Job not found")) && jobs == old(jobs)
      ensures FindJob(old(jobs), jobId).Some? ==>
                && jobs == PublishedIn(old(jobs), jobId)
                && reply == Reply(OK, Payload(jobs[FindJob(old(jobs), jobId).value]))
    {
      var found := FindJob(jobs, jobId);
      if found.None? {
        reply := Reply(NOT_FOUND, Message("Job not found"));
      } else {
        var published := PublishedIn(jobs, jobId);
        assert forall i :: 0 <= i < |jobs| ==> published[i].id == jobs[i].id;
        jobs := published;
        reply := Reply(OK, Payload(jobs[found.value]));
      }
    }

    /** `applyForJob`: 400 on a second application, otherwise exactly one new
        row. The job need not exist. */
    method ApplyForJob(jobId: Id, caller: Id, now: Time) returns (reply: Reply<Application>)
      requires Valid()
      modifies this
      ensures Valid()
      ensures jobs == old(jobs)
      ensures HasApplied(old(applications), jobId, caller) ==>
                reply == Reply(BAD_REQUEST, Message("Already applied")) && applications == old(applications)
      ensures !HasApplied(old(applications), jobId, caller) ==>
                && reply == Reply(CREATED, Payload(NewApplication(jobId, caller, now)))
                && applications == old(applications) + [NewApplication(jobId, caller, now)]
      ensures HasApplied(applications, jobId, caller)
    {
      var found := FirstIndex(applications, (a: Application) => a.jobId == jobId && a.applicantUserId == caller);
      if found.Some? {
        reply := Reply(BAD_REQUEST, Message("Already applied"));
      } else {
        var row := NewApplication(jobId, caller, now);
        applications := applications + [row];
        assert applications[|applications| - 1] == row;
        reply := Reply(CREATED, Payload(row));
      }
    }
  }
}
