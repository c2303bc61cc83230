/** The jobs router: each route runs `authMiddleware`, then
    `requireRole(roles)`, then its handler. Only create, list and apply are
    mounted; `verifyJob` has no route. */
module JobRoutes {
  import opened Base
  import opened UserSchema
  import opened Auth
  import opened JobSchema
  import opened JobsController

  datatype JobRoute =
    | CreateJobRoute(body: JobBody) // POST /
    | ListJobsRoute                 // GET /
    | ApplyRoute(jobId: Id)         // POST /:jobId/apply

  /** The role list each route hands to `requireRole`. */
  function AllowedRoles(route: JobRoute): (roles: seq<Role>)
    ensures route.CreateJobRoute? <==> Student !in roles
    ensures Alumni in roles && Admin in roles
  {
    if route.CreateJobRoute? then [Alumni, Admin] else [Student, Alumni, Admin]
  }

  function Admit(route: JobRoute, token: Option<string>, verify: string -> TokenCheck, users: seq<User>): Step<User> {
    Guard(AllowedRoles(route), token, verify, users)
  }

  /** A signed-in student cannot post a job: 403. */
  lemma StudentsCannotPostJobs(body: JobBody, token: Option<string>, verify: string -> TokenCheck, users: seq<User>)
    ensures Admit(CreateJobRoute(body), token, verify, users).Next? ==>
              Admit(CreateJobRoute(body), token, verify, users).value.role != Student
    ensures (&& token.Some? && token.value != "" && verify(token.value).GoodToken?
             && verify(token.value).subject.Some?
             && FindUser(users, verify(token.value).subject.value).Some?
             && FindUser(users, verify(token.value).subject.value).value.role == Student)
            ==> Admit(CreateJobRoute(body), token, verify, users) == Halt(FORBIDDEN, WRONG_ROLE)
  {
  }

  /** Alumni and administrators may post; listing and applying are open to
      any signed-in, stored user. */
  lemma SignedInUsersAdmitted(route: JobRoute, token: Option<string>, verify: string -> TokenCheck, users: seq<User>)
    requires token.Some? && token.value != "" && verify(token.value).GoodToken?
    requires verify(token.value).subject.Some?
    requires FindUser(users, verify(token.value).subject.value).Some?
    requires !route.CreateJobRoute? || FindUser(users, verify(token.value).subject.value).value.role != Student
    ensures Admit(route, token, verify, users) == Next(FindUser(users, verify(token.value).subject.value).value)
  {
    var user := FindUser(users, verify(token.value).subject.value).value;
    var roles := AllowedRoles(route);
    assert user.role in roles by {
      match user.role
      case Student => assert roles[0] == Student;
      case Alumni =>
      case Admin =>
    }
  }

  /** Without a token every route answers 401, before any role is looked at. */
  lemma MissingTokenIsRefusedFirst(route: JobRoute, token: Option<string>, verify: string -> TokenCheck, users: seq<User>)
    requires token.None? || token.value == ""
    ensures Admit(route, token, verify, users) == Halt(UNAUTHORIZED, NO_TOKEN)
  {
  }

  /** What the jobs routes answer with. */
  datatype JobPayload =
    | OneJob(job: Job)
    | Jobs(jobs: seq<Job>)
    | OneApplication(application: Application)

  function AsOneJob(j: Job): JobPayload { OneJob(j) }
  function AsJobs(js: seq<Job>): JobPayload { Jobs(js) }
  function AsOneApplication(a: Application): JobPayload { OneApplication(a) }

  function Wrap<T>(reply: Reply<T>, into: T -> JobPayload): Reply<JobPayload> {
    match reply.body
    case Payload(v) => Reply(reply.status, Payload(into(v)))
    case Message(m) => Reply(reply.status, Message(m))
  }

  /** One request to the jobs router. No mounted route changes a stored
      job, so a job's status can only ever be the one it was created with. */
  method Serve(store: JobsStore, route: JobRoute, token: Option<string>, verify: string -> TokenCheck,
               users: seq<User>, now: Time, newId: Id) returns (reply: Reply<JobPayload>)
    requires store.Valid()
    requires forall i :: 0 <= i < |store.jobs| ==> store.jobs[i].id != newId
    modifies store
    ensures store.Valid()
    ensures Admit(route, token, verify, users).Halt? ==>
              && reply == Reply(Admit(route, token, verify, users).status, Message(Admit(route, token, verify, users).message))
              && store.jobs == old(store.jobs) && store.applications == old(store.applications)
    ensures |store.jobs| >= |old(store.jobs)| && store.jobs[..|old(store.jobs)|] == old(store.jobs)
    ensures |store.applications| >= |old(store.applications)|
    ensures route.CreateJobRoute? && Admit(route, token, verify, users).Next? ==>
              Admit(route, token, verify, users).value.role != Student
    // Each admitted request is answered by its own route's handler.
    ensures route.CreateJobRoute? && Admit(route, token, verify, users).Next? ==>
              var created := ValidateJob(CreateJobDraft(route.body, Admit(route, token, verify, users).value.id), newId, now);
              && store.applications == old(store.applications)
              && (created.Ok? ==> reply == Reply(CREATED, Payload(OneJob(created.value))) && store.jobs == old(store.jobs) + [created.value])
              && (created.Err? ==> reply == Reply(SERVER_ERROR, Message("Error creating job")) && store.jobs == old(store.jobs))
    ensures route.ListJobsRoute? && Admit(route, token, verify, users).Next? ==>
              && reply == Reply(OK, Payload(Jobs(ListedJobs(old(store.jobs), Admit(route, token, verify, users).value, now))))
              && store.jobs == old(store.jobs) && store.applications == old(store.applications)
    ensures route.ApplyRoute? && Admit(route, token, verify, users).Next? ==>
              var caller := Admit(route, token, verify, users).value.id;
              && store.jobs == old(store.jobs)
              && (HasApplied(old(store.applications), route.jobId, caller) ==>
                    reply == Reply(BAD_REQUEST, Message("Already applied")) && store.applications == old(store.applications))
              && (!HasApplied(old(store.applications), route.jobId, caller) ==>
                    && reply == Reply(CREATED, Payload(OneApplication(NewApplication(route.jobId, caller, now))))
                    && store.applications == old(store.applications) + [NewApplication(route.jobId, caller, now)])
  {
    var admitted := Admit(route, token, verify, users);
    if admitted.Halt? {
      return Reply(admitted.status, Message(admitted.message));
    }
    var caller := admitted.value;
    match route
    case CreateJobRoute(body) =>
      var r := store.CreateJob(body, caller.id, newId, now);
      reply := Wrap(r, AsOneJob);
    case ListJobsRoute =>
      var r := store.ListJobs(caller, now);
      reply := Wrap(r, AsJobs);
    case ApplyRoute(jobId) =>
      var r := store.ApplyForJob(jobId, caller.id, now);
      reply := Wrap(r, AsOneApplication);
  }
}
