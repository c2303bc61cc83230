/** The events router: each route runs `authMiddleware`, then
    `requireRole(roles)` with its own role list, then its handler. */
module EventRoutes {
  import opened Base
  import opened Seqs
  import opened UserSchema
  import opened Auth
  import opened EventSchema
  import opened EventsController

  datatype EventRoute =
    | VerifyEventRoute(eventId: Id)     // PATCH /:eventId/verify
    | RegisteredEventsRoute             // GET /registered
    | UnregisterRoute(eventId: Id)      // DELETE /:eventId/register
    | CreateEventRoute(body: EventBody) // POST /
    | ListEventsRoute                   // GET /
    | RegisterRoute(eventId: Id)        // POST /:eventId/register

  const EVERY_ROLE: seq<Role> := [Student, Alumni, Admin]

  /** The role list each route hands to `requireRole`. */
  function AllowedRoles(route: EventRoute): (roles: seq<Role>)
    ensures route.VerifyEventRoute? <==> Student !in roles
    ensures route.VerifyEventRoute? <==> Alumni !in roles
    ensures Admin in roles
  {
    if route.VerifyEventRoute? then [Admin] else EVERY_ROLE
  }

  /** The middleware chain in front of a route's handler. */
  function Admit(route: EventRoute, token: Option<string>, verify: string -> TokenCheck, users: seq<User>): Step<User> {
    Guard(AllowedRoles(route), token, verify, users)
  }

  /** Only an administrator gets through to `verifyEvent`: a signed-in
      student or alumnus is refused with 403. */
  lemma VerifyIsForAdminsOnly(eventId: Id, token: Option<string>, verify: string -> TokenCheck, users: seq<User>)
    ensures Admit(VerifyEventRoute(eventId), token, verify, users).Next? ==>
              Admit(VerifyEventRoute(eventId), token, verify, users).value.role == Admin
    ensures (&& token.Some? && token.value != "" && verify(token.value).GoodToken?
             && verify(token.value).subject.Some?
             && FindUser(users, verify(token.value).subject.value).Some?
             && FindUser(users, verify(token.value).subject.value).value.role != Admin)
            ==> Admit(VerifyEventRoute(eventId), token, verify, users) == Halt(FORBIDDEN, WRONG_ROLE)
  {
  }

  /** Every other route admits any signed-in, stored user, whatever the role. */
  lemma OtherRoutesAdmitEveryRole(route: EventRoute, token: Option<string>, verify: string -> TokenCheck, users: seq<User>)
    requires !route.VerifyEventRoute?
    requires token.Some? && token.value != "" && verify(token.value).GoodToken?
    requires verify(token.value).subject.Some?
    requires FindUser(users, verify(token.value).subject.value).Some?
    ensures Admit(route, token, verify, users) == Next(FindUser(users, verify(token.value).subject.value).value)
  {
    var user := FindUser(users, verify(token.value).subject.value).value;
    assert EVERY_ROLE[0] == Student && EVERY_ROLE[1] == Alumni && EVERY_ROLE[2] == Admin;
    assert user.role in EVERY_ROLE by {
      match user.role
      case Student => assert EVERY_ROLE[0] == user.role;
      case Alumni => assert EVERY_ROLE[1] == user.role;
      case Admin => assert EVERY_ROLE[2] == user.role;
    }
  }

  /** Authentication comes first: without a token every route answers 401,
      before any role is looked at. */
  lemma MissingTokenIsRefusedFirst(route: EventRoute, token: Option<string>, verify: string -> TokenCheck, users: seq<User>)
    requires token.None? || token.value == ""
    ensures Admit(route, token, verify, users) == Halt(UNAUTHORIZED, NO_TOKEN)
  {
  }

  /** What the events routes answer with. */
  datatype EventPayload =
    | OneEvent(event: Event)
    | Events(events: seq<Event>)
    | EventIds(ids: seq<Id>)
    | OneRegistration(registration: Registration)
    | NoPayload

  function AsOneEvent(e: Event): EventPayload { OneEvent(e) }
  function AsEvents(es: seq<Event>): EventPayload { Events(es) }
  function AsEventIds(ids: seq<Id>): EventPayload { EventIds(ids) }
  function AsOneRegistration(g: Registration): EventPayload { OneRegistration(g) }
  function AsNoPayload(u: ()): EventPayload { NoPayload }

  function Wrap<T>(reply: Reply<T>, into: T -> EventPayload): Reply<EventPayload> {
    match reply.body
    case Payload(v) => Reply(reply.status, Payload(into(v)))
    case Message(m) => Reply(reply.status, Message(m))
  }

  /** One request to the events router. `newId` is the ObjectId a create
      would take. */
  method Serve(store: EventsStore, route: EventRoute, token: Option<string>, verify: string -> TokenCheck,
               users: seq<User>, now: Time, newId: Id) returns (reply: Reply<EventPayload>)
    requires store.Valid()
    requires forall i :: 0 <= i < |store.events| ==> store.events[i].id != newId
    requires forall j :: 0 <= j < |store.registrations| ==> store.registrations[j].eventId != newId
    modifies store
    ensures store.Valid()
    ensures Admit(route, token, verify, users).Halt? ==>
              && reply == Reply(Admit(route, token, verify, users).status, Message(Admit(route, token, verify, users).message))
              && store.events == old(store.events) && store.registrations == old(store.registrations)
    ensures |store.events| >= |old(store.events)|
    ensures !(route.VerifyEventRoute? && Admit(route, token, verify, users).Next?) ==>
              forall i :: 0 <= i < |old(store.events)| ==> store.events[i].status == old(store.events[i].status)
    ensures route.VerifyEventRoute? && Admit(route, token, verify, users).Next? ==>
              Admit(route, token, verify, users).value.role == Admin
    // Each admitted request is answered by its own route's handler.
    ensures route.VerifyEventRoute? && Admit(route, token, verify, users).Next? ==>
              && store.registrations == old(store.registrations)
              && (FindEvent(old(store.events), route.eventId).None? ==>
                    reply == Reply(NOT_FOUND, Message("Event not found")) && store.events == old(store.events))
              && (FindEvent(old(store.events), route.eventId).Some? ==>
                    && store.events == VerifiedIn(old(store.events), route.eventId)
                    && reply == Reply(OK, Payload(OneEvent(store.events[FindEvent(old(store.events), route.eventId).value]))))
    ensures route.RegisteredEventsRoute? && Admit(route, token, verify, users).Next? ==>
              && reply == Reply(OK, Payload(EventIds(RegisteredEventIds(old(store.registrations), Admit(route, token, verify, users).value.id))))
              && store.events == old(store.events) && store.registrations == old(store.registrations)
    ensures route.UnregisterRoute? && Admit(route, token, verify, users).Next? ==>
              var caller := Admit(route, token, verify, users).value.id;
              && (!IsRegistered(old(store.registrations), route.eventId, caller) ==>
                    && reply == Reply(NOT_FOUND, Message("Not registered for this event"))
                    && store.events == old(store.events) && store.registrations == old(store.registrations))
              && (IsRegistered(old(store.registrations), route.eventId, caller) ==>
                    && reply == Reply(OK, Message("Unregistered successfully"))
                    && store.registrations == RemoveAt(old(store.registrations), FindRegistration(old(store.registrations), route.eventId, caller).value)
                    && store.events == WithoutAttendee(old(store.events), route.eventId, caller))
    ensures route.CreateEventRoute? && Admit(route, token, verify, users).Next? ==>
              var created := ValidateEvent(CreateEventDraft(route.body, Admit(route, token, verify, users).value), newId, now);
              && reply == Wrap(CreateEventReply(created), AsOneEvent)
              && store.registrations == old(store.registrations)
              && store.events == if created.Ok? then old(store.events) + [created.value] else old(store.events)
    ensures route.ListEventsRoute? && Admit(route, token, verify, users).Next? ==>
              && reply == Reply(OK, Payload(Events(ListedEvents(old(store.events), Admit(route, token, verify, users).value, now))))
              && store.events == old(store.events) && store.registrations == old(store.registrations)
    ensures route.RegisterRoute? && Admit(route, token, verify, users).Next? ==>
              var caller := Admit(route, token, verify, users).value.id;
              && (IsRegistered(old(store.registrations), route.eventId, caller) ==>
                    && reply == Reply(BAD_REQUEST, Message("Already registered"))
                    && store.events == old(store.events) && store.registrations == old(store.registrations))
              && (!IsRegistered(old(store.registrations), route.eventId, caller) ==>
                    && reply == Reply(CREATED, Payload(OneRegistration(NewRegistration(route.eventId, caller, now))))
                    && store.registrations == old(store.registrations) + [NewRegistration(route.eventId, caller, now)]
                    && store.events == WithAttendee(old(store.events), route.eventId, caller))
  {
    var admitted := Admit(route, token, verify, users);
    if admitted.Halt? {
      return Reply(admitted.status, Message(admitted.message));
    }
    var caller := admitted.value;
    match route
    case VerifyEventRoute(eventId) =>
      var r := store.VerifyEvent(eventId);
      reply := Wrap(r, AsOneEvent);
    case RegisteredEventsRoute =>
      var r := store.GetRegisteredEvents(caller.id);
      reply := Wrap(r, AsEventIds);
    case UnregisterRoute(eventId) =>
      var r := store.UnregisterForEvent(eventId, caller.id);
      reply := Wrap(r, AsNoPayload);
    case CreateEventRoute(body) =>
      var r := store.CreateEvent(body, caller, newId, now);
      reply := Wrap(r, AsOneEvent);
    case ListEventsRoute =>
      var r := store.ListEvents(caller, now);
      reply := Wrap(r, AsEvents);
    case RegisterRoute(eventId) =>
      var r := store.RegisterForEvent(eventId, caller.id, now);
      reply := Wrap(r, AsOneRegistration);
  }
}
