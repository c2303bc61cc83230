/** The event handlers: creating an event for moderation, listing the events
    a caller may see, an administrator's verification, and registering and
    unregistering, which keep the registration rows and each event's
    `attendees` array in step. */
module EventsController {
  import opened Base
  import opened Seqs
  import opened MongoQuery
  import opened UserSchema
  import opened EventSchema

  // ---------------------------------------------------------------- lookups

  ghost predicate UniqueEventIds(events: seq<Event>) {
    forall i, j :: 0 <= i < j < |events| ==> events[i].id != events[j].id
  }

  /** `Event.findById(id)`, as a position in the collection. */
  function FindEvent(events: seq<Event>, id: Id): (r: Option<nat>)
    ensures r.Some? ==> r.value < |events| && events[r.value].id == id
    ensures r.None? <==> forall j :: 0 <= j < |events| ==> events[j].id != id
  {
    FirstIndex(events, (e: Event) => e.id == id)
  }

  /** A registration row for this event and this user. */
  predicate RowOf(r: Registration, eventId: Id, userId: Id) {
    r.eventId == eventId && r.userId == userId
  }

  predicate IsRegistered(regs: seq<Registration>, eventId: Id, userId: Id) {
    exists i | 0 <= i < |regs| :: RowOf(regs[i], eventId, userId)
  }

  /** `EventRegistration.findOne({ eventId, userId })`, as a position. */
  function FindRegistration(regs: seq<Registration>, eventId: Id, userId: Id): (r: Option<nat>)
    ensures r.Some? ==> r.value < |regs| && RowOf(regs[r.value], eventId, userId)
    ensures r.None? <==> !IsRegistered(regs, eventId, userId)
  {
    FirstIndex(regs, (x: Registration) => RowOf(x, eventId, userId))
  }

  // -------------------------------------------------------------- invariant

  /** No two rows register the same user for the same event. The schema
      declares no such index: the handlers' duplicate check keeps it. */
  ghost predicate NoDuplicateRows(regs: seq<Registration>) {
    forall i, j :: 0 <= i < j < |regs| ==> !RowOf(regs[j], regs[i].eventId, regs[i].userId)
  }

  /** `attendees` lists each registered user once, and nobody else. */
  ghost predicate AttendeesAgree(e: Event, regs: seq<Registration>) {
    && NoDuplicates(e.attendees)
    && forall u :: u in e.attendees <==> IsRegistered(regs, e.id, u)
  }

  /** What the handlers keep true of the two collections between requests. */
  ghost predicate Consistent(events: seq<Event>, regs: seq<Registration>) {
    && UniqueEventIds(events)
    && NoDuplicateRows(regs)
    && forall i :: 0 <= i < |events| ==> AttendeesAgree(events[i], regs)
  }

  // ---------------------------------------------------------------- updates

  /** `Event.findByIdAndUpdate(id, update)`: the event with that id becomes
      `f` of itself; an id that is not stored changes nothing. */
  function UpdateEvent(events: seq<Event>, id: Id, f: Event -> Event): (r: seq<Event>)
    ensures |r| == |events|
    ensures forall i :: 0 <= i < |r| ==> r[i] == if events[i].id == id then f(events[i]) else events[i]
  {
    seq(|events|, i requires 0 <= i < |events| => if events[i].id == id then f(events[i]) else events[i])
  }

  /** `{ status: 'upcoming' }` on the event with that id. */
  function VerifiedIn(events: seq<Event>, id: Id): (r: seq<Event>)
    ensures |r| == |events|
    ensures forall i :: 0 <= i < |r| && events[i].id == id ==>
              r[i].status == Upcoming && r[i].(status := events[i].status) == events[i]
    ensures forall i :: 0 <= i < |r| && events[i].id != id ==> r[i] == events[i]
  {
    UpdateEvent(events, id, (e: Event) => e.(status := Upcoming))
  }

  /** `{ $addToSet: { attendees: user } }` on the event with that id. */
  function WithAttendee(events: seq<Event>, id: Id, user: Id): seq<Event> {
    UpdateEvent(events, id, (e: Event) => e.(attendees := AddToSet(e.attendees, user)))
  }

  /** `{ $pull: { attendees: user } }` on the event with that id. */
  function WithoutAttendee(events: seq<Event>, id: Id, user: Id): seq<Event> {
    UpdateEvent(events, id, (e: Event) => e.(attendees := RemoveAll(e.attendees, user)))
  }

  /** Verifying twice is verifying once. */
  lemma VerifyIdempotent(events: seq<Event>, id: Id)
    ensures VerifiedIn(VerifiedIn(events, id), id) == VerifiedIn(events, id)
  {
  }

  lemma VerifyKeepsConsistent(events: seq<Event>, regs: seq<Registration>, id: Id)
    requires Consistent(events, regs)
    ensures Consistent(VerifiedIn(events, id), regs)
  {
    var r := VerifiedIn(events, id);
    forall i | 0 <= i < |r|
      ensures AttendeesAgree(r[i], regs)
    {
      assert r[i].attendees == events[i].attendees && r[i].id == events[i].id;
    }
  }

  /** A new event with a fresh id and no attendees keeps the collections
      consistent, provided no registration mentions that id yet. */
  lemma CreateKeepsConsistent(events: seq<Event>, regs: seq<Registration>, e: Event)
    requires Consistent(events, regs)
    requires e.attendees == []
    requires forall i :: 0 <= i < |events| ==> events[i].id != e.id
    requires forall j :: 0 <= j < |regs| ==> regs[j].eventId != e.id
    ensures Consistent(events + [e], regs)
  {
    var r := events + [e];
    forall i | 0 <= i < |r|
      ensures AttendeesAgree(r[i], regs)
    {
      if i == |events| {
        assert r[i] == e;
        assert forall u :: !IsRegistered(regs, e.id, u);
      } else {
        assert r[i] == events[i];
      }
    }
  }

  /** A first registration adds one row and the user to that event's
      `attendees`, keeping both in step. */
  lemma {:induction false} RegisterKeepsConsistent(events: seq<Event>, regs: seq<Registration>, eventId: Id, user: Id, now: Time)
    requires Consistent(events, regs)
    requires !IsRegistered(regs, eventId, user)
    ensures Consistent(WithAttendee(events, eventId, user), regs + [NewRegistration(eventId, user, now)])
  {
    var row := NewRegistration(eventId, user, now);
    var regs' := regs + [row];
    var events' := WithAttendee(events, eventId, user);
    assert NoDuplicateRows(regs') by {
      forall i, j | 0 <= i < j < |regs'|
        ensures !RowOf(regs'[j], regs'[i].eventId, regs'[i].userId)
      {
        if j == |regs| {
          assert regs'[i] == regs[i];
        }
      }
    }
    forall e: Id, u: Id
      ensures IsRegistered(regs', e, u) <==> IsRegistered(regs, e, u) || (e == eventId && u == user)
    {
      if IsRegistered(regs', e, u) && !(e == eventId && u == user) {
        var k :| 0 <= k < |regs'| && RowOf(regs'[k], e, u);
        assert k < |regs| && RowOf(regs[k], e, u);
      }
      if IsRegistered(regs, e, u) {
        var k :| 0 <= k < |regs| && RowOf(regs[k], e, u);
        assert RowOf(regs'[k], e, u);
      }
      if e == eventId && u == user {
        assert RowOf(regs'[|regs|], e, u);
      }
    }
    forall i | 0 <= i < |events'|
      ensures AttendeesAgree(events'[i], regs')
    {
      assert AttendeesAgree(events[i], regs);
    }
  }

  /** Deleting the only row of (event, user) un-registers exactly that pair. */
  lemma {:induction false} RemoveRowUnregisters(regs: seq<Registration>, k: nat, e: Id, u: Id)
    requires NoDuplicateRows(regs)
    requires k < |regs|
    ensures NoDuplicateRows(RemoveAt(regs, k))
    ensures IsRegistered(RemoveAt(regs, k), e, u) <==> IsRegistered(regs, e, u) && !RowOf(regs[k], e, u)
  {
    var regs' := RemoveAt(regs, k);
    assert forall j :: 0 <= j < |regs'| ==> regs'[j] == regs[if j < k then j else j + 1];
    if IsRegistered(regs', e, u) {
      var m :| 0 <= m < |regs'| && RowOf(regs'[m], e, u);
      var n := if m < k then m else m + 1;
      assert RowOf(regs[n], e, u) && n != k;
    }
    if IsRegistered(regs, e, u) && !RowOf(regs[k], e, u) {
      var n :| 0 <= n < |regs| && RowOf(regs[n], e, u);
      assert n != k;
      var m := if n < k then n else n - 1;
      assert RowOf(regs'[m], e, u);
    }
  }

  /** Unregistering deletes the row found and pulls the user from that event's
      `attendees`, keeping both in step. */
  lemma {:induction false} UnregisterKeepsConsistent(events: seq<Event>, regs: seq<Registration>, eventId: Id, user: Id)
    requires Consistent(events, regs)
    requires FindRegistration(regs, eventId, user).Some?
    ensures Consistent(WithoutAttendee(events, eventId, user), RemoveAt(regs, FindRegistration(regs, eventId, user).value))
  {
    var k := FindRegistration(regs, eventId, user).value;
    var regs' := RemoveAt(regs, k);
    var events' := WithoutAttendee(events, eventId, user);
    forall e: Id, u: Id
      ensures IsRegistered(regs', e, u) <==> IsRegistered(regs, e, u) && !(e == eventId && u == user)
    {
      RemoveRowUnregisters(regs, k, e, u);
    }
    RemoveRowUnregisters(regs, k, eventId, user);
    forall i | 0 <= i < |events'|
      ensures AttendeesAgree(events'[i], regs')
    {
      assert AttendeesAgree(events[i], regs);
    }
  }

  /** Unregistering right after a first registration restores both
      collections exactly. */
  lemma UnregisterUndoesRegister(events: seq<Event>, regs: seq<Registration>, eventId: Id, user: Id, now: Time)
    requires Consistent(events, regs)
    requires !IsRegistered(regs, eventId, user)
    ensures var regs' := regs + [NewRegistration(eventId, user, now)];
            && FindRegistration(regs', eventId, user) == Some(|regs|)
            && RemoveAt(regs', |regs|) == regs
            && WithoutAttendee(WithAttendee(events, eventId, user), eventId, user) == events
  {
    var regs' := regs + [NewRegistration(eventId, user, now)];
    assert RowOf(regs'[|regs|], eventId, user);
    assert regs'[..|regs|] == regs;
    var back := WithoutAttendee(WithAttendee(events, eventId, user), eventId, user);
    forall i | 0 <= i < |events|
      ensures back[i] == events[i]
    {
      if events[i].id == eventId {
        assert AttendeesAgree(events[i], regs);
        PullUndoesAddToSet(events[i].attendees, user);
      }
    }
  }

  // -------------------------------------------------------------- creation

  /** The fields `createEvent` reads from `req.body`; dates are already cast
      to milliseconds. */
  datatype EventBody = EventBody(
    title: Option<string>,
    date: Option<Time>,
    endDate: Option<Time>,
    location: Option<string>,
    description: Option<string>,
    tags: Option<seq<string>>,
    capacity: Option<int>)

  /** The object `createEvent` hands to `Event.create`: the body's fields,
      the caller as organizer, and status `pending`. `req.user` is always set
      by `requireRole` on this route, so `req.user?.name || ''` is the name. */
  function CreateEventDraft(body: EventBody, caller: User): EventDraft {
    EventDraft(body.title, Some(caller.id), Some(caller.name),
               body.date, body.endDate, body.location, body.description, body.tags, body.capacity,
               Some("pending"))
  }

  /** The reply once `Event.create` has validated or failed. */
  function CreateEventReply(created: Result<Event>): (r: Reply<Event>)
    ensures created.Ok? <==> r.status == CREATED
    ensures created.Ok? ==> r.body == Payload(created.value)
    ensures created.Err? ==> r == Reply(SERVER_ERROR, Message("Error creating event"))
  {
    match created
    case Ok(e) => Reply(CREATED, Payload(e))
    case Err(_) => Reply(SERVER_ERROR, Message("Error creating event"))
  }

  /** `createEvent` against the schema's status enum as declared. */
  function CreateEventAsWritten(body: EventBody, caller: User, id: Id, now: Time): Reply<Event> {
    CreateEventReply(ValidateEventAsDeclared(CreateEventDraft(body, caller), id, now))
  }

  /** As written, every `createEvent` fails: `pending` is not in the enum. */
  lemma CreateEventAsWrittenAlwaysFails(body: EventBody, caller: User, id: Id, now: Time)
    ensures CreateEventAsWritten(body, caller, id, now) == Reply(SERVER_ERROR, Message("Error creating event"))
  {
    assert "pending" !in DeclaredStatusNames;
  }

  /** With `pending` admitted, `createEvent` succeeds exactly when the body
      has the required fields, and stores a pending event owned by the caller. */
  lemma CreatedEventIsPendingAndOwned(body: EventBody, caller: User, id: Id, now: Time)
    ensures var r := ValidateEvent(CreateEventDraft(body, caller), id, now);
            && (r.Ok? <==> Given(body.title) && body.date.Some? && body.endDate.Some? && Given(body.location))
            && (r.Ok? ==> && r.value.status == EventStatus.Pending && r.value.organizerUserId == caller.id
                          && r.value.organizerName == Some(caller.name) && r.value.attendees == []
                          && r.value.id == id && Some(r.value.title) == body.title
                          && Some(r.value.endDate) == body.endDate)
  {
    var r := ValidateEvent(CreateEventDraft(body, caller), id, now);
    if r.Ok? {
      assert EventStatusName(r.value.status) == "pending";
    }
  }

  // --------------------------------------------------------------- listing

  /** The filter `listEvents` builds: not yet ended, and for anyone but an
      administrator either upcoming or the caller's own pending events. */
  function EventsQuery(caller: User, now: Time): Query {
    var notEnded := Where(map["endDate" := Gte(Date(now))]);
    if caller.role == Admin then notEnded
    else notEnded.(anyOf := [
      Where(map["status" := Eq(Str("upcoming"))]),
      Where(map["status" := Eq(Str("pending")), "organizerUserId" := Eq(ObjectId(caller.id))])])
  }

  /** Who may see which event, stated directly. */
  predicate EventVisible(e: Event, caller: User, now: Time) {
    && e.endDate >= now
    && (|| caller.role == Admin
        || e.status == Upcoming
        || (e.status == EventStatus.Pending && e.organizerUserId == caller.id))
  }

  lemma EventMatchIsVisible(e: Event, caller: User, now: Time)
    ensures Matches(EventDocument(e), EventsQuery(caller, now)) <==> EventVisible(e, caller, now)
  {
    var d := EventDocument(e);
    EventDocumentFields(e);
    EventStatusNames(e.status);
    MatchesOneKey(d, "endDate", Gte(Date(now)));
    if caller.role != Admin {
      MatchesEither(d, map["endDate" := Gte(Date(now))],
        Where(map["status" := Eq(Str("upcoming"))]),
        Where(map["status" := Eq(Str("pending")), "organizerUserId" := Eq(ObjectId(caller.id))]));
      MatchesOneKey(d, "status", Eq(Str("upcoming")));
      MatchesTwoKeys(d, "status", Eq(Str("pending")), "organizerUserId", Eq(ObjectId(caller.id)));
    }
  }

  lemma EventsQueryMeaning(caller: User, now: Time)
    ensures forall e :: Matches(EventDocument(e), EventsQuery(caller, now)) <==> EventVisible(e, caller, now)
  {
    forall e | true
      ensures Matches(EventDocument(e), EventsQuery(caller, now)) <==> EventVisible(e, caller, now)
    {
      EventMatchIsVisible(e, caller, now);
    }
  }

  /** `Event.find(query).sort({ date: 1 })`: exactly the visible events, each
      as often as stored, in ascending `date` order. */
  function ListedEvents(events: seq<Event>, caller: User, now: Time): (r: seq<Event>)
    ensures forall e :: e in r <==> e in events && EventVisible(e, caller, now)
    ensures forall e :: multiset(r)[e] == if EventVisible(e, caller, now) then multiset(events)[e] else 0
    ensures forall e :: e in r ==> e.endDate >= now
    ensures SortedBy(r, StartDate)
  {
    var q := EventsQuery(caller, now);
    EventsQueryMeaning(caller, now);
    var visible := VisibleTest(caller, now);
    FilterSameValues(events, SelectedBy(q), visible);
    SortBy(Filter(events, visible), StartDate)
  }

  /** The events a query selects. */
  function SelectedBy(q: Query): Event -> bool {
    (e: Event) => Matches(EventDocument(e), q)
  }

  /** The listing's sort key. */
  function StartDate(e: Event): int {
    e.date
  }

  function VisibleTest(caller: User, now: Time): Event -> bool {
    (e: Event) => EventVisible(e, caller, now)
  }

  /** Once created, a pending event is listed for its organizer until it
      ends, and hidden from every other user who is not an administrator. */
  lemma CreatedEventListedOnlyForOrganizer(events: seq<Event>, e: Event, organizer: User, other: User, now: Time)
    requires e.status == EventStatus.Pending && e.organizerUserId == organizer.id && e.endDate >= now
    requires other.id != organizer.id && other.role != Admin
    ensures e in ListedEvents(events + [e], organizer, now)
    ensures e !in ListedEvents(events + [e], other, now)
  {
    assert e in events + [e];
  }

  /** The event ids of the caller's registration rows, in stored order. */
  function RegisteredEventIds(regs: seq<Registration>, user: Id): (r: seq<Id>)
    ensures forall e :: e in r <==> IsRegistered(regs, e, user)
    ensures |r| == Count(regs, (x: Registration) => x.userId == user)
  {
    var mine := Filter(regs, (x: Registration) => x.userId == user);
    var r := seq(|mine|, i requires 0 <= i < |mine| => mine[i].eventId);
    assert forall e :: e in r ==> IsRegistered(regs, e, user) by {
      forall e | e in r ensures IsRegistered(regs, e, user) {
        var i :| 0 <= i < |r| && r[i] == e;
        assert mine[i] in regs;
        var k :| 0 <= k < |regs| && regs[k] == mine[i];
        assert RowOf(regs[k], e, user);
      }
    }
    assert forall e :: IsRegistered(regs, e, user) ==> e in r by {
      forall e | IsRegistered(regs, e, user) ensures e in r {
        var k :| 0 <= k < |regs| && RowOf(regs[k], e, user);
        assert regs[k] in mine;
        var i :| 0 <= i < |mine| && mine[i] == regs[k];
        assert r[i] == e;
      }
    }
    r
  }

  /** What `getRegisteredEvents` reports agrees with the events' attendee
      lists. */
  lemma RegisteredIdsAgreeWithAttendees(events: seq<Event>, regs: seq<Registration>, user: Id, i: nat)
    requires Consistent(events, regs)
    requires i < |events|
    ensures events[i].id in RegisteredEventIds(regs, user) <==> user in events[i].attendees
  {
    assert AttendeesAgree(events[i], regs);
  }

  // ------------------------------------------------------------------ store

  /** The Event and EventRegistration collections and the handlers that
      change them. */
  class EventsStore {
    var events: seq<Event>
    var registrations: seq<Registration>

    ghost predicate Valid()
      reads this
    {
      Consistent(events, registrations)
    }

    constructor ()
      ensures Valid() && events == [] && registrations == []
    {
      events := [];
      registrations := [];
    }

    /** `createEvent`, with `pending` admitted by the status enum; `newId` is
        the ObjectId Mongoose generates. */
    method CreateEvent(body: EventBody, caller: User, newId: Id, now: Time) returns (reply: Reply<Event>)
      requires Valid()
      requires forall i :: 0 <= i < |events| ==> events[i].id != newId
      requires forall j :: 0 <= j < |registrations| ==> registrations[j].eventId != newId
      modifies this
      ensures Valid()
      ensures registrations == old(registrations)
      ensures reply == CreateEventReply(ValidateEvent(CreateEventDraft(body, caller), newId, now))
      ensures reply.status == CREATED ==> events == old(events) + [reply.body.value]
      ensures reply.status != CREATED ==> events == old(events)
    {
      var created := ValidateEvent(CreateEventDraft(body, caller), newId, now);
      reply := CreateEventReply(created);
      if created.Ok? {
        CreateKeepsConsistent(events, registrations, created.value);
        events := events + [created.value];
      }
    }

    /** `listEvents`. */
    method ListEvents(caller: User, now: Time) returns (reply: Reply<seq<Event>>)
      ensures reply == Reply(OK, Payload(ListedEvents(events, caller, now)))
    {
      reply := Reply(OK, Payload(ListedEvents(events, caller, now)));
    }

    /** `verifyEvent`: status `upcoming` whatever it was, or 404. */
    method VerifyEvent(eventId: Id) returns (reply: Reply<Event>)
      requires Valid()
      modifies this
      ensures Valid()
      ensures registrations == old(registrations)
      ensures FindEvent(old(events), eventId).None? ==>
                reply == Reply(NOT_FOUND, Message("Event not found")) && events == old(events)
      ensures FindEvent(old(events), eventId).Some? ==>
                && events == VerifiedIn(old(events), eventId)
                && reply == Reply(OK, Payload(events[FindEvent(old(events), eventId).value]))
    {
      var found := FindEvent(events, eventId);
      if found.None? {
        reply := Reply(NOT_FOUND, Message("Event not found"));
      } else {
        VerifyKeepsConsistent(events, registrations, eventId);
        events := VerifiedIn(events, eventId);
        reply := Reply(OK, Payload(events[found.value]));
      }
    }

    /** `registerForEvent`: 400 on a second registration, otherwise one new
        row and the caller added to `attendees`. The event need not exist:
        the update then matches nothing. */
    method RegisterForEvent(eventId: Id, caller: Id, now: Time) returns (reply: Reply<Registration>)
      requires Valid()
      modifies this
      ensures Valid()
      ensures IsRegistered(old(registrations), eventId, caller) ==>
                && reply == Reply(BAD_REQUEST, Message("Already registered"))
                && events == old(events) && registrations == old(registrations)
      ensures !IsRegistered(old(registrations), eventId, caller) ==>
                && reply == Reply(CREATED, Payload(NewRegistration(eventId, caller, now)))
                && registrations == old(registrations) + [NewRegistration(eventId, caller, now)]
                && events == WithAttendee(old(events), eventId, caller)
    {
      if FindRegistration(registrations, eventId, caller).Some? {
        reply := Reply(BAD_REQUEST, Message("Already registered"));
      } else {
        var row := NewRegistration(eventId, caller, now);
        RegisterKeepsConsistent(events, registrations, eventId, caller, now);
        registrations := registrations + [row];
        events := WithAttendee(events, eventId, caller);
        reply := Reply(CREATED, Payload(row));
      }
    }

    /** `unregisterForEvent`: 404 without a registration, otherwise the row
        is deleted and the caller pulled from `attendees`. */
    method UnregisterForEvent(eventId: Id, caller: Id) returns (reply: Reply<()>)
      requires Valid()
      modifies this
      ensures Valid()
      ensures !IsRegistered(old(registrations), eventId, caller) ==>
                && reply == Reply(NOT_FOUND, Message("Not registered for this event"))
                && events == old(events) && registrations == old(registrations)
      ensures IsRegistered(old(registrations), eventId, caller) ==>
                && reply == Reply(OK, Message("Unregistered successfully"))
                && registrations == RemoveAt(old(registrations), FindRegistration(old(registrations), eventId, caller).value)
                && !IsRegistered(registrations, eventId, caller)
                && events == WithoutAttendee(old(events), eventId, caller)
    {
      var found := FindRegistration(registrations, eventId, caller);
      if found.None? {
        reply := Reply(NOT_FOUND, Message("Not registered for this event"));
      } else {
        UnregisterKeepsConsistent(events, registrations, eventId, caller);
        RemoveRowUnregisters(registrations, found.value, eventId, caller);
        registrations := RemoveAt(registrations, found.value);
        events := WithoutAttendee(events, eventId, caller);
        reply := Reply(OK, Message("Unregistered successfully"));
      }
    }

    /** `getRegisteredEvents`. */
    method GetRegisteredEvents(caller: Id) returns (reply: Reply<seq<Id>>)
      ensures reply == Reply(OK, Payload(RegisteredEventIds(registrations, caller)))
    {
      reply := Reply(OK, Payload(RegisteredEventIds(registrations, caller)));
    }
  }
}
