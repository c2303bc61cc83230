/** The Event and EventRegistration collections: fields, enums, defaults,
    Mongoose's validation of a new event, and the document view queries see. */
module EventSchema {
  import opened Base
  import opened MongoQuery

  /** The lifecycle of an event, with `pending` for events awaiting an
      administrator's approval. */
  datatype EventStatus = Pending | Upcoming | Cancelled | Postponed | Completed

  function EventStatusName(s: EventStatus): string {
    match s
    case Pending => "pending"
    case Upcoming => "upcoming"
    case Cancelled => "cancelled"
    case Postponed => "postponed"
    case Completed => "completed"
  }

  /** The `status` enum as the Event schema declares it: `pending` is not a
      member. */
  const DeclaredStatusNames: set<string> := {"upcoming", "cancelled", "postponed", "completed"}

  /** The statuses the controllers write and query, `pending` included. */
  const StatusNames: set<string> := DeclaredStatusNames + {"pending"}

  function ParseEventStatus(s: string): (r: Option<EventStatus>)
    ensures r.Some? <==> s in StatusNames
    ensures r.Some? ==> EventStatusName(r.value) == s
    ensures forall x :: EventStatusName(x) == s ==> r == Some(x)
  {
    if s == "pending" then Some(Pending)
    else if s == "upcoming" then Some(Upcoming)
    else if s == "cancelled" then Some(Cancelled)
    else if s == "postponed" then Some(Postponed)
    else if s == "completed" then Some(Completed)
    else None
  }

  datatype Event = Event(
    id: Id,
    title: string,
    organizerUserId: Id,
    organizerName: Option<string>,
    date: Time,
    endDate: Time,
    location: string,
    description: Option<string>,
    tags: seq<string>,
    capacity: Option<int>,
    status: EventStatus,
    publishedAt: Time,
    attendees: seq<Id>)

  /** The fields handed to `Event.create`, as given (None: not supplied);
      `status` is the raw string before the enum check. */
  datatype EventDraft = EventDraft(
    title: Option<string>,
    organizerUserId: Option<Id>,
    organizerName: Option<string>,
    date: Option<Time>,
    endDate: Option<Time>,
    location: Option<string>,
    description: Option<string>,
    tags: Option<seq<string>>,
    capacity: Option<int>,
    status: Option<string>)

  /** The schema's `required` paths: title, organizerUserId, date, endDate
      and location. */
  predicate RequiredPresent(d: EventDraft) {
    Given(d.title) && d.organizerUserId.Some? && d.date.Some? && d.endDate.Some? && Given(d.location)
  }

  /** Schema validation and defaults for a new event, with `statusEnum` the
      strings the `status` enum admits. */
  function ValidateEventAgainst(d: EventDraft, statusEnum: set<string>, id: Id, now: Time): (r: Result<Event>)
    requires statusEnum <= StatusNames
    ensures r.Ok? <==> RequiredPresent(d) && (d.status.None? || d.status.value in statusEnum)
    ensures r.Ok? ==> && r.value.id == id && Some(r.value.title) == d.title
                      && Some(r.value.organizerUserId) == d.organizerUserId
                      && r.value.organizerName == d.organizerName
                      && Some(r.value.date) == d.date && Some(r.value.endDate) == d.endDate
                      && Some(r.value.location) == d.location
    ensures r.Ok? && d.status.None? ==> r.value.status == Upcoming
    ensures r.Ok? && d.status.Some? ==> EventStatusName(r.value.status) == d.status.value
    ensures r.Ok? ==> r.value.attendees == [] && r.value.publishedAt == now
    ensures r.Ok? && d.tags.None? ==> r.value.tags == []
    ensures r.Ok? && d.tags.Some? ==> r.value.tags == d.tags.value
    ensures r.Ok? ==> r.value.description == d.description && r.value.capacity == d.capacity
  {
    if !RequiredPresent(d) then Err("Event validation failed: a required path is missing")
    else if d.status.Some? && d.status.value !in statusEnum then Err("Event validation failed: `status` is not a valid enum value")
    else
      Ok(Event(
        id, d.title.value, d.organizerUserId.value, d.organizerName, d.date.value, d.endDate.value,
        d.location.value, d.description, if d.tags.Some? then d.tags.value else [], d.capacity,
        if d.status.Some? then ParseEventStatus(d.status.value).value else Upcoming,
        now, []))
  }

  /** Validation exactly as the Event schema declares its status enum. */
  function ValidateEventAsDeclared(d: EventDraft, id: Id, now: Time): Result<Event> {
    ValidateEventAgainst(d, DeclaredStatusNames, id, now)
  }

  /** Validation with `pending` admitted, which the moderation workflow needs. */
  function ValidateEvent(d: EventDraft, id: Id, now: Time): Result<Event> {
    ValidateEventAgainst(d, StatusNames, id, now)
  }

  datatype RegistrationStatus = Registered | Withdrawn

  function RegistrationStatusName(s: RegistrationStatus): string {
    match s
    case Registered => "registered"
    case Withdrawn => "cancelled"
  }

  /** An EventRegistration row: `eventId` and `userId` are required; no index
      makes the pair unique. */
  datatype Registration = Registration(eventId: Id, userId: Id, registeredAt: Time, status: RegistrationStatus)

  /** `EventRegistration.create({ eventId, userId })`: the defaults fill in
      the time and the `registered` status. */
  function NewRegistration(eventId: Id, userId: Id, now: Time): (r: Registration)
    ensures r.eventId == eventId && r.userId == userId
    ensures r.status == Registered && RegistrationStatusName(r.status) == "registered"
    ensures r.registeredAt == now
  {
    Registration(eventId, userId, now, Registered)
  }

  /** The event as `find` sees it (the fields the controllers query). */
  function EventDocument(e: Event): Document {
    map["_id" := ObjectId(e.id), "title" := Str(e.title), "organizerUserId" := ObjectId(e.organizerUserId),
        "date" := Date(e.date), "endDate" := Date(e.endDate), "location" := Str(e.location),
        "status" := Str(EventStatusName(e.status)), "publishedAt" := Date(e.publishedAt)]
  }

  /** The document fields the listing query reads. */
  lemma EventDocumentFields(e: Event)
    ensures var d := EventDocument(e);
            && "endDate" in d && d["endDate"] == Date(e.endDate)
            && "status" in d && d["status"] == Str(EventStatusName(e.status))
            && "organizerUserId" in d && d["organizerUserId"] == ObjectId(e.organizerUserId)
  {
  }

  /** The listing query's two status names pick out one status each. */
  lemma EventStatusNames(s: EventStatus)
    ensures EventStatusName(s) == "upcoming" <==> s == Upcoming
    ensures EventStatusName(s) == "pending" <==> s == Pending
  {
  }
}
