/** The Notification collection: fields, the `type` enum, the `read` and
    `createdAt` defaults, and Mongoose's validation of a new notification. */
module NotificationSchema {
  import opened Base

  /** What a notification refers to: an event or a job. */
  datatype NotificationType = EventNotice | JobNotice

  function NotificationTypeName(t: NotificationType): string {
    match t
    case EventNotice => "event"
    case JobNotice => "job"
  }

  function ParseNotificationType(s: string): (r: Option<NotificationType>)
    ensures r.Some? <==> s in {"event", "job"}
    ensures r.Some? ==> NotificationTypeName(r.value) == s
    ensures forall t :: NotificationTypeName(t) == s ==> r == Some(t)
  {
    if s == "event" then Some(EventNotice)
    else if s == "job" then Some(JobNotice)
    else None
  }

  datatype Notification = Notification(
    id: Id,
    userId: Id,
    kind: NotificationType,
    title: string,
    message: string,
    referenceId: Id,
    read: bool,
    createdAt: Time)

  /** The fields handed to `Notification.create`, as given. */
  datatype NotificationDraft = NotificationDraft(
    userId: Option<Id>,
    kind: Option<string>,
    title: Option<string>,
    message: Option<string>,
    referenceId: Option<Id>,
    read: Option<bool>,
    createdAt: Option<Time>)

  /** Schema validation and defaults: `userId`, `type`, `title`, `message`
      and `referenceId` are required, `read` defaults to false and
      `createdAt` to the creation time. */
  function ValidateNotification(d: NotificationDraft, id: Id, now: Time): (r: Result<Notification>)
    ensures r.Ok? <==> && d.userId.Some? && Given(d.kind) && ParseNotificationType(d.kind.value).Some?
                       && Given(d.title) && Given(d.message) && d.referenceId.Some?
    ensures r.Ok? ==> && r.value.id == id && Some(r.value.userId) == d.userId
                      && Some(NotificationTypeName(r.value.kind)) == d.kind
                      && Some(r.value.title) == d.title && Some(r.value.message) == d.message
                      && Some(r.value.referenceId) == d.referenceId
    ensures r.Ok? ==> r.value.read == (d.read == Some(true))
    ensures r.Ok? && d.createdAt.None? ==> r.value.createdAt == now
    ensures r.Ok? && d.createdAt.Some? ==> r.value.createdAt == d.createdAt.value
  {
    if d.userId.None? then Err("Path `userId` is required.")
    else if !Given(d.kind) then Err("Path `type` is required.")
    else if ParseNotificationType(d.kind.value).None? then Err("`type` is not a valid enum value")
    else if !Given(d.title) then Err("Path `title` is required.")
    else if !Given(d.message) then Err("Path `message` is required.")
    else if d.referenceId.None? then Err("Path `referenceId` is required.")
    else
      Ok(Notification(
        id, d.userId.value, ParseNotificationType(d.kind.value).value, d.title.value, d.message.value,
        d.referenceId.value, if d.read.Some? then d.read.value else false,
        if d.createdAt.Some? then d.createdAt.value else now))
  }
}
