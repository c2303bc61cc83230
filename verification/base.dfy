/** Shared vocabulary of the portal model: optional values, validation results,
    document identifiers, time, and the HTTP replies the handlers send. */
module Base {

  datatype Option<+T> = None | Some(value: T)

  /** The outcome of a Mongoose validation or cast: the stored value, or the
      reason it was rejected. */
  datatype Result<+T> = Ok(value: T) | Err(reason: string)

  /** Mongoose's `required` on a String path: present and not the empty
      string. */
  predicate Given(s: Option<string>) {
    s.Some? && s.value != ""
  }

  /** A MongoDB ObjectId, abstracted as a number: only equality matters. */
  type Id = nat

  /** A JavaScript Date, as integer milliseconds since the epoch. */
  type Time = int

  /** The JSON body of a reply: either the document(s) returned by the
      handler or a `{ message }` object. */
  datatype Body<+T> = Payload(value: T) | Message(text: string)

  /** What a handler sends: `res.status(code).json(body)`. */
  datatype Reply<+T> = Reply(status: nat, body: Body<T>)

  const OK: nat := 200
  const CREATED: nat := 201
  const BAD_REQUEST: nat := 400
  const UNAUTHORIZED: nat := 401
  const FORBIDDEN: nat := 403
  const NOT_FOUND: nat := 404
  const SERVER_ERROR: nat := 500
}
