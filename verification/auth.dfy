/** The two middlewares every protected route runs: `authMiddleware`, which
    reads the `token` cookie and verifies it, and `requireRole(roles)`, which
    looks the caller up and checks the stored role. */
module Auth {
  import opened Base
  import opened UserSchema

  /** What `JWT.verify(token, JWT_SECRET)` gives: a failure (bad signature,
      expired, malformed), or the payload's `_id`, which may be missing. The
      verification itself is left abstract. */
  datatype TokenCheck = BadToken | GoodToken(subject: Option<Id>)

  /** A middleware either answers the request or passes it on with a value
      attached to `req`. */
  datatype Step<+T> = Halt(status: nat, message: string) | Next(value: T)

  const NO_TOKEN := "Unauthorized - No token provided"
  const INVALID_TOKEN := "Invalid Token"
  const NOT_SIGNED_IN := "Unauthorized"
  const WRONG_ROLE := "Forbidden: Insufficient role"

  /** `authMiddleware`: a missing or empty cookie is 401, a token that does
      not verify is 400, otherwise `req._id` is the payload's `_id`. */
  function Authenticate(token: Option<string>, verify: string -> TokenCheck): (r: Step<Option<Id>>)
    ensures r.Halt? && r.status == UNAUTHORIZED <==> token.None? || token.value == ""
    ensures r.Halt? && r.status == BAD_REQUEST <==> token.Some? && token.value != "" && verify(token.value).BadToken?
    ensures r.Halt? ==> r.status in {UNAUTHORIZED, BAD_REQUEST}
    ensures r.Next? ==> r.value == verify(token.value).subject
  {
    if token.None? || token.value == "" then Halt(UNAUTHORIZED, NO_TOKEN)
    else match verify(token.value)
      case BadToken => Halt(BAD_REQUEST, INVALID_TOKEN)
      case GoodToken(subject) => Next(subject)
  }

  /** `requireRole(roles)`: 401 without `req._id`, 403 when the user is not
      stored or the stored role is not listed, otherwise `req.user` is the
      stored user. */
  function RequireRole(roles: seq<Role>, caller: Option<Id>, users: seq<User>): (r: Step<User>)
    ensures r.Halt? && r.status == UNAUTHORIZED <==> caller.None?
    ensures r.Next? <==> caller.Some? && FindUser(users, caller.value).Some?
                         && FindUser(users, caller.value).value.role in roles
    ensures r.Halt? ==> r.status in {UNAUTHORIZED, FORBIDDEN}
    ensures r.Next? ==> r.value in users && r.value.id == caller.value && r.value.role in roles
  {
    if caller.None? then Halt(UNAUTHORIZED, NOT_SIGNED_IN)
    else
      var user := FindUser(users, caller.value);
      if user.None? || user.value.role !in roles then Halt(FORBIDDEN, WRONG_ROLE)
      else Next(user.value)
  }

  /** The role check depends on the stored user's role and nothing else of
      the collection: two collections in which the caller has the same role
      give the same decision. */
  lemma RoleDecisionIsByStoredRole(roles: seq<Role>, caller: Id, users1: seq<User>, users2: seq<User>)
    requires FindUser(users1, caller).Some? && FindUser(users2, caller).Some?
    requires FindUser(users1, caller).value.role == FindUser(users2, caller).value.role
    ensures RequireRole(roles, Some(caller), users1).Next? == RequireRole(roles, Some(caller), users2).Next?
    ensures RequireRole(roles, Some(caller), users1).Halt? ==> RequireRole(roles, Some(caller), users1) == RequireRole(roles, Some(caller), users2)
  {
  }

  /** `authMiddleware, requireRole(roles)` as a route runs them, in that order. */
  function Guard(roles: seq<Role>, token: Option<string>, verify: string -> TokenCheck, users: seq<User>): (r: Step<User>)
    ensures token.None? || token.value == "" ==> r == Halt(UNAUTHORIZED, NO_TOKEN)
    ensures r.Next? <==> && token.Some? && token.value != ""
                         && verify(token.value).GoodToken? && verify(token.value).subject.Some?
                         && FindUser(users, verify(token.value).subject.value).Some?
                         && FindUser(users, verify(token.value).subject.value).value.role in roles
    ensures r.Next? ==> r.value in users && r.value.role in roles && Some(r.value.id) == verify(token.value).subject
  {
    match Authenticate(token, verify)
    case Halt(status, message) => Halt(status, message)
    case Next(caller) => RequireRole(roles, caller, users)
  }
}
