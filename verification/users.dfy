/** The User collection: the schema's enums and defaults, Mongoose's
    validation of a new user, the unique index on `email`, lookup by id, and
    the document view that queries see. */
module UserSchema {
  import opened Base
  import opened MongoQuery

  datatype Role = Alumni | Student | Admin
  datatype AccountStatus = Pending | Verified | Blocked
  datatype DegreeType = BTech | MTech | PhD

  function RoleName(r: Role): string {
    match r
    case Alumni => "alumni"
    case Student => "student"
    case Admin => "admin"
  }

  function AccountStatusName(s: AccountStatus): string {
    match s
    case Pending => "pending"
    case Verified => "verified"
    case Blocked => "blocked"
  }

  function DegreeName(d: DegreeType): string {
    match d
    case BTech => "BTech"
    case MTech => "MTech"
    case PhD => "PhD"
  }

  /** The `role` enum check: the strings it admits are exactly the role names. */
  function ParseRole(s: string): (r: Option<Role>)
    ensures r.Some? ==> RoleName(r.value) == s
    ensures forall x :: RoleName(x) == s ==> r == Some(x)
  {
    if s == "alumni" then Some(Alumni)
    else if s == "student" then Some(Student)
    else if s == "admin" then Some(Admin)
    else None
  }

  function ParseAccountStatus(s: string): (r: Option<AccountStatus>)
    ensures r.Some? ==> AccountStatusName(r.value) == s
    ensures forall x :: AccountStatusName(x) == s ==> r == Some(x)
  {
    if s == "pending" then Some(Pending)
    else if s == "verified" then Some(Verified)
    else if s == "blocked" then Some(Blocked)
    else None
  }

  function ParseDegree(s: string): (r: Option<DegreeType>)
    ensures r.Some? ==> DegreeName(r.value) == s
    ensures forall x :: DegreeName(x) == s ==> r == Some(x)
  {
    if s == "BTech" then Some(BTech)
    else if s == "MTech" then Some(MTech)
    else if s == "PhD" then Some(PhD)
    else None
  }

  datatype User = User(
    id: Id,
    name: string,
    email: string,
    password: Option<string>,
    graduationYear: Option<int>,
    degreeType: Option<DegreeType>,
    department: Option<string>,
    areaOfExpertise: Option<string>,
    industryDomain: Option<string>,
    currentLocation: Option<string>,
    organization: Option<string>,
    role: Role,
    status: AccountStatus)

  /** The fields handed to `User.create`, as given (None: not supplied). */
  datatype UserDraft = UserDraft(
    name: Option<string>,
    email: Option<string>,
    password: Option<string>,
    graduationYear: Option<int>,
    degreeType: Option<string>,
    department: Option<string>,
    areaOfExpertise: Option<string>,
    industryDomain: Option<string>,
    currentLocation: Option<string>,
    organization: Option<string>,
    role: Option<string>,
    status: Option<string>)

  /** An optional enum field passes when absent or when it names a member. */
  predicate EnumOk<E>(s: Option<string>, parse: string -> Option<E>) {
    s.None? || parse(s.value).Some?
  }

  /** Schema validation and defaults for a new user. */
  function ValidateUser(d: UserDraft, id: Id): (r: Result<User>)
    ensures r.Ok? <==> && Given(d.name) && Given(d.email)
                       && EnumOk(d.degreeType, ParseDegree) && EnumOk(d.role, ParseRole)
                       && EnumOk(d.status, ParseAccountStatus)
    ensures r.Ok? ==> r.value.id == id && Some(r.value.name) == d.name && Some(r.value.email) == d.email
    ensures r.Ok? ==> r.value.password == d.password
    ensures r.Ok? && d.role.None? ==> r.value.role == Student
    ensures r.Ok? && d.role.Some? ==> RoleName(r.value.role) == d.role.value
    ensures r.Ok? && d.status.None? ==> r.value.status == Pending
    ensures r.Ok? && d.status.Some? ==> AccountStatusName(r.value.status) == d.status.value
    ensures r.Ok? && d.degreeType.Some? ==> r.value.degreeType.Some? && DegreeName(r.value.degreeType.value) == d.degreeType.value
    ensures r.Ok? && d.degreeType.None? ==> r.value.degreeType.None?
    ensures r.Ok? ==> && r.value.graduationYear == d.graduationYear && r.value.department == d.department
                      && r.value.areaOfExpertise == d.areaOfExpertise && r.value.industryDomain == d.industryDomain
                      && r.value.currentLocation == d.currentLocation && r.value.organization == d.organization
  {
    if !Given(d.name) then Err("Path `name` is required.")
    else if !Given(d.email) then Err("Path `email` is required.")
    else if !EnumOk(d.degreeType, ParseDegree) then Err("`degreeType` is not a valid enum value")
    else if !EnumOk(d.role, ParseRole) then Err("`role` is not a valid enum value")
    else if !EnumOk(d.status, ParseAccountStatus) then Err("`status` is not a valid enum value")
    else
      Ok(User(
        id, d.name.value, d.email.value, d.password, d.graduationYear,
        if d.degreeType.Some? then ParseDegree(d.degreeType.value) else None,
        d.department, d.areaOfExpertise, d.industryDomain, d.currentLocation, d.organization,
        if d.role.Some? then ParseRole(d.role.value).value else Student,
        if d.status.Some? then ParseAccountStatus(d.status.value).value else Pending))
  }

  ghost predicate UniqueEmails(users: seq<User>) {
    forall i, j :: 0 <= i < j < |users| ==> users[i].email != users[j].email
  }

  ghost predicate UniqueIds(users: seq<User>) {
    forall i, j :: 0 <= i < j < |users| ==> users[i].id != users[j].id
  }

  predicate EmailTaken(users: seq<User>, email: string) {
    exists i | 0 <= i < |users| :: users[i].email == email
  }

  /** Inserting into the collection under the unique index on `email`: a
      second user with an email already stored is refused (E11000). */
  function InsertUser(users: seq<User>, u: User): (r: Result<seq<User>>)
    ensures r.Ok? <==> forall v :: v in users ==> v.email != u.email
    ensures r.Ok? ==> r.value == users + [u]
    ensures r.Ok? && UniqueEmails(users) ==> UniqueEmails(r.value)
  {
    if EmailTaken(users, u.email) then Err("E11000 duplicate key error: email")
    else Ok(users + [u])
  }

  /** `User.findById(id)`. */
  function FindUser(users: seq<User>, id: Id): (r: Option<User>)
    ensures r.Some? ==> r.value in users && r.value.id == id
    ensures r.None? ==> forall u :: u in users ==> u.id != id
  {
    if users == [] then None
    else if users[0].id == id then Some(users[0])
    else FindUser(users[1..], id)
  }

  /** The user as `find` sees it; optional fields that are unset are absent. */
  function UserDocument(u: User): (d: Document)
    ensures "role" in d && d["role"] == Str(RoleName(u.role))
    ensures "name" in d && d["name"] == Str(u.name)
    ensures ("department" in d) == u.department.Some?
    ensures u.department.Some? ==> d["department"] == Str(u.department.value)
    ensures ("graduationYear" in d) == u.graduationYear.Some?
    ensures u.graduationYear.Some? ==> d["graduationYear"] == Num(u.graduationYear.value)
    ensures ("degreeType" in d) == u.degreeType.Some?
    ensures u.degreeType.Some? ==> d["degreeType"] == Str(DegreeName(u.degreeType.value))
  {
    var d := map["_id" := ObjectId(u.id), "name" := Str(u.name), "email" := Str(u.email),
                 "role" := Str(RoleName(u.role)), "status" := Str(AccountStatusName(u.status))];
    var d := if u.department.Some? then d["department" := Str(u.department.value)] else d;
    var d := if u.graduationYear.Some? then d["graduationYear" := Num(u.graduationYear.value)] else d;
    if u.degreeType.Some? then d["degreeType" := Str(DegreeName(u.degreeType.value))] else d
  }

  /** `select("-password")`: the document without its password. */
  function WithoutPassword(u: User): (v: User)
    ensures v.password.None?
    ensures v.(password := u.password) == u
  {
    u.(password := None)
  }
}
