/** `searchAlumni`: the server-side directory search. It builds a
    conjunctive filter from four query-string parameters, always restricted
    to role `alumni`, and returns the matching users without their
    passwords. */
module AlumniSearch {
  import opened Base
  import opened Text
  import opened Seqs
  import opened MongoQuery
  import opened UserSchema

  /** `req.query` as parsed by Express: each parameter a string. */
  type QueryString = map<string, string>

  /** A parameter's value, with a missing one read as the empty string:
      both are falsy, and nothing else is. */
  function Param(query: QueryString, key: string): string {
    if key in query then query[key] else ""
  }

  /** The four parameters the handler reads. */
  const SEARCH_KEYS: set<string> := {"department", "graduationYear", "degreeType", "name"}

  /** `if (value) filters[key] = op`. */
  function WithIf(fields: map<string, Operator>, cond: bool, key: string, op: Operator): (m: map<string, Operator>)
    ensures m.Keys == if cond then fields.Keys + {key} else fields.Keys
  {
    if cond then fields[key := op] else fields
  }

  /** `{ $regex: name, $options: "i" }` as a test on a stored name. */
  function NameTest(nameMatches: (string, string) -> bool, name: string): string -> bool {
    (v: string) => nameMatches(name, v)
  }

  /** The filter object, or the CastError that `Number()` giving NaN leads
      to once Mongoose casts `graduationYear`. The name pattern is matched
      case-insensitively by `nameMatches`, which stands for MongoDB's regex
      engine. */
  function AlumniFilter(query: QueryString, nameMatches: (string, string) -> bool): (r: Result<Query>)
    ensures r.Err? <==> Param(query, "graduationYear") != "" && JsNumber(Param(query, "graduationYear")).None?
    ensures r.Ok? ==> r.value.anyOf == [] && r.value.allOf == []
    ensures r.Ok? ==> "role" in r.value.fields && r.value.fields["role"] == Eq(Str("alumni"))
    ensures r.Ok? ==> r.value.fields.Keys <= {"role"} + SEARCH_KEYS
  {
    var department := Param(query, "department");
    var year := Param(query, "graduationYear");
    var degree := Param(query, "degreeType");
    var name := Param(query, "name");
    if year != "" && JsNumber(year).None? then Err("Cast to Number failed for value \"NaN\" at path \"graduationYear\"")
    else Ok(Where(FilterFields(department, year, degree, name, nameMatches)))
  }

  /** The filter's keys: `role` always, then each parameter that is set. */
  function FilterFields(department: string, year: string, degree: string, name: string,
                        nameMatches: (string, string) -> bool): (m: map<string, Operator>)
    ensures "role" in m && m["role"] == Eq(Str("alumni"))
    ensures m.Keys <= {"role"} + SEARCH_KEYS
  {
    var m3 := WithIf(RoleDepartmentYear(department, year), degree != "", "degreeType", Eq(Str(degree)));
    WithIf(m3, name != "", "name", Regex(NameTest(nameMatches, name)))
  }

  /** The `role`, `department` and `graduationYear` keys. */
  function RoleDepartmentYear(department: string, year: string): (m: map<string, Operator>)
    ensures m.Keys <= {"role", "department", "graduationYear"}
  {
    var m0 := map["role" := Eq(Str("alumni"))];
    var m1 := WithIf(m0, department != "", "department", Eq(Str(department)));
    WithIf(m1, year != "", "graduationYear", YearOperator(year))
  }

  function YearOperator(year: string): Operator {
    Eq(Num(if year != "" && JsNumber(year).Some? then JsNumber(year).value else 0))
  }

  /** Which alumni the search is meant to return, stated field by field: an
      empty or missing parameter imposes nothing. */
  predicate Wanted(u: User, query: QueryString, nameMatches: (string, string) -> bool) {
    WantedBy(u, Param(query, "department"), Param(query, "graduationYear"), Param(query, "degreeType"),
             Param(query, "name"), nameMatches)
  }

  predicate WantedBy(u: User, department: string, year: string, degree: string, name: string,
                     nameMatches: (string, string) -> bool) {
    && u.role == Alumni
    && (department != "" ==> u.department == Some(department))
    && (year != "" ==> JsNumber(year).Some? && u.graduationYear == Some(JsNumber(year).value))
    && (degree != "" ==> u.degreeType.Some? && DegreeName(u.degreeType.value) == degree)
    && (name != "" ==> nameMatches(name, u.name))
  }

  /** One conditional key of the filter: it holds of the document exactly
      when the wanted condition holds, and it is absent when not set. */
  lemma StepMeaning(d: Document, fields: map<string, Operator>, cond: bool, key: string, op: Operator, wanted: bool)
    requires key !in fields
    requires cond ==> (OperatorHolds(d, key, op) <==> wanted)
    ensures Matches(d, Where(WithIf(fields, cond, key, op))) <==> Matches(d, Where(fields)) && (cond ==> wanted)
  {
    if cond {
      MatchesWithKey(d, fields, key, op);
    }
  }

  lemma FilterMeansWanted(u: User, query: QueryString, nameMatches: (string, string) -> bool)
    requires AlumniFilter(query, nameMatches).Ok?
    ensures Matches(UserDocument(u), AlumniFilter(query, nameMatches).value) <==> Wanted(u, query, nameMatches)
  {
    FieldsMeaning(u, Param(query, "department"), Param(query, "graduationYear"), Param(query, "degreeType"),
                  Param(query, "name"), nameMatches);
  }

  /** The filter's keys, one by one, state the wanted conditions. */
  lemma FieldsMeaning(u: User, department: string, year: string, degree: string, name: string,
                      nameMatches: (string, string) -> bool)
    requires year != "" ==> JsNumber(year).Some?
    ensures Matches(UserDocument(u), Where(FilterFields(department, year, degree, name, nameMatches)))
            <==> WantedBy(u, department, year, degree, name, nameMatches)
  {
    var d := UserDocument(u);
    var m2 := RoleDepartmentYear(department, year);
    var m3 := WithIf(m2, degree != "", "degreeType", Eq(Str(degree)));
    RoleDepartmentYearMeaning(u, department, year);
    DegreeKey(u, degree);
    StepMeaning(d, m2, degree != "", "degreeType", Eq(Str(degree)), u.degreeType.Some? && DegreeName(u.degreeType.value) == degree);
    NameStep(u, m3, name, nameMatches);
  }

  lemma RoleDepartmentYearMeaning(u: User, department: string, year: string)
    requires year != "" ==> JsNumber(year).Some?
    ensures Matches(UserDocument(u), Where(RoleDepartmentYear(department, year)))
            <==> && u.role == Alumni
                 && (department != "" ==> u.department == Some(department))
                 && (year != "" ==> u.graduationYear == Some(JsNumber(year).value))
  {
    var d := UserDocument(u);
    var m0 := map["role" := Eq(Str("alumni"))];
    var m1 := WithIf(m0, department != "", "department", Eq(Str(department)));
    RoleKey(u);
    DepartmentKey(u, department);
    StepMeaning(d, m0, department != "", "department", Eq(Str(department)), u.department == Some(department));
    YearKey(u, year);
    StepMeaning(d, m1, year != "", "graduationYear", YearOperator(year),
                JsNumber(year).Some? && u.graduationYear == Some(JsNumber(year).value));
  }

  lemma RoleKey(u: User)
    ensures Matches(UserDocument(u), Where(map["role" := Eq(Str("alumni"))])) <==> u.role == Alumni
  {
    assert map["role" := Eq(Str("alumni"))] == map[][ "role" := Eq(Str("alumni"))];
    MatchesWithKey(UserDocument(u), map[], "role", Eq(Str("alumni")));
    assert Matches(UserDocument(u), Where(map[]));
  }

  lemma DepartmentKey(u: User, department: string)
    ensures OperatorHolds(UserDocument(u), "department", Eq(Str(department))) <==> u.department == Some(department)
  {
  }

  lemma YearKey(u: User, year: string)
    requires year != "" ==> JsNumber(year).Some?
    ensures year != "" ==>
      (OperatorHolds(UserDocument(u), "graduationYear", YearOperator(year))
       <==> JsNumber(year).Some? && u.graduationYear == Some(JsNumber(year).value))
  {
  }

  lemma DegreeKey(u: User, degree: string)
    ensures OperatorHolds(UserDocument(u), "degreeType", Eq(Str(degree)))
            <==> u.degreeType.Some? && DegreeName(u.degreeType.value) == degree
  {
  }

  /** The name condition, a case-insensitive pattern match on `name`. */
  lemma NameStep(u: User, fields: map<string, Operator>, name: string, nameMatches: (string, string) -> bool)
    requires "name" !in fields
    ensures Matches(UserDocument(u), Where(WithIf(fields, name != "", "name", Regex(NameTest(nameMatches, name)))))
        <==> Matches(UserDocument(u), Where(fields)) && (name != "" ==> nameMatches(name, u.name))
  {
    var d := UserDocument(u);
    var test := NameTest(nameMatches, name);
    assert OperatorHolds(d, "name", Regex(test)) <==> test(u.name);
    StepMeaning(d, fields, name != "", "name", Regex(test), nameMatches(name, u.name));
  }

  /** The users `find(q)` selects, as a test. */
  function MatchTest(q: Query): User -> bool {
    u => Matches(UserDocument(u), q)
  }

  /** `User.find(filters).select("-password")`, with `selected` the users the
      filter matches: those users, each without a password, in stored order. */
  function SearchResults(users: seq<User>, selected: User -> bool): (r: seq<User>)
    ensures |r| <= |users|
    ensures forall i :: 0 <= i < |r| ==> exists u :: u in users && selected(u) && r[i] == WithoutPassword(u)
    ensures forall u :: u in users && selected(u) ==> WithoutPassword(u) in r
    ensures |r| == |Filter(users, selected)|
    ensures forall i :: 0 <= i < |r| ==> r[i] == WithoutPassword(Filter(users, selected)[i])
  {
    var r := StripPasswords(Filter(users, selected));
    MapOfFilter(users, selected, WithoutPassword, r);
    r
  }

  function WantedTest(query: QueryString, nameMatches: (string, string) -> bool): User -> bool {
    u => Wanted(u, query, nameMatches)
  }

  /** The results depend on which users are selected, not on how the
      selection is written. */
  lemma SameSelectionSameResults(users: seq<User>, p: User -> bool, q: User -> bool)
    requires forall u :: p(u) == q(u)
    ensures SearchResults(users, p) == SearchResults(users, q)
  {
    FilterSameValues(users, p, q);
  }

  function StripPasswords(s: seq<User>): (r: seq<User>)
    ensures |r| == |s|
    ensures forall i :: 0 <= i < |s| ==> r[i] == WithoutPassword(s[i])
  {
    seq(|s|, i requires 0 <= i < |s| => WithoutPassword(s[i]))
  }

  /** `searchAlumni`: 200 with the results, or 500 when the year is not a
      number. */
  function SearchAlumni(query: QueryString, users: seq<User>, nameMatches: (string, string) -> bool): (r: Reply<seq<User>>)
    ensures r.status == SERVER_ERROR <==> Param(query, "graduationYear") != "" && JsNumber(Param(query, "graduationYear")).None?
    ensures r.status == SERVER_ERROR ==> r.body == Message("Error searching alumni")
    ensures r.status != SERVER_ERROR ==> r.status == OK && r.body.Payload?
    ensures r.body.Payload? ==> forall i :: 0 <= i < |r.body.value| ==>
              exists u :: u in users && Wanted(u, query, nameMatches) && r.body.value[i] == WithoutPassword(u)
    ensures r.body.Payload? ==> forall u :: u in users && Wanted(u, query, nameMatches) ==> WithoutPassword(u) in r.body.value
    ensures r.body.Payload? ==> |r.body.value| == |Filter(users, WantedTest(query, nameMatches))|
    ensures r.body.Payload? ==> forall i :: 0 <= i < |r.body.value| ==>
              r.body.value[i] == WithoutPassword(Filter(users, WantedTest(query, nameMatches))[i])
  {
    match AlumniFilter(query, nameMatches)
    case Err(_) => Reply(SERVER_ERROR, Message("Error searching alumni"))
    case Ok(q) =>
      FoundAreWanted(users, query, nameMatches, q);
      Reply(OK, Payload(SearchResults(users, MatchTest(q))))
  }

  /** The filter selects exactly the wanted users, so the results are those
      users without their passwords. */
  lemma FoundAreWanted(users: seq<User>, query: QueryString, nameMatches: (string, string) -> bool, q: Query)
    requires AlumniFilter(query, nameMatches) == Ok(q)
    ensures var r := SearchResults(users, MatchTest(q));
            && (forall i :: 0 <= i < |r| ==> exists u :: u in users && Wanted(u, query, nameMatches) && r[i] == WithoutPassword(u))
            && (forall u :: u in users && Wanted(u, query, nameMatches) ==> WithoutPassword(u) in r)
            && |r| == |Filter(users, WantedTest(query, nameMatches))|
            && (forall i :: 0 <= i < |r| ==> r[i] == WithoutPassword(Filter(users, WantedTest(query, nameMatches))[i]))
  {
    var wanted := WantedTest(query, nameMatches);
    forall u | true
      ensures MatchTest(q)(u) == wanted(u)
    {
      FilterMeansWanted(u, query, nameMatches);
    }
    SameSelectionSameResults(users, MatchTest(q), wanted);
    var r := SearchResults(users, wanted);
    assert forall u :: wanted(u) == Wanted(u, query, nameMatches);
  }

  /** Every user the search returns is an alumnus, and none carries a
      password. */
  lemma ResultsAreAlumniWithoutPassword(query: QueryString, users: seq<User>, nameMatches: (string, string) -> bool, i: nat)
    requires SearchAlumni(query, users, nameMatches).body.Payload?
    requires i < |SearchAlumni(query, users, nameMatches).body.value|
    ensures SearchAlumni(query, users, nameMatches).body.value[i].role == Alumni
    ensures SearchAlumni(query, users, nameMatches).body.value[i].password.None?
  {
    var v := SearchAlumni(query, users, nameMatches).body.value[i];
    var u :| u in users && Wanted(u, query, nameMatches) && v == WithoutPassword(u);
  }

  /** Parameters other than the four the handler reads change nothing, and
      an empty parameter is the same as a missing one. */
  lemma OnlySearchKeysMatter(q1: QueryString, q2: QueryString, users: seq<User>, nameMatches: (string, string) -> bool)
    requires forall k :: k in SEARCH_KEYS ==> Param(q1, k) == Param(q2, k)
    ensures SearchAlumni(q1, users, nameMatches) == SearchAlumni(q2, users, nameMatches)
  {
    assert Param(q1, "department") == Param(q2, "department");
    assert Param(q1, "graduationYear") == Param(q2, "graduationYear");
    assert Param(q1, "degreeType") == Param(q2, "degreeType");
    assert Param(q1, "name") == Param(q2, "name");
  }

  /** A year written as its decimal digits finds exactly the alumni with
      that year, as `Number()` reads such a string. */
  lemma YearIsComparedAsNumber(u: User, query: QueryString, year: nat, nameMatches: (string, string) -> bool)
    requires Param(query, "graduationYear") == NatToString(year)
    ensures AlumniFilter(query, nameMatches).Ok?
    ensures Wanted(u, query, nameMatches) ==> u.graduationYear == Some(year)
    ensures (&& u.role == Alumni && u.graduationYear == Some(year) && Param(query, "department") == ""
             && Param(query, "degreeType") == "" && Param(query, "name") == "") ==> Wanted(u, query, nameMatches)
  {
    NumberOfRenderedNat(year);
  }
}
