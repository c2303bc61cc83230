/** The part of MongoDB's query language the controllers build: a filter
    object whose plain keys are conjoined field conditions (`{ field: value }`,
    `{ $gte }`, `{ $exists }`, `{ $regex }`), plus at most one `$or` and one
    `$and` key. A JavaScript object has one slot per key, so writing
    `{ ...query, $or: X }` replaces whatever `$or` the query already had:
    here that is `query.(anyOf := X)`. */
module MongoQuery {
  import opened Base

  /** A BSON value stored in a document field. */
  datatype Value = Str(s: string) | Num(n: int) | ObjectId(id: Id) | Date(t: Time) | Bool(b: bool)

  /** A stored document seen through its top-level fields; an absent key is
      a field the document does not have. */
  type Document = map<string, Value>

  datatype Operator =
    | Eq(v: Value)                 // { field: v }
    | Gte(v: Value)                // { field: { $gte: v } }
    | Exists(present: bool)        // { field: { $exists: present } }
    | Regex(test: string -> bool)  // { field: { $regex, $options } }, the pattern left abstract

  /** A filter object: plain field keys, the `$or` key and the `$and` key.
      An empty `anyOf` or `allOf` stands for an absent key (MongoDB refuses an
      empty `$or` or `$and`, and the controllers never build one). */
  datatype Query = Query(fields: map<string, Operator>, anyOf: seq<Query>, allOf: seq<Query>)

  /** `$gte` compares values of the same BSON type only. */
  predicate AtLeast(a: Value, b: Value) {
    || (a.Num? && b.Num? && a.n >= b.n)
    || (a.Date? && b.Date? && a.t >= b.t)
  }

  predicate OperatorHolds(d: Document, key: string, op: Operator) {
    match op
    case Eq(v) => key in d && d[key] == v
    case Gte(v) => key in d && AtLeast(d[key], v)
    case Exists(present) => (key in d) == present
    case Regex(test) => key in d && d[key].Str? && test(d[key].s)
  }

  /** Whether `find(q)` selects document `d`. */
  predicate Matches(d: Document, q: Query)
    decreases q
  {
    && (forall k | k in q.fields :: OperatorHolds(d, k, q.fields[k]))
    && (q.anyOf != [] ==> exists i | 0 <= i < |q.anyOf| :: Matches(d, q.anyOf[i]))
    && (forall i | 0 <= i < |q.allOf| :: Matches(d, q.allOf[i]))
  }

  /** A filter object with plain field keys only. */
  function Where(fields: map<string, Operator>): Query {
    Query(fields, [], [])
  }

  /** Adding a plain key to a filter conjoins its condition. */
  lemma MatchesWithKey(d: Document, fields: map<string, Operator>, key: string, op: Operator)
    requires key !in fields
    ensures Matches(d, Where(fields[key := op])) <==> Matches(d, Where(fields)) && OperatorHolds(d, key, op)
  {
    var m := fields[key := op];
    if Matches(d, Where(fields)) && OperatorHolds(d, key, op) {
      forall k | k in m
        ensures OperatorHolds(d, k, m[k])
      {
        if k != key {
          assert k in fields;
        }
      }
    }
    if Matches(d, Where(m)) {
      assert OperatorHolds(d, key, m[key]);
      forall k | k in fields
        ensures OperatorHolds(d, k, fields[k])
      {
        assert k in m && m[k] == fields[k];
      }
    }
  }

  /** A filter with one plain key holds when its condition does. */
  lemma MatchesOneKey(d: Document, key: string, op: Operator)
    ensures Matches(d, Where(map[key := op])) <==> OperatorHolds(d, key, op)
  {
    assert map[key := op].Keys == {key};
  }

  /** A filter with two plain keys holds when both conditions do. */
  lemma MatchesTwoKeys(d: Document, key1: string, op1: Operator, key2: string, op2: Operator)
    requires key1 != key2
    ensures Matches(d, Where(map[key1 := op1, key2 := op2]))
        <==> OperatorHolds(d, key1, op1) && OperatorHolds(d, key2, op2)
  {
    MatchesOneKey(d, key1, op1);
    MatchesWithKey(d, map[key1 := op1], key2, op2);
  }

  /** A filter with a two-way `$or` holds when its plain keys hold and one
      of the two branches does. */
  lemma MatchesEither(d: Document, fields: map<string, Operator>, a: Query, b: Query)
    ensures Matches(d, Query(fields, [a, b], []))
        <==> Matches(d, Where(fields)) && (Matches(d, a) || Matches(d, b))
  {
    var q := Query(fields, [a, b], []);
    if Matches(d, a) || Matches(d, b) {
      assert Matches(d, q.anyOf[0]) || Matches(d, q.anyOf[1]);
    }
  }
}
