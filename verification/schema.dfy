/** Rule segments: the schema trees the engine walks. */
module Schema {
  import opened Values

  /** What a leaf validator returns: `true`, or a failure token. */
  datatype VRes = Valid | Fail(token: string)

  /** A leaf validator, `(a: unknown) => true | string`. */
  type Validator = Value -> VRes

  /** One declared field of an object rule, in `Object.entries` order. */
  datatype Field = Field(key: string, rule: Segment)

  /** A rule segment. `Shorthand` is a plain `{ key: segment }` object used
      where a segment is expected; `Malformed` is any non-object value used
      where a segment is expected (a number, a string, a function, undefined). */
  datatype Segment =
    | Rule(check: Validator)
    | Ruleset(checks: seq<Validator>)
    | ArrayRule(element: Segment)
    | ObjectRule(fields: seq<Field>)
    | Shorthand(fields: seq<Field>)
    | Malformed

  /** A size that strictly decreases along every call the engine makes,
      including the step in which an ObjectRule instance is re-read as a
      one-field mapping holding its own field rules. */
  function Size(s: Segment): nat
  {
    match s
    case ArrayRule(e) => 1 + Size(e)
    case ObjectRule(fs) => 3 + FieldsSize(fs)
    case Shorthand(fs) => 1 + FieldsSize(fs)
    case _ => 1
  }

  function FieldsSize(fs: seq<Field>): nat
  {
    if fs == [] then 0 else 1 + Size(fs[0].rule) + FieldsSize(fs[1..])
  }

  /** The declared field names. */
  function FieldKeys(fs: seq<Field>): set<string>
  {
    set i | 0 <= i < |fs| :: fs[i].key
  }

  lemma FieldKeysCons(fs: seq<Field>)
    requires fs != []
    ensures FieldKeys(fs) == {fs[0].key} + FieldKeys(fs[1..])
    ensures DistinctFieldKeys(fs) ==> fs[0].key !in FieldKeys(fs[1..]) && DistinctFieldKeys(fs[1..])
  {
    forall k | k in FieldKeys(fs) ensures k in {fs[0].key} + FieldKeys(fs[1..]) {
      var i :| 0 <= i < |fs| && fs[i].key == k;
      if i > 0 { assert fs[1..][i - 1].key == k; }
    }
  }

  /** Field names of a JavaScript object are unique. */
  predicate DistinctFieldKeys(fs: seq<Field>)
  {
    forall i, j :: 0 <= i < j < |fs| ==> fs[i].key != fs[j].key
  }

  /** The segment tree contains no ObjectRule instance (plain mappings are
      allowed). On such trees the two versions of the engine agree. */
  predicate NoObjectRule(s: Segment)
  {
    match s
    case ObjectRule(_) => false
    case ArrayRule(e) => NoObjectRule(e)
    case Shorthand(fs) => forall i :: 0 <= i < |fs| ==> NoObjectRule(fs[i].rule)
    case _ => true
  }
}
