/** The recursive validation engine. Both versions in the repository are
    modelled by one definition: `ModTs` is mod.ts, `ValidateTs` is
    validate.ts. They differ in two places only, marked below. */
module Engine {
  import opened Values
  import opened Schema
  import opened FailMaps

  datatype Version = ModTs | ValidateTs

  /** What `validate` does: return the input, throw a ValidationError with a
      message and a failure map, or let some other Error escape. */
  datatype Outcome =
    | Ok(value: Value)
    | VErr(message: string, failMap: FailMap)
    | OtherErr(message: string)

  /** Element results of an ArrayRule: the per-element slots and whether any
      element failed, or the first escaping error. */
  datatype ElementsResult =
    | Elements(results: seq<FailMap>, errorFound: bool)
    | ElementsEscaped(message: string)

  /** Field results of an ObjectRule: the `[key, map]` pairs of the failing
      fields, or the first escaping error. */
  datatype FieldsResult =
    | FieldErrors(errors: seq<Entry>)
    | FieldsEscaped(message: string)

  const NotAnArray := "is not an array"
  const NotAnObject := "is not an object"
  const UnexpectedSegment := "unexpected rule segment"
  /** The TypeError of reading a property of null (its "(reading 'key')"
      suffix is not modelled). */
  const NullRead := "Cannot read properties of null"
  /** The one own enumerable property of an ObjectRule instance. */
  const RuleSegmentProp := "ruleSegment"

  /** The errors that may escape `validate` uncaught: schema errors and the
      TypeError of a null lookup, plus, in validate.ts, the kind checks. */
  predicate Escapable(ver: Version, msg: string)
  {
    || msg == UnexpectedSegment
    || msg == NullRead
    || (ver == ValidateTs && (msg == NotAnArray || msg == NotAnObject))
  }

  /** What a nested validation contributes to an array's results: null on
      success, the failure map on a ValidationError. */
  function Slot(o: Outcome): FailMap
  {
    if o.VErr? then o.failMap else Nil
  }

  /** A failed kind check. First difference: mod.ts throws a ValidationError
      whose map is the message; validate.ts throws a plain Error. */
  function KindError(ver: Version, msg: string): (r: Outcome)
    ensures r.VErr? <==> ver == ModTs
    ensures r.VErr? || r.OtherErr?
    ensures r.message == msg
    ensures r.VErr? ==> r.failMap == Text(msg)
  {
    if ver == ModTs then VErr(msg, Text(msg)) else OtherErr(msg)
  }

  /** `Rule.validate` */
  function RuleValidate(p: Validator, v: Value): (r: Outcome)
    ensures r.Ok? <==> p(v).Valid?
    ensures r.Ok? ==> r.value == v
    ensures r.VErr? ==> r.message == p(v).token && r.failMap == Text(p(v).token)
    ensures !r.OtherErr?
  {
    match p(v)
    case Valid => Ok(v)
    case Fail(t) => VErr(t, Text(t))
  }

  /** The failure tokens of `ps` on `v`: every validator runs, in order. */
  function Failures(ps: seq<Validator>, v: Value): seq<string>
  {
    if ps == [] then []
    else
      var head := match ps[0](v) case Valid => [] case Fail(t) => [t];
      head + Failures(ps[1..], v)
  }

  /** No failure is recorded iff every validator accepts. */
  lemma {:induction false} FailuresEmpty(ps: seq<Validator>, v: Value)
    ensures Failures(ps, v) == [] <==> forall i :: 0 <= i < |ps| ==> ps[i](v).Valid?
  {
    if ps != [] {
      FailuresEmpty(ps[1..], v);
      forall i | 1 <= i < |ps| ensures ps[1..][i - 1] == ps[i] { }
    }
  }

  /** `Ruleset.validate` */
  function RulesetValidate(ps: seq<Validator>, v: Value): (r: Outcome)
    ensures r.Ok? <==> forall i :: 0 <= i < |ps| ==> ps[i](v).Valid?
    ensures r.Ok? ==> r.value == v
    ensures r.VErr? ==> r.failMap == List(Texts(Failures(ps, v))) && r.message == Render(r.failMap)
    ensures !r.OtherErr?
  {
    FailuresEmpty(ps, v);
    var errs := Failures(ps, v);
    if |errs| > 0 then VErr(Render(List(Texts(errs))), List(Texts(errs))) else Ok(v)
  }

  /** The dispatcher `validate(v, segment)`. */
  function Validate(ver: Version, v: Value, seg: Segment): (r: Outcome)
    ensures r.Ok? ==> r.value == v
    ensures r.VErr? ==> r.failMap != Nil
    ensures r.OtherErr? ==> Escapable(ver, r.message)
    decreases Size(seg), 1
  {
    match seg
    case Rule(p) => RuleValidate(p, v)
    case Ruleset(ps) => RulesetValidate(ps, v)
    case ArrayRule(e) => ArrayValidate(ver, v, e)
    case ObjectRule(fs) =>
      // Second difference: validate.ts has no ObjectRule branch, so the
      // instance is wrapped as a mapping of its own properties.
      if ver == ModTs then ObjectValidate(ver, v, fs)
      else
        var wrapped := [Field(RuleSegmentProp, Shorthand(fs))];
        assert FieldsSize(wrapped) == 2 + FieldsSize(fs) by { assert wrapped[1..] == []; }
        ObjectValidate(ver, v, wrapped)
    case Shorthand(fs) => ObjectValidate(ver, v, fs)
    case Malformed => OtherErr(UnexpectedSegment)
  }

  /** `ArrayRule.validate` */
  function ArrayValidate(ver: Version, v: Value, e: Segment): (r: Outcome)
    ensures !v.Arr? ==> r == KindError(ver, NotAnArray)
    ensures ver == ModTs ==> (r == VErr(NotAnArray, Text(NotAnArray)) <==> !v.Arr?)
    ensures r.Ok? ==> r.value == v
    ensures r.VErr? ==> r.failMap != Nil
    ensures r.VErr? && v.Arr? ==> r.failMap.List? && |r.failMap.items| == |v.elems| && r.message == Render(r.failMap)
    ensures r.OtherErr? ==> Escapable(ver, r.message)
    decreases Size(e), 3
  {
    if !v.Arr? then KindError(ver, NotAnArray)
    else
      match ElementResults(ver, v.elems, e)
      case ElementsEscaped(msg) => OtherErr(msg)
      case Elements(results, found) =>
        if found then VErr(Render(List(results)), List(results)) else Ok(v)
  }

  /** One step of the `v.map(...)` loop: the outcome of one element in front
      of the results of the elements after it. An escaping error ends the
      loop; a ValidationError is caught and its map recorded. */
  function ElementStep(head: Outcome, rest: ElementsResult): (r: ElementsResult)
    ensures r.Elements? ==> rest.Elements? && |r.results| == 1 + |rest.results|
    ensures r.Elements? && !r.errorFound <==> head.Ok? && rest.Elements? && !rest.errorFound
  {
    if head.OtherErr? then ElementsEscaped(head.message)
    else
      match rest
      case ElementsEscaped(msg) => ElementsEscaped(msg)
      case Elements(slots, found) => Elements([Slot(head)] + slots, head.VErr? || found)
  }

  /** The `v.map(...)` loop of `ArrayRule.validate`, element by element. */
  function ElementResults(ver: Version, vs: seq<Value>, e: Segment): (r: ElementsResult)
    ensures r.Elements? ==> |r.results| == |vs|
    ensures r.ElementsEscaped? ==> Escapable(ver, r.message)
    decreases Size(e), 2, |vs|
  {
    if vs == [] then Elements([], false)
    else ElementStep(Validate(ver, vs[0], e), ElementResults(ver, vs[1..], e))
  }

  /** `ObjectRule.validate` */
  function ObjectValidate(ver: Version, v: Value, fs: seq<Field>): (r: Outcome)
    ensures !IsObjectType(v) ==> r == KindError(ver, NotAnObject)
    ensures ver == ModTs ==> (r == VErr(NotAnObject, Text(NotAnObject)) <==> !IsObjectType(v))
    ensures v.Null? && |fs| > 0 ==> r == OtherErr(NullRead)
    ensures r.Ok? ==> r.value == v
    ensures r.VErr? ==> r.failMap != Nil
    ensures r.VErr? && IsObjectType(v) ==> r.failMap.Fields? && KeySet(r.failMap.entries) <= FieldKeys(fs)
    ensures r.OtherErr? ==> Escapable(ver, r.message)
    decreases FieldsSize(fs), 3
  {
    if !IsObjectType(v) then KindError(ver, NotAnObject)
    else
      match FieldResults(ver, v, fs)
      case FieldsEscaped(msg) => OtherErr(msg)
      case FieldErrors(errs) =>
        if |errs| > 0 then VErr(Render(List(Pairs(errs))), Fields(FromEntries(errs))) else Ok(v)
  }

  /** Reading one declared field and validating it. */
  function FieldOutcome(ver: Version, v: Value, f: Field): (r: Outcome)
    ensures v.Null? ==> r == OtherErr(NullRead)
    ensures r.OtherErr? ==> Escapable(ver, r.message)
    ensures r.VErr? ==> r.failMap != Nil
    decreases Size(f.rule), 2
  {
    match Read(v, f.key)
    case None => OtherErr(NullRead)
    case Some(x) => Validate(ver, x, f.rule)
  }

  /** One step of the `reduce` over the declared fields: the outcome of the
      field `key` in front of the results of the fields after it. An
      escaping error ends the loop; a ValidationError is caught and the pair
      `[key, map]` recorded. */
  function FieldStep(key: string, head: Outcome, rest: FieldsResult): (r: FieldsResult)
    ensures r.FieldErrors? ==> rest.FieldErrors? && |r.errors| <= 1 + |rest.errors|
    ensures r == FieldErrors([]) <==> head.Ok? && rest == FieldErrors([])
  {
    if head.OtherErr? then FieldsEscaped(head.message)
    else
      match rest
      case FieldsEscaped(msg) => FieldsEscaped(msg)
      case FieldErrors(errs) =>
        FieldErrors((if head.VErr? then [(key, head.failMap)] else []) + errs)
  }

  /** A step records at most its own key, and a key not recorded after it
      keeps the recorded keys distinct. */
  lemma FieldStepKeys(key: string, head: Outcome, rest: FieldsResult)
    ensures FieldStep(key, head, rest).FieldErrors? ==>
      KeySet(FieldStep(key, head, rest).errors) <= {key} + KeySet(rest.errors)
    ensures FieldStep(key, head, rest).FieldErrors? && DistinctKeys(rest.errors) && key !in KeySet(rest.errors) ==>
      DistinctKeys(FieldStep(key, head, rest).errors)
  {
    if !head.OtherErr? && rest.FieldErrors? {
      var mine := if head.VErr? then [(key, head.failMap)] else [];
      KeySetConcat(mine, rest.errors);
      assert KeySet(mine) <= {key};
      if DistinctKeys(rest.errors) && key !in KeySet(rest.errors) {
        DistinctConcat(mine, rest.errors);
      }
    }
  }

  /** The `Object.entries(...).reduce(...)` loop of `ObjectRule.validate`. */
  function FieldResults(ver: Version, v: Value, fs: seq<Field>): (r: FieldsResult)
    ensures r.FieldErrors? ==> |r.errors| <= |fs| && KeySet(r.errors) <= FieldKeys(fs)
    ensures r.FieldErrors? && DistinctFieldKeys(fs) ==> DistinctKeys(r.errors)
    ensures v.Null? && |fs| > 0 ==> r == FieldsEscaped(NullRead)
    ensures r.FieldsEscaped? ==> Escapable(ver, r.message)
    decreases FieldsSize(fs), 2
  {
    if fs == [] then FieldErrors([])
    else
      FieldKeysCons(fs);
      var head := FieldOutcome(ver, v, fs[0]);
      var rest := FieldResults(ver, v, fs[1..]);
      FieldStepKeys(fs[0].key, head, rest);
      FieldStep(fs[0].key, head, rest)
  }
}
