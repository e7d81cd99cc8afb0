/** How validate.ts relates to mod.ts. */
module Versions {
  import opened Values
  import opened Schema
  import opened FailMaps
  import opened Engine
  import opened Properties

  /** Wherever validate.ts does not abort, mod.ts gives the same outcome;
      mod.ts aborts only where validate.ts does; and both versions accept
      exactly the same values. This holds for every schema without an
      ObjectRule instance, the one segment the two dispatchers treat
      differently. */
  lemma {:induction false} Refines(v: Value, seg: Segment)
    requires NoObjectRule(seg)
    ensures !Validate(ValidateTs, v, seg).OtherErr? ==> Validate(ModTs, v, seg) == Validate(ValidateTs, v, seg)
    ensures Validate(ModTs, v, seg).OtherErr? ==> Validate(ValidateTs, v, seg).OtherErr?
    ensures Validate(ModTs, v, seg).Ok? <==> Validate(ValidateTs, v, seg).Ok?
    decreases Size(seg), 1
  {
    match seg
    case ArrayRule(e) =>
      if v.Arr? {
        RefinesElements(v.elems, e);
        assert Validate(ModTs, v, seg) == ArrayValidate(ModTs, v, e);
        assert Validate(ValidateTs, v, seg) == ArrayValidate(ValidateTs, v, e);
      }
    case Shorthand(fs) =>
      if IsObjectType(v) {
        RefinesFields(v, fs);
        assert Validate(ModTs, v, seg) == ObjectValidate(ModTs, v, fs);
        assert Validate(ValidateTs, v, seg) == ObjectValidate(ValidateTs, v, fs);
      }
    case _ =>
  }

  lemma {:induction false} RefinesElements(vs: seq<Value>, e: Segment)
    requires NoObjectRule(e)
    ensures !ElementResults(ValidateTs, vs, e).ElementsEscaped? ==>
      ElementResults(ModTs, vs, e) == ElementResults(ValidateTs, vs, e)
    ensures ElementResults(ModTs, vs, e).Elements? && !ElementResults(ModTs, vs, e).errorFound ==>
      ElementResults(ModTs, vs, e) == ElementResults(ValidateTs, vs, e)
    decreases Size(e), 2, |vs|
  {
    if vs != [] {
      Refines(vs[0], e);
      RefinesElements(vs[1..], e);
    }
  }

  lemma {:induction false} RefinesFields(v: Value, fs: seq<Field>)
    requires forall i :: 0 <= i < |fs| ==> NoObjectRule(fs[i].rule)
    ensures !FieldResults(ValidateTs, v, fs).FieldsEscaped? ==>
      FieldResults(ModTs, v, fs) == FieldResults(ValidateTs, v, fs)
    ensures FieldResults(ModTs, v, fs) == FieldErrors([]) ==> FieldResults(ValidateTs, v, fs) == FieldErrors([])
    decreases FieldsSize(fs), 2
  {
    if fs != [] {
      match Read(v, fs[0].key) {
        case None =>
        case Some(x) => Refines(x, fs[0].rule);
      }
      assert FieldResults(ModTs, v, fs)
          == FieldStep(fs[0].key, FieldOutcome(ModTs, v, fs[0]), FieldResults(ModTs, v, fs[1..]));
      assert FieldResults(ValidateTs, v, fs)
          == FieldStep(fs[0].key, FieldOutcome(ValidateTs, v, fs[0]), FieldResults(ValidateTs, v, fs[1..]));
      forall i | 0 <= i < |fs[1..]| ensures NoObjectRule(fs[1..][i].rule) {
        assert fs[1..][i] == fs[i + 1];
      }
      RefinesFields(v, fs[1..]);
    }
  }

  /** A value of the wrong kind for an ArrayRule, a plain mapping or an
      ObjectRule. */
  predicate WrongKind(x: Value, seg: Segment)
  {
    || (seg.ArrayRule? && !x.Arr?)
    || ((seg.Shorthand? || seg.ObjectRule?) && !IsObjectType(x))
  }

  function KindMessage(seg: Segment): string
  {
    if seg.ArrayRule? then NotAnArray else NotAnObject
  }

  /** A kind check fails with a ValidationError in mod.ts and with a plain
      Error in validate.ts; the message is the same. */
  lemma WrongKindOutcome(ver: Version, x: Value, seg: Segment)
    requires WrongKind(x, seg)
    ensures ver == ModTs ==> Validate(ver, x, seg) == VErr(KindMessage(seg), Text(KindMessage(seg)))
    ensures ver == ValidateTs ==> Validate(ver, x, seg) == OtherErr(KindMessage(seg))
  {
  }

  /** validate.ts: an element of the wrong kind aborts the enclosing
      ArrayRule unless an earlier element already escaped. */
  lemma ValidateTsWrongKindElementAborts(vs: seq<Value>, e: Segment, i: nat)
    requires i < |vs| && WrongKind(vs[i], e)
    requires forall j :: 0 <= j < i ==> !Validate(ValidateTs, vs[j], e).OtherErr?
    ensures Validate(ValidateTs, Arr(vs), ArrayRule(e)) == OtherErr(KindMessage(e))
  {
    ElementsEscapeIff(ValidateTs, vs, e);
    ElementsFirstEscape(ValidateTs, vs, e);
    WrongKindOutcome(ValidateTs, vs[i], e);
    var r := ElementResults(ValidateTs, vs, e);
    var k :| 0 <= k < |vs| && Validate(ValidateTs, vs[k], e) == OtherErr(r.message)
      && forall j :: 0 <= j < k ==> !Validate(ValidateTs, vs[j], e).OtherErr?;
    assert k == i;
  }

  /** mod.ts: the same element is recorded in its slot instead. */
  lemma ModTsWrongKindElementRecorded(vs: seq<Value>, e: Segment, i: nat)
    requires i < |vs| && WrongKind(vs[i], e)
    requires forall j :: 0 <= j < |vs| ==> !Validate(ModTs, vs[j], e).OtherErr?
    ensures Validate(ModTs, Arr(vs), ArrayRule(e)).VErr?
    ensures Validate(ModTs, Arr(vs), ArrayRule(e)).failMap.items[i] == Text(KindMessage(e))
  {
    ArrayRuleSpec(ModTs, vs, e);
    WrongKindOutcome(ModTs, vs[i], e);
  }

  /** validate.ts: a field value of the wrong kind aborts the enclosing
      object validation unless an earlier field already escaped; no entry is
      recorded for it or for any other field. */
  lemma ValidateTsWrongKindFieldAborts(v: Value, fs: seq<Field>, i: nat, x: Value)
    requires IsObjectType(v) && i < |fs|
    requires Read(v, fs[i].key) == Some(x) && WrongKind(x, fs[i].rule)
    requires forall j :: 0 <= j < i ==> !FieldOutcome(ValidateTs, v, fs[j]).OtherErr?
    ensures ObjectValidate(ValidateTs, v, fs) == OtherErr(KindMessage(fs[i].rule))
  {
    FieldsEscapeIff(ValidateTs, v, fs);
    FieldsFirstEscape(ValidateTs, v, fs);
    WrongKindOutcome(ValidateTs, x, fs[i].rule);
    assert FieldOutcome(ValidateTs, v, fs[i]).OtherErr?;
    var r := FieldResults(ValidateTs, v, fs);
    var k :| 0 <= k < |fs| && FieldOutcome(ValidateTs, v, fs[k]) == OtherErr(r.message)
      && forall j :: 0 <= j < k ==> !FieldOutcome(ValidateTs, v, fs[j]).OtherErr?;
    assert k == i;
  }

  /** mod.ts: the same field gets the entry `key: "is not an array"` (or
      "is not an object") and the other fields are still validated. */
  lemma ModTsWrongKindFieldRecorded(v: Value, fs: seq<Field>, i: nat, x: Value)
    requires IsObjectType(v) && i < |fs| && DistinctFieldKeys(fs)
    requires Read(v, fs[i].key) == Some(x) && WrongKind(x, fs[i].rule)
    requires forall j :: 0 <= j < |fs| ==> !FieldOutcome(ModTs, v, fs[j]).OtherErr?
    ensures ObjectValidate(ModTs, v, fs).VErr?
    ensures (fs[i].key, Text(KindMessage(fs[i].rule))) in ObjectValidate(ModTs, v, fs).failMap.entries
  {
    ObjectRuleSpec(ModTs, v, fs);
    WrongKindOutcome(ModTs, x, fs[i].rule);
    assert FieldOutcome(ModTs, v, fs[i]).VErr?;
  }

  /** validate.ts re-reads an ObjectRule instance as the mapping of its own
      properties, `{ ruleSegment: fields }`, so the rules apply to the
      input's `ruleSegment` property rather than to the input. */
  lemma ValidateTsObjectRuleRewrapped(v: Value, fs: seq<Field>)
    ensures Validate(ValidateTs, v, ObjectRule(fs))
         == Validate(ValidateTs, v, Shorthand([Field(RuleSegmentProp, Shorthand(fs))]))
  {
  }
}
