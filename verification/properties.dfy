/** What each rule kind promises, for either version of the engine. */
module Properties {
  import opened Values
  import opened Schema
  import opened FailMaps
  import opened Engine

  /* ---------------- Ruleset ---------------- */

  /** Every validator runs: the failures of a concatenation are the failures
      of its parts, in order. No failure hides a later one. */
  lemma {:induction false} FailuresAppend(ps1: seq<Validator>, ps2: seq<Validator>, v: Value)
    ensures Failures(ps1 + ps2, v) == Failures(ps1, v) + Failures(ps2, v)
  {
    if ps1 == [] {
      assert ps1 + ps2 == ps2;
    } else {
      assert (ps1 + ps2)[0] == ps1[0];
      assert (ps1 + ps2)[1..] == ps1[1..] + ps2;
      FailuresAppend(ps1[1..], ps2, v);
    }
  }

  /** The failures are exactly the tokens of the failing validators: each
      failing validator's token is present and each token came from a
      failing validator. */
  lemma {:induction false} FailuresExact(ps: seq<Validator>, v: Value)
    ensures forall i :: 0 <= i < |ps| && ps[i](v).Fail? ==> ps[i](v).token in Failures(ps, v)
    ensures forall t :: t in Failures(ps, v) ==> exists i :: 0 <= i < |ps| && ps[i](v) == Fail(t)
  {
    if ps != [] {
      FailuresExact(ps[1..], v);
      forall i | 1 <= i < |ps| ensures ps[1..][i - 1] == ps[i] { }
      forall t | t in Failures(ps, v) ensures exists i :: 0 <= i < |ps| && ps[i](v) == Fail(t) {
        if t in Failures(ps[1..], v) {
          var i :| 0 <= i < |ps[1..]| && ps[1..][i](v) == Fail(t);
          assert ps[i + 1](v) == Fail(t);
        } else {
          assert ps[0](v) == Fail(t);
        }
      }
    }
  }

  /** A Ruleset fails iff some validator fails; its map lists every failing
      token, in validator order, and nothing else. */
  lemma RulesetSpec(ver: Version, ps: seq<Validator>, v: Value)
    ensures Validate(ver, v, Ruleset(ps)).VErr? <==> exists i :: 0 <= i < |ps| && ps[i](v).Fail?
    ensures Validate(ver, v, Ruleset(ps)).Ok? ==> Validate(ver, v, Ruleset(ps)).value == v
    ensures Validate(ver, v, Ruleset(ps)).VErr? ==>
      var items := Validate(ver, v, Ruleset(ps)).failMap.items;
      && (forall i :: 0 <= i < |ps| && ps[i](v).Fail? ==> Text(ps[i](v).token) in items)
      && (forall j :: 0 <= j < |items| ==> exists i :: 0 <= i < |ps| && ps[i](v).Fail? && items[j] == Text(ps[i](v).token))
  {
    FailuresExact(ps, v);
    var errs := Failures(ps, v);
    var items := Texts(errs);
    forall i | 0 <= i < |ps| && ps[i](v).Fail? ensures Text(ps[i](v).token) in items {
      var j :| 0 <= j < |errs| && errs[j] == ps[i](v).token;
      assert items[j] == Text(ps[i](v).token);
    }
    forall j | 0 <= j < |items| ensures exists i :: 0 <= i < |ps| && ps[i](v).Fail? && items[j] == Text(ps[i](v).token) {
      assert errs[j] in errs;
    }
  }

  /* ---------------- ArrayRule ---------------- */

  /** One step of the element loop. */
  lemma ElementResultsUnfold(ver: Version, vs: seq<Value>, e: Segment)
    requires vs != []
    ensures ElementResults(ver, vs, e) == ElementStep(Validate(ver, vs[0], e), ElementResults(ver, vs[1..], e))
  {
  }

  /** The element loop escapes iff some element escapes. */
  lemma {:induction false} ElementsEscapeIff(ver: Version, vs: seq<Value>, e: Segment)
    ensures ElementResults(ver, vs, e).ElementsEscaped? <==>
      exists i :: 0 <= i < |vs| && Validate(ver, vs[i], e).OtherErr?
  {
    if vs != [] {
      ElementResultsUnfold(ver, vs, e);
      ElementsEscapeIff(ver, vs[1..], e);
      if ElementResults(ver, vs[1..], e).ElementsEscaped? {
        var i :| 0 <= i < |vs[1..]| && Validate(ver, vs[1..][i], e).OtherErr?;
        assert Validate(ver, vs[i + 1], e).OtherErr?;
      }
      forall i | 1 <= i < |vs| && Validate(ver, vs[i], e).OtherErr?
        ensures ElementResults(ver, vs[1..], e).ElementsEscaped?
      {
        assert vs[1..][i - 1] == vs[i];
      }
    }
  }

  /** An escaping element loop carries the error of the first escaping
      element. */
  lemma {:induction false} ElementsFirstEscape(ver: Version, vs: seq<Value>, e: Segment)
    ensures ElementResults(ver, vs, e).ElementsEscaped? ==>
      exists i :: 0 <= i < |vs| && Validate(ver, vs[i], e) == OtherErr(ElementResults(ver, vs, e).message)
        && forall j :: 0 <= j < i ==> !Validate(ver, vs[j], e).OtherErr?
  {
    if vs != [] {
      var head := Validate(ver, vs[0], e);
      var r := ElementResults(ver, vs, e);
      ElementResultsUnfold(ver, vs, e);
      ElementsFirstEscape(ver, vs[1..], e);
      if r.ElementsEscaped? && !head.OtherErr? {
        var i :| 0 <= i < |vs[1..]| && Validate(ver, vs[1..][i], e) == OtherErr(r.message)
          && forall j :: 0 <= j < i ==> !Validate(ver, vs[1..][j], e).OtherErr?;
        assert vs[1..][i] == vs[i + 1];
        forall j | 0 <= j < i + 1 ensures !Validate(ver, vs[j], e).OtherErr? {
          if j > 0 { assert vs[j] == vs[1..][j - 1]; }
        }
      }
    }
  }

  /** When the element loop does not escape, slot i is null when element i
      passed and its failure map when it failed. */
  lemma {:induction false} ElementsSlots(ver: Version, vs: seq<Value>, e: Segment)
    ensures ElementResults(ver, vs, e).Elements? ==>
      forall i :: 0 <= i < |vs| ==> ElementResults(ver, vs, e).results[i] == Slot(Validate(ver, vs[i], e))
  {
    if vs != [] {
      var rest := ElementResults(ver, vs[1..], e);
      var r := ElementResults(ver, vs, e);
      ElementResultsUnfold(ver, vs, e);
      ElementsSlots(ver, vs[1..], e);
      if r.Elements? {
        forall i | 1 <= i < |vs| ensures r.results[i] == Slot(Validate(ver, vs[i], e)) {
          assert r.results[i] == rest.results[i - 1];
          assert vs[1..][i - 1] == vs[i];
        }
      }
    }
  }

  /** When the element loop does not escape, `errorFound` records whether
      any element failed. */
  lemma {:induction false} ElementsFound(ver: Version, vs: seq<Value>, e: Segment)
    ensures ElementResults(ver, vs, e).Elements? ==>
      (ElementResults(ver, vs, e).errorFound <==> exists i :: 0 <= i < |vs| && Validate(ver, vs[i], e).VErr?)
  {
    if vs != [] {
      var head := Validate(ver, vs[0], e);
      var rest := ElementResults(ver, vs[1..], e);
      var r := ElementResults(ver, vs, e);
      ElementResultsUnfold(ver, vs, e);
      ElementsFound(ver, vs[1..], e);
      if r.Elements? {
        if rest.errorFound {
          var i :| 0 <= i < |vs[1..]| && Validate(ver, vs[1..][i], e).VErr?;
          assert Validate(ver, vs[i + 1], e).VErr?;
        }
        forall i | 1 <= i < |vs| && Validate(ver, vs[i], e).VErr? ensures rest.errorFound {
          assert vs[1..][i - 1] == vs[i];
        }
      }
    }
  }

  /** `ArrayRule.validate` on an array: it passes iff every element passes,
      returning the array itself; it throws a ValidationError iff no element
      escapes and some element fails, with a map of the input's length
      holding null at each passing index and the element's map at each
      failing one; an escaping element error propagates unchanged. */
  lemma ArrayRuleSpec(ver: Version, vs: seq<Value>, e: Segment)
    ensures Validate(ver, Arr(vs), ArrayRule(e)).Ok? <==>
      forall i :: 0 <= i < |vs| ==> Validate(ver, vs[i], e).Ok?
    ensures Validate(ver, Arr(vs), ArrayRule(e)).OtherErr? <==>
      exists i :: 0 <= i < |vs| && Validate(ver, vs[i], e).OtherErr?
    ensures Validate(ver, Arr(vs), ArrayRule(e)).OtherErr? ==>
      exists i :: 0 <= i < |vs| && Validate(ver, vs[i], e) == Validate(ver, Arr(vs), ArrayRule(e))
        && forall j :: 0 <= j < i ==> !Validate(ver, vs[j], e).OtherErr?
    ensures Validate(ver, Arr(vs), ArrayRule(e)).VErr? ==>
      var m := Validate(ver, Arr(vs), ArrayRule(e)).failMap;
      && m.List? && |m.items| == |vs|
      && forall i :: 0 <= i < |vs| ==> m.items[i] == Slot(Validate(ver, vs[i], e))
  {
    ElementsEscapeIff(ver, vs, e);
    ElementsFirstEscape(ver, vs, e);
    ElementsSlots(ver, vs, e);
    ElementsFound(ver, vs, e);
  }

  /* ---------------- ObjectRule ---------------- */

  /** One step of the field loop. */
  lemma FieldResultsUnfold(ver: Version, v: Value, fs: seq<Field>)
    requires fs != []
    ensures FieldResults(ver, v, fs) == FieldStep(fs[0].key, FieldOutcome(ver, v, fs[0]), FieldResults(ver, v, fs[1..]))
  {
  }

  /** The field loop escapes iff some field escapes. */
  lemma {:induction false} FieldsEscapeIff(ver: Version, v: Value, fs: seq<Field>)
    ensures FieldResults(ver, v, fs).FieldsEscaped? <==>
      exists i :: 0 <= i < |fs| && FieldOutcome(ver, v, fs[i]).OtherErr?
  {
    if fs != [] {
      FieldResultsUnfold(ver, v, fs);
      FieldsEscapeIff(ver, v, fs[1..]);
      if FieldResults(ver, v, fs[1..]).FieldsEscaped? {
        var i :| 0 <= i < |fs[1..]| && FieldOutcome(ver, v, fs[1..][i]).OtherErr?;
        assert FieldOutcome(ver, v, fs[i + 1]).OtherErr?;
      }
      forall i | 1 <= i < |fs| && FieldOutcome(ver, v, fs[i]).OtherErr?
        ensures FieldResults(ver, v, fs[1..]).FieldsEscaped?
      {
        assert fs[1..][i - 1] == fs[i];
      }
    }
  }

  /** An escaping field loop carries the error of the first escaping
      field. */
  lemma {:induction false} FieldsFirstEscape(ver: Version, v: Value, fs: seq<Field>)
    ensures FieldResults(ver, v, fs).FieldsEscaped? ==>
      exists i :: 0 <= i < |fs| && FieldOutcome(ver, v, fs[i]) == OtherErr(FieldResults(ver, v, fs).message)
        && forall j :: 0 <= j < i ==> !FieldOutcome(ver, v, fs[j]).OtherErr?
  {
    if fs != [] {
      var head := FieldOutcome(ver, v, fs[0]);
      var r := FieldResults(ver, v, fs);
      FieldResultsUnfold(ver, v, fs);
      FieldsFirstEscape(ver, v, fs[1..]);
      if r.FieldsEscaped? && !head.OtherErr? {
        var i :| 0 <= i < |fs[1..]| && FieldOutcome(ver, v, fs[1..][i]) == OtherErr(r.message)
          && forall j :: 0 <= j < i ==> !FieldOutcome(ver, v, fs[1..][j]).OtherErr?;
        assert fs[1..][i] == fs[i + 1];
        forall j | 0 <= j < i + 1 ensures !FieldOutcome(ver, v, fs[j]).OtherErr? {
          if j > 0 { assert fs[j] == fs[1..][j - 1]; }
        }
      }
    }
  }

  /** When the field loop does not escape, the collected pairs are exactly
      the failing fields with their maps. */
  lemma {:induction false} FieldsCollected(ver: Version, v: Value, fs: seq<Field>)
    ensures FieldResults(ver, v, fs).FieldErrors? ==>
      forall i :: 0 <= i < |fs| && FieldOutcome(ver, v, fs[i]).VErr? ==>
        (fs[i].key, FieldOutcome(ver, v, fs[i]).failMap) in FieldResults(ver, v, fs).errors
    ensures FieldResults(ver, v, fs).FieldErrors? ==>
      forall en :: en in FieldResults(ver, v, fs).errors ==>
        exists i :: 0 <= i < |fs| && FieldOutcome(ver, v, fs[i]).VErr?
          && en == (fs[i].key, FieldOutcome(ver, v, fs[i]).failMap)
  {
    if fs != [] {
      var head := FieldOutcome(ver, v, fs[0]);
      var rest := FieldResults(ver, v, fs[1..]);
      var r := FieldResults(ver, v, fs);
      FieldResultsUnfold(ver, v, fs);
      FieldsCollected(ver, v, fs[1..]);
      if r.FieldErrors? {
        var mine := if head.VErr? then [(fs[0].key, head.failMap)] else [];
        assert r.errors == mine + rest.errors;
        forall i | 0 <= i < |fs| && FieldOutcome(ver, v, fs[i]).VErr?
          ensures (fs[i].key, FieldOutcome(ver, v, fs[i]).failMap) in r.errors
        {
          if i > 0 { assert fs[i] == fs[1..][i - 1]; }
        }
        forall en | en in r.errors
          ensures exists i :: 0 <= i < |fs| && FieldOutcome(ver, v, fs[i]).VErr?
                    && en == (fs[i].key, FieldOutcome(ver, v, fs[i]).failMap)
        {
          if en in rest.errors {
            var i :| 0 <= i < |fs[1..]| && FieldOutcome(ver, v, fs[1..][i]).VErr?
              && en == (fs[1..][i].key, FieldOutcome(ver, v, fs[1..][i]).failMap);
            assert fs[i + 1] == fs[1..][i];
          } else {
            assert en == (fs[0].key, head.failMap);
          }
        }
      }
    }
  }

  /** The failing fields with their maps, in declaration order: the
      reference the object map is checked against. */
  function FailingEntries(ver: Version, v: Value, fs: seq<Field>): seq<Entry>
  {
    if fs == [] then []
    else
      var o := FieldOutcome(ver, v, fs[0]);
      (if o.VErr? then [(fs[0].key, o.failMap)] else []) + FailingEntries(ver, v, fs[1..])
  }

  /** When the field loop does not escape, it collects exactly the failing
      fields, in declaration order. */
  lemma {:induction false} FieldsFilter(ver: Version, v: Value, fs: seq<Field>)
    ensures FieldResults(ver, v, fs).FieldErrors? ==> FieldResults(ver, v, fs).errors == FailingEntries(ver, v, fs)
  {
    if fs != [] {
      FieldResultsUnfold(ver, v, fs);
      FieldsFilter(ver, v, fs[1..]);
    }
  }

  /** Combining the results of two runs of the field loop. */
  function Chain(a: FieldsResult, b: FieldsResult): FieldsResult
  {
    if a.FieldsEscaped? then a
    else if b.FieldsEscaped? then b
    else FieldErrors(a.errors + b.errors)
  }

  lemma StepChain(key: string, h: Outcome, a: FieldsResult, b: FieldsResult)
    ensures Chain(FieldStep(key, h, a), b) == FieldStep(key, h, Chain(a, b))
  {
  }

  /** Fields are evaluated in declaration order and every field is
      evaluated: the errors of earlier fields come first, and only an
      escaping error stops the loop. */
  lemma {:induction false} FieldResultsAppend(ver: Version, v: Value, fs1: seq<Field>, fs2: seq<Field>)
    ensures FieldResults(ver, v, fs1 + fs2) == Chain(FieldResults(ver, v, fs1), FieldResults(ver, v, fs2))
  {
    var fs := fs1 + fs2;
    if fs1 == [] {
      assert fs == fs2;
    } else {
      assert fs[0] == fs1[0];
      assert fs[1..] == fs1[1..] + fs2;
      FieldResultsAppend(ver, v, fs1[1..], fs2);
      var h := FieldOutcome(ver, v, fs1[0]);
      FieldResultsUnfold(ver, v, fs);
      FieldResultsUnfold(ver, v, fs1);
      StepChain(fs1[0].key, h, FieldResults(ver, v, fs1[1..]), FieldResults(ver, v, fs2));
    }
  }

  /** `ObjectRule.validate` on a value of object type (null, an array or a
      plain object): it passes iff every declared field passes, returning the
      value itself; an escaping field error propagates unchanged; otherwise
      its map holds exactly the failing fields with their maps and omits the
      passing ones. */
  lemma ObjectRuleSpec(ver: Version, v: Value, fs: seq<Field>)
    requires IsObjectType(v)
    requires DistinctFieldKeys(fs)
    ensures ObjectValidate(ver, v, fs).Ok? <==>
      forall i :: 0 <= i < |fs| ==> FieldOutcome(ver, v, fs[i]).Ok?
    ensures ObjectValidate(ver, v, fs).OtherErr? <==>
      exists i :: 0 <= i < |fs| && FieldOutcome(ver, v, fs[i]).OtherErr?
    ensures ObjectValidate(ver, v, fs).VErr? ==>
      var es := ObjectValidate(ver, v, fs).failMap.entries;
      && (forall i :: 0 <= i < |fs| && FieldOutcome(ver, v, fs[i]).VErr? ==>
            (fs[i].key, FieldOutcome(ver, v, fs[i]).failMap) in es)
      && (forall i :: 0 <= i < |fs| && FieldOutcome(ver, v, fs[i]).Ok? ==> fs[i].key !in KeySet(es))
      && (forall en :: en in es ==>
            exists i :: 0 <= i < |fs| && FieldOutcome(ver, v, fs[i]).VErr?
              && en == (fs[i].key, FieldOutcome(ver, v, fs[i]).failMap))
      && es == FailingEntries(ver, v, fs)
  {
    FieldsEscapeIff(ver, v, fs);
    FieldsCollected(ver, v, fs);
    FieldsFilter(ver, v, fs);
    var o := ObjectValidate(ver, v, fs);
    match FieldResults(ver, v, fs)
    case FieldsEscaped(msg) =>
      assert o == OtherErr(msg);
    case FieldErrors(errs) =>
      if errs == [] {
        assert o == Ok(v);
        forall i | 0 <= i < |fs| ensures FieldOutcome(ver, v, fs[i]).Ok? {
          assert !FieldOutcome(ver, v, fs[i]).OtherErr?;
        }
      } else {
        assert FromEntries(errs) == errs;
        assert o.failMap.entries == errs;
        assert errs[0] in errs;
        PassingFieldsOmitted(ver, v, fs);
      }
  }

  /** With distinct field names, a field that passed has no entry. */
  lemma PassingFieldsOmitted(ver: Version, v: Value, fs: seq<Field>)
    requires DistinctFieldKeys(fs)
    requires FieldResults(ver, v, fs).FieldErrors?
    ensures forall i :: 0 <= i < |fs| && FieldOutcome(ver, v, fs[i]).Ok? ==>
      fs[i].key !in KeySet(FieldResults(ver, v, fs).errors)
  {
    var errs := FieldResults(ver, v, fs).errors;
    FieldsCollected(ver, v, fs);
    forall i, j | 0 <= i < |fs| && FieldOutcome(ver, v, fs[i]).Ok? && 0 <= j < |errs|
      ensures errs[j].0 != fs[i].key
    {
      assert errs[j] in errs;
      var k :| 0 <= k < |fs| && FieldOutcome(ver, v, fs[k]).VErr?
        && errs[j] == (fs[k].key, FieldOutcome(ver, v, fs[k]).failMap);
      assert k != i;
    }
  }

  /** A field the value has is validated as its own property's value. */
  lemma PresentFieldIsValidated(ver: Version, props: map<string, Value>, f: Field)
    requires f.key in props
    ensures FieldOutcome(ver, Obj(props), f) == Validate(ver, props[f.key], f.rule)
  {
  }

  /** A field the value does not have is validated as undefined. */
  lemma MissingFieldIsUndefined(ver: Version, props: map<string, Value>, f: Field)
    requires f.key !in props
    ensures FieldOutcome(ver, Obj(props), f) == Validate(ver, Undef, f.rule)
  {
  }

  /* ---------------- Dispatcher ---------------- */

  /** In mod.ts an ObjectRule instance and the plain mapping it wraps are
      interchangeable: both are `ObjectRule.validate` with the same fields.
      The version is fixed by the precondition. */
  lemma ShorthandMatchesObjectRule(ver: Version, v: Value, fs: seq<Field>)
    requires ver == ModTs
    ensures Validate(ver, v, ObjectRule(fs)) == Validate(ver, v, Shorthand(fs))
    ensures Validate(ver, v, ObjectRule(fs)) == ObjectValidate(ver, v, fs)
  {
  }

  /** A non-object used as a segment is a schema error, never a validation
      failure, in both versions. */
  lemma MalformedIsSchemaError(ver: Version, v: Value)
    ensures Validate(ver, v, Malformed) == OtherErr(UnexpectedSegment)
    ensures !Validate(ver, v, Malformed).VErr?
  {
  }

  /** For Rule, Ruleset and ArrayRule segments the error message is the
      rendering of the failure map. */
  lemma MessageRendersMap(ver: Version, v: Value, seg: Segment)
    requires seg.Rule? || seg.Ruleset? || seg.ArrayRule?
    ensures Validate(ver, v, seg).VErr? ==> Validate(ver, v, seg).message == Render(Validate(ver, v, seg).failMap)
  {
  }
}
