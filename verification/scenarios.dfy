/** The scenarios of the repository's test file, evaluated in the model,
    together with the inputs on which the two versions part ways. */
module Scenarios {
  import opened Values
  import opened Schema
  import opened FailMaps
  import opened Engine
  import opened Properties

  /** `(v) => typeof v === "string" || "no string"` */
  function IsString(v: Value): VRes
  {
    if v.Str? then Valid else Fail("no string")
  }

  /** `(v) => typeof v === "number" || "not a number"` */
  function IsNumber(v: Value): VRes
  {
    if v.Num? then Valid else Fail("not a number")
  }

  /** `(v) => typeof v === "string" && v.length > 2 || "too short"` */
  function LongerThanTwo(v: Value): VRes
  {
    if v.Str? && |v.s| > 2 then Valid else Fail("too short")
  }

  const NameRule := [Field("name", Rule(IsString))]
  const TagRule := Ruleset([IsString, LongerThanTwo])

  /** The fields of the nested `user` mapping. The e-mail check is a regular
      expression match and is left to the caller. */
  function UserFields(email: Validator): seq<Field>
  {
    [Field("name", Rule(IsString)), Field("tags", ArrayRule(TagRule)), Field("email", Rule(email))]
  }

  /** The nested schema of the "test All" cases. */
  function TestRule(email: Validator): Segment
  {
    Shorthand([Field("id", Rule(IsNumber)), Field("user", Shorthand(UserFields(email)))])
  }

  const ValidTags := Arr([Str("lol"), Str("hai")])
  const ValidUser := Obj(map["name" := Str("lol"), "tags" := ValidTags, "email" := Str("lol@foo.bar")])
  const TestObjectValid := Obj(map["id" := Num(123), "user" := ValidUser])
  const InvalidTags := Arr([Str("lol"), Num(123)])
  const InvalidUser := Obj(map["name" := Num(123), "tags" := InvalidTags, "email" := Str("lol@foobar")])
  const TestObjectInvalid := Obj(map["id" := Str("lol"), "user" := InvalidUser])
  const TestObjectObjectMissing := Obj(map["id" := Str("lol")])
  const UserWithoutTags := Obj(map["name" := Str("lol"), "email" := Str("lol@foo.bar")])
  const TestObjectArrayMissing := Obj(map["user" := UserWithoutTags])

  // Unrolling steps used by the concrete cases below.

  /** Reading a present property and validating it. */
  lemma FieldRead(ver: Version, v: Value, f: Field, x: Value)
    requires Read(v, f.key) == Some(x)
    ensures FieldOutcome(ver, v, f) == Validate(ver, x, f.rule)
  {
  }

  /** The field loop over one declared field, unrolled. */
  lemma OneFieldResults(ver: Version, v: Value, fs: seq<Field>)
    requires |fs| == 1
    ensures FieldResults(ver, v, fs) == FieldStep(fs[0].key, FieldOutcome(ver, v, fs[0]), FieldErrors([]))
  {
    assert fs[1..] == [];
  }

  /** The field loop over two declared fields, unrolled. */
  lemma TwoFieldResults(ver: Version, v: Value, fs: seq<Field>)
    requires |fs| == 2
    ensures FieldResults(ver, v, fs)
         == FieldStep(fs[0].key, FieldOutcome(ver, v, fs[0]),
              FieldStep(fs[1].key, FieldOutcome(ver, v, fs[1]), FieldErrors([])))
  {
    OneFieldResults(ver, v, fs[1..]);
    assert fs[1..][0] == fs[1];
    assert FieldResults(ver, v, fs) == FieldStep(fs[0].key, FieldOutcome(ver, v, fs[0]), FieldResults(ver, v, fs[1..]));
  }

  /** The field loop over three declared fields, unrolled. */
  lemma ThreeFieldResults(ver: Version, v: Value, fs: seq<Field>)
    requires |fs| == 3
    ensures FieldResults(ver, v, fs)
         == FieldStep(fs[0].key, FieldOutcome(ver, v, fs[0]),
              FieldStep(fs[1].key, FieldOutcome(ver, v, fs[1]),
                FieldStep(fs[2].key, FieldOutcome(ver, v, fs[2]), FieldErrors([]))))
  {
    TwoFieldResults(ver, v, fs[1..]);
    assert fs[1..][0] == fs[1] && fs[1..][1] == fs[2];
    assert FieldResults(ver, v, fs) == FieldStep(fs[0].key, FieldOutcome(ver, v, fs[0]), FieldResults(ver, v, fs[1..]));
  }

  /** The element loop over two elements, unrolled. */
  lemma TwoElements(ver: Version, a: Value, b: Value, e: Segment)
    ensures ElementResults(ver, [a, b], e)
         == ElementStep(Validate(ver, a, e), ElementStep(Validate(ver, b, e), Elements([], false)))
  {
    assert [a, b][1..] == [b];
    assert [b][1..] == [];
    assert ElementResults(ver, [b], e) == ElementStep(Validate(ver, b, e), ElementResults(ver, [], e));
  }

  /** A plain mapping used as a segment is validated as an ObjectRule with
      those fields. */
  lemma ShorthandDispatch(ver: Version, v: Value, fs: seq<Field>)
    ensures Validate(ver, v, Shorthand(fs)) == ObjectValidate(ver, v, fs)
  {
  }

  /** Two elements of which only the second fails: the first slot is null. */
  lemma SecondElementFails(ver: Version, a: Value, b: Value, e: Segment)
    requires Validate(ver, a, e).Ok? && Validate(ver, b, e).VErr?
    ensures var items := [Nil, Validate(ver, b, e).failMap];
      ArrayValidate(ver, Arr([a, b]), e) == VErr(Render(List(items)), List(items))
  {
    TwoElements(ver, a, b, e);
    var m := Validate(ver, b, e).failMap;
    assert ElementStep(Validate(ver, b, e), Elements([], false)) == Elements([m], true);
    assert ElementResults(ver, [a, b], e) == Elements([Nil, m], true);
  }

  /** One declared field, aborted. */
  lemma OneFieldEscapes(ver: Version, v: Value, fs: seq<Field>)
    requires IsObjectType(v) && |fs| == 1 && FieldOutcome(ver, v, fs[0]).OtherErr?
    ensures ObjectValidate(ver, v, fs) == FieldOutcome(ver, v, fs[0])
  {
    OneFieldResults(ver, v, fs);
  }

  /** Two declared fields that both pass. */
  lemma TwoFieldsPass(ver: Version, v: Value, fs: seq<Field>)
    requires IsObjectType(v) && |fs| == 2
    requires FieldOutcome(ver, v, fs[0]).Ok? && FieldOutcome(ver, v, fs[1]).Ok?
    ensures ObjectValidate(ver, v, fs) == Ok(v)
  {
    TwoFieldResults(ver, v, fs);
  }

  /** Three declared fields that all pass. */
  lemma ThreeFieldsPass(ver: Version, v: Value, fs: seq<Field>)
    requires IsObjectType(v) && |fs| == 3
    requires FieldOutcome(ver, v, fs[0]).Ok? && FieldOutcome(ver, v, fs[1]).Ok? && FieldOutcome(ver, v, fs[2]).Ok?
    ensures ObjectValidate(ver, v, fs) == Ok(v)
  {
    ThreeFieldResults(ver, v, fs);
  }

  /** Two declared fields that both fail: both are recorded, in order. */
  lemma TwoFieldsFail(ver: Version, v: Value, fs: seq<Field>)
    requires IsObjectType(v) && |fs| == 2 && fs[0].key != fs[1].key
    requires FieldOutcome(ver, v, fs[0]).VErr? && FieldOutcome(ver, v, fs[1]).VErr?
    ensures ObjectValidate(ver, v, fs).VErr?
    ensures ObjectValidate(ver, v, fs).failMap
         == Fields([(fs[0].key, FieldOutcome(ver, v, fs[0]).failMap), (fs[1].key, FieldOutcome(ver, v, fs[1]).failMap)])
  {
    TwoFieldResults(ver, v, fs);
    var o0, o1 := FieldOutcome(ver, v, fs[0]), FieldOutcome(ver, v, fs[1]);
    var errs := [(fs[0].key, o0.failMap), (fs[1].key, o1.failMap)];
    assert FieldStep(fs[1].key, o1, FieldErrors([])) == FieldErrors([(fs[1].key, o1.failMap)]);
    assert FieldStep(fs[0].key, o0, FieldErrors([(fs[1].key, o1.failMap)])) == FieldErrors(errs);
    assert DistinctKeys(errs);
  }

  /** Three declared fields that all fail: all are recorded, in order. */
  lemma ThreeFieldsFail(ver: Version, v: Value, fs: seq<Field>)
    requires IsObjectType(v) && |fs| == 3
    requires fs[0].key != fs[1].key && fs[0].key != fs[2].key && fs[1].key != fs[2].key
    requires FieldOutcome(ver, v, fs[0]).VErr? && FieldOutcome(ver, v, fs[1]).VErr? && FieldOutcome(ver, v, fs[2]).VErr?
    ensures ObjectValidate(ver, v, fs).VErr?
    ensures ObjectValidate(ver, v, fs).failMap
         == Fields([(fs[0].key, FieldOutcome(ver, v, fs[0]).failMap),
                    (fs[1].key, FieldOutcome(ver, v, fs[1]).failMap),
                    (fs[2].key, FieldOutcome(ver, v, fs[2]).failMap)])
  {
    ThreeFieldResults(ver, v, fs);
    var o0, o1, o2 := FieldOutcome(ver, v, fs[0]), FieldOutcome(ver, v, fs[1]), FieldOutcome(ver, v, fs[2]);
    var last := [(fs[2].key, o2.failMap)];
    var errs := [(fs[0].key, o0.failMap), (fs[1].key, o1.failMap), (fs[2].key, o2.failMap)];
    assert FieldStep(fs[2].key, o2, FieldErrors([])) == FieldErrors(last);
    assert FieldStep(fs[1].key, o1, FieldErrors(last)) == FieldErrors([(fs[1].key, o1.failMap)] + last);
    assert FieldStep(fs[0].key, o0, FieldErrors([(fs[1].key, o1.failMap)] + last)) == FieldErrors(errs);
    assert DistinctKeys(errs);
  }

  /** Three declared fields of which only the middle one fails. */
  lemma MiddleFieldFails(ver: Version, v: Value, fs: seq<Field>)
    requires IsObjectType(v) && |fs| == 3
    requires FieldOutcome(ver, v, fs[0]).Ok? && FieldOutcome(ver, v, fs[1]).VErr? && FieldOutcome(ver, v, fs[2]).Ok?
    ensures ObjectValidate(ver, v, fs).VErr?
    ensures ObjectValidate(ver, v, fs).failMap == Fields([(fs[1].key, FieldOutcome(ver, v, fs[1]).failMap)])
  {
    ThreeFieldResults(ver, v, fs);
    var o1 := FieldOutcome(ver, v, fs[1]);
    var errs := [(fs[1].key, o1.failMap)];
    assert FieldStep(fs[1].key, o1, FieldErrors([])) == FieldErrors(errs);
    assert DistinctKeys(errs);
  }

  /** When the first field did not escape, an escaping second field aborts
      the whole validation with its own error. */
  lemma SecondFieldEscapes(ver: Version, v: Value, fs: seq<Field>)
    requires IsObjectType(v) && 2 <= |fs|
    requires !FieldOutcome(ver, v, fs[0]).OtherErr? && FieldOutcome(ver, v, fs[1]).OtherErr?
    ensures ObjectValidate(ver, v, fs) == FieldOutcome(ver, v, fs[1])
  {
    FieldsEscapeIff(ver, v, fs);
    FieldsFirstEscape(ver, v, fs);
    var r := FieldResults(ver, v, fs);
    var k :| 0 <= k < |fs| && FieldOutcome(ver, v, fs[k]) == OtherErr(r.message)
      && forall j :: 0 <= j < k ==> !FieldOutcome(ver, v, fs[j]).OtherErr?;
    assert k == 1;
  }

  /** One declared field that passes. */
  lemma OneFieldPasses(ver: Version, v: Value, fs: seq<Field>)
    requires IsObjectType(v) && |fs| == 1 && FieldOutcome(ver, v, fs[0]).Ok?
    ensures ObjectValidate(ver, v, fs) == Ok(v)
  {
    OneFieldResults(ver, v, fs);
  }

  /** One declared field that fails with a token: the map holds the pair,
      the message renders it. */
  lemma OneFieldFails(ver: Version, v: Value, fs: seq<Field>, token: string)
    requires IsObjectType(v) && |fs| == 1 && FieldOutcome(ver, v, fs[0]) == VErr(token, Text(token))
    ensures ObjectValidate(ver, v, fs) == VErr(fs[0].key + "," + token, Fields([(fs[0].key, Text(token))]))
  {
    OneFieldResults(ver, v, fs);
    var errs := [(fs[0].key, Text(token))];
    assert FieldResults(ver, v, fs) == FieldErrors(errs);
    OnePairMessage(fs[0].key, token);
  }

  // The single-rule cases.

  /** "test Rule valid" and "test Rule invalid". */
  lemma RuleCases(ver: Version)
    ensures Validate(ver, Str("lol"), Rule(IsString)) == Ok(Str("lol"))
    ensures Validate(ver, Num(123), Rule(IsString)) == VErr("no string", Text("no string"))
  {
  }

  /** The tokens of the two-validator Ruleset: both validators run. */
  lemma RulesetTokens(v: Value)
    ensures Failures([IsString, LongerThanTwo], v)
         == (if v.Str? then [] else ["no string"]) + (if v.Str? && |v.s| > 2 then [] else ["too short"])
  {
    var ps := [IsString, LongerThanTwo];
    assert ps[1..] == [LongerThanTwo];
    assert ps[1..][1..] == [];
    assert Failures(ps[1..], v) == (if v.Str? && |v.s| > 2 then [] else ["too short"]) + Failures([], v);
  }

  /** "test Ruleset valid". */
  lemma RulesetValid(ver: Version)
    ensures Validate(ver, Str("lol"), TagRule) == Ok(Str("lol"))
  {
    RulesetTokens(Str("lol"));
  }

  /** "test Ruleset invalid": both validators fail and both tokens are
      reported, in order. */
  lemma RulesetInvalid(ver: Version)
    ensures Validate(ver, Num(123), TagRule)
         == VErr("no string,too short", List([Text("no string"), Text("too short")]))
  {
    var items := [Text("no string"), Text("too short")];
    assert List(Texts(Failures([IsString, LongerThanTwo], Num(123)))) == List(items) by {
      RulesetTokens(Num(123));
      assert Texts(["no string"] + ["too short"]) == items;
    }
    assert Render(List(items)) == "no string,too short" by {
      assert items[1..] == [Text("too short")];
      assert Render(List(items)) == "no string" + "," + "too short";
    }
  }

  /** "test ArrayRule valid". */
  lemma ArrayRuleValid(ver: Version)
    ensures ArrayValidate(ver, Arr([Str("hai"), Str("lol")]), Rule(IsString)) == Ok(Arr([Str("hai"), Str("lol")]))
  {
    var e := Rule(IsString);
    assert Validate(ver, Str("hai"), e) == Ok(Str("hai"));
    assert Validate(ver, Str("lol"), e) == Ok(Str("lol"));
    TwoElements(ver, Str("hai"), Str("lol"), e);
  }

  /** "test ArrayRule invalid": the passing element leaves a null slot,
      which renders empty. */
  lemma ArrayRuleInvalid(ver: Version)
    ensures ArrayValidate(ver, Arr([Str("hai"), Num(123)]), Rule(IsString))
         == VErr(",no string", List([Nil, Text("no string")]))
  {
    var e := Rule(IsString);
    assert Validate(ver, Str("hai"), e) == Ok(Str("hai"));
    assert Validate(ver, Num(123), e) == VErr("no string", Text("no string"));
    SecondElementFails(ver, Str("hai"), Num(123), e);
    NullThenToken("no string");
  }

  /** The message of an element array whose first slot is null. */
  lemma NullThenToken(token: string)
    ensures Render(List([Nil, Text(token)])) == "," + token
  {
    var items := [Nil, Text(token)];
    assert items[1..] == [Text(token)];
    assert Join(items) == "" + "," + Join(items[1..]);
  }

  /** "test ArrayRule is not array": the test checks only the message, which
      both versions share; only mod.ts attaches a map. */
  lemma ArrayRuleNotAnArray(ver: Version)
    ensures ArrayValidate(ver, Str("hai"), Rule(IsString)).message == "is not an array"
    ensures ArrayValidate(ModTs, Str("hai"), Rule(IsString)).VErr?
    ensures ArrayValidate(ValidateTs, Str("hai"), Rule(IsString)).OtherErr?
  {
  }

  /** "test ObjectRule valid", calling `ObjectRule.validate` directly. */
  lemma ObjectRuleValid(ver: Version)
    ensures ObjectValidate(ver, Obj(map["name" := Str("lol")]), NameRule) == Ok(Obj(map["name" := Str("lol")]))
  {
    FieldRead(ver, Obj(map["name" := Str("lol")]), NameRule[0], Str("lol"));
    OneFieldPasses(ver, Obj(map["name" := Str("lol")]), NameRule);
  }

  /** The message of a single failing field whose map is a token. */
  lemma OnePairMessage(key: string, token: string)
    ensures Render(List(Pairs([(key, Text(token))]))) == key + "," + token
  {
    var pair := List([Text(key), Text(token)]);
    assert Pairs([(key, Text(token))]) == [pair];
    assert [Text(key), Text(token)][1..] == [Text(token)];
    assert Join([Text(token)]) == token;
    assert Join([Text(key), Text(token)]) == key + "," + Join([Text(token)]);
    assert Render(List([pair])) == Join([pair]) == Render(pair);
  }

  /** "test ObjectRule invalid": the map holds the failing field, the
      message renders the `[key, map]` pair. */
  lemma ObjectRuleInvalid(ver: Version)
    ensures ObjectValidate(ver, Obj(map["name" := Num(123)]), NameRule)
         == VErr("name,no string", Fields([("name", Text("no string"))]))
  {
    var v := Obj(map["name" := Num(123)]);
    assert FieldOutcome(ver, v, NameRule[0]) == VErr("no string", Text("no string")) by {
      FieldRead(ver, v, NameRule[0], Num(123));
    }
    assert NameRule[0].key + "," + "no string" == "name,no string";
    OneFieldFails(ver, v, NameRule, "no string");
  }

  /** "test ObjectRule is not object": the message is shared by both
      versions. */
  lemma ObjectRuleNotAnObject(ver: Version)
    ensures ObjectValidate(ver, Str("hai"), NameRule).message == "is not an object"
    ensures ObjectValidate(ModTs, Str("hai"), NameRule).VErr?
    ensures ObjectValidate(ValidateTs, Str("hai"), NameRule).OtherErr?
  {
  }

  // "test All valid"

  lemma TagsValid(ver: Version)
    ensures Validate(ver, ValidTags, ArrayRule(TagRule)) == Ok(ValidTags)
  {
    RulesetTokens(Str("lol"));
    RulesetTokens(Str("hai"));
    TwoElements(ver, Str("lol"), Str("hai"), TagRule);
  }

  lemma UserValid(ver: Version, email: Validator)
    requires email(Str("lol@foo.bar")) == Valid
    ensures ObjectValidate(ver, ValidUser, UserFields(email)) == Ok(ValidUser)
  {
    var fs := UserFields(email);
    FieldRead(ver, ValidUser, fs[0], Str("lol"));
    FieldRead(ver, ValidUser, fs[1], ValidTags);
    FieldRead(ver, ValidUser, fs[2], Str("lol@foo.bar"));
    TagsValid(ver);
    ThreeFieldsPass(ver, ValidUser, fs);
  }

  /** "test All valid": a conforming value comes back unchanged. */
  lemma AllValid(ver: Version, email: Validator)
    requires email(Str("lol@foo.bar")) == Valid
    ensures Validate(ver, TestObjectValid, TestRule(email)) == Ok(TestObjectValid)
  {
    var fs := TestRule(email).fields;
    FieldRead(ver, TestObjectValid, fs[0], Num(123));
    FieldRead(ver, TestObjectValid, fs[1], ValidUser);
    UserValid(ver, email);
    ShorthandDispatch(ver, ValidUser, UserFields(email));
    TwoFieldsPass(ver, TestObjectValid, fs);
    ShorthandDispatch(ver, TestObjectValid, fs);
  }

  // "test All invalid"

  const TagsMap := List([Nil, List([Text("no string"), Text("too short")])])
  const UserErrs := [("name", Text("no string")), ("tags", TagsMap), ("email", Text("no valid email"))]

  /** The `tags` array of the invalid test object: only the second element
      fails, on both validators. */
  lemma TagsInvalid(ver: Version)
    ensures Validate(ver, InvalidTags, ArrayRule(TagRule)).VErr?
    ensures Validate(ver, InvalidTags, ArrayRule(TagRule)).failMap == TagsMap
  {
    RulesetTokens(Str("lol"));
    RulesetTokens(Num(123));
    TwoElements(ver, Str("lol"), Num(123), TagRule);
    assert Validate(ver, Num(123), TagRule).failMap == List([Text("no string"), Text("too short")]) by {
      assert Texts(["no string"] + ["too short"]) == [Text("no string"), Text("too short")];
    }
  }

  /** The `user` object of the invalid test object: all three fields fail. */
  lemma UserInvalid(ver: Version, email: Validator)
    requires email(Str("lol@foobar")) == Fail("no valid email")
    ensures ObjectValidate(ver, InvalidUser, UserFields(email)).VErr?
    ensures ObjectValidate(ver, InvalidUser, UserFields(email)).failMap == Fields(UserErrs)
  {
    var fs := UserFields(email);
    FieldRead(ver, InvalidUser, fs[0], Num(123));
    FieldRead(ver, InvalidUser, fs[1], InvalidTags);
    FieldRead(ver, InvalidUser, fs[2], Str("lol@foobar"));
    TagsInvalid(ver);
    ThreeFieldsFail(ver, InvalidUser, fs);
  }

  /** "test All invalid": nested failure maps compose without flattening,
      in both versions. */
  lemma AllInvalid(ver: Version, email: Validator)
    requires email(Str("lol@foobar")) == Fail("no valid email")
    ensures Validate(ver, TestObjectInvalid, TestRule(email)).VErr?
    ensures Validate(ver, TestObjectInvalid, TestRule(email)).failMap
         == Fields([("id", Text("not a number")), ("user", Fields(UserErrs))])
  {
    var fs := TestRule(email).fields;
    FieldRead(ver, TestObjectInvalid, fs[0], Str("lol"));
    FieldRead(ver, TestObjectInvalid, fs[1], InvalidUser);
    UserInvalid(ver, email);
    ShorthandDispatch(ver, InvalidUser, UserFields(email));
    assert FieldOutcome(ver, TestObjectInvalid, fs[0]) == VErr("not a number", Text("not a number"));
    TwoFieldsFail(ver, TestObjectInvalid, fs);
    ShorthandDispatch(ver, TestObjectInvalid, fs);
  }

  // "test All object missing": `user` is absent.

  /** mod.ts: the missing object is reported in the map under its key, next
      to the other failing field, as the test expects. The version is fixed
      by the precondition. */
  lemma ModTsObjectMissing(ver: Version, email: Validator)
    requires ver == ModTs
    ensures Validate(ver, TestObjectObjectMissing, TestRule(email)).VErr?
    ensures Validate(ver, TestObjectObjectMissing, TestRule(email)).failMap
         == Fields([("id", Text("not a number")), ("user", Text("is not an object"))])
  {
    var fs := TestRule(email).fields;
    FieldRead(ver, TestObjectObjectMissing, fs[0], Str("lol"));
    FieldRead(ver, TestObjectObjectMissing, fs[1], Undef);
    assert FieldOutcome(ver, TestObjectObjectMissing, fs[0]) == VErr("not a number", Text("not a number"));
    assert FieldOutcome(ver, TestObjectObjectMissing, fs[1]) == VErr(NotAnObject, Text(NotAnObject));
    TwoFieldsFail(ver, TestObjectObjectMissing, fs);
    ShorthandDispatch(ver, TestObjectObjectMissing, fs);
  }

  /** validate.ts: the kind check throws a plain Error, which escapes every
      enclosing rule, so there is no map at all. */
  lemma ValidateTsObjectMissing(email: Validator)
    ensures Validate(ValidateTs, TestObjectObjectMissing, TestRule(email)) == OtherErr("is not an object")
  {
    var fs := TestRule(email).fields;
    FieldRead(ValidateTs, TestObjectObjectMissing, fs[0], Str("lol"));
    FieldRead(ValidateTs, TestObjectObjectMissing, fs[1], Undef);
    assert FieldOutcome(ValidateTs, TestObjectObjectMissing, fs[1]) == OtherErr(NotAnObject);
    SecondFieldEscapes(ValidateTs, TestObjectObjectMissing, fs);
    ShorthandDispatch(ValidateTs, TestObjectObjectMissing, fs);
  }

  // The second "test All object missing": `id` and `user.tags` are absent.

  /** mod.ts on the `user` object without `tags`: one entry, for `tags`. */
  lemma ModTsUserWithoutTags(ver: Version, email: Validator)
    requires ver == ModTs
    requires email(Str("lol@foo.bar")) == Valid
    ensures ObjectValidate(ver, UserWithoutTags, UserFields(email)).VErr?
    ensures ObjectValidate(ver, UserWithoutTags, UserFields(email)).failMap == Fields([("tags", Text("is not an array"))])
  {
    var fs := UserFields(email);
    FieldRead(ver, UserWithoutTags, fs[0], Str("lol"));
    FieldRead(ver, UserWithoutTags, fs[1], Undef);
    FieldRead(ver, UserWithoutTags, fs[2], Str("lol@foo.bar"));
    MiddleFieldFails(ver, UserWithoutTags, fs);
  }

  /** mod.ts: the missing array is reported inside the nested map, as the
      test expects. */
  lemma ModTsArrayMissing(ver: Version, email: Validator)
    requires ver == ModTs
    requires email(Str("lol@foo.bar")) == Valid
    ensures Validate(ver, TestObjectArrayMissing, TestRule(email)).VErr?
    ensures Validate(ver, TestObjectArrayMissing, TestRule(email)).failMap
         == Fields([("id", Text("not a number")), ("user", Fields([("tags", Text("is not an array"))]))])
  {
    var fs := TestRule(email).fields;
    FieldRead(ver, TestObjectArrayMissing, fs[0], Undef);
    FieldRead(ver, TestObjectArrayMissing, fs[1], UserWithoutTags);
    ModTsUserWithoutTags(ver, email);
    ShorthandDispatch(ver, UserWithoutTags, UserFields(email));
    assert FieldOutcome(ver, TestObjectArrayMissing, fs[0]) == VErr("not a number", Text("not a number"));
    TwoFieldsFail(ver, TestObjectArrayMissing, fs);
    ShorthandDispatch(ver, TestObjectArrayMissing, fs);
  }

  /** validate.ts: the plain Error of the `tags` check escapes, and the
      failure already recorded for `id` is lost with it. */
  lemma ValidateTsArrayMissing(email: Validator)
    requires email(Str("lol@foo.bar")) == Valid
    ensures Validate(ValidateTs, TestObjectArrayMissing, TestRule(email)) == OtherErr("is not an array")
  {
    var user := UserFields(email);
    FieldRead(ValidateTs, UserWithoutTags, user[0], Str("lol"));
    FieldRead(ValidateTs, UserWithoutTags, user[1], Undef);
    SecondFieldEscapes(ValidateTs, UserWithoutTags, user);
    ShorthandDispatch(ValidateTs, UserWithoutTags, user);
    var fs := TestRule(email).fields;
    FieldRead(ValidateTs, TestObjectArrayMissing, fs[0], Undef);
    FieldRead(ValidateTs, TestObjectArrayMissing, fs[1], UserWithoutTags);
    assert FieldOutcome(ValidateTs, TestObjectArrayMissing, fs[1]) == OtherErr(NotAnArray);
    SecondFieldEscapes(ValidateTs, TestObjectArrayMissing, fs);
    ShorthandDispatch(ValidateTs, TestObjectArrayMissing, fs);
  }

  // An ObjectRule instance passed to the dispatcher.

  /** mod.ts applies the instance to the input itself. */
  lemma ModTsObjectRuleInstance(ver: Version)
    requires ver == ModTs
    ensures Validate(ver, Obj(map["name" := Str("lol")]), ObjectRule(NameRule)) == Ok(Obj(map["name" := Str("lol")]))
    ensures Validate(ver, Obj(map["name" := Num(123)]), ObjectRule(NameRule))
         == VErr("name,no string", Fields([("name", Text("no string"))]))
  {
    ObjectRuleValid(ver);
    ObjectRuleInvalid(ver);
    ShorthandMatchesObjectRule(ver, Obj(map["name" := Str("lol")]), NameRule);
    ShorthandMatchesObjectRule(ver, Obj(map["name" := Num(123)]), NameRule);
  }

  /** validate.ts reads the instance as `{ ruleSegment: ... }`; an input
      without that property is rejected with a plain Error, even one that
      conforms to the declared fields. */
  lemma ValidateTsObjectRuleInstance(v: Value)
    requires v.Obj? && RuleSegmentProp !in v.props
    ensures Validate(ValidateTs, v, ObjectRule(NameRule)) == OtherErr("is not an object")
  {
    var wrapped := [Field(RuleSegmentProp, Shorthand(NameRule))];
    FieldRead(ValidateTs, v, wrapped[0], Undef);
    OneFieldEscapes(ValidateTs, v, wrapped);
  }
}
