# A verified model of the hoyams validation engine

hoyams is a small recursive data-validation library. `validate(value, segment)`
walks a schema of rule segments:

- `Rule` holds one predicate.
- `Ruleset` holds several predicates, runs them all and collects every failure.
- `ArrayRule` applies one segment to every element.
- `ObjectRule`, or a plain `{ key: segment }` mapping, applies one segment per declared field.

Validation either returns the input unchanged or throws a `ValidationError`
whose `map` has the shape of the input:

- a leaf failure is a string;
- an array failure is a list as long as the input, with `null` where an element passed;
- an object failure maps only the fields that failed.

Any other error, such as the "unexpected rule segment" of a malformed schema,
passes through every level uncaught.

The repository holds two versions of the engine, `mod.ts` and `validate.ts`.
The model is one engine with a `Version` parameter, `ModTs` or `ValidateTs`,
so the two can be compared member by member. They differ in two places:

- In `validate.ts` the "is not an array" and "is not an object" checks throw a
  plain `Error` instead of a `ValidationError`.
- The `validate.ts` dispatcher has no `ObjectRule` branch. An `ObjectRule`
  instance therefore falls through to the plain-mapping branch, and its one
  own property, `ruleSegment`, becomes the only declared field.

Files:

- `values.dfy` — JavaScript values as the engine sees them, and property reads.
- `schema.dfy` — rule segments, with validators as function values.
- `failmaps.dfy` — failure maps, `Object.fromEntries`, and the `toString`
  rendering that builds messages.
- `engine.dfy` — the four `validate` methods and the dispatcher. The `map` and
  `reduce` loops are written as step functions over the elements and fields.
- `properties.dfy` — what each rule kind promises. Each loop is checked
  against an element-by-element or field-by-field description.
- `versions.dfy` — where `validate.ts` agrees with `mod.ts` and where it does not.
- `scenarios.dfy` — the repository's test cases, evaluated in the model, and
  the inputs on which the two versions part ways.

Outcomes are `Ok(value)`, `VErr(message, failMap)` for a `ValidationError`,
and `OtherErr(message)` for any other error that escapes.

The `ObjectRule` kind check is `typeof v !== "object"` (mod.ts:96), so `null`
and arrays pass it:

- With `null` and at least one declared field, the lookup `null[key]` throws
  a TypeError that escapes uncaught.
- With an array, the declared fields are read from the array; the model
  approximates such reads as described under "Left out".

## Model

| member | source | states |
|---|---|---|
| Values.Read | mod.ts:104 | A property read fails (TypeError) exactly on null and undefined; on an object it yields the own property's value when the key is present and undefined otherwise |
| Values.IsObjectType | mod.ts:96 | No contract: the `typeof v === "object"` test, true of null and arrays as well as objects; characterised by the kind-check clauses of Engine.ObjectValidate |
| Engine.KindError | mod.ts:63-65 | A failed kind check carries the check's message; it is a ValidationError whose map is that message exactly in mod.ts, and a plain Error in validate.ts (validate.ts:59 and :90) |
| Engine.Failures | mod.ts:44-46 | No contract: the `map`/`filter` of the Ruleset's validators; characterised by Engine.FailuresEmpty, Properties.FailuresExact and Properties.FailuresAppend |
| Engine.RuleValidate | mod.ts:26-33 | A Rule passes iff its validator returns true, and then returns the input; otherwise message and map are both the returned token; nothing else escapes |
| Engine.FailuresEmpty | mod.ts:44-47 | No failure token is collected iff every validator of the Ruleset accepts |
| Engine.RulesetValidate | mod.ts:43-52 | A Ruleset passes iff every validator accepts; on failure the map is the list of all failing tokens and the message is its rendering; nothing else escapes |
| Engine.Validate | mod.ts:125-141 | The dispatcher returns the input on success, a failure map is never null, and only schema errors, the null-read TypeError and (in validate.ts only) the kind checks escape |
| Engine.ArrayValidate | mod.ts:62-85 | A non-array is rejected by the kind check; in mod.ts the "is not an array" ValidationError occurs iff the input is not an array; an array failure map has the input's length and the message renders it |
| Engine.ElementStep | mod.ts:67-79 | One element of the map loop adds exactly one slot, and the loop so far is clean iff this element passed and the rest is clean |
| Engine.ElementResults | mod.ts:66-79 | The element loop yields one slot per element, and only escapable errors abort it |
| Engine.ObjectValidate | mod.ts:95-122 | A value that is not of object type is rejected by the kind check (iff, in mod.ts); null with declared fields escapes as a TypeError; a failure map is an object whose keys are declared field names |
| Engine.FieldOutcome | mod.ts:104 | A field read on null escapes as a TypeError, and only escapable errors escape |
| Engine.FieldStep | mod.ts:102-114 | One step of the reduce records at most one pair, and the result is empty iff this field passed and nothing after it failed |
| Engine.FieldStepKeys | mod.ts:108 | A step records at most its own key and keeps the recorded keys distinct when that key is new |
| Engine.FieldResults | mod.ts:101-114 | The reduce records at most one pair per declared field, only under declared keys, distinct when the declared keys are; on null it escapes |
| FailMaps.Put | mod.ts:117 | Defining a property keeps the existing keys, adds the new one, keeps keys distinct, and appends when the key is new |
| FailMaps.PutAll | mod.ts:117 | Folding entries into an object yields exactly their keys, each once, and the entries themselves when their keys are distinct |
| FailMaps.FromEntries | mod.ts:117 | `Object.fromEntries` yields each key once and, for distinct keys, the pairs in their original order |
| FailMaps.PutReplaces | mod.ts:117 | Redefining a key of an object with distinct keys replaces that entry's value in place and leaves every other entry unchanged |
| FailMaps.Render | mod.ts:116 | No contract: `toString` of a failure map (a string is itself, null is empty, an array is joined, an object is "[object Object]"); characterised by FailMaps.JoinConcat and Properties.MessageRendersMap |
| FailMaps.Join | mod.ts:81 | No contract: the comma join of an array's rendered elements; characterised by FailMaps.JoinConcat |
| FailMaps.JoinConcat | mod.ts:81 | Rendering two non-empty arrays end to end is their renderings with one comma between |
| Properties.FailuresAppend | mod.ts:44-46 | Every validator runs: the tokens of a concatenated list are those of each part, in order |
| Properties.FailuresExact | mod.ts:44-46 | Each failing validator's token is collected, and each collected token came from a failing validator |
| Properties.RulesetSpec | mod.ts:43-52 | A Ruleset fails iff some validator fails; its map holds every failing token and only those |
| Properties.ElementsEscapeIff | mod.ts:71-77 | The element loop aborts iff some element's validation escapes |
| Properties.ElementsFirstEscape | mod.ts:71-77 | An aborted element loop carries the error of the first escaping element |
| Properties.ElementsSlots | mod.ts:69-74 | Slot i is null when element i passed and that element's map when it failed |
| Properties.ElementsFound | mod.ts:66-80 | `errorFound` is set iff some element failed |
| Properties.ArrayRuleSpec | mod.ts:62-85 | On an array: passes iff every element passes; escapes iff an element escapes, with the first such error; otherwise the map has one slot per element, null or the element's map |
| Properties.FieldsEscapeIff | mod.ts:106-112 | The field loop aborts iff some declared field's validation escapes |
| Properties.FieldsFirstEscape | mod.ts:106-112 | An aborted field loop carries the error of the first escaping field in declaration order |
| Properties.FieldsCollected | mod.ts:101-114 | Every failing field's pair is collected, and every collected pair belongs to a failing field |
| Properties.FieldsFilter | mod.ts:101-114 | The collected pairs are exactly the failing fields with their maps, in declaration order |
| Properties.FieldResultsAppend | mod.ts:101-114 | Fields are evaluated in declaration order: the loop over two field lists is the first's pairs followed by the second's, and an escape in the first stops it |
| Properties.ObjectRuleSpec | mod.ts:95-122 | On an object-typed value: passes iff every field passes; escapes iff a field escapes; otherwise the map holds every failing field's pair, omits every passing field, and lists the failing fields in declaration order |
| Properties.PassingFieldsOmitted | mod.ts:103-105 | A field that passed has no entry in the collected pairs |
| Properties.PresentFieldIsValidated | mod.ts:104 | A declared field the object has is validated against its own property's value |
| Properties.MissingFieldIsUndefined | mod.ts:104 | A field the input lacks is validated as undefined |
| Properties.ShorthandMatchesObjectRule | mod.ts:129-137 | In mod.ts an ObjectRule instance and the plain mapping of its fields give the same outcome, that of `ObjectRule.validate` |
| Properties.MalformedIsSchemaError | mod.ts:138-140 | A segment that is not an object is a schema error and never a validation failure, in both versions |
| Properties.MessageRendersMap | mod.ts:26-85 | For Rule, Ruleset and ArrayRule the message is the rendering of the map |
| Versions.Refines | validate.ts:113-128 | Without ObjectRule instances, wherever validate.ts does not abort, mod.ts gives the same outcome; mod.ts aborts only where validate.ts does; both accept exactly the same values |
| Versions.RefinesElements | validate.ts:58-79 | The same for the element loop |
| Versions.RefinesFields | validate.ts:89-110 | The same for the field loop |
| Versions.WrongKindOutcome | validate.ts:59 | A kind check gives a ValidationError whose message and map are the text in mod.ts, and a plain Error with that message in validate.ts |
| Versions.ValidateTsWrongKindElementAborts | validate.ts:59-73 | In validate.ts an element of the wrong kind aborts the whole ArrayRule with the kind message, unless an earlier element escaped |
| Versions.ModTsWrongKindElementRecorded | mod.ts:63-79 | In mod.ts the same element is recorded in its slot as the kind message |
| Versions.ValidateTsWrongKindFieldAborts | validate.ts:90-104 | In validate.ts a field of the wrong kind aborts the whole ObjectRule with the kind message, unless an earlier field escaped |
| Versions.ModTsWrongKindFieldRecorded | mod.ts:96-114 | In mod.ts the same field is recorded as the pair of its key and the kind message |
| Versions.ValidateTsObjectRuleRewrapped | validate.ts:117-124 | In validate.ts an ObjectRule instance is validated as the mapping `{ ruleSegment: fields }` |
| Scenarios.RuleCases | validate.test.ts:5-23 | "test Rule valid" and "test Rule invalid" |
| Scenarios.RulesetValid | validate.test.ts:26-34 | "test Ruleset valid" |
| Scenarios.RulesetInvalid | validate.test.ts:36-50 | "test Ruleset invalid": both tokens, in order |
| Scenarios.ArrayRuleValid | validate.test.ts:53-60 | "test ArrayRule valid" |
| Scenarios.ArrayRuleNotAnArray | validate.test.ts:62-75 | "test ArrayRule is not array": the message, in both versions |
| Scenarios.ArrayRuleInvalid | validate.test.ts:77-90 | "test ArrayRule invalid": map `[null, "no string"]` |
| Scenarios.ObjectRuleValid | validate.test.ts:93-100 | "test ObjectRule valid" |
| Scenarios.ObjectRuleNotAnObject | validate.test.ts:102-115 | "test ObjectRule is not object": the message, in both versions |
| Scenarios.ObjectRuleInvalid | validate.test.ts:117-130 | "test ObjectRule invalid": map `{ name: "no string" }` |
| Scenarios.SecondElementFails | mod.ts:66-84 | Two elements of which only the second fails give the map `[null, m]` |
| Scenarios.OneFieldFails | mod.ts:101-118 | One failing field gives the map `{ key: token }` and the message `key,token` |
| Scenarios.TwoFieldsFail | mod.ts:101-118 | Two failing fields give both pairs, in order |
| Scenarios.ThreeFieldsFail | mod.ts:101-118 | Three failing fields give all three pairs, in order |
| Scenarios.MiddleFieldFails | mod.ts:101-118 | Of three fields only the failing middle one is recorded |
| Scenarios.SecondFieldEscapes | mod.ts:106-112 | Of any two or more declared fields, when the first did not escape, an escaping second field aborts the object with its error |
| Scenarios.TagsValid | validate.test.ts:149-159 | The valid `tags` array passes |
| Scenarios.UserValid | validate.test.ts:149-159 | The valid `user` object passes |
| Scenarios.AllValid | validate.test.ts:185-190 | "test All valid": the nested valid object comes back unchanged, in both versions |
| Scenarios.TagsInvalid | validate.test.ts:205-211 | The invalid `tags` array gives `[null, ["no string", "too short"]]` |
| Scenarios.UserInvalid | validate.test.ts:203-213 | The invalid `user` object gives all three field entries |
| Scenarios.AllInvalid | validate.test.ts:192-216 | "test All invalid": nested maps compose without flattening, in both versions |
| Scenarios.ModTsObjectMissing | validate.test.ts:218-232 | The first "test All object missing" holds for mod.ts: `{ id: "not a number", user: "is not an object" }` |
| Scenarios.ValidateTsObjectMissing | validate.ts:90 | The same input under validate.ts aborts with a plain "is not an object" and no map |
| Scenarios.ModTsUserWithoutTags | validate.test.ts:245-247 | mod.ts on the user without `tags` gives `{ tags: "is not an array" }` |
| Scenarios.ModTsArrayMissing | validate.test.ts:234-250 | The second "test All object missing" holds for mod.ts: `{ id: "not a number", user: { tags: "is not an array" } }` |
| Scenarios.ValidateTsArrayMissing | validate.ts:59 | The same input under validate.ts aborts with a plain "is not an array", losing the `id` failure |
| Scenarios.ModTsObjectRuleInstance | mod.ts:133-135 | In mod.ts, `validate` with an ObjectRule instance checks the input itself |
| Scenarios.ValidateTsObjectRuleInstance | validate.ts:117-124 | In validate.ts, any object without a `ruleSegment` property is rejected with a plain "is not an object", even one that conforms |

## Left out

- Numbers are integers. The engine never inspects a number, so floating point is not modelled.
- Property reads ignore the prototype chain. A key such as `toString` reads as undefined here.
- Property reads on arrays and primitives always give undefined. A string key such as `length` on an array is not modelled.
- Declared fields follow the order of the `Field` list. JavaScript's rule of putting integer-like keys first in `Object.entries` and `Object.fromEntries` is not modelled.
- The null-read TypeError message omits its `(reading 'key')` suffix.
- A schema segment that is itself `null`, an array, or a class instance other than the four rule classes is not modelled. Such a segment passes the `typeof` test and is enumerated with `Object.entries`. The model has only `Malformed` for segments that fail the `typeof` test.
- Validators are total functions that return true or a string. A validator that throws, or that returns another value, is not modelled.
- The test file's e-mail check is a regular expression. It is left to the caller as the `email` parameter of the scenarios, and the lemmas state only the outcomes they need from it.
- TypeScript types, generics, `as T` casts and `ErrorOptions` have no runtime effect and are left out. So are the Deno test runner and `assertEquals`.
- A successful validation returns the very same object. The model states this as equality with the input.
- Scenarios.ArrayRuleNotAnArray: states only the message, because that is all the test checks. The map exists only in mod.ts.
- Scenarios.ObjectRuleNotAnObject: states only the message, for the same reason.
- Properties.ObjectRuleSpec: requires distinct field names. A JavaScript object cannot declare a key twice, so this is always the case.

## Findings

| source | as written | input that shows it | evidently intended | confidence | as-written member | corrected member |
|---|---|---|---|---|---|---|
| validate.ts:90 | The ObjectRule kind check throws a plain `Error`, which escapes every enclosing rule | `validate({ id: "lol" }, testRule)` (validate.test.ts:218-232) ends with "is not an object" and no `map`, but the test expects `{ id: "not a number", user: "is not an object" }` | A `ValidationError` whose map is the message, as in mod.ts:96-100 | not executed; high, because the test that imports this file asserts the map | Scenarios.ValidateTsObjectMissing, Versions.ValidateTsWrongKindFieldAborts | Scenarios.ModTsObjectMissing, Versions.ModTsWrongKindFieldRecorded |
| validate.ts:59 | The ArrayRule kind check throws a plain `Error`, which escapes every enclosing rule and drops the failures already found | `validate({ user: { name: "lol", email: "lol@foo.bar" } }, testRule)` (validate.test.ts:234-250) ends with "is not an array" and no `map`, but the test expects `{ id: "not a number", user: { tags: "is not an array" } }` | A `ValidationError` whose map is the message, as in mod.ts:63-65 | not executed; high, because the test that imports this file asserts the map | Scenarios.ValidateTsArrayMissing, Versions.ValidateTsWrongKindElementAborts | Scenarios.ModTsArrayMissing, Versions.ModTsWrongKindElementRecorded |
| validate.ts:117-124 | The dispatcher has no ObjectRule branch, so an instance is enumerated as `{ ruleSegment: fields }` | `validate({ name: "lol" }, new ObjectRule({ name: new Rule(isString) }))` reads the input's `ruleSegment` (undefined) and fails with "is not an object" although the input conforms | Apply the instance to the input, as mod.ts:133-135 does | not executed; medium, because the `RuleSegment` type of this file does not list ObjectRule | Scenarios.ValidateTsObjectRuleInstance, Versions.ValidateTsObjectRuleRewrapped | Scenarios.ModTsObjectRuleInstance, Properties.ShorthandMatchesObjectRule |

In every row the corrected behaviour is the `ModTs` version of the engine,
which the Properties module describes in full.
