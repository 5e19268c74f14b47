# Swagger model validator — a Dafny model

This project models the core of a Swagger 2.0 model validator written in TypeScript. The validator
checks a JSON value against a schema taken from a Swagger specification and returns the list of
validation errors. Each error has a kind and a trace, the path of named steps from the root model.
It can also print a human-readable report.

The model covers:

- the dispatcher (`validateModel`). It composes `allOf`, dereferences `$ref`, runs the enum or type
  check first, then picks a structural checker. Errors from the custom hook come last;
- the object checker, with required and additional properties and per-key recursion;
- polymorphism through `discriminator`;
- the array, string, number, date, enum and generic type checkers;
- the `allOf` composer (`extend`, `extendAllAllOfs`);
- the error channel with its `ignoreError` hook;
- deep equality and the duplicate scan;
- trace strings and the human-readable report;
- the pure reference-path helpers of the loader.

Modules, one per source file:

| module | file |
|---|---|
| `JsonValues` | JSON values with objects as ordered key/value lists, JavaScript truthiness, `===`, property lookup, `JSON.stringify` |
| `Text` | the JavaScript string built-ins the source relies on (`indexOf`, `split`, `parseInt`, UTF-16 length) |
| `Outcomes` | `Outcome<T>`: a value, or the rejection of the whole validation |
| `Results` | error kinds, traces, `getTraceString`, `ValidationResult` |
| `Configuration` | the validator config, with its hooks as function values, and the environment |
| `PushErrors` | `pushError` |
| `TypeNames` | `getTypeName` |
| `GenericValidator`, `EnumValidator`, `StringValidator`, `NumberValidator`, `DateValidator`, `ArrayValidator` | the individual checkers |
| `Duplicates` | `deepEqual`, `hasDuplicates` |
| `Loader` | `splitPath`, `resolveInternalPath`, `loadSchema`, `loadSchemaByName`, `replaceRef`, `convertRefsToAbsolute`, `_needsDownload` |
| `AllOf` | `extend`, `extendAllAllOfs` |
| `ObjectValidator` | `validateObject`'s parts, `findDerivedObjects`, `findPolymorphicConcreteClass` |
| `ModelValidator` | the recursive engine: `validateModel`, `validateResolvedModel`, the checker dispatch, the object and array recursion |
| `SchemaNodes` | a heap object for a schema, whose methods apply the in-place rewrites (`extend`, `replaceRef`, format defaulting) |

The source works on JavaScript objects that it mutates and on promises. The model handles these as
follows:

- Schemas and values are immutable `Json` values.
- Each in-place rewrite of a schema is a function that returns the new schema.
- The `SchemaNode` class shows the in-place form: each of its methods reassigns its `value` field and
  is proved equal to that function.
- The engine is a group of mutually recursive functions. They carry a `fuel` argument and return
  `Failure(OutOfFuel)` when it runs out.
- A promise rejection is a `Failure` of the `Outcome` type. This covers:
  - a thrown `TypeError`;
  - "Schema is corrupted";
  - "Type … not yet implemented";
  - the polymorphism errors;
  - a missing path or definition.
- Several source functions build a list with a loop:
  - the required loop and the key loop of `validateObject`;
  - the element loop of `validateArray`;
  - `hasDuplicates`, `resolveInternalPath`, `splitAtEither`, `humanReadable`.

  Each of these is a `method` with a loop, proved equal to the function that specifies it.

The source tags array item-count errors with an error-type name that `src/result.ts` does not
declare (`src/validators/ArrayValidator.ts:25,34`). The model gives them the constraint-violation
kind instead; "## Left out" says what the source does with them.

`uniqueItems` follows the code rather than the documentation: it only logs a warning and adds no
error.

Objects are ordered field lists in creation order. Assigning a new key appends it, and assigning an
existing key replaces its value in place (`JsonValues.Set`). The `for…in` loops and
`JSON.stringify` follow the engine's property order (`JsonValues.OwnEntries`): keys that are array
indices come first, in ascending numeric order, then the other keys in creation order.

## Model

| member | source | states |
|---|---|---|
| PushErrors.PushError | src/helpers/pushError.ts:7-14 | An error the ignore hook accepts leaves the list unchanged; otherwise it is appended at the end. Earlier entries are kept and the list grows by at most one. |
| PushErrors.Pushed | src/helpers/pushError.ts:7-14 | A guarded push yields `[e]` exactly when the guard holds and the ignore hook does not drop `e`, and `[]` otherwise. |
| PushErrors.ErrorList.Push | src/helpers/pushError.ts:7-14 | Appending in place makes the error list equal to `PushError` of the old list. |
| PushErrors.ErrorList.PushIf | src/helpers/pushError.ts:7-14 | A guarded in-place push extends the old list by `Pushed`. |
| TypeNames.GetTypeName | src/helpers/getTypeName.ts:1-11 | The name is one of the seven runtime kinds: `null` exactly for null, `array` exactly for arrays, `object` exactly for objects, otherwise the `typeof` name. |
| GenericValidator.ExpectedType | src/validators/GenericValidator.ts:20-40 | There is no expected type exactly when the schema is neither object-shaped nor typed. Otherwise it is `null` under the x-nullable rule, `object` for an object-shaped schema, and never `integer`. |
| GenericValidator.ValidateType | src/validators/GenericValidator.ts:14-51 | The call rejects with "Schema is corrupted" exactly when the schema has no type and is not object-shaped. Otherwise it gives no error or one type mismatch; none exactly when the runtime kind is accepted (`Accepts`: integer counts as number, null under x-nullable) or the hook ignores the error. |
| GenericValidator.StringForInteger | src/validators/GenericValidator.ts:14-51 | The string "Not a number" against an integer schema at [Pet, id] gives one mismatch with `typeIs` string and `typeShouldBe` number. |
| GenericValidator.NumberForInteger | src/validators/GenericValidator.ts:34-36 | Any number passes the type check against type `integer`. |
| EnumValidator.ValidateEnum | src/validators/EnumValidator.ts:8-21 | A missing enum list throws. Otherwise the result is empty exactly when the value is a member (`InEnum`: `===` in an array, substring search in a text) or the hook ignores the error, and is one enum mismatch carrying the value and the whole list otherwise. |
| EnumValidator.EnumExamples | src/validators/EnumValidator.ts:11-17 | "sold" is in `["available","sold",NaN]`, but NaN and "Sold" are not, because membership uses `===`. |
| EnumValidator.TextEnumSubstring | src/validators/EnumValidator.ts:11-17 | A text enum matches any substring: "old" is found in "available,sold" but not in `["available","sold"]`. |
| StringValidator.StripDelimiters | src/validators/StringValidator.ts:32-35 | A pattern enclosed in `/…/` loses exactly those two slashes; any other pattern is unchanged. |
| StringValidator.ValidateString | src/validators/StringValidator.ts:8-47 | The call rejects exactly when a pattern is set that is not a string or does not compile. Every error it reports is a constraint violation at the node's trace. |
| StringValidator.StringErrors | src/validators/StringValidator.ts:11-46 | At most three errors, each a minLength, maxLength or pattern violation, in that order. |
| StringValidator.StringReports | src/validators/StringValidator.ts:11-44 | Each violation is reported exactly when its condition holds and the hook does not drop it: UTF-16 length below `minLength` or above `maxLength`, each bound converted with `Number()` as the comparison does (a bound that converts to NaN never fires), or a pattern the delimiter-stripped regex does not match. |
| StringValidator.LengthAllows | src/validators/StringValidator.ts:11-27 | "abc" passes lengths 2..4. |
| StringValidator.LengthRejects | src/validators/StringValidator.ts:20-27 | "abcde" gives exactly one maxLength violation, carrying the bound 4. |
| StringValidator.DelimitedPattern | src/validators/StringValidator.ts:29-44 | `/^a+$/` is matched as `^a+$`, and the violation reports the original, delimited pattern. |
| StringValidator.TrueMinLength | src/validators/StringValidator.ts:11-18 | A minLength of `true` converts to 1, so the empty string gets exactly the minLength violation. |
| NumberValidator.DefaultFormat | src/validators/NumberValidator.ts:11-17 | A missing format becomes `int64` for integer and `double` for number. A schema with a format, and every other keyword, are unchanged. |
| NumberValidator.DefaultFormatIdempotent | src/validators/NumberValidator.ts:11-17 | Defaulting the format twice is the same as once. |
| NumberValidator.TypeErrors | src/validators/NumberValidator.ts:20-63 | The format checks yield only type mismatches at the node's trace. |
| NumberValidator.ConstraintErrors | src/validators/NumberValidator.ts:72-101 | The bound checks yield only constraint violations at the node's trace. |
| NumberValidator.ValidateNumber | src/validators/NumberValidator.ts:8-105 | The schema the checker leaves behind is the format-defaulted one. Every error is a type mismatch or a constraint violation at the node's trace. |
| NumberValidator.NumberTypeErrors | src/validators/NumberValidator.ts:20-63 | Each type error is reported exactly when its case holds and the hook does not drop it: an integer outside the int32 range under format int32; a non-integer against type integer (`integer<format>`); a non-float-class non-integer under format float. |
| NumberValidator.NumberConstraintErrors | src/validators/NumberValidator.ts:72-101 | The maximum, minimum and multipleOf violations are each reported exactly when the bound, converted with `Number()` as `>`, `<` and `%` convert it, with its exclusive variant, or the divisibility fails and the hook does not drop the error. A bound that converts to NaN never fires. |
| NumberValidator.NumberErrorKinds | src/validators/NumberValidator.ts:8-105 | Every error is one of the six the checker defines. |
| NumberValidator.TypeErrorsFacts | src/validators/NumberValidator.ts:20-63 | The iff conditions for the three type errors, on a schema that is already defaulted. |
| NumberValidator.TypeErrorsDiffer | src/validators/NumberValidator.ts:20-63 | The int32, integer and float errors are pairwise different. |
| NumberValidator.TypeErrorKinds | src/validators/NumberValidator.ts:20-63 | The format checks produce no other error. |
| NumberValidator.ConstraintErrorsFacts | src/validators/NumberValidator.ts:72-101 | The iff conditions for the three constraint errors, on bounds converted with `Number()`, and no other error. |
| NumberValidator.ErrorsOnDefaulted | src/validators/NumberValidator.ts:8-104 | With a format present, the errors are the type errors followed by the constraint errors. |
| NumberValidator.NoConstraints | src/validators/NumberValidator.ts:72-101 | Without maximum, minimum and multipleOf there are no constraint errors. |
| NumberValidator.NoIntegerTypeError | src/validators/NumberValidator.ts:20-63 | An integer in the int32 range never gets a type error. |
| NumberValidator.Int32Overflow | src/validators/NumberValidator.ts:20-31 | 2147483648 under int32 gives exactly the `integer<signed_int32>` versus `integer<signed_int64>` mismatch. |
| NumberValidator.FractionForInteger | src/validators/NumberValidator.ts:36-54 | 12.3 against type integer gives `number<float>` versus `integer<int64>`. |
| NumberValidator.OnlyMaximum | src/validators/NumberValidator.ts:72-81 | With only a maximum, an int32 value gives exactly the maximum violation when it exceeds the bound, and nothing otherwise. |
| NumberValidator.MaximumAllows | src/validators/NumberValidator.ts:72-81 | 300 passes maximum 300. |
| NumberValidator.MaximumRejects | src/validators/NumberValidator.ts:72-81 | 301 fails maximum 300 with a violation carrying 300. |
| NumberValidator.OnlyMultipleOf | src/validators/NumberValidator.ts:94-101 | With only multipleOf, an int32 value gives exactly the multipleOf violation when it is not a multiple, and nothing otherwise. |
| NumberValidator.MultipleOfExamples | src/validators/NumberValidator.ts:94-101 | For multipleOf 32, 64 passes and 123 fails. |
| NumberValidator.TextMaximumRejects | src/validators/NumberValidator.ts:72-81 | A maximum written as the text "300" is converted: 301 fails it with a violation carrying the text bound. |
| NumberValidator.TextMultipleOfAllows | src/validators/NumberValidator.ts:94-101 | A multipleOf written as the text "32" is converted: 64 passes. |
| DateValidator.SecondAndFraction | src/validators/DateValidator.ts:121-127 | The seconds field splits at its first `.`: the two parts concatenate to the field, the second part starts with `.`, and the first has no `.`. |
| DateValidator.SplitAtEither | src/validators/DateValidator.ts:168-180 | The split is absent exactly when no separator occurs. Otherwise it splits at the first occurrence of the first separator, in priority order, that occurs at all; the two halves concatenate to the input. |
| DateValidator.SplitAtEitherLoop | src/validators/DateValidator.ts:168-180 | The search loop returns exactly `SplitAtEither`. |
| DateValidator.ValidateDate | src/validators/DateValidator.ts:8-50 | At most one date-format error at the node's trace. It is absent exactly when the text fits the production `CorrectFormat` selects, a full-date for format `date` and a date-time for any other format, or the hook drops the error. |
| DateValidator.FullDateText | src/validators/DateValidator.ts:132-139 | `YYYY-MM-DD` with two-digit fields is a full-date exactly when the year has 4 UTF-16 units, the month is 1..12 and the day 1..31. |
| DateValidator.FullDateFields | src/validators/DateValidator.ts:132-139 | `FullDate` of a dash-joined triple holds exactly when its year, month and day fields each pass their own rule. |
| DateValidator.PartialTimeText | src/validators/DateValidator.ts:115-130 | `PartialTime` of `HH:MM:SS[.f]` holds exactly when hour < 24, minute < 60 and second ≤ 60. |
| DateValidator.SecondsWithFraction | src/validators/DateValidator.ts:121-127 | Seconds followed by an optional `.digits` split back into the seconds and a fraction `TimeSecFrac` accepts. |
| DateValidator.TimeOffsetText | src/validators/DateValidator.ts:92-113 | `TimeOffset`: `Z` is an offset; `±HH:MM` is one exactly when hour < 24 and minute < 60. |
| DateValidator.NumOffsetText | src/validators/DateValidator.ts:92-105 | `TimeNumOffset`: the same for a numeric offset given by sign, hours and minutes. |
| DateValidator.FullTimeText | src/validators/DateValidator.ts:141-151 | `FullTime` of a time followed by an offset holds exactly when the time fields and the offset fields are in range. |
| DateValidator.MissingOffset | src/validators/DateValidator.ts:141-151 | A time with no offset is never a full-time. |
| DateValidator.DateTimeText | src/validators/DateValidator.ts:153-165 | `DateTime` of `date T|t time offset` holds exactly when every field is in range. |
| DateValidator.DateTimeWithoutOffset | src/validators/DateValidator.ts:153-165 | A date-time without an offset is rejected. |
| DateValidator.FullDateExamples | src/validators/DateValidator.ts:132-139 | "2008-04-01" is a full-date and "2008-13-01" is not. |
| DateValidator.FractionAndZulu | src/validators/DateValidator.ts:153-165 | "1985-04-12T23:20:50.52Z" is a date-time. |
| DateValidator.NegativeOffset | src/validators/DateValidator.ts:153-165 | "1996-12-19T16:39:57-08:00" is a date-time. |
| DateValidator.HourTwentyFour | src/validators/DateValidator.ts:65-68 | Hour 24 is rejected. |
| DateValidator.NoOffset | src/validators/DateValidator.ts:141-151 | "1985-04-12T23:20:50.52" is rejected. |
| DateValidator.LooseFields | src/validators/DateValidator.ts:56-59 | Because the fields are judged by `parseInt` and length, a blank-padded month such as " 4" is accepted. |
| DateValidator.BlankPaddedField | src/validators/DateValidator.ts:56-59 | `parseInt` skips a leading blank, so " d" reads as the digit d and has length 2. |
| DateValidator.TwoDigitsRange | src/validators/DateValidator.ts:56-78 | A field of two digits passes a range check exactly when its value is in the range. |
| DateValidator.ValidateDateExample | src/validators/DateValidator.ts:34-46 | "2008-13-01" under format `date` gives exactly one date-format error. |
| ArrayValidator.ArrayMismatch | src/validators/ArrayValidator.ts:12-21 | A non-array gives a type mismatch at the node's trace: should be `array`, is the value's `typeof`. |
| ArrayValidator.ItemCountErrors | src/validators/ArrayValidator.ts:23-39 | Item-count errors are constraint violations at the node's trace, never uniqueItems. |
| ArrayValidator.ItemCountReports | src/validators/ArrayValidator.ts:23-39 | The minItems error is present exactly when minItems is truthy, the length is below it converted with `Number()`, and the hook keeps the error; likewise maxItems. |
| ArrayValidator.ItemCountShape | src/validators/ArrayValidator.ts:23-43 | At most two item-count errors, minItems before maxItems. |
| ArrayValidator.ElementTrace | src/validators/ArrayValidator.ts:50-53 | An element's trace copies the node's trace and sets `arrayPos` on the last step only. |
| ArrayValidator.ElementTargets | src/validators/ArrayValidator.ts:48-57 | One target per element, in index order: the element, `schema.items`, and its element trace. An empty trace throws on a non-empty array; an empty array gives no targets. |
| ArrayValidator.ElementTracesDistinct | src/validators/ArrayValidator.ts:50-53 | Different elements get different traces of the node's length, which extend the node's step names. |
| ArrayValidator.ElementLoop | src/validators/ArrayValidator.ts:48-57 | The element loop computes exactly `ElementTargets`. |
| Duplicates.DeepEqualSymmetric | src/helpers/duplicates.ts:10-107 | On values without duplicate keys, `deepEqual(x, y) == deepEqual(y, x)`. |
| Duplicates.ObjectsSwap | src/helpers/duplicates.ts:66-104 | The object case: when x's keys are covered by y and every member matches, the same holds with x and y swapped. |
| Duplicates.DeepEqualReflexive | src/helpers/duplicates.ts:10-107 | A NaN-free value is deep-equal to itself. |
| Duplicates.NaNQuirk | src/helpers/duplicates.ts:10-107 | `[NaN]` equals `[NaN]`, but `{a:NaN}` does not equal `{a:NaN}`, because the object path compares members with `===` first. |
| Duplicates.NullIsNotUndefined | src/helpers/duplicates.ts:70-72 | `{b:null}` and `{b:undefined}` are unequal. |
| Duplicates.KeyOrderIrrelevant | src/helpers/duplicates.ts:66-104 | Any two well-formed objects with the same members (equal as multisets), in whatever key order and with no NaN inside, are equal. |
| Duplicates.KeyOrderExample | src/helpers/duplicates.ts:66-104 | `{a: 1, b: "x"}` equals `{b: "x", a: 1}`. |
| Duplicates.HasDuplicates | src/helpers/duplicates.ts:109-121 | The nested loop returns true exactly when some pair i < j is deep-equal. |
| Duplicates.DeepEqual | src/helpers/duplicates.ts:10-107 | Deep-equal values have the same `typeof`, and one is an array exactly when the other is. |
| JsonValues.Get | src/helpers/loader.ts:67-82 | Reading a key a value does not own gives undefined. |
| JsonValues.Set | src/helpers/allOf.ts:49-78 | Assigning a key on an object makes it own the key with the new value and leaves every other key unchanged. |
| JsonValues.Remove | src/helpers/loader.ts:96 | `delete` makes the key absent and leaves every other key unchanged. |
| JsonValues.Stringify | src/validators/ObjectValidator.ts:199 | `JSON.stringify` gives no text exactly for undefined. |
| JsonValues.StrictEqualsSymmetric | src/validators/EnumValidator.ts:11 | `===` is symmetric. |
| JsonValues.ToNumberExamples | src/validators/NumberValidator.ts:72-101 | `Number()` of a bound: text through the engine's parser, a one-element array through its text, `true` as 1, `null` as 0, a plain object and undefined as NaN. |
| JsonValues.OwnEntriesPermute | src/validators/ObjectValidator.ts:90-91 | The `for…in` loop with its `hasOwnProperty` filter meets every field of an object exactly once. |
| JsonValues.ForInOrder | src/validators/ObjectValidator.ts:90-91 | Enumeration visits array-index keys first, in ascending numeric order, then the other keys in creation order. |
| JsonValues.NamedInOrder | src/validators/ObjectValidator.ts:90-91 | An object none of whose keys is an array index is enumerated in creation order. |
| JsonValues.OwnEntriesFind | src/validators/ObjectValidator.ts:90-92 | With distinct keys, enumeration meets each own key together with the value `test[key]` reads. |
| Loader.SplitPath | src/helpers/loader.ts:24-35 | With `#/` present, the split is at its first occurrence and the parts concatenate to the input. Without it, the result is the input and no path. |
| Loader.Walk | src/helpers/loader.ts:67-82 | Walking no components returns the start. A failure names one of the components as the missing one. |
| Loader.ResolveInternalPath | src/helpers/loader.ts:62-83 | A path not starting with `#/` throws. Otherwise the result is the walk over its `/`-separated components. |
| Loader.ResolveInternalPathLoop | src/helpers/loader.ts:62-83 | The loop computes exactly `ResolveInternalPath`. |
| Loader.WalkLoop | src/helpers/loader.ts:67-82 | The component loop computes exactly `Walk`. |
| Loader.ResolveTwoSteps | src/helpers/loader.ts:62-83 | `#/group/name` resolves to `obj[group][name]` when both keys exist. |
| Loader.ResolveMissing | src/helpers/loader.ts:67-82 | `#/key` with an absent key throws, naming the key. |
| Loader.Overlay | src/helpers/loader.ts:98-104 | Copying fields onto an object keeps it an object. |
| Loader.OverlayGet | src/helpers/loader.ts:98-104 | After the copy, a key not copied is unchanged, and a copied key holds the copied value. |
| Loader.ReplaceRef | src/helpers/loader.ts:95-105 | Replacing a reference keeps an object an object. |
| Loader.ReplaceRefFields | src/helpers/loader.ts:95-105 | Fields of the resolved schema overwrite; other fields are kept; `$ref` is gone unless the resolved schema has one. |
| Loader.LoadSchema | src/helpers/loader.ts:86-92 | null or undefined throws; a schema without `$ref` is returned unchanged. |
| Loader.LoadSchemaByName | src/helpers/loader.ts:54-60 | An absent name gives "Schema not found in definitions"; a present definition without `$ref` is returned. |
| Loader.LoadFromStringCases | src/helpers/loader.ts:107-124 | The empty path is invalid; a path without `#/` is a whole external document loaded through the environment. |
| Loader.WithTrailingSlash | src/helpers/loader.ts:191-193 | The base ends with `/` and keeps being absolute or remote. |
| Loader.NeedsDownloadExtends | src/helpers/loader.ts:223-225 | A URL stays a URL when text is appended, so it is never treated as a relative reference. |
| Loader.NeedsDownloadExamples | src/helpers/loader.ts:223-225 | Only a leading lower-case "http://" or "https://" counts: "/specs/pet.json", "HTTP://x" and "see http://x" are not downloads. |
| Loader.ConvertKeepsNonRelative | src/helpers/loader.ts:190-221 | Absolute, internal and http(s) references are left unchanged. |
| Loader.ConvertPrefixesRelative | src/helpers/loader.ts:190-221 | A relative reference gets the base directory plus `/` prefixed. |
| Loader.ConvertIdempotent | src/helpers/loader.ts:190-221 | With an absolute or remote base, converting twice is the same as once. |
| Loader.RewriteOnce | src/helpers/loader.ts:203-209 | Rewriting one reference twice is the same as once. |
| Loader.RewriteRef | src/helpers/loader.ts:203-209 | A string reference stays a string; a relative one gets the base prefixed, any other is left as it is. |
| Loader.ConvertRefsToAbsolute | src/helpers/loader.ts:190-221 | The rewrite keeps the shape: scalars are unchanged, an array keeps its length, an object keeps its keys in place. |
| Loader.ConvertRefs | src/helpers/loader.ts:190-221 | The conversion throws a TypeError exactly when some `$ref` member, at any depth, is neither a string nor an array whose first element is the string "http://" or "https://" (where `indexOf` answers 0); a scalar comes back unchanged. |
| Loader.ConvertKeepsConvertible | src/helpers/loader.ts:190-221 | A value the conversion accepts is still accepted after it. |
| Loader.ConvertRefsIdempotent | src/helpers/loader.ts:190-221 | With an absolute or remote base, a conversion that succeeds succeeds again on its result and changes nothing. |
| Loader.NumericRefThrows | src/helpers/loader.ts:203-205 | `{"$ref": 5}` throws: a number has no `indexOf`. |
| Loader.RefNamedPropertyThrows | src/helpers/loader.ts:203-213 | A property named `$ref` inside `properties` holds a schema object, and the conversion throws. |
| AllOf.NotIn | src/helpers/allOf.ts:53-58 | The parent names kept are exactly those not strictly equal to a child name, and they come from the parent list. |
| AllOf.CopyPropertyFacts | src/helpers/allOf.ts:63-77 | Copying one parent property sets that name to the child's truthy property if there is one, else to the parent's. Every other property and keyword is unchanged. |
| AllOf.CopyPropertiesOthers | src/helpers/allOf.ts:63-77 | Names the parent lacks keep the child's property. |
| AllOf.CopyPropertiesChosen | src/helpers/allOf.ts:63-77 | `CopyProperties`: every parent property name is present afterwards, holding the child's truthy property or else the parent's. |
| AllOf.ExtendRequired | src/helpers/allOf.ts:49-62 | `MergeRequired`: `required` stays the child's without a parent list, becomes the parent's without a child list, and otherwise is the child's list followed by the parent names not already present. |
| AllOf.ExtendRequiredLists | src/helpers/allOf.ts:49-58 | With two lists, the child's list is a prefix, no added name repeats a child name, and every parent name ends up present. |
| AllOf.MergedList | src/helpers/allOf.ts:49-58 | The list-level form of the previous row. |
| AllOf.ExtendRequiredAdopted | src/helpers/allOf.ts:59-61 | A child without `required` adopts the parent's list. |
| AllOf.ExtendProperties | src/helpers/allOf.ts:63-78 | After `extend` (`Extend`), `allOfResolved` is true and every parent property name is present with the child's truthy property or the parent's. |
| AllOf.ExtendKeepsProperties | src/helpers/allOf.ts:63-77 | Child properties that are truthy, and names the parent lacks, are never overwritten. |
| AllOf.ExtendKeepsOtherKeywords | src/helpers/allOf.ts:47-80 | Keywords other than required, properties and allOfResolved are unchanged. |
| AllOf.MergeRequiredTwice | src/helpers/allOf.ts:49-62 | Merging the same parent's `required` twice equals merging once. |
| AllOf.CopySettled | src/helpers/allOf.ts:63-77 | Copying properties that are already settled changes nothing. |
| AllOf.ExtendIdempotent | src/helpers/allOf.ts:47-80 | Extending with the same parent twice equals extending once. |
| AllOf.RequiredSettled | src/helpers/allOf.ts:49-62 | After one `extend`, merging that parent's `required` again is a no-op. |
| AllOf.PropertiesSettled | src/helpers/allOf.ts:63-77 | After one `extend`, every parent property is settled on the child. |
| AllOf.ExtendSteps | src/helpers/allOf.ts:47-80 | Merging `required` leaves `properties` alone; `extend` sets `allOfResolved` to true and its properties are those of the copy loop. |
| AllOf.ExtendObject | src/helpers/allOf.ts:47-80 | `extend` of an object is an object flagged `allOfResolved`. |
| AllOf.CopyPreservesObject | src/helpers/allOf.ts:63-77 | The property loop keeps an object an object. |
| AllOf.CopyKeepsKeyword | src/helpers/allOf.ts:63-77 | The property loop changes no keyword but `properties`. |
| AllOf.EmptyAllOfKept | src/helpers/allOf.ts:8-10 | `allOf: []` has no length, so `HasAllOf` fails and the schema comes back unchanged. |
| AllOf.Pending | src/helpers/allOf.ts:15 | The parents still to merge are exactly those not flagged `allOfResolved`, and there are none when all are flagged. |
| AllOf.ExtendAllAllOfs | src/helpers/allOf.ts:7-45 | null or undefined throws. A schema without a non-empty `allOf`, or already resolved, is returned unchanged. |
| AllOf.MergeParents | src/helpers/allOf.ts:18-44 | Merging no parents returns the accumulator. |
| AllOf.MergeParentsResolves | src/helpers/allOf.ts:18-44 | A successful merge of at least one parent gives an object flagged `allOfResolved`. |
| AllOf.MergeParentsKeeps | src/helpers/allOf.ts:18-44 | Merging parents keeps every keyword of the schema but `required`, `properties` and `allOfResolved`. |
| AllOf.ComposeTwice | src/helpers/allOf.ts:7-45 | A composed schema is flagged resolved, and composing it again returns it unchanged. |
| AllOf.ComposeFlags | src/helpers/allOf.ts:38-44 | Composition with pending parents returns an object flagged `allOfResolved`. |
| AllOf.ComposedResolved | src/helpers/allOf.ts:7-45 | A composition of a schema with pending parents is an object flagged `allOfResolved`. |
| AllOf.ResolvedIsFixed | src/helpers/allOf.ts:8-10 | A schema flagged `allOfResolved` is returned unchanged. |
| AllOf.AllParentsResolved | src/helpers/allOf.ts:15-44 | When every parent is already flagged, there is nothing to merge and the schema comes back unchanged. |
| AllOf.PlainParentMerged | src/helpers/allOf.ts:18-44 | A single plain parent is merged with `extend`. |
| AllOf.RefParentMerged | src/helpers/allOf.ts:18-20 | A single `$ref` parent is dereferenced through the loader, then merged with `extend`. |
| AllOf.ComposeSingle | src/helpers/allOf.ts:7-45 | Composing a schema with one pending parent is merging that parent. |
| AllOf.MergeSingle | src/helpers/allOf.ts:18-44 | Merging one loadable parent without its own `allOf` is `extend` of the loaded parent. |
| SchemaNodes.SchemaNode.Extend | src/helpers/allOf.ts:47-80 | The in-place `extend` leaves the node equal to `AllOf.Extend` of its old value. |
| SchemaNodes.SchemaNode.CopyOne | src/helpers/allOf.ts:64-76 | One pass of the property loop, in place, equals `AllOf.CopyProperty`. |
| SchemaNodes.SchemaNode.ReplaceRef | src/helpers/loader.ts:95-105 | The in-place `replaceRef` equals `Loader.ReplaceRef` of the old value. |
| SchemaNodes.SchemaNode.DefaultFormat | src/validators/NumberValidator.ts:11-17 | The in-place format defaulting equals `NumberValidator.DefaultFormat` of the old value. |
| ObjectValidator.ObjectMismatch | src/validators/ObjectValidator.ts:39-58 | The mismatch for a non-object is at the node's trace, with `typeIs` the runtime kind and `typeShouldBe` the schema's title or else `object`. |
| ObjectValidator.IsPolymorphic | src/validators/ObjectValidator.ts:64-65 | A schema is polymorphic exactly when it has a discriminator and the discriminator property is truthy. A discriminator without `properties` throws. |
| ObjectValidator.Candidate | src/validators/ObjectValidator.ts:178-192 | A candidate has `allOf` and the discriminator property. When that property has an enum, the enum overlaps the abstract class's enum. Without an enum, such a definition is a candidate. |
| ObjectValidator.LoadAll | src/validators/ObjectValidator.ts:195-196 | Loading each parent gives one result per reference, each equal to `loadSchema` of it, and succeeds when all loads succeed. |
| ObjectValidator.ExtendsAbstract | src/validators/ObjectValidator.ts:193-202 | A definition extends the abstract class exactly when some loaded `allOf` parent stringifies like it. A non-array `allOf` throws. |
| ObjectValidator.ComposeEach | src/validators/ObjectValidator.ts:162-177 | Every definition is composed, keeping its name and order. |
| ObjectValidator.FilterCandidates | src/validators/ObjectValidator.ts:178-192 | The kept definitions are exactly the candidates. |
| ObjectValidator.FilterExtending | src/validators/ObjectValidator.ts:193-202 | The kept definitions are exactly those extending the abstract class. |
| ObjectValidator.FindDerivedObjects | src/validators/ObjectValidator.ts:159-203 | A spec without `definitions` throws. |
| ObjectValidator.DerivedAreCandidates | src/validators/ObjectValidator.ts:159-203 | Every derived object is a composed definition under its own name and a candidate for the discriminator, and extends the abstract class in the spec whose definitions are replaced by their compositions (`ComposedContext`), as the in-place composition leaves them. |
| ObjectValidator.DerivedMember | src/validators/ObjectValidator.ts:159-203 | One survivor of both filters: the definition it composes and the two filters it passed. |
| ObjectValidator.ComposedMember | src/validators/ObjectValidator.ts:162-177 | A composed definition comes from the definition of the same name. |
| ObjectValidator.DerivedSteps | src/validators/ObjectValidator.ts:159-203 | A successful search composes every definition, filters the candidates, then filters those extending the abstract class in the composed spec. |
| ObjectValidator.Matching | src/validators/ObjectValidator.ts:216-227 | The matching derived objects are exactly those whose one-element enum, or whose name, equals the value's discriminator field. |
| ObjectValidator.Annotated | src/validators/ObjectValidator.ts:237 | Annotation keeps the step names and sets `concreteModel` on the last step. |
| ObjectValidator.FindPolymorphicConcreteClass | src/validators/ObjectValidator.ts:206-250 | A found class has no discriminator. The new trace keeps every step of the old one except that the old last step gains a `concreteModel`, and it may have more steps appended. |
| ObjectValidator.ConcreteClass | src/validators/ObjectValidator.ts:64-65 | A non-polymorphic schema is just composed, with the trace unchanged; a resolved trace always extends the old one. |
| ObjectValidator.MissingErrors | src/validators/ObjectValidator.ts:71-87 | At most one error per required name. A name counts as missing (`IsMissing`) when reading it gives undefined and it is not a member every object inherits from `Object.prototype`. |
| ObjectValidator.MissingErrorsSound | src/validators/ObjectValidator.ts:71-87 | Every error is a missing-required error at trace + [name], for a listed name whose value is undefined and not inherited from `Object.prototype`. |
| ObjectValidator.MissingErrorsComplete | src/validators/ObjectValidator.ts:71-87 | Every listed name whose value is undefined and not inherited from `Object.prototype`, and whose error the hook keeps, is reported. |
| ObjectValidator.RequiredErrors | src/validators/ObjectValidator.ts:71-87 | No `required` gives no error; a non-array `required` throws; a list gives its missing errors. |
| ObjectValidator.RequiredLoop | src/validators/ObjectValidator.ts:71-87 | The in-place `forEach` computes exactly `MissingErrors`. |
| ObjectValidator.RequiredCallback | src/validators/ObjectValidator.ts:73-85 | One callback extends the error list from the first i names to the first i+1. |
| ObjectValidator.InheritedNameNotMissing | src/validators/ObjectValidator.ts:74 | `required: ["constructor"]` on `{}` reports nothing: the inherited `Object` function is not undefined. |
| ObjectValidator.CheckKey | src/validators/ObjectValidator.ts:94-120 | A key with a truthy property schema (`PropertySchema`: `properties[key]`, else `additionalProperties[key]`) recurses into it. Otherwise it is skipped under `allowAdditionalProperties`, and is an additional property exactly when that flag is off and `additionalProperties` is not truthy. |
| ObjectValidator.PropertySchemaPrecedence | src/validators/ObjectValidator.ts:94-99 | A truthy own entry in `properties` wins; else a truthy `additionalProperties` is read as a properties map at the key; else there is no schema. |
| ObjectValidator.AdditionalErrors | src/validators/ObjectValidator.ts:106-118 | At most one additional-property error per key. |
| ObjectValidator.AdditionalSound | src/validators/ObjectValidator.ts:106-118 | Every error is an additional-property error at trace + [key] for a key classified as additional. |
| ObjectValidator.AdditionalComplete | src/validators/ObjectValidator.ts:106-118 | Every key classified as additional, whose error the hook keeps, is reported. |
| ObjectValidator.ChildTargets | src/validators/ObjectValidator.ts:119-121 | The child validations are exactly one per key with a property schema, at trace + [key], at most one per key. |
| ObjectValidator.ChildTraces | src/validators/ObjectValidator.ts:119-121 | Each child trace extends the node's trace by exactly one step. |
| ObjectValidator.KeyLoop | src/validators/ObjectValidator.ts:90-123 | The key loop computes exactly the additional errors and the child targets, over the value's own keys in `for…in` order (`OwnEntries`: index keys first, then creation order). |
| ObjectValidator.KeyBody | src/validators/ObjectValidator.ts:91-122 | One pass of the loop body extends both results from the first i keys to the first i+1. |
| ModelValidator.SelectChecker | src/validators/ModelValidator.ts:61-88 | Object-shaped schemas go to the object checker. Otherwise strings go to the date checker for formats date/date-time and to the string checker for any other format; numbers go to the number checker, arrays to the array checker, booleans and null to none; undefined and objects are not implemented. |
| ModelValidator.FirstStage | src/validators/ModelValidator.ts:39-55 | The first stage yields at most one error, a type or enum mismatch at the node's trace. |
| ModelValidator.ValidateModel | src/validators/ModelValidator.ts:17-28 | null or undefined schemas throw. Without a custom hook, every error lies under the node's trace and is structural. |
| ModelValidator.ValidateResolvedModel | src/validators/ModelValidator.ts:30-106 | The same two facts for the dereferencing, checking stage. |
| ModelValidator.RefRestarts | src/validators/ModelValidator.ts:31-34 | A truthy `$ref` is loaded and validation restarts on the loaded schema with the same trace. |
| ModelValidator.Check | src/validators/ModelValidator.ts:56-91 | The checker's trace extends the node's; without a hook its errors lie under the node's trace. |
| ModelValidator.ValidateObject | src/validators/ObjectValidator.ts:30-134 | The object checker's errors lie under the node's trace, and its resolved trace extends the node's. |
| ModelValidator.ValidateArray | src/validators/ArrayValidator.ts:9-63 | A non-array gives exactly the array mismatch. Element errors lie under the node's trace. |
| ModelValidator.ValidateAll | src/validators/ObjectValidator.ts:125-132 | No targets give no errors; otherwise each error lies under one target's trace. |
| ModelValidator.ArrayOrder | src/validators/ArrayValidator.ts:23-62 | An array's errors are its item-count errors (minItems, then maxItems) followed by its elements' errors in index order. |
| ModelValidator.ValidateAllSplit | src/validators/ObjectValidator.ts:125-129 | The children's errors are concatenated in target order: the errors of a list are those of its first part followed by those of the rest. |
| ModelValidator.RequiredAt | src/validators/ObjectValidator.ts:71-87 | Required errors lie under the node's trace. |
| ModelValidator.AdditionalAt | src/validators/ObjectValidator.ts:106-118 | Additional-property errors lie under the node's trace. |
| ModelValidator.ChildrenAt | src/validators/ObjectValidator.ts:119-132 | Child errors lie under the node's trace. |
| ModelValidator.ElementErrorsAt | src/validators/ArrayValidator.ts:48-62 | Element errors lie under the node's trace. |
| ModelValidator.TypeMismatchStops | src/validators/ModelValidator.ts:49-55 | A type mismatch in the first stage is the whole result; no checker and no hook runs. |
| ModelValidator.EnumMismatchStops | src/validators/ModelValidator.ts:40-55 | With an enum, a value outside it gives exactly the enum mismatch. |
| ModelValidator.EnumRejects | src/validators/EnumValidator.ts:11-17 | A value not strictly equal to any enum member gives exactly the enum mismatch, unless the hook ignores it. |
| ModelValidator.UntypedRejects | src/validators/GenericValidator.ts:22-25 | A schema with neither a type nor an object shape rejects the call as corrupted. |
| ModelValidator.NoCheckerRejects | src/validators/ModelValidator.ts:85-86 | An object or undefined value under a schema that is not object-shaped rejects the call with "not yet implemented". |
| ModelValidator.ScalarsPass | src/validators/ModelValidator.ts:89-102 | A boolean or null that passed the first stage, with no hook, gives no errors. |
| ModelValidator.HookAppends | src/validators/ModelValidator.ts:93-103 | The checker's errors come first and the hook's are appended; without a hook the result is the checker's errors. |
| ModelValidator.ComposedIsTransparent | src/validators/ModelValidator.ts:22-25 | Validating against the composed schema is the same as validating against the original; composition adds no trace step. |
| ModelValidator.Loopback | src/validators/ModelValidator.ts:45-47 | A resolved `allOf` schema without properties loops back forever, which the model reports as running out of fuel. |
| ModelValidator.ObjectShortcuts | src/validators/ObjectValidator.ts:35-58 | Under x-nullable a null value gives no errors (`NullShortcut`). Otherwise a falsy or non-object value (`NotAnObject`) gives exactly the object mismatch, bypassing the ignore hook. |
| ModelValidator.PolymorphismFailures | src/validators/ObjectValidator.ts:209-234 | With no derived objects the call rejects with "Confusing discriminator"; with derived objects but no match, "No concrete object found"; with several matches, "More than one concrete object found". |
| ModelValidator.PolymorphismResolved | src/validators/ObjectValidator.ts:236-248 | A unique match annotates the last trace step with its name. Without its own discriminator it is the concrete class; with one, resolution continues from it with its name pushed onto the trace. |
| ModelValidator.DirectObjectOrder | src/validators/ObjectValidator.ts:69-132 | For a plain object schema, with or without `required`, the result is the required errors (none without `required`), then the additional-property errors, then the child errors. |
| ModelValidator.MissingThenAdditional | src/validators/ObjectValidator.ts:71-132 | Two missing required names and one extra key give missing id, missing name, then the additional key. |
| ModelValidator.RequiredBeforeAdditional | src/validators/ObjectValidator.ts:71-132 | `{extra:1}` against a Pet requiring id and name gives Pet/id missing, Pet/name missing, Pet/extra additional, in that order. |
| ModelValidator.OneMistypedChild | src/validators/ObjectValidator.ts:90-132 | A single mistyped property gives the child's type mismatch at trace + [id]. |
| ModelValidator.PetIdIsString | src/validators/ObjectValidator.ts:90-132 | `{id:"Not a number"}` against a Pet whose id is an integer gives one mismatch at [Pet, id], string versus number. |
| Results.TraceStringAppend | src/result.ts:54-68 | `TraceString` of a trace with one more step adds `/` and that step's text (name, then `[pos]`, then `<model>`). |
| Results.TraceStringSingle | src/result.ts:54-68 | A trace of one step prints that step's text alone, with no leading `/`. |
| Results.ReportValid | src/result.ts:73-76 | `Report` is "Valid" exactly when there are no errors. |
| Results.ReportThrows | src/result.ts:96-102 | The report throws a TypeError exactly when some error is an enum mismatch whose `enumShouldBe` is not an array, since only arrays have `join`. |
| Results.TextEnumThrows | src/result.ts:102 | An enum mismatch against a text `enum` makes the report throw. |
| Results.BlockShape | src/result.ts:80-140 | Every block has at least three lines and ends with an empty one. A constraint block has the Violation line before the At line; other blocks have the At line second. A type block prints "Should be" then "Is"; a custom block has a Content line exactly when the content is truthy. |
| Results.JoinHasSeparator | src/result.ts:142 | The joined text of two or more lines contains the newline separator. |
| Results.ValidationResult.HumanReadable | src/result.ts:73-143 | The imperative report builder returns exactly `Report` of the errors, throwing at the first enum mismatch it cannot print. |
| Text.Split | src/validators/DateValidator.ts:133 | `split` returns at least one part, and no part contains the separator. |
| Text.SplitJoin | src/validators/DateValidator.ts:133 | Joining the parts of a split with the separator gives back the text. |
| Text.SplitCount | src/validators/DateValidator.ts:133-134 | A split has one more part than the separator has occurrences. |
| Text.IndexOf | src/helpers/loader.ts:26 | `indexOf` finds the first occurrence, or reports that there is none. |
| Text.FindChar | src/validators/DateValidator.ts:172 | The first occurrence of a character, or none. |
| Text.DecimalRoundTrip | src/result.ts:58-60 | Printing a natural number in decimal and reading it back gives the number. |
| Text.ParseIntOfNat | src/validators/DateValidator.ts:56-78 | `parseInt` reads back a printed natural number. |

## Left out

- File and URL loading: reading files, downloads, the HTTP cache, YAML and JSON parsing, and path
  handling (`src/helpers/loader.ts:107-188,227-274`). These are the environment's `loadExternal`
  function, which also stands for the reference rewriting applied to a loaded file. The model keeps
  the internal `#/` branch, the file/path split and the error for a non-hashed path.
- The string branch of `loader` and `src/handler.ts`. Callers are expected to supply a parsed spec
  and a first trace step.
- Promise concurrency: `Promise.all`, `.map` and `.filter` are sequential, order-preserving maps.
  Only the first rejection is kept.
- AllOf.ExtendAllAllOfs: the `extend` chain at `src/helpers/allOf.ts:26-33` is not awaited in the
  source, so its timing is racy. The model merges each parent in order, sequentially. Two more
  differences follow:
  - the model composes each loaded parent (`extendAllAllOfs`) before merging it, while the source's
    `reduce` at `src/helpers/allOf.ts:38-42` merges the loaded parent as it stands;
  - the un-awaited chain merges each parent into the child a second time. The model merges once.
    `AllOf.ExtendIdempotent` and `AllOf.MergeRequiredTwice` show that the second merge of the same
    parent changes nothing.
- `RegExp` matching is the environment's `regexTest`. `None` means the pattern does not compile.
- IEEE-754 floats:
  - numbers are reals, with NaN a separate value;
  - converting a number to text beyond small integers is the environment's `numberFormat`;
  - the `parseInt(test + '')` integer test is modelled for numbers of magnitude below 10^21, which
    print without an exponent;
  - `%` on non-integers is modelled as exact division on reals;
  - `Number()` of a text bound is the engine's `numberParse`, so its grammar (blanks, hexadecimal,
    `Infinity`) is not modelled, and an infinite bound is not representable.
- Duplicates.DeepEqualSymmetric: the parent stacks that detect cycles in `deepEqual` are left out,
  because the values are acyclic datatypes. Symmetry is proved for values without duplicate keys,
  which is the only kind JSON parsing produces.
- Duplicates.HasDuplicates: the shared parent stack of `hasDuplicates` is left out. In the source,
  `xParents` is created once per `i1` and shared by every `i2` (`src/helpers/duplicates.ts:111-117`).
  `deepEqual` pushes both objects before comparing a nested object member and returns false without
  popping them when that member differs (`src/helpers/duplicates.ts:87-91`). After such a nested
  mismatch, a later comparison with the same `i1` finds item `i1` still on the stack and throws
  "Object comparison failed, circular loop detected" (`src/helpers/duplicates.ts:60-62`), even for
  acyclic values. An example is `[{a:{b:1}},{a:{b:2}},{a:{b:3}}]`, where comparing items 0 and 2
  throws. The model returns a boolean there: `false` for that input.
- The bodies of the `ignoreError` and `customValidation` hooks are user code: they are function
  values in the configuration. The sync-or-async return shape of the custom hook is plumbing.
- `isDerived` (`src/validators/ObjectValidator.ts:137-157`) is never called.
- `console.warn` for `uniqueItems` is left out; the model emits no uniqueItems error.
- `JSON.stringify`-based copies are value copies. The comparison at
  `src/validators/ObjectValidator.ts:199` compares stringified texts as the source does.
- ModelValidator.ValidateModel: termination of the `allOf` loopback and of `$ref` chains is not
  proved. The engine takes fuel and rejects with `OutOfFuel` when it runs out.
- The helper `Get` reads a key by first occurrence in the ordered field list. The source's objects
  never have duplicate keys.
- ObjectValidator.CheckKey: an own key named like a member every object inherits from
  `Object.prototype` (`constructor`, `toString`, …) reads a function from `properties` in the
  source, which then rejects the child with "Schema is corrupted"; `JsonValues.Get` and
  `ObjectValidator.PropertySchema` see no schema there, so the model reports an additional property
  or recurses into `additionalProperties` instead. The inherited-name rule is modelled for the
  `required` check only, and only for plain objects (`ObjectValidator.IsMissing`).
- ArrayValidator.ItemCountErrors: the minItems and maxItems errors are tagged in the source with
  `ValidationErrorType.CONSTRAINTS_VIOATION` (`src/validators/ArrayValidator.ts:25,34`). That member
  is not declared in `src/result.ts`, so the errors' `errorType` is `undefined` at run time. The
  model gives them the `ConstraintsViolation` kind. So the model does not capture what follows from
  the undefined tag: `humanReadable` prints these errors as "Unknown Error:" with an At line
  (`src/result.ts:133-136`), not as a "Constraint violation:" block.
- ArrayValidator.ItemCountReports: for the same reason, the `ignoreError` hook is stated to receive
  errors of the constraint-violation kind, while the source hands it errors whose `errorType` is
  undefined. The if-and-only-if facts hold for the intended kind only.
- Loader.LoadSchemaByName: `spec.definitions[schemaName]` (`src/helpers/loader.ts:55`) also reads
  members inherited from `Object.prototype`. For a name such as "toString" or "constructor", the
  source gets a function, does not throw, and resolves that function as the schema. Validation then
  rejects with "Schema is corrupted", because the function has no type and no object shape. A
  function is not a JSON value, so the model reports `SchemaNotFound(name)` for such a name.
- AllOf.MergeRequired: a truthy `required` that is not an array is read as an empty list (`Items`).
  In the source, `to.required.concat` or `from.required.filter` then throws a TypeError, unless the
  child's `required` is a string, which `concat` joins as text (`src/helpers/allOf.ts:49-58`).
- The `lib/` build output, `src/configuration-interfaces/validator-config.ts` (a record in the
  `Configuration` module), the tests and the example script are not part of this model.
