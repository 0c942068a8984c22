# formenc's `form` decoder, modelled in Dafny

The `form` package of formenc decodes submitted HTML form data (a
`url.Values`: keys with lists of strings) into a Go struct. Each key is
matched to the first struct field whose `form` tag names it, or whose
declared name matches when the tag gives none. A validator method
`FormValidate<Field>` then runs if the type has one, and a setter method
`FormSet<Field>` runs if it has one. Otherwise the strings are coerced to
the field's kind: string, signed or unsigned integer, float, bool or
`[]string`.

Validation errors are gathered into a `CompoundValidationError`. Any other
error ends decoding at once. A `map[string]interface{}` can also be filled,
key by key.

The project models this decoder:

- the tag parser;
- the field resolver;
- hook dispatch;
- built-in coercion;
- map assignment;
- the driver over all keys;
- the error types;
- the package's own test fixtures and scenarios.

Go reflection is replaced by an explicit schema (module `Schema`). A
`StructType` lists the declared fields, each with its name, its raw `form`
tag and its kind, and maps method names to hook functions. A hook sees the
submitted values and the receiver's fields. It returns an error and the
fields it assigns. A struct value is a `Record` object, whose `values` the
decoder updates in place. A map is a `StringMap` object. The argument
handed to `Unmarshal` or `Tags` is a `Target`: a non-nil pointer, a nil
pointer or a value.

The submitted `url.Values` is a sequence of pairs with distinct keys. The
order of that sequence is the order of Go's map iteration, which Go leaves
unspecified. Every test scenario is therefore proved for every order in
which the keys can come (`DecodeFacts.Ordering`).

Modules, in dependency order:

- `Wrappers`: `Option` and `Result`.
- `GoStrings`: `Split`, `Join`, `HasPrefix`, `TrimPrefix` and `ToLower`.
- `Strconv`: decimal `ParseInt`, `ParseUint`, `ParseBool` and the
  formatters.
- `Errors`: the error types.
- `Schema`: types, values, records, maps and targets.
- `Tags`: parseTag, `Tags` and the field resolver.
- `Coercion`: `empty`, assignToStructField, assignToInt and assignToUint.
- `Decode`: assignToStruct, callFormMethod, assignToMap, findIn, walk and
  Unmarshal. Each is a method, proved against a specification function
  (`StructEffect`, `MapEffect`, `Run`).
- `DecodeFacts`: properties of those specification functions.
- `Fixtures`: `FixtureAddress`, its hooks and the walks of the three
  Unmarshal tests.
- `Scenarios`: each test as a method over fresh objects.

Test data that is a value, not an operation, is a constant. It has no row
in the table below, and the lemmas about it cite it:

- `Fixtures.FixtureAddress` is the `FixtureAddress` type of
  encoding/form/encoding_test.go:259-264, with its hooks.
- `Fixtures.FixtureFormData` is fixtureFormData, at
  encoding/form/encoding_test.go:246-257.
- `Fixtures.ValidatorFormData` is the form of TestUnmarshalValidator, at
  encoding/form/encoding_test.go:315-317.
- `Fixtures.SetterFormData` is the form of TestUnmarshalSetter, at
  encoding/form/encoding_test.go:338-339.
- `Fixtures.Entries` lists every entry those three forms submit.
- `Scenarios.IntStruct` is intStruct, at
  encoding/form/encoding_test.go:161-167.
- `Scenarios.IntSources` holds the five sources of TestAssignToInt, at
  encoding/form/encoding_test.go:178-182.

Two behaviours of the code depart from what its surroundings suggest. The
model keeps both as written, on purpose:

- A field tagged `form:"-"` keeps an empty name, so the key "" still
  reaches it when no earlier field answers to "" (encoding/form/encoding.go:178-181).
  `Tags.IgnoredFieldUnreachable` and `Tags.EmptyKeyReachesIgnored` state
  both sides of this.
- assignToMap always returns nil. The deferred recover assigns to a local
  `err` that the unnamed result never sees, as the FIXME notes at
  encoding/form/encoding.go:155 and encoding/form/encoding_test.go:153-155 admit.
  `Decode.AssignToMap` returns nil in every case, and a value of the wrong
  element type leaves the map unchanged.

Paths below are relative to the repository root.

## Model

| member | source | states |
|---|---|---|
| GoStrings.Split | encoding/form/encoding.go:316 | strings.Split on ",": at least one part, no part holds the separator, and joining the parts with it gives the input back |
| GoStrings.SplitJoin | encoding/form/encoding.go:316 | splitting parts free of the separator, joined by it, gives exactly those parts |
| GoStrings.Join | encoding/form/encoding.go:49 | strings.Join: the parts with the separator between each two |
| GoStrings.HasPrefix | encoding/form/encoding.go:334-336 | strings.HasPrefix: the string starts with the marker |
| GoStrings.TrimPrefix | encoding/form/encoding.go:334-337 | a segment that starts with the marker is the marker followed by the result; any other segment is returned unchanged |
| GoStrings.ToLower | encoding/form/encoding_test.go:288 | the lower-cased city has the same length and each character is lowered on its own (ASCII letters) |
| Strconv.ParseInt | encoding/form/encoding.go:283-285 | succeeds exactly on an optionally signed decimal numeral whose value fits in int64, and then returns that value. It is a range error exactly when the digits before the first non-digit already exceed the uint64 maximum, or when a well-formed numeral lies outside int64. Every other failure is a syntax error |
| Strconv.ParseUint | encoding/form/encoding.go:295-297 | succeeds exactly on an unsigned decimal numeral no greater than the uint64 maximum, and then returns its value. It is a range error exactly when the digits before the first non-digit already exceed that maximum. Every other failure is a syntax error |
| Strconv.ParseBool | encoding/form/encoding.go:264 | succeeds exactly on 1, t, T, TRUE, true, True, 0, f, F, FALSE, false and False. The result is true exactly for the first six. Any other text is a syntax error |
| Strconv.ScanOverflow | encoding/form/encoding.go:283-285 | once the leading digits exceed the uint64 maximum, both parsers report a range error, whatever text follows and with or without a minus sign |
| Strconv.OverflowBeforeSyntax | encoding/form/encoding.go:295-297 | an overflowing numeral followed by any text, such as "99999999999999999999x", is a range error and not a syntax error |
| Strconv.ExceedIffLeading | encoding/form/encoding.go:283-297 | the digits overflow before the first non-digit exactly when the maximal leading run of digits does |
| Strconv.ParseFormatInt | encoding/form/encoding.go:283 | every int64 printed in decimal parses back to itself |
| Strconv.FormatParseInt | encoding/form/encoding_test.go:185-191 | a canonical decimal numeral within int64 parses to its value and prints back as the same text |
| Strconv.ParseFormatUint | encoding/form/encoding.go:295 | every uint64 printed in decimal parses back to itself |
| Strconv.ParseFormatBool | encoding/form/encoding.go:264 | a printed bool parses back to itself |
| Errors.ValidationError.Text | encoding/form/encoding.go:25-27 | a validation error's text is its message alone |
| Errors.CompoundValidationError.Len | encoding/form/encoding.go:35-37 | the number of collected errors, one per message; zero exactly when none was collected |
| Errors.CompoundValidationError.Text | encoding/form/encoding.go:44-50 | the text always starts with the lead-in "validation errors occurred: " |
| Errors.IsValidation | encoding/form/encoding.go:123 | the driver collects exactly the errors of type *ValidationError |
| Errors.Messages | encoding/form/encoding.go:44-50 | one message per collected error, in order, each being that error's text |
| Errors.CompoundMessage | encoding/form/encoding.go:44-50 | the loop that builds the message gives the lead-in followed by the messages joined with "; ", and the lead-in plus the message for a single error |
| Errors.CompoundText | encoding/form/encoding.go:44-50 | one error gives the lead-in and its message; each further error appends "; " and its message |
| Tags.TagOf | encoding/form/encoding.go:315-341 | a parsed tag never both ignores and groups, and an ignored or grouped tag has no name |
| Tags.SegmentsTag | encoding/form/encoding.go:317-339 | the same exclusivity for a tag built from its segments |
| Tags.ParseTag | encoding/form/encoding.go:315-341 | the segment loop builds exactly the tag that the segments describe (name or ignore/group from the first segment; omit, prefix and suffix from the later ones) |
| Tags.SegmentsTagFields | encoding/form/encoding.go:317-339 | the tag read field by field, which the tag scenarios use: a single empty segment gives the zero tag; otherwise "-" sets only Ignore, "+" only Group, anything else is the name, Omit holds exactly when a later segment is "omitempty", and Prefix and Suffix come from the last later segment with that marker |
| Tags.TagOfJoin | encoding/form/encoding.go:316 | a tag string made by joining comma-free segments is parsed from exactly those segments |
| Tags.NoMarkerNoValue | encoding/form/encoding.go:334-337 | with no "prefix=" (or "suffix=") segment, that field stays empty |
| Tags.LastOccurrenceWins | encoding/form/encoding.go:334-337 | the last segment that carries a marker determines the field, whatever earlier segments said |
| Tags.LastMarkedSnoc | encoding/form/encoding.go:330-339 | one more segment overrides the field exactly when it carries the marker |
| Tags.MarkersExclusive | encoding/form/encoding.go:331-338 | a segment matches at most one of "omitempty", "prefix=" and "suffix=", so the order of the switch cases does not matter |
| Tags.ResolvedName | encoding/form/encoding.go:177-180 | the name a field answers to: the tag's name, or the declared name when the tag neither names nor ignores the field |
| Tags.Resolve | encoding/form/encoding.go:178-180 | only the name may change; the declared name is filled in exactly when the tag neither ignores the field nor names it |
| Tags.UntaggedName | encoding/form/encoding.go:177-180 | a field without a form tag answers to its declared name |
| Tags.TaggedName | encoding/form/encoding.go:177-181 | a field tagged with a plain name answers to that name |
| Tags.FindField | encoding/form/encoding.go:175-181 | the chosen field answers to the key and no earlier field does; no field is chosen exactly when none answers |
| Tags.FindFirst | encoding/form/encoding.go:175-181 | field i is chosen if and only if it is the first field in declaration order that answers to the key |
| Tags.DistinctNamesFound | encoding/form/encoding.go:175-181 | when fields answer to pairwise different keys, each key reaches its own field |
| Tags.Tags | encoding/form/encoding.go:97-114 | a non-struct yields no tags; a struct yields one resolved tag per declared field, in declaration order |
| Tags.TagOfName | encoding/form/encoding.go:321-328 | a one-segment tag that is a plain name sets only the name |
| Tags.TagOfEmpty | encoding/form/encoding.go:317-318 | the empty tag string is the zero tag |
| Tags.IgnoredFieldUnreachable | encoding/form/encoding.go:178-181 | no non-empty key reaches a field whose tag ignores it ("-" as first segment) |
| Tags.EmptyKeyReachesIgnored | encoding/form/encoding.go:178-181 | the empty key does reach an ignored field when no earlier field answers to "", because the ignored field's name stays empty |
| Tags.UnknownSegmentIgnored | encoding/form/encoding.go:330-339 | a later segment that is neither "omitempty" nor marked leaves the tag unchanged |
| Coercion.Empty | encoding/form/encoding.go:231-236 | true exactly for no values, or one value that is the empty string |
| Coercion.NumericText | encoding/form/encoding.go:246-249 | a numeric field is parsed from "0" when the submission is empty, and from its first value otherwise |
| Coercion.AssignToInt | encoding/form/encoding.go:278-289 | a failed ParseInt returns its error and leaves the field; a success stores the number; no other field changes |
| Coercion.AssignToUint | encoding/form/encoding.go:290-301 | the same for ParseUint and an unsigned field |
| Coercion.AssignToStructField | encoding/form/encoding.go:238-276 | the error and the new field value are the coercion for the field's kind, and only that field changes |
| Coercion.SuccessIgnoresCurrent | encoding/form/encoding.go:238-276 | a successful coercion stores a value that does not depend on what the field held |
| Coercion.NumericCoercion | encoding/form/encoding.go:245-256 | an empty submission stores zero; a parse failure reports a NumError naming the parsed text and keeps the field; otherwise success exactly when the first value parses, and the field holds the parsed number |
| Coercion.BoolCoercion | encoding/form/encoding.go:263-266 | a bool field is always set, to false when parsing fails, and an error comes back exactly when parsing fails |
| Coercion.FirstValueRequired | encoding/form/encoding.go:242-244 | a string or bool field given no value panics on the index and stores nothing |
| Coercion.UnsupportedKinds | encoding/form/encoding.go:267-275 | slices of other element types and unsupported kinds return an error and leave the field unchanged |
| Coercion.Coerce | encoding/form/encoding.go:241-275 | a failed coercion keeps the field's value, except that a bool field becomes false; the index panics happen exactly for a string or bool field given no value |
| Coercion.IntCoerced | encoding/form/encoding.go:283-288 | success exactly when ParseInt succeeds, storing the signed value; on failure a NumError for the parsed text with ParseInt's reason, and the field is kept |
| Coercion.UintCoerced | encoding/form/encoding.go:295-300 | the same for ParseUint and an unsigned field |
| Coercion.CoerceRoundTrip | encoding/form/encoding.go:238-276 | a value a supported kind can hold, written back as its canonical submission, is coerced to itself without error |
| Decode.CallIfPresent | encoding/form/encoding.go:186-200 | a method the struct lacks returns no error and assigns nothing |
| Decode.FieldEffect | encoding/form/encoding.go:182-214 | the effect of one field's key; on a type without methods it reports only a panic and changes no other field |
| Decode.StructEffect | encoding/form/encoding.go:175-218 | a key no field answers to returns nil and changes nothing; on a type without methods only a panic is reported |
| Decode.MapEffect | encoding/form/encoding.go:159-166 | at most the key's entry is added or replaced; every other entry stays |
| Decode.IsAnyMap | encoding/form/encoding.go:136-141 | only a map[string]interface{} handed over as a value is assigned into |
| Decode.Advance | encoding/form/encoding.go:119-128 | a stopped walk stays as it is; a running one collects at most one more validation error, keeping the earlier ones in order, and stops only on an error that is not a validation error |
| Decode.Run | encoding/form/encoding.go:119-130 | over several keys, the collected errors only grow, by at most one per key, and the walk stops only on a non-validation error |
| Decode.Outcome | encoding/form/encoding.go:129-132 | nil exactly when the walk is running with nothing collected; a running walk with collected errors returns a CompoundValidationError holding exactly them |
| Decode.Decoded | encoding/form/encoding.go:116-133 | at most one validation error per key is collected, and walk never returns a bare *ValidationError |
| Decode.MapRun | encoding/form/encoding.go:116-133 | a map entry whose key is not submitted keeps its value, and every new entry is a submitted key |
| Decode.CallFormMethod | encoding/form/encoding.go:221-228 | the hook's error result is returned as is, and its assignments to the receiver take effect |
| Decode.AssignToStruct | encoding/form/encoding.go:170-219 | the field scan, validator, setter and coercion loop has exactly the effect of StructEffect: the error and the new field values |
| Decode.AssignToMap | encoding/form/encoding.go:150-168 | always returns nil; one value is stored as a string and several as a string list, where the map's element type admits that, and otherwise the map is unchanged |
| Decode.FindIn | encoding/form/encoding.go:135-148 | a struct, or a pointer to one, gets assignToStruct; a map[string]interface{} value gets assignToMap; anything else gets the "cannot be used to store values" error and is left unchanged |
| Decode.Walk | encoding/form/encoding.go:116-133 | the new fields and the result are those of running every key in order: validation errors collected, the first other error returned, a compound error exactly when some validation error was collected, nil otherwise (also for no keys at all) |
| Decode.Unmarshal | encoding/form/encoding.go:87-94 | rejects anything but a non-nil pointer before touching any key; otherwise decodes as walk does; a pointer to a non-struct fails on the first key |
| Decode.RunAppend | encoding/form/encoding.go:119-130 | running the keys of a and then those of b is running a followed by b |
| Decode.StoppedStaysStopped | encoding/form/encoding.go:129 | once stopped, further keys change neither the error nor the fields |
| Decode.FatalErrorStops | encoding/form/encoding.go:121-129 | after a non-validation error no later key is processed: the outcome and the fields are those at that key |
| Decode.StoppedAt | encoding/form/encoding.go:129 | a walk that stopped at key j ends as it stood at key j |
| DecodeFacts.KeyResolution | encoding/form/encoding.go:175-181 | a key reaches only the first field answering to it; a key no field answers to leaves the struct unchanged and returns nil |
| Decode.ValidatorName | encoding/form/encoding.go:182 | the validator is the method "FormValidate" followed by the declared field name |
| Decode.SetterName | encoding/form/encoding.go:183 | the setter is the method "FormSet" followed by the declared field name |
| DecodeFacts.HooksByDeclaredName | encoding/form/encoding.go:182-183 | only the two methods named after the declared field name matter, and the tag plays no part once the field is chosen |
| DecodeFacts.HookNamesDiffer | encoding/form/encoding.go:182-183 | a validator name is never a setter name |
| DecodeFacts.HookNamesInjective | encoding/form/encoding.go:182-183 | different fields have different validator and setter names |
| DecodeFacts.ValidatorFailureStops | encoding/form/encoding.go:186-195 | a failing validator's error is the key's result and nothing is coerced; a validator that assigns nothing leaves the struct unchanged |
| DecodeFacts.ValidatorFailureSkipsSetter | encoding/form/encoding.go:190-200 | after a failing validator the setter is never called: removing it changes nothing |
| DecodeFacts.SetterReplacesCoercion | encoding/form/encoding.go:200-204 | with a setter, the setter's result is returned as is and the field's kind plays no part |
| DecodeFacts.CoercionErrorsDropped | encoding/form/encoding.go:205-214 | without a setter, the coerced value is stored and the result is nil, except for the index panic of a string or bool field given no value |
| DecodeFacts.NoHooksEffect | encoding/form/encoding.go:205-214 | on a type without methods a key's effect is plain coercion of its field, reporting only a panic |
| DecodeFacts.MapAssignment | encoding/form/encoding.go:159-166 | only the key's entry can change; the single-value, many-value, no-value and wrong-element-type cases are each spelled out |
| DecodeFacts.IndependentWalk | encoding/form/encoding.go:116-133 | when no key is fatal and no two keys assign the same field, the walk collects every validation error in key order, each assigned field ends with its key's value, and every other field keeps its value |
| DecodeFacts.StepOnRunning | encoding/form/encoding.go:120-126 | a non-fatal key keeps the walk running and appends its validation error, if any |
| DecodeFacts.CollectedCount | encoding/form/encoding.go:116-128 | the number of collected errors is the number of submitted entries that fail validation, whatever their order |
| DecodeFacts.CollectedMembers | encoding/form/encoding.go:122-124 | every validation error of a submitted entry is among those collected |
| DecodeFacts.EncodedFieldStep | encoding/form/encoding.go:205-214 | on a type without methods, a field's canonical text sets exactly that field to its value, without error |
| DecodeFacts.RecordEntryStep | encoding/form/encoding.go:175-214 | each entry of an encoded record sets the field it names, without error, on every state of the struct |
| DecodeFacts.SlotsDistinct | encoding/form/encoding.go:175-181 | entries under different keys never reach the same field |
| DecodeFacts.RecordKeys | encoding/form/encoding.go:116-128 | the entries of an encoded record, in any order, raise no error and assign pairwise different fields |
| DecodeFacts.RecordFieldAssigned | encoding/form/encoding.go:175-181 | every field of an encoded record is reached by one of its entries |
| DecodeFacts.RecordValuesMatch | encoding/form/encoding.go:116-128 | fields that each hold their entry's value are the encoded values |
| DecodeFacts.RecordRoundTrip | encoding/form/encoding.go:116-133 | on a type without methods whose fields answer to different keys, submitting every field's value as its canonical text decodes, in any key order, into a zero struct with no error and exactly those values |
| DecodeFacts.UnmarshalEncoded | encoding/form/encoding.go:87-94 | Unmarshal of such a form into a new struct returns nil and leaves exactly the encoded values |
| DecodeFacts.CollectedNone | encoding/form/encoding.go:130-132 | when no entry fails validation, nothing is collected, so walk returns nil |
| Fixtures.FormValidateState | encoding/form/encoding_test.go:266-274 | no value or an empty one gives "state is required"; only "Illinois" passes; the hook assigns nothing |
| Fixtures.FormValidateStreet | encoding/form/encoding_test.go:276-281 | fails exactly on "FAIL"; with no value the index panics; assigns nothing |
| Fixtures.FormSetCity | encoding/form/encoding_test.go:283-290 | no value gives an error and assigns nothing; otherwise it sets only City, to the lower-cased first value |
| Fixtures.AddressHooks | encoding/form/encoding_test.go:259-290 | FixtureAddress has exactly the Street and State validators and the City setter |
| Fixtures.AddressNames | encoding/form/encoding_test.go:259-264 | the four fields answer to street, city, state and zip |
| Fixtures.AddressFields | encoding/form/encoding_test.go:259-264 | each of those keys reaches its own field |
| Fixtures.ZipCoerced | encoding/form/encoding_test.go:252-254 | "60626" coerces to the int 60626 |
| Fixtures.GlenviewLower | encoding/form/encoding_test.go:288 | "Glenview" lower-cases to "glenview" |
| Fixtures.StreetField | encoding/form/encoding_test.go:276-281 | a street key runs FormValidateStreet and then plain string assignment |
| Fixtures.CityField | encoding/form/encoding_test.go:283-290 | a city key is decided by FormSetCity alone |
| Fixtures.StateField | encoding/form/encoding_test.go:266-274 | a state key runs FormValidateState and then plain string assignment |
| Fixtures.ZipField | encoding/form/encoding_test.go:259-264 | a zip key is plain int coercion, with errors dropped |
| Fixtures.StreetStep | encoding/form/encoding_test.go:276-281 | any street other than "FAIL" is stored without error, on every state of the struct |
| Fixtures.StreetFailStep | encoding/form/encoding_test.go:276-281 | "FAIL" is rejected with the street validation error and nothing changes |
| Fixtures.CityStep | encoding/form/encoding_test.go:283-290 | "Glenview" is stored as "glenview" without error |
| Fixtures.CityMissingStep | encoding/form/encoding_test.go:283-286 | a city key without values fails with the setter's plain error and nothing changes |
| Fixtures.StateStep | encoding/form/encoding_test.go:266-274 | "Illinois" is stored without error |
| Fixtures.StateEmptyStep | encoding/form/encoding_test.go:266-270 | an empty state is rejected with "state is required" and nothing changes |
| Fixtures.ZipStep | encoding/form/encoding_test.go:252-254 | "60626" is stored as the int 60626 without error |
| Fixtures.EntryStep | encoding/form/encoding_test.go:246-348 | each entry submitted by the three Unmarshal tests has one fixed effect on every FixtureAddress state |
| Fixtures.FixtureAddressLike | encoding/form/encoding_test.go:259-290 | FixtureAddress gives every such entry that effect |
| Fixtures.AddressRunning | encoding/form/encoding.go:116-128 | non-fatal entries under distinct keys keep the walk running and collect exactly their validation errors |
| Fixtures.AddressSlot | encoding/form/encoding.go:116-128 | after such a walk, each entry that assigns a field leaves its value there |
| Fixtures.AddressUntouched | encoding/form/encoding.go:116-128 | after such a walk, a field no entry assigns keeps its value |
| Fixtures.FormDataWalk | encoding/form/encoding_test.go:292-311 | on any type that behaves like FixtureAddress, the fixture form data in any order decodes without error into the expected four fields |
| Fixtures.UnmarshalDecoded | encoding/form/encoding_test.go:292-311 | the same for FixtureAddress itself: Street "1234 Long St.", City "glenview", State "Illinois", Zip 60626 |
| Fixtures.ValidatorFlagged | encoding/form/encoding_test.go:313-335 | the entries that fail validation are exactly the street "FAIL" and the empty state |
| Fixtures.ValidatorCollected | encoding/form/encoding_test.go:313-335 | exactly those two errors are collected, in either order |
| Fixtures.ValidatorAssigned | encoding/form/encoding_test.go:313-335 | the city and the ZIP code still take their values |
| Fixtures.ValidatorUntouched | encoding/form/encoding_test.go:313-335 | the rejected street and state keep their zero values |
| Fixtures.ValidatorValues | encoding/form/encoding_test.go:313-335 | the four fields after the walk |
| Fixtures.ValidatorWalk | encoding/form/encoding_test.go:313-335 | on any FixtureAddress-like type, the walk keeps running with exactly two validation errors and the expected fields |
| Fixtures.ValidatorDecoded | encoding/form/encoding_test.go:313-335 | the same for FixtureAddress itself, in whatever order the keys come |
| Fixtures.BeforeCity | encoding/form/encoding_test.go:337-348 | the keys before the empty city key are all non-fatal |
| Fixtures.CityStops | encoding/form/encoding_test.go:283-286 | the empty city key stops a running walk with the setter's error and leaves the fields |
| Fixtures.StopsAtCity | encoding/form/encoding_test.go:337-348 | the walk up to and including the city key has stopped with that error |
| Fixtures.CityIndex | encoding/form/encoding_test.go:337-348 | every ordering of the setter test's form contains the empty city key |
| Fixtures.SetterWalk | encoding/form/encoding_test.go:337-348 | on any FixtureAddress-like type, the walk ends with the setter's plain error, in any key order |
| Fixtures.SetterDecoded | encoding/form/encoding_test.go:337-348 | the same for FixtureAddress itself |
| Scenarios.UnmarshalScenario | encoding/form/encoding_test.go:292-311 | Unmarshal of the fixture form data into a new FixtureAddress returns nil and sets all four fields as expected |
| Scenarios.UnmarshalValidatorScenario | encoding/form/encoding_test.go:313-335 | Unmarshal returns a CompoundValidationError with Len 2 holding the street and state errors, and the city and ZIP code are still set |
| Scenarios.UnmarshalSetterScenario | encoding/form/encoding_test.go:337-348 | Unmarshal returns FormSetCity's error itself, which is not a CompoundValidationError |
| Scenarios.TagsScenario | encoding/form/encoding_test.go:133-139 | Tags of a FixtureAddress value has four entries, named street, city, state and zip |
| Scenarios.AssignToMapScenario | encoding/form/encoding_test.go:141-159 | one value is stored as "first" under "test" without error; two values for a map[string]string are dropped, still without error |
| Scenarios.IntSourcesDecimal | encoding/form/encoding_test.go:178-182 | each source numeral is a canonical decimal within int64 |
| Scenarios.IntSourceCoerced | encoding/form/encoding_test.go:185-191 | each source coerces into an int field without error, to a number that prints as the source |
| Scenarios.StoreIntSource | encoding/form/encoding_test.go:185-191 | one case: assignToInt of the source returns nil and the field then prints as the source |
| Scenarios.AssignToIntScenario | encoding/form/encoding_test.go:169-193 | each source numeral is stored into its int field without error, and the field then prints as the source |
| Scenarios.AssignmentTestStruct | encoding/form/encoding_test.go:195-202 | six fields and no methods |
| Scenarios.AssignmentName | encoding/form/encoding_test.go:195-202 | FirstName answers to its tag first_name, and each other field to its declared name |
| Scenarios.AssignmentKeysDistinct | encoding/form/encoding_test.go:208-241 | the six keys are pairwise different |
| Scenarios.AssignmentFields | encoding/form/encoding_test.go:204-244 | each of the six keys reaches its own field |
| Scenarios.YearParses | encoding/form/encoding_test.go:222-227 | "1999" parses as the unsigned 1999 |
| Scenarios.AssignmentStep | encoding/form/encoding.go:205-214 | a key of AssignmentTestStruct whose values coerce without error sets exactly its field, on every state |
| Scenarios.StringAssignments | encoding/form/encoding_test.go:204-244 | FirstName, LastName and Nicknames take "Matt", "Butcher" and the three nicknames verbatim |
| Scenarios.ParsedAssignments | encoding/form/encoding_test.go:204-244 | Year becomes 1999, Speed 1.23 (given a float parser that reads it) and IsUseless true |
| Scenarios.YearAssigned | encoding/form/encoding_test.go:222-227 | the key Year with "1999" stores the unsigned 1999 without error |
| Scenarios.SpeedAssigned | encoding/form/encoding_test.go:228-233 | the key Speed with "1.23" stores 1.23 without error, given a float parser that reads it |
| Scenarios.UselessAssigned | encoding/form/encoding_test.go:234-239 | the key IsUseless with "true" stores true without error |
| Scenarios.AssignToStructScenario | encoding/form/encoding_test.go:204-244 | the six assignToStruct calls on one struct value return nil and leave the six expected field values |
| Scenarios.FirstCharDiffers | encoding/form/encoding.go:334-336 | a segment whose first character differs from the marker's does not carry that marker |
| Scenarios.TreeTailMarks | encoding/form/encoding_test.go:97-106 | the later segments "prefix=pre_", "suffix=suf_" and "omitempty" give Prefix pre_, Suffix suf_ and Omit |
| Scenarios.OmitTag | encoding/form/encoding_test.go:87-91 | "first_name,omitempty" sets the name and Omit only |
| Scenarios.IgnoreTag | encoding/form/encoding_test.go:92-96 | "-" sets only Ignore |
| Scenarios.TreeTag | encoding/form/encoding_test.go:97-101 | "name,prefix=pre_,suffix=suf_,omitempty" sets the name, both markers and Omit |
| Scenarios.GroupTag | encoding/form/encoding_test.go:102-106 | "+,prefix=pre_,suffix=suf_,omitempty" sets Group, both markers and Omit, and no name |
| Scenarios.TreeSegments | encoding/form/encoding_test.go:97-106 | a first segment "name" or "+" followed by those later segments gives the tag the test expects |
| Scenarios.ParseTagScenario | encoding/form/encoding_test.go:76-131 | parseTag on the five test strings gives exactly the five expected tags |

## Left out

- Reflection (`MethodByName`, `FieldByName`, `Method.Func.Call`) is not modelled. An explicit schema stands in for it: declared fields, raw tags, kinds and a map of hook functions.
- `CanSet` and the "cannot set" error at encoding/form/encoding.go:280-282 and 292-294 are not modelled. Every field in the model is settable, because reflection is outside it.
- Value versus pointer receiver method sets are not modelled. A struct handed over by value stands for the addressable value `reflect.Indirect` gives.
- Strconv.ParseInt and Strconv.ParseUint cover only strconv's base-0 syntax for decimal numerals. Go reads a longer numeral that starts with 0, or one with a 0x, 0o or 0b prefix, in another radix, and accepts underscores between digits. The model reports all of these as syntax errors.
- GoStrings.ToLower lowers only the ASCII letters A to Z. Go's strings.ToLower also lowers every other Unicode upper-case letter. Fixtures.FormSetCity inherits this restriction for a city name with non-ASCII capitals.
- Coercion.AssignToInt, Coercion.AssignToUint, Coercion.IntCoerced, Coercion.UintCoerced and Coercion.Coerce do not model the truncation that `SetInt` and `SetUint` apply to narrow fields. Any int64 or uint64 value is stored as it is, whatever the field's width.
- Floating-point parsing is not modelled. A float field carries the parser that stands in for `strconv.ParseFloat`, and only the choice between "0" and the first value is modelled.
- NumError messages, the text of an `Invalid` call built with `Sprintf`, and the "failed map assignment" text are not modelled. Errors are compared by constructor and fields.
- Panics are values (`Error.Panic`) and do not unwind. The index panics on an empty list (encoding/form/encoding.go:243 and 264, and FormValidateStreet) come back from assignToStruct as that value. Map-assignment panics are recovered inside `Decode.MapEffect`, which leaves the map as it was.
- Hooks assign fields by index through a map of writes. A hook that keeps a reference to the submitted slice (Go aliasing) is not representable.
- `Tags.Tags` excludes a nil pointer, because `reflect.Indirect` gives a zero Value there and its `Type()` panics (encoding/form/encoding.go:98). Values and non-nil pointers are accepted.
- The console output is left out: the `Printf` calls at encoding/form/encoding.go:154 and 217 and encoding/form/encoding_test.go:288, and the `LogDebug`-guarded `log.Printf` calls.
- The `Errors()` accessor of CompoundValidationError is not a separate member. The collected list is the datatype's `errs` field.
- The unused `Tag` fields `validator` and `unmarshaler` and the `FieldUnmarshaler`, `Validator` and `Setter` types are left out. Nothing in the decoder reads them.
- Group, prefix and suffix nested decoding is left out. Those tag fields are parsed but have no effect on decoding.
- `_example/person.go`, `ExampleUnmarshal` and the commented-out test at encoding/form/encoding_test.go:46-74 are left out. None of them asserts anything.
- `url.Values` is an explicit list of pairs with distinct keys. The test forms are literals, one value per key, which is what `url.Values.Set` leaves.
- `TestUnmarshal` itself checks only Street, City and Zip. The model also proves the State field's value.
- `Fixtures.FormValidateStreet` models the index panic on an empty list, which the Go method has since it reads `vs[0]`.
