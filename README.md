# envconfig in Dafny

A model of `envconfig.Process`, which fills the fields of a Go struct from
environment variables, together with its error types (`ParseError`,
`RequiredError`, `MultiError`, `ErrInvalidSpecification`).

For every settable field that carries an `envconfig` tag, `Process`:
- derives the key `strings.ToUpper(prefix + "_" + tag)`;
- reads the variable, falling back to the `default` tag when the value is empty;
- on an empty value, records a `RequiredError` when `required` is `"true"`, and otherwise skips the field;
- converts the value by the field's kind and assigns it, or records a `ParseError`;
- processes a nested struct field under the key as its new prefix. A failure there returns at once.

The errors collected are returned as one `MultiError`, in field order, or
nil when there are none.

The project has these modules:
- `Schema` (schema.dfy): Go reflection replaced by data.
  - `Kind` mirrors `reflect.Kind`.
  - `Field` is one field of a struct type: settable flag, kind, type name and the three tags.
  - `Value` is the value a field holds.
  - `Env` is the environment, a map.
  - `Library` holds the two library routines the model takes as parameters: `strconv.ParseFloat` and `url.Parse`.
- `Strconv` (strconv.dfy): `strconv.ParseInt`, `ParseUint` and `ParseBool`.
  - The numeric parsers follow Go's base-0 rules: the `0b`, `0o`, `0x` and `0` prefixes, and underscores only between digits, where a base prefix counts as a digit (so `1_000` reads as 1000 and `_1` fails).
  - Their result must fit the bit size, or they fail.
  - Round trips from the decimal formatters are proved.
- `Text` (text.dfy): `strings.ToUpper` on ASCII.
- `Errors` (errors.dfy): the error values and their `Error()` texts.
  - `MultiErrorText` is the string-building loop of `MultiError.Error`.
  - It is proved equal to a specification, whose line structure is proved as well.
- `EnvConfig` (envconfig.dfy): `Process` itself.
  - The target is the class `Spec`, whose `value` the methods assign through `SetField`.
  - `Process` is the field loop. `ProcessField` is the loop body up to the kind switch. `AssignValue` is the switch.
  - Go's `continue` is a return from `ProcessField`/`AssignValue` with no error. The early `return err` is a return with `nestedErr` set.
  - The three methods are proved against the functional specification `ProcessSpec`, built from `Walk`, `Next`, `FieldStep` and `Convert`.
- `Properties` (properties.dfy): what `Process` promises, stated over `ProcessSpec`.

The code is followed where a plain reading of the package's description would differ:
- `ParseError.FieldName` holds the tag value, not the Go field name (envconfig.go:95).
- The default is used whenever the variable's value is empty, whether it is unset or set to "" (envconfig.go:73).
- `uint32` has no case in the kind switch, so a `uint32` field is never assigned and never yields a `ParseError` (envconfig.go:102).
- A nested struct can never fail with `ErrInvalidSpecification`: its kind is a struct by construction.
  - What aborts the outer call is the nested call's own `MultiError`, returned as it is (envconfig.go:116-118).
  - The errors of earlier sibling fields are dropped.
- A nested struct field is given a fresh zero struct, filled by the recursive call (envconfig.go:115-119). Whatever it held before is discarded.

## Model

| member | source | states |
|---|---|---|
| EnvConfig.Process | envconfig.go:55-160 | the new target value and the returned error are exactly those of `ProcessSpec` on the old value, and the target keeps one value per field |
| EnvConfig.ProcessField | envconfig.go:63-86 | one pass of the loop body (settable and tag check, key, lookup, default, required) changes the fields and the error list as `FieldStep` says, and reports a nested error exactly when the step aborts |
| EnvConfig.AssignValue | envconfig.go:87-152 | the kind switch assigns the field, appends a ParseError, does nothing, or returns a nested error, as `Convert` says |
| EnvConfig.Spec.SetField | envconfig.go:89-148 | assigning field i through reflection changes field i to v and leaves every other field as it was |
| EnvConfig.Spec.constructor | envconfig.go:56 | the target holds the given value of the given type |
| EnvConfig.Key | envconfig.go:69 | the key is upper case, as long as prefix, "_" and tag together, with "_" right after the prefix |
| EnvConfig.Resolve | envconfig.go:72-75 | a non-empty variable value is used as it is; an empty one is replaced by the default tag |
| EnvConfig.AbortedStays | envconfig.go:116-118 | once a nested error has returned, later fields change neither the target nor the result |
| EnvConfig.ProcessConforms | envconfig.go:87-152 | every value Process assigns has the kind of its field, recursively through nested structs |
| Properties.NotAStruct | envconfig.go:56-59 | a target that is not a struct yields ErrInvalidSpecification and is left unchanged |
| Properties.KeyNesting | envconfig.go:115-116 | the key of an inner field is prefix, outer tag and inner tag joined by "_" and upper-cased once |
| Properties.KeyNestingUpper | envconfig.go:69 | with an upper-case prefix and upper-case tags, the nested key is prefix_outer_inner as written; APP, DB and HOST give APP_DB_HOST |
| Properties.UntaggedFieldSkipped | envconfig.go:64-68 | a field that cannot be set, or has no envconfig tag, is skipped with no error |
| Properties.UntaggedFieldKept | envconfig.go:64-68 | after the whole call such a field still holds its old value |
| Properties.EmptyValueStep | envconfig.go:77-85 | an empty non-struct field with no default is left alone, and yields one RequiredError for its key exactly when `required` is "true" |
| Properties.DefaultAsValue | envconfig.go:72-75 | when the variable is empty, the field is processed as if the variable held the default tag |
| Properties.ParseFailureStep | envconfig.go:90-143 | an int, uint, bool or float field's value fails to convert exactly when the step is one ParseError carrying the key, the tag value, the type name and the raw value |
| Properties.Uint32NeverSet | envconfig.go:102 | a uint32 field is never assigned and never yields a ParseError: it is skipped, or yields only its RequiredError |
| Properties.UnhandledKindSilent | envconfig.go:144-152 | a field of a kind the switch has no case for (a kind the model calls Other, or a pointer to anything but url.URL) is never assigned and never yields a ParseError: it is skipped, or yields only its RequiredError |
| Properties.UrlParseFailureSilent | envconfig.go:144-150 | a *url.URL field whose value url.Parse rejects is left alone without a ParseError |
| Properties.UrlFieldStep | envconfig.go:144-150 | a *url.URL field is assigned the URL parsed from its value exactly when url.Parse accepts it |
| Properties.FloatFieldStep | envconfig.go:132-143 | a float field takes a number exactly when ParseFloat reads that number from the value at the field's bit size |
| Properties.StructFieldStep | envconfig.go:114-119 | a struct field is processed even with an empty value: a zero struct goes through Process under the field's key, and it either becomes the field's value or its error ends the outer call |
| Properties.StringFieldRoundTrip | envconfig.go:88-89 | a string field takes the variable's non-empty text unchanged |
| Properties.IntFieldRoundTrip | envconfig.go:90-101 | a signed field whose variable holds the decimal text of n takes n if n fits the field's width, and yields a ParseError otherwise |
| Properties.UintFieldRoundTrip | envconfig.go:102-113 | an unsigned field (not uint32) whose variable holds the decimal text of n takes n if n fits the field's width, and yields a ParseError otherwise |
| Properties.BoolFieldRoundTrip | envconfig.go:120-131 | a bool field whose variable holds "true" or "false" takes that value |
| Properties.ProcessCharacterized | envconfig.go:60-159 | let k be the first field whose nested struct failed. Fields before k take their converted values and every other field keeps its value. The result is field k's nested error, or else nil with no errors, or else the MultiError of all recorded errors in field order |
| Properties.NilIffNoErrors | envconfig.go:156-159 | Process returns nil exactly when no field recorded an error and no nested struct failed |
| Properties.ProcessErrorShape | envconfig.go:116-118 | every error Process returns for a struct target is a MultiError with at least one entry |
| Properties.StepErrorShape | envconfig.go:114-119 | a nested struct field can only abort with a non-empty MultiError, never with ErrInvalidSpecification |
| EnvConfig.ProcessSpec | envconfig.go:55-160 | the whole call as a function: a target that is not a struct gives ErrInvalidSpecification, a struct runs the field loop and returns its nested error, nil, or the MultiError of the recorded errors; the result keeps one value per field |
| EnvConfig.Walk | envconfig.go:60-154 | the field loop over the first n fields; it keeps one value per field and, while it has not returned early, holds at most one recorded error per field seen |
| EnvConfig.Next | envconfig.go:62-154 | one iteration applied to the loop state: after an early return nothing changes; otherwise a step assigns one field, appends one error, or returns early |
| EnvConfig.FieldStep | envconfig.go:63-152 | one pass of the loop body as a value: a field that cannot be set or has no tag is skipped, every recorded error carries the field's key, and only a struct field can end the call |
| EnvConfig.Convert | envconfig.go:87-152 | the kind switch as a value: every ParseError it records carries the key, the tag value, the type name and the raw value; only a struct field can end the call; a uint32 field or a field of a kind the model calls Other is never assigned |
| Schema.Getenv | envconfig.go:70 | os.Getenv on the environment map: the variable's value when it is set, "" when it is not |
| Errors.ParseMessage | envconfig.go:29-31 | ParseError.Error: "envconfig.Process: assigning " key " to " tag-value ": converting '" raw value "' to type " type name |
| Errors.ParseMessageEnds | envconfig.go:29-31 | the key can be read back right after the fixed opening of a ParseError text, and the type name at its end |
| Errors.RequiredMessage | envconfig.go:39-41 | RequiredError.Error: "envconfig.Process: required key " key " not found" |
| Errors.MultiErrorText | envconfig.go:45-51 | the loop builds "[\n", then " - " + message + "\n" per error in order, then "]" |
| Errors.MultiErrorLines | envconfig.go:45-51 | when no message contains a newline, the text's lines are "[", one " - " + message per error in order, and "]" |
| Errors.RequiredMessageKey | envconfig.go:39-41 | the RequiredError text embeds the key between its fixed prefix and suffix, so the key can be read back from it |
| Strconv.ParseInt | envconfig.go:91 | a parsed value lies in the signed range of the bit size; the empty text never parses |
| Strconv.ParseUint | envconfig.go:103 | a parsed value lies below 2 to the bit size; the empty text never parses |
| Strconv.ParseBool | envconfig.go:121 | true exactly for 1, t, T, TRUE, true, True; false exactly for 0, f, F, FALSE, false, False; an error otherwise |
| Strconv.IntRoundTrip | envconfig.go:91 | ParseInt of the decimal text of n gives n when n fits the bit size, and fails otherwise |
| Strconv.UintRoundTrip | envconfig.go:103 | ParseUint of the decimal text of n gives n when n fits the bit size, and fails otherwise |
| Strconv.BoolRoundTrip | envconfig.go:121 | ParseBool reads back the text FormatBool writes |
| Schema.Zero | envconfig.go:115 | the zero value of a kind has that kind, and a zero struct has one value per field |
| Schema.Bits | envconfig.go:91 | a numeric kind's bit size is between 8 and 64 |
| Text.ToUpperAppend | envconfig.go:69 | upper-casing distributes over concatenation |
| Text.ToUpperIdempotent | envconfig.go:69 | upper-casing an upper-cased key changes nothing |

## Left out

- Go reflection (`reflect.ValueOf`, `Elem`, `CanSet`, `Tag.Get`, `reflect.New`) is replaced by the `Kind`/`Field` schema and the `Value` datatype.
  - An argument that is not a pointer (or an untyped nil) makes `Elem` panic; the model's `Spec` is always a pointer. A typed nil pointer gives a zero `reflect.Value` whose kind is not a struct, so it behaves like any target that is not a struct (`Properties.NotAStruct`).
- `os.Getenv` is a lookup in an `Env` map passed in, where a missing key reads as "". The environment does not change during a call.
- `strconv.ParseFloat` is the `parseFloat` parameter of `Library`, and floats are opaque 64-bit patterns. Float parsing and rounding are not modelled.
- `url.Parse` is the `urlParses` parameter of `Library`. A parsed URL is kept as the text it came from; its components are not modelled.
- Strconv.ParseInt: bit size 1 is not modelled (its requires starts at 2). At bit size 1 Go's `ParseInt` goes on with the maximum that `ParseUint` reports on overflow, and so accepts some out-of-range negative texts. `Process` never asks for fewer than 8 bits.
- Strconv.IntRoundTrip: stated from bit size 2, for the same reason.
- `strconv.ParseInt`/`ParseUint` collapse Go's `*NumError` (syntax versus range) to a failure, since `Process` discards the error. `strconv.IntSize` is fixed at 64.
- `Text.ToUpper` maps ASCII letters only; Unicode case mapping is not modelled.
- Field kinds the switch ignores (maps, slices, interfaces, pointers other than `*url.URL`) hold an opaque `Value` that `Process` never touches. A `uint32` field holds an unsigned value that `Process` never changes.
- `EnvConfig.Spec.Valid` states only that a struct target has one value per field. That every field value has its field's kind is `EnvConfig.ProcessConforms`, proved on the specification.
- The `Error()` texts of `ParseError` and `RequiredError` are the `fmt.Sprintf` formats written out as concatenations of strings; `%s` of an arbitrary error is not modelled.
- Concurrent use of the environment or of the target is not modelled.
