# phi request validation, in Dafny

phi is a small Go HTTP toolkit. This project models three parts of it:

- the **required-field walker** of `validate.go`. It walks a decoded request body through package `reflect` and collects the path of every field whose `json` tag says `required` and that holds Go's zero value.
- the **request helpers** of `request.go`:
  - `Validate` and `ValidateString`, which decode a body and make a flat check of the root struct's required fields;
  - `URLParam` and `QueryParam`, which turn an empty lookup into a typed error.
- the **error records** of `errors.go`: the preset errors and the constructors.

The model is organised by module:

- `Values` (values.dfy) is what the walker sees of a Go value:
  - a `Value` datatype with one constructor per kind. Nil slices, maps and pointers are constructors of their own.
  - `IsZero`, which works as `reflect.Value.IsZero` does.
  - the tag helpers: `IsRequired` is `strings.Contains(tag, "required")`, and `JsonName` is the tag text before the first comma.
- `Strings` (strings.dfy) holds the parts of `strings` and `fmt` the code relies on: `Contains`, `Split`, `Join`, and the `%d` rendering of an index.
- `Walker` (validate.dfy) does the walk in two forms:
  - `Violations` is the pure specification of the paths reported from a prefix.
  - `HandleResolve`, `HandleStruct`, `HandleSliceArray` and `HandleMap` are the imperative walk. It threads one shared `PathList` object, Go's `errs *[]string`, and appends to it in place. Each method is proved to append exactly `Violations`.
- `WalkProperties` (walk_properties.dfy) proves what the walk guarantees:
  - pointer transparency;
  - that every path extends its prefix;
  - that a path is reported exactly when it is the path of a reachable required field holding a zero value;
  - that nothing is reported exactly when every reachable required field is filled;
  - the visiting order;
  - that enumerating any of a value's maps in another order changes only the order of the paths.
- `Request` (request.dfy) models the two validators as loops. Both are proved against one outcome function. It also models the parameter lookups.
- `Errors` (errors.dfy) models the `Error` record, its presets and its constructors.
- `Scenarios` (scenarios.dfy) gives the exact path lists that `validate_test.go` expects from the walk.

## Model

| member | source | states |
|---|---|---|
| Values.KindOf | validate.go:11 | definition: `reflect.Kind` of a value, with nil and non-nil containers of one kind; `Walker.SliceGuardNeverFires` is stated over it |
| Values.IsZero | validate.go:48 | definition: `reflect.Value.IsZero`, nil containers zero, non-nil ones not, structs and arrays zero when all their parts are; `WalkProperties.EmptyContainersNotMissing` and `WalkProperties.ReorderedZero` are stated over it |
| Values.IsRequired | validate.go:48 | definition: `strings.Contains(tag, "required")`; `Values.RequiredAnywhere` proves the substring reading |
| Values.JsonName | validate.go:42 | the name is a prefix of the tag and holds no comma; it is either the whole tag or is followed by a comma in the tag |
| Values.JsonNameBeforeComma | validate.go:42 | when the first comma of the tag is at position k, the name is exactly the text before it |
| Values.JsonNameWhole | validate.go:42 | a tag without a comma is its own name |
| Values.RequiredAnywhere | validate.go:48 | "required" marks a field wherever it occurs in the tag, including `name,requiredX` |
| Strings.ContainsOccurs | validate.go:48 | `Contains(s, sub)` holds exactly when `sub` occurs at some position of `s` |
| Strings.NotContainsFirst | validate.go:48 | a string in which no possible start position holds the first character of `sub` does not contain `sub` |
| Strings.Contains | validate.go:48 | definition: `strings.Contains`, comparing against each suffix; `Strings.ContainsOccurs` proves it equal to an occurrence |
| Strings.Join | request.go:88 | definition: `strings.Join`; `Strings.Split` and `Strings.SplitJoin` prove it the inverse of `Split` |
| Strings.IndexOf | validate.go:42 | the result is the position of the first occurrence of the character, or the length when there is none |
| Strings.Split | validate.go:42 | there is at least one piece, no piece holds the separator, and joining the pieces with the separator gives the input back |
| Strings.SplitJoin | request.go:88 | splitting a join of comma-free pieces gives the pieces back |
| Strings.Decimal | validate.go:74 | `%d` of an index is a non-empty string of digits with no leading zero |
| Strings.DecimalRoundTrip | validate.go:74 | reading the digits of `%d` back gives the index |
| Strings.DecimalInjective | validate.go:74 | distinct indices render distinctly, so `[i]` segments never collide |
| Walker.FieldPath | validate.go:42-45 | definition: the json name, after `prefix.` unless the prefix is empty; `WalkProperties.UntaggedField` and `WalkProperties.StructExtendsPrefix` are stated over it |
| Walker.IndexPath | validate.go:74 | definition: `prefix[i]` with `%d` of i; `WalkProperties.SequenceExtendsPrefix` and `Strings.DecimalInjective` are stated over it |
| Walker.KeyPath | validate.go:89 | definition: `prefix[key]` with the rendered key; `WalkProperties.MapExtendsPrefix` is stated over it |
| Walker.Reported | validate.go:48 | definition: the field is marked required and holds a zero value |
| Walker.Violations | validate.go:10-34 | specification of the walk: the paths reported for a value at a prefix, by kind; `Walker.HandleResolve` is proved to append exactly this list, and `WalkProperties.ViolationsAreReportedFields` characterises each member |
| Walker.FieldViolations | validate.go:47-54 | specification of one field: its own path when reported, otherwise what its value reports under the field's path |
| Walker.StructViolations | validate.go:39-56 | specification of a struct's fields, field by field in declaration order; `Walker.HandleStruct` is proved against it |
| Walker.SequenceViolations | validate.go:73-77 | specification of a slice's or array's elements, under `[i]` in index order; `Walker.HandleSliceArray` is proved against it |
| Walker.MapViolations | validate.go:86-92 | specification of a map's entries, under `[key]` in the order given; `Walker.HandleMap` is proved against it |
| Walker.HandleResolve | validate.go:10-34 | appends exactly `Violations(prefix, data)` to the shared list, keeps what was there, and returns no error. Depending on the kind, it is a struct walk, an element walk, an entry walk, a dereference with the same prefix, silence for nil, or nothing for other kinds |
| Walker.HandleStruct | validate.go:37-59 | visits the fields in declaration order. It appends a field's own path when the field is required and zero, and otherwise appends what the field's value reports under that path. The new list is the old one followed by `StructViolations` |
| Walker.HandleSliceArray | validate.go:62-80 | visits the elements in index order under `prefix[i]`. A nil slice appends nothing. The new list is the old one followed by the element walk |
| Walker.HandleMap | validate.go:83-95 | visits the entries in the order given, under `prefix[key]`. A nil map appends nothing. The new list is the old one followed by the entry walk |
| Walker.SliceGuardNeverFires | validate.go:67-70 | the kind test in handleSliceArray passes for every value that handleResolve sends there |
| Walker.Walk | validate.go:10-34 | a walk from an empty list and an empty prefix yields exactly `Violations("", data)` |
| WalkProperties.PointersTransparent | validate.go:24-31 | any number of non-nil pointers around a value report what the value reports, under the same prefix |
| WalkProperties.NilBehindPointers | validate.go:24-31 | a nil pointer reached by the dispatcher reports nothing. A required field reports itself for a nil pointer, but not for a non-nil pointer to nil |
| WalkProperties.EmptyContainersNotMissing | validate.go:48 | a required field holding a nil slice or map is reported at its path; one holding an empty non-nil slice or map reports nothing |
| WalkProperties.UntaggedField | validate.go:42-45 | an untagged field is never required. Its value reports under `prefix.`, or under the empty prefix at the root, so its children render bare there |
| WalkProperties.ViolationsExtendPrefix | validate.go:10-95 | every reported path starts with the prefix. Under a non-empty prefix it is longer and continues with `.` or `[` |
| WalkProperties.StructExtendsPrefix | validate.go:43-45 | the same for the fields of a struct |
| WalkProperties.SequenceExtendsPrefix | validate.go:73-77 | the same for the elements of a slice or array |
| WalkProperties.MapExtendsPrefix | validate.go:86-92 | the same for the entries of a map |
| WalkProperties.NoViolationsIffClean | validate.go:10-95 | the walk reports nothing exactly when every required field reachable through fields, elements, entries and non-nil pointers holds a non-zero value |
| WalkProperties.ViolationsAreReportedFields | validate.go:10-95 | a path is in the list exactly when it is the path of a required field holding a zero value that the walk reaches (`ReportedAt`). So no such field is missed and no other path is reported |
| WalkProperties.FieldReportedFields | validate.go:47-54 | a path is in a field's contribution exactly when it is the field's own path and the field is reported, or is reported inside the field's value |
| WalkProperties.StructReportedFields | validate.go:39-56 | a path is in a struct's list exactly when some field contributes it |
| WalkProperties.StructReportedSound | validate.go:39-56 | a path of the first fields or of the last field belongs to some field |
| WalkProperties.StructReportedComplete | validate.go:39-56 | a path that some field contributes is in the struct's list |
| WalkProperties.SequenceReportedFields | validate.go:73-77 | a path is in a slice's or array's list exactly when some element `[i]` reports it |
| WalkProperties.MapReportedFields | validate.go:86-92 | a path is in a map's list exactly when some entry `[key]` reports it |
| WalkProperties.StructCleanIff | validate.go:39-56 | a struct reports nothing exactly when no field is reported and every field's value is clean |
| WalkProperties.SequenceCleanIff | validate.go:73-77 | a slice or array reports nothing exactly when every element is clean |
| WalkProperties.MapCleanIff | validate.go:86-92 | a map reports nothing exactly when every entry's value is clean |
| WalkProperties.StructInFieldOrder | validate.go:39-56 | the paths of the fields before i, followed by field i's own contribution, open the struct's list |
| WalkProperties.StructViolationsAppend | validate.go:39-56 | the fields of `a + b` report what `a` reports and then what `b` reports |
| WalkProperties.StructPrefixMonotone | validate.go:39-56 | what the first n fields report is a prefix of what all the fields report |
| WalkProperties.SequenceInIndexOrder | validate.go:73-77 | an array reports exactly what a slice with the same elements reports. The elements before i, then element i under `[i]`, open the list |
| WalkProperties.SequencePrefixMonotone | validate.go:73-77 | what the first n elements report is a prefix of the whole |
| WalkProperties.MapInEntryOrder | validate.go:86-92 | the entries before i, then entry i under `[key]`, open the map's list |
| WalkProperties.MapPrefixMonotone | validate.go:86-92 | what the first n entries report is a prefix of the whole |
| WalkProperties.MapViolationsAppend | validate.go:86-92 | the entries of `a + b` report what `a` reports and then what `b` reports |
| WalkProperties.MapRemoveOne | validate.go:86-92 | taking one entry out of a map removes exactly that entry's paths from the multiset of reported paths |
| WalkProperties.MapOrderIrrelevant | validate.go:86 | two enumerations of one map's entries report the same multiset of paths |
| WalkProperties.ReorderedSamePaths | validate.go:86-92 | a value whose maps are enumerated in another order, at any depth (`Reordered`), reports the same multiset of paths |
| WalkProperties.ReorderedZero | validate.go:48 | reordering maps does not change whether a value is zero |
| WalkProperties.FieldReorderedSamePaths | validate.go:47-54 | a field whose value is reordered contributes the same multiset of paths |
| WalkProperties.StructReorderedSamePaths | validate.go:39-56 | fields with the same tags and reordered values report the same multiset of paths |
| WalkProperties.SequenceReorderedSamePaths | validate.go:73-77 | elements reordered one by one report the same multiset of paths |
| WalkProperties.MapReorderedSamePaths | validate.go:86-92 | entries with the same keys in the same places and reordered values report the same multiset of paths |
| WalkProperties.ReorderedRefl | validate.go:86 | every value is a reordering of itself |
| WalkProperties.MapPermutationReordered | validate.go:86 | enumerating one map's entries in another order is a reordering in the sense of `Reordered` |
| Request.MissingFields | request.go:79-85 | definition: the json names of the required zero root fields, in declaration order; `Request.MissingFieldsMembers` and `Request.MissingFieldsCount` characterise it |
| Request.MissingMessage | request.go:88 | definition: `missing '` + names joined with "," + `'`; `Request.MessageNamesReadBack` proves the names can be read back |
| Request.BodyOutcome | request.go:69-92 | the result is a body or an error, never both. The decoding error appears exactly when decoding failed. Otherwise the decoded body comes back unchanged exactly when no root field is missing; if some are, the result is a 4xx missing-body-parameters error whose message lists the missing names |
| Request.Validate | request.go:69-92 | decoding failure, the flat loop over the root fields and the error message give exactly `BodyOutcome` |
| Request.ValidateString | request.go:101-126 | the same for a body given as a string |
| Request.ValidatorsAgree | request.go:101-126 | both validators give the same body and error for the same decoding result |
| Request.MissingFieldsMembers | request.go:79-85 | a name is listed exactly when some root field is required, is zero and has that name. No listed name holds a comma |
| Request.MissingFieldsCount | request.go:79-85 | one name is listed per reported root field |
| Request.FlatWithinDeep | request.go:79-85 | every name the flat check lists is also a path the recursive walk reports from the empty prefix |
| Request.MessageNamesReadBack | request.go:87-89 | the message has the form `missing '...'`, and splitting the quoted text at "," gives the missing names back in order |
| Request.URLParam | request.go:18-24 | no error exactly when the lookup found a non-empty value, which is then returned. Otherwise the result is "" and a missing-URL-parameter error whose message is the id |
| Request.QueryParam | request.go:27-33 | the same with a missing-query-parameter error |
| Errors.WritingError | errors.go:4-7 | definition: code `writingError`, message `error while writing response`, status 0; `Errors.PresetsCarryNoStatus` is stated over it |
| Errors.ParseError | errors.go:9-12 | definition: code `parseError`, message `error while parsing response`, status 0 |
| Errors.DecodingError | errors.go:14-17 | definition: code `decodingError`, message `error while decoding request body`, status 0 |
| Errors.ValidatingError | errors.go:27-33 | code `validatingError`, the error's text as message, status 400 |
| Errors.URLParameterError | errors.go:36-42 | code `missingURLParameters`, the argument as message, status 400 |
| Errors.QueryParameterError | errors.go:45-51 | code `missingQueryParameters`, the argument as message, status 400 |
| Errors.BodyParameterError | errors.go:54-60 | code `missingBodyParameters`, the argument as message, status 400 |
| Errors.UnknownError | errors.go:63-69 | code `unknownError`, the error's text as message, status 500 (a server error) |
| Errors.Unauthorized | errors.go:72-78 | code `unauthorized`, message `invalid token`, status 401 |
| Errors.PresetsCarryNoStatus | errors.go:3-18 | the three presets carry status 0, so they are neither client nor server errors. The decoding error's code differs from every constructor's code |
| Scenarios.RequiredTagFacts | validate_test.go:15 | the tag `name,required` marks its field required and names it `name` |
| Scenarios.BareTagFacts | validate_test.go:16 | a bare name without a comma, in which no `r` stands eight or more places before its end (`NoEarlyR`, so "required" cannot start in it), is not required and names its field with itself |
| Scenarios.TestTaggings | validate_test.go:14-17 | the test's two ways of writing a tag meet every assumption the scenarios make of them |
| Scenarios.RequiredStructPaths | validate_test.go:14-17 | at any prefix, an unfilled TestRequiredStruct reports `prefix.classicString` and a filled one reports nothing |
| Scenarios.BasicReportsNothing | validate_test.go:50-62 | a pointer to a TestStruct reports nothing |
| Scenarios.MissingParamReported | validate_test.go:64-71 | a pointer to an unfilled TestRequiredStruct reports `classicString` |
| Scenarios.SliceOfFilled | validate_test.go:74-80 | a pointer to a slice of two filled structs reports nothing |
| Scenarios.ArraySecondUnfilled | validate_test.go:82-93 | a pointer to an array whose second struct is unfilled reports `[1].classicString` |
| Scenarios.ComplexPaths | validate_test.go:96-154 | a TestComplexStruct filled as in TestComplex reports the twelve expected paths in the expected order |
| Scenarios.WeirdAllNil | validate_test.go:157-165 | an all-nil TestWeirdStruct reports `dumbString`, `weirdMap`, `crackSlice` and `wtfMap` |
| Scenarios.WeirdMapPaths | validate_test.go:169-171 | an int key renders unquoted: `weirdMap[1337].classicString` |
| Scenarios.CrackSlicePaths | validate_test.go:172-175 | nested slices behind pointers concatenate their indices: `crackSlice[1][1].classicString` |
| Scenarios.WtfMapPaths | validate_test.go:176-180 | nested maps concatenate their keys: `wtfMap[test1][test2].classicString` |
| Scenarios.WeirdNested | validate_test.go:167-185 | the second TestWeird value reports the four expected paths in order |
| Scenarios.RedundantPointer | validate_test.go:188-202 | a pointer to a pointer to an unfilled struct reports `classicString` |

### Behaviours worth knowing

- **A nil pointer behind a non-nil one reports nothing.** The zero test (validate.go:48) sees only a field's own value, and a non-nil pointer is not zero. The dispatcher then returns silently at the nil pointer (validate.go:26-28). `WalkProperties.NilBehindPointers` states this.
- **An empty non-nil slice or map is not zero.** `reflect.Value.IsZero` counts only a nil container as zero, so a required field holding an empty non-nil slice or map is not reported (validate.go:48). `WalkProperties.EmptyContainersNotMissing` states this.
- **`Validate` joins with "," and no space.** `Validate` and `ValidateString` join the missing names with "," (request.go:88, request.go:122). The ", " seen in validate_test.go's expected messages comes from the test helper that it calls.

## Left out

- JSON decoding (request.go:72, request.go:106) belongs to `encoding/json`. The validators receive its result as `Some(value)`, or `None` for a decode failure.
- `fmt`'s `%v` rendering of map keys (validate.go:89) is not modelled. Map keys arrive already rendered. `%d` of an index is modelled.
- Reflection failure modes are not modelled: panics on unexported fields, a nil interface at the root, and `NumField` on a non-struct `T`. The validators require a struct as the decoded body.
- Interface-typed fields are not modelled. A value's kind is its dynamic kind.
- Go's order of `MapKeys` is not modelled. Entries are walked in the order given. `WalkProperties.ReorderedSamePaths` shows that enumerating any of a value's maps, at any depth, in another order changes only the order of the paths.
- Scenarios.ComplexPaths: takes `classicMapSlicePtr`'s entries in the order the test literal lists them (`test1`, then `test2`). In Go that order is not fixed, so the sequence it states holds for that enumeration only; by `WalkProperties.ReorderedSamePaths` the multiset holds for every enumeration of every map in the value.
- The test helper `handleValidate` is not part of this model. The scenarios state the path lists that the walk hands it from the empty prefix, not its joined `missing '...'` messages.
- Scenarios: each lemma is stated for any pair of tag-writing functions that behave as `name,required` and `name` do (`Scenarios.Taggings`). `Scenarios.TestTaggings` shows that the test's tags are such a pair.
- `Validate` and `ValidateString` return `&decodingError` (request.go:73, request.go:107), a pointer to the package variable of errors.go:14. Every decode failure shares that one `*Error`, and a caller who changes it changes later results. The model returns the error as a value, so it does not capture this sharing.
- `ValidatingError` and `UnknownError` call `e.Error()` (errors.go:30, errors.go:66), which panics on a nil `error`. The model takes the error's text as a string, so it does not capture that panic.
- TestPlayground (validate_test.go:208-222) only dumps its result and expects nothing, so there is nothing to state.
- The kind guard of handleSliceArray (validate.go:67-70) is not a branch of `Walker.HandleSliceArray`, because it can never fire. `Walker.SliceGuardNeverFires` shows why.
- The error results of the walker are `Option<string>` and are always `None`. The early return on an error is the loop guard `err.None?`.
- Not modelled because they are HTTP, context or I/O plumbing: `Request.SetContext` and `GetContext` (request.go:49-60), response.go, handler.go and the middleware package.
