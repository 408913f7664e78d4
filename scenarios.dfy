/**
 * The walks exercised by validate_test.go, with the exact path lists the
 * test expectations pin. The test helper `handleValidate` hands the walk a
 * pointer to the value and joins the paths with ", " into `missing '...'`;
 * the lemmas state the path lists themselves. Map entries are taken in the
 * order the test literals list them.
 *
 * The test structs are written over two ways of writing a tag: `req` for
 * the tags marked required and `opt` for the plain ones. The lemmas hold
 * for every pair that behaves as the test's tags do (`Taggings`), and
 * `TestTaggings` shows that `name,required` and the bare `name` are such a
 * pair.
 */
module Scenarios {
  import opened Strings
  import opened Values
  import opened Walker
  import WalkProperties

  // ---------------------------------------------------------------------
  // Tags
  // ---------------------------------------------------------------------

  /** `req(name)` marks a field required and names it `name`. */
  ghost predicate MarksRequired(req: string -> string)
  {
    forall n {:trigger req(n)} :: ',' !in n ==> IsRequired(req(n)) && JsonName(req(n)) == n
  }

  /** A name in which "required" cannot start: no `r` eight or more places before its end. */
  ghost predicate NoEarlyR(n: string)
  {
    forall i | 0 <= i <= |n| - 8 :: n[i] != 'r'
  }

  /** `opt(name)` names a field `name` and leaves it optional. */
  ghost predicate NamesOnly(opt: string -> string)
  {
    forall n {:trigger opt(n)} :: ',' !in n && NoEarlyR(n) ==> !IsRequired(opt(n)) && JsonName(opt(n)) == n
  }

  ghost predicate Taggings(req: string -> string, opt: string -> string)
  {
    MarksRequired(req) && NamesOnly(opt)
  }

  /** The tag `name,required`. */
  function RequiredTag(name: string): string
  {
    name + ",required"
  }

  /** The tag that is the bare name. */
  function BareTag(name: string): string
  {
    name
  }

  /** `name,required` marks the field required and names it `name`. */
  lemma RequiredTagFacts(name: string)
    requires ',' !in name
    ensures IsRequired(RequiredTag(name)) && JsonName(RequiredTag(name)) == name
  {
    var tag := RequiredTag(name);
    assert tag[|name| + 1..|name| + 9] == "required";
    assert OccursAt(tag, "required", |name| + 1);
    ContainsOccurs(tag, "required");
    assert tag[..|name|] == name;
    JsonNameBeforeComma(tag, |name|);
  }

  /** A bare name is not required and is its own json name. */
  lemma BareTagFacts(name: string)
    requires ',' !in name && NoEarlyR(name)
    ensures !IsRequired(BareTag(name)) && JsonName(BareTag(name)) == name
  {
    NotContainsFirst(name, "required");
    JsonNameWhole(name);
  }

  /** The test's tags are a pair of taggings. */
  lemma TestTaggings()
    ensures Taggings(RequiredTag, BareTag)
  {
    forall n | ',' !in n
      ensures IsRequired(RequiredTag(n)) && JsonName(RequiredTag(n)) == n
    {
      RequiredTagFacts(n);
    }
    forall n | ',' !in n && NoEarlyR(n)
      ensures !IsRequired(BareTag(n)) && JsonName(BareTag(n)) == n
    {
      BareTagFacts(n);
    }
  }

  /** Where a field named `name` lands under `prefix`. */
  function Under(prefix: string, name: string): string
  {
    if prefix == "" then name else prefix + "." + name
  }

  /** A required field reports its own path when zero, and otherwise what its value reports there. */
  lemma RequiredField(prefix: string, req: string -> string, name: string, v: Value)
    requires MarksRequired(req) && ',' !in name
    ensures FieldViolations(prefix, Field(req(name), v)) ==
      if IsZero(v) then [Under(prefix, name)] else Violations(Under(prefix, name), v)
  {
    assert IsRequired(req(name)) && JsonName(req(name)) == name;
  }

  /** An optional field reports what its value reports at its path. */
  lemma OptionalField(prefix: string, opt: string -> string, name: string, v: Value)
    requires NamesOnly(opt) && ',' !in name && NoEarlyR(name)
    ensures FieldViolations(prefix, Field(opt(name), v)) == Violations(Under(prefix, name), v)
  {
    assert !IsRequired(opt(name)) && JsonName(opt(name)) == name;
  }

  // ---------------------------------------------------------------------
  // Small structs, slices and maps
  // ---------------------------------------------------------------------

  lemma TwoFields(prefix: string, f: Field, g: Field)
    ensures StructViolations(prefix, [f, g]) == FieldViolations(prefix, f) + FieldViolations(prefix, g)
  {
    assert [f, g][..1] == [f];
    assert [f][..0] == [];
    assert StructViolations(prefix, [f]) == FieldViolations(prefix, f);
  }

  lemma TwoElements(prefix: string, a: Value, b: Value)
    ensures SequenceViolations(prefix, [a, b]) ==
      Violations(IndexPath(prefix, 0), a) + Violations(IndexPath(prefix, 1), b)
  {
    assert [a, b][..1] == [a];
    assert [a][..0] == [];
    assert SequenceViolations(prefix, [a]) == Violations(IndexPath(prefix, 0), a);
  }

  lemma OneEntry(prefix: string, k: string, v: Value)
    ensures MapViolations(prefix, [Entry(k, v)]) == Violations(KeyPath(prefix, k), v)
  {
    assert [Entry(k, v)][..0] == [];
  }

  lemma TwoEntries(prefix: string, k1: string, v1: Value, k2: string, v2: Value)
    ensures MapViolations(prefix, [Entry(k1, v1), Entry(k2, v2)]) ==
      Violations(KeyPath(prefix, k1), v1) + Violations(KeyPath(prefix, k2), v2)
  {
    assert [Entry(k1, v1), Entry(k2, v2)][..1] == [Entry(k1, v1)];
    OneEntry(prefix, k1, v1);
  }

  lemma FirstTwoIndices()
    ensures Decimal(0) == "0" && Decimal(1) == "1"
  {
  }

  lemma SecondElementPath()
    ensures Under(IndexPath("", 1), "classicString") == "[1].classicString"
  {
    FirstTwoIndices();
  }

  lemma BasicNames()
    ensures ',' !in "classicString" && NoEarlyR("classicString")
    ensures ',' !in "classicInt" && NoEarlyR("classicInt")
  {
  }

  // ---------------------------------------------------------------------
  // TestStruct and TestRequiredStruct
  // ---------------------------------------------------------------------

  /** A TestStruct with both fields set. */
  function PlainStruct(opt: string -> string): Value
  {
    Struct([Field(opt("classicString"), Scalar(false)), Field(opt("classicInt"), Scalar(false))])
  }

  /**
   * A TestRequiredStruct: `classicString` (required) set or left empty,
   * `classicInt` set.
   */
  function RequiredStruct(req: string -> string, opt: string -> string, filled: bool): Value
  {
    Struct([Field(req("classicString"), Scalar(!filled)), Field(opt("classicInt"), Scalar(false))])
  }

  /** At any prefix, an unfilled TestRequiredStruct reports `prefix.classicString`, a filled one nothing. */
  lemma RequiredStructPaths(req: string -> string, opt: string -> string, prefix: string, filled: bool)
    requires Taggings(req, opt)
    ensures Violations(prefix, RequiredStruct(req, opt, filled)) ==
      if filled then [] else [Under(prefix, "classicString")]
  {
    TwoFields(prefix, Field(req("classicString"), Scalar(!filled)), Field(opt("classicInt"), Scalar(false)));
    RequiredField(prefix, req, "classicString", Scalar(!filled));
    OptionalField(prefix, opt, "classicInt", Scalar(false));
  }

  /** Two TestRequiredStructs behind `k` pointers each, the first unfilled: only `[0]` is reported. */
  lemma FirstOfTwo(req: string -> string, opt: string -> string, prefix: string, k: nat)
    requires Taggings(req, opt)
    ensures SequenceViolations(prefix, [Pointers(k, RequiredStruct(req, opt, false)), Pointers(k, RequiredStruct(req, opt, true))]) ==
      [Under(IndexPath(prefix, 0), "classicString")]
  {
    TwoElements(prefix, Pointers(k, RequiredStruct(req, opt, false)), Pointers(k, RequiredStruct(req, opt, true)));
    WalkProperties.PointersTransparent(k, IndexPath(prefix, 0), RequiredStruct(req, opt, false));
    WalkProperties.PointersTransparent(k, IndexPath(prefix, 1), RequiredStruct(req, opt, true));
    RequiredStructPaths(req, opt, IndexPath(prefix, 0), false);
    RequiredStructPaths(req, opt, IndexPath(prefix, 1), true);
  }

  /** Two pointers to TestRequiredStructs, the second unfilled: only `[1]` is reported. */
  lemma SecondOfTwo(req: string -> string, opt: string -> string, prefix: string)
    requires Taggings(req, opt)
    ensures SequenceViolations(prefix, [Ptr(RequiredStruct(req, opt, true)), Ptr(RequiredStruct(req, opt, false))]) ==
      [Under(IndexPath(prefix, 1), "classicString")]
  {
    TwoElements(prefix, Ptr(RequiredStruct(req, opt, true)), Ptr(RequiredStruct(req, opt, false)));
    RequiredStructPaths(req, opt, IndexPath(prefix, 0), true);
    RequiredStructPaths(req, opt, IndexPath(prefix, 1), false);
  }

  /** A map `test1` (unfilled), `test2` (filled), the values behind `k` pointers: only `[test1]`. */
  lemma FirstOfTwoKeys(req: string -> string, opt: string -> string, prefix: string, k: nat)
    requires Taggings(req, opt)
    ensures MapViolations(prefix, [Entry("test1", Pointers(k, RequiredStruct(req, opt, false))), Entry("test2", Pointers(k, RequiredStruct(req, opt, true)))]) ==
      [Under(KeyPath(prefix, "test1"), "classicString")]
  {
    TwoEntries(prefix, "test1", Pointers(k, RequiredStruct(req, opt, false)), "test2", Pointers(k, RequiredStruct(req, opt, true)));
    WalkProperties.PointersTransparent(k, KeyPath(prefix, "test1"), RequiredStruct(req, opt, false));
    WalkProperties.PointersTransparent(k, KeyPath(prefix, "test2"), RequiredStruct(req, opt, true));
    RequiredStructPaths(req, opt, KeyPath(prefix, "test1"), false);
    RequiredStructPaths(req, opt, KeyPath(prefix, "test2"), true);
  }

  // ---------------------------------------------------------------------
  // TestBasic, TestMissingParam, TestSlice, TestRedPtr
  // ---------------------------------------------------------------------

  /** TestBasic: a TestStruct has no required field, so nothing is reported. */
  lemma BasicReportsNothing(opt: string -> string)
    requires NamesOnly(opt)
    ensures Violations("", Ptr(PlainStruct(opt))) == []
  {
    TwoFields("", Field(opt("classicString"), Scalar(false)), Field(opt("classicInt"), Scalar(false)));
    BasicNames();
    OptionalField("", opt, "classicString", Scalar(false));
    OptionalField("", opt, "classicInt", Scalar(false));
  }

  /** TestMissingParam: an unfilled TestRequiredStruct reports `classicString`. */
  lemma MissingParamReported(req: string -> string, opt: string -> string)
    requires Taggings(req, opt)
    ensures Violations("", Ptr(RequiredStruct(req, opt, false))) == ["classicString"]
  {
    RequiredStructPaths(req, opt, "", false);
  }

  /** TestSlice: a slice of two filled structs reports nothing. */
  lemma SliceOfFilled(req: string -> string, opt: string -> string)
    requires Taggings(req, opt)
    ensures Violations("", Ptr(Slice([RequiredStruct(req, opt, true), RequiredStruct(req, opt, true)]))) == []
  {
    RequiredStructPaths(req, opt, IndexPath("", 0), true);
    RequiredStructPaths(req, opt, IndexPath("", 1), true);
    TwoElements("", RequiredStruct(req, opt, true), RequiredStruct(req, opt, true));
  }

  /** TestSlice: an array whose second struct is unfilled reports `[1].classicString`. */
  lemma ArraySecondUnfilled(req: string -> string, opt: string -> string)
    requires Taggings(req, opt)
    ensures Violations("", Ptr(Array([RequiredStruct(req, opt, true), RequiredStruct(req, opt, false)]))) == ["[1].classicString"]
  {
    RequiredStructPaths(req, opt, IndexPath("", 0), true);
    RequiredStructPaths(req, opt, IndexPath("", 1), false);
    TwoElements("", RequiredStruct(req, opt, true), RequiredStruct(req, opt, false));
    SecondElementPath();
  }

  /** TestRedPtr: a pointer to a pointer to an unfilled struct reports `classicString`. */
  lemma RedundantPointer(req: string -> string, opt: string -> string)
    requires Taggings(req, opt)
    ensures Violations("", Ptr(Ptr(RequiredStruct(req, opt, false)))) == ["classicString"]
  {
    RequiredStructPaths(req, opt, "", false);
  }

  // ---------------------------------------------------------------------
  // TestWeird
  // ---------------------------------------------------------------------

  /** A struct of four fields reports what its first two and then its last two report. */
  lemma FourFields(prefix: string, a: Field, b: Field, c: Field, d: Field)
    ensures StructViolations(prefix, [a, b, c, d]) == StructViolations(prefix, [a, b]) + StructViolations(prefix, [c, d])
  {
    assert [a, b, c, d] == [a, b] + [c, d];
    WalkProperties.StructViolationsAppend(prefix, [a, b], [c, d]);
  }

  /** A struct of eleven fields reports what its five pairs and then its last field report. */
  lemma ElevenFields(
    prefix: string,
    f0: Field, f1: Field, f2: Field, f3: Field, f4: Field, f5: Field,
    f6: Field, f7: Field, f8: Field, f9: Field, f10: Field)
    ensures StructViolations(prefix, [f0, f1, f2, f3, f4, f5, f6, f7, f8, f9, f10]) ==
      StructViolations(prefix, [f0, f1]) + StructViolations(prefix, [f2, f3]) + StructViolations(prefix, [f4, f5]) +
      StructViolations(prefix, [f6, f7]) + StructViolations(prefix, [f8, f9]) + FieldViolations(prefix, f10)
  {
    var a, b, c, d, e := [f0, f1], [f2, f3], [f4, f5], [f6, f7], [f8, f9];
    assert [f0, f1, f2, f3, f4, f5, f6, f7, f8, f9, f10] == a + b + c + d + e + [f10];
    WalkProperties.StructViolationsAppend(prefix, a, b);
    WalkProperties.StructViolationsAppend(prefix, a + b, c);
    WalkProperties.StructViolationsAppend(prefix, a + b + c, d);
    WalkProperties.StructViolationsAppend(prefix, a + b + c + d, e);
    WalkProperties.StructViolationsAppend(prefix, a + b + c + d + e, [f10]);
    assert [f10][..0] == [];
  }

  /** A required field holding a zero value, at the root: its bare name. */
  lemma ZeroAtRoot(req: string -> string, name: string, v: Value)
    requires MarksRequired(req) && ',' !in name && IsZero(v)
    ensures FieldViolations("", Field(req(name), v)) == [name]
  {
    RequiredField("", req, name, v);
  }

  /** A TestWeirdStruct with the given four field values. */
  function WeirdStruct(req: string -> string, dumb: Value, weird: Value, crack: Value, wtf: Value): Value
  {
    Struct([
      Field(req("dumbString"), dumb),
      Field(req("weirdMap"), weird),
      Field(req("crackSlice"), crack),
      Field(req("wtfMap"), wtf)])
  }

  lemma WeirdNames()
    ensures ',' !in "dumbString" && ',' !in "weirdMap" && ',' !in "crackSlice" && ',' !in "wtfMap"
  {
  }

  lemma NilDumbAndWeird(req: string -> string)
    requires MarksRequired(req)
    ensures StructViolations("", [Field(req("dumbString"), NilPtr), Field(req("weirdMap"), NilPtr)]) == ["dumbString", "weirdMap"]
  {
    WeirdNames();
    TwoFields("", Field(req("dumbString"), NilPtr), Field(req("weirdMap"), NilPtr));
    ZeroAtRoot(req, "dumbString", NilPtr);
    ZeroAtRoot(req, "weirdMap", NilPtr);
  }

  lemma NilCrackAndWtf(req: string -> string)
    requires MarksRequired(req)
    ensures StructViolations("", [Field(req("crackSlice"), NilPtr), Field(req("wtfMap"), NilMap)]) == ["crackSlice", "wtfMap"]
  {
    WeirdNames();
    TwoFields("", Field(req("crackSlice"), NilPtr), Field(req("wtfMap"), NilMap));
    ZeroAtRoot(req, "crackSlice", NilPtr);
    ZeroAtRoot(req, "wtfMap", NilMap);
  }

  /** TestWeird, first case: every field nil, so every field's bare name. */
  lemma WeirdAllNil(req: string -> string)
    requires MarksRequired(req)
    ensures Violations("", Ptr(WeirdStruct(req, NilPtr, NilPtr, NilPtr, NilMap))) ==
      ["dumbString", "weirdMap", "crackSlice", "wtfMap"]
  {
    FourFields("", Field(req("dumbString"), NilPtr), Field(req("weirdMap"), NilPtr),
      Field(req("crackSlice"), NilPtr), Field(req("wtfMap"), NilMap));
    NilDumbAndWeird(req);
    NilCrackAndWtf(req);
  }

  /** TestWeird's `weirdMap`: a pointer to a map whose key 1337 holds an unfilled struct. */
  function WeirdMapValue(req: string -> string, opt: string -> string): Value
  {
    Ptr(Map([Entry("1337", RequiredStruct(req, opt, false))]))
  }

  /** TestWeird's `crackSlice`: a pointer to a slice of pointers to slices of pointers. */
  function CrackSliceValue(req: string -> string, opt: string -> string): Value
  {
    Ptr(Slice([
      Ptr(Slice([Ptr(RequiredStruct(req, opt, true)), Ptr(RequiredStruct(req, opt, true))])),
      Ptr(Slice([Ptr(RequiredStruct(req, opt, true)), Ptr(RequiredStruct(req, opt, false))]))]))
  }

  /** TestWeird's `wtfMap`: a map of maps, `test1` then `test2`, holding an unfilled struct. */
  function WtfMapValue(req: string -> string, opt: string -> string): Value
  {
    Map([Entry("test1", Map([Entry("test2", RequiredStruct(req, opt, false))]))])
  }

  lemma WeirdMapText()
    ensures Under(KeyPath("weirdMap", "1337"), "classicString") == "weirdMap[1337].classicString"
  {
  }

  lemma WeirdMapPaths(req: string -> string, opt: string -> string)
    requires Taggings(req, opt)
    ensures FieldViolations("", Field(req("weirdMap"), WeirdMapValue(req, opt))) == ["weirdMap[1337].classicString"]
  {
    WeirdNames();
    RequiredField("", req, "weirdMap", WeirdMapValue(req, opt));
    OneEntry("weirdMap", "1337", RequiredStruct(req, opt, false));
    RequiredStructPaths(req, opt, KeyPath("weirdMap", "1337"), false);
    WeirdMapText();
  }

  lemma CrackSliceText()
    ensures Under(IndexPath(IndexPath("crackSlice", 1), 1), "classicString") == "crackSlice[1][1].classicString"
  {
    FirstTwoIndices();
  }

  /** At any prefix, `crackSlice`'s value reports only its element `[1][1]`. */
  lemma CrackSliceShape(req: string -> string, opt: string -> string, prefix: string)
    requires Taggings(req, opt)
    ensures Violations(prefix, CrackSliceValue(req, opt)) == [Under(IndexPath(IndexPath(prefix, 1), 1), "classicString")]
  {
    var filled := Ptr(RequiredStruct(req, opt, true));
    var inner0 := Ptr(Slice([filled, filled]));
    var inner1 := Ptr(Slice([filled, Ptr(RequiredStruct(req, opt, false))]));
    TwoElements(prefix, inner0, inner1);
    BothFilled(req, opt, IndexPath(prefix, 0));
    SecondOfTwo(req, opt, IndexPath(prefix, 1));
  }

  lemma CrackSlicePaths(req: string -> string, opt: string -> string)
    requires Taggings(req, opt)
    ensures FieldViolations("", Field(req("crackSlice"), CrackSliceValue(req, opt))) == ["crackSlice[1][1].classicString"]
  {
    WeirdNames();
    RequiredField("", req, "crackSlice", CrackSliceValue(req, opt));
    CrackSliceShape(req, opt, "crackSlice");
    CrackSliceText();
  }

  /** Two pointers to filled TestRequiredStructs report nothing. */
  lemma BothFilled(req: string -> string, opt: string -> string, prefix: string)
    requires Taggings(req, opt)
    ensures SequenceViolations(prefix, [Ptr(RequiredStruct(req, opt, true)), Ptr(RequiredStruct(req, opt, true))]) == []
  {
    TwoElements(prefix, Ptr(RequiredStruct(req, opt, true)), Ptr(RequiredStruct(req, opt, true)));
    RequiredStructPaths(req, opt, IndexPath(prefix, 0), true);
    RequiredStructPaths(req, opt, IndexPath(prefix, 1), true);
  }

  lemma WtfMapText()
    ensures Under(KeyPath(KeyPath("wtfMap", "test1"), "test2"), "classicString") == "wtfMap[test1][test2].classicString"
  {
    assert KeyPath("wtfMap", "test1") == "wtfMap[test1]";
    assert KeyPath("wtfMap[test1]", "test2") == "wtfMap[test1][test2]";
  }

  lemma WtfMapPaths(req: string -> string, opt: string -> string)
    requires Taggings(req, opt)
    ensures FieldViolations("", Field(req("wtfMap"), WtfMapValue(req, opt))) == ["wtfMap[test1][test2].classicString"]
  {
    WeirdNames();
    RequiredField("", req, "wtfMap", WtfMapValue(req, opt));
    OneEntry("wtfMap", "test1", Map([Entry("test2", RequiredStruct(req, opt, false))]));
    OneEntry(KeyPath("wtfMap", "test1"), "test2", RequiredStruct(req, opt, false));
    RequiredStructPaths(req, opt, KeyPath(KeyPath("wtfMap", "test1"), "test2"), false);
    WtfMapText();
  }

  lemma DumbAndWeirdMap(req: string -> string, opt: string -> string)
    requires Taggings(req, opt)
    ensures StructViolations("", [Field(req("dumbString"), NilPtr), Field(req("weirdMap"), WeirdMapValue(req, opt))]) ==
      ["dumbString", "weirdMap[1337].classicString"]
  {
    WeirdNames();
    TwoFields("", Field(req("dumbString"), NilPtr), Field(req("weirdMap"), WeirdMapValue(req, opt)));
    ZeroAtRoot(req, "dumbString", NilPtr);
    WeirdMapPaths(req, opt);
  }

  lemma CrackAndWtfMap(req: string -> string, opt: string -> string)
    requires Taggings(req, opt)
    ensures StructViolations("", [Field(req("crackSlice"), CrackSliceValue(req, opt)), Field(req("wtfMap"), WtfMapValue(req, opt))]) ==
      ["crackSlice[1][1].classicString", "wtfMap[test1][test2].classicString"]
  {
    TwoFields("", Field(req("crackSlice"), CrackSliceValue(req, opt)), Field(req("wtfMap"), WtfMapValue(req, opt)));
    CrackSlicePaths(req, opt);
    WtfMapPaths(req, opt);
  }

  /** TestWeird, second case: the nil string by name, each nested unfilled struct by its full path. */
  lemma WeirdNested(req: string -> string, opt: string -> string)
    requires Taggings(req, opt)
    ensures Violations("", Ptr(WeirdStruct(req, NilPtr, WeirdMapValue(req, opt), CrackSliceValue(req, opt), WtfMapValue(req, opt)))) ==
      ["dumbString", "weirdMap[1337].classicString", "crackSlice[1][1].classicString", "wtfMap[test1][test2].classicString"]
  {
    FourFields("", Field(req("dumbString"), NilPtr), Field(req("weirdMap"), WeirdMapValue(req, opt)),
      Field(req("crackSlice"), CrackSliceValue(req, opt)), Field(req("wtfMap"), WtfMapValue(req, opt)));
    DumbAndWeirdMap(req, opt);
    CrackAndWtfMap(req, opt);
  }

  // ---------------------------------------------------------------------
  // TestComplex
  // ---------------------------------------------------------------------

  /** Two TestRequiredStructs, the first unfilled. */
  function FirstUnfilled(req: string -> string, opt: string -> string, k: nat): seq<Value>
  {
    [Pointers(k, RequiredStruct(req, opt, false)), Pointers(k, RequiredStruct(req, opt, true))]
  }

  /** Keys `test1` (unfilled) and `test2` (filled). */
  function Test1Unfilled(req: string -> string, opt: string -> string, k: nat): seq<Entry>
  {
    [Entry("test1", Pointers(k, RequiredStruct(req, opt, false))), Entry("test2", Pointers(k, RequiredStruct(req, opt, true)))]
  }

  /** `classicMapSlicePtr`'s value: `test1` unfilled first, `test2` unfilled second. */
  function MapSliceValue(req: string -> string, opt: string -> string): Value
  {
    Ptr(Map([
      Entry("test1", Slice(FirstUnfilled(req, opt, 1))),
      Entry("test2", Slice([Ptr(RequiredStruct(req, opt, true)), Ptr(RequiredStruct(req, opt, false))]))]))
  }

  // The fields of TestComplexStruct, as TestComplex fills them.

  function ClassicString(req: string -> string, opt: string -> string): Field
  {
    Field(req("classicString"), Scalar(true))
  }

  function ClassicStruct(req: string -> string, opt: string -> string): Field
  {
    Field(opt("classicStruct"), RequiredStruct(req, opt, false))
  }

  function ClassicPtr(req: string -> string, opt: string -> string): Field
  {
    Field(req("classicPtr"), Ptr(RequiredStruct(req, opt, false)))
  }

  function ClassicSlice(req: string -> string, opt: string -> string): Field
  {
    Field(req("classicSlice"), Slice(FirstUnfilled(req, opt, 0)))
  }

  function ClassicPtrSlice(req: string -> string, opt: string -> string): Field
  {
    Field(req("classicPtrSlice"), Slice(FirstUnfilled(req, opt, 1)))
  }

  function ClassicPtrPtrSlice(req: string -> string, opt: string -> string): Field
  {
    Field(req("classicPtrPtrSlice"), Slice(FirstUnfilled(req, opt, 2)))
  }

  function ClassicPtrSlicePtr(req: string -> string, opt: string -> string): Field
  {
    Field(req("classicPtrSlicePtr"), Ptr(Slice(FirstUnfilled(req, opt, 1))))
  }

  function ClassicMap(req: string -> string, opt: string -> string): Field
  {
    Field(req("classicMap"), Map(Test1Unfilled(req, opt, 0)))
  }

  function ClassicPtrMap(req: string -> string, opt: string -> string): Field
  {
    Field(req("classicPtrMap"), Map(Test1Unfilled(req, opt, 1)))
  }

  function ClassicPtrMapPtr(req: string -> string, opt: string -> string): Field
  {
    Field(req("classicPtrMapPtr"), Ptr(Map(Test1Unfilled(req, opt, 1))))
  }

  function ClassicMapSlicePtr(req: string -> string, opt: string -> string): Field
  {
    Field(req("classicMapSlicePtr"), MapSliceValue(req, opt))
  }

  /** The TestComplexStruct of TestComplex, fields in declaration order. */
  function ComplexStruct(req: string -> string, opt: string -> string): Value
  {
    Struct([
      ClassicString(req, opt), ClassicStruct(req, opt), ClassicPtr(req, opt), ClassicSlice(req, opt),
      ClassicPtrSlice(req, opt), ClassicPtrPtrSlice(req, opt), ClassicPtrSlicePtr(req, opt),
      ClassicMap(req, opt), ClassicPtrMap(req, opt), ClassicPtrMapPtr(req, opt), ClassicMapSlicePtr(req, opt)])
  }

  lemma HeadNames()
    ensures ',' !in "classicString" && ',' !in "classicStruct" && NoEarlyR("classicStruct")
  {
  }

  lemma StructText()
    ensures Under("classicStruct", "classicString") == "classicStruct.classicString"
  {
  }

  /** `classicString` itself, left empty: its bare name. */
  lemma ClassicStringPaths(req: string -> string, opt: string -> string)
    requires MarksRequired(req)
    ensures FieldViolations("", ClassicString(req, opt)) == ["classicString"]
  {
    HeadNames();
    ZeroAtRoot(req, "classicString", Scalar(true));
  }

  /** `classicStruct`, an optional struct holding an unfilled TestRequiredStruct. */
  lemma ClassicStructPaths(req: string -> string, opt: string -> string)
    requires Taggings(req, opt)
    ensures FieldViolations("", ClassicStruct(req, opt)) == ["classicStruct.classicString"]
  {
    HeadNames();
    OptionalField("", opt, "classicStruct", RequiredStruct(req, opt, false));
    RequiredStructPaths(req, opt, "classicStruct", false);
    StructText();
  }

  lemma ClassicPtrText()
    ensures ',' !in "classicPtr" && Under("classicPtr", "classicString") == "classicPtr.classicString"
  {
  }

  lemma ClassicPtrPaths(req: string -> string, opt: string -> string)
    requires Taggings(req, opt)
    ensures FieldViolations("", ClassicPtr(req, opt)) == ["classicPtr.classicString"]
  {
    ClassicPtrText();
    NonZeroAtRoot(req, "classicPtr", Ptr(RequiredStruct(req, opt, false)));
    RequiredStructPaths(req, opt, "classicPtr", false);
  }

  lemma ClassicSliceText()
    ensures ',' !in "classicSlice" && Under(IndexPath("classicSlice", 0), "classicString") == "classicSlice[0].classicString"
  {
    FirstTwoIndices();
  }

  lemma ClassicSlicePaths(req: string -> string, opt: string -> string)
    requires Taggings(req, opt)
    ensures FieldViolations("", ClassicSlice(req, opt)) == ["classicSlice[0].classicString"]
  {
    ClassicSliceText();
    NonZeroAtRoot(req, "classicSlice", Slice(FirstUnfilled(req, opt, 0)));
    FirstOfTwo(req, opt, "classicSlice", 0);
  }

  lemma ClassicPtrSliceText()
    ensures ',' !in "classicPtrSlice" && Under(IndexPath("classicPtrSlice", 0), "classicString") == "classicPtrSlice[0].classicString"
  {
    FirstTwoIndices();
  }

  lemma ClassicPtrSlicePaths(req: string -> string, opt: string -> string)
    requires Taggings(req, opt)
    ensures FieldViolations("", ClassicPtrSlice(req, opt)) == ["classicPtrSlice[0].classicString"]
  {
    ClassicPtrSliceText();
    NonZeroAtRoot(req, "classicPtrSlice", Slice(FirstUnfilled(req, opt, 1)));
    FirstOfTwo(req, opt, "classicPtrSlice", 1);
  }

  lemma ClassicPtrPtrSliceText()
    ensures ',' !in "classicPtrPtrSlice" && Under(IndexPath("classicPtrPtrSlice", 0), "classicString") == "classicPtrPtrSlice[0].classicString"
  {
    FirstTwoIndices();
  }

  lemma ClassicPtrPtrSlicePaths(req: string -> string, opt: string -> string)
    requires Taggings(req, opt)
    ensures FieldViolations("", ClassicPtrPtrSlice(req, opt)) == ["classicPtrPtrSlice[0].classicString"]
  {
    ClassicPtrPtrSliceText();
    NonZeroAtRoot(req, "classicPtrPtrSlice", Slice(FirstUnfilled(req, opt, 2)));
    FirstOfTwo(req, opt, "classicPtrPtrSlice", 2);
  }

  lemma ClassicPtrSlicePtrText()
    ensures ',' !in "classicPtrSlicePtr" && Under(IndexPath("classicPtrSlicePtr", 0), "classicString") == "classicPtrSlicePtr[0].classicString"
  {
    FirstTwoIndices();
  }

  lemma ClassicPtrSlicePtrPaths(req: string -> string, opt: string -> string)
    requires Taggings(req, opt)
    ensures FieldViolations("", ClassicPtrSlicePtr(req, opt)) == ["classicPtrSlicePtr[0].classicString"]
  {
    ClassicPtrSlicePtrText();
    NonZeroAtRoot(req, "classicPtrSlicePtr", Ptr(Slice(FirstUnfilled(req, opt, 1))));
    FirstOfTwo(req, opt, "classicPtrSlicePtr", 1);
  }

  lemma ClassicMapText()
    ensures ',' !in "classicMap" && Under(KeyPath("classicMap", "test1"), "classicString") == "classicMap[test1].classicString"
  {
  }

  lemma ClassicMapPaths(req: string -> string, opt: string -> string)
    requires Taggings(req, opt)
    ensures FieldViolations("", ClassicMap(req, opt)) == ["classicMap[test1].classicString"]
  {
    ClassicMapText();
    NonZeroAtRoot(req, "classicMap", Map(Test1Unfilled(req, opt, 0)));
    FirstOfTwoKeys(req, opt, "classicMap", 0);
  }

  lemma ClassicPtrMapText()
    ensures ',' !in "classicPtrMap" && Under(KeyPath("classicPtrMap", "test1"), "classicString") == "classicPtrMap[test1].classicString"
  {
  }

  lemma ClassicPtrMapPaths(req: string -> string, opt: string -> string)
    requires Taggings(req, opt)
    ensures FieldViolations("", ClassicPtrMap(req, opt)) == ["classicPtrMap[test1].classicString"]
  {
    ClassicPtrMapText();
    NonZeroAtRoot(req, "classicPtrMap", Map(Test1Unfilled(req, opt, 1)));
    FirstOfTwoKeys(req, opt, "classicPtrMap", 1);
  }

  lemma ClassicPtrMapPtrText()
    ensures ',' !in "classicPtrMapPtr" && Under(KeyPath("classicPtrMapPtr", "test1"), "classicString") == "classicPtrMapPtr[test1].classicString"
  {
  }

  lemma ClassicPtrMapPtrPaths(req: string -> string, opt: string -> string)
    requires Taggings(req, opt)
    ensures FieldViolations("", ClassicPtrMapPtr(req, opt)) == ["classicPtrMapPtr[test1].classicString"]
  {
    ClassicPtrMapPtrText();
    NonZeroAtRoot(req, "classicPtrMapPtr", Ptr(Map(Test1Unfilled(req, opt, 1))));
    FirstOfTwoKeys(req, opt, "classicPtrMapPtr", 1);
  }

  /** At any prefix, `classicMapSlicePtr`'s value reports `[test1][0]`, then `[test2][1]`. */
  lemma MapSliceShape(req: string -> string, opt: string -> string, prefix: string)
    requires Taggings(req, opt)
    ensures Violations(prefix, MapSliceValue(req, opt)) ==
      [Under(IndexPath(KeyPath(prefix, "test1"), 0), "classicString"), Under(IndexPath(KeyPath(prefix, "test2"), 1), "classicString")]
  {
    var s1 := Slice(FirstUnfilled(req, opt, 1));
    var s2 := Slice([Ptr(RequiredStruct(req, opt, true)), Ptr(RequiredStruct(req, opt, false))]);
    TwoEntries(prefix, "test1", s1, "test2", s2);
    FirstOfTwo(req, opt, KeyPath(prefix, "test1"), 1);
    SecondOfTwo(req, opt, KeyPath(prefix, "test2"));
  }

  lemma MapSliceText()
    ensures ',' !in "classicMapSlicePtr"
    ensures Under(IndexPath(KeyPath("classicMapSlicePtr", "test1"), 0), "classicString") == "classicMapSlicePtr[test1][0].classicString"
    ensures Under(IndexPath(KeyPath("classicMapSlicePtr", "test2"), 1), "classicString") == "classicMapSlicePtr[test2][1].classicString"
  {
    MapSliceFirstText();
    MapSliceSecondText();
  }

  lemma MapSliceFirstText()
    ensures Under(IndexPath(KeyPath("classicMapSlicePtr", "test1"), 0), "classicString") == "classicMapSlicePtr[test1][0].classicString"
  {
    FirstTwoIndices();
  }

  lemma MapSliceSecondText()
    ensures Under(IndexPath(KeyPath("classicMapSlicePtr", "test2"), 1), "classicString") == "classicMapSlicePtr[test2][1].classicString"
  {
    FirstTwoIndices();
  }

  lemma ClassicMapSlicePtrPaths(req: string -> string, opt: string -> string)
    requires Taggings(req, opt)
    ensures FieldViolations("", ClassicMapSlicePtr(req, opt)) ==
      ["classicMapSlicePtr[test1][0].classicString", "classicMapSlicePtr[test2][1].classicString"]
  {
    MapSliceText();
    NonZeroAtRoot(req, "classicMapSlicePtr", MapSliceValue(req, opt));
    MapSliceShape(req, opt, "classicMapSlicePtr");
  }

  /** A required field at the root whose value is not zero reports what the value reports under its name. */
  lemma NonZeroAtRoot(req: string -> string, name: string, v: Value)
    requires MarksRequired(req) && ',' !in name && !IsZero(v)
    ensures FieldViolations("", Field(req(name), v)) == Violations(name, v)
  {
    RequiredField("", req, name, v);
  }

  // TestComplexStruct's fields two at a time, in declaration order.

  lemma ComplexPair0(req: string -> string, opt: string -> string)
    requires Taggings(req, opt)
    ensures StructViolations("", [ClassicString(req, opt), ClassicStruct(req, opt)]) == ["classicString", "classicStruct.classicString"]
  {
    TwoFields("", ClassicString(req, opt), ClassicStruct(req, opt));
    ClassicStringPaths(req, opt);
    ClassicStructPaths(req, opt);
  }

  lemma ComplexPair1(req: string -> string, opt: string -> string)
    requires Taggings(req, opt)
    ensures StructViolations("", [ClassicPtr(req, opt), ClassicSlice(req, opt)]) == ["classicPtr.classicString", "classicSlice[0].classicString"]
  {
    TwoFields("", ClassicPtr(req, opt), ClassicSlice(req, opt));
    ClassicPtrPaths(req, opt);
    ClassicSlicePaths(req, opt);
  }

  lemma ComplexPair2(req: string -> string, opt: string -> string)
    requires Taggings(req, opt)
    ensures StructViolations("", [ClassicPtrSlice(req, opt), ClassicPtrPtrSlice(req, opt)]) == ["classicPtrSlice[0].classicString", "classicPtrPtrSlice[0].classicString"]
  {
    TwoFields("", ClassicPtrSlice(req, opt), ClassicPtrPtrSlice(req, opt));
    ClassicPtrSlicePaths(req, opt);
    ClassicPtrPtrSlicePaths(req, opt);
  }

  lemma ComplexPair3(req: string -> string, opt: string -> string)
    requires Taggings(req, opt)
    ensures StructViolations("", [ClassicPtrSlicePtr(req, opt), ClassicMap(req, opt)]) == ["classicPtrSlicePtr[0].classicString", "classicMap[test1].classicString"]
  {
    TwoFields("", ClassicPtrSlicePtr(req, opt), ClassicMap(req, opt));
    ClassicPtrSlicePtrPaths(req, opt);
    ClassicMapPaths(req, opt);
  }

  lemma ComplexPair4(req: string -> string, opt: string -> string)
    requires Taggings(req, opt)
    ensures StructViolations("", [ClassicPtrMap(req, opt), ClassicPtrMapPtr(req, opt)]) == ["classicPtrMap[test1].classicString", "classicPtrMapPtr[test1].classicString"]
  {
    TwoFields("", ClassicPtrMap(req, opt), ClassicPtrMapPtr(req, opt));
    ClassicPtrMapPaths(req, opt);
    ClassicPtrMapPtrPaths(req, opt);
  }

  /** Eleven fields whose pairs report TestComplex's paths report all twelve, in order. */
  lemma ComplexGlue(
    f0: Field, f1: Field, f2: Field, f3: Field, f4: Field, f5: Field,
    f6: Field, f7: Field, f8: Field, f9: Field, f10: Field)
    requires StructViolations("", [f0, f1]) == ["classicString", "classicStruct.classicString"]
    requires StructViolations("", [f2, f3]) == ["classicPtr.classicString", "classicSlice[0].classicString"]
    requires StructViolations("", [f4, f5]) == ["classicPtrSlice[0].classicString", "classicPtrPtrSlice[0].classicString"]
    requires StructViolations("", [f6, f7]) == ["classicPtrSlicePtr[0].classicString", "classicMap[test1].classicString"]
    requires StructViolations("", [f8, f9]) == ["classicPtrMap[test1].classicString", "classicPtrMapPtr[test1].classicString"]
    requires FieldViolations("", f10) == ["classicMapSlicePtr[test1][0].classicString", "classicMapSlicePtr[test2][1].classicString"]
    ensures StructViolations("", [f0, f1, f2, f3, f4, f5, f6, f7, f8, f9, f10]) == [
      "classicString", "classicStruct.classicString", "classicPtr.classicString",
      "classicSlice[0].classicString", "classicPtrSlice[0].classicString",
      "classicPtrPtrSlice[0].classicString", "classicPtrSlicePtr[0].classicString",
      "classicMap[test1].classicString", "classicPtrMap[test1].classicString",
      "classicPtrMapPtr[test1].classicString", "classicMapSlicePtr[test1][0].classicString",
      "classicMapSlicePtr[test2][1].classicString"]
  {
    ElevenFields("", f0, f1, f2, f3, f4, f5, f6, f7, f8, f9, f10);
  }

  /**
   * TestComplex: every unfilled TestRequiredStruct, however it is reached,
   * is reported by its full path, fields in declaration order and map
   * entries in the order listed.
   */
  lemma ComplexPaths(req: string -> string, opt: string -> string)
    requires Taggings(req, opt)
    ensures Violations("", Ptr(ComplexStruct(req, opt))) == [
      "classicString", "classicStruct.classicString", "classicPtr.classicString",
      "classicSlice[0].classicString", "classicPtrSlice[0].classicString",
      "classicPtrPtrSlice[0].classicString", "classicPtrSlicePtr[0].classicString",
      "classicMap[test1].classicString", "classicPtrMap[test1].classicString",
      "classicPtrMapPtr[test1].classicString", "classicMapSlicePtr[test1][0].classicString",
      "classicMapSlicePtr[test2][1].classicString"]
  {
    ComplexPair0(req, opt);
    ComplexPair1(req, opt);
    ComplexPair2(req, opt);
    ComplexPair3(req, opt);
    ComplexPair4(req, opt);
    ClassicMapSlicePtrPaths(req, opt);
    ComplexGlue(
      ClassicString(req, opt), ClassicStruct(req, opt), ClassicPtr(req, opt), ClassicSlice(req, opt),
      ClassicPtrSlice(req, opt), ClassicPtrPtrSlice(req, opt), ClassicPtrSlicePtr(req, opt),
      ClassicMap(req, opt), ClassicPtrMap(req, opt), ClassicPtrMapPtr(req, opt), ClassicMapSlicePtr(req, opt));
  }
}
