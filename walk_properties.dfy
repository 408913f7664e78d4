/**
 * What the walk of validate.go guarantees, stated about `Violations`.
 */
module WalkProperties {
  import opened Strings
  import opened Values
  import opened Walker

  // ---------------------------------------------------------------------
  // Pointers
  // ---------------------------------------------------------------------

  /** Following non-nil pointers adds no path segment: `**T` reports what `T` reports. */
  lemma {:induction false} PointersTransparent(k: nat, prefix: string, v: Value)
    ensures Violations(prefix, Pointers(k, v)) == Violations(prefix, v)
  {
    if k > 0 {
      PointersTransparent(k - 1, prefix, v);
    }
  }

  /**
   * A nil pointer reached by the dispatcher, however many non-nil pointers
   * lead to it, reports nothing. Only the field-level zero test reports a
   * pointer, and only a nil one: a required field holding a non-nil
   * pointer to nil is not reported at all.
   */
  lemma NilBehindPointers(k: nat, prefix: string, jsonTags: string)
    requires IsRequired(jsonTags)
    ensures Violations(prefix, Pointers(k, NilPtr)) == []
    ensures FieldViolations(prefix, Field(jsonTags, Pointers(k, NilPtr))) ==
      if k == 0 then [FieldPath(prefix, jsonTags)] else []
  {
    PointersTransparent(k, prefix, NilPtr);
    PointersTransparent(k, FieldPath(prefix, jsonTags), NilPtr);
  }

  /**
   * Zero is Go's zero: a required field holding a nil slice or map is
   * reported, one holding an empty but non-nil slice or map is not, and
   * an empty non-nil container has nothing inside to report either.
   */
  lemma EmptyContainersNotMissing(prefix: string, jsonTags: string)
    requires IsRequired(jsonTags)
    ensures FieldViolations(prefix, Field(jsonTags, NilSlice)) == [FieldPath(prefix, jsonTags)]
    ensures FieldViolations(prefix, Field(jsonTags, NilMap)) == [FieldPath(prefix, jsonTags)]
    ensures FieldViolations(prefix, Field(jsonTags, Slice([]))) == []
    ensures FieldViolations(prefix, Field(jsonTags, Map([]))) == []
  {
  }

  /**
   * A field without a `json` tag has the empty name and is never
   * required. At the root its value reports under the empty prefix, so
   * the paths below it render bare, as though the field were not there;
   * under a non-empty prefix its children sit below `prefix.`.
   */
  lemma UntaggedField(prefix: string, v: Value)
    ensures FieldViolations(prefix, Field("", v)) ==
      Violations(if prefix == "" then "" else prefix + ".", v)
    ensures FieldViolations("", Field("", v)) == Violations("", v)
  {
    assert JsonName("") == "";
    assert !IsRequired("");
    assert prefix + "." + "" == prefix + ".";
  }

  // ---------------------------------------------------------------------
  // Every reported path extends the prefix it was found under
  // ---------------------------------------------------------------------

  /**
   * `s` is `prefix` itself or `prefix` followed by more; under a non-empty
   * prefix it is strictly longer and continues with `.` or `[`.
   */
  ghost predicate Extends(prefix: string, s: string)
  {
    prefix <= s && (prefix != "" ==> |prefix| < |s| && (s[|prefix|] == '.' || s[|prefix|] == '['))
  }

  lemma ExtendsTrans(p: string, q: string, s: string)
    requires Extends(p, q) && q <= s
    ensures Extends(p, s)
  {
    assert s[..|q|] == q;
    assert s[..|p|] == q[..|p|];
  }

  lemma {:induction false} ViolationsExtendPrefix(prefix: string, v: Value)
    ensures forall s | s in Violations(prefix, v) :: Extends(prefix, s)
    decreases v
  {
    match v
    case Struct(fs) => StructExtendsPrefix(prefix, fs);
    case Slice(es) => SequenceExtendsPrefix(prefix, es);
    case Array(es) => SequenceExtendsPrefix(prefix, es);
    case Map(es) => MapExtendsPrefix(prefix, es);
    case Ptr(t) => ViolationsExtendPrefix(prefix, t);
    case _ =>
  }

  lemma {:induction false} StructExtendsPrefix(prefix: string, fs: seq<Field>)
    ensures forall s | s in StructViolations(prefix, fs) :: Extends(prefix, s)
    decreases fs
  {
    if fs != [] {
      StructExtendsPrefix(prefix, fs[..|fs| - 1]);
      var f := fs[|fs| - 1];
      var tag := FieldPath(prefix, f.tag);
      assert Extends(prefix, tag);
      if !Reported(f) {
        ViolationsExtendPrefix(tag, f.value);
        forall s | s in Violations(tag, f.value) ensures Extends(prefix, s) {
          ExtendsTrans(prefix, tag, s);
        }
      }
    }
  }

  lemma {:induction false} SequenceExtendsPrefix(prefix: string, es: seq<Value>)
    ensures forall s | s in SequenceViolations(prefix, es) :: Extends(prefix, s)
    decreases es
  {
    if es != [] {
      SequenceExtendsPrefix(prefix, es[..|es| - 1]);
      var child := IndexPath(prefix, |es| - 1);
      assert Extends(prefix, child);
      ViolationsExtendPrefix(child, es[|es| - 1]);
      forall s | s in Violations(child, es[|es| - 1]) ensures Extends(prefix, s) {
        ExtendsTrans(prefix, child, s);
      }
    }
  }

  lemma {:induction false} MapExtendsPrefix(prefix: string, es: seq<Entry>)
    ensures forall s | s in MapViolations(prefix, es) :: Extends(prefix, s)
    decreases es
  {
    if es != [] {
      MapExtendsPrefix(prefix, es[..|es| - 1]);
      var e := es[|es| - 1];
      var child := KeyPath(prefix, e.key);
      assert Extends(prefix, child);
      ViolationsExtendPrefix(child, e.value);
      forall s | s in Violations(child, e.value) ensures Extends(prefix, s) {
        ExtendsTrans(prefix, child, s);
      }
    }
  }

  // ---------------------------------------------------------------------
  // No violations exactly when every required field is filled
  // ---------------------------------------------------------------------

  /**
   * Every required field reachable from `v` through non-nil pointers,
   * struct fields, slice and array elements and map values holds a
   * non-zero value. Fields that are reported stop the descent, so their
   * own contents do not matter.
   */
  ghost predicate Clean(v: Value)
  {
    match v
    case Struct(fs) => forall i | 0 <= i < |fs| :: !Reported(fs[i]) && Clean(fs[i].value)
    case Slice(es) => forall i | 0 <= i < |es| :: Clean(es[i])
    case Array(es) => forall i | 0 <= i < |es| :: Clean(es[i])
    case Map(es) => forall i | 0 <= i < |es| :: Clean(es[i].value)
    case Ptr(t) => Clean(t)
    case _ => true
  }

  /** The walk reports nothing exactly when the value is clean; the prefix plays no part. */
  lemma {:induction false} NoViolationsIffClean(prefix: string, v: Value)
    ensures Violations(prefix, v) == [] <==> Clean(v)
    decreases v
  {
    match v
    case Struct(fs) => StructCleanIff(prefix, fs);
    case Slice(es) => SequenceCleanIff(prefix, es);
    case Array(es) => SequenceCleanIff(prefix, es);
    case Map(es) => MapCleanIff(prefix, es);
    case Ptr(t) => NoViolationsIffClean(prefix, t);
    case _ =>
  }

  lemma {:induction false} StructCleanIff(prefix: string, fs: seq<Field>)
    ensures StructViolations(prefix, fs) == [] <==>
      forall i | 0 <= i < |fs| :: !Reported(fs[i]) && Clean(fs[i].value)
    decreases fs
  {
    if fs != [] {
      var init, f := fs[..|fs| - 1], fs[|fs| - 1];
      StructCleanIff(prefix, init);
      NoViolationsIffClean(FieldPath(prefix, f.tag), f.value);
      assert forall i | 0 <= i < |init| :: init[i] == fs[i];
    }
  }

  lemma {:induction false} SequenceCleanIff(prefix: string, es: seq<Value>)
    ensures SequenceViolations(prefix, es) == [] <==> forall i | 0 <= i < |es| :: Clean(es[i])
    decreases es
  {
    if es != [] {
      var init := es[..|es| - 1];
      SequenceCleanIff(prefix, init);
      NoViolationsIffClean(IndexPath(prefix, |es| - 1), es[|es| - 1]);
      assert forall i | 0 <= i < |init| :: init[i] == es[i];
    }
  }

  lemma {:induction false} MapCleanIff(prefix: string, es: seq<Entry>)
    ensures MapViolations(prefix, es) == [] <==> forall i | 0 <= i < |es| :: Clean(es[i].value)
    decreases es
  {
    if es != [] {
      var init, e := es[..|es| - 1], es[|es| - 1];
      MapCleanIff(prefix, init);
      NoViolationsIffClean(KeyPath(prefix, e.key), e.value);
      assert forall i | 0 <= i < |init| :: init[i] == es[i];
    }
  }

  // ---------------------------------------------------------------------
  // Exactly the paths of the required zero fields are reported
  // ---------------------------------------------------------------------

  /**
   * `p` is the path, under `prefix`, of a required field holding a zero
   * value that the walk reaches from `v`: through struct fields that are
   * not themselves reported, slice and array elements, map values and
   * non-nil pointers.
   */
  ghost predicate ReportedAt(prefix: string, v: Value, p: string)
    decreases v
  {
    match v
    case Struct(fs) => exists i | 0 <= i < |fs| :: FieldReportedAt(prefix, fs[i], p)
    case Slice(es) => exists i | 0 <= i < |es| :: ReportedAt(IndexPath(prefix, i), es[i], p)
    case Array(es) => exists i | 0 <= i < |es| :: ReportedAt(IndexPath(prefix, i), es[i], p)
    case Map(es) => exists i | 0 <= i < |es| :: ReportedAt(KeyPath(prefix, es[i].key), es[i].value, p)
    case Ptr(t) => ReportedAt(prefix, t, p)
    case _ => false
  }

  /** `p` is field `f`'s own path and `f` is reported, or `p` is reported inside its value. */
  ghost predicate FieldReportedAt(prefix: string, f: Field, p: string)
    decreases f
  {
    var tag := FieldPath(prefix, f.tag);
    if Reported(f) then p == tag else ReportedAt(tag, f.value, p)
  }

  /**
   * The walk is complete and sound path by path: a path is in the list
   * exactly when it belongs to a reachable required field holding a zero
   * value.
   */
  lemma {:induction false} ViolationsAreReportedFields(prefix: string, v: Value, p: string)
    ensures p in Violations(prefix, v) <==> ReportedAt(prefix, v, p)
    decreases v
  {
    match v
    case Struct(fs) => StructReportedFields(prefix, fs, p);
    case Slice(es) => SequenceReportedFields(prefix, es, p);
    case Array(es) => SequenceReportedFields(prefix, es, p);
    case Map(es) => MapReportedFields(prefix, es, p);
    case Ptr(t) => ViolationsAreReportedFields(prefix, t, p);
    case _ =>
  }

  lemma {:induction false} FieldReportedFields(prefix: string, f: Field, p: string)
    ensures p in FieldViolations(prefix, f) <==> FieldReportedAt(prefix, f, p)
    decreases f
  {
    if !Reported(f) {
      ViolationsAreReportedFields(FieldPath(prefix, f.tag), f.value, p);
    }
  }

  lemma {:induction false} StructReportedFields(prefix: string, fs: seq<Field>, p: string)
    ensures p in StructViolations(prefix, fs) <==> exists i | 0 <= i < |fs| :: FieldReportedAt(prefix, fs[i], p)
    decreases fs
  {
    if fs != [] {
      var init, n := fs[..|fs| - 1], |fs| - 1;
      StructReportedFields(prefix, init, p);
      FieldReportedFields(prefix, fs[n], p);
      StructReportedSound(prefix, fs, init, p);
      StructReportedComplete(prefix, fs, init, p);
    }
  }

  /** One step of the induction, soundness: a path of the fields or of the last field is some field's. */
  lemma StructReportedSound(prefix: string, fs: seq<Field>, init: seq<Field>, p: string)
    requires fs != [] && init == fs[..|fs| - 1]
    requires p in StructViolations(prefix, init) ==> exists i | 0 <= i < |init| :: FieldReportedAt(prefix, init[i], p)
    requires p in FieldViolations(prefix, fs[|fs| - 1]) ==> FieldReportedAt(prefix, fs[|fs| - 1], p)
    ensures p in StructViolations(prefix, fs) ==> exists i | 0 <= i < |fs| :: FieldReportedAt(prefix, fs[i], p)
  {
    var n := |fs| - 1;
    assert StructViolations(prefix, fs) == StructViolations(prefix, init) + FieldViolations(prefix, fs[n]);
    if p in StructViolations(prefix, init) {
      var i :| 0 <= i < |init| && FieldReportedAt(prefix, init[i], p);
      assert init[i] == fs[i];
    }
  }

  /** One step of the induction, completeness: every field's path is among the fields' paths. */
  lemma StructReportedComplete(prefix: string, fs: seq<Field>, init: seq<Field>, p: string)
    requires fs != [] && init == fs[..|fs| - 1]
    requires (exists i | 0 <= i < |init| :: FieldReportedAt(prefix, init[i], p)) ==> p in StructViolations(prefix, init)
    requires FieldReportedAt(prefix, fs[|fs| - 1], p) ==> p in FieldViolations(prefix, fs[|fs| - 1])
    ensures (exists i | 0 <= i < |fs| :: FieldReportedAt(prefix, fs[i], p)) ==> p in StructViolations(prefix, fs)
  {
    var n := |fs| - 1;
    assert StructViolations(prefix, fs) == StructViolations(prefix, init) + FieldViolations(prefix, fs[n]);
    if exists i | 0 <= i < |fs| :: FieldReportedAt(prefix, fs[i], p) {
      var i :| 0 <= i < |fs| && FieldReportedAt(prefix, fs[i], p);
      if i < n {
        assert init[i] == fs[i];
        assert FieldReportedAt(prefix, init[i], p);
        assert p in StructViolations(prefix, init);
      } else {
        assert i == n;
        assert FieldReportedAt(prefix, fs[n], p);
      }
    }
  }

  lemma {:induction false} SequenceReportedFields(prefix: string, es: seq<Value>, p: string)
    ensures p in SequenceViolations(prefix, es) <==>
      exists i | 0 <= i < |es| :: ReportedAt(IndexPath(prefix, i), es[i], p)
    decreases es
  {
    if es != [] {
      var init, n := es[..|es| - 1], |es| - 1;
      SequenceReportedFields(prefix, init, p);
      ViolationsAreReportedFields(IndexPath(prefix, n), es[n], p);
      assert forall i | 0 <= i < |init| :: init[i] == es[i];
      if exists i | 0 <= i < |es| :: ReportedAt(IndexPath(prefix, i), es[i], p) {
        var i :| 0 <= i < |es| && ReportedAt(IndexPath(prefix, i), es[i], p);
        if i < n {
          assert ReportedAt(IndexPath(prefix, i), init[i], p);
        }
      }
    }
  }

  lemma {:induction false} MapReportedFields(prefix: string, es: seq<Entry>, p: string)
    ensures p in MapViolations(prefix, es) <==>
      exists i | 0 <= i < |es| :: ReportedAt(KeyPath(prefix, es[i].key), es[i].value, p)
    decreases es
  {
    if es != [] {
      var init, n := es[..|es| - 1], |es| - 1;
      MapReportedFields(prefix, init, p);
      ViolationsAreReportedFields(KeyPath(prefix, es[n].key), es[n].value, p);
      assert forall i | 0 <= i < |init| :: init[i] == es[i];
      if exists i | 0 <= i < |es| :: ReportedAt(KeyPath(prefix, es[i].key), es[i].value, p) {
        var i :| 0 <= i < |es| && ReportedAt(KeyPath(prefix, es[i].key), es[i].value, p);
        if i < n {
          assert ReportedAt(KeyPath(prefix, init[i].key), init[i].value, p);
        }
      }
    }
  }

  // ---------------------------------------------------------------------
  // Visiting order
  // ---------------------------------------------------------------------

  /**
   * Fields are visited in declaration order: the paths of the fields before
   * `i`, then field `i`'s own contribution, open the struct's list.
   */
  lemma {:induction false} StructInFieldOrder(prefix: string, fs: seq<Field>, i: nat)
    requires i < |fs|
    ensures StructViolations(prefix, fs[..i]) + FieldViolations(prefix, fs[i]) <= Violations(prefix, Struct(fs))
  {
    assert fs[..i + 1][..i] == fs[..i];
    StructPrefixMonotone(prefix, fs, i + 1);
  }

  /** The struct fold is a homomorphism: the fields of `a + b` report what `a` and then `b` report. */
  lemma {:induction false} StructViolationsAppend(prefix: string, a: seq<Field>, b: seq<Field>)
    ensures StructViolations(prefix, a + b) == StructViolations(prefix, a) + StructViolations(prefix, b)
    decreases |b|
  {
    if b == [] {
      assert a + b == a;
    } else {
      var init := b[..|b| - 1];
      assert (a + b)[..|a + b| - 1] == a + init;
      StructViolationsAppend(prefix, a, init);
    }
  }

  lemma {:induction false} StructPrefixMonotone(prefix: string, fs: seq<Field>, n: nat)
    requires n <= |fs|
    ensures StructViolations(prefix, fs[..n]) <= StructViolations(prefix, fs)
    decreases |fs|
  {
    if n < |fs| {
      var init := fs[..|fs| - 1];
      assert init[..n] == fs[..n];
      StructPrefixMonotone(prefix, init, n);
    } else {
      assert fs[..n] == fs;
    }
  }

  /**
   * Elements are visited in index order with `[i]` appended, and an array
   * reports exactly what a slice with the same elements reports.
   */
  lemma {:induction false} SequenceInIndexOrder(prefix: string, es: seq<Value>, i: nat)
    requires i < |es|
    ensures Violations(prefix, Array(es)) == Violations(prefix, Slice(es))
    ensures SequenceViolations(prefix, es[..i]) + Violations(IndexPath(prefix, i), es[i]) <= Violations(prefix, Slice(es))
  {
    assert es[..i + 1][..i] == es[..i];
    SequencePrefixMonotone(prefix, es, i + 1);
  }

  lemma {:induction false} SequencePrefixMonotone(prefix: string, es: seq<Value>, n: nat)
    requires n <= |es|
    ensures SequenceViolations(prefix, es[..n]) <= SequenceViolations(prefix, es)
    decreases |es|
  {
    if n < |es| {
      var init := es[..|es| - 1];
      assert init[..n] == es[..n];
      SequencePrefixMonotone(prefix, init, n);
    } else {
      assert es[..n] == es;
    }
  }

  /** Map entries are visited in the order given, each with `[key]` appended. */
  lemma {:induction false} MapInEntryOrder(prefix: string, es: seq<Entry>, i: nat)
    requires i < |es|
    ensures MapViolations(prefix, es[..i]) + Violations(KeyPath(prefix, es[i].key), es[i].value) <= Violations(prefix, Map(es))
  {
    assert es[..i + 1][..i] == es[..i];
    MapPrefixMonotone(prefix, es, i + 1);
  }

  lemma {:induction false} MapPrefixMonotone(prefix: string, es: seq<Entry>, n: nat)
    requires n <= |es|
    ensures MapViolations(prefix, es[..n]) <= MapViolations(prefix, es)
    decreases |es|
  {
    if n < |es| {
      var init := es[..|es| - 1];
      assert init[..n] == es[..n];
      MapPrefixMonotone(prefix, init, n);
    } else {
      assert es[..n] == es;
    }
  }

  // ---------------------------------------------------------------------
  // Map enumeration order does not change what is reported
  // ---------------------------------------------------------------------

  lemma {:induction false} MapViolationsAppend(prefix: string, a: seq<Entry>, b: seq<Entry>)
    ensures MapViolations(prefix, a + b) == MapViolations(prefix, a) + MapViolations(prefix, b)
    decreases |b|
  {
    if b == [] {
      assert a + b == a;
    } else {
      var init := b[..|b| - 1];
      assert (a + b)[..|a + b| - 1] == a + init;
      MapViolationsAppend(prefix, a, init);
    }
  }

  /** Taking one entry out of the list takes its paths out of the multiset of reported paths. */
  lemma MapRemoveOne(prefix: string, b: seq<Entry>, j: nat)
    requires j < |b|
    ensures multiset(MapViolations(prefix, b)) ==
      multiset(MapViolations(prefix, b[..j] + b[j + 1..])) + multiset(Violations(KeyPath(prefix, b[j].key), b[j].value))
  {
    var b1, x, b2 := b[..j], b[j], b[j + 1..];
    assert b == (b1 + [x]) + b2;
    MapViolationsAppend(prefix, b1 + [x], b2);
    MapViolationsAppend(prefix, b1, b2);
    assert (b1 + [x])[..|b1|] == b1;
  }

  /** Taking the same entry out of two lists with equal multisets leaves equal multisets. */
  lemma MultisetCancel(init: seq<Entry>, x: Entry, b: seq<Entry>, j: nat)
    requires j < |b| && b[j] == x && multiset(init + [x]) == multiset(b)
    ensures multiset(init) == multiset(b[..j] + b[j + 1..])
  {
    var rest := b[..j] + b[j + 1..];
    assert b == b[..j] + [x] + b[j + 1..];
    assert multiset(b) == multiset(b[..j]) + multiset([x]) + multiset(b[j + 1..]);
    assert multiset(rest) + multiset{x} == multiset(init) + multiset{x};
    forall y ensures multiset(init)[y] == multiset(rest)[y] {
      assert (multiset(rest) + multiset{x})[y] == (multiset(init) + multiset{x})[y];
    }
  }

  /**
   * Go leaves the order of `MapKeys` unspecified. Whatever the order, the
   * same paths are reported, each as often: only their order can differ.
   */
  lemma {:induction false} MapOrderIrrelevant(prefix: string, a: seq<Entry>, b: seq<Entry>)
    requires multiset(a) == multiset(b)
    ensures multiset(Violations(prefix, Map(a))) == multiset(Violations(prefix, Map(b)))
    decreases |a|
  {
    if a == [] {
      assert |b| == |multiset(b)| == 0;
    } else {
      var init, x := a[..|a| - 1], a[|a| - 1];
      assert a == init + [x];
      assert x in multiset(b);
      var j :| 0 <= j < |b| && b[j] == x;
      var rest := b[..j] + b[j + 1..];
      MultisetCancel(init, x, b, j);
      MapOrderIrrelevant(prefix, init, rest);
      MapRemoveOne(prefix, b, j);
    }
  }

  // ---------------------------------------------------------------------
  // Map enumeration order, at every depth
  // ---------------------------------------------------------------------

  /**
   * `w` is `v` with the entries of any of its maps, at any depth,
   * enumerated in another order: the same shape, the same tags, keys and
   * scalars, and each map's entries a permutation of entries whose values
   * are themselves reordered.
   */
  ghost predicate Reordered(v: Value, w: Value)
    decreases v
  {
    match v
    case Struct(fs) =>
      w.Struct? && |w.fields| == |fs| &&
      forall i | 0 <= i < |fs| :: fs[i].tag == w.fields[i].tag && Reordered(fs[i].value, w.fields[i].value)
    case Slice(es) => w.Slice? && ElementsReordered(es, w.elems)
    case Array(es) => w.Array? && ElementsReordered(es, w.elems)
    case Map(es) =>
      w.Map? && exists us {:trigger EntriesReordered(es, us)} ::
        EntriesReordered(es, us) && multiset(us) == multiset(w.entries)
    case Ptr(t) => w.Ptr? && Reordered(t, w.target)
    case _ => w == v
  }

  ghost predicate ElementsReordered(es: seq<Value>, ws: seq<Value>)
    decreases es
  {
    |ws| == |es| && forall i | 0 <= i < |es| :: Reordered(es[i], ws[i])
  }

  /** The same keys in the same places, each value reordered. */
  ghost predicate EntriesReordered(es: seq<Entry>, us: seq<Entry>)
    decreases es
  {
    |us| == |es| && forall i | 0 <= i < |es| :: es[i].key == us[i].key && Reordered(es[i].value, us[i].value)
  }

  /** Reordering does not change whether a value is zero. */
  lemma {:induction false} ReorderedZero(v: Value, w: Value)
    requires Reordered(v, w)
    ensures IsZero(v) <==> IsZero(w)
    decreases v
  {
    match v
    case Struct(fs) =>
      forall i | 0 <= i < |fs| ensures IsZero(fs[i].value) <==> IsZero(w.fields[i].value) {
        ReorderedZero(fs[i].value, w.fields[i].value);
      }
    case Array(es) =>
      forall i | 0 <= i < |es| ensures IsZero(es[i]) <==> IsZero(w.elems[i]) {
        ReorderedZero(es[i], w.elems[i]);
      }
    case _ =>
  }

  /**
   * However Go enumerates the maps inside a value, the walk reports the
   * same paths, each as often: only their order can differ.
   */
  lemma {:induction false} ReorderedSamePaths(prefix: string, v: Value, w: Value)
    requires Reordered(v, w)
    ensures multiset(Violations(prefix, v)) == multiset(Violations(prefix, w))
    decreases v
  {
    match v
    case Struct(fs) => StructReorderedSamePaths(prefix, fs, w.fields);
    case Slice(es) => SequenceReorderedSamePaths(prefix, es, w.elems);
    case Array(es) => SequenceReorderedSamePaths(prefix, es, w.elems);
    case Map(es) =>
      var us :| EntriesReordered(es, us) && multiset(us) == multiset(w.entries);
      MapReorderedSamePaths(prefix, es, us);
      MapOrderIrrelevant(prefix, us, w.entries);
    case Ptr(t) => ReorderedSamePaths(prefix, t, w.target);
    case _ =>
  }

  lemma {:induction false} FieldReorderedSamePaths(prefix: string, f: Field, g: Field)
    requires f.tag == g.tag && Reordered(f.value, g.value)
    ensures multiset(FieldViolations(prefix, f)) == multiset(FieldViolations(prefix, g))
    decreases f
  {
    ReorderedZero(f.value, g.value);
    if !Reported(f) {
      ReorderedSamePaths(FieldPath(prefix, f.tag), f.value, g.value);
    }
  }

  lemma {:induction false} StructReorderedSamePaths(prefix: string, fs: seq<Field>, gs: seq<Field>)
    requires |gs| == |fs|
    requires forall i | 0 <= i < |fs| :: fs[i].tag == gs[i].tag && Reordered(fs[i].value, gs[i].value)
    ensures multiset(StructViolations(prefix, fs)) == multiset(StructViolations(prefix, gs))
    decreases fs
  {
    if fs != [] {
      var n := |fs| - 1;
      StructReorderedSamePaths(prefix, fs[..n], gs[..n]);
      FieldReorderedSamePaths(prefix, fs[n], gs[n]);
    }
  }

  lemma {:induction false} SequenceReorderedSamePaths(prefix: string, es: seq<Value>, ws: seq<Value>)
    requires ElementsReordered(es, ws)
    ensures multiset(SequenceViolations(prefix, es)) == multiset(SequenceViolations(prefix, ws))
    decreases es
  {
    if es != [] {
      var n := |es| - 1;
      assert ElementsReordered(es[..n], ws[..n]);
      SequenceReorderedSamePaths(prefix, es[..n], ws[..n]);
      ReorderedSamePaths(IndexPath(prefix, n), es[n], ws[n]);
    }
  }

  lemma {:induction false} MapReorderedSamePaths(prefix: string, es: seq<Entry>, us: seq<Entry>)
    requires EntriesReordered(es, us)
    ensures multiset(MapViolations(prefix, es)) == multiset(MapViolations(prefix, us))
    decreases es
  {
    if es != [] {
      var n := |es| - 1;
      assert EntriesReordered(es[..n], us[..n]);
      MapReorderedSamePaths(prefix, es[..n], us[..n]);
      ReorderedSamePaths(KeyPath(prefix, es[n].key), es[n].value, us[n].value);
    }
  }

  /** Every value is a reordering of itself. */
  lemma {:induction false} ReorderedRefl(v: Value)
    ensures Reordered(v, v)
    decreases v
  {
    match v
    case Struct(fs) =>
      forall i | 0 <= i < |fs| ensures Reordered(fs[i].value, fs[i].value) {
        ReorderedRefl(fs[i].value);
      }
    case Slice(es) =>
      forall i | 0 <= i < |es| ensures Reordered(es[i], es[i]) {
        ReorderedRefl(es[i]);
      }
    case Array(es) =>
      forall i | 0 <= i < |es| ensures Reordered(es[i], es[i]) {
        ReorderedRefl(es[i]);
      }
    case Map(es) =>
      forall i | 0 <= i < |es| ensures Reordered(es[i].value, es[i].value) {
        ReorderedRefl(es[i].value);
      }
      assert EntriesReordered(es, es);
    case Ptr(t) => ReorderedRefl(t);
    case _ =>
  }

  /** Enumerating one map's entries in another order is a reordering. */
  lemma MapPermutationReordered(a: seq<Entry>, b: seq<Entry>)
    requires multiset(a) == multiset(b)
    ensures Reordered(Map(a), Map(b))
  {
    ReorderedRefl(Map(a));
  }
}
