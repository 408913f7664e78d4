/**
 * The recursive required-field walker (validate.go).
 *
 * `Violations(prefix, v)` is the list of paths the walk reports for `v`
 * when it starts at `prefix`; the methods below are the walk itself,
 * threading one shared `PathList` (Go's `errs *[]string`) and appending to
 * it in place, and each is proved to append exactly `Violations`.
 */
module Walker {
  import opened Wrappers
  import opened Strings
  import opened Values

  /** The path of a struct field: its json name, after `prefix.` unless the prefix is empty. */
  function FieldPath(prefix: string, jsonTags: string): string
  {
    if prefix != "" then prefix + "." + JsonName(jsonTags) else JsonName(jsonTags)
  }

  /** The path of element `i` of a slice or array: `prefix[i]`. */
  function IndexPath(prefix: string, i: nat): string
  {
    prefix + "[" + Decimal(i) + "]"
  }

  /** The path of a map entry: `prefix[key]`, with the key in its `%v` form. */
  function KeyPath(prefix: string, key: string): string
  {
    prefix + "[" + key + "]"
  }

  /** A field the walk reports: marked required and holding a zero value. */
  predicate Reported(f: Field)
  {
    IsRequired(f.tag) && IsZero(f.value)
  }

  /** Paths reported for `v` at `prefix`, in visiting order. */
  function Violations(prefix: string, v: Value): seq<string>
    decreases v
  {
    match v
    case Struct(fs) => StructViolations(prefix, fs)
    case Slice(es) => SequenceViolations(prefix, es)
    case NilSlice => []
    case Array(es) => SequenceViolations(prefix, es)
    case Map(es) => MapViolations(prefix, es)
    case NilMap => []
    case Ptr(t) => Violations(prefix, t)
    case NilPtr => []
    case Scalar(_) => []
  }

  /** What one field contributes: its own path if it is reported, else what its value reports. */
  function FieldViolations(prefix: string, f: Field): seq<string>
    decreases f
  {
    var tag := FieldPath(prefix, f.tag);
    if Reported(f) then [tag] else Violations(tag, f.value)
  }

  /** Paths reported for the fields `fs` of a struct at `prefix`, field by field. */
  function StructViolations(prefix: string, fs: seq<Field>): seq<string>
    decreases fs
  {
    if fs == [] then []
    else StructViolations(prefix, fs[..|fs| - 1]) + FieldViolations(prefix, fs[|fs| - 1])
  }

  /** Paths reported for the elements `es` of a slice or array at `prefix`, element by element. */
  function SequenceViolations(prefix: string, es: seq<Value>): seq<string>
    decreases es
  {
    if es == [] then []
    else SequenceViolations(prefix, es[..|es| - 1]) + Violations(IndexPath(prefix, |es| - 1), es[|es| - 1])
  }

  /** Paths reported for the entries `es` of a map at `prefix`, entry by entry. */
  function MapViolations(prefix: string, es: seq<Entry>): seq<string>
    decreases es
  {
    if es == [] then []
    else MapViolations(prefix, es[..|es| - 1]) + Violations(KeyPath(prefix, es[|es| - 1].key), es[|es| - 1].value)
  }

  /** The accumulator the walk shares: Go's `errs *[]string`. */
  class PathList {
    var paths: seq<string>

    constructor ()
      ensures paths == []
    {
      paths := [];
    }
  }

  /**
   * handleResolve: dispatch on the kind of `data`. A nil pointer ends the
   * walk silently; a non-nil one is followed with the same prefix. The
   * error result is always nil.
   */
  method HandleResolve(prefix: string, errs: PathList, data: Value) returns (err: Option<string>)
    modifies errs
    ensures errs.paths == old(errs.paths) + Violations(prefix, data)
    ensures err == None
    decreases data, 1
  {
    match KindOf(data)
    case StructKind =>
      err := HandleStruct(prefix, errs, data);
    case SliceKind =>
      err := HandleSliceArray(prefix, errs, data);
    case ArrayKind =>
      err := HandleSliceArray(prefix, errs, data);
    case MapKind =>
      err := HandleMap(prefix, errs, data);
    case PtrKind =>
      if data.NilPtr? {
        return None;
      }
      err := HandleResolve(prefix, errs, data.target);
    case OtherKind =>
      err := None;
  }

  /**
   * handleStruct: visit the fields in declaration order. A required field
   * holding a zero value has its path appended and its value is not
   * visited; every other field's value is walked with the field's path.
   */
  method HandleStruct(prefix: string, errs: PathList, data: Value) returns (err: Option<string>)
    requires data.Struct?
    modifies errs
    ensures errs.paths == old(errs.paths) + StructViolations(prefix, data.fields)
    ensures err == None
    decreases data, 0
  {
    var fields := data.fields;
    err := None;
    var i := 0;
    while i < |fields| && err.None?
      invariant 0 <= i <= |fields|
      invariant err == None
      invariant errs.paths == old(errs.paths) + StructViolations(prefix, fields[..i])
    {
      var jsonTags := fields[i].tag;
      var tag := JsonName(jsonTags);
      if prefix != "" {
        tag := prefix + "." + tag;
      }
      if IsRequired(jsonTags) && IsZero(fields[i].value) {
        errs.paths := errs.paths + [tag];
      } else {
        err := HandleResolve(tag, errs, fields[i].value);
      }
      assert fields[..i + 1][..i] == fields[..i];
      i := i + 1;
    }
    assert fields[..i] == fields;
  }

  /**
   * handleSliceArray: visit the elements in index order, each with `[i]`
   * appended to the prefix. A nil slice has no elements. The kind guard of
   * the source tests the container's own kind, which is always a slice or
   * an array here, so it never ends the walk early and is not modelled as
   * a branch (see `SliceGuardNeverFires`).
   */
  method HandleSliceArray(prefix: string, errs: PathList, data: Value) returns (err: Option<string>)
    requires data.Slice? || data.NilSlice? || data.Array?
    modifies errs
    ensures errs.paths == old(errs.paths) + Violations(prefix, data)
    ensures err == None
    decreases data, 0
  {
    var elems := if data.NilSlice? then [] else data.elems;
    err := None;
    var i := 0;
    while i < |elems| && err.None?
      invariant 0 <= i <= |elems|
      invariant err == None
      invariant errs.paths == old(errs.paths) + SequenceViolations(prefix, elems[..i])
    {
      err := HandleResolve(prefix + "[" + Decimal(i) + "]", errs, elems[i]);
      assert elems[..i + 1][..i] == elems[..i];
      i := i + 1;
    }
    assert elems[..i] == elems;
  }

  /**
   * handleMap: visit the entries in the order the runtime enumerates the
   * keys, each with `[key]` appended to the prefix. A nil map has no
   * entries.
   */
  method HandleMap(prefix: string, errs: PathList, data: Value) returns (err: Option<string>)
    requires data.Map? || data.NilMap?
    modifies errs
    ensures errs.paths == old(errs.paths) + Violations(prefix, data)
    ensures err == None
    decreases data, 0
  {
    var entries := if data.NilMap? then [] else data.entries;
    err := None;
    var i := 0;
    while i < |entries| && err.None?
      invariant 0 <= i <= |entries|
      invariant err == None
      invariant errs.paths == old(errs.paths) + MapViolations(prefix, entries[..i])
    {
      err := HandleResolve(prefix + "[" + entries[i].key + "]", errs, entries[i].value);
      assert entries[..i + 1][..i] == entries[..i];
      i := i + 1;
    }
    assert entries[..i] == entries;
  }

  /** The kind test in handleSliceArray passes for every value it is given. */
  lemma SliceGuardNeverFires(data: Value)
    requires data.Slice? || data.NilSlice? || data.Array?
    ensures KindOf(data) in {StructKind, SliceKind, ArrayKind, PtrKind, MapKind}
  {
  }

  /**
   * The walk from the root, as the test helper drives it: a fresh list,
   * an empty prefix, and the list afterwards.
   */
  method Walk(data: Value) returns (paths: seq<string>)
    ensures paths == Violations("", data)
  {
    var errs := new PathList();
    var err := HandleResolve("", errs, data);
    paths := errs.paths;
  }
}
