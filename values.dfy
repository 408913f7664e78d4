/**
 * What the validator sees of a Go value through package `reflect`: its
 * kind, the fields of a struct together with their `json` tags, the
 * elements of a slice or array, the entries of a map, the target of a
 * pointer, and `reflect.Value.IsZero`.
 *
 * Nil and non-nil containers are distinct constructors, because Go tells
 * them apart: a nil slice is zero, an empty non-nil slice is not.
 * Map keys arrive already rendered in their `%v` form, and map entries in
 * whatever order the runtime enumerates them.
 */
module Values {
  import opened Strings

  datatype Value =
    | Struct(fields: seq<Field>)
    | Slice(elems: seq<Value>)
    | NilSlice
    | Array(elems: seq<Value>)
    | Map(entries: seq<Entry>)
    | NilMap
    | Ptr(target: Value)
    | NilPtr
      /** Any other kind (string, number, bool, ...), known only as zero or not. */
    | Scalar(zero: bool)

  /** A struct field; `tag` is the text of its `json` tag ("" when it has none). */
  datatype Field = Field(tag: string, value: Value)

  /** A map entry whose key is given in its `%v` rendering. */
  datatype Entry = Entry(key: string, value: Value)

  /** `reflect.Kind`, restricted to the kinds the walker tells apart. */
  datatype Kind = StructKind | SliceKind | ArrayKind | MapKind | PtrKind | OtherKind

  function KindOf(v: Value): Kind
  {
    match v
    case Struct(_) => StructKind
    case Slice(_) | NilSlice => SliceKind
    case Array(_) => ArrayKind
    case Map(_) | NilMap => MapKind
    case Ptr(_) | NilPtr => PtrKind
    case Scalar(_) => OtherKind
  }

  /**
   * `reflect.Value.IsZero`: nil slices, maps and pointers are zero; non-nil
   * ones are not, even when empty; a struct or an array is zero when every
   * field or element is.
   */
  predicate IsZero(v: Value)
  {
    match v
    case Struct(fs) => forall i | 0 <= i < |fs| :: IsZero(fs[i].value)
    case Slice(_) => false
    case NilSlice => true
    case Array(es) => forall i | 0 <= i < |es| :: IsZero(es[i])
    case Map(_) => false
    case NilMap => true
    case Ptr(_) => false
    case NilPtr => true
    case Scalar(z) => z
  }

  /** `v` behind `k` levels of non-nil pointers. */
  function Pointers(k: nat, v: Value): Value
  {
    if k == 0 then v else Ptr(Pointers(k - 1, v))
  }

  /** `strings.Contains(jsonTags, "required")`: the field is marked required. */
  predicate IsRequired(jsonTags: string)
  {
    Contains(jsonTags, "required")
  }

  /**
   * "required" is tested as a substring: it marks the field wherever it
   * occurs in the tag, so `name,requiredX` and `xrequired` count as well.
   */
  lemma RequiredAnywhere(before: string, after: string)
    ensures IsRequired(before + "required" + after)
  {
    var tag := before + "required" + after;
    assert tag[|before|..|before| + 8] == "required";
    assert OccursAt(tag, "required", |before|);
    ContainsOccurs(tag, "required");
  }

  /**
   * `strings.Split(jsonTags, ",")[0]`: the field's external name, the text
   * of the tag before its first comma.
   */
  function JsonName(jsonTags: string): (name: string)
    ensures name <= jsonTags
    ensures ',' !in name
    ensures name == jsonTags || jsonTags[|name|] == ','
  {
    var parts := Split(jsonTags, ',');
    assert parts[0] == jsonTags || jsonTags == parts[0] + "," + Join(parts[1..], ",");
    parts[0]
  }

  /** The name is the text before the first comma of the tag. */
  lemma JsonNameBeforeComma(jsonTags: string, k: nat)
    requires k < |jsonTags| && jsonTags[k] == ',' && ',' !in jsonTags[..k]
    ensures JsonName(jsonTags) == jsonTags[..k]
  {
    var name := JsonName(jsonTags);
    assert name == jsonTags[..|name|];
  }

  /** A tag without a comma is the name itself. */
  lemma JsonNameWhole(jsonTags: string)
    requires ',' !in jsonTags
    ensures JsonName(jsonTags) == jsonTags
  {
  }
}
