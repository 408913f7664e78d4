/**
 * The request helpers of request.go: the two body validators and the URL
 * and query parameter lookups.
 *
 * JSON decoding and the HTTP lookups are done by other packages; the model
 * receives their results. A decoded body is `Some(v)` and a decode failure
 * is `None`; a lookup yields the string found, "" when there is none.
 */
module Request {
  import opened Wrappers
  import opened Strings
  import opened Values
  import opened Errors
  import Walker

  /**
   * The json names of the root struct's own fields that are marked
   * required and hold a zero value, in declaration order. Nothing nested is
   * looked at.
   */
  function MissingFields(fs: seq<Field>): seq<string>
  {
    if fs == [] then []
    else
      var f := fs[|fs| - 1];
      MissingFields(fs[..|fs| - 1]) + (if IsRequired(f.tag) && IsZero(f.value) then [JsonName(f.tag)] else [])
  }

  /** The message of a missing-body-parameters error: the names joined with "," inside quotes. */
  function MissingMessage(names: seq<string>): string
  {
    "missing '" + Join(names, ",") + "'"
  }

  /**
   * What `Validate` and `ValidateString` return for a decoding result: the
   * body or an error, never both; the decoding error exactly when decoding
   * failed; otherwise the body itself when no root field is missing, and a
   * missing-body-parameters error naming the missing fields when some are.
   */
  function BodyOutcome(decoded: Option<Value>): (r: (Option<Value>, Option<Error>))
    requires decoded.Some? ==> decoded.value.Struct?
    ensures r.0.Some? <==> r.1.None?
    ensures r.1 == Some(DecodingError) <==> decoded.None?
    ensures r.0.Some? ==> r.0 == decoded
    ensures decoded.Some? ==>
      (r.0.Some? <==> MissingFields(decoded.value.fields) == [])
    ensures decoded.Some? && r.1.Some? ==>
      r.1.value == BodyParameterError(MissingMessage(MissingFields(decoded.value.fields))) &&
      IsClientError(r.1.value)
  {
    match decoded
    case None => (None, Some(DecodingError))
    case Some(v) =>
      var names := MissingFields(v.fields);
      if |names| > 0 then (None, Some(BodyParameterError(MissingMessage(names))))
      else (Some(v), None)
  }

  /** Validate[T]: decode the request body, then check the root struct's required fields. */
  method Validate(decoded: Option<Value>) returns (body: Option<Value>, err: Option<Error>)
    requires decoded.Some? ==> decoded.value.Struct?
    ensures (body, err) == BodyOutcome(decoded)
  {
    if decoded.None? {
      return None, Some(DecodingError);
    }
    var fields := decoded.value.fields;
    var errorList: seq<string> := [];
    for i := 0 to |fields|
      invariant errorList == MissingFields(fields[..i])
    {
      var jsonTags := fields[i].tag;
      if IsRequired(jsonTags) && IsZero(fields[i].value) {
        errorList := errorList + [JsonName(jsonTags)];
      }
      assert fields[..i + 1][..i] == fields[..i];
    }
    assert fields[..|fields|] == fields;
    if |errorList| > 0 {
      return None, Some(BodyParameterError("missing '" + Join(errorList, ",") + "'"));
    }
    return decoded, None;
  }

  /** ValidateString[T]: the same, for a body given as a string. */
  method ValidateString(decoded: Option<Value>) returns (body: Option<Value>, err: Option<Error>)
    requires decoded.Some? ==> decoded.value.Struct?
    ensures (body, err) == BodyOutcome(decoded)
  {
    if decoded.None? {
      return None, Some(DecodingError);
    }
    var fields := decoded.value.fields;
    var errorList: seq<string> := [];
    for i := 0 to |fields|
      invariant errorList == MissingFields(fields[..i])
    {
      var jsonTags := fields[i].tag;
      if IsRequired(jsonTags) && IsZero(fields[i].value) {
        errorList := errorList + [JsonName(jsonTags)];
      }
      assert fields[..i + 1][..i] == fields[..i];
    }
    assert fields[..|fields|] == fields;
    if |errorList| > 0 {
      return None, Some(BodyParameterError("missing '" + Join(errorList, ",") + "'"));
    }
    return decoded, None;
  }

  /**
   * Request.URLParam: the route parameter `id` as found by the router. A
   * non-empty value comes back with no error; an empty one becomes ""
   * with a missing-URL-parameter error whose message is `id`.
   */
  function URLParam(id: string, found: string): (r: (string, Option<Error>))
    ensures r.1.None? <==> found != ""
    ensures r.1.None? ==> r.0 == found
    ensures r.1.Some? ==> r.0 == "" && r.1.value == URLParameterError(id)
  {
    if found != "" then (found, None) else ("", Some(URLParameterError(id)))
  }

  /**
   * Request.QueryParam: the query parameter `id` as `FormValue` found it,
   * with the same contract as `URLParam` and a missing-query-parameter
   * error.
   */
  function QueryParam(id: string, found: string): (r: (string, Option<Error>))
    ensures r.1.None? <==> found != ""
    ensures r.1.None? ==> r.0 == found
    ensures r.1.Some? ==> r.0 == "" && r.1.value == QueryParameterError(id)
  {
    if found != "" then (found, None) else ("", Some(QueryParameterError(id)))
  }

  // ---------------------------------------------------------------------
  // Properties of the flat check
  // ---------------------------------------------------------------------

  /**
   * A name is listed exactly when some root field is required, holds a
   * zero value and has that name; no listed name holds a comma.
   */
  lemma {:induction false} MissingFieldsMembers(fs: seq<Field>)
    ensures forall s :: s in MissingFields(fs) <==>
      exists i :: 0 <= i < |fs| && Walker.Reported(fs[i]) && s == JsonName(fs[i].tag)
    ensures forall i | 0 <= i < |MissingFields(fs)| :: ',' !in MissingFields(fs)[i]
  {
    if fs != [] {
      var init, f := fs[..|fs| - 1], fs[|fs| - 1];
      MissingFieldsMembers(init);
      assert forall i | 0 <= i < |init| :: init[i] == fs[i];
    }
  }

  /** The list has one name per reported root field. */
  lemma {:induction false} MissingFieldsCount(fs: seq<Field>)
    ensures |MissingFields(fs)| == |set i | 0 <= i < |fs| && Walker.Reported(fs[i])|
  {
    if fs != [] {
      var init := fs[..|fs| - 1];
      MissingFieldsCount(init);
      var si := set i | 0 <= i < |init| && Walker.Reported(init[i]);
      var sf := set i | 0 <= i < |fs| && Walker.Reported(fs[i]);
      assert forall i | 0 <= i < |init| :: init[i] == fs[i];
      if Walker.Reported(fs[|fs| - 1]) {
        assert sf == si + {|fs| - 1};
      } else {
        assert sf == si;
      }
    }
  }

  /**
   * Every name the flat check lists is also a path the recursive walk
   * reports from the empty prefix: at the root a field's path is its bare
   * json name.
   */
  lemma {:induction false} FlatWithinDeep(fs: seq<Field>)
    ensures forall s | s in MissingFields(fs) :: s in Walker.Violations("", Struct(fs))
  {
    if fs != [] {
      var init, f := fs[..|fs| - 1], fs[|fs| - 1];
      FlatWithinDeep(init);
      assert Walker.Violations("", Struct(fs)) ==
        Walker.StructViolations("", init) + Walker.FieldViolations("", f);
    }
  }

  /**
   * The names can be read back from a missing-body-parameters message:
   * none holds a comma, so splitting the quoted text at "," gives them back.
   */
  lemma MessageNamesReadBack(fs: seq<Field>)
    requires MissingFields(fs) != []
    ensures var names := MissingFields(fs);
      var m := MissingMessage(names);
      |m| >= 10 && m[..9] == "missing '" && m[|m| - 1] == '\'' &&
      Split(m[9..|m| - 1], ',') == names
  {
    var names := MissingFields(fs);
    MissingFieldsMembers(fs);
    SplitJoin(names, ',');
    var m := MissingMessage(names);
    assert m[9..|m| - 1] == Join(names, ",");
  }

  /** Both validators give the same outcome for the same decoding result. */
  method ValidatorsAgree(decoded: Option<Value>) returns (same: bool)
    requires decoded.Some? ==> decoded.value.Struct?
    ensures same
  {
    var b1, e1 := Validate(decoded);
    var b2, e2 := ValidateString(decoded);
    same := b1 == b2 && e1 == e2;
  }
}
