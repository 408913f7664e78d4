/**
 * The error records the request helpers hand back (errors.go). An `Error`
 * carries a machine-readable code, a human-readable message and the HTTP
 * status the error handler answers with. Go's `error` arguments are given
 * by their `Error()` text.
 */
module Errors {

  datatype Error = Error(error: string, message: string, statusCode: int)

  /** The preset errors are built without a status code, so it is Go's zero value. */
  const WritingError := Error("writingError", "error while writing response", 0)
  const ParseError := Error("parseError", "error while parsing response", 0)
  const DecodingError := Error("decodingError", "error while decoding request body", 0)

  /** A client error: a status code in the 4xx range. */
  predicate IsClientError(e: Error)
  {
    400 <= e.statusCode < 500
  }

  /** A server error: a status code in the 5xx range. */
  predicate IsServerError(e: Error)
  {
    500 <= e.statusCode < 600
  }

  function ValidatingError(e: string): (r: Error)
    ensures r.error == "validatingError" && r.message == e
    ensures IsClientError(r) && r.statusCode == 400
  {
    Error("validatingError", e, 400)
  }

  function URLParameterError(e: string): (r: Error)
    ensures r.error == "missingURLParameters" && r.message == e
    ensures IsClientError(r) && r.statusCode == 400
  {
    Error("missingURLParameters", e, 400)
  }

  function QueryParameterError(e: string): (r: Error)
    ensures r.error == "missingQueryParameters" && r.message == e
    ensures IsClientError(r) && r.statusCode == 400
  {
    Error("missingQueryParameters", e, 400)
  }

  function BodyParameterError(e: string): (r: Error)
    ensures r.error == "missingBodyParameters" && r.message == e
    ensures IsClientError(r) && r.statusCode == 400
  {
    Error("missingBodyParameters", e, 400)
  }

  function UnknownError(e: string): (r: Error)
    ensures r.error == "unknownError" && r.message == e
    ensures IsServerError(r) && r.statusCode == 500
  {
    Error("unknownError", e, 500)
  }

  function Unauthorized(): (r: Error)
    ensures r.error == "unauthorized" && r.message == "invalid token"
    ensures IsClientError(r) && r.statusCode == 401
  {
    Error("unauthorized", "invalid token", 401)
  }

  /**
   * The presets carry status 0, so they are neither client nor server
   * errors, and their codes differ from every constructor-built error's:
   * a decode failure can never be mistaken for a missing parameter.
   */
  lemma PresetsCarryNoStatus(m: string)
    ensures forall e | e in {WritingError, ParseError, DecodingError} ::
      e.statusCode == 0 && !IsClientError(e) && !IsServerError(e)
    ensures DecodingError != BodyParameterError(m) && DecodingError != ValidatingError(m)
    ensures DecodingError.error !in {BodyParameterError(m).error, URLParameterError(m).error,
      QueryParameterError(m).error, ValidatingError(m).error, UnknownError(m).error, Unauthorized().error}
  {
  }
}
