/** The slice of an API Gateway proxy event and result that the handlers use. */
module Http {
  import opened Wrappers
  import opened JsValues

  /** `requestContext.http` of an HTTP API (payload version 2) event; `verb` is its `method` field. */
  datatype HttpInfo = HttpInfo(verb: Option<string>)

  datatype RequestContext = RequestContext(http: Option<HttpInfo>)

  /**
   * An incoming event: `httpMethod` is set by REST APIs, `requestContext.http.method`
   * by HTTP APIs; `body` is the raw request text, or null.
   */
  datatype ApiEvent = ApiEvent(
    httpMethod: Option<string>,
    requestContext: Option<RequestContext>,
    body: Option<string>)

  /** A handler result; the body is the value that is serialized with `JSON.stringify`. */
  datatype Response = Response(statusCode: int, body: JsonValue)

  /** A string-or-null event field is truthy: present and not the empty string. */
  predicate TruthyText(field: Option<string>)
  {
    field.Some? && field.value != ""
  }
}
