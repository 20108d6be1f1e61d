/**
 * The data a request handler sees and produces: the decoded request, the
 * argument map it builds, the target function's outcome and the reply.
 * The transport (aiohttp) and the body decoders are replaced by plain values.
 */
module Web {
  import opened Wrappers
  import opened Signature

  /** A JSON value as `request.json()` decodes it (numbers are kept as integers). */
  datatype Json =
    | JNull
    | JBool(b: bool)
    | JNumber(n: int)
    | JString(s: string)
    | JArray(items: seq<Json>)
    | JObject(fields: map<string, Json>)

  /**
   * One decoded request. `contentType` is empty when the header is missing;
   * `jsonBody` and `form` are what `request.json()` and `request.post()` would
   * return for this body; `query` is the ordered list of (key, value) pairs that
   * `parse.parse_qs` extracts from `queryString`; `matchInfo` holds the path variables.
   */
  datatype Request = Request(
    httpMethod: string,
    contentType: string,
    jsonBody: Json,
    form: map<string, string>,
    queryString: string,
    query: seq<(string, string)>,
    matchInfo: map<string, string>)

  /** A value in the argument map: a string, a decoded JSON value, or the request object itself. */
  datatype Value = Text(s: string) | JsonValue(j: Json) | RequestObject(req: Request)

  /** The keyword-argument map `kw` the handler builds and expands into the call. */
  type Args = map<string, Value>

  /** What calling the target function does: return a value, raise `APIError`, or raise anything else. */
  datatype Outcome =
    | Returned(v: Value)
    | Raised(error: string, data: string, message: string)
    | Crashed

  /**
   * What `RequestHandler.__call__` produces: a Bad Request with its message, the target's
   * value passed through, the dict built from an `APIError`, or an exception that propagates.
   */
  datatype Reply =
    | BadRequest(msg: string)
    | Body(v: Value)
    | ApiErrorDict(error: string, data: string, message: string)
    | Propagated

  /**
   * A Python function as the registration code sees it: its signature, the
   * `__method__` and `__route__` attributes (None when absent) and its behaviour.
   */
  datatype Func = Func(
    params: seq<Param>,
    methodTag: Option<string>,
    routeTag: Option<string>,
    call: Args -> Outcome)

  /** ASCII lower-casing of one character. */
  function LowerChar(c: char): char
  {
    if 'A' <= c <= 'Z' then (c as int + 32) as char else c
  }

  /** `str.lower()` restricted to ASCII letters. */
  function Lower(s: string): string
  {
    seq(|s|, i requires 0 <= i < |s| => LowerChar(s[i]))
  }

  /** `str.startswith(prefix)`. */
  predicate StartsWith(s: string, prefix: string)
  {
    |prefix| <= |s| && s[..|prefix|] == prefix
  }
}
