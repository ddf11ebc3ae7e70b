/**
 * The values the client exchanges with the server: decoded JSON documents,
 * header and query-parameter mappings, and the errors the client raises.
 */
module Values {

  /** A JSON document as the server's response body decodes to. */
  datatype Json =
    | Null
    | Bool(b: bool)
    | Num(n: int)
    | Str(s: string)
    | List(elems: seq<Json>)
    | Obj(fields: map<string, Json>)

  /** Request headers, header name to value. */
  type Headers = map<string, string>

  /** Query parameters of a request. */
  type Params = map<string, string>

  /** The failures the client surfaces to its caller. */
  datatype Error =
    | MissingCredential          // no token passed and none in the environment
    | HttpError(status: int)     // a 400-599 status that is not a rate limit
    | MissingRateLimitReset      // a rate-limited response without a reset header
    | NotIterable(value: Json)   // an "items" field whose value cannot be iterated
}
