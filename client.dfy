/**
 * The client wrapper: headers built once at construction, endpoints resolved
 * against the API's base URL, and every call delegated to the pagination loop.
 */
module Client {
  import opened Wrappers
  import opened Values
  import opened RequestHeaders
  import opened Pagination

  const BaseUrl: string := "https://api.github.com"

  predicate StartsWith(s: string, prefix: string) {
    |prefix| <= |s| && s[..|prefix|] == prefix
  }

  predicate EndsWith(s: string, suffix: string) {
    |suffix| <= |s| && s[|s| - |suffix|..] == suffix
  }

  /**
   * The URL for an endpoint: an endpoint starting with "http" is already
   * absolute, any other is a path under the base URL.
   */
  function ResolveUrl(endpoint: string): (url: string)
    ensures StartsWith(url, "http")
    ensures EndsWith(url, endpoint)
    ensures StartsWith(endpoint, "http") ==> url == endpoint
    ensures !StartsWith(endpoint, "http") ==> StartsWith(url, BaseUrl) && |url| == |BaseUrl| + |endpoint|
  {
    if StartsWith(endpoint, "http") then endpoint
    else
      var url := BaseUrl + endpoint;
      assert url[..4] == BaseUrl[..4];
      assert url[|url| - |endpoint|..] == endpoint;
      url
  }

  /** Resolving a resolved URL changes nothing. */
  lemma ResolveUrlIdempotent(endpoint: string)
    ensures ResolveUrl(ResolveUrl(endpoint)) == ResolveUrl(endpoint)
  {
  }

  /** Keyword params as the loop receives them: an empty mapping becomes no params. */
  function ParamsOrNone(params: Params): (r: Option<Params>)
    ensures r.None? <==> params == map[]
    ensures r.Some? ==> r.value == params
  {
    if params == map[] then None else Some(params)
  }

  class GitHubClient {
    /** The headers every call carries; fixed when the client is created. */
    const headers: Headers

    constructor WithHeaders(h: Headers)
      ensures headers == h
    {
      headers := h;
    }

    /**
     * A client authenticated with the explicit token or, failing that, the
     * GITHUB_PAT value; MissingCredential when there is neither.
     */
    static method Create(token: Option<string>, env: Option<string>)
      returns (r: Result<GitHubClient, Error>)
      ensures r.Err? <==> BuildHeaders(token, env, LatestApiVersion).Err?
      ensures r.Err? ==> r.error == MissingCredential
      ensures r.Ok? ==> fresh(r.value)
                        && r.value.headers == BuildHeaders(token, env, LatestApiVersion).value
    {
      var built := BuildHeaders(token, env, LatestApiVersion);
      if built.Err? {
        r := Err(built.error);
      } else {
        var client := new GitHubClient.WithHeaders(built.value);
        r := Ok(client);
      }
    }

    /**
     * All records of an endpoint, following next links from the resolved
     * URL; the script answers the requests in order.
     */
    method Get(endpoint: string, params: Params, script: seq<Exchange>) returns (o: Outcome)
      ensures o == Fetch(ResolveUrl(endpoint), ParamsOrNone(params), headers, script)
      ensures script != [] ==> o.attempts != []
                               && o.attempts[0].request.url == ResolveUrl(endpoint)
                               && o.attempts[0].request.headers == headers
      ensures script == [] ==> o == Outcome([], [], ScriptExhausted)
    {
      o := PaginatedGet(ResolveUrl(endpoint), ParamsOrNone(params), headers, script);
    }
  }
}
