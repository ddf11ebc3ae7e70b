/**
 * Construction of the request headers every call carries: a bearer token,
 * the REST API version, the media type and the client's identification.
 */
module RequestHeaders {
  import opened Wrappers
  import opened Values

  const LatestApiVersion: string := "2022-11-28"
  const UserAgent: string := "data-source-api-analyst-homework/0.1"
  const AcceptMediaType: string := "application/vnd.github+json"

  const AuthorizationKey: string := "Authorization"
  const ApiVersionKey: string := "X-GitHub-Api-Version"
  const AcceptKey: string := "Accept"
  const UserAgentKey: string := "User-Agent"

  /** Python truthiness of an optional string: present and non-empty. */
  predicate Given(s: Option<string>) {
    s.Some? && s.value != ""
  }

  /**
   * The credential in force: the explicit token when it is given, otherwise
   * the value of the GITHUB_PAT environment variable when that is given.
   */
  function ChooseToken(explicit: Option<string>, env: Option<string>): (t: Option<string>)
    ensures t.Some? <==> Given(explicit) || Given(env)
    ensures t.Some? ==> t.value != ""
    ensures Given(explicit) ==> t == explicit
    ensures !Given(explicit) && Given(env) ==> t == env
  {
    if Given(explicit) then explicit
    else if Given(env) then env
    else None
  }

  /**
   * The four headers for a token and API version, or MissingCredential when
   * neither the explicit token nor the environment supplies one.
   */
  function BuildHeaders(explicit: Option<string>, env: Option<string>, apiVersion: string)
    : (r: Result<Headers, Error>)
    ensures r.Err? <==> !Given(explicit) && !Given(env)
    ensures r.Err? ==> r.error == MissingCredential
    ensures r.Ok? ==> r.value.Keys == {AuthorizationKey, ApiVersionKey, AcceptKey, UserAgentKey}
    ensures r.Ok? ==> |r.value| == 4
    ensures r.Ok? && Given(explicit) ==> r.value[AuthorizationKey] == "Bearer " + explicit.value
    ensures r.Ok? && !Given(explicit) ==> r.value[AuthorizationKey] == "Bearer " + env.value
    ensures r.Ok? ==> r.value[ApiVersionKey] == apiVersion
    ensures r.Ok? ==> r.value[AcceptKey] == AcceptMediaType && r.value[UserAgentKey] == UserAgent
  {
    match ChooseToken(explicit, env)
    case None => Err(MissingCredential)
    case Some(token) =>
      var h := map[AuthorizationKey := "Bearer " + token,
                   ApiVersionKey := apiVersion,
                   AcceptKey := AcceptMediaType,
                   UserAgentKey := UserAgent];
      assert h.Keys == {AuthorizationKey, ApiVersionKey, AcceptKey, UserAgentKey};
      Ok(h)
  }

  /** The bearer token can be read back from the Authorization header. */
  lemma AuthorizationCarriesToken(explicit: Option<string>, env: Option<string>, apiVersion: string)
    requires BuildHeaders(explicit, env, apiVersion).Ok?
    ensures var auth := BuildHeaders(explicit, env, apiVersion).value[AuthorizationKey];
      |auth| > |"Bearer "| && auth[..7] == "Bearer " && Some(auth[7..]) == ChooseToken(explicit, env)
  {
  }
}
