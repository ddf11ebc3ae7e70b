# GitHub REST client: headers, pagination and rate-limit loop

A Dafny model of the decision logic of a small GitHub REST client
(`Content/auth_and_helpers.py`):

- **Header construction** (`build_headers`): the credential is the explicit
  token when it is non-empty, otherwise the `GITHUB_PAT` value; with neither the
  call fails with `MissingCredential` before any request. On success the result
  is exactly four headers: `Authorization: Bearer <token>`,
  `X-GitHub-Api-Version`, `Accept: application/vnd.github+json` and the fixed
  `User-Agent`.
- **The pagination loop** (`paginated_get`): one GET per iteration. A 403 whose
  `X-RateLimit-Remaining` is `"0"` is waited out (`max(reset - now, 0) + 1`
  seconds) and the identical request is repeated. An error status ends the
  sequence. Otherwise the decoded body is unwrapped into records: the elements
  of an `items` field, the elements of a list, or the body itself as one
  record. The loop then follows the `rel="next"` link (RFC 8288 section 3)
  without query params, and stops when there is none.
- **The client** (`GitHubClient`): headers built once at construction and
  never changed (`const headers`). Endpoints not starting with `"http"` are
  resolved under `https://api.github.com`, and empty keyword params become
  "no params".

The HTTP layer is replaced by data. A response is a `Pagination.Response`:
status, the two rate-limit headers, the already-decoded body (`Values.Json`)
and the already-parsed next link. The server is a finite script of
`Exchange`s: the k-th request is answered by the k-th exchange, which also
carries the clock reading when that response is handled. The loop returns an
`Outcome`: the records emitted, the trace of attempts (each request with what
the loop did with its response, including the computed wait), and why it
stopped (`Finished`, `Failed(error)`, or `ScriptExhausted` when the script
ends before the loop does).

`Pagination.Fetch` is the loop as a recursive specification.
`Pagination.PaginatedGet` is the loop as the source writes it: a `while` over
the next URL and the params, with `continue` on a rate limit. It is proved
equal to `Fetch`. The lemmas in `PaginationProperties` state the loop's
promises over `Fetch`'s trace.

Files: `wrappers.dfy` (Option, Result), `values.dfy` (JSON values, headers,
params, errors), `headers.dfy`, `pagination.dfy`, `pagination_properties.dfy`,
`client.dfy`, `scenarios.dfy` (concrete runs).

An error status is one that `raise_for_status` rejects: 400 to 599. Other
statuses, including any above 599, are treated as pages, so
`Pagination.IsHttpError` is exactly that range rather than "every non-success
status".

## Model

| member | source | states |
|---|---|---|
| RequestHeaders.ChooseToken | Content/auth_and_helpers.py:30 | the explicit token wins when non-empty, else the environment value when non-empty, else none; a chosen token is never empty |
| RequestHeaders.BuildHeaders | Content/auth_and_helpers.py:27-39 | fails with MissingCredential exactly when neither token source is non-empty; otherwise exactly four keys (Authorization, X-GitHub-Api-Version, Accept, User-Agent) with the bearer token of the winning source, the given API version, the fixed media type and the fixed user agent |
| RequestHeaders.AuthorizationCarriesToken | Content/auth_and_helpers.py:35 | the Authorization value is "Bearer " followed by the chosen token, so the token can be read back from it |
| Pagination.BackoffSeconds | Content/auth_and_helpers.py:54-55 | the wait is at least 1, takes the clock strictly past the reset time, is the least such positive wait, and is 1 whenever the reset time has passed |
| Pagination.Elements | Content/auth_and_helpers.py:64-66 | a list yields its elements, a string yields each of its characters as a one-character string record in order, and any other value fails with NotIterable carrying that value |
| Pagination.Unwrap | Content/auth_and_helpers.py:63-66 | a mapping with "items" yields the elements of that field; a list yields its elements; anything else, a mapping without "items" included, yields exactly one record equal to the body |
| Pagination.NextUrl | Content/auth_and_helpers.py:69 | the next URL is the link target when there is a next link and empty otherwise |
| Pagination.Decide | Content/auth_and_helpers.py:53-69 | back off exactly when the status is 403, the remaining header is "0" and a reset is given, with the computed wait; such a response without a reset header fails with MissingRateLimitReset; any other 400-599 status fails with that status; otherwise a body that does not unwrap fails with the unwrapping error, and a page is produced exactly when none of these applies, carrying the unwrapped records and the next URL |
| Pagination.PaginatedGet | Content/auth_and_helpers.py:42-70 | the while loop over the next URL and the params produces exactly the outcome of the specification Fetch: the same records, the same trace of attempts and the same stop reason |
| PaginationProperties.FetchAnswersInOrder | Content/auth_and_helpers.py:49-50 | at most one request per scripted response; the k-th attempt is decided by the k-th response; every request carries the given headers unchanged |
| PaginationProperties.FetchFirstRequest | Content/auth_and_helpers.py:48-50 | a request is issued exactly when the starting URL is non-empty and the server answers; the first is for the starting URL with the caller's params; an empty URL issues nothing and yields nothing |
| PaginationProperties.FetchChain | Content/auth_and_helpers.py:53-70 | no attempt but the last fails; after a rate-limited attempt the identical request is issued again; after a page the next request is for its next link with no params |
| PaginationProperties.FetchParams | Content/auth_and_helpers.py:50-70 | every request before the first successful page carries the caller's params and every request after it (rate-limit retries included) carries none |
| PaginationProperties.FetchRecords | Content/auth_and_helpers.py:63-66 | the records returned are the concatenation, in fetch order, of the unwrapped records of the successful pages; rate-limited and failed attempts contribute nothing |
| PaginationProperties.FetchStop | Content/auth_and_helpers.py:49-69 | a failure or a page without a next link is always the last attempt; the loop fails exactly when its last attempt failed, with that error; it finishes exactly on an empty start URL or a last page without a next link; it only runs out of script after using all of it |
| Client.ResolveUrl | Content/auth_and_helpers.py:81 | an endpoint starting with "http" is used unchanged, any other becomes the base URL followed by the endpoint; the result always starts with "http" and ends with the endpoint |
| Client.ResolveUrlIdempotent | Content/auth_and_helpers.py:81 | resolving an already resolved URL leaves it unchanged |
| Client.ParamsOrNone | Content/auth_and_helpers.py:82 | an empty params mapping becomes no params, a non-empty one is passed as it is |
| Client.GitHubClient.Create | Content/auth_and_helpers.py:76-78 | creating a client fails with MissingCredential exactly when building the headers with the latest API version does; otherwise the new client holds those headers |
| Client.GitHubClient.Get | Content/auth_and_helpers.py:80-82 | a call runs the pagination loop from the resolved URL with the shaped params and the client's headers; when the server answers, the first request goes to the resolved URL |
| Scenarios.TwoPages | Content/auth_and_helpers.py:49-70 | a page linking to a second page without a next link gives exactly two requests, the second without params, and the first page's records followed by the second's |
| Scenarios.RateLimitThenPage | Content/auth_and_helpers.py:53-58 | a rate-limited response followed by a page gives two identical requests, the computed wait, and only the page's records |
| Scenarios.ErrorStatusEndsSequence | Content/auth_and_helpers.py:53-60 | a 500, or a 403 with quota left, fails with that status after one request and no records, whatever the server would send next |
| Scenarios.ItemsWrapperIsTransparent | Content/auth_and_helpers.py:63-66 | a mapping with "items" holding a list yields the same records as that bare list |
| Scenarios.SelfLinkNeverFinishes | Content/auth_and_helpers.py:49-70 | a page whose next link is its own URL is fetched again for as long as the server answers; the loop never finishes and only running out of script ends it |

## Left out

- The `requests` library: the session object, the 30-second timeout, transport errors and redirects. The session is not modelled: with a scripted server it holds no state the loop depends on.
- JSON decoding and its decode error: bodies are given already decoded. JSON numbers are integers in `Values.Json`; floating point is not modelled.
- Link-header parsing: the next link is given already parsed, as an optional string.
- Parsing `X-RateLimit-Reset` with `int(...)`: the header is given as an optional integer. A missing header fails with `MissingRateLimitReset`, as the source's dictionary lookup raises. A header that does not parse is not modelled.
- Wall-clock time, the sleep and the printed notice: the clock reading is part of each scripted exchange, and the computed wait is recorded in the trace instead of slept.
- Laziness of the generator: the loop returns all records eagerly, with the trace.
- Termination: the source's loop is unbounded in two ways. A rate limit can be retried forever, and nothing checks for a repeated next link, so a page that links to itself (or a cycle of pages) is fetched forever. Pagination is therefore not guaranteed to move strictly forward. In the model only the finite script ends such runs, with `ScriptExhausted`; `Scenarios.SelfLinkNeverFinishes` shows this for a self-linking page.
- Reading the real environment variable: `GITHUB_PAT`'s value is an optional argument.
- Elements: when "items" holds a JSON object, Python iterates its keys in document order. The model's objects are unordered maps, so `Elements` reports this case as `NotIterable` instead.
- Unwrap: inherits the deviation above through `Elements` when "items" holds a JSON object.
- The convenience helpers `search_repositories`, `commits` and `contents`: only string formatting around `get`.
- The command-line entry point (argparse and printing).
