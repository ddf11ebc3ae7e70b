/**
 * The pagination and rate-limit loop. The server is replaced by a finite
 * script: the k-th request the loop issues is answered by the k-th exchange,
 * which also carries the clock reading at that moment. Instead of sleeping,
 * the loop records the wait it computed in its trace of attempts.
 */
module Pagination {
  import opened Wrappers
  import opened Values

  /** One HTTP response, with the headers and link the loop consults. */
  datatype Response = Response(
    status: int,
    rateLimitRemaining: Option<string>,  // X-RateLimit-Remaining
    rateLimitReset: Option<int>,         // X-RateLimit-Reset, epoch seconds
    body: Json,                          // the decoded body
    next: Option<string>)                // target of the rel="next" link

  /** A response together with the clock reading (epoch seconds) when it is handled. */
  datatype Exchange = Exchange(response: Response, now: int)

  /** One GET the loop issues. */
  datatype Request = Request(url: string, params: Option<Params>, headers: Headers)

  /** What the loop does with one response. */
  datatype Action =
    | Backoff(wait: int)                       // rate-limited: wait, then repeat the request
    | Fail(error: Error)                       // abort the sequence
    | Page(records: seq<Json>, next: string)   // emit the records, continue at next ("" ends)

  datatype Attempt = Attempt(request: Request, action: Action)

  /** Why the loop ended: no next page, an error, or the script ran out. */
  datatype Stop = Finished | Failed(error: Error) | ScriptExhausted

  /** The records emitted, the attempts made (in order), and why the loop ended. */
  datatype Outcome = Outcome(records: seq<Json>, attempts: seq<Attempt>, stop: Stop)

  // ---------------------------------------------------------------------------
  // One step

  /** A 403 whose remaining-quota header is exactly "0". */
  predicate IsRateLimited(r: Response) {
    r.status == 403 && r.rateLimitRemaining == Some("0")
  }

  /** The statuses for which raising for status fails: client and server errors. */
  predicate IsHttpError(status: int) {
    400 <= status < 600
  }

  /**
   * Seconds to sleep before retrying: the least positive wait after which
   * the clock has passed the reset time.
   */
  function BackoffSeconds(reset: int, now: int): (wait: int)
    ensures wait >= 1
    ensures now + wait > reset
    ensures wait == 1 || now + (wait - 1) <= reset
    ensures reset <= now ==> wait == 1
  {
    (if reset - now > 0 then reset - now else 0) + 1
  }

  /** One record per character, as iterating a string does. */
  function Characters(s: string): (r: seq<Json>)
    ensures |r| == |s|
    ensures forall i :: 0 <= i < |s| ==> r[i] == Str([s[i]])
  {
    seq(|s|, i requires 0 <= i < |s| => Str([s[i]]))
  }

  /** The records carried by an iterable JSON value, in order. */
  function Elements(v: Json): (r: Result<seq<Json>, Error>)
    ensures v.List? ==> r == Ok(v.elems)
    ensures v.Str? ==> r == Ok(Characters(v.s))
    ensures r.Err? <==> !v.List? && !v.Str?
    ensures r.Err? ==> r.error == NotIterable(v)
  {
    match v
    case List(xs) => Ok(xs)
    case Str(s) => Ok(Characters(s))
    case _ => Err(NotIterable(v))
  }

  /**
   * The records of a decoded body: the elements of an "items" field of a
   * mapping, the elements of a list, or the body itself as the one record.
   */
  function Unwrap(body: Json): (r: Result<seq<Json>, Error>)
    ensures body.Obj? && "items" in body.fields ==> r == Elements(body.fields["items"])
    ensures body.List? ==> r == Ok(body.elems)
    ensures !body.List? && !(body.Obj? && "items" in body.fields) ==> r == Ok([body])
  {
    if body.Obj? && "items" in body.fields then Elements(body.fields["items"])
    else if body.List? then Ok(body.elems)
    else Ok([body])
  }

  /** The URL to fetch next: the next link's target, or "" when there is none. */
  function NextUrl(next: Option<string>): (u: string)
    ensures next.Some? ==> u == next.value
    ensures next.None? ==> u == ""
  {
    match next
    case Some(u) => u
    case None => ""
  }

  /** What the loop does with the response of one exchange. */
  function Decide(e: Exchange): (a: Action)
    ensures a.Backoff? <==> IsRateLimited(e.response) && e.response.rateLimitReset.Some?
    ensures a.Backoff? ==> a.wait == BackoffSeconds(e.response.rateLimitReset.value, e.now)
    ensures IsRateLimited(e.response) && e.response.rateLimitReset.None?
      ==> a == Fail(MissingRateLimitReset)
    ensures !IsRateLimited(e.response) && IsHttpError(e.response.status)
      ==> a == Fail(HttpError(e.response.status))
    ensures !IsRateLimited(e.response) && !IsHttpError(e.response.status)
            && Unwrap(e.response.body).Err?
      ==> a == Fail(Unwrap(e.response.body).error)
    ensures a.Page? <==> !IsRateLimited(e.response) && !IsHttpError(e.response.status)
                         && Unwrap(e.response.body).Ok?
    ensures a.Page? ==> a.records == Unwrap(e.response.body).value
                        && a.next == NextUrl(e.response.next)
  {
    var r := e.response;
    if IsRateLimited(r) then
      match r.rateLimitReset
      case None => Fail(MissingRateLimitReset)
      case Some(reset) => Backoff(BackoffSeconds(reset, e.now))
    else if IsHttpError(r.status) then
      Fail(HttpError(r.status))
    else
      match Unwrap(r.body)
      case Err(err) => Fail(err)
      case Ok(records) => Page(records, NextUrl(r.next))
  }

  // ---------------------------------------------------------------------------
  // The whole loop, as a specification

  /** The outcome o continued after some records and attempts already made. */
  function After(records: seq<Json>, attempts: seq<Attempt>, o: Outcome): Outcome {
    Outcome(records + o.records, attempts + o.attempts, o.stop)
  }

  /**
   * The loop from a current URL and params: stop when the URL is empty,
   * otherwise issue one request, answered by the first exchange of the script.
   */
  function Fetch(url: string, params: Option<Params>, headers: Headers, script: seq<Exchange>)
    : Outcome
    decreases |script|
  {
    if url == "" then Outcome([], [], Finished)
    else if script == [] then Outcome([], [], ScriptExhausted)
    else
      var attempt := Attempt(Request(url, params, headers), Decide(script[0]));
      match attempt.action
      case Backoff(_) => After([], [attempt], Fetch(url, params, headers, script[1..]))
      case Fail(err) => Outcome([], [attempt], Failed(err))
      case Page(records, next) => After(records, [attempt], Fetch(next, None, headers, script[1..]))
  }

  /**
   * The loop as the client runs it: repeat one GET per iteration, retrying
   * the same request after a rate limit, until there is no next page.
   */
  method PaginatedGet(url: string, params: Option<Params>, headers: Headers, script: seq<Exchange>)
    returns (o: Outcome)
    ensures o == Fetch(url, params, headers, script)
  {
    var nextUrl, currentParams := url, params;
    var records: seq<Json> := [];
    var attempts: seq<Attempt> := [];
    var i := 0;
    while nextUrl != ""
      invariant 0 <= i <= |script|
      invariant Fetch(url, params, headers, script)
             == After(records, attempts, Fetch(nextUrl, currentParams, headers, script[i..]))
      decreases |script| - i
    {
      if i == |script| {
        return Outcome(records, attempts, ScriptExhausted);
      }
      var response, now := script[i].response, script[i].now;
      var request := Request(nextUrl, currentParams, headers);
      assert script[i..][1..] == script[i + 1..];
      i := i + 1;

      if IsRateLimited(response) {
        if response.rateLimitReset.None? {
          return Outcome(records, attempts + [Attempt(request, Fail(MissingRateLimitReset))],
                         Failed(MissingRateLimitReset));
        }
        var wait := BackoffSeconds(response.rateLimitReset.value, now);
        attempts := attempts + [Attempt(request, Backoff(wait))];
        continue;
      }

      if IsHttpError(response.status) {
        var err := HttpError(response.status);
        return Outcome(records, attempts + [Attempt(request, Fail(err))], Failed(err));
      }
      var page := Unwrap(response.body);
      if page.Err? {
        return Outcome(records, attempts + [Attempt(request, Fail(page.error))], Failed(page.error));
      }
      nextUrl := NextUrl(response.next);
      attempts := attempts + [Attempt(request, Page(page.value, nextUrl))];
      records := records + page.value;
      currentParams := None;
    }
    o := Outcome(records, attempts, Finished);
  }
}
