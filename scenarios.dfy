/**
 * Concrete runs of the pagination loop: two linked pages, a rate limit
 * followed by success, and error statuses that end the sequence at once.
 */
module Scenarios {
  import opened Wrappers
  import opened Values
  import opened Pagination

  function Ok200(body: Json, next: Option<string>): Response {
    Response(200, None, None, body, next)
  }

  /** Page one links to page two, which has no next link: two requests, records in order. */
  lemma TwoPages(first: string, second: string, params: Option<Params>, headers: Headers,
                 xs: seq<Json>, ys: seq<Json>, t1: int, t2: int, more: seq<Exchange>)
    requires first != "" && second != ""
    ensures var script := [Exchange(Ok200(List(xs), Some(second)), t1),
                           Exchange(Ok200(Obj(map["items" := List(ys)]), None), t2)] + more;
      Fetch(first, params, headers, script)
        == Outcome(xs + ys,
                   [Attempt(Request(first, params, headers), Page(xs, second)),
                    Attempt(Request(second, None, headers), Page(ys, ""))],
                   Finished)
  {
    var script := [Exchange(Ok200(List(xs), Some(second)), t1),
                   Exchange(Ok200(Obj(map["items" := List(ys)]), None), t2)] + more;
    assert script[1..][1..] == more;
    assert Decide(script[0]) == Page(xs, second);
    assert Decide(script[1..][0]) == Page(ys, "");
    assert Fetch("", None, headers, script[1..][1..]) == Outcome([], [], Finished);
    assert ys + [] == ys;
    var last := Fetch(second, None, headers, script[1..]);
    assert last == Outcome(ys, [Attempt(Request(second, None, headers), Page(ys, ""))], Finished);
  }

  /** A rate-limited 403 is waited out and the identical request is issued again. */
  lemma RateLimitThenPage(url: string, params: Option<Params>, headers: Headers, reset: int,
                          now: int, later: int, limitedBody: Json, xs: seq<Json>)
    requires url != ""
    ensures var limited := Response(403, Some("0"), Some(reset), limitedBody, None);
      var script := [Exchange(limited, now), Exchange(Ok200(List(xs), None), later)];
      var request := Request(url, params, headers);
      Fetch(url, params, headers, script)
        == Outcome(xs,
                   [Attempt(request, Backoff(if reset > now then reset - now + 1 else 1)),
                    Attempt(request, Page(xs, ""))],
                   Finished)
  {
    var limited := Response(403, Some("0"), Some(reset), limitedBody, None);
    var script := [Exchange(limited, now), Exchange(Ok200(List(xs), None), later)];
    assert script[1..][1..] == [];
    var request := Request(url, params, headers);
    assert Decide(script[1..][0]) == Page(xs, "");
    assert Fetch(url, params, headers, script[1..]) == Outcome(xs, [Attempt(request, Page(xs, ""))], Finished);
  }

  /**
   * A 500, or a 403 with quota left, fails at once: one request, no records,
   * whatever the server would have answered next.
   */
  lemma ErrorStatusEndsSequence(url: string, params: Option<Params>, headers: Headers,
                                status: int, remaining: Option<string>, body: Json,
                                now: int, more: seq<Exchange>)
    requires url != ""
    requires status == 500 || (status == 403 && remaining != Some("0"))
    ensures var response := Response(status, remaining, None, body, None);
      Fetch(url, params, headers, [Exchange(response, now)] + more)
        == Outcome([], [Attempt(Request(url, params, headers), Fail(HttpError(status)))],
                   Failed(HttpError(status)))
  {
  }

  /** A search-style body and a bare list with the same elements yield the same records. */
  lemma ItemsWrapperIsTransparent(xs: seq<Json>, others: map<string, Json>)
    ensures Unwrap(Obj(others["items" := List(xs)])) == Unwrap(List(xs)) == Ok(xs)
  {
  }

  /**
   * Nothing stops a page that links to itself: however long the server keeps
   * answering, the loop never finishes and only running out of script ends it.
   */
  lemma {:induction false} SelfLinkNeverFinishes(url: string, params: Option<Params>, headers: Headers,
                                                 xs: seq<Json>, script: seq<Exchange>)
    requires url != ""
    requires forall k :: 0 <= k < |script| ==> script[k].response == Ok200(List(xs), Some(url))
    ensures Fetch(url, params, headers, script).stop == ScriptExhausted
    ensures |Fetch(url, params, headers, script).attempts| == |script|
    decreases |script|
  {
    if script != [] {
      assert Decide(script[0]) == Page(xs, url);
      SelfLinkNeverFinishes(url, None, headers, xs, script[1..]);
    }
  }
}
