/**
 * What the pagination loop promises, stated over the trace of attempts that
 * Pagination.Fetch produces: responses are consumed in order, a rate-limited
 * request is repeated unchanged, the next link is followed without params,
 * the records are the successful pages' records in fetch order, and the loop
 * ends exactly at an error or a page without a next link.
 */
module PaginationProperties {
  import opened Wrappers
  import opened Values
  import opened Pagination

  /** The records of the successful pages among the attempts, in order. */
  function PageRecords(attempts: seq<Attempt>): seq<Json> {
    if attempts == [] then []
    else
      (if attempts[0].action.Page? then attempts[0].action.records else [])
      + PageRecords(attempts[1..])
  }

  /** The number of successful pages among the attempts. */
  function Pages(attempts: seq<Attempt>): nat {
    if attempts == [] then 0
    else (if attempts[0].action.Page? then 1 else 0) + Pages(attempts[1..])
  }

  /** The request the loop issues after an attempt that did not fail. */
  function Following(a: Attempt, headers: Headers): Request
    requires !a.action.Fail?
  {
    match a.action
    case Backoff(_) => a.request
    case Page(_, next) => Request(next, None, headers)
  }

  /** An attempt after which the loop does not issue another request. */
  predicate Final(a: Attempt) {
    a.action.Fail? || (a.action.Page? && a.action.next == "")
  }

  /** The k-th request is answered by the k-th exchange and carries the given headers. */
  lemma {:induction false} FetchAnswersInOrder(url: string, params: Option<Params>, headers: Headers,
                                               script: seq<Exchange>)
    ensures var o := Fetch(url, params, headers, script);
      && |o.attempts| <= |script|
      && (forall k :: 0 <= k < |o.attempts| ==> o.attempts[k].action == Decide(script[k]))
      && (forall k :: 0 <= k < |o.attempts| ==> o.attempts[k].request.headers == headers)
    decreases |script|
  {
    if url != "" && script != [] {
      var o := Fetch(url, params, headers, script);
      match Decide(script[0])
      case Fail(_) =>
      case Backoff(_) =>
        FetchAnswersInOrder(url, params, headers, script[1..]);
        var rest := Fetch(url, params, headers, script[1..]);
        assert forall k :: 1 <= k < |o.attempts| ==> o.attempts[k] == rest.attempts[k - 1];
      case Page(_, next) =>
        FetchAnswersInOrder(next, None, headers, script[1..]);
        var rest := Fetch(next, None, headers, script[1..]);
        assert forall k :: 1 <= k < |o.attempts| ==> o.attempts[k] == rest.attempts[k - 1];
    }
  }

  /** The first request is for the starting URL with the caller's params; none is issued for "". */
  lemma FetchFirstRequest(url: string, params: Option<Params>, headers: Headers, script: seq<Exchange>)
    ensures var o := Fetch(url, params, headers, script);
      && (o.attempts != [] <==> url != "" && script != [])
      && (o.attempts != [] ==> o.attempts[0].request == Request(url, params, headers))
      && (url == "" ==> o == Outcome([], [], Finished))
  {
  }

  /**
   * Each request after the first is determined by the attempt before it: a
   * rate-limited request is repeated unchanged, a page is followed by its next
   * link without params, and nothing follows a failure.
   */
  lemma {:induction false} FetchChain(url: string, params: Option<Params>, headers: Headers,
                                      script: seq<Exchange>)
    ensures var o := Fetch(url, params, headers, script);
      forall k :: 0 <= k < |o.attempts| - 1 ==>
        !o.attempts[k].action.Fail? && o.attempts[k + 1].request == Following(o.attempts[k], headers)
    decreases |script|
  {
    if url != "" && script != [] {
      var o := Fetch(url, params, headers, script);
      match Decide(script[0])
      case Fail(_) =>
      case Backoff(_) =>
        FetchChain(url, params, headers, script[1..]);
        FetchFirstRequest(url, params, headers, script[1..]);
        var rest := Fetch(url, params, headers, script[1..]);
        assert forall k :: 1 <= k < |o.attempts| ==> o.attempts[k] == rest.attempts[k - 1];
      case Page(_, next) =>
        FetchChain(next, None, headers, script[1..]);
        FetchFirstRequest(next, None, headers, script[1..]);
        var rest := Fetch(next, None, headers, script[1..]);
        assert forall k :: 1 <= k < |o.attempts| ==> o.attempts[k] == rest.attempts[k - 1];
    }
  }

  /**
   * Requests carry the caller's params until the first successful page and
   * no params from then on, rate-limit retries included.
   */
  lemma {:induction false} FetchParams(url: string, params: Option<Params>, headers: Headers,
                                       script: seq<Exchange>, k: nat)
    requires k < |Fetch(url, params, headers, script).attempts|
    ensures var o := Fetch(url, params, headers, script);
      o.attempts[k].request.params == (if Pages(o.attempts[..k]) == 0 then params else None)
    decreases |script|
  {
    var o := Fetch(url, params, headers, script);
    if k > 0 {
      match Decide(script[0])
      case Backoff(_) =>
        FetchParams(url, params, headers, script[1..], k - 1);
        var rest := Fetch(url, params, headers, script[1..]);
        assert o.attempts[k] == rest.attempts[k - 1];
        assert o.attempts[..k][1..] == rest.attempts[..k - 1];
      case Page(_, next) =>
        FetchParams(next, None, headers, script[1..], k - 1);
        var rest := Fetch(next, None, headers, script[1..]);
        assert o.attempts[k] == rest.attempts[k - 1];
        assert o.attempts[..k][0].action.Page?;
    }
  }

  /** The records are the successful pages' records, concatenated in fetch order. */
  lemma {:induction false} FetchRecords(url: string, params: Option<Params>, headers: Headers,
                                        script: seq<Exchange>)
    ensures var o := Fetch(url, params, headers, script);
      o.records == PageRecords(o.attempts)
    decreases |script|
  {
    if url != "" && script != [] {
      var o := Fetch(url, params, headers, script);
      match Decide(script[0])
      case Fail(_) =>
      case Backoff(_) =>
        FetchRecords(url, params, headers, script[1..]);
        assert o.attempts[1..] == Fetch(url, params, headers, script[1..]).attempts;
      case Page(_, next) =>
        FetchRecords(next, None, headers, script[1..]);
        assert o.attempts[1..] == Fetch(next, None, headers, script[1..]).attempts;
    }
  }

  /**
   * The loop stops only after its last attempt: a failure or a page without a
   * next link is always the last attempt, and the stop reason matches it.
   */
  lemma {:induction false} FetchStop(url: string, params: Option<Params>, headers: Headers,
                                     script: seq<Exchange>)
    ensures var o := Fetch(url, params, headers, script);
      && (forall k :: 0 <= k < |o.attempts| - 1 ==> !Final(o.attempts[k]))
      && (o.stop.Failed? <==> o.attempts != [] && o.attempts[|o.attempts| - 1].action.Fail?)
      && (o.stop.Failed? ==> o.stop.error == o.attempts[|o.attempts| - 1].action.error)
      && (o.stop == Finished <==>
            (url == "" && o.attempts == []) || (o.attempts != [] && Final(o.attempts[|o.attempts| - 1])
                                                && o.attempts[|o.attempts| - 1].action.Page?))
      && (o.stop == ScriptExhausted ==> |o.attempts| == |script|)
    decreases |script|
  {
    if url != "" && script != [] {
      var o := Fetch(url, params, headers, script);
      match Decide(script[0])
      case Fail(_) =>
      case Backoff(_) =>
        FetchStop(url, params, headers, script[1..]);
        var rest := Fetch(url, params, headers, script[1..]);
        assert forall k :: 1 <= k < |o.attempts| ==> o.attempts[k] == rest.attempts[k - 1];
      case Page(_, next) =>
        FetchStop(next, None, headers, script[1..]);
        var rest := Fetch(next, None, headers, script[1..]);
        assert forall k :: 1 <= k < |o.attempts| ==> o.attempts[k] == rest.attempts[k - 1];
    }
  }
}
