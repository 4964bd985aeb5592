/**
 * The two calls to the job-search endpoint: one page of listings
 * (`fetch_list`) and the overview of one job (`fetch_overview`).
 *
 * The HTTP request is not modelled. A response is its status code, its body
 * (None when the body is not valid JSON) and its `Retry-After` header. A run
 * of the retry loop is modelled over a finite transcript of the responses the
 * server would give to successive requests; when the transcript runs out while
 * every response so far asked for a retry, the model stops with no answer, where
 * the source would go on retrying.
 */
module Fetch {
  import opened Payload
  import opened Backoff

  datatype Response = Response(status: int, body: Option<Json>, retryAfter: Option<string>)

  /** Status codes on which a request is retried after a wait. */
  const RETRY_STATUSES: set<int> := {429, 500, 502, 503, 504}

  /** The decision taken on one response. */
  datatype Step<T> = Return(value: T) | Retry

  /** `fetch_list` on one response: a JSON array body on 200, otherwise an empty page. */
  function ListStep(resp: Response): (r: Step<seq<Json>>)
    ensures r.Retry? <==> resp.status in RETRY_STATUSES
    ensures resp.status == 200 && resp.body.Some? && resp.body.value.List? ==>
              r == Return(resp.body.value.items)
    ensures r.Return? && r.value != [] ==> resp.status == 200 && resp.body == Some(List(r.value))
  {
    if resp.status == 200 then
      match resp.body
      case Some(List(items)) => Return(items)
      case _ => Return([])
    else if resp.status in RETRY_STATUSES then Retry
    else Return([])
  }

  /** `r.json() or {}`: a body that does not parse, or parses to a falsy value, becomes `{}`. */
  function OverviewBody(body: Option<Json>): (r: Json)
    ensures Truthy(r) || r == EMPTY_OBJECT
    ensures body.Some? && Truthy(body.value) ==> r == body.value
    ensures Truthy(r) ==> body == Some(r)
  {
    match body
    case Some(j) => if Truthy(j) then j else EMPTY_OBJECT
    case None => EMPTY_OBJECT
  }

  /** `fetch_overview` on one response: the body on 200, otherwise `{}`. */
  function OverviewStep(resp: Response): (r: Step<Json>)
    ensures r.Retry? <==> resp.status in RETRY_STATUSES
    ensures r.Return? ==> Truthy(r.value) || r.value == EMPTY_OBJECT
    ensures r.Return? && Truthy(r.value) ==> resp.status == 200 && resp.body == Some(r.value)
    ensures resp.status == 200 && resp.body.Some? && Truthy(resp.body.value) ==> r == Return(resp.body.value)
  {
    if resp.status == 200 then Return(OverviewBody(resp.body))
    else if resp.status in RETRY_STATUSES then Retry
    else Return(EMPTY_OBJECT)
  }

  /**
   * `fetch_list`: requests until a response is not a transient failure, waiting
   * RetryDelay(attempts, ...) after each transient one. `attempts` counts the
   * requests made; `waits` holds the waits taken, in order.
   */
  method FetchList(transport: seq<Response>, toNumber: string -> Option<real>)
    returns (page: Option<seq<Json>>, attempts: nat, waits: seq<Delay>)
    ensures attempts <= |transport|
    ensures page.Some? ==> attempts >= 1 && ListStep(transport[attempts - 1]) == Return(page.value) &&
                           |waits| == attempts - 1
    ensures page.None? ==> attempts == |transport| && |waits| == attempts
    ensures forall k :: 0 <= k < |waits| ==>
              ListStep(transport[k]).Retry? && waits[k] == RetryDelay(k + 1, transport[k].retryAfter, toNumber)
  {
    attempts, waits := 0, [];
    while attempts < |transport|
      invariant attempts <= |transport| && |waits| == attempts
      invariant forall k :: 0 <= k < attempts ==>
                  ListStep(transport[k]).Retry? && waits[k] == RetryDelay(k + 1, transport[k].retryAfter, toNumber)
    {
      attempts := attempts + 1;
      var resp := transport[attempts - 1];
      match ListStep(resp)
      case Return(rows) =>
        return Some(rows), attempts, waits;
      case Retry =>
        waits := waits + [RetryDelay(attempts, resp.retryAfter, toNumber)];
    }
    page := None;
  }

  /**
   * `fetch_overview`: an empty job id gives `{}` without any request; otherwise
   * the same retry loop as FetchList, deciding each response by OverviewStep.
   */
  method FetchOverview(jobId: string, transport: seq<Response>, toNumber: string -> Option<real>)
    returns (overview: Option<Json>, attempts: nat, waits: seq<Delay>)
    ensures jobId == "" ==> overview == Some(EMPTY_OBJECT) && attempts == 0 && waits == []
    ensures attempts <= |transport|
    ensures jobId != "" && overview.Some? ==>
              attempts >= 1 && OverviewStep(transport[attempts - 1]) == Return(overview.value) &&
              |waits| == attempts - 1
    ensures overview.None? ==> attempts == |transport| && |waits| == attempts
    ensures forall k :: 0 <= k < |waits| ==>
              OverviewStep(transport[k]).Retry? && waits[k] == RetryDelay(k + 1, transport[k].retryAfter, toNumber)
  {
    if jobId == "" {
      return Some(EMPTY_OBJECT), 0, [];
    }
    attempts, waits := 0, [];
    while attempts < |transport|
      invariant attempts <= |transport| && |waits| == attempts
      invariant forall k :: 0 <= k < attempts ==>
                  OverviewStep(transport[k]).Retry? && waits[k] == RetryDelay(k + 1, transport[k].retryAfter, toNumber)
    {
      attempts := attempts + 1;
      var resp := transport[attempts - 1];
      match OverviewStep(resp)
      case Return(body) =>
        return Some(body), attempts, waits;
      case Retry =>
        waits := waits + [RetryDelay(attempts, resp.retryAfter, toNumber)];
    }
    overview := None;
  }

  /**
   * A server that answers 503 twice and then 200 with a listing array: the page
   * is returned on the third request, after two exponential waits of 1 and 2 seconds.
   */
  method UnavailableTwiceThenOk(rows: seq<Json>, toNumber: string -> Option<real>)
    returns (page: Option<seq<Json>>, attempts: nat, waits: seq<Delay>)
    ensures page == Some(rows) && attempts == 3
    ensures waits == [Exponential(1), Exponential(2)]
  {
    var unavailable := Response(503, None, None);
    var transport := [unavailable, unavailable, Response(200, Some(List(rows)), None)];
    page, attempts, waits := FetchList(transport, toNumber);
    assert ListStep(transport[2]).Return?;
    assert Pow2(1) == 2;
  }
}
