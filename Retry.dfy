/** The retry primitive `retryFetch`: up to `maxRetries` calls to fetch,
    with exponential backoff only after network TypeErrors. The network is an
    oracle: `outcomes[i]` is what the i-th call to fetch produces. */
module Retry {
  import opened Values

  const MAX_RETRIES: int := 3

  /** What `response.json()` yields: a value, or a parse failure. */
  datatype Body = JsonBody(value: Json) | NotJson

  /** One call to fetch: a 2xx response, a non-2xx response, a rejection
      with a TypeError (a network failure), or a rejection with anything
      else. */
  datatype FetchOutcome =
    | Ok(body: Body)
    | NonOk(status: int, errorBody: Body)
    | NetworkTypeError
    | OtherError

  /** What retryFetch returns or throws. */
  datatype FetchResult =
    | Response(body: Body)     // resolves with an ok response
    | HttpFailure(status: int) // throws "Request failed with status ..."
    | NetworkFailure           // rethrows the TypeError of the last attempt
    | OtherFailure             // rethrows a non-TypeError at once
    | RetriesExhausted         // the trailing "Failed after multiple retries"

  /** The result, the delays slept (ms, in order), and the number of fetch
      calls made in all. */
  datatype Fetched = Fetched(result: FetchResult, delays: seq<nat>, calls: nat)

  function Pow2(n: nat): (r: nat)
    ensures r >= 1
  {
    if n == 0 then 1 else 2 * Pow2(n - 1)
  }

  /** The behaviour of the loop from attempt `i` on. */
  function Retry(outcomes: seq<FetchOutcome>, maxRetries: int, i: nat): Fetched
    requires |outcomes| >= maxRetries
    decreases maxRetries - i
  {
    if i >= maxRetries then Fetched(RetriesExhausted, [], i)
    else match outcomes[i]
      case Ok(b) => Fetched(Response(b), [], i + 1)
      case NonOk(status, _) =>
        if i == maxRetries - 1 then Fetched(HttpFailure(status), [], i + 1)
        else Retry(outcomes, maxRetries, i + 1)
      case NetworkTypeError =>
        if i < maxRetries - 1 then
          var rest := Retry(outcomes, maxRetries, i + 1);
          Fetched(rest.result, [Pow2(i) * 1000] + rest.delays, rest.calls)
        else Fetched(NetworkFailure, [], i + 1)
      case OtherError => Fetched(OtherFailure, [], i + 1)
  }

  /** `retryFetch(url, options, maxRetries)`. */
  method RetryFetch(outcomes: seq<FetchOutcome>, maxRetries: int)
    returns (result: FetchResult, delays: seq<nat>, calls: nat)
    requires |outcomes| >= maxRetries
    ensures Fetched(result, delays, calls) == Retry(outcomes, maxRetries, 0)
  {
    delays := [];
    var i: nat := 0;
    while i < maxRetries
      invariant var rest := Retry(outcomes, maxRetries, i);
        Retry(outcomes, maxRetries, 0) == Fetched(rest.result, delays + rest.delays, rest.calls)
      decreases maxRetries - i
    {
      match outcomes[i]
      case Ok(b) =>
        return Response(b), delays, i + 1;
      case NonOk(status, _) =>
        if i == maxRetries - 1 {
          return HttpFailure(status), delays, i + 1;
        }
        i := i + 1;  // retried at once, without a delay
      case NetworkTypeError =>
        if i < maxRetries - 1 {
          delays := delays + [Pow2(i) * 1000];
          i := i + 1;
          continue;
        }
        return NetworkFailure, delays, i + 1;
      case OtherError =>
        return OtherFailure, delays, i + 1;
    }
    return RetriesExhausted, delays, i;
  }

  /** An attempt that ends the loop: a success, an error that is not a
      TypeError, or the final attempt whatever it is. */
  predicate Ends(o: FetchOutcome, i: int, maxRetries: int)
  {
    o.Ok? || o.OtherError? || i == maxRetries - 1
  }

  /** What the attempt that ends the loop makes retryFetch return or throw. */
  function Verdict(o: FetchOutcome): FetchResult
  {
    match o
    case Ok(b) => Response(b)
    case NonOk(status, _) => HttpFailure(status)
    case NetworkTypeError => NetworkFailure
    case OtherError => OtherFailure
  }

  /** The delays slept before attempt `hi`, counted from attempt `lo`: one of
      2^j * 1000 ms after each TypeError at attempt j, none after a non-ok
      response. */
  function Backoff(outcomes: seq<FetchOutcome>, lo: nat, hi: nat): seq<nat>
    requires lo <= hi <= |outcomes|
    decreases hi - lo
  {
    if lo == hi then []
    else (if outcomes[lo].NetworkTypeError? then [Pow2(lo) * 1000] else [])
         + Backoff(outcomes, lo + 1, hi)
  }

  lemma {:induction false} RetryFrom(outcomes: seq<FetchOutcome>, maxRetries: int, i: nat)
    requires |outcomes| >= maxRetries && i < maxRetries
    ensures var f := Retry(outcomes, maxRetries, i);
      && i + 1 <= f.calls <= maxRetries
      && Ends(outcomes[f.calls - 1], f.calls - 1, maxRetries)
      && (forall j :: i <= j < f.calls - 1 ==> !Ends(outcomes[j], j, maxRetries))
      && f.result == Verdict(outcomes[f.calls - 1])
      && f.delays == Backoff(outcomes, i, f.calls - 1)
    decreases maxRetries - i
  {
    var f := Retry(outcomes, maxRetries, i);
    if Ends(outcomes[i], i, maxRetries) {
      assert f.calls == i + 1;
    } else {
      RetryFrom(outcomes, maxRetries, i + 1);
    }
  }

  /** With maxRetries >= 1: at least one and at most maxRetries fetch calls;
      the loop stops at the first attempt that ends it and nowhere earlier;
      what it returns or throws is the verdict of that attempt (so only an ok
      response is ever returned, and a non-TypeError is rethrown at once);
      the trailing throw is never reached; and the delays are exactly one
      backoff per earlier TypeError, none per earlier non-ok response. */
  lemma RetryFetchSpec(outcomes: seq<FetchOutcome>, maxRetries: int)
    requires |outcomes| >= maxRetries >= 1
    ensures var f := Retry(outcomes, maxRetries, 0);
      && 1 <= f.calls <= maxRetries
      && Ends(outcomes[f.calls - 1], f.calls - 1, maxRetries)
      && (forall j :: 0 <= j < f.calls - 1 ==> !Ends(outcomes[j], j, maxRetries))
      && f.result == Verdict(outcomes[f.calls - 1])
      && (f.result.Response? <==> outcomes[f.calls - 1].Ok?)
      && !f.result.RetriesExhausted?
      && f.delays == Backoff(outcomes, 0, f.calls - 1)
  {
    RetryFrom(outcomes, maxRetries, 0);
  }

  /** With maxRetries <= 0 no fetch is made and the trailing throw is
      reached. */
  lemma RetryFetchNoAttempts(outcomes: seq<FetchOutcome>, maxRetries: int)
    requires maxRetries <= 0
    ensures Retry(outcomes, maxRetries, 0) == Fetched(RetriesExhausted, [], 0)
  {
  }

  lemma {:induction false} BackoffShape(outcomes: seq<FetchOutcome>, lo: nat, hi: nat, k: nat)
    requires lo <= hi <= |outcomes| && k < |Backoff(outcomes, lo, hi)|
    ensures exists j :: (lo <= j < hi && outcomes[j].NetworkTypeError?
      && Backoff(outcomes, lo, hi)[k] == Pow2(j) * 1000)
    decreases hi - lo
  {
    var head: seq<nat> := if outcomes[lo].NetworkTypeError? then [Pow2(lo) * 1000] else [];
    if k < |head| {
    } else {
      BackoffShape(outcomes, lo + 1, hi, k - |head|);
    }
  }

  /** With the default ceiling of 3 attempts there are at most two delays,
      and they are 1000 ms and then 2000 ms. */
  lemma DefaultRetryDelays(outcomes: seq<FetchOutcome>)
    requires |outcomes| >= MAX_RETRIES
    ensures var d := Retry(outcomes, MAX_RETRIES, 0).delays;
      d == [] || d == [1000] || d == [2000] || d == [1000, 2000]
  {
    RetryFetchSpec(outcomes, MAX_RETRIES);
    var f := Retry(outcomes, MAX_RETRIES, 0);
    var n := f.calls - 1;
    assert n <= 2;
    if n == 2 {
      assert Backoff(outcomes, 2, 2) == [];
      assert Backoff(outcomes, 1, 2) == (if outcomes[1].NetworkTypeError? then [2000] else []);
    } else if n == 1 {
      assert Backoff(outcomes, 1, 1) == [];
    }
  }

  /** Two server errors and then a success: the third attempt returns the
      response, after no delay at all. */
  lemma TwoServerErrorsThenOk(b: Body)
    ensures Retry([NonOk(500, NotJson), NonOk(500, NotJson), Ok(b)], MAX_RETRIES, 0)
         == Fetched(Response(b), [], 3)
  {
  }

  /** Three network failures: the TypeError is rethrown after delays of 1 s
      and then 2 s. */
  lemma ThreeNetworkFailures()
    ensures Retry([NetworkTypeError, NetworkTypeError, NetworkTypeError], MAX_RETRIES, 0)
         == Fetched(NetworkFailure, [1000, 2000], 3)
  {
    assert Pow2(1) == 2;
  }
}
