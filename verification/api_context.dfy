/** The HTTP client layer of the API provider: error normalisation, the capped and
    jittered exponential backoff, the retry loop, the request interceptor that injects the
    bearer and CSRF headers, and the response interceptor that refreshes the access token
    once per request and parks concurrent requests in a queue until the refresh settles.
    `Math.random` is a parameter; the HTTP call is an abstract function of the attempt
    number. */
module ApiContext {
  import opened Common
  import opened ErrorUtils

  const NetworkErrorText := "Không thể kết nối đến máy chủ"
  const AuthErrorText := "Phiên đăng nhập hết hạn hoặc không hợp lệ"
  const RateLimitErrorText := "Quá nhiều yêu cầu, vui lòng thử lại sau"
  const ServerErrorText := "Lỗi máy chủ, vui lòng thử lại sau"
  const GenericErrorText := "Đã xảy ra lỗi"

  // ---------------------------------------------------------------- normalizeError

  /** Which of the flags `isNetworkError`, `isAuthError`, `isRateLimitError`,
      `isServerError` a normalised error carries (`NoFlag`: none of them). */
  datatype ErrorFlag = NetworkError | AuthError | RateLimitError | ServerError | NoFlag

  /** A normalised error; `data` is only present (non-`Undefined`) on client errors. */
  datatype NormalizedError = NormalizedError(status: int, message: JsValue, flag: ErrorFlag, data: JsValue)

  /** `normalizeError`, given the error's response (`None`: no response). */
  function NormalizeError(response: Option<HttpResponse>): (r: NormalizedError)
    ensures r.flag == NetworkError <==> response.None?
    ensures r.flag == NetworkError ==> r.status == 0 && r.message == Str(NetworkErrorText)
    ensures r.flag == AuthError <==> response.Some? && response.value.status == 401
    ensures r.flag == RateLimitError <==> response.Some? && response.value.status == 429
    ensures r.flag == ServerError <==> response.Some? && response.value.status >= 500
    ensures response.Some? ==> r.status == response.value.status
    ensures r.flag == NoFlag ==>
              && r.data == response.value.data
              && Truthy(r.message)
              && (Truthy(BodyMessage(response)) ==> r.message == BodyMessage(response))
              && (!Truthy(BodyMessage(response)) ==> r.message == Str(GenericErrorText))
    ensures r.flag != NoFlag ==> r.data == Undefined
  {
    if response.None? then NormalizedError(0, Str(NetworkErrorText), NetworkError, Undefined)
    else
      var status := response.value.status;
      if status == 401 then NormalizedError(401, Str(AuthErrorText), AuthError, Undefined)
      else if status == 429 then NormalizedError(429, Str(RateLimitErrorText), RateLimitError, Undefined)
      else if status >= 500 then NormalizedError(status, Str(ServerErrorText), ServerError, Undefined)
      else
        var bodyMessage := BodyMessage(response);
        NormalizedError(status, if Truthy(bodyMessage) then bodyMessage else Str(GenericErrorText),
                        NoFlag, response.value.data)
  }

  // ---------------------------------------------------------------- getBackoffTime

  const InitialDelay: real := 1000.0
  const MaxDelay: real := 30000.0

  function MinReal(a: real, b: real): real { if a <= b then a else b }

  /** `Math.min(maxDelay, initialDelay * Math.pow(1.5, attempt))` with the defaults. */
  function CappedDelay(attempt: nat): (r: real)
    ensures 0.0 < r <= MaxDelay
  {
    MinReal(MaxDelay, InitialDelay * Pow(1.5, attempt))
  }

  /** `getBackoffTime(attempt)`: the capped delay scaled by `0.9 + random * 0.2`, a
      factor in [0.9, 1.1). */
  function GetBackoffTime(attempt: nat, random: real): (r: real)
    requires 0.0 <= random < 1.0
    ensures 0.9 * CappedDelay(attempt) <= r < 1.1 * CappedDelay(attempt)
    ensures r < 1.1 * MaxDelay
  {
    Scale(CappedDelay(attempt), 0.9 + random * 0.2)
  }

  /** A positive delay scaled by a jitter factor in [0.9, 1.1). */
  function Scale(c: real, factor: real): (r: real)
    requires 0.0 < c <= MaxDelay && 0.9 <= factor < 1.1
    ensures 0.9 * c <= r < 1.1 * c
    ensures r < 1.1 * MaxDelay
  {
    ScaleBounds(c, factor);
    c * factor
  }

  lemma ScaleBounds(c: real, factor: real)
    requires 0.0 < c <= MaxDelay && 0.9 <= factor < 1.1
    ensures 0.9 * c <= c * factor < 1.1 * c
    ensures c * factor < 1.1 * MaxDelay
  {
    assert c * factor - 0.9 * c == c * (factor - 0.9);
    assert 1.1 * c - c * factor == c * (1.1 - factor);
    assert 1.1 * MaxDelay - 1.1 * c == 1.1 * (MaxDelay - c);
  }

  lemma {:induction false} PowMonotone(n: nat, m: nat)
    requires n <= m
    ensures Pow(1.5, n) <= Pow(1.5, m)
    decreases m
  {
    if n < m {
      PowMonotone(n, m - 1);
    }
  }

  /** The uncapped delay grows until the ninth attempt; from then on the cap of 30 s is
      reached and the delay before jitter stays at it. */
  lemma BackoffCapReached(attempt: nat)
    ensures attempt <= 8 ==> CappedDelay(attempt) == InitialDelay * Pow(1.5, attempt)
    ensures attempt >= 9 ==> CappedDelay(attempt) == MaxDelay
  {
    assert Pow(1.5, 8) == 6561.0 / 256.0 by {
      assert Pow(1.5, 1) == 1.5;
      assert Pow(1.5, 2) == 2.25;
      assert Pow(1.5, 4) == 1.5 * (1.5 * Pow(1.5, 2));
      assert Pow(1.5, 8) == 1.5 * (1.5 * (1.5 * (1.5 * Pow(1.5, 4))));
    }
    assert Pow(1.5, 9) == 1.5 * Pow(1.5, 8);
    if attempt <= 8 {
      PowMonotone(attempt, 8);
    } else {
      PowMonotone(9, attempt);
    }
  }

  // ---------------------------------------------------------------- retryRequest

  /** The outcome of one HTTP attempt: the response, or the error's response
      (`None`: no response). */
  type Attempt = Result<JsValue, Option<HttpResponse>>

  /** What `retryRequest` settles with: a response, the last error rethrown, or
      `undefined` when not a single attempt is allowed. */
  datatype RetryOutcome = Responded(response: JsValue) | Threw(error: Option<HttpResponse>) | NoAttempt

  /** An error is retried unless it is an authentication error or a response below 500. */
  predicate Retryable(error: Option<HttpResponse>) {
    !(NormalizeError(error).flag == AuthError || (error.Some? && error.value.status < 500))
  }

  /** Exactly network errors and server errors are retried. */
  lemma RetryableMeans(error: Option<HttpResponse>)
    ensures Retryable(error) <==> error.None? || error.value.status >= 500
    ensures Retryable(error) <==> NormalizeError(error).flag in {NetworkError, ServerError}
  {
  }

  /** `retryRequest(config, retries)`. `call(k)` is the outcome of the k-th attempt and
      `jitter(k)` the random number drawn for the wait after it. */
  method RetryRequest(call: nat -> Attempt, retries: int, jitter: nat -> real)
    returns (r: RetryOutcome, attempts: nat, delays: seq<real>)
    requires forall k :: 0.0 <= jitter(k) < 1.0
    ensures retries <= 0 <==> r == NoAttempt
    ensures retries <= 0 ==> attempts == 0 && delays == []
    ensures retries > 0 ==> 1 <= attempts <= retries && |delays| == attempts - 1
    ensures forall k :: 0 <= k < attempts - 1 ==> call(k).Err? && Retryable(call(k).error)
    ensures forall k :: 0 <= k < |delays| ==> delays[k] == GetBackoffTime(k + 1, jitter(k))
    ensures retries > 0 && call(attempts - 1).Ok? ==> r == Responded(call(attempts - 1).value)
    ensures retries > 0 && call(attempts - 1).Err? ==>
              && r == Threw(call(attempts - 1).error)
              && (!Retryable(call(attempts - 1).error) || attempts == retries)
  {
    var currentRetry := 0;
    attempts := 0;
    delays := [];
    while currentRetry < retries
      invariant retries <= 0 ==> currentRetry == 0
      invariant retries > 0 ==> currentRetry < retries
      invariant attempts == currentRetry && |delays| == currentRetry
      invariant forall k :: 0 <= k < currentRetry ==> call(k).Err? && Retryable(call(k).error)
      invariant forall k :: 0 <= k < |delays| ==> delays[k] == GetBackoffTime(k + 1, jitter(k))
      decreases retries - currentRetry
    {
      var outcome := call(currentRetry);
      attempts := attempts + 1;
      if outcome.Ok? {
        return Responded(outcome.value), attempts, delays;
      }
      if !Retryable(outcome.error) {
        return Threw(outcome.error), attempts, delays;
      }
      currentRetry := currentRetry + 1;
      if currentRetry >= retries {
        return Threw(outcome.error), attempts, delays;
      }
      var delay := GetBackoffTime(currentRetry, jitter(currentRetry - 1));
      delays := delays + [delay];
    }
    return NoAttempt, attempts, delays;
  }

  // ---------------------------------------------------------------- interceptors

  /** `accessToken` is used only when it is a non-empty string. */
  predicate HasText(s: Option<string>) {
    s.Some? && s.value != ""
  }

  /** `['GET', 'HEAD', 'OPTIONS'].includes(config.method?.toUpperCase())`. */
  predicate SafeMethod(httpMethod: Option<string>) {
    httpMethod.Some? && ToUpper(httpMethod.value) in ["GET", "HEAD", "OPTIONS"]
  }

  /** A request's configuration as the interceptors see and change it. */
  class RequestConfig {
    var skipAuth: bool
    var retry: bool
    var httpMethod: Option<string>
    var headers: map<string, string>

    constructor (skipAuth: bool, httpMethod: Option<string>, headers: map<string, string>)
      ensures this.skipAuth == skipAuth && !retry && this.httpMethod == httpMethod && this.headers == headers
    {
      this.skipAuth := skipAuth;
      retry := false;
      this.httpMethod := httpMethod;
      this.headers := headers;
    }

    /** The request interceptor. A `skipAuth` request is left as it is. Otherwise a
        non-empty access token becomes the `Authorization: Bearer` header, and a
        non-empty CSRF token from the page becomes `X-CSRF-Token` unless the method is
        GET, HEAD or OPTIONS. No other header changes. */
    method InterceptRequest(accessToken: Option<string>, csrfToken: Option<string>)
      modifies this`headers
      ensures skipAuth ==> headers == old(headers)
      ensures !skipAuth && HasText(accessToken) ==>
                "Authorization" in headers && headers["Authorization"] == "Bearer " + accessToken.value
      ensures !skipAuth && HasText(csrfToken) && !SafeMethod(httpMethod) ==>
                "X-CSRF-Token" in headers && headers["X-CSRF-Token"] == csrfToken.value
      ensures forall k :: k in old(headers) ==> k in headers
      ensures forall k :: k in headers ==>
                k in old(headers) || (!skipAuth && k == "Authorization" && HasText(accessToken))
                || (!skipAuth && k == "X-CSRF-Token" && HasText(csrfToken) && !SafeMethod(httpMethod))
      ensures forall k :: k in old(headers) && headers[k] != old(headers)[k] ==>
                (!skipAuth && k == "Authorization" && HasText(accessToken))
                || (!skipAuth && k == "X-CSRF-Token" && HasText(csrfToken) && !SafeMethod(httpMethod))
    {
      if skipAuth {
        return;
      }
      if HasText(accessToken) {
        headers := headers["Authorization" := "Bearer " + accessToken.value];
      }
      if HasText(csrfToken) && !SafeMethod(httpMethod) {
        headers := headers["X-CSRF-Token" := csrfToken.value];
      }
    }
  }

  /** What the response interceptor does with a failed request. */
  datatype ErrorAction = RejectOriginal | WaitForRefresh | StartRefresh

  /** The response interceptor's decision: a request already retried or marked
      `skipAuth` is rejected as it is; a 401 while a refresh token exists starts a
      refresh, or waits for the one in flight; anything else is rejected. */
  function ErrorDecision(retried: bool, skipAuth: bool, status: Option<int>, hasRefreshToken: bool,
                         isRefreshing: bool): (a: ErrorAction)
    ensures a != RejectOriginal <==> !retried && !skipAuth && status == Some(401) && hasRefreshToken
    ensures a == StartRefresh ==> !isRefreshing
    ensures a == WaitForRefresh ==> isRefreshing
  {
    if retried || skipAuth then RejectOriginal
    else if status == Some(401) && hasRefreshToken then
      if isRefreshing then WaitForRefresh else StartRefresh
    else RejectOriginal
  }

  /** How a parked request is settled. */
  datatype Settlement = Resolved(token: JsValue) | Rejected(reason: JsValue)

  /** The settlement `processQueue(error, token)` gives every waiter, in queue order:
      all rejected with a truthy error, otherwise all resolved with the token. */
  function SettleAll(waiters: seq<nat>, error: JsValue, token: JsValue): (r: seq<(nat, Settlement)>)
    ensures |r| == |waiters|
    ensures forall i :: 0 <= i < |r| ==> r[i].0 == waiters[i]
    ensures Truthy(error) ==> forall i :: 0 <= i < |r| ==> r[i].1 == Rejected(error)
    ensures !Truthy(error) ==> forall i :: 0 <= i < |r| ==> r[i].1 == Resolved(token)
  {
    if waiters == [] then []
    else SettleAll(waiters[..|waiters| - 1], error, token)
         + [(waiters[|waiters| - 1], if Truthy(error) then Rejected(error) else Resolved(token))]
  }

  /** Settling one more waiter of the queue. */
  lemma SettleAllStep(waiters: seq<nat>, i: nat, error: JsValue, token: JsValue)
    requires i < |waiters|
    ensures SettleAll(waiters[..i + 1], error, token)
         == SettleAll(waiters[..i], error, token)
            + [(waiters[i], if Truthy(error) then Rejected(error) else Resolved(token))]
  {
    var p := waiters[..i + 1];
    assert p[..|p| - 1] == waiters[..i];
    assert p[|p| - 1] == waiters[i];
  }

  /** The loop of `processQueue`: one settlement per waiter, in queue order. */
  method SettleEach(queue: seq<nat>, error: JsValue, token: JsValue) returns (settlements: seq<(nat, Settlement)>)
    ensures settlements == SettleAll(queue, error, token)
  {
    settlements := [];
    var i := 0;
    while i < |queue|
      invariant 0 <= i <= |queue|
      invariant settlements == SettleAll(queue[..i], error, token)
    {
      var settlement := if Truthy(error) then Rejected(error) else Resolved(token);
      SettleAllStep(queue, i, error, token);
      settlements := settlements + [(queue[i], settlement)];
      i := i + 1;
    }
    assert queue[..i] == queue;
  }

  /** The refresh state shared by all requests of one client instance: `isRefreshing`,
      the `failedQueue` of parked requests (by id), the settlements handed out so far,
      and the number of `logout` dispatches. */
  class TokenRefresher {
    var isRefreshing: bool
    var failedQueue: seq<nat>
    var settled: seq<(nat, Settlement)>
    var logouts: nat

    constructor ()
      ensures !isRefreshing && failedQueue == [] && settled == [] && logouts == 0
    {
      isRefreshing := false;
      failedQueue := [];
      settled := [];
      logouts := 0;
    }

    /** `processQueue(error, token)`: every parked request is settled once, in order,
        and the queue is left empty. */
    method ProcessQueue(error: JsValue, token: JsValue)
      modifies this`failedQueue, this`settled
      ensures failedQueue == []
      ensures settled == old(settled) + SettleAll(old(failedQueue), error, token)
    {
      var settlements := SettleEach(failedQueue, error, token);
      settled := settled + settlements;
      failedQueue := [];
    }

    /** The response interceptor on an error of request `waiter`. A request that takes
        the refresh path is marked `_retry` first, so it never takes that path again. */
    method OnResponseError(config: RequestConfig, status: Option<int>, hasRefreshToken: bool, waiter: nat)
      returns (action: ErrorAction)
      modifies config`retry, this`isRefreshing, this`failedQueue
      ensures action == ErrorDecision(old(config.retry), config.skipAuth, status, hasRefreshToken, old(isRefreshing))
      ensures config.retry == (old(config.retry) || action != RejectOriginal)
      ensures action == WaitForRefresh ==> failedQueue == old(failedQueue) + [waiter] && isRefreshing
      ensures action != WaitForRefresh ==> failedQueue == old(failedQueue)
      ensures isRefreshing == (old(isRefreshing) || action == StartRefresh)
    {
      action := ErrorDecision(config.retry, config.skipAuth, status, hasRefreshToken, isRefreshing);
      if action == RejectOriginal {
        return;
      }
      config.retry := true;
      if action == WaitForRefresh {
        failedQueue := failedQueue + [waiter];
      } else {
        isRefreshing := true;
      }
    }

    /** The refresh started by `config` settles. On failure every parked request is
        rejected with the refresh error and `logout` is dispatched; on success every
        parked request is resolved with the new token, which also becomes the original
        request's bearer header. Either way the refresh is over. */
    method OnRefreshSettled(config: RequestConfig, result: Result<string, JsValue>)
      modifies this`failedQueue, this`settled, this`isRefreshing, this`logouts, config`headers
      ensures !isRefreshing && failedQueue == []
      ensures result.Err? ==>
                && settled == old(settled) + SettleAll(old(failedQueue), result.error, Null)
                && logouts == old(logouts) + 1 && config.headers == old(config.headers)
      ensures result.Ok? ==>
                && settled == old(settled) + SettleAll(old(failedQueue), Null, Str(result.value))
                && logouts == old(logouts)
                && config.headers == old(config.headers)["Authorization" := "Bearer " + result.value]
    {
      if result.Err? {
        ProcessQueue(result.error, Null);
        logouts := logouts + 1;
      } else {
        ProcessQueue(Null, Str(result.value));
        config.headers := config.headers["Authorization" := "Bearer " + result.value];
      }
      isRefreshing := false;
    }
  }

  /** A request goes through the refresh path at most once: once the interceptor has
      parked it or started a refresh for it, a further failure is rejected as it is. */
  method SecondFailureRejected(refresher: TokenRefresher, config: RequestConfig, status: Option<int>,
                               hasRefreshToken: bool, waiter: nat)
    returns (first: ErrorAction, second: ErrorAction)
    modifies refresher`isRefreshing, refresher`failedQueue, config`retry
    ensures first != RejectOriginal ==> second == RejectOriginal
  {
    first := refresher.OnResponseError(config, status, hasRefreshToken, waiter);
    second := refresher.OnResponseError(config, status, hasRefreshToken, waiter);
  }
}
