/** The client-side resilience helpers: a throttle that drops calls inside its window, a
    sliding-window rate limiter, a CLOSED/OPEN/HALF-OPEN circuit breaker, a retry loop
    with exponential backoff and a one-at-a-time request queue. Each closure's mutable
    variables are the fields of a class; the clock is a parameter. */
module ApiUtils {
  import opened Common

  // ---------------------------------------------------------------- throttle

  /** The throttle is idle when it has never run, or when the timer armed by its last
      run (`limit` ms) has fired. */
  predicate ThrottleIdle(lastRun: Option<int>, limit: int, now: int) {
    lastRun.None? || now >= lastRun.value + limit
  }

  /** Any two consecutive runs are at least `limit` ms apart. */
  predicate SpacedRuns(runs: seq<int>, limit: int) {
    forall i :: 0 < i < |runs| ==> runs[i] >= runs[i - 1] + limit
  }

  /** `throttle(func, limit)`: `lastRun` is the time at which the `inThrottle` timer was
      last armed and `runs` every such time. */
  class Throttle {
    const limit: int
    var lastRun: Option<int>
    var runs: seq<int>

    ghost predicate Valid()
      reads this
    {
      && SpacedRuns(runs, limit)
      && (runs == [] <==> lastRun.None?)
      && (runs != [] ==> lastRun == Some(runs[|runs| - 1]))
    }

    constructor (limit: int)
      ensures Valid()
      ensures this.limit == limit && lastRun == None && runs == []
    {
      this.limit := limit;
      lastRun := None;
      runs := [];
    }

    /** A call invokes `func` at once when the throttle is idle and is dropped otherwise:
        it is never deferred to the end of the window. `completes` says whether `func`
        returns normally; when it throws, the timer is not armed. */
    method Call(now: int, completes: bool) returns (invoked: bool)
      requires Valid()
      modifies this`lastRun, this`runs
      ensures Valid()
      ensures invoked == ThrottleIdle(old(lastRun), limit, now)
      ensures invoked && completes ==> lastRun == Some(now) && runs == old(runs) + [now]
      ensures !(invoked && completes) ==> lastRun == old(lastRun) && runs == old(runs)
    {
      invoked := ThrottleIdle(lastRun, limit, now);
      if invoked && completes {
        runs := runs + [now];
        lastRun := Some(now);
      }
    }
  }

  /** A call made fewer than `limit` ms after a run is dropped. */
  lemma ThrottleDropsInsideWindow(t: int, limit: int, now: int)
    requires t <= now < t + limit
    ensures !ThrottleIdle(Some(t), limit, now)
  {
  }

  // ---------------------------------------------------------------- rate limiter

  /** The `while (requests.length > 0 && requests[0] < cutoff) requests.shift()` loop:
      the leading timestamps older than the cutoff are dropped. */
  function Evict(s: seq<int>, cutoff: int): seq<int> {
    if s == [] || s[0] >= cutoff then s else Evict(s[1..], cutoff)
  }

  predicate Ascending(s: seq<int>) {
    forall i, j :: 0 <= i < j < |s| ==> s[i] <= s[j]
  }

  /** Eviction keeps a suffix whose first entry, if any, is inside the window; on an
      ascending list every kept entry is inside the window and every dropped one is
      outside it. */
  lemma {:induction false} EvictSpec(s: seq<int>, cutoff: int)
    ensures |Evict(s, cutoff)| <= |s|
    ensures Evict(s, cutoff) == s[|s| - |Evict(s, cutoff)|..]
    ensures Evict(s, cutoff) != [] ==> Evict(s, cutoff)[0] >= cutoff
    ensures forall i :: 0 <= i < |s| - |Evict(s, cutoff)| ==> s[i] < cutoff
    ensures Ascending(s) ==> forall x :: x in Evict(s, cutoff) ==> x >= cutoff
  {
    if s != [] && s[0] < cutoff {
      EvictSpec(s[1..], cutoff);
      var r := Evict(s[1..], cutoff);
      assert s[1..][|s[1..]| - |r|..] == s[|s| - |r|..];
      forall i | 1 <= i < |s| - |r| ensures s[i] < cutoff {
        assert s[i] == s[1..][i - 1];
      }
      if Ascending(s) {
        assert Ascending(s[1..]) by {
          forall i, j | 0 <= i < j < |s[1..]| ensures s[1..][i] <= s[1..][j] {
            assert s[1..][i] == s[i + 1] && s[1..][j] == s[j + 1];
          }
        }
      }
    } else if s != [] && Ascending(s) {
      forall x | x in s ensures x >= cutoff {
        var k :| 0 <= k < |s| && s[k] == x;
        assert s[0] <= s[k];
      }
    }
  }

  /** `createRateLimiter(maxRequests, timeWindow)`: `requests` holds the recorded call
      times, oldest first. */
  class RateLimiter {
    const maxRequests: int
    const timeWindow: int
    var requests: seq<int>

    constructor (maxRequests: int, timeWindow: int)
      ensures this.maxRequests == maxRequests && this.timeWindow == timeWindow
      ensures requests == []
    {
      this.maxRequests := maxRequests;
      this.timeWindow := timeWindow;
      requests := [];
    }

    /** Every call is recorded, denied ones included; the stale head entries are evicted
        and the call is allowed when at most `maxRequests` entries remain. */
    method Check(now: int) returns (allowed: bool)
      modifies this`requests
      ensures requests == Evict(old(requests) + [now], now - timeWindow)
      ensures allowed <==> |requests| <= maxRequests
    {
      requests := requests + [now];
      while |requests| > 0 && requests[0] < now - timeWindow
        invariant Evict(requests, now - timeWindow) == Evict(old(requests) + [now], now - timeWindow)
        decreases |requests|
      {
        requests := requests[1..];
      }
      allowed := |requests| <= maxRequests;
    }
  }

  /** With a clock that never goes back, the recorded times stay ascending and after each
      call they all lie inside the window that ends at the call, which is the last entry
      whenever the window is not negative. */
  lemma RateLimiterWindow(requests: seq<int>, now: int, timeWindow: int)
    requires Ascending(requests)
    requires forall x :: x in requests ==> x <= now
    ensures Ascending(Evict(requests + [now], now - timeWindow))
    ensures var r := Evict(requests + [now], now - timeWindow);
              forall i :: 0 <= i < |r| ==> now - timeWindow <= r[i] <= now
    ensures timeWindow >= 0 ==> Evict(requests + [now], now - timeWindow) != []
  {
    var s := requests + [now];
    assert Ascending(s) by {
      forall i, j | 0 <= i < j < |s| ensures s[i] <= s[j] {
        if j == |s| - 1 {
          assert s[i] in requests || i == |s| - 1;
        }
      }
    }
    EvictSpec(s, now - timeWindow);
    var r := Evict(s, now - timeWindow);
    assert r == s[|s| - |r|..];
    forall i | 0 <= i < |r| ensures now - timeWindow <= r[i] <= now {
      assert r[i] in r && r[i] in s;
    }
    if timeWindow >= 0 {
      assert s[|s| - 1] >= now - timeWindow;
    }
  }

  // ---------------------------------------------------------------- circuit breaker

  datatype BreakerState = Closed | Open | HalfOpen

  /** What `execute(fn)` did: refused without calling `fn`, or called it and passed on
      its result or its error. */
  datatype Execution = Refused | Passed | Failed

  /** `createCircuitBreaker(options)`: the closure's `failures`, `lastFailureTime` and
      `state`, plus whether the monitor interval is still running. */
  class CircuitBreaker {
    const failureThreshold: int
    const resetTimeout: int
    var failures: nat
    var lastFailureTime: int
    var state: BreakerState
    var monitoring: bool

    /** The breaker is only ever away from CLOSED when the failures reached the threshold,
        and, with a positive threshold, it is CLOSED only below it. */
    ghost predicate Valid()
      reads this
    {
      && (state != Closed ==> failures >= failureThreshold)
      && (state == Closed && failureThreshold >= 1 ==> failures < failureThreshold)
    }

    /** Defaults: threshold 5, reset timeout 30000 ms. */
    constructor (failureThreshold: int, resetTimeout: int)
      ensures Valid()
      ensures this.failureThreshold == failureThreshold && this.resetTimeout == resetTimeout
      ensures failures == 0 && lastFailureTime == 0 && state == Closed && monitoring
    {
      this.failureThreshold := failureThreshold;
      this.resetTimeout := resetTimeout;
      failures := 0;
      lastFailureTime := 0;
      state := Closed;
      monitoring := true;
    }

    /** The check `execute(fn)` makes before it calls `fn`: an OPEN breaker refuses. */
    method Admit() returns (admitted: bool)
      ensures admitted <==> state != Open
    {
      admitted := state != Open;
    }

    /** What `execute(fn)` does once `fn` has settled with outcome `succeeds`. It reads
        the breaker as it is then: other calls may have settled while `fn` was pending. */
    method Settle(succeeds: bool, now: int) returns (r: Execution)
      requires Valid()
      modifies this`failures, this`lastFailureTime, this`state
      ensures Valid()
      ensures succeeds ==> r == Passed && lastFailureTime == old(lastFailureTime)
      ensures succeeds && old(state) == HalfOpen ==> state == Closed && failures == 0
      ensures succeeds && old(state) != HalfOpen ==> state == old(state) && failures == old(failures)
      ensures !succeeds ==>
                && r == Failed && failures == old(failures) + 1 && lastFailureTime == now
                && state == (if failures >= failureThreshold then Open else old(state))
    {
      if succeeds {
        if state == HalfOpen {
          state := Closed;
          failures := 0;
        }
        r := Passed;
      } else {
        failures := failures + 1;
        lastFailureTime := now;
        if failures >= failureThreshold {
          state := Open;
        }
        r := Failed;
      }
    }

    /** `execute(fn)` when nothing else settles while `fn` is pending. */
    method Execute(succeeds: bool, now: int) returns (r: Execution)
      requires Valid()
      modifies this`failures, this`lastFailureTime, this`state
      ensures Valid()
      ensures old(state) == Open ==> r == Refused && unchanged(this)
      ensures old(state) != Open && succeeds ==> r == Passed && lastFailureTime == old(lastFailureTime)
      ensures old(state) == HalfOpen && succeeds ==> state == Closed && failures == 0
      ensures old(state) == Closed && succeeds ==> state == Closed && failures == old(failures)
      ensures old(state) != Open && !succeeds ==>
                && r == Failed && failures == old(failures) + 1 && lastFailureTime == now
                && state == (if failures >= failureThreshold then Open else old(state))
    {
      var admitted := Admit();
      if !admitted {
        return Refused;
      }
      r := Settle(succeeds, now);
    }

    /** One firing of the monitor interval. */
    method MonitorTick(now: int)
      requires Valid()
      modifies this`state
      ensures Valid()
      ensures state == (if monitoring && old(state) == Open && now - lastFailureTime > resetTimeout
                        then HalfOpen else old(state))
    {
      if monitoring && state == Open && now - lastFailureTime > resetTimeout {
        state := HalfOpen;
      }
    }

    method GetState() returns (s: BreakerState)
      ensures s == state
    {
      s := state;
    }

    method Reset()
      modifies this`state, this`failures
      ensures Valid()
      ensures state == Closed && failures == 0
    {
      state := Closed;
      failures := 0;
    }

    /** `destroy`: the monitor interval is cleared, so the breaker stays OPEN until reset. */
    method Destroy()
      modifies this`monitoring
      ensures !monitoring
    {
      monitoring := false;
    }
  }
  /** Two overlapping calls admitted while CLOSED, one failure short of the threshold: the
      first fails and opens the breaker, and the second, succeeding afterwards, leaves it
      OPEN, since only a HALF-OPEN breaker closes on success. */
  method OverlappingCalls(b: CircuitBreaker, now: int)
    requires b.Valid() && b.state == Closed && b.failures + 1 == b.failureThreshold
    modifies b
    ensures b.state == Open && b.failures == b.failureThreshold && b.lastFailureTime == now
  {
    var first := b.Admit();
    var second := b.Admit();
    assert first && second;
    var r1 := b.Settle(false, now);
    var r2 := b.Settle(true, now);
  }


  // ---------------------------------------------------------------- retry

  function Pow2(n: nat): (r: nat)
    ensures r >= 1
  {
    if n == 0 then 1 else 2 * Pow2(n - 1)
  }

  /** How `retryApiCall` settled: with the result of the call numbered `attempt`
      (counted from 0), with the error of that call, or with `undefined` when
      `maxRetries` allowed no call at all. */
  datatype RetryOutcome = Resolved(attempt: nat) | Rejected(attempt: nat) | ResolvedUndefined

  /** The first call, counted from 0 and below `n`, that succeeds, if any. */
  function FirstSuccess(succeeds: nat -> bool, n: nat): (r: Option<nat>)
    ensures r.Some? ==> r.value < n && succeeds(r.value)
    ensures r.Some? ==> forall k :: 0 <= k < r.value ==> !succeeds(k)
    ensures r.None? ==> forall k :: 0 <= k < n ==> !succeeds(k)
  {
    if n == 0 then None
    else
      var p := FirstSuccess(succeeds, n - 1);
      if p.Some? then p else if succeeds(n - 1) then Some(n - 1) else None
  }

  /** `retryApiCall(apiCall, maxRetries, delay)`. `succeeds(k)` is the outcome of the
      k-th call; `waits` lists the backoff delays awaited, in order. */
  method RetryApiCall(succeeds: nat -> bool, maxRetries: int, delay: int)
    returns (r: RetryOutcome, calls: nat, waits: seq<int>)
    ensures maxRetries <= 0 ==> r == ResolvedUndefined && calls == 0
    ensures maxRetries > 0 ==> calls <= maxRetries
    ensures maxRetries > 0 && FirstSuccess(succeeds, maxRetries).Some? ==>
              r == Resolved(FirstSuccess(succeeds, maxRetries).value) && calls == r.attempt + 1
    ensures maxRetries > 0 && FirstSuccess(succeeds, maxRetries).None? ==>
              r == Rejected(maxRetries - 1) && calls == maxRetries
    ensures |waits| == if calls == 0 then 0 else calls - 1
    ensures forall k :: 0 <= k < |waits| ==> waits[k] == delay * Pow2(k)
  {
    var retries: nat := 0;
    calls := 0;
    waits := [];
    while retries < maxRetries
      invariant maxRetries <= 0 ==> retries == 0
      invariant maxRetries > 0 ==> retries < maxRetries
      invariant calls == retries && |waits| == retries
      invariant forall k :: 0 <= k < retries ==> !succeeds(k)
      invariant forall k :: 0 <= k < |waits| ==> waits[k] == delay * Pow2(k)
      decreases maxRetries - retries
    {
      calls := calls + 1;
      if succeeds(retries) {
        r := Resolved(retries);
        return;
      }
      retries := retries + 1;
      if retries >= maxRetries {
        r := Rejected(retries - 1);
        return;
      }
      waits := waits + [delay * Pow2(retries - 1)];
    }
    r := ResolvedUndefined;
  }

  // ---------------------------------------------------------------- request queue

  /** A queued request, by its position in the order `add` was called. */
  type RequestId = nat

  /** `createRequestQueue()`: `queue` holds the waiting requests, `running` the one whose
      promise is outstanding (`processing` is `running.Some?`), and `started` the order
      in which requests were handed their turn. */
  class RequestQueue {
    var queue: seq<RequestId>
    var running: Option<RequestId>
    var started: seq<RequestId>

    /** A request only waits while another one runs. */
    ghost predicate Valid()
      reads this
    {
      running.None? ==> queue == []
    }

    constructor ()
      ensures Valid()
      ensures queue == [] && running == None && started == []
    {
      queue := [];
      running := None;
      started := [];
    }

    /** `processQueue`: when nothing runs, the head of the queue starts. */
    method ProcessQueue()
      modifies this`queue, this`running, this`started
      ensures old(running).Some? || old(queue) == [] ==> unchanged(this)
      ensures old(running).None? && old(queue) != [] ==>
                && running == Some(old(queue)[0]) && queue == old(queue)[1..]
                && started == old(started) + [old(queue)[0]]
    {
      if running.Some? || queue == [] {
        return;
      }
      var head := queue[0];
      queue := queue[1..];
      running := Some(head);
      started := started + [head];
    }

    /** `add(request)`: the request joins the tail and starts at once if nothing runs. */
    method Add(request: RequestId)
      requires Valid()
      modifies this`queue, this`running, this`started
      ensures Valid()
      ensures old(running).Some? ==>
                queue == old(queue) + [request] && running == old(running) && started == old(started)
      ensures old(running).None? ==>
                queue == [] && running == Some(request) && started == old(started) + [request]
    {
      queue := queue + [request];
      ProcessQueue();
    }

    /** The running request's promise settles, either way: `processing` drops and the
        next request in FIFO order starts. */
    method Settle()
      requires Valid()
      modifies this`queue, this`running, this`started
      ensures Valid()
      ensures old(queue) == [] ==> running == None && queue == [] && started == old(started)
      ensures old(queue) != [] ==>
                && running == Some(old(queue)[0]) && queue == old(queue)[1..]
                && started == old(started) + [old(queue)[0]]
    {
      running := None;
      ProcessQueue();
    }

    /** `clear`: the waiting requests are dropped; the running one is not affected. */
    method Clear()
      requires Valid()
      modifies this`queue
      ensures Valid()
      ensures queue == [] && running == old(running)
    {
      queue := [];
    }

    method GetLength() returns (n: nat)
      ensures n == |queue|
    {
      n := |queue|;
    }
  }
}
