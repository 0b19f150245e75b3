/** `rate_limited_request`: the process-wide spacing of outbound API calls.
    The only state is the time of the last request; the wall clock is a
    logical one, given to each call as its two readings of `time.time()`. */
module RateLimit {
  import opened Wrappers

  /** Minimum seconds between two requests (ten per minute). */
  const RequestDelay: int := 6

  /** `LAST_REQUEST_TIME`. */
  datatype Limiter = Limiter(lastRequest: int)

  /** The state at start-up: `LAST_REQUEST_TIME = 0`. */
  const Initial := Limiter(0)

  /** The clock readings one call takes: `now` before deciding whether to sleep,
      `stamp` after (possibly) sleeping, which becomes the new state. */
  datatype Call = Call(now: int, stamp: int)

  /** The duration passed to `time.sleep`, or `None` when the call does not sleep. */
  function SleepFor(l: Limiter, now: int): (d: Option<int>)
    ensures d.None? <==> now - l.lastRequest >= RequestDelay
    ensures d.Some? ==> d.value > 0 && now + d.value == l.lastRequest + RequestDelay
  {
    var elapsed := now - l.lastRequest;
    if elapsed < RequestDelay then Some(RequestDelay - elapsed) else None
  }

  /** The clock honours the call: reading it after `time.sleep(d)` gives at
      least the earlier reading plus `d`, and never less than the earlier reading. */
  predicate Honours(l: Limiter, c: Call) {
    c.stamp >= c.now + SleepFor(l, c.now).GetOr(0)
  }

  /** The state after the call. */
  function Step(l: Limiter, c: Call): Limiter {
    Limiter(c.stamp)
  }

  /** One call under an honest clock stamps at least `RequestDelay` after the
      previous stamp, whether or not it slept. */
  lemma Spacing(l: Limiter, c: Call)
    requires Honours(l, c)
    ensures Step(l, c).lastRequest >= l.lastRequest + RequestDelay
  {
  }

  /** The state in which the `i`-th of a run of calls starts. */
  function StateBefore(l: Limiter, calls: seq<Call>, i: nat): Limiter
    requires i <= |calls|
  {
    if i == 0 then l else Limiter(calls[i - 1].stamp)
  }

  /** Every call of the run meets an honest clock. */
  predicate HonestRun(l: Limiter, calls: seq<Call>) {
    forall i :: 0 <= i < |calls| ==> HonoursAt(l, calls, i)
  }

  /** The clock honours the `i`-th call of the run. */
  predicate HonoursAt(l: Limiter, calls: seq<Call>, i: nat)
    requires i < |calls|
  {
    Honours(StateBefore(l, calls, i), calls[i])
  }

  /** Consecutive stamps of a run are at least `RequestDelay` apart. */
  lemma ConsecutiveSpacing(l: Limiter, calls: seq<Call>, j: nat)
    requires HonestRun(l, calls)
    requires 0 < j < |calls|
    ensures calls[j].stamp >= calls[j - 1].stamp + RequestDelay
  {
    var s := StateBefore(l, calls, j);
    assert HonoursAt(l, calls, j);
    Spacing(s, calls[j]);
  }

  /** Successive stamps at least `RequestDelay` apart. */
  predicate Gapped(calls: seq<Call>) {
    forall k :: 0 < k < |calls| ==> calls[k].stamp >= calls[k - 1].stamp + RequestDelay
  }

  lemma {:induction false} GapsAccumulate(calls: seq<Call>, i: nat, j: nat)
    requires Gapped(calls)
    requires i <= j < |calls|
    ensures calls[j].stamp >= calls[i].stamp + RequestDelay * (j - i)
    decreases j - i
  {
    if i < j {
      GapsAccumulate(calls, i, j - 1);
      assert calls[j].stamp >= calls[j - 1].stamp + RequestDelay;
    }
  }

  /** Over a run of calls, the `j`-th stamp is at least `RequestDelay * (j - i)`
      after the `i`-th: so any eleven requests span at least a minute. */
  lemma RunSpacing(l: Limiter, calls: seq<Call>, i: nat, j: nat)
    requires HonestRun(l, calls)
    requires i <= j < |calls|
    ensures calls[j].stamp >= calls[i].stamp + RequestDelay * (j - i)
  {
    forall k | 0 < k < |calls|
      ensures calls[k].stamp >= calls[k - 1].stamp + RequestDelay
    {
      ConsecutiveSpacing(l, calls, k);
    }
    GapsAccumulate(calls, i, j);
  }

  /** The last stamp of a run is at least `RequestDelay * n` after the initial state and
      `RequestDelay * (n - 1 - i)` after the `i`-th stamp. */
  lemma RunFinalSpacing(l: Limiter, calls: seq<Call>)
    requires HonestRun(l, calls) && |calls| > 0
    ensures calls[|calls| - 1].stamp >= l.lastRequest + RequestDelay * |calls|
    ensures forall i :: 0 <= i < |calls| ==>
              calls[|calls| - 1].stamp >= calls[i].stamp + RequestDelay * (|calls| - 1 - i)
  {
    var n := |calls|;
    forall i | 0 <= i < n
      ensures calls[n - 1].stamp >= calls[i].stamp + RequestDelay * (n - 1 - i)
    {
      RunSpacing(l, calls, i, n - 1);
    }
    assert HonoursAt(l, calls, 0);
    Spacing(l, calls[0]);
  }

  /** Runs `rate_limited_request` once per call, threading the global state.
      Returns the sleeps requested and the final state. */
  method RateLimitedRequests(l: Limiter, calls: seq<Call>) returns (sleeps: seq<Option<int>>, final: Limiter)
    requires HonestRun(l, calls)
    ensures |sleeps| == |calls|
    ensures forall i :: 0 <= i < |calls| ==>
              (sleeps[i].None? <==> calls[i].now - StateBefore(l, calls, i).lastRequest >= RequestDelay)
    ensures forall i :: 0 <= i < |calls| ==> sleeps[i] == SleepFor(StateBefore(l, calls, i), calls[i].now)
    ensures forall i :: 0 <= i < |calls| && sleeps[i].Some? ==>
              sleeps[i].value == RequestDelay - (calls[i].now - StateBefore(l, calls, i).lastRequest)
    ensures final == StateBefore(l, calls, |calls|)
    ensures |calls| > 0 ==> final.lastRequest == calls[|calls| - 1].stamp
    ensures |calls| == 0 ==> final == l
    ensures |calls| > 0 ==> final.lastRequest >= l.lastRequest + RequestDelay * |calls|
    ensures forall i :: 0 <= i < |calls| ==>
              final.lastRequest >= calls[i].stamp + RequestDelay * (|calls| - 1 - i)
  {
    var state := l;
    sleeps := [];
    var k := 0;
    while k < |calls|
      invariant 0 <= k <= |calls|
      invariant state == StateBefore(l, calls, k)
      invariant |sleeps| == k
      invariant forall i :: 0 <= i < k ==> sleeps[i] == SleepFor(StateBefore(l, calls, i), calls[i].now)
    {
      sleeps := sleeps + [SleepFor(state, calls[k].now)];
      state := Step(state, calls[k]);
      k := k + 1;
    }
    final := state;
    if |calls| > 0 {
      assert final == Limiter(calls[|calls| - 1].stamp);
      RunFinalSpacing(l, calls);
    }
  }

  /** The first call after start-up never sleeps once the clock reads six
      seconds or more (as the Unix time does). */
  lemma FirstCallDoesNotSleep(now: int)
    requires now >= RequestDelay
    ensures SleepFor(Initial, now) == None
  {
  }
}
