/** The fixed-window rate limiter of interceptor/ratelimit.go: a counter of
    the calls since the window opened, which refuses a call outright (no
    caller waits) once the count reaches `MaxCount`. Time is an
    integer count of nanoseconds on the scale of Go's `time.Time`, whose
    zero value (January 1 of year 1) is 0 here; the clock reading of each
    call is a parameter. */
module RateLimit {
  import opened Grpc
  import Chain

  /** `time.Duration` is an int64 count of nanoseconds. */
  const MaxDuration: int := 0x7fff_ffff_ffff_ffff
  const MinDuration: int := -0x8000_0000_0000_0000

  /** `uint` on a 64-bit platform. */
  const UintModulus: int := 0x1_0000_0000_0000_0000

  predicate IsDuration(d: int)
  {
    MinDuration <= d <= MaxDuration
  }

  /** `time.Since(t)` at clock reading `now`: `now - t`, saturated to the
      range of a Duration as `Time.Sub` does. */
  function Since(now: int, t: int): (d: int)
    ensures IsDuration(d)
    ensures IsDuration(now - t) ==> d == now - t
    ensures now - t > MaxDuration ==> d == MaxDuration
    ensures now - t < MinDuration ==> d == MinDuration
  {
    if now - t > MaxDuration then MaxDuration
    else if now - t < MinDuration then MinDuration
    else now - t
  }

  /** The limiter's mutable part. */
  datatype Window = Window(count: nat, lastTick: int)

  datatype Step = Step(allowed: bool, next: Window)

  /** The body of `Allowed` on a state: past the window, reset and allow;
      inside it, count the call (uint arithmetic, wrapping) and allow while
      the count stays below `maxCount`. */
  function WindowStep(interval: int, maxCount: nat, w: Window, now: int): (s: Step)
    ensures Since(now, w.lastTick) > interval ==> s == Step(true, Window(0, now))
    ensures Since(now, w.lastTick) <= interval ==>
              s.next == Window((w.count + 1) % UintModulus, w.lastTick) && (s.allowed <==> s.next.count < maxCount)
  {
    if Since(now, w.lastTick) > interval then Step(true, Window(0, now))
    else
      var c := (w.count + 1) % UintModulus;
      Step(c < maxCount, Window(c, w.lastTick))
  }

  /** The decisions of successive calls at `nows` when the state is carried
      from one call to the next. */
  function Carried(interval: int, maxCount: nat, w: Window, nows: seq<int>): (ds: seq<bool>)
    ensures |ds| == |nows|
    decreases |nows|
  {
    if nows == [] then []
    else
      var s := WindowStep(interval, maxCount, w, nows[0]);
      [s.allowed] + Carried(interval, maxCount, s.next, nows[1..])
  }

  /** The decisions of successive calls at `nows` when every call starts from
      the same state `w`, as with a value receiver. */
  function Uncarried(interval: int, maxCount: nat, w: Window, nows: seq<int>): (ds: seq<bool>)
    ensures |ds| == |nows|
    ensures forall k :: 0 <= k < |nows| ==> ds[k] == WindowStep(interval, maxCount, w, nows[k]).allowed
  {
    seq(|nows|, k requires 0 <= k < |nows| => WindowStep(interval, maxCount, w, nows[k]).allowed)
  }

  /** Past the window a call resets the state and is allowed. */
  lemma StepResets(interval: int, maxCount: nat, w: Window, now: int)
    requires Since(now, w.lastTick) > interval
    ensures WindowStep(interval, maxCount, w, now) == Step(true, Window(0, now))
  {
  }

  /** Inside the window a call increments the count and is allowed iff the
      new count is below `maxCount`. */
  lemma StepCounts(interval: int, maxCount: nat, w: Window, now: int)
    requires Since(now, w.lastTick) <= interval && w.count + 1 < UintModulus
    ensures WindowStep(interval, maxCount, w, now).next == Window(w.count + 1, w.lastTick)
    ensures WindowStep(interval, maxCount, w, now).allowed <==> w.count + 1 < maxCount
  {
  }

  /** Inside one window that `start` opened, with the count at `c` and no
      wrap-around ahead, the k-th further call is allowed iff `c + k + 1 <
      maxCount`. */
  lemma {:induction false} CarriedInWindow(interval: int, maxCount: nat, c: nat, start: int, nows: seq<int>)
    requires c + |nows| < UintModulus
    requires forall k :: 0 <= k < |nows| ==> Since(nows[k], start) <= interval
    ensures forall k :: 0 <= k < |nows| ==> Carried(interval, maxCount, Window(c, start), nows)[k] == (c + k + 1 < maxCount)
    decreases |nows|
  {
    if nows != [] {
      var ds := Carried(interval, maxCount, Window(c, start), nows);
      StepCounts(interval, maxCount, Window(c, start), nows[0]);
      CarriedInWindow(interval, maxCount, c + 1, start, nows[1..]);
      forall k | 0 <= k < |nows|
        ensures ds[k] == (c + k + 1 < maxCount)
      {
        if k > 0 {
          assert ds[k] == Carried(interval, maxCount, Window(c + 1, start), nows[1..])[k - 1];
        }
      }
    }
  }

  /** With the state carried between calls, a window that starts with a
      reset allows the reset call and then the calls whose new count stays
      below `maxCount`: `maxCount` calls in all when `maxCount >= 1`. */
  lemma WindowBurst(interval: int, maxCount: nat, w: Window, nows: seq<int>)
    requires 0 < |nows| <= UintModulus
    requires Since(nows[0], w.lastTick) > interval
    requires forall k :: 0 < k < |nows| ==> Since(nows[k], nows[0]) <= interval
    ensures forall k :: 0 <= k < |nows| ==> Carried(interval, maxCount, w, nows)[k] == (k == 0 || k < maxCount)
  {
    var ds := Carried(interval, maxCount, w, nows);
    StepResets(interval, maxCount, w, nows[0]);
    var rest := nows[1..];
    assert forall k :: 0 <= k < |rest| ==> Since(rest[k], nows[0]) <= interval by {
      forall k | 0 <= k < |rest|
        ensures Since(rest[k], nows[0]) <= interval
      {
        assert rest[k] == nows[k + 1];
      }
    }
    CarriedInWindow(interval, maxCount, 0, nows[0], rest);
    forall k | 0 < k < |nows|
      ensures ds[k] == (k < maxCount)
    {
      assert ds[k] == Carried(interval, maxCount, Window(0, nows[0]), rest)[k - 1];
    }
  }

  /** `RateLimiter`. The constants are `Interval` and `MaxCount`; the mutex
      is left out (every call here runs alone). */
  class RateLimiter {
    const interval: int
    const maxCount: nat
    var count: nat
    var lastTick: int

    ghost predicate Valid()
      reads this
    {
      IsDuration(interval) && maxCount < UintModulus && count < UintModulus
    }

    function State(): Window
      reads this
    {
      Window(count, lastTick)
    }

    /** `RateLimiter{Interval: interval, MaxCount: maxCount}`: the count is 0
        and the last tick is the zero time. */
    constructor(interval: int, maxCount: nat)
      requires IsDuration(interval) && maxCount < UintModulus
      ensures this.interval == interval && this.maxCount == maxCount
      ensures count == 0 && lastTick == 0
      ensures Valid()
    {
      this.interval := interval;
      this.maxCount := maxCount;
      count := 0;
      lastTick := 0;
    }

    /** A copy of the whole value `rl`, as passing a struct does. */
    constructor Copy(rl: RateLimiter)
      ensures interval == rl.interval && maxCount == rl.maxCount
      ensures count == rl.count && lastTick == rl.lastTick
    {
      interval := rl.interval;
      maxCount := rl.maxCount;
      count := rl.count;
      lastTick := rl.lastTick;
    }

    /** `Allowed` as written, with a value receiver: the step runs on a copy
        of the fields, so the decision is that of one step from the current
        state and the limiter itself is left as it was. */
    method Allowed(now: int) returns (ok: bool)
      requires Valid()
      ensures ok == WindowStep(interval, maxCount, State(), now).allowed
    {
      var c := count;
      var t := lastTick;
      if Since(now, t) > interval {
        t := now;
        c := 0;
        return true;
      }
      c := (c + 1) % UintModulus;
      ok := c < maxCount;
    }

    /** `Allowed` with a pointer receiver, the evidently intended form: the
        step's new state is kept. */
    method AllowedShared(now: int) returns (ok: bool)
      requires Valid()
      modifies this
      ensures ok == WindowStep(interval, maxCount, old(State()), now).allowed
      ensures State() == WindowStep(interval, maxCount, old(State()), now).next
      ensures Valid()
    {
      if Since(now, lastTick) > interval {
        lastTick := now;
        count := 0;
        return true;
      }
      count := (count + 1) % UintModulus;
      ok := count < maxCount;
    }
  }

  /** As written, a limiter built as `RateLimiter{Interval, MaxCount}` has the
      zero time as its last tick forever, and `time.Since` of the zero time
      saturates at the largest Duration once the clock is more than about 292
      years past year 1. So unless the interval is that largest Duration,
      every call is allowed, whatever `maxCount` is, even 0. */
  lemma AsWrittenAllowsEverything(interval: int, maxCount: nat, nows: seq<int>)
    requires interval < MaxDuration
    requires forall k :: 0 <= k < |nows| ==> nows[k] > MaxDuration
    ensures forall k :: 0 <= k < |nows| ==> Uncarried(interval, maxCount, Window(0, 0), nows)[k]
  {
  }

  /** The limiter with the state kept: from a new limiter, a burst inside one
      window is cut off after `maxCount` calls. */
  lemma SharedLimitsBurst(interval: int, maxCount: nat, nows: seq<int>)
    requires 1 <= maxCount && 0 < |nows| <= UintModulus
    requires interval < MaxDuration && nows[0] > MaxDuration
    requires forall k :: 0 < k < |nows| ==> Since(nows[k], nows[0]) <= interval
    ensures forall k :: 0 <= k < |nows| ==> Carried(interval, maxCount, Window(0, 0), nows)[k] == (k < maxCount)
  {
    WindowBurst(interval, maxCount, Window(0, 0), nows);
  }

  /** A refused call fails with code `Internal` (ratelimit.go:49). */
  const RateLimited: Error := StatusError(Internal, "rate limited")

  /** The package globals `rateLimiter` and `initRateLimiterOnce`. */
  class Globals {
    var rateLimiter: RateLimiter?
    var initDone: bool

    constructor()
      ensures rateLimiter == null && !initDone
    {
      rateLimiter := null;
      initDone := false;
    }

    /** `InitRateLimiter`: only the first call stores (a pointer to a copy
        of) its argument; later calls change nothing. */
    method InitRateLimiter(rl: RateLimiter)
      modifies this
      ensures initDone
      ensures old(initDone) ==> rateLimiter == old(rateLimiter)
      ensures !old(initDone) ==> rateLimiter != null && fresh(rateLimiter)
      ensures !old(initDone) ==> rateLimiter.interval == rl.interval && rateLimiter.maxCount == rl.maxCount
      ensures !old(initDone) ==> rateLimiter.State() == rl.State()
    {
      if !initDone {
        rateLimiter := new RateLimiter.Copy(rl);
        initDone := true;
      }
    }

    /** `RateLimit`, which dereferences the global limiter (set by
        `InitRateLimiter`). A refused call fails with `Internal` "rate
        limited" and the handler is not called; an allowed call returns the
        handler's reply as it is. */
    method RateLimit<C, Q, P>(now: int, ctx: C, req: Q, handler: Chain.Handler<C, Q, Reply<P>>) returns (r: Reply<P>)
      requires rateLimiter != null && rateLimiter.Valid()
      ensures var ok := WindowStep(rateLimiter.interval, rateLimiter.maxCount, rateLimiter.State(), now).allowed;
              (!ok ==> r == Failed(RateLimited)) && (ok ==> r == handler(ctx, req))
    {
      var ok := rateLimiter.Allowed(now);
      if !ok {
        return Failed(RateLimited);
      }
      r := handler(ctx, req);
    }
  }
}
