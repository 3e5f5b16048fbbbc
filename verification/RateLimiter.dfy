/** src/rateLimiter.ts: a fixed window per key. */
module RateLimiters {
  import opened Core

  datatype WindowState = WindowState(count: int, windowStartedAt: int)

  datatype RateLimitResult = RateLimitResult(allowed: bool, retryAfterMs: int)

  datatype Limits = Limits(windowMs: int, maxRequests: int)

  /** One check against the window a key is in, if any. */
  function CheckWindow(l: Limits, w: Option<WindowState>, now: int): (WindowState, RateLimitResult) {
    if w.None? || now - w.value.windowStartedAt >= l.windowMs then
      (WindowState(1, now), RateLimitResult(true, 0))
    else if w.value.count < l.maxRequests then
      (w.value.(count := w.value.count + 1), RateLimitResult(true, 0))
    else
      (w.value, RateLimitResult(false, w.value.windowStartedAt + l.windowMs - now))
  }

  class RateLimiter {
    const limits: Limits
    var windows: map<string, WindowState>

    constructor (limits: Limits)
      ensures this.limits == limits && windows == map[]
    {
      this.limits := limits;
      windows := map[];
    }

    method Check(key: string, nowMs: int) returns (r: RateLimitResult)
      modifies this
      ensures var w := if key in old(windows) then Some(old(windows)[key]) else None;
              && r == CheckWindow(limits, w, nowMs).1
              && windows == old(windows)[key := CheckWindow(limits, w, nowMs).0]
    {
      if key !in windows || nowMs - windows[key].windowStartedAt >= limits.windowMs {
        windows := windows[key := WindowState(1, nowMs)];
        return RateLimitResult(true, 0);
      }
      var existing := windows[key];
      if existing.count < limits.maxRequests {
        windows := windows[key := existing.(count := existing.count + 1)];
        return RateLimitResult(true, 0);
      }
      windows := windows[key := existing];
      var retryAfterMs := existing.windowStartedAt + limits.windowMs - nowMs;
      return RateLimitResult(false, retryAfterMs);
    }
  }

  // ---- Runs ------------------------------------------------------------------

  datatype Call = Call(key: string, now: int)

  function Lookup(windows: map<string, WindowState>, key: string): Option<WindowState> {
    if key in windows then Some(windows[key]) else None
  }

  /** Checks of `key` allowed at times in [from, to). */
  function AllowedIn(
    l: Limits, windows: map<string, WindowState>, calls: seq<Call>, key: string, from: int, to: int): nat
    decreases |calls|
  {
    if calls == [] then 0
    else
      var c := calls[0];
      var (w, r) := CheckWindow(l, Lookup(windows, c.key), c.now);
      (if c.key == key && r.allowed && from <= c.now < to then 1 else 0)
      + AllowedIn(l, windows[c.key := w], calls[1..], key, from, to)
  }

  ghost predicate ClockRuns(calls: seq<Call>) {
    forall i, j :: 0 <= i < j < |calls| ==> calls[i].now <= calls[j].now
  }

  /** A window this limiter could have opened by time `now`. */
  ghost predicate Plausible(l: Limits, w: WindowState, now: int) {
    1 <= w.count <= Max(1, l.maxRequests) && w.windowStartedAt <= now
  }

  lemma {:induction false} NothingAfterTheInterval(
    l: Limits, windows: map<string, WindowState>, calls: seq<Call>, key: string, from: int, to: int)
    requires ClockRuns(calls)
    requires calls != [] ==> to <= calls[0].now
    ensures AllowedIn(l, windows, calls, key, from, to) == 0
    decreases |calls|
  {
    if calls != [] {
      var c := calls[0];
      var (w, r) := CheckWindow(l, Lookup(windows, c.key), c.now);
      NothingAfterTheInterval(l, windows[c.key := w], calls[1..], key, from, to);
    }
  }

  /** Once the clock has reached `from`: what is left of the current window,
      and one more window if the current one began before `from`. */
  lemma {:induction false} AllowedFromNow(
    l: Limits, windows: map<string, WindowState>, calls: seq<Call>, key: string, from: int)
    requires ClockRuns(calls)
    requires calls != [] ==> from <= calls[0].now
    requires key in windows && calls != [] ==> Plausible(l, windows[key], calls[0].now)
    ensures var m := Max(1, l.maxRequests);
            AllowedIn(l, windows, calls, key, from, from + l.windowMs)
            <= if key !in windows then m
               else if windows[key].windowStartedAt >= from then Max(0, m - windows[key].count)
               else Max(0, m - windows[key].count) + m
    decreases |calls|
  {
    if calls != [] {
      var c := calls[0];
      var (w, r) := CheckWindow(l, Lookup(windows, c.key), c.now);
      if c.now >= from + l.windowMs {
        NothingAfterTheInterval(l, windows, calls, key, from, from + l.windowMs);
      } else {
        AllowedFromNow(l, windows[c.key := w], calls[1..], key, from);
      }
    }
  }

  /** At most 2m - 1 allowed in any interval as long as the window, where m is
      the limit: below the "2x" of the design note, since the check that opens
      a window counts against it. A limit below one acts as one. */
  lemma {:induction false} LessThanTwiceTheLimit(
    l: Limits, windows: map<string, WindowState>, calls: seq<Call>, key: string, from: int)
    requires ClockRuns(calls)
    requires key in windows && calls != [] ==> Plausible(l, windows[key], calls[0].now)
    ensures AllowedIn(l, windows, calls, key, from, from + l.windowMs) < 2 * Max(1, l.maxRequests)
    decreases |calls|
  {
    if calls != [] {
      var c := calls[0];
      if from <= c.now {
        AllowedFromNow(l, windows, calls, key, from);
      } else {
        var (w, r) := CheckWindow(l, Lookup(windows, c.key), c.now);
        LessThanTwiceTheLimit(l, windows[c.key := w], calls[1..], key, from);
      }
    }
  }

  /** For a limiter from its construction on. */
  lemma FreshLimiterBound(l: Limits, calls: seq<Call>, key: string, from: int)
    requires ClockRuns(calls)
    ensures AllowedIn(l, map[], calls, key, from, from + l.windowMs) < 2 * Max(1, l.maxRequests)
  {
    LessThanTwiceTheLimit(l, map[], calls, key, from);
  }

  function Burst(key: string, now: int, n: nat): seq<Call> {
    seq(n, _ => Call(key, now))
  }

  /** n checks at one instant inside a window with room for them are all
      allowed, and the rest of the run goes on from the fuller window. */
  lemma {:induction false} BurstFits(
    l: Limits, key: string, w: WindowState, now: int, n: nat, rest: seq<Call>, from: int, to: int)
    requires now - w.windowStartedAt < l.windowMs && w.count + n <= l.maxRequests
    ensures AllowedIn(l, map[key := w], Burst(key, now, n) + rest, key, from, to)
         == (if from <= now < to then n else 0)
            + AllowedIn(l, map[key := w.(count := w.count + n)], rest, key, from, to)
    decreases n
  {
    if n == 0 {
      assert Burst(key, now, n) + rest == rest;
    } else {
      var calls := Burst(key, now, n) + rest;
      var w' := w.(count := w.count + 1);
      assert calls[0] == Call(key, now) && calls[1..] == Burst(key, now, n - 1) + rest;
      assert map[key := w][key := w'] == map[key := w'];
      BurstFits(l, key, w', now, n - 1, rest, from, to);
    }
  }

  lemma {:induction false} OpeningCheck(
    l: Limits, windows: map<string, WindowState>, key: string, now: int, rest: seq<Call>, from: int, to: int)
    requires windows.Keys <= {key}
    requires key in windows ==> now - windows[key].windowStartedAt >= l.windowMs
    ensures AllowedIn(l, windows, [Call(key, now)] + rest, key, from, to)
         == (if from <= now < to then 1 else 0) + AllowedIn(l, map[key := WindowState(1, now)], rest, key, from, to)
  {
    var calls := [Call(key, now)] + rest;
    assert calls[0] == Call(key, now) && calls[1..] == rest;
    assert windows[key := WindowState(1, now)] == map[key := WindowState(1, now)];
  }

  /** Open a window, fill it in its last millisecond, fill the next one at once. */
  function StraddlingCalls(key: string, w: int, m: nat): seq<Call>
    requires m >= 1
  {
    [Call(key, 0)] + (Burst(key, w - 1, m - 1) + ([Call(key, w)] + (Burst(key, w, m - 1) + [])))
  }

  lemma StraddlingClock(key: string, w: int, m: nat)
    requires w >= 2 && m >= 1
    ensures ClockRuns(StraddlingCalls(key, w, m))
  {
    var calls := StraddlingCalls(key, w, m);
    assert |calls| == 2 * m;
    assert forall i :: 0 <= i < 2 * m ==> calls[i].now == if i == 0 then 0 else if i < m then w - 1 else w;
  }

  /** The bound is reached, for every limit and every window of two or more
      milliseconds. */
  lemma {:induction false} BoundIsReached(l: Limits, key: string)
    requires l.windowMs >= 2 && l.maxRequests >= 1
    ensures var calls := StraddlingCalls(key, l.windowMs, l.maxRequests);
            && ClockRuns(calls)
            && AllowedIn(l, map[], calls, key, l.windowMs - 1, 2 * l.windowMs - 1) == 2 * l.maxRequests - 1
  {
    var w, m := l.windowMs, l.maxRequests;
    StraddlingClock(key, w, m);
    var from, to := w - 1, 2 * w - 1;
    var fourth := Burst(key, w, m - 1) + [];
    var third := [Call(key, w)] + fourth;
    var second := Burst(key, w - 1, m - 1) + third;
    OpeningCheck(l, map[], key, 0, second, from, to);
    BurstFits(l, key, WindowState(1, 0), w - 1, m - 1, third, from, to);
    OpeningCheck(l, map[key := WindowState(m, 0)], key, w, fourth, from, to);
    BurstFits(l, key, WindowState(1, w), w, m - 1, [], from, to);
  }

  /** Other keys never matter. */
  lemma {:induction false} KeysAreIndependent(
    l: Limits, a: map<string, WindowState>, b: map<string, WindowState>, calls: seq<Call>, key: string, from: int,
    to: int)
    requires Lookup(a, key) == Lookup(b, key)
    ensures AllowedIn(l, a, calls, key, from, to)
         == AllowedIn(l, b, Only(calls, key), key, from, to)
    decreases |calls|
  {
    if calls != [] {
      var c := calls[0];
      var (w, r) := CheckWindow(l, Lookup(a, c.key), c.now);
      if c.key == key {
        KeysAreIndependent(l, a[key := w], b[key := w], calls[1..], key, from, to);
        assert Only(calls, key) == [c] + Only(calls[1..], key);
      } else {
        KeysAreIndependent(l, a[c.key := w], b, calls[1..], key, from, to);
        assert Only(calls, key) == Only(calls[1..], key);
      }
    }
  }

  function Only(calls: seq<Call>, key: string): seq<Call> {
    if calls == [] then []
    else (if calls[0].key == key then [calls[0]] else []) + Only(calls[1..], key)
  }

  // ---- Refusals --------------------------------------------------------------

  /** A check is refused exactly inside a window that is full; one that is allowed
      is asked to wait for nothing, and is counted. */
  lemma VerdictIsExact(l: Limits, w: Option<WindowState>, now: int)
    ensures var (next, r) := CheckWindow(l, w, now);
            var full := w.Some? && now < w.value.windowStartedAt + l.windowMs && w.value.count >= l.maxRequests;
            && (r.allowed <==> !full)
            && (r.allowed ==> r.retryAfterMs == 0)
            && (full ==> next == w.value && r.retryAfterMs == w.value.windowStartedAt + l.windowMs - now)
            && (r.allowed && w.Some? && now < w.value.windowStartedAt + l.windowMs ==>
                  next == WindowState(w.value.count + 1, w.value.windowStartedAt))
            && (r.allowed && (w.None? || now >= w.value.windowStartedAt + l.windowMs) ==> next == WindowState(1, now))
  {
  }

  /** retryAfterMs is in (0, windowMs], and it is exactly the delay after which
      the key is allowed again, however often it is tried before. */
  lemma RetryAfterIsExact(l: Limits, w: WindowState, now: int, delay: nat)
    requires w.windowStartedAt <= now
    requires !CheckWindow(l, Some(w), now).1.allowed
    ensures var retry := CheckWindow(l, Some(w), now).1.retryAfterMs;
            && 0 < retry <= l.windowMs
            && CheckWindow(l, Some(w), now).0 == w
            && (CheckWindow(l, Some(w), now + delay).1.allowed <==> delay >= retry)
  {
  }
}
