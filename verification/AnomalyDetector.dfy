/** src/anomalyDetector.ts: scope breadth and per-subject velocity. */
module AnomalyDetectors {
  import opened Core

  datatype Config = Config(maxScopeBreadth: int, velocityWindowMs: int, maxRequestsPerWindow: int)

  datatype Signal = ScopeTooBroad | HighVelocity

  /** The detector as a value: recent check times by subject. */
  datatype Detector = Detector(config: Config, recentBySubject: map<string, seq<int>>)

  /** The times less than `window` before `now`, in order. */
  function Pruned(times: seq<int>, now: int, window: int): seq<int> {
    if times == [] then []
    else
      var n := |times| - 1;
      Pruned(times[..n], now, window) + if now - times[n] < window then [times[n]] else []
  }

  function RecentOf(d: Detector, subject: string): seq<int> {
    if subject in d.recentBySubject then d.recentBySubject[subject] else []
  }

  function Signals(broad: bool, fast: bool): seq<Signal> {
    (if broad then [ScopeTooBroad] else []) + (if fast then [HighVelocity] else [])
  }

  /** check(subject, scope, now): the detector afterwards, and the signals. */
  function Checked(d: Detector, subject: string, scope: seq<string>, now: int): (Detector, seq<Signal>) {
    var recent := Pruned(RecentOf(d, subject), now, d.config.velocityWindowMs) + [now];
    (d.(recentBySubject := d.recentBySubject[subject := recent]),
     Signals(|scope| > d.config.maxScopeBreadth, |recent| > d.config.maxRequestsPerWindow))
  }

  class AnomalyDetector {
    const config: Config
    var recentBySubject: map<string, seq<int>>

    function View(): Detector
      reads this
    {
      Detector(config, recentBySubject)
    }

    constructor (maxScopeBreadth: Option<int>, velocityWindowMs: Option<int>, maxRequestsPerWindow: Option<int>)
      ensures View() == Detector(Config(if maxScopeBreadth.Some? then maxScopeBreadth.value else 3,
                                        if velocityWindowMs.Some? then velocityWindowMs.value else 60000,
                                        if maxRequestsPerWindow.Some? then maxRequestsPerWindow.value else 3), map[])
    {
      config := Config(if maxScopeBreadth.Some? then maxScopeBreadth.value else 3,
                       if velocityWindowMs.Some? then velocityWindowMs.value else 60000,
                       if maxRequestsPerWindow.Some? then maxRequestsPerWindow.value else 3);
      recentBySubject := map[];
    }

    method Check(subject: string, scope: seq<string>, now: int) returns (signals: seq<Signal>)
      modifies this
      ensures (View(), signals) == Checked(old(View()), subject, scope, now)
    {
      signals := [];
      if |scope| > config.maxScopeBreadth {
        signals := signals + [ScopeTooBroad];
      }
      var known := if subject in recentBySubject then recentBySubject[subject] else [];
      var recent := [];
      for i := 0 to |known|
        invariant recent == Pruned(known[..i], now, config.velocityWindowMs)
      {
        assert known[..i + 1][..i] == known[..i];
        if now - known[i] < config.velocityWindowMs {
          recent := recent + [known[i]];
        }
      }
      assert known[..|known|] == known;
      recent := recent + [now];
      recentBySubject := recentBySubject[subject := recent];
      if |recent| > config.maxRequestsPerWindow {
        signals := signals + [HighVelocity];
      }
      assert signals == Signals(|scope| > config.maxScopeBreadth, |recent| > config.maxRequestsPerWindow);
    }
  }

  // ---- Pruning loses nothing ---------------------------------------------------

  datatype Check = Check(subject: string, scope: seq<string>, now: int)

  function After(d: Detector, checks: seq<Check>): Detector
    decreases |checks|
  {
    if checks == [] then d
    else
      var n := |checks| - 1;
      Checked(After(d, checks[..n]), checks[n].subject, checks[n].scope, checks[n].now).0
  }

  /** Times do not decrease for this subject; other subjects are free. */
  ghost predicate ClockRunsFor(checks: seq<Check>, subject: string) {
    forall i, j :: 0 <= i < j < |checks| && checks[i].subject == checks[j].subject == subject
      ==> checks[i].now <= checks[j].now
  }

  /** Every check of `subject` ever made that is within the window at `now`. */
  function InWindow(checks: seq<Check>, subject: string, now: int, window: int): set<int> {
    set i | 0 <= i < |checks| && checks[i].subject == subject && now - checks[i].now < window
  }

  /** All times of one subject, never pruned. */
  function History(checks: seq<Check>, subject: string): seq<int> {
    if checks == [] then []
    else
      var n := |checks| - 1;
      History(checks[..n], subject) + if checks[n].subject == subject then [checks[n].now] else []
  }

  lemma {:induction false} PrunedTwice(times: seq<int>, first: int, second: int, window: int)
    requires first <= second
    ensures Pruned(Pruned(times, first, window), second, window) == Pruned(times, second, window)
  {
    if times != [] {
      var n := |times| - 1;
      var kept := Pruned(times[..n], first, window);
      PrunedTwice(times[..n], first, second, window);
      assert (kept + [times[n]])[..|kept|] == kept;
      assert kept + [] == kept;
    }
  }

  lemma {:induction false} PrunedAppend(times: seq<int>, t: int, now: int, window: int)
    ensures Pruned(times + [t], now, window)
         == Pruned(times, now, window) + if now - t < window then [t] else []
  {
    assert (times + [t])[..|times|] == times;
  }

  lemma CheckStores(d: Detector, c: Check, subject: string)
    ensures var known := RecentOf(d, subject);
            RecentOf(Checked(d, c.subject, c.scope, c.now).0, subject)
            == if c.subject == subject then Pruned(known, c.now, d.config.velocityWindowMs) + [c.now] else known
  {
  }

  /** Pruning the stored list at any later time gives what pruning the whole
      history would. */
  lemma {:induction false} StoredListIsHistory(config: Config, checks: seq<Check>, subject: string, now: int)
    requires ClockRunsFor(checks, subject)
    requires forall i :: 0 <= i < |checks| && checks[i].subject == subject ==> checks[i].now <= now
    ensures Pruned(RecentOf(After(Detector(config, map[]), checks), subject), now, config.velocityWindowMs)
         == Pruned(History(checks, subject), now, config.velocityWindowMs)
    decreases |checks|
  {
    if checks != [] {
      var n, w := |checks| - 1, config.velocityWindowMs;
      var before := After(Detector(config, map[]), checks[..n]);
      AfterKeepsConfig(Detector(config, map[]), checks[..n]);
      CheckStores(before, checks[n], subject);
      if checks[n].subject == subject {
        var t := checks[n].now;
        StoredListIsHistory(config, checks[..n], subject, t);
        var known := RecentOf(before, subject);
        assert History(checks, subject) == History(checks[..n], subject) + [t];
        PrunedAppend(Pruned(known, t, w), t, now, w);
        PrunedAppend(History(checks[..n], subject), t, now, w);
        PrunedTwice(History(checks[..n], subject), t, now, w);
      } else {
        StoredListIsHistory(config, checks[..n], subject, now);
        assert History(checks, subject) == History(checks[..n], subject);
      }
    }
  }

  lemma {:induction false} AfterKeepsConfig(d: Detector, checks: seq<Check>)
    ensures After(d, checks).config == d.config
    decreases |checks|
  {
    if checks != [] {
      AfterKeepsConfig(d, checks[..|checks| - 1]);
    }
  }

  lemma {:induction false} PrunedHistoryCounts(checks: seq<Check>, subject: string, now: int, window: int)
    ensures |Pruned(History(checks, subject), now, window)| == |InWindow(checks, subject, now, window)|
    decreases |checks|
  {
    if checks != [] {
      var n := |checks| - 1;
      PrunedHistoryCounts(checks[..n], subject, now, window);
      var earlier := InWindow(checks[..n], subject, now, window);
      if checks[n].subject == subject {
        PrunedAppend(History(checks[..n], subject), checks[n].now, now, window);
      } else {
        assert History(checks, subject) == History(checks[..n], subject);
      }
      if checks[n].subject == subject && now - checks[n].now < window {
        assert InWindow(checks, subject, now, window) == earlier + {n};
      } else {
        assert InWindow(checks, subject, now, window) == earlier;
      }
    }
  }

  /** high_velocity is signalled exactly when this check and the subject's own
      earlier checks inside the window outnumber the limit, and
      scope_too_broad exactly when the scope is longer than its limit. */
  lemma {:induction false} VelocitySignalIsExact(
    config: Config, checks: seq<Check>, subject: string, scope: seq<string>, now: int)
    requires ClockRunsFor(checks, subject)
    requires forall i :: 0 <= i < |checks| && checks[i].subject == subject ==> checks[i].now <= now
    ensures var signals := Checked(After(Detector(config, map[]), checks), subject, scope, now).1;
            && (HighVelocity in signals <==>
                  1 + |InWindow(checks, subject, now, config.velocityWindowMs)| > config.maxRequestsPerWindow)
            && (ScopeTooBroad in signals <==> |scope| > config.maxScopeBreadth)
  {
    StoredListIsHistory(config, checks, subject, now);
    PrunedHistoryCounts(checks, subject, now, config.velocityWindowMs);
    AfterKeepsConfig(Detector(config, map[]), checks);
  }
}
