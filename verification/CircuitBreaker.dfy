/** src/circuitBreaker.ts, wired to the audit log as src/server.ts:94-106 does. */
module CircuitBreakers {
  import opened Core
  import opened AuditLogs

  datatype CircuitState = Closed | Open | HalfOpen

  datatype TransitionReason = FailureThresholdReached | ProbeSucceeded | ProbeFailed

  datatype StateChange = StateChange(from: CircuitState, to: CircuitState, reason: TransitionReason)

  datatype Breaker = Breaker(
    state: CircuitState,
    consecutiveFailures: nat,
    openedAt: int,
    simulatingOutage: bool,
    failureThreshold: int,
    cooldownMs: int)

  /** Rejected: fn was never reached. Failed and Succeeded: the attempt was let through. */
  datatype Outcome = Rejected | Failed | Succeeded

  function NewBreaker(failureThreshold: int, cooldownMs: int): Breaker {
    Breaker(Closed, 0, 0, false, failureThreshold, cooldownMs)
  }

  function OnSuccess(b: Breaker): (Breaker, Option<StateChange>) {
    var b := b.(consecutiveFailures := 0);
    if b.state == HalfOpen
    then (b.(state := Closed), Some(StateChange(HalfOpen, Closed, ProbeSucceeded)))
    else (b, None)
  }

  function OnFailure(b: Breaker, now: int): (Breaker, Option<StateChange>) {
    var b := b.(consecutiveFailures := b.consecutiveFailures + 1);
    if b.state == HalfOpen
    then (b.(openedAt := now, state := Open), Some(StateChange(HalfOpen, Open, ProbeFailed)))
    else if b.state == Closed && b.consecutiveFailures >= b.failureThreshold
    then (b.(openedAt := now, state := Open), Some(StateChange(Closed, Open, FailureThresholdReached)))
    else (b, None)
  }

  /** execute(fn, now), where fn throws iff `fnThrows`. */
  function Executed(b: Breaker, fnThrows: bool, now: int): (Breaker, Outcome, Option<StateChange>) {
    if b.state == Open && now - b.openedAt < b.cooldownMs then (b, Rejected, None)
    else
      var b := if b.state == Open then b.(state := HalfOpen) else b;
      if b.simulatingOutage || fnThrows
      then var (b', change) := OnFailure(b, now); (b', Failed, change)
      else var (b', change) := OnSuccess(b); (b', Succeeded, change)
  }

  /** The breaker between calls. A threshold below one acts as one. */
  ghost predicate Resting(b: Breaker) {
    && b.state != HalfOpen
    && (b.state == Closed ==> b.consecutiveFailures < Max(1, b.failureThreshold))
  }

  /** Closed with nothing injected: the next attempt can only succeed. */
  predicate Settled(b: Breaker) {
    b.state == Closed && !b.simulatingOutage && b.consecutiveFailures == 0
  }

  /** What one attempt comes to. While open, it is let through exactly once the
      cooldown is over, and then it is a probe: success closes the breaker and settles
      it, failure opens it anew. While closed, a failure is counted, and opens the
      breaker exactly when it is the last one the threshold allows. */
  lemma AttemptOutcome(b: Breaker, fnThrows: bool, now: int)
    requires Resting(b)
    ensures var (b', outcome, change) := Executed(b, fnThrows, now);
            var through := b.state == Open ==> now - b.openedAt >= b.cooldownMs;
            var again := b.consecutiveFailures + 1;
            && (outcome == Rejected <==> !through)
            && (outcome == Failed <==> through && (b.simulatingOutage || fnThrows))
            && (outcome == Rejected ==> b' == b && change == None)
            && (outcome == Succeeded ==>
                  && b' == b.(state := Closed, consecutiveFailures := 0)
                  && change == if b.state == Open then Some(StateChange(HalfOpen, Closed, ProbeSucceeded)) else None)
            && (outcome == Failed && b.state == Open ==>
                  && b' == b.(consecutiveFailures := again, openedAt := now)
                  && change == Some(StateChange(HalfOpen, Open, ProbeFailed)))
            && (outcome == Failed && b.state == Closed ==>
                  if again >= Max(1, b.failureThreshold)
                  then && b' == b.(consecutiveFailures := again, openedAt := now, state := Open)
                       && change == Some(StateChange(Closed, Open, FailureThresholdReached))
                  else b' == b.(consecutiveFailures := again) && change == None)
  {
  }

  lemma RestingBetweenCalls(b: Breaker, fnThrows: bool, now: int)
    requires Resting(b)
    ensures Resting(Executed(b, fnThrows, now).0)
  {
  }

  /** After one success, every later attempt that does not itself throw also
      succeeds and leaves the breaker alone, whatever the clock says. */
  lemma SuccessSettles(b: Breaker, fnThrows: bool, now: int, later: int)
    requires Executed(b, fnThrows, now).1 == Succeeded
    ensures var b' := Executed(b, fnThrows, now).0;
            Settled(b') && Executed(b', false, later) == (b', Succeeded, None)
  {
  }

  // ---- Opening and recovering ------------------------------------------------

  function AfterFailures(b: Breaker, times: seq<int>): Breaker
    decreases |times|
  {
    if times == [] then b else AfterFailures(Executed(b, true, times[0]).0, times[1..])
  }

  /** Of failures in a row, it is the one that fills the threshold that opens the
      breaker, and no earlier one; the cooldown runs from it. */
  lemma {:induction false} ThresholdOpens(b: Breaker, times: seq<int>)
    requires Resting(b) && b.state == Closed
    requires |times| <= Max(1, b.failureThreshold) - b.consecutiveFailures
    ensures var end := AfterFailures(b, times);
            && (end.state == Open <==> |times| == Max(1, b.failureThreshold) - b.consecutiveFailures)
            && (end.state == Open ==> times != [] && end.openedAt == times[|times| - 1])
            && end.consecutiveFailures == b.consecutiveFailures + |times|
    decreases |times|
  {
    if times != [] {
      AttemptOutcome(b, true, times[0]);
      var next := Executed(b, true, times[0]).0;
      if next.state == Closed {
        ThresholdOpens(next, times[1..]);
      }
    }
  }

  ghost predicate AllSucceed(b: Breaker, times: seq<int>)
    decreases |times|
  {
    times != [] ==>
      Executed(b, false, times[0]).1 == Succeeded && AllSucceed(Executed(b, false, times[0]).0, times[1..])
  }

  lemma {:induction false} SettledKeepsSucceeding(b: Breaker, times: seq<int>)
    requires Settled(b)
    ensures AllSucceed(b, times)
    decreases |times|
  {
    if times != [] {
      SettledKeepsSucceeding(b, times[1..]);
    }
  }

  /** A dependency that works again is back as soon as the cooldown is over: the next
      attempt succeeds, and so does every later one. */
  lemma {:induction false} Recovers(b: Breaker, now: int, later: seq<int>)
    requires Resting(b) && !b.simulatingOutage && (b.state == Open ==> now - b.openedAt >= b.cooldownMs)
    ensures AllSucceed(b, [now] + later)
  {
    var times := [now] + later;
    assert times[0] == now && times[1..] == later;
    AttemptOutcome(b, false, now);
    SettledKeepsSucceeding(Executed(b, false, now).0, later);
  }

  ghost predicate AllRejected(b: Breaker, times: seq<int>)
    decreases |times|
  {
    times != [] ==>
      Executed(b, false, times[0]).1 == Rejected && AllRejected(Executed(b, false, times[0]).0, times[1..])
  }

  /** And not before: until then every attempt is rejected, and none puts it off. */
  lemma {:induction false} RejectsUntilThen(b: Breaker, times: seq<int>)
    requires b.state == Open && forall i :: 0 <= i < |times| ==> times[i] - b.openedAt < b.cooldownMs
    ensures AllRejected(b, times)
    decreases |times|
  {
    if times != [] {
      RejectsUntilThen(b, times[1..]);
    }
  }

  // ---- How many attempts a failing dependency sees -------------------------

  datatype Use = Call(now: int, fnThrows: bool) | Outage(down: bool)

  function Used(b: Breaker, u: Use): Breaker {
    match u
    case Call(now, fnThrows) => Executed(b, fnThrows, now).0
    case Outage(down) => b.(simulatingOutage := down)
  }

  function LetThrough(b: Breaker, uses: seq<Use>): nat
    decreases |uses|
  {
    if uses == [] then 0
    else
      (if uses[0].Call? && Executed(b, uses[0].fnThrows, uses[0].now).1 != Rejected then 1 else 0)
      + LetThrough(Used(b, uses[0]), uses[1..])
  }

  ghost predicate NeverSucceeds(b: Breaker, uses: seq<Use>)
    decreases |uses|
  {
    uses != [] ==>
      && (uses[0].Call? ==> Executed(b, uses[0].fnThrows, uses[0].now).1 != Succeeded)
      && NeverSucceeds(Used(b, uses[0]), uses[1..])
  }

  /** Call times do not decrease and lie in [from, to]. */
  ghost predicate ClockRuns(uses: seq<Use>, from: int, to: int) {
    if uses == [] then true
    else if uses[0].Call? then from <= uses[0].now <= to && ClockRuns(uses[1..], uses[0].now, to)
    else ClockRuns(uses[1..], from, to)
  }

  lemma QuotientAtLeast(x: int, q: int, d: int)
    requires d > 0 && x >= q * d
    ensures x / d >= q
  {
    var k := x / d;
    assert x < (k + 1) * d;
    if k < q {
      ProductGrows(k + 1, q, d);
    }
  }

  lemma ProductGrows(a: int, b: int, d: int)
    requires d > 0 && a <= b
    ensures a * d <= b * d
  {
  }

  /** A longer span holds at least as many cooldowns, and at least one more
      when it is longer by a cooldown. */
  lemma CooldownsFit(o: int, t: int, end: int, cooldown: int)
    requires cooldown > 0 && o <= t <= end
    ensures (end - o) / cooldown >= (end - t) / cooldown
    ensures t - o >= cooldown ==> (end - o) / cooldown >= 1 + (end - t) / cooldown
    ensures (end - o) / cooldown >= 0
  {
    var q := (end - t) / cooldown;
    assert end - t >= q * cooldown;
    QuotientAtLeast(end - o, q, cooldown);
    if t - o >= cooldown {
      assert (1 + q) * cooldown == q * cooldown + cooldown;
      QuotientAtLeast(end - o, 1 + q, cooldown);
    }
  }

  /** Failures still allowed before opening, and then one probe per cooldown. */
  ghost function Allowance(b: Breaker, from: int, to: int): int
    requires b.cooldownMs > 0 && from <= to
  {
    if b.state == Closed
    then Max(1, b.failureThreshold) - b.consecutiveFailures + (to - from) / b.cooldownMs
    else if b.openedAt <= to then (to - b.openedAt) / b.cooldownMs else 0
  }

  lemma {:induction false} AllowanceHolds(b: Breaker, uses: seq<Use>, from: int, to: int)
    requires b.cooldownMs > 0 && Resting(b) && from <= to
    requires ClockRuns(uses, from, to) && NeverSucceeds(b, uses)
    ensures LetThrough(b, uses) <= Allowance(b, from, to)
    decreases |uses|
  {
    if uses != [] {
      var b' := Used(b, uses[0]);
      match uses[0]
      case Outage(down) =>
        AllowanceHolds(b', uses[1..], from, to);
      case Call(now, fnThrows) =>
        AllowanceHolds(b', uses[1..], now, to);
        CooldownsFit(from, now, to, b.cooldownMs);
        if b.state == Open && now - b.openedAt >= b.cooldownMs {
          CooldownsFit(b.openedAt, now, to, b.cooldownMs);
        }
    }
  }

  /** While every attempt that gets through fails, at most
      threshold + floor(T / cooldown) get through in a span of length T. */
  lemma {:induction false} FailingAttemptsBounded(b: Breaker, uses: seq<Use>, from: int, to: int)
    requires b.cooldownMs > 0 && Resting(b) && from <= to
    requires ClockRuns(uses, from, to) && NeverSucceeds(b, uses)
    ensures LetThrough(b, uses) <= Max(1, b.failureThreshold) + (to - from) / b.cooldownMs
    decreases |uses|
  {
    if b.state == Closed {
      AllowanceHolds(b, uses, from, to);
    } else if uses == [] {
      CooldownsFit(from, to, to, b.cooldownMs);
    } else {
      var b' := Used(b, uses[0]);
      match uses[0]
      case Outage(down) =>
        FailingAttemptsBounded(b', uses[1..], from, to);
      case Call(now, fnThrows) =>
        CooldownsFit(from, now, to, b.cooldownMs);
        if now - b.openedAt >= b.cooldownMs {
          AllowanceHolds(b', uses[1..], now, to);
        } else {
          FailingAttemptsBounded(b', uses[1..], now, to);
        }
    }
  }

  // ---- The class -------------------------------------------------------------

  function ReasonText(reason: TransitionReason): string {
    match reason
    case FailureThresholdReached => "failure_threshold_reached"
    case ProbeSucceeded => "probe_succeeded"
    case ProbeFailed => "probe_failed"
  }

  /** What the server's onStateChange callback records. */
  function TransitionEvent(change: StateChange): Event
    requires change.to != HalfOpen
  {
    Event(if change.to == Open then CircuitOpened else CircuitClosed,
          "policy_token_store", "system", None, None, None, Some(ReasonText(change.reason)), None)
  }

  function TransitionRecords(change: Option<StateChange>, clock: int): seq<Recorded>
    requires change.Some? ==> change.value.to != HalfOpen
  {
    if change.None? then [] else [Recorded(TransitionEvent(change.value), clock)]
  }

  class CircuitBreaker {
    var state: CircuitState
    var consecutiveFailures: nat
    var openedAt: int
    var simulatingOutage: bool
    const failureThreshold: int
    const cooldownMs: int
    const auditLog: AuditLog

    ghost function View(): Breaker
      reads this
    {
      Breaker(state, consecutiveFailures, openedAt, simulatingOutage, failureThreshold, cooldownMs)
    }

    constructor (failureThreshold: Option<int>, cooldownMs: Option<int>, auditLog: AuditLog)
      ensures View() == NewBreaker(if failureThreshold.Some? then failureThreshold.value else 3,
                                   if cooldownMs.Some? then cooldownMs.value else 5000)
      ensures this.auditLog == auditLog
    {
      state, consecutiveFailures, openedAt, simulatingOutage := Closed, 0, 0, false;
      this.failureThreshold := if failureThreshold.Some? then failureThreshold.value else 3;
      this.cooldownMs := if cooldownMs.Some? then cooldownMs.value else 5000;
      this.auditLog := auditLog;
    }

    method SimulateOutage(down: bool)
      modifies this
      ensures View() == old(View()).(simulatingOutage := down)
    {
      simulatingOutage := down;
    }

    method Execute(fnThrows: bool, now: int) returns (outcome: Outcome)
      requires auditLog.Valid()
      modifies this, auditLog
      ensures auditLog.Valid() && auditLog.disk.Some? == old(auditLog.disk.Some?)
      ensures var (b, o, change) := Executed(old(View()), fnThrows, now);
              && View() == b && outcome == o
              && auditLog.Log() == old(auditLog.Log()) + TransitionRecords(change, now)
    {
      if state == Open {
        if now - openedAt < cooldownMs {
          return Rejected;
        }
        state := HalfOpen;
      }
      if simulatingOutage || fnThrows {
        HandleFailure(now);
        return Failed;
      }
      HandleSuccess(now);
      return Succeeded;
    }

    method HandleSuccess(now: int)
      requires auditLog.Valid()
      modifies this, auditLog
      ensures auditLog.Valid() && auditLog.disk.Some? == old(auditLog.disk.Some?)
      ensures var (b, change) := OnSuccess(old(View()));
              View() == b && auditLog.Log() == old(auditLog.Log()) + TransitionRecords(change, now)
    {
      consecutiveFailures := 0;
      if state == HalfOpen {
        Transition(Closed, ProbeSucceeded, now);
      }
    }

    method HandleFailure(now: int)
      requires auditLog.Valid()
      modifies this, auditLog
      ensures auditLog.Valid() && auditLog.disk.Some? == old(auditLog.disk.Some?)
      ensures var (b, change) := OnFailure(old(View()), now);
              View() == b && auditLog.Log() == old(auditLog.Log()) + TransitionRecords(change, now)
    {
      consecutiveFailures := consecutiveFailures + 1;
      if state == HalfOpen {
        openedAt := now;
        Transition(Open, ProbeFailed, now);
        return;
      }
      if state == Closed && consecutiveFailures >= failureThreshold {
        openedAt := now;
        Transition(Open, FailureThresholdReached, now);
      }
    }

    method Transition(to: CircuitState, reason: TransitionReason, clock: int)
      requires auditLog.Valid() && to != HalfOpen
      modifies this, auditLog
      ensures auditLog.Valid() && auditLog.disk.Some? == old(auditLog.disk.Some?)
      ensures View() == old(View()).(state := to)
      ensures auditLog.Log() == old(auditLog.Log())
                                + TransitionRecords(Some(StateChange(old(state), to, reason)), clock)
    {
      var change := StateChange(state, to, reason);
      state := to;
      var ok, id := auditLog.Record(TransitionEvent(change), clock);
    }
  }
}
