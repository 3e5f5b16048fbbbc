/** src/totp.ts:116-156: verifying time-based codes, each step at most once
    (section 5.2 of RFC 6238). */
module Totp {
  import opened Core

  /** The code for a time step: an HMAC, left uninterpreted. */
  type CodeAt = nat -> string

  /** RangeError: the step does not fit the 32-bit counter field. */
  datatype Verdict = Accepted | Refused | RangeError

  predicate Representable(step: int) {
    0 <= step < 0x1_0000_0000
  }

  predicate Unspent(last: Option<int>, step: int) {
    last.None? || step > last.value
  }

  /** The search from `step` up to `end`, and the last accepted step after it. */
  function Search(code: CodeAt, last: Option<int>, step: int, end: int, given: string): (Verdict, Option<int>)
    decreases end - step
  {
    if step > end then (Refused, last)
    else if !Unspent(last, step) then Search(code, last, step + 1, end, given)
    else if !Representable(step) then (RangeError, last)
    else if code(step) == given then (Accepted, Some(step))
    else Search(code, last, step + 1, end, given)
  }

  function Verified(code: CodeAt, drift: int, last: Option<int>, current: int, given: string): (Verdict, Option<int>) {
    Search(code, last, current - drift, current + drift, given)
  }

  class TotpVerifier {
    const code: CodeAt
    const stepSeconds: int
    const driftSteps: int
    var lastAcceptedTimestep: Option<int>

    constructor (code: CodeAt, stepSeconds: Option<int>, driftSteps: Option<int>)
      requires stepSeconds.Some? ==> stepSeconds.value > 0
      ensures this.code == code && lastAcceptedTimestep == None
      ensures this.stepSeconds == if stepSeconds.Some? then stepSeconds.value else 30
      ensures this.driftSteps == if driftSteps.Some? then driftSteps.value else 1
    {
      this.code := code;
      this.stepSeconds := if stepSeconds.Some? then stepSeconds.value else 30;
      this.driftSteps := if driftSteps.Some? then driftSteps.value else 1;
      lastAcceptedTimestep := None;
    }

    method Verify(given: string, nowMs: int) returns (v: Verdict)
      requires stepSeconds > 0
      modifies this
      ensures (v, lastAcceptedTimestep)
           == Verified(code, driftSteps, old(lastAcceptedTimestep), nowMs / (1000 * stepSeconds), given)
    {
      var currentTimestep := nowMs / (1000 * stepSeconds);
      var delta := -driftSteps;
      while delta <= driftSteps
        invariant lastAcceptedTimestep == old(lastAcceptedTimestep)
        invariant Search(code, lastAcceptedTimestep, currentTimestep + delta, currentTimestep + driftSteps, given)
               == Verified(code, driftSteps, lastAcceptedTimestep, currentTimestep, given)
        decreases driftSteps - delta
      {
        var timestep := currentTimestep + delta;
        delta := delta + 1;
        if lastAcceptedTimestep.Some? && timestep <= lastAcceptedTimestep.value {
          continue;
        }
        if !Representable(timestep) {
          return RangeError;
        }
        if code(timestep) == given {
          lastAcceptedTimestep := Some(timestep);
          return Accepted;
        }
      }
      return Refused;
    }
  }

  /** Step t may be tried: in the drift window and later than every accepted one. */
  ghost predicate Eligible(last: Option<int>, drift: int, current: int, t: int) {
    current - drift <= t <= current + drift && Unspent(last, t)
  }

  ghost predicate Matches(code: CodeAt, given: string, t: int) {
    Representable(t) && code(t) == given
  }

  lemma {:induction false} SearchExact(code: CodeAt, last: Option<int>, step: int, end: int, given: string)
    ensures var (v, last') := Search(code, last, step, end, given);
            match v
            case Accepted =>
              && last'.Some? && step <= last'.value <= end && Unspent(last, last'.value)
              && Matches(code, given, last'.value)
              && (forall u :: step <= u < last'.value && Unspent(last, u) ==>
                    Representable(u) && !Matches(code, given, u))
            case Refused =>
              && last' == last
              && (forall u :: step <= u <= end && Unspent(last, u) ==> Representable(u) && !Matches(code, given, u))
            case RangeError =>
              && last' == last
              && (exists t :: step <= t <= end && Unspent(last, t) && !Representable(t)
                              && forall u :: step <= u < t && Unspent(last, u) ==> !Matches(code, given, u))
    decreases end - step
  {
    if step <= end {
      if Unspent(last, step) && !Representable(step) {
        assert step <= step <= end;
      } else {
        SearchExact(code, last, step + 1, end, given);
      }
    }
  }

  /** While the window stays inside the counter's range, a code is accepted
      exactly when some eligible step produces it, and the step recorded is the
      least such; otherwise nothing changes. */
  lemma {:induction false} AcceptsLeastUnspentMatch(
    code: CodeAt, drift: int, last: Option<int>, current: int, given: string)
    requires forall t :: Eligible(last, drift, current, t) ==> Representable(t)
    ensures var (v, last') := Verified(code, drift, last, current, given);
            && v != RangeError
            && (v == Accepted <==> exists t :: Eligible(last, drift, current, t) && Matches(code, given, t))
            && (v == Accepted ==>
                  && last'.Some? && Eligible(last, drift, current, last'.value) && Matches(code, given, last'.value)
                  && forall t :: Eligible(last, drift, current, t) && Matches(code, given, t) ==> last'.value <= t)
            && (v != Accepted ==> last' == last)
  {
    SearchExact(code, last, current - drift, current + drift, given);
    assert forall t :: current - drift <= t <= current + drift && Unspent(last, t)
             ==> Eligible(last, drift, current, t);
  }

  /** The search gives up exactly at a step that a counter of 32 bits cannot hold, if
      it comes to one before a match. */
  lemma {:induction false} GivesUpOutsideTheCounter(
    code: CodeAt, drift: int, last: Option<int>, current: int, given: string)
    ensures Verified(code, drift, last, current, given).0 == RangeError
            <==> exists t :: Eligible(last, drift, current, t) && !(0 <= t <= 4294967295)
                             && forall u :: Eligible(last, drift, current, u) && u < t ==>
                                  0 <= u <= 4294967295 ==> code(u) != given
  {
    SearchExact(code, last, current - drift, current + drift, given);
    var (v, last') := Verified(code, drift, last, current, given);
    if v == RangeError {
      var t :| current - drift <= t <= current + drift && Unspent(last, t) && !Representable(t)
               && forall u :: current - drift <= u < t && Unspent(last, u) ==> !Matches(code, given, u);
      assert Eligible(last, drift, current, t);
      forall u | Eligible(last, drift, current, u) && u < t && 0 <= u <= 4294967295
        ensures code(u) != given
      {
        assert !Matches(code, given, u);
      }
    }
    assert v == Accepted ==> Eligible(last, drift, current, last'.value) && Matches(code, given, last'.value);
  }

  // ---- Runs ------------------------------------------------------------------

  datatype Attempt = Attempt(current: int, given: string)

  /** The steps accepted over a run, in order. */
  function AcceptedSteps(code: CodeAt, drift: int, last: Option<int>, attempts: seq<Attempt>): seq<int>
    decreases |attempts|
  {
    if attempts == [] then []
    else
      var (v, last') := Verified(code, drift, last, attempts[0].current, attempts[0].given);
      (if v == Accepted && last'.Some? then [last'.value] else [])
      + AcceptedSteps(code, drift, last', attempts[1..])
  }

  ghost predicate Increasing(last: Option<int>, steps: seq<int>) {
    && (forall i :: 0 <= i < |steps| ==> Unspent(last, steps[i]))
    && (forall i, j :: 0 <= i < j < |steps| ==> steps[i] < steps[j])
  }

  lemma IncreasingPrepend(last: Option<int>, first: int, rest: seq<int>)
    requires Unspent(last, first) && Increasing(Some(first), rest)
    ensures Increasing(last, [first] + rest)
  {
    var steps := [first] + rest;
    assert forall i :: 1 <= i < |steps| ==> steps[i] == rest[i - 1];
    forall i | 0 <= i < |steps|
      ensures Unspent(last, steps[i])
    {
      assert i > 0 ==> Unspent(Some(first), rest[i - 1]);
    }
    forall i, j | 0 <= i < j < |steps|
      ensures steps[i] < steps[j]
    {
      assert Unspent(Some(first), rest[j - 1]);
    }
  }

  /** No step is ever accepted twice: accepted steps strictly increase, whatever
      the clock does. */
  lemma {:induction false} AcceptedStepsIncrease(code: CodeAt, drift: int, last: Option<int>, attempts: seq<Attempt>)
    ensures Increasing(last, AcceptedSteps(code, drift, last, attempts))
    decreases |attempts|
  {
    if attempts != [] {
      var a := attempts[0];
      var (v, last') := Verified(code, drift, last, a.current, a.given);
      SearchExact(code, last, a.current - drift, a.current + drift, a.given);
      AcceptedStepsIncrease(code, drift, last', attempts[1..]);
      var rest := AcceptedSteps(code, drift, last', attempts[1..]);
      if v == Accepted {
        IncreasingPrepend(last, last'.value, rest);
        assert AcceptedSteps(code, drift, last, attempts) == [last'.value] + rest;
      } else {
        assert AcceptedSteps(code, drift, last, attempts) == rest;
      }
    }
  }

  lemma {:induction false} AcceptedStepsInWindow(
    code: CodeAt, drift: int, last: Option<int>, attempts: seq<Attempt>, a: int, b: int)
    requires forall i :: 0 <= i < |attempts| ==> a <= attempts[i].current <= b
    ensures forall i :: 0 <= i < |AcceptedSteps(code, drift, last, attempts)| ==>
              a - drift <= AcceptedSteps(code, drift, last, attempts)[i] <= b + drift
    decreases |attempts|
  {
    if attempts != [] {
      var t := attempts[0];
      var (v, last') := Verified(code, drift, last, t.current, t.given);
      SearchExact(code, last, t.current - drift, t.current + drift, t.given);
      AcceptedStepsInWindow(code, drift, last', attempts[1..], a, b);
    }
  }

  lemma {:induction false} IncreasingFits(steps: seq<int>, lo: int, hi: int)
    requires forall i :: 0 <= i < |steps| ==> lo <= steps[i] <= hi
    requires forall i, j :: 0 <= i < j < |steps| ==> steps[i] < steps[j]
    ensures |steps| <= Max(0, hi - lo + 1)
  {
    if steps != [] {
      var n := |steps| - 1;
      IncreasingFits(steps[..n], lo, steps[n] - 1);
    }
  }

  /** A clock that stays within steps a..b yields at most b - a + 1 + 2 drift
      acceptances. */
  lemma {:induction false} AcceptancesBounded(
    code: CodeAt, drift: int, last: Option<int>, attempts: seq<Attempt>, a: int, b: int)
    requires forall i :: 0 <= i < |attempts| ==> a <= attempts[i].current <= b
    ensures |AcceptedSteps(code, drift, last, attempts)| <= Max(0, b - a + 1 + 2 * drift)
  {
    AcceptedStepsIncrease(code, drift, last, attempts);
    AcceptedStepsInWindow(code, drift, last, attempts, a, b);
    IncreasingFits(AcceptedSteps(code, drift, last, attempts), a - drift, b + drift);
  }
}
