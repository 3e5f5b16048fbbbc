/** What whole runs of calls come to at the edges of the system: when the store can
    be out of reach, and what the screening of submissions has counted. */
module Histories {
  import opened Core
  import opened AuditLogs
  import opened CircuitBreakers
  import opened AnomalyDetectors
  import opened Domain
  import opened Steps
  import opened Revocation
  import opened Invariants
  import opened Runs
  import opened Traces
  import opened Lifecycle
  import opened Outcomes

  // ---- When the store answers ----------------------------------------------------

  lemma CascadeKeepsBreaker(
    s: Sys, target: string, reason: RevocationReason, now: int, actor: Option<string>, clock: int)
    requires Stores(s) && Forested(s.tokens.at) && Settled(s.breaker)
    ensures RevokeToken(s, target, reason, now, actor, clock).0.breaker == s.breaker
  {
    GuardSettled(s, clock);
    RevokeTokenEffect(s, target, reason, now, actor, clock);
  }

  lemma SettledIssues(s: Sys, r: Issuance, n: Nonce, clock: int)
    requires Settled(s.breaker)
    ensures IssueToken(s, r, n, clock).0.breaker == s.breaker
  {
    GuardSettled(s, clock);
  }

  /** Once the store has answered, it goes on answering until an outage is set. */
  lemma StepKeepsSettled(s: Sys, step: Step)
    requires Stores(s) && Forested(s.tokens.at) && Settled(s.breaker)
    requires step != DoSimulateOutage(true)
    ensures Settled(Apply(s, step).breaker)
  {
    match step
    case DoRevoke(id, reason, now, actor, clock) => CascadeKeepsBreaker(s, id, reason, now, actor, clock);
    case DoApprove(id, approver, policyId, n, now, clock) =>
      if id in s.requests.at {
        var r := s.requests.at[id];
        SettledIssues(s, Issuance(r.subject, r.scope, r.ttlSeconds, None, policyId), n, clock);
      }
    case DoDelegate(parent, secret, subject, scope, ttl, n, now, clock) =>
      GuardSettled(s, clock);
      SettledIssues(s, Issuance(subject, scope, ttl, Some(parent), None), n, clock);
    case DoEnforce(id, secret, action, now, clock) => GuardSettled(s, clock);
    case DoCreatePolicy(name, scope, max, author, id, now, clock) => GuardSettled(s, clock);
    case DoModifyPolicy(id, changes, author, now, clock) => GuardSettled(s, clock);
    case _ =>
  }

  lemma {:induction false} SettledWithoutOutage(s: Sys, steps: seq<Step>, t: Sys)
    requires Settled(s.breaker) && Leads(s, steps, t)
    requires forall i :: 0 <= i < |steps| ==> steps[i] != DoSimulateOutage(true)
    ensures Settled(t.breaker)
    decreases |steps|
  {
    if steps != [] {
      var u :| Takes(s, steps[0], u) && Chain(Takes, u, steps[1..], t);
      StepKeepsSettled(s, steps[0]);
      SettledWithoutOutage(u, steps[1..], t);
    }
  }

  /** In a run from an empty start, or from any state in which the store has just
      answered, no call finds the store out of reach before an outage is set. */
  lemma NoRefusalWithoutOutage(s: Sys, steps: seq<Step>, t: Sys, clock: int)
    requires Start(s) || (exists u, earlier :: s == Guard(u, earlier).0 && Guard(u, earlier).1)
    requires Leads(s, steps, t)
    requires forall i :: 0 <= i < |steps| ==> steps[i] != DoSimulateOutage(true)
    ensures Guard(t, clock) == (t, true)
  {
    if !Start(s) {
      var u, earlier :| s == Guard(u, earlier).0 && Guard(u, earlier).1;
      GuardQuiet(u, earlier);
    }
    SettledWithoutOutage(s, steps, t);
    GuardSettled(t, clock);
  }

  // ---- What the screening has counted ----------------------------------------------

  /** The submissions on file, in the order in which they were filed. */
  function Submissions(requests: JsMap<Request>): (checks: seq<Check>)
    requires requests.Valid()
    ensures |checks| == |requests.order|
  {
    seq(|requests.order|, i requires 0 <= i < |requests.order| =>
      var r := requests.at[requests.order[i]]; Check(r.subject, r.scope, r.requestedAt))
  }

  /** The detector has seen the submissions on file from the k-th on, once each, and
      nothing else. */
  ghost predicate ScreenedFrom(s: Sys, k: nat) {
    && s.requests.Valid() && k <= |s.requests.order|
    && s.detector == After(Detector(s.detector.config, map[]), Submissions(s.requests)[k..])
  }

  /** The same requests in the same order, as they were submitted. */
  ghost predicate SameSubmissions(a: JsMap<Request>, b: JsMap<Request>) {
    && a.Valid() && b.Valid() && b.order == a.order
    && forall id :: id in a.at ==> id in b.at && Submitted(b.at[id]) == Submitted(a.at[id])
  }

  lemma SameSubmissionsSame(a: JsMap<Request>, b: JsMap<Request>)
    requires SameSubmissions(a, b)
    ensures Submissions(b) == Submissions(a)
  {
    forall i | 0 <= i < |a.order|
      ensures Submissions(b)[i] == Submissions(a)[i]
    {
      assert a.order[i] in a.at;
      SubmittedFixes(a.at[a.order[i]], b.at[a.order[i]]);
    }
  }

  lemma SavingSubmitsNothing(requests: JsMap<Request>, id: string, r: Request)
    requires requests.Valid() && id in requests.at && Submitted(r) == Submitted(requests.at[id])
    ensures SameSubmissions(requests, requests.Set(id, r))
  {
    SetKeepsValid(requests, id, r);
  }

  /** What a call on a request that is on file leaves the screening with. */
  ghost predicate SubmitsNothing(s: Sys, s': Sys) {
    SameSubmissions(s.requests, s'.requests) && s'.detector == s.detector
  }

  lemma EscalationSubmitsNothing(s: Sys, id: string, window: int, backup: Option<string>, now: int)
    requires Sound(s) && id in s.requests.at
    ensures SubmitsNothing(s, CheckRequestTimeout(s, id, window, backup, now))
  {
    RequestFiled(s, id);
    EscalationHandsOver(s, id, window, backup, now, now);
    SavingSubmitsNothing(s.requests, id, s.requests.at[id].(assignedApprover := backup));
  }

  lemma ApprovalSubmitsNothing(
    s: Sys, id: string, who: string, policyId: Option<string>, n: Nonce, now: int, clock: int)
    requires Sound(s) && id in s.requests.at
    ensures SubmitsNothing(s, ApproveRequest(s, id, who, policyId, n, now, clock).0)
  {
    var r := s.requests.at[id];
    RequestFiled(s, id);
    ApprovalInFull(s, id, who, policyId, n, now, clock);
    IssueTokenEffect(s, Issuance(r.subject, r.scope, r.ttlSeconds, None, policyId), n, clock);
    SavingSubmitsNothing(s.requests, id, r.(status := RequestStatus.Approved, tokenId := Some(n.id),
                                            tokenSecret := Some(n.secret)));
  }

  lemma DenialSubmitsNothing(s: Sys, id: string, who: string, reason: DenialReason, now: int)
    requires Sound(s) && id in s.requests.at
    ensures SubmitsNothing(s, DenyRequest(s, id, who, reason, now).0)
  {
    RequestFiled(s, id);
    DenialOutcome(s, id, who, reason, now);
    SavingSubmitsNothing(s.requests, id, s.requests.at[id].(status := RequestStatus.Denied));
  }

  lemma ClaimSubmitsNothing(s: Sys, id: string, subject: string, now: int)
    requires Sound(s) && id in s.requests.at
    ensures SubmitsNothing(s, ClaimTokenSecret(s, id, subject, now).0)
  {
    RequestFiled(s, id);
    ClaimOutcome(s, id, subject, now);
    SavingSubmitsNothing(s.requests, id, s.requests.at[id].(tokenSecret := None));
  }

  lemma RequestCallSubmitsNothing(s: Sys, step: Step)
    requires Sound(s) && OnRequests(step) && !step.DoRequestToken? && step.requestId in s.requests.at
    ensures SubmitsNothing(s, Apply(s, step))
  {
    match step
    case DoCheckTimeout(id, window, backup, now) => EscalationSubmitsNothing(s, id, window, backup, now);
    case DoApprove(id, who, policyId, n, now, clock) => ApprovalSubmitsNothing(s, id, who, policyId, n, now, clock);
    case DoDeny(id, who, reason, now) => DenialSubmitsNothing(s, id, who, reason, now);
    case DoClaim(id, subject, now) => ClaimSubmitsNothing(s, id, subject, now);
  }

  lemma DelegationSubmitsNothing(
    s: Sys, parent: string, secret: string, subject: string, scope: seq<string>, ttl: int, n: Nonce, now: int,
    clock: int)
    requires "" !in s.tokens.at
    ensures var s' := DelegateToken(s, parent, secret, subject, scope, ttl, n, now, clock).0;
            s'.requests == s.requests && s'.detector == s.detector
  {
    DelegationOutcome(s, parent, secret, subject, scope, ttl, n, now, clock);
    GuardQuiet(s, clock);
  }

  lemma OtherCallSubmitsNothing(s: Sys, step: Step)
    requires Sound(s) && Fresh(s, step) && !OnRequests(step) && !step.DoRestart?
    ensures Apply(s, step).requests == s.requests && Apply(s, step).detector == s.detector
  {
    match step
    case DoDelegate(parent, secret, subject, scope, ttl, n, now, clock) =>
      DelegationSubmitsNothing(s, parent, secret, subject, scope, ttl, n, now, clock);
    case DoEnforce(id, secret, action, now, clock) => GuardQuiet(s, clock);
    case DoRevoke(id, reason, now, actor, clock) =>
      RevokeTokenEffect(s, id, reason, now, actor, clock);
      GuardQuiet(s, clock);
    case DoCreatePolicy(name, scope, max, author, id, now, clock) => GuardQuiet(s, clock);
    case DoModifyPolicy(id, changes, author, now, clock) =>
      GuardQuiet(s, clock);
      GuardQuiet(Guard(s, clock).0, clock);
    case DoSimulateOutage(down) =>
  }

  /** A submission that is filed comes last, and the detector sees it once. */
  lemma FilingIsScreened(
    s: Sys, subject: string, scope: seq<string>, ttl: int, key: Option<string>, id: string, primary: Option<string>,
    now: int, k: nat)
    requires Sound(s) && id !in s.requests.at && ScreenedFrom(s, k)
    ensures ScreenedFrom(RequestToken(s, subject, scope, ttl, key, id, primary, now).0, k)
  {
    var (s', r) := RequestToken(s, subject, scope, ttl, key, id, primary, now);
    if OnFile(s.requests.at, subject, key) {
      SubmissionOutcome(s, subject, scope, ttl, key, id, primary, now);
    } else {
      FilingOutcome(s, subject, scope, ttl, key, id, primary, now);
      SeenOnce(s, s', id, r, k);
    }
  }

  lemma SeenOnce(s: Sys, s': Sys, id: string, r: Request, k: nat)
    requires ScreenedFrom(s, k) && id !in s.requests.at
    requires s'.requests == s.requests.Set(id, r)
    requires s'.detector == Checked(s.detector, r.subject, r.scope, r.requestedAt).0
    ensures ScreenedFrom(s', k)
  {
    SetKeepsValid(s.requests, id, r);
    OneMoreSubmission(s.requests, id, r);
    var seen, c := Submissions(s.requests)[k..], Check(r.subject, r.scope, r.requestedAt);
    assert Submissions(s'.requests)[k..] == seen + [c];
    assert (seen + [c])[..|seen|] == seen;
  }

  lemma OneMoreSubmission(requests: JsMap<Request>, id: string, r: Request)
    requires requests.Valid() && id !in requests.at && requests.Set(id, r).Valid()
    ensures Submissions(requests.Set(id, r)) == Submissions(requests) + [Check(r.subject, r.scope, r.requestedAt)]
  {
    assert forall i :: 0 <= i < |requests.order| ==> requests.order[i] in requests.at;
  }

  lemma StepIsScreened(s: Sys, step: Step, k: nat)
    requires Sound(s) && Fresh(s, step) && ScreenedFrom(s, k) && !step.DoRestart?
    ensures ScreenedFrom(Apply(s, step), k)
  {
    if step.DoRequestToken? {
      FilingIsScreened(s, step.subject, step.scope, step.ttlSeconds, step.idempotencyKey, step.id, step.primaryApprover,
                       step.now, k);
    } else if !OnRequests(step) {
      OtherCallSubmitsNothing(s, step);
    } else if step.requestId in s.requests.at {
      RequestCallSubmitsNothing(s, step);
      SameSubmissionsSame(s.requests, Apply(s, step).requests);
    }
  }

  /** Over any run without a restart the detector goes on from where it was; a start
      and a restart begin afresh. */
  lemma {:induction false} RunIsScreened(s: Sys, steps: seq<Step>, t: Sys, k: nat)
    requires Sound(s) && Leads(s, steps, t) && ScreenedFrom(s, k)
    requires forall i :: 0 <= i < |steps| ==> !steps[i].DoRestart?
    ensures ScreenedFrom(t, k)
    decreases |steps|
  {
    if steps != [] {
      var u :| Takes(s, steps[0], u) && Chain(Takes, u, steps[1..], t);
      StepSound(s, steps[0]);
      StepIsScreened(s, steps[0], k);
      RunIsScreened(u, steps[1..], t, k);
    }
  }

  lemma ScreeningBegins(s: Sys)
    ensures Start(s) ==> ScreenedFrom(s, 0)
    ensures Sound(s) ==> ScreenedFrom(Restart(s), |s.requests.order|)
  {
    if Sound(s) {
      RestartSound(s);
      assert Submissions(Restart(s).requests)[|s.requests.order|..] == [];
    }
  }

  /** The submissions of the subject, from the k-th on, less than `window` old. */
  ghost function Recent(requests: JsMap<Request>, k: nat, subject: string, now: int, window: int): set<int>
    requires requests.Valid() && k <= |requests.order|
  {
    var ids := requests.order[k..];
    set i | 0 <= i < |ids| && requests.at[ids[i]].subject == subject && now - requests.at[ids[i]].requestedAt < window
  }

  /** Times do not go back for the subject, up to now. */
  ghost predicate ClockKept(requests: JsMap<Request>, k: nat, subject: string, now: int)
    requires requests.Valid() && k <= |requests.order|
  {
    && (forall i, j :: k <= i < j < |requests.order| && requests.at[requests.order[i]].subject == subject
                       && requests.at[requests.order[j]].subject == subject
          ==> requests.at[requests.order[i]].requestedAt <= requests.at[requests.order[j]].requestedAt)
    && (forall i :: k <= i < |requests.order| && requests.at[requests.order[i]].subject == subject
          ==> requests.at[requests.order[i]].requestedAt <= now)
  }

  /** A submission is reported as one too many exactly when it and the subject's
      submissions on file within the window outnumber the limit, and as too broad
      exactly when its scope is; the report is one entry, saying which. */
  lemma ScreeningCounts(
    s: Sys, k: nat, subject: string, scope: seq<string>, ttl: int, key: Option<string>, id: string,
    primary: Option<string>, now: int)
    requires Sound(s) && ScreenedFrom(s, k) && ClockKept(s.requests, k, subject, now)
    requires !OnFile(s.requests.at, subject, key)
    ensures var s' := RequestToken(s, subject, scope, ttl, key, id, primary, now).0;
            var c := s.detector.config;
            var broad := |scope| > c.maxScopeBreadth;
            var fast := 1 + |Recent(s.requests, k, subject, now, c.velocityWindowMs)| > c.maxRequestsPerWindow;
            && |s'.log| == |s.log| + (if broad || fast then 2 else 1)
            && (broad || fast ==>
                  s'.log[|s.log| + 1] == Recorded(Event(AnomalyDetected, "anomaly_check", subject, None, Some(id), None,
                                                        Some(if broad && fast then "scope_too_broad,high_velocity"
                                                             else if fast then "high_velocity"
                                                             else "scope_too_broad"), None), now))
  {
    FilingOutcome(s, subject, scope, ttl, key, id, primary, now);
    SignalsAre(s.detector, subject, scope, now);
    SignalsCount(s, k, subject, scope, now);
  }

  lemma SignalsCount(s: Sys, k: nat, subject: string, scope: seq<string>, now: int)
    requires ScreenedFrom(s, k) && ClockKept(s.requests, k, subject, now)
    ensures var c, signals := s.detector.config, Checked(s.detector, subject, scope, now).1;
            && (Signal.ScopeTooBroad in signals <==> |scope| > c.maxScopeBreadth)
            && (HighVelocity in signals <==>
                  1 + |Recent(s.requests, k, subject, now, c.velocityWindowMs)| > c.maxRequestsPerWindow)
  {
    var checks, c := Submissions(s.requests)[k..], s.detector.config;
    ClockCarries(s.requests, k, subject, now);
    VelocitySignalIsExact(c, checks, subject, scope, now);
    RecentAre(s.requests, k, subject, now, c.velocityWindowMs);
  }

  lemma RecentAre(requests: JsMap<Request>, k: nat, subject: string, now: int, window: int)
    requires requests.Valid() && k <= |requests.order|
    ensures InWindow(Submissions(requests)[k..], subject, now, window) == Recent(requests, k, subject, now, window)
  {
    var ids, checks := requests.order[k..], Submissions(requests)[k..];
    assert forall i :: 0 <= i < |ids| ==>
             && ids[i] in requests.at && checks[i].subject == requests.at[ids[i]].subject
             && checks[i].now == requests.at[ids[i]].requestedAt;
  }

  lemma ClockCarries(requests: JsMap<Request>, k: nat, subject: string, now: int)
    requires requests.Valid() && k <= |requests.order| && ClockKept(requests, k, subject, now)
    ensures ClockRunsFor(Submissions(requests)[k..], subject)
    ensures forall i :: 0 <= i < |requests.order| - k && Submissions(requests)[k..][i].subject == subject
              ==> Submissions(requests)[k..][i].now <= now
  {
    var checks := Submissions(requests)[k..];
    assert forall i :: 0 <= i < |checks| ==>
             && requests.order[k + i] in requests.at
             && checks[i].subject == requests.at[requests.order[k + i]].subject
             && checks[i].now == requests.at[requests.order[k + i]].requestedAt;
  }
}
