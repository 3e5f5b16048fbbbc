/** Who may decide a request and when a decision goes through, as exact
    conditions; and what every stored policy looks like. */
module Lifecycle {
  import opened Core
  import opened AuditLogs
  import opened AnomalyDetectors
  import opened Domain
  import opened Steps
  import opened Revocation
  import opened Runs
  import opened Traces

  // ---- Issuance ----------------------------------------------------------------

  /** The policy named, if any, exists and covers the request. */
  ghost predicate Covered(s: Sys, r: Issuance) {
    Given(r.policyId) ==>
      && r.policyId.value in s.policies.at
      && Within(r.scope, s.policies.at[r.policyId.value].allowedScope)
      && r.ttlSeconds <= s.policies.at[r.policyId.value].maxTtlSeconds
  }

  /** The lifetime asked for, or the parent's end when that comes first. */
  ghost function EarlierEnd(s: Sys, r: Issuance, clock: int): int {
    var asked := clock + r.ttlSeconds * 1000;
    if Given(r.parentTokenId) && r.parentTokenId.value in s.tokens.at
    then Min(asked, s.tokens.at[r.parentTokenId.value].expiresAt)
    else asked
  }

  function Min(a: int, b: int): int {
    if a < b then a else b
  }

  /** Issuance succeeds exactly when the request is well formed, its policy covers
      it, and the store answers the first call made to it: no later call can fail. */
  lemma IssuanceOutcome(s: Sys, r: Issuance, n: Nonce, clock: int)
    ensures var (s', res) := IssueToken(s, r, n, clock);
            && (res.Ok? <==> r.scope != [] && r.ttlSeconds > 0 && Guard(s, clock).1 && Covered(s, r))
            && (res.Err? ==> s'.tokens == s.tokens)
            && (res.Ok? ==>
                  && res.value == Token(n.id, r.subject, r.scope, clock, EarlierEnd(s, r, clock), TokenStatus.Active,
                                        r.parentTokenId, None, None, HashPassword(n.secret, n.salt))
                  && s' == SaveToken(Guard(s, clock).0, res.value))
  {
    GuardQuiet(s, clock);
    var (s1, read) := Guard(s, clock);
    if read {
      GuardSettled(s1, clock);
    }
  }

  // ---- Submission --------------------------------------------------------------

  /** A request of this subject is on file under this key. */
  ghost predicate OnFile(requests: map<string, Request>, subject: string, key: Option<string>) {
    Given(key) && exists id :: id in requests && requests[id].subject == subject && requests[id].idempotencyKey == key
  }

  lemma {:induction false} FoundIffOnFile(s: Sys, subject: string, key: Option<string>)
    requires Sound(s) && Given(key)
    ensures var found := FirstWithKey(s.requests.Values(), subject, key.value);
            && (found.Some? <==> OnFile(s.requests.at, subject, key))
            && (found.Some? ==>
                  && found.value.id in s.requests.at && s.requests.at[found.value.id] == found.value
                  && found.value.subject == subject && found.value.idempotencyKey == key)
  {
    FirstWithKeyFinds(s.requests.Values(), subject, key.value);
    var found := FirstWithKey(s.requests.Values(), subject, key.value);
    if found.Some? {
      var i :| 0 <= i < |s.requests.order| && s.requests.Values()[i] == found.value;
      assert s.requests.order[i] in s.requests.at;
      RequestFiled(s, s.requests.order[i]);
    }
    forall id | id in s.requests.at
      ensures s.requests.at[id] in s.requests.Values()
    {
      ValuesCoverMap(s.requests, id);
    }
  }

  /** A submission is filed as pending, for its primary approver, exactly when its
      key is not on file yet; one entry records it, and one more, naming the same
      request, says so when it is anomalous. */
  lemma SubmissionOutcome(
    s: Sys, subject: string, scope: seq<string>, ttl: int, key: Option<string>, id: string, primary: Option<string>,
    now: int)
    requires Sound(s)
    ensures var (s', r) := RequestToken(s, subject, scope, ttl, key, id, primary, now);
            if OnFile(s.requests.at, subject, key) then
              && s' == s && r.id in s.requests.at && s.requests.at[r.id] == r
              && r.subject == subject && r.idempotencyKey == key
            else
              var anomalous := Checked(s.detector, subject, scope, now).1 != [];
              && r == Request(id, subject, scope, ttl, RequestStatus.Pending, now, None, None, key, primary)
              && s' == s.(requests := s.requests.Set(id, r), log := s'.log, detector := s'.detector)
              && s.log <= s'.log && |s'.log| == |s.log| + (if anomalous then 2 else 1)
              && s'.log[|s.log|].event.decision == RequestSubmitted && s'.log[|s.log|].event.requestId == Some(id)
              && (anomalous ==> s'.log[|s.log| + 1].event.decision == AnomalyDetected
                                && s'.log[|s.log| + 1].event.requestId == Some(id))
  {
    if Given(key) {
      FoundIffOnFile(s, subject, key);
    }
  }

  // ---- Decisions ---------------------------------------------------------------

  ghost predicate Decidable(s: Sys, id: string, approver: string) {
    && id in s.requests.at && s.requests.at[id].status == RequestStatus.Pending
    && Eligible(s.requests.at[id], approver)
  }

  /** An approval goes through exactly when the request is pending, the approver
      is the one assigned, and issuance under the chosen policy succeeds; then the
      token lives for the lifetime asked for and the log says who approved it. */
  lemma ApprovalOutcome(
    s: Sys, id: string, approver: string, policyId: Option<string>, n: Nonce, now: int, clock: int)
    requires Sound(s)
    ensures var (s', res) := ApproveRequest(s, id, approver, policyId, n, now, clock);
            && (res.Ok? <==>
                  && Decidable(s, id, approver) && Guard(s, clock).1
                  && var r := s.requests.at[id];
                     && r.scope != [] && r.ttlSeconds > 0
                     && Covered(s, Issuance(r.subject, r.scope, r.ttlSeconds, None, policyId)))
            && (res.Err? ==> s'.requests == s.requests && s'.tokens == s.tokens)
            && (res.Ok? ==>
                  var r, s1 := s.requests.at[id], Guard(s, clock).0;
                  && res.value.expiresAt == clock + r.ttlSeconds * 1000
                  && s'.tokens == s.tokens.Set(n.id, res.value)
                  && s'.requests == s.requests.Set(id, ApprovedAs(r, res.value, n.secret))
                  && s'.log == s1.log + [ApprovalEntry(r, res.value, policyId, approver, now)])
  {
    if Decidable(s, id, approver) {
      RequestFiled(s, id);
      GuardQuiet(s, clock);
      var r := s.requests.at[id];
      var issuance := Issuance(r.subject, r.scope, r.ttlSeconds, None, policyId);
      IssuanceOutcome(s, issuance, n, clock);
      assert IssueToken(s, issuance, n, clock).0.requests == s.requests;
    }
  }

  /** Only the assigned approver decides. Anyone else's attempt, to approve or to
      deny, changes nothing but the log, where one entry names them. */
  lemma OnlyTheAssignedDecide(
    s: Sys, id: string, approver: string, policyId: Option<string>, n: Nonce, reason: DenialReason, now: int,
    clock: int)
    requires Sound(s)
    ensures var (approved, a) := ApproveRequest(s, id, approver, policyId, n, now, clock);
            var (denied, d) := DenyRequest(s, id, approver, reason, now);
            && (d.Ok? <==> Decidable(s, id, approver))
            && (a.Ok? ==> Decidable(s, id, approver))
            && (id in s.requests.at && s.requests.at[id].status == RequestStatus.Pending
                && !Eligible(s.requests.at[id], approver) ==>
                  && a == Err(UnauthorizedDecider) && d == Err(UnauthorizedDecider)
                  && approved == s.(log := approved.log) && denied == s.(log := denied.log)
                  && |approved.log| == |s.log| + 1 == |denied.log|
                  && s.log < approved.log && s.log < denied.log
                  && approved.log[|s.log|].event.actor == Some(approver) == denied.log[|s.log|].event.actor
                  && approved.log[|s.log|].event.decision == RequestDecisionRejected
                     == denied.log[|s.log|].event.decision)
  {
    if id in s.requests.at {
      RequestFiled(s, id);
    }
  }

  /** The window's end hands a pending request to the backup, if one is configured,
      and to no one else; one entry says so, and checking again, however much later,
      changes nothing more. With no backup nothing ever happens. */
  lemma EscalationHandsOver(s: Sys, id: string, window: int, backup: Option<string>, now: int, later: int)
    requires id in s.requests.at ==> s.requests.at[id].id == id
    ensures var s' := CheckRequestTimeout(s, id, window, backup, now);
            var configured := backup.Some? && backup.value != "";
            var due := id in s.requests.at && s.requests.at[id].status == RequestStatus.Pending
                       && now - s.requests.at[id].requestedAt >= window;
            if configured && due && s.requests.at[id].assignedApprover != backup then
              var r := s.requests.at[id];
              && s' == s.(requests := s.requests.Set(id, r.(assignedApprover := backup)),
                          log := s.log + [Recorded(Event(RequestEscalated, "escalate_request", r.subject, None,
                                                         Some(id), None, Some("decision_window_expired"), None), now)])
              && (forall who :: Eligible(s'.requests.at[id], who) <==> who == backup.value)
              && CheckRequestTimeout(s', id, window, backup, later) == s'
            else s' == s
  {
  }

  // ---- Policies ----------------------------------------------------------------

  ghost predicate PoliciesOk(policies: JsMap<Policy>) {
    forall id :: id in policies.at ==> policies.at[id].id == id && Acceptable(policies.at[id])
  }

  lemma ApproveKeepsPolicies(
    s: Sys, id: string, approver: string, policyId: Option<string>, n: Nonce, now: int, clock: int)
    ensures ApproveRequest(s, id, approver, policyId, n, now, clock).0.policies == s.policies
  {
    if PendingRequest(s, id).Ok? {
      var r := s.requests.at[id];
      IssueKeepsPolicies(s, Issuance(r.subject, r.scope, r.ttlSeconds, None, policyId), n, clock);
    }
  }

  lemma IssueKeepsPolicies(s: Sys, r: Issuance, n: Nonce, clock: int)
    ensures IssueToken(s, r, n, clock).0.policies == s.policies
  {
  }

  lemma DelegateKeepsPolicies(
    s: Sys, parent: string, secret: string, subject: string, scope: seq<string>, ttl: int, n: Nonce, now: int,
    clock: int)
    ensures DelegateToken(s, parent, secret, subject, scope, ttl, n, now, clock).0.policies == s.policies
  {
    var (s1, read) := Guard(s, clock);
    assert s1.policies == s.policies;
    var (s2, issued) := IssueToken(s1, Issuance(subject, scope, ttl, Some(parent), None), n, clock);
    IssueKeepsPolicies(s1, Issuance(subject, scope, ttl, Some(parent), None), n, clock);
    assert s2.policies == s.policies;
  }

  lemma RevokeKeepsPolicies(s: Sys, id: string, reason: RevocationReason, now: int, actor: Option<string>, clock: int)
    requires Stores(s) && Forested(s.tokens.at)
    ensures RevokeToken(s, id, reason, now, actor, clock).0.policies == s.policies
  {
    RevokeTokenEffect(s, id, reason, now, actor, clock);
    GuardQuiet(s, clock);
  }

  lemma PoliciesUntouched(s: Sys, step: Step)
    requires Stores(s) && Forested(s.tokens.at) && !step.DoCreatePolicy? && !step.DoModifyPolicy?
    ensures Apply(s, step).policies == s.policies
  {
    match step
    case DoApprove(id, approver, policyId, n, now, clock) =>
      ApproveKeepsPolicies(s, id, approver, policyId, n, now, clock);
    case DoDelegate(parent, secret, subject, scope, ttl, n, now, clock) =>
      DelegateKeepsPolicies(s, parent, secret, subject, scope, ttl, n, now, clock);
    case DoRevoke(id, reason, now, actor, clock) => RevokeKeepsPolicies(s, id, reason, now, actor, clock);
    case _ =>
  }

  lemma PolicyFiled(policies: JsMap<Policy>, p: Policy)
    requires PoliciesOk(policies) && Acceptable(p)
    ensures PoliciesOk(policies.Set(p.id, p))
  {
  }

  lemma CreateKeepsPolicies(
    s: Sys, name: string, scope: seq<string>, max: int, author: string, id: string, now: int, clock: int)
    requires PoliciesOk(s.policies)
    ensures PoliciesOk(CreatePolicy(s, name, scope, max, author, id, now, clock).0.policies)
  {
    var p := Policy(id, name, scope, max, author, now, now);
    if Acceptable(p) {
      PolicyFiled(s.policies, p);
    }
  }

  lemma ModifyKeepsPolicies(s: Sys, id: string, changes: PolicyChanges, author: string, now: int, clock: int)
    requires PoliciesOk(s.policies)
    ensures PoliciesOk(ModifyPolicy(s, id, changes, author, now, clock).0.policies)
  {
    if id in s.policies.at && Acceptable(Changed(s.policies.at[id], changes, now)) {
      PolicyFiled(s.policies, Changed(s.policies.at[id], changes, now));
    }
  }

  lemma StepKeepsPolicies(s: Sys, step: Step)
    requires Stores(s) && Forested(s.tokens.at) && PoliciesOk(s.policies)
    ensures PoliciesOk(Apply(s, step).policies)
  {
    match step
    case DoCreatePolicy(name, scope, max, author, id, now, clock) =>
      CreateKeepsPolicies(s, name, scope, max, author, id, now, clock);
    case DoModifyPolicy(id, changes, author, now, clock) => ModifyKeepsPolicies(s, id, changes, author, now, clock);
    case _ => PoliciesUntouched(s, step);
  }

  lemma {:induction false} PoliciesStayOk(s: Sys, steps: seq<Step>, t: Sys)
    requires PoliciesOk(s.policies) && Leads(s, steps, t)
    ensures PoliciesOk(t.policies)
    decreases |steps|
  {
    if steps != [] {
      var u :| Takes(s, steps[0], u) && Chain(Takes, u, steps[1..], t);
      StepKeepsPolicies(s, steps[0]);
      PoliciesStayOk(u, steps[1..], t);
    }
  }

  /** However policies are created and modified, every one on file has a name, a
      scope and a positive lifetime. */
  lemma StoredPoliciesAreAcceptable(s: Sys)
    requires Reachable(s)
    ensures PoliciesOk(s.policies)
  {
    var start, steps :| Start(start) && Leads(start, steps, s);
    PoliciesStayOk(start, steps, s);
  }
}
