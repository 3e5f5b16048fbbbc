/** The system as a state machine: one step per domain call, and the invariant
    over every run. */
module Runs {
  import opened Core
  import opened AuditLogs
  import opened CircuitBreakers
  import opened AnomalyDetectors
  import opened Domain
  import opened Forest
  import opened Steps
  import opened Revocation
  import opened Invariants
  import opened Traces

  datatype Step =
    | DoRequestToken(subject: string, scope: seq<string>, ttlSeconds: int, idempotencyKey: Option<string>,
                     id: string, primaryApprover: Option<string>, now: int)
    | DoCheckTimeout(requestId: string, decisionWindowMs: int, backup: Option<string>, now: int)
    | DoApprove(requestId: string, approver: string, policyId: Option<string>, nonce: Nonce, now: int, clock: int)
    | DoDeny(requestId: string, approver: string, denial: DenialReason, now: int)
    | DoClaim(requestId: string, subject: string, now: int)
    | DoDelegate(parentId: string, secret: string, subject: string, scope: seq<string>, ttlSeconds: int,
                 nonce: Nonce, now: int, clock: int)
    | DoEnforce(tokenId: string, secret: string, action: string, now: int, clock: int)
    | DoRevoke(tokenId: string, reason: RevocationReason, now: int, actor: Option<string>, clock: int)
    | DoCreatePolicy(name: string, scope: seq<string>, maxTtlSeconds: int, author: string, id: string,
                     now: int, clock: int)
    | DoModifyPolicy(target: string, changes: PolicyChanges, author: string, now: int, clock: int)
    | DoSimulateOutage(down: bool)
    | DoRestart

  /** Random ids are new and not empty. */
  ghost predicate Fresh(s: Sys, step: Step) {
    match step
    case DoRequestToken(_, _, _, _, id, _, _) => id != "" && id !in s.requests.at
    case DoApprove(_, _, _, n, _, _) => n.id != "" && n.id !in s.tokens.at
    case DoDelegate(_, _, _, _, _, n, _, _) => n.id != "" && n.id !in s.tokens.at
    case DoCreatePolicy(_, _, _, _, id, _, _) => id != "" && id !in s.policies.at
    case _ => true
  }

  ghost function Apply(s: Sys, step: Step): Sys
    requires Stores(s) && Forested(s.tokens.at)
  {
    match step
    case DoRequestToken(subject, scope, ttl, key, id, primary, now) =>
      RequestToken(s, subject, scope, ttl, key, id, primary, now).0
    case DoCheckTimeout(id, window, backup, now) => CheckRequestTimeout(s, id, window, backup, now)
    case DoApprove(id, approver, policyId, n, now, clock) => ApproveRequest(s, id, approver, policyId, n, now, clock).0
    case DoDeny(id, approver, reason, now) => DenyRequest(s, id, approver, reason, now).0
    case DoClaim(id, subject, now) => ClaimTokenSecret(s, id, subject, now).0
    case DoDelegate(parent, secret, subject, scope, ttl, n, now, clock) =>
      DelegateToken(s, parent, secret, subject, scope, ttl, n, now, clock).0
    case DoEnforce(id, secret, action, now, clock) => EnforceToken(s, id, secret, action, now, clock).0
    case DoRevoke(id, reason, now, actor, clock) => RevokeToken(s, id, reason, now, actor, clock).0
    case DoCreatePolicy(name, scope, max, author, id, now, clock) =>
      CreatePolicy(s, name, scope, max, author, id, now, clock).0
    case DoModifyPolicy(id, changes, author, now, clock) => ModifyPolicy(s, id, changes, author, now, clock).0
    case DoSimulateOutage(down) => SimulateOutage(s, down)
    case DoRestart => Restart(s)
  }

  ghost predicate Sound(s: Sys) {
    Stores(s) && Inv(ViewOf(s)) && Resting(s.breaker)
  }

  /** The part of it that concerns requests and the log, whatever the forest. */
  ghost predicate InOrder(s: Sys) {
    Stores(s) && Accounted(ViewOf(s))
  }

  /** The part of that in which no decision plays a part. */
  ghost predicate WellFiled(s: Sys) {
    Stores(s) && Filed(ViewOf(s))
  }

  /** A later state that undoes nothing, well filed, and in order if the earlier was. */
  ghost predicate Keeps(s: Sys, s': Sys) {
    Stores(s') && Follows(ViewOf(s), ViewOf(s'))
  }

  /** The same, and the tokens and the breaker are untouched. */
  ghost predicate KeepsTokens(s: Sys, s': Sys) {
    Keeps(s, s') && s'.tokens.at == s.tokens.at && s'.breaker == s.breaker
  }

  /** A state that looks the same to the invariant. */
  ghost predicate Quiet(s: Sys, s': Sys) {
    Stores(s') && ViewOf(s') == ViewOf(s) && (Resting(s.breaker) ==> Resting(s'.breaker))
  }

  // ---- Logging and the breaker are invisible in the view -------------------------

  lemma NoteView(s: Sys, e: Event, at: int)
    ensures var r := Recorded(e, at);
            ViewOf(Note(s, e, at)) ==
            View(s.tokens.at, s.requests.at,
                 Select(s.log, Revocations) + (if KindOf(e) == Revocations then [r] else []),
                 Select(s.log, Approvals) + (if KindOf(e) == Approvals then [r] else []),
                 Select(s.log, Denials) + (if KindOf(e) == Denials then [r] else []),
                 Select(s.log, Claims) + (if KindOf(e) == Claims then [r] else []),
                 Select(s.log, Escalations) + if KindOf(e) == Escalations then [r] else [])
  {
    var log := s.log + [Recorded(e, at)];
    assert log[..|s.log|] == s.log;
  }

  lemma QuietNote(s: Sys, e: Event, at: int)
    requires KindOf(e) == Elsewhere
    ensures ViewOf(Note(s, e, at)) == ViewOf(s)
  {
    NoteView(s, e, at);
  }

  lemma TransitionQuiet(s: Sys, b: Breaker, change: StateChange, clock: int)
    requires change.to != HalfOpen
    ensures ViewOf(s.(breaker := b, log := s.log + TransitionRecords(Some(change), clock))) == ViewOf(s)
  {
    var s0 := s.(breaker := b);
    QuietNote(s0, TransitionEvent(change), clock);
    assert s0.log + TransitionRecords(Some(change), clock) == Note(s0, TransitionEvent(change), clock).log;
  }

  lemma GuardQuiet(s: Sys, clock: int)
    ensures var (s', ok) := Guard(s, clock);
            && ViewOf(s') == ViewOf(s)
            && s' == s.(breaker := s'.breaker, log := s'.log)
            && (Resting(s.breaker) ==> Resting(s'.breaker))
            && (ok ==> Settled(s'.breaker))
            && s.log <= s'.log
  {
    var (b, outcome, change) := Executed(s.breaker, false, clock);
    if change.Some? {
      TransitionQuiet(s, b, change.value, clock);
    } else {
      assert s.log + [] == s.log;
    }
  }

  // ---- Each step -----------------------------------------------------------------

  lemma SaveRequestStores(s: Sys, r: Request)
    requires Stores(s)
    ensures Stores(SaveRequest(s, r)) && ViewOf(SaveRequest(s, r)) == ViewOf(s).(requests := s.requests.at[r.id := r])
  {
    SetKeepsValid(s.requests, r.id, r);
  }

  lemma RequestFiled(s: Sys, id: string)
    requires WellFiled(s) && id in s.requests.at
    ensures s.requests.at[id].id == id && RequestOk(s.tokens.at, s.requests.at[id])
  {
  }

  /** A state that differs from s, as far as the invariant goes, only in v. */
  ghost predicate Shows(s: Sys, s': Sys, v: View) {
    Stores(s') && ViewOf(s') == v && s'.breaker == s.breaker && s'.policies == s.policies
  }

  /** Saving a request and noting one event about it. */
  lemma SavedQuietly(s: Sys, r: Request, e: Event, at: int)
    requires Stores(s) && KindOf(e) == Elsewhere
    ensures Shows(s, Note(SaveRequest(s, r), e, at), ViewOf(s).(requests := s.requests.at[r.id := r]))
  {
    SaveRequestStores(s, r);
    QuietNote(SaveRequest(s, r), e, at);
  }

  lemma SavedAsDenied(s: Sys, r: Request, e: Event, at: int)
    requires Stores(s) && KindOf(e) == Denials
    ensures var v := ViewOf(s);
            Shows(s, Note(SaveRequest(s, r), e, at),
                  v.(requests := s.requests.at[r.id := r], denied := v.denied + [Recorded(e, at)]))
  {
    SaveRequestStores(s, r);
    NoteView(SaveRequest(s, r), e, at);
  }

  lemma SavedAsClaimed(s: Sys, r: Request, e: Event, at: int)
    requires Stores(s) && KindOf(e) == Claims
    ensures var v := ViewOf(s);
            Shows(s, Note(SaveRequest(s, r), e, at),
                  v.(requests := s.requests.at[r.id := r], claimed := v.claimed + [Recorded(e, at)]))
  {
    SaveRequestStores(s, r);
    NoteView(SaveRequest(s, r), e, at);
  }

  lemma SavedAsEscalated(s: Sys, r: Request, e: Event, at: int)
    requires Stores(s) && KindOf(e) == Escalations
    ensures var v := ViewOf(s);
            Shows(s, Note(SaveRequest(s, r), e, at),
                  v.(requests := s.requests.at[r.id := r], escalated := v.escalated + [Recorded(e, at)]))
  {
    SaveRequestStores(s, r);
    NoteView(SaveRequest(s, r), e, at);
  }

  lemma SavedAsApproved(s: Sys, r: Request, e: Event, at: int)
    requires Stores(s) && KindOf(e) == Approvals
    ensures var v := ViewOf(s);
            Shows(s, Note(SaveRequest(s, r), e, at),
                  v.(requests := s.requests.at[r.id := r], approved := v.approved + [Recorded(e, at)]))
  {
    SaveRequestStores(s, r);
    NoteView(SaveRequest(s, r), e, at);
  }

  lemma ShownKeeps(s: Sys, s': Sys, v: View)
    requires Shows(s, s', v) && Follows(ViewOf(s), v)
    ensures Keeps(s, s') && s'.tokens.at == v.tokens && s'.breaker == s.breaker
  {
  }

  /** The first that matches, if any does. */
  lemma {:induction false} FirstWithKeyFinds(rs: seq<Request>, subject: string, key: string)
    ensures match FirstWithKey(rs, subject, key)
            case Some(r) =>
              && r in rs && r.subject == subject && r.idempotencyKey == Some(key)
              && exists i :: 0 <= i < |rs| && rs[i] == r
                   && forall j :: 0 <= j < i ==> !(rs[j].subject == subject && rs[j].idempotencyKey == Some(key))
            case None => forall r :: r in rs ==> !(r.subject == subject && r.idempotencyKey == Some(key))
  {
    if rs != [] {
      FirstWithKeyFinds(rs[1..], subject, key);
      var rest := FirstWithKey(rs[1..], subject, key);
      if rs[0].subject == subject && rs[0].idempotencyKey == Some(key) {
        assert rs[0] == FirstWithKey(rs, subject, key).value;
      } else if rest.Some? {
        var i :| 0 <= i < |rs[1..]| && rs[1..][i] == rest.value
                 && forall j :: 0 <= j < i ==>
                      !(rs[1..][j].subject == subject && rs[1..][j].idempotencyKey == Some(key));
        assert rs[i + 1] == rest.value;
        assert forall j :: 0 < j < i + 1 ==> rs[j] == rs[1..][j - 1];
      }
    }
  }

  lemma ValuesCoverMap(m: JsMap<Request>, id: string)
    requires m.Valid() && id in m.at
    ensures m.at[id] in m.Values()
  {
    var i :| 0 <= i < |m.order| && m.order[i] == id;
    assert m.Values()[i] == m.at[id];
  }

  lemma KeyUnused(s: Sys, pending: Request)
    requires Stores(s)
    requires Given(pending.idempotencyKey) ==>
               FirstWithKey(s.requests.Values(), pending.subject, pending.idempotencyKey.value) == None
    ensures forall a :: a in s.requests.at ==> !SameKey(s.requests.at[a], pending)
  {
    forall a | a in s.requests.at
      ensures !SameKey(s.requests.at[a], pending)
    {
      ValuesCoverMap(s.requests, a);
      if Given(pending.idempotencyKey) {
        FirstWithKeyFinds(s.requests.Values(), pending.subject, pending.idempotencyKey.value);
      }
    }
  }

  lemma {:induction false} RequestTokenView(
    s: Sys, subject: string, scope: seq<string>, ttl: int, key: Option<string>, id: string,
    primary: Option<string>, now: int)
    requires Stores(s)
    requires Given(key) ==> FirstWithKey(s.requests.Values(), subject, key.value) == None
    ensures var (s', pending) := RequestToken(s, subject, scope, ttl, key, id, primary, now);
            && pending == Request(id, subject, scope, ttl, RequestStatus.Pending, now, None, None, key, primary)
            && Shows(s, s', ViewOf(s).(requests := s.requests.at[id := pending]))
  {
    var pending := Request(id, subject, scope, ttl, RequestStatus.Pending, now, None, None, key, primary);
    var submitted := PlainEvent(RequestSubmitted, "request_token", subject).(requestId := Some(id));
    SavedQuietly(s, pending, submitted, now);
    var s1 := Note(SaveRequest(s, pending), submitted, now);
    DetectorView(s1, subject, scope, id, now);
  }

  lemma DetectorView(s1: Sys, subject: string, scope: seq<string>, id: string, now: int)
    ensures var (d, signals) := Checked(s1.detector, subject, scope, now);
            var s2 := s1.(detector := d);
            var anomaly := PlainEvent(AnomalyDetected, "anomaly_check", subject)
                             .(requestId := Some(id), reasonCode := Some(SignalsText(signals)));
            ViewOf(s2) == ViewOf(s1) == ViewOf(Note(s2, anomaly, now))
  {
    var (d, signals) := Checked(s1.detector, subject, scope, now);
    QuietNote(s1.(detector := d), PlainEvent(AnomalyDetected, "anomaly_check", subject)
                .(requestId := Some(id), reasonCode := Some(SignalsText(signals))), now);
  }

  lemma RequestTokenKeeps(
    s: Sys, subject: string, scope: seq<string>, ttl: int, key: Option<string>, id: string,
    primary: Option<string>, now: int)
    requires WellFiled(s) && id !in s.requests.at
    ensures var s' := RequestToken(s, subject, scope, ttl, key, id, primary, now).0;
            KeepsTokens(s, s')
  {
    if Given(key) ==> FirstWithKey(s.requests.Values(), subject, key.value) == None {
      RequestTokenView(s, subject, scope, ttl, key, id, primary, now);
      var (s', pending) := RequestToken(s, subject, scope, ttl, key, id, primary, now);
      KeyUnused(s, pending);
      NewRequest(ViewOf(s), pending);
      ShownKeeps(s, s', ViewOf(s).(requests := s.requests.at[id := pending]));
    }
  }

  lemma CheckTimeoutView(s: Sys, id: string, window: int, backup: Option<string>, now: int)
    requires Stores(s) && id in s.requests.at && s.requests.at[id].id == id
    ensures var (s', r) := (CheckRequestTimeout(s, id, window, backup, now), s.requests.at[id]);
            s' == s || (r.status == RequestStatus.Pending && Given(backup)
                        && Shows(s, s', ViewOf(s).(requests := s.requests.at[id := r.(assignedApprover := backup)],
                                                   escalated := ViewOf(s).escalated
                                                                + [Recorded(EscalationEvent(r), now)])))
  {
    var r := s.requests.at[id];
    SavedAsEscalated(s, r.(assignedApprover := backup), EscalationEvent(r), now);
  }

  lemma CheckTimeoutKeeps(s: Sys, id: string, window: int, backup: Option<string>, now: int)
    requires WellFiled(s)
    ensures var s' := CheckRequestTimeout(s, id, window, backup, now);
            KeepsTokens(s, s')
  {
    var s' := CheckRequestTimeout(s, id, window, backup, now);
    if s' != s {
      RequestFiled(s, id);
      CheckTimeoutView(s, id, window, backup, now);
      var e := Recorded(EscalationEvent(s.requests.at[id]), now);
      ChangedApprover(ViewOf(s), id, backup, e);
      ShownKeeps(s, s', ViewOf(s).(requests := s.requests.at[id := s.requests.at[id].(assignedApprover := backup)],
                                   escalated := ViewOf(s).escalated + [e]));
    }
  }

  /** Everything issuance promises about the token it saves. */
  ghost predicate GoodToken(s: Sys, r: Issuance, n: Nonce, clock: int, t: Token) {
    && r.scope != [] && r.ttlSeconds > 0
    && t.id == n.id && t.subject == r.subject && t.scope == r.scope && t.parentTokenId == r.parentTokenId
    && IsActive(t) && t.issuedAt == clock && VerifyPassword(n.secret, t.secretHash)
    && t.expiresAt == ExpiryOf(s, r, clock) <= clock + r.ttlSeconds * 1000
    && (Given(r.parentTokenId) && r.parentTokenId.value in s.tokens.at ==>
          t.expiresAt <= s.tokens.at[r.parentTokenId.value].expiresAt)
    && (Given(r.policyId) ==>
          && r.policyId.value in s.policies.at
          && Within(r.scope, s.policies.at[r.policyId.value].allowedScope)
          && r.ttlSeconds <= s.policies.at[r.policyId.value].maxTtlSeconds)
  }

  lemma MintedGood(s: Sys, s2: Sys, r: Issuance, n: Nonce, clock: int)
    requires r.scope != [] && r.ttlSeconds > 0
    requires s2.tokens == s.tokens && s2.policies == s.policies
    requires Given(r.policyId) ==> PolicyObjection(s.policies.Get(r.policyId.value), r) == None
    ensures GoodToken(s, r, n, clock, Minted(r, clock, ExpiryOf(s2, r, clock), n))
  {
  }

  lemma SaveTokenView(s: Sys, t: Token)
    requires Stores(s)
    ensures Stores(SaveToken(s, t))
    ensures ViewOf(SaveToken(s, t)) == ViewOf(s).(tokens := s.tokens.at[t.id := t])
  {
    SetKeepsValid(s.tokens, t.id, t);
  }

  lemma IssueTokenEffect(s: Sys, r: Issuance, n: Nonce, clock: int)
    requires Stores(s) && Resting(s.breaker)
    ensures var (s', res) := IssueToken(s, r, n, clock);
            && Stores(s') && Resting(s'.breaker)
            && s' == s.(tokens := s'.tokens, breaker := s'.breaker, log := s'.log)
            && (res.Err? ==> ViewOf(s') == ViewOf(s))
            && (res.Ok? ==>
                  && GoodToken(s, r, n, clock, res.value)
                  && s'.tokens == s.tokens.Set(res.value.id, res.value)
                  && ViewOf(s') == ViewOf(s).(tokens := s.tokens.at[res.value.id := res.value]))
  {
    if r.scope != [] && r.ttlSeconds > 0 {
      GuardQuiet(s, clock);
      var (s1, policyRead) := if Given(r.policyId) then Guard(s, clock) else (s, true);
      if policyRead && (Given(r.policyId) ==> PolicyObjection(s1.policies.Get(r.policyId.value), r) == None) {
        GuardQuiet(s1, clock);
        var (s2, parentRead) := if Given(r.parentTokenId) then Guard(s1, clock) else (s1, true);
        if parentRead {
          GuardQuiet(s2, clock);
          MintedGood(s, s2, r, n, clock);
          SaveTokenView(Guard(s2, clock).0, Minted(r, clock, ExpiryOf(s2, r, clock), n));
        }
      }
    }
  }

  lemma Rejected(s: Sys, r: Request, approver: string, action: string, now: int)
    requires Stores(s)
    ensures Shows(s, RejectDecision(s, r, approver, action, now), ViewOf(s))
  {
    QuietNote(s, Event(RequestDecisionRejected, action, r.subject, None, Some(r.id), None,
                       Some(NOT_ASSIGNED), Some(approver)), now);
  }

  function ApprovalEntry(r: Request, t: Token, policyId: Option<string>, approver: string, now: int): Recorded {
    Recorded(ApprovalEvent(r.id, r, t, policyId, approver), now)
  }

  /** What approving r may do to the view: nothing, or all three things at once:
      the root token, the request's new status, and the approval entry. */
  ghost predicate Granted(
    s: Sys, s': Sys, res: Result<Token, DomainError>, id: string, r: Request, approver: string,
    policyId: Option<string>, n: Nonce, now: int, clock: int)
  {
    && Stores(s') && Resting(s'.breaker) && s'.policies == s.policies
    && (res.Err? ==> ViewOf(s') == ViewOf(s))
    && (res.Ok? ==>
          && GoodToken(s, Issuance(r.subject, r.scope, r.ttlSeconds, None, policyId), n, clock, res.value)
          && ViewOf(s') == WithRoot(ViewOf(s), id, ApprovedAs(r, res.value, n.secret), res.value,
                                    ApprovalEntry(r, res.value, policyId, approver, now)))
  }

  lemma EligibleOutcome(
    s: Sys, id: string, r: Request, approver: string, policyId: Option<string>, n: Nonce, now: int, clock: int)
    requires r.id == id
    ensures var (s1, issued) := IssueToken(s, Issuance(r.subject, r.scope, r.ttlSeconds, None, policyId), n, clock);
            ApproveEligible(s, id, r, approver, policyId, n, now, clock)
            == match issued
               case Err(e) => (Note(s1, FailedApproval(id, r, approver, e), now), Err(e))
               case Ok(t) =>
                 (Note(SaveRequest(s1, ApprovedAs(r, t, n.secret)),
                       ApprovalEntry(r, t, policyId, approver, now).event, now),
                  Ok(t))
  {
  }

  lemma FailureGrantsNothing(
    s: Sys, s1: Sys, e: DomainError, id: string, r: Request, approver: string, policyId: Option<string>, n: Nonce,
    now: int, clock: int)
    requires Stores(s1) && Resting(s1.breaker) && s1.policies == s.policies && ViewOf(s1) == ViewOf(s)
    ensures Granted(s, Note(s1, FailedApproval(id, r, approver, e), now), Err(e), id, r, approver, policyId, n,
                    now, clock)
  {
    QuietNote(s1, FailedApproval(id, r, approver, e), now);
  }

  lemma IssueGrants(
    s: Sys, s1: Sys, t: Token, id: string, r: Request, approver: string, policyId: Option<string>, n: Nonce,
    now: int, clock: int)
    requires Stores(s1) && Resting(s1.breaker) && s1.policies == s.policies && r.id == id
    requires GoodToken(s, Issuance(r.subject, r.scope, r.ttlSeconds, None, policyId), n, clock, t)
    requires ViewOf(s1) == ViewOf(s).(tokens := s.tokens.at[t.id := t])
    ensures var s' := Note(SaveRequest(s1, ApprovedAs(r, t, n.secret)),
                           ApprovalEntry(r, t, policyId, approver, now).event, now);
            Granted(s, s', Ok(t), id, r, approver, policyId, n, now, clock)
  {
    RootView(s, s1, ApprovedAs(r, t, n.secret), t, ApprovalEntry(r, t, policyId, approver, now));
  }

  lemma EligibleView(
    s: Sys, id: string, r: Request, approver: string, policyId: Option<string>, n: Nonce, now: int, clock: int)
    requires Stores(s) && Resting(s.breaker) && r.id == id
    ensures var (s', res) := ApproveEligible(s, id, r, approver, policyId, n, now, clock);
            Granted(s, s', res, id, r, approver, policyId, n, now, clock)
  {
    var issuance := Issuance(r.subject, r.scope, r.ttlSeconds, None, policyId);
    IssueTokenEffect(s, issuance, n, clock);
    EligibleOutcome(s, id, r, approver, policyId, n, now, clock);
    var (s1, issued) := IssueToken(s, issuance, n, clock);
    match issued
    case Err(e) => FailureGrantsNothing(s, s1, e, id, r, approver, policyId, n, now, clock);
    case Ok(t) => IssueGrants(s, s1, t, id, r, approver, policyId, n, now, clock);
  }

  /** An approval of a request not pending, or by another approver, changes
      nothing decisive; any other is as Granted says. */
  lemma ApproveView(
    s: Sys, id: string, approver: string, policyId: Option<string>, n: Nonce, now: int, clock: int)
    requires Stores(s) && Resting(s.breaker) && (id in s.requests.at ==> s.requests.at[id].id == id)
    ensures var (s', res) := ApproveRequest(s, id, approver, policyId, n, now, clock);
            && Stores(s') && Resting(s'.breaker) && s'.policies == s.policies
            && (res.Err? ==> ViewOf(s') == ViewOf(s))
            && (res.Ok? ==>
                  && id in s.requests.at && s.requests.at[id].status == RequestStatus.Pending
                  && Eligible(s.requests.at[id], approver)
                  && Granted(s, s', res, id, s.requests.at[id], approver, policyId, n, now, clock))
  {
    if PendingRequest(s, id).Ok? {
      var r := s.requests.at[id];
      if Eligible(r, approver) {
        EligibleView(s, id, r, approver, policyId, n, now, clock);
      } else {
        Rejected(s, r, approver, APPROVE, now);
      }
    }
  }

  /** The root saved, then its request and the entry: the view of all three. */
  lemma RootView(s: Sys, s1: Sys, r: Request, t: Token, e: Recorded)
    requires Stores(s1) && KindOf(e.event) == Approvals
    requires ViewOf(s1) == ViewOf(s).(tokens := s.tokens.at[t.id := t])
    ensures var s2 := Note(SaveRequest(s1, r), e.event, e.at);
            && Stores(s2) && s2.breaker == s1.breaker && s2.policies == s1.policies
            && ViewOf(s2) == WithRoot(ViewOf(s), r.id, r, t, e)
  {
    SavedAsApproved(s1, r, e.event, e.at);
  }

  lemma ApproveSound(
    s: Sys, id: string, approver: string, policyId: Option<string>, n: Nonce, now: int, clock: int)
    requires Sound(s) && n.id != "" && n.id !in s.tokens.at
    ensures var s' := ApproveRequest(s, id, approver, policyId, n, now, clock).0;
            Sound(s') && Evolves(ViewOf(s), ViewOf(s'))
  {
    if id in s.requests.at {
      RequestFiled(s, id);
    }
    ApproveView(s, id, approver, policyId, n, now, clock);
    var (s', res) := ApproveRequest(s, id, approver, policyId, n, now, clock);
    if res.Ok? {
      ApprovalSound(s, s', id, res.value, n, policyId, approver, now, clock);
    } else {
      SameViewSound(s, s');
    }
  }

  lemma SameViewSound(s: Sys, s': Sys)
    requires Sound(s) && Stores(s') && Resting(s'.breaker) && ViewOf(s') == ViewOf(s)
    ensures Sound(s') && Evolves(ViewOf(s), ViewOf(s'))
  {
  }

  lemma ApprovalSound(
    s: Sys, s': Sys, id: string, t: Token, n: Nonce, policyId: Option<string>, approver: string, now: int, clock: int)
    requires Sound(s) && Stores(s') && Resting(s'.breaker) && n.id != "" && n.id !in s.tokens.at
    requires id in s.requests.at && s.requests.at[id].status == RequestStatus.Pending
    requires var r := s.requests.at[id];
             && r.id == id && Eligible(r, approver)
             && GoodToken(s, Issuance(r.subject, r.scope, r.ttlSeconds, None, policyId), n, clock, t)
             && ViewOf(s') == WithRoot(ViewOf(s), id, ApprovedAs(r, t, n.secret), t,
                                       ApprovalEntry(r, t, policyId, approver, now))
    ensures Sound(s') && Evolves(ViewOf(s), ViewOf(s'))
  {
    var r := s.requests.at[id];
    AdmittedToken(s.tokens.at, t);
    ApprovedRequest(ViewOf(s), id, ApprovedAs(r, t, n.secret), t, ApprovalEntry(r, t, policyId, approver, now));
  }

  function DenialEntry(id: string, r: Request, approver: string, reason: DenialReason, now: int): Recorded {
    Recorded(DenialEvent(id, r, approver, reason), now)
  }

  lemma DenyView(s: Sys, id: string, approver: string, reason: DenialReason, now: int)
    requires Stores(s) && (id in s.requests.at ==> s.requests.at[id].id == id)
    ensures var (s', res) := DenyRequest(s, id, approver, reason, now);
            && (res.Err? ==> Shows(s, s', ViewOf(s)))
            && (res.Ok? ==>
                  && id in s.requests.at
                  && var r := s.requests.at[id];
                     && r.status == RequestStatus.Pending && Eligible(r, approver)
                     && Shows(s, s', ViewOf(s).(requests := s.requests.at[id := r.(status := RequestStatus.Denied)],
                                                denied := ViewOf(s).denied
                                                          + [DenialEntry(id, r, approver, reason, now)])))
  {
    if PendingRequest(s, id).Ok? {
      var r := s.requests.at[id];
      if !Eligible(r, approver) {
        Rejected(s, r, approver, DENY, now);
      } else {
        SavedAsDenied(s, r.(status := RequestStatus.Denied), DenialEntry(id, r, approver, reason, now).event, now);
      }
    }
  }

  lemma DenyKeeps(s: Sys, id: string, approver: string, reason: DenialReason, now: int)
    requires WellFiled(s)
    ensures var s' := DenyRequest(s, id, approver, reason, now).0;
            KeepsTokens(s, s')
  {
    if id in s.requests.at {
      RequestFiled(s, id);
    }
    DenyView(s, id, approver, reason, now);
    var (s', res) := DenyRequest(s, id, approver, reason, now);
    if res.Err? {
      EvolvesReflexive(ViewOf(s));
    } else {
      var r := s.requests.at[id];
      var e := DenialEntry(id, r, approver, reason, now);
      DeniedRequest(ViewOf(s), id, e);
      ShownKeeps(s, s', ViewOf(s).(requests := s.requests.at[id := r.(status := RequestStatus.Denied)],
                                   denied := ViewOf(s).denied + [e]));
    }
  }

  function ClaimEntry(id: string, r: Request, now: int): Recorded {
    Recorded(ClaimEvent(id, r), now)
  }

  lemma ClaimView(s: Sys, id: string, subject: string, now: int)
    requires Stores(s) && (id in s.requests.at ==> s.requests.at[id].id == id)
    ensures var (s', res) := ClaimTokenSecret(s, id, subject, now);
            && (res.Err? ==> Shows(s, s', ViewOf(s)))
            && (res.Ok? ==>
                  && id in s.requests.at
                  && var r := s.requests.at[id];
                     && r.status == RequestStatus.Approved && r.subject == subject
                     && r.tokenId == Some(res.value.0) && r.tokenSecret == Some(res.value.1)
                     && Shows(s, s', ViewOf(s).(requests := s.requests.at[id := r.(tokenSecret := None)],
                                                claimed := ViewOf(s).claimed + [ClaimEntry(id, r, now)])))
  {
    if id in s.requests.at {
      var r := s.requests.at[id];
      if r.subject != subject {
        QuietNote(s, PlainEvent(Decision.Denied, "claim_token_secret", subject)
                    .(requestId := Some(id), reasonCode := Some(WRONG_SUBJECT)), now);
      } else {
        SavedAsClaimed(s, r.(tokenSecret := None), ClaimEntry(id, r, now).event, now);
      }
    }
  }

  lemma ClaimKeeps(s: Sys, id: string, subject: string, now: int)
    requires WellFiled(s)
    ensures var s' := ClaimTokenSecret(s, id, subject, now).0;
            KeepsTokens(s, s')
  {
    if id in s.requests.at {
      RequestFiled(s, id);
    }
    ClaimView(s, id, subject, now);
    var (s', res) := ClaimTokenSecret(s, id, subject, now);
    if res.Err? {
      EvolvesReflexive(ViewOf(s));
    } else {
      var r := s.requests.at[id];
      ClaimedSecret(ViewOf(s), id, ClaimEntry(id, r, now));
      ShownKeeps(s, s', ViewOf(s).(requests := s.requests.at[id := r.(tokenSecret := None)],
                                   claimed := ViewOf(s).claimed + [ClaimEntry(id, r, now)]));
    }
  }

  /** What a delegation may do to the view: nothing, or add one admissible child. */
  ghost predicate AddsChild(
    s: Sys, s': Sys, d: Delegation, parent: string, subject: string, scope: seq<string>, ttl: int, n: Nonce, clock: int)
  {
    && Stores(s') && Resting(s'.breaker)
    && (d.Delegated? ==>
          && Admissible(s.tokens.at, d.token) && d.token.parentTokenId == Some(parent)
          && GoodToken(s, Issuance(subject, scope, ttl, Some(parent), None), n, clock, d.token)
          && d.secret == n.secret
          && ViewOf(s') == ViewOf(s).(tokens := s.tokens.at[d.token.id := d.token]))
    && (!d.Delegated? ==> ViewOf(s') == ViewOf(s))
  }

  lemma AdmittedView(
    s: Sys, parent: string, secret: string, subject: string, scope: seq<string>, ttl: int,
    n: Nonce, now: int, clock: int)
    requires Stores(s) && Resting(s.breaker) && parent != "" && n.id != "" && n.id !in s.tokens.at
    requires parent in s.tokens.at && DelegationObjection(s.tokens.at[parent], secret, scope, now) == None
    ensures var (s', d) := DelegateAdmitted(s, parent, subject, scope, ttl, n, now, clock);
            AddsChild(s, s', d, parent, subject, scope, ttl, n, clock)
  {
    var issuance := Issuance(subject, scope, ttl, Some(parent), None);
    IssueTokenEffect(s, issuance, n, clock);
    var (s1, issued) := IssueToken(s, issuance, n, clock);
    RefusalsQuiet(s1, parent, subject, now);
    if issued.Ok? {
      ChildAdmissible(s, parent, secret, n, now, clock, issuance, issued.value);
      QuietNote(s1, PlainEvent(Decision.Allowed, "delegate", subject).(tokenId := Some(issued.value.id)), now);
    }
  }

  lemma DelegateView(
    s: Sys, parent: string, secret: string, subject: string, scope: seq<string>, ttl: int,
    n: Nonce, now: int, clock: int)
    requires Stores(s) && Resting(s.breaker) && "" !in s.tokens.at && n.id != "" && n.id !in s.tokens.at
    ensures var (s', d) := DelegateToken(s, parent, secret, subject, scope, ttl, n, now, clock);
            && AddsChild(s, s', d, parent, subject, scope, ttl, n, clock)
            && (d.Delegated? ==> DelegationObjection(s.tokens.at[parent], secret, scope, now) == None)
  {
    GuardQuiet(s, clock);
    var (s1, read) := Guard(s, clock);
    RefusalsQuiet(s1, parent, subject, now);
    if read && parent in s1.tokens.at && DelegationObjection(s1.tokens.at[parent], secret, scope, now) == None {
      AdmittedView(s1, parent, secret, subject, scope, ttl, n, now, clock);
    }
  }

  lemma ChildAdmissible(
    s: Sys, parent: string, secret: string, n: Nonce, now: int, clock: int, r: Issuance, t: Token)
    requires parent in s.tokens.at && parent != "" && r.parentTokenId == Some(parent)
    requires DelegationObjection(s.tokens.at[parent], secret, r.scope, now) == None
    requires GoodToken(s, r, n, clock, t) && n.id != "" && n.id !in s.tokens.at
    ensures Admissible(s.tokens.at, t)
  {
    NarrowerScope(r.scope, s.tokens.at[parent].scope);
  }

  lemma RefusalsQuiet(s: Sys, parent: string, subject: string, now: int)
    ensures forall reason :: ViewOf(RefuseDelegation(s, parent, subject, reason, now).0) == ViewOf(s)
  {
    forall reason
      ensures ViewOf(RefuseDelegation(s, parent, subject, reason, now).0) == ViewOf(s)
    {
      QuietNote(s, Event(Decision.Denied, "delegate", subject, Some(parent), None, None,
                         Some(DelegationText(reason)), None), now);
    }
  }

  lemma DelegateSound(
    s: Sys, parent: string, secret: string, subject: string, scope: seq<string>, ttl: int,
    n: Nonce, now: int, clock: int)
    requires Sound(s) && n.id != "" && n.id !in s.tokens.at
    ensures var s' := DelegateToken(s, parent, secret, subject, scope, ttl, n, now, clock).0;
            Sound(s') && Evolves(ViewOf(s), ViewOf(s'))
  {
    DelegateView(s, parent, secret, subject, scope, ttl, n, now, clock);
    var (s', d) := DelegateToken(s, parent, secret, subject, scope, ttl, n, now, clock);
    if d.Delegated? {
      AdmittedToken(s.tokens.at, d.token);
      NewChild(ViewOf(s), d.token);
    } else {
      SameViewSound(s, s');
    }
  }

  lemma NarrowerScope(child: seq<string>, parent: seq<string>)
    requires Within(child, parent) && !Within(parent, child)
    ensures ScopeSet(child) < ScopeSet(parent)
  {
    var a :| a in parent && a !in child;
    assert a in ScopeSet(parent) && a !in ScopeSet(child);
  }

  lemma EnforceQuiet(s: Sys, id: string, secret: string, action: string, now: int, clock: int)
    requires Stores(s)
    ensures Quiet(s, EnforceToken(s, id, secret, action, now, clock).0)
  {
    GuardQuiet(s, clock);
    var s1 := Guard(s, clock).0;
    forall subject, d
      ensures ViewOf(Note(s1, EnforcementEvent(id, subject, action, d), now)) == ViewOf(s)
    {
      QuietNote(s1, EnforcementEvent(id, subject, action, d), now);
    }
  }

  lemma PolicyQuiet(s: Sys, p: Policy, e: Event, now: int)
    requires Stores(s) && KindOf(e) == Elsewhere
    ensures Quiet(s, Note(SavePolicy(s, p), e, now))
  {
    SetKeepsValid(s.policies, p.id, p);
    QuietNote(SavePolicy(s, p), e, now);
  }

  lemma CreatePolicyQuiet(
    s: Sys, name: string, scope: seq<string>, max: int, author: string, id: string, now: int, clock: int)
    requires Stores(s)
    ensures Quiet(s, CreatePolicy(s, name, scope, max, author, id, now, clock).0)
  {
    GuardQuiet(s, clock);
    PolicyQuiet(Guard(s, clock).0, Policy(id, name, scope, max, author, now, now),
                PlainEvent(PolicyCreated, "create_policy", author).(policyId := Some(id)), now);
  }

  lemma ModifyPolicyQuiet(s: Sys, id: string, changes: PolicyChanges, author: string, now: int, clock: int)
    requires Stores(s)
    ensures Quiet(s, ModifyPolicy(s, id, changes, author, now, clock).0)
  {
    GuardQuiet(s, clock);
    var (s1, read) := Guard(s, clock);
    if read && id in s1.policies.at && Acceptable(Changed(s1.policies.at[id], changes, now)) {
      GuardQuiet(s1, clock);
      var s2 := Guard(s1, clock).0;
      var p := Changed(s1.policies.at[id], changes, now);
      var e := PlainEvent(PolicyModified, "modify_policy", author).(policyId := Some(id));
      PolicyQuiet(s2, p, e, now);
      QuietTwice(s1, s2, Note(SavePolicy(s2, p), e, now));
      QuietTwice(s, s1, Note(SavePolicy(s2, p), e, now));
    }
  }

  lemma QuietTwice(s: Sys, s1: Sys, s2: Sys)
    requires Quiet(s, s1) && Quiet(s1, s2)
    ensures Quiet(s, s2)
  {
  }

  lemma QuietSound(s: Sys, s': Sys)
    requires Sound(s) && Quiet(s, s')
    ensures Sound(s') && Evolves(ViewOf(s), ViewOf(s'))
  {
  }

  /** Whatever the forest looks like, revocation changes of a token only its status,
      reason and time, and logs exactly the tokens it revokes. */
  lemma RevokeKeeps(s: Sys, id: string, reason: RevocationReason, now: int, actor: Option<string>, clock: int)
    requires WellFiled(s) && Contained(s.tokens.at)
    ensures var s' := RevokeToken(s, id, reason, now, actor, clock).0;
            Keeps(s, s') && Contained(s'.tokens.at) && TokensEvolve(s.tokens.at, s'.tokens.at)
  {
    RevokeTokenEffect(s, id, reason, now, actor, clock);
    GuardQuiet(s, clock);
    var (s', r) := RevokeToken(s, id, reason, now, actor, clock);
    if r.Ok? {
      RevocationView(Guard(s, clock).0, s', id, reason, now, actor);
    }
  }

  lemma RevocationView(s: Sys, s': Sys, id: string, reason: RevocationReason, now: int, actor: Option<string>)
    requires WellFiled(s) && Contained(s.tokens.at) && RevocationEffect(s, s', id, reason, now, actor)
    ensures Keeps(s, s') && Contained(s'.tokens.at) && TokensEvolve(s.tokens.at, s'.tokens.at)
  {
    RevocationEntries(s, s', id, reason, now, actor);
    RevocationKeepsTokens(s.tokens.at, s'.tokens.at);
    RevokedTokens(ViewOf(s), s'.tokens.at, s'.log[|s.log|..]);
  }

  lemma RevokeSound(s: Sys, id: string, reason: RevocationReason, now: int, actor: Option<string>, clock: int)
    requires Sound(s)
    ensures var s' := RevokeToken(s, id, reason, now, actor, clock).0;
            Sound(s') && Evolves(ViewOf(s), ViewOf(s'))
  {
    RevokeKeeps(s, id, reason, now, actor, clock);
    RevokeCloses(s, id, reason, now, actor, clock);
  }

  lemma RevokeCloses(s: Sys, id: string, reason: RevocationReason, now: int, actor: Option<string>, clock: int)
    requires Stores(s) && Contained(s.tokens.at) && Revocation.Closed(s.tokens.at)
    requires Contained(RevokeToken(s, id, reason, now, actor, clock).0.tokens.at)
    ensures var s' := RevokeToken(s, id, reason, now, actor, clock).0;
            Revocation.Closed(s'.tokens.at) && (Resting(s.breaker) ==> Resting(s'.breaker))
  {
    RevokeTokenEffect(s, id, reason, now, actor, clock);
    GuardQuiet(s, clock);
    var (s', r) := RevokeToken(s, id, reason, now, actor, clock);
    if r.Ok? {
      ClosedRevocation(Guard(s, clock).0, s', id, reason, now, actor);
    }
  }

  lemma {:induction false} GrownLog(log: seq<Recorded>, log': seq<Recorded>, first: Recorded, rest: seq<Recorded>)
    requires log + [first] <= log' && rest == log'[|log| + 1..] && KindOf(first.event) == Revocations
    requires forall i :: 0 <= i < |rest| ==> KindOf(rest[i].event) == Revocations
    ensures var es := log'[|log|..];
            && es != [] && es[0] == first && es[1..] == rest
            && forall k :: Select(log', k) == Select(log, k) + if k == Revocations then es else []
  {
    var es := log'[|log|..];
    assert log'[|log|] == (log + [first])[|log|] == first;
    assert log' == log + es && es[0] == first && es[1..] == rest;
    forall i | 0 <= i < |es|
      ensures KindOf(es[i].event) == Revocations
    {
      assert i > 0 ==> es[i] == rest[i - 1];
    }
    forall k
      ensures Select(log', k) == Select(log, k) + if k == Revocations then es else []
    {
      SelectJoin(log, es, k);
      SelectUniform(es, Revocations, k);
    }
  }

  lemma AnnouncedKinds(es: seq<Recorded>, m: map<string, Token>, ids: set<string>, now: int, actor: Option<string>)
    requires Announces(es, m, ids, now, actor)
    ensures forall i :: 0 <= i < |es| ==> KindOf(es[i].event) == Revocations
  {
  }

  lemma RevocationEntries(s: Sys, s': Sys, id: string, reason: RevocationReason, now: int, actor: Option<string>)
    requires Stores(s) && Forested(s.tokens.at) && RevocationEffect(s, s', id, reason, now, actor)
    ensures var es := s'.log[|s.log|..];
            && Stores(s') && TokensEvolve(s.tokens.at, s'.tokens.at) && Forested(s'.tokens.at)
            && ViewOf(s') == ViewOf(s).(tokens := s'.tokens.at, revoked := Select(s.log, Revocations) + es)
            && forall k :: TokenNamed(es, k) || (k in s.tokens.at && !IsActive(s.tokens.at[k]))
                           <==> k in s.tokens.at && !IsActive(s'.tokens.at[k])
  {
    var m := s.tokens.at;
    assert Stores(s');
    AnnouncedKinds(s'.log[|s.log| + 1..], m, ReachedBelow(m, id), now, actor);
    GrownLog(s.log, s'.log, Recorded(RevokeEvent(m[id], reason, actor), now), s'.log[|s.log| + 1..]);
    RevocationNames(m, s'.tokens.at, id, reason, now, actor, s'.log[|s.log|..]);
    StillForested(m, s'.tokens.at);
    RevokedViewIs(s, s', s'.log[|s.log|..]);
  }

  lemma RevokedViewIs(s: Sys, s': Sys, es: seq<Recorded>)
    requires s' == s.(tokens := s'.tokens, log := s'.log)
    requires forall k :: Select(s'.log, k) == Select(s.log, k) + if k == Revocations then es else []
    ensures ViewOf(s') == ViewOf(s).(tokens := s'.tokens.at, revoked := Select(s.log, Revocations) + es)
  {
    assert forall k :: Select(s.log, k) + [] == Select(s.log, k);
  }

  lemma StillForested(m: map<string, Token>, after: map<string, Token>)
    requires Forested(m) && TokensEvolve(m, after)
    ensures Forested(after)
  {
    SameGenealogy(m, after);
    forall id | id in after
      ensures after[id].id == id
    {
      IssuedFixes(m[id], after[id]);
    }
  }

  lemma RevocationNames(
    m: map<string, Token>, after: map<string, Token>, target: string, reason: RevocationReason, now: int,
    actor: Option<string>, es: seq<Recorded>)
    requires Forested(m) && target in m && after.Keys == m.Keys
    requires forall d :: d in m ==> after[d] == AfterRevocation(m, target, d, reason, now)
    requires es != [] && es[0].event.tokenId == Some(target)
    requires Announces(es[1..], m, ReachedBelow(m, target), now, actor)
    ensures TokensEvolve(m, after)
    ensures forall k :: TokenNamed(es, k) || (k in m && !IsActive(m[k])) <==> k in m && !IsActive(after[k])
  {
    forall k
      ensures TokenNamed(es, k) <==> k == target || k in ReachedBelow(m, target)
      ensures k in ReachedBelow(m, target) ==> IsActive(m[k])
    {
      NamedInCascade(es, m, target, ReachedBelow(m, target), now, actor, k);
      if k in ReachedBelow(m, target) {
        ReachesBelow(m, target, k);
      }
    }
  }

  lemma NamedInCascade(
    es: seq<Recorded>, m: map<string, Token>, target: string, ids: set<string>, now: int, actor: Option<string>,
    k: string)
    requires es != [] && es[0].event.tokenId == Some(target) && Announces(es[1..], m, ids, now, actor)
    ensures TokenNamed(es, k) <==> k == target || k in ids
  {
    var rest := es[1..];
    if TokenNamed(es, k) {
      var i :| 0 <= i < |es| && es[i].event.tokenId == Some(k);
      assert i > 0 ==> rest[i - 1] == es[i];
    }
    if k in ids {
      var i :| 0 <= i < |rest| && rest[i].event.tokenId == Some(k);
      assert es[i + 1].event.tokenId == Some(k);
    }
  }

  lemma RestartKeeps(s: Sys)
    requires WellFiled(s)
    ensures var s' := Restart(s);
            && Keeps(s, s') && Resting(s'.breaker)
            && s'.tokens == s.tokens && s'.policies == s.policies && s'.log == s.log
            && s'.requests.order == s.requests.order && s'.requests.at.Keys == s.requests.at.Keys
            && forall id :: id in s.requests.at ==>
                 s'.requests.at[id].tokenSecret == None
                 && s'.requests.at[id].(tokenSecret := s.requests.at[id].tokenSecret) == s.requests.at[id]
  {
    ErasedSecrets(ViewOf(s));
  }

  lemma RestartSound(s: Sys)
    requires Sound(s)
    ensures Sound(Restart(s)) && Evolves(ViewOf(s), ViewOf(Restart(s)))
  {
    RestartKeeps(s);
  }

  predicate OnRequests(step: Step) {
    step.DoRequestToken? || step.DoCheckTimeout? || step.DoApprove? || step.DoDeny? || step.DoClaim?
  }

  /** Of the calls on requests only an approval touches a token. */
  lemma RequestStepKeeps(s: Sys, step: Step)
    requires WellFiled(s) && Forested(s.tokens.at) && Fresh(s, step) && OnRequests(step) && !step.DoApprove?
    ensures KeepsTokens(s, Apply(s, step))
  {
    match step
    case DoRequestToken(subject, scope, ttl, key, id, primary, now) =>
      RequestTokenKeeps(s, subject, scope, ttl, key, id, primary, now);
    case DoCheckTimeout(id, window, backup, now) => CheckTimeoutKeeps(s, id, window, backup, now);
    case DoDeny(id, approver, reason, now) => DenyKeeps(s, id, approver, reason, now);
    case DoClaim(id, subject, now) => ClaimKeeps(s, id, subject, now);
  }

  predicate Unseen(step: Step) {
    step.DoEnforce? || step.DoCreatePolicy? || step.DoModifyPolicy? || step.DoSimulateOutage?
  }

  lemma UnseenStepQuiet(s: Sys, step: Step)
    requires Stores(s) && Forested(s.tokens.at) && Unseen(step)
    ensures Quiet(s, Apply(s, step))
  {
    if step.DoCreatePolicy? || step.DoModifyPolicy? {
      PolicyStepQuiet(s, step);
    } else if step.DoEnforce? {
      EnforceQuiet(s, step.tokenId, step.secret, step.action, step.now, step.clock);
    } else {
      OutageQuiet(s, step.down);
    }
  }

  lemma PolicyStepQuiet(s: Sys, step: Step)
    requires Stores(s) && Forested(s.tokens.at) && (step.DoCreatePolicy? || step.DoModifyPolicy?)
    ensures Quiet(s, Apply(s, step))
  {
    match step
    case DoCreatePolicy(name, scope, max, author, id, now, clock) =>
      CreatePolicyQuiet(s, name, scope, max, author, id, now, clock);
    case DoModifyPolicy(id, changes, author, now, clock) => ModifyPolicyQuiet(s, id, changes, author, now, clock);
  }

  lemma OutageQuiet(s: Sys, down: bool)
    requires Stores(s)
    ensures Quiet(s, SimulateOutage(s, down))
  {
  }

  lemma KeptSound(s: Sys, s': Sys)
    requires Sound(s) && KeepsTokens(s, s')
    ensures Sound(s') && Evolves(ViewOf(s), ViewOf(s'))
  {
  }

  lemma OtherStepSound(s: Sys, step: Step)
    requires Sound(s) && Fresh(s, step) && !Unseen(step) && (OnRequests(step) ==> step.DoApprove?)
    ensures Sound(Apply(s, step)) && Evolves(ViewOf(s), ViewOf(Apply(s, step)))
  {
    match step
    case DoApprove(id, approver, policyId, n, now, clock) => ApproveSound(s, id, approver, policyId, n, now, clock);
    case DoDelegate(parent, secret, subject, scope, ttl, n, now, clock) =>
      DelegateSound(s, parent, secret, subject, scope, ttl, n, now, clock);
    case DoRevoke(id, reason, now, actor, clock) => RevokeSound(s, id, reason, now, actor, clock);
    case DoRestart => RestartSound(s);
  }

  /** Every step keeps the invariant, and nothing decided is undone. */
  lemma StepSound(s: Sys, step: Step)
    requires Sound(s) && Fresh(s, step)
    ensures Sound(Apply(s, step)) && Evolves(ViewOf(s), ViewOf(Apply(s, step)))
  {
    if Unseen(step) {
      UnseenStepQuiet(s, step);
      QuietSound(s, Apply(s, step));
    } else if OnRequests(step) && !step.DoApprove? {
      RequestStepKeeps(s, step);
      KeptSound(s, Apply(s, step));
    } else {
      OtherStepSound(s, step);
    }
  }

  // ---- Runs ------------------------------------------------------------------------

  /** A new process over an empty data directory. */
  function Initial(failureThreshold: int, cooldownMs: int, config: Config): Sys {
    Sys(EmptyMap(), EmptyMap(), EmptyMap(), [], NewBreaker(failureThreshold, cooldownMs), Detector(config, map[]))
  }

  predicate Start(s: Sys) {
    s == Initial(s.breaker.failureThreshold, s.breaker.cooldownMs, s.detector.config)
  }

  /** One call with fresh ids. The two conditions under which a call is defined
      hold in every state that a run reaches. */
  ghost predicate Takes(s: Sys, step: Step, t: Sys) {
    Stores(s) && Forested(s.tokens.at) && Fresh(s, step) && t == Apply(s, step)
  }

  ghost predicate Leads(s: Sys, steps: seq<Step>, t: Sys) {
    Chain(Takes, s, steps, t)
  }

  lemma {:induction false} RunSound(s: Sys, steps: seq<Step>, t: Sys)
    requires Sound(s) && Leads(s, steps, t)
    ensures Sound(t) && Evolves(ViewOf(s), ViewOf(t))
    decreases |steps|
  {
    if steps == [] {
      EvolvesReflexive(ViewOf(s));
    } else {
      var u :| Takes(s, steps[0], u) && Chain(Takes, u, steps[1..], t);
      StepSound(s, steps[0]);
      RunSound(u, steps[1..], t);
      EvolvesTransitive(ViewOf(s), ViewOf(u), ViewOf(t));
    }
  }

  lemma StartSound(start: Sys)
    requires Start(start)
    ensures Sound(start)
  {
  }

  ghost predicate Reachable(s: Sys) {
    exists start, steps :: Start(start) && Leads(start, steps, s)
  }

  lemma ReachableSound(s: Sys)
    requires Reachable(s)
    ensures Sound(s)
  {
    var start, steps :| Start(start) && Leads(start, steps, s);
    StartSound(start);
    RunSound(start, steps, s);
  }
}
