/** Every operation of src/token.ts, src/delegation.ts, src/tokenRequest.ts and
    src/policy.ts as a function from state to state and reply. `now` is the
    caller's time; `clock` is the process's own reading of the time. Fresh ids
    and secrets are arguments. */
module Steps {
  import opened Core
  import opened AuditLogs
  import opened CircuitBreakers
  import opened AnomalyDetectors
  import opened Domain
  import opened Forest

  function Note(s: Sys, e: Event, at: int): Sys {
    s.(log := s.log + [Recorded(e, at)])
  }

  /** A store call through the shared breaker; false is CircuitOpenError. */
  function Guard(s: Sys, clock: int): (Sys, bool) {
    var (b, outcome, change) := Executed(s.breaker, false, clock);
    (s.(breaker := b, log := s.log + TransitionRecords(change, clock)), outcome == Succeeded)
  }

  function SaveToken(s: Sys, t: Token): Sys {
    s.(tokens := s.tokens.Set(t.id, t))
  }

  function SaveRequest(s: Sys, r: Request): Sys {
    s.(requests := s.requests.Set(r.id, r))
  }

  function SavePolicy(s: Sys, p: Policy): Sys {
    s.(policies := s.policies.Set(p.id, p))
  }

  // ---- src/token.ts ------------------------------------------------------------

  /** What issuance draws at random. */
  datatype Nonce = Nonce(id: string, secret: string, salt: string)

  datatype Issuance = Issuance(
    subject: string, scope: seq<string>, ttlSeconds: int, parentTokenId: Option<string>, policyId: Option<string>)

  /** A JavaScript string that is undefined or empty is falsy. */
  predicate Given(o: Option<string>) {
    o.Some? && o.value != ""
  }

  predicate Within(scope: seq<string>, allowed: seq<string>) {
    forall a :: a in scope ==> a in allowed
  }

  /** The policy looked up afresh; None when the issuance is within it. */
  function PolicyObjection(p: Option<Policy>, r: Issuance): Option<DomainError> {
    if p.None? then Some(PolicyNotFound)
    else if !Within(r.scope, p.value.allowedScope) then Some(ScopeExceedsPolicy)
    else if r.ttlSeconds > p.value.maxTtlSeconds then Some(TtlExceedsPolicy)
    else None
  }

  /** The time asked for, cut to the parent's end. */
  function ExpiryOf(s: Sys, r: Issuance, clock: int): int {
    var uncapped := clock + r.ttlSeconds * 1000;
    if Given(r.parentTokenId) && r.parentTokenId.value in s.tokens.at
       && uncapped > s.tokens.at[r.parentTokenId.value].expiresAt
    then s.tokens.at[r.parentTokenId.value].expiresAt
    else uncapped
  }

  function Minted(r: Issuance, issuedAt: int, expiresAt: int, n: Nonce): Token {
    Token(n.id, r.subject, r.scope, issuedAt, expiresAt, TokenStatus.Active, r.parentTokenId, None, None,
          HashPassword(n.secret, n.salt))
  }

  function IssueToken(s: Sys, r: Issuance, n: Nonce, clock: int): (Sys, Result<Token, DomainError>) {
    if r.scope == [] then (s, Err(InvalidScope))
    else if r.ttlSeconds <= 0 then (s, Err(InvalidTtl))
    else
      var (s1, policyRead) := if Given(r.policyId) then Guard(s, clock) else (s, true);
      if !policyRead then (s1, Err(CircuitOpen))
      else
        var objection := if Given(r.policyId) then PolicyObjection(s1.policies.Get(r.policyId.value), r) else None;
        if objection.Some? then (s1, Err(objection.value))
        else
          var (s2, parentRead) := if Given(r.parentTokenId) then Guard(s1, clock) else (s1, true);
          if !parentRead then (s2, Err(CircuitOpen))
          else
            var t := Minted(r, clock, ExpiryOf(s2, r, clock), n);
            var (s3, saved) := Guard(s2, clock);
            if !saved then (s3, Err(CircuitOpen)) else (SaveToken(s3, t), Ok(t))
  }

  function Decide(t: Token, action: string, now: int): Enforcement {
    if t.status != TokenStatus.Active then Deny(TokenRevoked)
    else if now >= t.expiresAt then Deny(Expired)
    else if action !in t.scope then Deny(OutOfScope)
    else Allow
  }

  function EnforcementEvent(tokenId: string, subject: string, action: string, d: Enforcement): Event {
    Event(if d.Allow? then Decision.Allowed else Decision.Denied, action, subject, Some(tokenId), None, None,
          if d.Allow? then None else Some(EnforcementText(d.reason)), None)
  }

  function EnforceToken(s: Sys, tokenId: string, secret: string, action: string, now: int, clock: int)
    : (Sys, Enforcement)
  {
    var (s1, read) := Guard(s, clock);
    var subject, d :=
      if !read then "unknown" else if tokenId !in s1.tokens.at then "unknown" else s1.tokens.at[tokenId].subject,
      if !read then Deny(StoreUnavailable)
      else if tokenId !in s1.tokens.at then Deny(NoSuchToken)
      else if !VerifyPassword(secret, s1.tokens.at[tokenId].secretHash) then Deny(InvalidCredential)
      else Decide(s1.tokens.at[tokenId], action, now);
    (Note(s1, EnforcementEvent(tokenId, subject, action, d), now), d)
  }

  function MarkRevoked(t: Token, now: int, reason: RevocationReason): Token {
    t.(status := TokenStatus.Revoked, revokedAt := Some(now), revocationReason := Some(reason))
  }

  function RevokeEvent(t: Token, reason: RevocationReason, actor: Option<string>): Event {
    Event(Decision.Revoked, "revoke", t.subject, Some(t.id), None, None, Some(RevocationText(reason)), actor)
  }

  /** One token saved as revoked, then logged; false when the save threw. */
  function RevokeOne(s: Sys, t: Token, reason: RevocationReason, now: int, actor: Option<string>, clock: int)
    : (Sys, bool)
  {
    var (s1, saved) := Guard(s, clock);
    if !saved then (s1, false)
    else (Note(SaveToken(s1, MarkRevoked(t, now, reason)), RevokeEvent(t, reason, actor), now), true)
  }

  /** childrenOf: a snapshot of the direct children, in map order. */
  function Children(tokens: JsMap<Token>, parentId: string): seq<Token>
    requires tokens.Valid()
  {
    ChildrenAmong(tokens.Values(), parentId)
  }

  function ChildrenAmong(ts: seq<Token>, parentId: string): seq<Token> {
    if ts == [] then []
    else
      var n := |ts| - 1;
      ChildrenAmong(ts[..n], parentId) + if ts[n].parentTokenId == Some(parentId) then [ts[n]] else []
  }

  lemma {:induction false} ChildrenMembers(ts: seq<Token>, p: string)
    ensures forall t :: t in ChildrenAmong(ts, p) <==> t in ts && t.parentTokenId == Some(p)
  {
    if ts != [] {
      var n := |ts| - 1;
      ChildrenMembers(ts[..n], p);
      assert ts == ts[..n] + [ts[n]];
    }
  }

  /** childrenOf keeps the order and loses and repeats nothing: a filter. */
  lemma {:induction false} ChildrenSplit(a: seq<Token>, b: seq<Token>, p: string)
    ensures ChildrenAmong(a + b, p) == ChildrenAmong(a, p) + ChildrenAmong(b, p)
  {
    if b == [] {
      assert a + b == a;
    } else {
      var n := |b| - 1;
      ChildrenSplit(a, b[..n], p);
      ChildrenSplitOn(a, b[..n], b[n], p);
      assert b == b[..n] + [b[n]];
    }
  }

  lemma {:induction false} ChildrenSplitOn(a: seq<Token>, b: seq<Token>, t: Token, p: string)
    requires ChildrenAmong(a + b, p) == ChildrenAmong(a, p) + ChildrenAmong(b, p)
    ensures ChildrenAmong(a + (b + [t]), p) == ChildrenAmong(a, p) + ChildrenAmong(b + [t], p)
  {
    ChildrenAfter(a + b, t, p);
    ChildrenAfter(b, t, p);
    ConcatAssociates(a, b, [t]);
    ConcatAssociates(ChildrenAmong(a, p), ChildrenAmong(b, p), if t.parentTokenId == Some(p) then [t] else []);
  }

  lemma {:induction false} ChildrenAfter(ts: seq<Token>, t: Token, p: string)
    ensures ChildrenAmong(ts + [t], p) == ChildrenAmong(ts, p) + if t.parentTokenId == Some(p) then [t] else []
  {
    assert (ts + [t])[..|ts|] == ts;
  }

  lemma {:induction false} ChildrenOfOne(t: Token, p: string)
    ensures ChildrenAmong([t], p) == if t.parentTokenId == Some(p) then [t] else []
  {
    assert [t][..0] == [];
  }

  /** Every token is filed under its own id, and the parent links narrow. */
  ghost predicate Forested(tokens: map<string, Token>) {
    && (forall id :: id in tokens ==> tokens[id].id == id)
    && Narrow(GenealogyOf(tokens))
  }

  /** A snapshot, perhaps outdated in status, of children of p. */
  ghost predicate SnapshotOf(g: Genealogy, p: string, kids: seq<Token>) {
    forall k :: k in kids ==>
      k.id in g && k.parentTokenId == Some(p) && g[k.id] == Node(Some(p), ScopeSet(k.scope))
  }

  lemma SavingKeepsGenealogy(tokens: map<string, Token>, t: Token)
    requires t.id in tokens && GenealogyOf(tokens)[t.id] == Node(t.parentTokenId, ScopeSet(t.scope))
    ensures GenealogyOf(tokens[t.id := t]) == GenealogyOf(tokens)
  {
  }

  /** A snapshot taken now is accurate. */
  lemma ChildrenAreCurrent(tokens: JsMap<Token>, p: string)
    requires tokens.Valid() && Forested(tokens.at)
    ensures SnapshotOf(GenealogyOf(tokens.at), p, Children(tokens, p))
    ensures forall k :: k in Children(tokens, p)
              <==> k.id in tokens.at && tokens.at[k.id] == k && k.parentTokenId == Some(p)
  {
    ChildrenMembers(tokens.Values(), p);
    forall k | k in Children(tokens, p)
      ensures k.id in tokens.at && tokens.at[k.id] == k
    {
      var i :| 0 <= i < |tokens.order| && tokens.Values()[i] == k;
      assert tokens.order[i] in tokens.at;
    }
    forall k: Token | k.id in tokens.at && tokens.at[k.id] == k && k.parentTokenId == Some(p)
      ensures k in Children(tokens, p)
    {
      var i :| 0 <= i < |tokens.order| && tokens.order[i] == k.id;
      assert tokens.Values()[i] == k;
    }
  }

  /** The loop body of cascadeRevoke for one child of the snapshot; false when
      a save threw, which ends the whole cascade. */
  function RevokeChild(s: Sys, p: string, child: Token, now: int, actor: Option<string>, clock: int)
    : (r: (Sys, bool))
    requires Stores(s) && Forested(s.tokens.at) && p in s.tokens.at && SnapshotOf(GenealogyOf(s.tokens.at), p, [child])
    ensures Stores(r.0) && Forested(r.0.tokens.at) && r.0.tokens.order == s.tokens.order
    ensures GenealogyOf(r.0.tokens.at) == GenealogyOf(s.tokens.at)
    decreases ScopeSet(s.tokens.at[p].scope), 0
  {
    if child.status != TokenStatus.Active then (s, true)
    else
      var (s1, saved) := RevokeOne(s, child, ParentRevoked, now, actor, clock);
      if !saved then (s1, false)
      else
        ChildSaved(s, p, child, MarkRevoked(child, now, ParentRevoked));
        CascadeRevoke(s1, child.id, now, actor, clock)
  }

  lemma ChildSaved(s: Sys, p: string, child: Token, revokedChild: Token)
    requires Stores(s) && Forested(s.tokens.at) && p in s.tokens.at && SnapshotOf(GenealogyOf(s.tokens.at), p, [child])
    requires revokedChild.id == child.id && revokedChild.scope == child.scope
    requires revokedChild.parentTokenId == child.parentTokenId
    ensures var after := s.tokens.Set(child.id, revokedChild);
            && after.Valid() && after.order == s.tokens.order && Forested(after.at)
            && GenealogyOf(after.at) == GenealogyOf(s.tokens.at)
            && ScopeSet(after.at[child.id].scope) < ScopeSet(s.tokens.at[p].scope)
  {
    assert child in [child];
    SetKeepsValid(s.tokens, child.id, revokedChild);
    SavingKeepsGenealogy(s.tokens.at, revokedChild);
    assert HasParent(GenealogyOf(s.tokens.at), child.id);
  }

  lemma TargetSaved(s: Sys, target: string, revoked: Token)
    requires Stores(s) && Forested(s.tokens.at) && target in s.tokens.at && revoked.id == target
    requires revoked.scope == s.tokens.at[target].scope && revoked.parentTokenId == s.tokens.at[target].parentTokenId
    ensures var after := s.tokens.Set(target, revoked);
            && after.Valid() && Forested(after.at) && target in after.at
            && GenealogyOf(after.at) == GenealogyOf(s.tokens.at)
  {
    SetKeepsValid(s.tokens, target, revoked);
    SavingKeepsGenealogy(s.tokens.at, revoked);
  }

  lemma SnapshotSplits(g: Genealogy, p: string, kids: seq<Token>)
    requires SnapshotOf(g, p, kids) && kids != []
    ensures SnapshotOf(g, p, [kids[0]]) && SnapshotOf(g, p, kids[1..])
  {
    assert kids[0] in kids;
  }

  /** cascadeRevoke over the rest of its snapshot. */
  function CascadeOver(s: Sys, p: string, kids: seq<Token>, now: int, actor: Option<string>, clock: int)
    : (r: (Sys, bool))
    requires Stores(s) && Forested(s.tokens.at) && p in s.tokens.at && SnapshotOf(GenealogyOf(s.tokens.at), p, kids)
    ensures Stores(r.0) && Forested(r.0.tokens.at) && r.0.tokens.order == s.tokens.order
    ensures GenealogyOf(r.0.tokens.at) == GenealogyOf(s.tokens.at)
    decreases ScopeSet(s.tokens.at[p].scope), |kids|
  {
    if kids == [] then (s, true)
    else
      SnapshotSplits(GenealogyOf(s.tokens.at), p, kids);
      var (s1, done) := RevokeChild(s, p, kids[0], now, actor, clock);
      if !done then (s1, false) else CascadeOver(s1, p, kids[1..], now, actor, clock)
  }

  function CascadeRevoke(s: Sys, p: string, now: int, actor: Option<string>, clock: int)
    : (r: (Sys, bool))
    requires Stores(s) && Forested(s.tokens.at) && p in s.tokens.at
    ensures Stores(r.0) && Forested(r.0.tokens.at) && r.0.tokens.order == s.tokens.order
    ensures GenealogyOf(r.0.tokens.at) == GenealogyOf(s.tokens.at)
    decreases ScopeSet(s.tokens.at[p].scope)
  {
    ChildrenAreCurrent(s.tokens, p);
    CascadeOver(s, p, Children(s.tokens, p), now, actor, clock)
  }

  /** revokeToken once the token has been read; false when a save threw. */
  function RevokeStored(s: Sys, tokenId: string, reason: RevocationReason, now: int, actor: Option<string>, clock: int)
    : (Sys, bool)
    requires Stores(s) && Forested(s.tokens.at) && tokenId in s.tokens.at
  {
    var token := s.tokens.at[tokenId];
    var (s1, saved) := RevokeOne(s, token, reason, now, actor, clock);
    if !saved then (s1, false)
    else
      TargetSaved(s, tokenId, MarkRevoked(token, now, reason));
      CascadeRevoke(s1, tokenId, now, actor, clock)
  }

  function RevokeToken(s: Sys, tokenId: string, reason: RevocationReason, now: int, actor: Option<string>, clock: int)
    : (r: (Sys, Result<Token, DomainError>))
    requires Stores(s) && Forested(s.tokens.at)
  {
    var (s1, read) := Guard(s, clock);
    if !read then (s1, Err(CircuitOpen))
    else if tokenId !in s1.tokens.at then (s1, Err(UnknownToken))
    else
      var (s2, done) := RevokeStored(s1, tokenId, reason, now, actor, clock);
      (s2, if done then Ok(MarkRevoked(s1.tokens.at[tokenId], now, reason)) else Err(CircuitOpen))
  }

  // ---- src/delegation.ts -------------------------------------------------------

  function RefuseDelegation(s: Sys, parentId: string, subject: string, reason: DelegationDenial, now: int)
    : (Sys, Delegation)
  {
    (Note(s, Event(Decision.Denied, "delegate", subject, Some(parentId), None, None, Some(DelegationText(reason)),
                   None), now),
     Refused(reason))
  }

  /** The guards after the parent has been read, in order; None passes. */
  function DelegationObjection(parent: Token, secret: string, scope: seq<string>, now: int): Option<DelegationDenial> {
    if !VerifyPassword(secret, parent.secretHash) then Some(WrongParentSecret)
    else if !(parent.status == TokenStatus.Active && now < parent.expiresAt) then Some(ParentInvalid)
    else if scope == [] then Some(EmptyScope)
    else if !Within(scope, parent.scope) then Some(ExceedsParentScope)
    else if Within(parent.scope, scope) then Some(NotNarrower)
    else None
  }

  function DelegateToken(
    s: Sys, parentId: string, secret: string, subject: string, scope: seq<string>, ttlSeconds: int,
    n: Nonce, now: int, clock: int): (Sys, Delegation)
  {
    var (s1, read) := Guard(s, clock);
    if !read then RefuseDelegation(s1, parentId, subject, ParentStoreUnavailable, now)
    else if parentId !in s1.tokens.at then RefuseDelegation(s1, parentId, subject, ParentInvalid, now)
    else
      var objection := DelegationObjection(s1.tokens.at[parentId], secret, scope, now);
      if objection.Some? then RefuseDelegation(s1, parentId, subject, objection.value, now)
      else
        DelegateAdmitted(s1, parentId, subject, scope, ttlSeconds, n, now, clock)
  }

  /** delegateToken once every guard has passed. */
  function DelegateAdmitted(
    s: Sys, parentId: string, subject: string, scope: seq<string>, ttlSeconds: int, n: Nonce, now: int, clock: int)
    : (Sys, Delegation)
  {
    var (s1, issued) := IssueToken(s, Issuance(subject, scope, ttlSeconds, Some(parentId), None), n, clock);
    match issued
    case Err(CircuitOpen) => RefuseDelegation(s1, parentId, subject, ParentStoreUnavailable, now)
    case Err(e) => (s1, Threw(e))
    case Ok(t) =>
      (Note(s1, PlainEvent(Decision.Allowed, "delegate", subject).(tokenId := Some(t.id)), now), Delegated(t, n.secret))
  }

  // ---- src/tokenRequest.ts -----------------------------------------------------

  function FirstWithKey(rs: seq<Request>, subject: string, key: string): Option<Request> {
    if rs == [] then None
    else if rs[0].subject == subject && rs[0].idempotencyKey == Some(key) then Some(rs[0])
    else FirstWithKey(rs[1..], subject, key)
  }

  function RequestToken(
    s: Sys, subject: string, scope: seq<string>, ttlSeconds: int, idempotencyKey: Option<string>, id: string,
    primaryApprover: Option<string>, now: int): (Sys, Request)
    requires Stores(s)
  {
    var existing :=
      if Given(idempotencyKey) then FirstWithKey(s.requests.Values(), subject, idempotencyKey.value) else None;
    if existing.Some? then (s, existing.value)
    else
      var pending := Request(id, subject, scope, ttlSeconds, RequestStatus.Pending, now, None, None, idempotencyKey,
                             primaryApprover);
      var s1 := Note(SaveRequest(s, pending),
                     PlainEvent(RequestSubmitted, "request_token", subject).(requestId := Some(id)), now);
      var (d, signals) := Checked(s1.detector, subject, scope, now);
      var s2 := s1.(detector := d);
      (if signals == [] then s2
       else Note(s2, PlainEvent(AnomalyDetected, "anomaly_check", subject)
                       .(requestId := Some(id), reasonCode := Some(SignalsText(signals))), now),
       pending)
  }

  const APPROVE := "approve_request"
  const DENY := "deny_request"

  /** getPending */
  function PendingRequest(s: Sys, requestId: string): Result<Request, DomainError> {
    if requestId !in s.requests.at then Err(UnknownRequest)
    else if s.requests.at[requestId].status != RequestStatus.Pending then Err(RequestNotPending)
    else Ok(s.requests.at[requestId])
  }

  /** assertEligibleDecider passes */
  predicate Eligible(r: Request, approver: string) {
    r.assignedApprover == None || r.assignedApprover == Some(approver)
  }

  function RejectDecision(s: Sys, r: Request, approver: string, action: string, now: int): Sys {
    Note(s, Event(RequestDecisionRejected, action, r.subject, None, Some(r.id), None, Some(NOT_ASSIGNED),
                  Some(approver)), now)
  }

  function ApproveRequest(
    s: Sys, requestId: string, approver: string, policyId: Option<string>, n: Nonce, now: int, clock: int)
    : (Sys, Result<Token, DomainError>)
  {
    var found := PendingRequest(s, requestId);
    if found.Err? then (s, Err(found.error))
    else
      var r := found.value;
      if !Eligible(r, approver) then (RejectDecision(s, r, approver, APPROVE, now), Err(UnauthorizedDecider))
      else
        ApproveEligible(s, requestId, r, approver, policyId, n, now, clock)
  }

  /** approveRequest once the request is pending and the approver eligible. */
  function ApproveEligible(
    s: Sys, requestId: string, r: Request, approver: string, policyId: Option<string>, n: Nonce, now: int, clock: int)
    : (Sys, Result<Token, DomainError>)
  {
    var (s1, issued) := IssueToken(s, Issuance(r.subject, r.scope, r.ttlSeconds, None, policyId), n, clock);
    if issued.Err? then
      (Note(s1, FailedApproval(requestId, r, approver, issued.error), now), Err(issued.error))
    else
      var t := issued.value;
      (Note(SaveRequest(s1, ApprovedAs(r, t, n.secret)), ApprovalEvent(requestId, r, t, policyId, approver), now),
       Ok(t))
  }

  function ApprovedAs(r: Request, t: Token, secret: string): Request {
    r.(status := RequestStatus.Approved, tokenId := Some(t.id), tokenSecret := Some(secret))
  }

  function ApprovalEvent(requestId: string, r: Request, t: Token, policyId: Option<string>, approver: string): Event {
    Event(RequestApproved, APPROVE, r.subject, Some(t.id), Some(requestId), policyId, None, Some(approver))
  }

  function FailedApproval(requestId: string, r: Request, approver: string, e: DomainError): Event {
    Event(RequestDenied, APPROVE, r.subject, None, Some(requestId), None, Some(IssueErrorText(e)), Some(approver))
  }

  function DenialEvent(requestId: string, r: Request, approver: string, reason: DenialReason): Event {
    Event(RequestDenied, DENY, r.subject, None, Some(requestId), None, Some(DenialText(reason)), Some(approver))
  }

  function ClaimEvent(requestId: string, r: Request): Event {
    PlainEvent(TokenSecretClaimed, "claim_token_secret", r.subject).(requestId := Some(requestId), tokenId := r.tokenId)
  }

  function DenyRequest(s: Sys, requestId: string, approver: string, reason: DenialReason, now: int)
    : (Sys, Result<(), DomainError>)
  {
    var found := PendingRequest(s, requestId);
    if found.Err? then (s, Err(found.error))
    else
      var r := found.value;
      if !Eligible(r, approver) then (RejectDecision(s, r, approver, DENY, now), Err(UnauthorizedDecider))
      else
        (Note(SaveRequest(s, r.(status := RequestStatus.Denied)), DenialEvent(requestId, r, approver, reason), now),
         Ok(()))
  }

  function CheckRequestTimeout(s: Sys, requestId: string, decisionWindowMs: int, backup: Option<string>, now: int)
    : Sys
  {
    if !Given(backup) || requestId !in s.requests.at then s
    else
      var r := s.requests.at[requestId];
      if r.status != RequestStatus.Pending || r.assignedApprover == backup || now - r.requestedAt < decisionWindowMs
      then s
      else
        Note(SaveRequest(s, r.(assignedApprover := backup)), EscalationEvent(r), now)
  }

  function EscalationEvent(r: Request): Event {
    PlainEvent(RequestEscalated, "escalate_request", r.subject)
      .(requestId := Some(r.id), reasonCode := Some("decision_window_expired"))
  }

  function ClaimTokenSecret(s: Sys, requestId: string, subject: string, now: int)
    : (Sys, Result<(string, string), DomainError>)
  {
    if requestId !in s.requests.at then (s, Err(UnknownRequest))
    else
      var r := s.requests.at[requestId];
      if r.subject != subject then
        (Note(s, PlainEvent(Decision.Denied, "claim_token_secret", subject)
                   .(requestId := Some(requestId), reasonCode := Some(WRONG_SUBJECT)), now),
         Err(WrongSubject))
      else if r.status != RequestStatus.Approved || !Given(r.tokenId) then (s, Err(RequestNotApproved))
      else if !Given(r.tokenSecret) then (s, Err(SecretAlreadyClaimed))
      else
        (Note(SaveRequest(s, r.(tokenSecret := None)), ClaimEvent(requestId, r), now),
         Ok((r.tokenId.value, r.tokenSecret.value)))
  }

  // ---- src/policy.ts -----------------------------------------------------------

  datatype PolicyChanges = PolicyChanges(
    name: Option<string>, allowedScope: Option<seq<string>>, maxTtlSeconds: Option<int>)

  /** validate passes */
  predicate Acceptable(p: Policy) {
    !Blank(p.name) && p.allowedScope != [] && p.maxTtlSeconds > 0
  }

  function CreatePolicy(
    s: Sys, name: string, allowedScope: seq<string>, maxTtlSeconds: int, author: string, id: string, now: int,
    clock: int)
    : (Sys, Result<Policy, DomainError>)
  {
    var p := Policy(id, name, allowedScope, maxTtlSeconds, author, now, now);
    if !Acceptable(p) then (s, Err(InvalidPolicy))
    else
      var (s1, saved) := Guard(s, clock);
      if !saved then (s1, Err(CircuitOpen))
      else
        (Note(SavePolicy(s1, p), PlainEvent(PolicyCreated, "create_policy", author).(policyId := Some(id)), now), Ok(p))
  }

  function Changed(p: Policy, c: PolicyChanges, now: int): Policy {
    p.(name := if c.name.Some? then c.name.value else p.name,
       allowedScope := if c.allowedScope.Some? then c.allowedScope.value else p.allowedScope,
       maxTtlSeconds := if c.maxTtlSeconds.Some? then c.maxTtlSeconds.value else p.maxTtlSeconds,
       updatedAt := now)
  }

  function ModifyPolicy(s: Sys, policyId: string, changes: PolicyChanges, author: string, now: int, clock: int)
    : (Sys, Result<Policy, DomainError>)
  {
    var (s1, read) := Guard(s, clock);
    if !read then (s1, Err(CircuitOpen))
    else if policyId !in s1.policies.at then (s1, Err(UnknownPolicy))
    else
      var updated := Changed(s1.policies.at[policyId], changes, now);
      if !Acceptable(updated) then (s1, Err(InvalidPolicy))
      else
        var (s2, saved) := Guard(s1, clock);
        if !saved then (s2, Err(CircuitOpen))
        else
          (Note(SavePolicy(s2, updated),
                PlainEvent(PolicyModified, "modify_policy", author).(policyId := Some(policyId)), now),
           Ok(updated))
  }

  // ---- The process ---------------------------------------------------------------

  function SimulateOutage(s: Sys, down: bool): Sys {
    s.(breaker := s.breaker.(simulatingOutage := down))
  }

  /** A request as its file remembers it. */
  function WithoutSecret(r: Request): Request {
    r.(tokenSecret := None)
  }

  /** A new process over the same data directory: the stores and the log come
      back from their files; the breaker and the detector start afresh. */
  function Restart(s: Sys): Sys {
    s.(requests := JsMap(s.requests.order, map id | id in s.requests.at :: WithoutSecret(s.requests.at[id])),
       breaker := NewBreaker(s.breaker.failureThreshold, s.breaker.cooldownMs),
       detector := Detector(s.detector.config, map[]))
  }
}
