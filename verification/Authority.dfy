/** The domain calls as methods over the stores, wired as src/server.ts:86-117
    wires them. Each is proved against its step of Steps; that the steps keep the
    invariant is Runs.StepSound. */
module Authorities {
  import opened Core
  import opened JsonlStore
  import opened AuditLogs
  import opened CircuitBreakers
  import opened AnomalyDetectors
  import opened Domain
  import opened Forest
  import opened Steps
  import opened Revocation
  import opened Runs
  import opened Theorems
  import opened StoreObjects

  /** The files of one data directory. */
  datatype DataDir = DataDir(tokens: File<Token>, requests: File<Request>, policies: File<Policy>, auditLog: Disk)

  datatype Settings = Settings(
    failureThreshold: Option<int>, cooldownMs: Option<int>, maxLines: Option<int>,
    maxScopeBreadth: Option<int>, velocityWindowMs: Option<int>, maxRequestsPerWindow: Option<int>)

  class Authority {
    const auditLog: AuditLog
    const breaker: CircuitBreaker
    const tokenStore: TokenStore
    const requestStore: RequestStore
    const policyStore: PolicyStore
    const detector: AnomalyDetector
    /** Whether a data directory is configured. */
    const durable: bool

    ghost function State(): Sys
      reads tokenStore, requestStore, policyStore, auditLog, breaker, detector
    {
      Sys(tokenStore.tokens, requestStore.requests, policyStore.policies, auditLog.Log(), breaker.View(),
          detector.View())
    }

    /** One breaker and one log behind every store; files all present or all absent. */
    ghost predicate Wired()
      reads tokenStore, requestStore, policyStore, auditLog, breaker
    {
      && tokenStore.breaker == breaker && policyStore.breaker == breaker && breaker.auditLog == auditLog
      && tokenStore.Valid() && requestStore.Valid() && policyStore.Valid() && auditLog.Valid()
      && tokenStore.persistTo.Some? == requestStore.persistTo.Some? == policyStore.persistTo.Some? == durable
      && auditLog.disk.Some? == durable
    }

    constructor (digest: Digest, dir: Option<DataDir>, settings: Settings)
      ensures fresh(auditLog) && fresh(breaker) && fresh(detector)
      ensures fresh(tokenStore) && fresh(requestStore) && fresh(policyStore)
      ensures Wired() && durable == dir.Some?
      ensures requestStore.clean <==> dir.Some? ==> SecretFree(dir.value.requests)
      ensures auditLog.digest == digest
      ensures auditLog.entries == if dir.Some? then OnDisk(dir.value.auditLog) else []
      ensures State() == Sys(
                if dir.Some? then Rehydrated(Some(dir.value.tokens), TokenKey) else EmptyMap(),
                if dir.Some? then Rehydrated(Some(dir.value.requests), RequestKey) else EmptyMap(),
                if dir.Some? then Rehydrated(Some(dir.value.policies), PolicyKey) else EmptyMap(),
                if dir.Some? then Trail(OnDisk(dir.value.auditLog)) else [],
                NewBreaker(if settings.failureThreshold.Some? then settings.failureThreshold.value else 3,
                           if settings.cooldownMs.Some? then settings.cooldownMs.value else 5000),
                Detector(Config(if settings.maxScopeBreadth.Some? then settings.maxScopeBreadth.value else 3,
                                if settings.velocityWindowMs.Some? then settings.velocityWindowMs.value else 60000,
                                if settings.maxRequestsPerWindow.Some? then settings.maxRequestsPerWindow.value else 3),
                         map[]))
    {
      durable := dir.Some?;
      var log := new AuditLog(digest, if dir.Some? then Some(dir.value.auditLog) else None, settings.maxLines);
      var cb := new CircuitBreaker(settings.failureThreshold, settings.cooldownMs, log);
      auditLog := log;
      breaker := cb;
      tokenStore := new TokenStore(cb, if dir.Some? then Some(dir.value.tokens) else None);
      requestStore := new RequestStore(if dir.Some? then Some(dir.value.requests) else None);
      policyStore := new PolicyStore(cb, if dir.Some? then Some(dir.value.policies) else None);
      detector := new AnomalyDetector(
        settings.maxScopeBreadth, settings.velocityWindowMs, settings.maxRequestsPerWindow);
    }

    /** What the process leaves behind. */
    function Files(): DataDir
      requires tokenStore.persistTo.Some? && requestStore.persistTo.Some? && policyStore.persistTo.Some?
      requires auditLog.disk.Some?
      reads tokenStore, requestStore, policyStore, auditLog
    {
      DataDir(tokenStore.persistTo.value, requestStore.persistTo.value, policyStore.persistTo.value,
              auditLog.disk.value)
    }

    /** One log record; every refusal the callers record carries a reason. */
    method Record(event: Event, now: int)
      requires Wired() && !MissingReason(event)
      modifies auditLog
      ensures Wired()
      ensures State() == Note(old(State()), event, now)
    {
      var ok, id := auditLog.Record(event, now);
    }

    // ---- Store calls, as state changes -----------------------------------------

    method ReadToken(id: string, clock: int) returns (ok: bool, found: Option<Token>)
      requires Wired()
      modifies breaker, auditLog
      ensures Wired()
      ensures (State(), ok) == Guard(old(State()), clock)
      ensures found == if ok then State().tokens.Get(id) else None
    {
      ok, found := tokenStore.Get(id, clock);
    }

    method SaveToken(t: Token, clock: int) returns (ok: bool)
      requires Wired()
      modifies tokenStore, breaker, auditLog
      ensures Wired()
      ensures ok == Guard(old(State()), clock).1
      ensures State() == if ok then Steps.SaveToken(Guard(old(State()), clock).0, t) else Guard(old(State()), clock).0
    {
      ok := tokenStore.Save(t, clock);
    }

    method ReadPolicy(id: string, clock: int) returns (ok: bool, found: Option<Policy>)
      requires Wired()
      modifies breaker, auditLog
      ensures Wired()
      ensures (State(), ok) == Guard(old(State()), clock)
      ensures found == if ok then State().policies.Get(id) else None
    {
      ok, found := policyStore.Get(id, clock);
    }

    method SavePolicy(p: Policy, clock: int) returns (ok: bool)
      requires Wired()
      modifies policyStore, breaker, auditLog
      ensures Wired()
      ensures ok == Guard(old(State()), clock).1
      ensures State() == if ok then Steps.SavePolicy(Guard(old(State()), clock).0, p) else Guard(old(State()), clock).0
    {
      ok := policyStore.Save(p, clock);
    }

    method SaveRequest(r: Request)
      requires Wired()
      modifies requestStore
      ensures Wired()
      ensures State() == Steps.SaveRequest(old(State()), r)
    {
      requestStore.Save(r);
    }

    // ---- src/token.ts ----------------------------------------------------------

    /** The policy named, if any, looked up afresh; no error when it covers r. */
    method CheckPolicy(r: Issuance, clock: int) returns (error: Option<DomainError>)
      requires Wired()
      modifies breaker, auditLog
      ensures Wired()
      ensures var (s1, read) := if Given(r.policyId) then Guard(old(State()), clock) else (old(State()), true);
              && State() == s1
              && error == if !read then Some(CircuitOpen)
                          else if !Given(r.policyId) then None
                          else PolicyObjection(s1.policies.Get(r.policyId.value), r)
    {
      if !Given(r.policyId) {
        return None;
      }
      var read, policy := ReadPolicy(r.policyId.value, clock);
      if !read {
        return Some(CircuitOpen);
      }
      if policy.None? {
        return Some(PolicyNotFound);
      }
      if !Within(r.scope, policy.value.allowedScope) {
        return Some(ScopeExceedsPolicy);
      }
      if r.ttlSeconds > policy.value.maxTtlSeconds {
        return Some(TtlExceedsPolicy);
      }
      return None;
    }

    /** The lifetime asked for, cut to the parent's; None when the parent cannot be read. */
    method CapExpiry(r: Issuance, clock: int) returns (expiresAt: Option<int>)
      requires Wired()
      modifies breaker, auditLog
      ensures Wired()
      ensures var (s1, read) := if Given(r.parentTokenId) then Guard(old(State()), clock) else (old(State()), true);
              State() == s1 && expiresAt == if read then Some(ExpiryOf(s1, r, clock)) else None
    {
      var uncapped := clock + r.ttlSeconds * 1000;
      if !Given(r.parentTokenId) {
        return Some(uncapped);
      }
      var read, parent := ReadToken(r.parentTokenId.value, clock);
      if !read {
        return None;
      }
      if parent.Some? && uncapped > parent.value.expiresAt {
        return Some(parent.value.expiresAt);
      }
      return Some(uncapped);
    }

    method IssueToken(r: Issuance, n: Nonce, clock: int) returns (res: Result<Token, DomainError>)
      requires Wired()
      modifies tokenStore, breaker, auditLog
      ensures Wired()
      ensures (State(), res) == Steps.IssueToken(old(State()), r, n, clock)
    {
      if r.scope == [] {
        return Err(InvalidScope);
      }
      if r.ttlSeconds <= 0 {
        return Err(InvalidTtl);
      }
      var error := CheckPolicy(r, clock);
      if error.Some? {
        return Err(error.value);
      }
      var expiresAt := CapExpiry(r, clock);
      if expiresAt.None? {
        return Err(CircuitOpen);
      }
      var token := Token(n.id, r.subject, r.scope, clock, expiresAt.value, TokenStatus.Active, r.parentTokenId, None,
                         None, HashPassword(n.secret, n.salt));
      assert token == Minted(r, clock, ExpiryOf(State(), r, clock), n);
      var saved := SaveToken(token, clock);
      if !saved {
        return Err(CircuitOpen);
      }
      return Ok(token);
    }

    method EnforceToken(tokenId: string, secret: string, action: string, now: int, clock: int)
      returns (d: Enforcement)
      requires Wired()
      modifies breaker, auditLog
      ensures Wired()
      ensures (State(), d) == Steps.EnforceToken(old(State()), tokenId, secret, action, now, clock)
    {
      var read, token := ReadToken(tokenId, clock);
      var subject := "unknown";
      if !read {
        d := Deny(StoreUnavailable);
      } else if token.None? {
        d := Deny(NoSuchToken);
      } else {
        subject := token.value.subject;
        d := if VerifyPassword(secret, token.value.secretHash) then Decide(token.value, action, now)
             else Deny(InvalidCredential);
      }
      Record(EnforcementEvent(tokenId, subject, action, d), now);
    }

    method RevokeToken(tokenId: string, reason: RevocationReason, now: int, actor: Option<string>, clock: int)
      returns (res: Result<Token, DomainError>)
      requires Wired() && Forested(tokenStore.tokens.at)
      modifies tokenStore, breaker, auditLog
      ensures Wired()
      ensures (State(), res) == Steps.RevokeToken(old(State()), tokenId, reason, now, actor, clock)
    {
      var read, token := ReadToken(tokenId, clock);
      if !read {
        return Err(CircuitOpen);
      }
      if token.None? {
        return Err(UnknownToken);
      }
      var done := RevokeStored(token.value, reason, now, actor, clock);
      if !done {
        return Err(CircuitOpen);
      }
      return Ok(MarkRevoked(token.value, now, reason));
    }

    /** The rest of revokeToken, from the save of the token that was read. */
    method RevokeStored(token: Token, reason: RevocationReason, now: int, actor: Option<string>, clock: int)
      returns (done: bool)
      requires Wired() && Forested(tokenStore.tokens.at)
      requires token.id in tokenStore.tokens.at && tokenStore.tokens.at[token.id] == token
      modifies tokenStore, breaker, auditLog
      ensures Wired()
      ensures (State(), done) == Steps.RevokeStored(old(State()), token.id, reason, now, actor, clock)
    {
      done := RevokeOne(token, reason, now, actor, clock);
      if done {
        TargetSaved(old(State()), token.id, MarkRevoked(token, now, reason));
        done := CascadeRevoke(token.id, now, actor, clock);
      }
    }

    /** The save and the log entry that revokeToken and cascadeRevoke share. */
    method RevokeOne(token: Token, reason: RevocationReason, now: int, actor: Option<string>, clock: int)
      returns (saved: bool)
      requires Wired()
      modifies tokenStore, breaker, auditLog
      ensures Wired()
      ensures (State(), saved) == Steps.RevokeOne(old(State()), token, reason, now, actor, clock)
    {
      saved := SaveToken(MarkRevoked(token, now, reason), clock);
      if saved {
        Record(RevokeEvent(token, reason, actor), now);
      }
    }

    method CascadeRevoke(parentId: string, now: int, actor: Option<string>, clock: int) returns (done: bool)
      requires Wired() && Forested(tokenStore.tokens.at) && parentId in tokenStore.tokens.at
      modifies tokenStore, breaker, auditLog
      ensures Wired()
      ensures (State(), done) == Steps.CascadeRevoke(old(State()), parentId, now, actor, clock)
      decreases ScopeSet(tokenStore.tokens.at[parentId].scope), 1
    {
      ghost var s, whole := State(), Steps.CascadeRevoke(State(), parentId, now, actor, clock);
      ghost var width := ScopeSet(tokenStore.tokens.at[parentId].scope);
      CascadeStarts(s, parentId, now, actor, clock);
      var children := tokenStore.ChildrenOf(parentId);
      for i := 0 to |children|
        invariant Wired() && s == State() && Leaves(s, parentId, children[i..], now, actor, clock, whole)
        invariant ScopeSet(s.tokens.at[parentId].scope) == width
      {
        CascadeTurns(s, parentId, children, i, now, actor, clock, whole);
        done := RevokeChild(parentId, children[i], now, actor, clock);
        s := State();
        if !done {
          return false;
        }
      }
      CascadeEnds(s, parentId, children, now, actor, clock, whole);
      return true;
    }

    /** The loop body for one child of the snapshot. */
    method RevokeChild(parentId: string, child: Token, now: int, actor: Option<string>, clock: int)
      returns (done: bool)
      requires Wired() && Forested(tokenStore.tokens.at) && parentId in tokenStore.tokens.at
      requires SnapshotOf(GenealogyOf(tokenStore.tokens.at), parentId, [child])
      modifies tokenStore, breaker, auditLog
      ensures Wired()
      ensures (State(), done) == Steps.RevokeChild(old(State()), parentId, child, now, actor, clock)
      decreases ScopeSet(tokenStore.tokens.at[parentId].scope), 0
    {
      if child.status != TokenStatus.Active {
        return true;
      }
      var saved := RevokeOne(child, ParentRevoked, now, actor, clock);
      if !saved {
        return false;
      }
      ChildSaved(old(State()), parentId, child, MarkRevoked(child, now, ParentRevoked));
      done := CascadeRevoke(child.id, now, actor, clock);
    }

    /** The chain of records from where parent links end down to the token, and
        the approval logged for the first of them, if there is one. */
    method GetTokenLineage(tokenId: string, clock: int)
      returns (res: Result<(seq<Token>, Option<Recorded>), DomainError>)
      requires Wired() && (tokenId in tokenStore.tokens.at ==> Ends(tokenStore.tokens.at, tokenId))
      modifies breaker, auditLog
      ensures Wired()
      ensures State() == Guard(old(State()), clock).0
      ensures res == Err(CircuitOpen) <==> !Guard(old(State()), clock).1
      ensures res == Err(UnknownToken) <==> Guard(old(State()), clock).1 && tokenId !in State().tokens.at
      ensures res.Ok? ==> ChainTo(State().tokens.at, res.value.0, tokenId)
      ensures res.Ok? ==> res.value.1 == OriginEntry(State().log, res.value.0[0].id)
      ensures res.Ok? && Sound(old(State())) ==> Lineage(State(), res.value.0, res.value.1, tokenId)
    {
      var read, target := ReadToken(tokenId, clock);
      if !read {
        return Err(CircuitOpen);
      }
      if target.None? {
        return Err(UnknownToken);
      }
      GuardQuiet(old(State()), clock);
      var chain := WalkUp(target.value, clock);
      var origin := FindOrigin(chain[0].id);
      if Sound(old(State())) {
        SameViewSound(old(State()), State());
        LineageFound(State(), chain, tokenId);
      }
      return Ok((chain, origin));
    }

    /** The loop over parents: the answered first read lets every later one through,
        and a parent link that leads nowhere ends it. */
    method WalkUp(target: Token, clock: int) returns (chain: seq<Token>)
      requires Wired() && Settled(breaker.View()) && Ends(tokenStore.tokens.at, target.id)
      requires target.id in tokenStore.tokens.at && tokenStore.tokens.at[target.id] == target
      modifies breaker, auditLog
      ensures Wired() && State() == old(State())
      ensures ChainTo(tokenStore.tokens.at, chain, target.id)
    {
      ghost var s := State();
      ghost var whole :| ChainTo(s.tokens.at, whole, target.id);
      GuardSettled(s, clock);
      chain := [target];
      var current := target;
      while Given(current.parentTokenId)
        invariant Wired() && State() == s
        invariant chain != [] && chain[0] == current && chain[|chain| - 1] == target
        invariant Linked(s.tokens.at, chain) && |chain| <= |whole|
        decreases |whole| - |chain|
      {
        var again, parent := ReadToken(current.parentTokenId.value, clock);
        if parent.None? {
          break;
        }
        OneStepUp(s.tokens.at, whole, chain, target.id);
        chain := [parent.value] + chain;
        current := parent.value;
      }
    }

    method FindOrigin(rootId: string) returns (origin: Option<Recorded>)
      ensures origin == OriginEntry(auditLog.Log(), rootId)
    {
      var trail := auditLog.Log();
      for i := 0 to |trail|
        invariant OriginEntry(trail[i..], rootId) == OriginEntry(trail, rootId)
      {
        assert trail[i..][1..] == trail[i + 1..];
        if trail[i].event.tokenId == Some(rootId) && trail[i].event.decision == RequestApproved {
          return Some(trail[i]);
        }
      }
      return None;
    }

    // ---- src/delegation.ts -------------------------------------------------------

    method RefuseDelegation(parentId: string, subject: string, reason: DelegationDenial, now: int)
      returns (d: Delegation)
      requires Wired()
      modifies auditLog
      ensures Wired()
      ensures (State(), d) == Steps.RefuseDelegation(old(State()), parentId, subject, reason, now)
    {
      Record(Event(Decision.Denied, "delegate", subject, Some(parentId), None, None, Some(DelegationText(reason)),
                   None), now);
      return Refused(reason);
    }

    method DelegateToken(
      parentId: string, secret: string, subject: string, scope: seq<string>, ttlSeconds: int, n: Nonce,
      now: int, clock: int) returns (d: Delegation)
      requires Wired()
      modifies tokenStore, breaker, auditLog
      ensures Wired()
      ensures (State(), d)
           == Steps.DelegateToken(old(State()), parentId, secret, subject, scope, ttlSeconds, n, now, clock)
    {
      var read, parent := ReadToken(parentId, clock);
      if !read {
        d := RefuseDelegation(parentId, subject, ParentStoreUnavailable, now);
        return;
      }
      if parent.None? {
        d := RefuseDelegation(parentId, subject, ParentInvalid, now);
        return;
      }
      if !VerifyPassword(secret, parent.value.secretHash) {
        d := RefuseDelegation(parentId, subject, WrongParentSecret, now);
        return;
      }
      var parentValid := parent.value.status == TokenStatus.Active && now < parent.value.expiresAt;
      if !parentValid {
        d := RefuseDelegation(parentId, subject, ParentInvalid, now);
        return;
      }
      if scope == [] {
        d := RefuseDelegation(parentId, subject, EmptyScope, now);
        return;
      }
      if !Within(scope, parent.value.scope) {
        d := RefuseDelegation(parentId, subject, ExceedsParentScope, now);
        return;
      }
      if Within(parent.value.scope, scope) {
        d := RefuseDelegation(parentId, subject, NotNarrower, now);
        return;
      }
      var issued := IssueToken(Issuance(subject, scope, ttlSeconds, Some(parentId), None), n, clock);
      if issued == Err(CircuitOpen) {
        d := RefuseDelegation(parentId, subject, ParentStoreUnavailable, now);
        return;
      }
      if issued.Err? {
        return Threw(issued.error);
      }
      Record(PlainEvent(Decision.Allowed, "delegate", subject).(tokenId := Some(issued.value.id)), now);
      return Delegated(issued.value, n.secret);
    }

    // ---- src/tokenRequest.ts -----------------------------------------------------

    method RequestToken(
      subject: string, scope: seq<string>, ttlSeconds: int, idempotencyKey: Option<string>, id: string,
      primaryApprover: Option<string>, now: int) returns (pending: Request)
      requires Wired()
      modifies requestStore, detector, auditLog
      ensures Wired()
      ensures (State(), pending)
           == Steps.RequestToken(old(State()), subject, scope, ttlSeconds, idempotencyKey, id, primaryApprover, now)
    {
      if Given(idempotencyKey) {
        var existing := requestStore.FindByIdempotencyKey(subject, idempotencyKey.value);
        if existing.Some? {
          return existing.value;
        }
      }
      pending := Request(id, subject, scope, ttlSeconds, RequestStatus.Pending, now, None, None, idempotencyKey,
                         primaryApprover);
      SaveRequest(pending);
      Record(PlainEvent(RequestSubmitted, "request_token", subject).(requestId := Some(id)), now);
      var signals := detector.Check(subject, scope, now);
      if signals != [] {
        Record(PlainEvent(AnomalyDetected, "anomaly_check", subject)
                 .(requestId := Some(id), reasonCode := Some(SignalsText(signals))), now);
      }
    }

    /** assertEligibleDecider; a rejected attempt is itself recorded. */
    method AssertEligibleDecider(pending: Request, approver: string, action: string, now: int) returns (ok: bool)
      requires Wired()
      modifies auditLog
      ensures Wired() && ok == Eligible(pending, approver)
      ensures State() == if ok then old(State()) else RejectDecision(old(State()), pending, approver, action, now)
    {
      if pending.assignedApprover == None || pending.assignedApprover == Some(approver) {
        return true;
      }
      Record(Event(RequestDecisionRejected, action, pending.subject, None, Some(pending.id), None,
                   Some(NOT_ASSIGNED), Some(approver)), now);
      return false;
    }

    method ApproveRequest(
      requestId: string, approver: string, policyId: Option<string>, n: Nonce, now: int, clock: int)
      returns (res: Result<Token, DomainError>)
      requires Wired()
      modifies requestStore, tokenStore, breaker, auditLog
      ensures Wired()
      ensures (State(), res) == Steps.ApproveRequest(old(State()), requestId, approver, policyId, n, now, clock)
    {
      var stored := requestStore.Get(requestId);
      if stored.None? {
        return Err(UnknownRequest);
      }
      if stored.value.status != RequestStatus.Pending {
        return Err(RequestNotPending);
      }
      var pending := stored.value;
      var eligible := AssertEligibleDecider(pending, approver, APPROVE, now);
      if !eligible {
        return Err(UnauthorizedDecider);
      }
      res := IssueToken(Issuance(pending.subject, pending.scope, pending.ttlSeconds, None, policyId), n, clock);
      if res.Err? {
        Record(Event(RequestDenied, APPROVE, pending.subject, None, Some(requestId), None,
                     Some(IssueErrorText(res.error)), Some(approver)), now);
        return;
      }
      SaveRequest(pending.(status := RequestStatus.Approved, tokenId := Some(res.value.id),
                           tokenSecret := Some(n.secret)));
      Record(Event(RequestApproved, APPROVE, pending.subject, Some(res.value.id), Some(requestId), policyId, None,
                   Some(approver)), now);
    }

    method DenyRequest(requestId: string, approver: string, reason: DenialReason, now: int)
      returns (res: Result<(), DomainError>)
      requires Wired()
      modifies requestStore, auditLog
      ensures Wired()
      ensures (State(), res) == Steps.DenyRequest(old(State()), requestId, approver, reason, now)
    {
      var stored := requestStore.Get(requestId);
      if stored.None? {
        return Err(UnknownRequest);
      }
      if stored.value.status != RequestStatus.Pending {
        return Err(RequestNotPending);
      }
      var pending := stored.value;
      var eligible := AssertEligibleDecider(pending, approver, DENY, now);
      if !eligible {
        return Err(UnauthorizedDecider);
      }
      SaveRequest(pending.(status := RequestStatus.Denied));
      Record(Event(RequestDenied, DENY, pending.subject, None, Some(requestId), None, Some(DenialText(reason)),
                   Some(approver)), now);
      return Ok(());
    }

    method CheckRequestTimeout(requestId: string, decisionWindowMs: int, backup: Option<string>, now: int)
      requires Wired()
      modifies requestStore, auditLog
      ensures Wired()
      ensures State() == Steps.CheckRequestTimeout(old(State()), requestId, decisionWindowMs, backup, now)
    {
      if !Given(backup) {
        return;
      }
      var stored := requestStore.Get(requestId);
      if stored.None? || stored.value.status != RequestStatus.Pending {
        return;
      }
      var pending := stored.value;
      if pending.assignedApprover == backup {
        return;
      }
      if now - pending.requestedAt < decisionWindowMs {
        return;
      }
      SaveRequest(pending.(assignedApprover := backup));
      Record(PlainEvent(RequestEscalated, "escalate_request", pending.subject)
               .(requestId := Some(pending.id), reasonCode := Some("decision_window_expired")), now);
    }

    method ClaimTokenSecret(requestId: string, subject: string, now: int)
      returns (res: Result<(string, string), DomainError>)
      requires Wired()
      modifies requestStore, auditLog
      ensures Wired()
      ensures (State(), res) == Steps.ClaimTokenSecret(old(State()), requestId, subject, now)
    {
      var stored := requestStore.Get(requestId);
      if stored.None? {
        return Err(UnknownRequest);
      }
      var pending := stored.value;
      if pending.subject != subject {
        Record(PlainEvent(Decision.Denied, "claim_token_secret", subject)
                 .(requestId := Some(requestId), reasonCode := Some(WRONG_SUBJECT)), now);
        return Err(WrongSubject);
      }
      if pending.status != RequestStatus.Approved || !Given(pending.tokenId) {
        return Err(RequestNotApproved);
      }
      if !Given(pending.tokenSecret) {
        return Err(SecretAlreadyClaimed);
      }
      SaveRequest(pending.(tokenSecret := None));
      Record(PlainEvent(TokenSecretClaimed, "claim_token_secret", subject)
               .(requestId := Some(requestId), tokenId := pending.tokenId), now);
      return Ok((pending.tokenId.value, pending.tokenSecret.value));
    }

    // ---- src/policy.ts -----------------------------------------------------------

    method CreatePolicy(
      name: string, allowedScope: seq<string>, maxTtlSeconds: int, author: string, id: string, now: int, clock: int)
      returns (res: Result<Policy, DomainError>)
      requires Wired()
      modifies policyStore, breaker, auditLog
      ensures Wired()
      ensures (State(), res)
           == Steps.CreatePolicy(old(State()), name, allowedScope, maxTtlSeconds, author, id, now, clock)
    {
      var policy := Policy(id, name, allowedScope, maxTtlSeconds, author, now, now);
      if !Acceptable(policy) {
        return Err(InvalidPolicy);
      }
      var saved := SavePolicy(policy, clock);
      if !saved {
        return Err(CircuitOpen);
      }
      Record(PlainEvent(PolicyCreated, "create_policy", author).(policyId := Some(id)), now);
      return Ok(policy);
    }

    method ModifyPolicy(policyId: string, changes: PolicyChanges, author: string, now: int, clock: int)
      returns (res: Result<Policy, DomainError>)
      requires Wired()
      modifies policyStore, breaker, auditLog
      ensures Wired()
      ensures (State(), res) == Steps.ModifyPolicy(old(State()), policyId, changes, author, now, clock)
    {
      var read, existing := ReadPolicy(policyId, clock);
      if !read {
        return Err(CircuitOpen);
      }
      if existing.None? {
        return Err(UnknownPolicy);
      }
      var updated := Changed(existing.value, changes, now);
      if !Acceptable(updated) {
        return Err(InvalidPolicy);
      }
      var saved := SavePolicy(updated, clock);
      if !saved {
        return Err(CircuitOpen);
      }
      Record(PlainEvent(PolicyModified, "modify_policy", author).(policyId := Some(policyId)), now);
      return Ok(updated);
    }

    method SimulateOutage(down: bool)
      requires Wired()
      modifies breaker
      ensures Wired()
      ensures State() == Steps.SimulateOutage(old(State()), down)
    {
      breaker.SimulateOutage(down);
    }

    // ---- The calls as steps of a run ---------------------------------------------

    method ServeOnRequests(step: Step)
      requires Wired() && Sound(State()) && OnRequests(step)
      modifies tokenStore, requestStore, policyStore, breaker, auditLog, detector
      ensures Wired() && State() == Apply(old(State()), step)
    {
      match step
      case DoRequestToken(subject, scope, ttl, key, id, primary, now) =>
        var r := RequestToken(subject, scope, ttl, key, id, primary, now);
      case DoCheckTimeout(id, window, backup, now) => CheckRequestTimeout(id, window, backup, now);
      case DoApprove(id, approver, policyId, n, now, clock) =>
        var r := ApproveRequest(id, approver, policyId, n, now, clock);
      case DoDeny(id, approver, reason, now) =>
        var r := DenyRequest(id, approver, reason, now);
      case DoClaim(id, subject, now) =>
        var r := ClaimTokenSecret(id, subject, now);
    }

    method ServeOther(step: Step)
      requires Wired() && Sound(State()) && !OnRequests(step) && !step.DoRestart?
      modifies tokenStore, requestStore, policyStore, breaker, auditLog, detector
      ensures Wired() && State() == Apply(old(State()), step)
    {
      match step
      case DoDelegate(parent, secret, subject, scope, ttl, n, now, clock) =>
        var d := DelegateToken(parent, secret, subject, scope, ttl, n, now, clock);
      case DoEnforce(id, secret, action, now, clock) =>
        var d := EnforceToken(id, secret, action, now, clock);
      case DoRevoke(id, reason, now, actor, clock) =>
        var r := RevokeToken(id, reason, now, actor, clock);
      case DoCreatePolicy(name, scope, max, author, id, now, clock) =>
        var r := CreatePolicy(name, scope, max, author, id, now, clock);
      case DoModifyPolicy(id, changes, author, now, clock) =>
        var r := ModifyPolicy(id, changes, author, now, clock);
      case DoSimulateOutage(down) => SimulateOutage(down);
    }

    method ServeOne(step: Step)
      requires Wired() && Sound(State()) && !step.DoRestart?
      modifies tokenStore, requestStore, policyStore, breaker, auditLog, detector
      ensures Wired() && State() == Apply(old(State()), step)
    {
      if OnRequests(step) {
        ServeOnRequests(step);
      } else {
        ServeOther(step);
      }
    }

    /** Calls served one after another take the objects through the run those
        calls make, keeping the invariant. */
    method Serve(steps: seq<Step>, ghost end: Sys)
      requires Wired() && Sound(State()) && Leads(State(), steps, end)
      requires forall i :: 0 <= i < |steps| ==> !steps[i].DoRestart?
      modifies tokenStore, requestStore, policyStore, breaker, auditLog, detector
      ensures Wired() && State() == end && Sound(end)
    {
      for i := 0 to |steps|
        invariant Wired() && Sound(State()) && Leads(State(), steps[i..], end)
      {
        NextCall(State(), steps, i, end);
        ServeOne(steps[i]);
      }
    }
  }

  lemma NextCall(s: Sys, steps: seq<Step>, i: nat, end: Sys)
    requires Sound(s) && i < |steps| && Leads(s, steps[i..], end)
    ensures Fresh(s, steps[i]) && Sound(Apply(s, steps[i])) && Leads(Apply(s, steps[i]), steps[i + 1..], end)
  {
    assert steps[i..][0] == steps[i] && steps[i..][1..] == steps[i + 1..];
    StepSound(s, steps[i]);
  }

  /** The files of a running process hold what Restart brings back, any secrets that
      were in them from the start apart. */
  lemma FilesRemember(a: Authority)
    requires a.Wired() && a.durable
    ensures a.requestStore.clean ==> SecretFree(a.Files().requests)
    ensures var (f, s) := (a.Files(), Steps.Restart(a.State()));
            && Rehydrated(Some(f.tokens), TokenKey) == s.tokens
            && MapValues(Rehydrated(Some(f.requests), RequestKey), WithoutSecret) == s.requests
            && (a.requestStore.clean ==> Rehydrated(Some(f.requests), RequestKey) == s.requests)
            && Rehydrated(Some(f.policies), PolicyKey) == s.policies
            && OnDisk(f.auditLog) == a.auditLog.entries
  {
    FileRemembers(a.requestStore);
    RestartForgets(a.State());
  }

  /** A process started on the files of another stands in the state Restart
      gives: the same tokens, policies and log, and the same requests without
      their secrets, unless secrets were put into the files from outside. Its audit
      chain is the same and goes on where it was. */
  method Restarted(running: Authority) returns (next: Authority)
    requires running.Wired() && running.durable
    ensures fresh(next) && next.Wired() && next.durable
    ensures next.requestStore.clean <==> SecretFree(running.Files().requests)
    ensures running.requestStore.clean ==> next.requestStore.clean
    ensures running.requestStore.clean ==> next.State() == Steps.Restart(running.State())
    ensures next.State().(requests := MapValues(next.requestStore.requests, WithoutSecret))
         == Steps.Restart(running.State())
    ensures next.auditLog.entries == running.auditLog.entries
  {
    FilesRemember(running);
    ghost var s := running.State();
    var b, c := running.breaker, running.detector.config;
    next := new Authority(
      running.auditLog.digest, Some(running.Files()),
      Settings(Some(b.failureThreshold), Some(b.cooldownMs), Some(running.auditLog.maxLinesPerSegment),
               Some(c.maxScopeBreadth), Some(c.velocityWindowMs), Some(c.maxRequestsPerWindow)));
  }
}
