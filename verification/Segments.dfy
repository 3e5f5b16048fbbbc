/** The calls that wait in their middle, cut where they wait. delegateToken and
    enforceToken wait for the check of a secret (src/delegation.ts:59,
    src/token.ts:205) and issueToken for the hash of a new one (src/token.ts:127),
    in a delegation and in an approval alike. */
module Segments {
  import opened Core
  import opened AuditLogs
  import opened Domain
  import opened Steps

  /** What a call remembers while it waits. */
  datatype Flight =
    | Verifying(parentId: string, parent: Token, secret: string, request: Issuance, now: int)
    | Hashing(request: Issuance, issuedAt: int, expiresAt: int, purpose: Purpose, now: int)
    | Checking(tokenId: string, token: Token, secret: string, action: string, now: int)

  datatype Purpose = Delegating(parentId: string) | Approving(requestId: string, pending: Request, approver: string)

  datatype Progress<R> = Answered(reply: R) | Waiting(flight: Flight)

  // ---- issueToken in two halves --------------------------------------------------

  /** Up to the hash: every check passed, and the expiry settled. */
  function Drafted(s: Sys, r: Issuance, clock: int): (Sys, Result<int, DomainError>) {
    if r.scope == [] then (s, Err(InvalidScope))
    else if r.ttlSeconds <= 0 then (s, Err(InvalidTtl))
    else
      var (s1, policyRead) := if Given(r.policyId) then Guard(s, clock) else (s, true);
      if !policyRead then (s1, Err(CircuitOpen))
      else
        var objection := if Given(r.policyId) then PolicyObjection(s1.policies.Get(r.policyId.value), r) else None;
        if objection.Some? then (s1, Err(objection.value))
        else
          var (s2, parentRead) := if Given(r.parentTokenId) then Guard(s1, clock) else (s1, true);
          if !parentRead then (s2, Err(CircuitOpen)) else (s2, Ok(ExpiryOf(s2, r, clock)))
  }

  /** After the hash: the save. */
  function Stored(s: Sys, t: Token, clock: int): (Sys, Result<Token, DomainError>) {
    var (s1, saved) := Guard(s, clock);
    if saved then (SaveToken(s1, t), Ok(t)) else (s1, Err(CircuitOpen))
  }

  /** With nothing in between, the halves are issueToken. */
  lemma IssueInHalves(s: Sys, r: Issuance, n: Nonce, clock: int)
    ensures var (s1, drafted) := Drafted(s, r, clock);
            IssueToken(s, r, n, clock)
            == match drafted
               case Err(e) => (s1, Err(e))
               case Ok(expiresAt) => Stored(s1, Minted(r, clock, expiresAt, n), clock)
  {
  }

  // ---- delegateToken in three parts ------------------------------------------------

  function BeginDelegation(
    s: Sys, parentId: string, secret: string, subject: string, scope: seq<string>, ttlSeconds: int, now: int,
    clock: int)
    : (Sys, Progress<Delegation>)
  {
    var (s1, read) := Guard(s, clock);
    if !read then
      var (s2, d) := RefuseDelegation(s1, parentId, subject, ParentStoreUnavailable, now);
      (s2, Answered(d))
    else if parentId !in s1.tokens.at then
      var (s2, d) := RefuseDelegation(s1, parentId, subject, ParentInvalid, now);
      (s2, Answered(d))
    else
      (s1, Waiting(Verifying(parentId, s1.tokens.at[parentId], secret,
                             Issuance(subject, scope, ttlSeconds, Some(parentId), None), now)))
  }

  /** The guards, on the parent as it was read before the wait. */
  function ContinueDelegation(s: Sys, f: Flight, clock: int): (Sys, Progress<Delegation>)
    requires f.Verifying?
  {
    var objection := DelegationObjection(f.parent, f.secret, f.request.scope, f.now);
    if objection.Some? then
      var (s1, d) := RefuseDelegation(s, f.parentId, f.request.subject, objection.value, f.now);
      (s1, Answered(d))
    else
      var (s1, drafted) := Drafted(s, f.request, clock);
      match drafted
      case Err(e) =>
        var (s2, d) := DelegationFailed(s1, f.parentId, f.request.subject, e, f.now);
        (s2, Answered(d))
      case Ok(expiresAt) => (s1, Waiting(Hashing(f.request, clock, expiresAt, Delegating(f.parentId), f.now)))
  }

  function DelegationFailed(s: Sys, parentId: string, subject: string, e: DomainError, now: int): (Sys, Delegation) {
    if e == CircuitOpen then RefuseDelegation(s, parentId, subject, ParentStoreUnavailable, now) else (s, Threw(e))
  }

  function FinishDelegation(s: Sys, f: Flight, n: Nonce, clock: int): (Sys, Delegation)
    requires f.Hashing? && f.purpose.Delegating?
  {
    var (s1, stored) := Stored(s, Minted(f.request, f.issuedAt, f.expiresAt, n), clock);
    match stored
    case Err(e) => DelegationFailed(s1, f.purpose.parentId, f.request.subject, e, f.now)
    case Ok(t) =>
      (Note(s1, PlainEvent(Decision.Allowed, "delegate", f.request.subject).(tokenId := Some(t.id)), f.now),
       Delegated(t, n.secret))
  }

  /** With nothing in between, the three parts are delegateToken. */
  lemma DelegateInParts(
    s: Sys, parentId: string, secret: string, subject: string, scope: seq<string>, ttlSeconds: int, n: Nonce,
    now: int, clock: int)
    ensures var (s1, begun) := BeginDelegation(s, parentId, secret, subject, scope, ttlSeconds, now, clock);
            DelegateToken(s, parentId, secret, subject, scope, ttlSeconds, n, now, clock)
            == match begun
               case Answered(d) => (s1, d)
               case Waiting(f) =>
                 (var (s2, continued) := ContinueDelegation(s1, f, clock);
                  match continued
                  case Answered(d) => (s2, d)
                  case Waiting(g) => FinishDelegation(s2, g, n, clock))
  {
    var (s1, begun) := BeginDelegation(s, parentId, secret, subject, scope, ttlSeconds, now, clock);
    if begun.Waiting? {
      IssueInHalves(s1, begun.flight.request, n, clock);
    }
  }

  // ---- approveRequest in two parts ---------------------------------------------------

  function ApprovalFailed(s: Sys, requestId: string, r: Request, approver: string, e: DomainError, now: int)
    : (Sys, Result<Token, DomainError>)
  {
    (Note(s, FailedApproval(requestId, r, approver, e), now), Err(e))
  }

  function BeginApproval(s: Sys, requestId: string, approver: string, policyId: Option<string>, now: int, clock: int)
    : (Sys, Progress<Result<Token, DomainError>>)
  {
    var found := PendingRequest(s, requestId);
    if found.Err? then (s, Answered(Err(found.error)))
    else
      var r := found.value;
      if !Eligible(r, approver) then
        (RejectDecision(s, r, approver, APPROVE, now), Answered(Err(UnauthorizedDecider)))
      else
        var issuance := Issuance(r.subject, r.scope, r.ttlSeconds, None, policyId);
        var (s1, drafted) := Drafted(s, issuance, clock);
        match drafted
        case Err(e) =>
          var (s2, reply) := ApprovalFailed(s1, requestId, r, approver, e, now);
          (s2, Answered(reply))
        case Ok(expiresAt) => (s1, Waiting(Hashing(issuance, clock, expiresAt, Approving(requestId, r, approver), now)))
  }

  function FinishApproval(s: Sys, f: Flight, n: Nonce, clock: int): (Sys, Result<Token, DomainError>)
    requires f.Hashing? && f.purpose.Approving?
  {
    var (requestId, r, approver) := (f.purpose.requestId, f.purpose.pending, f.purpose.approver);
    var (s1, stored) := Stored(s, Minted(f.request, f.issuedAt, f.expiresAt, n), clock);
    match stored
    case Err(e) => ApprovalFailed(s1, requestId, r, approver, e, f.now)
    case Ok(t) =>
      (Note(SaveRequest(s1, ApprovedAs(r, t, n.secret)), ApprovalEvent(requestId, r, t, f.request.policyId, approver),
            f.now),
       Ok(t))
  }

  /** With nothing in between, the two parts are approveRequest. */
  lemma ApproveInParts(
    s: Sys, requestId: string, approver: string, policyId: Option<string>, n: Nonce, now: int, clock: int)
    ensures var (s1, begun) := BeginApproval(s, requestId, approver, policyId, now, clock);
            ApproveRequest(s, requestId, approver, policyId, n, now, clock)
            == match begun
               case Answered(reply) => (s1, reply)
               case Waiting(f) => FinishApproval(s1, f, n, clock)
  {
    if requestId in s.requests.at {
      var r := s.requests.at[requestId];
      IssueInHalves(s, Issuance(r.subject, r.scope, r.ttlSeconds, None, policyId), n, clock);
    }
  }

  // ---- enforceToken in two parts -------------------------------------------------------

  function EnforcementLogged(s: Sys, tokenId: string, subject: string, action: string, d: Enforcement, now: int)
    : (Sys, Enforcement)
  {
    (Note(s, EnforcementEvent(tokenId, subject, action, d), now), d)
  }

  function BeginEnforcement(s: Sys, tokenId: string, secret: string, action: string, now: int, clock: int)
    : (Sys, Progress<Enforcement>)
  {
    var (s1, read) := Guard(s, clock);
    if !read then
      var (s2, d) := EnforcementLogged(s1, tokenId, "unknown", action, Deny(StoreUnavailable), now);
      (s2, Answered(d))
    else if tokenId !in s1.tokens.at then
      var (s2, d) := EnforcementLogged(s1, tokenId, "unknown", action, Deny(NoSuchToken), now);
      (s2, Answered(d))
    else (s1, Waiting(Checking(tokenId, s1.tokens.at[tokenId], secret, action, now)))
  }

  /** What a record deserves, once it has been read. */
  function Judged(t: Token, secret: string, action: string, now: int): Enforcement {
    if VerifyPassword(secret, t.secretHash) then Decide(t, action, now) else Deny(InvalidCredential)
  }

  /** The decision, on the record as it was read before the wait. */
  function FinishEnforcement(s: Sys, f: Flight): (Sys, Enforcement)
    requires f.Checking?
  {
    EnforcementLogged(s, f.tokenId, f.token.subject, f.action, Judged(f.token, f.secret, f.action, f.now), f.now)
  }

  /** With nothing in between, the two parts are enforceToken. */
  lemma EnforceInParts(s: Sys, tokenId: string, secret: string, action: string, now: int, clock: int)
    ensures var (s1, begun) := BeginEnforcement(s, tokenId, secret, action, now, clock);
            EnforceToken(s, tokenId, secret, action, now, clock)
            == match begun
               case Answered(d) => (s1, d)
               case Waiting(f) => FinishEnforcement(s1, f)
  {
  }
}
