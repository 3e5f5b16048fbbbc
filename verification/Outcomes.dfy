/** What every call answers, writes and logs, told on the fields of the records it
    reads: which of its refusals is given, in the order in which they are checked. */
module Outcomes {
  import opened Core
  import opened AuditLogs
  import opened CircuitBreakers
  import opened AnomalyDetectors
  import opened Domain
  import opened Forest
  import opened Steps
  import opened Revocation
  import opened Runs
  import opened Segments
  import opened Lifecycle

  /** A set of permissions asked for and one that bounds it, as sets. */
  lemma WithinIsSubset(scope: seq<string>, allowed: seq<string>)
    ensures Within(scope, allowed) <==> ScopeSet(scope) <= ScopeSet(allowed)
  {
    if ScopeSet(scope) <= ScopeSet(allowed) {
      forall a | a in scope
        ensures a in allowed
      {
        assert a in ScopeSet(scope);
      }
    }
  }

  // ---- The store behind its breaker ------------------------------------------------

  /** The breaker lets the attempt through. */
  ghost predicate LetsThrough(b: Breaker, clock: int) {
    b.state == Open ==> clock - b.openedAt >= b.cooldownMs
  }

  function CircuitEntry(decision: Decision, reason: string, clock: int): Recorded {
    Recorded(Event(decision, "policy_token_store", "system", None, None, None, Some(reason), None), clock)
  }

  /** The store answers exactly when the breaker lets the call through and no outage
      is set; each opening and each closing is logged, with its reason. */
  lemma StoreAnswers(s: Sys, clock: int)
    requires Resting(s.breaker)
    ensures var (s', ok) := Guard(s, clock);
            var b := s.breaker;
            var through, again := LetsThrough(b, clock), b.consecutiveFailures + 1;
            && (ok <==> through && !b.simulatingOutage)
            && s' == s.(breaker := s'.breaker, log := s'.log)
            && s'.log == s.log + (
                 if !through then []
                 else if ok then
                   if b.state == Open then [CircuitEntry(CircuitClosed, "probe_succeeded", clock)] else []
                 else if b.state == Open then [CircuitEntry(CircuitOpened, "probe_failed", clock)]
                 else if again >= Max(1, b.failureThreshold)
                 then [CircuitEntry(CircuitOpened, "failure_threshold_reached", clock)]
                 else [])
  {
    AttemptOutcome(s.breaker, false, clock);
  }

  // ---- enforceToken --------------------------------------------------------------------

  /** Possession first, then status, lifetime and scope. */
  ghost predicate Deserves(t: Token, secret: string, action: string, now: int, d: Enforcement) {
    var possessed := t.secretHash.secret == secret;
    var alive := possessed && t.status == TokenStatus.Active;
    && (d == Deny(InvalidCredential) <==> !possessed)
    && (d == Deny(TokenRevoked) <==> possessed && t.status == TokenStatus.Revoked)
    && (d == Deny(Expired) <==> alive && now >= t.expiresAt)
    && (d == Deny(OutOfScope) <==> alive && now < t.expiresAt && action !in t.scope)
    && (d == Allow <==> alive && now < t.expiresAt && action in t.scope)
  }

  ghost predicate TellsEnforcement(e: Event, d: Enforcement, id: string, subject: string, action: string) {
    && e.action == action && e.subject == subject && e.tokenId == Some(id)
    && e.requestId == None && e.policyId == None && e.actor == None
    && match d
       case Allow => e.decision == Decision.Allowed && e.reasonCode == None
       case Deny(reason) =>
         && e.decision == Decision.Denied
         && e.reasonCode == Some(match reason
                                 case TokenRevoked => "revoked"
                                 case Expired => "expired"
                                 case OutOfScope => "out_of_scope"
                                 case NoSuchToken => "unknown_token"
                                 case StoreUnavailable => "store_unavailable"
                                 case InvalidCredential => "invalid_credential")
  }

  /** One more entry, and nothing else changed. */
  ghost predicate OnlyLogs(s: Sys, s': Sys, now: int) {
    s' == s.(log := s'.log) && |s'.log| == |s.log| + 1 && s.log < s'.log && s'.log[|s.log|].at == now
  }

  lemma EnforcementOutcome(s: Sys, id: string, secret: string, action: string, now: int, clock: int)
    ensures var (s', d) := EnforceToken(s, id, secret, action, now, clock);
            var (s1, read) := Guard(s, clock);
            var known := read && id in s.tokens.at;
            && (d == Deny(StoreUnavailable) <==> !read)
            && (d == Deny(NoSuchToken) <==> read && id !in s.tokens.at)
            && (known ==> Deserves(s.tokens.at[id], secret, action, now, d))
            && OnlyLogs(s1, s', now)
            && TellsEnforcement(s'.log[|s1.log|].event, d, id, if known then s.tokens.at[id].subject else "unknown",
                                action)
  {
    GuardQuiet(s, clock);
  }

  /** The same of a check that waited, on the record as it was read. */
  lemma CheckOutcome(s: Sys, f: Flight)
    requires f.Checking?
    ensures var (s', d) := FinishEnforcement(s, f);
            && Deserves(f.token, f.secret, f.action, f.now, d)
            && OnlyLogs(s, s', f.now)
            && TellsEnforcement(s'.log[|s.log|].event, d, f.tokenId, f.token.subject, f.action)
  {
  }

  /** Two states that a caller without the secret is not to tell apart: the token
      may differ in everything but its id and subject. */
  ghost predicate LooksAlike(s: Sys, u: Sys, id: string, secret: string) {
    && u.breaker == s.breaker
    && (id in s.tokens.at <==> id in u.tokens.at)
    && (id in s.tokens.at ==>
          && s.tokens.at[id].subject == u.tokens.at[id].subject
          && s.tokens.at[id].secretHash.secret != secret && u.tokens.at[id].secretHash.secret != secret)
  }

  /** The entries of s' that s does not have. */
  function Added(s: Sys, s': Sys): seq<Recorded> {
    if |s.log| <= |s'.log| then s'.log[|s.log|..] else []
  }

  lemma AnswersAlike(s: Sys, u: Sys, clock: int)
    requires u.breaker == s.breaker
    ensures var (s1, read) := Guard(s, clock);
            var (u1, again) := Guard(u, clock);
            && again == read && u1.breaker == s1.breaker && Added(u, u1) == Added(s, s1)
            && s.log <= s1.log && u.log <= u1.log && s1.tokens == s.tokens && u1.tokens == u.tokens
  {
  }

  lemma AddedOneMore(s: Sys, s1: Sys, s2: Sys)
    requires s.log <= s1.log && |s2.log| == |s1.log| + 1 && s1.log <= s2.log
    ensures Added(s, s2) == Added(s, s1) + [s2.log[|s1.log|]]
  {
  }

  lemma EnforcedWithoutSecret(s: Sys, id: string, secret: string, action: string, now: int, clock: int)
    requires id in s.tokens.at ==> s.tokens.at[id].secretHash.secret != secret
    ensures var (s1, read) := Guard(s, clock);
            var known := read && id in s.tokens.at;
            var d := Deny(if !read then StoreUnavailable else if known then InvalidCredential else NoSuchToken);
            var subject := if known then s.tokens.at[id].subject else "unknown";
            EnforceToken(s, id, secret, action, now, clock)
            == (s1.(log := s1.log + [Recorded(EnforcementEvent(id, subject, action, d), now)]), d)
  {
    GuardQuiet(s, clock);
  }

  /** Without the secret nothing is learnt of a token, be it revoked, expired or
      anything else: neither the answer nor what is logged depends on it. */
  lemma EnforcementDisclosesNothing(
    s: Sys, u: Sys, id: string, secret: string, action: string, now: int, clock: int)
    requires LooksAlike(s, u, id, secret)
    ensures var (s', d) := EnforceToken(s, id, secret, action, now, clock);
            var (u', e) := EnforceToken(u, id, secret, action, now, clock);
            d == e && Added(s, s') == Added(u, u') && s'.breaker == u'.breaker
  {
    EnforcedWithoutSecret(s, id, secret, action, now, clock);
    EnforcedWithoutSecret(u, id, secret, action, now, clock);
    AnswersAlike(s, u, clock);
    AddedOneMore(s, Guard(s, clock).0, EnforceToken(s, id, secret, action, now, clock).0);
    AddedOneMore(u, Guard(u, clock).0, EnforceToken(u, id, secret, action, now, clock).0);
  }

  // ---- issueToken ------------------------------------------------------------------------

  /** Which error issuance gives, in the order of its checks, and that it then saves
      nothing. */
  lemma IssuanceErrors(s: Sys, r: Issuance, n: Nonce, clock: int)
    ensures var (s', res) := IssueToken(s, r, n, clock);
            var (s1, answered) := Guard(s, clock);
            var wellFormed := r.scope != [] && r.ttlSeconds > 0;
            var named := r.policyId.Some? && r.policyId.value != "";
            var onFile := named && r.policyId.value in s.policies.at;
            var inScope := onFile ==> ScopeSet(r.scope) <= ScopeSet(s.policies.at[r.policyId.value].allowedScope);
            && (res == Err(InvalidScope) <==> r.scope == [])
            && (res == Err(InvalidTtl) <==> r.scope != [] && r.ttlSeconds <= 0)
            && (res == Err(CircuitOpen) <==> wellFormed && !answered)
            && (res == Err(PolicyNotFound) <==> wellFormed && answered && named && !onFile)
            && (res == Err(ScopeExceedsPolicy) <==> wellFormed && answered && onFile && !inScope)
            && (res == Err(TtlExceedsPolicy) <==>
                  && wellFormed && answered && onFile && inScope
                  && r.ttlSeconds > s.policies.at[r.policyId.value].maxTtlSeconds)
            && (res.Err? ==> res.error in {InvalidScope, InvalidTtl, CircuitOpen, PolicyNotFound, ScopeExceedsPolicy,
                                           TtlExceedsPolicy})
            && (res.Err? ==> s' == if wellFormed then s1 else s)
  {
    GuardQuiet(s, clock);
    if Given(r.policyId) && r.policyId.value in s.policies.at {
      WithinIsSubset(r.scope, s.policies.at[r.policyId.value].allowedScope);
    }
    if Guard(s, clock).1 {
      GuardSettled(Guard(s, clock).0, clock);
    }
  }

  // ---- delegateToken -----------------------------------------------------------------------

  ghost predicate TellsRefusal(e: Event, reason: DelegationDenial, parent: string, subject: string) {
    e == Event(Decision.Denied, "delegate", subject, Some(parent), None, None,
               Some(match reason
                    case ParentInvalid => "parent_invalid"
                    case EmptyScope => "empty_scope"
                    case ExceedsParentScope => "exceeds_parent_scope"
                    case NotNarrower => "not_narrower"
                    case ParentStoreUnavailable => "store_unavailable"
                    case WrongParentSecret => "invalid_credential"), None)
  }

  /** Which objection a parent that has been read gives rise to: possession first. */
  ghost predicate Objects(p: Token, secret: string, scope: seq<string>, now: int, o: Option<DelegationDenial>) {
    var possessed := p.secretHash.secret == secret;
    var valid := possessed && p.status == TokenStatus.Active && now < p.expiresAt;
    && (o == Some(WrongParentSecret) <==> !possessed)
    && (o == Some(ParentInvalid) <==> possessed && !valid)
    && (o == Some(EmptyScope) <==> valid && scope == [])
    && (o == Some(ExceedsParentScope) <==> valid && scope != [] && !(ScopeSet(scope) <= ScopeSet(p.scope)))
    && (o == Some(NotNarrower) <==> valid && scope != [] && ScopeSet(scope) == ScopeSet(p.scope))
    && (o == None <==> valid && scope != [] && ScopeSet(scope) < ScopeSet(p.scope))
  }

  lemma ObjectionIs(p: Token, secret: string, scope: seq<string>, now: int)
    ensures Objects(p, secret, scope, now, DelegationObjection(p, secret, scope, now))
  {
    WithinIsSubset(scope, p.scope);
    WithinIsSubset(p.scope, scope);
  }

  /** The child, to the last field. */
  ghost predicate IsChild(
    t: Token, n: Nonce, parent: string, p: Token, subject: string, scope: seq<string>, ttl: int, clock: int)
  {
    t == Token(n.id, subject, scope, clock, Min(clock + ttl * 1000, p.expiresAt), TokenStatus.Active, Some(parent),
               None, None, SecretHash(n.salt, n.secret))
  }

  function Objection(d: Delegation): Option<DelegationDenial> {
    if d.Refused? && d.reason != ParentStoreUnavailable then Some(d.reason) else None
  }

  /** Which answer delegateToken gives, and what it leaves behind. Once the parent
      has been read the store cannot fail the rest of the call, and the one error
      that escapes is a lifetime that is not positive, for a delegation that is
      otherwise in order. */
  lemma DelegationOutcome(
    s: Sys, parent: string, secret: string, subject: string, scope: seq<string>, ttl: int, n: Nonce, now: int,
    clock: int)
    requires "" !in s.tokens.at
    ensures var (s', d) := DelegateToken(s, parent, secret, subject, scope, ttl, n, now, clock);
            var (s1, read) := Guard(s, clock);
            && (d == Refused(ParentStoreUnavailable) <==> !read)
            && (read && parent !in s.tokens.at ==> d == Refused(ParentInvalid))
            && (read && parent in s.tokens.at ==>
                  && Objects(s.tokens.at[parent], secret, scope, now, Objection(d))
                  && (Objection(d) == None ==> if ttl > 0 then d.Delegated? else d == Threw(InvalidTtl)))
            && (d.Refused? ==> OnlyLogs(s1, s', now) && TellsRefusal(s'.log[|s1.log|].event, d.reason, parent, subject))
            && (d.Threw? ==> s' == s1)
            && (d.Delegated? ==>
                  && IsChild(d.token, n, parent, s.tokens.at[parent], subject, scope, ttl, clock)
                  && d.secret == n.secret
                  && s' == s1.(tokens := s.tokens.Set(n.id, d.token),
                               log := s1.log + [ChildEntry(subject, n.id, now)]))
  {
    GuardQuiet(s, clock);
    var (s1, read) := Guard(s, clock);
    if read && parent in s.tokens.at {
      GuardSettled(s1, clock);
      ObjectionIs(s.tokens.at[parent], secret, scope, now);
    }
  }

  function ChildEntry(subject: string, id: string, now: int): Recorded {
    Recorded(Event(Decision.Allowed, "delegate", subject, Some(id), None, None, None, None), now)
  }

  /** So of a parent nothing is learnt without its secret. */
  lemma DelegationDisclosesNothing(
    s: Sys, u: Sys, parent: string, secret: string, subject: string, scope: seq<string>, ttl: int, n: Nonce, now: int,
    clock: int)
    requires LooksAlike(s, u, parent, secret)
    ensures var (s', d) := DelegateToken(s, parent, secret, subject, scope, ttl, n, now, clock);
            var (u', e) := DelegateToken(u, parent, secret, subject, scope, ttl, n, now, clock);
            d == e && !d.Delegated? && Added(s, s') == Added(u, u')
  {
    AnswersAlike(s, u, clock);
    AddedOneMore(s, Guard(s, clock).0, DelegateToken(s, parent, secret, subject, scope, ttl, n, now, clock).0);
    AddedOneMore(u, Guard(u, clock).0, DelegateToken(u, parent, secret, subject, scope, ttl, n, now, clock).0);
  }

  /** The part after the wait for the check of the secret, on the parent as it was
      read before: whatever ran in between, it throws exactly for a lifetime that is
      all that is wrong. */
  lemma ResumedDelegation(s: Sys, f: Flight, clock: int)
    requires f.Verifying? && f.request.parentTokenId == Some(f.parentId) && f.request.policyId == None
    requires f.parentId != ""
    ensures var (s', p) := ContinueDelegation(s, f, clock);
            var (s1, answered) := Guard(s, clock);
            var o := if p.Answered? then Objection(p.reply) else None;
            && Objects(f.parent, f.secret, f.request.scope, f.now, o)
            && (o.Some? ==> OnlyLogs(s, s', f.now)
                            && TellsRefusal(s'.log[|s.log|].event, o.value, f.parentId, f.request.subject))
            && (o.None? ==>
                  if f.request.ttlSeconds <= 0 then p == Answered(Threw(InvalidTtl)) && s' == s
                  else if answered then p.Waiting? && s' == s1
                  else && p == Answered(Refused(ParentStoreUnavailable)) && OnlyLogs(s1, s', f.now)
                       && TellsRefusal(s'.log[|s1.log|].event, ParentStoreUnavailable, f.parentId, f.request.subject))
  {
    ObjectionIs(f.parent, f.secret, f.request.scope, f.now);
  }

  /** After the hash only the store can refuse, and it does so without a throw. */
  lemma FinishedDelegation(s: Sys, f: Flight, n: Nonce, clock: int)
    requires f.Hashing? && f.purpose.Delegating?
    ensures var (s', d) := FinishDelegation(s, f, n, clock);
            var (s1, answered) := Guard(s, clock);
            if answered then
              && d.Delegated? && d.secret == n.secret
              && d.token == Token(n.id, f.request.subject, f.request.scope, f.issuedAt, f.expiresAt, TokenStatus.Active,
                                  f.request.parentTokenId, None, None, SecretHash(n.salt, n.secret))
              && s' == s1.(tokens := s1.tokens.Set(n.id, d.token),
                           log := s1.log + [ChildEntry(f.request.subject, n.id, f.now)])
            else
              && d == Refused(ParentStoreUnavailable) && OnlyLogs(s1, s', f.now)
              && TellsRefusal(s'.log[|s1.log|].event, ParentStoreUnavailable, f.purpose.parentId, f.request.subject)
  {
  }

  // ---- revokeToken -----------------------------------------------------------------------------

  /** A record once revoked: the rest of it is as it was. */
  ghost predicate IsRevoked(t: Token, before: Token, reason: RevocationReason, now: int) {
    t == Token(before.id, before.subject, before.scope, before.issuedAt, before.expiresAt, TokenStatus.Revoked,
               before.parentTokenId, Some(now), Some(reason), before.secretHash)
  }

  ghost predicate TellsRevocation(e: Event, t: Token, reason: RevocationReason, actor: Option<string>) {
    e == Event(Decision.Revoked, "revoke", t.subject, Some(t.id), None, None,
               Some(match reason
                    case Compromised => "compromised"
                    case NoLongerNeeded => "no_longer_needed"
                    case PolicyViolation => "policy_violation"
                    case Superseded => "superseded"
                    case ParentRevoked => "parent_revoked"), actor)
  }

  /** The records revokeToken leaves: the target with the reason given, whatever it
      reaches with parent_revoked, every other as it was. */
  ghost predicate LeavesRecords(s: Sys, s': Sys, target: string, reason: RevocationReason, now: int)
    requires Forested(s.tokens.at)
  {
    forall d :: d in s.tokens.at ==>
      && d in s'.tokens.at
      && if d == target then IsRevoked(s'.tokens.at[d], s.tokens.at[d], reason, now)
         else if Reaches(s.tokens.at, target, d) then IsRevoked(s'.tokens.at[d], s.tokens.at[d], ParentRevoked, now)
         else s'.tokens.at[d] == s.tokens.at[d]
  }

  /** The entries it adds: the target's first, then those of what it reached. */
  ghost predicate LeavesEntries(
    s: Sys, s': Sys, target: string, reason: RevocationReason, now: int, actor: Option<string>)
    requires Forested(s.tokens.at)
  {
    && target in s.tokens.at && s.log < s'.log && s'.log[|s.log|].at == now
    && TellsRevocation(s'.log[|s.log|].event, s.tokens.at[target], reason, actor)
    && forall i :: |s.log| < i < |s'.log| ==> TellsReached(s, target, s'.log[i], now, actor)
  }

  lemma EffectRecords(s: Sys, s': Sys, target: string, reason: RevocationReason, now: int, actor: Option<string>)
    requires Forested(s.tokens.at) && RevocationEffect(s, s', target, reason, now, actor)
    ensures LeavesRecords(s, s', target, reason, now)
  {
    NotReachedFromItself(s.tokens.at, target);
  }

  lemma EffectEntries(s: Sys, s': Sys, target: string, reason: RevocationReason, now: int, actor: Option<string>)
    requires Forested(s.tokens.at) && RevocationEffect(s, s', target, reason, now, actor)
    ensures LeavesEntries(s, s', target, reason, now, actor)
  {
    var first := Recorded(RevokeEvent(s.tokens.at[target], reason, actor), now);
    assert s'.log[|s.log|] == (s.log + [first])[|s.log|];
    forall i | |s.log| < i < |s'.log|
      ensures TellsReached(s, target, s'.log[i], now, actor)
    {
      var rest := s'.log[|s.log| + 1..];
      assert s'.log[i] == rest[i - |s.log| - 1];
    }
  }

  lemma RevocationReply(
    s: Sys, target: string, reason: RevocationReason, now: int, actor: Option<string>, clock: int)
    requires Stores(s) && Forested(s.tokens.at)
    ensures var res := RevokeToken(s, target, reason, now, actor, clock).1;
            && (res.Err? ==> res.error in {CircuitOpen, UnknownToken})
            && (res.Ok? ==> target in s.tokens.at && IsRevoked(res.value, s.tokens.at[target], reason, now))
  {
    GuardQuiet(s, clock);
  }

  /** What revokeToken answers, the records it leaves and the entries it adds; the
      reply is the target's record as it now is. */
  lemma RevocationOutcome(
    s: Sys, target: string, reason: RevocationReason, now: int, actor: Option<string>, clock: int)
    requires Stores(s) && Forested(s.tokens.at)
    ensures var (s', res) := RevokeToken(s, target, reason, now, actor, clock);
            var (s1, read) := Guard(s, clock);
            && (res == Err(CircuitOpen) <==> !read)
            && (res == Err(UnknownToken) <==> read && target !in s.tokens.at)
            && (res.Err? ==> s' == s1)
            && (res.Ok? ==>
                  && target in s'.tokens.at && res.value == s'.tokens.at[target]
                  && s1.tokens == s.tokens && Forested(s1.tokens.at)
                  && LeavesRecords(s1, s', target, reason, now)
                  && LeavesEntries(s1, s', target, reason, now, actor))
  {
    RevocationIsAtomic(s, target, reason, now, actor, clock);
    RevokeTokenEffect(s, target, reason, now, actor, clock);
    RevocationReply(s, target, reason, now, actor, clock);
    var (s', res) := RevokeToken(s, target, reason, now, actor, clock);
    if res.Ok? {
      EffectRecords(Guard(s, clock).0, s', target, reason, now, actor);
      EffectEntries(Guard(s, clock).0, s', target, reason, now, actor);
    }
  }

  ghost predicate TellsReached(s: Sys, target: string, r: Recorded, now: int, actor: Option<string>)
    requires Forested(s.tokens.at)
  {
    && r.at == now && r.event.tokenId.Some? && r.event.tokenId.value in s.tokens.at
    && Reaches(s.tokens.at, target, r.event.tokenId.value)
    && TellsRevocation(r.event, s.tokens.at[r.event.tokenId.value], ParentRevoked, actor)
  }

  // ---- requestToken ------------------------------------------------------------------------------

  /** What a submission that is filed leaves behind: the record, one run of the
      screening, and one entry or two. */
  lemma FilingOutcome(
    s: Sys, subject: string, scope: seq<string>, ttl: int, key: Option<string>, id: string, primary: Option<string>,
    now: int)
    requires Sound(s) && !OnFile(s.requests.at, subject, key)
    ensures var (s', r) := RequestToken(s, subject, scope, ttl, key, id, primary, now);
            var (screened, signals) := Checked(s.detector, subject, scope, now);
            var submitted := Event(RequestSubmitted, "request_token", subject, None, Some(id), None, None, None);
            && r == Request(id, subject, scope, ttl, RequestStatus.Pending, now, None, None, key, primary)
            && s' == s.(requests := s.requests.Set(id, r), detector := screened, log := s'.log)
            && s'.log == s.log + [Recorded(submitted, now)]
                         + if signals == [] then [] else [Recorded(AnomalyEvent(subject, id, signals), now)]
  {
    if Given(key) {
      FoundIffOnFile(s, subject, key);
    }
    FilingUnfolds(s, subject, scope, ttl, key, id, primary, now);
    assert s.log + [] == s.log;
  }

  lemma FilingUnfolds(
    s: Sys, subject: string, scope: seq<string>, ttl: int, key: Option<string>, id: string, primary: Option<string>,
    now: int)
    requires Stores(s)
    requires Given(key) ==> FirstWithKey(s.requests.Values(), subject, key.value) == None
    ensures var r := Request(id, subject, scope, ttl, RequestStatus.Pending, now, None, None, key, primary);
            var (screened, signals) := Checked(s.detector, subject, scope, now);
            var submitted := Event(RequestSubmitted, "request_token", subject, None, Some(id), None, None, None);
            var filed := Note(SaveRequest(s, r), submitted, now).(detector := screened);
            RequestToken(s, subject, scope, ttl, key, id, primary, now)
            == (if signals == [] then filed else Note(filed, AnomalyEvent(subject, id, signals), now), r)
  {
    SignalsAre(s.detector, subject, scope, now);
  }

  function AnomalyEvent(subject: string, id: string, signals: seq<Signal>): Event {
    var broad, fast := Signal.ScopeTooBroad in signals, HighVelocity in signals;
    Event(AnomalyDetected, "anomaly_check", subject, None, Some(id), None,
          Some(if broad && fast then "scope_too_broad,high_velocity"
               else if fast then "high_velocity" else "scope_too_broad"), None)
  }

  lemma SignalsAre(d: Detector, subject: string, scope: seq<string>, now: int)
    ensures var signals := Checked(d, subject, scope, now).1;
            || signals == [] || signals == [Signal.ScopeTooBroad] || signals == [HighVelocity]
            || signals == [Signal.ScopeTooBroad, HighVelocity]
  {
    assert Signals(true, false) == [Signal.ScopeTooBroad] && Signals(false, true) == [HighVelocity];
  }

  // ---- Decisions -----------------------------------------------------------------------------------

  /** Assigned to no one, or to them. */
  ghost predicate MayDecide(r: Request, who: string) {
    r.assignedApprover.Some? ==> r.assignedApprover.value == who
  }

  ghost predicate TellsRejection(e: Event, action: string, id: string, subject: string, who: string) {
    e == Event(RequestDecisionRejected, action, subject, None, Some(id), None, Some("not_assigned_approver"), Some(who))
  }

  /** What an attempt to decide comes to before it is tried at all. */
  ghost predicate Unadmitted(s: Sys, s': Sys, id: string, who: string, action: string, error: DomainError, now: int) {
    && (error == UnknownRequest ==> id !in s.requests.at && s' == s)
    && (error == RequestNotPending ==>
          id in s.requests.at && s.requests.at[id].status != RequestStatus.Pending && s' == s)
    && (error == UnauthorizedDecider ==>
          && id in s.requests.at && s.requests.at[id].status == RequestStatus.Pending
          && !MayDecide(s.requests.at[id], who) && OnlyLogs(s, s', now)
          && TellsRejection(s'.log[|s.log|].event, action, id, s.requests.at[id].subject, who))
  }

  ghost predicate Admitted(s: Sys, id: string, who: string) {
    && id in s.requests.at && s.requests.at[id].status == RequestStatus.Pending && MayDecide(s.requests.at[id], who)
  }

  lemma DenialOutcome(s: Sys, id: string, who: string, reason: DenialReason, now: int)
    requires id in s.requests.at ==> s.requests.at[id].id == id
    ensures var (s', res) := DenyRequest(s, id, who, reason, now);
            && (res.Ok? <==> Admitted(s, id, who))
            && (res.Err? ==> res.error in {UnknownRequest, RequestNotPending, UnauthorizedDecider}
                             && Unadmitted(s, s', id, who, "deny_request", res.error, now))
            && (res.Ok? ==>
                  var r := s.requests.at[id];
                  && s' == s.(requests := s.requests.Set(id, r.(status := RequestStatus.Denied)),
                              log := s.log + [Recorded(DeniedEvent(id, r.subject, who, reason), now)]))
  {
  }

  function DeniedEvent(id: string, subject: string, who: string, reason: DenialReason): Event {
    Event(RequestDenied, "deny_request", subject, None, Some(id), None,
          Some(match reason
               case ScopeTooBroad => "scope_too_broad"
               case ViolatesPolicy => "policy_violation"
               case UnverifiedSubject => "unverified_subject"
               case DuplicateRequest => "duplicate_request"
               case Other => "other"), Some(who))
  }

  ghost predicate TellsFailure(e: Event, id: string, subject: string, who: string, error: DomainError) {
    && e.decision == RequestDenied && e.action == "approve_request" && e.subject == subject
    && e.requestId == Some(id) && e.tokenId == None && e.policyId == None && e.actor == Some(who)
    && e.reasonCode == Some(match error
                            case InvalidScope => "scope must include at least one permission"
                            case InvalidTtl => "ttlSeconds must be positive"
                            case PolicyNotFound => "unknown policy"
                            case ScopeExceedsPolicy => "requested scope exceeds policy"
                            case TtlExceedsPolicy => "requested ttlSeconds exceeds policy"
                            case _ => "circuit breaker is open")
  }

  /** An approval that is admitted is as good as its issuance: it fails with the same
      error, one entry telling which, or saves the root, the request with its token
      and secret, and one entry. */
  lemma ApprovalInFull(
    s: Sys, id: string, who: string, policyId: Option<string>, n: Nonce, now: int, clock: int)
    requires id in s.requests.at ==> s.requests.at[id].id == id
    ensures var (s', res) := ApproveRequest(s, id, who, policyId, n, now, clock);
            if !Admitted(s, id, who) then
              && res.Err? && res.error in {UnknownRequest, RequestNotPending, UnauthorizedDecider}
              && Unadmitted(s, s', id, who, "approve_request", res.error, now)
            else
              var r := s.requests.at[id];
              var (s1, issued) := IssueToken(s, Issuance(r.subject, r.scope, r.ttlSeconds, None, policyId), n, clock);
              && res == issued
              && (res.Err? ==> OnlyLogs(s1, s', now)
                               && TellsFailure(s'.log[|s1.log|].event, id, r.subject, who, res.error))
              && (res.Ok? ==>
                    s' == s1.(requests := s1.requests.Set(id, r.(status := RequestStatus.Approved,
                                                                 tokenId := Some(n.id),
                                                                 tokenSecret := Some(n.secret))),
                              log := s1.log + [Recorded(Event(RequestApproved, "approve_request", r.subject, Some(n.id),
                                                              Some(id), policyId, None, Some(who)), now)]))
  {
    if id in s.requests.at {
      var r := s.requests.at[id];
      IssueMints(s, Issuance(r.subject, r.scope, r.ttlSeconds, None, policyId), n, clock);
    }
  }

  lemma IssueMints(s: Sys, r: Issuance, n: Nonce, clock: int)
    ensures IssueToken(s, r, n, clock).1.Ok? ==> IssueToken(s, r, n, clock).1.value.id == n.id
  {
  }

  // ---- claimTokenSecret ----------------------------------------------------------------------------

  /** Who may claim is checked before anything about the request is told. */
  lemma ClaimOutcome(s: Sys, id: string, subject: string, now: int)
    requires id in s.requests.at ==> s.requests.at[id].id == id
    ensures var (s', res) := ClaimTokenSecret(s, id, subject, now);
            var known := id in s.requests.at;
            var own := known && s.requests.at[id].subject == subject;
            var granted := own && s.requests.at[id].status == RequestStatus.Approved
                           && s.requests.at[id].tokenId.Some? && s.requests.at[id].tokenId.value != "";
            var held := granted && s.requests.at[id].tokenSecret.Some? && s.requests.at[id].tokenSecret.value != "";
            && (res == Err(UnknownRequest) <==> !known)
            && (res == Err(WrongSubject) <==> known && !own)
            && (res == Err(RequestNotApproved) <==> own && !granted)
            && (res == Err(SecretAlreadyClaimed) <==> granted && !held)
            && (res.Ok? <==> held)
            && (res == Err(WrongSubject) ==>
                  OnlyLogs(s, s', now)
                  && s'.log[|s.log|].event == Event(Decision.Denied, "claim_token_secret", subject, None, Some(id),
                                                    None, Some("wrong_subject"), None))
            && (res.Err? && res != Err(WrongSubject) ==> s' == s)
            && (res.Ok? ==>
                  var r := s.requests.at[id];
                  && res.value == (r.tokenId.value, r.tokenSecret.value)
                  && s' == s.(requests := s.requests.Set(id, r.(tokenSecret := None)),
                              log := s.log + [Recorded(Event(TokenSecretClaimed, "claim_token_secret", subject,
                                                             r.tokenId, Some(id), None, None, None), now)]))
  {
  }

  // ---- Policies ----------------------------------------------------------------------------------------

  /** A name that is more than white space, a scope, and a positive lifetime. */
  ghost predicate Sane(name: string, scope: seq<string>, maxTtl: int) {
    Inked(name) && scope != [] && maxTtl > 0
  }

  /** A policy is created exactly when it is sane and the store answers; it is then
      on file, all other policies as before, and one entry says who wrote it. */
  lemma PolicyCreation(
    s: Sys, name: string, scope: seq<string>, maxTtl: int, author: string, id: string, now: int, clock: int)
    ensures var (s', res) := CreatePolicy(s, name, scope, maxTtl, author, id, now, clock);
            var (s1, answered) := Guard(s, clock);
            var p := Policy(id, name, scope, maxTtl, author, now, now);
            && (res == Err(InvalidPolicy) <==> !Sane(name, scope, maxTtl))
            && (res == Err(CircuitOpen) <==> Sane(name, scope, maxTtl) && !answered)
            && (res.Ok? <==> Sane(name, scope, maxTtl) && answered)
            && (res.Err? ==> s' == (if res.error == CircuitOpen then s1 else s) && s'.policies == s.policies)
            && (res.Ok? ==>
                  && res.value == p && id in s'.policies.at && s'.policies.at[id] == p
                  && s' == s1.(policies := s.policies.Set(id, p),
                               log := s1.log + [Recorded(Event(PolicyCreated, "create_policy", author, None, None,
                                                               Some(id), None, None), now)]))
  {
    BlankIffNoInk(name);
    GuardQuiet(s, clock);
  }

  /** The value given, or the one on file. */
  function Newer<T>(change: Option<T>, was: T): T {
    match change
    case Some(v) => v
    case None => was
  }

  /** A change is taken exactly when the policy is on file, the result is sane and the
      store answers; each field is new where one was given, the author and the time
      of creation stay, and issuance is held to the result from then on. */
  lemma PolicyModification(
    s: Sys, id: string, changes: PolicyChanges, author: string, now: int, clock: int)
    requires id in s.policies.at ==> s.policies.at[id].id == id
    ensures var (s', res) := ModifyPolicy(s, id, changes, author, now, clock);
            var (s1, answered) := Guard(s, clock);
            && (res == Err(CircuitOpen) <==> !answered)
            && (res == Err(UnknownPolicy) <==> answered && id !in s.policies.at)
            && (res.Err? ==> s' == s1 && s'.policies == s.policies
                             && res.error in {CircuitOpen, UnknownPolicy, InvalidPolicy})
            && (answered && id in s.policies.at ==>
                  var was := s.policies.at[id];
                  var p := Policy(id, Newer(changes.name, was.name), Newer(changes.allowedScope, was.allowedScope),
                                  Newer(changes.maxTtlSeconds, was.maxTtlSeconds), was.authoredBy, was.createdAt, now);
                  && (res.Ok? <==> Sane(p.name, p.allowedScope, p.maxTtlSeconds))
                  && (res.Ok? ==>
                        && res.value == p && id in s'.policies.at && s'.policies.at[id] == p
                        && s' == s1.(policies := s.policies.Set(id, p),
                                     log := s1.log + [Recorded(Event(PolicyModified, "modify_policy", author, None,
                                                                     None, Some(id), None, None), now)])))
  {
    GuardQuiet(s, clock);
    if Guard(s, clock).1 {
      GuardSettled(Guard(s, clock).0, clock);
    }
    if id in s.policies.at {
      BlankIffNoInk(Newer(changes.name, s.policies.at[id].name));
    }
  }

  /** The policies on file are what issuance is held to, from the moment one is
      written: a token can be issued under it exactly within the scope and the
      lifetime it was written with. */
  lemma PolicyTakesEffect(
    s: Sys, name: string, scope: seq<string>, maxTtl: int, author: string, id: string, now: int, clock: int,
    r: Issuance, n: Nonce, later: int)
    requires id != "" && CreatePolicy(s, name, scope, maxTtl, author, id, now, clock).1.Ok?
    requires r.policyId == Some(id) && r.scope != [] && r.ttlSeconds > 0
    ensures var res := IssueToken(CreatePolicy(s, name, scope, maxTtl, author, id, now, clock).0, r, n, later).1;
            res.Ok? <==> ScopeSet(r.scope) <= ScopeSet(scope) && r.ttlSeconds <= maxTtl
  {
    var s' := CreatePolicy(s, name, scope, maxTtl, author, id, now, clock).0;
    PolicyCreation(s, name, scope, maxTtl, author, id, now, clock);
    GuardQuiet(s, clock);
    GuardSettled(s', later);
    IssuanceOutcome(s', r, n, later);
    WithinIsSubset(r.scope, scope);
  }

  lemma ModificationTakesEffect(
    s: Sys, id: string, changes: PolicyChanges, author: string, now: int, clock: int, r: Issuance, n: Nonce, later: int)
    requires id != "" && id in s.policies.at && s.policies.at[id].id == id
    requires ModifyPolicy(s, id, changes, author, now, clock).1.Ok?
    requires r.policyId == Some(id) && r.scope != [] && r.ttlSeconds > 0
    ensures var was := s.policies.at[id];
            var res := IssueToken(ModifyPolicy(s, id, changes, author, now, clock).0, r, n, later).1;
            res.Ok? <==>
              && ScopeSet(r.scope) <= ScopeSet(Newer(changes.allowedScope, was.allowedScope))
              && r.ttlSeconds <= Newer(changes.maxTtlSeconds, was.maxTtlSeconds)
  {
    var s' := ModifyPolicy(s, id, changes, author, now, clock).0;
    PolicyModification(s, id, changes, author, now, clock);
    ModifySettles(s, id, changes, author, now, clock);
    GuardSettled(s', later);
    IssuanceOutcome(s', r, n, later);
    WithinIsSubset(r.scope, Newer(changes.allowedScope, s.policies.at[id].allowedScope));
  }

  lemma ModifySettles(s: Sys, id: string, changes: PolicyChanges, author: string, now: int, clock: int)
    requires ModifyPolicy(s, id, changes, author, now, clock).1.Ok?
    ensures Settled(ModifyPolicy(s, id, changes, author, now, clock).0.breaker)
  {
    GuardQuiet(s, clock);
    GuardQuiet(Guard(s, clock).0, clock);
  }

  // ---- The process -----------------------------------------------------------------------------------------

  /** A new process starts with a breaker that is closed and has counted nothing, and
      a detector that has seen nothing. */
  lemma RestartOutcome(s: Sys)
    ensures var s' := Restart(s);
            && s'.breaker == Breaker(Closed, 0, 0, false, s.breaker.failureThreshold, s.breaker.cooldownMs)
            && s'.detector == Detector(s.detector.config, map[])
            && s'.tokens == s.tokens && s'.policies == s.policies && s'.log == s.log
            && s'.requests.order == s.requests.order
            && forall id :: id in s.requests.at ==>
                 id in s'.requests.at && s'.requests.at[id] == s.requests.at[id].(tokenSecret := None)
  {
  }

  /** While an outage is set the store does not answer; once it is lifted it answers
      again from the end of the cooldown at the latest. */
  lemma OutageOutcome(s: Sys, clock: int)
    requires Resting(s.breaker)
    ensures !Guard(SimulateOutage(s, true), clock).1
    ensures clock - s.breaker.openedAt >= s.breaker.cooldownMs || s.breaker.state == Closed
            ==> Guard(SimulateOutage(s, false), clock).1
  {
    AttemptOutcome(SimulateOutage(s, true).breaker, false, clock);
    AttemptOutcome(SimulateOutage(s, false).breaker, false, clock);
  }
}
