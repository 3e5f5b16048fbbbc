/** Interleavings in which something is lost, built from any state that would admit
    the calls, and shown to occur from an empty start. */
module Schedules {
  import opened Core
  import opened CircuitBreakers
  import opened Domain
  import opened Steps
  import opened Revocation
  import opened Invariants
  import opened Runs
  import opened Lifecycle
  import opened Witnesses
  import opened Traces
  import opened Segments
  import opened Interleavings
  import opened LateSaves
  import opened LateApprovals
  import opened Handovers
  import opened Theorems
  import opened Forest

  // ---- A store that answers --------------------------------------------------------------

  /** Closed, with no outage: every attempt succeeds, whatever the clock says. */
  predicate Answering(b: Breaker) {
    b.state == CircuitState.Closed && !b.simulatingOutage
  }

  function Calm(s: Sys): Sys {
    s.(breaker := s.breaker.(consecutiveFailures := 0))
  }

  lemma GuardAnswers(s: Sys, clock: int)
    requires Answering(s.breaker)
    ensures Guard(s, clock) == (Calm(s), true)
  {
    assert s.log + [] == s.log;
  }

  /** s, but for failures forgotten. */
  ghost predicate Eased(s: Sys, s': Sys) {
    s' == s || s' == Calm(s)
  }

  // ---- A child saved after its parent's revocation ------------------------------------------

  function ChildRequest(parentId: string, subject: string, scope: seq<string>, ttl: int): Issuance {
    Issuance(subject, scope, ttl, Some(parentId), None)
  }

  /** An admitted delegation, waiting for the hash. */
  function InHashing(s: Sys, parentId: string, subject: string, scope: seq<string>, ttl: int, now: int, clock: int)
    : Flight
  {
    var r := ChildRequest(parentId, subject, scope, ttl);
    Hashing(r, clock, ExpiryOf(s, r, clock), Delegating(parentId), now)
  }

  lemma AdmittedDelegationWaits(
    s: Sys, parentId: string, secret: string, subject: string, scope: seq<string>, ttl: int, now: int, clock: int)
    requires Answering(s.breaker) && parentId in s.tokens.at && ttl > 0
    requires DelegationObjection(s.tokens.at[parentId], secret, scope, now) == None
    ensures var r := ChildRequest(parentId, subject, scope, ttl);
            var f := Verifying(parentId, s.tokens.at[parentId], secret, r, now);
            && BeginDelegation(s, parentId, secret, subject, scope, ttl, now, clock) == (Calm(s), Waiting(f))
            && ContinueDelegation(Calm(s), f, clock)
               == (Calm(s), Waiting(InHashing(s, parentId, subject, scope, ttl, now, clock)))
  {
    GuardAnswers(s, clock);
    GuardAnswers(Calm(s), clock);
  }

  lemma UpToTheHash(
    s: Sys, parentId: string, secret: string, subject: string, scope: seq<string>, ttl: int, now: int, clock: int)
    requires WorldOk(World(s, [])) && Answering(s.breaker) && parentId in s.tokens.at && ttl > 0
    requires DelegationObjection(s.tokens.at[parentId], secret, scope, now) == None
    ensures var hashing := World(Calm(s), [InHashing(s, parentId, subject, scope, ttl, now, clock)]);
            && WorldOk(hashing)
            && Flows(World(s, []), [StartDelegation(parentId, secret, subject, scope, ttl, now, clock)]
                                   + [ResumeDelegation(0, clock)], hashing)
  {
    AdmittedDelegationWaits(s, parentId, secret, subject, scope, ttl, now, clock);
    var w0, start, resume := World(s, []), StartDelegation(parentId, secret, subject, scope, ttl, now, clock),
                             ResumeDelegation(0, clock);
    var w1 := Moved(w0, start);
    MoveKeeps(w0, start);
    MoveKeeps(w1, resume);
    assert Moved(w1, resume) == World(Calm(s), [InHashing(s, parentId, subject, scope, ttl, now, clock)]);
    ChainOne(Goes, w0, start, w1);
    ChainOne(Goes, w1, resume, Moved(w1, resume));
    ChainJoin(Goes, w0, [start], w1, [resume], Moved(w1, resume));
  }

  lemma RevokedMeanwhile(
    s: Sys, target: string, reason: RevocationReason, now: int, actor: Option<string>, clock: int)
    requires Stores(s) && Contained(s.tokens.at) && Settled(s.breaker) && target in s.tokens.at
    ensures var s' := RevokeToken(s, target, reason, now, actor, clock).0;
            && s'.tokens.at.Keys == s.tokens.at.Keys && !IsActive(s'.tokens.at[target]) && s'.breaker == s.breaker
  {
    GuardSettled(s, clock);
    RevokeTokenEffect(s, target, reason, now, actor, clock);
  }

  lemma RevocationRuns(
    w: World, target: string, reason: RevocationReason, now: int, actor: Option<string>, clock: int)
    returns (u: World)
    requires WorldOk(w) && Settled(w.s.breaker) && target in w.s.tokens.at
    ensures Flows(w, [Whole(DoRevoke(target, reason, now, actor, clock))], u) && WorldOk(u)
    ensures u.flights == w.flights && u.s.breaker == w.s.breaker && Grown(w.s.tokens.at, u.s.tokens.at)
    ensures u.s == RevokeToken(w.s, target, reason, now, actor, clock).0
    ensures u.s.tokens.at.Keys == w.s.tokens.at.Keys && !IsActive(u.s.tokens.at[target])
  {
    var step := DoRevoke(target, reason, now, actor, clock);
    RevokedMeanwhile(w.s, target, reason, now, actor, clock);
    RevocationApplied(w.s, target, reason, now, actor, clock);
    WholeMove(w, step);
    WholeKeeps(w, step);
    u := World(Apply(w.s, step), w.flights);
    ChainOne(Goes, w, Whole(step), u);
  }

  lemma ChildIsSaved(w: World, n: Nonce, clock: int) returns (u: World)
    requires WorldOk(w) && Possible(w, Finish(0, n, clock)) && Settled(w.s.breaker)
    requires w.flights[0].purpose.Delegating?
    ensures Flows(w, [Finish(0, n, clock)], u) && WorldOk(u)
    ensures u.s.tokens.at == w.s.tokens.at[n.id := TokenOf(w.flights[0], n)]
    ensures u.s.breaker == w.s.breaker && u.flights == w.flights[1..]
  {
    GuardSettled(w.s, clock);
    FinishSaves(w, 0, n, clock);
    MoveKeeps(w, Finish(0, n, clock));
    u := Moved(w, Finish(0, n, clock));
    assert Without(w.flights, 0) == w.flights[1..];
    ChainOne(Goes, w, Finish(0, n, clock), u);
  }

  lemma RevokedThenSaved(
    s: Sys, f: Flight, n: Nonce, clock: int, target: string, reason: RevocationReason, now: int, actor: Option<string>)
    returns (t: World)
    requires WorldOk(World(s, [f])) && Settled(s.breaker) && target in s.tokens.at
    requires f.Hashing? && f.purpose == Delegating(target) && n.id != "" && n.id !in s.tokens.at
    ensures Flows(World(s, [f]), [Whole(DoRevoke(target, reason, now, actor, clock))] + [Finish(0, n, clock)], t)
    ensures target in t.s.tokens.at && !IsActive(t.s.tokens.at[target])
    ensures n.id in t.s.tokens.at && t.s.tokens.at[n.id] == TokenOf(f, n)
    ensures WorldOk(t) && t.flights == [] && t.s.breaker == s.breaker
  {
    var w := World(s, [f]);
    var u := RevocationRuns(w, target, reason, now, actor, clock);
    t := ChildIsSaved(u, n, clock);
    ChainJoin(Goes, w, [Whole(DoRevoke(target, reason, now, actor, clock))], u, [Finish(0, n, clock)], t);
  }

  /** The token is allowed whatever is in the scope, until it expires. */
  ghost predicate Usable(t: Token, scope: seq<string>) {
    forall action, at :: action in scope && at < t.expiresAt ==> Decide(t, action, at) == Allow
  }

  /** Whenever the store answers, every delegation that would be admitted, with its
      parent revoked while the child is being hashed, leaves the child active under
      a revoked parent, and allowed whatever its own scope and lifetime allow. */
  lemma LateChildEscapes(
    s: Sys, parentId: string, secret: string, subject: string, scope: seq<string>, ttl: int, n: Nonce, now: int,
    clock: int, reason: RevocationReason, actor: Option<string>) returns (t: World)
    requires WorldOk(World(s, [])) && Answering(s.breaker) && parentId in s.tokens.at && ttl > 0
    requires DelegationObjection(s.tokens.at[parentId], secret, scope, now) == None
    requires n.id != "" && n.id !in s.tokens.at
    ensures Flows(World(s, []),
                  ([StartDelegation(parentId, secret, subject, scope, ttl, now, clock)] + [ResumeDelegation(0, clock)])
                  + ([Whole(DoRevoke(parentId, reason, now, actor, clock))] + [Finish(0, n, clock)]), t)
    ensures WorldOk(t) && t.flights == [] && Answering(t.s.breaker) && Settled(t.s.breaker)
    ensures parentId in t.s.tokens.at && !IsActive(t.s.tokens.at[parentId])
    ensures n.id in t.s.tokens.at && t.s.tokens.at[n.id].parentTokenId == Some(parentId)
    ensures Usable(t.s.tokens.at[n.id], scope)
  {
    UpToTheHash(s, parentId, secret, subject, scope, ttl, now, clock);
    var f := InHashing(s, parentId, subject, scope, ttl, now, clock);
    t := RevokedThenSaved(Calm(s), f, n, clock, parentId, reason, now, actor);
    ChainJoin(Goes, World(s, []),
              [StartDelegation(parentId, secret, subject, scope, ttl, now, clock)] + [ResumeDelegation(0, clock)],
              World(Calm(s), [f]),
              [Whole(DoRevoke(parentId, reason, now, actor, clock))] + [Finish(0, n, clock)], t);
  }

  // ---- A revocation further up that does not come to it ---------------------------------------

  lemma {:induction false} BelowGrows(a: map<string, Token>, b: map<string, Token>, p: string, d: string)
    requires Contained(a) && Contained(b) && Grown(a, b) && Below(GenealogyOf(a), p, d)
    ensures Below(GenealogyOf(b), p, d)
    decreases Height(GenealogyOf(a), d)
  {
    var g := GenealogyOf(a);
    HeightFalls(g, d);
    var q := g[d].parent.value;
    IssuedFixes(a[d], b[d]);
    if q != p {
      BelowGrows(a, b, p, q);
    }
  }

  /** Whenever the store answers, such a child is not reached by a later revocation
      of anything further up either, though no call waits any more. */
  lemma RevocationMissesGrandchild(
    s: Sys, top: string, parentId: string, secret: string, subject: string, scope: seq<string>, ttl: int, n: Nonce,
    now: int, clock: int, reason: RevocationReason, actor: Option<string>) returns (t: World)
    requires WorldOk(World(s, [])) && Answering(s.breaker) && parentId in s.tokens.at && ttl > 0
    requires DelegationObjection(s.tokens.at[parentId], secret, scope, now) == None
    requires n.id != "" && n.id !in s.tokens.at && Below(GenealogyOf(s.tokens.at), top, parentId)
    ensures Flows(World(s, []),
                  (([StartDelegation(parentId, secret, subject, scope, ttl, now, clock)] + [ResumeDelegation(0, clock)])
                   + ([Whole(DoRevoke(parentId, reason, now, actor, clock))] + [Finish(0, n, clock)]))
                  + [Whole(DoRevoke(top, reason, now, actor, clock))], t)
    ensures t.flights == [] && Descends(t.s, top, n.id) && !IsActive(t.s.tokens.at[top])
    ensures Usable(t.s.tokens.at[n.id], scope)
  {
    var before := ([StartDelegation(parentId, secret, subject, scope, ttl, now, clock)] + [ResumeDelegation(0, clock)])
                  + ([Whole(DoRevoke(parentId, reason, now, actor, clock))] + [Finish(0, n, clock)]);
    var v := LateChildEscapes(s, parentId, secret, subject, scope, ttl, n, now, clock, reason, actor);
    FlowKeeps(World(s, []), before, v);
    BelowGrows(s.tokens.at, v.s.tokens.at, top, parentId);
    t := RevokedAbove(v, top, parentId, n.id, reason, now, actor, clock);
    ChainJoin(Goes, World(s, []), before, v, [Whole(DoRevoke(top, reason, now, actor, clock))], t);
  }

  lemma RevokedAbove(
    v: World, top: string, p: string, c: string, reason: RevocationReason, now: int, actor: Option<string>, clock: int)
    returns (t: World)
    requires WorldOk(v) && Settled(v.s.breaker) && c in v.s.tokens.at && v.s.tokens.at[c].parentTokenId == Some(p)
    requires Below(GenealogyOf(v.s.tokens.at), top, p) && !IsActive(v.s.tokens.at[p])
    ensures Flows(v, [Whole(DoRevoke(top, reason, now, actor, clock))], t) && t.flights == v.flights
    ensures Descends(t.s, top, c) && !IsActive(t.s.tokens.at[top]) && t.s.tokens.at[c] == v.s.tokens.at[c]
  {
    var g := GenealogyOf(v.s.tokens.at);
    BelowNarrows(g, top, p);
    assert Below(g, top, c);
    BelowNarrows(g, top, c);
    t := RevocationRuns(v, top, reason, now, actor, clock);
    OrphanSurvives(v.s, top, reason, now, actor, clock, c);
    BelowGrows(v.s.tokens.at, t.s.tokens.at, top, c);
  }

  // ---- An answer on a record revoked since it was read ---------------------------------------

  /** Whenever the store answers, a check of a token that would be allowed, with the
      token revoked in its wait, still answers Allow. */
  lemma StaleAllow(
    s: Sys, id: string, secret: string, action: string, now: int, clock: int, reason: RevocationReason,
    actor: Option<string>) returns (w: World)
    requires WorldOk(World(s, [])) && Answering(s.breaker) && id in s.tokens.at
    requires Judged(s.tokens.at[id], secret, action, now) == Allow
    ensures Flows(World(s, []), [StartEnforcement(id, secret, action, now, clock)]
                                + [Whole(DoRevoke(id, reason, now, actor, clock))], w)
    ensures id in w.s.tokens.at && !IsActive(w.s.tokens.at[id])
    ensures Possible(w, FinishCheck(0)) && FinishEnforcement(w.s, w.flights[0]).1 == Allow
  {
    var u := CheckStarts(s, id, secret, action, now, clock);
    w := RevocationRuns(u, id, reason, now, actor, clock);
    ChainJoin(Goes, World(s, []), [StartEnforcement(id, secret, action, now, clock)], u,
              [Whole(DoRevoke(id, reason, now, actor, clock))], w);
  }

  lemma CheckStarts(s: Sys, id: string, secret: string, action: string, now: int, clock: int) returns (u: World)
    requires WorldOk(World(s, [])) && Answering(s.breaker) && id in s.tokens.at
    ensures Flows(World(s, []), [StartEnforcement(id, secret, action, now, clock)], u) && WorldOk(u)
    ensures u == World(Calm(s), [Checking(id, s.tokens.at[id], secret, action, now)])
  {
    GuardAnswers(s, clock);
    var m := StartEnforcement(id, secret, action, now, clock);
    UnsavingKeeps(World(s, []), m);
    u := Moved(World(s, []), m);
    ChainOne(Goes, World(s, []), m, u);
  }

  // ---- Approvals that overlap with a decision -------------------------------------------------

  /** One approver's approval of a request. */
  datatype Grant = Grant(approver: string, policyId: Option<string>, now: int, clock: int)

  function RootRequest(r: Request, policyId: Option<string>): Issuance {
    Issuance(r.subject, r.scope, r.ttlSeconds, None, policyId)
  }

  /** The approval would go through now. */
  ghost predicate Grantable(s: Sys, id: string, g: Grant) {
    && Answering(s.breaker) && Decidable(s, id, g.approver)
    && s.requests.at[id].scope != [] && s.requests.at[id].ttlSeconds > 0
    && Covered(s, RootRequest(s.requests.at[id], g.policyId))
  }

  function RootFlight(r: Request, g: Grant): Flight {
    Hashing(RootRequest(r, g.policyId), g.clock, g.clock + r.ttlSeconds * 1000, Approving(r.id, r, g.approver), g.now)
  }

  function Approval(id: string, g: Grant): Move {
    StartApproval(id, g.approver, g.policyId, g.now, g.clock)
  }

  lemma DraftedAnswers(s: Sys, r: Issuance, clock: int)
    requires Answering(s.breaker) && r.scope != [] && r.ttlSeconds > 0 && Covered(s, r) && r.parentTokenId == None
    ensures Eased(s, Drafted(s, r, clock).0) && Drafted(s, r, clock).1 == Ok(clock + r.ttlSeconds * 1000)
  {
    GuardAnswers(s, clock);
  }

  lemma ApprovalWaits(s: Sys, id: string, g: Grant)
    requires InOrder(s) && Grantable(s, id, g)
    ensures var (s', p) := BeginApproval(s, id, g.approver, g.policyId, g.now, g.clock);
            Eased(s, s') && p == Waiting(RootFlight(s.requests.at[id], g))
  {
    RequestFiled(s, id);
    DraftedAnswers(s, RootRequest(s.requests.at[id], g.policyId), g.clock);
  }

  lemma EasedGrantable(s: Sys, s': Sys, id: string, g: Grant)
    requires Eased(s, s') && Grantable(s, id, g)
    ensures Grantable(s', id, g) && s'.requests == s.requests
  {
  }

  /** It starts, and waits for its hash. */
  lemma ApprovalStarts(w: World, id: string, g: Grant) returns (u: World)
    requires WorldInOrder(w) && Grantable(w.s, id, g)
    ensures Flows(w, [Approval(id, g)], u) && WorldInOrder(u)
    ensures Eased(w.s, u.s) && u.flights == w.flights + [RootFlight(w.s.requests.at[id], g)]
  {
    ApprovalWaits(w.s, id, g);
    UnsavingKeeps(w, Approval(id, g));
    u := Moved(w, Approval(id, g));
    ChainOne(Goes, w, Approval(id, g), u);
  }

  lemma WholeRuns(w: World, step: Step) returns (u: World)
    requires WorldInOrder(w) && Possible(w, Whole(step)) && !step.DoRestart?
    ensures Flows(w, [Whole(step)], u) && WorldInOrder(u) && u == World(Apply(w.s, step), w.flights)
  {
    WholeInOrder(w, step);
    u := Moved(w, Whole(step));
    ChainOne(Goes, w, Whole(step), u);
  }

  /** A denial while an approval waits. */
  lemma DeniedMeanwhile(w: World, id: string, approver: string, reason: DenialReason, now: int) returns (u: World)
    requires WorldInOrder(w) && Decidable(w.s, id, approver)
    ensures Flows(w, [Whole(DoDeny(id, approver, reason, now))], u) && WorldInOrder(u)
    ensures u.flights == w.flights && u.s.breaker == w.s.breaker && u.s.tokens.at == w.s.tokens.at
    ensures id in u.s.requests.at && u.s.requests.at[id].status == RequestStatus.Denied
  {
    DenialOf(w.s, id, approver, reason, now);
    u := WholeRuns(w, DoDeny(id, approver, reason, now));
  }

  lemma DenialOf(s: Sys, id: string, approver: string, reason: DenialReason, now: int)
    requires InOrder(s) && Decidable(s, id, approver)
    ensures var s' := DenyRequest(s, id, approver, reason, now).0;
            && s'.breaker == s.breaker && s'.tokens == s.tokens
            && id in s'.requests.at && s'.requests.at[id].status == RequestStatus.Denied
  {
    RequestFiled(s, id);
  }

  /** The first waiting approval finishes in time. */
  lemma ApprovalFinishes(w: World, f: Flight, n: Nonce, clock: int) returns (u: World)
    requires f.Hashing? && f.purpose.Approving? && w.flights != [] && w.flights[0] == f
    requires f.purpose.requestId in w.s.requests.at
    requires w.s.requests.at[f.purpose.requestId].status == RequestStatus.Pending
    requires n.id != "" && n.id !in w.s.tokens.at && Answering(w.s.breaker)
    requires WorldInOrder(w)
    ensures u.flights == w.flights[1..] && Answering(u.s.breaker)
    ensures u.s.tokens.at == w.s.tokens.at[n.id := TokenOf(f, n)]
    ensures f.purpose.requestId in u.s.requests.at
    ensures u.s.requests.at[f.purpose.requestId] == ApprovedAs(f.purpose.pending, TokenOf(f, n), n.secret)
    ensures Flows(w, [Finish(0, n, clock)], u) && WorldInOrder(u)
  {
    var m := Finish(0, n, clock);
    assert FlightOk(w.s.tokens.at, f) && ApprovalOnFile(w.s.requests.at, f);
    GuardAnswers(w.s, clock);
    OrderLostOnlyByLateApproval(w, m);
    FinishApprovalView(w.s, f, n, clock);
    u := Moved(w, m);
    assert ViewOf(u.s).requests == u.s.requests.at && ViewOf(u.s).tokens == u.s.tokens.at;
    assert Without(w.flights, 0) == w.flights[1..];
    ChainOne(Goes, w, m, u);
  }

  /** A claim while a second approval waits. */
  lemma ClaimedMeanwhile(w: World, id: string, now: int) returns (u: World)
    requires WorldInOrder(w) && id in w.s.requests.at && w.s.requests.at[id].status == RequestStatus.Approved
    requires Given(w.s.requests.at[id].tokenId) && Given(w.s.requests.at[id].tokenSecret)
    ensures Flows(w, [Whole(DoClaim(id, w.s.requests.at[id].subject, now))], u) && WorldInOrder(u)
    ensures u.flights == w.flights && u.s.breaker == w.s.breaker && u.s.tokens.at == w.s.tokens.at
    ensures id in u.s.requests.at && u.s.requests.at[id].status == RequestStatus.Approved
    ensures RequestNamed(Select(u.s.log, Claims), id)
  {
    var subject := w.s.requests.at[id].subject;
    ClaimOf(w.s, id, now);
    ClaimApplied(w.s, id, subject, now);
    u := WholeRuns(w, DoClaim(id, subject, now));
  }

  lemma ClaimApplied(s: Sys, id: string, subject: string, now: int)
    requires Stores(s) && Forested(s.tokens.at)
    ensures Apply(s, DoClaim(id, subject, now)) == ClaimTokenSecret(s, id, subject, now).0
  {
  }

  lemma ClaimOf(s: Sys, id: string, now: int)
    requires InOrder(s) && id in s.requests.at && s.requests.at[id].status == RequestStatus.Approved
    requires Given(s.requests.at[id].tokenId) && Given(s.requests.at[id].tokenSecret)
    ensures var s' := ClaimTokenSecret(s, id, s.requests.at[id].subject, now).0;
            && s'.breaker == s.breaker && s'.tokens == s.tokens
            && id in s'.requests.at && s'.requests.at[id].status == RequestStatus.Approved
            && RequestNamed(Select(s'.log, Claims), id)
  {
    var r := s.requests.at[id];
    RequestFiled(s, id);
    ClaimView(s, id, r.subject, now);
    NamedAgain(Select(s.log, Claims), ClaimEntry(id, r, now), id);
  }

  /** Two approvals of one request, by whomever and under whichever policies, both
      begun before either has finished. */
  lemma TwoApprovalsStart(w: World, id: string, g: Grant, h: Grant) returns (u: World)
    requires WorldInOrder(w) && w.flights == [] && Grantable(w.s, id, g) && Grantable(w.s, id, h)
    ensures Flows(w, [Approval(id, g)] + [Approval(id, h)], u) && WorldInOrder(u)
    ensures Eased(w.s, u.s)
    ensures u.flights == [RootFlight(w.s.requests.at[id], g)] + [RootFlight(w.s.requests.at[id], h)]
  {
    var v := ApprovalStarts(w, id, g);
    u := AnotherStarts(w.s, v, id, h);
    FlowsTwice(w, Approval(id, g), v, Approval(id, h), u);
  }

  lemma AnotherStarts(s: Sys, v: World, id: string, h: Grant) returns (u: World)
    requires WorldInOrder(v) && Eased(s, v.s) && Grantable(s, id, h)
    ensures Flows(v, [Approval(id, h)], u) && WorldInOrder(u) && Eased(s, u.s)
    ensures u.flights == v.flights + [RootFlight(s.requests.at[id], h)]
  {
    EasedGrantable(s, v.s, id, h);
    u := ApprovalStarts(v, id, h);
  }

  lemma FlowsTwice(w: World, a: Move, v: World, b: Move, u: World)
    requires Flows(w, [a], v) && Flows(v, [b], u)
    ensures Flows(w, [a] + [b], u)
  {
    ChainJoin(Goes, w, [a], v, [b], u);
  }

  /** The second of two overlapping approvals is late: it leaves two active roots
      and two approval entries for the request, which names the second. */
  lemma OverlappingApprovalsIssueTwice(w: World, id: string, g: Grant, h: Grant, n: Nonce, m: Nonce)
    returns (u: World, t: World)
    requires WorldInOrder(w) && w.flights == [] && Grantable(w.s, id, g) && Grantable(w.s, id, h)
    requires n.id != "" && m.id != "" && n.id != m.id && n.id !in w.s.tokens.at && m.id !in w.s.tokens.at
    ensures Flows(w, ([Approval(id, g)] + [Approval(id, h)]) + [Finish(0, n, g.clock)], u) && WorldInOrder(u)
    ensures LateApproval(u, Finish(0, m, h.clock)) && Goes(u, Finish(0, m, h.clock), t)
    ensures ActiveRoot(t.s.tokens.at, n.id) && ActiveRoot(t.s.tokens.at, m.id)
    ensures id in t.s.requests.at && t.s.requests.at[id].tokenId == Some(m.id)
    ensures NamedTwice(Select(t.s.log, Approvals), id)
  {
    u := OneOfTwoFinishes(w, id, g, h, n);
    GuardAnswers(u.s, h.clock);
    LateApprovalOverrides(u, 0, m, h.clock);
    FinishSaves(u, 0, m, h.clock);
    t := Moved(u, Finish(0, m, h.clock));
  }

  lemma OneOfTwoFinishes(w: World, id: string, g: Grant, h: Grant, n: Nonce) returns (u: World)
    requires WorldInOrder(w) && w.flights == [] && Grantable(w.s, id, g) && Grantable(w.s, id, h)
    requires n.id != "" && n.id !in w.s.tokens.at
    ensures Flows(w, ([Approval(id, g)] + [Approval(id, h)]) + [Finish(0, n, g.clock)], u) && WorldInOrder(u)
    ensures Answering(u.s.breaker) && u.flights == [RootFlight(w.s.requests.at[id], h)]
    ensures u.s.tokens.at == w.s.tokens.at[n.id := TokenOf(RootFlight(w.s.requests.at[id], g), n)]
    ensures w.s.requests.at[id].id == id && id in u.s.requests.at
    ensures u.s.requests.at[id]
         == ApprovedAs(w.s.requests.at[id], TokenOf(RootFlight(w.s.requests.at[id], g), n), n.secret)
  {
    RequestFiled(w.s, id);
    var v := TwoApprovalsStart(w, id, g, h);
    u := ApprovalFinishes(v, RootFlight(w.s.requests.at[id], g), n, g.clock);
    ChainJoin(Goes, w, [Approval(id, g)] + [Approval(id, h)], v, [Finish(0, n, g.clock)], u);
  }

  /** An approval that a denial overtakes is late. */
  lemma DenialOvertakes(w: World, id: string, g: Grant, approver: string, reason: DenialReason, at: int)
    returns (u: World)
    requires WorldInOrder(w) && w.flights == [] && Grantable(w.s, id, g) && Decidable(w.s, id, approver)
    ensures Flows(w, [Approval(id, g)] + [Whole(DoDeny(id, approver, reason, at))], u) && WorldInOrder(u)
    ensures u.s.tokens.at == w.s.tokens.at && |u.flights| == 1 && u.flights[0].Hashing?
    ensures u.flights[0].purpose.Approving? && u.flights[0].purpose.requestId == id
    ensures id in u.s.requests.at && u.s.requests.at[id].status == RequestStatus.Denied
    ensures forall n, clock :: LateApproval(u, Finish(0, n, clock))
  {
    RequestFiled(w.s, id);
    var v := ApprovalStarts(w, id, g);
    u := DeniedMeanwhile(v, id, approver, reason, at);
    ChainJoin(Goes, w, [Approval(id, g)], v, [Whole(DoDeny(id, approver, reason, at))], u);
    LateFromHere(u, id);
  }

  /** Once the request of a waiting approval is decided, the approval is late. */
  lemma LateFromHere(u: World, id: string)
    requires Answering(u.s.breaker) && u.flights != [] && u.flights[0].Hashing? && u.flights[0].purpose.Approving?
    requires u.flights[0].purpose.requestId == id && id in u.s.requests.at
    requires u.s.requests.at[id].status != RequestStatus.Pending
    ensures forall n, clock :: LateApproval(u, Finish(0, n, clock))
  {
    forall clock
      ensures Guard(u.s, clock).1
    {
      GuardAnswers(u.s, clock);
    }
  }

  /** Of two overlapping approvals, with the first one's secret claimed before the
      second finishes, the second is late and makes a second claim possible. */
  lemma ClaimOvertakes(w: World, id: string, g: Grant, h: Grant, n: Nonce, at: int) returns (u: World)
    requires WorldInOrder(w) && w.flights == [] && Grantable(w.s, id, g) && Grantable(w.s, id, h)
    requires n.id != "" && n.secret != "" && n.id !in w.s.tokens.at
    ensures Flows(w, (([Approval(id, g)] + [Approval(id, h)]) + [Finish(0, n, g.clock)])
                     + [Whole(DoClaim(id, w.s.requests.at[id].subject, at))], u)
    ensures WorldInOrder(u) && |u.flights| == 1 && u.flights[0].Hashing? && u.flights[0].purpose.Approving?
    ensures u.flights[0].purpose.requestId == id
    ensures u.s.tokens.at == w.s.tokens.at[n.id := TokenOf(RootFlight(w.s.requests.at[id], g), n)]
    ensures RequestNamed(Select(u.s.log, Claims), id)
    ensures forall m, clock :: LateApproval(u, Finish(0, m, clock))
  {
    var v := OneOfTwoFinishes(w, id, g, h, n);
    u := ClaimedMeanwhile(v, id, at);
    ChainJoin(Goes, w, ([Approval(id, g)] + [Approval(id, h)]) + [Finish(0, n, g.clock)], v,
              [Whole(DoClaim(id, w.s.requests.at[id].subject, at))], u);
    LateFromHere(u, id);
  }

  // ---- Approvals that overlap with a hand-over, or with a change of policy --------------------

  /** The request would be handed to the backup now. */
  ghost predicate Escalatable(s: Sys, id: string, window: int, backup: string, now: int) {
    && backup != "" && id in s.requests.at && s.requests.at[id].status == RequestStatus.Pending
    && s.requests.at[id].assignedApprover != Some(backup) && now - s.requests.at[id].requestedAt >= window
  }

  lemma EscalationOf(s: Sys, id: string, window: int, backup: string, now: int)
    requires WellFiled(s) && Escalatable(s, id, window, backup, now)
    ensures var s' := CheckRequestTimeout(s, id, window, Some(backup), now);
            && s'.breaker == s.breaker && s'.tokens == s.tokens
            && id in s'.requests.at && s'.requests.at[id] == s.requests.at[id].(assignedApprover := Some(backup))
  {
    RequestFiled(s, id);
  }

  lemma EscalatedMeanwhile(w: World, id: string, window: int, backup: string, now: int) returns (u: World)
    requires WorldInOrder(w) && Escalatable(w.s, id, window, backup, now)
    ensures Flows(w, [Whole(DoCheckTimeout(id, window, Some(backup), now))], u) && WorldInOrder(u)
    ensures u.flights == w.flights && u.s.breaker == w.s.breaker && u.s.tokens.at == w.s.tokens.at
    ensures id in u.s.requests.at
    ensures u.s.requests.at[id] == w.s.requests.at[id].(assignedApprover := Some(backup))
  {
    EscalationOf(w.s, id, window, backup, now);
    u := WholeRuns(w, DoCheckTimeout(id, window, Some(backup), now));
  }

  /** An approval during whose wait its request is handed to another is on time, and
      goes through all the same: the hand-over is undone, and the request decided by
      someone whom only the backup could replace. */
  lemma EscalationOvertakes(
    w: World, id: string, g: Grant, window: int, backup: string, at: int, n: Nonce) returns (u: World, t: World)
    requires WorldInOrder(w) && w.flights == [] && Grantable(w.s, id, g)
    requires Escalatable(w.s, id, window, backup, at) && backup != g.approver
    requires n.id != "" && n.id !in w.s.tokens.at
    ensures Flows(w, [Approval(id, g)] + [Whole(DoCheckTimeout(id, window, Some(backup), at))], u) && WorldInOrder(u)
    ensures id in u.s.requests.at && forall who :: Eligible(u.s.requests.at[id], who) <==> who == backup
    ensures Goes(u, Finish(0, n, g.clock), t) && WorldInOrder(t)
    ensures Overtaken(u, Finish(0, n, g.clock)) && !LateApproval(u, Finish(0, n, g.clock))
    ensures id in t.s.requests.at && t.s.requests.at[id].status == RequestStatus.Approved
    ensures t.s.requests.at[id].assignedApprover == w.s.requests.at[id].assignedApprover
    ensures !HandedOverOpenly(ViewOf(u.s), ViewOf(t.s)) && !DecidedByEntitled(ViewOf(u.s), ViewOf(t.s))
  {
    u := HandedOverMeanwhile(w, id, g, window, backup, at);
    t := OvertakenFinishes(u, RootFlight(w.s.requests.at[id], g), n, g.clock);
  }

  lemma HandedOverMeanwhile(w: World, id: string, g: Grant, window: int, backup: string, at: int) returns (u: World)
    requires WorldInOrder(w) && w.flights == [] && Grantable(w.s, id, g)
    requires Escalatable(w.s, id, window, backup, at)
    ensures Flows(w, [Approval(id, g)] + [Whole(DoCheckTimeout(id, window, Some(backup), at))], u) && WorldInOrder(u)
    ensures u.flights == [RootFlight(w.s.requests.at[id], g)] && Answering(u.s.breaker)
    ensures u.s.tokens.at == w.s.tokens.at && w.s.requests.at[id].id == id && id in u.s.requests.at
    ensures u.s.requests.at[id] == w.s.requests.at[id].(assignedApprover := Some(backup))
  {
    RequestFiled(w.s, id);
    var v := ApprovalStarts(w, id, g);
    u := EscalatedMeanwhile(v, id, window, backup, at);
    ChainJoin(Goes, w, [Approval(id, g)], v, [Whole(DoCheckTimeout(id, window, Some(backup), at))], u);
  }

  lemma OvertakenFinishes(u: World, f: Flight, n: Nonce, clock: int) returns (t: World)
    requires WorldInOrder(u) && u.flights == [f] && f.Hashing? && f.purpose.Approving?
    requires f.purpose.requestId in u.s.requests.at
    requires u.s.requests.at[f.purpose.requestId].status == RequestStatus.Pending
    requires !Eligible(u.s.requests.at[f.purpose.requestId], f.purpose.approver)
    requires n.id != "" && n.id !in u.s.tokens.at && Answering(u.s.breaker)
    ensures Goes(u, Finish(0, n, clock), t) && WorldInOrder(t)
    ensures Overtaken(u, Finish(0, n, clock)) && !LateApproval(u, Finish(0, n, clock))
    ensures f.purpose.requestId in t.s.requests.at
    ensures t.s.requests.at[f.purpose.requestId].status == RequestStatus.Approved
    ensures t.s.requests.at[f.purpose.requestId].assignedApprover == f.purpose.pending.assignedApprover
    ensures !HandedOverOpenly(ViewOf(u.s), ViewOf(t.s)) && !DecidedByEntitled(ViewOf(u.s), ViewOf(t.s))
  {
    var m := Finish(0, n, clock);
    GuardAnswers(u.s, clock);
    OrderLostOnlyByLateApproval(u, m);
    OrderlyUnlessReassigned(u, m);
    HandOverUndone(u, 0, n, clock);
    t := Moved(u, m);
  }

  /** A policy that is tightened while an approval under it waits does not bind the
      token the approval saves. */
  lemma TightenedPolicyDoesNotBind(
    w: World, id: string, g: Grant, changes: PolicyChanges, author: string, at: int, n: Nonce)
    returns (u: World, t: World)
    requires WorldInOrder(w) && w.flights == [] && Grantable(w.s, id, g) && Given(g.policyId)
    requires changes.allowedScope.Some? && !Within(w.s.requests.at[id].scope, changes.allowedScope.value)
    requires Acceptable(Changed(w.s.policies.at[g.policyId.value], changes, at))
    requires PoliciesOk(w.s.policies)
    requires n.id != "" && n.id !in w.s.tokens.at
    ensures Flows(w, [Approval(id, g)] + [Whole(DoModifyPolicy(g.policyId.value, changes, author, at, g.clock))], u)
    ensures Goes(u, Finish(0, n, g.clock), t)
    ensures g.policyId.value in u.s.policies.at && n.id in t.s.tokens.at
    ensures !Within(t.s.tokens.at[n.id].scope, u.s.policies.at[g.policyId.value].allowedScope)
  {
    RequestFiled(w.s, id);
    var v := ApprovalStarts(w, id, g);
    u := PolicyTightened(v, g.policyId.value, changes, author, at, g.clock);
    ChainJoin(Goes, w, [Approval(id, g)], v,
              [Whole(DoModifyPolicy(g.policyId.value, changes, author, at, g.clock))], u);
    var f := RootFlight(w.s.requests.at[id], g);
    GuardAnswers(u.s, g.clock);
    FinishSaves(u, 0, n, g.clock);
    t := Moved(u, Finish(0, n, g.clock));
  }

  lemma PolicyTightened(v: World, policyId: string, changes: PolicyChanges, author: string, at: int, clock: int)
    returns (u: World)
    requires WorldInOrder(v) && Answering(v.s.breaker) && policyId in v.s.policies.at
    requires Acceptable(Changed(v.s.policies.at[policyId], changes, at)) && changes.allowedScope.Some?
    requires v.s.policies.at[policyId].id == policyId
    ensures Flows(v, [Whole(DoModifyPolicy(policyId, changes, author, at, clock))], u) && WorldInOrder(u)
    ensures u.flights == v.flights && Answering(u.s.breaker) && u.s.tokens == v.s.tokens
    ensures policyId in u.s.policies.at && u.s.policies.at[policyId].allowedScope == changes.allowedScope.value
  {
    ModificationApplied(v.s, policyId, changes, author, at, clock);
    ModificationOf(v.s, policyId, changes, author, at, clock);
    u := WholeRuns(v, DoModifyPolicy(policyId, changes, author, at, clock));
  }

  lemma ModificationApplied(s: Sys, policyId: string, changes: PolicyChanges, author: string, at: int, clock: int)
    requires Stores(s) && Forested(s.tokens.at)
    ensures Apply(s, DoModifyPolicy(policyId, changes, author, at, clock))
         == ModifyPolicy(s, policyId, changes, author, at, clock).0
  {
  }

  lemma ModificationOf(s: Sys, policyId: string, changes: PolicyChanges, author: string, at: int, clock: int)
    requires Answering(s.breaker) && policyId in s.policies.at && s.policies.at[policyId].id == policyId
    requires Acceptable(Changed(s.policies.at[policyId], changes, at)) && changes.allowedScope.Some?
    ensures var s' := ModifyPolicy(s, policyId, changes, author, at, clock).0;
            && Answering(s'.breaker) && s'.tokens == s.tokens
            && policyId in s'.policies.at && s'.policies.at[policyId].allowedScope == changes.allowedScope.value
  {
    GuardAnswers(s, clock);
    GuardAnswers(Calm(s), clock);
  }

  // ---- And they do occur ---------------------------------------------------------------------

  /** The grant a wish's approver makes. */
  function GrantOf(x: Wish): Grant {
    Grant(x.approver, None, x.now, x.now)
  }

  lemma FirstMoveOccurs(start: Sys, m: Move, w: World)
    requires Start(start) && Goes(World(start, []), m, w)
    ensures Occurs(w)
  {
    ChainOne(Goes, World(start, []), m, w);
    StartOccurs(start, [m], w);
  }

  lemma AskOccurs(start: Sys, x: Wish, s: Sys)
    requires Start(start) && Sound(start) && Takes(start, Ask(x), s)
    ensures Occurs(World(s, []))
  {
    WholeMove(World(start, []), Ask(x));
    FirstMoveOccurs(start, Whole(Ask(x)), World(s, []));
  }

  lemma WantedIsGrantable(s: Sys, x: Wish)
    requires Wanted(s, x) && Sensible(x)
    ensures WorldInOrder(World(s, [])) && Grantable(s, x.id, GrantOf(x))
  {
  }

  lemma WishOccurs(start: Sys, x: Wish) returns (w: World)
    requires Start(start) && Sensible(x)
    ensures Occurs(w) && WorldInOrder(w) && w.flights == [] && Wanted(w.s, x)
    ensures Grantable(w.s, x.id, GrantOf(x))
  {
    WishAsked(start, x);
    var s := Apply(start, Ask(x));
    AskOccurs(start, x, s);
    WantedIsGrantable(s, x);
    w := World(s, []);
  }

  lemma StartOccurs(start: Sys, moves: seq<Move>, w: World)
    requires Start(start) && Flows(World(start, []), moves, w)
    ensures Occurs(w)
  {
  }

  lemma FinishOccurs(u: World, n: Nonce, clock: int) returns (t: World)
    requires Occurs(u) && WorldOk(u) && Possible(u, Finish(0, n, clock))
    ensures t == Moved(u, Finish(0, n, clock)) && Occurs(t) && WorldOk(t)
  {
    MoveKeeps(u, Finish(0, n, clock));
    t := Moved(u, Finish(0, n, clock));
    ChainOne(Goes, u, Finish(0, n, clock), t);
    OccursOn(u, [Finish(0, n, clock)], t);
  }

  lemma ClaimOccurs(u: World, id: string, subject: string, now: int) returns (t: World)
    requires Occurs(u) && WorldOk(u)
    ensures t == World(ClaimTokenSecret(u.s, id, subject, now).0, u.flights) && Occurs(t)
  {
    t := World(ClaimTokenSecret(u.s, id, subject, now).0, u.flights);
    WholeMove(u, DoClaim(id, subject, now));
    ChainOne(Goes, u, Whole(DoClaim(id, subject, now)), t);
    OccursOn(u, [Whole(DoClaim(id, subject, now))], t);
  }

  lemma OccursOn(w: World, moves: seq<Move>, t: World)
    requires Occurs(w) && Flows(w, moves, t)
    ensures Occurs(t)
  {
    var start, before :| Start(start) && Flows(World(start, []), before, w);
    ChainJoin(Goes, World(start, []), before, w, moves, t);
    assert Flows(World(start, []), before + moves, t);
  }

  /** A request is denied, and then approved. */
  lemma DenialIsOverridden(start: Sys, x: Wish, reason: DenialReason) returns (t: World)
    requires Start(start) && Sensible(x)
    ensures Occurs(t) && x.id in t.s.requests.at && t.s.requests.at[x.id].status == RequestStatus.Approved
    ensures RequestNamed(Select(t.s.log, Denials), x.id) && RequestNamed(Select(t.s.log, Approvals), x.id)
  {
    var w := WishOccurs(start, x);
    var u := DenialOccurs(w, x, reason);
    t := FinishOccurs(u, x.nonce, x.now);
    LateApprovalOverrides(u, 0, x.nonce, x.now);
  }

  lemma DenialOccurs(w: World, x: Wish, reason: DenialReason) returns (u: World)
    requires Occurs(w) && WorldInOrder(w) && w.flights == [] && Wanted(w.s, x) && Grantable(w.s, x.id, GrantOf(x))
    ensures Occurs(u) && WorldInOrder(u) && |u.flights| == 1 && u.flights[0].Hashing? && u.flights[0].purpose.Approving?
    ensures u.flights[0].purpose.requestId == x.id && u.s.tokens.at == map[]
    ensures x.id in u.s.requests.at && u.s.requests.at[x.id].status == RequestStatus.Denied
    ensures forall n, clock :: LateApproval(u, Finish(0, n, clock))
  {
    u := DenialOvertakes(w, x.id, GrantOf(x), x.approver, reason, x.now);
    OccursOn(w, [Approval(x.id, GrantOf(x))] + [Whole(DoDeny(x.id, x.approver, reason, x.now))], u);
  }

  /** A secret is claimed for a request, and then another. */
  lemma TwoClaimsSucceed(start: Sys, x: Wish, m: Nonce) returns (t: World)
    requires Start(start) && Sensible(x) && x.nonce.secret != ""
    requires m.id != "" && m.secret != "" && m.id != x.nonce.id
    ensures Occurs(t) && NamedTwice(Select(t.s.log, Claims), x.id)
  {
    var w := WishOccurs(start, x);
    var u := ClaimOccursBetween(w, x);
    t := LateThenClaimed(u, m, x.now);
  }

  lemma ClaimOccursBetween(w: World, x: Wish) returns (u: World)
    requires Occurs(w) && WorldInOrder(w) && w.flights == [] && Wanted(w.s, x) && Grantable(w.s, x.id, GrantOf(x))
    requires Sensible(x) && x.nonce.secret != ""
    ensures Occurs(u) && WorldInOrder(u) && |u.flights| == 1 && u.flights[0].Hashing? && u.flights[0].purpose.Approving?
    ensures u.flights[0].purpose.requestId == x.id && (forall id :: id in u.s.tokens.at ==> id == x.nonce.id)
    ensures RequestNamed(Select(u.s.log, Claims), x.id)
    ensures forall m, clock :: LateApproval(u, Finish(0, m, clock))
  {
    var g := GrantOf(x);
    u := ClaimOvertakes(w, x.id, g, g, x.nonce, x.now);
    OccursOn(w, (([Approval(x.id, g)] + [Approval(x.id, g)]) + [Finish(0, x.nonce, g.clock)])
                + [Whole(DoClaim(x.id, w.s.requests.at[x.id].subject, x.now))], u);
  }

  lemma LateThenClaimed(u: World, m: Nonce, now: int) returns (t: World)
    requires Occurs(u) && WorldInOrder(u) && Possible(u, Finish(0, m, now)) && LateApproval(u, Finish(0, m, now))
    requires m.secret != "" && RequestNamed(Select(u.s.log, Claims), u.flights[0].purpose.requestId)
    ensures Occurs(t) && NamedTwice(Select(t.s.log, Claims), u.flights[0].purpose.requestId)
  {
    var f := u.flights[0];
    LateApprovalRevivesTheSecret(u, 0, m, now, now);
    var v := FinishOccurs(u, m, now);
    t := ClaimOccurs(v, f.purpose.requestId, f.purpose.pending.subject, now);
  }

  /** A child is active, and allowed, under a revoked parent. */
  lemma ChildOutlivesParent(start: Sys, x: Wish, scope: seq<string>, n: Nonce, reason: RevocationReason)
    returns (t: World)
    requires Start(start) && Sensible(x) && n.id != "" && n.id != x.nonce.id
    requires scope != [] && Within(scope, x.scope) && !Within(x.scope, scope)
    ensures Occurs(t) && n.id in t.s.tokens.at && x.nonce.id in t.s.tokens.at
    ensures t.s.tokens.at[n.id].parentTokenId == Some(x.nonce.id) && !IsActive(t.s.tokens.at[x.nonce.id])
    ensures Usable(t.s.tokens.at[n.id], scope)
  {
    var u := RootOccurs(start, x);
    assert u == World(u.s, []);
    t := LateChildEscapes(u.s, x.nonce.id, x.nonce.secret, x.subject, scope, 1, n, x.now, x.now, reason, None);
    OccursOn(u, ([StartDelegation(x.nonce.id, x.nonce.secret, x.subject, scope, 1, x.now, x.now)]
                 + [ResumeDelegation(0, x.now)])
                + ([Whole(DoRevoke(x.nonce.id, reason, x.now, None, x.now))] + [Finish(0, n, x.now)]), t);
  }

  lemma DelegationRuns(
    s: Sys, parentId: string, secret: string, subject: string, scope: seq<string>, ttl: int, n: Nonce, now: int,
    clock: int) returns (t: World)
    requires WorldOk(World(s, [])) && Answering(s.breaker) && parentId in s.tokens.at && ttl > 0
    requires DelegationObjection(s.tokens.at[parentId], secret, scope, now) == None
    requires n.id != "" && n.id !in s.tokens.at
    ensures Flows(World(s, []), ([StartDelegation(parentId, secret, subject, scope, ttl, now, clock)]
                                 + [ResumeDelegation(0, clock)]) + [Finish(0, n, clock)], t)
    ensures WorldOk(t) && t.flights == [] && Answering(t.s.breaker)
    ensures t.s.tokens.at
         == s.tokens.at[n.id := TokenOf(InHashing(s, parentId, subject, scope, ttl, now, clock), n)]
  {
    UpToTheHash(s, parentId, secret, subject, scope, ttl, now, clock);
    var hashing := World(Calm(s), [InHashing(s, parentId, subject, scope, ttl, now, clock)]);
    t := ChildIsSaved(hashing, n, clock);
    ChainJoin(Goes, World(s, []), [StartDelegation(parentId, secret, subject, scope, ttl, now, clock)]
                                  + [ResumeDelegation(0, clock)], hashing, [Finish(0, n, clock)], t);
  }

  /** From any root wished for: a child of it, active, for one second. */
  lemma ChildOccurs(start: Sys, x: Wish, scope: seq<string>, n: Nonce) returns (w: World)
    requires Start(start) && Sensible(x) && n.id != "" && n.id != x.nonce.id
    requires scope != [] && Within(scope, x.scope) && !Within(x.scope, scope)
    ensures Occurs(w) && WorldOk(w) && w == World(w.s, []) && Answering(w.s.breaker)
    ensures w.s.tokens.at.Keys == {x.nonce.id, n.id} && w.s.tokens.at[n.id].parentTokenId == Some(x.nonce.id)
    ensures IsActive(w.s.tokens.at[n.id]) && w.s.tokens.at[n.id].scope == scope
    ensures w.s.tokens.at[n.id].expiresAt > x.now && VerifyPassword(n.secret, w.s.tokens.at[n.id].secretHash)
  {
    var u := RootOccurs(start, x);
    assert u == World(u.s, []);
    ChildMinted(u.s, x, scope, n);
    w := DelegationRuns(u.s, x.nonce.id, x.nonce.secret, x.subject, scope, 1, n, x.now, x.now);
    OccursOn(u, ([StartDelegation(x.nonce.id, x.nonce.secret, x.subject, scope, 1, x.now, x.now)]
                 + [ResumeDelegation(0, x.now)]) + [Finish(0, n, x.now)], w);
  }

  lemma ChildMinted(s: Sys, x: Wish, scope: seq<string>, n: Nonce)
    requires Sensible(x) && x.nonce.id in s.tokens.at && s.tokens.at[x.nonce.id] == Root(x)
    requires scope != [] && Within(scope, x.scope) && !Within(x.scope, scope)
    ensures DelegationObjection(Root(x), x.nonce.secret, scope, x.now) == None
    ensures var t := TokenOf(InHashing(s, x.nonce.id, x.subject, scope, 1, x.now, x.now), n);
            && t.parentTokenId == Some(x.nonce.id) && IsActive(t) && t.scope == scope && t.expiresAt > x.now
            && VerifyPassword(n.secret, t.secretHash)
  {
  }

  /** A token is revoked with no call waiting, and one that descends from it stays
      active, and allowed. */
  lemma GrandchildOutlivesRoot(
    start: Sys, x: Wish, scope: seq<string>, n: Nonce, narrow: seq<string>, m: Nonce, reason: RevocationReason)
    returns (t: World)
    requires Start(start) && Sensible(x) && n.id != "" && m.id != "" && n.id != x.nonce.id && m.id != n.id
    requires m.id != x.nonce.id
    requires scope != [] && Within(scope, x.scope) && !Within(x.scope, scope)
    requires narrow != [] && Within(narrow, scope) && !Within(scope, narrow)
    ensures Occurs(t) && t.flights == [] && Descends(t.s, x.nonce.id, m.id)
    ensures !IsActive(t.s.tokens.at[x.nonce.id]) && Usable(t.s.tokens.at[m.id], narrow)
  {
    var w := ChildOccurs(start, x, scope, n);
    assert Below(GenealogyOf(w.s.tokens.at), x.nonce.id, n.id);
    t := RevocationMissesGrandchild(
      w.s, x.nonce.id, n.id, n.secret, x.subject, narrow, 1, m, x.now, x.now, reason, None);
    OccursOn(w, (([StartDelegation(n.id, n.secret, x.subject, narrow, 1, x.now, x.now)] + [ResumeDelegation(0, x.now)])
                 + ([Whole(DoRevoke(n.id, reason, x.now, None, x.now))] + [Finish(0, m, x.now)]))
                + [Whole(DoRevoke(x.nonce.id, reason, x.now, None, x.now))], t);
  }

  /** A request is handed to a backup, and decided by someone else all the same. */
  lemma EscalationIsUndone(start: Sys, x: Wish, backup: string) returns (u: World, t: World)
    requires Start(start) && Sensible(x) && backup != "" && backup != x.approver
    ensures Occurs(u) && Goes(u, Finish(0, x.nonce, x.now), t) && Occurs(t)
    ensures x.id in u.s.requests.at && forall who :: Eligible(u.s.requests.at[x.id], who) <==> who == backup
    ensures x.id in t.s.requests.at && t.s.requests.at[x.id].status == RequestStatus.Approved
    ensures t.s.requests.at[x.id].assignedApprover == None
    ensures !DecidedByEntitled(ViewOf(u.s), ViewOf(t.s))
  {
    var w := WishOccurs(start, x);
    u, t := EscalationOvertakes(w, x.id, GrantOf(x), 0, backup, x.now, x.nonce);
    OccursOn(w, [Approval(x.id, GrantOf(x))] + [Whole(DoCheckTimeout(x.id, 0, Some(backup), x.now))], u);
    ChainOne(Goes, u, Finish(0, x.nonce, x.now), t);
    OccursOn(u, [Finish(0, x.nonce, x.now)], t);
  }

  lemma GrantOccurs(w: World, x: Wish) returns (u: World)
    requires Occurs(w) && WorldInOrder(w) && w.flights == [] && Wanted(w.s, x) && Grantable(w.s, x.id, GrantOf(x))
    ensures Occurs(u) && WorldInOrder(u) && Answering(u.s.breaker)
    ensures u.flights == [RootFlight(Witnesses.Pending(x), GrantOf(x))]
    ensures u.s.tokens.at == map[] && x.id in u.s.requests.at && u.s.requests.at[x.id] == Witnesses.Pending(x)
  {
    u := ApprovalStarts(w, x.id, GrantOf(x));
    OccursOn(w, [Approval(x.id, GrantOf(x))], u);
  }

  lemma RootSaveOccurs(v: World, x: Wish) returns (u: World)
    requires Occurs(v) && WorldInOrder(v) && Answering(v.s.breaker) && Sensible(x)
    requires v.flights == [RootFlight(Witnesses.Pending(x), GrantOf(x))] && v.s.tokens.at == map[]
    requires x.id in v.s.requests.at && v.s.requests.at[x.id] == Witnesses.Pending(x)
    ensures Occurs(u) && WorldOk(u) && u.flights == [] && Answering(u.s.breaker)
    ensures u.s.tokens.at == map[][x.nonce.id := TokenOf(RootFlight(Witnesses.Pending(x), GrantOf(x)), x.nonce)]
  {
    u := ApprovalFinishes(v, RootFlight(Witnesses.Pending(x), GrantOf(x)), x.nonce, x.now);
    OccursOn(v, [Finish(0, x.nonce, x.now)], u);
  }

  lemma RootOccurs(start: Sys, x: Wish) returns (u: World)
    requires Start(start) && Sensible(x)
    ensures Occurs(u) && WorldOk(u) && u.flights == [] && Answering(u.s.breaker)
    ensures u.s.tokens.at == map[][x.nonce.id := Root(x)]
  {
    var w := WishOccurs(start, x);
    var v := GrantOccurs(w, x);
    u := RootSaveOccurs(v, x);
    RootMinted(x);
  }

  lemma RootMinted(x: Wish)
    ensures TokenOf(RootFlight(Witnesses.Pending(x), GrantOf(x)), x.nonce) == Root(x)
  {
  }

  /** A check answers Allow for a token by then revoked. */
  lemma RevokedTokenIsAllowed(start: Sys, x: Wish, action: string, reason: RevocationReason) returns (t: World)
    requires Start(start) && Sensible(x) && action in x.scope
    ensures Occurs(t) && x.nonce.id in t.s.tokens.at && !IsActive(t.s.tokens.at[x.nonce.id])
    ensures Possible(t, FinishCheck(0)) && FinishEnforcement(t.s, t.flights[0]).1 == Allow
  {
    var u := RootOccurs(start, x);
    assert u == World(u.s, []);
    t := StaleAllow(u.s, x.nonce.id, x.nonce.secret, action, x.now, x.now, reason, None);
    OccursOn(u, [StartEnforcement(x.nonce.id, x.nonce.secret, action, x.now, x.now)]
                + [Whole(DoRevoke(x.nonce.id, reason, x.now, None, x.now))], t);
  }
}
