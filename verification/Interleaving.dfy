/** Calls that run while others wait, and what every interleaving of them keeps. */
module Interleavings {
  import opened Core
  import opened AuditLogs
  import opened Domain
  import opened Forest
  import opened Steps
  import opened Revocation
  import opened Invariants
  import opened Runs
  import opened Lifecycle
  import opened Theorems
  import opened Traces
  import opened Segments

  // ---- Worlds ------------------------------------------------------------------------

  datatype World = World(s: Sys, flights: seq<Flight>)

  datatype Move =
    | Whole(step: Step)
    | StartDelegation(parentId: string, secret: string, subject: string, scope: seq<string>, ttlSeconds: int,
                      now: int, clock: int)
    | ResumeDelegation(i: nat, clock: int)
    | StartApproval(requestId: string, approver: string, policyId: Option<string>, now: int, clock: int)
    | Finish(i: nat, nonce: Nonce, clock: int)
    | StartEnforcement(tokenId: string, secret: string, action: string, now: int, clock: int)
    | FinishCheck(i: nat)

  predicate Waits(step: Step) {
    step.DoDelegate? || step.DoApprove? || step.DoEnforce?
  }

  /** Any waiting call may go on next; the calls that wait are not taken whole. */
  ghost predicate Possible(w: World, m: Move) {
    match m
    case Whole(step) => !Waits(step) && Fresh(w.s, step)
    case ResumeDelegation(i, _) => i < |w.flights| && w.flights[i].Verifying?
    case Finish(i, n, _) => i < |w.flights| && w.flights[i].Hashing? && n.id != "" && n.id !in w.s.tokens.at
    case FinishCheck(i) => i < |w.flights| && w.flights[i].Checking?
    case _ => true
  }

  function Without(flights: seq<Flight>, i: nat): seq<Flight>
    requires i < |flights|
  {
    flights[..i] + flights[i + 1..]
  }

  function Landed<R>(flights: seq<Flight>, p: Progress<R>): seq<Flight> {
    if p.Waiting? then flights + [p.flight] else flights
  }

  /** The saves after the hash, and what is logged about them. */
  function Finished(s: Sys, f: Flight, n: Nonce, clock: int): Sys
    requires f.Hashing?
  {
    if f.purpose.Delegating? then FinishDelegation(s, f, n, clock).0 else FinishApproval(s, f, n, clock).0
  }

  ghost function Moved(w: World, m: Move): World
    requires Possible(w, m) && Stores(w.s) && Forested(w.s.tokens.at)
  {
    match m
    case Whole(step) => World(Apply(w.s, step), if step.DoRestart? then [] else w.flights)
    case StartDelegation(parentId, secret, subject, scope, ttl, now, clock) =>
      var (s, p) := BeginDelegation(w.s, parentId, secret, subject, scope, ttl, now, clock);
      World(s, Landed(w.flights, p))
    case ResumeDelegation(i, clock) =>
      var (s, p) := ContinueDelegation(w.s, w.flights[i], clock);
      World(s, Landed(Without(w.flights, i), p))
    case StartApproval(id, approver, policyId, now, clock) =>
      var (s, p) := BeginApproval(w.s, id, approver, policyId, now, clock);
      World(s, Landed(w.flights, p))
    case Finish(i, n, clock) => World(Finished(w.s, w.flights[i], n, clock), Without(w.flights, i))
    case StartEnforcement(id, secret, action, now, clock) =>
      var (s, p) := BeginEnforcement(w.s, id, secret, action, now, clock);
      World(s, Landed(w.flights, p))
    case FinishCheck(i) => World(FinishEnforcement(w.s, w.flights[i]).0, Without(w.flights, i))
  }

  ghost predicate Goes(w: World, m: Move, u: World) {
    Possible(w, m) && Stores(w.s) && Forested(w.s.tokens.at) && u == Moved(w, m)
  }

  ghost predicate Flows(w: World, moves: seq<Move>, t: World) {
    Chain(Goes, w, moves, t)
  }

  // ---- What waiting calls know -----------------------------------------------------------

  /** What a waiting call knows of its token is still true of it, status apart. */
  ghost predicate FlightOk(tokens: map<string, Token>, f: Flight) {
    match f
    case Verifying(parentId, parent, _, r, _) =>
      parentId in tokens && Issued(tokens[parentId]) == Issued(parent) && r.parentTokenId == Some(parentId)
    case Hashing(r, _, expiresAt, Delegating(parentId), _) =>
      && r.parentTokenId == Some(parentId) && parentId in tokens && r.scope != []
      && ScopeSet(r.scope) < ScopeSet(tokens[parentId].scope) && expiresAt <= tokens[parentId].expiresAt
    case Hashing(r, _, _, Approving(_, _, _), _) => r.parentTokenId == None && r.scope != []
    case Checking(tokenId, token, _, _, _) => tokenId in tokens && Issued(tokens[tokenId]) == Issued(token)
  }

  /** What a waiting approval knows of its request is still true of it, its status,
      token, secret and assigned approver apart; and it was that approver's to give. */
  ghost predicate ApprovalOnFile(requests: map<string, Request>, f: Flight) {
    f.Hashing? && f.purpose.Approving? ==>
      var (id, pending) := (f.purpose.requestId, f.purpose.pending);
      && pending.id == id && pending.status == RequestStatus.Pending && Eligible(pending, f.purpose.approver)
      && f.request.subject == pending.subject && f.request.scope == pending.scope
      && id in requests && Submitted(requests[id]) == Submitted(pending)
  }

  ghost predicate FlightsOk(tokens: map<string, Token>, flights: seq<Flight>) {
    forall i :: 0 <= i < |flights| ==> FlightOk(tokens, flights[i])
  }

  ghost predicate ApprovalsOnFile(requests: map<string, Request>, flights: seq<Flight>) {
    forall i :: 0 <= i < |flights| ==> ApprovalOnFile(requests, flights[i])
  }

  /** What every interleaving keeps. */
  ghost predicate WorldOk(w: World) {
    && WellFiled(w.s) && Contained(w.s.tokens.at)
    && FlightsOk(w.s.tokens.at, w.flights) && ApprovalsOnFile(w.s.requests.at, w.flights)
  }

  /** What it keeps as long as no approval is late. */
  ghost predicate WorldInOrder(w: World) {
    WorldOk(w) && Decided(ViewOf(w.s))
  }

  ghost predicate Grown(a: map<string, Token>, b: map<string, Token>) {
    forall id :: id in a ==> id in b && TokenEvolves(a[id], b[id])
  }

  /** Requests stay what they were submitted as. */
  ghost predicate Resubmitted(a: map<string, Request>, b: map<string, Request>) {
    forall id :: id in a ==> id in b && Submitted(b[id]) == Submitted(a[id])
  }

  lemma FlightsStay(a: map<string, Token>, b: map<string, Token>, flights: seq<Flight>)
    requires FlightsOk(a, flights) && Grown(a, b)
    ensures FlightsOk(b, flights)
  {
    forall i | 0 <= i < |flights|
      ensures FlightOk(b, flights[i])
    {
      var f := flights[i];
      assert FlightOk(a, f);
      if f.Verifying? {
        IssuedFixes(a[f.parentId], b[f.parentId]);
      } else if f.Hashing? && f.purpose.Delegating? {
        IssuedFixes(a[f.purpose.parentId], b[f.purpose.parentId]);
      }
    }
  }

  lemma ApprovalsStay(a: map<string, Request>, b: map<string, Request>, flights: seq<Flight>)
    requires ApprovalsOnFile(a, flights) && Resubmitted(a, b)
    ensures ApprovalsOnFile(b, flights)
  {
    forall i | 0 <= i < |flights|
      ensures ApprovalOnFile(b, flights[i])
    {
      assert ApprovalOnFile(a, flights[i]);
    }
  }

  // ---- Starting and resuming change nothing decisive ---------------------------------------

  /** At most two reads. */
  lemma DraftedReads(s: Sys, r: Issuance, clock: int)
    ensures var s', s1 := Drafted(s, r, clock).0, Guard(s, clock).0;
            s' == s || s' == s1 || s' == Guard(s1, clock).0
  {
  }

  lemma GuardedQuiet(s: Sys, clock: int)
    requires Stores(s)
    ensures var s' := Guard(s, clock).0;
            Quiet(s, s') && s'.tokens == s.tokens && s'.requests == s.requests
  {
    GuardQuiet(s, clock);
  }

  lemma DraftedQuiet(s: Sys, r: Issuance, clock: int)
    requires Stores(s)
    ensures var s' := Drafted(s, r, clock).0;
            Quiet(s, s') && s'.tokens == s.tokens && s'.requests == s.requests
  {
    var s1 := Guard(s, clock).0;
    GuardedQuiet(s, clock);
    GuardedQuiet(s1, clock);
    QuietTwice(s, s1, Guard(s1, clock).0);
    DraftedReads(s, r, clock);
  }

  lemma DraftedWithin(s: Sys, r: Issuance, clock: int)
    ensures var d := Drafted(s, r, clock).1;
            d.Ok? ==>
              && r.scope != []
              && (Given(r.parentTokenId) && r.parentTokenId.value in s.tokens.at ==>
                    d.value <= s.tokens.at[r.parentTokenId.value].expiresAt)
  {
  }

  /** Where a started or resumed call leaves the state and the flights. */
  ghost predicate Waited<R>(s: Sys, s': Sys, p: Progress<R>) {
    && Quiet(s, s')
    && (p.Waiting? ==> FlightOk(s.tokens.at, p.flight) && ApprovalOnFile(s.requests.at, p.flight))
  }

  lemma StartDelegationWaits(
    s: Sys, parentId: string, secret: string, subject: string, scope: seq<string>, ttl: int, now: int, clock: int)
    requires Stores(s) && Contained(s.tokens.at)
    ensures var (s', p) := BeginDelegation(s, parentId, secret, subject, scope, ttl, now, clock);
            Waited(s, s', p)
  {
    GuardQuiet(s, clock);
    RefusalsQuiet(Guard(s, clock).0, parentId, subject, now);
  }

  lemma ResumeDelegationWaits(s: Sys, f: Flight, clock: int)
    requires Stores(s) && Contained(s.tokens.at) && f.Verifying? && FlightOk(s.tokens.at, f)
    ensures var (s', p) := ContinueDelegation(s, f, clock);
            Waited(s, s', p)
  {
    DraftedQuiet(s, f.request, clock);
    DraftedWithin(s, f.request, clock);
    IssuedFixes(s.tokens.at[f.parentId], f.parent);
    RefusalsQuiet(s, f.parentId, f.request.subject, f.now);
    RefusalsQuiet(Drafted(s, f.request, clock).0, f.parentId, f.request.subject, f.now);
    if DelegationObjection(f.parent, f.secret, f.request.scope, f.now) == None {
      NarrowerScope(f.request.scope, f.parent.scope);
    }
  }

  lemma StartApprovalWaits(s: Sys, id: string, approver: string, policyId: Option<string>, now: int, clock: int)
    requires WellFiled(s)
    ensures var (s', p) := BeginApproval(s, id, approver, policyId, now, clock);
            Waited(s, s', p)
  {
    if PendingRequest(s, id).Ok? {
      var r := s.requests.at[id];
      RequestFiled(s, id);
      if Eligible(r, approver) {
        var issuance := Issuance(r.subject, r.scope, r.ttlSeconds, None, policyId);
        DraftedQuiet(s, issuance, clock);
        DraftedWithin(s, issuance, clock);
        ApprovalFailedQuietly(Drafted(s, issuance, clock).0, id, r, approver, now);
      } else {
        Runs.Rejected(s, r, approver, APPROVE, now);
      }
    }
  }

  lemma ApprovalFailedQuietly(s: Sys, id: string, r: Request, approver: string, now: int)
    requires Stores(s)
    ensures forall e :: Quiet(s, ApprovalFailed(s, id, r, approver, e, now).0)
  {
    forall e
      ensures Quiet(s, ApprovalFailed(s, id, r, approver, e, now).0)
    {
      QuietNote(s, Event(RequestDenied, APPROVE, r.subject, None, Some(id), None, Some(IssueErrorText(e)),
                         Some(approver)), now);
    }
  }

  lemma EnforcementNoteQuiet(s: Sys, id: string, action: string, now: int)
    requires Stores(s)
    ensures forall subject, d :: Quiet(s, EnforcementLogged(s, id, subject, action, d, now).0)
  {
    forall subject, d
      ensures Quiet(s, EnforcementLogged(s, id, subject, action, d, now).0)
    {
      QuietNote(s, EnforcementEvent(id, subject, action, d), now);
    }
  }

  lemma StartEnforcementWaits(s: Sys, id: string, secret: string, action: string, now: int, clock: int)
    requires Stores(s)
    ensures var (s', p) := BeginEnforcement(s, id, secret, action, now, clock);
            Waited(s, s', p)
  {
    GuardQuiet(s, clock);
    EnforcementNoteQuiet(Guard(s, clock).0, id, action, now);
  }

  lemma FlightLands<R>(s: Sys, s': Sys, flights: seq<Flight>, p: Progress<R>)
    requires Waited(s, s', p) && FlightsOk(s.tokens.at, flights) && ApprovalsOnFile(s.requests.at, flights)
    ensures FlightsOk(s'.tokens.at, Landed(flights, p)) && ApprovalsOnFile(s'.requests.at, Landed(flights, p))
  {
    assert ViewOf(s').tokens == ViewOf(s).tokens && ViewOf(s').requests == ViewOf(s).requests;
  }

  /** The moves that neither save a token nor run a whole call. */
  predicate Unsaving(m: Move) {
    !m.Whole? && !m.Finish?
  }

  lemma UnsavingKeeps(w: World, m: Move)
    requires WorldOk(w) && Possible(w, m) && Unsaving(m)
    ensures var u := Moved(w, m);
            && Quiet(w.s, u.s) && WorldOk(u)
            && u.s.tokens.at == w.s.tokens.at && u.s.requests.at == w.s.requests.at
  {
    UnsavingQuiet(w, m);
    var s := Moved(w, m).s;
    assert ViewOf(s).tokens == s.tokens.at && ViewOf(s).requests == s.requests.at;
  }

  lemma UnsavingQuiet(w: World, m: Move)
    requires WorldOk(w) && Possible(w, m) && Unsaving(m)
    ensures var u := Moved(w, m);
            Quiet(w.s, u.s) && WorldOk(u)
  {
    if m.ResumeDelegation? || m.FinishCheck? {
      GoingOnQuiet(w, m);
    } else {
      StartingQuiet(w, m);
    }
  }

  lemma StartingQuiet(w: World, m: Move)
    requires WorldOk(w) && (m.StartDelegation? || m.StartApproval? || m.StartEnforcement?)
    ensures var u := Moved(w, m);
            Quiet(w.s, u.s) && WorldOk(u)
  {
    match m
    case StartDelegation(parentId, secret, subject, scope, ttl, now, clock) =>
      StartDelegationWaits(w.s, parentId, secret, subject, scope, ttl, now, clock);
      var (s, p) := BeginDelegation(w.s, parentId, secret, subject, scope, ttl, now, clock);
      QuietMove(w, w.flights, s, p);
    case StartApproval(id, approver, policyId, now, clock) =>
      StartApprovalWaits(w.s, id, approver, policyId, now, clock);
      var (s, p) := BeginApproval(w.s, id, approver, policyId, now, clock);
      QuietMove(w, w.flights, s, p);
    case StartEnforcement(id, secret, action, now, clock) =>
      StartEnforcementWaits(w.s, id, secret, action, now, clock);
      var (s, p) := BeginEnforcement(w.s, id, secret, action, now, clock);
      QuietMove(w, w.flights, s, p);
  }

  lemma GoingOnQuiet(w: World, m: Move)
    requires WorldOk(w) && Possible(w, m) && (m.ResumeDelegation? || m.FinishCheck?)
    ensures var u := Moved(w, m);
            Quiet(w.s, u.s) && WorldOk(u)
  {
    match m
    case ResumeDelegation(i, clock) =>
      assert FlightOk(w.s.tokens.at, w.flights[i]);
      ResumeDelegationWaits(w.s, w.flights[i], clock);
      var (s, p) := ContinueDelegation(w.s, w.flights[i], clock);
      QuietMove(w, Without(w.flights, i), s, p);
    case FinishCheck(i) =>
      EnforcementNoteQuiet(w.s, w.flights[i].tokenId, w.flights[i].action, w.flights[i].now);
      var (s, d) := FinishEnforcement(w.s, w.flights[i]);
      QuietMove(w, Without(w.flights, i), s, Answered(d));
  }

  lemma QuietMove<R>(w: World, flights: seq<Flight>, s: Sys, p: Progress<R>)
    requires WorldOk(w) && Waited(w.s, s, p)
    requires forall f :: f in flights ==> f in w.flights
    ensures WorldOk(World(s, Landed(flights, p)))
  {
    forall i | 0 <= i < |flights|
      ensures FlightOk(w.s.tokens.at, flights[i]) && ApprovalOnFile(w.s.requests.at, flights[i])
    {
      assert flights[i] in w.flights;
      var j :| 0 <= j < |w.flights| && w.flights[j] == flights[i];
    }
    assert ViewOf(s).tokens == ViewOf(w.s).tokens;
    FlightLands(w.s, s, flights, p);
  }

  // ---- Whole calls -------------------------------------------------------------------------

  lemma WholeStepKeeps(s: Sys, step: Step)
    requires WellFiled(s) && Contained(s.tokens.at) && !Waits(step) && Fresh(s, step)
    ensures var s' := Apply(s, step);
            && Keeps(s, s') && Contained(s'.tokens.at) && TokensEvolve(s.tokens.at, s'.tokens.at)
            && (!step.DoRevoke? ==> s'.tokens.at == s.tokens.at)
  {
    if step.DoRevoke? {
      RevokeKeeps(s, step.tokenId, step.reason, step.now, step.actor, step.clock);
    } else if OnRequests(step) {
      RequestStepKeeps(s, step);
    } else if step.DoRestart? {
      RestartKeeps(s);
    } else {
      UnseenStepQuiet(s, step);
      EvolvesReflexive(ViewOf(s));
      assert ViewOf(Apply(s, step)).tokens == s.tokens.at;
    }
  }

  lemma WholeMove(w: World, step: Step)
    requires WorldOk(w) && Possible(w, Whole(step)) && !step.DoRestart?
    ensures Goes(w, Whole(step), World(Apply(w.s, step), w.flights))
  {
  }

  lemma WholeKeeps(w: World, step: Step)
    requires WorldOk(w) && Possible(w, Whole(step))
    ensures var u := Moved(w, Whole(step));
            && WorldOk(u) && Keeps(w.s, u.s) && TokensEvolve(w.s.tokens.at, u.s.tokens.at)
            && (!step.DoRevoke? ==> u.s.tokens.at == w.s.tokens.at)
  {
    WholeStepKeeps(w.s, step);
    var u := Moved(w, Whole(step));
    FlightsStay(w.s.tokens.at, u.s.tokens.at, u.flights);
    EvolvedResubmitted(w.s, u.s);
    ApprovalsStay(w.s.requests.at, u.s.requests.at, u.flights);
  }

  lemma WholeInOrder(w: World, step: Step)
    requires WorldInOrder(w) && Possible(w, Whole(step))
    ensures WorldInOrder(Moved(w, Whole(step)))
  {
    WholeKeeps(w, step);
  }

  lemma EvolvedResubmitted(s: Sys, s': Sys)
    requires Evolves(ViewOf(s), ViewOf(s'))
    ensures Resubmitted(s.requests.at, s'.requests.at)
  {
    forall id | id in s.requests.at
      ensures id in s'.requests.at && Submitted(s'.requests.at[id]) == Submitted(s.requests.at[id])
    {
      assert id in ViewOf(s).requests && RequestEvolves(s.requests.at[id], s'.requests.at[id]);
    }
  }

  // ---- Saving a token ------------------------------------------------------------------------

  function TokenOf(f: Flight, n: Nonce): Token
    requires f.Hashing?
  {
    Minted(f.request, f.issuedAt, f.expiresAt, n)
  }

  /** Finishing saves one token no wider and no longer-lived than its parent, or,
      when the store does not answer, none. */
  lemma FinishSaves(w: World, i: nat, n: Nonce, clock: int)
    requires WorldOk(w) && Possible(w, Finish(i, n, clock))
    ensures var s', t := Finished(w.s, w.flights[i], n, clock), TokenOf(w.flights[i], n);
            && Stores(s') && Narrower(w.s.tokens.at, t) && IsActive(t)
            && s'.tokens == if Guard(w.s, clock).1 then w.s.tokens.Set(n.id, t) else w.s.tokens
  {
    var f := w.flights[i];
    assert FlightOk(w.s.tokens.at, f);
    var t := TokenOf(f, n);
    var s1 := Guard(w.s, clock).0;
    SetKeepsValid(s1.tokens, t.id, t);
    if f.purpose.Approving? {
      SetKeepsValid(s1.requests, f.purpose.pending.id, ApprovedAs(f.purpose.pending, t, n.secret));
    }
  }

  /** A call that reaches its save, and whose save is answered. */
  ghost predicate Saves(w: World, m: Move) {
    m.Finish? && m.i < |w.flights| && w.flights[m.i].Hashing? && Guard(w.s, m.clock).1
  }

  ghost predicate ChildSaves(w: World, m: Move) {
    Saves(w, m) && w.flights[m.i].purpose.Delegating?
  }

  ghost predicate ApprovalSaves(w: World, m: Move) {
    && Saves(w, m) && w.flights[m.i].purpose.Approving?
    && w.flights[m.i].purpose.requestId in w.s.requests.at
  }

  /** An approval that reaches its save after its request was decided. */
  ghost predicate LateApproval(w: World, m: Move) {
    ApprovalSaves(w, m) && w.s.requests.at[w.flights[m.i].purpose.requestId].status != RequestStatus.Pending
  }

  /** The entry a finished approval leaves. */
  function FinishEntry(f: Flight, t: Token): Recorded
    requires f.Hashing? && f.purpose.Approving?
  {
    ApprovalEntry(f.purpose.pending, t, f.request.policyId, f.purpose.approver, f.now)
  }

  lemma FinishDelegationView(s: Sys, f: Flight, n: Nonce, clock: int)
    requires Stores(s) && f.Hashing? && f.purpose.Delegating?
    ensures var s' := FinishDelegation(s, f, n, clock).0;
            if Guard(s, clock).1
            then Stores(s') && ViewOf(s') == ViewOf(s).(tokens := s.tokens.at[n.id := TokenOf(f, n)])
            else Quiet(s, s')
  {
    GuardQuiet(s, clock);
    var s1 := Guard(s, clock).0;
    RefusalsQuiet(s1, f.purpose.parentId, f.request.subject, f.now);
    SaveTokenView(s1, TokenOf(f, n));
    QuietNote(SaveToken(s1, TokenOf(f, n)),
              PlainEvent(Decision.Allowed, "delegate", f.request.subject).(tokenId := Some(n.id)), f.now);
  }

  lemma FinishApprovalView(s: Sys, f: Flight, n: Nonce, clock: int)
    requires Stores(s) && f.Hashing? && f.purpose.Approving? && f.purpose.pending.id == f.purpose.requestId
    ensures var s', t := FinishApproval(s, f, n, clock).0, TokenOf(f, n);
            if Guard(s, clock).1
            then Stores(s') && ViewOf(s') == WithRoot(ViewOf(s), f.purpose.requestId,
                                                     ApprovedAs(f.purpose.pending, t, n.secret), t, FinishEntry(f, t))
            else Quiet(s, s')
  {
    GuardQuiet(s, clock);
    if Guard(s, clock).1 {
      RootSaved(s, f, n, clock);
    } else {
      ApprovalFailedQuietly(Guard(s, clock).0, f.purpose.requestId, f.purpose.pending, f.purpose.approver, f.now);
    }
  }

  lemma RootSaved(s: Sys, f: Flight, n: Nonce, clock: int)
    requires Stores(s) && f.Hashing? && f.purpose.Approving? && f.purpose.pending.id == f.purpose.requestId
    requires Guard(s, clock).1
    ensures var s', t := FinishApproval(s, f, n, clock).0, TokenOf(f, n);
            && Stores(s')
            && ViewOf(s') == WithRoot(ViewOf(s), f.purpose.requestId, ApprovedAs(f.purpose.pending, t, n.secret), t,
                                      FinishEntry(f, t))
  {
    GuardQuiet(s, clock);
    var s1, t := Guard(s, clock).0, TokenOf(f, n);
    SaveTokenView(s1, t);
    RootView(s, SaveToken(s1, t), ApprovedAs(f.purpose.pending, t, n.secret), t, FinishEntry(f, t));
  }

  /** What an approval saves fits together, whatever became of its request. */
  lemma ApprovalFits(s: Sys, f: Flight, n: Nonce)
    requires f.Hashing? && f.purpose.Approving? && FlightOk(s.tokens.at, f) && ApprovalOnFile(s.requests.at, f)
    requires n.id !in s.tokens.at
    ensures var t := TokenOf(f, n);
            Approves(ViewOf(s), f.purpose.requestId, ApprovedAs(f.purpose.pending, t, n.secret), t, FinishEntry(f, t))
  {
  }

  lemma ChildKeepsFiles(s: Sys, f: Flight, n: Nonce, clock: int)
    requires WellFiled(s) && f.Hashing? && f.purpose.Delegating? && FlightOk(s.tokens.at, f) && n.id !in s.tokens.at
    ensures Keeps(s, FinishDelegation(s, f, n, clock).0)
  {
    EvolvesReflexive(ViewOf(s));
    FinishDelegationView(s, f, n, clock);
    NewChild(ViewOf(s), TokenOf(f, n));
  }

  lemma RootKeepsFiles(s: Sys, f: Flight, n: Nonce, clock: int)
    requires WellFiled(s) && f.Hashing? && f.purpose.Approving? && n.id !in s.tokens.at
    requires FlightOk(s.tokens.at, f) && ApprovalOnFile(s.requests.at, f)
    ensures var s' := FinishApproval(s, f, n, clock).0;
            var late := Guard(s, clock).1 && s.requests.at[f.purpose.requestId].status != RequestStatus.Pending;
            && WellFiled(s') && Resubmitted(s.requests.at, s'.requests.at)
            && (!late ==> Keeps(s, s'))
            && (late && Decided(ViewOf(s)) ==> !Decided(ViewOf(s')) && !Evolves(ViewOf(s), ViewOf(s')))
  {
    FinishApprovalView(s, f, n, clock);
    var s' := FinishApproval(s, f, n, clock).0;
    assert ViewOf(s').requests == s'.requests.at && ViewOf(s).requests == s.requests.at;
    if Guard(s, clock).1 {
      ApprovalFits(s, f, n);
      RootKeepsView(ViewOf(s), f, n);
    } else {
      EvolvesReflexive(ViewOf(s));
    }
  }

  lemma RootKeepsView(v: View, f: Flight, n: Nonce)
    requires Filed(v) && f.Hashing? && f.purpose.Approving?
    requires var t := TokenOf(f, n);
             Approves(v, f.purpose.requestId, ApprovedAs(f.purpose.pending, t, n.secret), t, FinishEntry(f, t))
    ensures var id, t := f.purpose.requestId, TokenOf(f, n);
            var w := WithRoot(v, id, ApprovedAs(f.purpose.pending, t, n.secret), t, FinishEntry(f, t));
            && Filed(w) && Resubmitted(v.requests, w.requests)
            && (v.requests[id].status == RequestStatus.Pending ==> Follows(v, w))
            && (v.requests[id].status != RequestStatus.Pending && Decided(v) ==> !Decided(w) && !Evolves(v, w))
  {
    var t := TokenOf(f, n);
    ApprovedRequest(v, f.purpose.requestId, ApprovedAs(f.purpose.pending, t, n.secret), t, FinishEntry(f, t));
  }

  lemma FinishFiled(w: World, i: nat, n: Nonce, clock: int)
    requires WorldOk(w) && Possible(w, Finish(i, n, clock))
    ensures var s', late := Finished(w.s, w.flights[i], n, clock), LateApproval(w, Finish(i, n, clock));
            && WellFiled(s') && Resubmitted(w.s.requests.at, s'.requests.at)
            && (!late ==> Keeps(w.s, s'))
            && (late && Decided(ViewOf(w.s)) ==> !Decided(ViewOf(s')) && !Evolves(ViewOf(w.s), ViewOf(s')))
  {
    var f := w.flights[i];
    assert FlightOk(w.s.tokens.at, f) && ApprovalOnFile(w.s.requests.at, f);
    if f.purpose.Delegating? {
      ChildKeepsFiles(w.s, f, n, clock);
      EvolvedResubmitted(w.s, FinishDelegation(w.s, f, n, clock).0);
    } else {
      RootKeepsFiles(w.s, f, n, clock);
    }
  }

  lemma RestOfFlights(w: World, i: nat)
    requires i < |w.flights|
    ensures FlightsOk(w.s.tokens.at, w.flights) ==> FlightsOk(w.s.tokens.at, Without(w.flights, i))
    ensures ApprovalsOnFile(w.s.requests.at, w.flights) ==> ApprovalsOnFile(w.s.requests.at, Without(w.flights, i))
  {
  }

  lemma FinishKeeps(w: World, i: nat, n: Nonce, clock: int)
    requires WorldOk(w) && Possible(w, Finish(i, n, clock))
    ensures var u := Moved(w, Finish(i, n, clock));
            WorldOk(u) && Grown(w.s.tokens.at, u.s.tokens.at) && Resubmitted(w.s.requests.at, u.s.requests.at)
  {
    FinishContained(w, i, n, clock);
    FinishFiled(w, i, n, clock);
    OthersWait(w, i, Finished(w.s, w.flights[i], n, clock));
  }

  lemma FinishContained(w: World, i: nat, n: Nonce, clock: int)
    requires WorldOk(w) && Possible(w, Finish(i, n, clock))
    ensures var s' := Finished(w.s, w.flights[i], n, clock);
            Contained(s'.tokens.at) && Grown(w.s.tokens.at, s'.tokens.at)
  {
    FinishSaves(w, i, n, clock);
    NarrowerToken(w.s.tokens.at, TokenOf(w.flights[i], n));
  }

  lemma OthersWait(w: World, i: nat, s: Sys)
    requires WorldOk(w) && i < |w.flights|
    requires Grown(w.s.tokens.at, s.tokens.at) && Resubmitted(w.s.requests.at, s.requests.at)
    ensures FlightsOk(s.tokens.at, Without(w.flights, i)) && ApprovalsOnFile(s.requests.at, Without(w.flights, i))
  {
    RestOfFlights(w, i);
    FlightsStay(w.s.tokens.at, s.tokens.at, Without(w.flights, i));
    ApprovalsStay(w.s.requests.at, s.requests.at, Without(w.flights, i));
  }

  /** Every move, however interleaved, keeps containment and everything filed, and
      what waiting calls know of their tokens and requests. */
  lemma MoveKeeps(w: World, m: Move)
    requires WorldOk(w) && Possible(w, m)
    ensures var u := Moved(w, m);
            WorldOk(u) && Grown(w.s.tokens.at, u.s.tokens.at) && Resubmitted(w.s.requests.at, u.s.requests.at)
  {
    match m
    case Whole(step) =>
      WholeKeeps(w, step);
      EvolvedResubmitted(w.s, Moved(w, m).s);
    case Finish(i, n, clock) => FinishKeeps(w, i, n, clock);
    case _ => UnsavingKeeps(w, m);
  }

  lemma {:induction false} FlowKeeps(w: World, moves: seq<Move>, t: World)
    requires WorldOk(w) && Flows(w, moves, t)
    ensures WorldOk(t) && Grown(w.s.tokens.at, t.s.tokens.at) && Resubmitted(w.s.requests.at, t.s.requests.at)
    decreases |moves|
  {
    if moves != [] {
      var u :| Goes(w, moves[0], u) && Chain(Goes, u, moves[1..], t);
      MoveKeeps(w, moves[0]);
      FlowKeeps(u, moves[1..], t);
    }
  }

  /** Reached from an empty start by calls interleaved in any way. */
  ghost predicate Occurs(t: World) {
    exists start, moves :: Start(start) && Flows(World(start, []), moves, t)
  }

  lemma StartInOrder(start: Sys)
    requires Start(start)
    ensures WorldInOrder(World(start, [])) && TokensOk(start.tokens.at)
  {
    StartSound(start);
  }

  lemma OccursOk(t: World)
    requires Occurs(t)
    ensures WorldOk(t)
  {
    var start, moves :| Start(start) && Flows(World(start, []), moves, t);
    StartInOrder(start);
    FlowKeeps(World(start, []), moves, t);
  }

  // ---- What every interleaving keeps ---------------------------------------------------------

  /** However calls interleave, a descendant's scope and lifetime stay within
      those of every ancestor: whatever it is allowed, the ancestor is too, unless
      the ancestor has been revoked. */
  lemma ContainmentSurvivesInterleaving(t: World, a: string, d: string, action: string, now: int)
    requires Occurs(t) && Descends(t.s, a, d)
    ensures var tokens := t.s.tokens.at;
            && ScopeSet(tokens[d].scope) <= ScopeSet(tokens[a].scope) && tokens[d].expiresAt <= tokens[a].expiresAt
            && (Decide(tokens[d], action, now) == Allow ==>
                  Decide(tokens[a], action, now) == if IsActive(tokens[a]) then Allow else Deny(TokenRevoked))
  {
    OccursOk(t);
    ExpiryCapped(t.s.tokens.at, a, d);
    if Decide(t.s.tokens.at[d], action, now) == Allow {
      assert action in ScopeSet(t.s.tokens.at[d].scope);
    }
  }

  /** However calls interleave, a token is revoked exactly when a "revoked" entry
      names it, and a claim that succeeds hands its subject the request's own token
      with a secret that verifies against it. */
  lemma RevocationsAndClaimsHonest(t: World, id: string, subject: string, now: int)
    requires Occurs(t)
    ensures RevocationLogged(t.s, id)
    ensures ClaimHonest(t.s, id, subject, now)
  {
    OccursOk(t);
    RevocationsAgree(t.s, id);
    ClaimReply(t.s, id, subject, now);
  }

  /** However calls interleave, a retry under a key that was used finds the request
      filed under it and changes nothing. */
  lemma RetryFindsItInterleaved(
    w: World, subject: string, scope: seq<string>, ttl: int, key: string, id: string, primary: Option<string>, now: int,
    u: World, moves: seq<Move>, t: World,
    scope': seq<string>, ttl': int, id': string, primary': Option<string>, later: int)
    requires WorldOk(w) && key != ""
    requires Goes(w, Whole(DoRequestToken(subject, scope, ttl, Some(key), id, primary, now)), u) && Flows(u, moves, t)
    ensures Stores(t.s)
    ensures var first := RequestToken(w.s, subject, scope, ttl, Some(key), id, primary, now).1;
            var (t', again) := RequestToken(t.s, subject, scope', ttl', Some(key), id', primary', later);
            && t' == t.s && again.id == first.id && first.id in t.s.requests.at
            && again == t.s.requests.at[first.id]
  {
    WholeKeeps(w, DoRequestToken(subject, scope, ttl, Some(key), id, primary, now));
    FirstSubmissionFiled(w.s, subject, scope, ttl, key, id, primary, now);
    FlowKeeps(u, moves, t);
    var first := RequestToken(w.s, subject, scope, ttl, Some(key), id, primary, now).1;
    KeyFindsIt(t.s, first, subject, key);
  }

  /** No part of a call that waits touches a policy. */
  lemma MoveKeepsPolicies(w: World, m: Move)
    requires Possible(w, m) && Stores(w.s) && Forested(w.s.tokens.at) && PoliciesOk(w.s.policies)
    ensures PoliciesOk(Moved(w, m).s.policies)
  {
    if m.Whole? {
      StepKeepsPolicies(w.s, m.step);
    } else {
      PartKeepsPolicies(w, m);
    }
  }

  lemma PartKeepsPolicies(w: World, m: Move)
    requires Possible(w, m) && Stores(w.s) && Forested(w.s.tokens.at) && !m.Whole?
    ensures Moved(w, m).s.policies == w.s.policies
  {
    match m
    case ResumeDelegation(i, clock) => DraftKeepsPolicies(w.s, w.flights[i].request, clock);
    case StartApproval(id, approver, policyId, now, clock) =>
      if id in w.s.requests.at {
        var r := w.s.requests.at[id];
        DraftKeepsPolicies(w.s, Issuance(r.subject, r.scope, r.ttlSeconds, None, policyId), clock);
      }
    case Finish(i, n, clock) => FinishKeepsPolicies(w.s, w.flights[i], n, clock);
    case _ =>
  }

  lemma DraftKeepsPolicies(s: Sys, r: Issuance, clock: int)
    ensures Drafted(s, r, clock).0.policies == s.policies
  {
  }

  lemma FinishKeepsPolicies(s: Sys, f: Flight, n: Nonce, clock: int)
    requires f.Hashing?
    ensures Finished(s, f, n, clock).policies == s.policies
  {
  }

  lemma {:induction false} FlowKeepsPolicies(w: World, moves: seq<Move>, t: World)
    requires PoliciesOk(w.s.policies) && Flows(w, moves, t)
    ensures PoliciesOk(t.s.policies)
    decreases |moves|
  {
    if moves != [] {
      var u :| Goes(w, moves[0], u) && Chain(Goes, u, moves[1..], t);
      MoveKeepsPolicies(w, moves[0]);
      FlowKeepsPolicies(u, moves[1..], t);
    }
  }

  /** However calls interleave, every policy on file is acceptable. */
  lemma PoliciesAcceptableInterleaved(t: World)
    requires Occurs(t)
    ensures PoliciesOk(t.s.policies)
  {
    var start, moves :| Start(start) && Flows(World(start, []), moves, t);
    FlowKeepsPolicies(World(start, []), moves, t);
  }

  /** Approved, its secret gone, and no approval waiting that could bring one back. */
  ghost predicate Barred(w: World, id: string) {
    Spent(w.s.requests.at, id) && forall f :: f in w.flights ==> !AwaitsApproval(f, id)
  }

  predicate AwaitsApproval(f: Flight, id: string) {
    f.Hashing? && f.purpose.Approving? && f.purpose.requestId == id
  }

  lemma BarredStays(w: World, m: Move, id: string)
    requires WorldOk(w) && Possible(w, m) && Barred(w, id)
    ensures Barred(Moved(w, m), id)
  {
    match m
    case Whole(step) => BarredWhole(w, step, id);
    case Finish(i, n, clock) => BarredFinish(w, i, n, clock, id);
    case _ =>
      UnsavingKeeps(w, m);
      NothingLands(w, m, id);
  }

  lemma BarredWhole(w: World, step: Step, id: string)
    requires WorldOk(w) && Possible(w, Whole(step)) && Barred(w, id)
    ensures Barred(Moved(w, Whole(step)), id)
  {
    WholeKeeps(w, step);
    var u := Moved(w, Whole(step));
    assert id in ViewOf(w.s).requests && RequestEvolves(w.s.requests.at[id], u.s.requests.at[id]);
  }

  /** An approval waits only for a request that is pending. */
  lemma ApprovalLands(s: Sys, id: string, approver: string, policyId: Option<string>, now: int, clock: int)
    ensures var p := BeginApproval(s, id, approver, policyId, now, clock).1;
            p.Waiting? ==>
              && id in s.requests.at && s.requests.at[id].status == RequestStatus.Pending
              && AwaitsApproval(p.flight, id)
  {
  }

  lemma NothingLands(w: World, m: Move, id: string)
    requires Possible(w, m) && Unsaving(m) && Stores(w.s) && Forested(w.s.tokens.at) && Barred(w, id)
    ensures forall f :: f in Moved(w, m).flights ==> !AwaitsApproval(f, id)
  {
    match m
    case StartApproval(other, approver, policyId, now, clock) =>
      ApprovalLands(w.s, other, approver, policyId, now, clock);
      LandedAmong(w.flights, BeginApproval(w.s, other, approver, policyId, now, clock).1);
    case ResumeDelegation(i, clock) =>
      NoApprovalLands(w.s, w.flights[i], clock, id);
      OthersAmong(w.flights, i);
      LandedAmong(Without(w.flights, i), ContinueDelegation(w.s, w.flights[i], clock).1);
    case StartDelegation(parentId, secret, subject, scope, ttl, now, clock) =>
      LandedAmong(w.flights, BeginDelegation(w.s, parentId, secret, subject, scope, ttl, now, clock).1);
    case StartEnforcement(token, secret, action, now, clock) =>
      LandedAmong(w.flights, BeginEnforcement(w.s, token, secret, action, now, clock).1);
    case FinishCheck(i) => OthersAmong(w.flights, i);
  }

  lemma LandedAmong<R>(flights: seq<Flight>, p: Progress<R>)
    ensures forall f :: f in Landed(flights, p) ==> f in flights || (p.Waiting? && f == p.flight)
  {
  }

  lemma OthersAmong(flights: seq<Flight>, i: nat)
    requires i < |flights|
    ensures forall f :: f in Without(flights, i) ==> f in flights
  {
  }

  lemma NoApprovalLands(s: Sys, f: Flight, clock: int, id: string)
    requires f.Verifying?
    ensures var p := ContinueDelegation(s, f, clock).1;
            p.Waiting? ==> !AwaitsApproval(p.flight, id)
  {
  }

  lemma BarredFinish(w: World, i: nat, n: Nonce, clock: int, id: string)
    requires WorldOk(w) && Possible(w, Finish(i, n, clock)) && Barred(w, id)
    ensures Spent(Finished(w.s, w.flights[i], n, clock).requests.at, id)
  {
    assert FlightOk(w.s.tokens.at, w.flights[i]) && ApprovalOnFile(w.s.requests.at, w.flights[i]);
    SavesNoOther(w.s, w.flights[i], n, clock, id);
  }

  /** What finishes saves no request but the one it approves. */
  lemma SavesNoOther(s: Sys, f: Flight, n: Nonce, clock: int, id: string)
    requires f.Hashing? && !AwaitsApproval(f, id) && ApprovalOnFile(s.requests.at, f) && id in s.requests.at
    ensures var s' := Finished(s, f, n, clock);
            id in s'.requests.at && s'.requests.at[id] == s.requests.at[id]
  {
    GuardQuiet(s, clock);
  }

  lemma {:induction false} BarredInRuns(w: World, moves: seq<Move>, t: World, id: string)
    requires WorldOk(w) && Flows(w, moves, t) && Barred(w, id)
    ensures Barred(t, id)
    decreases |moves|
  {
    if moves != [] {
      var u :| Goes(w, moves[0], u) && Chain(Goes, u, moves[1..], t);
      MoveKeeps(w, moves[0]);
      BarredStays(w, moves[0], id);
      BarredInRuns(u, moves[1..], t, id);
    }
  }

  /** However calls interleave, no claim succeeds for a request approved before a
      restart: what waited then is gone, and nothing new can approve it again. */
  lemma NoClaimAcrossRestartInterleaved(
    w: World, u: World, moves: seq<Move>, t: World, id: string, subject: string, now: int)
    requires WorldOk(w) && id in w.s.requests.at && w.s.requests.at[id].status == RequestStatus.Approved
    requires Goes(w, Whole(DoRestart), u) && Flows(u, moves, t)
    ensures ClaimTokenSecret(t.s, id, subject, now).1.Err?
  {
    RestartBars(w, u, id);
    BarredInRuns(u, moves, t, id);
  }

  lemma RestartBars(w: World, u: World, id: string)
    requires WorldOk(w) && id in w.s.requests.at && w.s.requests.at[id].status == RequestStatus.Approved
    requires Goes(w, Whole(DoRestart), u)
    ensures WorldOk(u) && Barred(u, id)
  {
    RestartSpends(w.s, id);
    MoveKeeps(w, Whole(DoRestart));
  }

  lemma RestartSpends(s: Sys, id: string)
    requires id in s.requests.at && s.requests.at[id].status == RequestStatus.Approved
    ensures Spent(Restart(s).requests.at, id)
  {
  }

  // ---- Calls that do not overlap are interleavings too -------------------------------------------

  lemma PartMove(w: World, m: Move) returns (u: World)
    requires WorldOk(w) && Possible(w, m)
    ensures u == Moved(w, m) && WorldOk(u) && Flows(w, [m], u)
  {
    MoveKeeps(w, m);
    u := Moved(w, m);
    ChainOne(Goes, w, m, u);
  }

  lemma ThenMove(w: World, moves: seq<Move>, u: World, m: Move, t: World) returns (all: seq<Move>)
    requires Flows(w, moves, u) && Flows(u, [m], t)
    ensures Flows(w, all, t)
  {
    ChainJoin(Goes, w, moves, u, [m], t);
    all := moves + [m];
  }

  lemma EnforceInterleaved(s: Sys, id: string, secret: string, action: string, now: int, clock: int)
    returns (moves: seq<Move>)
    requires WorldOk(World(s, []))
    ensures Flows(World(s, []), moves, World(EnforceToken(s, id, secret, action, now, clock).0, []))
  {
    var start := StartEnforcement(id, secret, action, now, clock);
    var (s1, p) := BeginEnforcement(s, id, secret, action, now, clock);
    EnforceInParts(s, id, secret, action, now, clock);
    var u := PartMove(World(s, []), start);
    assert u == World(s1, Landed([], p));
    moves := [start];
    if p.Waiting? {
      var t := LastPart(u, FinishCheck(0));
      moves := ThenMove(World(s, []), moves, u, FinishCheck(0), t);
    }
  }

  /** The one call that waits comes to its end. */
  lemma LastPart(u: World, m: Move) returns (t: World)
    requires WorldOk(u) && |u.flights| == 1 && Possible(u, m)
    requires m.FinishCheck? || m.Finish?
    ensures WorldOk(t) && Flows(u, [m], t) && t.flights == []
    ensures t.s == match m
                   case FinishCheck(_) => FinishEnforcement(u.s, u.flights[0]).0
                   case Finish(_, n, clock) => Finished(u.s, u.flights[0], n, clock)
                   case _ => u.s
  {
    t := PartMove(u, m);
    assert Without(u.flights, 0) == [];
  }

  lemma ApproveInterleaved(
    s: Sys, id: string, approver: string, policyId: Option<string>, n: Nonce, now: int, clock: int)
    returns (moves: seq<Move>)
    requires WorldOk(World(s, [])) && n.id != "" && n.id !in s.tokens.at
    ensures Flows(World(s, []), moves, World(ApproveRequest(s, id, approver, policyId, n, now, clock).0, []))
  {
    var start := StartApproval(id, approver, policyId, now, clock);
    var (s1, p) := BeginApproval(s, id, approver, policyId, now, clock);
    ApproveInParts(s, id, approver, policyId, n, now, clock);
    UnsavingKeeps(World(s, []), start);
    var u := PartMove(World(s, []), start);
    assert u == World(s1, Landed([], p));
    moves := [start];
    if p.Waiting? {
      ApprovalLands(s, id, approver, policyId, now, clock);
      var t := LastPart(u, Finish(0, n, clock));
      moves := ThenMove(World(s, []), moves, u, Finish(0, n, clock), t);
    }
  }

  lemma DelegateInterleaved(
    s: Sys, parent: string, secret: string, subject: string, scope: seq<string>, ttl: int, n: Nonce, now: int,
    clock: int) returns (moves: seq<Move>)
    requires WorldOk(World(s, [])) && n.id != "" && n.id !in s.tokens.at
    ensures Flows(World(s, []), moves,
                  World(DelegateToken(s, parent, secret, subject, scope, ttl, n, now, clock).0, []))
  {
    var start := StartDelegation(parent, secret, subject, scope, ttl, now, clock);
    UnsavingKeeps(World(s, []), start);
    var u := PartMove(World(s, []), start);
    DelegateInParts(s, parent, secret, subject, scope, ttl, n, now, clock);
    moves := [start];
    if u.flights != [] {
      var rest, t := RestInterleaved(u, n, clock);
      ChainJoin(Goes, World(s, []), moves, u, rest, t);
      moves := moves + rest;
    }
  }

  lemma RestInterleaved(u: World, n: Nonce, clock: int) returns (moves: seq<Move>, t: World)
    requires WorldOk(u) && |u.flights| == 1 && u.flights[0].Verifying? && n.id != "" && n.id !in u.s.tokens.at
    ensures Flows(u, moves, t)
    ensures var (s2, continued) := ContinueDelegation(u.s, u.flights[0], clock);
            t == World(match continued
                       case Answered(d) => s2
                       case Waiting(g) => if g.Hashing? then Finished(s2, g, n, clock) else s2, [])
  {
    var resume := ResumeDelegation(0, clock);
    UnsavingKeeps(u, resume);
    var v := PartMove(u, resume);
    moves, t := [resume], v;
    if v.flights != [] {
      t := LastPart(v, Finish(0, n, clock));
      moves := ThenMove(u, moves, v, Finish(0, n, clock), t);
    }
  }

  /** A call made and finished at once is its parts, one after the other. */
  lemma CallInterleaved(s: Sys, step: Step) returns (moves: seq<Move>)
    requires WorldOk(World(s, [])) && Fresh(s, step)
    ensures Flows(World(s, []), moves, World(Apply(s, step), []))
  {
    match step
    case DoEnforce(id, secret, action, now, clock) => moves := EnforceInterleaved(s, id, secret, action, now, clock);
    case DoApprove(id, approver, policyId, n, now, clock) =>
      moves := ApproveInterleaved(s, id, approver, policyId, n, now, clock);
    case DoDelegate(parent, secret, subject, scope, ttl, n, now, clock) =>
      moves := DelegateInterleaved(s, parent, secret, subject, scope, ttl, n, now, clock);
    case _ =>
      var u := PartMove(World(s, []), Whole(step));
      moves := [Whole(step)];
  }

  /** So every run of calls that do not overlap is an interleaving, and what holds of
      all interleavings holds of it. */
  lemma {:induction false} RunInterleaved(s: Sys, steps: seq<Step>, t: Sys) returns (moves: seq<Move>)
    requires Sound(s) && Leads(s, steps, t)
    ensures Flows(World(s, []), moves, World(t, []))
    decreases |steps|
  {
    moves := [];
    if steps != [] {
      var u :| Takes(s, steps[0], u) && Chain(Takes, u, steps[1..], t);
      StepSound(s, steps[0]);
      var first := CallInterleaved(s, steps[0]);
      var rest := RunInterleaved(u, steps[1..], t);
      ChainJoin(Goes, World(s, []), first, World(u, []), rest, World(t, []));
      moves := first + rest;
    }
  }

  lemma ReachableOccurs(s: Sys)
    requires Reachable(s)
    ensures Occurs(World(s, []))
  {
    var start, steps :| Start(start) && Leads(start, steps, s);
    StartSound(start);
    var moves := RunInterleaved(start, steps, s);
  }

  // ---- The policy of an approval that waits -------------------------------------------------------

  /** A waiting approval stays within the policy it was checked against. */
  ghost predicate CheckedAgainst(f: Flight, policyId: string, p: Policy) {
    && f.Hashing? && f.purpose.Approving? && f.request.policyId == Some(policyId)
    && Within(f.request.scope, p.allowedScope) && f.expiresAt <= f.issuedAt + p.maxTtlSeconds * 1000
  }

  lemma ApprovalChecked(s: Sys, id: string, approver: string, policyId: string, now: int, clock: int)
    requires policyId != ""
    ensures var (s', p) := BeginApproval(s, id, approver, Some(policyId), now, clock);
            p.Waiting? ==> policyId in s.policies.at && CheckedAgainst(p.flight, policyId, s.policies.at[policyId])
  {
  }

  /** However calls interleave, whatever is ever delegated from a token approved
      under a policy stays within that policy as it stood when the approval started,
      whatever becomes of it during the wait and after; the approval entry names it. */
  lemma PolicyBindsInterleaved(
    w: World, requestId: string, approver: string, policyId: string, now: int, clock: int, u: World,
    before: seq<Move>, v: World, i: nat, n: Nonce, at: int, x: World, after: seq<Move>, t: World, d: string)
    requires WorldOk(w) && policyId != ""
    requires Goes(w, StartApproval(requestId, approver, Some(policyId), now, clock), u) && |u.flights| > |w.flights|
    requires Flows(u, before, v) && i < |v.flights| && v.flights[i] == u.flights[|w.flights|]
    requires Goes(v, Finish(i, n, at), x) && Guard(v.s, at).1
    requires Flows(x, after, t) && Descends(t.s, n.id, d)
    ensures policyId in w.s.policies.at
    ensures var policy := w.s.policies.at[policyId];
            && Within(t.s.tokens.at[d].scope, policy.allowedScope)
            && t.s.tokens.at[d].expiresAt <= t.s.tokens.at[n.id].issuedAt + policy.maxTtlSeconds * 1000
    ensures exists e :: e in Select(x.s.log, Approvals) && e.event.tokenId == Some(n.id)
                        && e.event.requestId == Some(requestId) && e.event.policyId == Some(policyId)
  {
    ApprovalMove(w, requestId, approver, policyId, now, clock, u);
    FlowKeeps(u, before, v);
    RootStaysBound(v, i, n, at, x, after, t, d, policyId, w.s.policies.at[policyId]);
  }

  lemma RootStaysBound(
    v: World, i: nat, n: Nonce, at: int, x: World, after: seq<Move>, t: World, d: string, policyId: string, p: Policy)
    requires WorldOk(v) && Goes(v, Finish(i, n, at), x) && Guard(v.s, at).1
    requires CheckedAgainst(v.flights[i], policyId, p) && Flows(x, after, t) && Descends(t.s, n.id, d)
    ensures Within(t.s.tokens.at[d].scope, p.allowedScope)
    ensures t.s.tokens.at[d].expiresAt <= t.s.tokens.at[n.id].issuedAt + p.maxTtlSeconds * 1000
    ensures exists e :: e in Select(x.s.log, Approvals) && e.event.tokenId == Some(n.id)
                        && e.event.requestId == Some(v.flights[i].purpose.requestId)
                        && e.event.policyId == Some(policyId)
  {
    FinishMove(v, i, n, at, x);
    FlowKeeps(x, after, t);
    BoundBelow(x.s.tokens.at, t.s.tokens.at, n.id, d, p);
  }

  lemma ApprovalMove(
    w: World, requestId: string, approver: string, policyId: string, now: int, clock: int, u: World)
    requires WorldOk(w) && policyId != ""
    requires Goes(w, StartApproval(requestId, approver, Some(policyId), now, clock), u) && |u.flights| > |w.flights|
    ensures WorldOk(u) && policyId in w.s.policies.at
    ensures var f := u.flights[|w.flights|];
            CheckedAgainst(f, policyId, w.s.policies.at[policyId]) && f.purpose.requestId == requestId
  {
    ApprovalChecked(w.s, requestId, approver, policyId, now, clock);
    UnsavingKeeps(w, StartApproval(requestId, approver, Some(policyId), now, clock));
  }

  lemma FinishMove(v: World, i: nat, n: Nonce, at: int, x: World)
    requires WorldOk(v) && Goes(v, Finish(i, n, at), x) && Guard(v.s, at).1 && v.flights[i].purpose.Approving?
    ensures WorldOk(x) && n.id in x.s.tokens.at && x.s.tokens.at[n.id] == TokenOf(v.flights[i], n)
    ensures FinishEntry(v.flights[i], TokenOf(v.flights[i], n)) in Select(x.s.log, Approvals)
    ensures v.flights[i].purpose.pending.id == v.flights[i].purpose.requestId
  {
    assert ApprovalOnFile(v.s.requests.at, v.flights[i]);
    RootSavedUnder(v, i, n, at);
    MoveKeeps(v, Finish(i, n, at));
  }

  lemma RootSavedUnder(v: World, i: nat, n: Nonce, at: int)
    requires WorldOk(v) && Possible(v, Finish(i, n, at)) && Guard(v.s, at).1 && v.flights[i].purpose.Approving?
    ensures var s', f := Moved(v, Finish(i, n, at)).s, v.flights[i];
            && n.id in s'.tokens.at && s'.tokens.at[n.id] == TokenOf(f, n)
            && FinishEntry(f, TokenOf(f, n)) in Select(s'.log, Approvals)
  {
    var f := v.flights[i];
    assert FlightOk(v.s.tokens.at, f) && ApprovalOnFile(v.s.requests.at, f);
    FinishApprovalView(v.s, f, n, at);
    var approved := Select(Moved(v, Finish(i, n, at)).s.log, Approvals);
    assert approved[|approved| - 1] == FinishEntry(f, TokenOf(f, n));
  }

  lemma BoundBelow(
    saved: map<string, Token>, tokens: map<string, Token>, root: string, d: string, p: Policy)
    requires root in saved && Grown(saved, tokens) && Contained(tokens) && d in tokens
    requires AtOrBelow(GenealogyOf(tokens), root, d)
    requires Within(saved[root].scope, p.allowedScope)
    requires saved[root].expiresAt <= saved[root].issuedAt + p.maxTtlSeconds * 1000
    ensures Within(tokens[d].scope, p.allowedScope)
    ensures tokens[d].expiresAt <= tokens[root].issuedAt + p.maxTtlSeconds * 1000
  {
    IssuedFixes(saved[root], tokens[root]);
    ExpiryCapped(tokens, root, d);
    forall a | a in tokens[d].scope
      ensures a in p.allowedScope
    {
      assert a in ScopeSet(tokens[d].scope);
    }
  }

  // ---- enforceToken on a record read before the wait ----------------------------------------------

  /** The answer is Allow exactly when secret, scope and lifetime allow it and the
      token was active when it was read; so a token revoked in the wait is allowed
      exactly when it would have been before. */
  lemma AllowedThoughRevoked(w: World, i: nat)
    requires WorldOk(w) && Possible(w, FinishCheck(i))
    ensures var f, d := w.flights[i], FinishEnforcement(w.s, w.flights[i]).1;
            && f.tokenId in w.s.tokens.at
            && var t := w.s.tokens.at[f.tokenId];
               var allowed := VerifyPassword(f.secret, t.secretHash) && f.now < t.expiresAt && f.action in t.scope;
               && (d == Allow <==> allowed && IsActive(f.token))
               && (d == Allow && Judged(t, f.secret, f.action, f.now) != Allow
                   <==> allowed && IsActive(f.token) && !IsActive(t))
  {
    var f := w.flights[i];
    assert FlightOk(w.s.tokens.at, f);
    IssuedFixes(w.s.tokens.at[f.tokenId], f.token);
  }
}
