/** What Ambit promises, over every reachable state and every run. */
module Theorems {
  import opened Core
  import opened AuditLogs
  import opened CircuitBreakers
  import opened AnomalyDetectors
  import opened Domain
  import opened Forest
  import opened Steps
  import opened Revocation
  import opened Invariants
  import opened Runs
  import opened Witnesses
  import opened Outcomes

  /** d is a, or was delegated from it through any number of tokens. */
  ghost predicate Descends(s: Sys, a: string, d: string) {
    && a in s.tokens.at && d in s.tokens.at
    && Narrow(GenealogyOf(s.tokens.at)) && AtOrBelow(GenealogyOf(s.tokens.at), a, d)
  }

  // ---- Authority along a delegation chain ------------------------------------------

  lemma {:induction false} AncestorAllows(tokens: map<string, Token>, a: string, d: string, action: string, now: int)
    requires TokensOk(tokens) && a in tokens && d in tokens && AtOrBelow(GenealogyOf(tokens), a, d)
    requires Decide(tokens[d], action, now) == Allow
    ensures Decide(tokens[a], action, now) == Allow
    decreases Height(GenealogyOf(tokens), d)
  {
    if d != a {
      var g := GenealogyOf(tokens);
      HeightFalls(g, d);
      var p := g[d].parent.value;
      assert action in g[d].scope && g[d].scope < g[p].scope;
      assert action in tokens[p].scope;
      AncestorAllows(tokens, a, p, action, now);
    }
  }

  /** If a token may do something now, so may every ancestor of it: authority
      never grows along a chain in scope, lifetime or revocation. */
  lemma AuthorityNeverGrows(s: Sys, a: string, d: string, action: string, now: int)
    requires Reachable(s) && Descends(s, a, d)
    requires Decide(s.tokens.at[d], action, now) == Allow
    ensures Decide(s.tokens.at[a], action, now) == Allow
  {
    ReachableSound(s);
    AncestorAllows(s.tokens.at, a, d, action, now);
  }

  /** Enforcement allows only with the token's own secret and only what the token
      and all its ancestors may do, and every answer is logged. */
  lemma {:induction false} EnforcementIsAccountable(
    s: Sys, id: string, secret: string, action: string, now: int, clock: int)
    requires Reachable(s)
    ensures Sound(s)
    ensures var (s', d) := EnforceToken(s, id, secret, action, now, clock);
            && (d == Allow ==>
                  && id in s.tokens.at && VerifyPassword(secret, s.tokens.at[id].secretHash)
                  && forall a :: a in Path(GenealogyOf(s.tokens.at), id) ==>
                       a in s.tokens.at && Decide(s.tokens.at[a], action, now) == Allow)
            && s'.tokens == s.tokens && s'.requests == s.requests && s'.policies == s.policies
            && Guard(s, clock).0.log < s'.log && |s'.log| == |Guard(s, clock).0.log| + 1
            && s'.log[|s'.log| - 1].event.tokenId == Some(id)
            && (s'.log[|s'.log| - 1].event.decision == Decision.Allowed <==> d == Allow)
  {
    ReachableSound(s);
    GuardQuiet(s, clock);
    var d := EnforceToken(s, id, secret, action, now, clock).1;
    if d == Allow {
      forall a | a in Path(GenealogyOf(s.tokens.at), id)
        ensures a in s.tokens.at && Decide(s.tokens.at[a], action, now) == Allow
      {
        BelowIffOnPath(GenealogyOf(s.tokens.at), a, id);
        if a != id {
          BelowNarrows(GenealogyOf(s.tokens.at), a, id);
        }
        AncestorAllows(s.tokens.at, a, id, action, now);
      }
    }
  }

  // ---- Revocation ------------------------------------------------------------------

  /** In every reachable state a revocation that finds its token has exactly the
      effect described by RevocationEffect, and that reaches the whole subtree; one
      that does not changes no store. */
  lemma RevocationInReachableStates(
    s: Sys, target: string, reason: RevocationReason, now: int, actor: Option<string>, clock: int)
    requires Reachable(s)
    ensures Sound(s) && Sound(RevokeToken(s, target, reason, now, actor, clock).0)
    ensures var (s', r) := RevokeToken(s, target, reason, now, actor, clock);
            var (s1, read) := Guard(s, clock);
            && s1.tokens == s.tokens
            && (r.Ok? <==> read && target in s.tokens.at)
            && (r.Ok? ==> RevocationEffect(s1, s', target, reason, now, actor) && WholeSubtreeRevoked(s1, s', target))
            && (r.Err? ==> s' == s1)
  {
    ReachableSound(s);
    RevokeSound(s, target, reason, now, actor, clock);
    RevokeTokenEffect(s, target, reason, now, actor, clock);
    var (s', r) := RevokeToken(s, target, reason, now, actor, clock);
    if r.Ok? {
      ClosedRevocation(Guard(s, clock).0, s', target, reason, now, actor);
    }
  }

  /** After a revocation, in every later state of every run, restarts included,
      the target and whatever descended from it is refused as revoked. */
  lemma RevocationIsPermanent(
    s: Sys, target: string, reason: RevocationReason, now: int, actor: Option<string>, clock: int,
    steps: seq<Step>, t: Sys, d: string, action: string, later: int)
    requires Sound(s) && RevokeToken(s, target, reason, now, actor, clock).1.Ok?
    requires Leads(RevokeToken(s, target, reason, now, actor, clock).0, steps, t)
    requires Descends(t, target, d)
    ensures Decide(t.tokens.at[d], action, later) == Deny(TokenRevoked)
  {
    var s' := RevokeToken(s, target, reason, now, actor, clock).0;
    RevokedTarget(s, target, reason, now, actor, clock);
    RevokeSound(s, target, reason, now, actor, clock);
    RunSound(s', steps, t);
    assert TokenEvolves(s'.tokens.at[target], t.tokens.at[target]);
    if d != target {
      RevokedSubtree(t.tokens.at, target, d);
    }
  }

  lemma RevokedTarget(
    s: Sys, target: string, reason: RevocationReason, now: int, actor: Option<string>, clock: int)
    requires Stores(s) && Forested(s.tokens.at) && RevokeToken(s, target, reason, now, actor, clock).1.Ok?
    ensures var s' := RevokeToken(s, target, reason, now, actor, clock).0;
            target in s'.tokens.at && !IsActive(s'.tokens.at[target])
  {
    RevokeTokenEffect(s, target, reason, now, actor, clock);
  }

  // ---- The log determines the stores -------------------------------------------------

  ghost predicate Logged(log: seq<Recorded>, k: Kind, request: Option<string>, token: Option<string>) {
    exists i :: 0 <= i < |log| && KindOf(log[i].event) == k
      && (request.Some? ==> log[i].event.requestId == request)
      && (token.Some? ==> log[i].event.tokenId == token)
  }

  lemma {:induction false} NamedIffLogged(log: seq<Recorded>, k: Kind, id: string)
    ensures RequestNamed(Select(log, k), id) <==> Logged(log, k, Some(id), None)
    ensures TokenNamed(Select(log, k), id) <==> Logged(log, k, None, Some(id))
  {
    var es := Select(log, k);
    if RequestNamed(es, id) {
      var i :| 0 <= i < |es| && es[i].event.requestId == Some(id);
      SelectedIffLogged(log, k, es[i]);
    }
    if TokenNamed(es, id) {
      var i :| 0 <= i < |es| && es[i].event.tokenId == Some(id);
      SelectedIffLogged(log, k, es[i]);
    }
    forall i | 0 <= i < |log| && KindOf(log[i].event) == k
      ensures log[i] in es
    {
      SelectedIffLogged(log, k, log[i]);
    }
  }

  /** A token is revoked exactly when a "revoked" entry names it; a request is
      approved exactly when a "request_approved" entry names it, and denied
      exactly when a "request_denied" entry of deny_request does. */
  lemma LogDeterminesStores(s: Sys, id: string)
    requires Reachable(s)
    ensures RevocationLogged(s, id) && DecisionLogged(s, id)
  {
    ReachableSound(s);
    RevocationsAgree(s, id);
    DecisionsAgree(s, id);
  }

  ghost predicate RevocationLogged(s: Sys, id: string) {
    Logged(s.log, Revocations, None, Some(id))
    <==> id in s.tokens.at && s.tokens.at[id].status == TokenStatus.Revoked
  }

  ghost predicate DecisionLogged(s: Sys, id: string) {
    && (Logged(s.log, Approvals, Some(id), None)
        <==> id in s.requests.at && s.requests.at[id].status == RequestStatus.Approved)
    && (Logged(s.log, Denials, Some(id), None)
        <==> id in s.requests.at && s.requests.at[id].status == RequestStatus.Denied)
  }

  lemma RevocationsAgree(s: Sys, id: string)
    requires WellFiled(s)
    ensures RevocationLogged(s, id)
  {
    NamedIffLogged(s.log, Revocations, id);
  }

  lemma DecisionsAgree(s: Sys, id: string)
    requires InOrder(s)
    ensures DecisionLogged(s, id)
  {
    NamedIffLogged(s.log, Approvals, id);
    NamedIffLogged(s.log, Denials, id);
    ApprovedWhenNamed(s.tokens.at, s.requests.at, Select(s.log, Approvals), id);
    DeniedWhenNamed(s.requests.at, Select(s.log, Denials), id);
  }

  lemma DeniedWhenNamed(requests: map<string, Request>, denied: seq<Recorded>, id: string)
    requires DeniedOk(requests, denied)
    ensures RequestNamed(denied, id) <==> id in requests && requests[id].status == RequestStatus.Denied
  {
    if RequestNamed(denied, id) {
      var i :| 0 <= i < |denied| && denied[i].event.requestId == Some(id);
      assert DenialOk(requests, denied[i].event);
    }
  }

  lemma ApprovedWhenNamed(
    tokens: map<string, Token>, requests: map<string, Request>, approved: seq<Recorded>, id: string)
    requires ApprovedOk(tokens, requests, approved)
    ensures RequestNamed(approved, id) <==> id in requests && requests[id].status == RequestStatus.Approved
  {
    if RequestNamed(approved, id) {
      var i :| 0 <= i < |approved| && approved[i].event.requestId == Some(id);
      assert ApprovalOk(requests, approved[i].event);
    }
  }

  /** An approval that fails for its scope, its policy or an outage shares the
      decision code of a denial, but the request stays pending and undecided. */
  lemma FailedApprovalLeavesPending(
    s: Sys, id: string, approver: string, policyId: Option<string>, n: Nonce, now: int, clock: int)
    requires Stores(s) && Resting(s.breaker)
    requires id in s.requests.at && s.requests.at[id].status == RequestStatus.Pending
    requires Eligible(s.requests.at[id], approver)
    requires ApproveRequest(s, id, approver, policyId, n, now, clock).1.Err?
    ensures var (s', res) := ApproveRequest(s, id, approver, policyId, n, now, clock);
            var r := s.requests.at[id];
            var attempt := IssueToken(s, Issuance(r.subject, r.scope, r.ttlSeconds, None, policyId), n, clock).0;
            var e := FailedApproval(id, r, approver, res.error);
            && s'.requests == s.requests && s'.tokens == s.tokens && s'.policies == s.policies
            && s'.log == attempt.log + [Recorded(e, now)] && KindOf(e) == Elsewhere
  {
    var r := s.requests.at[id];
    IssueTokenEffect(s, Issuance(r.subject, r.scope, r.ttlSeconds, None, policyId), n, clock);
  }

  // ---- Approvals, requests and roots ---------------------------------------------------

  /** Entry i is the one approval of this request and of this token. */
  ghost predicate OnlyApproval(approved: seq<Recorded>, i: int, request: string, token: string) {
    && 0 <= i < |approved|
    && approved[i].event.requestId == Some(request) && approved[i].event.tokenId == Some(token)
    && forall j :: 0 <= j < |approved| && j != i ==>
         approved[j].event.requestId != Some(request) && approved[j].event.tokenId != Some(token)
  }

  lemma EntryIsOnly(tokens: map<string, Token>, requests: map<string, Request>, approved: seq<Recorded>, i: int)
    requires ApprovedOk(tokens, requests, approved) && 0 <= i < |approved|
    ensures var e := approved[i].event;
            e.requestId.Some? && e.tokenId.Some? && OnlyApproval(approved, i, e.requestId.value, e.tokenId.value)
  {
    assert ApprovalOk(requests, approved[i].event);
    var e := approved[i].event;
    forall j | 0 <= j < |approved| && j != i
      ensures approved[j].event.requestId != e.requestId && approved[j].event.tokenId != e.tokenId
    {
      if j < i {
        assert approved[j].event.requestId != approved[i].event.requestId;
      }
    }
  }

  /** An approved request owns one root token, alike in subject and scope, and
      the log has one approval entry for the pair; a request not approved owns
      no token and holds no secret. */
  lemma ApprovedRequestOwnsRoot(s: Sys, id: string)
    requires Reachable(s) && id in s.requests.at
    ensures OwnsItsRoot(s, id)
  {
    ReachableSound(s);
    RequestOwns(s, id);
  }

  ghost predicate OwnsItsRoot(s: Sys, id: string)
    requires id in s.requests.at
  {
    var r := s.requests.at[id];
    && (r.status != RequestStatus.Approved ==> r.tokenId == None && r.tokenSecret == None)
    && (r.status == RequestStatus.Approved ==>
          && r.tokenId.Some? && r.tokenId.value in s.tokens.at
          && var t := s.tokens.at[r.tokenId.value];
             && t.parentTokenId == None && t.subject == r.subject && t.scope == r.scope
             && exists i :: OnlyApproval(Select(s.log, Approvals), i, id, r.tokenId.value))
  }

  lemma RequestOwns(s: Sys, id: string)
    requires InOrder(s) && id in s.requests.at
    ensures OwnsItsRoot(s, id)
  {
    RequestFiled(s, id);
    var approved := Select(s.log, Approvals);
    if s.requests.at[id].status == RequestStatus.Approved {
      var i :| 0 <= i < |approved| && approved[i].event.requestId == Some(id);
      assert ApprovalOk(s.requests.at, approved[i].event);
      EntryIsOnly(s.tokens.at, s.requests.at, approved, i);
    }
  }

  /** Conversely every root token belongs to exactly one approved request. */
  lemma RootBelongsToRequest(s: Sys, id: string)
    requires Reachable(s) && id in s.tokens.at && s.tokens.at[id].parentTokenId == None
    ensures exists r :: OwnsRoot(s.requests.at, Select(s.log, Approvals), r, id)
  {
    ReachableSound(s);
    OwnerExists(s.tokens.at, s.requests.at, Select(s.log, Approvals), id);
  }

  /** Request r, and no other, was approved into the token. */
  ghost predicate OwnsRoot(requests: map<string, Request>, approved: seq<Recorded>, r: string, token: string) {
    && r in requests && requests[r].status == RequestStatus.Approved && requests[r].tokenId == Some(token)
    && (exists i :: OnlyApproval(approved, i, r, token))
    && forall q :: q in requests && requests[q].tokenId == Some(token) ==> q == r
  }

  lemma OwnerExists(tokens: map<string, Token>, requests: map<string, Request>, approved: seq<Recorded>, id: string)
    requires ApprovedOk(tokens, requests, approved) && RequestsOk(tokens, requests)
    requires id in tokens && tokens[id].parentTokenId == None
    ensures exists r :: OwnsRoot(requests, approved, r, id)
  {
    var i :| 0 <= i < |approved| && approved[i].event.tokenId == Some(id);
    EntryIsOnly(tokens, requests, approved, i);
    assert ApprovalOk(requests, approved[i].event);
    var r := approved[i].event.requestId.value;
    forall q | q in requests && requests[q].tokenId == Some(id)
      ensures q == r
    {
      assert RequestOk(tokens, requests[q]);
      var j :| 0 <= j < |approved| && approved[j].event.requestId == Some(q);
      assert ApprovalOk(requests, approved[j].event);
    }
    assert OwnsRoot(requests, approved, r, id);
  }

  /** Once decided, a request keeps its status and its token for ever. */
  lemma DecisionsAreFinal(s: Sys, steps: seq<Step>, t: Sys, id: string)
    requires Reachable(s) && Leads(s, steps, t)
    requires id in s.requests.at && s.requests.at[id].status != RequestStatus.Pending
    ensures id in t.requests.at && t.requests.at[id].status == s.requests.at[id].status
    ensures t.requests.at[id].tokenId == s.requests.at[id].tokenId
    ensures t.requests.at[id].subject == s.requests.at[id].subject
  {
    ReachableSound(s);
    RunSound(s, steps, t);
    assert RequestEvolves(s.requests.at[id], t.requests.at[id]);
    SubmittedFixes(s.requests.at[id], t.requests.at[id]);
  }

  // ---- Who decided -----------------------------------------------------------------------

  /** Entry i is the one entry among these that names the request. */
  ghost predicate OnlyNaming(entries: seq<Recorded>, i: int, id: string) {
    && 0 <= i < |entries| && entries[i].event.requestId == Some(id)
    && forall j :: 0 <= j < |entries| && j != i ==> entries[j].event.requestId != Some(id)
  }

  /** A decided request has one entry for the decision, made by the approver it is
      assigned to, and none for the other one; a pending request has neither. */
  ghost predicate ProperlyDecided(s: Sys, id: string)
    requires id in s.requests.at
  {
    var r, approved, denied := s.requests.at[id], Select(s.log, Approvals), Select(s.log, Denials);
    match r.status
    case Pending => !RequestNamed(approved, id) && !RequestNamed(denied, id)
    case Approved =>
      !RequestNamed(denied, id) && exists i :: OnlyNaming(approved, i, id) && ByAssigned(r, approved[i].event)
    case Denied =>
      !RequestNamed(approved, id) && exists i :: OnlyNaming(denied, i, id) && ByAssigned(r, denied[i].event)
  }

  /** Every decision in the log is that of the approver assigned, and is one. */
  lemma DecidedByTheAssigned(s: Sys, id: string)
    requires Reachable(s) && id in s.requests.at
    ensures ProperlyDecided(s, id)
  {
    ReachableSound(s);
    DecidersAgree(s, id);
  }

  lemma DecidersAgree(s: Sys, id: string)
    requires InOrder(s) && id in s.requests.at
    ensures ProperlyDecided(s, id)
  {
    var r, approved, denied := s.requests.at[id], Select(s.log, Approvals), Select(s.log, Denials);
    ApprovedWhenNamed(s.tokens.at, s.requests.at, approved, id);
    DeniedWhenNamed(s.requests.at, denied, id);
    match r.status
    case Pending =>
    case Approved =>
      var i :| 0 <= i < |approved| && approved[i].event.requestId == Some(id);
      assert ApprovalOk(s.requests.at, approved[i].event);
      EntryIsOnly(s.tokens.at, s.requests.at, approved, i);
      assert OnlyNaming(approved, i, id) && ByAssigned(r, approved[i].event);
    case Denied =>
      var i :| 0 <= i < |denied| && denied[i].event.requestId == Some(id);
      assert DenialOk(s.requests.at, denied[i].event);
      DenialIsOnly(s.requests.at, denied, i, id);
      assert OnlyNaming(denied, i, id) && ByAssigned(r, denied[i].event);
  }

  lemma DenialIsOnly(requests: map<string, Request>, denied: seq<Recorded>, i: int, id: string)
    requires DeniedOk(requests, denied) && 0 <= i < |denied| && denied[i].event.requestId == Some(id)
    ensures OnlyNaming(denied, i, id)
  {
    forall j | 0 <= j < |denied| && j != i
      ensures denied[j].event.requestId != Some(id)
    {
      if j < i {
        assert denied[j].event.requestId != denied[i].event.requestId;
      }
    }
  }

  // ---- Lineage -------------------------------------------------------------------------

  /** find(): the first approval entry naming the token. */
  function OriginEntry(log: seq<Recorded>, rootId: string): Option<Recorded> {
    if log == [] then None
    else if log[0].event.tokenId == Some(rootId) && log[0].event.decision == RequestApproved then Some(log[0])
    else OriginEntry(log[1..], rootId)
  }

  ghost predicate ApprovesToken(r: Recorded, id: string) {
    r.event.tokenId == Some(id) && r.event.decision == RequestApproved
  }

  /** The first that approves the token, if any does. */
  lemma {:induction false} OriginEntryFinds(log: seq<Recorded>, rootId: string)
    ensures match OriginEntry(log, rootId)
            case Some(e) =>
              && e in log && ApprovesToken(e, rootId)
              && exists i :: 0 <= i < |log| && log[i] == e && forall j :: 0 <= j < i ==> !ApprovesToken(log[j], rootId)
            case None => forall e :: e in log ==> !ApprovesToken(e, rootId)
  {
    if log != [] {
      OriginEntryFinds(log[1..], rootId);
      var rest := OriginEntry(log[1..], rootId);
      if ApprovesToken(log[0], rootId) {
        assert log[0] == OriginEntry(log, rootId).value;
      } else if rest.Some? {
        var i :| 0 <= i < |log[1..]| && log[1..][i] == rest.value
                 && forall j :: 0 <= j < i ==> !ApprovesToken(log[1..][j], rootId);
        assert log[i + 1] == rest.value;
        assert forall j :: 0 < j < i + 1 ==> log[j] == log[1..][j - 1];
      }
    }
  }

  /** The origin found for a root is the root's own, only approval. */
  lemma {:induction false} OriginOfRoot(
    log: seq<Recorded>, tokens: map<string, Token>, requests: map<string, Request>, root: string)
    requires ApprovedOk(tokens, requests, Select(log, Approvals))
    requires root in tokens && tokens[root].parentTokenId == None
    ensures var origin := OriginEntry(log, root);
            && origin.Some? && origin.value.event.requestId.Some?
            && exists i :: OnlyApproval(Select(log, Approvals), i, origin.value.event.requestId.value, root)
                           && Select(log, Approvals)[i] == origin.value
  {
    var approved := Select(log, Approvals);
    OriginEntryFinds(log, root);
    var k :| 0 <= k < |approved| && approved[k].event.tokenId == Some(root);
    SelectedIffLogged(log, Approvals, approved[k]);
    var e := OriginEntry(log, root).value;
    SelectedIffLogged(log, Approvals, e);
    var i :| 0 <= i < |approved| && approved[i] == e;
    EntryIsOnly(tokens, requests, approved, i);
  }

  /** Every token descends from exactly one root, no deeper than the root's scope
      has permissions, and the lineage's origin is the root's own approval. */
  lemma LineageIsProven(s: Sys, id: string)
    requires Reachable(s) && id in s.tokens.at
    ensures Sound(s) && LineageProven(s, id)
  {
    ReachableSound(s);
    LineageHolds(s, id);
  }

  ghost predicate LineageProven(s: Sys, id: string)
    requires Contained(s.tokens.at) && id in s.tokens.at
  {
    var path := Path(GenealogyOf(s.tokens.at), id);
    && path[0] in s.tokens.at && s.tokens.at[path[0]].parentTokenId == None
    && |path| <= |ScopeSet(s.tokens.at[path[0]].scope)|
    && var origin := OriginEntry(s.log, path[0]);
       && origin.Some? && origin.value.event.requestId.Some?
       && exists i :: OnlyApproval(Select(s.log, Approvals), i, origin.value.event.requestId.value, path[0])
                      && Select(s.log, Approvals)[i] == origin.value
  }

  lemma LineageHolds(s: Sys, id: string)
    requires InOrder(s) && Contained(s.tokens.at) && id in s.tokens.at
    ensures LineageProven(s, id)
  {
    RootOfPath(s.tokens.at, id);
    OriginOfRoot(s.log, s.tokens.at, s.requests.at, Path(GenealogyOf(s.tokens.at), id)[0]);
  }

  lemma {:induction false} RootOfPath(tokens: map<string, Token>, id: string)
    requires Contained(tokens) && id in tokens
    ensures var path := Path(GenealogyOf(tokens), id);
            && path[0] in tokens && tokens[path[0]].parentTokenId == None
            && |path| <= |ScopeSet(tokens[path[0]].scope)|
  {
    var g := GenealogyOf(tokens);
    PathIsPath(g, id);
    PathLength(g, id);
    assert !HasParent(g, Path(g, id)[0]);
  }

  /** The parent link of t leads to a stored token; an empty one leads nowhere. */
  predicate LeadsUp(tokens: map<string, Token>, t: Token) {
    Given(t.parentTokenId) && t.parentTokenId.value in tokens
  }

  /** Records as stored, each the parent of the next. */
  ghost predicate Linked(tokens: map<string, Token>, chain: seq<Token>) {
    && (forall i :: 0 <= i < |chain| ==> chain[i].id in tokens && tokens[chain[i].id] == chain[i])
    && (forall i :: 0 < i < |chain| ==>
          Given(chain[i].parentTokenId) && chain[i].parentTokenId.value == chain[i - 1].id)
  }

  /** From a token whose parent link leads nowhere, root or not, down to id. */
  ghost predicate ChainTo(tokens: map<string, Token>, chain: seq<Token>, id: string) {
    && chain != [] && Linked(tokens, chain)
    && !LeadsUp(tokens, chain[0]) && chain[|chain| - 1].id == id
  }

  /** A chain goes on above its last record exactly when that record's link does. */
  lemma ChainGoesOn(tokens: map<string, Token>, chain: seq<Token>, id: string)
    requires ChainTo(tokens, chain, id)
    ensures id in tokens && chain[|chain| - 1] == tokens[id]
    ensures |chain| > 1 <==> LeadsUp(tokens, tokens[id])
    ensures |chain| > 1 ==> ChainTo(tokens, chain[..|chain| - 1], tokens[id].parentTokenId.value)
  {
    var n := |chain| - 1;
    assert chain[n].id in tokens;
    if n > 0 {
      assert chain[n - 1].id in tokens;
    }
  }

  /** There is one chain to a token. */
  lemma {:induction false} ChainIsUnique(tokens: map<string, Token>, chain: seq<Token>, other: seq<Token>, id: string)
    requires ChainTo(tokens, chain, id) && ChainTo(tokens, other, id)
    ensures other == chain
    decreases |chain|
  {
    var m, n := |chain| - 1, |other| - 1;
    ChainGoesOn(tokens, chain, id);
    ChainGoesOn(tokens, other, id);
    if m > 0 {
      ChainIsUnique(tokens, chain[..m], other[..n], tokens[id].parentTokenId.value);
    }
    assert chain == chain[..m] + [chain[m]] && other == other[..n] + [other[n]];
  }

  /** Parent links up from id come to an end. */
  ghost predicate Ends(tokens: map<string, Token>, id: string) {
    exists chain :: ChainTo(tokens, chain, id)
  }

  lemma {:induction false} ForestsEnd(tokens: map<string, Token>, id: string)
    requires Forested(tokens) && id in tokens
    ensures Ends(tokens, id)
    decreases Height(GenealogyOf(tokens), id)
  {
    var t := tokens[id];
    if LeadsUp(tokens, t) {
      HeightFalls(GenealogyOf(tokens), id);
      ForestsEnd(tokens, t.parentTokenId.value);
      var chain :| ChainTo(tokens, chain, t.parentTokenId.value);
      assert ChainTo(tokens, chain + [t], id);
    } else {
      assert ChainTo(tokens, [t], id);
    }
  }

  /** Going up from where `chain` begins, down which it leads to id, is going up from
      id: what is left to walk ends too. */
  lemma {:induction false} PartOfChain(tokens: map<string, Token>, whole: seq<Token>, chain: seq<Token>, id: string)
    requires ChainTo(tokens, whole, id) && chain != [] && Linked(tokens, chain) && chain[|chain| - 1].id == id
    ensures |chain| <= |whole| && whole[|whole| - |chain|..] == chain
    ensures |chain| < |whole| ==>
              LeadsUp(tokens, chain[0]) && tokens[chain[0].parentTokenId.value].id == chain[0].parentTokenId.value
    decreases |chain|
  {
    ChainGoesOn(tokens, whole, id);
    var n := |chain| - 1;
    assert tokens[chain[n].id] == chain[n];
    if n > 0 {
      assert chain[n - 1].id in tokens && tokens[chain[n - 1].id] == chain[n - 1];
      PartOfChain(tokens, whole[..|whole| - 1], chain[..n], chain[n - 1].id);
    } else if |whole| > 1 {
      assert tokens[whole[|whole| - 2].id] == whole[|whole| - 2];
    }
    assert chain == chain[..n] + [chain[n]];
  }

  /** A step up from where `chain` begins stays on the way to the end. */
  lemma OneStepUp(tokens: map<string, Token>, whole: seq<Token>, chain: seq<Token>, id: string)
    requires ChainTo(tokens, whole, id) && chain != [] && Linked(tokens, chain) && chain[|chain| - 1].id == id
    requires LeadsUp(tokens, chain[0])
    ensures |chain| < |whole| && Linked(tokens, [tokens[chain[0].parentTokenId.value]] + chain)
  {
    PartOfChain(tokens, whole, chain, id);
  }

  lemma {:induction false} ChainIsPath(tokens: map<string, Token>, chain: seq<Token>, id: string)
    requires Contained(tokens) && ChainTo(tokens, chain, id)
    ensures chain[0].parentTokenId == None
    ensures seq(|chain|, i requires 0 <= i < |chain| => chain[i].id) == Path(GenealogyOf(tokens), id)
  {
    PathIsUnique(GenealogyOf(tokens), seq(|chain|, i requires 0 <= i < |chain| => chain[i].id), id);
  }

  /** What getTokenLineage promises of the chain and the origin it returns, in a
      store where every parent link leads to a parent. */
  ghost predicate Lineage(s: Sys, chain: seq<Token>, origin: Option<Recorded>, id: string) {
    && ChainTo(s.tokens.at, chain, id)
    && (forall other :: ChainTo(s.tokens.at, other, id) ==> other == chain)
    && chain[0].parentTokenId == None
    && |chain| <= |ScopeSet(chain[0].scope)|
    && origin.Some? && origin.value.event.requestId.Some?
    && exists i :: OnlyApproval(Select(s.log, Approvals), i, origin.value.event.requestId.value, chain[0].id)
                   && Select(s.log, Approvals)[i] == origin.value
  }

  lemma LineageFound(s: Sys, chain: seq<Token>, id: string)
    requires Contained(s.tokens.at) && ApprovedOk(s.tokens.at, s.requests.at, Select(s.log, Approvals))
    requires ChainTo(s.tokens.at, chain, id)
    ensures Lineage(s, chain, OriginEntry(s.log, chain[0].id), id)
  {
    forall other | ChainTo(s.tokens.at, other, id)
      ensures other == chain
    {
      ChainIsUnique(s.tokens.at, chain, other, id);
    }
    ChainIsPath(s.tokens.at, chain, id);
    var path := seq(|chain|, i requires 0 <= i < |chain| => chain[i].id);
    assert path[0] == chain[0].id;
    RootOfPath(s.tokens.at, id);
    OriginOfRoot(s.log, s.tokens.at, s.requests.at, chain[0].id);
  }

  // ---- Policies ------------------------------------------------------------------------

  lemma {:induction false} ExpiryCapped(tokens: map<string, Token>, a: string, d: string)
    requires Contained(tokens) && a in tokens && d in tokens && AtOrBelow(GenealogyOf(tokens), a, d)
    ensures tokens[d].expiresAt <= tokens[a].expiresAt
    ensures ScopeSet(tokens[d].scope) <= ScopeSet(tokens[a].scope)
    decreases Height(GenealogyOf(tokens), d)
  {
    if d != a {
      HeightFalls(GenealogyOf(tokens), d);
      ExpiryCapped(tokens, a, GenealogyOf(tokens)[d].parent.value);
    }
  }

  /** Whatever is ever delegated from a token approved under a policy stays
      within that policy as it stood at approval, in scope and in lifetime,
      whatever later becomes of the policy. The approval entry names it. */
  lemma PolicyBindsDescendants(
    s: Sys, requestId: string, approver: string, policyId: string, n: Nonce, now: int, clock: int,
    steps: seq<Step>, t: Sys, d: string)
    requires Sound(s) && policyId != "" && n.id != "" && n.id !in s.tokens.at
    requires ApproveRequest(s, requestId, approver, Some(policyId), n, now, clock).1.Ok?
    requires Leads(ApproveRequest(s, requestId, approver, Some(policyId), n, now, clock).0, steps, t)
    requires Descends(t, n.id, d)
    ensures policyId in s.policies.at
    ensures var policy := s.policies.at[policyId];
            && Within(t.tokens.at[d].scope, policy.allowedScope)
            && t.tokens.at[d].expiresAt <= t.tokens.at[n.id].issuedAt + policy.maxTtlSeconds * 1000
    ensures exists i :: OnlyApproval(Select(t.log, Approvals), i, requestId, n.id)
                        && Select(t.log, Approvals)[i].event.policyId == Some(policyId)
  {
    var (s', res) := ApproveRequest(s, requestId, approver, Some(policyId), n, now, clock);
    if requestId in s.requests.at {
      RequestFiled(s, requestId);
    }
    ApproveView(s, requestId, approver, Some(policyId), n, now, clock);
    ApproveSound(s, requestId, approver, Some(policyId), n, now, clock);
    RunSound(s', steps, t);
    var root, root' := s'.tokens.at[n.id], t.tokens.at[n.id];
    assert TokenEvolves(root, root');
    IssuedFixes(root, root');
    ExpiryCapped(t.tokens.at, n.id, d);
    forall a | a in t.tokens.at[d].scope
      ensures a in s.policies.at[policyId].allowedScope
    {
      assert a in ScopeSet(t.tokens.at[d].scope);
      assert a in ScopeSet(root'.scope);
    }
    var i := |Select(s.log, Approvals)|;
    var approved := Select(t.log, Approvals);
    assert Select(s'.log, Approvals) <= approved;
    assert approved[i] == Select(s'.log, Approvals)[i];
    EntryIsOnly(t.tokens.at, t.requests.at, approved, i);
  }

  // ---- Claiming ------------------------------------------------------------------------

  lemma ClaimReply(s: Sys, id: string, subject: string, now: int)
    requires id in s.requests.at ==> RequestOk(s.tokens.at, s.requests.at[id])
    ensures ClaimHonest(s, id, subject, now)
  {
  }

  /** A claim succeeds only for the subject that asked, only after approval, and
      hands out the request's own token with a secret that verifies against it;
      it adds one claim entry and nothing else to the log. */
  ghost predicate ClaimHonest(s: Sys, id: string, subject: string, now: int) {
    var (s', res) := ClaimTokenSecret(s, id, subject, now);
    && (res.Err? ==> s'.requests == s.requests)
    && (res.Ok? ==>
          && id in s.requests.at && s.requests.at[id].subject == subject
          && s.requests.at[id].status == RequestStatus.Approved
          && s.requests.at[id].tokenId == Some(res.value.0)
          && res.value.0 in s.tokens.at && s.tokens.at[res.value.0].subject == subject
          && VerifyPassword(res.value.1, s.tokens.at[res.value.0].secretHash)
          && s'.log == s.log + [ClaimEntry(id, s.requests.at[id], now)])
  }

  /** Claims are honest, and a refused one adds no claim to the log. */
  lemma ClaimReturnsTheTokensSecret(s: Sys, id: string, subject: string, now: int)
    requires Reachable(s)
    ensures ClaimHonest(s, id, subject, now)
    ensures var (s', res) := ClaimTokenSecret(s, id, subject, now);
            res.Err? ==> Select(s'.log, Claims) == Select(s.log, Claims)
  {
    ReachableSound(s);
    if id in s.requests.at {
      RequestFiled(s, id);
    }
    ClaimReply(s, id, subject, now);
    ClaimView(s, id, subject, now);
  }

  /** An approved request with no secret left never yields one again. */
  lemma SecretStaysGone(s: Sys, steps: seq<Step>, t: Sys, id: string, subject: string, now: int)
    requires Sound(s) && Leads(s, steps, t)
    requires Spent(s.requests.at, id)
    ensures ClaimTokenSecret(t, id, subject, now).1.Err?
  {
    RunSound(s, steps, t);
    SpentStaysSpent(s, t, id, subject, now);
  }

  /** Approved, and its secret handed out or lost. */
  ghost predicate Spent(requests: map<string, Request>, id: string) {
    id in requests && requests[id].status == RequestStatus.Approved && requests[id].tokenSecret == None
  }

  lemma SpentStaysSpent(s: Sys, t: Sys, id: string, subject: string, now: int)
    requires Spent(s.requests.at, id) && Evolves(ViewOf(s), ViewOf(t))
    ensures ClaimTokenSecret(t, id, subject, now).1.Err?
  {
    assert id in ViewOf(s).requests && RequestEvolves(s.requests.at[id], t.requests.at[id]);
  }

  /** At most one claim succeeds per request, over any run. */
  lemma ClaimedAtMostOnce(
    s: Sys, id: string, subject: string, now: int, steps: seq<Step>, t: Sys, another: string, later: int)
    requires Reachable(s) && ClaimTokenSecret(s, id, subject, now).1.Ok?
    requires Leads(ClaimTokenSecret(s, id, subject, now).0, steps, t)
    ensures ClaimTokenSecret(t, id, another, later).1.Err?
    ensures forall i, j :: 0 <= i < |Select(t.log, Claims)| && 0 <= j < |Select(t.log, Claims)|
              && Select(t.log, Claims)[i].event.requestId == Some(id)
              && Select(t.log, Claims)[j].event.requestId == Some(id)
              ==> i == j
  {
    ReachableSound(s);
    var s' := ClaimTokenSecret(s, id, subject, now).0;
    RequestFiled(s, id);
    ClaimView(s, id, subject, now);
    ClaimKeeps(s, id, subject, now);
    SecretStaysGone(s', steps, t, id, another, later);
    RunSound(s', steps, t);
    ClaimsDistinct(t.requests.at, Select(t.log, Claims));
  }

  lemma ClaimsDistinct(requests: map<string, Request>, claimed: seq<Recorded>)
    requires ClaimedOk(requests, claimed)
    ensures forall i, j :: 0 <= i < |claimed| && 0 <= j < |claimed| && i != j
              ==> claimed[i].event.requestId != claimed[j].event.requestId
  {
    forall i, j | 0 <= i < |claimed| && 0 <= j < |claimed| && i != j
      ensures claimed[i].event.requestId != claimed[j].event.requestId
    {
      if j < i {
        assert claimed[j].event.requestId != claimed[i].event.requestId;
      }
    }
  }

  /** No claim succeeds for a request approved before a restart. */
  lemma NoClaimAcrossRestart(s: Sys, steps: seq<Step>, t: Sys, id: string, subject: string, now: int)
    requires Reachable(s) && id in s.requests.at && s.requests.at[id].status == RequestStatus.Approved
    requires Leads(Restart(s), steps, t)
    ensures ClaimTokenSecret(t, id, subject, now).1.Err?
  {
    ReachableSound(s);
    RestartSound(s);
    SecretStaysGone(Restart(s), steps, t, id, subject, now);
  }

  // ---- Idempotent submission -----------------------------------------------------------

  /** Retrying a submission under its key, however much later, finds the same
      request and changes nothing. */
  lemma RetryFindsTheSameRequest(
    s: Sys, subject: string, scope: seq<string>, ttl: int, key: string, id: string, primary: Option<string>, now: int,
    steps: seq<Step>, t: Sys,
    scope': seq<string>, ttl': int, id': string, primary': Option<string>, later: int)
    requires Sound(s) && key != "" && id !in s.requests.at
    requires Leads(RequestToken(s, subject, scope, ttl, Some(key), id, primary, now).0, steps, t)
    ensures Stores(t)
    ensures var first := RequestToken(s, subject, scope, ttl, Some(key), id, primary, now).1;
            var (t', again) := RequestToken(t, subject, scope', ttl', Some(key), id', primary', later);
            t' == t && again.id == first.id && first.id in t.requests.at && again == t.requests.at[first.id]
  {
    var (s1, first) := RequestToken(s, subject, scope, ttl, Some(key), id, primary, now);
    RequestTokenKeeps(s, subject, scope, ttl, Some(key), id, primary, now);
    FirstSubmissionFiled(s, subject, scope, ttl, key, id, primary, now);
    RunSound(s1, steps, t);
    assert RequestEvolves(s1.requests.at[first.id], t.requests.at[first.id]);
    KeyFindsIt(t, first, subject, key);
  }

  lemma {:induction false} KeyFindsIt(t: Sys, first: Request, subject: string, key: string)
    requires WellFiled(t) && key != "" && first.subject == subject && first.idempotencyKey == Some(key)
    requires first.id in t.requests.at && Submitted(t.requests.at[first.id]) == Submitted(first)
    ensures FirstWithKey(t.requests.Values(), subject, key) == Some(t.requests.at[first.id])
    ensures t.requests.at[first.id].id == first.id
  {
    var kept := t.requests.at[first.id];
    SubmittedFixes(first, kept);
    FirstWithKeyFinds(t.requests.Values(), subject, key);
    ValuesCoverMap(t.requests, first.id);
    var again := FirstWithKey(t.requests.Values(), subject, key).value;
    ValuesAreFiled(t, again);
    assert SameKey(kept, again);
  }

  lemma FirstSubmissionFiled(
    s: Sys, subject: string, scope: seq<string>, ttl: int, key: string, id: string, primary: Option<string>, now: int)
    requires WellFiled(s) && key != "" && id !in s.requests.at
    ensures var (s1, first) := RequestToken(s, subject, scope, ttl, Some(key), id, primary, now);
            && first.id in s1.requests.at && s1.requests.at[first.id] == first
            && first.subject == subject && first.idempotencyKey == Some(key)
  {
    FirstWithKeyFinds(s.requests.Values(), subject, key);
    var existing := FirstWithKey(s.requests.Values(), subject, key);
    if existing.Some? {
      ValuesAreFiled(s, existing.value);
    } else {
      RequestTokenView(s, subject, scope, ttl, Some(key), id, primary, now);
      var s1 := RequestToken(s, subject, scope, ttl, Some(key), id, primary, now).0;
      assert ViewOf(s1).requests == s1.requests.at;
    }
  }

  lemma ValuesAreFiled(s: Sys, r: Request)
    requires WellFiled(s) && r in s.requests.Values()
    ensures r.id in s.requests.at && s.requests.at[r.id] == r
  {
    var i :| 0 <= i < |s.requests.order| && s.requests.Values()[i] == r;
    assert s.requests.order[i] in s.requests.at;
    RequestFiled(s, s.requests.order[i]);
  }

  // ---- delegateToken's contract ----------------------------------------------------------

  /** Over reachable states, "never throws" holds for exactly the positive lifetimes. */
  lemma NeverThrowsIffPositiveTtl(ttl: int)
    ensures (forall s, parent, secret, subject, scope, n, now, clock :: Reachable(s) ==>
               !DelegateToken(s, parent, secret, subject, scope, ttl, n, now, clock).1.Threw?)
            <==> ttl > 0
  {
    if ttl > 0 {
      forall s, parent, secret, subject, scope, n, now, clock | Reachable(s)
        ensures !DelegateToken(s, parent, secret, subject, scope, ttl, n, now, clock).1.Threw?
      {
        ReachableSound(s);
        DelegationOutcome(s, parent, secret, subject, scope, ttl, n, now, clock);
      }
    } else {
      var x := Wish("r", "agent", ["a", "b"], 3600, "boss", Nonce("p", "key", "salt"), 0);
      assert "b" in x.scope && "b" !in ["a"];
      Throws(Initial(3, 5000, Config(3, 60000, 3)), x, ["a"], ttl);
    }
  }

  /** From any root wished for, any narrower delegation with no lifetime throws. */
  lemma Throws(start: Sys, x: Wish, scope: seq<string>, ttl: int)
    requires Start(start) && Sensible(x) && scope != [] && ttl <= 0
    requires Within(scope, x.scope) && !Within(x.scope, scope)
    ensures exists s, parent, secret, subject, narrow, n, now, clock ::
              Reachable(s) && DelegateToken(s, parent, secret, subject, narrow, ttl, n, now, clock).1.Threw?
  {
    var s := WishCanBeHeld(start, x);
    HeldThrows(s, x, scope, ttl);
  }

  lemma HeldThrows(s: Sys, x: Wish, scope: seq<string>, ttl: int)
    requires Held(s, x) && Sensible(x) && scope != [] && ttl <= 0
    requires Within(scope, x.scope) && !Within(x.scope, scope)
    ensures DelegateToken(s, x.nonce.id, x.nonce.secret, x.subject, scope, ttl, x.nonce, x.now, x.now).1.Threw?
  {
    GuardSettled(s, x.now);
    WithinIsSubset(scope, x.scope);
    WithinIsSubset(x.scope, scope);
    DelegationOutcome(s, x.nonce.id, x.nonce.secret, x.subject, scope, ttl, x.nonce, x.now, x.now);
  }
}
