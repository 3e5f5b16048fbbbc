/** What holds of the stores and the log together, and which changes keep it.

    A View is the part of the state the invariant speaks of: both maps, and the
    log entries that decide something, by kind. */
module Invariants {
  import opened Core
  import opened AuditLogs
  import opened Domain
  import opened Forest
  import opened Steps
  import opened Revocation

  datatype Kind = Revocations | Approvals | Denials | Claims | Escalations | Elsewhere

  function KindOf(e: Event): Kind {
    match e.decision
    case Revoked => Revocations
    case RequestApproved => Approvals
    case RequestDenied => if e.action == DENY then Denials else Elsewhere
    case TokenSecretClaimed => Claims
    case RequestEscalated => Escalations
    case _ => Elsewhere
  }

  /** The entries of one kind, in order. */
  function Select(log: seq<Recorded>, k: Kind): seq<Recorded> {
    if log == [] then []
    else
      var n := |log| - 1;
      Select(log[..n], k) + if KindOf(log[n].event) == k then [log[n]] else []
  }

  lemma {:induction false} SelectJoin(a: seq<Recorded>, b: seq<Recorded>, k: Kind)
    ensures Select(a + b, k) == Select(a, k) + Select(b, k)
  {
    if b == [] {
      assert a + b == a;
    } else {
      var n := |b| - 1;
      SelectJoin(a, b[..n], k);
      assert (a + b)[..|a| + n] == a + b[..n];
    }
  }

  lemma {:induction false} SelectUniform(log: seq<Recorded>, k: Kind, j: Kind)
    requires forall i :: 0 <= i < |log| ==> KindOf(log[i].event) == k
    ensures Select(log, j) == if j == k then log else []
  {
    if log != [] {
      SelectUniform(log[..|log| - 1], k, j);
    }
  }

  /** Selecting loses nothing and invents nothing. */
  lemma {:induction false} SelectedIffLogged(log: seq<Recorded>, k: Kind, r: Recorded)
    ensures r in Select(log, k) <==> r in log && KindOf(r.event) == k
  {
    if log != [] {
      var n := |log| - 1;
      SelectedIffLogged(log[..n], k, r);
      assert r in log <==> r in log[..n] || r == log[n];
    }
  }

  datatype View = View(
    tokens: map<string, Token>,
    requests: map<string, Request>,
    revoked: seq<Recorded>,
    approved: seq<Recorded>,
    denied: seq<Recorded>,
    claimed: seq<Recorded>,
    escalated: seq<Recorded>)

  function ViewOf(s: Sys): View {
    View(s.tokens.at, s.requests.at,
         Select(s.log, Revocations), Select(s.log, Approvals), Select(s.log, Denials), Select(s.log, Claims),
         Select(s.log, Escalations))
  }

  // ---- The invariant -------------------------------------------------------------

  ghost predicate TokenNamed(entries: seq<Recorded>, id: string) {
    exists i :: 0 <= i < |entries| && entries[i].event.tokenId == Some(id)
  }

  ghost predicate RequestNamed(entries: seq<Recorded>, id: string) {
    exists i :: 0 <= i < |entries| && entries[i].event.requestId == Some(id)
  }

  /** Scope and lifetime only shrink downwards; status plays no part. */
  ghost predicate Contained(tokens: map<string, Token>) {
    && "" !in tokens
    && Forested(tokens)
    && (forall d :: d in tokens && tokens[d].parentTokenId.Some? ==>
          && tokens[d].parentTokenId.value in tokens
          && tokens[d].expiresAt <= tokens[tokens[d].parentTokenId.value].expiresAt)
  }

  /** Authority only shrinks downwards: scope, lifetime, revocation. */
  ghost predicate TokensOk(tokens: map<string, Token>) {
    Contained(tokens) && Closed(tokens)
  }

  /** The log names exactly the revoked tokens. */
  ghost predicate RevokedOk(tokens: map<string, Token>, revoked: seq<Recorded>) {
    forall id :: TokenNamed(revoked, id) <==> id in tokens && tokens[id].status == TokenStatus.Revoked
  }

  /** A root token is what its approved request asked for. */
  ghost predicate Fulfils(t: Token, r: Request) {
    && t.parentTokenId == None && r.tokenId == Some(t.id)
    && t.subject == r.subject && t.scope == r.scope
    && (r.tokenSecret.Some? ==> VerifyPassword(r.tokenSecret.value, t.secretHash))
  }

  ghost predicate RequestOk(tokens: map<string, Token>, r: Request) {
    && (r.status != RequestStatus.Approved ==> r.tokenId == None && r.tokenSecret == None)
    && (r.status == RequestStatus.Approved ==>
          r.tokenId.Some? && r.tokenId.value in tokens && Fulfils(tokens[r.tokenId.value], r))
  }

  ghost predicate RequestsOk(tokens: map<string, Token>, requests: map<string, Request>) {
    forall id :: id in requests ==> requests[id].id == id && RequestOk(tokens, requests[id])
  }

  /** The entry's author is the approver the request was assigned to, or the request
      was assigned to no one. */
  ghost predicate ByAssigned(r: Request, e: Event) {
    e.actor.Some? && Eligible(r, e.actor.value)
  }

  /** An approval entry names an approved request, the token it got, and the
      approver assigned to it. */
  ghost predicate ApprovalOk(requests: map<string, Request>, e: Event) {
    && e.requestId.Some? && e.requestId.value in requests
    && e.tokenId.Some?
    && requests[e.requestId.value].status == RequestStatus.Approved
    && requests[e.requestId.value].tokenId == e.tokenId
    && e.subject == requests[e.requestId.value].subject
    && ByAssigned(requests[e.requestId.value], e)
  }

  /** Approval entries, approved requests and root tokens, one for one. */
  ghost predicate ApprovedOk(tokens: map<string, Token>, requests: map<string, Request>, approved: seq<Recorded>) {
    && (forall i :: 0 <= i < |approved| ==> ApprovalOk(requests, approved[i].event))
    && (forall i, j :: 0 <= i < j < |approved| ==>
          && approved[i].event.requestId != approved[j].event.requestId
          && approved[i].event.tokenId != approved[j].event.tokenId)
    && (forall id :: id in requests && requests[id].status == RequestStatus.Approved ==> RequestNamed(approved, id))
    && (forall id :: id in tokens && tokens[id].parentTokenId == None ==> TokenNamed(approved, id))
  }

  /** A denial entry names a denied request and the approver assigned to it. */
  ghost predicate DenialOk(requests: map<string, Request>, e: Event) {
    && e.requestId.Some? && e.requestId.value in requests
    && requests[e.requestId.value].status == RequestStatus.Denied
    && e.subject == requests[e.requestId.value].subject
    && ByAssigned(requests[e.requestId.value], e)
  }

  /** Denial entries and denied requests, one for one. */
  ghost predicate DeniedOk(requests: map<string, Request>, denied: seq<Recorded>) {
    && (forall i :: 0 <= i < |denied| ==> DenialOk(requests, denied[i].event))
    && (forall i, j :: 0 <= i < j < |denied| ==> denied[i].event.requestId != denied[j].event.requestId)
    && (forall id :: id in requests && requests[id].status == RequestStatus.Denied ==> RequestNamed(denied, id))
  }

  ghost predicate ClaimOk(requests: map<string, Request>, e: Event) {
    && e.requestId.Some? && e.requestId.value in requests
    && requests[e.requestId.value].status == RequestStatus.Approved
    && requests[e.requestId.value].tokenSecret == None
    && requests[e.requestId.value].tokenId == e.tokenId
    && requests[e.requestId.value].subject == e.subject
  }

  /** Each request's secret is claimed at most once, and is then gone. */
  ghost predicate ClaimedOk(requests: map<string, Request>, claimed: seq<Recorded>) {
    && (forall i :: 0 <= i < |claimed| ==> ClaimOk(requests, claimed[i].event))
    && (forall i, j :: 0 <= i < j < |claimed| ==> claimed[i].event.requestId != claimed[j].event.requestId)
  }

  ghost predicate SameKey(a: Request, b: Request) {
    a.subject == b.subject && Given(a.idempotencyKey) && a.idempotencyKey == b.idempotencyKey
  }

  /** One request per subject and idempotency key. */
  ghost predicate KeysOk(requests: map<string, Request>) {
    forall a, b :: a in requests && b in requests && SameKey(requests[a], requests[b]) ==> a == b
  }

  /** Tokens are revoked as logged, requests hold what their status lets them hold,
      and keys are used once: what no interleaving of calls can lose. */
  ghost predicate Filed(v: View) {
    RevokedOk(v.tokens, v.revoked) && RequestsOk(v.tokens, v.requests) && KeysOk(v.requests)
  }

  /** Requests and the log agree on what was decided, by whom, and claimed. */
  ghost predicate Decided(v: View) {
    ApprovedOk(v.tokens, v.requests, v.approved) && DeniedOk(v.requests, v.denied) && ClaimedOk(v.requests, v.claimed)
  }

  /** Requests, tokens and log agree; parents and children play no part. */
  ghost predicate Accounted(v: View) {
    Filed(v) && Decided(v)
  }

  ghost predicate Inv(v: View) {
    TokensOk(v.tokens) && Accounted(v)
  }

  // ---- What never changes -----------------------------------------------------------

  /** A token without what revocation writes. */
  function Issued(t: Token): Token {
    t.(status := TokenStatus.Active, revokedAt := None, revocationReason := None)
  }

  ghost predicate TokenEvolves(a: Token, b: Token) {
    Issued(a) == Issued(b) && (!IsActive(a) ==> !IsActive(b))
  }

  /** A request without what deciding, escalating and claiming write. */
  function Submitted(r: Request): Request {
    r.(status := RequestStatus.Pending, tokenId := None, tokenSecret := None, assignedApprover := None)
  }

  ghost predicate RequestEvolves(a: Request, b: Request) {
    && Submitted(a) == Submitted(b)
    && (a.status != RequestStatus.Pending ==>
          && b.status == a.status && b.tokenId == a.tokenId && b.assignedApprover == a.assignedApprover
          && (b.tokenSecret == a.tokenSecret || b.tokenSecret == None))
  }

  /** Later states keep every token, request and entry of earlier ones. */
  ghost predicate Evolves(v: View, w: View) {
    && (forall id :: id in v.tokens ==> id in w.tokens && TokenEvolves(v.tokens[id], w.tokens[id]))
    && (forall id :: id in v.requests ==> id in w.requests && RequestEvolves(v.requests[id], w.requests[id]))
    && v.revoked <= w.revoked && v.approved <= w.approved && v.denied <= w.denied && v.claimed <= w.claimed
    && v.escalated <= w.escalated
  }

  /** A change after which all is filed as before, and all agrees that did. */
  ghost predicate Follows(v: View, w: View) {
    Filed(w) && (Decided(v) ==> Decided(w)) && Evolves(v, w)
  }

  lemma EvolvesReflexive(v: View)
    ensures Evolves(v, v)
  {
  }

  lemma EvolvesTransitive(u: View, v: View, w: View)
    requires Evolves(u, v) && Evolves(v, w)
    ensures Evolves(u, w)
  {
  }

  // ---- Changes that keep the invariant ------------------------------------------------

  lemma NamedAppend(es: seq<Recorded>, e: Recorded, id: string)
    ensures RequestNamed(es + [e], id) <==> RequestNamed(es, id) || e.event.requestId == Some(id)
    ensures TokenNamed(es + [e], id) <==> TokenNamed(es, id) || e.event.tokenId == Some(id)
  {
    if RequestNamed(es, id) {
      var i :| 0 <= i < |es| && es[i].event.requestId == Some(id);
      assert (es + [e])[i].event.requestId == Some(id);
    }
    if TokenNamed(es, id) {
      var i :| 0 <= i < |es| && es[i].event.tokenId == Some(id);
      assert (es + [e])[i].event.tokenId == Some(id);
    }
    assert (es + [e])[|es|] == e;
  }

  lemma NewRequest(v: View, r: Request)
    requires Filed(v)
    requires r.id !in v.requests && r.status == RequestStatus.Pending && r.tokenId == None && r.tokenSecret == None
    requires forall a :: a in v.requests ==> !SameKey(v.requests[a], r)
    ensures Follows(v, v.(requests := v.requests[r.id := r]))
  {
    KeysExtend(v.requests, r);
    if Decided(v) {
      NewRequestUndecided(v, r);
    }
  }

  /** The log has nothing to say yet about a request that is new. */
  lemma NewRequestUndecided(v: View, r: Request)
    requires Decided(v) && r.id !in v.requests && r.status == RequestStatus.Pending
    ensures Decided(v.(requests := v.requests[r.id := r]))
  {
    forall i | 0 <= i < |v.approved|
      ensures ApprovalOk(v.requests[r.id := r], v.approved[i].event)
    {
      assert ApprovalOk(v.requests, v.approved[i].event);
    }
    forall i | 0 <= i < |v.denied|
      ensures DenialOk(v.requests[r.id := r], v.denied[i].event)
    {
      assert DenialOk(v.requests, v.denied[i].event);
    }
    forall i | 0 <= i < |v.claimed|
      ensures ClaimOk(v.requests[r.id := r], v.claimed[i].event)
    {
      assert ClaimOk(v.requests, v.claimed[i].event);
    }
  }

  lemma KeysExtend(requests: map<string, Request>, r: Request)
    requires KeysOk(requests) && r.id !in requests
    requires forall a :: a in requests ==> !SameKey(requests[a], r)
    ensures KeysOk(requests[r.id := r])
  {
  }

  /** One request changed, within what may change, and still in order. */
  ghost predicate Changes(v: View, id: string, r: Request) {
    && id in v.requests && r.id == id
    && RequestEvolves(v.requests[id], r) && RequestOk(v.tokens, r)
  }

  lemma ChangeKeepsKeys(requests: map<string, Request>, id: string, r: Request)
    requires KeysOk(requests) && id in requests && Submitted(requests[id]) == Submitted(r)
    ensures KeysOk(requests[id := r])
  {
    var after := requests[id := r];
    forall a, b | a in after && b in after && SameKey(after[a], after[b])
      ensures a == b
    {
      assert Submitted(requests[a]) == Submitted(after[a]) && Submitted(requests[b]) == Submitted(after[b]);
      assert SameKey(requests[a], requests[b]);
    }
  }

  lemma ChangeKeepsClaims(v: View, id: string, r: Request)
    requires ClaimedOk(v.requests, v.claimed) && Changes(v, id, r)
    ensures ClaimedOk(v.requests[id := r], v.claimed)
  {
    forall i | 0 <= i < |v.claimed|
      ensures ClaimOk(v.requests[id := r], v.claimed[i].event)
    {
      assert ClaimOk(v.requests, v.claimed[i].event);
    }
  }

  lemma ChangeKeepsApprovals(v: View, id: string, r: Request)
    requires ApprovedOk(v.tokens, v.requests, v.approved) && Changes(v, id, r)
    requires r.status == RequestStatus.Approved ==> v.requests[id].status == RequestStatus.Approved
    ensures ApprovedOk(v.tokens, v.requests[id := r], v.approved)
  {
    forall i | 0 <= i < |v.approved|
      ensures ApprovalOk(v.requests[id := r], v.approved[i].event)
    {
      assert ApprovalOk(v.requests, v.approved[i].event);
    }
  }

  lemma ChangeKeepsDenials(v: View, id: string, r: Request)
    requires DeniedOk(v.requests, v.denied) && Changes(v, id, r)
    requires r.status == RequestStatus.Denied ==> v.requests[id].status == RequestStatus.Denied
    ensures DeniedOk(v.requests[id := r], v.denied)
  {
    forall i | 0 <= i < |v.denied|
      ensures DenialOk(v.requests[id := r], v.denied[i].event)
    {
      assert DenialOk(v.requests, v.denied[i].event);
    }
  }

  lemma ChangeKeepsRequests(v: View, id: string, r: Request)
    requires RequestsOk(v.tokens, v.requests) && Changes(v, id, r)
    ensures RequestsOk(v.tokens, v.requests[id := r])
    ensures Evolves(v, v.(requests := v.requests[id := r]))
  {
  }

  /** A change that decides nothing keeps everything accounted for. */
  lemma ChangeKeepsAccount(v: View, id: string, r: Request)
    requires Filed(v) && Changes(v, id, r) && r.status == v.requests[id].status
    ensures Follows(v, v.(requests := v.requests[id := r]))
  {
    ChangeKeepsRequests(v, id, r);
    ChangeKeepsKeys(v.requests, id, r);
    if Decided(v) {
      ChangeKeepsClaims(v, id, r);
      ChangeKeepsApprovals(v, id, r);
      ChangeKeepsDenials(v, id, r);
    }
  }

  lemma ChangedApprover(v: View, id: string, approver: Option<string>, e: Recorded)
    requires Filed(v) && id in v.requests && v.requests[id].status == RequestStatus.Pending
    ensures Follows(v, v.(requests := v.requests[id := v.requests[id].(assignedApprover := approver)],
                          escalated := v.escalated + [e]))
  {
    ChangeKeepsAccount(v, id, v.requests[id].(assignedApprover := approver));
  }

  lemma DeniedRequest(v: View, id: string, e: Recorded)
    requires Filed(v) && id in v.requests && v.requests[id].status == RequestStatus.Pending
    requires e.event.requestId == Some(id) && e.event.subject == v.requests[id].subject
    requires ByAssigned(v.requests[id], e.event)
    ensures Follows(v, v.(requests := v.requests[id := v.requests[id].(status := RequestStatus.Denied)],
                          denied := v.denied + [e]))
  {
    var r := v.requests[id].(status := RequestStatus.Denied);
    ChangeKeepsRequests(v, id, r);
    ChangeKeepsKeys(v.requests, id, r);
    if Decided(v) {
      ChangeKeepsClaims(v, id, r);
      ChangeKeepsApprovals(v, id, r);
      DenialAppends(v.requests, v.denied, id, r, e);
    }
  }

  lemma DenialAppends(requests: map<string, Request>, denied: seq<Recorded>, id: string, r: Request, e: Recorded)
    requires DeniedOk(requests, denied) && id in requests && requests[id].status == RequestStatus.Pending
    requires r.status == RequestStatus.Denied && e.event.subject == r.subject
    requires e.event.requestId == Some(id) && ByAssigned(r, e.event)
    ensures DeniedOk(requests[id := r], denied + [e])
  {
    DenialsElsewhere(requests, denied, id, r);
    forall k
      ensures RequestNamed(denied + [e], k) <==> RequestNamed(denied, k) || k == id
    {
      NamedAppend(denied, e, k);
    }
  }

  /** Earlier denials are of other requests than one that is pending. */
  lemma DenialsElsewhere(requests: map<string, Request>, denied: seq<Recorded>, id: string, r: Request)
    requires DeniedOk(requests, denied) && id in requests && requests[id].status == RequestStatus.Pending
    ensures forall i :: 0 <= i < |denied| ==>
              denied[i].event.requestId != Some(id) && DenialOk(requests[id := r], denied[i].event)
  {
    forall i | 0 <= i < |denied|
      ensures denied[i].event.requestId != Some(id) && DenialOk(requests[id := r], denied[i].event)
    {
      assert DenialOk(requests, denied[i].event);
    }
  }

  lemma ClaimedSecret(v: View, id: string, e: Recorded)
    requires Filed(v) && id in v.requests && v.requests[id].status == RequestStatus.Approved
    requires v.requests[id].tokenSecret.Some?
    requires e.event.requestId == Some(id) && e.event.tokenId == v.requests[id].tokenId
    requires e.event.subject == v.requests[id].subject
    ensures Follows(v, v.(requests := v.requests[id := v.requests[id].(tokenSecret := None)],
                          claimed := v.claimed + [e]))
  {
    var r := v.requests[id].(tokenSecret := None);
    assert RequestOk(v.tokens, v.requests[id]);
    ChangeKeepsAccount(v, id, r);
    if Decided(v) {
      ClaimAppends(v, id, r, e);
    }
  }

  lemma ClaimAppends(v: View, id: string, r: Request, e: Recorded)
    requires ClaimedOk(v.requests, v.claimed) && ClaimedOk(v.requests[id := r], v.claimed)
    requires id in v.requests && v.requests[id].tokenSecret.Some?
    requires e.event.requestId == Some(id) && ClaimOk(v.requests[id := r], e.event)
    ensures ClaimedOk(v.requests[id := r], v.claimed + [e])
  {
    forall i | 0 <= i < |v.claimed|
      ensures v.claimed[i].event.requestId != Some(id)
    {
      assert ClaimOk(v.requests, v.claimed[i].event);
    }
  }

  lemma ErasedSecrets(v: View)
    requires Filed(v)
    ensures Follows(v, v.(requests := map id | id in v.requests :: WithoutSecret(v.requests[id])))
  {
    ErasedStaysFiled(v);
    if Decided(v) {
      ErasedStaysDecided(v);
    }
  }

  lemma ErasedStaysFiled(v: View)
    requires Filed(v)
    ensures Filed(v.(requests := map id | id in v.requests :: WithoutSecret(v.requests[id])))
  {
    var requests: map<string, Request> := map id | id in v.requests :: WithoutSecret(v.requests[id]);
    forall a, b | a in requests && b in requests && SameKey(requests[a], requests[b])
      ensures a == b
    {
      assert SameKey(v.requests[a], v.requests[b]);
    }
  }

  lemma ErasedStaysDecided(v: View)
    requires Decided(v)
    ensures Decided(v.(requests := map id | id in v.requests :: WithoutSecret(v.requests[id])))
  {
    var requests: map<string, Request> := map id | id in v.requests :: WithoutSecret(v.requests[id]);
    forall i | 0 <= i < |v.claimed|
      ensures ClaimOk(requests, v.claimed[i].event)
    {
      assert ClaimOk(v.requests, v.claimed[i].event);
    }
    forall i | 0 <= i < |v.denied|
      ensures DenialOk(requests, v.denied[i].event)
    {
      assert DenialOk(v.requests, v.denied[i].event);
    }
    forall i | 0 <= i < |v.approved|
      ensures ApprovalOk(requests, v.approved[i].event)
    {
      assert ApprovalOk(v.requests, v.approved[i].event);
    }
  }

  /** A new token no wider and no longer-lived than its parent, if it has one. */
  ghost predicate Narrower(tokens: map<string, Token>, t: Token) {
    && t.id != "" && t.id !in tokens && t.scope != []
    && (t.parentTokenId.Some? ==>
          && t.parentTokenId.value in tokens
          && var p := tokens[t.parentTokenId.value];
             ScopeSet(t.scope) < ScopeSet(p.scope) && t.expiresAt <= p.expiresAt)
  }

  ghost predicate ParentActive(tokens: map<string, Token>, t: Token) {
    t.parentTokenId.Some? ==> t.parentTokenId.value in tokens && IsActive(tokens[t.parentTokenId.value])
  }

  ghost predicate Admissible(tokens: map<string, Token>, t: Token) {
    Narrower(tokens, t) && IsActive(t) && ParentActive(tokens, t)
  }

  lemma NarrowerToken(tokens: map<string, Token>, t: Token)
    requires Contained(tokens) && Narrower(tokens, t)
    ensures Contained(tokens[t.id := t])
  {
    var after := tokens[t.id := t];
    var g, h := GenealogyOf(tokens), GenealogyOf(after);
    assert t.scope[0] in ScopeSet(t.scope);
    forall d | d in h
      ensures h[d].scope != {}
      ensures HasParent(h, d) ==> h[d].scope < h[h[d].parent.value].scope
    {
      assert d != t.id ==> h[d] == g[d] && (HasParent(h, d) ==> HasParent(g, d));
    }
  }

  /** A closed forest stays closed exactly when the new token's parent is active. */
  lemma ClosedWithToken(tokens: map<string, Token>, t: Token)
    requires Contained(tokens) && Closed(tokens) && Narrower(tokens, t) && IsActive(t)
    ensures Closed(tokens[t.id := t]) <==> ParentActive(tokens, t)
  {
    var after := tokens[t.id := t];
    var g, h := GenealogyOf(tokens), GenealogyOf(after);
    assert t.parentTokenId.Some? ==> HasParent(h, t.id);
    if ParentActive(tokens, t) {
      forall d | HasParent(h, d) && !IsActive(after[after[d].parentTokenId.value])
        ensures !IsActive(after[d])
      {
        assert d != t.id ==> HasParent(g, d);
      }
    }
  }

  lemma AdmittedToken(tokens: map<string, Token>, t: Token)
    requires TokensOk(tokens) && Admissible(tokens, t)
    ensures TokensOk(tokens[t.id := t])
  {
    NarrowerToken(tokens, t);
    ClosedWithToken(tokens, t);
  }

  /** A new token disturbs nothing the log or the requests say. */
  lemma TokenAdded(v: View, t: Token)
    requires RevokedOk(v.tokens, v.revoked) && RequestsOk(v.tokens, v.requests)
    requires t.id !in v.tokens && IsActive(t)
    ensures RevokedOk(v.tokens[t.id := t], v.revoked) && RequestsOk(v.tokens[t.id := t], v.requests)
  {
    forall id | id in v.requests
      ensures RequestOk(v.tokens[t.id := t], v.requests[id])
    {
      assert RequestOk(v.tokens, v.requests[id]);
    }
  }

  lemma TokenAddedEvolves(v: View, t: Token)
    requires t.id !in v.tokens
    ensures Evolves(v, v.(tokens := v.tokens[t.id := t]))
  {
  }

  lemma NewChild(v: View, t: Token)
    requires Filed(v) && t.id !in v.tokens && IsActive(t) && t.parentTokenId.Some?
    ensures Follows(v, v.(tokens := v.tokens[t.id := t]))
  {
    TokenAdded(v, t);
    if Decided(v) {
      ChildNeedsNoApproval(v, t);
    }
    TokenAddedEvolves(v, t);
  }

  lemma ChildNeedsNoApproval(v: View, t: Token)
    requires ApprovedOk(v.tokens, v.requests, v.approved) && t.id !in v.tokens && t.parentTokenId.Some?
    ensures ApprovedOk(v.tokens[t.id := t], v.requests, v.approved)
  {
  }

  /** The approval entry, the request and its root token arrive together. */
  lemma ApprovalAppends(v: View, id: string, r: Request, t: Token, e: Recorded)
    requires ApprovedOk(v.tokens, v.requests, v.approved) && RequestsOk(v.tokens, v.requests)
    requires id in v.requests && v.requests[id].status == RequestStatus.Pending && t.id !in v.tokens
    requires r.status == RequestStatus.Approved && r.tokenId == Some(t.id)
    requires e.event.requestId == Some(id) && e.event.tokenId == Some(t.id) && e.event.subject == r.subject
    requires ByAssigned(r, e.event)
    ensures ApprovedOk(v.tokens[t.id := t], v.requests[id := r], v.approved + [e])
  {
    ApprovalsElsewhere(v, id, r, t);
    ApprovalNamed(v.approved, e);
    ApprovalEntries(v.approved, v.requests[id := r], e);
  }

  lemma ApprovalNamed(approved: seq<Recorded>, e: Recorded)
    requires e.event.requestId.Some? && e.event.tokenId.Some?
    ensures forall k ::
              && (RequestNamed(approved + [e], k) <==> RequestNamed(approved, k) || e.event.requestId == Some(k))
              && (TokenNamed(approved + [e], k) <==> TokenNamed(approved, k) || e.event.tokenId == Some(k))
  {
    forall k
      ensures RequestNamed(approved + [e], k) <==> RequestNamed(approved, k) || e.event.requestId == Some(k)
      ensures TokenNamed(approved + [e], k) <==> TokenNamed(approved, k) || e.event.tokenId == Some(k)
    {
      NamedAppend(approved, e, k);
    }
  }

  /** The new entry is alone in naming its request and its token. */
  lemma ApprovalEntries(approved: seq<Recorded>, requests: map<string, Request>, e: Recorded)
    requires ApprovalOk(requests, e.event)
    requires forall i :: 0 <= i < |approved| ==>
               && approved[i].event.requestId != e.event.requestId && approved[i].event.tokenId != e.event.tokenId
               && ApprovalOk(requests, approved[i].event)
    requires forall i, j :: 0 <= i < j < |approved| ==>
               && approved[i].event.requestId != approved[j].event.requestId
               && approved[i].event.tokenId != approved[j].event.tokenId
    ensures var all := approved + [e];
            && (forall i :: 0 <= i < |all| ==> ApprovalOk(requests, all[i].event))
            && forall i, j :: 0 <= i < j < |all| ==>
                 && all[i].event.requestId != all[j].event.requestId && all[i].event.tokenId != all[j].event.tokenId
  {
  }

  /** Earlier approvals are of other requests and other tokens. */
  lemma ApprovalsElsewhere(v: View, id: string, r: Request, t: Token)
    requires ApprovedOk(v.tokens, v.requests, v.approved) && RequestsOk(v.tokens, v.requests)
    requires id in v.requests && v.requests[id].status == RequestStatus.Pending && t.id !in v.tokens
    ensures forall i :: 0 <= i < |v.approved| ==>
              && v.approved[i].event.requestId != Some(id) && v.approved[i].event.tokenId != Some(t.id)
              && ApprovalOk(v.requests[id := r], v.approved[i].event)
  {
    forall i | 0 <= i < |v.approved|
      ensures v.approved[i].event.requestId != Some(id) && v.approved[i].event.tokenId != Some(t.id)
      ensures ApprovalOk(v.requests[id := r], v.approved[i].event)
    {
      assert ApprovalOk(v.requests, v.approved[i].event);
      assert RequestOk(v.tokens, v.requests[v.approved[i].event.requestId.value]);
    }
  }

  lemma DecisionKeepsDenials(requests: map<string, Request>, denied: seq<Recorded>, id: string, r: Request)
    requires DeniedOk(requests, denied) && id in requests
    requires requests[id].status == RequestStatus.Pending && r.status == RequestStatus.Approved
    ensures DeniedOk(requests[id := r], denied)
  {
    DenialsElsewhere(requests, denied, id, r);
  }

  /** A request, its new root and the approval entry, saved together. */
  ghost predicate Approves(v: View, id: string, r: Request, t: Token, e: Recorded) {
    && id in v.requests && r.status == RequestStatus.Approved && Submitted(v.requests[id]) == Submitted(r)
    && t.id !in v.tokens && IsActive(t) && Fulfils(t, r)
    && e.event.requestId == Some(id) && e.event.tokenId == Some(t.id) && e.event.subject == r.subject
    && ByAssigned(r, e.event)
  }

  function WithRoot(v: View, id: string, r: Request, t: Token, e: Recorded): View {
    v.(tokens := v.tokens[t.id := t], requests := v.requests[id := r], approved := v.approved + [e])
  }

  /** An approval of a pending request disturbs nothing; of any other it leaves all
      filed, but request and log no longer agree, and what was decided is undone. */
  lemma ApprovedRequest(v: View, id: string, r: Request, t: Token, e: Recorded)
    requires Filed(v) && Approves(v, id, r, t, e)
    ensures var w := WithRoot(v, id, r, t, e);
            && Filed(w)
            && (v.requests[id].status == RequestStatus.Pending ==> Follows(v, w))
            && (v.requests[id].status != RequestStatus.Pending && Decided(v) ==> !Decided(w) && !Evolves(v, w))
  {
    RootFiled(v, id, r, t, e);
    if v.requests[id].status == RequestStatus.Pending {
      RootEvolves(v, id, r, t, e);
      if Decided(v) {
        FirstDecision(v, id, r, t, e);
      }
    } else if Decided(v) {
      SecondDecision(v, id, r, t, e);
    }
  }

  lemma RootFiled(v: View, id: string, r: Request, t: Token, e: Recorded)
    requires Filed(v) && Approves(v, id, r, t, e)
    ensures Filed(WithRoot(v, id, r, t, e))
  {
    TokenAdded(v, t);
    SubmittedFixes(v.requests[id], r);
    ChangeKeepsKeys(v.requests, id, r);
  }

  lemma RootEvolves(v: View, id: string, r: Request, t: Token, e: Recorded)
    requires Approves(v, id, r, t, e) && v.requests[id].status == RequestStatus.Pending
    ensures Evolves(v, WithRoot(v, id, r, t, e))
  {
  }

  lemma FirstDecision(v: View, id: string, r: Request, t: Token, e: Recorded)
    requires Accounted(v) && Approves(v, id, r, t, e) && v.requests[id].status == RequestStatus.Pending
    ensures Decided(WithRoot(v, id, r, t, e))
  {
    ApprovalAppends(v, id, r, t, e);
    DecisionKeepsDenials(v.requests, v.denied, id, r);
    ClaimsElsewhere(v.requests, v.claimed, id, r);
  }

  lemma ClaimsElsewhere(requests: map<string, Request>, claimed: seq<Recorded>, id: string, r: Request)
    requires ClaimedOk(requests, claimed) && id in requests && requests[id].status == RequestStatus.Pending
    ensures ClaimedOk(requests[id := r], claimed)
  {
    forall i | 0 <= i < |claimed|
      ensures ClaimOk(requests[id := r], claimed[i].event)
    {
      assert ClaimOk(requests, claimed[i].event);
    }
  }

  /** A second decision of a request puts its record and the log at odds. */
  lemma SecondDecision(v: View, id: string, r: Request, t: Token, e: Recorded)
    requires Accounted(v) && Approves(v, id, r, t, e) && v.requests[id].status != RequestStatus.Pending
    ensures !Decided(WithRoot(v, id, r, t, e)) && !Evolves(v, WithRoot(v, id, r, t, e))
  {
    var w := WithRoot(v, id, r, t, e);
    assert RequestOk(v.tokens, v.requests[id]);
    assert !RequestEvolves(v.requests[id], r);
    if v.requests[id].status == RequestStatus.Denied {
      var i :| 0 <= i < |v.denied| && v.denied[i].event.requestId == Some(id);
      assert !DenialOk(w.requests, w.denied[i].event);
    } else {
      var i :| 0 <= i < |v.approved| && v.approved[i].event.requestId == Some(id);
      assert w.approved[i].event.requestId == w.approved[|v.approved|].event.requestId;
    }
  }

  lemma SubmittedFixes(a: Request, b: Request)
    requires Submitted(a) == Submitted(b)
    ensures a.id == b.id && a.subject == b.subject && a.scope == b.scope && a.ttlSeconds == b.ttlSeconds
    ensures a.requestedAt == b.requestedAt && a.idempotencyKey == b.idempotencyKey
  {
  }

  lemma IssuedFixes(a: Token, b: Token)
    requires Issued(a) == Issued(b)
    ensures a.id == b.id && a.subject == b.subject && a.scope == b.scope && a.issuedAt == b.issuedAt
    ensures a.expiresAt == b.expiresAt && a.parentTokenId == b.parentTokenId && a.secretHash == b.secretHash
  {
  }

  ghost predicate TokensEvolve(tokens: map<string, Token>, after: map<string, Token>) {
    && after.Keys == tokens.Keys
    && forall id :: id in tokens ==> TokenEvolves(tokens[id], after[id])
  }

  lemma SameGenealogy(tokens: map<string, Token>, after: map<string, Token>)
    requires TokensEvolve(tokens, after)
    ensures GenealogyOf(after) == GenealogyOf(tokens)
  {
    forall id | id in tokens
      ensures GenealogyOf(after)[id] == GenealogyOf(tokens)[id]
    {
      IssuedFixes(tokens[id], after[id]);
    }
  }

  lemma RevocationKeepsTokens(tokens: map<string, Token>, after: map<string, Token>)
    requires Contained(tokens) && TokensEvolve(tokens, after) && Forested(after)
    ensures Contained(after)
  {
    forall d | d in after && after[d].parentTokenId.Some?
      ensures after[d].parentTokenId.value in after
      ensures after[d].expiresAt <= after[after[d].parentTokenId.value].expiresAt
    {
      IssuedFixes(tokens[d], after[d]);
      IssuedFixes(tokens[tokens[d].parentTokenId.value], after[tokens[d].parentTokenId.value]);
    }
  }

  lemma RevocationKeepsRequests(v: View, after: map<string, Token>)
    requires RequestsOk(v.tokens, v.requests) && TokensEvolve(v.tokens, after)
    ensures RequestsOk(after, v.requests)
  {
    forall id | id in v.requests
      ensures RequestOk(after, v.requests[id])
    {
      var r := v.requests[id];
      assert RequestOk(v.tokens, r);
      if r.status == RequestStatus.Approved {
        IssuedFixes(v.tokens[r.tokenId.value], after[r.tokenId.value]);
      }
    }
  }

  lemma RevocationKeepsApprovals(v: View, after: map<string, Token>)
    requires ApprovedOk(v.tokens, v.requests, v.approved) && TokensEvolve(v.tokens, after)
    ensures ApprovedOk(after, v.requests, v.approved)
  {
    forall id | id in after && after[id].parentTokenId == None
      ensures TokenNamed(v.approved, id)
    {
      IssuedFixes(v.tokens[id], after[id]);
    }
  }

  lemma NamedJoin(a: seq<Recorded>, b: seq<Recorded>, id: string)
    ensures TokenNamed(a + b, id) <==> TokenNamed(a, id) || TokenNamed(b, id)
  {
    if TokenNamed(a, id) {
      var i :| 0 <= i < |a| && a[i].event.tokenId == Some(id);
      assert (a + b)[i].event.tokenId == Some(id);
    }
    if TokenNamed(b, id) {
      var i :| 0 <= i < |b| && b[i].event.tokenId == Some(id);
      assert (a + b)[|a| + i].event.tokenId == Some(id);
    }
  }

  /** Revocations that never revive a token and are announced. */
  lemma RevokedTokens(v: View, after: map<string, Token>, es: seq<Recorded>)
    requires Filed(v) && TokensEvolve(v.tokens, after)
    requires forall id :: TokenNamed(es, id) || (id in v.tokens && !IsActive(v.tokens[id]))
                          <==> id in v.tokens && !IsActive(after[id])
    ensures Follows(v, v.(tokens := after, revoked := v.revoked + es))
  {
    RevocationKeepsRequests(v, after);
    if Decided(v) {
      RevocationKeepsApprovals(v, after);
    }
    RevocationsLogged(v.tokens, after, v.revoked, es);
  }

  lemma RevocationsLogged(
    tokens: map<string, Token>, after: map<string, Token>, revoked: seq<Recorded>, es: seq<Recorded>)
    requires RevokedOk(tokens, revoked) && after.Keys == tokens.Keys
    requires forall id :: TokenNamed(es, id) || (id in tokens && !IsActive(tokens[id]))
                          <==> id in tokens && !IsActive(after[id])
    ensures RevokedOk(after, revoked + es)
  {
    forall id
      ensures TokenNamed(revoked + es, id) <==> id in after && after[id].status == TokenStatus.Revoked
    {
      NamedJoin(revoked, es, id);
    }
  }
}
