/** A run from any start: a request, its approval, and so a root token that can be
    delegated from, whatever its subject, scope, lifetime and secret. */
module Witnesses {
  import opened Core
  import opened CircuitBreakers
  import opened Domain
  import opened Steps
  import opened Revocation
  import opened Runs
  import opened Traces
  import opened Lifecycle

  datatype Wish = Wish(
    id: string, subject: string, scope: seq<string>, ttlSeconds: int, approver: string, nonce: Nonce, now: int)

  predicate Sensible(x: Wish) {
    x.id != "" && x.scope != [] && x.ttlSeconds > 0 && x.nonce.id != ""
  }

  function Ask(x: Wish): Step {
    DoRequestToken(x.subject, x.scope, x.ttlSeconds, None, x.id, None, x.now)
  }

  function Grant(x: Wish): Step {
    DoApprove(x.id, x.approver, None, x.nonce, x.now, x.now)
  }

  function Root(x: Wish): Token {
    Token(x.nonce.id, x.subject, x.scope, x.now, x.now + x.ttlSeconds * 1000, TokenStatus.Active, None, None, None,
          HashPassword(x.nonce.secret, x.nonce.salt))
  }

  function Pending(x: Wish): Request {
    Request(x.id, x.subject, x.scope, x.ttlSeconds, RequestStatus.Pending, x.now, None, None, None, None)
  }

  /** The wish is on file, waiting for its approver, behind a settled breaker. */
  ghost predicate Wanted(s: Sys, x: Wish) {
    && Sound(s) && Settled(s.breaker)
    && x.id in s.requests.at && s.requests.at[x.id] == Pending(x) && s.tokens.at == map[]
  }

  /** The wish is granted: its root is in the store. */
  ghost predicate Held(s: Sys, x: Wish) {
    Sound(s) && Settled(s.breaker) && x.nonce.id in s.tokens.at && s.tokens.at[x.nonce.id] == Root(x)
  }

  lemma WishAsked(start: Sys, x: Wish)
    requires Start(start) && Sensible(x)
    ensures Sound(start) && Fresh(start, Ask(x)) && Wanted(Apply(start, Ask(x)), x)
  {
    StartSound(start);
    SubmissionOutcome(start, x.subject, x.scope, x.ttlSeconds, None, x.id, None, x.now);
    RequestTokenKeeps(start, x.subject, x.scope, x.ttlSeconds, None, x.id, None, x.now);
    KeptSound(start, Apply(start, Ask(x)));
  }

  lemma RootGranted(s: Sys, x: Wish)
    requires Wanted(s, x) && Sensible(x)
    ensures var t := ApproveRequest(s, x.id, x.approver, None, x.nonce, x.now, x.now).0;
            && t.breaker == s.breaker && x.nonce.id in t.tokens.at && t.tokens.at[x.nonce.id] == Root(x)
  {
    GuardSettled(s, x.now);
    IssuanceOutcome(s, Issuance(x.subject, x.scope, x.ttlSeconds, None, None), x.nonce, x.now);
  }

  lemma WishGranted(s: Sys, x: Wish)
    requires Wanted(s, x) && Sensible(x)
    ensures Fresh(s, Grant(x)) && Held(Apply(s, Grant(x)), x)
  {
    RootGranted(s, x);
    ApproveSound(s, x.id, x.approver, None, x.nonce, x.now, x.now);
  }

  /** Every sensible wish is held in some reachable state. */
  lemma WishCanBeHeld(start: Sys, x: Wish) returns (t: Sys)
    requires Start(start) && Sensible(x)
    ensures Reachable(t) && Held(t, x)
  {
    WishAsked(start, x);
    var s := Apply(start, Ask(x));
    WishGranted(s, x);
    t := Apply(s, Grant(x));
    TwoSteps(start, Ask(x), s, Grant(x), t);
  }

  lemma TwoSteps(start: Sys, a: Step, s: Sys, b: Step, t: Sys)
    requires Start(start) && Takes(start, a, s) && Takes(s, b, t)
    ensures Reachable(t)
  {
    ChainOne(Takes, start, a, s);
    ChainOne(Takes, s, b, t);
    ChainJoin(Takes, start, [a], s, [b], t);
    assert Leads(start, [a] + [b], t);
  }
}
