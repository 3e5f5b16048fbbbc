/** Delegations that save a child after its parent was revoked: exactly what they
    lose of revocation, and how long a revocation lasts. */
module LateSaves {
  import opened Core
  import opened Domain
  import opened Forest
  import opened Steps
  import opened Revocation
  import opened Invariants
  import opened Runs
  import opened Theorems
  import opened Traces
  import opened Interleavings

  // ---- Closure, and the one move that loses it -----------------------------------------------

  /** A delegation that reaches its save after its parent was revoked. */
  ghost predicate LateSave(w: World, m: Move) {
    && ChildSaves(w, m)
    && var p := w.flights[m.i].purpose.parentId;
       p in w.s.tokens.at && !IsActive(w.s.tokens.at[p])
  }

  /** "No revoked token has an active descendant" is lost in exactly one way. */
  lemma ClosureLostOnlyByLateSave(w: World, m: Move)
    requires WorldOk(w) && Possible(w, m) && Revocation.Closed(w.s.tokens.at)
    ensures WorldOk(Moved(w, m))
    ensures Revocation.Closed(Moved(w, m).s.tokens.at) <==> !LateSave(w, m)
  {
    MoveKeeps(w, m);
    match m
    case Whole(step) =>
      WholeKeeps(w, step);
      if step.DoRevoke? {
        RevokeCloses(w.s, step.tokenId, step.reason, step.now, step.actor, step.clock);
      }
    case Finish(i, n, clock) =>
      assert FlightOk(w.s.tokens.at, w.flights[i]);
      FinishSaves(w, i, n, clock);
      ClosedWithToken(w.s.tokens.at, TokenOf(w.flights[i], n));
    case _ => UnsavingKeeps(w, m);
  }

  // ---- Runs with no late save --------------------------------------------------------------------

  ghost predicate Timely(w: World, m: Move, u: World) {
    Goes(w, m, u) && !LateSave(w, m)
  }

  /** Approvals, late or not, play no part in closure. */
  lemma {:induction false} TimelyRunsStayClosed(w: World, moves: seq<Move>, t: World)
    requires WorldOk(w) && Revocation.Closed(w.s.tokens.at) && Chain(Timely, w, moves, t)
    ensures WorldOk(t) && Revocation.Closed(t.s.tokens.at) && Grown(w.s.tokens.at, t.s.tokens.at)
    decreases |moves|
  {
    if moves != [] {
      var u :| Timely(w, moves[0], u) && Chain(Timely, u, moves[1..], t);
      MoveKeeps(w, moves[0]);
      ClosureLostOnlyByLateSave(w, moves[0]);
      TimelyRunsStayClosed(u, moves[1..], t);
    }
  }

  // ---- How long a revocation lasts ---------------------------------------------------------------

  /** A delegation saves a child of the target, or of a token below it. */
  ghost predicate LateSaveUnder(w: World, m: Move, target: string) {
    && ChildSaves(w, m)
    && Forested(w.s.tokens.at) && AtOrBelow(GenealogyOf(w.s.tokens.at), target, w.flights[m.i].purpose.parentId)
  }

  /** A new token descends from what its parent descends from; all else is as before. */
  lemma {:induction false} BelowWithToken(tokens: map<string, Token>, t: Token, p: string, d: string)
    requires Contained(tokens) && Narrower(tokens, t) && Contained(tokens[t.id := t])
    ensures var g, h := GenealogyOf(tokens), GenealogyOf(tokens[t.id := t]);
            Below(h, p, d) <==> if d == t.id then t.parentTokenId.Some? && AtOrBelow(g, p, t.parentTokenId.value)
                                else Below(g, p, d)
    decreases if d == t.id then 1 else 0, Height(GenealogyOf(tokens), d)
  {
    var g, h := GenealogyOf(tokens), GenealogyOf(tokens[t.id := t]);
    if d == t.id {
      if t.parentTokenId.Some? {
        BelowWithToken(tokens, t, p, t.parentTokenId.value);
      }
    } else if HasParent(g, d) {
      HeightFalls(g, d);
      BelowWithToken(tokens, t, p, g[d].parent.value);
    } else {
      assert !HasParent(h, d);
    }
  }

  lemma ThroughoutWithToken(tokens: map<string, Token>, t: Token, target: string)
    requires Contained(tokens) && Narrower(tokens, t) && IsActive(t) && Contained(tokens[t.id := t])
    requires target in tokens && RevokedThroughout(tokens, target)
    ensures RevokedThroughout(tokens[t.id := t], target)
            <==> !(t.parentTokenId.Some? && AtOrBelow(GenealogyOf(tokens), target, t.parentTokenId.value))
  {
    forall d
      ensures Below(GenealogyOf(tokens[t.id := t]), target, d)
              <==> if d == t.id
                   then t.parentTokenId.Some? && AtOrBelow(GenealogyOf(tokens), target, t.parentTokenId.value)
                   else Below(GenealogyOf(tokens), target, d)
    {
      BelowWithToken(tokens, t, target, d);
    }
    var after := tokens[t.id := t];
    if t.parentTokenId.Some? && AtOrBelow(GenealogyOf(tokens), target, t.parentTokenId.value) {
      assert t.id in after && AtOrBelow(GenealogyOf(after), target, t.id) && IsActive(after[t.id]);
    } else {
      forall d | d in after && AtOrBelow(GenealogyOf(after), target, d)
        ensures !IsActive(after[d])
      {
        assert d in tokens && AtOrBelow(GenealogyOf(tokens), target, d);
      }
    }
  }

  lemma ThroughoutStays(tokens: map<string, Token>, after: map<string, Token>, target: string)
    requires Forested(tokens) && Forested(after) && TokensEvolve(tokens, after) && RevokedThroughout(tokens, target)
    ensures RevokedThroughout(after, target)
  {
    SameGenealogy(tokens, after);
  }

  /** Once a token and all below it are revoked, that is lost in exactly one way. */
  lemma SubtreeLostOnlyByLateSave(w: World, m: Move, target: string)
    requires WorldOk(w) && Possible(w, m)
    requires target in w.s.tokens.at && RevokedThroughout(w.s.tokens.at, target)
    ensures WorldOk(Moved(w, m)) && target in Moved(w, m).s.tokens.at
    ensures RevokedThroughout(Moved(w, m).s.tokens.at, target) <==> !LateSaveUnder(w, m, target)
  {
    MoveKeeps(w, m);
    match m
    case Whole(step) =>
      WholeKeeps(w, step);
      ThroughoutStays(w.s.tokens.at, Moved(w, m).s.tokens.at, target);
    case Finish(i, n, clock) =>
      assert FlightOk(w.s.tokens.at, w.flights[i]);
      FinishSaves(w, i, n, clock);
      if Guard(w.s, clock).1 {
        ThroughoutWithToken(w.s.tokens.at, TokenOf(w.flights[i], n), target);
      }
    case _ => UnsavingKeeps(w, m);
  }

  /** The moves that save nothing under the target. */
  ghost function Sparing(target: string): (World, Move, World) -> bool {
    (w: World, m: Move, u: World) => Goes(w, m, u) && !LateSaveUnder(w, m, target)
  }

  lemma {:induction false} SparedSubtreeStays(w: World, moves: seq<Move>, t: World, target: string)
    requires WorldOk(w) && target in w.s.tokens.at && RevokedThroughout(w.s.tokens.at, target)
    requires Chain(Sparing(target), w, moves, t)
    ensures WorldOk(t) && target in t.s.tokens.at && RevokedThroughout(t.s.tokens.at, target)
    decreases |moves|
  {
    if moves != [] {
      var u :| Sparing(target)(w, moves[0], u) && Chain(Sparing(target), u, moves[1..], t);
      SubtreeLostOnlyByLateSave(w, moves[0], target);
      SparedSubtreeStays(u, moves[1..], t, target);
    }
  }

  lemma RevokeMove(
    w: World, target: string, reason: RevocationReason, now: int, actor: Option<string>, clock: int, u: World)
    requires WorldOk(w) && Goes(w, Whole(DoRevoke(target, reason, now, actor, clock)), u)
    requires RevokeToken(w.s, target, reason, now, actor, clock).1.Ok?
    ensures WorldOk(u) && target in u.s.tokens.at && !IsActive(u.s.tokens.at[target])
    ensures RevokedThroughout(u.s.tokens.at, target) <==> Sealed(w.s.tokens.at, target)
  {
    RevocationApplied(w.s, target, reason, now, actor, clock);
    RevokeReaches(w.s, target, reason, now, actor, clock);
    MoveKeeps(w, Whole(DoRevoke(target, reason, now, actor, clock)));
  }

  lemma RevocationApplied(
    s: Sys, target: string, reason: RevocationReason, now: int, actor: Option<string>, clock: int)
    requires Stores(s) && Forested(s.tokens.at)
    ensures Apply(s, DoRevoke(target, reason, now, actor, clock)) == RevokeToken(s, target, reason, now, actor, clock).0
  {
  }

  lemma RevokeReaches(
    s: Sys, target: string, reason: RevocationReason, now: int, actor: Option<string>, clock: int)
    requires WellFiled(s) && Contained(s.tokens.at) && RevokeToken(s, target, reason, now, actor, clock).1.Ok?
    ensures var s' := RevokeToken(s, target, reason, now, actor, clock).0;
            && target in s'.tokens.at && !IsActive(s'.tokens.at[target]) && Forested(s'.tokens.at)
            && (RevokedThroughout(s'.tokens.at, target) <==> Sealed(s.tokens.at, target))
  {
    var s' := RevokeToken(s, target, reason, now, actor, clock).0;
    RevokeKeeps(s, target, reason, now, actor, clock);
    RevokeTokenEffect(s, target, reason, now, actor, clock);
    RevocationReachesAll(Guard(s, clock).0, s', target, reason, now, actor);
  }

  /** Right after a revocation everything below its target is refused as revoked
      exactly when the target's subtree was sealed; and it stays so, whatever else
      is interleaved, until a delegation saves a child under the target. */
  lemma {:induction false} RevocationIsPermanentInterleaved(
    w: World, target: string, reason: RevocationReason, now: int, actor: Option<string>, clock: int, u: World,
    moves: seq<Move>, t: World, d: string, action: string, later: int)
    requires WorldOk(w) && Sealed(w.s.tokens.at, target)
    requires RevokeToken(w.s, target, reason, now, actor, clock).1.Ok?
    requires Goes(w, Whole(DoRevoke(target, reason, now, actor, clock)), u) && Chain(Sparing(target), u, moves, t)
    requires Descends(t.s, target, d)
    ensures Decide(t.s.tokens.at[d], action, later) == Deny(TokenRevoked)
  {
    RevokeMove(w, target, reason, now, actor, clock, u);
    SparedSubtreeStays(u, moves, t, target);
  }

  /** In interleavings from an empty start with no late save, revocation is as
      permanent as when calls do not overlap, however late approvals are. */
  lemma {:induction false} RevocationIsPermanentOnTime(
    start: Sys, before: seq<Move>, w: World, target: string, reason: RevocationReason, now: int, actor: Option<string>,
    clock: int, u: World, after: seq<Move>, t: World, d: string, action: string, later: int)
    requires Start(start) && Chain(Timely, World(start, []), before, w)
    requires Goes(w, Whole(DoRevoke(target, reason, now, actor, clock)), u)
    requires RevokeToken(w.s, target, reason, now, actor, clock).1.Ok?
    requires Chain(Timely, u, after, t) && Descends(t.s, target, d)
    ensures Decide(t.s.tokens.at[d], action, later) == Deny(TokenRevoked)
  {
    StartInOrder(start);
    TimelyRunsStayClosed(World(start, []), before, w);
    RevokeMove(w, target, reason, now, actor, clock, u);
    ClosureLostOnlyByLateSave(w, Whole(DoRevoke(target, reason, now, actor, clock)));
    TimelyRunsStayClosed(u, after, t);
    if d != target {
      RevokedSubtree(t.s.tokens.at, target, d);
    }
  }
}
