/** What revokeToken and its recursive cascade do to the store and the log. */
module Revocation {
  import opened Core
  import opened AuditLogs
  import opened CircuitBreakers
  import opened Domain
  import opened Forest
  import opened Steps

  predicate IsActive(t: Token) {
    t.status == TokenStatus.Active
  }

  /** d is below p, and it and every token between the two are active: whatever a
      cascade from p comes to, p's own status apart. */
  ghost predicate Reaches(tokens: map<string, Token>, p: string, d: string)
    requires Forested(tokens)
    decreases Height(GenealogyOf(tokens), d)
  {
    var g := GenealogyOf(tokens);
    && HasParent(g, d) && IsActive(tokens[d])
    && (HeightFalls(g, d); g[d].parent.value == p || Reaches(tokens, p, g[d].parent.value))
  }

  /** c is active, and d is c or reached from it. */
  ghost predicate ReachedFrom(tokens: map<string, Token>, c: string, d: string)
    requires Forested(tokens)
  {
    c in tokens && IsActive(tokens[c]) && (d == c || Reaches(tokens, c, d))
  }

  ghost predicate ReachedUnder(tokens: map<string, Token>, kids: seq<Token>, d: string)
    requires Forested(tokens)
  {
    exists k :: k in kids && ReachedFrom(tokens, k.id, d)
  }

  /** A snapshot that still agrees with the store. */
  ghost predicate Current(tokens: map<string, Token>, p: string, kids: seq<Token>) {
    && (forall k :: k in kids ==> k.id in tokens && tokens[k.id] == k && k.parentTokenId == Some(p))
    && (forall i, j :: 0 <= i < j < |kids| ==> kids[i].id != kids[j].id)
  }

  ghost function AllReached(tokens: map<string, Token>, kids: seq<Token>): set<string>
    requires Forested(tokens)
  {
    set d | d in tokens && ReachedUnder(tokens, kids, d)
  }

  ghost function ReachedBelow(tokens: map<string, Token>, c: string): set<string>
    requires Forested(tokens)
  {
    set d | d in tokens && Reaches(tokens, c, d)
  }

  /** Exactly one cascade entry for each of the given tokens, and no other. */
  ghost predicate Announces(
    es: seq<Recorded>, tokens: map<string, Token>, ids: set<string>, now: int, actor: Option<string>)
  {
    && (forall i :: 0 <= i < |es| ==>
          && es[i].event.tokenId.Some? && es[i].event.tokenId.value in ids && es[i].event.tokenId.value in tokens
          && es[i] == Recorded(RevokeEvent(tokens[es[i].event.tokenId.value], ParentRevoked, actor), now))
    && (forall i, j :: 0 <= i < j < |es| ==> es[i].event.tokenId != es[j].event.tokenId)
    && (forall id :: id in ids ==> exists i :: 0 <= i < |es| && es[i].event.tokenId == Some(id))
  }

  lemma AnnouncesJoin(
    a: seq<Recorded>, b: seq<Recorded>, tokens: map<string, Token>, x: set<string>, y: set<string>,
    now: int, actor: Option<string>)
    requires Announces(a, tokens, x, now, actor) && Announces(b, tokens, y, now, actor) && x !! y
    ensures Announces(a + b, tokens, x + y, now, actor)
  {
    var es := a + b;
    forall id | id in x + y
      ensures exists i :: 0 <= i < |es| && es[i].event.tokenId == Some(id)
    {
      if id in x {
        var i :| 0 <= i < |a| && a[i].event.tokenId == Some(id);
        assert es[i].event.tokenId == Some(id);
      } else {
        var i :| 0 <= i < |b| && b[i].event.tokenId == Some(id);
        assert es[|a| + i].event.tokenId == Some(id);
      }
    }
  }

  /** Entries speak of subjects, which revoking does not change. */
  lemma AnnouncesElsewhere(
    es: seq<Recorded>, a: map<string, Token>, b: map<string, Token>, ids: set<string>, now: int, actor: Option<string>)
    requires Announces(es, a, ids, now, actor)
    requires forall id :: id in ids ==> id in b && (id in a ==> b[id].subject == a[id].subject && b[id].id == a[id].id)
    ensures Announces(es, b, ids, now, actor)
  {
  }

  lemma GuardSettled(s: Sys, clock: int)
    requires Settled(s.breaker)
    ensures Guard(s, clock) == (s, true)
  {
    assert s.log + [] == s.log;
  }

  lemma ChildrenDistinct(tokens: JsMap<Token>, p: string)
    requires tokens.Valid() && Forested(tokens.at)
    ensures Current(tokens.at, p, Children(tokens, p))
  {
    ChildrenAreCurrent(tokens, p);
    forall i | 0 <= i < |tokens.order|
      ensures tokens.Values()[i].id == tokens.order[i]
    {
      assert tokens.order[i] in tokens.at;
    }
    DistinctAmong(tokens.Values(), p);
  }

  lemma {:induction false} DistinctAmong(ts: seq<Token>, p: string)
    requires forall i, j :: 0 <= i < j < |ts| ==> ts[i].id != ts[j].id
    ensures forall i, j :: 0 <= i < j < |ChildrenAmong(ts, p)| ==>
              ChildrenAmong(ts, p)[i].id != ChildrenAmong(ts, p)[j].id
  {
    if ts != [] {
      var n := |ts| - 1;
      DistinctAmong(ts[..n], p);
      ChildrenMembers(ts[..n], p);
      forall k | k in ChildrenAmong(ts[..n], p)
        ensures k.id != ts[n].id
      {
        var i :| 0 <= i < n && ts[..n][i] == k;
        assert ts[i].id != ts[n].id;
      }
    }
  }

  lemma {:induction false} ReachesBelow(tokens: map<string, Token>, p: string, d: string)
    requires Forested(tokens) && Reaches(tokens, p, d)
    ensures Below(GenealogyOf(tokens), p, d) && p in tokens && d in tokens && IsActive(tokens[d]) && d != p
    decreases Height(GenealogyOf(tokens), d)
  {
    var g := GenealogyOf(tokens);
    HeightFalls(g, d);
    if g[d].parent.value != p {
      ReachesBelow(tokens, p, g[d].parent.value);
    }
    BelowNarrows(g, p, d);
  }

  lemma ReachedFromBelow(tokens: map<string, Token>, c: string, d: string)
    requires Forested(tokens) && ReachedFrom(tokens, c, d)
    ensures AtOrBelow(GenealogyOf(tokens), c, d) && d in tokens && IsActive(tokens[d])
  {
    if d != c {
      ReachesBelow(tokens, c, d);
    }
  }

  /** What is reached from p depends only on who is active below p. */
  lemma {:induction false} ReachesSame(m: map<string, Token>, after: map<string, Token>, p: string, d: string)
    requires Forested(m) && Forested(after) && GenealogyOf(after) == GenealogyOf(m)
    requires forall x :: Below(GenealogyOf(m), p, x) && x in m ==>
               x in after && (IsActive(after[x]) <==> IsActive(m[x]))
    ensures Reaches(after, p, d) <==> Reaches(m, p, d)
    decreases Height(GenealogyOf(m), d)
  {
    var g := GenealogyOf(m);
    if HasParent(g, d) {
      HeightFalls(g, d);
      var q := g[d].parent.value;
      ReachesSame(m, after, p, q);
      if Reaches(m, p, q) {
        ReachesBelow(m, p, q);
      }
    }
  }

  lemma {:induction false} ReachesOn(tokens: map<string, Token>, p: string, c: string, d: string)
    requires Forested(tokens) && Reaches(tokens, p, c) && Reaches(tokens, c, d)
    ensures Reaches(tokens, p, d)
    decreases Height(GenealogyOf(tokens), d)
  {
    var g := GenealogyOf(tokens);
    HeightFalls(g, d);
    if g[d].parent.value != c {
      ReachesOn(tokens, p, c, g[d].parent.value);
    }
  }

  lemma {:induction false} ReachesThroughChild(tokens: map<string, Token>, p: string, d: string) returns (c: string)
    requires Forested(tokens) && Reaches(tokens, p, d)
    ensures c in tokens && tokens[c].parentTokenId == Some(p) && ReachedFrom(tokens, c, d)
    decreases Height(GenealogyOf(tokens), d)
  {
    var g := GenealogyOf(tokens);
    HeightFalls(g, d);
    var q := g[d].parent.value;
    if q == p {
      c := d;
    } else {
      c := ReachesThroughChild(tokens, p, q);
    }
  }

  /** A cascade from p comes to what its children lead to. */
  lemma {:induction false} UnderChildren(tokens: JsMap<Token>, p: string, d: string)
    requires tokens.Valid() && Forested(tokens.at) && p in tokens.at
    ensures ReachedUnder(tokens.at, Children(tokens, p), d) <==> Reaches(tokens.at, p, d)
  {
    ChildrenAreCurrent(tokens, p);
    if Reaches(tokens.at, p, d) {
      var c := ReachesThroughChild(tokens.at, p, d);
      assert tokens.at[c] in Children(tokens, p);
    }
    if ReachedUnder(tokens.at, Children(tokens, p), d) {
      var k :| k in Children(tokens, p) && ReachedFrom(tokens.at, k.id, d);
      assert Reaches(tokens.at, p, k.id);
      if d != k.id {
        ReachesOn(tokens.at, p, k.id, d);
      }
    }
  }

  /** The token a cascade leaves under the id d. */
  function AfterCascade(tokens: map<string, Token>, reached: bool, d: string, now: int): Token
    requires d in tokens
  {
    if reached then MarkRevoked(tokens[d], now, ParentRevoked) else tokens[d]
  }

  /** All of a cascade's effect, told without its order of visits. */
  ghost predicate CascadeEffect(
    s: Sys, r: (Sys, bool), kids: seq<Token>, now: int, actor: Option<string>)
    requires Forested(s.tokens.at)
  {
    && r.1
    && r.0 == s.(tokens := r.0.tokens, log := r.0.log)
    && r.0.tokens.order == s.tokens.order && r.0.tokens.at.Keys == s.tokens.at.Keys
    && (forall d :: d in s.tokens.at ==>
          r.0.tokens.at[d] == AfterCascade(s.tokens.at, ReachedUnder(s.tokens.at, kids, d), d, now))
    && s.log <= r.0.log
    && Announces(r.0.log[|s.log|..], s.tokens.at, AllReached(s.tokens.at, kids), now, actor)
  }

  /** The child is revoked already: nothing is reached through it, and the rest of
      the loop does everything. */
  lemma SkippedChild(s: Sys, r: (Sys, bool), p: string, kids: seq<Token>, now: int, actor: Option<string>)
    requires Forested(s.tokens.at) && kids != [] && Current(s.tokens.at, p, kids)
    requires !IsActive(kids[0]) && CascadeEffect(s, r, kids[1..], now, actor)
    ensures CascadeEffect(s, r, kids, now, actor)
  {
    assert kids[0] in kids;
    forall d
      ensures ReachedUnder(s.tokens.at, kids, d) <==> ReachedUnder(s.tokens.at, kids[1..], d)
    {
      UnderFirstOrRest(s.tokens.at, kids, d);
    }
    assert AllReached(s.tokens.at, kids) == AllReached(s.tokens.at, kids[1..]);
  }

  /** The state right after an active child itself has been revoked. */
  function ChildRevoked(s: Sys, child: Token, now: int, actor: Option<string>): Sys {
    Note(SaveToken(s, MarkRevoked(child, now, ParentRevoked)), RevokeEvent(child, ParentRevoked, actor), now)
  }

  lemma {:induction false} RevokeChildUnfolds(
    s: Sys, p: string, child: Token, now: int, actor: Option<string>, clock: int)
    requires Stores(s) && Forested(s.tokens.at) && p in s.tokens.at && SnapshotOf(GenealogyOf(s.tokens.at), p, [child])
    requires Settled(s.breaker) && IsActive(child)
    ensures var s2 := ChildRevoked(s, child, now, actor);
            && Stores(s2) && Forested(s2.tokens.at) && GenealogyOf(s2.tokens.at) == GenealogyOf(s.tokens.at)
            && s2.tokens.at == s.tokens.at[child.id := MarkRevoked(child, now, ParentRevoked)]
            && ScopeSet(s2.tokens.at[child.id].scope) < ScopeSet(s.tokens.at[p].scope)
            && Settled(s2.breaker)
            && RevokeChild(s, p, child, now, actor, clock) == CascadeRevoke(s2, child.id, now, actor, clock)
  {
    GuardSettled(s, clock);
    ChildSaved(s, p, child, MarkRevoked(child, now, ParentRevoked));
  }

  lemma {:induction false} CascadeOverSkips(
    s: Sys, p: string, kids: seq<Token>, now: int, actor: Option<string>, clock: int)
    requires Stores(s) && Forested(s.tokens.at) && p in s.tokens.at && SnapshotOf(GenealogyOf(s.tokens.at), p, kids)
    requires kids != [] && !IsActive(kids[0])
    ensures CascadeOver(s, p, kids, now, actor, clock) == CascadeOver(s, p, kids[1..], now, actor, clock)
  {
    SnapshotSplits(GenealogyOf(s.tokens.at), p, kids);
  }

  lemma {:induction false} CascadeOverGoesOn(
    s: Sys, p: string, kids: seq<Token>, now: int, actor: Option<string>, clock: int)
    requires Stores(s) && Forested(s.tokens.at) && p in s.tokens.at && SnapshotOf(GenealogyOf(s.tokens.at), p, kids)
    requires kids != [] && SnapshotOf(GenealogyOf(s.tokens.at), p, [kids[0]])
    requires RevokeChild(s, p, kids[0], now, actor, clock).1
    ensures CascadeOver(s, p, kids, now, actor, clock)
            == CascadeOver(RevokeChild(s, p, kids[0], now, actor, clock).0, p, kids[1..], now, actor, clock)
  {
  }

  // ---- The loop over the snapshot, turn by turn -----------------------------------

  /** What is left of the loop leads to `whole`. */
  ghost predicate Leaves(
    s: Sys, p: string, kids: seq<Token>, now: int, actor: Option<string>, clock: int, whole: (Sys, bool))
  {
    && Stores(s) && Forested(s.tokens.at) && p in s.tokens.at && SnapshotOf(GenealogyOf(s.tokens.at), p, kids)
    && CascadeOver(s, p, kids, now, actor, clock) == whole
  }

  lemma {:induction false} CascadeStarts(s: Sys, p: string, now: int, actor: Option<string>, clock: int)
    requires Stores(s) && Forested(s.tokens.at) && p in s.tokens.at
    ensures var kids := Children(s.tokens, p);
            && kids[0..] == kids
            && Leaves(s, p, kids, now, actor, clock, CascadeRevoke(s, p, now, actor, clock))
  {
    ChildrenAreCurrent(s.tokens, p);
  }

  lemma {:induction false} CascadeTurns(
    s: Sys, p: string, kids: seq<Token>, i: nat, now: int, actor: Option<string>, clock: int, whole: (Sys, bool))
    requires i < |kids| && Leaves(s, p, kids[i..], now, actor, clock, whole)
    ensures Stores(s) && Forested(s.tokens.at) && p in s.tokens.at
    ensures SnapshotOf(GenealogyOf(s.tokens.at), p, [kids[i]])
    ensures var (s1, done) := RevokeChild(s, p, kids[i], now, actor, clock);
            && p in s1.tokens.at && ScopeSet(s1.tokens.at[p].scope) == ScopeSet(s.tokens.at[p].scope)
            && if done then Leaves(s1, p, kids[i + 1..], now, actor, clock, whole) else whole == (s1, false)
  {
    assert kids[i..][0] == kids[i] && kids[i..][1..] == kids[i + 1..];
    SnapshotSplits(GenealogyOf(s.tokens.at), p, kids[i..]);
    var s1 := RevokeChild(s, p, kids[i], now, actor, clock).0;
    SnapshotStays(s.tokens.at, s1.tokens.at, p, kids[i + 1..]);
  }

  lemma CascadeEnds(
    s: Sys, p: string, kids: seq<Token>, now: int, actor: Option<string>, clock: int, whole: (Sys, bool))
    requires Leaves(s, p, kids[|kids|..], now, actor, clock, whole)
    ensures whole == (s, true)
  {
    assert kids[|kids|..] == [];
  }

  lemma {:induction false} CascadeOverEffect(
    s: Sys, p: string, kids: seq<Token>, now: int, actor: Option<string>, clock: int)
    requires Stores(s) && Forested(s.tokens.at) && p in s.tokens.at && Settled(s.breaker)
    requires SnapshotOf(GenealogyOf(s.tokens.at), p, kids) && Current(s.tokens.at, p, kids)
    ensures CascadeEffect(s, CascadeOver(s, p, kids, now, actor, clock), kids, now, actor)
    decreases ScopeSet(s.tokens.at[p].scope), |kids|
  {
    if kids == [] {
      assert AllReached(s.tokens.at, kids) == {};
    } else {
      if IsActive(kids[0]) {
        ActiveChildEffect(s, p, kids, now, actor, clock);
      } else {
        InactiveChildEffect(s, p, kids, now, actor, clock);
      }
    }
  }

  lemma {:induction false} InactiveChildEffect(
    s: Sys, p: string, kids: seq<Token>, now: int, actor: Option<string>, clock: int)
    requires Stores(s) && Forested(s.tokens.at) && p in s.tokens.at && Settled(s.breaker)
    requires SnapshotOf(GenealogyOf(s.tokens.at), p, kids) && Current(s.tokens.at, p, kids)
    requires kids != [] && !IsActive(kids[0])
    ensures CascadeEffect(s, CascadeOver(s, p, kids, now, actor, clock), kids, now, actor)
    decreases ScopeSet(s.tokens.at[p].scope), |kids|, 0
  {
    SnapshotSplits(GenealogyOf(s.tokens.at), p, kids);
    assert kids[0] in kids;
    CascadeOverEffect(s, p, kids[1..], now, actor, clock);
    var r := CascadeOver(s, p, kids[1..], now, actor, clock);
    SkippedChild(s, r, p, kids, now, actor);
    CascadeOverSkips(s, p, kids, now, actor, clock);
  }

  /** What the rest of the loop needs after the recursion into the first child. */
  lemma RestIsReady(s: Sys, s2: Sys, s3: Sys, p: string, kids: seq<Token>, now: int, actor: Option<string>)
    requires Forested(s.tokens.at) && p in s.tokens.at && kids != []
    requires SnapshotOf(GenealogyOf(s.tokens.at), p, kids) && Current(s.tokens.at, p, kids) && IsActive(kids[0])
    requires s2 == ChildRevoked(s, kids[0], now, actor)
    requires Stores(s2) && Forested(s2.tokens.at) && Forested(s3.tokens.at)
    requires GenealogyOf(s2.tokens.at) == GenealogyOf(s.tokens.at) == GenealogyOf(s3.tokens.at)
    requires CascadeEffect(s2, (s3, true), Children(s2.tokens, kids[0].id), now, actor)
    ensures p in s3.tokens.at && ScopeSet(s3.tokens.at[p].scope) == ScopeSet(s.tokens.at[p].scope)
    ensures s3.breaker == s.breaker && SnapshotOf(GenealogyOf(s3.tokens.at), p, kids[1..])
    ensures Current(s3.tokens.at, p, kids[1..])
  {
    assert kids[0] in kids;
    SnapshotSplits(GenealogyOf(s.tokens.at), p, kids);
    FirstSubtree(s.tokens.at, s2, s3, kids[0], now, actor);
    SiblingsUntouched(s.tokens.at, s3.tokens.at, p, kids, now);
    assert GenealogyOf(s3.tokens.at)[p] == GenealogyOf(s.tokens.at)[p];
  }

  lemma {:induction false} ActiveChildEffect(
    s: Sys, p: string, kids: seq<Token>, now: int, actor: Option<string>, clock: int)
    requires Stores(s) && Forested(s.tokens.at) && p in s.tokens.at && Settled(s.breaker)
    requires SnapshotOf(GenealogyOf(s.tokens.at), p, kids) && Current(s.tokens.at, p, kids)
    requires kids != [] && IsActive(kids[0])
    ensures CascadeEffect(s, CascadeOver(s, p, kids, now, actor, clock), kids, now, actor)
    decreases ScopeSet(s.tokens.at[p].scope), |kids|, 0
  {
    var c := kids[0];
    assert c in kids;
    SnapshotSplits(GenealogyOf(s.tokens.at), p, kids);
    RevokeChildUnfolds(s, p, c, now, actor, clock);
    var s2 := ChildRevoked(s, c, now, actor);
    CascadeRevokeEffect(s2, c.id, now, actor, clock);
    var s3 := CascadeRevoke(s2, c.id, now, actor, clock).0;
    RestIsReady(s, s2, s3, p, kids, now, actor);
    CascadeOverGoesOn(s, p, kids, now, actor, clock);
    CascadeOverEffect(s3, p, kids[1..], now, actor, clock);
    CascadeJoins(s, s2, s3, CascadeOver(s3, p, kids[1..], now, actor, clock), p, kids, now, actor);
  }

  lemma {:induction false} CascadeRevokeEffect(s: Sys, p: string, now: int, actor: Option<string>, clock: int)
    requires Stores(s) && Forested(s.tokens.at) && p in s.tokens.at && Settled(s.breaker)
    ensures CascadeEffect(s, CascadeRevoke(s, p, now, actor, clock), Children(s.tokens, p), now, actor)
    decreases ScopeSet(s.tokens.at[p].scope)
  {
    ChildrenAreCurrent(s.tokens, p);
    ChildrenDistinct(s.tokens, p);
    CascadeOverEffect(s, p, Children(s.tokens, p), now, actor, clock);
  }

  /** c and what is reached from it, revoked; nothing else. */
  ghost predicate RevokedFrom(before: map<string, Token>, after: map<string, Token>, c: string, now: int)
    requires Forested(before)
  {
    && after.Keys == before.Keys
    && (forall d :: d in before ==> after[d] == AfterCascade(before, ReachedFrom(before, c, d), d, now))
  }

  lemma FirstSubtree(m: map<string, Token>, s2: Sys, s3: Sys, child: Token, now: int, actor: Option<string>)
    requires Stores(s2) && Forested(m) && Forested(s2.tokens.at)
    requires child.id in m && m[child.id] == child && IsActive(child)
    requires s2.tokens.at == m[child.id := MarkRevoked(child, now, ParentRevoked)]
    requires GenealogyOf(s2.tokens.at) == GenealogyOf(m)
    requires CascadeEffect(s2, (s3, true), Children(s2.tokens, child.id), now, actor)
    ensures RevokedFrom(m, s3.tokens.at, child.id, now)
    ensures AllReached(s2.tokens.at, Children(s2.tokens, child.id)) == ReachedBelow(m, child.id)
  {
    SubtreeAt(m, s2.tokens, child, now);
  }

  lemma SubtreeAt(m: map<string, Token>, mid: JsMap<Token>, child: Token, now: int)
    requires mid.Valid() && Forested(m) && Forested(mid.at)
    requires child.id in m && m[child.id] == child && IsActive(child)
    requires mid.at == m[child.id := MarkRevoked(child, now, ParentRevoked)]
    requires GenealogyOf(mid.at) == GenealogyOf(m)
    ensures forall d :: d in m ==>
              AfterCascade(mid.at, ReachedUnder(mid.at, Children(mid, child.id), d), d, now)
              == AfterCascade(m, ReachedFrom(m, child.id, d), d, now)
    ensures AllReached(mid.at, Children(mid, child.id)) == ReachedBelow(m, child.id)
  {
    TopThenChildren(m, mid, child.id);
  }

  /** Once c's own record is changed, its children lead to what was reached from it. */
  lemma {:induction false} TopThenChildren(m: map<string, Token>, mid: JsMap<Token>, c: string)
    requires mid.Valid() && Forested(m) && Forested(mid.at) && GenealogyOf(mid.at) == GenealogyOf(m) && c in m
    requires forall x :: x in m && x != c ==> x in mid.at && mid.at[x] == m[x]
    ensures forall d :: ReachedUnder(mid.at, Children(mid, c), d) <==> Reaches(m, c, d)
    ensures !Reaches(m, c, c)
  {
    RevokingTopSame(m, mid.at, c);
    assert c in GenealogyOf(mid.at);
    forall d
      ensures ReachedUnder(mid.at, Children(mid, c), d) <==> Reaches(m, c, d)
    {
      UnderChildren(mid, c, d);
    }
    NotReachedFromItself(m, c);
  }

  lemma {:induction false} NotReachedFromItself(tokens: map<string, Token>, c: string)
    requires Forested(tokens)
    ensures !Reaches(tokens, c, c)
  {
    if Reaches(tokens, c, c) {
      ReachesBelow(tokens, c, c);
    }
  }

  /** What is reached from c does not depend on c's own record. */
  lemma {:induction false} RevokingTopSame(m: map<string, Token>, after: map<string, Token>, c: string)
    requires Forested(m) && Forested(after) && GenealogyOf(after) == GenealogyOf(m) && c in m
    requires forall x :: x in m && x != c ==> x in after && after[x] == m[x]
    ensures forall d :: Reaches(after, c, d) <==> Reaches(m, c, d)
  {
    NotBelowItself(GenealogyOf(m), c);
    forall d
      ensures Reaches(after, c, d) <==> Reaches(m, c, d)
    {
      ReachesSame(m, after, c, d);
    }
  }

  /** The recursion into the first child does nothing at or below the others. */
  lemma OutsideSubtree(
    m: map<string, Token>, after: map<string, Token>, p: string, kids: seq<Token>, k: Token, d: string, now: int)
    requires Forested(m) && p in m && kids != [] && Current(m, p, kids)
    requires RevokedFrom(m, after, kids[0].id, now)
    requires k in kids[1..] && AtOrBelow(GenealogyOf(m), k.id, d)
    ensures d in m && after[d] == m[d] && d != kids[0].id && !ReachedFrom(m, kids[0].id, d)
  {
    var g := GenealogyOf(m);
    var i :| 1 <= i < |kids| && kids[i] == k;
    assert kids[0] in kids && k in kids;
    assert HasParent(g, kids[0].id) && HasParent(g, k.id);
    SiblingsDisjoint(g, p, kids[0].id, k.id, d);
    if ReachedFrom(m, kids[0].id, d) {
      ReachedFromBelow(m, kids[0].id, d);
    }
    if d != k.id {
      BelowNarrows(g, k.id, d);
    }
  }

  /** The recursion into the first child leaves the snapshot of the others current,
      and what is reached from them. */
  lemma SiblingsUntouched(m: map<string, Token>, after: map<string, Token>, p: string, kids: seq<Token>, now: int)
    requires Forested(m) && Forested(after) && GenealogyOf(after) == GenealogyOf(m)
    requires p in m && kids != [] && Current(m, p, kids)
    requires RevokedFrom(m, after, kids[0].id, now)
    ensures Current(after, p, kids[1..])
    ensures forall d :: ReachedUnder(after, kids[1..], d) <==> ReachedUnder(m, kids[1..], d)
  {
    var g := GenealogyOf(m);
    forall k | k in kids[1..]
      ensures k.id in after && after[k.id] == k && k.parentTokenId == Some(p)
      ensures forall d :: ReachedFrom(after, k.id, d) <==> ReachedFrom(m, k.id, d)
    {
      assert k in kids;
      OutsideSubtree(m, after, p, kids, k, k.id, now);
      SiblingReach(m, after, p, kids, k, now);
    }
  }

  lemma {:induction false} SiblingReach(
    m: map<string, Token>, after: map<string, Token>, p: string, kids: seq<Token>, k: Token, now: int)
    requires Forested(m) && Forested(after) && GenealogyOf(after) == GenealogyOf(m)
    requires p in m && kids != [] && Current(m, p, kids) && k in kids[1..]
    requires RevokedFrom(m, after, kids[0].id, now)
    ensures forall d :: Reaches(after, k.id, d) <==> Reaches(m, k.id, d)
  {
    forall x | Below(GenealogyOf(m), k.id, x)
      ensures x in after && after[x] == m[x]
    {
      OutsideSubtree(m, after, p, kids, k, x, now);
    }
    forall d
      ensures Reaches(after, k.id, d) <==> Reaches(m, k.id, d)
    {
      ReachesSame(m, after, k.id, d);
    }
  }

  lemma UnderFirstOrRest(tokens: map<string, Token>, kids: seq<Token>, d: string)
    requires Forested(tokens) && kids != []
    ensures ReachedUnder(tokens, kids, d) <==> ReachedFrom(tokens, kids[0].id, d) || ReachedUnder(tokens, kids[1..], d)
  {
    assert kids[0] in kids;
    if ReachedUnder(tokens, kids, d) {
      var k :| k in kids && ReachedFrom(tokens, k.id, d);
      assert k != kids[0] ==> k in kids[1..];
    }
  }

  /** One token's fate: it is reached through the first child, through a later one,
      or not at all. */
  lemma JoinAt(m: map<string, Token>, middle: map<string, Token>, p: string, kids: seq<Token>, now: int, d: string)
    requires Forested(m) && Forested(middle) && GenealogyOf(middle) == GenealogyOf(m)
    requires p in m && kids != [] && Current(m, p, kids)
    requires RevokedFrom(m, middle, kids[0].id, now) && d in m
    ensures var c, later := kids[0].id, ReachedUnder(middle, kids[1..], d);
            && AfterCascade(middle, later, d, now) == AfterCascade(m, ReachedUnder(m, kids, d), d, now)
            && (ReachedUnder(m, kids, d) <==> ReachedFrom(m, c, d) || later)
            && (later ==> !ReachedFrom(m, c, d) && d != c && middle[d] == m[d])
  {
    SiblingsUntouched(m, middle, p, kids, now);
    UnderFirstOrRest(m, kids, d);
    if ReachedUnder(m, kids[1..], d) {
      var k :| k in kids[1..] && ReachedFrom(m, k.id, d);
      ReachedFromBelow(m, k.id, d);
      OutsideSubtree(m, middle, p, kids, k, d, now);
    }
  }

  /** The first child, what is reached from it, and what is reached through the
      others together make the whole. */
  lemma SubtreesJoin(m: map<string, Token>, middle: map<string, Token>, p: string, kids: seq<Token>, now: int)
    requires Forested(m) && Forested(middle) && GenealogyOf(middle) == GenealogyOf(m)
    requires p in m && kids != [] && Current(m, p, kids) && IsActive(kids[0])
    requires RevokedFrom(m, middle, kids[0].id, now)
    ensures var c, own, others := kids[0].id, ReachedBelow(m, kids[0].id), AllReached(middle, kids[1..]);
            && AllReached(m, kids) == {c} + own + others
            && c !in own && ({c} + own) !! others
            && forall d :: d in others ==> middle[d] == m[d]
  {
    forall d
      ensures d in AllReached(m, kids)
              <==> d == kids[0].id || d in ReachedBelow(m, kids[0].id) || d in AllReached(middle, kids[1..])
      ensures d in ReachedBelow(m, kids[0].id) ==> d != kids[0].id && d !in AllReached(middle, kids[1..])
      ensures d in AllReached(middle, kids[1..]) ==> d != kids[0].id && middle[d] == m[d]
    {
      SetsJoin(m, middle, p, kids, now, d);
    }
    Partition(AllReached(m, kids), kids[0].id, ReachedBelow(m, kids[0].id), AllReached(middle, kids[1..]));
  }

  lemma Partition(all: set<string>, c: string, own: set<string>, others: set<string>)
    requires forall d :: d in all <==> d == c || d in own || d in others
    requires forall d :: d in own ==> d != c && d !in others
    requires c !in others
    ensures all == {c} + own + others && c !in own && ({c} + own) !! others
  {
  }

  lemma SetsJoin(m: map<string, Token>, middle: map<string, Token>, p: string, kids: seq<Token>, now: int, d: string)
    requires Forested(m) && Forested(middle) && GenealogyOf(middle) == GenealogyOf(m)
    requires p in m && kids != [] && Current(m, p, kids) && IsActive(kids[0])
    requires RevokedFrom(m, middle, kids[0].id, now)
    ensures var c, own, others := kids[0].id, ReachedBelow(m, kids[0].id), AllReached(middle, kids[1..]);
            && (d in AllReached(m, kids) <==> d == c || d in own || d in others)
            && (d in own ==> d != c && d !in others)
            && (d in others ==> d != c && middle[d] == m[d])
  {
    assert kids[0] in kids;
    if d in m {
      JoinAt(m, middle, p, kids, now, d);
      if Reaches(m, kids[0].id, d) {
        ReachesBelow(m, kids[0].id, d);
      }
    }
  }

  lemma TokensJoin(
    m: map<string, Token>, middle: map<string, Token>, end: map<string, Token>, p: string, kids: seq<Token>, now: int)
    requires Forested(m) && Forested(middle) && GenealogyOf(middle) == GenealogyOf(m)
    requires p in m && kids != [] && Current(m, p, kids)
    requires RevokedFrom(m, middle, kids[0].id, now)
    requires forall d :: d in middle ==>
               d in end && end[d] == AfterCascade(middle, ReachedUnder(middle, kids[1..], d), d, now)
    ensures forall d :: d in m ==> d in end && end[d] == AfterCascade(m, ReachedUnder(m, kids, d), d, now)
  {
    forall d | d in m
      ensures d in end && end[d] == AfterCascade(m, ReachedUnder(m, kids, d), d, now)
    {
      JoinAt(m, middle, p, kids, now, d);
    }
  }

  lemma EntriesJoin(
    log: seq<Recorded>, log2: seq<Recorded>, log3: seq<Recorded>, end: seq<Recorded>, child: Token,
    m: map<string, Token>, own: set<string>, others: set<string>, now: int, actor: Option<string>)
    requires log2 == log + [Recorded(RevokeEvent(child, ParentRevoked, actor), now)] && log2 <= log3 <= end
    requires child.id in m && m[child.id] == child
    requires child.id !in own && ({child.id} + own) !! others
    requires Announces(log3[|log2|..], m, own, now, actor) && Announces(end[|log3|..], m, others, now, actor)
    ensures log <= end && Announces(end[|log|..], m, {child.id} + own + others, now, actor)
  {
    var first := [Recorded(RevokeEvent(child, ParentRevoked, actor), now)];
    FirstAnnounced(m, child, now, actor);
    AnnouncesJoin(first, log3[|log2|..], m, {child.id}, own, now, actor);
    AnnouncesJoin(first + log3[|log2|..], end[|log3|..], m, {child.id} + own, others, now, actor);
    SuffixesJoin(log, first, log2, log3, end);
  }

  lemma FirstAnnounced(m: map<string, Token>, child: Token, now: int, actor: Option<string>)
    requires child.id in m && m[child.id] == child
    ensures Announces([Recorded(RevokeEvent(child, ParentRevoked, actor), now)], m, {child.id}, now, actor)
  {
    var first := [Recorded(RevokeEvent(child, ParentRevoked, actor), now)];
    assert first[0].event.tokenId == Some(child.id);
  }

  lemma SuffixesJoin(
    log: seq<Recorded>, first: seq<Recorded>, log2: seq<Recorded>, log3: seq<Recorded>, end: seq<Recorded>)
    requires log2 == log + first && log2 <= log3 <= end
    ensures log <= end && end[|log|..] == first + log3[|log2|..] + end[|log3|..]
  {
    assert end[..|log2|] == log2;
  }

  lemma CascadeJoins(
    s: Sys, s2: Sys, s3: Sys, r: (Sys, bool), p: string, kids: seq<Token>, now: int, actor: Option<string>)
    requires Stores(s2) && Forested(s.tokens.at) && Forested(s2.tokens.at) && Forested(s3.tokens.at)
    requires p in s.tokens.at && kids != [] && Current(s.tokens.at, p, kids) && IsActive(kids[0])
    requires s2 == Note(SaveToken(s, MarkRevoked(kids[0], now, ParentRevoked)),
                        RevokeEvent(kids[0], ParentRevoked, actor), now)
    requires GenealogyOf(s2.tokens.at) == GenealogyOf(s.tokens.at) == GenealogyOf(s3.tokens.at)
    requires CascadeEffect(s2, (s3, true), Children(s2.tokens, kids[0].id), now, actor)
    requires CascadeEffect(s3, r, kids[1..], now, actor)
    ensures CascadeEffect(s, r, kids, now, actor)
  {
    var m, c := s.tokens.at, kids[0].id;
    assert kids[0] in kids;
    FirstSubtree(m, s2, s3, kids[0], now, actor);
    SubtreesJoin(m, s3.tokens.at, p, kids, now);
    TokensJoin(m, s3.tokens.at, r.0.tokens.at, p, kids, now);
    var own, others := ReachedBelow(m, c), AllReached(s3.tokens.at, kids[1..]);
    AnnouncesElsewhere(s3.log[|s2.log|..], s2.tokens.at, m, own, now, actor);
    AnnouncesElsewhere(r.0.log[|s3.log|..], s3.tokens.at, m, others, now, actor);
    EntriesJoin(s.log, s2.log, s3.log, r.0.log, kids[0], m, own, others, now, actor);
  }

  // ---- revokeToken ---------------------------------------------------------------

  /** What stands under id d once `target` has been revoked. */
  ghost function AfterRevocation(
    tokens: map<string, Token>, target: string, d: string, reason: RevocationReason, now: int): Token
    requires Forested(tokens) && d in tokens
  {
    if d == target then MarkRevoked(tokens[d], now, reason)
    else AfterCascade(tokens, Reaches(tokens, target, d), d, now)
  }

  /** The target is revoked, and whatever is reached from it through active tokens;
      every other token is as it was, with earlier reasons and times kept; the log
      gains one entry for the target and one for each token reached. */
  ghost predicate RevocationEffect(
    s: Sys, after: Sys, target: string, reason: RevocationReason, now: int, actor: Option<string>)
    requires Forested(s.tokens.at)
  {
    && target in s.tokens.at
    && after == s.(tokens := after.tokens, log := after.log)
    && after.tokens.order == s.tokens.order && after.tokens.at.Keys == s.tokens.at.Keys
    && GenealogyOf(after.tokens.at) == GenealogyOf(s.tokens.at)
    && (forall d :: d in s.tokens.at ==>
          after.tokens.at[d] == AfterRevocation(s.tokens.at, target, d, reason, now))
    && s.log + [Recorded(RevokeEvent(s.tokens.at[target], reason, actor), now)] <= after.log
    && Announces(after.log[|s.log| + 1..], s.tokens.at, ReachedBelow(s.tokens.at, target), now, actor)
  }

  /** In any forest revokeToken succeeds exactly when the store answers and knows
      the token, and then it has exactly the effect above. */
  lemma RevokeTokenEffect(
    s: Sys, target: string, reason: RevocationReason, now: int, actor: Option<string>, clock: int)
    requires Stores(s) && Forested(s.tokens.at)
    ensures var (s', r) := RevokeToken(s, target, reason, now, actor, clock);
            var (s1, read) := Guard(s, clock);
            && s1.tokens == s.tokens
            && (r.Ok? <==> read && target in s.tokens.at)
            && (r.Err? ==> s' == s1)
            && (r.Ok? ==> RevocationEffect(s1, s', target, reason, now, actor))
  {
    var (s1, read) := Guard(s, clock);
    if read && target in s.tokens.at {
      SuccessSettles(s.breaker, false, clock, clock);
      GuardSettled(s1, clock);
      var revoked := MarkRevoked(s1.tokens.at[target], now, reason);
      var s3 := Note(SaveToken(s1, revoked), RevokeEvent(s1.tokens.at[target], reason, actor), now);
      TargetSaved(s1, target, revoked);
      TargetThenCascade(s1, s3, target, reason, now, actor, clock);
    }
  }

  lemma {:induction false} TargetThenCascade(
    s: Sys, s3: Sys, target: string, reason: RevocationReason, now: int, actor: Option<string>, clock: int)
    requires Stores(s) && Forested(s.tokens.at) && target in s.tokens.at && Settled(s.breaker)
    requires s3 == Note(SaveToken(s, MarkRevoked(s.tokens.at[target], now, reason)),
                        RevokeEvent(s.tokens.at[target], reason, actor), now)
    requires Stores(s3) && GenealogyOf(s3.tokens.at) == GenealogyOf(s.tokens.at) && Forested(s3.tokens.at)
    ensures var (s4, done) := CascadeRevoke(s3, target, now, actor, clock);
            done && RevocationEffect(s, s4, target, reason, now, actor)
  {
    CascadeRevokeEffect(s3, target, now, actor, clock);
    var s4 := CascadeRevoke(s3, target, now, actor, clock).0;
    RevocationFollows(s, s3, s4, target, reason, now, actor);
  }

  lemma RevocationFollows(
    s: Sys, s3: Sys, s4: Sys, target: string, reason: RevocationReason, now: int, actor: Option<string>)
    requires Stores(s3) && Forested(s.tokens.at) && Forested(s3.tokens.at) && target in s.tokens.at
    requires s3 == Note(SaveToken(s, MarkRevoked(s.tokens.at[target], now, reason)),
                        RevokeEvent(s.tokens.at[target], reason, actor), now)
    requires GenealogyOf(s3.tokens.at) == GenealogyOf(s.tokens.at) == GenealogyOf(s4.tokens.at)
    requires CascadeEffect(s3, (s4, true), Children(s3.tokens, target), now, actor)
    ensures RevocationEffect(s, s4, target, reason, now, actor)
  {
    RevocationAt(s.tokens.at, s3.tokens, s4.tokens.at, target, reason, now);
    TargetThenRest(s.tokens.at, s3.tokens.at, s.log, s3.log, s4.log, target, reason, now, actor);
  }

  lemma TargetThenRest(
    m: map<string, Token>, mid: map<string, Token>, log: seq<Recorded>, log3: seq<Recorded>, end: seq<Recorded>,
    target: string, reason: RevocationReason, now: int, actor: Option<string>)
    requires Forested(m) && target in m && mid == m[target := MarkRevoked(m[target], now, reason)]
    requires log3 == log + [Recorded(RevokeEvent(m[target], reason, actor), now)] && log3 <= end
    requires Announces(end[|log3|..], mid, ReachedBelow(m, target), now, actor)
    ensures log3 <= end && Announces(end[|log| + 1..], m, ReachedBelow(m, target), now, actor)
  {
    AnnouncesElsewhere(end[|log3|..], mid, m, ReachedBelow(m, target), now, actor);
  }

  lemma RevocationAt(
    m: map<string, Token>, mid: JsMap<Token>, end: map<string, Token>, target: string, reason: RevocationReason,
    now: int)
    requires mid.Valid() && Forested(m) && Forested(mid.at) && target in m
    requires mid.at == m[target := MarkRevoked(m[target], now, reason)]
    requires GenealogyOf(mid.at) == GenealogyOf(m) && end.Keys == m.Keys
    requires forall d :: d in m ==>
               end[d] == AfterCascade(mid.at, ReachedUnder(mid.at, Children(mid, target), d), d, now)
    ensures forall d :: d in m ==> end[d] == AfterRevocation(m, target, d, reason, now)
    ensures AllReached(mid.at, Children(mid, target)) == ReachedBelow(m, target)
  {
    TopThenChildren(m, mid, target);
  }

  lemma {:induction false} NotBelowItself(g: Genealogy, p: string)
    requires Narrow(g)
    ensures !Below(g, p, p)
  {
    if Below(g, p, p) {
      BelowNarrows(g, p, p);
    }
  }

  // ---- How far a revocation goes ---------------------------------------------------

  /** No active token below the target hangs from a revoked one, the target apart. */
  ghost predicate Sealed(tokens: map<string, Token>, target: string)
    requires Forested(tokens)
  {
    forall d :: Below(GenealogyOf(tokens), target, d) && tokens[d].parentTokenId.value != target
                && !IsActive(tokens[tokens[d].parentTokenId.value])
      ==> !IsActive(tokens[d])
  }

  /** The token and all that descends from it are revoked. */
  ghost predicate RevokedThroughout(tokens: map<string, Token>, target: string)
    requires Forested(tokens)
  {
    forall d :: d in tokens && AtOrBelow(GenealogyOf(tokens), target, d) ==> !IsActive(tokens[d])
  }

  lemma {:induction false} SealedReaches(tokens: map<string, Token>, target: string, d: string)
    requires Forested(tokens) && Sealed(tokens, target)
    requires Below(GenealogyOf(tokens), target, d) && IsActive(tokens[d])
    ensures Reaches(tokens, target, d)
    decreases Height(GenealogyOf(tokens), d)
  {
    var g := GenealogyOf(tokens);
    HeightFalls(g, d);
    var q := g[d].parent.value;
    if q != target {
      SealedReaches(tokens, target, q);
    }
  }

  /** An active token under a revoked one, other than the target, is out of reach. */
  lemma {:induction false} OutOfReach(tokens: map<string, Token>, target: string, d: string)
    requires Forested(tokens) && HasParent(GenealogyOf(tokens), d)
    requires tokens[d].parentTokenId != Some(target) && !IsActive(tokens[tokens[d].parentTokenId.value])
    ensures !Reaches(tokens, target, d)
  {
    if Reaches(tokens, target, d) {
      ReachesBelow(tokens, target, tokens[d].parentTokenId.value);
    }
  }

  /** A revocation reaches the whole subtree exactly when the subtree was sealed. */
  lemma RevocationReachesAll(
    s: Sys, after: Sys, target: string, reason: RevocationReason, now: int, actor: Option<string>)
    requires Forested(s.tokens.at) && Forested(after.tokens.at)
    requires RevocationEffect(s, after, target, reason, now, actor)
    ensures RevokedThroughout(after.tokens.at, target) <==> Sealed(s.tokens.at, target)
  {
    var m, g := s.tokens.at, GenealogyOf(s.tokens.at);
    if Sealed(m, target) {
      forall d | d in m && AtOrBelow(g, target, d)
        ensures !IsActive(after.tokens.at[d])
      {
        if d != target && IsActive(m[d]) {
          SealedReaches(m, target, d);
        }
      }
    } else {
      var d :| Below(g, target, d) && m[d].parentTokenId.value != target
               && !IsActive(m[m[d].parentTokenId.value]) && IsActive(m[d]);
      BelowNarrows(g, target, d);
      OutOfReach(m, target, d);
      assert d in after.tokens.at && AtOrBelow(g, target, d) && IsActive(after.tokens.at[d]);
    }
  }

  /** Whatever is revoked, an active token under a parent revoked before, itself
      neither the target nor a child of it, stays exactly as it was. */
  lemma OrphanSurvives(
    s: Sys, target: string, reason: RevocationReason, now: int, actor: Option<string>, clock: int, d: string)
    requires Stores(s) && Forested(s.tokens.at) && HasParent(GenealogyOf(s.tokens.at), d) && d != target
    requires s.tokens.at[d].parentTokenId != Some(target)
    requires !IsActive(s.tokens.at[s.tokens.at[d].parentTokenId.value])
    ensures var s' := RevokeToken(s, target, reason, now, actor, clock).0;
            d in s'.tokens.at && s'.tokens.at[d] == s.tokens.at[d]
  {
    RevokeTokenEffect(s, target, reason, now, actor, clock);
    OutOfReach(s.tokens.at, target, d);
  }

  /** No revoked token has an active descendant: enough to ask it of each link. */
  ghost predicate Closed(tokens: map<string, Token>) {
    forall d :: HasParent(GenealogyOf(tokens), d) && !IsActive(tokens[tokens[d].parentTokenId.value])
      ==> !IsActive(tokens[d])
  }

  ghost function ActiveBelow(m: map<string, Token>, c: string): set<string>
    requires Forested(m)
  {
    set d | d in m && IsActive(m[d]) && Below(GenealogyOf(m), c, d)
  }

  lemma ClosedIsSealed(tokens: map<string, Token>, target: string)
    requires Forested(tokens) && Closed(tokens)
    ensures Sealed(tokens, target)
    ensures ReachedBelow(tokens, target) == ActiveBelow(tokens, target)
  {
    var g := GenealogyOf(tokens);
    forall d | Below(g, target, d)
      ensures HasParent(g, d) && (Reaches(tokens, target, d) <==> IsActive(tokens[d]))
    {
      ClosedReaches(tokens, target, d);
    }
    forall d | Reaches(tokens, target, d)
      ensures Below(g, target, d) && IsActive(tokens[d])
    {
      ReachesBelow(tokens, target, d);
    }
  }

  lemma {:induction false} ClosedReaches(tokens: map<string, Token>, target: string, d: string)
    requires Forested(tokens) && Closed(tokens) && Below(GenealogyOf(tokens), target, d)
    ensures HasParent(GenealogyOf(tokens), d) && (Reaches(tokens, target, d) <==> IsActive(tokens[d]))
    decreases Height(GenealogyOf(tokens), d)
  {
    var g := GenealogyOf(tokens);
    HeightFalls(g, d);
    if g[d].parent.value != target {
      ClosedReaches(tokens, target, g[d].parent.value);
    }
  }

  /** Below a revoked token of a closed forest everything is revoked. */
  lemma {:induction false} RevokedSubtree(tokens: map<string, Token>, c: string, d: string)
    requires Forested(tokens) && Closed(tokens)
    requires c in tokens && !IsActive(tokens[c]) && Below(GenealogyOf(tokens), c, d)
    ensures d in tokens && !IsActive(tokens[d])
    decreases Height(GenealogyOf(tokens), d)
  {
    var g := GenealogyOf(tokens);
    HeightFalls(g, d);
    var q := g[d].parent.value;
    if q != c {
      RevokedSubtree(tokens, c, q);
    }
  }

  /** A revocation that reached the whole subtree of its target: whatever was active
      there is revoked, and the forest is closed again. */
  ghost predicate WholeSubtreeRevoked(s: Sys, after: Sys, target: string)
    requires Forested(s.tokens.at) && Forested(after.tokens.at)
  {
    && ReachedBelow(s.tokens.at, target) == ActiveBelow(s.tokens.at, target)
    && RevokedThroughout(after.tokens.at, target) && Closed(after.tokens.at)
  }

  lemma ClosedRevocation(
    s: Sys, after: Sys, target: string, reason: RevocationReason, now: int, actor: Option<string>)
    requires Forested(s.tokens.at) && Closed(s.tokens.at) && Forested(after.tokens.at)
    requires RevocationEffect(s, after, target, reason, now, actor)
    ensures WholeSubtreeRevoked(s, after, target)
  {
    ClosedIsSealed(s.tokens.at, target);
    RevocationReachesAll(s, after, target, reason, now, actor);
    ClosedAfter(s.tokens.at, after.tokens.at, target, reason, now);
  }

  lemma ClosedAfter(
    m: map<string, Token>, after: map<string, Token>, target: string, reason: RevocationReason, now: int)
    requires Forested(m) && Closed(m) && target in m && after.Keys == m.Keys && GenealogyOf(after) == GenealogyOf(m)
    requires forall d :: d in m ==> after[d] == AfterRevocation(m, target, d, reason, now)
    ensures Closed(after)
  {
    var g := GenealogyOf(m);
    forall d | HasParent(g, d) && !IsActive(after[after[d].parentTokenId.value])
      ensures !IsActive(after[d])
    {
      HeightFalls(g, d);
    }
  }

  /** However the store looks, a cascade behind a settled breaker runs to its end
      and leaves the breaker as it was. */
  lemma {:induction false} CascadeCompletes(
    s: Sys, p: string, kids: seq<Token>, now: int, actor: Option<string>, clock: int)
    requires Stores(s) && Forested(s.tokens.at) && p in s.tokens.at && SnapshotOf(GenealogyOf(s.tokens.at), p, kids)
    requires Settled(s.breaker)
    ensures var (s', done) := CascadeOver(s, p, kids, now, actor, clock);
            done && s'.breaker == s.breaker
    decreases ScopeSet(s.tokens.at[p].scope), |kids|
  {
    if kids != [] {
      SnapshotSplits(GenealogyOf(s.tokens.at), p, kids);
      if IsActive(kids[0]) {
        RevokeChildUnfolds(s, p, kids[0], now, actor, clock);
        var s2 := ChildRevoked(s, kids[0], now, actor);
        CascadeRevokeCompletes(s2, kids[0].id, now, actor, clock);
        CascadeOverGoesOn(s, p, kids, now, actor, clock);
        var s3 := CascadeRevoke(s2, kids[0].id, now, actor, clock).0;
        SnapshotStays(s.tokens.at, s3.tokens.at, p, kids[1..]);
        CascadeCompletes(s3, p, kids[1..], now, actor, clock);
      } else {
        CascadeOverSkips(s, p, kids, now, actor, clock);
        CascadeCompletes(s, p, kids[1..], now, actor, clock);
      }
    }
  }

  lemma SnapshotStays(m: map<string, Token>, after: map<string, Token>, p: string, kids: seq<Token>)
    requires p in m && SnapshotOf(GenealogyOf(m), p, kids) && GenealogyOf(after) == GenealogyOf(m)
    ensures p in after && ScopeSet(after[p].scope) == ScopeSet(m[p].scope) && SnapshotOf(GenealogyOf(after), p, kids)
  {
    assert GenealogyOf(after)[p] == GenealogyOf(m)[p];
  }

  lemma {:induction false} CascadeRevokeCompletes(s: Sys, p: string, now: int, actor: Option<string>, clock: int)
    requires Stores(s) && Forested(s.tokens.at) && p in s.tokens.at && Settled(s.breaker)
    ensures var (s', done) := CascadeRevoke(s, p, now, actor, clock);
            done && s'.breaker == s.breaker
    decreases ScopeSet(s.tokens.at[p].scope)
  {
    ChildrenAreCurrent(s.tokens, p);
    CascadeCompletes(s, p, Children(s.tokens, p), now, actor, clock);
  }

  /** Revocation is all or nothing: only the first read can be refused, and then
      no token changes; once it is answered, every save of the cascade succeeds. */
  lemma RevocationIsAtomic(
    s: Sys, target: string, reason: RevocationReason, now: int, actor: Option<string>, clock: int)
    requires Stores(s) && Forested(s.tokens.at)
    ensures var (s', r) := RevokeToken(s, target, reason, now, actor, clock);
            && (r == Err(CircuitOpen) <==> !Guard(s, clock).1)
            && (r.Err? ==> s' == Guard(s, clock).0 && s'.tokens == s.tokens)
            && (r.Ok? ==> Settled(s'.breaker))
  {
    var (s1, read) := Guard(s, clock);
    if read && target in s.tokens.at {
      SuccessSettles(s.breaker, false, clock, clock);
      GuardSettled(s1, clock);
      var revoked := MarkRevoked(s.tokens.at[target], now, reason);
      var s3 := Note(SaveToken(s1, revoked), RevokeEvent(s.tokens.at[target], reason, actor), now);
      SetKeepsValid(s1.tokens, target, revoked);
      SavingKeepsGenealogy(s1.tokens.at, revoked);
      CascadeRevokeCompletes(s3, target, now, actor, clock);
    }
  }
}
