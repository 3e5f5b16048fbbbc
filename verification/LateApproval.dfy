/** Approvals that save after their request was decided: exactly what they lose, and
    what interleavings without them keep. */
module LateApprovals {
  import opened Core
  import opened AuditLogs
  import opened Domain
  import opened Steps
  import opened Revocation
  import opened Invariants
  import opened Runs
  import opened Theorems
  import opened Traces
  import opened Interleavings
  import opened LateSaves

  // ---- Requests, and the one move that loses their order --------------------------------------

  /** Requests, tokens and log stop agreeing, and something decided is undone,
      in exactly one way. */
  lemma OrderLostOnlyByLateApproval(w: World, m: Move)
    requires WorldInOrder(w) && Possible(w, m)
    ensures var u := Moved(w, m);
            && (InOrder(u.s) <==> !LateApproval(w, m))
            && (Evolves(ViewOf(w.s), ViewOf(u.s)) <==> !LateApproval(w, m))
            && (!LateApproval(w, m) ==> WorldInOrder(u))
  {
    MoveKeeps(w, m);
    match m
    case Whole(step) => WholeKeeps(w, step);
    case Finish(i, n, clock) => FinishFiled(w, i, n, clock);
    case _ =>
      UnsavingKeeps(w, m);
      EvolvesReflexive(ViewOf(w.s));
  }

  // ---- Runs with no late approval ---------------------------------------------------------------

  ghost predicate OnTime(w: World, m: Move, u: World) {
    Goes(w, m, u) && !LateApproval(w, m)
  }

  ghost predicate FlowsOnTime(w: World, moves: seq<Move>, t: World) {
    Chain(OnTime, w, moves, t)
  }

  lemma {:induction false} OnTimeKeepsOrder(w: World, moves: seq<Move>, t: World)
    requires WorldInOrder(w) && FlowsOnTime(w, moves, t)
    ensures WorldInOrder(t) && Evolves(ViewOf(w.s), ViewOf(t.s))
    decreases |moves|
  {
    if moves == [] {
      EvolvesReflexive(ViewOf(w.s));
    } else {
      var u :| OnTime(w, moves[0], u) && Chain(OnTime, u, moves[1..], t);
      OrderLostOnlyByLateApproval(w, moves[0]);
      OnTimeKeepsOrder(u, moves[1..], t);
      EvolvesTransitive(ViewOf(w.s), ViewOf(u.s), ViewOf(t.s));
    }
  }

  /** However calls interleave, as long as no approval is late: the log determines
      every decision, approved requests, roots and approvals are one for one, every
      decision is its assigned approver's, and every token's lineage is proven. */
  lemma OneTokenARequestOnTime(start: Sys, moves: seq<Move>, t: World, id: string)
    requires Start(start) && FlowsOnTime(World(start, []), moves, t)
    ensures DecisionLogged(t.s, id)
    ensures id in t.s.requests.at ==> OwnsItsRoot(t.s, id) && ProperlyDecided(t.s, id)
    ensures IsRoot(t.s.tokens.at, id) ==> exists r :: OwnsRoot(t.s.requests.at, Select(t.s.log, Approvals), r, id)
    ensures id in t.s.tokens.at ==> Contained(t.s.tokens.at) && LineageProven(t.s, id)
  {
    StartInOrder(start);
    OnTimeKeepsOrder(World(start, []), moves, t);
    DecisionsAgree(t.s, id);
    if id in t.s.requests.at {
      RequestOwns(t.s, id);
      DecidersAgree(t.s, id);
    }
    if IsRoot(t.s.tokens.at, id) {
      OwnerExists(t.s.tokens.at, t.s.requests.at, Select(t.s.log, Approvals), id);
    }
    if id in t.s.tokens.at {
      LineageHolds(t.s, id);
    }
  }

  lemma DecisionsAreFinalOnTime(w: World, moves: seq<Move>, t: World, id: string)
    requires WorldInOrder(w) && FlowsOnTime(w, moves, t)
    requires id in w.s.requests.at && w.s.requests.at[id].status != RequestStatus.Pending
    ensures id in t.s.requests.at && t.s.requests.at[id].status == w.s.requests.at[id].status
    ensures t.s.requests.at[id].tokenId == w.s.requests.at[id].tokenId
  {
    OnTimeKeepsOrder(w, moves, t);
    assert RequestEvolves(w.s.requests.at[id], t.s.requests.at[id]);
  }

  /** After a claim no later one succeeds, in any interleaving with no late
      approval, and the log does not name the request's claim twice. */
  lemma ClaimedAtMostOnceOnTime(
    w: World, id: string, subject: string, now: int, u: World, moves: seq<Move>, t: World, another: string, later: int)
    requires WorldInOrder(w) && ClaimTokenSecret(w.s, id, subject, now).1.Ok?
    requires Goes(w, Whole(DoClaim(id, subject, now)), u) && FlowsOnTime(u, moves, t)
    ensures ClaimTokenSecret(t.s, id, another, later).1.Err?
    ensures !NamedTwice(Select(t.s.log, Claims), id)
  {
    ClaimMove(w, id, subject, now, u);
    ClaimSpends(w.s, id, subject, now);
    SpentOnTime(u, id, moves, t, another, later);
  }

  lemma ClaimMove(w: World, id: string, subject: string, now: int, u: World)
    requires WorldInOrder(w) && Goes(w, Whole(DoClaim(id, subject, now)), u)
    ensures WorldInOrder(u) && u == World(ClaimTokenSecret(w.s, id, subject, now).0, w.flights)
  {
    WholeInOrder(w, DoClaim(id, subject, now));
  }

  lemma SpentOnTime(w: World, id: string, moves: seq<Move>, t: World, another: string, later: int)
    requires WorldInOrder(w) && Spent(w.s.requests.at, id) && FlowsOnTime(w, moves, t)
    ensures ClaimTokenSecret(t.s, id, another, later).1.Err?
    ensures !NamedTwice(Select(t.s.log, Claims), id)
  {
    OnTimeKeepsOrder(w, moves, t);
    SpentStaysSpent(w.s, t.s, id, another, later);
    ClaimsDistinct(t.s.requests.at, Select(t.s.log, Claims));
  }

  lemma ClaimSpends(s: Sys, id: string, subject: string, now: int)
    requires InOrder(s) && ClaimTokenSecret(s, id, subject, now).1.Ok?
    ensures Spent(ClaimTokenSecret(s, id, subject, now).0.requests.at, id)
  {
    RequestFiled(s, id);
  }

  // ---- What a late approval undoes -----------------------------------------------------------

  ghost predicate NamedTwice(es: seq<Recorded>, id: string) {
    exists i, j :: 0 <= i < j < |es| && es[i].event.requestId == Some(id) == es[j].event.requestId
  }

  lemma NamedAgain(es: seq<Recorded>, e: Recorded, id: string)
    requires e.event.requestId == Some(id)
    ensures RequestNamed(es + [e], id)
    ensures RequestNamed(es, id) ==> NamedTwice(es + [e], id)
  {
    assert (es + [e])[|es|] == e;
    if RequestNamed(es, id) {
      var i :| 0 <= i < |es| && es[i].event.requestId == Some(id);
      assert (es + [e])[i].event.requestId == Some(id) == (es + [e])[|es|].event.requestId;
    }
  }

  /** In every world in order, a late approval overrides the decision taken: the
      request is approved, with a new active root. A denial stays in the log beside
      the approval; an earlier approval makes two, of two roots. */
  lemma LateApprovalOverrides(w: World, i: nat, n: Nonce, clock: int)
    requires WorldInOrder(w) && Possible(w, Finish(i, n, clock)) && LateApproval(w, Finish(i, n, clock))
    ensures var s', id := Moved(w, Finish(i, n, clock)).s, w.flights[i].purpose.requestId;
            && id in s'.requests.at && s'.requests.at[id].status == RequestStatus.Approved
            && s'.requests.at[id].tokenId == Some(n.id) != w.s.requests.at[id].tokenId
            && ActiveRoot(s'.tokens.at, n.id) && RequestNamed(Select(s'.log, Approvals), id)
            && (w.s.requests.at[id].status == RequestStatus.Denied ==> RequestNamed(Select(s'.log, Denials), id))
            && (w.s.requests.at[id].status == RequestStatus.Approved ==>
                  && NamedTwice(Select(s'.log, Approvals), id)
                  && w.s.requests.at[id].tokenId.Some? && IsRoot(s'.tokens.at, w.s.requests.at[id].tokenId.value))
  {
    var f := w.flights[i];
    assert FlightOk(w.s.tokens.at, f) && ApprovalOnFile(w.s.requests.at, f);
    FinishApprovalView(w.s, f, n, clock);
    RequestFiled(w.s, f.purpose.requestId);
    NamedAgain(Select(w.s.log, Approvals), FinishEntry(f, TokenOf(f, n)), f.purpose.requestId);
  }

  ghost predicate IsRoot(tokens: map<string, Token>, id: string) {
    id in tokens && tokens[id].parentTokenId == None
  }

  ghost predicate ActiveRoot(tokens: map<string, Token>, id: string) {
    IsRoot(tokens, id) && IsActive(tokens[id])
  }

  /** And it puts a secret back: a claim succeeds again, a second time if there
      was one before, and the log then has both. */
  lemma LateApprovalRevivesTheSecret(w: World, i: nat, n: Nonce, clock: int, now: int)
    requires WorldInOrder(w) && Possible(w, Finish(i, n, clock)) && LateApproval(w, Finish(i, n, clock))
    requires n.id != "" && n.secret != ""
    ensures var s', id := Moved(w, Finish(i, n, clock)).s, w.flights[i].purpose.requestId;
            var (s'', claim) := ClaimTokenSecret(s', id, w.flights[i].purpose.pending.subject, now);
            && claim == Ok((n.id, n.secret))
            && (RequestNamed(Select(w.s.log, Claims), id) ==> NamedTwice(Select(s''.log, Claims), id))
  {
    var f, id := w.flights[i], w.flights[i].purpose.requestId;
    assert FlightOk(w.s.tokens.at, f) && ApprovalOnFile(w.s.requests.at, f);
    var s' := Finished(w.s, f, n, clock);
    FinishApprovalView(w.s, f, n, clock);
    assert s'.requests.at == ViewOf(s').requests && Select(s'.log, Claims) == Select(w.s.log, Claims);
    ClaimSucceeds(s', id, ApprovedAs(f.purpose.pending, TokenOf(f, n), n.secret), now);
  }

  lemma ClaimSucceeds(s: Sys, id: string, r: Request, now: int)
    requires Stores(s) && id in s.requests.at && s.requests.at[id] == r && r.id == id
    requires r.status == RequestStatus.Approved && Given(r.tokenId) && Given(r.tokenSecret)
    ensures var (s', claim) := ClaimTokenSecret(s, id, r.subject, now);
            && claim == Ok((r.tokenId.value, r.tokenSecret.value))
            && (RequestNamed(Select(s.log, Claims), id) ==> NamedTwice(Select(s'.log, Claims), id))
  {
    ClaimView(s, id, r.subject, now);
    NamedAgain(Select(s.log, Claims), ClaimEntry(id, r, now), id);
  }

  // ---- Runs with neither kind of late save ------------------------------------------------------

  ghost predicate Prompt(w: World, m: Move, u: World) {
    Goes(w, m, u) && !LateApproval(w, m) && !LateSave(w, m)
  }

  /** With neither, the whole invariant holds. */
  lemma {:induction false} PromptRunsKeepInvariant(w: World, moves: seq<Move>, t: World)
    requires WorldInOrder(w) && TokensOk(w.s.tokens.at) && Chain(Prompt, w, moves, t)
    ensures WorldInOrder(t) && Inv(ViewOf(t.s))
    decreases |moves|
  {
    if moves != [] {
      var u :| Prompt(w, moves[0], u) && Chain(Prompt, u, moves[1..], t);
      OrderLostOnlyByLateApproval(w, moves[0]);
      ClosureLostOnlyByLateSave(w, moves[0]);
      PromptRunsKeepInvariant(u, moves[1..], t);
    }
  }
}
