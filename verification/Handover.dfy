/** Who a request is assigned to, and who decides it: what calls that do not
    overlap keep, and exactly which moves lose it when they do. */
module Handovers {
  import opened Core
  import opened AuditLogs
  import opened Domain
  import opened Steps
  import opened Revocation
  import opened Invariants
  import opened Runs
  import opened Traces
  import opened Segments
  import opened Interleavings

  /** The request the entry names was assigned to its author, or to no one. */
  ghost predicate Entitled(requests: map<string, Request>, e: Event) {
    e.requestId.Some? && e.requestId.value in requests && ByAssigned(requests[e.requestId.value], e)
  }

  /** Each new decision is by someone entitled to it when it was saved. */
  ghost predicate DecidedByEntitled(v: View, w: View) {
    && v.approved <= w.approved && v.denied <= w.denied
    && (forall i :: |v.approved| <= i < |w.approved| ==> Entitled(v.requests, w.approved[i].event))
    && (forall i :: |v.denied| <= i < |w.denied| ==> Entitled(v.requests, w.denied[i].event))
  }

  ghost predicate EscalatedSince(v: View, w: View, id: string) {
    exists i :: |v.escalated| <= i < |w.escalated| && w.escalated[i].event.requestId == Some(id)
  }

  /** No request changes hands but by an escalation that the log records, and then to
      someone: it is not left to whoever comes. */
  ghost predicate HandedOverOpenly(v: View, w: View) {
    && v.escalated <= w.escalated
    && forall id :: id in v.requests ==>
         && id in w.requests
         && (|| w.requests[id].assignedApprover == v.requests[id].assignedApprover
             || (EscalatedSince(v, w, id) && Given(w.requests[id].assignedApprover)))
  }

  ghost predicate Orderly(s: Sys, s': Sys) {
    DecidedByEntitled(ViewOf(s), ViewOf(s')) && HandedOverOpenly(ViewOf(s), ViewOf(s'))
  }

  // ---- Calls that do not overlap -------------------------------------------------------

  ghost predicate SameAssignments(v: View, w: View) {
    && w.escalated == v.escalated
    && forall id :: id in v.requests ==>
         id in w.requests && w.requests[id].assignedApprover == v.requests[id].assignedApprover
  }

  lemma SameHands(v: View, w: View)
    requires w.approved == v.approved && w.denied == v.denied && SameAssignments(v, w)
    ensures DecidedByEntitled(v, w) && HandedOverOpenly(v, w)
  {
  }

  lemma SubmissionOrderly(
    s: Sys, subject: string, scope: seq<string>, ttl: int, key: Option<string>, id: string, primary: Option<string>,
    now: int)
    requires WellFiled(s) && id !in s.requests.at
    ensures Orderly(s, RequestToken(s, subject, scope, ttl, key, id, primary, now).0)
  {
    var s' := RequestToken(s, subject, scope, ttl, key, id, primary, now).0;
    if Given(key) ==> FirstWithKey(s.requests.Values(), subject, key.value) == None {
      RequestTokenView(s, subject, scope, ttl, key, id, primary, now);
    }
    SameHands(ViewOf(s), ViewOf(s'));
  }

  lemma EscalationOrderly(s: Sys, id: string, window: int, backup: Option<string>, now: int)
    requires WellFiled(s)
    ensures Orderly(s, CheckRequestTimeout(s, id, window, backup, now))
  {
    var v, w := ViewOf(s), ViewOf(CheckRequestTimeout(s, id, window, backup, now));
    if w != v {
      RequestFiled(s, id);
      CheckTimeoutView(s, id, window, backup, now);
      assert w.escalated[|v.escalated|].event.requestId == Some(id);
    }
  }

  lemma DenialOrderly(s: Sys, id: string, approver: string, reason: DenialReason, now: int)
    requires WellFiled(s)
    ensures Orderly(s, DenyRequest(s, id, approver, reason, now).0)
  {
    if id in s.requests.at {
      RequestFiled(s, id);
    }
    DenyView(s, id, approver, reason, now);
    var (s', res) := DenyRequest(s, id, approver, reason, now);
    if res.Ok? {
      var r := s.requests.at[id];
      OneMoreDenial(ViewOf(s), id, r.(status := RequestStatus.Denied), DenialEntry(id, r, approver, reason, now));
    } else {
      SameHands(ViewOf(s), ViewOf(s'));
    }
  }

  lemma OneMoreDenial(v: View, id: string, r: Request, e: Recorded)
    requires id in v.requests && r.assignedApprover == v.requests[id].assignedApprover && Entitled(v.requests, e.event)
    ensures var w := v.(requests := v.requests[id := r], denied := v.denied + [e]);
            DecidedByEntitled(v, w) && HandedOverOpenly(v, w)
  {
  }

  lemma ClaimOrderly(s: Sys, id: string, subject: string, now: int)
    requires WellFiled(s)
    ensures Orderly(s, ClaimTokenSecret(s, id, subject, now).0)
  {
    if id in s.requests.at {
      RequestFiled(s, id);
    }
    ClaimView(s, id, subject, now);
    SameHands(ViewOf(s), ViewOf(ClaimTokenSecret(s, id, subject, now).0));
  }

  lemma RevocationOrderly(
    s: Sys, target: string, reason: RevocationReason, now: int, actor: Option<string>, clock: int)
    requires WellFiled(s) && Contained(s.tokens.at)
    ensures Orderly(s, RevokeToken(s, target, reason, now, actor, clock).0)
  {
    var (s', r) := RevokeToken(s, target, reason, now, actor, clock);
    RevokeTokenEffect(s, target, reason, now, actor, clock);
    GuardQuiet(s, clock);
    if r.Ok? {
      RevocationEntries(Guard(s, clock).0, s', target, reason, now, actor);
    }
    SameHands(ViewOf(s), ViewOf(s'));
  }

  /** A call that does not wait in its middle. */
  lemma UnwaitingOrderly(s: Sys, step: Step)
    requires WellFiled(s) && Contained(s.tokens.at) && Fresh(s, step) && !Waits(step)
    ensures Orderly(s, Apply(s, step))
  {
    match step
    case DoRequestToken(subject, scope, ttl, key, id, primary, now) =>
      SubmissionOrderly(s, subject, scope, ttl, key, id, primary, now);
    case DoCheckTimeout(id, window, backup, now) => EscalationOrderly(s, id, window, backup, now);
    case DoDeny(id, approver, reason, now) => DenialOrderly(s, id, approver, reason, now);
    case DoClaim(id, subject, now) => ClaimOrderly(s, id, subject, now);
    case DoRevoke(id, reason, now, actor, clock) => RevocationOrderly(s, id, reason, now, actor, clock);
    case DoRestart => SameHands(ViewOf(s), ViewOf(Restart(s)));
    case _ => UnseenStepQuiet(s, step);
  }

  lemma ApprovalOrderly(
    s: Sys, id: string, approver: string, policyId: Option<string>, n: Nonce, now: int, clock: int)
    requires Sound(s)
    ensures Orderly(s, ApproveRequest(s, id, approver, policyId, n, now, clock).0)
  {
    if id in s.requests.at {
      RequestFiled(s, id);
    }
    ApproveView(s, id, approver, policyId, n, now, clock);
    var (s', res) := ApproveRequest(s, id, approver, policyId, n, now, clock);
    if res.Ok? {
      var r, t := s.requests.at[id], res.value;
      OneMoreApproval(
        ViewOf(s), id, ApprovedAs(r, t, n.secret), t, ApprovalEntry(r, t, policyId, approver, now));
    } else {
      SameHands(ViewOf(s), ViewOf(s'));
    }
  }

  lemma DelegationOrderly(
    s: Sys, parent: string, secret: string, subject: string, scope: seq<string>, ttl: int, n: Nonce, now: int,
    clock: int)
    requires Sound(s) && n.id != "" && n.id !in s.tokens.at
    ensures Orderly(s, DelegateToken(s, parent, secret, subject, scope, ttl, n, now, clock).0)
  {
    DelegateView(s, parent, secret, subject, scope, ttl, n, now, clock);
    SameHands(ViewOf(s), ViewOf(DelegateToken(s, parent, secret, subject, scope, ttl, n, now, clock).0));
  }

  /** Of calls that do not overlap, each decision is by someone entitled to it, and
      no request changes hands but by an escalation in the log. */
  lemma StepOrderly(s: Sys, step: Step)
    requires Sound(s) && Fresh(s, step)
    ensures Orderly(s, Apply(s, step))
  {
    match step
    case DoApprove(id, approver, policyId, n, now, clock) => ApprovalOrderly(s, id, approver, policyId, n, now, clock);
    case DoDelegate(parent, secret, subject, scope, ttl, n, now, clock) =>
      DelegationOrderly(s, parent, secret, subject, scope, ttl, n, now, clock);
    case DoEnforce(id, secret, action, now, clock) => EnforceQuiet(s, id, secret, action, now, clock);
    case _ => UnwaitingOrderly(s, step);
  }

  lemma HandOversJoin(u: View, v: View, w: View)
    requires HandedOverOpenly(u, v) && HandedOverOpenly(v, w)
    ensures HandedOverOpenly(u, w)
  {
    forall id | id in u.requests && w.requests[id].assignedApprover != u.requests[id].assignedApprover
      ensures EscalatedSince(u, w, id) && Given(w.requests[id].assignedApprover)
    {
      if EscalatedSince(v, w, id) {
        var i :| |v.escalated| <= i < |w.escalated| && w.escalated[i].event.requestId == Some(id);
        assert i >= |u.escalated|;
      } else {
        var i :| |u.escalated| <= i < |v.escalated| && v.escalated[i].event.requestId == Some(id);
        assert w.escalated[i] == v.escalated[i];
      }
    }
  }

  /** So over any run of such calls. */
  lemma {:induction false} HandOversAreOpen(s: Sys, steps: seq<Step>, t: Sys)
    requires Sound(s) && Leads(s, steps, t)
    ensures HandedOverOpenly(ViewOf(s), ViewOf(t))
    decreases |steps|
  {
    if steps == [] {
      SameHands(ViewOf(s), ViewOf(t));
    } else {
      var u :| Takes(s, steps[0], u) && Chain(Takes, u, steps[1..], t);
      StepSound(s, steps[0]);
      StepOrderly(s, steps[0]);
      HandOversAreOpen(u, steps[1..], t);
      HandOversJoin(ViewOf(s), ViewOf(u), ViewOf(t));
    }
  }

  // ---- Calls that do -----------------------------------------------------------------------

  /** An approval that saves after its request has changed hands. */
  ghost predicate Reassigned(w: World, m: Move) {
    ApprovalSaves(w, m)
    && var a := w.flights[m.i].purpose;
       w.s.requests.at[a.requestId].assignedApprover != a.pending.assignedApprover
  }

  /** An approval that saves when its approver is not the one assigned any more. */
  ghost predicate Overtaken(w: World, m: Move) {
    ApprovalSaves(w, m)
    && var a := w.flights[m.i].purpose;
       !Eligible(w.s.requests.at[a.requestId], a.approver)
  }

  lemma FinishOrderly(w: World, i: nat, n: Nonce, clock: int)
    requires WorldOk(w) && Possible(w, Finish(i, n, clock))
    ensures var v, v', m := ViewOf(w.s), ViewOf(Finished(w.s, w.flights[i], n, clock)), Finish(i, n, clock);
            && (HandedOverOpenly(v, v') <==> !Reassigned(w, m))
            && (DecidedByEntitled(v, v') <==> !Overtaken(w, m))
            && (Overtaken(w, m) ==> Reassigned(w, m))
  {
    var f := w.flights[i];
    assert FlightOk(w.s.tokens.at, f) && ApprovalOnFile(w.s.requests.at, f);
    if f.purpose.Delegating? {
      FinishDelegationView(w.s, f, n, clock);
      SameHands(ViewOf(w.s), ViewOf(Finished(w.s, f, n, clock)));
    } else {
      RootOrderly(w.s, f, n, clock);
    }
  }

  lemma RootOrderly(s: Sys, f: Flight, n: Nonce, clock: int)
    requires WellFiled(s) && f.Hashing? && f.purpose.Approving? && ApprovalOnFile(s.requests.at, f)
    ensures var v, v', r := ViewOf(s), ViewOf(FinishApproval(s, f, n, clock).0), s.requests.at[f.purpose.requestId];
            && (HandedOverOpenly(v, v')
                <==> !(Guard(s, clock).1 && r.assignedApprover != f.purpose.pending.assignedApprover))
            && (DecidedByEntitled(v, v') <==> !(Guard(s, clock).1 && !Eligible(r, f.purpose.approver)))
  {
    var v, v' := ViewOf(s), ViewOf(FinishApproval(s, f, n, clock).0);
    FinishApprovalView(s, f, n, clock);
    if Guard(s, clock).1 {
      var t := TokenOf(f, n);
      OneMoreApproval(v, f.purpose.requestId, ApprovedAs(f.purpose.pending, t, n.secret), t, FinishEntry(f, t));
    } else {
      SameHands(v, v');
    }
  }

  lemma OneMoreApproval(v: View, id: string, r: Request, t: Token, e: Recorded)
    requires id in v.requests && e.event.requestId == Some(id) && e.event.actor.Some?
    ensures var w := WithRoot(v, id, r, t, e);
            && (HandedOverOpenly(v, w) <==> r.assignedApprover == v.requests[id].assignedApprover)
            && (DecidedByEntitled(v, w) <==> Eligible(v.requests[id], e.event.actor.value))
  {
    var w := WithRoot(v, id, r, t, e);
    assert w.approved[|v.approved|] == e && w.requests[id] == r;
  }

  /** A request changes hands unlogged exactly when an approval saves after its
      request was handed over; and is decided by someone not entitled exactly when
      it was handed over to someone else than its approver. */
  lemma OrderlyUnlessReassigned(w: World, m: Move)
    requires WorldOk(w) && Possible(w, m)
    ensures var v, v' := ViewOf(w.s), ViewOf(Moved(w, m).s);
            && (HandedOverOpenly(v, v') <==> !Reassigned(w, m))
            && (DecidedByEntitled(v, v') <==> !Overtaken(w, m))
            && (Overtaken(w, m) ==> Reassigned(w, m))
  {
    match m
    case Whole(step) => UnwaitingOrderly(w.s, step);
    case Finish(i, n, clock) => FinishOrderly(w, i, n, clock);
    case _ =>
      UnsavingKeeps(w, m);
      SameHands(ViewOf(w.s), ViewOf(Moved(w, m).s));
  }

  ghost predicate Unhurried(w: World, m: Move, u: World) {
    Goes(w, m, u) && !Reassigned(w, m)
  }

  /** However calls interleave, as long as no approval saves after its request was
      handed over, no request changes hands but by an escalation in the log. */
  lemma {:induction false} HandOversAreOpenOnTime(w: World, moves: seq<Move>, t: World)
    requires WorldOk(w) && Chain(Unhurried, w, moves, t)
    ensures HandedOverOpenly(ViewOf(w.s), ViewOf(t.s))
    decreases |moves|
  {
    if moves == [] {
      SameHands(ViewOf(w.s), ViewOf(t.s));
    } else {
      var u :| Unhurried(w, moves[0], u) && Chain(Unhurried, u, moves[1..], t);
      MoveKeeps(w, moves[0]);
      OrderlyUnlessReassigned(w, moves[0]);
      HandOversAreOpenOnTime(u, moves[1..], t);
      HandOversJoin(ViewOf(w.s), ViewOf(u.s), ViewOf(t.s));
    }
  }

  /** Such an approval always goes through: it puts the earlier assignment back and
      decides the request, with no escalation logged. */
  lemma HandOverUndone(w: World, i: nat, n: Nonce, clock: int)
    requires WorldOk(w) && Possible(w, Finish(i, n, clock)) && Reassigned(w, Finish(i, n, clock))
    ensures var s', a := Moved(w, Finish(i, n, clock)).s, w.flights[i].purpose;
            && a.requestId in s'.requests.at && s'.requests.at[a.requestId].status == RequestStatus.Approved
            && s'.requests.at[a.requestId].assignedApprover == a.pending.assignedApprover
               != w.s.requests.at[a.requestId].assignedApprover
            && Select(s'.log, Escalations) == Select(w.s.log, Escalations)
  {
    var f := w.flights[i];
    assert FlightOk(w.s.tokens.at, f) && ApprovalOnFile(w.s.requests.at, f);
    FinishApprovalView(w.s, f, n, clock);
    var s' := Finished(w.s, f, n, clock);
    assert s'.requests.at == ViewOf(s').requests && Select(s'.log, Escalations) == ViewOf(s').escalated;
  }
}
