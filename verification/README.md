# Ambit: delegation, revocation and the audit trail

A Dafny model of the authority at the centre of Ambit: the token store with its
delegation forest, the request store, the policy store, the hash-chained audit
log and the circuit breaker in front of the stores, together with the
stand-alone arithmetic beside them (base32, TOTP replay protection, the rate
limiter, the anomaly detector).

`dafny verify dfyconfig.toml` checks everything.

## How it is put together

| file | holds |
|---|---|
| `Core.dfy` | `Option`, `Result`, a JavaScript `Map` with its insertion order, `trim` |
| `JsonlStore.dfy` | append-only files of JSON lines, and what replaying them rebuilds |
| `AuditLog.dfy` | the hash chain, rotation and restart, and the class `AuditLog` |
| `CircuitBreaker.dfy` | the breaker as a value, its bounds, and the class `CircuitBreaker` |
| `Domain.dfy` | tokens, requests, policies, the system state `Sys`, errors and reason codes |
| `Steps.dfy` | every domain call as a function from state to state and reply |
| `Forest.dfy` | parent links as a forest: descent, paths, depth |
| `Revocation.dfy` | what `revokeToken` and its recursive cascade do |
| `Invariants.dfy` | what stores and log satisfy together, and which changes keep it |
| `Traces.dfy` | runs of any transition relation, and joining them |
| `Runs.dfy` | the state machine, one step per call, and the invariant over every run |
| `Lifecycle.dfy` | the exact conditions under which issuance, decisions and escalation go through |
| `Outcomes.dfy` | what every call answers, writes and logs, told on the fields of the records it reads, and what it discloses |
| `Histories.dfy` | over whole runs: when the store can be out of reach, and what the screening of submissions has counted |
| `Witness.dfy` | a run that reaches any root token one could wish for |
| `Theorems.dfy` | the main results, over every reachable state and every run of calls that do not overlap |
| `Segments.dfy` | the calls that `await`, cut where they wait |
| `Interleaving.dfy` | their parts run in between one another: what every interleaving keeps |
| `LateSave.dfy` | a delegation that saves after a revocation: exactly what is lost, how far a revocation goes and how long it lasts |
| `LateApproval.dfy` | an approval that saves after its request was decided: exactly what is lost, and what interleavings without one keep |
| `Handover.dfy` | who a request is assigned to and who decides it, with and without overlap |
| `Schedules.dfy` | interleavings in which something is lost, from any state that admits the calls, and from an empty start |
| `Stores.dfy` | the classes `TokenStore`, `PolicyStore`, `RequestStore` |
| `Authority.dfy` | the domain calls as methods over those objects, each proved equal to its step |
| `Base32.dfy`, `Totp.dfy`, `RateLimiter.dfy`, `AnomalyDetector.dfy` | the stand-alone parts |

Each class method is proved to do what a function of the old state says; the
properties are then proved about that function. So a change to a method body
breaks the method's own proof, and a change to a step breaks the lemmas about it.
`Authority.Serve` ties the two: calls on the objects make the runs the theorems
are about.

A run is a list of steps from an empty start: requests, escalations, approvals,
denials, claims, delegations, enforcement, revocations, policy changes, outages
and restarts, each over before the next begins, with any arguments, any clock readings
and any outage schedule.
`Sound` is the invariant of `Runs.dfy`; every state a run reaches is `Sound`
(`Runs.ReachableSound`), and a lemma that asks for `Sound` asks for no more than that.

Secrets are symbolic: a hash remembers the salt and the secret, and verification
succeeds exactly for that secret. The entry digest is an arbitrary function;
only the tamper-evidence lemmas ask that it be free of collisions. Random ids
and secrets are arguments, assumed new and not empty where they become keys.
Times are integers of milliseconds; `now` is the caller's, `clock` the process's own.

## Where the code differs from what is said about it

- The comment at src/delegation.ts:29 says delegateToken never throws. It throws
  `InvalidScopeError` exactly when an otherwise admissible delegation asks for a
  lifetime that is not positive (`Outcomes.DelegationOutcome`,
  `Theorems.NeverThrowsIffPositiveTtl`).
- The limiter is described as letting through up to twice its limit around a window
  edge. It never reaches that: 2m - 1 is the most, and it is reached
  (`RateLimiters.LessThanTwiceTheLimit`, `RateLimiters.BoundIsReached`).
- Three calls wait in their middle: delegateToken for the check of a secret and then for
  a hash, approveRequest for a hash, enforceToken for the check of a secret.
  `Interleaving.dfy` lets any other call run in those waits. In every interleaving scope
  and lifetime only ever shrink downwards, a token is revoked iff the log says so, a claim
  hands out the request's own token and never one from before a restart, a key finds its
  request, policies on file are acceptable, and a token stays within the policy as it
  stood when its approval started (`Interleavings.ContainmentSurvivesInterleaving` and
  the rows after it). What follows is kept by calls that do not overlap and lost by
  calls that do; each entry says by which moves.
  - "No revoked token has an active descendant" is lost exactly when a delegation
    saves its child after its parent was revoked (`LateSaves.ClosureLostOnlyByLateSave`).
    Such a child is then out of reach of later revocations further up, since the cascade
    skips revoked tokens: a revocation reaches everything below its target exactly when
    no active token there hangs from a revoked one, the target apart
    (`Revocation.RevocationReachesAll`), although src/token.ts:295-299 says it must reach
    everything transitively. Once it has, that lasts exactly until a delegation saves a
    child under the target (`LateSaves.SubtreeLostOnlyByLateSave`,
    `LateSaves.RevocationIsPermanentInterleaved`). With no late save at all revocation
    is as permanent as for calls that do not overlap (`LateSaves.RevocationIsPermanentOnTime`).
  - The agreement of requests, tokens and log ("one token a request", "a decision is
    final", "a secret is claimed once", a proven lineage) is lost exactly when an approval
    saves after its request was decided (`LateApprovals.OrderLostOnlyByLateApproval`). Such
    a move always overrides the decision, a denial included, and always makes one more
    claim possible, its new secret not being empty (`LateApprovals.LateApprovalOverrides`,
    `LateApprovals.LateApprovalRevivesTheSecret`).
  - A request changes hands without an escalation in the log exactly when an approval
    saves after its request was handed over, which puts the earlier assignment back; and
    it is decided by someone not entitled to exactly when that was a hand-over to someone
    else than the approver (`Handovers.OrderlyUnlessReassigned`, `Handovers.HandOverUndone`).
  - A policy changed while an approval under it waits does not bind the token saved
    after it (`Schedules.TightenedPolicyDoesNotBind`).
  - That only a call's first read can find the store unavailable: one that fails during
    a wait is found by the next call to it (`Outcomes.FinishedDelegation`).

  Interleavings with none of the first kind stay closed, with none of the second stay in
  order, and with neither keep the whole invariant (`LateSaves.TimelyRunsStayClosed`,
  `LateApprovals.OneTokenARequestOnTime`, `LateApprovals.PromptRunsKeepInvariant`). The
  first three kinds do occur: `Schedules.dfy` reaches them from an empty start and, as
  long as the breaker is closed and no outage set, from every state in order, with no
  call waiting, that would admit the calls.
- The comment at src/token.ts:253-256 says there is no window in which a stale copy of
  a token still works. The wait of enforceToken is one: a token revoked in it is allowed
  exactly when it would have been before (`Interleavings.AllowedThoughRevoked`,
  `Schedules.RevokedTokenIsAllowed`).

## Model

| member | source | states |
|---|---|---|
| `Theorems.AuthorityNeverGrows` | src/token.ts:224-251 | in every reachable state, whatever a token is allowed at a time, every ancestor of it is allowed too: scope, lifetime and revocation never grow along a chain |
| `Theorems.EnforcementIsAccountable` | src/token.ts:175-222 | enforcement allows only with the token's own secret and only what the token and all its ancestors may do; it changes none of the three stores and adds exactly one entry, naming the token and telling allow from deny |
| `Outcomes.EnforcementOutcome` | src/token.ts:175-251 | of any state: store_unavailable iff the read is refused, unknown_token iff the token is not on file, and of a known one invalid_credential iff the secret is wrong, else revoked iff revoked, else expired iff its time is over, else out_of_scope iff the action is not in scope, else allowed; one entry carries that reason and the token's subject |
| `Outcomes.CheckOutcome` | src/token.ts:205-222 | the same of the part after the wait, on the record as it was read |
| `Outcomes.EnforcementDisclosesNothing` | src/token.ts:164-174 | without the secret, answer, entries and breaker are the same for any two tokens of one subject, whatever their status, expiry and scope |
| `Theorems.RevocationInReachableStates` | src/token.ts:267-293 | in every reachable state revokeToken succeeds exactly when the store answers and knows the token, then has the whole effect of `Revocation.RevocationEffect` and leaves nothing below its target active; otherwise no store changes |
| `Theorems.RevocationIsPermanent` | src/token.ts:258-293 | in every later state of every run of calls that do not overlap, restarts included, the target and all that descends from it, even if delegated since, is refused as revoked; for overlapping calls see `LateSaves.RevocationIsPermanentInterleaved` |
| `Theorems.LogDeterminesStores` | src/token.ts:280-312 | a token is revoked iff a "revoked" entry names it; a request is approved iff a "request_approved" entry names it, and denied iff a deny_request "request_denied" entry does |
| `Theorems.FailedApprovalLeavesPending` | src/tokenRequest.ts:227-245 | a failed approval logs the denial code under its own action but leaves the request pending and all three stores as they were |
| `Theorems.ApprovedRequestOwnsRoot` | src/tokenRequest.ts:246-260 | an approved request owns a root token alike in subject and scope, with one approval entry for the pair; a request not approved owns no token and holds no secret |
| `Theorems.RootBelongsToRequest` | src/token.ts:335-341 | every root token belongs to exactly one approved request, with its one approval entry |
| `Theorems.DecisionsAreFinal` | src/tokenRequest.ts:383-392 | over any run of calls that do not overlap, a decided request keeps its status and its token; `LateApprovals.OrderLostOnlyByLateApproval` says exactly when overlapping calls lose this |
| `Theorems.DecidedByTheAssigned` | src/tokenRequest.ts:168-190 | in every reachable state a decided request has exactly one entry for its decision, made by the approver it is assigned to if it is assigned to one, and none for the other decision; a pending request has neither |
| `Theorems.LineageIsProven` | src/token.ts:345-370 | every token has one root, no further up than the root has distinct permissions, and the origin found for it exists and is the root's only approval |
| `Theorems.LineageFound` | src/token.ts:361-370 | the chain to a token starts at a root, is the only one, is bounded by the root's scope, and its origin is the root's own approval |
| `Theorems.ChainIsUnique` | src/token.ts:351-361 | in any store, parent links intact or not, there is one chain of records to a token from where its parent links end |
| `Theorems.OriginOfRoot` | src/token.ts:361-370 | the first approval entry naming a root exists and is the only one for that request and that token |
| `Theorems.PolicyBindsDescendants` | src/token.ts:92-121 | everything ever delegated from a token approved under a policy stays within that policy as it stood at approval, in scope and in lifetime, whatever modifyPolicy does later; the approval entry names the policy; for overlapping calls see `Interleavings.PolicyBindsInterleaved` |
| `Theorems.ClaimReturnsTheTokensSecret` | src/tokenRequest.ts:338-381 | a claim succeeds only for the submitting subject, only after approval, returns the request's own token with a secret that verifies against it, and adds one claim entry; a refused claim adds none |
| `Theorems.ClaimedAtMostOnce` | src/tokenRequest.ts:363-380 | over any run of calls that do not overlap, after one success no later claim of the request succeeds, by anyone, and the log never holds two claim entries for it; for overlapping calls see `LateApprovals.ClaimedAtMostOnceOnTime` |
| `Theorems.NoClaimAcrossRestart` | src/requestStore.ts:22-29 | no claim succeeds for a request approved before a restart |
| `Theorems.RetryFindsTheSameRequest` | src/tokenRequest.ts:111-160 | a retry under the same subject and key, however much later, returns the same request and changes nothing |
| `Outcomes.DelegationOutcome` | src/delegation.ts:36-127 | on the parent's own fields: store_unavailable iff the read is refused, parent_invalid for an unknown parent, then invalid_credential, parent_invalid, empty_scope, exceeds_parent_scope, not_narrower, each iff it is the first that applies; otherwise it throws iff the lifetime is not positive and else saves exactly the child described; each answer has its one entry, a throw has none |
| `Outcomes.ResumedDelegation` | src/delegation.ts:59-89 | the same of the part after the wait for the check of the secret, on the parent as it was read; whatever ran in between, it throws exactly for a lifetime that is all that is wrong |
| `Outcomes.FinishedDelegation` | src/delegation.ts:85-102 | after the hash the one outcome besides success is the store reported unavailable, and that exactly when the save is refused |
| `Outcomes.DelegationDisclosesNothing` | src/delegation.ts:33-35 | without the parent's secret, answer and entries are the same for any two parents, whatever they hold |
| `Outcomes.IssuanceErrors` | src/token.ts:80-107 | each error of issuance iff it is the first that applies, and that nothing is then saved |
| `Outcomes.RevocationOutcome` | src/token.ts:267-315 | the reply is the target's record as it now is; target and tokens reached differ from before in status, time and reason alone; the entries are the target's, with the reason given, and then theirs, with parent_revoked |
| `Outcomes.FilingOutcome` | src/tokenRequest.ts:132-160 | a submission that is filed leaves the record described, one run of the screening, and one entry or, if it is anomalous, two |
| `Outcomes.DenialOutcome` | src/tokenRequest.ts:269-293 | a denial succeeds iff the request is pending and assigned to them or to no one, and then changes its status and adds its one entry; otherwise the error says which of the three it was, and only a wrong approver is logged |
| `Outcomes.ApprovalInFull` | src/tokenRequest.ts:206-261 | an approval not admitted changes nothing but the log; one that is fails with its issuance's own error, logged as such, or saves the request with its token and secret and one entry |
| `Outcomes.ClaimOutcome` | src/tokenRequest.ts:338-381 | each refusal of a claim iff it is the first that applies, the subject coming first; a success returns the pair held, erases the secret and adds one entry |
| `Outcomes.PolicyCreation` | src/policy.ts:82-116 | a policy is created iff its name is not blank, its scope not empty, its lifetime positive and the store answers; it is then on file exactly as given, all others kept, with one entry |
| `Outcomes.PolicyModification` | src/policy.ts:122-146 | each field is new iff one was given, author and creation time are kept, and it is stored iff the result passes the same validation; otherwise no policy changes |
| `Outcomes.PolicyTakesEffect` | src/token.ts:92-107 | right after a policy is created a token can be issued under it exactly within the scope and the lifetime it was written with |
| `Outcomes.ModificationTakesEffect` | src/policy.ts:118-121 | and right after it is modified exactly within what it then says |
| `Outcomes.StoreAnswers` | src/server.ts:94-106 | a store call is answered iff the breaker lets it through and no outage is set; each opening and each closing adds its one entry, with its reason |
| `Outcomes.OutageOutcome` | src/circuitBreaker.ts:62-97 | with an outage set no store call is answered; with it lifted one is, at once while the breaker is closed and from the end of the cooldown otherwise |
| `Outcomes.RestartOutcome` | src/server.ts:86-117 | a new process has a closed breaker with nothing counted and a detector that has seen nothing |
| `Theorems.NeverThrowsIffPositiveTtl` | src/delegation.ts:29-36 | over the reachable states, "never throws" holds for exactly the positive lifetimes |
| `Witnesses.WishCanBeHeld` | src/tokenRequest.ts:206-261 | for any subject, non-empty scope, positive lifetime, approver and secret, some run reaches the root token that they describe |
| `Theorems.ExpiryCapped` | src/token.ts:116-121 | no descendant expires after, or has a permission outside, any ancestor |
| `Theorems.SecretStaysGone` | src/tokenRequest.ts:363-372 | an approved request without a secret never yields one again |
| `Lifecycle.IssuanceOutcome` | src/token.ts:80-141 | issuance succeeds iff scope is not empty, lifetime positive, the named policy exists and covers the request, and the first store call is answered; the token then ends at the earlier of the lifetime asked for and the parent's end |
| `Lifecycle.SubmissionOutcome` | src/tokenRequest.ts:111-160 | a submission is filed as pending for its primary approver iff its key is not on file for the subject; one entry records it and a second, for the same request, iff it is anomalous |
| `Lifecycle.ApprovalOutcome` | src/tokenRequest.ts:206-261 | an approval goes through iff the request is pending, the approver is the one assigned and issuance under the chosen policy succeeds; a failed one changes neither requests nor tokens |
| `Lifecycle.OnlyTheAssignedDecide` | src/tokenRequest.ts:168-190 | called and finished at once, an approval or a denial by anyone but the assigned approver is refused, and only one log entry naming them is added; for overlapping calls see `Handovers.OrderlyUnlessReassigned` |
| `Lifecycle.EscalationHandsOver` | src/tokenRequest.ts:303-328 | escalation happens iff a backup is configured, the request is on file, pending and not yet the backup's, and its window is over; one entry says so, of calls made from then on only the backup's may decide, and checking again changes nothing; otherwise the state is as it was |
| `Lifecycle.StoredPoliciesAreAcceptable` | src/policy.ts:82-146 | in every reachable state every stored policy has a name, a scope and a positive maximum lifetime |
| `Lifecycle.StepKeepsPolicies` | src/policy.ts:96-146 | every step keeps all stored policies acceptable and filed under their ids |
| `Lifecycle.PoliciesUntouched` | src/policy.ts:62-67 | only createPolicy and modifyPolicy touch a policy |
| `Runs.StepSound` | src/tokenRequest.ts:206-392 | every call keeps the invariant over tokens, requests and log, and undoes nothing already decided, revoked or logged |
| `Runs.RequestStepKeeps` | src/tokenRequest.ts:111-381 | submission, escalation, denial and claim keep requests, tokens and log in agreement, whatever the forest looks like, and touch no token |
| `Runs.RevokeKeeps` | src/token.ts:267-315 | so does revocation, which changes of a token only its status, reason and time, and logs exactly the tokens it revokes |
| `Runs.RunSound` | src/server.ts:86-117 | so does every run of calls, outages and restarts |
| `Runs.ReachableSound` | src/server.ts:86-117 | every reachable state satisfies the invariant |
| `Runs.IssueTokenEffect` | src/token.ts:80-141 | the saved token, its expiry exactly the lifetime asked for or the parent's end, for every outcome, and that nothing else changes |
| `Runs.ApproveView` | src/tokenRequest.ts:206-261 | an approval does three things at once, token, request and entry, or none of them |
| `Runs.DelegateView` | src/delegation.ts:36-102 | a delegation adds one child with a non-empty strictly narrower scope, no later expiry and an active parent, or changes nothing decisive |
| `Runs.RestartKeeps` | src/requestStore.ts:35-42 | a restart erases every request's secret and nothing else of tokens, requests, policies or log, and keeps them in agreement |
| `Revocation.RevokeTokenEffect` | src/token.ts:267-315 | in any forest, the target and exactly the active tokens reached from it through active tokens end revoked, every other token is as it was, earlier reasons and times included, and the log gains one entry for the target and one for each token reached |
| `Revocation.RevocationReachesAll` | src/token.ts:295-315 | afterwards everything below the target is revoked exactly when, before, no active token there hung from a revoked one other than the target |
| `Revocation.ClosedRevocation` | src/token.ts:295-315 | so in a forest with no active token under a revoked one the whole subtree is revoked, one entry for each token that was active, and there is still no such token |
| `Revocation.OrphanSurvives` | src/token.ts:302-302 | an active token under a parent revoked before is left as it was by every revocation of anything but itself or that parent |
| `Revocation.CascadeRevokeEffect` | src/token.ts:300-315 | the cascade from a token revokes exactly what it reaches through active tokens, one entry each, although it works from snapshots taken before any save |
| `Revocation.CascadeOverEffect` | src/token.ts:300-314 | the same of any rest of the snapshot |
| `Revocation.SiblingsUntouched` | src/token.ts:301-313 | recursing into one child leaves the snapshot of its siblings current, and what is reached from them |
| `Revocation.SkippedChild` | src/token.ts:302-302 | a child revoked already is skipped with all below it, active or not |
| `Revocation.RevocationIsAtomic` | src/token.ts:275-314 | only the first read of a revocation can be refused, and then no token changes; once it is answered every save of the cascade succeeds |
| `Revocation.CascadeCompletes` | src/circuitBreaker.ts:75-104 | behind a settled breaker a cascade runs to its end and leaves the breaker as it was, whatever the store looks like |
| `Forest.PathIsUnique` | src/token.ts:345-361 | the root-first parent path to a token is unique |
| `Forest.PathLength` | src/delegation.ts:69-83 | because each delegation is a non-empty strict subset, a path plus the scope at its end is no longer than the scope at its root |
| `Forest.BelowIffOnPath` | src/token.ts:345-361 | the path to a token holds exactly the token and its ancestors |
| `Forest.SiblingsDisjoint` | src/tokenStore.ts:61-63 | subtrees of two children of one parent share no token |
| `Forest.BelowThroughChild` | src/tokenStore.ts:61-63 | whatever is below a token is a direct child or below one |
| `Steps.CascadeRevoke` | src/token.ts:300-315 | the recursion ends, and keeps the order and the genealogy of the store |
| `Steps.ChildrenAreCurrent` | src/tokenStore.ts:61-63 | childrenOf returns exactly the stored tokens with that parent |
| `Invariants.ApprovedRequest` | src/tokenRequest.ts:246-259 | saving the root, the approved request and the approval entry together keeps requests, tokens and log in agreement exactly when the request was pending |
| `Invariants.ClosedWithToken` | src/token.ts:300-315 | a closed forest stays closed with a new token iff its parent is active |
| `Invariants.RevokedTokens` | src/token.ts:279-313 | a revocation whose entries name exactly the tokens it revokes keeps requests, tokens and log in agreement |
| `Invariants.ErasedSecrets` | src/requestStore.ts:22-29 | erasing every secret keeps requests, tokens and log in agreement |
| `Interleavings.ContainmentSurvivesInterleaving` | src/token.ts:112-127 | however calls interleave at their waits, a descendant's scope and lifetime stay within every ancestor's; an ancestor refuses what the descendant is allowed only if it is itself revoked |
| `Interleavings.RevocationsAndClaimsHonest` | src/token.ts:279-313 | however calls interleave, a token is revoked iff a "revoked" entry names it, and a claim that succeeds returns the request's own token with a secret that verifies against it |
| `Interleavings.RetryFindsItInterleaved` | src/tokenRequest.ts:111-160 | however calls interleave, a retry under a used key returns the request filed under it and changes nothing |
| `Interleavings.NoClaimAcrossRestartInterleaved` | src/requestStore.ts:22-29 | however calls interleave, no claim succeeds for a request approved before a restart |
| `Interleavings.PoliciesAcceptableInterleaved` | src/policy.ts:82-146 | however calls interleave, every stored policy has a name, a scope and a positive maximum lifetime |
| `Interleavings.PolicyBindsInterleaved` | src/tokenRequest.ts:216-259 | however calls interleave, everything ever delegated from a token approved under a policy stays within that policy as it stood when the approval started, and the approval entry names it |
| `LateSaves.ClosureLostOnlyByLateSave` | src/delegation.ts:59-89 | from a closed state any move leaves the state closed, except one: a delegation saving its child after its parent was revoked |
| `LateSaves.TimelyRunsStayClosed` | src/delegation.ts:59-89 | every interleaving with no such move stays closed, however late approvals are |
| `LateSaves.SubtreeLostOnlyByLateSave` | src/token.ts:295-315 | a token and all below it, once revoked, stay so under every move except one: a delegation saving a child under it |
| `LateSaves.RevocationIsPermanentInterleaved` | src/token.ts:253-315 | after a revocation of a target whose subtree was sealed, and until a delegation saves a child under the target, whatever descends from it is refused as revoked, whatever else is interleaved |
| `LateSaves.RevocationIsPermanentOnTime` | src/token.ts:253-315 | in every interleaving from an empty start with no late save, after a revocation whatever descends from its target is refused as revoked |
| `LateApprovals.OrderLostOnlyByLateApproval` | src/tokenRequest.ts:216-259 | requests, tokens and log stop agreeing, and something decided is undone, exactly when an approval saves after its request was decided |
| `LateApprovals.OneTokenARequestOnTime` | src/tokenRequest.ts:206-261 | in every interleaving with no such move, the log determines every decision and whose it was, approved requests, roots and approval entries are one for one, and every lineage is proven |
| `LateApprovals.DecisionsAreFinalOnTime` | src/tokenRequest.ts:383-392 | in every interleaving with no such move, a decided request keeps its status and its token |
| `LateApprovals.ClaimedAtMostOnceOnTime` | src/tokenRequest.ts:363-380 | in every interleaving with no such move, no second claim succeeds and the log names none |
| `LateApprovals.LateApprovalOverrides` | src/tokenRequest.ts:222-259 | a late approval always overrides the decision: an active root more, a denial left in the log beside the approval, or two approvals of two roots |
| `LateApprovals.LateApprovalRevivesTheSecret` | src/tokenRequest.ts:246-246 | and it always makes a claim succeed again, the second one where there was one before |
| `LateApprovals.PromptRunsKeepInvariant` | src/token.ts:127-139 | in every interleaving with neither kind of late save the whole invariant holds |
| `Handovers.StepOrderly` | src/tokenRequest.ts:168-328 | of calls that do not overlap, each decision is by someone entitled to it when it is saved, and a request's assigned approver changes only with an escalation entry for it, and then to a named one |
| `Handovers.HandOversAreOpen` | src/tokenRequest.ts:303-328 | so over every run of such calls: a request once assigned is never again left to whoever comes |
| `Handovers.OrderlyUnlessReassigned` | src/tokenRequest.ts:216-259 | with calls that overlap, the second is lost exactly when an approval saves after its request was handed over, and the first exactly when it was handed over to someone else than its approver |
| `Handovers.HandOverUndone` | src/tokenRequest.ts:246-246 | such an approval always decides the request and puts the earlier assignment back, with no entry for it |
| `Handovers.HandOversAreOpenOnTime` | src/tokenRequest.ts:303-328 | in every interleaving with no such approval, a request's assigned approver changes only with an escalation entry for it |
| `Interleavings.AllowedThoughRevoked` | src/token.ts:185-221 | enforceToken answers Allow exactly when secret, scope and lifetime allow it and the token was active when read; so for a token revoked since exactly when it would have been before |
| `Interleavings.RunInterleaved` | src/server.ts:86-117 | every run of calls that do not overlap is an interleaving, of their parts one after the other, to the same state |
| `Interleavings.MoveKeeps` | src/token.ts:127-139 | every move, however interleaved, keeps containment of scope and expiry, revocations and requests filed as the log and the keys say, and what waiting calls know of their tokens and requests |
| `Schedules.LateChildEscapes` | src/token.ts:127-139 | whenever the store answers, every admissible delegation whose parent is revoked during the hash leaves a child active and allowed under a revoked parent |
| `Schedules.RevocationMissesGrandchild` | src/token.ts:295-315 | and a later revocation of any token further up, with no call waiting any more, leaves that child active and allowed |
| `Schedules.OverlappingApprovalsIssueTwice` | src/tokenRequest.ts:216-246 | whenever the store answers, of two overlapping approvals of one request, by whomever and under whichever policies, the second is late and leaves two active roots, the request naming the second |
| `Schedules.DenialOvertakes` | src/tokenRequest.ts:281-284 | an approval that a denial overtakes is late |
| `Schedules.ClaimOvertakes` | src/tokenRequest.ts:363-380 | so is a second approval that a claim of the first one's secret overtakes |
| `Schedules.EscalationOvertakes` | src/server.ts:505-527 | whenever the store answers, an approval during whose wait its request is handed to another goes through, undoes the hand-over and is by someone no longer entitled |
| `Schedules.TightenedPolicyDoesNotBind` | src/policy.ts:122-146 | whenever the store answers, an approval during whose wait its policy is narrowed saves a token outside the policy |
| `Schedules.DenialIsOverridden` | src/tokenRequest.ts:216-246 | from an empty start, a request comes to be denied and then approved |
| `Schedules.TwoClaimsSucceed` | src/tokenRequest.ts:363-380 | from an empty start, two claims of one request come to succeed |
| `Schedules.ChildOutlivesParent` | src/token.ts:127-139 | from an empty start, a child comes to be active and allowed under a revoked parent |
| `Schedules.GrandchildOutlivesRoot` | src/token.ts:295-315 | from an empty start, a token comes to be revoked with no call waiting while one that descends from it stays active and allowed |
| `Schedules.EscalationIsUndone` | src/server.ts:505-527 | from an empty start, a request comes to be handed to a backup and then decided by someone else |
| `Schedules.RevokedTokenIsAllowed` | src/token.ts:185-221 | from an empty start, a check comes to answer Allow for a token by then revoked |
| `Segments.DelegateInParts` | src/delegation.ts:36-102 | with nothing in between, the three parts of a delegation are delegateToken |
| `Segments.ApproveInParts` | src/tokenRequest.ts:206-261 | with nothing in between, the two parts of an approval are approveRequest |
| `Segments.IssueInHalves` | src/token.ts:80-141 | with nothing in between, the halves before and after the hash are issueToken |
| `Segments.EnforceInParts` | src/token.ts:175-222 | with nothing in between, the two parts of a check are enforceToken |
| `AuditLogs.VerifyAuditChain` | src/auditLog.ts:96-106 | accepts exactly the valid chains; on rejection names the first entry whose link fails, the prefix before it being valid |
| `AuditLogs.HeadDeterminesChain` | src/auditLog.ts:82-106 | with a collision-free digest, two accepted chains with the same last hash are equal entry for entry |
| `AuditLogs.TamperingRejected` | src/auditLog.ts:96-106 | any edit, deletion, insertion or reordering that keeps the head is rejected, with a first broken entry |
| `AuditLogs.BreakExists` | src/auditLog.ts:96-106 | a chain is either valid or has exactly a first break |
| `AuditLogs.RotationRefinesFlatLog` | src/auditLog.ts:204-257 | after any mix of record and restart, whatever was on disk at first, archives in index order followed by the active file are the one flat sequence of everything recorded, and the chain verifies iff it did at first |
| `AuditLogs.BreakPersists` | src/auditLog.ts:204-257 | a log found broken stays broken at the same entry through every later record and restart |
| `AuditLogs.SegmentsStayBounded` | src/auditLog.ts:190-230 | archives are numbered from 1 without a gap, every one holds exactly the maximum of lines and the active file never more |
| `AuditLogs.RejectedIffUnreasoned` | src/auditLog.ts:232-241 | record() rejects exactly a denied, request_denied or request_decision_rejected entry whose reason is missing or blank |
| `Core.SpaceIsListed` | src/auditLog.ts:237-237 | blank is told by the white space and line terminators of ECMA-262, one by one |
| `AuditLogs.RefusalsAreReasoned` | src/auditLog.ts:232-241 | so over any use the log holds no refusal without a reason |
| `AuditLogs.RunFromEmptyDirectory` | src/auditLog.ts:204-257 | both together, from an empty directory |
| `AuditLogs.RotationKeepsOrder` | src/auditLog.ts:153-172 | moving the active file to the next index leaves what is on disk, read in order, unchanged |
| `AuditLogs.ScanArchivedSegments` | src/auditLog.ts:153-164 | returns the archive indices, each once, ascending |
| `AuditLogs.RecordingInStep` | src/auditLog.ts:232-257 | recording keeps memory, files and chain in step |
| `AuditLogs.RecordingTracks` | src/auditLog.ts:232-257 | recording appends one and the same entry in memory and on disk, to a log that verifies or not, and keeps segments bounded |
| `AuditLogs.OpenedInStep` | src/auditLog.ts:204-214 | reopening the files rebuilds the log that wrote them, verifying or not |
| `AuditLogs.DamagedTailStillVerifies` | src/auditLog.ts:204-214 | with the last line damaged the reopened log is the log without its last entry, and still verifies |
| `AuditLogs.AuditLog.constructor` | src/auditLog.ts:204-214 | the log rebuilt from archives and active file, tampered with or not |
| `AuditLogs.AuditLog.RotateIfNeeded` | src/auditLog.ts:221-230 | rotates exactly when the segment is full, to the index after the highest |
| `AuditLogs.AuditLog.Record` | src/auditLog.ts:232-257 | refuses a denial with no reason; otherwise appends one chained entry, keeps the log in step with its files, and neither mends nor breaks the chain |
| `AuditLogs.AuditLog.Verify` | src/auditLog.ts:96-106 | of any log, tampered with or not: valid iff the chain is, and otherwise the first entry whose link fails |
| `JsonlStore.RehydrateJsonLines` | src/jsonlStore.ts:28-44 | returns the values of the good lines, in order, skipping damaged ones |
| `JsonlStore.ReplayLastWriteWins` | src/tokenStore.ts:35-50 | replay binds a key to the last value saved under it |
| `JsonlStore.ReplayFirstWriteOrders` | src/tokenStore.ts:35-50 | replay lists keys in the order of their first save |
| `JsonlStore.ReplayBindsSavedKeys` | src/tokenStore.ts:35-50 | replay holds exactly the keys ever saved |
| `JsonlStore.RestartRebuilds` | src/requestStore.ts:26-47 | replaying the file after any saves rebuilds map and order, each value as persisted |
| `JsonlStore.DamagedTailLosesOneSave` | src/jsonlStore.ts:28-44 | with the last line damaged replay gives the state just before the last save |
| `CircuitBreakers.AttemptOutcome` | src/circuitBreaker.ts:75-126 | while open an attempt is let through iff the cooldown is over, and is then a probe that closes and settles the breaker or opens it anew from now; while closed a failure opens it iff it fills the threshold; an attempt fails iff it is let through and throws or an outage is set |
| `CircuitBreakers.ThresholdOpens` | src/circuitBreaker.ts:106-120 | of failures in a row the one that fills the threshold opens the breaker, and none before it |
| `CircuitBreakers.Recovers` | src/circuitBreaker.ts:75-104 | a dependency that works again is back from the end of the cooldown: that attempt and every later one succeed |
| `CircuitBreakers.RejectsUntilThen` | src/circuitBreaker.ts:75-83 | until then every attempt is rejected, and none puts the end off |
| `CircuitBreakers.FailingAttemptsBounded` | src/circuitBreaker.ts:75-126 | while every attempt let through fails, at most threshold + floor(T / cooldown) are let through in a span T, outages set and lifted at will |
| `CircuitBreakers.RestingBetweenCalls` | src/circuitBreaker.ts:75-120 | between calls the breaker is never half-open, and closed means fewer failures than the threshold |
| `CircuitBreakers.SuccessSettles` | src/circuitBreaker.ts:99-104 | after a success the next attempt that does not itself throw succeeds and leaves the breaker alone, whatever the clock says, as long as no outage is set |
| `CircuitBreakers.CircuitBreaker.Execute` | src/circuitBreaker.ts:75-97 | the outcome and the breaker that `CircuitBreakers.AttemptOutcome` fixes, and one entry for each opening and closing |
| `CircuitBreakers.CircuitBreaker.HandleSuccess` | src/circuitBreaker.ts:99-104 | clears the count and closes after a probe |
| `CircuitBreakers.CircuitBreaker.HandleFailure` | src/circuitBreaker.ts:106-120 | counts, reopens after a failed probe, opens at the threshold |
| `CircuitBreakers.CircuitBreaker.SimulateOutage` | src/circuitBreaker.ts:66-68 | sets the injected fault and nothing else |
| `StoreObjects.TokenStore.constructor` | src/tokenStore.ts:35-43 | starts from the replay of its file |
| `StoreObjects.TokenStore.Save` | src/tokenStore.ts:45-50 | through the breaker, map and file change together or not at all, and the file still rebuilds the map |
| `StoreObjects.TokenStore.Get` | src/tokenStore.ts:52-54 | the stored token when the breaker lets the read through |
| `StoreObjects.TokenStore.ChildrenOf` | src/tokenStore.ts:61-63 | the direct children in map order |
| `Steps.ChildrenSplit` | src/tokenStore.ts:61-63 | the children among two stretches of records are those of the first and then those of the second: order kept, none lost or repeated |
| `StoreObjects.PolicyStore.Save` | src/policy.ts:62-67 | policies stand behind the same breaker: saved to map and file together or not at all |
| `StoreObjects.PolicyStore.Get` | src/policy.ts:69-71 | the stored policy when the breaker lets the read through |
| `StoreObjects.RequestStore.Save` | src/requestStore.ts:44-47 | the map keeps the secret, the file gets the request without it, and the file still rebuilds the map, secrets apart |
| `StoreObjects.RehydratedSecretFree` | src/requestStore.ts:35-42 | a file in which no line carries a secret rebuilds a map in which no request does |
| `StoreObjects.RequestStore.FindByIdempotencyKey` | src/requestStore.ts:63-65 | the first request of that subject with that key, in map order |
| `Runs.FirstWithKeyFinds` | src/requestStore.ts:63-65 | what is found matches, and nothing before it does |
| `StoreObjects.RequestStore.Pending` | src/requestStore.ts:54-56 | exactly the pending requests, in map order |
| `StoreObjects.PendingSplit` | src/requestStore.ts:54-56 | the same of the pending ones |
| `Authorities.Authority.constructor` | src/server.ts:86-117 | one breaker and one log behind every store, all rebuilt from one data directory |
| `Authorities.Authority.IssueToken` | src/token.ts:80-141 | takes stores, breaker and log from any state to the one `Steps.IssueToken` gives, reply included; when that succeeds, and with what expiry, is `Lifecycle.IssuanceOutcome` |
| `Authorities.Authority.CheckPolicy` | src/token.ts:92-107 | the first objection of the policy named, looked up afresh, or none |
| `Authorities.Authority.CapExpiry` | src/token.ts:109-121 | the lifetime asked for, cut to the parent's end |
| `Authorities.Authority.EnforceToken` | src/token.ts:175-222 | the reply and the one new entry that `Outcomes.EnforcementOutcome` fixes; no store is touched |
| `Authorities.Authority.RevokeToken` | src/token.ts:267-293 | the same state and reply as the step whose whole effect is `Revocation.RevokeTokenEffect`, whatever the breaker does |
| `Authorities.Authority.CascadeRevoke` | src/token.ts:300-315 | the loop over a snapshot taken before any save, recursing into each child, ends, and does to the objects what `Revocation.CascadeRevokeEffect` describes |
| `Authorities.Authority.GetTokenLineage` | src/token.ts:345-370 | on any store on which the loop ends: refused only by the first read; unknown iff not stored; otherwise the chain from where parent links end and the first approval logged for its first record, if any; in a sound state the one parent path, bounded, with the root's own approval |
| `Theorems.ForestsEnd` | src/token.ts:350-359 | the loop ends in every forest, and so in every state a run reaches |
| `Theorems.PartOfChain` | src/token.ts:350-359 | what the loop has gathered is always the lower end of the one chain to the token |
| `Theorems.OriginEntryFinds` | src/token.ts:363-364 | what is found approves the token, and nothing before it does |
| `Authorities.Authority.WalkUp` | src/token.ts:350-359 | the loop over parents, dangling links included, ends whenever parent links do, in the chain from where they end, with every read let through |
| `Authorities.Authority.DelegateToken` | src/delegation.ts:36-102 | the guards in their order, possession first, each with its own reason and entry, as `Outcomes.DelegationOutcome` fixes them |
| `Authorities.Authority.RequestToken` | src/tokenRequest.ts:111-160 | files, logs and screens a submission, or finds the earlier one; which of the two is `Lifecycle.SubmissionOutcome` |
| `Authorities.Authority.AssertEligibleDecider` | src/tokenRequest.ts:168-190 | passes exactly the assigned approver, and otherwise records the rejection |
| `Authorities.Authority.ApproveRequest` | src/tokenRequest.ts:206-261 | guards, issuance, save and entry in order, a failure recorded under its own reason; when it goes through is `Lifecycle.ApprovalOutcome` |
| `Authorities.Authority.DenyRequest` | src/tokenRequest.ts:269-293 | a denial recorded with its reason and its author, or the refusal that `Lifecycle.OnlyTheAssignedDecide` describes |
| `Authorities.Authority.CheckRequestTimeout` | src/tokenRequest.ts:303-328 | no change, as always with no backup configured, or the hand-over of `Lifecycle.EscalationHandsOver` |
| `Authorities.Authority.ClaimTokenSecret` | src/tokenRequest.ts:338-381 | the secret once, and never again: `Theorems.ClaimedAtMostOnce` is about this state and reply |
| `Authorities.Authority.CreatePolicy` | src/policy.ts:96-116 | the policy on file and in the reply that `Outcomes.PolicyCreation` fixes, and nothing logged that was not saved |
| `Authorities.Authority.ModifyPolicy` | src/policy.ts:122-146 | changes are merged and validated as a whole before they are saved, as `Outcomes.PolicyModification` fixes them, and issuance from then on is held to them |
| `Authorities.Authority.Serve` | src/server.ts:86-117 | any sequence of calls takes the objects through the very run those calls make on values and keeps the invariant, so every theorem about runs holds of the objects |
| `Authorities.Authority.ServeOnRequests` | src/tokenRequest.ts:111-381 | each call on requests is one step of a run |
| `Authorities.Authority.ServeOther` | src/server.ts:86-117 | so is each other call |
| `Authorities.Restarted` | src/server.ts:86-117 | a process started on the files of another stands in the state `Steps.Restart` gives, with the same audit chain; secrets put into the request file from outside are the one thing that could come back besides |
| `Base32.Encode` | src/totp.ts:15-34 | yields the encoding of section 6 of RFC 4648, though the accumulator wraps at 32 bits |
| `Base32.Decode` | src/totp.ts:36-54 | yields the whole bytes of the input's bit string after upper-casing and stripping padding and space, or rejects a foreign character |
| `Base32.DecodingUndoesEncoding` | src/totp.ts:15-54 | whatever decodes an encoding of bytes gives those bytes, for every byte sequence |
| `Base32.RoundTrip` | src/totp.ts:15-54 | decode after encode is the identity |
| `Base32.EncodingIsUnique` | src/totp.ts:15-34 | bytes have one encoding |
| `Base32.EncodingShape` | src/totp.ts:28-33 | alphabet characters, then padding, eight to every five bytes begun |
| `Base32.SymbolInAlphabet` | src/totp.ts:11-11 | the symbols are those of the source's alphabet, in its order |
| `Base32.IndexInAlphabet` | src/totp.ts:43-46 | a character's index is its place in that alphabet, and -1 exactly outside it |
| `Base32.DecodingOverlooks` | src/totp.ts:36-37 | case, white space inside the text and padding after it make no difference to what is decoded |
| `Base32.CaseOverlooked` | src/totp.ts:37-37 | texts that differ in the case of letters alone decode alike |
| `Base32.SpaceAfterPaddingRejects` | src/totp.ts:36-46 | white space after padding does: such text is rejected |
| `Base32.ShiftInAppends` | src/totp.ts:20-20 | shifting bits in extends the bits held for as long as they fit in 32, whatever falls off the top |
| `Totp.TotpVerifier.Verify` | src/totp.ts:137-155 | object and search agree, so that what follows holds of the verifier itself |
| `Totp.AcceptsLeastUnspentMatch` | src/totp.ts:137-155 | accepts iff some unspent step in the drift window matches, and records the least such, per section 5.2 of RFC 6238 |
| `Totp.GivesUpOutsideTheCounter` | src/totp.ts:67-69 | the counter's range error is raised iff the search comes, before a match, to an unspent step below 0 or above 4294967295 |
| `Totp.AcceptedStepsIncrease` | src/totp.ts:137-155 | accepted steps strictly increase over any run, whatever the clock does |
| `Totp.AcceptancesBounded` | src/totp.ts:137-155 | a clock within steps a..b yields at most b - a + 1 + 2 drift acceptances |
| `RateLimiters.RateLimiter.Check` | src/rateLimiter.ts:43-59 | one key's window changes, and by one check's worth; the bounds below are about these windows |
| `RateLimiters.LessThanTwiceTheLimit` | src/rateLimiter.ts:43-59 | every half-open interval as long as the window has at most 2m - 1 allowed checks of a key |
| `RateLimiters.FreshLimiterBound` | src/rateLimiter.ts:43-59 | so it is of a limiter from its start, for every sequence of checks |
| `RateLimiters.BoundIsReached` | src/rateLimiter.ts:43-59 | and that many can occur |
| `RateLimiters.VerdictIsExact` | src/rateLimiter.ts:43-59 | a check is refused exactly inside a window that is full, which it leaves as it was; any other is counted and told to wait for nothing |
| `RateLimiters.RetryAfterIsExact` | src/rateLimiter.ts:56-58 | a refusal's delay is in (0, windowMs] and is exactly the earliest at which the key is allowed again |
| `RateLimiters.KeysAreIndependent` | src/rateLimiter.ts:43-59 | a key's verdicts depend on its own checks alone |
| `AnomalyDetectors.AnomalyDetector.Check` | src/anomalyDetector.ts:48-65 | the loop that prunes keeps exactly what is in the window, and the signals follow from it |
| `AnomalyDetectors.StoredListIsHistory` | src/anomalyDetector.ts:53-58 | with a clock that does not go back for the subject, the pruned list is the full history filtered to the window |
| `AnomalyDetectors.VelocitySignalIsExact` | src/anomalyDetector.ts:60-62 | high_velocity is signalled iff the true number of that subject's checks in the window exceeds the limit, whatever other subjects do |
| `Histories.ScreeningCounts` | src/tokenRequest.ts:148-158 | a submission is reported as high_velocity iff it and the subject's submissions on file from within the window outnumber the limit, and as scope_too_broad iff its scope is longer than allowed; one entry says which |
| `Histories.RunIsScreened` | src/tokenRequest.ts:148-158 | over every run without a restart the detector has seen the submissions filed, once each, and nothing else |
| `Histories.NoRefusalWithoutOutage` | src/circuitBreaker.ts:62-104 | in a run from an empty start, or from a state in which the store has just answered, every store call is answered until an outage is set |

## Left out

- Atomic steps: in `Steps.dfy` and in `Theorems.dfy` each call is one step with one reading of the process clock; `Interleaving.dfy` cuts the calls that wait, and one part is then one step.
- Theorems.DecisionsAreFinal: holds of calls that do not overlap; `LateApprovals.OrderLostOnlyByLateApproval` is the exact condition when they do.
- Theorems.ClaimedAtMostOnce: holds of calls that do not overlap; the same condition applies.
- Theorems.RevocationIsPermanent: holds of calls that do not overlap; when they do, `Revocation.RevocationReachesAll` and `LateSaves.SubtreeLostOnlyByLateSave` together are the exact condition, and `Interleavings.AllowedThoughRevoked` is that of a check begun before.
- Theorems.PolicyBindsDescendants: holds of calls that do not overlap; when they do, the policy that binds is the one the approval started under.
- Lifecycle.OnlyTheAssignedDecide: holds of calls that do not overlap; `Handovers.OrderlyUnlessReassigned` is the exact condition when they do.
- Lifecycle.EscalationHandsOver: holds of calls made after it; for an approval that waits the same condition applies.
- Lifecycle.IssuanceOutcome: that only the first store call can be refused holds of a call that is not interrupted, as it does in `Outcomes.DelegationOutcome`.
- Steps.IssueToken: fractional and non-finite lifetimes and dates outside the JavaScript range are not modelled; a lifetime is an integer of seconds.
- Authorities.Authority.GetTokenLineage: asks that parent links up from the token come to an end, without which the loop of the source would not; the reply keeps the whole origin entry, of which the code returns three fields.
- Authorities.Authority.RevokeToken: asks for a store in which a child's scope is strictly inside its parent's, as every interleaving keeps it; other stores are not covered.
- AuditLogs.DamagedTailStillVerifies: appending after a last line that was cut short, so that two entries share a line, is not modelled.
- JsonlStore.RehydrateJsonLines: a file is a sequence of good and damaged lines; JSON text, ISO dates and blank lines are not modelled, nor disk faults, nor a crash between two appends of one call.
- AuditLogs.ScanArchivedSegments: the directory listing and the pattern of archive names are reduced to the set of indices.
- AuditLogs.AuditLog.Record: the fields message, outcome, redactedFields and the like carry no logic and are left out of an entry; an entry's id is arbitrary.
- Domain.IssueErrorText: only the constant part of an issuance error's message is kept as the reason recorded, and an outage and an open breaker, whose messages differ, share one.
- CircuitBreakers.CircuitBreaker.Execute: the state-change callback is the server's, which records to the audit log; a store with no breaker, another callback, and a policy lookup with no policy store are left out.
- Base32.Decode: upper-casing is that of ASCII; the few non-ASCII letters whose upper case is ASCII are taken as foreign.
- Totp.TotpVerifier.Verify: the code for a step is an arbitrary function, so HMAC, dynamic truncation and otpauth URIs are not modelled; a counter outside 32 bits gives the range error of the buffer write.
- Authorities.Authority.Record: the log is called only with entries that carry the reason they need, so its error for a missing one is a contract here and a reply in `AuditLogs.AuditLog.Record`.
- scrypt, SHA-256, random bytes and UUIDs: symbolic or arguments.
- HTTP routes, headers, environment parsing, the console pages, the SDK and its retry loop, mock endpoints: input, output and timers.
- Redaction, customer data, session tokens, agent identities, the operator directory and constant-time comparison: single-branch checks that would add only easy members.
