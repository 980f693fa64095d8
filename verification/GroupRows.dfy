/** What each operation leaves in the group rows: who opens a group and in what status it is closed,
    and which rows a commit, a failed execution and a revocation change. */
module GroupRows {
  import opened Outcomes
  import opened Policy
  import opened Permits
  import opened Store
  import opened PermitHandlers
  import opened GovernanceHandlers
  import opened AgentHandlers
  import opened System
  import Intents
  import Normalizer
  import StrKey

  // ----- Opening -----

  /** One row more: a require-all group of the asker for an hour, with the requested and the approved
      amount, in the status given when the request is approved and DENIED otherwise. */
  predicate OneGroupMore(s: Db, s': Db, auth: AgentAuth, requested: real, verdict: PolicyResult, granted: GroupStatus) {
    s'.groups == s.groups + [PermitGroup(auth.agent, auth.treasury, true, requested, verdict.amount,
                                         if verdict.approved then granted else GroupDenied, s.now + 3_600_000_000)]
  }

  lemma SingleOpensAGroup(q: real -> real, s: Db, auth: AgentAuth, request: PermitRequest, granted: GroupStatus)
    ensures var r := IssueSingle(q, s, auth, request, granted);
            && (r.result.Err? ==> r.db == s)
            && (r.result.Ok? ==> OneGroupMore(s, r.db, auth, request.amount, r.result.value.0, granted))
  {
    hide RuleFor, Verdict, CaseFor;
    var d := OpenGroup(s, auth, true, request.amount);
    if ProcessSinglePermit(q, d, request, |s.groups|).Ok? {
      var done := ProcessSinglePermit(q, d, request, |s.groups|).value;
      assert done.db.groups == s.groups + [d.groups[|s.groups|]];
    }
  }

  /** A permit request opens an ACTIVE group, an intent an EXECUTING one, unless it is denied. */
  lemma RequestOpensAGroup(q: real -> real, s: Db, auth: AgentAuth, signed: Result<()>, request: PermitRequest)
    ensures var r := RequestPermit(q, s, auth, signed, request);
            r.result.Ok? ==> OneGroupMore(s, r.db, auth, request.amount, r.result.value.0, GroupActive)
  {
    hide IssueSingle;
    SingleOpensAGroup(q, s, auth, request, GroupActive);
  }

  lemma IntentOpensAGroup(q: real -> real, s: Db, pubkey: string, signed: Result<()>, intent: Normalizer.Document,
                          amount: Option<real>)
    ensures var r := SubmitIntent(q, s, pubkey, signed, intent, amount);
            var asked := IntentRequest(s, pubkey, signed, intent, amount);
            && (r.result.Ok? ==> asked.Ok? && OneGroupMore(s, r.db, AgentAuth(asked.value.agent, asked.value.treasury),
                                                           asked.value.amount, r.result.value.0, GroupExecuting))
  {
    hide IssueSingle, IntentRequest;
    var asked := IntentRequest(s, pubkey, signed, intent, amount);
    if asked.Ok? {
      SingleOpensAGroup(q, s, AgentAuth(asked.value.agent, asked.value.treasury), asked.value, GroupExecuting);
    }
  }

  /** A group request that is not rolled back opens one ACTIVE group of the asker, even when every leg
      is denied; its totals are those of its legs. */
  lemma GroupRequestOpensAGroup(q: real -> real, s: Db, auth: AgentAuth, signed: Result<()>, group: AgentAuth,
                                legs: seq<PermitRequest>, requireAll: bool)
    ensures var r := RequestPermitGroup(q, s, auth, signed, group, legs, requireAll);
            r.db == s || (|r.db.groups| == |s.groups| + 1 && s.groups <= r.db.groups
                          && var g := r.db.groups[|s.groups|];
                             && AgentAuth(g.agent, g.treasury) == auth && g.requireAll == requireAll
                             && g.status == GroupActive && g.expiresAt == s.now + 3_600_000_000)
  {
    hide ProcessLegs, SortLegs, TotalApproved, RefusedTogether;
  }

  // ----- Closing -----

  /** Only the group of the permit changes, to the status given. */
  predicate OnlyItsGroup(s: Db, s': Db, permit: nat, status: GroupStatus)
    requires permit < |s.permits|
  {
    && |s'.groups| == |s.groups|
    && forall g | 0 <= g < |s.groups| ::
         s'.groups[g] == if g == s.permits[permit].group then s.groups[g].(status := status) else s.groups[g]
  }

  /** A commit marks the permit's group CONSUMED, a failed execution FAILED, whatever they were. */
  lemma ExecutionClosesTheGroup(s: Db, permit: nat)
    requires permit < |s.permits|
    ensures OnlyItsGroup(s, IntentExecuted(s, permit), permit, GroupConsumed)
    ensures OnlyItsGroup(s, IntentFailed(s, permit), permit, GroupFailed)
  {}

  /** A revocation marks REVOKED exactly the PENDING and ACTIVE groups of the agent in the treasury. */
  lemma RevocationClosesTheGroups(s: Db, treasury: nat, agent: nat, scrubbed: Option<string>)
    ensures var r := RevokeAgent(s, treasury, agent, scrubbed);
            && |r.db.groups| == |s.groups|
            && forall g | 0 <= g < |s.groups| ::
                 r.db.groups[g] ==
                 if r.result.Ok? && s.groups[g].agent == agent && s.groups[g].treasury == treasury
                    && (s.groups[g].status == GroupPending || s.groups[g].status == GroupActive)
                 then s.groups[g].(status := GroupRevoked) else s.groups[g]
  {
    hide RemoveAgentRules;
    if treasury < |s.treasuries| {
      var settled := s.(permits := Settle(s.permits, OfSlot(treasury, agent), Permits.Revoked),
                        groups := RevokeGroups(s.groups, treasury, agent));
      RemovalKeepsTheRest(settled, treasury, agent, scrubbed);
    }
  }

  // ----- Every step -----

  /** A group keeps its agent and treasury, and its status or closes. */
  predicate GroupMoves(g: PermitGroup, g': PermitGroup) {
    && g'.agent == g.agent && g'.treasury == g.treasury && g'.requireAll == g.requireAll
    && g'.expiresAt == g.expiresAt
    && (g'.status == g.status || g'.status in {GroupConsumed, GroupFailed, GroupRevoked})
  }

  /** Groups only close, and a new one is opened only by an agent that is not barred. */
  predicate GroupsMove(s: Db, s': Db) {
    && |s.groups| <= |s'.groups|
    && (forall g | 0 <= g < |s.groups| :: GroupMoves(s.groups[g], s'.groups[g]))
    && (forall g | |s.groups| <= g < |s'.groups| ::
          s'.groups[g].agent < |s.agents| && !Barred(s.agents[s'.groups[g].agent].status))
  }

  lemma AskersAreNotBarred(q: real -> real, s: Db, op: PermitOp)
    requires Asks(op)
    ensures GroupsMove(s, PermitNext(q, s, op))
  {
    hide RequestPermit, RequestPermitGroup, SubmitIntent, IntentRequest;
    match op
    case AskPermit(auth, signed, request) =>
      RequestOpensAGroup(q, s, auth, signed, request);
      AskingNeedsASession(q, s, auth, signed, request, auth, [], false);
    case AskGroup(auth, signed, onBehalf, legs, all) =>
      GroupRequestOpensAGroup(q, s, auth, signed, onBehalf, legs, all);
      AskingNeedsASession(q, s, auth, signed, PermitRequest(0, 0, "", "", 0.0), onBehalf, legs, all);
    case AskIntent(pubkey, signed, intent, amount) =>
      IntentOpensAGroup(q, s, pubkey, signed, intent, amount);
      IntentsNeedAnOpenSlot(q, s, pubkey, signed, intent, amount);
  }

  lemma AskingNeedsASession(q: real -> real, s: Db, auth: AgentAuth, signed: Result<()>, request: PermitRequest,
                            group: AgentAuth, legs: seq<PermitRequest>, all: bool)
    ensures Authenticate(s, auth).Ok? ==> auth.agent < |s.agents| && !Barred(s.agents[auth.agent].status)
    ensures Authenticate(s, auth).Err? ==>
              && RequestPermit(q, s, auth, signed, request).db == s
              && RequestPermit(q, s, auth, signed, request).result.Err?
              && RequestPermitGroup(q, s, auth, signed, group, legs, all).db == s
    ensures RequestPermit(q, s, auth, signed, request).result.Err? ==>
              RequestPermit(q, s, auth, signed, request).db == s
  {
    hide ProcessLegs, SortLegs, IssueSingle;
    SingleOpensAGroup(q, s, auth, request, GroupActive);
  }

  lemma IntentsNeedAnOpenSlot(q: real -> real, s: Db, pubkey: string, signed: Result<()>,
                              intent: Normalizer.Document, amount: Option<real>)
    ensures var asked := IntentRequest(s, pubkey, signed, intent, amount);
            && (asked.Ok? ==> asked.value.agent < |s.agents| && !Barred(s.agents[asked.value.agent].status))
            && (SubmitIntent(q, s, pubkey, signed, intent, amount).result.Err? ==>
                  SubmitIntent(q, s, pubkey, signed, intent, amount).db == s)
  {
    hide IssueSingle, Intents.ParseAndResolve, NewestRules, StrKey.ValidPublicKey;
    var asked := IntentRequest(s, pubkey, signed, intent, amount);
    if asked.Ok? {
      SingleOpensAGroup(q, s, AgentAuth(asked.value.agent, asked.value.treasury), asked.value, GroupExecuting);
    }
  }

  lemma OtherPermitOpsMoveGroups(q: real -> real, s: Db, op: PermitOp)
    requires !Asks(op)
    ensures GroupsMove(s, PermitNext(q, s, op))
  {
    hide ReportOutcome, Settle;
    if op.Outcome? {
      OutcomeKeepsGroups(s, op.auth, op.signed, op.permit, op.pnl);
    }
  }

  lemma OutcomeKeepsGroups(s: Db, auth: AgentAuth, signed: Result<()>, permit: nat, pnl: real)
    ensures ReportOutcome(s, auth, signed, permit, pnl).db.groups == s.groups
  {
    hide ContentAt, DrawdownReached, RulesInForce, Authenticate, Settle;
  }

  lemma AgentStepsMoveGroups(s: Db, op: AgentOp)
    ensures GroupsMove(s, AgentNext(s, op))
  {
    hide RevokeAgent, EnrollPubkey, CompleteConnect, CompleteMcpConnect, RefreshMcpLiveness, Heartbeat,
      StrKey.ValidPublicKey;
    if op.Revoke? {
      RevocationClosesTheGroups(s, op.treasury, op.agent, op.scrubbed);
    } else if op.Enrol? || op.Connect? || op.ConnectMcp? || op.RefreshMcp? || op.Beat? {
      ConnectingTouchesOneSlot(s, op);
    }
  }

  /** Over every step a group keeps who it belongs to and its status, or closes; the groups that are
      opened belong to agents that are not barred. */
  lemma StepMovesGroups(q: real -> real, s: Db, step: Step)
    ensures GroupsMove(s, Next(q, s, step))
  {
    hide PermitNext, GovernanceNext, AgentNext;
    match step
    case Tick(_) =>
    case OnPermits(op) => if Asks(op) { AskersAreNotBarred(q, s, op); } else { OtherPermitOpsMoveGroups(q, s, op); }
    case OnGovernance(op) => GovernanceKeepsTheRest(s, op);
    case OnAgents(op) => AgentStepsMoveGroups(s, op);
  }
}
