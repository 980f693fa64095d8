/** Suspending and revoking.  A barred slot with no enrolment outstanding is shut: it stays so over
    every run, whatever anyone does, and gets no permit.  So suspension is final unless an enrolment
    was begun before it, and revocation, which drops the enrolment and the key, is final. */
module Revocation {
  import opened Outcomes
  import opened Policy
  import opened Constitution
  import opened Permits
  import opened Store
  import opened GovernanceHandlers
  import opened AgentHandlers
  import opened System
  import opened ConstitutionLog
  import opened Lifecycle
  import opened GroupRows

  /** Barred, and nothing under way that could change it. */
  predicate Shut(s: Db, a: nat) {
    a < |s.agents| && Barred(s.agents[a].status) && a !in s.enrolments
  }

  /** Shut without a key. */
  predicate Dismissed(s: Db, a: nat) {
    Shut(s, a) && s.agents[a].pubkey.None?
  }

  predicate HoldsNothing(ps: seq<Permit>, a: nat) {
    forall i | 0 <= i < |ps| && ps[i].agent == a :: ps[i].status != Active
  }

  /** No group of the agent in its treasury is open. */
  predicate HoldsNoGroup(s: Db, a: nat)
    requires a < |s.agents|
  {
    forall g | 0 <= g < |s.groups| && s.groups[g].agent == a && s.groups[g].treasury == s.agents[a].treasury ::
      s.groups[g].status != GroupPending && s.groups[g].status != GroupActive
  }

  predicate Gone(s: Db, a: nat) { Dismissed(s, a) && HoldsNothing(s.permits, a) && HoldsNoGroup(s, a) }

  // ----- Shut slots stay shut -----

  /** The slot stays shut and keeps its key or loses it. */
  predicate StaysShut(s: Db, s': Db, a: nat)
    requires Shut(s, a)
  {
    Shut(s', a) && (s'.agents[a].pubkey == s.agents[a].pubkey || s'.agents[a].pubkey.None?)
  }

  lemma BarredStaysBarred(s: Db, slot: AgentSlot, a: nat, signerOf: set<string>)
    requires Barred(slot.status)
    ensures ConnectionStatus(s, slot, a, signerOf).Ok? &&
            LiveStatus(ConnectionStatus(s, slot, a, signerOf).value) == slot.status
  {}

  lemma ConnectingKeepsShut(s: Db, op: AgentOp, a: nat)
    requires Shut(s, a)
    requires op.Enrol? || op.Connect? || op.ConnectMcp? || op.RefreshMcp? || op.Beat?
    ensures StaysShut(s, AgentNext(s, op), a)
  {
    hide ConnectionStatus, McpStatus, StrKey.ValidPublicKey, RevokeAgent, KeyHeldByOther;
    if op.Connect? {
      BarredStaysBarred(s, s.agents[a], a, op.signerOf);
    }
  }

  lemma RevokingKeepsShut(s: Db, treasury: nat, agent: nat, scrubbed: Option<string>, a: nat)
    requires Shut(s, a)
    ensures StaysShut(s, RevokeAgent(s, treasury, agent, scrubbed).db, a)
  {
    hide RemoveAgentRules;
    if treasury < |s.treasuries| {
      var settled := s.(permits := Settle(s.permits, OfSlot(treasury, agent), Revoked),
                        groups := RevokeGroups(s.groups, treasury, agent));
      RemovalKeepsTheRest(settled, treasury, agent, scrubbed);
    }
  }

  lemma AgentStepsKeepShut(s: Db, op: AgentOp, a: nat)
    requires Shut(s, a)
    ensures StaysShut(s, AgentNext(s, op), a)
  {
    hide RevokeAgent, EnrollPubkey, CompleteConnect, CompleteMcpConnect, RefreshMcpLiveness, Heartbeat,
      StrKey.ValidPublicKey, AgentByPubkey;
    if op.Revoke? {
      RevokingKeepsShut(s, op.treasury, op.agent, op.scrubbed, a);
    } else if op.Enrol? || op.Connect? || op.ConnectMcp? || op.RefreshMcp? || op.Beat? {
      ConnectingKeepsShut(s, op, a);
    }
  }

  lemma StepKeepsShut(q: real -> real, s: Db, step: Step, a: nat)
    requires Shut(s, a)
    ensures StaysShut(s, Next(q, s, step), a)
  {
    hide PermitNext, GovernanceNext, AgentNext;
    match step
    case Tick(_) =>
    case OnPermits(op) => PermitOpsKeepTheRest(q, s, op);
    case OnGovernance(op) => GovernanceKeepsTheRest(s, op);
    case OnAgents(op) => AgentStepsKeepShut(s, op, a);
  }

  /** Suspension is final when no enrolment is outstanding: over any run the slot stays barred, no
      enrolment is begun for it, and it keeps its key or loses it. */
  lemma {:induction false} ShutForGood(q: real -> real, s: Db, steps: seq<Step>, a: nat)
    requires Shut(s, a)
    ensures StaysShut(s, Run(q, s, steps), a)
  {
    hide Next;
    if steps != [] {
      ShutForGood(q, s, steps[..|steps| - 1], a);
      StepKeepsShut(q, Run(q, s, steps[..|steps| - 1]), steps[|steps| - 1], a);
    }
  }

  /** In particular suspending a slot without an outstanding enrolment bars it for good. */
  lemma {:induction false} SuspensionIsFinal(q: real -> real, s: Db, treasury: nat, a: nat, after: seq<Step>)
    requires a < |s.agents| && s.agents[a].treasury == treasury && a !in s.enrolments
    ensures SuspendAgent(s, treasury, a).result.Ok?
    ensures Shut(Run(q, SuspendAgent(s, treasury, a).db, after), a)
  {
    hide Next;
    ShutForGood(q, SuspendAgent(s, treasury, a).db, after, a);
  }

  // ----- What lifts a suspension -----

  /** The step answers an outstanding enrolment of the slot, in time, with its nonce, wallet and key. */
  predicate AnswersEnrolment(s: Db, step: Step, a: nat) {
    && step.OnAgents? && step.agentOp.Enrol? && step.agentOp.agent == a && a in s.enrolments
    && var (op, c) := (step.agentOp, s.enrolments[a]);
       && op.nonce == c.nonce && op.wallet == c.wallet && op.pubkey == c.pubkey
       && Seconds(s.now) < c.expiresAt && op.signed.Ok?
       && !KeyHeldByOther(s.agents, op.pubkey, a)
  }

  lemma EnrollingUnbars(s: Db, a: nat, wallet: string, pubkey: string, nonce: nat, signed: Result<()>,
                        signerOf: set<string>)
    requires a < |s.agents| && Barred(s.agents[a].status)
    ensures var s' := EnrollPubkey(s, a, wallet, pubkey, nonce, signed, signerOf).db;
            && |s'.agents| == |s.agents|
            && (!Barred(s'.agents[a].status) <==>
                AnswersEnrolment(s, OnAgents(Enrol(a, wallet, pubkey, nonce, signed, signerOf)), a))
  {
    hide NewestRules, SignsEverywhere, RulesForAgent, KeyHeldByOther;
  }

  lemma OtherConnectingKeepsBarred(s: Db, op: AgentOp, a: nat)
    requires a < |s.agents| && Barred(s.agents[a].status)
    requires (op.Enrol? && op.agent != a) || op.Connect? || op.ConnectMcp? || op.RefreshMcp? || op.Beat?
    ensures a < |AgentNext(s, op).agents| && Barred(AgentNext(s, op).agents[a].status)
  {
    hide ConnectionStatus, McpStatus, StrKey.ValidPublicKey, RevokeAgent, KeyHeldByOther;
    if op.Connect? {
      BarredStaysBarred(s, s.agents[a], a, op.signerOf);
    }
  }

  lemma RevokingKeepsBarred(s: Db, treasury: nat, agent: nat, scrubbed: Option<string>, a: nat)
    requires a < |s.agents| && Barred(s.agents[a].status)
    ensures var s' := RevokeAgent(s, treasury, agent, scrubbed).db; a < |s'.agents| && Barred(s'.agents[a].status)
  {
    hide RemoveAgentRules;
    if treasury < |s.treasuries| {
      var settled := s.(permits := Settle(s.permits, OfSlot(treasury, agent), Revoked),
                        groups := RevokeGroups(s.groups, treasury, agent));
      RemovalKeepsTheRest(settled, treasury, agent, scrubbed);
    }
  }

  lemma AgentStepsUnbar(s: Db, op: AgentOp, a: nat)
    requires a < |s.agents| && Barred(s.agents[a].status)
    ensures a < |AgentNext(s, op).agents|
    ensures !Barred(AgentNext(s, op).agents[a].status) <==> AnswersEnrolment(s, OnAgents(op), a)
  {
    hide RevokeAgent, EnrollPubkey, CompleteConnect, CompleteMcpConnect, RefreshMcpLiveness, Heartbeat,
      StrKey.ValidPublicKey, AgentByPubkey, KeyHeldByOther;
    if op.Revoke? {
      RevokingKeepsBarred(s, op.treasury, op.agent, op.scrubbed, a);
    } else if op.Enrol? && op.agent == a {
      EnrollingUnbars(s, a, op.wallet, op.pubkey, op.nonce, op.signed, op.signerOf);
    } else if op.Enrol? || op.Connect? || op.ConnectMcp? || op.RefreshMcp? || op.Beat? {
      OtherConnectingKeepsBarred(s, op, a);
    }
  }

  /** A step lifts a suspension exactly when it answers an enrolment begun before it, in time: the
      answer does not look at the status again. */
  lemma {:induction false} OnlyAnEnrolmentLiftsSuspension(q: real -> real, s: Db, step: Step, a: nat)
    requires a < |s.agents| && Barred(s.agents[a].status)
    ensures a < |Next(q, s, step).agents|
    ensures !Barred(Next(q, s, step).agents[a].status) <==> AnswersEnrolment(s, step, a)
  {
    hide PermitNext, GovernanceNext, AgentNext, KeyHeldByOther;
    match step
    case Tick(_) =>
    case OnPermits(op) => PermitOpsKeepTheRest(q, s, op);
    case OnGovernance(op) => GovernanceKeepsTheRest(s, op);
    case OnAgents(op) => AgentStepsUnbar(s, op, a);
  }

  // ----- A shut slot gets no permit -----

  lemma GrantNeedsAnActiveSlot(q: real -> real, s: Db, earlier: seq<Permit>, p: Permit)
    requires Judged(q, s, earlier, p) && p.status == Active
    ensures p.agent < |s.agents| && s.agents[p.agent].status == SlotActive
  {
    hide RulesInForce;
    JudgedIsLinked(q, s, earlier, p);
    ActiveRowsPassEveryRule(q, s, earlier, p);
    assert !Violates(2, JudgedCase(s, earlier, p));
  }

  lemma StepKeepsHoldingNothing(q: real -> real, s: Db, step: Step, a: nat)
    requires Shut(s, a) && HoldsNothing(s.permits, a)
    ensures HoldsNothing(Next(q, s, step).permits, a)
  {
    hide Next, Judged;
    StepGrantsOrAdvances(q, s, step);
    var s' := Next(q, s, step);
    if Grants(q, s, s') {
      forall i | 0 <= i < |s'.permits| && s'.permits[i].agent == a ensures s'.permits[i].status != Active {
        if i < |s.permits| {
          assert s'.permits[i] == s.permits[i];
        } else if s'.permits[i].status == Active {
          GrantNeedsAnActiveSlot(q, s, s'.permits[..i], s'.permits[i]);
        }
      }
    } else {
      assert forall i | 0 <= i < |s.permits| :: Moves(s.permits[i], s'.permits[i]);
    }
  }

  lemma {:induction false} ShutHoldsNothing(q: real -> real, s: Db, steps: seq<Step>, a: nat)
    requires Shut(s, a) && HoldsNothing(s.permits, a)
    ensures HoldsNothing(Run(q, s, steps).permits, a)
  {
    hide Next, HoldsNothing;
    if steps != [] {
      ShutHoldsNothing(q, s, steps[..|steps| - 1], a);
      ShutForGood(q, s, steps[..|steps| - 1], a);
      StepKeepsHoldingNothing(q, Run(q, s, steps[..|steps| - 1]), steps[|steps| - 1], a);
    }
  }

  lemma StepKeepsHoldingNoGroup(q: real -> real, s: Db, step: Step, a: nat)
    requires Shut(s, a) && HoldsNoGroup(s, a)
    ensures a < |Next(q, s, step).agents| && HoldsNoGroup(Next(q, s, step), a)
  {
    hide Next;
    StepMovesGroups(q, s, step);
    StepKeepsRows(q, s, step);
    var s' := Next(q, s, step);
    forall g | 0 <= g < |s'.groups| && s'.groups[g].agent == a && s'.groups[g].treasury == s'.agents[a].treasury
      ensures s'.groups[g].status != GroupPending && s'.groups[g].status != GroupActive
    {
      if g < |s.groups| {
        assert GroupMoves(s.groups[g], s'.groups[g]);
      }
    }
  }

  lemma {:induction false} ShutHoldsNoGroup(q: real -> real, s: Db, steps: seq<Step>, a: nat)
    requires Shut(s, a) && HoldsNoGroup(s, a)
    ensures a < |Run(q, s, steps).agents| && HoldsNoGroup(Run(q, s, steps), a)
  {
    hide Next, HoldsNoGroup;
    if steps != [] {
      ShutHoldsNoGroup(q, s, steps[..|steps| - 1], a);
      ShutForGood(q, s, steps[..|steps| - 1], a);
      StepKeepsHoldingNoGroup(q, Run(q, s, steps[..|steps| - 1]), steps[|steps| - 1], a);
    }
  }

  /** Once gone, an agent stays gone over any run: never active, no key, no enrolment challenge,
      no active permit, no open group. */
  lemma {:induction false} GoneForGood(q: real -> real, s: Db, steps: seq<Step>, a: nat)
    requires Gone(s, a)
    ensures Gone(Run(q, s, steps), a)
  {
    hide Next, HoldsNothing, HoldsNoGroup;
    ShutForGood(q, s, steps, a);
    ShutHoldsNothing(q, s, steps, a);
    ShutHoldsNoGroup(q, s, steps, a);
  }

  // ----- Revoking makes an agent gone -----

  lemma SettlingASlotLeavesNothing(s: Db, a: nat)
    requires Linked(s) && a < |s.agents|
    ensures HoldsNothing(Settle(s.permits, OfSlot(s.agents[a].treasury, a), Revoked), a)
  {
    var ps := Settle(s.permits, OfSlot(s.agents[a].treasury, a), Revoked);
    forall i | 0 <= i < |ps| && ps[i].agent == a ensures ps[i].status != Active {
      assert s.permits[i].agent == a;
    }
  }

  /** A revocation settles exactly the active permits of the agent in the treasury, and touches no
      other slot. */
  lemma RevocationSettlesExactly(s: Db, treasury: nat, a: nat, scrubbed: Option<string>)
    ensures var r := RevokeAgent(s, treasury, a, scrubbed);
            && |r.db.permits| == |s.permits| && |r.db.agents| == |s.agents|
            && (forall i | 0 <= i < |s.permits| ::
                  r.db.permits[i] ==
                  if r.result.Ok? && s.permits[i].status == Active && s.permits[i].agent == a
                     && s.permits[i].treasury == treasury
                  then s.permits[i].(status := Revoked) else s.permits[i])
            && (forall b | 0 <= b < |s.agents| && b != a :: r.db.agents[b] == s.agents[b])
            && (forall k | k in s.connects ::
                  k in r.db.connects || (r.result.Ok? && a < |s.agents| && s.agents[a].pubkey == Some(k)))
            && (r.result.Ok? ==>
                  && r.db.agents[a] == AgentSlot(treasury, None, SlotRevoked, None)
                  && (s.agents[a].pubkey.Some? ==> s.agents[a].pubkey.value !in r.db.connects))
  {
    hide RemoveAgentRules;
    if treasury < |s.treasuries| {
      var settled := s.(permits := Settle(s.permits, OfSlot(treasury, a), Revoked),
                        groups := RevokeGroups(s.groups, treasury, a));
      RemovalKeepsTheRest(settled, treasury, a, scrubbed);
    }
  }

  lemma RevokingDismisses(s: Db, treasury: nat, a: nat, scrubbed: Option<string>)
    requires Linked(s) && RevokeAgent(s, treasury, a, scrubbed).result.Ok?
    ensures Gone(RevokeAgent(s, treasury, a, scrubbed).db, a)
  {
    hide RemoveAgentRules, Linked;
    var settled := s.(permits := Settle(s.permits, OfSlot(treasury, a), Revoked),
                      groups := RevokeGroups(s.groups, treasury, a));
    RemovalKeepsTheRest(settled, treasury, a, scrubbed);
    SettlingASlotLeavesNothing(s, a);
    RevocationClosesTheGroups(s, treasury, a, scrubbed);
  }

  /** In any reachable state revoking an existing slot through its own treasury succeeds, and in
      every state any run leads to from there the agent is gone. */
  lemma {:induction false} RevocationIsFinal(q: real -> real, now: int, before: seq<Step>, treasury: nat, a: nat,
                                             scrubbed: Option<string>,
                          after: seq<Step>)
    requires var s := Run(q, Empty(now), before); a < |s.agents| && s.agents[a].treasury == treasury
    ensures var s := Run(q, Empty(now), before);
            var r := RevokeAgent(s, treasury, a, scrubbed);
            r.result.Ok? && Gone(Run(q, r.db, after), a)
  {
    hide Next, LogsSound, Linked, RevokeAgent, Gone;
    var s := Run(q, Empty(now), before);
    assert LogsSound(Empty(now)) by { EmptyLogsAreSound(now); }
    LogsStaySound(q, Empty(now), before);
    ReachableStatesAreSane(q, now, before);
    RevokingMovesLogs(s, treasury, a, scrubbed);
    assert treasury < |s.treasuries| by { SlotsHaveTreasuries(s, a); }
    RevokingDismisses(s, treasury, a, scrubbed);
    GoneForGood(q, RevokeAgent(s, treasury, a, scrubbed).db, after, a);
  }

  lemma SlotsHaveTreasuries(s: Db, a: nat)
    requires Linked(s) && a < |s.agents|
    ensures s.agents[a].treasury < |s.treasuries|
  {}
}
