/** The public keys of agent slots.  Over any run no two slots hold one key, a slot without a key
    is barred for good, and an enrolment only ever confirms the key its slot already has; so the
    unique index on keys never refuses an enrolment, and a key, once a slot's own, leaves it only
    by revocation. */
module AgentKeys {
  import opened Outcomes
  import opened Store
  import opened GovernanceHandlers
  import opened AgentHandlers
  import opened System
  import opened Revocation

  predicate DistinctKeys(agents: seq<AgentSlot>) {
    forall a, b | 0 <= a < b < |agents| && agents[a].pubkey.Some? :: agents[a].pubkey != agents[b].pubkey
  }

  predicate KeysSound(s: Db) {
    && DistinctKeys(s.agents)
    && (forall a | 0 <= a < |s.agents| && s.agents[a].pubkey.None? :: Dismissed(s, a))
    && (forall a | a in s.enrolments :: a < |s.agents| && s.agents[a].pubkey == Some(s.enrolments[a].pubkey))
  }

  /** Slots keep their keys and new ones are not added; a slot without a key stays dismissed. */
  predicate KeepsKeys(s: Db, s': Db) {
    && |s'.agents| == |s.agents|
    && (forall a | 0 <= a < |s.agents| :: s'.agents[a].pubkey == s.agents[a].pubkey)
    && (forall a | 0 <= a < |s.agents| && s.agents[a].pubkey.None? :: Dismissed(s', a))
    && (forall a | a in s'.enrolments ::
          (a in s.enrolments && s'.enrolments[a] == s.enrolments[a])
          || (a < |s.agents| && s.agents[a].pubkey == Some(s'.enrolments[a].pubkey)))
  }

  lemma KeepingKeysKeepsSound(s: Db, s': Db)
    requires KeysSound(s) && KeepsKeys(s, s')
    ensures KeysSound(s')
  {
    hide Dismissed;
  }

  lemma ConnectingKeepsKeys(s: Db, op: AgentOp)
    requires KeysSound(s)
    requires op.Enrol? || op.Connect? || op.ConnectMcp? || op.RefreshMcp? || op.Beat?
    ensures KeepsKeys(s, AgentNext(s, op))
  {
    hide EnrollPubkey, CompleteConnect, CompleteMcpConnect, RefreshMcpLiveness, Heartbeat;
    forall a | 0 <= a < |s.agents| && s.agents[a].pubkey.None? ensures Dismissed(AgentNext(s, op), a) {
      ConnectingKeepsShut(s, op, a);
    }
    ConnectingKeepsKeyColumn(s, op);
  }

  predicate KeepsKeyColumn(s: Db, s': Db) {
    && |s'.agents| == |s.agents|
    && (forall a | 0 <= a < |s.agents| :: s'.agents[a].pubkey == s.agents[a].pubkey)
    && (forall a | a in s'.enrolments :: a in s.enrolments && s'.enrolments[a] == s.enrolments[a])
  }

  lemma EnrollingKeepsKeyColumn(s: Db, agent: nat, wallet: string, pubkey: string, nonce: nat, signed: Result<()>,
                                signerOf: set<string>)
    requires KeysSound(s)
    ensures KeepsKeyColumn(s, EnrollPubkey(s, agent, wallet, pubkey, nonce, signed, signerOf).db)
  {
    hide ConnectionStatus, KeyHeldByOther;
    assert agent in s.enrolments ==> s.agents[agent].pubkey == Some(s.enrolments[agent].pubkey);
    hide KeysSound;
  }

  lemma ConnectingKeepsKeyColumn(s: Db, op: AgentOp)
    requires KeysSound(s)
    requires op.Enrol? || op.Connect? || op.ConnectMcp? || op.RefreshMcp? || op.Beat?
    ensures KeepsKeyColumn(s, AgentNext(s, op))
  {
    hide ConnectionStatus, McpStatus, StrKey.ValidPublicKey, KeysSound, EnrollPubkey;
    if op.Enrol? {
      EnrollingKeepsKeyColumn(s, op.agent, op.wallet, op.pubkey, op.nonce, op.signed, op.signerOf);
    }
  }

  lemma CreatingKeepsSound(s: Db, treasury: nat, name: string, pubkey: string)
    requires KeysSound(s)
    ensures KeysSound(CreateAgent(s, treasury, name, pubkey).db)
  {
    hide StrKey.ValidPublicKey;
  }

  lemma StartingKeepsKeys(s: Db, agent: nat, wallet: string, pubkey: string, nonce: nat)
    requires KeysSound(s)
    ensures KeepsKeys(s, StartEnrollment(s, agent, wallet, pubkey, nonce).db)
  {}

  lemma RevokingKeepsSound(s: Db, treasury: nat, agent: nat, scrubbed: Option<string>)
    requires KeysSound(s)
    ensures KeysSound(RevokeAgent(s, treasury, agent, scrubbed).db)
  {
    hide RemoveAgentRules;
    if treasury < |s.treasuries| {
      var settled := s.(permits := Permits.Settle(s.permits, Permits.OfSlot(treasury, agent), Permits.Revoked),
                        groups := RevokeGroups(s.groups, treasury, agent));
      RemovalKeepsTheRest(settled, treasury, agent, scrubbed);
    }
  }

  lemma AgentStepsKeepKeys(s: Db, op: AgentOp)
    requires KeysSound(s) && !op.NewAgent? && !op.Revoke?
    ensures KeepsKeys(s, AgentNext(s, op))
  {
    hide RevokeAgent, EnrollPubkey, CompleteConnect, CompleteMcpConnect, RefreshMcpLiveness, Heartbeat, CreateAgent,
      StartEnrollment, StrKey.ValidPublicKey, DistinctKeys, AgentByPubkey, BarredError;
    if op.Enrol? || op.Connect? || op.ConnectMcp? || op.RefreshMcp? || op.Beat? {
      ConnectingKeepsKeys(s, op);
    } else if op.BeginEnrolment? {
      StartingKeepsKeys(s, op.agent, op.wallet, op.pubkey, op.nonce);
    }
  }

  lemma AgentStepsKeepSound(s: Db, op: AgentOp)
    requires KeysSound(s)
    ensures KeysSound(AgentNext(s, op))
  {
    if op.NewAgent? {
      hide CreateAgent, KeysSound;
      CreatingKeepsSound(s, op.treasury, op.name, op.pubkey);
    } else if op.Revoke? {
      hide RevokeAgent, KeysSound;
      RevokingKeepsSound(s, op.treasury, op.agent, op.scrubbed);
    } else {
      hide AgentNext, KeysSound, KeepsKeys;
      AgentStepsKeepKeys(s, op);
      KeepingKeysKeepsSound(s, AgentNext(s, op));
    }
  }

  lemma StepKeepsKeysSound(q: real -> real, s: Db, step: Step)
    requires KeysSound(s)
    ensures KeysSound(Next(q, s, step))
  {
    hide PermitNext, GovernanceNext, AgentNext, DistinctKeys;
    match step
    case Tick(_) =>
    case OnPermits(op) => PermitOpsKeepTheRest(q, s, op);
    case OnGovernance(op) => GovernanceKeepsTheRest(s, op);
    case OnAgents(op) => AgentStepsKeepSound(s, op);
  }

  lemma EmptyKeysAreSound(now: int)
    ensures KeysSound(Empty(now))
  {}

  lemma {:induction false} RunsKeepKeysSound(q: real -> real, s: Db, steps: seq<Step>)
    requires KeysSound(s)
    ensures KeysSound(Run(q, s, steps))
  {
    hide Next, KeysSound;
    if steps != [] {
      RunsKeepKeysSound(q, s, steps[..|steps| - 1]);
      StepKeepsKeysSound(q, Run(q, s, steps[..|steps| - 1]), steps[|steps| - 1]);
    }
  }

  /** In every reachable state an outstanding enrolment is for the key its slot already has, and
      that key is nobody else's: the unique index never refuses it. */
  lemma {:induction false} EnrolmentConfirmsTheKey(q: real -> real, now: int, steps: seq<Step>, a: nat)
    requires a in Run(q, Empty(now), steps).enrolments
    ensures var s := Run(q, Empty(now), steps);
            && a < |s.agents| && s.agents[a].pubkey == Some(s.enrolments[a].pubkey)
            && !KeyHeldByOther(s.agents, s.enrolments[a].pubkey, a)
            && AgentByPubkey(s.agents, s.enrolments[a].pubkey) == Some(a)
  {
    hide Next;
    RunsKeepKeysSound(q, Empty(now), steps);
  }
}
