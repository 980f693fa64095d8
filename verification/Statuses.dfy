/** The status each way of connecting leaves in a slot, told from the slot's rules and signers. */
module Statuses {
  import opened Outcomes
  import opened Constitution
  import opened Store
  import opened AgentHandlers
  import opened PermitHandlers
  import opened Policy
  import StrKey

  /** No rules, rules but not every wallet signed for, or everything in place. */
  function ByRulesAndSigners(own: seq<AgentWalletRule>, signerOf: set<string>, complete: AgentStatus): AgentStatus {
    if own == [] then PendingConfiguration
    else if forall i | 0 <= i < |own| :: own[i].wallet in signerOf then complete
    else PendingSigner
  }

  function OwnRulesOf(s: Db, a: nat): Result<seq<AgentWalletRule>>
    requires a < |s.agents|
  {
    if s.agents[a].treasury >= |s.treasuries| then Ok([])
    else
      match NewestRules(s.treasuries[s.agents[a].treasury])
      case Err(e) => Err(e)
      case Ok(content) => Ok(RulesForAgent(content.walletRules, a))
  }

  /** Exactly slot `a` changes, to the status given. */
  predicate OnlySlot(s: Db, s': Db, a: nat, pubkey: Option<string>, status: AgentStatus, lastConnected: Option<int>) {
    a < |s.agents|
    && s'.agents == s.agents[a := AgentSlot(s.agents[a].treasury, pubkey, status, lastConnected)]
    && s' == s.(agents := s'.agents, enrolments := s'.enrolments, connects := s'.connects, mcpNonces := s'.mcpNonces)
  }

  /** An enrolment leaves the slot with the key and not yet active: INACTIVE when everything is in
      place, otherwise pending what is missing, whatever its status was. */
  lemma EnrolmentStatus(s: Db, a: nat, wallet: string, pubkey: string, nonce: nat, signed: Result<()>,
                        signerOf: set<string>)
    requires EnrollPubkey(s, a, wallet, pubkey, nonce, signed, signerOf).result.Ok?
    ensures a < |s.agents| && OwnRulesOf(s, a).Ok?
    ensures OnlySlot(s, EnrollPubkey(s, a, wallet, pubkey, nonce, signed, signerOf).db, a, Some(pubkey),
                     ByRulesAndSigners(OwnRulesOf(s, a).value, signerOf, Inactive), s.agents[a].lastConnected)
  {
    hide NewestRules, RulesForAgent, KeyHeldByOther;
  }

  /** A key that another slot holds cannot be enrolled. */
  lemma HeldKeyIsRefused(s: Db, a: nat, wallet: string, pubkey: string, nonce: nat, signed: Result<()>,
                         signerOf: set<string>, other: nat)
    requires other < |s.agents| && other != a && s.agents[other].pubkey == Some(pubkey)
    ensures EnrollPubkey(s, a, wallet, pubkey, nonce, signed, signerOf).result.Err?
  {}

  /** A suspended agent is told so, and a revoked one likewise, wherever it asks with a session or a key. */
  lemma BarredIsRefused(q: real -> real, s: Db, a: nat, wallet: string, pubkey: string, nonce: nat,
                        request: PermitRequest, signerOf: set<string>)
    requires a < |s.agents| && Barred(s.agents[a].status)
    ensures var e := if s.agents[a].status == Suspended then AgentSuspended else AgentRevoked;
            var auth := AgentAuth(a, s.agents[a].treasury);
            && Authenticate(s, auth) == Err(e)
            && RequestPermit(q, s, auth, Ok(()), request) == Reply(s, Err(e))
            && Heartbeat(s, auth, a, signerOf) == Reply(s, Err(e))
            && StartEnrollment(s, a, wallet, pubkey, nonce) == Reply(s, Err(e))
            && (AgentByPubkey(s.agents, pubkey) == Some(a) ==>
                  && StartConnect(s, pubkey, nonce) == Reply(s, Err(e))
                  && (StrKey.ValidPublicKey(pubkey) ==> StartMcpConnect(s, pubkey, nonce) == Reply(s, Err(e))))
  {
    hide IssueSingle, ConnectionStatus, StrKey.ValidPublicKey;
  }

  /** Connecting makes a complete slot ACTIVE, and leaves a barred one as it was. */
  lemma ConnectStatus(s: Db, pubkey: string, nonce: nat, signed: Result<()>, signerOf: set<string>)
    requires CompleteConnect(s, pubkey, nonce, signed, signerOf).result.Ok?
    ensures var r := CompleteConnect(s, pubkey, nonce, signed, signerOf);
            var a := r.result.value;
            && pubkey in s.connects && a == s.connects[pubkey].agent < |s.agents|
            && (Barred(s.agents[a].status) ==>
                  OnlySlot(s, r.db, a, s.agents[a].pubkey, s.agents[a].status, Some(s.now)))
            && (!Barred(s.agents[a].status) && s.agents[a].pubkey.Some? ==>
                  OwnRulesOf(s, a).Ok?
                  && OnlySlot(s, r.db, a, s.agents[a].pubkey,
                              ByRulesAndSigners(OwnRulesOf(s, a).value, signerOf, SlotActive), Some(s.now)))
            && (!Barred(s.agents[a].status) && s.agents[a].pubkey.None? ==>
                  OnlySlot(s, r.db, a, None, PendingPubkey, Some(s.now)))
  {
    hide NewestRules, RulesForAgent;
  }

  /** So does a heartbeat. */
  lemma HeartbeatStatus(s: Db, auth: AgentAuth, a: nat, signerOf: set<string>)
    requires Heartbeat(s, auth, a, signerOf).result.Ok? && a < |s.agents| && s.agents[a].pubkey.Some?
    ensures a == auth.agent && OwnRulesOf(s, a).Ok?
    ensures OnlySlot(s, Heartbeat(s, auth, a, signerOf).db, a, s.agents[a].pubkey,
                     ByRulesAndSigners(OwnRulesOf(s, a).value, signerOf, SlotActive), Some(s.now))
  {
    hide NewestRules, RulesForAgent;
  }

  /** The MCP paths ask for rules only. */
  lemma McpStatusIsByRules(s: Db, pubkey: string, nonce: nat, signed: Result<()>)
    requires CompleteMcpConnect(s, pubkey, nonce, signed).result.Ok?
    ensures var r := CompleteMcpConnect(s, pubkey, nonce, signed);
            var a := r.result.value;
            && AgentByPubkey(s.agents, pubkey) == Some(a) && !Barred(s.agents[a].status) && OwnRulesOf(s, a).Ok?
            && OnlySlot(s, r.db, a, s.agents[a].pubkey,
                        if OwnRulesOf(s, a).value == [] then PendingConfiguration else SlotActive, Some(s.now))
  {
    hide NewestRules, RulesForAgent, StrKey.ValidPublicKey;
  }

  lemma RefreshStatusIsByRules(s: Db, session: AgentAuth)
    requires RefreshMcpLiveness(s, session).result.Ok?
    ensures var a, s' := session.agent, RefreshMcpLiveness(s, session).db;
            if a < |s.agents| && s.agents[a].treasury == session.treasury && !Barred(s.agents[a].status)
            then OwnRulesOf(s, a).Ok?
                 && OnlySlot(s, s', a, s.agents[a].pubkey,
                             if OwnRulesOf(s, a).value == [] then PendingConfiguration else SlotActive, Some(s.now))
            else s' == s
  {
    hide NewestRules, RulesForAgent;
  }

  /** The sweep makes INACTIVE exactly the ACTIVE slots silent for more than 600 seconds. */
  lemma SweepTakesTheSilent(s: Db, a: nat)
    requires a < |s.agents|
    ensures var s' := SweepInactive(s);
            && |s'.agents| == |s.agents| && s' == s.(agents := s'.agents)
            && s'.agents[a] ==
               if s.agents[a].status == SlotActive && s.agents[a].lastConnected.Some?
                  && s.now - s.agents[a].lastConnected.value > 600_000_000
               then s.agents[a].(status := Inactive) else s.agents[a]
  {}
}
