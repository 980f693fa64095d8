/** What the agent handlers do to the state: creating, enrolling, connecting, keeping alive,
    suspending and revoking agent slots.  On-chain signer lookups are an input: the set of
    wallets on which the agent's key was found to be a signer. */
module AgentHandlers {
  import opened Outcomes
  import opened Constitution
  import opened Permits
  import opened Store
  import opened GovernanceHandlers
  import StrKey
  import Text

  const ENROLL_TTL_SECS := 600
  const CONNECT_TTL_SECS := 300
  const MCP_CONNECT_TTL_SECS := 120
  const HEARTBEAT_TIMEOUT := 600 * SECOND

  function WithSlot(db: Db, agent: nat, slot: AgentSlot): Db
    requires agent < |db.agents|
  {
    db.(agents := db.agents[agent := slot])
  }

  function CreateAgent(db: Db, treasury: nat, name: string, pubkey: string): Reply<nat> {
    var trimmed, key := Text.Trim(name), Text.Trim(pubkey);
    if trimmed == "" || Text.Utf8Size(trimmed) > 64 || !StrKey.ValidPublicKey(key) then Reply(db, Err(InvalidInput))
    else if AgentByPubkey(db.agents, key).Some? then Reply(db, Err(PubkeyConflict))
    else if treasury >= |db.treasuries| then Reply(db, Err(DatabaseError))
    else Reply(db.(agents := db.agents + [AgentSlot(treasury, Some(key), PendingConfiguration, None)]), Ok(|db.agents|))
  }

  // ----- Connection status -----

  datatype ReasonCode =
    | AgentRevokedCode | AgentSuspendedCode | PendingPubkeyCode | PendingConfigurationCode | PendingSignerCode

  datatype Connection = Complete | Blocked(reason: ReasonCode)

  predicate SignsEverywhere(own: seq<AgentWalletRule>, signerOf: set<string>) {
    forall i | 0 <= i < |own| :: own[i].wallet in signerOf
  }

  function ConnectionStatus(db: Db, slot: AgentSlot, agent: nat, signerOf: set<string>): Result<Connection> {
    if slot.status == SlotRevoked then Ok(Blocked(AgentRevokedCode))
    else if slot.status == Suspended then Ok(Blocked(AgentSuspendedCode))
    else if slot.pubkey.None? then Ok(Blocked(PendingPubkeyCode))
    else if slot.treasury >= |db.treasuries| then Ok(Blocked(PendingConfigurationCode))
    else
      match NewestRules(db.treasuries[slot.treasury])
      case Err(e) => Err(e)
      case Ok(content) =>
        var own := RulesForAgent(content.walletRules, agent);
        if own == [] then Ok(Blocked(PendingConfigurationCode))
        else if SignsEverywhere(own, signerOf) then Ok(Complete)
        else Ok(Blocked(PendingSignerCode))
  }

  /** `pending_status_from_reason`; a complete connection has no reason code. */
  function PendingStatus(c: Connection): AgentStatus {
    match c
    case Complete => Inactive
    case Blocked(PendingSignerCode) => PendingSigner
    case Blocked(PendingConfigurationCode) => PendingConfiguration
    case Blocked(PendingPubkeyCode) => PendingPubkey
    case Blocked(AgentRevokedCode) => SlotRevoked
    case Blocked(AgentSuspendedCode) => Suspended
  }

  function LiveStatus(c: Connection): AgentStatus { if c == Complete then SlotActive else PendingStatus(c) }

  // ----- Enrolment -----

  function StartEnrollment(db: Db, agent: nat, wallet: string, pubkey: string, nonce: nat): Reply<()> {
    if agent >= |db.agents| then Reply(db, Err(AgentNotFound))
    else
      var slot := db.agents[agent];
      if Barred(slot.status) then Reply(db, Err(BarredError(slot.status)))
      else if slot.pubkey.Some? && slot.pubkey.value != pubkey then Reply(db, Err(PubkeyConflict))
      else if slot.treasury >= |db.treasuries| || !WalletIsActive(db.treasuries[slot.treasury], wallet) then
        Reply(db, Err(WalletNotFound))
      else
        Reply(db.(enrolments := db.enrolments[agent := EnrollmentChallenge(nonce, wallet, pubkey,
                                                                           Seconds(db.now) + ENROLL_TTL_SECS)]),
              Ok(()))
  }

  /** The status is not checked again here, and the key is stored before the status is worked out. */
  function EnrollPubkey(db: Db, agent: nat, wallet: string, pubkey: string, nonce: nat, signature: Result<()>,
                        signerOf: set<string>): Reply<()>
  {
    if agent !in db.enrolments then Reply(db, Err(ChallengeExpired))
    else
      var c := db.enrolments[agent];
      if c.nonce != nonce || c.expiresAt <= Seconds(db.now) || c.wallet != wallet || c.pubkey != pubkey then
        Reply(db, Err(ChallengeExpired))
      else if signature.Err? then Reply(db, Err(signature.error))
      else
        var used := db.(enrolments := db.enrolments - {agent});
        if agent >= |db.agents| || KeyHeldByOther(db.agents, pubkey, agent) then Reply(used, Err(DatabaseError))
        else
          var slot := db.agents[agent].(pubkey := Some(pubkey), status := PendingSigner);
          match ConnectionStatus(db, slot, agent, signerOf)
          case Err(e) => Reply(WithSlot(used, agent, slot), Err(e))
          case Ok(c) => Reply(WithSlot(used, agent, slot.(status := PendingStatus(c))), Ok(()))
  }

  // ----- Connecting -----

  function StartConnect(db: Db, pubkey: string, nonce: nat): Reply<nat> {
    match AgentByPubkey(db.agents, pubkey)
    case None => Reply(db, Err(AgentNotFound))
    case Some(a) =>
      if Barred(db.agents[a].status) then Reply(db, Err(BarredError(db.agents[a].status)))
      else Reply(db.(connects := db.connects[pubkey := ConnectChallenge(nonce, a,
                                                                        Seconds(db.now) + CONNECT_TTL_SECS)]), Ok(a))
  }

  function CompleteConnect(db: Db, pubkey: string, nonce: nat, signature: Result<()>,
                           signerOf: set<string>): Reply<nat> {
    if pubkey !in db.connects then Reply(db, Err(ChallengeExpired))
    else
      var c := db.connects[pubkey];
      if c.nonce != nonce || c.expiresAt <= Seconds(db.now) then Reply(db, Err(ChallengeExpired))
      else if signature.Err? then Reply(db, Err(signature.error))
      else
        var used := db.(connects := db.connects - {pubkey});
        if c.agent >= |db.agents| then Reply(used, Err(DatabaseError))
        else
          match ConnectionStatus(db, db.agents[c.agent], c.agent, signerOf)
          case Err(e) => Reply(used, Err(e))
          case Ok(status) =>
            Reply(WithSlot(used, c.agent, db.agents[c.agent].(status := LiveStatus(status),
                                                              lastConnected := Some(db.now))),
                  Ok(c.agent))
  }

  /** The MCP status of a slot: active as soon as it has a rule, without looking at signers. */
  function McpStatus(db: Db, slot: AgentSlot, agent: nat): Result<AgentStatus> {
    if Barred(slot.status) then Ok(slot.status)
    else if slot.treasury >= |db.treasuries| then Ok(PendingConfiguration)
    else
      match NewestRules(db.treasuries[slot.treasury])
      case Err(e) => Err(e)
      case Ok(content) =>
        Ok(if RulesForAgent(content.walletRules, agent) == [] then PendingConfiguration else SlotActive)
  }

  function StartMcpConnect(db: Db, pubkey: string, nonce: nat): Reply<()> {
    if !StrKey.ValidPublicKey(pubkey) then Reply(db, Err(InvalidInput))
    else
      match AgentByPubkey(db.agents, pubkey)
      case None => Reply(db, Err(AgentNotFound))
      case Some(a) =>
        if Barred(db.agents[a].status) then Reply(db, Err(BarredError(db.agents[a].status)))
        else Reply(db.(mcpNonces := db.mcpNonces[pubkey := ConnectChallenge(nonce, a,
                                                                            Seconds(db.now) + MCP_CONNECT_TTL_SECS)]),
                                                                              Ok(()))
  }

  /** The agent is looked up by its key again, not taken from the challenge. */
  function CompleteMcpConnect(db: Db, pubkey: string, nonce: nat, signature: Result<()>): Reply<nat> {
    if !StrKey.ValidPublicKey(pubkey) then Reply(db, Err(InvalidInput))
    else if pubkey !in db.mcpNonces then Reply(db, Err(ChallengeExpired))
    else
      var c := db.mcpNonces[pubkey];
      if c.nonce != nonce || c.expiresAt <= Seconds(db.now) then Reply(db, Err(ChallengeExpired))
      else if signature.Err? then Reply(db, Err(signature.error))
      else
        var used := db.(mcpNonces := db.mcpNonces - {pubkey});
        match AgentByPubkey(db.agents, pubkey)
        case None => Reply(used, Err(AgentNotFound))
        case Some(a) =>
          if Barred(db.agents[a].status) then Reply(used, Err(BarredError(db.agents[a].status)))
          else
            match McpStatus(db, db.agents[a], a)
            case Err(e) => Reply(used, Err(e))
            case Ok(status) =>
              Reply(WithSlot(used, a, db.agents[a].(status := status, lastConnected := Some(db.now))), Ok(a))
  }

  // ----- Keeping alive -----

  function RefreshMcpLiveness(db: Db, session: AgentAuth): Reply<()> {
    if session.agent >= |db.agents| || db.agents[session.agent].treasury != session.treasury then Reply(db, Ok(()))
    else
      var slot := db.agents[session.agent];
      if Barred(slot.status) then Reply(db, Ok(()))
      else
        match McpStatus(db, slot, session.agent)
        case Err(e) => Reply(db, Err(e))
        case Ok(status) =>
          Reply(WithSlot(db, session.agent, slot.(status := status, lastConnected := Some(db.now))), Ok(()))
  }

  function Heartbeat(db: Db, auth: AgentAuth, agent: nat, signerOf: set<string>): Reply<()> {
    if Authenticate(db, auth).Err? then Reply(db, Err(Authenticate(db, auth).error))
    else if agent != auth.agent then Reply(db, Err(InvalidAgentSession))
    else
      match ConnectionStatus(db, db.agents[agent], agent, signerOf)
      case Err(e) => Reply(db, Err(e))
      case Ok(c) =>
        Reply(WithSlot(db, agent, db.agents[agent].(status := LiveStatus(c), lastConnected := Some(db.now))), Ok(()))
  }

  predicate TimedOut(slot: AgentSlot, now: int) {
    slot.status == SlotActive && slot.lastConnected.Some? && slot.lastConnected.value < now - HEARTBEAT_TIMEOUT
  }

  function SweepInactive(db: Db): Db {
    db.(agents := seq(|db.agents|, i requires 0 <= i < |db.agents| =>
                    if TimedOut(db.agents[i], db.now) then db.agents[i].(status := Inactive) else db.agents[i]))
  }

  // ----- Suspending and revoking -----

  /** No status is looked at: a revoked slot becomes a suspended one. */
  function SuspendAgent(db: Db, treasury: nat, agent: nat): Reply<()> {
    if agent >= |db.agents| then Reply(db, Err(DatabaseError))
    else if db.agents[agent].treasury != treasury then Reply(db, Ok(()))
    else Reply(WithSlot(db, agent, db.agents[agent].(status := Suspended)), Ok(()))
  }

  function RevokeGroups(groups: seq<PermitGroup>, treasury: nat, agent: nat): (r: seq<PermitGroup>)
    ensures |r| == |groups|
  {
    seq(|groups|, i requires 0 <= i < |groups| =>
      if groups[i].treasury == treasury && groups[i].agent == agent && groups[i].status in {GroupPending, GroupActive}
      then groups[i].(status := GroupRevoked) else groups[i])
  }

  /** One transaction over permits, groups, constitution and slot, then the challenges. */
  function RevokeAgent(db: Db, treasury: nat, agent: nat, scrubbed: Option<string>): Reply<()> {
    if agent >= |db.agents| || db.agents[agent].treasury != treasury || treasury >= |db.treasuries| then
      Reply(db, Err(AgentNotFound))
    else
      var slot := db.agents[agent];
      var settled := db.(permits := Settle(db.permits, OfSlot(treasury, agent), Revoked),
                         groups := RevokeGroups(db.groups, treasury, agent));
      var removed := RemoveAgentRules(settled, treasury, agent, scrubbed);
      if removed.result.Err? then Reply(db, Err(removed.result.error))
      else
        var revoked := removed.db.(agents := db.agents[agent := slot.(pubkey := None, status := SlotRevoked,
                                                                      lastConnected := None)]);
        Reply(revoked.(enrolments := db.enrolments - {agent},
                       connects := if slot.pubkey.Some? then db.connects - {slot.pubkey.value} else db.connects),
              Ok(()))
  }
}
