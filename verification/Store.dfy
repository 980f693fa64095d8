/** The coordinator's state: the rows of its tables and the challenges it has outstanding.
    Rows are never deleted except from a treasury's wallets, so an identifier is a row number,
    and inserting appends.  A treasury holds its own wallets and constitution history, a
    proposal its own signatures. */
module Store {
  import opened Outcomes
  import opened Policy
  import opened Constitution
  import opened Normalizer
  import opened Permits

  // ----- Time -----

  /** The clock counts microseconds, as the database's timestamps do. */
  const SECOND := 1_000_000

  /** Challenges keep their expiry in whole seconds. */
  function Seconds(time: int): int { time / SECOND }

  // ----- Rows -----

  datatype HistoryRow = HistoryRow(version: int, content: Document)

  datatype WalletStatus = WalletPending | WalletActive

  datatype Treasury = Treasury(owner: nat, health: Health, peak: real, current: real, version: int,
                               history: seq<HistoryRow>, wallets: map<string, WalletStatus>)

  datatype AgentStatus =
    | PendingConfiguration | PendingPubkey | PendingSigner | SlotActive | Inactive | Suspended | SlotRevoked

  datatype AgentSlot = AgentSlot(treasury: nat, pubkey: Option<string>, status: AgentStatus, lastConnected: Option<int>)

  datatype GroupStatus =
    | GroupPending | GroupActive | GroupDenied | GroupExecuting | GroupConsumed | GroupFailed | GroupRevoked

  datatype PermitGroup = PermitGroup(agent: nat, treasury: nat, requireAll: bool, totalRequested: real,
                                     totalApproved: real, status: GroupStatus, expiresAt: int)

  datatype ProposalStatus = ProposalPending | ProposalExecuted | ProposalExpired

  datatype Proposal = Proposal(treasury: nat, content: Document, status: ProposalStatus, expiresAt: int,
                               signers: seq<string>)

  datatype EnrollmentChallenge = EnrollmentChallenge(nonce: nat, wallet: string, pubkey: string, expiresAt: int)

  datatype ConnectChallenge = ConnectChallenge(nonce: nat, agent: nat, expiresAt: int)

  /** `enrolments` are keyed by agent, `connects` and `mcpNonces` by public key. */
  datatype Db = Db(now: int, treasuries: seq<Treasury>, agents: seq<AgentSlot>, permits: seq<Permit>,
                   groups: seq<PermitGroup>, proposals: seq<Proposal>,
                   enrolments: map<nat, EnrollmentChallenge>, connects: map<string, ConnectChallenge>,
                   mcpNonces: map<string, ConnectChallenge>)

  /** The state a handler leaves and what it returns. */
  datatype Reply<+T> = Reply(db: Db, result: Result<T>)

  function Empty(now: int): Db { Db(now, [], [], [], [], [], map[], map[], map[]) }

  // ----- Constitution history -----

  /** COALESCE(MAX(version), 0). */
  function MaxVersion(history: seq<HistoryRow>): int {
    if history == [] then 0
    else
      var before, last := MaxVersion(history[..|history| - 1]), history[|history| - 1].version;
      if |history| == 1 || last > before then last else before
  }

  /** The content of the row with a version; the key (treasury, version) is unique. */
  function ContentAt(history: seq<HistoryRow>, version: int): Option<Document> {
    if history == [] then None
    else
      var last := history[|history| - 1];
      if last.version == version then Some(last.content) else ContentAt(history[..|history| - 1], version)
  }

  /** ORDER BY version DESC LIMIT 1. */
  function LatestContent(history: seq<HistoryRow>): Option<Document> {
    if history == [] then None else ContentAt(history, MaxVersion(history))
  }

  /** The newest version is the largest, whatever order and gaps the rows have. */
  lemma {:induction false} NewestIsLargest(history: seq<HistoryRow>)
    ensures history == [] ==> MaxVersion(history) == 0
    ensures history != [] ==> exists i | 0 <= i < |history| :: history[i].version == MaxVersion(history)
    ensures forall i | 0 <= i < |history| :: history[i].version <= MaxVersion(history)
  {
    if history != [] {
      var n := |history| - 1;
      NewestIsLargest(history[..n]);
      if n > 0 {
        var i :| 0 <= i < n && history[..n][i].version == MaxVersion(history[..n]);
        assert history[i].version == MaxVersion(history[..n]);
      }
      assert history[n].version <= MaxVersion(history);
      forall i | 0 <= i < n ensures history[i].version <= MaxVersion(history) {
        assert history[..n][i] == history[i];
      }
    }
  }

  /** A content read belongs to a row with the version asked for, and none is read when there is none. */
  lemma {:induction false} ContentIsOfItsVersion(history: seq<HistoryRow>, version: int)
    ensures ContentAt(history, version).None? <==> forall i | 0 <= i < |history| :: history[i].version != version
    ensures ContentAt(history, version).Some? ==> HistoryRow(version, ContentAt(history, version).value) in history
  {
    if history != [] {
      var n := |history| - 1;
      ContentIsOfItsVersion(history[..n], version);
      assert forall i | 0 <= i < n :: history[..n][i] == history[i];
      assert history[n] in history;
    }
  }

  predicate VersionTaken(history: seq<HistoryRow>, version: int) {
    exists i | 0 <= i < |history| :: history[i].version == version
  }

  /** The rules the permit engine applies: the row of the treasury's version column. */
  function RulesInForce(t: Treasury): Result<ConstitutionContent> {
    match ContentAt(t.history, t.version)
    case None => Err(InvalidInput)
    case Some(doc) => Normalize(doc)
  }

  /** The rules the agent handlers read: the newest row. */
  function NewestRules(t: Treasury): Result<ConstitutionContent> {
    match LatestContent(t.history)
    case None => Ok(ConstitutionContent(TreasuryRules(DEFAULT_DRAWDOWN_PCT, DEFAULT_MAX_CONCURRENT), [], None))
    case Some(doc) => Normalize(doc)
  }

  // ----- Wallets -----

  predicate WalletIsActive(t: Treasury, wallet: string) {
    wallet in t.wallets && t.wallets[wallet] == WalletActive
  }

  function ActiveWallets(t: Treasury): set<string> {
    set w | w in t.wallets && t.wallets[w] == WalletActive
  }

  // ----- Agents -----

  /** The slot with a public key; a unique index keeps it the only one. */
  function AgentByPubkey(agents: seq<AgentSlot>, pubkey: string): (r: Option<nat>)
    ensures r.Some? ==> r.value < |agents| && agents[r.value].pubkey == Some(pubkey)
    ensures r.None? ==> forall i | 0 <= i < |agents| :: agents[i].pubkey != Some(pubkey)
  {
    if agents == [] then None
    else if agents[|agents| - 1].pubkey == Some(pubkey) then Some(|agents| - 1)
    else AgentByPubkey(agents[..|agents| - 1], pubkey)
  }

  /** What the unique index on public keys refuses. */
  predicate KeyHeldByOther(agents: seq<AgentSlot>, pubkey: string, agent: nat) {
    exists i | 0 <= i < |agents| :: i != agent && agents[i].pubkey == Some(pubkey)
  }

  predicate Barred(s: AgentStatus) { s == Suspended || s == SlotRevoked }

  function BarredError(s: AgentStatus): AppError
    requires Barred(s)
    ensures s == Suspended ==> BarredError(s) == AgentSuspended
    ensures s == SlotRevoked ==> BarredError(s) == AgentRevoked
  {
    if s == Suspended then AgentSuspended else AgentRevoked
  }

  /** Who an agent session speaks for. */
  datatype AgentAuth = AgentAuth(agent: nat, treasury: nat)

  /** The guard in front of agent endpoints, for a session that is live. */
  function Authenticate(db: Db, auth: AgentAuth): Result<()> {
    if auth.agent >= |db.agents| || db.agents[auth.agent].treasury != auth.treasury then Err(InvalidAgentSession)
    else if Barred(db.agents[auth.agent].status) then Err(BarredError(db.agents[auth.agent].status))
    else Ok(())
  }
}
