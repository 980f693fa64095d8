/** What the treasury, wallet, constitution and proposal handlers do to the state. */
module GovernanceHandlers {
  import opened Outcomes
  import opened Policy
  import opened Constitution
  import opened Normalizer
  import opened Store

  const PROPOSAL_TTL := 259200 * SECOND

  // ----- Treasuries and wallets -----

  function CreateTreasury(db: Db, user: nat): Reply<nat> {
    var t := Treasury(user, PendingWallet, 0.0, 0.0, 0, [HistoryRow(0, GenesisDocument())], map[]);
    Reply(db.(treasuries := db.treasuries + [t]), Ok(|db.treasuries|))
  }

  predicate Owns(db: Db, user: nat, treasury: nat) {
    treasury < |db.treasuries| && db.treasuries[treasury].owner == user
  }

  function WithWallets(db: Db, treasury: nat, wallets: map<string, WalletStatus>): Db
    requires treasury < |db.treasuries|
  {
    db.(treasuries := db.treasuries[treasury := db.treasuries[treasury].(wallets := wallets)])
  }

  function RegisterWallet(db: Db, user: nat, treasury: nat, wallet: string): Reply<()> {
    if !Owns(db, user, treasury) then Reply(db, Err(TreasuryNotFound))
    else
      var wallets := db.treasuries[treasury].wallets;
      Reply(if wallet in wallets then db else WithWallets(db, treasury, wallets[wallet := WalletPending]), Ok(()))
  }

  function RemoveWallet(db: Db, user: nat, treasury: nat, wallet: string): Reply<()> {
    if !Owns(db, user, treasury) then Reply(db, Err(TreasuryNotFound))
    else Reply(WithWallets(db, treasury, db.treasuries[treasury].wallets - {wallet}), Ok(()))
  }

  /** The multisig confirmation, which also activates a wallet. */
  function ConfirmMultisig(db: Db, user: nat, treasury: nat, wallet: string): Reply<()> {
    if !Owns(db, user, treasury) || wallet !in db.treasuries[treasury].wallets then Reply(db, Err(NotFound))
    else Reply(WithWallets(db, treasury, db.treasuries[treasury].wallets[wallet := WalletActive]), Ok(()))
  }

  /** The multisig revocation, which does not look at the owner.  `accepted`: the network took the
      co-signed transaction, or the request asked to skip it. */
  function RevokeMultisig(db: Db, treasury: nat, wallet: string, accepted: Result<()>): Reply<()> {
    if treasury >= |db.treasuries| || wallet !in db.treasuries[treasury].wallets then Reply(db, Err(NotFound))
    else if accepted.Err? then Reply(db, Err(accepted.error))
    else Reply(WithWallets(db, treasury, db.treasuries[treasury].wallets - {wallet}), Ok(()))
  }

  function Activated(t: Treasury, wallet: string): Treasury {
    if wallet !in t.wallets then t
    else t.(wallets := t.wallets[wallet := WalletActive],
            health := if t.health == PendingWallet then Healthy else t.health)
  }

  /** A proof of ownership activates the wallet in every treasury that lists it. */
  function VerifyOwnership(db: Db, proof: Result<()>, wallet: string): Reply<()> {
    if proof.Err? then Reply(db, Err(proof.error))
    else
      Reply(db.(treasuries := seq(|db.treasuries|, i requires 0 <= i < |db.treasuries| => Activated(db.treasuries[i],
          wallet))),
            Ok(()))
  }

  // ----- Constitution history -----

  function AppendVersion(db: Db, treasury: nat, content: Document): Reply<int>
    requires treasury < |db.treasuries|
  {
    var t := db.treasuries[treasury];
    var next := MaxVersion(t.history) + 1;
    if VersionTaken(t.history, next) then Reply(db, Err(DatabaseError))
    else
      Reply(db.(treasuries := db.treasuries[treasury := t.(history := t.history + [HistoryRow(next, content)],
                                                           version := next)]),
            Ok(next))
  }

  ghost function UpdateConstitution(db: Db, treasury: nat, content: ConstitutionContent): Reply<int> {
    if !Valid(content) then Reply(db, Err(InvalidInput))
    else if treasury >= |db.treasuries| then Reply(db, Err(DatabaseError))
    else AppendVersion(db, treasury, ToJson(content))
  }

  ghost function RollbackConstitution(db: Db, treasury: nat, version: int): Reply<int> {
    if treasury >= |db.treasuries| || ContentAt(db.treasuries[treasury].history, version).None? then Reply(db,
        Err(NotFound))
    else
      match Normalize(ContentAt(db.treasuries[treasury].history, version).value)
      case Err(e) => Reply(db, Err(e))
      case Ok(content) => UpdateConstitution(db, treasury, content)
  }

  /** Removing a revoked agent's rules.  `scrubbed` is the memo after its own cleaning. */
  function RemoveAgentRules(db: Db, treasury: nat, agent: nat, scrubbed: Option<string>): Reply<()>
    requires treasury < |db.treasuries|
  {
    var t := db.treasuries[treasury];
    if LatestContent(t.history).None? then Reply(db, Ok(()))
    else
      match Normalize(LatestContent(t.history).value)
      case Err(e) => Reply(db, Err(e))
      case Ok(content) =>
        var kept := WithoutAgent(content.walletRules, agent);
        if |kept| == |content.walletRules| && scrubbed == content.memo then Reply(db, Ok(()))
        else
          var appended := AppendVersion(db, treasury, ToJson(content.(walletRules := kept, memo := scrubbed)));
          Reply(appended.db, if appended.result.Ok? then Ok(()) else Err(appended.result.error))
  }

  // ----- Proposals -----

  predicate Open(p: Proposal, treasury: nat, now: int) {
    p.treasury == treasury && p.status == ProposalPending && p.expiresAt > now
  }

  predicate HasOpenProposal(db: Db, treasury: nat) {
    exists i | 0 <= i < |db.proposals| :: Open(db.proposals[i], treasury, db.now)
  }

  ghost function CreateProposal(db: Db, treasury: nat, content: ConstitutionContent): Reply<nat> {
    if !Valid(content) then Reply(db, Err(InvalidInput))
    else if HasOpenProposal(db, treasury) then Reply(db, Err(InvalidInput))
    else if treasury >= |db.treasuries| then Reply(db, Err(DatabaseError))
    else
      Reply(db.(proposals := db.proposals + [Proposal(treasury, ToJson(content), ProposalPending,
                                                      db.now + PROPOSAL_TTL, [])]),
            Ok(|db.proposals|))
  }

  function WithProposal(db: Db, proposal: nat, p: Proposal): Db
    requires proposal < |db.proposals|
  {
    db.(proposals := db.proposals[proposal := p])
  }

  function Threshold(t: Treasury): nat { |ActiveWallets(t)| / 2 + 1 }

  /** `treasury` is the one in the path; the source does not compare it with the proposal's. */
  function SignProposal(db: Db, treasury: nat, proposal: nat, wallet: string, signature: Result<()>): Reply<()> {
    if proposal >= |db.proposals| then Reply(db, Err(NotFound))
    else
      var p := db.proposals[proposal];
      if p.status != ProposalPending then Reply(db, Err(InvalidInput))
      else if db.now > p.expiresAt then
        Reply(WithProposal(db, proposal, p.(status := ProposalExpired)), Err(InvalidInput))
      else if treasury >= |db.treasuries| || !WalletIsActive(db.treasuries[treasury], wallet) then
        Reply(db, Err(InvalidInput))
      else if wallet in p.signers then Reply(db, Err(InvalidInput))
      else if signature.Err? then Reply(db, Err(signature.error))
      else
        var signed := p.(signers := p.signers + [wallet]);
        if |signed.signers| < Threshold(db.treasuries[treasury]) then Reply(WithProposal(db, proposal, signed), Ok(()))
        else
          var appended := AppendVersion(WithProposal(db, proposal, signed.(status := ProposalExecuted)), treasury,
                                        p.content);
          Reply(appended.db, if appended.result.Ok? then Ok(()) else Err(appended.result.error))
  }
}
