/** A request that is not signed as it must be is refused and changes nothing. */
module Signatures {
  import opened Outcomes
  import opened Policy
  import opened Store
  import opened PermitHandlers
  import opened GovernanceHandlers
  import opened AgentHandlers
  import opened System
  import Intents
  import Json
  import Normalizer
  import StrKey

  /** The signature or proof a step carries does not verify. */
  predicate BadlySigned(step: Step) {
    match step
    case Tick(_) => false
    case OnPermits(AskPermit(_, signed, _)) => signed.Err?
    case OnPermits(AskGroup(_, signed, _, _, _)) => signed.Err?
    case OnPermits(AskIntent(_, signed, _, _)) => signed.Err?
    case OnPermits(Outcome(_, signed, _, _)) => signed.Err?
    case OnPermits(_) => false
    case OnGovernance(RevokeWallet(_, _, accepted)) => accepted.Err?
    case OnGovernance(ProveWallet(proof, _)) => proof.Err?
    case OnGovernance(Sign(_, _, _, signed)) => signed.Err?
    case OnGovernance(_) => false
    case OnAgents(Enrol(_, _, _, _, signed, _)) => signed.Err?
    case OnAgents(Connect(_, _, signed, _)) => signed.Err?
    case OnAgents(ConnectMcp(_, _, signed)) => signed.Err?
    case OnAgents(_) => false
  }

  /** The permit endpoints refuse it. */
  lemma PermitsNeedSignatures(q: real -> real, s: Db, auth: AgentAuth, e: AppError, request: PermitRequest,
                              group: AgentAuth, legs: seq<PermitRequest>, all: bool, pubkey: string,
                              intent: Normalizer.Document, amount: Option<real>, permit: nat, pnl: real)
    ensures var r := RequestPermit(q, s, auth, Err(e), request); r.result.Err? && r.db == s
    ensures var r := RequestPermitGroup(q, s, auth, Err(e), group, legs, all); r.result.Err? && r.db == s
    ensures var r := SubmitIntent(q, s, pubkey, Err(e), intent, amount); r.result.Err? && r.db == s
    ensures var r := ReportOutcome(s, auth, Err(e), permit, pnl); r.result.Err? && r.db == s
  {
    hide IssueSingle, ProcessLegs, SortLegs, Authenticate, Intents.ParseAndResolve, NewestRules, ContentAt,
      RulesInForce, StrKey.ValidPublicKey;
  }

  /** So do those that prove a wallet, sign a proposal, enrol a key or connect. */
  lemma OthersNeedSignatures(s: Db, t: nat, i: nat, wallet: string, a: nat, pubkey: string, nonce: nat, e: AppError,
                             signerOf: set<string>)
    ensures var r := VerifyOwnership(s, Err(e), wallet); r.result.Err? && r.db == s
    ensures var r := RevokeMultisig(s, t, wallet, Err(e)); r.result.Err? && r.db == s
    ensures SignProposal(s, t, i, wallet, Err(e)).result.Err?
    ensures var r := EnrollPubkey(s, a, wallet, pubkey, nonce, Err(e), signerOf); r.result.Err? && r.db == s
    ensures var r := CompleteConnect(s, pubkey, nonce, Err(e), signerOf); r.result.Err? && r.db == s
    ensures var r := CompleteMcpConnect(s, pubkey, nonce, Err(e)); r.result.Err? && r.db == s
  {
    hide WalletIsActive, StrKey.ValidPublicKey;
  }

  lemma BadProposalSignatureOnlyExpires(s: Db, t: nat, i: nat, wallet: string, e: AppError)
    ensures var s' := SignProposal(s, t, i, wallet, Err(e)).db;
            s' == s || (i < |s.proposals| && s.now > s.proposals[i].expiresAt
                        && s' == WithProposal(s, i, s.proposals[i].(status := ProposalExpired)))
  {
    hide WalletIsActive;
  }

  /** Over every step: nothing changes, except that an expired proposal is marked so. */
  lemma BadSignatureChangesNothing(q: real -> real, s: Db, step: Step)
    requires BadlySigned(step)
    ensures var s' := Next(q, s, step);
            s' == s || (step.OnGovernance? && step.governanceOp.Sign?
                        && var i := step.governanceOp.proposal;
                           && i < |s.proposals| && s.now > s.proposals[i].expiresAt
                           && s' == WithProposal(s, i, s.proposals[i].(status := ProposalExpired)))
  {
    hide RequestPermit, RequestPermitGroup, SubmitIntent, ReportOutcome, VerifyOwnership, RevokeMultisig, SignProposal,
      EnrollPubkey, CompleteConnect, CompleteMcpConnect;
    match step
    case OnPermits(op) => PermitStepNeedsSignature(q, s, op);
    case OnGovernance(RevokeWallet(t, wallet, accepted)) =>
      OthersNeedSignatures(s, t, 0, wallet, 0, "", 0, accepted.error, {});
    case OnGovernance(ProveWallet(proof, wallet)) => OthersNeedSignatures(s, 0, 0, wallet, 0, "", 0, proof.error, {});
    case OnGovernance(Sign(t, i, wallet, signed)) => BadProposalSignatureOnlyExpires(s, t, i, wallet, signed.error);
    case OnAgents(Enrol(a, wallet, pubkey, nonce, signed, signerOf)) =>
      OthersNeedSignatures(s, 0, 0, wallet, a, pubkey, nonce, signed.error, signerOf);
    case OnAgents(Connect(pubkey, nonce, signed, signerOf)) =>
      OthersNeedSignatures(s, 0, 0, "", 0, pubkey, nonce, signed.error, signerOf);
    case OnAgents(ConnectMcp(pubkey, nonce, signed)) =>
      OthersNeedSignatures(s, 0, 0, "", 0, pubkey, nonce, signed.error, {});
  }

  lemma PermitStepNeedsSignature(q: real -> real, s: Db, op: PermitOp)
    requires BadlySigned(OnPermits(op))
    ensures PermitNext(q, s, op) == s
  {
    hide RequestPermit, RequestPermitGroup, SubmitIntent, ReportOutcome;
    var auth, request := AgentAuth(0, 0), PermitRequest(0, 0, "", "", 0.0);
    match op
    case AskPermit(auth', signed, request') =>
      PermitsNeedSignatures(q, s, auth', signed.error, request', auth, [], false, "", Json.Null, None, 0, 0.0);
    case AskGroup(auth', signed, onBehalf, legs, all) =>
      PermitsNeedSignatures(q, s, auth', signed.error, request, onBehalf, legs, all, "", Json.Null, None, 0, 0.0);
    case AskIntent(pubkey, signed, intent, amount) =>
      PermitsNeedSignatures(q, s, auth, signed.error, request, auth, [], false, pubkey, intent, amount, 0, 0.0);
    case Outcome(auth', signed, permit, pnl) =>
      PermitsNeedSignatures(q, s, auth', signed.error, request, auth, [], false, "", Json.Null, None, permit, pnl);
  }
}
