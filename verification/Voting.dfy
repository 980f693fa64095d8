/** Proposals: one open proposal per treasury at a time, each executed at most once.  The rule of
    execution counts all signatures stored for the proposal against the wallets active in the
    treasury of the path; with a fixed electorate that makes majorities, and any two executed
    proposals share a signer. */
module Voting {
  import opened Outcomes
  import opened Constitution
  import opened Store
  import opened GovernanceHandlers
  import opened AgentHandlers
  import opened System
  import opened ConstitutionLog

  // ----- How a step moves proposals -----

  /** A proposal keeps what it proposes, and once it is no longer pending it keeps everything. */
  predicate ProposalMoves(p: Proposal, p': Proposal) {
    && p'.treasury == p.treasury && p'.content == p.content && p'.expiresAt == p.expiresAt
    && (p.status != ProposalPending ==> p' == p)
  }

  predicate ProposalsMove(s: Db, s': Db) {
    && s.now <= s'.now
    && |s.proposals| <= |s'.proposals| <= |s.proposals| + 1
    && (forall i | 0 <= i < |s.proposals| :: ProposalMoves(s.proposals[i], s'.proposals[i]))
    && (|s'.proposals| > |s.proposals| ==>
          var p := s'.proposals[|s.proposals|];
          s'.now == s.now && p.status == ProposalPending && p.signers == [] && !HasOpenProposal(s, p.treasury))
  }

  lemma SigningMovesProposals(s: Db, treasury: nat, proposal: nat, wallet: string, signed: Result<()>)
    ensures ProposalsMove(s, SignProposal(s, treasury, proposal, wallet, signed).db)
  {
    hide AppendVersion, Threshold, WalletIsActive;
    if proposal < |s.proposals| && treasury < |s.treasuries| {
      var p := s.proposals[proposal];
      AppendKeepsTheRest(WithProposal(s, proposal, p.(signers := p.signers + [wallet], status := ProposalExecuted)),
                         treasury, p.content);
    }
  }

  lemma UpdateKeepsProposals(s: Db, treasury: nat, content: ConstitutionContent, version: int)
    ensures UpdateConstitution(s, treasury, content).db.proposals == s.proposals
    ensures RollbackConstitution(s, treasury, version).db.proposals == s.proposals
  {
    hide UpdateConstitution, RollbackConstitution;
    UpdateKeepsTheRest(s, treasury, content);
    RollbackKeepsTheRest(s, treasury, version);
  }

  lemma GovernanceMovesProposals(s: Db, op: GovernanceOp)
    ensures ProposalsMove(s, GovernanceNext(s, op))
  {
    hide UpdateConstitution, SignProposal, RollbackConstitution, HasOpenProposal, Normalizer.GenesisDocument,
      RegisterWallet,
      RemoveWallet, ConfirmMultisig, RevokeMultisig, VerifyOwnership, Valid, Normalizer.ToJson;
    GovernanceKeepsTheRest(s, op);
    if OnWallets(op) {
      WalletOpsKeepTheRest(s, op);
    }
    match op
    case Update(treasury, content) => UpdateKeepsProposals(s, treasury, content, 0);
    case Rollback(treasury, version) => RollbackKeepsTheRest(s, treasury, version);
    case Sign(treasury, proposal, wallet, signed) => SigningMovesProposals(s, treasury, proposal, wallet, signed);
    case _ =>
  }

  lemma RevokingKeepsProposals(s: Db, treasury: nat, agent: nat, scrubbed: Option<string>)
    ensures var s' := RevokeAgent(s, treasury, agent, scrubbed).db; s'.proposals == s.proposals && s'.now == s.now
  {
    hide RemoveAgentRules;
    if treasury < |s.treasuries| {
      var settled := s.(permits := Permits.Settle(s.permits, Permits.OfSlot(treasury, agent), Permits.Revoked),
                        groups := RevokeGroups(s.groups, treasury, agent));
      RemovalKeepsTheRest(settled, treasury, agent, scrubbed);
    }
  }

  lemma AgentStepsKeepProposals(s: Db, op: AgentOp)
    ensures AgentNext(s, op).proposals == s.proposals && AgentNext(s, op).now == s.now
  {
    hide RevokeAgent, EnrollPubkey, CompleteConnect, CompleteMcpConnect, RefreshMcpLiveness, Heartbeat,
      StrKey.ValidPublicKey;
    if op.Revoke? {
      RevokingKeepsProposals(s, op.treasury, op.agent, op.scrubbed);
    } else if op.Enrol? || op.Connect? || op.ConnectMcp? || op.RefreshMcp? || op.Beat? {
      ConnectingTouchesOneSlot(s, op);
    }
  }

  lemma StepMovesProposals(q: real -> real, s: Db, step: Step)
    ensures ProposalsMove(s, Next(q, s, step))
  {
    hide PermitNext, GovernanceNext, AgentNext, HasOpenProposal;
    match step
    case Tick(_) =>
    case OnPermits(op) => PermitOpsKeepTheRest(q, s, op);
    case OnGovernance(op) => GovernanceMovesProposals(s, op);
    case OnAgents(op) => AgentStepsKeepProposals(s, op);
  }

  /** A proposal is stored with the content proposed, unsigned, for 72 hours; nothing else changes. */
  lemma ProposalIsStored(s: Db, treasury: nat, content: ConstitutionContent)
    ensures var r := CreateProposal(s, treasury, content);
            && (r.result.Ok? <==> Valid(content) && treasury < |s.treasuries| && !HasOpenProposal(s, treasury))
            && (r.result.Err? ==> r.db == s)
            && (r.result.Ok? ==>
                  && r.result.value == |s.proposals| && |r.db.proposals| == |s.proposals| + 1
                  && r.db == s.(proposals := r.db.proposals) && s.proposals <= r.db.proposals
                  && var p := r.db.proposals[|s.proposals|];
                     && p.treasury == treasury && Normalizer.Normalize(p.content) == Ok(content)
                     && p.status == ProposalPending && p.signers == [] && p.expiresAt == s.now + 259_200_000_000)
  {
    hide Valid, HasOpenProposal, Normalizer.ToJson, Normalizer.Normalize;
    Normalizer.NormalizeInvertsToJson(content);
  }

  // ----- Executed at most once -----

  lemma {:induction false} RunKeepsProposals(q: real -> real, s: Db, steps: seq<Step>)
    ensures |s.proposals| <= |Run(q, s, steps).proposals|
    ensures forall i | 0 <= i < |s.proposals| :: ProposalMoves(s.proposals[i], Run(q, s, steps).proposals[i])
  {
    hide Next, HasOpenProposal;
    if steps != [] {
      RunKeepsProposals(q, s, steps[..|steps| - 1]);
      StepMovesProposals(q, Run(q, s, steps[..|steps| - 1]), steps[|steps| - 1]);
    }
  }

  /** How often a run turns proposal `i` into an executed one. */
  ghost function Executions(q: real -> real, s: Db, steps: seq<Step>, i: nat): nat
    requires i < |s.proposals|
  {
    if steps == [] then 0
    else
      var before := steps[..|steps| - 1];
      RunKeepsProposals(q, s, before);
      RunKeepsProposals(q, s, steps);
      Executions(q, s, before, i) +
        if Run(q, s, before).proposals[i].status == ProposalExecuted then 0
        else if Run(q, s, steps).proposals[i].status == ProposalExecuted then 1 else 0
  }

  /** A proposal executes at most once, and never when it starts out executed or expired. */
  lemma {:induction false} ExecutesAtMostOnce(q: real -> real, s: Db, steps: seq<Step>, i: nat)
    requires i < |s.proposals|
    ensures |s.proposals| <= |Run(q, s, steps).proposals|
    ensures Executions(q, s, steps, i) ==
            if s.proposals[i].status != ProposalPending then 0
            else if Run(q, s, steps).proposals[i].status == ProposalExecuted then 1 else 0
  {
    hide Next, HasOpenProposal;
    RunKeepsProposals(q, s, steps);
    if steps != [] {
      var before := steps[..|steps| - 1];
      ExecutesAtMostOnce(q, s, before, i);
      RunKeepsProposals(q, s, before);
      StepMovesProposals(q, Run(q, s, before), steps[|steps| - 1]);
    }
  }

  /** Executing a proposal puts what it proposes in force in the treasury it is signed for. */
  lemma ExecutionInstallsTheProposal(s: Db, treasury: nat, proposal: nat, wallet: string, signed: Result<()>)
    requires LogsSound(s) && proposal < |s.proposals| && s.proposals[proposal].status != ProposalExecuted
    requires var s' := SignProposal(s, treasury, proposal, wallet, signed).db;
             proposal < |s'.proposals| && s'.proposals[proposal].status == ProposalExecuted
    ensures var s' := SignProposal(s, treasury, proposal, wallet, signed).db;
            && SignProposal(s, treasury, proposal, wallet, signed).result.Ok?
            && treasury < |s.treasuries| == |s'.treasuries|
            && RulesInForce(s'.treasuries[treasury]) == Normalizer.Normalize(s.proposals[proposal].content)
            && |s'.treasuries[treasury].history| == |s.treasuries[treasury].history| + 1
  {
    hide AppendVersion, Sound, SoundLog, Threshold, WalletIsActive, RulesInForce, Normalizer.Normalize;
    if treasury < |s.treasuries| {
      var p := s.proposals[proposal];
      var executed := WithProposal(s, proposal, p.(signers := p.signers + [wallet], status := ProposalExecuted));
      AppendExtends(executed, treasury, p.content);
      ExtendedStaysSound(s.treasuries[treasury], p.content);
      CurrentReadsTheNewest(Extended(s.treasuries[treasury], p.content));
    }
  }

  // ----- Majorities -----

  predicate Distinct(signers: seq<string>) {
    forall i, j | 0 <= i < j < |signers| :: signers[i] != signers[j]
  }

  function SignerSet(signers: seq<string>): set<string> { set x | x in signers }

  lemma {:induction false} DistinctSize(signers: seq<string>)
    requires Distinct(signers)
    ensures |SignerSet(signers)| == |signers|
  {
    if signers != [] {
      var n := |signers| - 1;
      DistinctSize(signers[..n]);
      assert signers == signers[..n] + [signers[n]];
      assert SignerSet(signers) == SignerSet(signers[..n]) + {signers[n]};
    }
  }

  /** A proposal of a treasury whose active wallets are `w`: distinct signers among them, and a
      strict majority once it is executed. */
  predicate FairlySigned(p: Proposal, w: set<string>) {
    && Distinct(p.signers)
    && (forall i | 0 <= i < |p.signers| :: p.signers[i] in w)
    && (p.status == ProposalExecuted ==> 2 * |p.signers| > |w|)
  }

  predicate FairVotes(s: Db, t: nat, w: set<string>) {
    forall i | 0 <= i < |s.proposals| && s.proposals[i].treasury == t :: FairlySigned(s.proposals[i], w)
  }

  // ----- The rule of execution -----

  /** The signature is taken: the proposal is pending and not expired, and the wallet is active in the
      treasury of the path, whichever the proposal is for, and has not signed it. */
  predicate TakesSignature(s: Db, treasury: nat, proposal: nat, wallet: string, signed: Result<()>) {
    && proposal < |s.proposals| && s.proposals[proposal].status == ProposalPending
    && s.now <= s.proposals[proposal].expiresAt
    && treasury < |s.treasuries| && WalletIsActive(s.treasuries[treasury], wallet)
    && wallet !in s.proposals[proposal].signers && signed.Ok?
  }

  /** With one more signature the proposal has more than half as many as the treasury of the path
      has active wallets. */
  predicate Carries(s: Db, treasury: nat, proposal: nat)
    requires proposal < |s.proposals| && treasury < |s.treasuries|
  {
    2 * (|s.proposals[proposal].signers| + 1) > |ActiveWallets(s.treasuries[treasury])|
  }

  /** The exact rule: a signing request executes the proposal if and only if its signature is taken
      and all signatures stored so far, from whatever wallets and through whatever path, with this
      one outnumber half of the active wallets the treasury of this path has at this moment. */
  lemma SigningRule(s: Db, treasury: nat, proposal: nat, wallet: string, signed: Result<()>)
    ensures var s' := SignProposal(s, treasury, proposal, wallet, signed).db;
            && |s'.proposals| == |s.proposals|
            && (forall i | 0 <= i < |s.proposals| && i != proposal :: s'.proposals[i] == s.proposals[i])
            && (proposal < |s.proposals| ==>
                  var p, p' := s.proposals[proposal], s'.proposals[proposal];
                  && p'.signers == (if TakesSignature(s, treasury, proposal, wallet, signed) then p.signers + [wallet]
                                    else p.signers)
                  && (p.status != ProposalExecuted && p'.status == ProposalExecuted <==>
                      TakesSignature(s, treasury, proposal, wallet, signed) && Carries(s, treasury, proposal)))
  {
    hide AppendVersion;
    if proposal < |s.proposals| && treasury < |s.treasuries| {
      var p := s.proposals[proposal];
      AppendKeepsTheRest(WithProposal(s, proposal, p.(signers := p.signers + [wallet], status := ProposalExecuted)),
                         treasury, p.content);
    }
  }

  predicate IsSigning(step: Step) { step.OnGovernance? && step.governanceOp.Sign? }

  lemma NotSigningKeepsSigners(q: real -> real, s: Db, step: Step)
    requires !IsSigning(step)
    ensures s.proposals <= Next(q, s, step).proposals
  {
    hide PermitNext, AgentNext, UpdateConstitution, SignProposal, RollbackConstitution, HasOpenProposal,
      Normalizer.GenesisDocument, RegisterWallet, RemoveWallet, ConfirmMultisig, RevokeMultisig, VerifyOwnership, Valid,
      Normalizer.ToJson;
    match step
    case Tick(_) =>
    case OnPermits(op) => PermitOpsKeepTheRest(q, s, op);
    case OnAgents(op) => AgentStepsKeepProposals(s, op);
    case OnGovernance(op) =>
      if OnWallets(op) {
        WalletOpsKeepTheRest(s, op);
      }
      match op
      case Update(treasury, content) => UpdateKeepsProposals(s, treasury, content, 0);
      case Rollback(treasury, version) => RollbackKeepsTheRest(s, treasury, version);
      case _ =>
  }

  /** The step is a signature that carries proposal `i` by the rule. */
  predicate Executes(s: Db, step: Step, i: nat) {
    && IsSigning(step) && step.governanceOp.proposal == i
    && var op := step.governanceOp;
       TakesSignature(s, op.treasury, i, op.wallet, op.signed) && Carries(s, op.treasury, i)
  }

  lemma SigningStep(q: real -> real, s: Db, step: Step)
    requires IsSigning(step)
    ensures var op := step.governanceOp;
            Next(q, s, step) == SignProposal(s, op.treasury, op.proposal, op.wallet, op.signed).db
  {
    hide PermitNext, AgentNext, SignProposal;
  }

  lemma StepExecutesByTheRule(q: real -> real, s: Db, step: Step, i: nat)
    requires i < |s.proposals| && s.proposals[i].status != ProposalExecuted
    ensures i < |Next(q, s, step).proposals|
    ensures Next(q, s, step).proposals[i].status == ProposalExecuted <==> Executes(s, step, i)
  {
    hide Next, SignProposal, TakesSignature, Carries;
    if IsSigning(step) {
      var op := step.governanceOp;
      SigningStep(q, s, step);
      SigningRule(s, op.treasury, op.proposal, op.wallet, op.signed);
    } else {
      NotSigningKeepsSigners(q, s, step);
    }
  }

  /** Over any run a proposal comes to be executed only by a signature that carries it by the rule. */
  lemma {:induction false} ExecutedOnlyByTheRule(q: real -> real, s: Db, steps: seq<Step>, i: nat) returns (k: nat)
    requires i < |s.proposals| && s.proposals[i].status != ProposalExecuted
    requires |s.proposals| <= |Run(q, s, steps).proposals| && Run(q, s, steps).proposals[i].status == ProposalExecuted
    ensures k < |steps| && Executes(Run(q, s, steps[..k]), steps[k], i)
    ensures i < |Run(q, s, steps[..k]).proposals| && Run(q, s, steps[..k]).proposals[i].status != ProposalExecuted
  {
    hide Next, Executes;
    var n := |steps| - 1;
    RunKeepsProposals(q, s, steps[..n]);
    if Run(q, s, steps[..n]).proposals[i].status == ProposalExecuted {
      k := ExecutedOnlyByTheRule(q, s, steps[..n], i);
      assert steps[..n][..k] == steps[..k];
    } else {
      k := n;
      StepExecutesByTheRule(q, Run(q, s, steps[..n]), steps[n], i);
    }
  }

  // ----- When the rule makes a majority -----

  predicate SignersDistinct(s: Db) {
    forall i | 0 <= i < |s.proposals| :: Distinct(s.proposals[i].signers)
  }

  lemma StepKeepsSignersDistinct(q: real -> real, s: Db, step: Step)
    requires SignersDistinct(s)
    ensures SignersDistinct(Next(q, s, step))
  {
    hide Next, SignProposal, TakesSignature, Carries, HasOpenProposal;
    if IsSigning(step) {
      var op := step.governanceOp;
      SigningStep(q, s, step);
      SigningRule(s, op.treasury, op.proposal, op.wallet, op.signed);
      if op.proposal < |s.proposals| && TakesSignature(s, op.treasury, op.proposal, op.wallet, op.signed) {
        TakenIsNew(s, op.treasury, op.proposal, op.wallet, op.signed);
      }
    } else {
      NotSigningKeepsSigners(q, s, step);
      StepMovesProposals(q, s, step);
    }
  }

  lemma TakenIsNew(s: Db, treasury: nat, proposal: nat, wallet: string, signed: Result<()>)
    requires TakesSignature(s, treasury, proposal, wallet, signed)
    ensures wallet !in s.proposals[proposal].signers
  {}

  /** Over any run no wallet signs a proposal twice. */
  lemma {:induction false} RunsKeepSignersDistinct(q: real -> real, s: Db, steps: seq<Step>)
    requires SignersDistinct(s)
    ensures SignersDistinct(Run(q, s, steps))
  {
    hide Next, SignersDistinct;
    if steps != [] {
      RunsKeepSignersDistinct(q, s, steps[..|steps| - 1]);
      StepKeepsSignersDistinct(q, Run(q, s, steps[..|steps| - 1]), steps[|steps| - 1]);
    }
  }

  /** When every wallet that signed before is active in the treasury of the path, the signature by
      which a proposal is executed makes a strict majority of that treasury's active wallets.  When
      some are not, because removed or foreign, it does exactly if the others suffice without them. */
  lemma MajorityWithoutTheAbsent(s: Db, step: Step, i: nat)
    requires SignersDistinct(s) && i < |s.proposals| && Executes(s, step, i)
    ensures var op := step.governanceOp;
            var active := ActiveWallets(s.treasuries[op.treasury]);
            var stored := SignerSet(s.proposals[i].signers);
            var present := SignerSet(s.proposals[i].signers + [op.wallet]) * active;
            && (stored <= active ==> 2 * |present| > |active|)
            && (2 * |present| > |active| <==>
                2 * (|s.proposals[i].signers| + 1 - |stored - active|) > |active|)
  {
    var op := step.governanceOp;
    var active := ActiveWallets(s.treasuries[op.treasury]);
    var stored := SignerSet(s.proposals[i].signers);
    var signers := s.proposals[i].signers + [op.wallet];
    assert op.wallet in active;
    DistinctSize(s.proposals[i].signers);
    assert SignerSet(signers) * active == stored * active + {op.wallet};
    assert stored == stored * active + (stored - active);
    if stored <= active {
      assert stored - active == {};
    }
  }

  // ----- A fixed electorate -----

  /** A signature for a proposal of `t` is given where exactly the wallets `w` are active. */
  predicate Electorate(s: Db, step: Step, t: nat, w: set<string>) {
    IsSigning(step) && step.governanceOp.proposal < |s.proposals|
    && s.proposals[step.governanceOp.proposal].treasury == t && step.governanceOp.treasury < |s.treasuries| ==>
      ActiveWallets(s.treasuries[step.governanceOp.treasury]) == w
  }

  lemma TakenSignatureIsFair(s: Db, treasury: nat, proposal: nat, wallet: string, signed: Result<()>, w: set<string>)
    requires proposal < |s.proposals| && FairlySigned(s.proposals[proposal], w)
    requires treasury < |s.treasuries| ==> ActiveWallets(s.treasuries[treasury]) == w
    ensures var s' := SignProposal(s, treasury, proposal, wallet, signed).db;
            |s'.proposals| == |s.proposals| && FairlySigned(s'.proposals[proposal], w)
  {
    SigningRule(s, treasury, proposal, wallet, signed);
    var p, p' := s.proposals[proposal], SignProposal(s, treasury, proposal, wallet, signed).db.proposals[proposal];
    SigningMovesProposals(s, treasury, proposal, wallet, signed);
    hide SignProposal;
    assert p.status == ProposalExecuted ==> p' == p;
    if TakesSignature(s, treasury, proposal, wallet, signed) {
      assert wallet in ActiveWallets(s.treasuries[treasury]);
    }
  }

  lemma SigningKeepsFairVotes(s: Db, treasury: nat, proposal: nat, wallet: string, signed: Result<()>, t: nat,
                              w: set<string>)
    requires FairVotes(s, t, w)
    requires proposal < |s.proposals| && s.proposals[proposal].treasury == t && treasury < |s.treasuries| ==>
               ActiveWallets(s.treasuries[treasury]) == w
    ensures FairVotes(SignProposal(s, treasury, proposal, wallet, signed).db, t, w)
  {
    hide SignProposal, FairlySigned, ActiveWallets, TakesSignature, Carries;
    SigningRule(s, treasury, proposal, wallet, signed);
    SigningMovesProposals(s, treasury, proposal, wallet, signed);
    if proposal < |s.proposals| && s.proposals[proposal].treasury == t {
      TakenSignatureIsFair(s, treasury, proposal, wallet, signed, w);
    }
  }

  lemma OtherStepsKeepFairVotes(q: real -> real, s: Db, step: Step, t: nat, w: set<string>)
    requires FairVotes(s, t, w) && !IsSigning(step)
    ensures FairVotes(Next(q, s, step), t, w)
  {
    hide Next, FairlySigned, HasOpenProposal;
    NotSigningKeepsSigners(q, s, step);
    StepMovesProposals(q, s, step);
    var s' := Next(q, s, step);
    forall i | 0 <= i < |s'.proposals| && s'.proposals[i].treasury == t ensures FairlySigned(s'.proposals[i], w) {
      if i < |s.proposals| {
        assert s'.proposals[i] == s.proposals[i];
      } else {
        UnsignedIsFair(s'.proposals[i], w);
      }
    }
  }

  lemma StepKeepsFairVotes(q: real -> real, s: Db, step: Step, t: nat, w: set<string>)
    requires FairVotes(s, t, w) && Electorate(s, step, t, w)
    ensures FairVotes(Next(q, s, step), t, w)
  {
    hide Next, SignProposal, FairVotes, ActiveWallets;
    if IsSigning(step) {
      var op := step.governanceOp;
      SigningStep(q, s, step);
      SigningKeepsFairVotes(s, op.treasury, op.proposal, op.wallet, op.signed, t, w);
    } else {
      OtherStepsKeepFairVotes(q, s, step, t, w);
    }
  }

  lemma UnsignedIsFair(p: Proposal, w: set<string>)
    requires p.status == ProposalPending && p.signers == []
    ensures FairlySigned(p, w)
  {}

  /** Whenever a proposal of `t` is signed, exactly the wallets `w` are active where it is signed;
      in between they may change. */
  ghost predicate SteadyVoting(q: real -> real, s: Db, steps: seq<Step>, t: nat, w: set<string>) {
    steps == [] ||
    var before, last := steps[..|steps| - 1], steps[|steps| - 1];
    SteadyVoting(q, s, before, t, w) && Electorate(Run(q, s, before), last, t, w)
  }

  lemma {:induction false} VotesStayFair(q: real -> real, s: Db, steps: seq<Step>, t: nat, w: set<string>)
    requires SteadyVoting(q, s, steps, t, w) && FairVotes(s, t, w)
    ensures FairVotes(Run(q, s, steps), t, w)
  {
    hide Next, FairVotes, Electorate;
    if steps != [] {
      VotesStayFair(q, s, steps[..|steps| - 1], t, w);
      StepKeepsFairVotes(q, Run(q, s, steps[..|steps| - 1]), steps[|steps| - 1], t, w);
    }
  }

  lemma MajoritiesMeet(a: set<string>, b: set<string>, w: set<string>)
    requires a <= w && b <= w && 2 * |a| > |w| && 2 * |b| > |w|
    ensures exists x :: x in a && x in b
  {
    if a * b == {} {
      assert |a + b| == |a| + |b|;
      Contained(a + b, w);
      assert false;
    }
    var x :| x in a * b;
  }

  lemma {:induction false} Contained(a: set<string>, w: set<string>)
    requires a <= w
    ensures |a| <= |w|
  {
    assert w == a + (w - a);
  }

  /** Over a run with a fixed electorate, any two executed proposals of the treasury share a
      signer. */
  lemma ExecutedProposalsShareASigner(q: real -> real, s: Db, steps: seq<Step>, t: nat, w: set<string>, i: nat, j: nat)
    requires SteadyVoting(q, s, steps, t, w) && FairVotes(s, t, w)
    requires i < |Run(q, s, steps).proposals| && j < |Run(q, s, steps).proposals|
    requires Run(q, s, steps).proposals[i].treasury == t && Run(q, s, steps).proposals[i].status == ProposalExecuted
    requires Run(q, s, steps).proposals[j].treasury == t && Run(q, s, steps).proposals[j].status == ProposalExecuted
    ensures exists x ::
              x in w && x in Run(q, s, steps).proposals[i].signers && x in Run(q, s, steps).proposals[j].signers
  {
    hide Next, SteadyVoting, Distinct;
    VotesStayFair(q, s, steps, t, w);
    var p, p' := Run(q, s, steps).proposals[i], Run(q, s, steps).proposals[j];
    assert FairlySigned(p, w) && FairlySigned(p', w);
    DistinctSize(p.signers);
    DistinctSize(p'.signers);
    assert SignerSet(p.signers) <= w && SignerSet(p'.signers) <= w;
    MajoritiesMeet(SignerSet(p.signers), SignerSet(p'.signers), w);
  }

  // ----- One open proposal at a time -----

  predicate OneOpen(s: Db) {
    forall i, j | 0 <= i < j < |s.proposals| ::
      !(Open(s.proposals[i], s.proposals[i].treasury, s.now) && Open(s.proposals[j], s.proposals[i].treasury, s.now))
  }

  lemma StepKeepsOneOpen(q: real -> real, s: Db, step: Step)
    requires OneOpen(s)
    ensures OneOpen(Next(q, s, step))
  {
    hide Next;
    StepMovesProposals(q, s, step);
    var s' := Next(q, s, step);
    forall i, j | 0 <= i < j < |s'.proposals|
      ensures !(Open(s'.proposals[i], s'.proposals[i].treasury, s'.now) && Open(s'.proposals[j],
                                                                                s'.proposals[i].treasury, s'.now))
    {
      if Open(s'.proposals[i], s'.proposals[i].treasury, s'.now) {
        assert ProposalMoves(s.proposals[i], s'.proposals[i]);
        assert Open(s.proposals[i], s.proposals[i].treasury, s.now);
        if j < |s.proposals| {
          assert ProposalMoves(s.proposals[j], s'.proposals[j]);
        }
      }
    }
  }

  /** As time passes there is at most one unexpired pending proposal for each treasury. */
  lemma {:induction false} AtMostOneOpenProposal(q: real -> real, s: Db, steps: seq<Step>)
    requires OneOpen(s)
    ensures OneOpen(Run(q, s, steps))
  {
    hide Next, OneOpen;
    if steps != [] {
      AtMostOneOpenProposal(q, s, steps[..|steps| - 1]);
      StepKeepsOneOpen(q, Run(q, s, steps[..|steps| - 1]), steps[|steps| - 1]);
    }
  }

  /** A signature is still taken at the very instant a proposal expires. */
  predicate Signable(p: Proposal, now: int) {
    p.status == ProposalPending && now <= p.expiresAt
  }

  /** Of any two proposals of one treasury that can be signed at once, one expires at this instant. */
  lemma SecondSignableExpiresNow(s: Db, i: nat, j: nat)
    requires OneOpen(s) && i < j < |s.proposals| && s.proposals[i].treasury == s.proposals[j].treasury
    requires Signable(s.proposals[i], s.now) && Signable(s.proposals[j], s.now)
    ensures s.proposals[i].expiresAt == s.now || s.proposals[j].expiresAt == s.now
  {
    var t := s.proposals[i].treasury;
    assert !(Open(s.proposals[i], t, s.now) && Open(s.proposals[j], t, s.now));
  }

  /** The rule for a path: a wallet active in its treasury signs exactly the signable proposals it has
      not signed, whichever treasuries they are for.  So it may sign several at a time, but apart from
      one that expires at this instant only one of each treasury. */
  lemma PathSignsForAnyTreasury(s: Db, path: nat, wallet: string, i: nat, j: nat)
    requires OneOpen(s) && i < |s.proposals| && j < |s.proposals|
    requires path < |s.treasuries| && WalletIsActive(s.treasuries[path], wallet)
    ensures wallet !in s.proposals[i].signers ==>
              var s' := SignProposal(s, path, i, wallet, Ok(())).db;
              |s'.proposals| == |s.proposals| && (wallet in s'.proposals[i].signers <==>
                                                  Signable(s.proposals[i], s.now))
    ensures TakesSignature(s, path, i, wallet, Ok(())) && TakesSignature(s, path, j, wallet, Ok(())) && i != j ==>
              || s.proposals[i].treasury != s.proposals[j].treasury
              || s.proposals[i].expiresAt == s.now || s.proposals[j].expiresAt == s.now
  {
    hide SignProposal, WalletIsActive, OneOpen;
    SigningRule(s, path, i, wallet, Ok(()));
    if TakesSignature(s, path, i, wallet, Ok(())) && TakesSignature(s, path, j, wallet, Ok(())) && i != j
       && s.proposals[i].treasury == s.proposals[j].treasury {
      SecondSignableExpiresNow(s, if i < j then i else j, if i < j then j else i);
    }
  }

  /** That instant exists: a new proposal is accepted while the expiring one can still be signed. */
  lemma BoundaryAdmitsASecond(s: Db, i: nat, content: ConstitutionContent)
    requires i < |s.proposals| && s.proposals[i].status == ProposalPending && s.proposals[i].expiresAt == s.now
    requires s.proposals[i].treasury < |s.treasuries| && Valid(content)
    requires !HasOpenProposal(s, s.proposals[i].treasury)
    ensures var s' := CreateProposal(s, s.proposals[i].treasury, content).db;
            && |s'.proposals| == |s.proposals| + 1
            && s'.proposals[i].treasury == s'.proposals[|s.proposals|].treasury == s.proposals[i].treasury
            && Signable(s'.proposals[i], s'.now) && Signable(s'.proposals[|s.proposals|], s'.now)
  {
    hide Normalizer.ToJson;
  }
}
