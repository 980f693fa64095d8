/** The coordinator as one transition system: every handler and sweep is a step, and time passes
    in steps of its own.  What comes from outside (signatures, on-chain lookups, prices, nonces)
    is part of the step, so a statement about all steps holds whatever the outside does. */
module System {
  import opened Outcomes
  import opened Policy
  import opened Constitution
  import opened Permits
  import opened Store
  import opened PermitHandlers
  import opened GovernanceHandlers
  import opened AgentHandlers
  import Normalizer

  datatype PermitOp =
    | AskPermit(auth: AgentAuth, signed: Result<()>, request: PermitRequest)
    | AskGroup(auth: AgentAuth, signed: Result<()>, onBehalf: AgentAuth, legs: seq<PermitRequest>, requireAll: bool)
    | AskIntent(pubkey: string, signed: Result<()>, intent: Normalizer.Document, amount: Option<real>)
    | CommitIntent(permit: nat)
    | FailIntent(permit: nat)
    | Outcome(auth: AgentAuth, signed: Result<()>, permit: nat, pnl: real)
    | Resume(user: nat, treasury: nat)
    | SetTotal(treasury: nat, total: real)
    | SweepExpired

  datatype GovernanceOp =
    | NewTreasury(user: nat)
    | AddWallet(user: nat, treasury: nat, wallet: string)
    | DropWallet(user: nat, treasury: nat, wallet: string)
    | ConfirmWallet(user: nat, treasury: nat, wallet: string)
    | RevokeWallet(treasury: nat, wallet: string, accepted: Result<()>)
    | ProveWallet(proof: Result<()>, wallet: string)
    | Update(treasury: nat, content: ConstitutionContent)
    | Rollback(treasury: nat, version: int)
    | Propose(treasury: nat, content: ConstitutionContent)
    | Sign(treasury: nat, proposal: nat, wallet: string, signed: Result<()>)

  datatype AgentOp =
    | NewAgent(treasury: nat, name: string, pubkey: string)
    | BeginEnrolment(agent: nat, wallet: string, pubkey: string, nonce: nat)
    | Enrol(agent: nat, wallet: string, pubkey: string, nonce: nat, signed: Result<()>, signerOf: set<string>)
    | BeginConnect(pubkey: string, nonce: nat)
    | Connect(pubkey: string, nonce: nat, signed: Result<()>, signerOf: set<string>)
    | BeginMcp(pubkey: string, nonce: nat)
    | ConnectMcp(pubkey: string, nonce: nat, signed: Result<()>)
    | RefreshMcp(session: AgentAuth)
    | Beat(auth: AgentAuth, agent: nat, signerOf: set<string>)
    | SweepSilent
    | Suspend(treasury: nat, agent: nat)
    | Revoke(treasury: nat, agent: nat, scrubbed: Option<string>)

  datatype Step = Tick(micros: nat) | OnPermits(permitOp: PermitOp) | OnGovernance(governanceOp: GovernanceOp)
                | OnAgents(agentOp: AgentOp)

  function PermitNext(q: real -> real, s: Db, op: PermitOp): Db {
    match op
    case AskPermit(auth, signed, request) => RequestPermit(q, s, auth, signed, request).db
    case AskGroup(auth, signed, onBehalf, legs, all) => RequestPermitGroup(q, s, auth, signed, onBehalf, legs, all).db
    case AskIntent(pubkey, signed, intent, amount) => SubmitIntent(q, s, pubkey, signed, intent, amount).db
    case CommitIntent(permit) => IntentExecuted(s, permit)
    case FailIntent(permit) => IntentFailed(s, permit)
    case Outcome(auth, signed, permit, pnl) => ReportOutcome(s, auth, signed, permit, pnl).db
    case Resume(user, treasury) => ResumeTreasury(s, user, treasury).db
    case SetTotal(treasury, total) => Resync(s, treasury, total)
    case SweepExpired => ExpirePermits(s)
  }

  ghost function GovernanceNext(s: Db, op: GovernanceOp): Db {
    match op
    case NewTreasury(user) => CreateTreasury(s, user).db
    case AddWallet(user, treasury, wallet) => RegisterWallet(s, user, treasury, wallet).db
    case DropWallet(user, treasury, wallet) => RemoveWallet(s, user, treasury, wallet).db
    case ConfirmWallet(user, treasury, wallet) => ConfirmMultisig(s, user, treasury, wallet).db
    case RevokeWallet(treasury, wallet, accepted) => RevokeMultisig(s, treasury, wallet, accepted).db
    case ProveWallet(proof, wallet) => VerifyOwnership(s, proof, wallet).db
    case Update(treasury, content) => UpdateConstitution(s, treasury, content).db
    case Rollback(treasury, version) => RollbackConstitution(s, treasury, version).db
    case Propose(treasury, content) => CreateProposal(s, treasury, content).db
    case Sign(treasury, proposal, wallet, signed) => SignProposal(s, treasury, proposal, wallet, signed).db
  }

  function AgentNext(s: Db, op: AgentOp): Db {
    match op
    case NewAgent(treasury, name, pubkey) => CreateAgent(s, treasury, name, pubkey).db
    case BeginEnrolment(agent, wallet, pubkey, nonce) => StartEnrollment(s, agent, wallet, pubkey, nonce).db
    case Enrol(agent, wallet, pubkey, nonce, signed, signerOf) => EnrollPubkey(s, agent, wallet, pubkey, nonce,
                                                                               signed, signerOf).db
    case BeginConnect(pubkey, nonce) => StartConnect(s, pubkey, nonce).db
    case Connect(pubkey, nonce, signed, signerOf) => CompleteConnect(s, pubkey, nonce, signed, signerOf).db
    case BeginMcp(pubkey, nonce) => StartMcpConnect(s, pubkey, nonce).db
    case ConnectMcp(pubkey, nonce, signed) => CompleteMcpConnect(s, pubkey, nonce, signed).db
    case RefreshMcp(session) => RefreshMcpLiveness(s, session).db
    case Beat(auth, agent, signerOf) => Heartbeat(s, auth, agent, signerOf).db
    case SweepSilent => SweepInactive(s)
    case Suspend(treasury, agent) => SuspendAgent(s, treasury, agent).db
    case Revoke(treasury, agent, scrubbed) => RevokeAgent(s, treasury, agent, scrubbed).db
  }

  ghost function Next(q: real -> real, s: Db, step: Step): Db {
    match step
    case Tick(micros) => s.(now := s.now + micros)
    case OnPermits(op) => PermitNext(q, s, op)
    case OnGovernance(op) => GovernanceNext(s, op)
    case OnAgents(op) => AgentNext(s, op)
  }

  ghost function Run(q: real -> real, s: Db, steps: seq<Step>): Db {
    if steps == [] then s else Next(q, Run(q, s, steps[..|steps| - 1]), steps[|steps| - 1])
  }

  lemma {:induction false} RunsCompose(q: real -> real, s: Db, first: seq<Step>, second: seq<Step>)
    ensures Run(q, s, first + second) == Run(q, Run(q, s, first), second)
  {
    hide Next;
    if second == [] {
      assert first + second == first;
    } else {
      var n := |second| - 1;
      RunsCompose(q, s, first, second[..n]);
      assert (first + second)[..|first| + n] == first + second[..n];
    }
  }

  // ----- What a step can do to each table -----

  /** No treasury is lost, changes its owner, peak or total, or its health other than from waiting
      for a wallet to healthy; new ones wait for a wallet. */
  predicate KeepsTreasuries(s: Db, s': Db) {
    && |s.treasuries| <= |s'.treasuries|
    && (forall t | 0 <= t < |s.treasuries| ::
          var (before, after) := (s.treasuries[t], s'.treasuries[t]);
          && after.owner == before.owner && after.peak == before.peak && after.current == before.current
          && (after.health == before.health || (before.health == PendingWallet && after.health == Healthy)))
    && (forall t | |s.treasuries| <= t < |s'.treasuries| :: s'.treasuries[t].health == PendingWallet)
  }

  /** No agent slot is lost or changes its treasury; new ones belong to an existing treasury. */
  predicate KeepsSlots(s: Db, s': Db) {
    && |s.agents| <= |s'.agents|
    && (forall a | 0 <= a < |s.agents| :: s'.agents[a].treasury == s.agents[a].treasury)
    && (forall a | |s.agents| <= a < |s'.agents| :: s'.agents[a].treasury < |s'.treasuries|)
  }

  function RequestOf(p: Permit): PermitRequest { PermitRequest(p.agent, p.treasury, p.wallet, p.asset, p.requested) }

  /** The engine's verdict on what a permit row asks, were `earlier` all the rows before it. */
  function VerdictOn(s: Db, earlier: seq<Permit>, p: Permit): (r: PolicyResult)
    requires RuleFor(s, RequestOf(p)).Ok?
  {
    var rule := RuleFor(s, RequestOf(p)).value;
    Verdict(CaseFor(s.(permits := earlier), RequestOf(p), rule.0, rule.1))
  }

  /** The row `p` is the verdict on its own request, given the rows before it. */
  predicate Judged(q: real -> real, s: Db, earlier: seq<Permit>, p: Permit) {
    && RuleFor(s, RequestOf(p)).Ok?
    && p == NewPermit(q, s, RequestOf(p), p.group, VerdictOn(s, earlier, p))
  }

  predicate AllJudged(q: real -> real, s: Db, ps: seq<Permit>, group: nat) {
    && s.permits <= ps
    && forall i | |s.permits| <= i < |ps| :: ps[i].group == group && Judged(q, s, ps[..i], ps[i])
  }

  predicate Grants(q: real -> real, s: Db, s': Db) {
    && s' == s.(permits := s'.permits, groups := s'.groups)
    && |s'.groups| == |s.groups| + 1 && s.groups <= s'.groups
    && AllJudged(q, s, s'.permits, |s.groups|)
  }

  lemma SingleInserts(q: real -> real, s: Db, d: Db, request: PermitRequest, group: nat)
    requires d == s.(permits := d.permits, groups := d.groups)
    requires ProcessSinglePermit(q, d, request, group).Ok?
    ensures var r := ProcessSinglePermit(q, d, request, group).value;
            exists p :: r.db == d.(permits := d.permits + [p]) && p.group == group && Judged(q, s, d.permits, p)
  {
    assert RuleFor(d, request) == RuleFor(s, request);
    var rule := RuleFor(s, request).value;
    assert CaseFor(d, request, rule.0, rule.1) == CaseFor(s.(permits := d.permits), request, rule.0, rule.1);
    var p := NewPermit(q, d, request, group, Verdict(CaseFor(d, request, rule.0, rule.1)));
    assert RequestOf(p) == request;
  }

  lemma JudgedAppends(q: real -> real, s: Db, before: seq<Permit>, p: Permit, group: nat)
    requires AllJudged(q, s, before, group)
    requires p.group == group && Judged(q, s, before, p)
    ensures AllJudged(q, s, before + [p], group)
  {
    hide Judged;
    var ps := before + [p];
    assert ps[..|before|] == before;
    forall i | |s.permits| <= i < |ps| ensures ps[i].group == group && Judged(q, s, ps[..i], ps[i]) {
      if i < |before| {
        assert ps[..i] == before[..i];
      }
    }
  }

  lemma SingleIsJudged(q: real -> real, s: Db, d: Db, request: PermitRequest, group: nat)
    requires d == s.(permits := d.permits, groups := d.groups)
    requires ProcessSinglePermit(q, d, request, group).Ok?
    requires AllJudged(q, s, d.permits, group)
    ensures AllJudged(q, s, ProcessSinglePermit(q, d, request, group).value.db.permits, group)
  {
    hide ProcessSinglePermit, AllJudged, Judged;
    SingleInserts(q, s, d, request, group);
    var r := ProcessSinglePermit(q, d, request, group).value;
    var p :| r.db == d.(permits := d.permits + [p]) && p.group == group && Judged(q, s, d.permits, p);
    JudgedAppends(q, s, d.permits, p, group);
  }

  lemma {:induction false} LegsAreJudged(q: real -> real, s: Db, d: Db, legs: seq<PermitRequest>, group: nat)
    requires d == s.(permits := d.permits, groups := d.groups)
    requires ProcessLegs(q, d, legs, group).Ok?
    requires AllJudged(q, s, d.permits, group)
    ensures AllJudged(q, s, ProcessLegs(q, d, legs, group).value.db.permits, group)
  {
    if legs != [] {
      var n := |legs| - 1;
      LegsAreJudged(q, s, d, legs[..n], group);
      SingleIsJudged(q, s, ProcessLegs(q, d, legs[..n], group).value.db, legs[n], group);
    }
  }

  lemma NothingIsJudged(q: real -> real, s: Db, group: nat)
    ensures AllJudged(q, s, s.permits, group)
  {}

  lemma IssueSingleJudges(q: real -> real, s: Db, auth: AgentAuth, request: PermitRequest, granted: GroupStatus)
    ensures var s' := IssueSingle(q, s, auth, request, granted).db; s' == s || Grants(q, s, s')
  {
    hide ProcessSinglePermit, AllJudged;
    var d := OpenGroup(s, auth, true, request.amount);
    NothingIsJudged(q, s, |s.groups|);
    if ProcessSinglePermit(q, d, request, |s.groups|).Ok? {
      SingleIsJudged(q, s, d, request, |s.groups|);
    }
  }

  lemma GroupRequestJudges(q: real -> real, s: Db, auth: AgentAuth, signed: Result<()>, group: AgentAuth,
                           legs: seq<PermitRequest>, requireAll: bool)
    ensures var s' := RequestPermitGroup(q, s, auth, signed, group, legs, requireAll).db; s' == s || Grants(q, s, s')
  {
    hide ProcessLegs, AllJudged, SortLegs, TotalApproved, RefusedTogether, Authenticate;
    var d := OpenGroup(s, group, requireAll, 0.0);
    assert AllJudged(q, s, d.permits, |s.groups|) by { NothingIsJudged(q, s, |s.groups|); }
    if ProcessLegs(q, d, SortLegs(legs), |s.groups|).Ok? {
      LegsAreJudged(q, s, d, SortLegs(legs), |s.groups|);
    }
  }

  predicate Asks(op: PermitOp) { op.AskPermit? || op.AskGroup? || op.AskIntent? }

  /** A request of any kind either changes nothing or inserts rows, each of them the engine's
      verdict given all rows before it; nothing else but the new group changes. */
  lemma AskingJudges(q: real -> real, s: Db, op: PermitOp)
    requires Asks(op)
    ensures var s' := PermitNext(q, s, op); s' == s || Grants(q, s, s')
  {
    match op
    case AskPermit(auth, signed, request) => IssueSingleJudges(q, s, auth, request, GroupActive);
    case AskGroup(auth, signed, onBehalf, legs, all) => GroupRequestJudges(q, s, auth, signed, onBehalf, legs, all);
    case AskIntent(pubkey, signed, intent, amount) =>
      var r := IntentRequest(s, pubkey, signed, intent, amount);
      if r.Ok? {
        IssueSingleJudges(q, s, AgentAuth(r.value.agent, r.value.treasury), r.value, GroupExecuting);
      }
  }

  lemma RemovalKeepsTheRest(s: Db, treasury: nat, agent: nat, scrubbed: Option<string>)
    requires treasury < |s.treasuries|
    ensures var s' := RemoveAgentRules(s, treasury, agent, scrubbed).db;
            s' == s.(treasuries := s'.treasuries) && |s'.treasuries| == |s.treasuries| && KeepsTreasuries(s, s')
  {
    hide Normalizer.Normalize, Normalizer.ToJson;
  }

  lemma OutcomeAdvances(s: Db, auth: AgentAuth, signed: Result<()>, permit: nat, pnl: real)
    ensures Advanced(s.permits, ReportOutcome(s, auth, signed, permit, pnl).db.permits)
  {
    hide ContentAt, DrawdownReached, RulesInForce, Authenticate;
    if permit < |s.permits| && s.permits[permit].treasury < |s.treasuries| {
      var db' := RecordOutcome(s, permit, pnl);
      var ps' := Settle(db'.permits, InTreasury(s.permits[permit].treasury), Revoked);
      assert Advanced(s.permits, db'.permits) && Advanced(s.permits, ps');
    }
  }

  lemma OtherPermitOpsAdvance(q: real -> real, s: Db, op: PermitOp)
    requires !Asks(op)
    ensures Advanced(s.permits, PermitNext(q, s, op).permits)
  {
    hide ReportOutcome;
    if op.Outcome? {
      OutcomeAdvances(s, op.auth, op.signed, op.permit, op.pnl);
    }
  }

  /** Permit operations touch permits, groups, and the health and totals of treasuries. */
  lemma PermitOpsKeepTheRest(q: real -> real, s: Db, op: PermitOp)
    ensures var s' := PermitNext(q, s, op);
            && s' == s.(permits := s'.permits, groups := s'.groups, treasuries := s'.treasuries)
            && |s.groups| <= |s'.groups| && |s'.treasuries| == |s.treasuries|
            && forall t | 0 <= t < |s.treasuries| ::
                 var (before, after) := (s.treasuries[t], s'.treasuries[t]);
                 after == before.(health := after.health, peak := after.peak, current := after.current)
  {
    hide RequestPermit, RequestPermitGroup, SubmitIntent, Judged, ContentAt, DrawdownReached, RulesInForce,
      Authenticate, Settle, AllJudged;
    if Asks(op) {
      AskingJudges(q, s, op);
    }
  }

  lemma RevokingKeepsRows(s: Db, treasury: nat, agent: nat, scrubbed: Option<string>)
    ensures var s' := RevokeAgent(s, treasury, agent, scrubbed).db;
            Advanced(s.permits, s'.permits) && KeepsTreasuries(s, s') && KeepsSlots(s, s') && |s'.groups| == |s.groups|
  {
    hide RemoveAgentRules;
    if treasury < |s.treasuries| {
      var settled := s.(permits := Settle(s.permits, OfSlot(treasury, agent), Revoked),
                        groups := RevokeGroups(s.groups, treasury, agent));
      RemovalKeepsTheRest(settled, treasury, agent, scrubbed);
    }
  }

  /** A handler that touches one slot, and no column that identifies it. */
  predicate TouchesOneSlot(s: Db, s': Db) {
    && s' == s.(agents := s'.agents, enrolments := s'.enrolments, connects := s'.connects, mcpNonces := s'.mcpNonces)
    && |s'.agents| == |s.agents|
    && forall a | 0 <= a < |s.agents| :: s'.agents[a].treasury == s.agents[a].treasury
  }

  lemma EnrollingTouchesOneSlot(s: Db, agent: nat, wallet: string, pubkey: string, nonce: nat, signed: Result<()>,
                                signerOf: set<string>)
    ensures TouchesOneSlot(s, EnrollPubkey(s, agent, wallet, pubkey, nonce, signed, signerOf).db)
  {
    hide ConnectionStatus, KeyHeldByOther;
  }

  lemma ConnectingTouchesOneSlot(s: Db, op: AgentOp)
    requires op.Enrol? || op.Connect? || op.ConnectMcp? || op.RefreshMcp? || op.Beat?
    ensures TouchesOneSlot(s, AgentNext(s, op))
  {
    hide ConnectionStatus, McpStatus, StrKey.ValidPublicKey, RevokeAgent, EnrollPubkey, CreateAgent, StartEnrollment;
    if op.Enrol? {
      EnrollingTouchesOneSlot(s, op.agent, op.wallet, op.pubkey, op.nonce, op.signed, op.signerOf);
    }
  }

  lemma AgentStepsKeepRows(s: Db, op: AgentOp)
    ensures var s' := AgentNext(s, op);
            Advanced(s.permits, s'.permits) && KeepsTreasuries(s, s') && KeepsSlots(s, s') && |s'.groups| == |s.groups|
  {
    hide RevokeAgent, EnrollPubkey, CompleteConnect, CompleteMcpConnect, RefreshMcpLiveness, Heartbeat, AgentByPubkey,
      StrKey.ValidPublicKey, WalletIsActive, TimedOut, BarredError;
    if op.Revoke? {
      RevokingKeepsRows(s, op.treasury, op.agent, op.scrubbed);
    } else if op.Enrol? || op.Connect? || op.ConnectMcp? || op.RefreshMcp? || op.Beat? {
      ConnectingTouchesOneSlot(s, op);
    }
  }

  lemma AppendKeepsTheRest(s: Db, treasury: nat, content: Normalizer.Document)
    requires treasury < |s.treasuries|
    ensures var s' := AppendVersion(s, treasury, content).db;
            s' == s.(treasuries := s'.treasuries) && KeepsTreasuries(s, s')
  {}

  lemma UpdateKeepsTheRest(s: Db, treasury: nat, content: ConstitutionContent)
    ensures var s' := UpdateConstitution(s, treasury, content).db;
            s' == s.(treasuries := s'.treasuries) && KeepsTreasuries(s, s')
  {
    hide AppendVersion, Normalizer.ToJson, Valid;
    if treasury < |s.treasuries| {
      AppendKeepsTheRest(s, treasury, Normalizer.ToJson(content));
    }
  }

  lemma SigningKeepsTheRest(s: Db, treasury: nat, proposal: nat, wallet: string, signed: Result<()>)
    ensures var s' := SignProposal(s, treasury, proposal, wallet, signed).db;
            s' == s.(treasuries := s'.treasuries, proposals := s'.proposals) && KeepsTreasuries(s, s')
  {
    hide AppendVersion, Threshold, WalletIsActive;
    if proposal < |s.proposals| && treasury < |s.treasuries| {
      var p := s.proposals[proposal];
      AppendKeepsTheRest(WithProposal(s, proposal, p.(signers := p.signers + [wallet], status := ProposalExecuted)),
                         treasury, p.content);
    }
  }

  lemma RollbackKeepsTheRest(s: Db, treasury: nat, version: int)
    ensures var s' := RollbackConstitution(s, treasury, version).db;
            s' == s.(treasuries := s'.treasuries) && KeepsTreasuries(s, s')
  {
    hide UpdateConstitution;
    if treasury < |s.treasuries| && ContentAt(s.treasuries[treasury].history, version).Some? {
      var read := Normalizer.Normalize(ContentAt(s.treasuries[treasury].history, version).value);
      if read.Ok? {
        UpdateKeepsTheRest(s, treasury, read.value);
      }
    }
  }

  predicate OnWallets(op: GovernanceOp) {
    op.AddWallet? || op.DropWallet? || op.ConfirmWallet? || op.RevokeWallet? || op.ProveWallet?
  }

  /** Wallet operations touch the wallets of treasuries, and the health of those that waited for one. */
  lemma WalletOpsKeepTheRest(s: Db, op: GovernanceOp)
    requires OnWallets(op)
    ensures var s' := GovernanceNext(s, op);
            && s' == s.(treasuries := s'.treasuries) && |s'.treasuries| == |s.treasuries|
            && forall t | 0 <= t < |s.treasuries| ::
                 var (before, after) := (s.treasuries[t], s'.treasuries[t]);
                 && after == before.(wallets := after.wallets, health := after.health)
                 && (after.health != before.health ==> before.health == PendingWallet && after.health == Healthy)
  {
    hide UpdateConstitution, SignProposal, RollbackConstitution, CreateProposal, CreateTreasury;
  }

  lemma GovernanceKeepsTheRest(s: Db, op: GovernanceOp)
    ensures var s' := GovernanceNext(s, op);
            s' == s.(treasuries := s'.treasuries, proposals := s'.proposals) && KeepsTreasuries(s, s')
  {
    hide UpdateConstitution, SignProposal, RollbackConstitution, HasOpenProposal, Normalizer.GenesisDocument,
      RegisterWallet, RemoveWallet, ConfirmMultisig, RevokeMultisig, VerifyOwnership;
    if OnWallets(op) {
      WalletOpsKeepTheRest(s, op);
    } else if op.Update? {
      UpdateKeepsTheRest(s, op.treasury, op.content);
    } else if op.Rollback? {
      RollbackKeepsTheRest(s, op.treasury, op.version);
    } else if op.Sign? {
      SigningKeepsTheRest(s, op.treasury, op.proposal, op.wallet, op.signed);
    }
  }

  /** Either rows are granted, one verdict after the other, or the rows there are advance. */
  lemma StepGrantsOrAdvances(q: real -> real, s: Db, step: Step)
    ensures Grants(q, s, Next(q, s, step)) || Advanced(s.permits, Next(q, s, step).permits)
  {
    hide PermitNext, GovernanceNext, AgentNext;
    match step
    case Tick(_) =>
    case OnPermits(op) => if Asks(op) { AskingJudges(q, s, op); } else { OtherPermitOpsAdvance(q, s, op); }
    case OnGovernance(op) => GovernanceKeepsTheRest(s, op);
    case OnAgents(op) => AgentStepsKeepRows(s, op);
  }
}
