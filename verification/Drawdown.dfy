/** The drawdown guard: a treasury is halted, or its drawdown is within the limit in force.  Of all
    steps only two kinds break it: a resync to a total that is too low, which halts nothing, and a
    constitution whose limit the drawdown already exceeds. */
module Drawdown {
  import opened Outcomes
  import opened Policy
  import opened Permits
  import opened Store
  import opened PermitHandlers
  import opened GovernanceHandlers
  import opened AgentHandlers
  import opened System
  import opened ConstitutionLog
  import opened Recovery
  import opened Voting
  import opened Constitution
  import opened Normalizer
  import StrKey

  ghost function LimitInForce(s: Db, t: nat): real
    requires LogsSound(s) && t < |s.treasuries|
  {
    CurrentReadsTheNewest(s.treasuries[t]);
    RulesInForce(s.treasuries[t]).value.rules.maxDrawdownPct
  }

  /** Halted, or passing the engine's rule 8. */
  ghost predicate Guarded(s: Db, t: nat)
    requires LogsSound(s) && t < |s.treasuries|
  {
    s.treasuries[t].health == Halted
    || !DrawdownReached(s.treasuries[t].peak, s.treasuries[t].current, LimitInForce(s, t))
  }

  /** A resync that leaves the treasury unhalted at too low a total. */
  ghost predicate SinksTotal(s: Db, step: Step, t: nat)
    requires LogsSound(s) && t < |s.treasuries|
  {
    && s.treasuries[t].health != Halted
    && step.OnPermits? && step.permitOp.SetTotal? && step.permitOp.treasury == t
    && DrawdownReached(Max(s.treasuries[t].peak, step.permitOp.total), step.permitOp.total, LimitInForce(s, t))
  }

  ghost function LimitOf(doc: Document): real
    requires Sound(doc)
  {
    Normalize(doc).value.rules.maxDrawdownPct
  }

  /** The document a step puts in force in a treasury: a valid update, a rollback to a stored version,
      or a proposal executed through the treasury's path.  A revocation also writes a version, but one
      with the limit there was. */
  ghost function Installs(s: Db, step: Step, t: nat): (doc: Option<Document>)
    requires LogsSound(s) && t < |s.treasuries|
    ensures doc.Some? ==> Sound(doc.value)
  {
    if !step.OnGovernance? then None
    else
      match step.governanceOp
      case Update(treasury, content) =>
        if treasury == t && Valid(content) then WrittenIsSound(content); Some(ToJson(content)) else None
      case Rollback(treasury, version) =>
        var history := s.treasuries[t].history;
        if treasury == t && 0 <= version < |history| then Some(history[version].content) else None
      case Sign(treasury, proposal, _, _) =>
        if treasury == t && proposal < |s.proposals| && Executes(s, step, proposal)
        then Some(s.proposals[proposal].content)
        else None
      case _ => None
  }

  /** A step that puts a limit in force which the drawdown has already reached, in a treasury that is
      not halted. */
  ghost predicate TightensTooFar(s: Db, step: Step, t: nat)
    requires LogsSound(s) && t < |s.treasuries|
  {
    && s.treasuries[t].health != Halted && Installs(s, step, t).Some?
    && DrawdownReached(s.treasuries[t].peak, s.treasuries[t].current, LimitOf(Installs(s, step, t).value))
  }

  lemma LimitIsPositive(s: Db, t: nat)
    requires LogsSound(s) && t < |s.treasuries|
    ensures LimitInForce(s, t) > 0.0
  {
    hide Normalizer.Normalize;
    CurrentReadsTheNewest(s.treasuries[t]);
  }

  lemma LimitIs(s: Db, t: nat)
    requires LogsSound(s) && t < |s.treasuries|
    ensures RulesInForce(s.treasuries[t]).Ok?
    ensures LimitInForce(s, t) == RulesInForce(s.treasuries[t]).value.rules.maxDrawdownPct
  {
    hide Normalizer.Normalize;
    CurrentReadsTheNewest(s.treasuries[t]);
  }

  // ----- Which limit is in force after a step -----

  predicate SameLog(t: Treasury, t': Treasury) { t'.history == t.history && t'.version == t.version }

  lemma SameLogSameLimit(s: Db, s': Db, t: nat)
    requires LogsSound(s) && LogsSound(s') && t < |s.treasuries| && t < |s'.treasuries|
    requires SameLog(s.treasuries[t], s'.treasuries[t])
    ensures LimitInForce(s', t) == LimitInForce(s, t)
  {
    hide LogsSound, ContentAt, Normalize;
  }

  lemma UpdateInstalls(s: Db, treasury: nat, content: ConstitutionContent, t: nat)
    requires LogsSound(s) && t < |s.treasuries|
    ensures var s' := UpdateConstitution(s, treasury, content).db;
            && |s'.treasuries| == |s.treasuries|
            && if treasury == t && Valid(content) then RulesInForce(s'.treasuries[t]) == Ok(content)
               else SameLog(s.treasuries[t], s'.treasuries[t])
  {
    UpdatePutsInForce(s, treasury, content);
    hide Valid, ToJson, RulesInForce, LogsSound;
  }

  lemma RollbackInstalls(s: Db, treasury: nat, version: int, t: nat)
    requires LogsSound(s) && t < |s.treasuries|
    ensures var s', history := RollbackConstitution(s, treasury, version).db, s.treasuries[t].history;
            && |s'.treasuries| == |s.treasuries|
            && if treasury == t && 0 <= version < |history|
               then RulesInForce(s'.treasuries[t]) == Normalize(history[version].content)
               else SameLog(s.treasuries[t], s'.treasuries[t])
  {
    RollbackPutsInForce(s, treasury, version);
    hide Normalize, RulesInForce, LogsSound, Valid, ToJson;
  }

  lemma SigningInstalls(s: Db, treasury: nat, proposal: nat, wallet: string, signed: Result<()>, t: nat)
    requires LogsSound(s) && t < |s.treasuries|
    ensures var s' := SignProposal(s, treasury, proposal, wallet, signed).db;
            && |s'.treasuries| == |s.treasuries|
            && if treasury == t && TakesSignature(s, treasury, proposal, wallet, signed)
                  && Carries(s, treasury, proposal)
               then RulesInForce(s'.treasuries[t]) == Normalize(s.proposals[proposal].content)
               else SameLog(s.treasuries[t], s'.treasuries[t])
  {
    SigningRule(s, treasury, proposal, wallet, signed);
    if treasury == t && TakesSignature(s, treasury, proposal, wallet, signed) && Carries(s, treasury, proposal) {
      ExecutionInstallsTheProposal(s, treasury, proposal, wallet, signed);
    }
    hide Normalize, RulesInForce, LogsSound;
  }

  lemma RevokingKeepsLimit(s: Db, treasury: nat, agent: nat, scrubbed: Option<string>, t: nat)
    requires LogsSound(s) && t < |s.treasuries|
    requires var s' := RevokeAgent(s, treasury, agent, scrubbed).db; LogsSound(s') && t < |s'.treasuries|
    ensures LimitInForce(RevokeAgent(s, treasury, agent, scrubbed).db, t) == LimitInForce(s, t)
  {
    hide RemoveAgentRules, Sound, SoundLog, ToJson, Valid, Normalize, ContentAt;
    var s' := RevokeAgent(s, treasury, agent, scrubbed).db;
    if treasury < |s.treasuries| {
      var settled := s.(permits := Settle(s.permits, OfSlot(treasury, agent), Revoked),
                        groups := RevokeGroups(s.groups, treasury, agent));
      RemovalExtends(settled, treasury, agent, scrubbed);
      var content := RulesInForce(s.treasuries[treasury]).value;
      var kept := content.(walletRules := WithoutAgent(content.walletRules, agent), memo := scrubbed);
      NormalizeInvertsToJson(kept);
      CurrentReadsTheNewest(s'.treasuries[t]);
    }
  }

  lemma OtherAgentStepsKeepTreasuries(s: Db, op: AgentOp)
    requires !op.Revoke?
    ensures AgentNext(s, op).treasuries == s.treasuries
  {
    hide RevokeAgent, EnrollPubkey, CompleteConnect, CompleteMcpConnect, RefreshMcpLiveness, Heartbeat,
      StrKey.ValidPublicKey, WalletIsActive, TimedOut;
    if op.Enrol? || op.Connect? || op.ConnectMcp? || op.RefreshMcp? || op.Beat? {
      ConnectingTouchesOneSlot(s, op);
    }
  }

  lemma GovernanceInstalls(s: Db, op: GovernanceOp, t: nat)
    requires LogsSound(s) && t < |s.treasuries|
    ensures var s' := GovernanceNext(s, op);
            && t < |s'.treasuries|
            && match Installs(s, OnGovernance(op), t)
               case Some(doc) => RulesInForce(s'.treasuries[t]) == Normalize(doc)
               case None => SameLog(s.treasuries[t], s'.treasuries[t])
  {
    hide UpdateConstitution, SignProposal, RollbackConstitution, HasOpenProposal, Normalizer.GenesisDocument,
      RegisterWallet, RemoveWallet, ConfirmMultisig, RevokeMultisig, VerifyOwnership, Valid, ToJson, Normalize,
      RulesInForce, LogsSound;
    if OnWallets(op) {
      WalletOpsKeepTheRest(s, op);
    }
    match op
    case Update(treasury, content) => {
      UpdateInstalls(s, treasury, content, t);
      NormalizeInvertsToJson(content);
    }
    case Rollback(treasury, version) => RollbackInstalls(s, treasury, version, t);
    case Sign(treasury, proposal, wallet, signed) => SigningInstalls(s, treasury, proposal, wallet, signed, t);
    case _ =>
  }

  /** After a step the limit in force is that of the document it puts in force, or the one before. */
  lemma LimitAfter(q: real -> real, s: Db, step: Step, t: nat)
    requires LogsSound(s) && t < |s.treasuries|
    ensures LogsSound(Next(q, s, step)) && t < |Next(q, s, step).treasuries|
    ensures LimitInForce(Next(q, s, step), t) ==
            if Installs(s, step, t).Some? then LimitOf(Installs(s, step, t).value) else LimitInForce(s, t)
  {
    hide PermitNext, GovernanceNext, RevokeAgent, LogsSound, LimitInForce, Normalize;
    StepKeepsLogsSound(q, s, step);
    var s' := Next(q, s, step);
    assert s.treasuries[t].history <= s'.treasuries[t].history;
    match step
    case Tick(_) => SameLogSameLimit(s, s', t);
    case OnPermits(op) => {
      PermitOpsKeepTheRest(q, s, op);
      SameLogSameLimit(s, s', t);
    }
    case OnGovernance(op) => {
      GovernanceInstalls(s, op, t);
      if Installs(s, step, t).None? {
        SameLogSameLimit(s, s', t);
      } else {
        LimitIs(s', t);
      }
    }
    case OnAgents(op) => {
      if op.Revoke? {
        RevokingKeepsLimit(s, op.treasury, op.agent, op.scrubbed, t);
      } else {
        OtherAgentStepsKeepTreasuries(s, op);
        SameLogSameLimit(s, s', t);
      }
    }
  }

  // ----- The steps that touch peak, total or health -----

  predicate MovesMoney(step: Step) {
    step.OnPermits? && (step.permitOp.Outcome? || step.permitOp.Resume? || step.permitOp.SetTotal?)
  }

  lemma OtherStepsKeepTreasuries(q: real -> real, s: Db, step: Step)
    requires !MovesMoney(step)
    ensures KeepsTreasuries(s, Next(q, s, step))
  {
    hide GovernanceNext, AgentNext, RequestPermit, RequestPermitGroup, SubmitIntent, ReportOutcome, Judged, Settle;
    match step
    case Tick(_) =>
    case OnPermits(op) => if Asks(op) { AskingJudges(q, s, op); }
    case OnGovernance(op) => GovernanceKeepsTheRest(s, op);
    case OnAgents(op) => AgentStepsKeepRows(s, op);
  }

  lemma OutcomeGuards(s: Db, auth: AgentAuth, signed: Result<()>, permit: nat, pnl: real, t: nat)
    requires t < |s.treasuries|
    ensures var r := ReportOutcome(s, auth, signed, permit, pnl);
            && |r.db.treasuries| == |s.treasuries|
            && (r.db.treasuries[t] == s.treasuries[t]
                || (r.result.Ok? && permit < |s.permits| && s.permits[permit].treasury == t))
  {
    hide ContentAt, RulesInForce, DrawdownReached, Authenticate, Settle;
  }

  lemma OutcomeKeepsGuard(s: Db, auth: AgentAuth, signed: Result<()>, permit: nat, pnl: real, t: nat)
    requires LogsSound(s) && t < |s.treasuries| && Guarded(s, t)
    requires var s' := ReportOutcome(s, auth, signed, permit, pnl).db;
             LogsSound(s') && t < |s'.treasuries| && LimitInForce(s', t) == LimitInForce(s, t)
    ensures Guarded(ReportOutcome(s, auth, signed, permit, pnl).db, t)
  {
    hide LogsSound, LimitInForce, ReportOutcome, DrawdownReached;
    OutcomeGuards(s, auth, signed, permit, pnl, t);
    if ReportOutcome(s, auth, signed, permit, pnl).db.treasuries[t] != s.treasuries[t] {
      OutcomeHaltsOnDrawdown(s, auth, signed, permit, pnl);
      LimitIs(s, t);
    }
  }

  lemma MoneyStepsGuard(q: real -> real, s: Db, step: Step, t: nat)
    requires MovesMoney(step) && LogsSound(s) && t < |s.treasuries| && Guarded(s, t)
    requires LogsSound(Next(q, s, step)) && t < |Next(q, s, step).treasuries|
    requires LimitInForce(Next(q, s, step), t) == LimitInForce(s, t)
    ensures Guarded(Next(q, s, step), t) <==> !SinksTotal(s, step, t)
  {
    hide LogsSound, LimitInForce, ReportOutcome, RequestPermit, RequestPermitGroup, SubmitIntent;
    LimitIsPositive(s, t);
    if step.permitOp.Outcome? {
      var op := step.permitOp;
      OutcomeKeepsGuard(s, op.auth, op.signed, op.permit, op.pnl, t);
    }
  }

  /** A step breaks the guard of a treasury exactly when it resyncs it too low or gives it a limit
      it has already exceeded, both told from the step and the state before it. */
  lemma {:induction false} GuardBreaksExactly(q: real -> real, s: Db, step: Step, t: nat)
    requires LogsSound(s) && t < |s.treasuries| && Guarded(s, t)
    ensures LogsSound(Next(q, s, step)) && t < |Next(q, s, step).treasuries|
    ensures Guarded(Next(q, s, step), t) <==> !SinksTotal(s, step, t) && !TightensTooFar(s, step, t)
  {
    hide Next, LogsSound, LimitInForce, LimitOf, DrawdownReached;
    LimitAfter(q, s, step, t);
    if MovesMoney(step) {
      MoneyStepsGuard(q, s, step, t);
    } else {
      OtherStepsKeepTreasuries(q, s, step);
    }
  }

  // ----- Over runs -----

  /** The step puts a lower limit in force in a treasury. */
  ghost predicate LowersLimit(s: Db, step: Step, t: nat)
    requires LogsSound(s) && t < |s.treasuries|
  {
    Installs(s, step, t).Some? && LimitOf(Installs(s, step, t).value) < LimitInForce(s, t)
  }

  /** No resync of the treasury, and no step that lowers its limit. */
  ghost predicate LeavesLimit(q: real -> real, s: Db, steps: seq<Step>, t: nat)
    requires LogsSound(s) && t < |s.treasuries|
  {
    steps == [] ||
    var before, last := steps[..|steps| - 1], steps[|steps| - 1];
    LogsStaySound(q, s, before);
    assert s.treasuries[t].history <= Run(q, s, before).treasuries[t].history;
    && LeavesLimit(q, s, before, t)
    && !(last.OnPermits? && last.permitOp.SetTotal? && last.permitOp.treasury == t)
    && !LowersLimit(Run(q, s, before), last, t)
  }

  /** Over every run without a resync of the treasury or a lower limit, a treasury that is halted
      or passes rule 8 stays so: whatever agents report, it is never open beyond its limit. */
  lemma {:induction false} GuardHolds(q: real -> real, s: Db, steps: seq<Step>, t: nat)
    requires LogsSound(s) && t < |s.treasuries| && Guarded(s, t) && LeavesLimit(q, s, steps, t)
    ensures LogsSound(Run(q, s, steps)) && t < |Run(q, s, steps).treasuries| && Guarded(Run(q, s, steps), t)
  {
    hide Next, LogsSound, LimitInForce, LimitOf, Installs;
    LogsStaySound(q, s, steps);
    if steps != [] {
      var before, last := steps[..|steps| - 1], steps[|steps| - 1];
      GuardHolds(q, s, before, t);
      GuardBreaksExactly(q, Run(q, s, before), last, t);
    }
  }

  /** A treasury is created guarded. */
  lemma NewTreasuryIsGuarded(s: Db, user: nat)
    requires LogsSound(s)
    ensures LogsSound(CreateTreasury(s, user).db) && Guarded(CreateTreasury(s, user).db, |s.treasuries|)
  {
    hide SoundLog, Sound, LimitInForce;
    GenesisIsSound(user);
  }
}
