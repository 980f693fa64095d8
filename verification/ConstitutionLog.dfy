/** The constitution history: append-only, numbered without gaps, every version valid, and the
    treasury's version column at its head.  So the permit engine, which joins on that column, and the
    agent handlers, which read the newest row, always see the same rules. */
module ConstitutionLog {
  import opened Outcomes
  import opened Policy
  import opened Constitution
  import opened Normalizer
  import opened Permits
  import opened Store
  import opened PermitHandlers
  import opened GovernanceHandlers
  import opened AgentHandlers
  import opened System

  /** A document that can be read, and reads as a valid constitution. */
  ghost predicate Sound(doc: Document) {
    Normalize(doc).Ok? && Valid(Normalize(doc).value)
  }

  predicate Gapless(history: seq<HistoryRow>) {
    forall i | 0 <= i < |history| :: history[i].version == i
  }

  ghost predicate SoundLog(t: Treasury) {
    && t.history != [] && Gapless(t.history)
    && t.version == |t.history| - 1
    && forall i | 0 <= i < |t.history| :: Sound(t.history[i].content)
  }

  ghost predicate LogsSound(s: Db) {
    && (forall t | 0 <= t < |s.treasuries| :: SoundLog(s.treasuries[t]))
    && (forall p | 0 <= p < |s.proposals| :: Sound(s.proposals[p].content))
  }

  // ----- Reading a gapless history -----

  lemma {:induction false} GaplessMax(history: seq<HistoryRow>)
    requires Gapless(history) && history != []
    ensures MaxVersion(history) == |history| - 1
  {
    if |history| > 1 {
      GaplessMax(history[..|history| - 1]);
    }
  }

  lemma {:induction false} GaplessContent(history: seq<HistoryRow>, version: int)
    requires Gapless(history)
    ensures ContentAt(history, version) ==
            if 0 <= version < |history| then Some(history[version].content) else None
  {
    if history != [] {
      GaplessContent(history[..|history| - 1], version);
    }
  }

  /** The row of the version column and the newest row are the same, and it reads as a valid
      constitution: the engine and the agent handlers see the same rules. */
  lemma CurrentReadsTheNewest(t: Treasury)
    requires SoundLog(t)
    ensures RulesInForce(t) == NewestRules(t)
    ensures RulesInForce(t).Ok? && Valid(RulesInForce(t).value)
    ensures RulesInForce(t) == Normalize(t.history[|t.history| - 1].content)
  {
    GaplessMax(t.history);
    GaplessContent(t.history, t.version);
  }

  // ----- The five writers -----

  function Extended(t: Treasury, content: Document): Treasury {
    t.(history := t.history + [HistoryRow(|t.history|, content)], version := |t.history|)
  }

  /** On a gapless history the insert never collides with the (treasury, version) key. */
  lemma AppendExtends(s: Db, treasury: nat, content: Document)
    requires treasury < |s.treasuries| && SoundLog(s.treasuries[treasury])
    ensures AppendVersion(s, treasury, content) ==
            Reply(s.(treasuries := s.treasuries[treasury := Extended(s.treasuries[treasury], content)]),
                  Ok(|s.treasuries[treasury].history|))
  {
    GaplessMax(s.treasuries[treasury].history);
  }

  lemma ExtendedStaysSound(t: Treasury, content: Document)
    requires SoundLog(t) && Sound(content)
    ensures SoundLog(Extended(t, content)) && t.history <= Extended(t, content).history
  {
    hide Sound;
  }

  lemma WrittenIsSound(content: ConstitutionContent)
    requires Valid(content)
    ensures Sound(ToJson(content))
  {
    hide Valid, ToJson, Normalize;
    NormalizeInvertsToJson(content);
  }

  lemma GenesisIsSound(user: nat)
    ensures SoundLog(Treasury(user, PendingWallet, 0.0, 0.0, 0, [HistoryRow(0, GenesisDocument())], map[]))
  {
    GenesisIsValid();
  }

  /** Revocation writes a filtered constitution without validating it; it is sound all the same,
      and on a sound log the removal cannot fail. */
  lemma RemovalExtends(s: Db, treasury: nat, agent: nat, scrubbed: Option<string>)
    requires treasury < |s.treasuries| && SoundLog(s.treasuries[treasury])
    ensures var t := s.treasuries[treasury];
            var content := RulesInForce(t).value;
            var kept := content.(walletRules := WithoutAgent(content.walletRules, agent), memo := scrubbed);
            RulesInForce(t).Ok? && Valid(kept)
            && RemoveAgentRules(s, treasury, agent, scrubbed) ==
               Reply(if kept == content then s
                     else s.(treasuries := s.treasuries[treasury := Extended(t, ToJson(kept))]), Ok(()))
  {
    hide ToJson, Normalize, Valid;
    var t := s.treasuries[treasury];
    CurrentReadsTheNewest(t);
    var content := RulesInForce(t).value;
    RemovalKeepsValid(content, agent, scrubbed);
    var kept := content.(walletRules := WithoutAgent(content.walletRules, agent), memo := scrubbed);
    GaplessMax(t.history);
    GaplessContent(t.history, t.version);
    AppendExtends(s, treasury, ToJson(kept));
    if |kept.walletRules| == |content.walletRules| {
      SameLengthMeansUntouched(content.walletRules, agent);
    }
  }

  // ----- Every step keeps the logs -----

  /** What a step may do to a treasury's log: leave it, or extend it by one sound version. */
  ghost predicate LogMoves(t: Treasury, t': Treasury) {
    || (t'.history == t.history && t'.version == t.version)
    || (exists content ::
          Sound(content) && t'.history == Extended(t, content).history && t'.version == Extended(t, content).version)
  }

  ghost predicate LogsMove(s: Db, s': Db) {
    && |s.treasuries| <= |s'.treasuries|
    && (forall t | 0 <= t < |s.treasuries| :: LogMoves(s.treasuries[t], s'.treasuries[t]))
    && (forall t | |s.treasuries| <= t < |s'.treasuries| :: SoundLog(s'.treasuries[t]))
  }

  lemma OneExtended(s: Db, treasury: nat, content: Document)
    requires LogsSound(s) && treasury < |s.treasuries| && Sound(content)
    ensures LogsMove(s, s.(treasuries := s.treasuries[treasury := Extended(s.treasuries[treasury], content)]))
  {
    hide Sound, SoundLog;
  }

  lemma UpdateMovesLogs(s: Db, treasury: nat, content: ConstitutionContent)
    requires LogsSound(s)
    ensures LogsMove(s, UpdateConstitution(s, treasury, content).db)
    ensures UpdateConstitution(s, treasury, content).db.proposals == s.proposals
    ensures UpdateConstitution(s, treasury, content).result.Ok? <==> Valid(content) && treasury < |s.treasuries|
  {
    hide AppendVersion, ToJson, Normalize, Valid, Sound;
    if Valid(content) && treasury < |s.treasuries| {
      AppendExtends(s, treasury, ToJson(content));
      WrittenIsSound(content);
      OneExtended(s, treasury, ToJson(content));
    }
  }

  lemma RollbackMovesLogs(s: Db, treasury: nat, version: int)
    requires LogsSound(s)
    ensures LogsMove(s, RollbackConstitution(s, treasury, version).db)
    ensures RollbackConstitution(s, treasury, version).db.proposals == s.proposals
    ensures RollbackConstitution(s, treasury, version).result.Ok? <==>
            treasury < |s.treasuries| && 0 <= version < |s.treasuries[treasury].history|
  {
    hide UpdateConstitution, ToJson, Normalize, Valid;
    if treasury < |s.treasuries| {
      GaplessContent(s.treasuries[treasury].history, version);
      if 0 <= version < |s.treasuries[treasury].history| {
        assert Sound(s.treasuries[treasury].history[version].content);
        UpdateMovesLogs(s, treasury, Normalize(s.treasuries[treasury].history[version].content).value);
      }
    }
  }

  /** Rolling back never fails validation: in every reachable state it succeeds exactly when the
      version is stored. */
  lemma {:induction false} RollbackNeverFailsValidation(q: real -> real, now: int, steps: seq<Step>, treasury: nat,
                                                        version: int)
    ensures var s := Run(q, Empty(now), steps);
            RollbackConstitution(s, treasury, version).result.Ok? <==>
            treasury < |s.treasuries| && 0 <= version < |s.treasuries[treasury].history|
  {
    hide Next, Sound, LogsSound;
    assert LogsSound(Empty(now)) by { EmptyLogsAreSound(now); }
    LogsStaySound(q, Empty(now), steps);
    RollbackMovesLogs(Run(q, Empty(now), steps), treasury, version);
  }

  /** The head after a rollback reads as the version rolled back to, and is the same document
      exactly when that version is written in the current form. */
  lemma RollbackReproduces(s: Db, treasury: nat, version: int)
    requires LogsSound(s) && treasury < |s.treasuries| && 0 <= version < |s.treasuries[treasury].history|
    ensures var t, s' := s.treasuries[treasury], RollbackConstitution(s, treasury, version).db;
            && |s'.treasuries| == |s.treasuries|
            && |s'.treasuries[treasury].history| == |t.history| + 1
            && RulesInForce(s'.treasuries[treasury]) == Normalize(t.history[version].content)
            && (s'.treasuries[treasury].history[|t.history|].content == t.history[version].content
                <==> exists c :: t.history[version].content == ToJson(c))
  {
    hide ToJson, Normalize, Valid, AppendVersion;
    var t := s.treasuries[treasury];
    var target := t.history[version].content;
    GaplessContent(t.history, version);
    assert Sound(target);
    var content := Normalize(target).value;
    AppendExtends(s, treasury, ToJson(content));
    WrittenIsSound(content);
    ExtendedStaysSound(t, ToJson(content));
    CurrentReadsTheNewest(Extended(t, ToJson(content)));
    NormalizeInvertsToJson(content);
    if exists c :: target == ToJson(c) {
      var c :| target == ToJson(c);
      NormalizeInvertsToJson(c);
    }
  }

  lemma UpdatePutsInForce(s: Db, treasury: nat, content: ConstitutionContent)
    requires LogsSound(s)
    ensures var r := UpdateConstitution(s, treasury, content);
            && (r.result.Ok? <==> Valid(content) && treasury < |s.treasuries|)
            && (r.result.Ok? ==>
                  |r.db.treasuries| == |s.treasuries| && RulesInForce(r.db.treasuries[treasury]) == Ok(content))
  {
    UpdateMovesLogs(s, treasury, content);
    hide Sound, SoundLog, AppendVersion, RulesInForce, Normalize, ToJson, Valid;
    if Valid(content) && treasury < |s.treasuries| {
      AppendExtends(s, treasury, ToJson(content));
      WrittenIsSound(content);
      ExtendedStaysSound(s.treasuries[treasury], ToJson(content));
      CurrentReadsTheNewest(Extended(s.treasuries[treasury], ToJson(content)));
      NormalizeInvertsToJson(content);
    }
  }

  lemma RollbackPutsInForce(s: Db, treasury: nat, version: int)
    requires LogsSound(s)
    ensures var r := RollbackConstitution(s, treasury, version);
            && (r.result.Ok? <==> treasury < |s.treasuries| && 0 <= version < |s.treasuries[treasury].history|)
            && (r.result.Ok? ==>
                  |r.db.treasuries| == |s.treasuries|
                  && RulesInForce(r.db.treasuries[treasury]) ==
                     Normalize(s.treasuries[treasury].history[version].content))
  {
    RollbackMovesLogs(s, treasury, version);
    hide RollbackConstitution, Normalize, RulesInForce, LogsSound;
    if treasury < |s.treasuries| && 0 <= version < |s.treasuries[treasury].history| {
      RollbackReproduces(s, treasury, version);
    }
  }

  lemma SigningMovesLogs(s: Db, treasury: nat, proposal: nat, wallet: string, signed: Result<()>)
    requires LogsSound(s)
    ensures var s' := SignProposal(s, treasury, proposal, wallet, signed).db;
            && LogsMove(s, s') && |s'.proposals| == |s.proposals|
            && forall p | 0 <= p < |s.proposals| :: s'.proposals[p].content == s.proposals[p].content
  {
    hide AppendVersion, Sound, SoundLog, Threshold, WalletIsActive;
    if proposal < |s.proposals| && treasury < |s.treasuries| {
      var p := s.proposals[proposal];
      var executed := WithProposal(s, proposal, p.(signers := p.signers + [wallet], status := ProposalExecuted));
      AppendExtends(executed, treasury, p.content);
      OneExtended(s, treasury, p.content);
    }
  }

  lemma ProposingKeepsLogs(s: Db, treasury: nat, content: ConstitutionContent)
    requires LogsSound(s)
    ensures var s' := CreateProposal(s, treasury, content).db;
            && LogsMove(s, s') && forall p | 0 <= p < |s'.proposals| :: Sound(s'.proposals[p].content)
  {
    hide ToJson, Normalize, Valid, Sound, SoundLog, HasOpenProposal;
    if Valid(content) {
      WrittenIsSound(content);
    }
  }

  ghost predicate ProposalsSound(s: Db) {
    forall p | 0 <= p < |s.proposals| :: Sound(s.proposals[p].content)
  }

  lemma GovernanceMovesLogs(s: Db, op: GovernanceOp)
    requires LogsSound(s)
    ensures LogsMove(s, GovernanceNext(s, op)) && ProposalsSound(GovernanceNext(s, op))
  {
    hide UpdateConstitution, SignProposal, CreateProposal, RollbackConstitution, Sound, SoundLog, GenesisDocument,
      RegisterWallet, RemoveWallet, ConfirmMultisig, RevokeMultisig, VerifyOwnership, Extended;
    if OnWallets(op) {
      WalletOpsKeepTheRest(s, op);
      return;
    }
    match op
    case NewTreasury(user) => GenesisIsSound(user);
    case Update(treasury, content) => UpdateMovesLogs(s, treasury, content);
    case Rollback(treasury, version) => RollbackMovesLogs(s, treasury, version);
    case Propose(treasury, content) => ProposingKeepsLogs(s, treasury, content);
    case Sign(treasury, proposal, wallet, signed) => SigningMovesLogs(s, treasury, proposal, wallet, signed);
    case _ =>
  }

  lemma RevokingMovesLogs(s: Db, treasury: nat, agent: nat, scrubbed: Option<string>)
    requires LogsSound(s)
    ensures var s' := RevokeAgent(s, treasury, agent, scrubbed).db; LogsMove(s, s') && s'.proposals == s.proposals
    ensures RevokeAgent(s, treasury, agent, scrubbed).result.Ok? <==>
            agent < |s.agents| && s.agents[agent].treasury == treasury < |s.treasuries|
  {
    hide RemoveAgentRules, Sound, SoundLog, ToJson, Valid;
    if treasury < |s.treasuries| {
      var settled := s.(permits := Settle(s.permits, OfSlot(treasury, agent), Revoked),
                        groups := RevokeGroups(s.groups, treasury, agent));
      RemovalExtends(settled, treasury, agent, scrubbed);
      var content := RulesInForce(s.treasuries[treasury]).value;
      var kept := content.(walletRules := WithoutAgent(content.walletRules, agent), memo := scrubbed);
      WrittenIsSound(kept);
      OneExtended(s, treasury, ToJson(kept));
    }
  }

  lemma AgentsMoveLogs(s: Db, op: AgentOp)
    requires LogsSound(s)
    ensures LogsMove(s, AgentNext(s, op)) && AgentNext(s, op).proposals == s.proposals
  {
    hide RevokeAgent, Sound, SoundLog, ConnectionStatus, McpStatus, StrKey.ValidPublicKey;
    if op.Revoke? {
      RevokingMovesLogs(s, op.treasury, op.agent, op.scrubbed);
    }
  }

  /** Each step leaves every log alone or extends it by one sound version; new logs are sound. */
  lemma StepMovesLogs(q: real -> real, s: Db, step: Step)
    requires LogsSound(s)
    ensures LogsMove(s, Next(q, s, step)) && ProposalsSound(Next(q, s, step))
  {
    hide PermitNext, GovernanceNext, AgentNext, Sound, SoundLog;
    match step
    case Tick(_) =>
    case OnPermits(op) => PermitOpsKeepTheRest(q, s, op);
    case OnGovernance(op) => GovernanceMovesLogs(s, op);
    case OnAgents(op) => AgentsMoveLogs(s, op);
  }

  lemma StepKeepsLogsSound(q: real -> real, s: Db, step: Step)
    requires LogsSound(s)
    ensures LogsSound(Next(q, s, step))
    ensures forall t | 0 <= t < |s.treasuries| ::
              t < |Next(q, s, step).treasuries| && s.treasuries[t].history <= Next(q, s, step).treasuries[t].history
  {
    hide Next, Sound;
    StepMovesLogs(q, s, step);
    var s' := Next(q, s, step);
    forall t | 0 <= t < |s.treasuries|
      ensures SoundLog(s'.treasuries[t]) && s.treasuries[t].history <= s'.treasuries[t].history
    {
      if s'.treasuries[t].history != s.treasuries[t].history {
        var content :| Sound(content) && s'.treasuries[t].history == Extended(s.treasuries[t], content).history
                       && s'.treasuries[t].version == Extended(s.treasuries[t], content).version;
        ExtendedStaysSound(s.treasuries[t], content);
      }
    }
  }

  /** Over any run: no version is lost or changed, the numbering has no gap, the version column is
      at the head, and every version ever stored is valid, whichever writer stored it. */
  lemma {:induction false} LogsStaySound(q: real -> real, s: Db, steps: seq<Step>)
    requires LogsSound(s)
    ensures LogsSound(Run(q, s, steps))
    ensures forall t | 0 <= t < |s.treasuries| ::
              t < |Run(q, s, steps).treasuries| && s.treasuries[t].history <= Run(q, s, steps).treasuries[t].history
  {
    hide Next, LogsSound;
    if steps != [] {
      LogsStaySound(q, s, steps[..|steps| - 1]);
      StepKeepsLogsSound(q, Run(q, s, steps[..|steps| - 1]), steps[|steps| - 1]);
    }
  }

  lemma EmptyLogsAreSound(now: int)
    ensures LogsSound(Empty(now))
  {}

  /** From an empty store, then, the two reads agree in every reachable state. */
  lemma {:induction false} ReadersAlwaysAgree(q: real -> real, now: int, steps: seq<Step>, t: nat)
    requires t < |Run(q, Empty(now), steps).treasuries|
    ensures var treasury := Run(q, Empty(now), steps).treasuries[t];
            RulesInForce(treasury) == NewestRules(treasury) && RulesInForce(treasury).Ok?
              && Valid(RulesInForce(treasury).value)
  {
    hide Next, Sound, Valid, Normalize, RulesInForce, NewestRules;
    LogsStaySound(q, Empty(now), steps);
    CurrentReadsTheNewest(Run(q, Empty(now), steps).treasuries[t]);
  }

  /** Once an intent is resolved to a request, processing it cannot fail: the rule found in the
      newest version is the rule the engine finds through the version column. */
  lemma ResolvedIntentIsProcessed(q: real -> real, s: Db, pubkey: string, signature: Result<()>, intent: Document,
                                  amount: Option<real>)
    requires LogsSound(s)
    ensures SubmitIntent(q, s, pubkey, signature, intent, amount).result.Ok? <==>
            IntentRequest(s, pubkey, signature, intent, amount).Ok?
  {
    hide Normalize, Valid, Sound, NewPermit, CaseFor, Verdict, AgentByPubkey;
    var asked := IntentRequest(s, pubkey, signature, intent, amount);
    if asked.Ok? {
      IntentHasARule(s, pubkey, signature, intent, amount);
      var d := OpenGroup(s, AgentAuth(asked.value.agent, asked.value.treasury), true, asked.value.amount);
      assert RuleFor(d, asked.value) == RuleFor(s, asked.value);
    }
  }

  lemma IntentHasARule(s: Db, pubkey: string, signature: Result<()>, intent: Document, amount: Option<real>)
    requires LogsSound(s)
    requires IntentRequest(s, pubkey, signature, intent, amount).Ok?
    ensures RuleFor(s, IntentRequest(s, pubkey, signature, intent, amount).value).Ok?
  {
    hide Normalizer.Normalize, Valid, Sound, AgentByPubkey, RulesForAgent, FindRule, RulesInForce, NewestRules,
      StrKey.ValidPublicKey;
    var request := IntentRequest(s, pubkey, signature, intent, amount).value;
    assert SoundLog(s.treasuries[request.treasury]);
    hide LogsSound, SoundLog;
    CurrentReadsTheNewest(s.treasuries[request.treasury]);
    OwnRuleIsFound(NewestRules(s.treasuries[request.treasury]).value.walletRules, request.agent, request.wallet);
  }
}
