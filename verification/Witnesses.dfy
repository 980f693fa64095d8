/** Runs from the empty store that reach the states the findings speak of. */
module Witnesses {
  import opened Outcomes
  import opened Policy
  import opened Constitution
  import opened Normalizer
  import opened Permits
  import opened Store
  import opened PermitHandlers
  import opened GovernanceHandlers
  import opened AgentHandlers
  import opened System
  import opened ConstitutionLog
  import opened Lifecycle
  import opened Revocation
  import opened AgentKeys
  import opened Lifetimes
  import opened Recovery
  import opened Reports
  import opened Voting
  import opened Intents
  import opened Spending
  import opened Json
  import Crc16
  import StrKey
  import Text

  lemma OneMore(q: real -> real, s: Db, steps: seq<Step>, last: Step)
    ensures Run(q, s, steps + [last]) == Next(q, Run(q, s, steps), last)
  {
    hide Next;
    assert (steps + [last])[..|steps|] == steps;
  }

  lemma Reaches(q: real -> real, steps: seq<Step>, s: Db, last: Step, s': Db)
    requires Run(q, Empty(0), steps) == s && Next(q, s, last) == s'
    ensures Run(q, Empty(0), steps + [last]) == s'
  {
    hide Next, Run;
    OneMore(q, Empty(0), steps, last);
  }

  lemma TreasurySteps(q: real -> real, s: Db, user: nat, t: nat, w: string)
    ensures Next(q, s, OnGovernance(NewTreasury(user))) == CreateTreasury(s, user).db
    ensures Next(q, s, OnGovernance(AddWallet(user, t, w))) == RegisterWallet(s, user, t, w).db
    ensures Next(q, s, OnGovernance(DropWallet(user, t, w))) == RemoveWallet(s, user, t, w).db
    ensures Next(q, s, OnGovernance(ConfirmWallet(user, t, w))) == ConfirmMultisig(s, user, t, w).db
    ensures Next(q, s, OnGovernance(ProveWallet(Ok(()), w))) == VerifyOwnership(s, Ok(()), w).db
  {
    hide CreateTreasury, RegisterWallet, RemoveWallet, ConfirmMultisig, RevokeMultisig, VerifyOwnership,
      UpdateConstitution, RollbackConstitution, CreateProposal, SignProposal, AgentNext, PermitNext;
  }

  lemma RuleSteps(q: real -> real, s: Db, t: nat, i: nat, w: string, c: ConstitutionContent)
    ensures Next(q, s, OnGovernance(Update(t, c))) == UpdateConstitution(s, t, c).db
    ensures Next(q, s, OnGovernance(Propose(t, c))) == CreateProposal(s, t, c).db
    ensures Next(q, s, OnGovernance(Sign(t, i, w, Ok(())))) == SignProposal(s, t, i, w, Ok(())).db
  {
    hide CreateTreasury, RegisterWallet, RemoveWallet, ConfirmMultisig, RevokeMultisig, VerifyOwnership,
      UpdateConstitution, RollbackConstitution, CreateProposal, SignProposal, AgentNext, PermitNext;
  }

  lemma AgentSteps(q: real -> real, s: Db, a: nat, t: nat, name: string, key: string, w: string, nonce: nat,
                   signerOf: set<string>)
    ensures Next(q, s, OnAgents(NewAgent(t, name, key))) == CreateAgent(s, t, name, key).db
    ensures Next(q, s, OnAgents(BeginEnrolment(a, w, key, nonce))) == StartEnrollment(s, a, w, key, nonce).db
    ensures Next(q, s, OnAgents(Suspend(t, a))) == SuspendAgent(s, t, a).db
    ensures Next(q, s, OnAgents(RefreshMcp(AgentAuth(a, t)))) == RefreshMcpLiveness(s, AgentAuth(a, t)).db
    ensures Next(q, s, OnAgents(Beat(AgentAuth(a, t), a, signerOf))) == Heartbeat(s, AgentAuth(a, t), a, signerOf).db
  {
    hide CreateAgent, StartEnrollment, SuspendAgent, RefreshMcpLiveness, Heartbeat, GovernanceNext, PermitNext;
  }

  lemma TotalStep(q: real -> real, s: Db, t: nat, total: real)
    ensures Next(q, s, OnPermits(SetTotal(t, total))) == Resync(s, t, total)
  {
    hide Resync, GovernanceNext, AgentNext;
  }

  // ----- A treasury with one wallet, one agent and one rule -----

  function Key(): string {
    StrKey.Address(StrKey.ED25519_PUBLIC_KEY_VERSION, seq(32, _ => 0), [0, 0])
  }

  lemma KeyIsValid()
    ensures StrKey.ValidPublicKey(Key()) && Text.Trim(Key()) == Key() && Key() != ""
  {
    hide StrKey.ValidPublicKey, Text.Trim, StrKey.Address, StrKey.Decode;
    StrKey.EncodedAddressIsAccepted(seq(32, _ => 0), [0, 0]);
    StrKey.SymbolsArePlain(Key());
  }

  /** The agent may hold the whole wallet, ten at a time. */
  function Charter(w: string): ConstitutionContent {
    ConstitutionContent(TreasuryRules(15.0, 10), [AgentWalletRule(0, w, 100.0, 10.0, 1)], None)
  }

  lemma CharterIsValid(w: string)
    ensures Valid(Charter(w))
  {
    var rules := Charter(w).walletRules;
    assert rules[..0] == [];
    assert forall w :: WalletTotal(rules, w) <= 100.0;
  }

  function Bare(health: Health, total: real, version: int, history: seq<HistoryRow>,
                wallets: map<string, WalletStatus>): Treasury {
    Treasury(7, health, total, total, version, history, wallets)
  }

  function Genesis0(): seq<HistoryRow> { [HistoryRow(0, GenesisDocument())] }

  function Holding(t: Treasury, agents: seq<AgentSlot>): Db {
    Db(0, [t], agents, [], [], [], map[], map[], map[])
  }

  function Slot(): AgentSlot { AgentSlot(0, Some(Key()), PendingConfiguration, None) }

  function World(w: string): Db {
    Holding(Bare(Healthy, 100.0, 1, Genesis0() + [HistoryRow(1, ToJson(Charter(w)))], map[w := WalletActive]),
            [Slot()])
  }

  function Opening(w: string): seq<Step> {
    [OnGovernance(NewTreasury(7)), OnGovernance(AddWallet(7, 0, w)), OnGovernance(ProveWallet(Ok(()), w))]
  }

  function SetUp(w: string): seq<Step> {
    Opening(w) + [OnPermits(SetTotal(0, 100.0))] + [OnAgents(NewAgent(0, "bot", Key()))]
    + [OnGovernance(Update(0, Charter(w)))]
  }

  function Opened(w: string): Db { Holding(Bare(Healthy, 0.0, 0, Genesis0(), map[w := WalletActive]), []) }

  function Begun(): Db { Holding(Bare(PendingWallet, 0.0, 0, Genesis0(), map[]), []) }

  function Listed(w: string): Db { Holding(Bare(PendingWallet, 0.0, 0, Genesis0(), map[w := WalletPending]), []) }

  lemma OpeningStates(w: string)
    ensures CreateTreasury(Empty(0), 7).db == Begun()
    ensures RegisterWallet(Begun(), 7, 0, w).db == Listed(w)
    ensures VerifyOwnership(Listed(w), Ok(()), w).db == Opened(w)
  {
    hide GenesisDocument;
    assert map[w := WalletPending][w := WalletActive] == map[w := WalletActive];
    assert VerifyOwnership(Listed(w), Ok(()), w).db.treasuries == Opened(w).treasuries;
  }

  lemma OpeningReaches(q: real -> real, w: string)
    ensures Run(q, Empty(0), Opening(w)) == Opened(w)
  {
    hide Next, Begun, Listed, Opened, CreateTreasury, RegisterWallet, VerifyOwnership;
    var e := Opening(w);
    OpeningStates(w);
    assert Run(q, Empty(0), []) == Empty(0);
    hide Run;
    TreasurySteps(q, Empty(0), 7, 0, w);
    Reaches(q, [], Empty(0), e[0], Begun());
    TreasurySteps(q, Begun(), 7, 0, w);
    Reaches(q, [] + [e[0]], Begun(), e[1], Listed(w));
    TreasurySteps(q, Listed(w), 7, 0, w);
    Reaches(q, [] + [e[0]] + [e[1]], Listed(w), e[2], Opened(w));
    assert [] + [e[0]] + [e[1]] + [e[2]] == e;
  }

  lemma SetUpReaches(q: real -> real, w: string)
    ensures Run(q, Empty(0), SetUp(w)) == World(w)
  {
    hide GenesisDocument, ToJson, StrKey.ValidPublicKey, Text.Trim, Text.Utf8Size, Key, Valid, Run, Next, Opening,
      CreateAgent, UpdateConstitution;
    var funded := Holding(Bare(Healthy, 100.0, 0, Genesis0(), map[w := WalletActive]), []);
    var staffed := Holding(funded.treasuries[0], [Slot()]);
    OpeningReaches(q, w);
    TotalStep(q, Opened(w), 0, 100.0);
    Reaches(q, Opening(w), Opened(w), OnPermits(SetTotal(0, 100.0)), funded);
    var steps := Opening(w) + [OnPermits(SetTotal(0, 100.0))];
    AgentIsCreated(funded);
    AgentSteps(q, funded, 0, 0, "bot", Key(), w, 1, {});
    Reaches(q, steps, funded, OnAgents(NewAgent(0, "bot", Key())), staffed);
    CharterIsAdopted(staffed, w);
    RuleSteps(q, staffed, 0, 0, w, Charter(w));
    Reaches(q, steps + [OnAgents(NewAgent(0, "bot", Key()))], staffed, OnGovernance(Update(0, Charter(w))), World(w));
  }

  lemma AgentIsCreated(s: Db)
    requires s.agents == [] && |s.treasuries| == 1
    ensures CreateAgent(s, 0, "bot", Key()).db == s.(agents := [Slot()])
  {
    KeyIsValid();
    Text.GraphicAsciiIsPlain("bot");
    hide StrKey.ValidPublicKey, Text.Trim, Text.Utf8Size, Key;
    assert s.agents + [Slot()] == [Slot()];
  }

  lemma CharterIsAdopted(s: Db, w: string)
    requires |s.treasuries| == 1 && s.treasuries[0].history == Genesis0() && s.treasuries[0].version == 0
    ensures UpdateConstitution(s, 0, Charter(w)).db ==
            s.(treasuries := [s.treasuries[0].(history := Genesis0() + [HistoryRow(1, ToJson(Charter(w)))],
                                               version := 1)])
  {
    CharterIsValid(w);
    hide Valid, ToJson, GenesisDocument;
    assert Genesis0()[..0] == [];
  }

  lemma CharterIsInForce(w: string)
    ensures RulesInForce(World(w).treasuries[0]) == Ok(Charter(w))
    ensures FindRule(Charter(w).walletRules, 0, w) == Some(Charter(w).walletRules[0])
  {
    hide ToJson, Normalize, GenesisDocument;
    NormalizeInvertsToJson(Charter(w));
    var history := World(w).treasuries[0].history;
    assert history[1] == HistoryRow(1, ToJson(Charter(w)));
    assert Charter(w).walletRules[..0] == [];
  }

  // ----- A denied permit is consumed, and its outcome booked twice -----

  function Ask(w: string): Step {
    OnPermits(AskPermit(AgentAuth(0, 0), Ok(()), PermitRequest(0, 0, w, "XLM", 5.0)))
  }

  function Report(pnl: real): Step { OnPermits(Outcome(AgentAuth(0, 0), Ok(()), 0, pnl)) }

  lemma PendingAgentIsDenied(q: real -> real, w: string)
    ensures var s := Next(q, World(w), Ask(w));
            && |s.permits| == 1 && s.permits[0].status == Denied && s.permits[0].agent == 0
              && s.permits[0].treasury == 0
            && s.treasuries == World(w).treasuries && s.agents == World(w).agents
  {
    CharterIsInForce(w);
    hide RulesInForce, FindRule, ToJson, GenesisDocument, Key;
    var request := PermitRequest(0, 0, w, "XLM", 5.0);
    var opened' := OpenGroup(World(w), AgentAuth(0, 0), true, 5.0);
    assert RuleFor(opened', request) == Ok((Charter(w).walletRules[0], Charter(w).rules));
    var c := CaseFor(opened', request, Charter(w).walletRules[0], Charter(w).rules);
    assert Violates(2, c);
    assert Next(q, World(w), Ask(w)) == RequestPermit(q, World(w), AgentAuth(0, 0), Ok(()), request).db;
  }

  lemma ReportStep(q: real -> real, s: Db, pnl: real)
    ensures Next(q, s, Report(pnl)) == ReportOutcome(s, AgentAuth(0, 0), Ok(()), 0, pnl).db
  {
    hide ReportOutcome;
  }

  lemma ReportKeepsAccepted(s: Db, pnl: real)
    requires Accepted(s, AgentAuth(0, 0), Ok(()), 0)
    ensures Accepted(ReportOutcome(s, AgentAuth(0, 0), Ok(()), 0, pnl).db, AgentAuth(0, 0), Ok(()), 0)
  {
    ReportIsBookedWhateverTheStatus(s, AgentAuth(0, 0), Ok(()), 0, pnl);
    OutcomeHaltsOnDrawdown(s, AgentAuth(0, 0), Ok(()), 0, pnl);
    hide RulesInForce, ContentAt, DrawdownReached;
  }

  /** A run from the empty store denies a permit; the agent's report then consumes it and books the
      result, and the same report once more books it once more. */
  lemma ADeniedPermitIsConsumedAndBookedTwice(q: real -> real, w: string, pnl: real)
    requires StrKey.WellFormedAddress(w)
    ensures var denied := Run(q, Empty(0), SetUp(w) + [Ask(w)]);
            var once := Run(q, Empty(0), SetUp(w) + [Ask(w)] + [Report(pnl)]);
            var twice := Run(q, Empty(0), SetUp(w) + [Ask(w)] + [Report(pnl)] + [Report(pnl)]);
            && |denied.permits| == |once.permits| == |twice.permits| == 1
            && |denied.treasuries| == |once.treasuries| == |twice.treasuries| == 1
            && denied.permits[0].status == Denied && denied.treasuries[0].current == 100.0
            && once.permits[0].status == Consumed && once.treasuries[0].current == 100.0 + pnl
            && twice.permits[0].status == Consumed && twice.treasuries[0].current == 100.0 + pnl + pnl
  {
    hide Next, Run, ReportOutcome, Accepted, SetUp;
    SetUpReaches(q, w);
    OneMore(q, Empty(0), SetUp(w), Ask(w));
    PendingAgentIsDenied(q, w);
    var denied := Next(q, World(w), Ask(w));
    assert Accepted(denied, AgentAuth(0, 0), Ok(()), 0) by { DeniedIsReportable(denied, w); }
    OneMore(q, Empty(0), SetUp(w) + [Ask(w)], Report(pnl));
    ReportStep(q, denied, pnl);
    ReportIsBookedWhateverTheStatus(denied, AgentAuth(0, 0), Ok(()), 0, pnl);
    ReportKeepsAccepted(denied, pnl);
    var once := ReportOutcome(denied, AgentAuth(0, 0), Ok(()), 0, pnl).db;
    OneMore(q, Empty(0), SetUp(w) + [Ask(w)] + [Report(pnl)], Report(pnl));
    ReportStep(q, once, pnl);
    ReportIsBookedWhateverTheStatus(once, AgentAuth(0, 0), Ok(()), 0, pnl);
    ReportKeepsTreasuryOf(denied, pnl);
  }

  lemma DeniedIsReportable(s: Db, w: string)
    requires |s.permits| == 1 && s.permits[0].agent == 0 && s.permits[0].treasury == 0
    requires s.treasuries == World(w).treasuries && s.agents == World(w).agents
    ensures Accepted(s, AgentAuth(0, 0), Ok(()), 0)
  {
    CharterIsInForce(w);
  }

  lemma ReportKeepsTreasuryOf(s: Db, pnl: real)
    requires Accepted(s, AgentAuth(0, 0), Ok(()), 0)
    ensures var s' := ReportOutcome(s, AgentAuth(0, 0), Ok(()), 0, pnl).db;
            |s'.permits| > 0 && |s.permits| > 0 && s'.permits[0].treasury == s.permits[0].treasury
  {
    ReportIsBookedWhateverTheStatus(s, AgentAuth(0, 0), Ok(()), 0, pnl);
    hide RulesInForce, ContentAt, DrawdownReached;
  }

  // ----- A suspension is lifted -----

  function BeginAndSuspend(w: string): seq<Step> {
    SetUp(w) + [OnAgents(BeginEnrolment(0, w, Key(), 1))] + [OnAgents(Suspend(0, 0))]
  }

  /** A run from the empty store begins an enrolment and suspends the agent; the answer lifts the
      suspension. */
  lemma {:induction false} ASuspensionIsLifted(q: real -> real, w: string, signerOf: set<string>)
    requires StrKey.WellFormedAddress(w)
    ensures var suspended := Run(q, Empty(0), BeginAndSuspend(w));
            var lifted := Run(q, Empty(0), BeginAndSuspend(w) + [OnAgents(Enrol(0, w, Key(), 1, Ok(()), signerOf))]);
            && |suspended.agents| == |lifted.agents| == 1
            && suspended.agents[0].status == Suspended && !Barred(lifted.agents[0].status)
  {
    hide Key, ToJson, GenesisDocument, EnrollPubkey, Run, Next, SetUp;
    SetUpReaches(q, w);
    var begin := OnAgents(BeginEnrolment(0, w, Key(), 1));
    var answer := OnAgents(Enrol(0, w, Key(), 1, Ok(()), signerOf));
    var begun := StartEnrollment(World(w), 0, w, Key(), 1).db;
    var suspended := SuspendAgent(begun, 0, 0).db;
    AgentSteps(q, World(w), 0, 0, "", Key(), w, 1, {});
    Reaches(q, SetUp(w), World(w), begin, begun);
    AgentSteps(q, begun, 0, 0, "", Key(), w, 1, {});
    Reaches(q, SetUp(w) + [begin], begun, OnAgents(Suspend(0, 0)), suspended);
    OneMore(q, Empty(0), BeginAndSuspend(w), answer);
    OnlyAnEnrolmentLiftsSuspension(q, suspended, answer, 0);
    EnrolKeepsCount(q, suspended, answer);
  }

  lemma EnrolKeepsCount(q: real -> real, s: Db, step: Step)
    requires step.OnAgents? && step.agentOp.Enrol?
    ensures |Next(q, s, step).agents| == |s.agents|
  {
    hide EnrollPubkey, GovernanceNext, PermitNext;
    ConnectingTouchesOneSlot(s, step.agentOp);
  }

  // ----- The two liveness paths disagree -----

  lemma WorldIsReachable(q: real -> real, w: string)
    ensures Linked(World(w)) && LogsSound(World(w)) && KeysSound(World(w))
  {
    hide Next, LogsSound, Linked, CountsFit, HaltedIsIdle, KeysSound, World, SetUp;
    SetUpReaches(q, w);
    EmptyLogsAreSound(0);
    LogsStaySound(q, Empty(0), SetUp(w));
    ReachableStatesAreSane(q, 0, SetUp(w));
    assert KeysSound(Empty(0)) by { EmptyKeysAreSound(0); }
    RunsKeepKeysSound(q, Empty(0), SetUp(w));
  }

  /** In a reachable state the MCP refresh makes a slot ACTIVE on which a heartbeat reports the
      missing signature. */
  lemma {:induction false} TheTwoPathsDisagree(q: real -> real, w: string)
    requires StrKey.WellFormedAddress(w)
    ensures var s := Run(q, Empty(0), SetUp(w));
            var refreshed := Next(q, s, OnAgents(RefreshMcp(AgentAuth(0, 0))));
            var beaten := Next(q, s, OnAgents(Beat(AgentAuth(0, 0), 0, {})));
            && |refreshed.agents| == |beaten.agents| == 1
            && refreshed.agents[0].status == SlotActive && beaten.agents[0].status == PendingSigner
  {
    hide Run, Next, RefreshMcpLiveness, Heartbeat, LogsSound, Linked, KeysSound, SetUp, ToJson, GenesisDocument, Key,
      NewestRules, RulesForAgent, SignsEverywhere;
    SetUpReaches(q, w);
    WorldIsReachable(q, w);
    AgentSteps(q, World(w), 0, 0, "", Key(), w, 1, {});
    PathsAgreeExactlyWhenSigned(World(w), AgentAuth(0, 0), {});
    OwnRulesOfWorld(w);
  }

  lemma OwnRulesOfWorld(w: string)
    ensures NewestRules(World(w).treasuries[0]) == Ok(Charter(w))
    ensures RulesForAgent(Charter(w).walletRules, 0) != []
    ensures !SignsEverywhere(RulesForAgent(Charter(w).walletRules, 0), {})
  {
    hide ToJson, Normalize, GenesisDocument;
    var t := World(w).treasuries[0];
    NormalizeInvertsToJson(Charter(w));
    assert t.history[1] == HistoryRow(1, ToJson(Charter(w))) && t.history[..1] == Genesis0() && Genesis0()[..0] == [];
    assert MaxVersion(Genesis0()) == 0 && MaxVersion(t.history) == 1;
    assert LatestContent(t.history) == Some(ToJson(Charter(w)));
    assert Charter(w).walletRules[0] in RulesForAgent(Charter(w).walletRules, 0);
    var own := RulesForAgent(Charter(w).walletRules, 0);
    assert own[0].wallet !in {};
  }

  // ----- A resync sinks a treasury without halting it -----

  /** In a reachable state a resync to a tenth of the peak leaves the treasury healthy with rule 8
      violated. */
  lemma AResyncHaltsNothing(q: real -> real, w: string)
    requires StrKey.WellFormedAddress(w)
    ensures var s := Run(q, Empty(0), SetUp(w) + [OnPermits(SetTotal(0, 10.0))]);
            && |s.treasuries| == 1 && s.treasuries[0].health == Healthy
            && RulesInForce(s.treasuries[0]) == Ok(Charter(w))
            && DrawdownReached(s.treasuries[0].peak, s.treasuries[0].current, Charter(w).rules.maxDrawdownPct)
  {
    hide ToJson, GenesisDocument, Normalize, SetUp, Next, Run;
    SetUpReaches(q, w);
    TotalStep(q, World(w), 0, 10.0);
    Reaches(q, SetUp(w), World(w), OnPermits(SetTotal(0, 10.0)), Resync(World(w), 0, 10.0));
    CharterIsInForce(w);
  }

  /** The same charter with a limit of five percent. */
  function Strict(w: string): ConstitutionContent { Charter(w).(rules := TreasuryRules(5.0, 10)) }

  /** A run from the empty store in which a version with a lower limit puts a treasury that was within
      its limit beyond it and leaves it healthy. */
  lemma ATighterLimitHaltsNothing(q: real -> real, w: string)
    requires StrKey.WellFormedAddress(w)
    ensures var steps := SetUp(w) + [OnPermits(SetTotal(0, 90.0))];
            var before := Run(q, Empty(0), steps);
            var after := Run(q, Empty(0), steps + [OnGovernance(Update(0, Strict(w)))]);
            && |before.treasuries| == |after.treasuries| == 1
            && RulesInForce(before.treasuries[0]) == Ok(Charter(w))
            && !DrawdownReached(before.treasuries[0].peak, before.treasuries[0].current,
                                Charter(w).rules.maxDrawdownPct)
            && after.treasuries[0].health == Healthy && RulesInForce(after.treasuries[0]) == Ok(Strict(w))
            && DrawdownReached(after.treasuries[0].peak, after.treasuries[0].current, Strict(w).rules.maxDrawdownPct)
  {
    var steps, before := SetUp(w) + [OnPermits(SetTotal(0, 90.0))], Resync(World(w), 0, 90.0);
    CharterIsInForce(w);
    StrictIsValid(w);
    hide ToJson, GenesisDocument, Normalize, SetUp, Next, Run, RulesInForce, LogsSound, Valid, UpdateConstitution;
    SetUpReaches(q, w);
    TotalStep(q, World(w), 0, 90.0);
    Reaches(q, SetUp(w), World(w), OnPermits(SetTotal(0, 90.0)), before);
    SameVersionSameRules(World(w).treasuries[0], before.treasuries[0]);
    RuleSteps(q, before, 0, 0, w, Strict(w));
    OneMore(q, Empty(0), steps, OnGovernance(Update(0, Strict(w))));
    EmptyLogsAreSound(0);
    LogsStaySound(q, Empty(0), steps);
    UpdatePutsInForce(before, 0, Strict(w));
    UpdateKeepsTheRest(before, 0, Strict(w));
  }

  lemma SameVersionSameRules(t: Treasury, t': Treasury)
    requires t.history == t'.history && t.version == t'.version
    ensures RulesInForce(t) == RulesInForce(t')
  {}

  lemma StrictIsValid(w: string)
    ensures Valid(Strict(w))
  {
    CharterIsValid(w);
  }

  // ----- Executed without a majority -----

  /** Adding a wallet and confirming it. */
  function Activating(user: nat, t: nat, w: string): seq<Step> {
    [OnGovernance(AddWallet(user, t, w)), OnGovernance(ConfirmWallet(user, t, w))]
  }

  lemma ActivatingAdds(q: real -> real, steps: seq<Step>, s: Db, user: nat, t: nat, w: string, wallets: map<string,
                       WalletStatus>)
    requires Run(q, Empty(0), steps) == s && Owns(s, user, t)
    requires w !in s.treasuries[t].wallets && wallets == s.treasuries[t].wallets[w := WalletActive]
    ensures Run(q, Empty(0), steps + Activating(user, t, w)) == WithWallets(s, t, wallets)
  {
    hide Next, Run;
    var e := Activating(user, t, w);
    var listed := RegisterWallet(s, user, t, w).db;
    TreasurySteps(q, s, user, t, w);
    Reaches(q, steps, s, e[0], listed);
    TreasurySteps(q, listed, user, t, w);
    assert s.treasuries[t].wallets[w := WalletPending][w := WalletActive] == wallets;
    assert ConfirmMultisig(listed, user, t, w).db.treasuries == WithWallets(s, t, wallets).treasuries;
    Reaches(q, steps + [e[0]], listed, e[1], WithWallets(s, t, wallets));
    assert steps + [e[0]] + [e[1]] == steps + e;
  }

  lemma SignatureIsStored(s: Db, t: nat, i: nat, w: string)
    requires TakesSignature(s, t, i, w, Ok(())) && !Carries(s, t, i)
    ensures SignProposal(s, t, i, w, Ok(())).db ==
            WithProposal(s, i, s.proposals[i].(signers := s.proposals[i].signers + [w]))
  {
    hide AppendVersion, ActiveWallets, WalletIsActive;
  }

  function Proposed(a: string, treasuries: seq<Treasury>, signers: seq<string>): Db {
    Db(0, treasuries, [], [], [], [Proposal(0, ToJson(Charter(a)), ProposalPending, PROPOSAL_TTL, signers)], map[],
       map[],
       map[])
  }

  function With(wallets: map<string, WalletStatus>): Treasury { Bare(PendingWallet, 0.0, 0, Genesis0(), wallets) }

  lemma ProposingStores(s: Db, a: string)
    requires s.now == 0 && |s.treasuries| > 0 && s == Db(0, s.treasuries, [], [], [], [], map[], map[], map[])
    ensures CreateProposal(s, 0, Charter(a)).db == Proposed(a, s.treasuries, [])
  {
    CharterIsValid(a);
    hide Valid, ToJson;
    assert !HasOpenProposal(s, 0);
  }

  function ABC(a: string, b: string, c: string): map<string, WalletStatus> {
    map[a := WalletActive][b := WalletActive][c := WalletActive]
  }

  function ThreeWallets(a: string, b: string, c: string): seq<Step> {
    [OnGovernance(NewTreasury(7))] + Activating(7, 0, a) + Activating(7, 0, b) + Activating(7, 0, c)
  }

  lemma ThreeWalletsReaches(q: real -> real, a: string, b: string, c: string)
    requires a != b && b != c && a != c
    ensures Run(q, Empty(0), ThreeWallets(a, b, c)) == Holding(With(ABC(a, b, c)), [])
  {
    hide GenesisDocument, Next, CreateTreasury, Activating;
    assert Run(q, Empty(0), []) == Empty(0);
    hide Run;
    TreasurySteps(q, Empty(0), 7, 0, a);
    OpeningStates(a);
    Reaches(q, [], Empty(0), OnGovernance(NewTreasury(7)), Begun());
    assert [] + [OnGovernance(NewTreasury(7))] == [OnGovernance(NewTreasury(7))];
    var one, two := map[a := WalletActive], map[a := WalletActive][b := WalletActive];
    var steps := [OnGovernance(NewTreasury(7))];
    ActivatingAdds(q, steps, Begun(), 7, 0, a, one);
    assert WithWallets(Begun(), 0, one) == Holding(With(one), []);
    ActivatingAdds(q, steps + Activating(7, 0, a), Holding(With(one), []), 7, 0, b, two);
    assert WithWallets(Holding(With(one), []), 0, two) == Holding(With(two), []);
    ActivatingAdds(q, steps + Activating(7, 0, a) + Activating(7, 0, b), Holding(With(two), []), 7, 0, c, ABC(a, b, c));
    assert WithWallets(Holding(With(two), []), 0, ABC(a, b, c)) == Holding(With(ABC(a, b, c)), []);
  }

  function BeforeTheVote(a: string, b: string, c: string): seq<Step> {
    ThreeWallets(a, b, c) + [OnGovernance(Propose(0, Charter(a)))] + [OnGovernance(Sign(0, 0, a, Ok(())))]
    + [OnGovernance(DropWallet(7, 0, a))]
  }

  lemma RemovedWalletStates(a: string, b: string, c: string)
    requires a != b && b != c && a != c
    ensures SignProposal(Proposed(a, [With(ABC(a, b, c))], []), 0, 0, a, Ok(())).db ==
            Proposed(a, [With(ABC(a, b, c))], [a])
    ensures RemoveWallet(Proposed(a, [With(ABC(a, b, c))], [a]), 7, 0, a).db ==
            Proposed(a, [With(ABC(a, b, c) - {a})], [a])
    ensures ActiveWallets(With(ABC(a, b, c) - {a})) == {b, c}
  {
    hide ToJson, GenesisDocument, SignProposal;
    assert ActiveWallets(With(ABC(a, b, c))) == {a, b, c};
    SignatureIsStored(Proposed(a, [With(ABC(a, b, c))], []), 0, 0, a);
    assert [] + [a] == [a];
  }

  /** A run from the empty store in which a removed wallet's signature still counts: with two wallets
      active, the signature of one of them executes the proposal. */
  lemma ARemovedWalletStillCounts(q: real -> real, a: string, b: string, c: string)
    requires a != b && b != c && a != c
    requires StrKey.WellFormedAddress(a) && StrKey.WellFormedAddress(b) && StrKey.WellFormedAddress(c)
    ensures var before := Run(q, Empty(0), BeforeTheVote(a, b, c));
            var after := Run(q, Empty(0), BeforeTheVote(a, b, c) + [OnGovernance(Sign(0, 0, b, Ok(())))]);
            && |before.treasuries| == |before.proposals| == |after.proposals| == 1
            && ActiveWallets(before.treasuries[0]) == {b, c}
            && before.proposals[0].status == ProposalPending && after.proposals[0].status == ProposalExecuted
            && after.proposals[0].signers == [a, b]
  {
    hide ToJson, GenesisDocument, Next, Run, SignProposal, ThreeWallets, CreateProposal, RemoveWallet;
    var s0, s1 := Holding(With(ABC(a, b, c)), []), Proposed(a, [With(ABC(a, b, c))], []);
    var s2, s3 := Proposed(a, [With(ABC(a, b, c))], [a]), Proposed(a, [With(ABC(a, b, c) - {a})], [a]);
    ThreeWalletsReaches(q, a, b, c);
    RuleSteps(q, s0, 0, 0, a, Charter(a));
    ProposingStores(s0, a);
    Reaches(q, ThreeWallets(a, b, c), s0, OnGovernance(Propose(0, Charter(a))), s1);
    RuleSteps(q, s1, 0, 0, a, Charter(a));
    RemovedWalletStates(a, b, c);
    Reaches(q, ThreeWallets(a, b, c) + [OnGovernance(Propose(0, Charter(a)))], s1,
            OnGovernance(Sign(0, 0, a, Ok(()))), s2);
    TreasurySteps(q, s2, 7, 0, a);
    Reaches(q, ThreeWallets(a, b, c) + [OnGovernance(Propose(0, Charter(a)))] + [OnGovernance(Sign(0, 0, a, Ok(())))],
            s2, OnGovernance(DropWallet(7, 0, a)), s3);
    RuleSteps(q, s3, 0, 0, b, Charter(a));
    OneMore(q, Empty(0), BeforeTheVote(a, b, c), OnGovernance(Sign(0, 0, b, Ok(()))));
    SigningRule(s3, 0, 0, b, Ok(()));
  }

  function Both(a: string, b: string): map<string, WalletStatus> {
    map[a := WalletActive][b := WalletActive]
  }

  function Second(wallets: map<string, WalletStatus>): Treasury {
    Treasury(8, PendingWallet, 0.0, 0.0, 0, Genesis0(), wallets)
  }

  function Pair(w: map<string, WalletStatus>, v: map<string, WalletStatus>): Db {
    Db(0, [With(w), Second(v)], [], [], [], [], map[], map[], map[])
  }

  function BareTreasuries(): seq<Step> { [OnGovernance(NewTreasury(7))] + [OnGovernance(NewTreasury(8))] }

  lemma BareTreasuriesReaches(q: real -> real)
    ensures Run(q, Empty(0), BareTreasuries()) == Pair(map[], map[])
  {
    hide GenesisDocument, Next;
    var e := [OnGovernance(NewTreasury(7))];
    assert Run(q, Empty(0), []) == Empty(0);
    hide Run;
    TreasurySteps(q, Empty(0), 7, 0, "");
    OpeningStates("");
    Reaches(q, [], Empty(0), OnGovernance(NewTreasury(7)), Begun());
    assert [] + e == e;
    TreasurySteps(q, Begun(), 8, 0, "");
    assert CreateTreasury(Begun(), 8).db.treasuries == Pair(map[], map[]).treasuries;
    Reaches(q, e, Begun(), OnGovernance(NewTreasury(8)), Pair(map[], map[]));
  }

  function TwoTreasuries(a: string, b: string, v: string, x: string): seq<Step> {
    BareTreasuries() + Activating(7, 0, a) + Activating(7, 0, b) + Activating(8, 1, v) + Activating(8, 1, x)
  }

  lemma TwoTreasuriesReaches(q: real -> real, a: string, b: string, v: string, x: string)
    requires a != b && v != x
    ensures Run(q, Empty(0), TwoTreasuries(a, b, v, x)) == Pair(Both(a, b), Both(v, x))
  {
    hide Genesis0, Next, Run, Activating, BareTreasuries;
    BareTreasuriesReaches(q);
    var steps := BareTreasuries();
    var one, other := map[a := WalletActive], map[v := WalletActive];
    ActivatingAdds(q, steps, Pair(map[], map[]), 7, 0, a, one);
    assert WithWallets(Pair(map[], map[]), 0, one) == Pair(one, map[]);
    ActivatingAdds(q, steps + Activating(7, 0, a), Pair(one, map[]), 7, 0, b, Both(a, b));
    assert WithWallets(Pair(one, map[]), 0, Both(a, b)) == Pair(Both(a, b), map[]);
    ActivatingAdds(q, steps + Activating(7, 0, a) + Activating(7, 0, b), Pair(Both(a, b), map[]), 8, 1, v, other);
    assert WithWallets(Pair(Both(a, b), map[]), 1, other) == Pair(Both(a, b), other);
    ActivatingAdds(q, steps + Activating(7, 0, a) + Activating(7, 0, b) + Activating(8, 1, v), Pair(Both(a, b), other),
                   8, 1, x, Both(v, x));
    assert WithWallets(Pair(Both(a, b), other), 1, Both(v, x)) == Pair(Both(a, b), Both(v, x));
  }

  function BeforeTheForeignVote(a: string, b: string, v: string, x: string): seq<Step> {
    TwoTreasuries(a, b, v, x) + [OnGovernance(Propose(0, Charter(a)))] + [OnGovernance(Sign(0, 0, a, Ok(())))]
  }

  lemma ForeignVoteReaches(q: real -> real, a: string, b: string, v: string, x: string)
    requires a != b && v != x
    ensures Run(q, Empty(0), BeforeTheForeignVote(a, b, v, x)) ==
            Proposed(a, [With(Both(a, b)), Second(Both(v, x))], [a])
  {
    hide ToJson, GenesisDocument, Next, Run, SignProposal, TwoTreasuries, CreateProposal;
    var s0, s1 := Pair(Both(a, b), Both(v, x)), Proposed(a, [With(Both(a, b)), Second(Both(v, x))], []);
    TwoTreasuriesReaches(q, a, b, v, x);
    RuleSteps(q, s0, 0, 0, a, Charter(a));
    ProposingStores(s0, a);
    Reaches(q, TwoTreasuries(a, b, v, x), s0, OnGovernance(Propose(0, Charter(a))), s1);
    RuleSteps(q, s1, 0, 0, a, Charter(a));
    assert ActiveWallets(With(Both(a, b))) == {a, b};
    SignatureIsStored(s1, 0, 0, a);
    assert [] + [a] == [a];
    Reaches(q, TwoTreasuries(a, b, v, x) + [OnGovernance(Propose(0, Charter(a)))], s1,
            OnGovernance(Sign(0, 0, a, Ok(()))), Proposed(a, [With(Both(a, b)), Second(Both(v, x))], [a]));
  }

  /** A run from the empty store in which a proposal made for treasury 0 and signed by a wallet of
      treasury 0 is executed into treasury 1 by the signature of one of its two wallets. */
  lemma AForeignProposalIsExecuted(q: real -> real, a: string, b: string, v: string, x: string)
    requires a != b && v != x && a != v
    requires StrKey.WellFormedAddress(a) && StrKey.WellFormedAddress(v)
    ensures var before := Run(q, Empty(0), BeforeTheForeignVote(a, b, v, x));
            var after := Run(q, Empty(0), BeforeTheForeignVote(a, b, v, x) + [OnGovernance(Sign(1, 0, v, Ok(())))]);
            && |before.treasuries| == |after.treasuries| == 2 && |before.proposals| == |after.proposals| == 1
            && before.proposals[0].treasury == 0 && ActiveWallets(before.treasuries[1]) == {v, x}
            && RulesInForce(before.treasuries[1]) == Ok(Genesis())
            && after.proposals[0].status == ProposalExecuted && after.proposals[0].signers == [a, v]
            && RulesInForce(after.treasuries[1]) == Ok(Charter(a))
  {
    hide ToJson, GenesisDocument, Next, Run, SignProposal, BeforeTheForeignVote, LogsSound, Normalize, RulesInForce,
      Both, ActiveWallets, Carries, TakesSignature;
    ForeignVoteReaches(q, a, b, v, x);
    var before := Proposed(a, [With(Both(a, b)), Second(Both(v, x))], [a]);
    RuleSteps(q, before, 1, 0, v, Charter(a));
    OneMore(q, Empty(0), BeforeTheForeignVote(a, b, v, x), OnGovernance(Sign(1, 0, v, Ok(()))));
    ForeignVoteCarries(a, b, v, x);
    SigningRule(before, 1, 0, v, Ok(()));
    EmptyLogsAreSound(0);
    LogsStaySound(q, Empty(0), BeforeTheForeignVote(a, b, v, x));
    ExecutionInstallsTheProposal(before, 1, 0, v, Ok(()));
    NormalizeInvertsToJson(Charter(a));
    StartsWithGenesis(Second(Both(v, x)));
  }

  lemma ForeignVoteCarries(a: string, b: string, v: string, x: string)
    requires a != v && v != x
    ensures var before := Proposed(a, [With(Both(a, b)), Second(Both(v, x))], [a]);
            && ActiveWallets(before.treasuries[1]) == {v, x}
            && TakesSignature(before, 1, 0, v, Ok(())) && Carries(before, 1, 0)
  {
    hide ToJson, GenesisDocument;
    assert ActiveWallets(Second(Both(v, x))) == {v, x};
  }

  lemma StartsWithGenesis(t: Treasury)
    requires t.history == Genesis0() && t.version == 0
    ensures RulesInForce(t) == Ok(Genesis())
  {
    hide GenesisDocument, Normalize;
    GenesisIsValid();
    assert t.history[..0] == [];
  }

  // ----- Two proposals open to signatures at one instant -----

  function AtTheBoundary(a: string): seq<Step> {
    [OnGovernance(NewTreasury(7))] + [OnGovernance(Propose(0, Charter(a)))] + [Tick(PROPOSAL_TTL)]
  }

  /** A run from the empty store with two proposals of one treasury that can both be signed. */
  lemma TwoProposalsCanBeSigned(q: real -> real, a: string)
    ensures var s := Run(q, Empty(0), AtTheBoundary(a) + [OnGovernance(Propose(0, Charter(a)))]);
            && |s.proposals| == 2 && s.proposals[0].treasury == s.proposals[1].treasury == 0
            && Signable(s.proposals[0], s.now) && Signable(s.proposals[1], s.now)
  {
    hide ToJson, GenesisDocument, Next, CreateTreasury, CreateProposal, Valid;
    var open1 := Proposed(a, Begun().treasuries, []);
    var late := open1.(now := PROPOSAL_TTL);
    assert Run(q, Empty(0), []) == Empty(0);
    hide Run;
    TreasurySteps(q, Empty(0), 7, 0, a);
    OpeningStates(a);
    Reaches(q, [], Empty(0), OnGovernance(NewTreasury(7)), Begun());
    assert [] + [OnGovernance(NewTreasury(7))] == [OnGovernance(NewTreasury(7))];
    RuleSteps(q, Begun(), 0, 0, a, Charter(a));
    ProposingStores(Begun(), a);
    Reaches(q, [OnGovernance(NewTreasury(7))], Begun(), OnGovernance(Propose(0, Charter(a))), open1);
    assert Next(q, open1, Tick(PROPOSAL_TTL)) == late by { TickStep(q, open1, PROPOSAL_TTL); }
    Reaches(q, [OnGovernance(NewTreasury(7))] + [OnGovernance(Propose(0, Charter(a)))], open1, Tick(PROPOSAL_TTL),
            late);
    RuleSteps(q, late, 0, 0, a, Charter(a));
    OneMore(q, Empty(0), AtTheBoundary(a), OnGovernance(Propose(0, Charter(a))));
    CharterIsValid(a);
    BoundaryAdmitsASecond(late, 0, Charter(a));
  }

  lemma TickStep(q: real -> real, s: Db, micros: nat)
    ensures Next(q, s, Tick(micros)) == s.(now := s.now + micros)
  {
    hide PermitNext, GovernanceNext, AgentNext;
  }

  // ----- A wallet signs for another treasury -----

  function BothPropose(a: string, b: string, v: string, x: string): seq<Step> {
    TwoTreasuries(a, b, v, x) + [OnGovernance(Propose(0, Charter(a)))] + [OnGovernance(Propose(1, Charter(a)))]
  }

  /** A run from the empty store with one unexpired proposal for each of two treasuries, in which a
      wallet of the first can sign both. */
  lemma AWalletSignsForAnotherTreasury(q: real -> real, a: string, b: string, v: string, x: string)
    requires a != b && v != x && StrKey.WellFormedAddress(a)
    ensures var s := Run(q, Empty(0), BothPropose(a, b, v, x));
            && |s.proposals| == 2 && s.proposals[0].treasury == 0 && s.proposals[1].treasury == 1
            && s.now < s.proposals[0].expiresAt && s.now < s.proposals[1].expiresAt
            && TakesSignature(s, 0, 0, a, Ok(())) && TakesSignature(s, 0, 1, a, Ok(()))
  {
    hide ToJson, GenesisDocument, Next, Run, TwoTreasuries, Valid;
    var s0, s1 := Pair(Both(a, b), Both(v, x)), Proposed(a, [With(Both(a, b)), Second(Both(v, x))], []);
    TwoTreasuriesReaches(q, a, b, v, x);
    RuleSteps(q, s0, 0, 0, a, Charter(a));
    ProposingStores(s0, a);
    Reaches(q, TwoTreasuries(a, b, v, x), s0, OnGovernance(Propose(0, Charter(a))), s1);
    RuleSteps(q, s1, 1, 0, a, Charter(a));
    CharterIsValid(a);
    assert !HasOpenProposal(s1, 1);
    OneMore(q, Empty(0), TwoTreasuries(a, b, v, x) + [OnGovernance(Propose(0, Charter(a)))],
            OnGovernance(Propose(1, Charter(a))));
  }

  // ----- Intents approved -----

  /** A payment of fifty. */
  function Fifty(w: string, d: string): Document {
    Object(map["type" := String("payment"), "amount" := String("50"), "asset" := String("XLM"), "to" := String(d),
               "wallet_address" := String(w)])
  }

  function FiftyResolved(w: string, d: string): ResolvedIntent {
    ResolvedIntent("payment", 50.0, "XLM", w, d, None)
  }

  function Live(w: string): Db { World(w).(agents := [Slot().(status := SlotActive, lastConnected := Some(0))]) }

  function GoLive(w: string): seq<Step> { SetUp(w) + [OnAgents(RefreshMcp(AgentAuth(0, 0)))] }

  lemma WorldGoesLive(q: real -> real, w: string)
    ensures Run(q, Empty(0), GoLive(w)) == Live(w)
  {
    OwnRulesOfWorld(w);
    hide ToJson, GenesisDocument, Next, Run, SetUp, NewestRules, RulesForAgent, Key, Charter;
    SetUpReaches(q, w);
    AgentSteps(q, World(w), 0, 0, "", "", w, 1, {});
    Reaches(q, SetUp(w), World(w), OnAgents(RefreshMcp(AgentAuth(0, 0))), Live(w));
  }

  lemma FiftyIsResolved(own: seq<AgentWalletRule>, w: string, d: string)
    requires own != [] && own[0].wallet == w && w != "" && Text.Trim(w) == w
    ensures ParseAndResolve(Fifty(w, d), Some(50.0), own) == Ok(FiftyResolved(w, d))
  {
    hide Text.Trim;
    var intent := Fifty(w, d);
    assert StrAt(intent, "wallet_address") == Some(w) && StrAt(intent, "type") == Some("payment");
    assert StrAt(intent, "amount") == Some("50") && StrAt(intent, "asset") == Some("XLM");
    assert StrAt(intent, "to") == Some(d) && StrAt(intent, "memo") == None;
  }

  lemma FiftyIsRequested(w: string, d: string)
    requires StrKey.WellFormedAddress(w)
    ensures ResolveIntent(Live(w), Key(), Ok(()), Fifty(w, d), Some(50.0)) == Ok((AgentAuth(0, 0), FiftyResolved(w, d)))
    ensures IntentRequest(Live(w), Key(), Ok(()), Fifty(w, d), Some(50.0)) == Ok(PermitRequest(0, 0, w, "XLM", 50.0))
  {
    OwnRulesOfWorld(w);
    KeyIsValid();
    StrKey.SymbolsArePlain(w);
    var own := RulesForAgent(Charter(w).walletRules, 0);
    assert own[0] in own;
    FiftyIsResolved(own, w, d);
    hide NewestRules, RulesForAgent, ParseAndResolve, StrKey.ValidPublicKey, Key, ToJson, Fifty;
  }

  lemma LiveGrantsTen(q: real -> real, w: string, request: PermitRequest)
    requires request == PermitRequest(0, 0, w, "XLM", 50.0)
    ensures var r := IssueSingle(q, Live(w), AgentAuth(0, 0), request, GroupExecuting).result;
            r.Ok? && r.value.0.approved && r.value.0.amount == 10.0
  {
    CharterIsInForce(w);
    hide RulesInForce, FindRule, ToJson, GenesisDocument, Key;
    var opened' := OpenGroup(Live(w), AgentAuth(0, 0), true, 50.0);
    var rule := Charter(w).walletRules[0];
    assert RuleFor(opened', request) == Ok((rule, Charter(w).rules));
    var c := CaseFor(opened', request, rule, Charter(w).rules);
    assert Reserved([], OfAgent(0, w)) == 0.0 && Count([], OfAgent(0, w)) == 0 && Count([], OfTreasury(0)) == 0;
    assert forall k | 1 <= k <= 8 :: !Violates(k, c);
    assert Verdict(c).amount == 10.0;
  }

  /** A run from the empty store reaches a state in which an intent of fifty is approved for ten. */
  lemma FiftyIsApprovedForTen(q: real -> real, w: string, d: string)
    requires StrKey.WellFormedAddress(w)
    ensures var s := Run(q, Empty(0), GoLive(w));
            var r := SubmitIntent(q, s, Key(), Ok(()), Fifty(w, d), Some(50.0)).result;
            && r.Ok? && r.value.0.approved && r.value.0.amount == 10.0
            && ResolveIntent(s, Key(), Ok(()), Fifty(w, d), Some(50.0)) == Ok((AgentAuth(0, 0), FiftyResolved(w, d)))
  {
    WorldGoesLive(q, w);
    FiftyIsRequested(w, d);
    hide Run, GoLive, Key, Fifty, IntentRequest, ResolveIntent;
    LiveGrantsTen(q, w, PermitRequest(0, 0, w, "XLM", 50.0));
  }

  /** Between addresses written without a checksum it is executed in full. */
  lemma {:induction false} APartialIntentIsSpentInFull(q: real -> real, source: StrKey.PublicKey,
                                                       destination: StrKey.PublicKey)
    returns (tx: Transaction)
    ensures var w, d := StrKey.Unchecked(source), StrKey.Unchecked(destination);
            var s := Run(q, Empty(0), GoLive(w));
            var r := SubmitIntent(q, s, Key(), Ok(()), Fifty(w, d), Some(50.0)).result;
            var resolved := ResolveIntent(s, Key(), Ok(()), Fifty(w, d), Some(50.0));
            && r.Ok? && r.value.0.approved && r.value.0.amount == 10.0
            && resolved.Ok? && PassesCheck(tx, resolved.value.1) && Spent(tx) == 50.0
  {
    hide StrKey.Unchecked, GoLive, Key, Fifty, ResolveIntent, SubmitIntent, Run;
    var w, d := StrKey.Unchecked(source), StrKey.Unchecked(destination);
    StrKey.UncheckedDecodes(source);
    FiftyIsApprovedForTen(q, w, d);
    tx := Transaction(source, [Payment(destination, Native, 500_000_000)], NoMemo);
  }

  lemma NoTransactionFrom(intent: ResolvedIntent)
    requires !StrKey.IsUnchecked(intent.wallet)
    ensures !exists tx :: PassesCheck(tx, intent)
  {
    hide StrKey.IsUnchecked, StrKey.Unchecked;
    StrKey.UncheckedExactly(intent.wallet);
  }

  /** From an account with a checksum other than zero it cannot be executed by any transaction. */
  lemma {:induction false} AnApprovedIntentCannotBeExecuted(q: real -> real, source: StrKey.PublicKey, d: string)
    requires Crc16.Crc([StrKey.ED25519_PUBLIC_KEY_VERSION] + source) != 0
    ensures var w := StrKey.Account(source);
            var s := Run(q, Empty(0), GoLive(w));
            var r := SubmitIntent(q, s, Key(), Ok(()), Fifty(w, d), Some(50.0)).result;
            var resolved := ResolveIntent(s, Key(), Ok(()), Fifty(w, d), Some(50.0));
            && r.Ok? && r.value.0.approved
            && resolved.Ok? && !exists tx :: PassesCheck(tx, resolved.value.1)
  {
    hide StrKey.Account, StrKey.IsUnchecked, Crc16.Crc, GoLive, Key, Fifty, ResolveIntent, SubmitIntent, Run,
      PassesCheck;
    var w := StrKey.Account(source);
    StrKey.AccountIsWellFormed(source);
    FiftyIsApprovedForTen(q, w, d);
    StrKey.CheckedIsUncheckedExactly(source);
    NoTransactionFrom(FiftyResolved(w, d));
  }
}
