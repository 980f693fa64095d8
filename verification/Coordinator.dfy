/** The coordinator as the source runs it: tables that handlers read, insert into and update in
    place, returning early on errors and rolling back what a failed transaction did.  Every method
    does to the tables exactly what its handler function does to the state, keeps all invariants of
    the coordinator (`Valid`), and states what a caller may rely on; `Serve` takes the tables through
    exactly the run of the transition system. */
module Coordinator {
  import opened Outcomes
  import opened Policy
  import opened Constitution
  import opened Normalizer
  import opened Permits
  import opened Store
  import opened GovernanceHandlers
  import opened AgentHandlers
  import opened Intents
  import P = PermitHandlers
  import opened Invariants
  import opened ConstitutionLog
  import opened Groups
  import opened Reports
  import opened Revocation
  import opened GroupRows
  import opened Voting
  import opened Lifecycle
  import opened AgentKeys
  import System
  import StrKey
  import Text

  lemma ProposingOpens(s: Db, treasury: nat, content: ConstitutionContent)
    ensures var r := CreateProposal(s, treasury, content);
            && (r.result.Ok? <==> Valid(content) && treasury < |s.treasuries| && !HasOpenProposal(s, treasury))
            && (r.result.Ok? ==> r.result.value < |r.db.proposals| && Open(r.db.proposals[r.result.value], treasury,
                                                                           r.db.now))
  {
    hide Valid, HasOpenProposal, ToJson;
  }

  lemma EnrollingUsesTheChallenge(s: Db, a: nat, wallet: string, key: string, nonce: nat, signed: Result<()>,
                                  signerOf: set<string>)
    ensures var r := EnrollPubkey(s, a, wallet, key, nonce, signed, signerOf);
            r.result.Ok? ==> a !in r.db.enrolments && a < |r.db.agents| && r.db.agents[a].pubkey == Some(key)
  {
    hide ConnectionStatus, KeyHeldByOther;
  }

  /** On valid tables keeping a slot alive fails at the guards only: the rules are always readable. */
  lemma KeepingAliveNeverFails(s: Db, session: AgentAuth, a: nat, signerOf: set<string>)
    requires Good(s)
    ensures RefreshMcpLiveness(s, session).result.Ok?
    ensures Heartbeat(s, session, a, signerOf).result.Ok? <==> Authenticate(s, session).Ok? && a == session.agent
  {
    hide NewestRules, RulesForAgent, SignsEverywhere, RulesInForce, Constitution.Valid, Sound, KeysSound, OneOpen,
      CountsFit, HaltedIsIdle;
    if session.agent < |s.agents| {
      CurrentReadsTheNewest(s.treasuries[s.agents[session.agent].treasury]);
    }
  }

  lemma RevokingIsFinal(s: Db, treasury: nat, agent: nat, scrubbed: Option<string>)
    requires Good(s)
    ensures var r := RevokeAgent(s, treasury, agent, scrubbed);
            && (r.result.Ok? <==> agent < |s.agents| && s.agents[agent].treasury == treasury)
            && (r.result.Ok? ==>
                  && Gone(r.db, agent) && r.db.agents[agent].status == SlotRevoked
                  && |r.db.groups| == |s.groups|
                  && forall g | 0 <= g < |s.groups| && !(s.groups[g].agent == agent && s.groups[g].treasury == treasury)
                       :: r.db.groups[g] == s.groups[g])
  {
    hide Gone, LogsSound, CountsFit, HaltedIsIdle, KeysSound, OneOpen, RemoveAgentRules, HoldsNothing, HoldsNoGroup;
    RevokingMovesLogs(s, treasury, agent, scrubbed);
    if RevokeAgent(s, treasury, agent, scrubbed).result.Ok? {
      RevokingDismisses(s, treasury, agent, scrubbed);
      RevocationClosesTheGroups(s, treasury, agent, scrubbed);
    }
  }

  lemma NoLegs(q: real -> real, db: Db, legs: seq<PermitRequest>, group: nat)
    ensures P.ProcessLegs(q, db, legs[..0], group) == Ok(P.Legs(db, [], 0.0, false))
  {}

  lemma OneMoreLeg(q: real -> real, db: Db, legs: seq<PermitRequest>, group: nat, i: nat)
    requires i < |legs|
    ensures P.ProcessLegs(q, db, legs[..i + 1], group) ==
            match P.ProcessLegs(q, db, legs[..i], group)
            case Err(e) => Err(e)
            case Ok(done) =>
              match P.ProcessSinglePermit(q, done.db, legs[i], group)
              case Err(e) => Err(e)
              case Ok(x) => Ok(P.Legs(x.db, done.results + [x.verdict], done.requested + legs[i].amount,
                                      done.anyDenied || !x.verdict.approved))
  {
    hide P.ProcessSinglePermit;
    assert legs[..i + 1][..i] == legs[..i];
  }

  lemma {:induction false} LegErrorStopsTheLoop(q: real -> real, db: Db, legs: seq<PermitRequest>, group: nat, i: nat)
    requires i < |legs| && P.ProcessLegs(q, db, legs[..i + 1], group).Err?
    ensures P.ProcessLegs(q, db, legs, group) == P.ProcessLegs(q, db, legs[..i + 1], group)
    decreases |legs|
  {
    if i + 1 == |legs| {
      assert legs[..i + 1] == legs;
    } else {
      assert legs[..|legs| - 1][..i + 1] == legs[..i + 1];
      LegErrorStopsTheLoop(q, db, legs[..|legs| - 1], group, i);
    }
  }

  class Tables {
    const quantize: real -> real
    var now: int
    var treasuries: seq<Treasury>
    var agents: seq<AgentSlot>
    var permits: seq<Permit>
    var groups: seq<PermitGroup>
    var proposals: seq<Proposal>
    var enrolments: map<nat, EnrollmentChallenge>
    var connects: map<string, ConnectChallenge>
    var mcpNonces: map<string, ConnectChallenge>

    function Snapshot(): Db
      reads this
    {
      Db(now, treasuries, agents, permits, groups, proposals, enrolments, connects, mcpNonces)
    }

    /** The tables satisfy every invariant of the coordinator. */
    ghost predicate Valid()
      reads this
    {
      Good(Snapshot())
    }

    constructor (quantize: real -> real, now: int)
      ensures Snapshot() == Empty(now) && this.quantize == quantize
      ensures Valid()
    {
      this.quantize, this.now := quantize, now;
      treasuries, agents, permits, groups, proposals := [], [], [], [], [];
      enrolments, connects, mcpNonces := map[], map[], map[];
      new;
      EmptyIsGood(now);
    }

    method Tick(micros: nat)
      requires Valid()
      modifies this`now
      ensures Snapshot() == old(Snapshot()).(now := old(now) + micros)
      ensures Valid()
    {
      hide Good;
      StepKeepsGood(quantize, Snapshot(), System.Tick(micros));
      now := now + micros;
    }

    // ----- Permits -----

    method ProcessSinglePermit(request: PermitRequest, group: nat) returns (r: Result<(PolicyResult, nat)>)
      modifies this`permits
      ensures match P.ProcessSinglePermit(quantize, old(Snapshot()), request, group)
              case Err(e) => r == Err(e) && Snapshot() == old(Snapshot())
              case Ok(done) => r == Ok((done.verdict, done.permit)) && Snapshot() == done.db
    {
      hide Verdict, Normalize, FindRule, ContentAt, Reserved, Count, AsI32;
      if request.agent >= |agents| || agents[request.agent].treasury != request.treasury {
        return Err(AgentNotFound);
      }
      if request.treasury >= |treasuries| {
        return Err(InvalidInput);
      }
      var treasury := treasuries[request.treasury];
      var stored := ContentAt(treasury.history, treasury.version);
      if stored.None? {
        return Err(InvalidInput);
      }
      var read := NormalizeConstitutionValue(stored.value);
      if read.Err? {
        return Err(read.error);
      }
      var rule := FindRule(read.value.walletRules, request.agent, request.wallet);
      if rule.None? {
        return Err(InvalidInput);
      }
      var access := P.AccessFromRule(rule.value, agents[request.agent].status == SlotActive);
      var reserved := Reserved(permits, OfAgent(request.agent, request.wallet));
      var active := Count(permits, OfAgent(request.agent, request.wallet));
      var treasuryActive := Count(permits, OfTreasury(request.treasury));
      var verdict := RunPolicyEngine(Case(request, TreasuryState(treasury.health, treasury.peak, treasury.current),
                                          access,
                                          read.value.rules, reserved, AsI32(active), AsI32(treasuryActive)));
      var id := |permits|;
      var status := if verdict.approved then Active else Denied;
      permits := permits + [Permit(group, request.agent, request.treasury, request.wallet, request.asset,
                                   request.amount,
                                   quantize(verdict.amount), status, verdict.denyReason, verdict.check,
                                   now + P.PERMIT_TTL, None)];
      r := Ok((verdict, id));
    }

    method IssueSingle(auth: AgentAuth, request: PermitRequest,
                       granted: GroupStatus) returns (r: Result<(PolicyResult, nat)>)
      modifies this`permits, this`groups
      ensures P.IssueSingle(quantize, old(Snapshot()), auth, request, granted) == Reply(Snapshot(), r)
    {
      hide P.ProcessSinglePermit;
      var before := groups;
      var id := |groups|;
      groups := groups + [PermitGroup(auth.agent, auth.treasury, true, request.amount, 0.0, GroupPending,
                                      now + P.PERMIT_TTL)];
      r := ProcessSinglePermit(request, id);
      if r.Err? {
        groups := before;
        return;
      }
      var status := if r.value.0.approved then granted else GroupDenied;
      groups := groups[id := groups[id].(status := status, totalApproved := r.value.0.amount)];
    }

    method RequestPermit(auth: AgentAuth, signed: Result<()>,
                         request: PermitRequest) returns (r: Result<(PolicyResult, nat)>)
      requires Valid()
      modifies this`permits, this`groups
      ensures P.RequestPermit(quantize, old(Snapshot()), auth, signed, request) == Reply(Snapshot(), r)
      ensures Valid()
      ensures r.Err? ==> Snapshot() == old(Snapshot())
      ensures r.Ok? ==> |permits| == old(|permits|) + 1 && old(permits) <= permits && r.value.1 == old(|permits|)
    {
      hide Good;
      PermitOpsKeepGood(quantize, Snapshot(), System.AskPermit(auth, signed, request));
      var session := Authenticate(Snapshot(), auth);
      if session.Err? {
        return Err(session.error);
      }
      if request.agent != auth.agent || request.treasury != auth.treasury {
        return Err(InvalidAgentSession);
      }
      if signed.Err? {
        return Err(signed.error);
      }
      r := IssueSingle(auth, request, GroupActive);
    }

    /** The loop over the legs.  After an error the rows of the legs before it are still there, for
        the caller's transaction to roll back. */
    method ProcessLegs(legs: seq<PermitRequest>, group: nat) returns (r: Result<(seq<PolicyResult>, real, bool)>)
      modifies this`permits
      ensures match P.ProcessLegs(quantize, old(Snapshot()), legs, group)
              case Err(e) => r == Err(e)
              case Ok(done) => r == Ok((done.results, done.requested, done.anyDenied)) && Snapshot() == done.db
    {
      hide P.ProcessSinglePermit, P.ProcessLegs;
      ghost var start := Snapshot();
      NoLegs(quantize, start, legs, group);
      var results: seq<PolicyResult>, totalRequested, anyDenied := [], 0.0, false;
      for i := 0 to |legs|
        invariant P.ProcessLegs(quantize, start, legs[..i], group) == Ok(P.Legs(Snapshot(), results, totalRequested,
                                                                                anyDenied))
      {
        OneMoreLeg(quantize, start, legs, group, i);
        totalRequested := totalRequested + legs[i].amount;
        var outcome := ProcessSinglePermit(legs[i], group);
        if outcome.Err? {
          LegErrorStopsTheLoop(quantize, start, legs, group, i);
          return Err(outcome.error);
        }
        if !outcome.value.0.approved {
          anyDenied := true;
        }
        results := results + [outcome.value.0];
      }
      assert legs[..|legs|] == legs;
      r := Ok((results, totalRequested, anyDenied));
    }

    /** A transaction that an error or a refused leg rolls back. */
    method RequestPermitGroup(auth: AgentAuth, signed: Result<()>, group: AgentAuth, legs: seq<PermitRequest>,
                              requireAll: bool)
      returns (r: Result<seq<PolicyResult>>)
      requires Valid()
      modifies this`permits, this`groups
      ensures P.RequestPermitGroup(quantize, old(Snapshot()), auth, signed, group, legs,
                                   requireAll) == Reply(Snapshot(), r)
      ensures Valid()
      ensures r.Err? ==> Snapshot() == old(Snapshot())
      ensures r.Ok? && requireAll ==> forall i | old(|permits|) <= i < |permits| :: permits[i].status == Active
    {
      hide Good, Records, P.ProcessLegs, P.SortLegs, Authenticate, P.TotalApproved, P.RefusedTogether;
      PermitOpsKeepGood(quantize, Snapshot(), System.AskGroup(auth, signed, group, legs, requireAll));
      GroupsAreTransactions(quantize, Snapshot(), auth, signed, group, legs, requireAll);
      var session := Authenticate(Snapshot(), auth);
      if session.Err? {
        return Err(session.error);
      }
      if group != auth {
        return Err(InvalidAgentSession);
      }
      if signed.Err? {
        return Err(signed.error);
      }
      var permitsBefore, groupsBefore := permits, groups;
      var id := |groups|;
      groups := groups + [PermitGroup(group.agent, group.treasury, requireAll, 0.0, 0.0, GroupPending,
                                      now + P.PERMIT_TTL)];
      var processed := ProcessLegs(P.SortLegs(legs), id);
      if processed.Err? {
        permits, groups := permitsBefore, groupsBefore;
        return Err(processed.error);
      }
      var (results, totalRequested, anyDenied) := processed.value;
      if requireAll && anyDenied {
        permits, groups := permitsBefore, groupsBefore;
        return Ok(P.RefusedTogether(results));
      }
      groups := groups[id := groups[id].(status := GroupActive, totalRequested := totalRequested,
                                         totalApproved := P.TotalApproved(results))];
      r := Ok(results);
    }

    // ----- Intents -----

    method SubmitIntent(pubkey: string, signature: Result<()>, intent: Document, amount: Option<real>)
      returns (r: Result<(PolicyResult, nat)>)
      requires Valid()
      modifies this`permits, this`groups
      ensures P.SubmitIntent(quantize, old(Snapshot()), pubkey, signature, intent, amount) == Reply(Snapshot(), r)
      ensures Valid()
      ensures r.Ok? <==> P.IntentRequest(old(Snapshot()), pubkey, signature, intent, amount).Ok?
    {
      hide Good, LogsSound;
      PermitOpsKeepGood(quantize, Snapshot(), System.AskIntent(pubkey, signature, intent, amount));
      GoodLogs(Snapshot());
      ResolvedIntentIsProcessed(quantize, Snapshot(), pubkey, signature, intent, amount);
      hide ParseAndResolve, NewestRules, RulesForAgent, P.IssueSingle, StrKey.ValidPublicKey;
      if !StrKey.ValidPublicKey(pubkey) {
        return Err(InvalidInput);
      }
      var found := AgentByPubkey(agents, pubkey);
      if found.None? {
        return Err(AgentNotFound);
      }
      var slot := agents[found.value];
      if Barred(slot.status) {
        return Err(BarredError(slot.status));
      }
      if signature.Err? {
        return Err(signature.error);
      }
      if slot.treasury >= |treasuries| {
        return Err(InvalidInput);
      }
      var content := NewestRules(treasuries[slot.treasury]);
      if content.Err? {
        return Err(content.error);
      }
      var asked := ParseAndResolve(intent, amount, RulesForAgent(content.value.walletRules, found.value));
      if asked.Err? {
        return Err(asked.error);
      }
      var auth := AgentAuth(found.value, slot.treasury);
      r := IssueSingle(auth, PermitRequest(auth.agent, auth.treasury, asked.value.wallet, asked.value.asset,
                                           asked.value.amount), GroupExecuting);
    }

    method CommitIntent(permit: nat)
      requires Valid()
      modifies this`permits, this`groups
      ensures Snapshot() == P.IntentExecuted(old(Snapshot()), permit)
      ensures Valid()
      ensures permit < |permits| ==> permits[permit].status == Consumed
    {
      hide Good;
      PermitOpsKeepGood(quantize, Snapshot(), System.CommitIntent(permit));
      if permit >= |permits| {
        return;
      }
      var group := permits[permit].group;
      permits := permits[permit := permits[permit].(status := Consumed, pnl := Some(0.0))];
      if group < |groups| {
        groups := groups[group := groups[group].(status := GroupConsumed)];
      }
    }

    method MarkIntentExecutionFailed(permit: nat)
      requires Valid()
      modifies this`permits, this`groups
      ensures Snapshot() == P.IntentFailed(old(Snapshot()), permit)
      ensures Valid()
      ensures permit < |permits| ==> permits[permit].status != Active
    {
      hide Good;
      PermitOpsKeepGood(quantize, Snapshot(), System.FailIntent(permit));
      if permit >= |permits| {
        return;
      }
      var group := permits[permit].group;
      if permits[permit].status == Active {
        permits := permits[permit := permits[permit].(status := Failed, denyReason := Some(ExecutionFailed))];
      }
      if group < |groups| {
        groups := groups[group := groups[group].(status := GroupFailed)];
      }
    }

    // ----- Outcomes, halting, resuming -----

    method ApplyHalt(treasury: nat)
      requires treasury < |treasuries|
      modifies this`treasuries, this`permits
      ensures Snapshot() == P.ApplyHalt(old(Snapshot()), treasury)
      ensures treasuries[treasury].health == Halted && NoneMatch(permits, OfTreasury(treasury))
      ensures forall i | 0 <= i < |permits| && permits[i].treasury != treasury :: permits[i] == old(permits)[i]
      ensures forall t | 0 <= t < |treasuries| && t != treasury :: treasuries[t] == old(treasuries)[t]
    {
      treasuries := treasuries[treasury := treasuries[treasury].(health := Halted)];
      permits := Settle(permits, InTreasury(treasury), Revoked);
    }

    method HandleReportOutcome(auth: AgentAuth, signed: Result<()>, permit: nat, pnl: real) returns (r: Result<()>)
      modifies this`treasuries, this`permits
      ensures P.ReportOutcome(old(Snapshot()), auth, signed, permit, pnl) == Reply(Snapshot(), r)
    {
      hide Normalize, ContentAt, Authenticate, Settle;
      var session := Authenticate(Snapshot(), auth);
      if session.Err? {
        return Err(session.error);
      }
      if permit >= |permits| || permits[permit].treasury >= |treasuries| {
        return Err(DatabaseError);
      }
      var t := permits[permit].treasury;
      var stored := ContentAt(treasuries[t].history, treasuries[t].version);
      if stored.None? {
        return Err(DatabaseError);
      }
      if permits[permit].agent != auth.agent {
        return Err(InvalidAgentSession);
      }
      if signed.Err? {
        return Err(signed.error);
      }
      var content := NormalizeConstitutionValue(stored.value);
      if content.Err? {
        return Err(content.error);
      }
      permits := permits[permit := permits[permit].(status := Consumed, pnl := Some(pnl))];
      var current := treasuries[t].current + pnl;
      treasuries := treasuries[t := treasuries[t].(current := current)];
      if treasuries[t].peak > 0.0 {
        var drawdown := (treasuries[t].peak - current) / treasuries[t].peak * 100.0;
        if drawdown >= content.value.rules.maxDrawdownPct {
          ApplyHalt(t);
        }
      }
      r := Ok(());
    }

    /** The same on valid tables. */
    method ReportOutcome(auth: AgentAuth, signed: Result<()>, permit: nat, pnl: real) returns (r: Result<()>)
      requires Valid()
      modifies this`treasuries, this`permits
      ensures P.ReportOutcome(old(Snapshot()), auth, signed, permit, pnl) == Reply(Snapshot(), r)
      ensures Valid()
      ensures r.Ok? <==> Accepted(old(Snapshot()), auth, signed, permit)
      ensures r.Ok? ==> permits[permit].status == Consumed && permits[permit].pnl == Some(pnl)
    {
      hide Good;
      PermitOpsKeepGood(quantize, Snapshot(), System.Outcome(auth, signed, permit, pnl));
      ReportIsBookedWhateverTheStatus(Snapshot(), auth, signed, permit, pnl);
      hide P.ReportOutcome, Accepted;
      r := HandleReportOutcome(auth, signed, permit, pnl);
    }

    method ResumeTreasury(user: nat, treasury: nat) returns (r: Result<()>)
      requires Valid()
      modifies this`treasuries
      ensures P.ResumeTreasury(old(Snapshot()), user, treasury) == Reply(Snapshot(), r)
      ensures Valid()
      ensures r.Ok? <==> old(Owns(Snapshot(), user, treasury))
      ensures r.Ok? ==> treasuries[treasury].health == Healthy
      ensures r.Ok? ==> treasuries[treasury].peak == treasuries[treasury].current
      ensures r.Ok? && old(treasuries[treasury].health) == Halted ==> NoneMatch(permits, OfTreasury(treasury))
    {
      hide Good;
      PermitOpsKeepGood(quantize, Snapshot(), System.Resume(user, treasury));
      GoodHaltedIsIdle(Snapshot());
      if treasury >= |treasuries| || treasuries[treasury].owner != user {
        return Err(TreasuryNotFound);
      }
      treasuries := treasuries[treasury := treasuries[treasury].(health := Healthy,
                                                                 peak := treasuries[treasury].current)];
      r := Ok(());
    }

    method FinishResync(treasury: nat, total: real)
      requires Valid()
      modifies this`treasuries
      ensures Snapshot() == P.Resync(old(Snapshot()), treasury, total)
      ensures Valid()
      ensures treasury < |treasuries| ==> treasuries[treasury].current == total <= treasuries[treasury].peak
      ensures treasury < |treasuries| ==> treasuries[treasury].peak >= old(treasuries[treasury].peak)
    {
      hide Good;
      PermitOpsKeepGood(quantize, Snapshot(), System.SetTotal(treasury, total));
      if treasury < |treasuries| {
        var peak := if treasuries[treasury].peak >= total then treasuries[treasury].peak else total;
        treasuries := treasuries[treasury := treasuries[treasury].(current := total, peak := peak)];
      }
    }

    method ExpirePermits()
      requires Valid()
      modifies this`permits
      ensures Snapshot() == P.ExpirePermits(old(Snapshot()))
      ensures Valid()
      ensures forall i | 0 <= i < |permits| && permits[i].status == Active :: now <= permits[i].expiresAt
    {
      hide Good;
      PermitOpsKeepGood(quantize, Snapshot(), System.SweepExpired);
      permits := Settle(permits, PastExpiry(now), Expired);
    }

    // ----- Treasuries and wallets -----

    method CreateTreasury(user: nat) returns (r: Result<nat>)
      requires Valid()
      modifies this`treasuries
      ensures GovernanceHandlers.CreateTreasury(old(Snapshot()), user) == Reply(Snapshot(), r)
      ensures Valid()
      ensures r == Ok(old(|treasuries|)) && |treasuries| == old(|treasuries|) + 1 && old(treasuries) <= treasuries
      ensures RulesInForce(treasuries[r.value]) == Ok(Genesis())
    {
      hide Good;
      GovernanceOpsKeepGood(Snapshot(), System.NewTreasury(user));
      GenesisIsValid();
      r := Ok(|treasuries|);
      treasuries := treasuries + [Treasury(user, PendingWallet, 0.0, 0.0, 0, [HistoryRow(0, GenesisDocument())],
                                           map[])];
    }

    method SetWallets(treasury: nat, wallets: map<string, WalletStatus>)
      requires treasury < |treasuries|
      modifies this`treasuries
      ensures Snapshot() == WithWallets(old(Snapshot()), treasury, wallets)
    {
      treasuries := treasuries[treasury := treasuries[treasury].(wallets := wallets)];
    }

    method RegisterWallet(user: nat, treasury: nat, wallet: string) returns (r: Result<()>)
      requires Valid()
      modifies this`treasuries
      ensures GovernanceHandlers.RegisterWallet(old(Snapshot()), user, treasury, wallet) == Reply(Snapshot(), r)
      ensures Valid()
      ensures r.Ok? <==> old(Owns(Snapshot(), user, treasury))
      ensures r.Ok? ==> wallet in treasuries[treasury].wallets
      ensures r.Ok? ==> ActiveWallets(treasuries[treasury]) == old(ActiveWallets(treasuries[treasury]))
    {
      hide Good;
      GovernanceOpsKeepGood(Snapshot(), System.AddWallet(user, treasury, wallet));
      if treasury >= |treasuries| || treasuries[treasury].owner != user {
        return Err(TreasuryNotFound);
      }
      if wallet !in treasuries[treasury].wallets {
        SetWallets(treasury, treasuries[treasury].wallets[wallet := WalletPending]);
      }
      r := Ok(());
    }

    method RemoveWallet(user: nat, treasury: nat, wallet: string) returns (r: Result<()>)
      requires Valid()
      modifies this`treasuries
      ensures GovernanceHandlers.RemoveWallet(old(Snapshot()), user, treasury, wallet) == Reply(Snapshot(), r)
      ensures Valid()
      ensures r.Ok? <==> old(Owns(Snapshot(), user, treasury))
      ensures r.Ok? ==> ActiveWallets(treasuries[treasury]) == old(ActiveWallets(treasuries[treasury])) - {wallet}
    {
      hide Good;
      GovernanceOpsKeepGood(Snapshot(), System.DropWallet(user, treasury, wallet));
      if treasury >= |treasuries| || treasuries[treasury].owner != user {
        return Err(TreasuryNotFound);
      }
      SetWallets(treasury, treasuries[treasury].wallets - {wallet});
      r := Ok(());
    }

    method ConfirmMultisig(user: nat, treasury: nat, wallet: string) returns (r: Result<()>)
      requires Valid()
      modifies this`treasuries
      ensures GovernanceHandlers.ConfirmMultisig(old(Snapshot()), user, treasury, wallet) == Reply(Snapshot(), r)
      ensures Valid()
      ensures r.Ok? <==> old(Owns(Snapshot(), user, treasury)) && wallet in old(treasuries[treasury].wallets)
      ensures r.Ok? ==> ActiveWallets(treasuries[treasury]) == old(ActiveWallets(treasuries[treasury])) + {wallet}
    {
      hide Good;
      GovernanceOpsKeepGood(Snapshot(), System.ConfirmWallet(user, treasury, wallet));
      if treasury >= |treasuries| || treasuries[treasury].owner != user || wallet !in treasuries[treasury].wallets {
        return Err(NotFound);
      }
      SetWallets(treasury, treasuries[treasury].wallets[wallet := WalletActive]);
      r := Ok(());
    }

    method RevokeMultisig(treasury: nat, wallet: string, accepted: Result<()>) returns (r: Result<()>)
      requires Valid()
      modifies this`treasuries
      ensures GovernanceHandlers.RevokeMultisig(old(Snapshot()), treasury, wallet, accepted) == Reply(Snapshot(), r)
      ensures Valid()
      ensures r.Ok? <==> accepted.Ok? && treasury < |treasuries| && wallet in old(treasuries[treasury].wallets)
      ensures r.Ok? ==> ActiveWallets(treasuries[treasury]) == old(ActiveWallets(treasuries[treasury])) - {wallet}
    {
      hide Good;
      GovernanceOpsKeepGood(Snapshot(), System.RevokeWallet(treasury, wallet, accepted));
      if treasury >= |treasuries| || wallet !in treasuries[treasury].wallets {
        return Err(NotFound);
      }
      if accepted.Err? {
        return Err(accepted.error);
      }
      SetWallets(treasury, treasuries[treasury].wallets - {wallet});
      r := Ok(());
    }

    method VerifyOwnership(proof: Result<()>, wallet: string) returns (r: Result<()>)
      requires Valid()
      modifies this`treasuries
      ensures GovernanceHandlers.VerifyOwnership(old(Snapshot()), proof, wallet) == Reply(Snapshot(), r)
      ensures Valid()
      ensures r.Ok? ==> forall t | 0 <= t < |treasuries| && wallet in treasuries[t].wallets ::
                  WalletIsActive(treasuries[t], wallet) && treasuries[t].health != PendingWallet
    {
      hide Good;
      GovernanceOpsKeepGood(Snapshot(), System.ProveWallet(proof, wallet));
      if proof.Err? {
        return Err(proof.error);
      }
      var before := treasuries;
      treasuries := seq(|before|, i requires 0 <= i < |before| => Activated(before[i], wallet));
      r := Ok(());
    }

    // ----- Constitution history -----

    method AppendVersion(treasury: nat, content: Document) returns (r: Result<int>)
      requires treasury < |treasuries|
      modifies this`treasuries
      ensures GovernanceHandlers.AppendVersion(old(Snapshot()), treasury, content) == Reply(Snapshot(), r)
    {
      var history := treasuries[treasury].history;
      var next := MaxVersion(history) + 1;
      if VersionTaken(history, next) {
        return Err(DatabaseError);
      }
      treasuries := treasuries[treasury := treasuries[treasury].(history := history + [HistoryRow(next, content)])];
      treasuries := treasuries[treasury := treasuries[treasury].(version := next)];
      r := Ok(next);
    }

    method CreateOrUpdateConstitution(treasury: nat, content: ConstitutionContent) returns (r: Result<int>)
      requires Valid()
      modifies this`treasuries
      ensures UpdateConstitution(old(Snapshot()), treasury, content) == Reply(Snapshot(), r)
      ensures Valid()
      ensures r.Ok? <==> Constitution.Valid(content) && treasury < |treasuries|
      ensures r.Ok? ==> RulesInForce(treasuries[treasury]) == Ok(content)
    {
      hide Good, LogsSound, RulesInForce, Normalize, ToJson, GovernanceHandlers.AppendVersion, Constitution.Valid;
      GovernanceOpsKeepGood(Snapshot(), System.Update(treasury, content));
      GoodLogs(Snapshot());
      UpdatePutsInForce(Snapshot(), treasury, content);
      var valid, _ := ValidateConstitution(content);
      if !valid {
        return Err(InvalidInput);
      }
      if treasury >= |treasuries| {
        return Err(DatabaseError);
      }
      r := AppendVersion(treasury, ToJson(content));
    }

    method RollbackConstitution(treasury: nat, version: int) returns (r: Result<int>)
      requires Valid()
      modifies this`treasuries
      ensures GovernanceHandlers.RollbackConstitution(old(Snapshot()), treasury, version) == Reply(Snapshot(), r)
      ensures Valid()
      ensures r.Ok? <==> treasury < |treasuries| && 0 <= version < |old(treasuries[treasury].history)|
      ensures r.Ok? ==>
                RulesInForce(treasuries[treasury]) == Normalize(old(treasuries[treasury].history[version].content))
    {
      hide Good, LogsSound;
      GovernanceOpsKeepGood(Snapshot(), System.Rollback(treasury, version));
      GoodLogs(Snapshot());
      RollbackPutsInForce(Snapshot(), treasury, version);
      if treasury >= |treasuries| {
        return Err(NotFound);
      }
      var stored := ContentAt(treasuries[treasury].history, version);
      if stored.None? {
        return Err(NotFound);
      }
      var content := NormalizeConstitutionValue(stored.value);
      if content.Err? {
        return Err(content.error);
      }
      r := CreateOrUpdateConstitution(treasury, content.value);
    }

    method RemoveAgentRules(treasury: nat, agent: nat, scrubbed: Option<string>) returns (r: Result<()>)
      requires treasury < |treasuries|
      modifies this`treasuries
      ensures GovernanceHandlers.RemoveAgentRules(old(Snapshot()), treasury, agent, scrubbed) == Reply(Snapshot(), r)
    {
      var newest := LatestContent(treasuries[treasury].history);
      if newest.None? {
        return Ok(());
      }
      var content := NormalizeConstitutionValue(newest.value);
      if content.Err? {
        return Err(content.error);
      }
      var kept := WithoutAgent(content.value.walletRules, agent);
      if |kept| == |content.value.walletRules| && scrubbed == content.value.memo {
        return Ok(());
      }
      var appended := AppendVersion(treasury, ToJson(content.value.(walletRules := kept, memo := scrubbed)));
      r := if appended.Ok? then Ok(()) else Err(appended.error);
    }

    // ----- Proposals -----

    method CreateProposal(treasury: nat, content: ConstitutionContent) returns (r: Result<nat>)
      requires Valid()
      modifies this`proposals
      ensures GovernanceHandlers.CreateProposal(old(Snapshot()), treasury, content) == Reply(Snapshot(), r)
      ensures Valid()
      ensures r.Ok? <==> Constitution.Valid(content) && treasury < |treasuries| && !old(HasOpenProposal(Snapshot(),
          treasury))
      ensures r.Ok? ==> r.value < |proposals| && Open(proposals[r.value], treasury, now)
    {
      hide Good;
      GovernanceOpsKeepGood(Snapshot(), System.Propose(treasury, content));
      ProposingOpens(Snapshot(), treasury, content);
      var valid, _ := ValidateConstitution(content);
      if !valid {
        return Err(InvalidInput);
      }
      if HasOpenProposal(Snapshot(), treasury) {
        return Err(InvalidInput);
      }
      if treasury >= |treasuries| {
        return Err(DatabaseError);
      }
      r := Ok(|proposals|);
      proposals := proposals + [Proposal(treasury, ToJson(content), ProposalPending, now + PROPOSAL_TTL, [])];
    }

    method SignProposal(treasury: nat, proposal: nat, wallet: string, signature: Result<()>) returns (r: Result<()>)
      requires Valid()
      modifies this`proposals, this`treasuries
      ensures GovernanceHandlers.SignProposal(old(Snapshot()), treasury, proposal, wallet,
                                              signature) == Reply(Snapshot(), r)
      ensures Valid()
      ensures proposal < |proposals| && old(proposals[proposal].status) != ProposalExecuted ==>
                (proposals[proposal].status == ProposalExecuted <==>
                 old(TakesSignature(Snapshot(), treasury, proposal, wallet, signature) && Carries(Snapshot(),
                     treasury, proposal)))
    {
      hide Good;
      assert Good(GovernanceHandlers.SignProposal(Snapshot(), treasury, proposal, wallet, signature).db) by {
        GovernanceOpsKeepGood(Snapshot(), System.Sign(treasury, proposal, wallet, signature));
      }
      SigningRule(Snapshot(), treasury, proposal, wallet, signature);
      if proposal >= |proposals| {
        return Err(NotFound);
      }
      if proposals[proposal].status != ProposalPending {
        return Err(InvalidInput);
      }
      if now > proposals[proposal].expiresAt {
        proposals := proposals[proposal := proposals[proposal].(status := ProposalExpired)];
        return Err(InvalidInput);
      }
      if treasury >= |treasuries| || !WalletIsActive(treasuries[treasury], wallet) {
        return Err(InvalidInput);
      }
      if wallet in proposals[proposal].signers {
        return Err(InvalidInput);
      }
      if signature.Err? {
        return Err(signature.error);
      }
      proposals := proposals[proposal := proposals[proposal].(signers := proposals[proposal].signers + [wallet])];
      if |proposals[proposal].signers| < Threshold(treasuries[treasury]) {
        return Ok(());
      }
      proposals := proposals[proposal := proposals[proposal].(status := ProposalExecuted)];
      var appended := AppendVersion(treasury, proposals[proposal].content);
      r := if appended.Ok? then Ok(()) else Err(appended.error);
    }

    // ----- Agent slots -----

    method CreateAgentSlot(treasury: nat, name: string, pubkey: string) returns (r: Result<nat>)
      requires Valid()
      modifies this`agents
      ensures CreateAgent(old(Snapshot()), treasury, name, pubkey) == Reply(Snapshot(), r)
      ensures Valid()
      ensures r.Ok? ==> r.value == old(|agents|) && |agents| == r.value + 1 && AgentByPubkey(agents,
          Text.Trim(pubkey)) == Some(r.value)
    {
      hide Good;
      AgentOpsKeepGood(Snapshot(), System.NewAgent(treasury, name, pubkey));
      var trimmed, key := Text.Trim(name), Text.Trim(pubkey);
      if trimmed == "" || Text.Utf8Size(trimmed) > 64 || !StrKey.ValidPublicKey(key) {
        return Err(InvalidInput);
      }
      if AgentByPubkey(agents, key).Some? {
        return Err(PubkeyConflict);
      }
      if treasury >= |treasuries| {
        return Err(DatabaseError);
      }
      r := Ok(|agents|);
      agents := agents + [AgentSlot(treasury, Some(key), PendingConfiguration, None)];
    }

    /** The signer check stops at the first wallet that does not list the agent's key. */
    method ComputeConnectionStatus(slot: AgentSlot, agent: nat, signerOf: set<string>) returns (r: Result<Connection>)
      ensures r == ConnectionStatus(Snapshot(), slot, agent, signerOf)
      ensures r == Ok(Complete) <==>
              && !Barred(slot.status) && slot.pubkey.Some? && slot.treasury < |treasuries|
              && NewestRules(treasuries[slot.treasury]).Ok?
              && var own := RulesForAgent(NewestRules(treasuries[slot.treasury]).value.walletRules, agent);
                 own != [] && SignsEverywhere(own, signerOf)
    {
      hide NewestRules, RulesForAgent;
      if slot.status == SlotRevoked {
        return Ok(Blocked(AgentRevokedCode));
      }
      if slot.status == Suspended {
        return Ok(Blocked(AgentSuspendedCode));
      }
      if slot.pubkey.None? {
        return Ok(Blocked(PendingPubkeyCode));
      }
      if slot.treasury >= |treasuries| {
        return Ok(Blocked(PendingConfigurationCode));
      }
      var content := NewestRules(treasuries[slot.treasury]);
      if content.Err? {
        return Err(content.error);
      }
      var own := RulesForAgent(content.value.walletRules, agent);
      if own == [] {
        return Ok(Blocked(PendingConfigurationCode));
      }
      for i := 0 to |own|
        invariant SignsEverywhere(own[..i], signerOf)
      {
        if own[i].wallet !in signerOf {
          return Ok(Blocked(PendingSignerCode));
        }
      }
      assert own[..|own|] == own;
      r := Ok(Complete);
    }

    method StartPubkeyEnrollment(agent: nat, wallet: string, pubkey: string, nonce: nat) returns (r: Result<()>)
      requires Valid()
      modifies this`enrolments
      ensures StartEnrollment(old(Snapshot()), agent, wallet, pubkey, nonce) == Reply(Snapshot(), r)
      ensures Valid()
      ensures r.Ok? ==> agent in enrolments && agent < |agents| && agents[agent].pubkey == Some(pubkey)
      ensures r.Ok? ==> !Barred(agents[agent].status)
    {
      hide Good, WalletIsActive;
      AgentOpsKeepGood(Snapshot(), System.BeginEnrolment(agent, wallet, pubkey, nonce));
      GoodKeys(Snapshot());
      if agent >= |agents| {
        return Err(AgentNotFound);
      }
      var slot := agents[agent];
      if Barred(slot.status) {
        return Err(BarredError(slot.status));
      }
      if slot.pubkey.Some? && slot.pubkey.value != pubkey {
        return Err(PubkeyConflict);
      }
      if slot.treasury >= |treasuries| || !WalletIsActive(treasuries[slot.treasury], wallet) {
        return Err(WalletNotFound);
      }
      enrolments := enrolments[agent := EnrollmentChallenge(nonce, wallet, pubkey, Seconds(now) + ENROLL_TTL_SECS)];
      r := Ok(());
    }

    method EnrollPubkey(agent: nat, wallet: string, pubkey: string, nonce: nat, signature: Result<()>,
                        signerOf: set<string>)
      returns (r: Result<()>)
      requires Valid()
      modifies this`enrolments, this`agents
      ensures AgentHandlers.EnrollPubkey(old(Snapshot()), agent, wallet, pubkey, nonce, signature,
                                         signerOf) == Reply(Snapshot(), r)
      ensures Valid()
      ensures r.Ok? ==> agent !in enrolments && agent < |agents| && agents[agent].pubkey == Some(pubkey)
    {
      hide Good, NewestRules, RulesForAgent, SignsEverywhere;
      AgentOpsKeepGood(Snapshot(), System.Enrol(agent, wallet, pubkey, nonce, signature, signerOf));
      EnrollingUsesTheChallenge(Snapshot(), agent, wallet, pubkey, nonce, signature, signerOf);
      if agent !in enrolments || enrolments[agent].expiresAt <= Seconds(now) {
        return Err(ChallengeExpired);
      }
      var challenge := enrolments[agent];
      if challenge.nonce != nonce || challenge.wallet != wallet || challenge.pubkey != pubkey {
        return Err(ChallengeExpired);
      }
      if signature.Err? {
        return Err(signature.error);
      }
      enrolments := enrolments - {agent};
      if agent >= |agents| || KeyHeldByOther(agents, pubkey, agent) {
        return Err(DatabaseError);
      }
      agents := agents[agent := agents[agent].(pubkey := Some(pubkey), status := PendingSigner)];
      var connection := ComputeConnectionStatus(agents[agent], agent, signerOf);
      if connection.Err? {
        return Err(connection.error);
      }
      agents := agents[agent := agents[agent].(status := PendingStatus(connection.value))];
      r := Ok(());
    }

    method ConnectChallenge(pubkey: string, nonce: nat) returns (r: Result<nat>)
      requires Valid()
      modifies this`connects
      ensures StartConnect(old(Snapshot()), pubkey, nonce) == Reply(Snapshot(), r)
      ensures Valid()
      ensures r.Ok? ==> r.value < |agents| && agents[r.value].pubkey == Some(pubkey) && !Barred(agents[r.value].status)
    {
      hide Good;
      AgentOpsKeepGood(Snapshot(), System.BeginConnect(pubkey, nonce));
      var found := AgentByPubkey(agents, pubkey);
      if found.None? {
        return Err(AgentNotFound);
      }
      if Barred(agents[found.value].status) {
        return Err(BarredError(agents[found.value].status));
      }
      connects := connects[pubkey := Store.ConnectChallenge(nonce, found.value, Seconds(now) + CONNECT_TTL_SECS)];
      r := Ok(found.value);
    }

    method ConnectComplete(pubkey: string, nonce: nat, signature: Result<()>,
                           signerOf: set<string>) returns (r: Result<nat>)
      requires Valid()
      modifies this`connects, this`agents
      ensures CompleteConnect(old(Snapshot()), pubkey, nonce, signature, signerOf) == Reply(Snapshot(), r)
      ensures Valid()
      ensures r.Ok? ==> pubkey !in connects
    {
      hide Good;
      AgentOpsKeepGood(Snapshot(), System.Connect(pubkey, nonce, signature, signerOf));
      if pubkey !in connects || connects[pubkey].nonce != nonce || connects[pubkey].expiresAt <= Seconds(now) {
        return Err(ChallengeExpired);
      }
      if signature.Err? {
        return Err(signature.error);
      }
      var agent := connects[pubkey].agent;
      connects := connects - {pubkey};
      if agent >= |agents| {
        return Err(DatabaseError);
      }
      var connection := ComputeConnectionStatus(agents[agent], agent, signerOf);
      if connection.Err? {
        return Err(connection.error);
      }
      agents := agents[agent := agents[agent].(status := LiveStatus(connection.value), lastConnected := Some(now))];
      r := Ok(agent);
    }

    method McpConnectChallenge(pubkey: string, nonce: nat) returns (r: Result<()>)
      requires Valid()
      modifies this`mcpNonces
      ensures StartMcpConnect(old(Snapshot()), pubkey, nonce) == Reply(Snapshot(), r)
      ensures Valid()
      ensures r.Ok? ==> pubkey in mcpNonces
    {
      hide Good;
      AgentOpsKeepGood(Snapshot(), System.BeginMcp(pubkey, nonce));
      if !StrKey.ValidPublicKey(pubkey) {
        return Err(InvalidInput);
      }
      var found := AgentByPubkey(agents, pubkey);
      if found.None? {
        return Err(AgentNotFound);
      }
      if Barred(agents[found.value].status) {
        return Err(BarredError(agents[found.value].status));
      }
      mcpNonces := mcpNonces[pubkey := Store.ConnectChallenge(nonce, found.value, Seconds(now) + MCP_CONNECT_TTL_SECS)];
      r := Ok(());
    }

    method McpConnectComplete(pubkey: string, nonce: nat, signature: Result<()>) returns (r: Result<nat>)
      requires Valid()
      modifies this`mcpNonces, this`agents
      ensures CompleteMcpConnect(old(Snapshot()), pubkey, nonce, signature) == Reply(Snapshot(), r)
      ensures Valid()
      ensures r.Ok? ==> pubkey !in mcpNonces && r.value < |agents| && agents[r.value].lastConnected == Some(now)
      ensures r.Ok? ==> !Barred(agents[r.value].status)
    {
      hide Good, NewestRules, RulesForAgent, StrKey.ValidPublicKey;
      AgentOpsKeepGood(Snapshot(), System.ConnectMcp(pubkey, nonce, signature));
      if !StrKey.ValidPublicKey(pubkey) {
        return Err(InvalidInput);
      }
      if pubkey !in mcpNonces || mcpNonces[pubkey].nonce != nonce || mcpNonces[pubkey].expiresAt <= Seconds(now) {
        return Err(ChallengeExpired);
      }
      if signature.Err? {
        return Err(signature.error);
      }
      mcpNonces := mcpNonces - {pubkey};
      var found := AgentByPubkey(agents, pubkey);
      if found.None? {
        return Err(AgentNotFound);
      }
      var slot := agents[found.value];
      if Barred(slot.status) {
        return Err(BarredError(slot.status));
      }
      var status := ResolveMcpSlotStatus(slot, found.value);
      if status.Err? {
        return Err(status.error);
      }
      agents := agents[found.value := slot.(status := status.value, lastConnected := Some(now))];
      r := Ok(found.value);
    }

    method ResolveMcpSlotStatus(slot: AgentSlot, agent: nat) returns (r: Result<AgentStatus>)
      ensures r == McpStatus(Snapshot(), slot, agent)
    {
      if Barred(slot.status) {
        return Ok(slot.status);
      }
      if slot.treasury >= |treasuries| {
        return Ok(PendingConfiguration);
      }
      var content := NewestRules(treasuries[slot.treasury]);
      if content.Err? {
        return Err(content.error);
      }
      r := Ok(if RulesForAgent(content.value.walletRules, agent) == [] then PendingConfiguration else SlotActive);
    }

    method RefreshMcpLiveness(session: AgentAuth) returns (r: Result<()>)
      requires Valid()
      modifies this`agents
      ensures AgentHandlers.RefreshMcpLiveness(old(Snapshot()), session) == Reply(Snapshot(), r)
      ensures Valid()
    {
      hide Good;
      AgentOpsKeepGood(Snapshot(), System.RefreshMcp(session));
      if session.agent >= |agents| || agents[session.agent].treasury != session.treasury {
        return Ok(());
      }
      var slot := agents[session.agent];
      if Barred(slot.status) {
        return Ok(());
      }
      var status := ResolveMcpSlotStatus(slot, session.agent);
      if status.Err? {
        return Err(status.error);
      }
      agents := agents[session.agent := slot.(status := status.value, lastConnected := Some(now))];
      r := Ok(());
    }

    method AgentHeartbeat(auth: AgentAuth, agent: nat, signerOf: set<string>) returns (r: Result<()>)
      requires Valid()
      modifies this`agents
      ensures Heartbeat(old(Snapshot()), auth, agent, signerOf) == Reply(Snapshot(), r)
      ensures Valid()
      ensures r.Ok? ==> agent == auth.agent < |agents| && agents[agent].lastConnected == Some(now)
    {
      hide Good;
      AgentOpsKeepGood(Snapshot(), System.Beat(auth, agent, signerOf));
      var session := Authenticate(Snapshot(), auth);
      if session.Err? {
        return Err(session.error);
      }
      if agent != auth.agent {
        return Err(InvalidAgentSession);
      }
      var connection := ComputeConnectionStatus(agents[agent], agent, signerOf);
      if connection.Err? {
        return Err(connection.error);
      }
      agents := agents[agent := agents[agent].(status := LiveStatus(connection.value), lastConnected := Some(now))];
      r := Ok(());
    }

    method SweepInactive()
      requires Valid()
      modifies this`agents
      ensures Snapshot() == AgentHandlers.SweepInactive(old(Snapshot()))
      ensures Valid()
      ensures forall i | 0 <= i < |agents| :: !TimedOut(agents[i], now)
    {
      hide Good;
      AgentOpsKeepGood(Snapshot(), System.SweepSilent);
      var before, time := agents, now;
      agents := seq(|before|, i requires 0 <= i < |before| =>
                  if TimedOut(before[i], time) then before[i].(status := Inactive) else before[i]);
    }

    method SuspendAgent(treasury: nat, agent: nat) returns (r: Result<()>)
      requires Valid()
      modifies this`agents
      ensures AgentHandlers.SuspendAgent(old(Snapshot()), treasury, agent) == Reply(Snapshot(), r)
      ensures Valid()
      ensures r.Ok? <==> agent < |agents|
      ensures r.Ok? && agents[agent].treasury == treasury ==> agents[agent].status == Suspended
    {
      hide Good;
      AgentOpsKeepGood(Snapshot(), System.Suspend(treasury, agent));
      if agent >= |agents| {
        return Err(DatabaseError);
      }
      if agents[agent].treasury == treasury {
        agents := agents[agent := agents[agent].(status := Suspended)];
      }
      r := Ok(());
    }

    /** One transaction over four tables, rolled back if the rules cannot be rewritten; the
        challenges are dropped after it commits. */
    method HandleRevokeAgent(treasury: nat, agent: nat, scrubbed: Option<string>) returns (r: Result<()>)
      modifies this
      ensures AgentHandlers.RevokeAgent(old(Snapshot()), treasury, agent, scrubbed) == Reply(Snapshot(), r)
    {
      hide GovernanceHandlers.RemoveAgentRules;
      if agent >= |agents| || agents[agent].treasury != treasury || treasury >= |treasuries| {
        return Err(AgentNotFound);
      }
      var pubkey := agents[agent].pubkey;
      var permitsBefore, groupsBefore, treasuriesBefore := permits, groups, treasuries;
      permits := Settle(permits, OfSlot(treasury, agent), Revoked);
      groups := RevokeGroups(groups, treasury, agent);
      var removed := RemoveAgentRules(treasury, agent, scrubbed);
      if removed.Err? {
        permits, groups, treasuries := permitsBefore, groupsBefore, treasuriesBefore;
        return Err(removed.error);
      }
      agents := agents[agent := agents[agent].(pubkey := None, status := SlotRevoked, lastConnected := None)];
      enrolments := enrolments - {agent};
      if pubkey.Some? {
        connects := connects - {pubkey.value};
      }
      r := Ok(());
    }

    /** The same on valid tables. */
    method RevokeAgent(treasury: nat, agent: nat, scrubbed: Option<string>) returns (r: Result<()>)
      requires Valid()
      modifies this
      ensures AgentHandlers.RevokeAgent(old(Snapshot()), treasury, agent, scrubbed) == Reply(Snapshot(), r)
      ensures Valid()
      ensures r.Ok? <==> agent < |agents| && old(agents)[agent].treasury == treasury
      ensures r.Ok? ==> Gone(Snapshot(), agent) && agents[agent].status == SlotRevoked
      ensures r.Ok? ==> forall g | 0 <= g < |groups| && !(old(groups)[g].agent == agent
                                                         && old(groups)[g].treasury == treasury) ::
                  groups[g] == old(groups)[g]
    {
      hide Good;
      AgentOpsKeepGood(Snapshot(), System.Revoke(treasury, agent, scrubbed));
      RevokingIsFinal(Snapshot(), treasury, agent, scrubbed);
      hide AgentHandlers.RevokeAgent, Gone;
      r := HandleRevokeAgent(treasury, agent, scrubbed);
    }

    // ----- Serving -----

    method PerformPermitOp(op: System.PermitOp)
      requires Valid()
      modifies this
      ensures Snapshot() == System.PermitNext(quantize, old(Snapshot()), op)
      ensures Valid()
    {
      hide P.RequestPermit, P.RequestPermitGroup, P.SubmitIntent, P.IntentExecuted, P.IntentFailed, P.ReportOutcome,
        P.ResumeTreasury, P.Resync, P.ExpirePermits;
      match op
      case AskPermit(auth, signed, request) => var _ := RequestPermit(auth, signed, request);
      case AskGroup(auth, signed, onBehalf, legs, all) => var _ := RequestPermitGroup(auth, signed, onBehalf, legs,
                                                                                      all);
      case AskIntent(pubkey, signed, intent, amount) => var _ := SubmitIntent(pubkey, signed, intent, amount);
      case CommitIntent(permit) => CommitIntent(permit);
      case FailIntent(permit) => MarkIntentExecutionFailed(permit);
      case Outcome(auth, signed, permit, pnl) => var _ := ReportOutcome(auth, signed, permit, pnl);
      case Resume(user, treasury) => var _ := ResumeTreasury(user, treasury);
      case SetTotal(treasury, total) => FinishResync(treasury, total);
      case SweepExpired => ExpirePermits();
    }

    method PerformGovernanceOp(op: System.GovernanceOp)
      requires Valid()
      modifies this
      ensures Snapshot() == System.GovernanceNext(old(Snapshot()), op)
      ensures Valid()
    {
      hide GovernanceHandlers.CreateTreasury, GovernanceHandlers.RegisterWallet, GovernanceHandlers.RemoveWallet,
        GovernanceHandlers.ConfirmMultisig, GovernanceHandlers.RevokeMultisig, GovernanceHandlers.VerifyOwnership,
        UpdateConstitution,
        GovernanceHandlers.RollbackConstitution, GovernanceHandlers.CreateProposal, GovernanceHandlers.SignProposal;
      match op
      case NewTreasury(user) => var _ := CreateTreasury(user);
      case AddWallet(user, treasury, wallet) => var _ := RegisterWallet(user, treasury, wallet);
      case DropWallet(user, treasury, wallet) => var _ := RemoveWallet(user, treasury, wallet);
      case ConfirmWallet(user, treasury, wallet) => var _ := ConfirmMultisig(user, treasury, wallet);
      case RevokeWallet(treasury, wallet, accepted) => var _ := RevokeMultisig(treasury, wallet, accepted);
      case ProveWallet(proof, wallet) => var _ := VerifyOwnership(proof, wallet);
      case Update(treasury, content) => var _ := CreateOrUpdateConstitution(treasury, content);
      case Rollback(treasury, version) => var _ := RollbackConstitution(treasury, version);
      case Propose(treasury, content) => var _ := CreateProposal(treasury, content);
      case Sign(treasury, proposal, wallet, signed) => var _ := SignProposal(treasury, proposal, wallet, signed);
    }

    method PerformAgentOp(op: System.AgentOp)
      requires Valid()
      modifies this
      ensures Snapshot() == System.AgentNext(old(Snapshot()), op)
      ensures Valid()
    {
      hide CreateAgent, StartEnrollment, AgentHandlers.EnrollPubkey, StartConnect, CompleteConnect, StartMcpConnect,
        CompleteMcpConnect, AgentHandlers.RefreshMcpLiveness, Heartbeat, AgentHandlers.SweepInactive,
        AgentHandlers.SuspendAgent, AgentHandlers.RevokeAgent;
      match op
      case NewAgent(treasury, name, pubkey) => var _ := CreateAgentSlot(treasury, name, pubkey);
      case BeginEnrolment(agent, wallet, pubkey, nonce) => var _ := StartPubkeyEnrollment(agent, wallet, pubkey, nonce);
      case Enrol(agent, wallet, pubkey, nonce, signed, signerOf) =>
        var _ := EnrollPubkey(agent, wallet, pubkey, nonce, signed, signerOf);
      case BeginConnect(pubkey, nonce) => var _ := ConnectChallenge(pubkey, nonce);
      case Connect(pubkey, nonce, signed, signerOf) => var _ := ConnectComplete(pubkey, nonce, signed, signerOf);
      case BeginMcp(pubkey, nonce) => var _ := McpConnectChallenge(pubkey, nonce);
      case ConnectMcp(pubkey, nonce, signed) => var _ := McpConnectComplete(pubkey, nonce, signed);
      case RefreshMcp(session) => var _ := RefreshMcpLiveness(session);
      case Beat(auth, agent, signerOf) => var _ := AgentHeartbeat(auth, agent, signerOf);
      case SweepSilent => SweepInactive();
      case Suspend(treasury, agent) => var _ := SuspendAgent(treasury, agent);
      case Revoke(treasury, agent, scrubbed) => var _ := RevokeAgent(treasury, agent, scrubbed);
    }

    /** Requests, timers and the clock, in whatever order they come: the tables go through exactly
        the states of the transition system's run. */
    method Serve(steps: seq<System.Step>)
      requires Valid()
      modifies this
      ensures Snapshot() == System.Run(quantize, old(Snapshot()), steps)
      ensures Valid()
    {
      hide System.PermitNext, System.GovernanceNext, System.AgentNext;
      ghost var start := Snapshot();
      for i := 0 to |steps|
        invariant Snapshot() == System.Run(quantize, start, steps[..i])
        invariant Valid()
      {
        assert steps[..i + 1][..i] == steps[..i];
        match steps[i] {
          case Tick(micros) => Tick(micros);
          case OnPermits(op) => PerformPermitOp(op);
          case OnGovernance(op) => PerformGovernanceOp(op);
          case OnAgents(op) => PerformAgentOp(op);
        }
      }
      assert steps[..|steps|] == steps;
    }
  }
}
