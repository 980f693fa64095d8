/** Halting and resuming.  An outcome halts the treasury exactly when the engine's drawdown rule
    would deny on the new total, and resuming a halted treasury gives every agent its whole
    capacity back. */
module Recovery {
  import opened Outcomes
  import opened Policy
  import opened Constitution
  import opened Permits
  import opened Store
  import opened PermitHandlers
  import opened System
  import opened ConstitutionLog
  import opened Lifecycle
  import opened Reservations

  // ----- Outcomes -----

  /** After an outcome the treasury is halted exactly when it was already or the drawdown rule
      fires on the new total. */
  lemma OutcomeHaltsOnDrawdown(s: Db, auth: AgentAuth, signed: Result<()>, permit: nat, pnl: real)
    requires ReportOutcome(s, auth, signed, permit, pnl).result.Ok?
    ensures var s' := ReportOutcome(s, auth, signed, permit, pnl).db;
            permit < |s.permits| && s.permits[permit].treasury < |s.treasuries| == |s'.treasuries|
            && var t, t' := s.treasuries[s.permits[permit].treasury], s'.treasuries[s.permits[permit].treasury];
               && t'.current == t.current + pnl && t'.peak == t.peak
               && RulesInForce(t).Ok? && RulesInForce(t') == RulesInForce(t)
               && (t'.health == Halted <==>
                   t.health == Halted || DrawdownReached(t'.peak, t'.current,
                                                         RulesInForce(t).value.rules.maxDrawdownPct))
  {
    hide ContentAt, Normalizer.Normalize, DrawdownReached, Authenticate, Settle;
  }

  /** So right after an outcome the treasury is halted, or every request to it passes rule 8. */
  lemma OutcomeLeavesHaltedOrPassingRule8(s: Db, auth: AgentAuth, signed: Result<()>, permit: nat, pnl: real,
                                          request: PermitRequest)
    requires ReportOutcome(s, auth, signed, permit, pnl).result.Ok?
    requires permit < |s.permits| && request.treasury == s.permits[permit].treasury
    requires RuleFor(ReportOutcome(s, auth, signed, permit, pnl).db, request).Ok?
    ensures var s' := ReportOutcome(s, auth, signed, permit, pnl).db;
            var (rule, rules) := RuleFor(s', request).value;
            Violates(1, CaseFor(s', request, rule, rules)) || !Violates(8, CaseFor(s', request, rule, rules))
  {
    hide ReportOutcome, DrawdownReached, RulesInForce;
    OutcomeHaltsOnDrawdown(s, auth, signed, permit, pnl);
  }

  /** A halt revokes exactly the active permits of the treasury, the sweep expires exactly the active
      permits past their time; no other row changes. */
  lemma HaltsAndSweepsSettleExactly(s: Db, treasury: nat, i: nat)
    requires treasury < |s.treasuries| && i < |s.permits|
    ensures |ApplyHalt(s, treasury).permits| == |ExpirePermits(s).permits| == |s.permits|
    ensures ApplyHalt(s, treasury).permits[i] ==
            if s.permits[i].status == Active && s.permits[i].treasury == treasury
            then s.permits[i].(status := Revoked) else s.permits[i]
    ensures ExpirePermits(s).permits[i] ==
            if s.permits[i].status == Active && s.permits[i].expiresAt < s.now
            then s.permits[i].(status := Expired) else s.permits[i]
  {}

  // ----- Resuming -----

  /** A request that nothing but its size and the treasury's rules can stop. */
  ghost predicate Eligible(s: Db, auth: AgentAuth, request: PermitRequest) {
    && auth == AgentAuth(request.agent, request.treasury)
    && RuleFor(s, request).Ok?
    && s.agents[request.agent].status == SlotActive
    && request.amount >= 0.0
  }

  lemma ResumeRestoresState(s: Db, user: nat, treasury: nat)
    requires Sane(s) && treasury < |s.treasuries| && s.treasuries[treasury].owner == user
    requires s.treasuries[treasury].health == Halted
    ensures var s' := ResumeTreasury(s, user, treasury).db;
            && |s'.treasuries| == |s.treasuries| && s'.permits == s.permits && s'.agents == s.agents
            && s'.treasuries[treasury].health == Healthy
            && s'.treasuries[treasury].peak == s'.treasuries[treasury].current == s.treasuries[treasury].current
            && Count(s'.permits, OfTreasury(treasury)) == 0
            && forall a, w | 0 <= a < |s.agents| && s.agents[a].treasury == treasury ::
                 Reserved(s'.permits, OfAgent(a, w)) == 0.0 && Count(s'.permits, OfAgent(a, w)) == 0
  {
    assert NoneMatch(s.permits, OfTreasury(treasury));
    NoneMatchMeansZero(s.permits, OfTreasury(treasury));
    forall a, w | 0 <= a < |s.agents| && s.agents[a].treasury == treasury
      ensures Reserved(s.permits, OfAgent(a, w)) == 0.0 && Count(s.permits, OfAgent(a, w)) == 0
    {
      assert forall i | 0 <= i < |s.permits| :: !Matches(OfTreasury(treasury), s.permits[i]);
      assert NoneMatch(s.permits, OfAgent(a, w));
      NoneMatchMeansZero(s.permits, OfAgent(a, w));
    }
  }

  lemma ResumeKeepsSound(s: Db, user: nat, treasury: nat)
    requires LogsSound(s)
    ensures LogsSound(ResumeTreasury(s, user, treasury).db)
  {
    hide Sound;
  }

  /** The answer when nothing is reserved: approved if and only if there are assets, for the smallest of
      the request, the tier limit and the rule's whole percentage of the assets. */
  predicate WholeShare(r: PolicyResult, asked: real, rule: AgentWalletRule, aum: real) {
    && (r.approved <==> aum > 0.0)
    && (aum > 0.0 ==> r.amount == Min(asked, Min(rule.allocationPct / 100.0 * aum, rule.tierLimit)))
    && (aum <= 0.0 ==> !r.approved && r.amount == 0.0 && r.denyReason == Some(AllocationReached))
  }

  /** What the engine says to the first request after resuming. */
  lemma FirstVerdictAfterResume(s: Db, user: nat, auth: AgentAuth, request: PermitRequest)
    requires Sane(s) && LogsSound(s) && request.treasury < |s.treasuries|
             && s.treasuries[request.treasury].owner == user
    requires s.treasuries[request.treasury].health == Halted
    requires Eligible(ResumeTreasury(s, user, request.treasury).db, auth, request)
    ensures var s' := ResumeTreasury(s, user, request.treasury).db;
            var (rule, rules) := RuleFor(s', request).value;
            var aum := s.treasuries[request.treasury].current;
            WholeShare(Verdict(CaseFor(s', request, rule, rules)), request.amount, rule, aum)
  {
    hide ResumeTreasury, LogsSound, Normalizer.Normalize, ContentAt, Sane;
    var s' := ResumeTreasury(s, user, request.treasury).db;
    ResumeKeepsSound(s, user, request.treasury);
    ResumeRestoresState(s, user, request.treasury);
    RuleInForceIsValid(s', request);
    var (rule, rules) := RuleFor(s', request).value;
    var c := CaseFor(s', request, rule, rules);
    CapHasTheSignOfAssets(rule, s.treasuries[request.treasury].current);
    assert !DrawdownReached(c.treasury.peak, c.treasury.current, rules.maxDrawdownPct);
    assert forall k | 1 <= k <= 8 && k != 4 :: !Violates(k, c);
    assert Violates(4, c) <==> s.treasuries[request.treasury].current <= 0.0;
  }

  lemma CapHasTheSignOfAssets(rule: AgentWalletRule, aum: real)
    requires ValidRule(rule)
    ensures Cap(rule.allocationPct, aum) > 0.0 <==> aum > 0.0
  {}

  /** Halt then resume restores capacity.  In any reachable state, right after the owner resumes a
      halted treasury, the first non-negative request of an active agent on an assigned wallet is
      approved if and only if the treasury has assets, and then for exactly the smallest of the
      request, the tier limit and the agent's whole share. */
  lemma ResumeRestoresCapacity(q: real -> real, now: int, steps: seq<Step>, user: nat, auth: AgentAuth,
                               request: PermitRequest)
    requires request.treasury < |Run(q, Empty(now), steps).treasuries|
    requires Run(q, Empty(now), steps).treasuries[request.treasury].owner == user
    requires Run(q, Empty(now), steps).treasuries[request.treasury].health == Halted
    requires Eligible(ResumeTreasury(Run(q, Empty(now), steps), user, request.treasury).db, auth, request)
    ensures var s := ResumeTreasury(Run(q, Empty(now), steps), user, request.treasury).db;
            var reply := RequestPermit(q, s, auth, Ok(()), request).result;
            var rule := RuleFor(s, request).value.0;
            var aum := s.treasuries[request.treasury].current;
            reply.Ok? && WholeShare(reply.value.0, request.amount, rule, aum)
  {
    hide Next, LogsSound, Sane, Verdict, CaseFor, NewPermit, RulesInForce, WholeShare;
    var s := Run(q, Empty(now), steps);
    assert LogsSound(Empty(now)) by { EmptyLogsAreSound(now); }
    LogsStaySound(q, Empty(now), steps);
    ReachableStatesAreSane(q, now, steps);
    FirstVerdictAfterResume(s, user, auth, request);
    GrantedAsJudged(q, ResumeTreasury(s, user, request.treasury).db, auth, request);
  }

  /** An eligible request is answered with the engine's verdict. */
  lemma GrantedAsJudged(q: real -> real, s: Db, auth: AgentAuth, request: PermitRequest)
    requires Eligible(s, auth, request)
    ensures var (rule, rules) := RuleFor(s, request).value;
            var reply := RequestPermit(q, s, auth, Ok(()), request).result;
            reply.Ok? && reply.value.0 == Verdict(CaseFor(s, request, rule, rules))
  {
    hide Verdict, RulesInForce, NewPermit;
    var d := OpenGroup(s, auth, true, request.amount);
    assert RuleFor(d, request) == RuleFor(s, request);
    var (rule, rules) := RuleFor(s, request).value;
    assert CaseFor(d, request, rule, rules) == CaseFor(s, request, rule, rules);
  }
}
