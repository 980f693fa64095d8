/** The high-water mark of reservations: over any run of non-negative requests, what an agent has
    reserved on a wallet never exceeds the largest cap in force at one of its grants, however
    often amounts were rounded on the way. */
module Reservations {
  import opened Policy
  import opened Constitution
  import opened Permits
  import opened Store
  import opened PermitHandlers
  import opened System
  import opened ConstitutionLog
  import opened Lifecycle

  // ----- The rule in force is a valid one -----

  lemma RuleInForceIsValid(s: Db, request: PermitRequest)
    requires LogsSound(s) && RuleFor(s, request).Ok?
    ensures var (rule, rules) := RuleFor(s, request).value;
            ValidRule(rule) && Names(rule, request.agent, request.wallet)
            && rules.maxDrawdownPct > 0.0 && rules.maxConcurrentPermits >= 1
  {
    hide Normalizer.Normalize;
    CurrentReadsTheNewest(s.treasuries[request.treasury]);
    var content := RulesInForce(s.treasuries[request.treasury]).value;
    var rule := FindRule(content.walletRules, request.agent, request.wallet).value;
    assert rule in content.walletRules;
  }

  // ----- Requests are not negative -----

  predicate NonNegativeAsk(op: PermitOp) {
    match op
    case AskPermit(_, _, request) => request.amount >= 0.0
    case AskGroup(_, _, _, legs, _) => forall leg | leg in legs :: leg.amount >= 0.0
    case AskIntent(_, _, _, amount) => amount.Some? ==> amount.value >= 0.0
    case _ => true
  }

  predicate NonNegativeStep(step: Step) { step.OnPermits? ==> NonNegativeAsk(step.permitOp) }

  predicate NonNegativeRequestsFrom(ps: seq<Permit>, n: nat) {
    forall i | n <= i < |ps| :: ps[i].requested >= 0.0
  }

  lemma {:induction false} LegsAskNonNegative(q: real -> real, d: Db, legs: seq<PermitRequest>, group: nat, n: nat)
    requires ProcessLegs(q, d, legs, group).Ok? && forall leg | leg in legs :: leg.amount >= 0.0
    requires NonNegativeRequestsFrom(d.permits, n)
    ensures NonNegativeRequestsFrom(ProcessLegs(q, d, legs, group).value.db.permits, n)
  {
    hide RuleFor, Verdict, CaseFor;
    if legs != [] {
      LegsAskNonNegative(q, d, legs[..|legs| - 1], group, n);
    }
  }

  lemma NewRowsAskNonNegative(q: real -> real, s: Db, op: PermitOp)
    requires Asks(op) && NonNegativeAsk(op)
    ensures NonNegativeRequestsFrom(PermitNext(q, s, op).permits, |s.permits|)
  {
    hide RuleFor, Verdict, CaseFor, ProcessLegs, SortLegs, TotalApproved, AgentByPubkey, NewestRules, Authenticate;
    match op
    case AskGroup(auth, signed, onBehalf, legs, all) =>
      var d := OpenGroup(s, onBehalf, all, 0.0);
      if ProcessLegs(q, d, SortLegs(legs), |s.groups|).Ok? {
        forall leg | leg in SortLegs(legs) ensures leg.amount >= 0.0 {
          assert leg in multiset(SortLegs(legs));
        }
        LegsAskNonNegative(q, d, SortLegs(legs), |s.groups|, |s.permits|);
      }
    case _ =>
  }

  // ----- One grant -----

  /** The agent's cap on the wallet now: its share of the treasury's assets, nothing without a rule. */
  function CapInForce(s: Db, a: nat, w: string): real {
    if a >= |s.agents| then 0.0
    else
      match RuleFor(s, PermitRequest(a, s.agents[a].treasury, w, "", 0.0))
      case Err(_) => 0.0
      case Ok((rule, _)) => Cap(rule.allocationPct, s.treasuries[s.agents[a].treasury].current)
  }

  /** A grant is made only below the cap, and brings the reservations no further above it than
      one rounding. */
  lemma GrantBelowCap(q: real -> real, eps: real, s: Db, earlier: seq<Permit>, p: Permit)
    requires Rounds(q, eps) && Judged(q, s, earlier, p) && p.status == Active
    ensures var held := Reserved(earlier, OfAgent(p.agent, p.wallet));
            held < CapInForce(s, p.agent, p.wallet) && held + p.approved <= CapInForce(s, p.agent, p.wallet) + eps
  {
    hide RulesInForce;
    ActiveRowsPassEveryRule(q, s, earlier, p);
    JudgedIsLinked(q, s, earlier, p);
    var c := JudgedCase(s, earlier, p);
    assert !Violates(4, c);
    assert RuleFor(s, RequestOf(p)) == RuleFor(s, PermitRequest(p.agent, p.treasury, p.wallet, "", 0.0));
    assert q(ApprovedAmount(c)) <= ApprovedAmount(c) + eps;
  }

  lemma GrantIsNonNegative(q: real -> real, eps: real, s: Db, earlier: seq<Permit>, p: Permit)
    requires LogsSound(s) && Rounds(q, eps) && Judged(q, s, earlier, p) && p.requested >= 0.0
    ensures p.approved >= 0.0
  {
    hide LogsSound, RuleFor;
    RuleInForceIsValid(s, RequestOf(p));
    if p.status == Active {
      ActiveRowsPassEveryRule(q, s, earlier, p);
      var c := JudgedCase(s, earlier, p);
      assert !Violates(4, c);
      assert ApprovedAmount(c) >= 0.0;
    } else {
      assert q(0.0) >= 0.0;
    }
  }

  lemma StepKeepsNonNegative(q: real -> real, eps: real, s: Db, step: Step)
    requires LogsSound(s) && Rounds(q, eps) && NonNegativeStep(step) && NonNegative(s.permits)
    ensures NonNegative(Next(q, s, step).permits)
  {
    hide PermitNext, GovernanceNext, AgentNext, LogsSound, Judged, Rounds;
    var s' := Next(q, s, step);
    StepGrantsOrAdvances(q, s, step);
    if Grants(q, s, s') && |s'.permits| > |s.permits| {
      GrantsComeFromAsking(q, s, step);
      NewRowsAskNonNegative(q, s, step.permitOp);
      forall i | |s.permits| <= i < |s'.permits| ensures s'.permits[i].approved >= 0.0 {
        GrantIsNonNegative(q, eps, s, s'.permits[..i], s'.permits[i]);
      }
      assert forall i | 0 <= i < |s.permits| :: s'.permits[i] == s.permits[i];
    } else {
      assert forall i | 0 <= i < |s'.permits| :: s'.permits[i].approved == s.permits[i].approved;
    }
  }

  lemma GrantsComeFromAsking(q: real -> real, s: Db, step: Step)
    requires |Next(q, s, step).permits| > |s.permits|
    ensures step.OnPermits? && Asks(step.permitOp)
  {
    hide PermitNext, GovernanceNext, AgentNext;
    match step
    case Tick(_) =>
    case OnPermits(op) => if !Asks(op) { OtherPermitOpsAdvance(q, s, op); }
    case OnGovernance(op) => GovernanceKeepsTheRest(s, op);
    case OnAgents(op) => AgentStepsKeepRows(s, op);
  }

  // ----- One step -----

  predicate GrantedTo(n: nat, ps: seq<Permit>, f: Filter) {
    exists i | n <= i < |ps| :: Matches(f, ps[i])
  }

  lemma {:induction false} GrantsStayBelowCap(q: real -> real, eps: real, s: Db, ps: seq<Permit>, group: nat, a: nat,
                                              w: string,
                                              n: nat)
    requires Rounds(q, eps) && AllJudged(q, s, ps, group) && |s.permits| <= n <= |ps|
    ensures if GrantedTo(|s.permits|, ps[..n], OfAgent(a, w))
            then Reserved(ps[..n], OfAgent(a, w)) <= CapInForce(s, a, w) + eps
            else Reserved(ps[..n], OfAgent(a, w)) == Reserved(s.permits, OfAgent(a, w))
    decreases n
  {
    hide Judged, CapInForce, Rounds;
    if n == |s.permits| {
      assert ps[..n] == s.permits;
    } else {
      GrantsStayBelowCap(q, eps, s, ps, group, a, w, n - 1);
      assert ps[..n] == ps[..n - 1] + [ps[n - 1]];
      Appended(ps[..n - 1], ps[n - 1], OfAgent(a, w));
      if Matches(OfAgent(a, w), ps[n - 1]) {
        GrantBelowCap(q, eps, s, ps[..n - 1], ps[n - 1]);
        assert Matches(OfAgent(a, w), ps[..n][n - 1]);
      } else if GrantedTo(|s.permits|, ps[..n - 1], OfAgent(a, w)) {
        var i :| |s.permits| <= i < n - 1 && Matches(OfAgent(a, w), ps[..n - 1][i]);
        assert Matches(OfAgent(a, w), ps[..n][i]);
      }
    }
  }

  /** A step that grants to the agent on the wallet ends at most one rounding above the cap in
      force; any other step does not raise what is reserved. */
  lemma StepStaysBelowCap(q: real -> real, eps: real, s: Db, step: Step, a: nat, w: string)
    requires Rounds(q, eps) && NonNegative(s.permits)
    ensures var s' := Next(q, s, step);
            if GrantedTo(|s.permits|, s'.permits, OfAgent(a, w))
            then Reserved(s'.permits, OfAgent(a, w)) <= CapInForce(s, a, w) + eps
            else Reserved(s'.permits, OfAgent(a, w)) <= Reserved(s.permits, OfAgent(a, w))
  {
    hide Next, Judged, CapInForce, Rounds;
    var s' := Next(q, s, step);
    StepGrantsOrAdvances(q, s, step);
    if Grants(q, s, s') {
      GrantsStayBelowCap(q, eps, s, s'.permits, |s.groups|, a, w, |s'.permits|);
      assert s'.permits[..|s'.permits|] == s'.permits;
    } else {
      AdvancingFrees(s.permits, s'.permits, OfAgent(a, w));
    }
  }

  // ----- Over runs -----

  /** The largest cap in force at a grant to the agent on the wallet; zero before the first. */
  ghost function HighWater(q: real -> real, s: Db, steps: seq<Step>, a: nat, w: string): real {
    if steps == [] then 0.0
    else
      var before := steps[..|steps| - 1];
      var now := Run(q, s, before);
      var mark := HighWater(q, s, before, a, w);
      if GrantedTo(|now.permits|, Run(q, s, steps).permits, OfAgent(a, w)) then Max(mark, CapInForce(now, a,
          w)) else mark
  }

  ghost predicate NonNegativeRun(steps: seq<Step>) {
    forall i | 0 <= i < |steps| :: NonNegativeStep(steps[i])
  }

  lemma {:induction false} RunKeepsNonNegative(q: real -> real, eps: real, s: Db, steps: seq<Step>)
    requires LogsSound(s) && Rounds(q, eps) && NonNegativeRun(steps) && NonNegative(s.permits)
    ensures NonNegative(Run(q, s, steps).permits) && LogsSound(Run(q, s, steps))
  {
    hide Next, LogsSound, NonNegative, Rounds;
    LogsStaySound(q, s, steps);
    if steps != [] {
      var before := steps[..|steps| - 1];
      RunKeepsNonNegative(q, eps, s, before);
      LogsStaySound(q, s, before);
      StepKeepsNonNegative(q, eps, Run(q, s, before), steps[|steps| - 1]);
    }
  }

  /** However many grants were made and rounded, the reservations end at most one rounding above
      the high-water mark: a grant needs room below the cap, so roundings do not add up. */
  lemma {:induction false} ReservationsStayBelowHighWater(q: real -> real, eps: real, s: Db, steps: seq<Step>, a: nat,
                                                          w: string)
    requires LogsSound(s) && NonNegative(s.permits) && NoneMatch(s.permits, OfAgent(a, w))
    requires Rounds(q, eps) && NonNegativeRun(steps)
    ensures Reserved(Run(q, s, steps).permits, OfAgent(a, w)) <= HighWater(q, s, steps, a, w) + eps
  {
    hide Next, LogsSound, Rounds, CapInForce, GrantedTo, NonNegative;
    if steps == [] {
      NoneMatchMeansZero(s.permits, OfAgent(a, w));
      assert eps >= 0.0 by { RoundingErrorIsNotNegative(q, eps); }
    } else {
      var before := steps[..|steps| - 1];
      ReservationsStayBelowHighWater(q, eps, s, before, a, w);
      RunKeepsNonNegative(q, eps, s, before);
      StepStaysBelowCap(q, eps, Run(q, s, before), steps[|steps| - 1], a, w);
    }
  }

  lemma RoundingErrorIsNotNegative(q: real -> real, eps: real)
    requires Rounds(q, eps)
    ensures eps >= 0.0
  {}

  /** As the store rounds: half a unit in the seventh decimal place above the mark, ever. */
  lemma SevenPlacesStayBelowHighWater(now: int, steps: seq<Step>, a: nat, w: string)
    requires NonNegativeRun(steps)
    ensures Reserved(Run(Numeric7, Empty(now), steps).permits, OfAgent(a, w)) <=
            HighWater(Numeric7, Empty(now), steps, a, w) + 0.00000005
  {
    hide Next, Numeric7, CapInForce, GrantedTo;
    Numeric7RoundsByHalfAUnit();
    ReservationsStayBelowHighWater(Numeric7, 0.00000005, Empty(now), steps, a, w);
  }
}
