/** What every run keeps of the permit table: rows are never lost, their status only rises, they
    refer to rows that exist, the counts the engine reads fit its integers, and a halted treasury
    has no active permit. */
module Lifecycle {
  import opened Outcomes
  import opened Policy
  import opened Constitution
  import opened Permits
  import opened Store
  import opened PermitHandlers
  import opened System

  // ----- Status only rises -----

  /** Rows were added at the end, and every earlier row stayed or moved up. */
  predicate Grown(ps: seq<Permit>, ps': seq<Permit>) {
    |ps| <= |ps'| && forall i | 0 <= i < |ps| :: Moves(ps[i], ps'[i])
  }

  lemma StepGrows(q: real -> real, s: Db, step: Step)
    ensures Grown(s.permits, Next(q, s, step).permits)
  {
    hide Next, Judged;
    StepGrantsOrAdvances(q, s, step);
  }

  lemma {:induction false} RunGrows(q: real -> real, s: Db, steps: seq<Step>)
    ensures Grown(s.permits, Run(q, s, steps).permits)
  {
    hide Next;
    if steps != [] {
      var before := steps[..|steps| - 1];
      RunGrows(q, s, before);
      StepGrows(q, Run(q, s, before), steps[|steps| - 1]);
    }
  }

  /** How often a run changes the status of permit `i`. */
  ghost function StatusChanges(q: real -> real, s: Db, steps: seq<Step>, i: nat): nat
    requires i < |s.permits|
  {
    if steps == [] then 0
    else
      var before := steps[..|steps| - 1];
      RunGrows(q, s, before);
      RunGrows(q, s, steps);
      StatusChanges(q, s, before, i) +
        if Run(q, s, before).permits[i].status == Run(q, s, steps).permits[i].status then 0 else 1
  }

  /** Over any run a permit changes status at most twice: each change raises its rank. */
  lemma {:induction false} AtMostTwoStatusChanges(q: real -> real, s: Db, steps: seq<Step>, i: nat)
    requires i < |s.permits|
    ensures Grown(s.permits, Run(q, s, steps).permits)
    ensures StatusChanges(q, s, steps, i) <= Rank(Run(q, s, steps).permits[i].status) - Rank(s.permits[i].status) <= 2
  {
    hide Next;
    RunGrows(q, s, steps);
    if steps != [] {
      var before := steps[..|steps| - 1];
      AtMostTwoStatusChanges(q, s, before, i);
      StepGrows(q, Run(q, s, before), steps[|steps| - 1]);
    }
  }

  /** ACTIVE is never entered again and CONSUMED is never left. */
  lemma {:induction false} SettledStaysSettled(q: real -> real, s: Db, steps: seq<Step>, i: nat)
    requires i < |s.permits|
    ensures Grown(s.permits, Run(q, s, steps).permits)
    ensures s.permits[i].status != Active ==> Run(q, s, steps).permits[i].status != Active
    ensures s.permits[i].status == Consumed ==> Run(q, s, steps).permits[i].status == Consumed
  {
    hide Next;
    RunGrows(q, s, steps);
  }

  // ----- References -----

  ghost predicate Linked(s: Db) {
    && (forall a | 0 <= a < |s.agents| :: s.agents[a].treasury < |s.treasuries|)
    && (forall i | 0 <= i < |s.permits| ::
          && s.permits[i].agent < |s.agents|
          && s.agents[s.permits[i].agent].treasury == s.permits[i].treasury
          && s.permits[i].group < |s.groups|)
  }

  lemma StepKeepsRows(q: real -> real, s: Db, step: Step)
    ensures var s' := Next(q, s, step);
            KeepsSlots(s, s') && |s.treasuries| <= |s'.treasuries| && |s.groups| <= |s'.groups|
  {
    hide PermitNext, GovernanceNext, AgentNext;
    match step
    case Tick(_) =>
    case OnPermits(op) => PermitOpsKeepTheRest(q, s, op);
    case OnGovernance(op) => GovernanceKeepsTheRest(s, op);
    case OnAgents(op) => AgentStepsKeepRows(s, op);
  }

  lemma JudgedIsLinked(q: real -> real, s: Db, earlier: seq<Permit>, p: Permit)
    requires Judged(q, s, earlier, p)
    ensures p.agent < |s.agents| && s.agents[p.agent].treasury == p.treasury < |s.treasuries|
  {
    hide RulesInForce, Verdict;
  }

  lemma StepKeepsLinked(q: real -> real, s: Db, step: Step)
    requires Linked(s)
    ensures Linked(Next(q, s, step))
  {
    hide Next, Judged;
    StepKeepsRows(q, s, step);
    StepGrantsOrAdvances(q, s, step);
    var s' := Next(q, s, step);
    if Grants(q, s, s') {
      forall i | |s.permits| <= i < |s'.permits|
        ensures s'.permits[i].agent < |s.agents| && s.agents[s'.permits[i].agent].treasury == s'.permits[i].treasury
                && s'.permits[i].group < |s'.groups|
      {
        JudgedIsLinked(q, s, s'.permits[..i], s'.permits[i]);
      }
    } else {
      assert forall i | 0 <= i < |s.permits| :: Moves(s.permits[i], s'.permits[i]);
    }
  }

  // ----- Counts fit the engine's integers -----

  const I32_MAX := 0x7FFF_FFFF

  ghost predicate CountsFit(ps: seq<Permit>) {
    forall t: nat :: Count(ps, OfTreasury(t)) <= I32_MAX
  }

  /** The case a row was judged by. */
  function JudgedCase(s: Db, earlier: seq<Permit>, p: Permit): Case
    requires RuleFor(s, RequestOf(p)).Ok?
  {
    var rule := RuleFor(s, RequestOf(p)).value;
    CaseFor(s.(permits := earlier), RequestOf(p), rule.0, rule.1)
  }

  /** An active row passed every rule, and stores the rounded amount the rules left. */
  lemma ActiveRowsPassEveryRule(q: real -> real, s: Db, earlier: seq<Permit>, p: Permit)
    requires Judged(q, s, earlier, p) && p.status == Active
    ensures forall k | 1 <= k <= 8 :: !Violates(k, JudgedCase(s, earlier, p))
    ensures p.approved == q(ApprovedAmount(JudgedCase(s, earlier, p)))
  {
    hide RuleFor, CaseFor, Violates, ApprovedAmount;
  }

  lemma GrantKeepsCounts(q: real -> real, s: Db, earlier: seq<Permit>, p: Permit)
    requires CountsFit(earlier) && Judged(q, s, earlier, p)
    ensures CountsFit(earlier + [p])
  {
    hide RulesInForce;
    if p.status == Active {
      ActiveRowsPassEveryRule(q, s, earlier, p);
      assert !Violates(7, JudgedCase(s, earlier, p));
    }
    forall t: nat ensures Count(earlier + [p], OfTreasury(t)) <= I32_MAX {
      Appended(earlier, p, OfTreasury(t));
    }
  }

  lemma {:induction false} GrantsKeepCounts(q: real -> real, s: Db, ps: seq<Permit>, group: nat, n: nat)
    requires AllJudged(q, s, ps, group) && CountsFit(s.permits)
    requires |s.permits| <= n <= |ps|
    ensures CountsFit(ps[..n])
    decreases n
  {
    hide Judged, CountsFit;
    if n == |s.permits| {
      assert ps[..n] == s.permits;
    } else {
      GrantsKeepCounts(q, s, ps, group, n - 1);
      GrantKeepsCounts(q, s, ps[..n - 1], ps[n - 1]);
      assert ps[..n] == ps[..n - 1] + [ps[n - 1]];
    }
  }

  lemma StepKeepsCounts(q: real -> real, s: Db, step: Step)
    requires CountsFit(s.permits)
    ensures CountsFit(Next(q, s, step).permits)
  {
    hide Next, Judged;
    StepGrantsOrAdvances(q, s, step);
    var s' := Next(q, s, step);
    if Grants(q, s, s') {
      GrantsKeepCounts(q, s, s'.permits, |s.groups|, |s'.permits|);
      assert s'.permits[..|s'.permits|] == s'.permits;
    } else {
      forall t: nat ensures Count(s'.permits, OfTreasury(t)) <= I32_MAX {
        AdvancingFrees(s.permits, s'.permits, OfTreasury(t));
      }
    }
  }

  lemma {:induction false} AgentCountsLess(s: Db, n: nat, a: nat, w: string)
    requires Linked(s) && n <= |s.permits| && a < |s.agents|
    ensures Count(s.permits[..n], OfAgent(a, w)) <= Count(s.permits[..n], OfTreasury(s.agents[a].treasury))
  {
    if n > 0 {
      AgentCountsLess(s, n - 1, a, w);
      assert s.permits[..n][..n - 1] == s.permits[..n - 1];
    }
  }

  /** So the truncating casts of the two counts never change them. */
  lemma CastsAreExact(s: Db, request: PermitRequest, rule: AgentWalletRule, rules: TreasuryRules)
    requires Linked(s) && CountsFit(s.permits)
    requires request.agent < |s.agents| && request.treasury == s.agents[request.agent].treasury
    ensures CaseFor(s, request, rule, rules).active == Count(s.permits, OfAgent(request.agent, request.wallet))
    ensures CaseFor(s, request, rule, rules).treasuryActive == Count(s.permits, OfTreasury(request.treasury))
  {
    AgentCountsLess(s, |s.permits|, request.agent, request.wallet);
    assert s.permits[..|s.permits|] == s.permits;
  }

  // ----- A halted treasury is idle -----

  ghost predicate HaltedIsIdle(s: Db) {
    forall t | 0 <= t < |s.treasuries| && s.treasuries[t].health == Halted :: NoneMatch(s.permits, OfTreasury(t))
  }

  /** The only ways a step changes a treasury's health. */
  predicate HealthMoves(s: Db, s': Db) {
    && |s.treasuries| <= |s'.treasuries|
    && (forall t | 0 <= t < |s.treasuries| ::
          s'.treasuries[t].health == Halted ==>
            s.treasuries[t].health == Halted || NoneMatch(s'.permits, OfTreasury(t)))
    && (forall t | |s.treasuries| <= t < |s'.treasuries| :: s'.treasuries[t].health != Halted)
  }

  lemma OutcomeHaltsIdle(s: Db, auth: AgentAuth, signed: Result<()>, permit: nat, pnl: real)
    ensures HealthMoves(s, ReportOutcome(s, auth, signed, permit, pnl).db)
  {
    hide ContentAt, RulesInForce, Authenticate, DrawdownReached;
    if permit < |s.permits| && s.permits[permit].treasury < |s.treasuries| {
      SettledIsEmpty(RecordOutcome(s, permit, pnl).permits, InTreasury(s.permits[permit].treasury), Revoked);
    }
  }

  lemma PermitStepsMoveHealth(q: real -> real, s: Db, op: PermitOp)
    ensures HealthMoves(s, PermitNext(q, s, op))
  {
    hide RequestPermit, RequestPermitGroup, SubmitIntent, ReportOutcome, Judged, Settle;
    if Asks(op) {
      AskingJudges(q, s, op);
    } else if op.Outcome? {
      OutcomeHaltsIdle(s, op.auth, op.signed, op.permit, op.pnl);
    }
  }

  lemma StepMovesHealth(q: real -> real, s: Db, step: Step)
    ensures HealthMoves(s, Next(q, s, step))
  {
    hide PermitNext, GovernanceNext, AgentNext;
    match step
    case Tick(_) =>
    case OnPermits(op) => PermitStepsMoveHealth(q, s, op);
    case OnGovernance(op) => GovernanceKeepsTheRest(s, op);
    case OnAgents(op) => AgentStepsKeepRows(s, op);
  }

  lemma JudgedAvoidsHalted(q: real -> real, s: Db, earlier: seq<Permit>, p: Permit)
    requires Judged(q, s, earlier, p) && p.status == Active
    ensures p.treasury < |s.treasuries| && s.treasuries[p.treasury].health != Halted
  {
    hide RulesInForce;
    JudgedIsLinked(q, s, earlier, p);
    ActiveRowsPassEveryRule(q, s, earlier, p);
    assert !Violates(1, JudgedCase(s, earlier, p));
  }

  lemma GrantsAvoidHalted(q: real -> real, s: Db, s': Db, t: nat)
    requires Grants(q, s, s') && t < |s.treasuries| && s.treasuries[t].health == Halted
    requires NoneMatch(s.permits, OfTreasury(t))
    ensures NoneMatch(s'.permits, OfTreasury(t))
  {
    hide Judged;
    forall i | |s.permits| <= i < |s'.permits| ensures !Matches(OfTreasury(t), s'.permits[i]) {
      if s'.permits[i].status == Active {
        JudgedAvoidsHalted(q, s, s'.permits[..i], s'.permits[i]);
      }
    }
    assert forall i | 0 <= i < |s.permits| :: s'.permits[i] == s.permits[i];
  }

  lemma StepKeepsHaltedIdle(q: real -> real, s: Db, step: Step)
    requires HaltedIsIdle(s)
    ensures HaltedIsIdle(Next(q, s, step))
  {
    hide Next, Judged;
    StepMovesHealth(q, s, step);
    StepGrantsOrAdvances(q, s, step);
    var s' := Next(q, s, step);
    forall t | 0 <= t < |s'.treasuries| && s'.treasuries[t].health == Halted ensures NoneMatch(s'.permits,
        OfTreasury(t)) {
      if s.treasuries[t].health == Halted {
        if Grants(q, s, s') {
          GrantsAvoidHalted(q, s, s', t);
        } else {
          NoneMatchMeansZero(s.permits, OfTreasury(t));
          AdvancingFrees(s.permits, s'.permits, OfTreasury(t));
          NoneMatchMeansZero(s'.permits, OfTreasury(t));
        }
      }
    }
  }

  // ----- Over runs -----

  ghost predicate Sane(s: Db) {
    Linked(s) && CountsFit(s.permits) && HaltedIsIdle(s)
  }

  /** In every reachable state permits refer to existing rows, the counts fit, and a halted
      treasury has no active permit. */
  lemma {:induction false} RunsStaySane(q: real -> real, s: Db, steps: seq<Step>)
    requires Sane(s)
    ensures Sane(Run(q, s, steps))
  {
    hide Next, Linked, CountsFit, HaltedIsIdle;
    if steps != [] {
      var before, last := steps[..|steps| - 1], steps[|steps| - 1];
      RunsStaySane(q, s, before);
      StepKeepsLinked(q, Run(q, s, before), last);
      StepKeepsCounts(q, Run(q, s, before), last);
      StepKeepsHaltedIdle(q, Run(q, s, before), last);
    }
  }

  lemma {:induction false} ReachableStatesAreSane(q: real -> real, now: int, steps: seq<Step>)
    ensures Sane(Run(q, Empty(now), steps))
  {
    hide Next;
    RunsStaySane(q, Empty(now), steps);
  }
}
