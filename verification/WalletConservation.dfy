/** Wallet conservation: while a treasury's constitution stays the same and its assets do not
    fall, the reservations of all its agents on one wallet together stay within its assets.
    Validation bounds the shares of a wallet by 100 in total; the engine bounds each agent by
    its own share; duplicate rules only tighten this, since the engine applies the first. */
module WalletConservation {
  import opened Policy
  import opened Constitution
  import opened Permits
  import opened Store
  import opened PermitHandlers
  import opened System
  import opened ConstitutionLog
  import opened Lifecycle
  import opened Reservations

  // ----- Shares of a wallet add up to at most the whole -----

  /** A percentage of the assets, and one rounding. */
  function Share(pct: real, m: real, eps: real): real { pct / 100.0 * m + eps }

  /** What the agent may end up holding on the wallet out of assets `m`, one rounding included. */
  function Allowance(rules: seq<AgentWalletRule>, a: nat, w: string, m: real, eps: real): real {
    match FindRule(rules, a, w)
    case None => 0.0
    case Some(r) => Share(r.allocationPct, m, eps)
  }

  function Allowances(rules: seq<AgentWalletRule>, n: nat, w: string, m: real, eps: real): real {
    if n == 0 then 0.0 else Allowances(rules, n - 1, w, m, eps) + Allowance(rules, n - 1, w, m, eps)
  }

  /** One rounding for each rule on the wallet. */
  function Roundings(rules: seq<AgentWalletRule>, w: string, eps: real): real {
    if rules == [] then 0.0
    else Roundings(rules[..|rules| - 1], w, eps) + if rules[|rules| - 1].wallet == w then eps else 0.0
  }

  function RuleAllowance(r: AgentWalletRule, w: string, m: real, eps: real): real {
    if r.wallet == w then Share(r.allocationPct, m, eps) else 0.0
  }

  /** A new rule adds to the allowance of the agent it names, if it is its first on the wallet. */
  lemma {:induction false} OneMoreAllowance(rules: seq<AgentWalletRule>, r: AgentWalletRule, n: nat, w: string,
                                            m: real, eps: real)
    requires ValidRule(r) && m >= 0.0 && eps >= 0.0
    ensures Allowances(rules + [r], n, w, m, eps) <=
            Allowances(rules, n, w, m, eps) + if r.agent < n then RuleAllowance(r, w, m, eps) else 0.0
    ensures r.agent >= n ==> Allowances(rules + [r], n, w, m, eps) == Allowances(rules, n, w, m, eps)
  {
    hide Share;
    ShareIsNonNegative(r, m, eps);
    if n > 0 {
      OneMoreAllowance(rules, r, n - 1, w, m, eps);
      assert (rules + [r])[..|rules|] == rules;
    }
  }

  function WalletAllowance(rules: seq<AgentWalletRule>, w: string, m: real, eps: real): real {
    if rules == [] then 0.0
    else WalletAllowance(rules[..|rules| - 1], w, m, eps) + RuleAllowance(rules[|rules| - 1], w, m, eps)
  }

  lemma {:induction false} AllowancesBelowWallet(rules: seq<AgentWalletRule>, n: nat, w: string, m: real, eps: real)
    requires (forall r | r in rules :: ValidRule(r)) && m >= 0.0 && eps >= 0.0
    ensures Allowances(rules, n, w, m, eps) <= WalletAllowance(rules, w, m, eps)
  {
    hide Allowance, RuleAllowance;
    if rules == [] {
      NoAllowances(n, w, m, eps);
    } else {
      var k := |rules| - 1;
      AllowancesBelowWallet(rules[..k], n, w, m, eps);
      assert rules == rules[..k] + [rules[k]] && ValidRule(rules[k]);
      OneMoreAllowance(rules[..k], rules[k], n, w, m, eps);
      RuleAllowanceIs(rules[k], w, m, eps);
    }
  }

  lemma RuleAllowanceIs(r: AgentWalletRule, w: string, m: real, eps: real)
    requires ValidRule(r) && m >= 0.0 && eps >= 0.0
    ensures RuleAllowance(r, w, m, eps) >= 0.0
    ensures RuleAllowance(r, w, m, eps) ==
            (if r.wallet == w then r.allocationPct else 0.0) / 100.0 * m + (if r.wallet == w then eps else 0.0)
  {
    ShareIsNonNegative(r, m, eps);
  }

  lemma {:induction false} WalletAllowanceIs(rules: seq<AgentWalletRule>, w: string, m: real, eps: real)
    requires (forall r | r in rules :: ValidRule(r)) && m >= 0.0 && eps >= 0.0
    ensures WalletAllowance(rules, w, m, eps) == WalletTotal(rules, w) / 100.0 * m + Roundings(rules, w, eps)
  {
    hide RuleAllowance;
    if rules != [] {
      var k := |rules| - 1;
      WalletAllowanceIs(rules[..k], w, m, eps);
      RuleAllowanceIs(rules[k], w, m, eps);
      Distribute(WalletTotal(rules[..k], w), if rules[k].wallet == w then rules[k].allocationPct else 0.0, m);
    }
  }

  /** Over any number of agents the allowances stay within the wallet's total share. */
  lemma AllowancesAddUp(rules: seq<AgentWalletRule>, n: nat, w: string, m: real, eps: real)
    requires (forall r | r in rules :: ValidRule(r)) && m >= 0.0 && eps >= 0.0
    ensures Allowances(rules, n, w, m, eps) <= WalletTotal(rules, w) / 100.0 * m + Roundings(rules, w, eps)
  {
    AllowancesBelowWallet(rules, n, w, m, eps);
    WalletAllowanceIs(rules, w, m, eps);
  }

  lemma ShareIsNonNegative(r: AgentWalletRule, m: real, eps: real)
    requires ValidRule(r) && m >= 0.0 && eps >= 0.0
    ensures Share(r.allocationPct, m, eps) >= 0.0
  {}

  lemma ShareGrows(pct: real, m: real, m': real, eps: real)
    requires pct >= 0.0 && m <= m'
    ensures Share(pct, m, eps) <= Share(pct, m', eps)
  {
    Scales(pct / 100.0, m, m');
  }

  lemma Scales(x: real, m: real, m': real)
    requires x >= 0.0 && m <= m'
    ensures x * m <= x * m'
  {}

  lemma {:induction false} NoAllowances(n: nat, w: string, m: real, eps: real)
    ensures Allowances([], n, w, m, eps) == 0.0
  {
    if n > 0 {
      NoAllowances(n - 1, w, m, eps);
    }
  }

  lemma Distribute(x: real, y: real, m: real)
    ensures (x + y) / 100.0 * m == x / 100.0 * m + y / 100.0 * m
  {}

  lemma {:induction false} NoRoundings(rules: seq<AgentWalletRule>, w: string)
    ensures Roundings(rules, w, 0.0) == 0.0
  {
    if rules != [] {
      NoRoundings(rules[..|rules| - 1], w);
    }
  }

  lemma WholeIsEnough(total: real, m: real)
    requires total <= 100.0 && m >= 0.0
    ensures total / 100.0 * m <= m
  {
    Scales(1.0 - total / 100.0, 0.0, m);
  }

  /** On a wallet that is not over-allocated, all allowances together stay within the assets. */
  lemma AllowancesStayWithinAssets(rules: seq<AgentWalletRule>, n: nat, w: string, m: real, eps: real)
    requires (forall r | r in rules :: ValidRule(r)) && WalletTotal(rules, w) <= 100.0 && m >= 0.0 && eps >= 0.0
    ensures Allowances(rules, n, w, m, eps) <= m + Roundings(rules, w, eps)
  {
    AllowancesAddUp(rules, n, w, m, eps);
    WholeIsEnough(WalletTotal(rules, w), m);
  }

  // ----- A wallet's reservations are those of its treasury's agents -----

  function AgentSum(ps: seq<Permit>, agents: seq<AgentSlot>, t: nat, w: string, n: nat): real
    requires n <= |agents|
  {
    if n == 0 then 0.0
    else AgentSum(ps, agents, t, w, n - 1) +
           if agents[n - 1].treasury == t then Reserved(ps, OfAgent(n - 1, w)) else 0.0
  }

  lemma {:induction false} OneMorePermit(ps: seq<Permit>, p: Permit, agents: seq<AgentSlot>, t: nat, w: string, n: nat)
    requires n <= |agents| && p.agent < |agents| && agents[p.agent].treasury == p.treasury
    ensures AgentSum(ps + [p], agents, t, w, n) ==
            AgentSum(ps, agents, t, w, n) + if p.agent < n && Matches(OnWallet(t, w), p) then p.approved else 0.0
  {
    if n > 0 {
      OneMorePermit(ps, p, agents, t, w, n - 1);
      Appended(ps, p, OfAgent(n - 1, w));
    }
  }

  lemma {:induction false} WalletSplitsByAgent(s: Db, t: nat, w: string, k: nat)
    requires Linked(s) && k <= |s.permits|
    ensures Reserved(s.permits[..k], OnWallet(t, w)) == AgentSum(s.permits[..k], s.agents, t, w, |s.agents|)
  {
    if k == 0 {
      NothingReserved(s.agents, t, w, |s.agents|);
    } else {
      WalletSplitsByAgent(s, t, w, k - 1);
      assert s.permits[..k] == s.permits[..k - 1] + [s.permits[k - 1]];
      Appended(s.permits[..k - 1], s.permits[k - 1], OnWallet(t, w));
      OneMorePermit(s.permits[..k - 1], s.permits[k - 1], s.agents, t, w, |s.agents|);
    }
  }

  lemma {:induction false} NothingReserved(agents: seq<AgentSlot>, t: nat, w: string, n: nat)
    requires n <= |agents|
    ensures AgentSum([], agents, t, w, n) == 0.0
  {
    if n > 0 {
      NothingReserved(agents, t, w, n - 1);
    }
  }

  // ----- Calm runs -----

  /** A run over which the treasury's constitution version stays and its assets never fall. */
  ghost predicate Calm(q: real -> real, s: Db, steps: seq<Step>, t: nat)
    requires t < |s.treasuries|
  {
    steps == [] ||
    var before := steps[..|steps| - 1];
    var now, then' := Run(q, s, before), Run(q, s, steps);
    && Calm(q, s, before, t)
    && t < |now.treasuries| && t < |then'.treasuries|
    && then'.treasuries[t].version == now.treasuries[t].version
    && then'.treasuries[t].current >= now.treasuries[t].current
  }

  ghost function RulesOf(s: Db, t: nat): seq<AgentWalletRule>
    requires LogsSound(s) && t < |s.treasuries|
  {
    CurrentReadsTheNewest(s.treasuries[t]);
    RulesInForce(s.treasuries[t]).value.walletRules
  }

  lemma SameVersionSameRules(s: Db, s': Db, t: nat)
    requires LogsSound(s) && LogsSound(s') && t < |s.treasuries| && t < |s'.treasuries|
    requires s.treasuries[t].history <= s'.treasuries[t].history
    requires s.treasuries[t].version == s'.treasuries[t].version
    ensures RulesOf(s, t) == RulesOf(s', t)
  {
    hide Sound, Normalizer.Normalize;
    CurrentReadsTheNewest(s.treasuries[t]);
    CurrentReadsTheNewest(s'.treasuries[t]);
  }

  /** What holds of the states a run passes through. */
  ghost predicate Fine(s: Db, t: nat) {
    LogsSound(s) && Sane(s) && NonNegative(s.permits) && t < |s.treasuries|
  }

  lemma {:induction false} CalmKeepsRules(q: real -> real, eps: real, s: Db, steps: seq<Step>, t: nat)
    requires Fine(s, t) && Rounds(q, eps) && NonNegativeRun(steps) && Calm(q, s, steps, t)
    ensures Fine(Run(q, s, steps), t) && RulesOf(Run(q, s, steps), t) == RulesOf(s, t)
  {
    hide Next, LogsSound, Sane, NonNegative, Rounds, RulesOf;
    RunKeepsNonNegative(q, eps, s, steps);
    RunsStaySane(q, s, steps);
    LogsStaySound(q, s, steps);
    if steps != [] {
      var before := steps[..|steps| - 1];
      CalmKeepsRules(q, eps, s, before, t);
      StepKeepsLogsSound(q, Run(q, s, before), steps[|steps| - 1]);
      SameVersionSameRules(Run(q, s, before), Run(q, s, steps), t);
    }
  }

  lemma CapIsTheShare(s: Db, t: nat, a: nat, w: string)
    requires LogsSound(s) && t < |s.treasuries| && a < |s.agents| && s.agents[a].treasury == t
    ensures CapInForce(s, a, w) ==
            match FindRule(RulesOf(s, t), a, w)
            case None => 0.0
            case Some(r) => Cap(r.allocationPct, s.treasuries[t].current)
  {
    hide Normalizer.Normalize;
    CurrentReadsTheNewest(s.treasuries[t]);
  }

  /** With no rule there is no grant, so a cap of nothing needs no rounding. */
  lemma GrantNeedsARule(q: real -> real, s: Db, s': Db, a: nat, w: string)
    requires Grants(q, s, s') && GrantedTo(|s.permits|, s'.permits, OfAgent(a, w))
    ensures a < |s.agents| && RuleFor(s, PermitRequest(a, s.agents[a].treasury, w, "", 0.0)).Ok?
  {
    hide RulesInForce, VerdictOn;
    var i :| |s.permits| <= i < |s'.permits| && Matches(OfAgent(a, w), s'.permits[i]);
    JudgedIsLinked(q, s, s'.permits[..i], s'.permits[i]);
  }

  lemma UnknownAgentHoldsNothing(s: Db, a: nat, w: string)
    requires Linked(s) && a >= |s.agents|
    ensures NoneMatch(s.permits, OfAgent(a, w))
  {}

  lemma AllowanceGrows(rules: seq<AgentWalletRule>, a: nat, w: string, m: real, m': real, eps: real)
    requires (forall r | r in rules :: ValidRule(r)) && m <= m'
    ensures Allowance(rules, a, w, m, eps) <= Allowance(rules, a, w, m', eps)
  {
    hide Share;
    if FindRule(rules, a, w).Some? {
      var r := FindRule(rules, a, w).value;
      assert r in rules && ValidRule(r);
      ShareGrows(r.allocationPct, m, m', eps);
    }
  }

  lemma RulesAreValid(s: Db, t: nat)
    requires LogsSound(s) && t < |s.treasuries|
    ensures forall r | r in RulesOf(s, t) :: ValidRule(r)
    ensures forall w :: WalletTotal(RulesOf(s, t), w) <= 100.0
  {
    hide Normalizer.Normalize;
    CurrentReadsTheNewest(s.treasuries[t]);
  }

  ghost predicate WithinAllowance(s: Db, t: nat, a: nat, w: string, eps: real)
    requires LogsSound(s) && t < |s.treasuries|
  {
    Reserved(s.permits, OfAgent(a, w)) <= Allowance(RulesOf(s, t), a, w, Max(0.0, s.treasuries[t].current), eps)
  }

  lemma StepKeepsAllowance(q: real -> real, eps: real, s: Db, step: Step, t: nat, a: nat, w: string)
    requires Rounds(q, eps) && Fine(s, t) && LogsSound(Next(q, s, step)) && t < |Next(q, s, step).treasuries|
    requires RulesOf(Next(q, s, step), t) == RulesOf(s, t)
    requires Next(q, s, step).treasuries[t].current >= s.treasuries[t].current
    requires a < |s.agents| && s.agents[a].treasury == t && WithinAllowance(s, t, a, w, eps)
    ensures WithinAllowance(Next(q, s, step), t, a, w, eps)
  {
    hide Next, LogsSound, Sane, NonNegative, Rounds, RulesOf, CapInForce, Judged, GrantedTo, AllJudged;
    var s' := Next(q, s, step);
    var m, m' := Max(0.0, s.treasuries[t].current), Max(0.0, s'.treasuries[t].current);
    RulesAreValid(s, t);
    AllowanceGrows(RulesOf(s, t), a, w, m, m', eps);
    StepStaysBelowCap(q, eps, s, step, a, w);
    if GrantedTo(|s.permits|, s'.permits, OfAgent(a, w)) {
      assert Grants(q, s, s') by { GrantingStepsGrant(q, s, step, OfAgent(a, w)); }
      GrantNeedsARule(q, s, s', a, w);
      CapWithinAllowance(s, t, a, w, eps);
    }
  }

  lemma GrantingStepsGrant(q: real -> real, s: Db, step: Step, f: Filter)
    requires GrantedTo(|s.permits|, Next(q, s, step).permits, f)
    ensures Grants(q, s, Next(q, s, step))
  {
    hide Next, Judged;
    StepGrantsOrAdvances(q, s, step);
  }

  lemma CapWithinAllowance(s: Db, t: nat, a: nat, w: string, eps: real)
    requires LogsSound(s) && t < |s.treasuries| && a < |s.agents| && s.agents[a].treasury == t
    requires RuleFor(s, PermitRequest(a, t, w, "", 0.0)).Ok?
    ensures CapInForce(s, a, w) + eps <= Allowance(RulesOf(s, t), a, w, Max(0.0, s.treasuries[t].current), eps)
  {
    hide LogsSound, CapInForce, Normalizer.Normalize;
    CapIsTheShare(s, t, a, w);
    RulesAreValid(s, t);
    CurrentReadsTheNewest(s.treasuries[t]) by { assert SoundLog(s.treasuries[t]) by { LogOf(s, t); } }
    var r := FindRule(RulesOf(s, t), a, w).value;
    assert r in RulesOf(s, t) && ValidRule(r);
    ShareGrows(r.allocationPct, s.treasuries[t].current, Max(0.0, s.treasuries[t].current), eps);
  }

  lemma LogOf(s: Db, t: nat)
    requires LogsSound(s) && t < |s.treasuries|
    ensures SoundLog(s.treasuries[t])
  {}

  /** Over a calm run every agent of the treasury stays within its allowance on the wallet. */
  lemma {:induction false} AgentsStayWithinAllowance(q: real -> real, eps: real, s: Db, steps: seq<Step>, t: nat,
                                                     a: nat, w: string)
    requires Fine(s, t) && Rounds(q, eps) && NonNegativeRun(steps) && Calm(q, s, steps, t)
    requires NoneMatch(s.permits, OnWallet(t, w))
    requires a < |Run(q, s, steps).agents| && Run(q, s, steps).agents[a].treasury == t
    ensures Fine(Run(q, s, steps), t) && WithinAllowance(Run(q, s, steps), t, a, w, eps)
  {
    hide Next, LogsSound, Sane, NonNegative, Rounds, RulesOf, Linked;
    CalmKeepsRules(q, eps, s, steps, t);
    RulesAreValid(Run(q, s, steps), t);
    RoundingErrorIsNotNegative(q, eps);
    if steps == [] {
      NothingHeldYet(s, t, a, w);
      AllowanceIsNonNegative(RulesOf(s, t), a, w, Max(0.0, s.treasuries[t].current), eps);
    } else {
      var before := steps[..|steps| - 1];
      var now := Run(q, s, before);
      CalmKeepsRules(q, eps, s, before, t);
      StepKeepsRows(q, now, steps[|steps| - 1]);
      if a < |now.agents| {
        AgentsStayWithinAllowance(q, eps, s, before, t, a, w);
        StepKeepsAllowance(q, eps, now, steps[|steps| - 1], t, a, w);
      } else {
        NewAgentHoldsNothing(q, now, steps[|steps| - 1], a, w);
        AllowanceIsNonNegative(RulesOf(s, t), a, w, Max(0.0, Run(q, s, steps).treasuries[t].current), eps);
      }
    }
  }

  lemma AllowanceIsNonNegative(rules: seq<AgentWalletRule>, a: nat, w: string, m: real, eps: real)
    requires (forall r | r in rules :: ValidRule(r)) && m >= 0.0 && eps >= 0.0
    ensures Allowance(rules, a, w, m, eps) >= 0.0
  {
    if FindRule(rules, a, w).Some? {
      var r := FindRule(rules, a, w).value;
      assert r in rules;
      ShareIsNonNegative(r, m, eps);
    }
  }

  lemma NothingHeldYet(s: Db, t: nat, a: nat, w: string)
    requires Sane(s) && a < |s.agents| && s.agents[a].treasury == t && NoneMatch(s.permits, OnWallet(t, w))
    ensures Reserved(s.permits, OfAgent(a, w)) == 0.0
  {
    assert forall i | 0 <= i < |s.permits| :: !Matches(OnWallet(t, w), s.permits[i]);
    NoneMatchMeansZero(s.permits, OfAgent(a, w));
  }

  lemma NewAgentHoldsNothing(q: real -> real, s: Db, step: Step, a: nat, w: string)
    requires Sane(s) && |s.agents| <= a < |Next(q, s, step).agents|
    ensures Reserved(Next(q, s, step).permits, OfAgent(a, w)) == 0.0
  {
    hide Next, Judged;
    UnknownAgentHoldsNothing(s, a, w);
    StepGrantsOrAdvances(q, s, step);
    NoneMatchMeansZero(s.permits, OfAgent(a, w));
    AdvancingFrees(s.permits, Next(q, s, step).permits, OfAgent(a, w));
    NoneMatchMeansZero(Next(q, s, step).permits, OfAgent(a, w));
  }

  lemma {:induction false} SumsStayWithinAllowances(s: Db, t: nat, w: string, n: nat, eps: real)
    requires LogsSound(s) && t < |s.treasuries| && n <= |s.agents| && eps >= 0.0
    requires forall a | 0 <= a < |s.agents| && s.agents[a].treasury == t :: WithinAllowance(s, t, a, w, eps)
    ensures AgentSum(s.permits, s.agents, t, w, n) <=
            Allowances(RulesOf(s, t), n, w, Max(0.0, s.treasuries[t].current), eps)
  {
    hide LogsSound, RulesOf;
    if n > 0 {
      SumsStayWithinAllowances(s, t, w, n - 1, eps);
      RulesAreValid(s, t);
      AllowanceIsNonNegative(RulesOf(s, t), n - 1, w, Max(0.0, s.treasuries[t].current), eps);
    }
  }

  /** Wallet conservation: from no active permits on the wallet, over any calm run of non-negative
      requests, all agents together never hold more on the wallet than the treasury's assets,
      give or take one rounding for each rule on the wallet. */
  lemma WalletIsConserved(q: real -> real, eps: real, s: Db, steps: seq<Step>, t: nat, w: string)
    requires Fine(s, t) && Rounds(q, eps) && NonNegativeRun(steps) && Calm(q, s, steps, t)
    requires NoneMatch(s.permits, OnWallet(t, w))
    ensures t < |Run(q, s, steps).treasuries|
    ensures Reserved(Run(q, s, steps).permits, OnWallet(t, w)) <=
            Max(0.0, Run(q, s, steps).treasuries[t].current) + Roundings(RulesOf(s, t), w, eps)
  {
    hide Next, LogsSound, Sane, NonNegative, Rounds, RulesOf, Calm, Linked, Allowances;
    var end := Run(q, s, steps);
    CalmKeepsRules(q, eps, s, steps, t);
    RoundingErrorIsNotNegative(q, eps);
    forall a | 0 <= a < |end.agents| && end.agents[a].treasury == t ensures WithinAllowance(end, t, a, w, eps) {
      AgentsStayWithinAllowance(q, eps, s, steps, t, a, w);
    }
    SumsStayWithinAllowances(end, t, w, |end.agents|, eps);
    RulesAreValid(end, t);
    AllowancesStayWithinAssets(RulesOf(end, t), |end.agents|, w, Max(0.0, end.treasuries[t].current), eps);
    SaneIsLinked(end);
    WalletSplitsByAgent(end, t, w, |end.permits|);
    assert end.permits[..|end.permits|] == end.permits;
  }

  lemma SaneIsLinked(s: Db)
    requires Sane(s)
    ensures Linked(s)
  {}

  lemma {:induction false} ReachableIsFine(q: real -> real, eps: real, now: int, steps: seq<Step>, t: nat)
    requires Rounds(q, eps) && NonNegativeRun(steps) && t < |Run(q, Empty(now), steps).treasuries|
    ensures Fine(Run(q, Empty(now), steps), t)
  {
    hide Next, LogsSound, Sane, Rounds;
    EmptyLogsAreSound(now);
    RunKeepsNonNegative(q, eps, Empty(now), steps);
    ReachableStatesAreSane(q, now, steps);
  }

  /** With exact storage, from any reachable state with nothing active on the wallet, it is the
      assets themselves that bound the reservations. */
  lemma {:induction false} ExactWalletIsConserved(q: real -> real, now: int, prelude: seq<Step>, steps: seq<Step>,
                                                  t: nat, w: string)
    requires Rounds(q, 0.0) && NonNegativeRun(prelude) && NonNegativeRun(steps)
    requires t < |Run(q, Empty(now), prelude).treasuries|
    requires NoneMatch(Run(q, Empty(now), prelude).permits, OnWallet(t, w))
    requires Calm(q, Run(q, Empty(now), prelude), steps, t)
    ensures var end := Run(q, Run(q, Empty(now), prelude), steps);
            t < |end.treasuries| && Reserved(end.permits, OnWallet(t, w)) <= Max(0.0, end.treasuries[t].current)
  {
    hide Next, Run, Rounds, NonNegativeRun, NoneMatch, Calm, Reserved, Roundings, LogsSound, Sane, NonNegative, RulesOf;
    ReachableIsFine(q, 0.0, now, prelude, t);
    NoRoundings(RulesOf(Run(q, Empty(now), prelude), t), w);
    WalletIsConserved(q, 0.0, Run(q, Empty(now), prelude), steps, t, w);
  }
}
