/** Rules 6 and 7 over runs: however many permits are asked for, an agent has no more of them active on
    a wallet than the largest permit cap under which one was granted, and a treasury no more than the
    largest permit limit. */
module PermitCounts {
  import opened Policy
  import opened Permits
  import opened Store
  import opened PermitHandlers
  import opened System
  import opened Lifecycle
  import opened Reservations

  /** The permit cap of the agent's rule on the wallet, or the treasury's permit limit; zero without a
      rule. */
  function LimitOn(s: Db, f: Filter): int {
    match f
    case OfAgent(a, w) =>
      if a >= |s.agents| then 0
      else
        (match RuleFor(s, PermitRequest(a, s.agents[a].treasury, w, "", 0.0))
         case Err(_) => 0
         case Ok((rule, _)) => rule.permitCap)
    case OfTreasury(t) =>
      if t >= |s.treasuries| || RulesInForce(s.treasuries[t]).Err? then 0
      else RulesInForce(s.treasuries[t]).value.rules.maxConcurrentPermits
    case OnWallet(_, _) => 0
  }

  /** Every row is of an agent of the row's treasury. */
  ghost predicate Placed(s: Db, ps: seq<Permit>) {
    forall i | 0 <= i < |ps| :: ps[i].agent < |s.agents| && s.agents[ps[i].agent].treasury == ps[i].treasury
  }

  lemma {:induction false} AgentCountIsLess(s: Db, ps: seq<Permit>, a: nat, w: string)
    requires Placed(s, ps) && a < |s.agents|
    ensures Count(ps, OfAgent(a, w)) <= Count(ps, OfTreasury(s.agents[a].treasury))
  {
    if ps != [] {
      AgentCountIsLess(s, ps[..|ps| - 1], a, w);
    }
  }

  /** A grant is made only below both limits. */
  lemma GrantBelowLimits(q: real -> real, s: Db, earlier: seq<Permit>, p: Permit)
    requires Placed(s, earlier) && CountsFit(earlier) && Judged(q, s, earlier, p) && p.status == Active
    ensures Count(earlier, OfAgent(p.agent, p.wallet)) < LimitOn(s, OfAgent(p.agent, p.wallet))
    ensures Count(earlier, OfTreasury(p.treasury)) < LimitOn(s, OfTreasury(p.treasury))
  {
    hide RulesInForce;
    ActiveRowsPassEveryRule(q, s, earlier, p);
    JudgedIsLinked(q, s, earlier, p);
    var c := JudgedCase(s, earlier, p);
    assert !Violates(6, c) && !Violates(7, c);
    assert RuleFor(s, RequestOf(p)) == RuleFor(s, PermitRequest(p.agent, p.treasury, p.wallet, "", 0.0));
    AgentCountIsLess(s, earlier, p.agent, p.wallet);
  }

  predicate IsCounted(f: Filter) { f.OfAgent? || f.OfTreasury? }

  lemma {:induction false} GrantsStayBelowLimit(q: real -> real, s: Db, ps: seq<Permit>, group: nat, f: Filter, n: nat)
    requires IsCounted(f) && Placed(s, s.permits) && CountsFit(s.permits)
    requires AllJudged(q, s, ps, group) && |s.permits| <= n <= |ps|
    ensures Placed(s, ps[..n]) && CountsFit(ps[..n])
    ensures if GrantedTo(|s.permits|, ps[..n], f) then Count(ps[..n], f) <= LimitOn(s, f)
            else Count(ps[..n], f) == Count(s.permits, f)
    decreases n
  {
    hide Judged, LimitOn, CountsFit, Count;
    if n == |s.permits| {
      assert ps[..n] == s.permits;
    } else {
      GrantsStayBelowLimit(q, s, ps, group, f, n - 1);
      assert ps[..n] == ps[..n - 1] + [ps[n - 1]];
      JudgedIsLinked(q, s, ps[..n - 1], ps[n - 1]);
      assert Placed(s, ps[..n]);
      GrantKeepsCounts(q, s, ps[..n - 1], ps[n - 1]);
      Appended(ps[..n - 1], ps[n - 1], f);
      if Matches(f, ps[n - 1]) {
        GrantBelowLimits(q, s, ps[..n - 1], ps[n - 1]);
        assert Matches(f, ps[..n][n - 1]);
      } else if GrantedTo(|s.permits|, ps[..n - 1], f) {
        var i :| |s.permits| <= i < n - 1 && Matches(f, ps[..n - 1][i]);
        assert Matches(f, ps[..n][i]);
      }
    }
  }

  lemma StepStaysBelowLimit(q: real -> real, s: Db, step: Step, f: Filter)
    requires Linked(s) && CountsFit(s.permits) && IsCounted(f)
    ensures var s' := Next(q, s, step);
            if GrantedTo(|s.permits|, s'.permits, f) then Count(s'.permits, f) <= LimitOn(s, f)
            else Count(s'.permits, f) <= Count(s.permits, f)
  {
    hide Next, Judged, LimitOn, CountsFit;
    var s' := Next(q, s, step);
    StepGrantsOrAdvances(q, s, step);
    if Grants(q, s, s') {
      GrantsStayBelowLimit(q, s, s'.permits, |s.groups|, f, |s'.permits|);
      assert s'.permits[..|s'.permits|] == s'.permits;
    } else {
      AdvancingFrees(s.permits, s'.permits, f);
    }
  }

  /** The largest limit in force at a grant; what was active at the start before the first. */
  ghost function LargestLimit(q: real -> real, s: Db, steps: seq<Step>, f: Filter): int {
    if steps == [] then Count(s.permits, f)
    else
      var before := steps[..|steps| - 1];
      var now := Run(q, s, before);
      var mark := LargestLimit(q, s, before, f);
      if GrantedTo(|now.permits|, Run(q, s, steps).permits, f) && LimitOn(now, f) > mark then LimitOn(now, f) else mark
  }

  /** Over any run the active permits of an agent on a wallet, and of a treasury, are never more than
      the largest limit under which one of them was granted, or than there were at the start. */
  lemma {:induction false} CountsStayBelowLimits(q: real -> real, s: Db, steps: seq<Step>, f: Filter)
    requires Sane(s) && IsCounted(f)
    ensures Count(Run(q, s, steps).permits, f) <= LargestLimit(q, s, steps, f)
  {
    hide Next, LimitOn, GrantedTo, Linked, CountsFit, HaltedIsIdle;
    if steps != [] {
      var before := steps[..|steps| - 1];
      CountsStayBelowLimits(q, s, before, f);
      RunsStaySane(q, s, before);
      StepStaysBelowLimit(q, Run(q, s, before), steps[|steps| - 1], f);
    }
  }
}
