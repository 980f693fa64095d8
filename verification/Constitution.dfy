/** Treasury constitutions: the rules in force, their validation, and what revoking an agent
    removes from them. */
module Constitution {
  import opened Outcomes
  import opened Policy

  datatype AgentWalletRule = AgentWalletRule(agent: nat, wallet: string, allocationPct: real, tierLimit: real,
                                             permitCap: i32)

  datatype ConstitutionContent = ConstitutionContent(rules: TreasuryRules, walletRules: seq<AgentWalletRule>,
                                                     memo: Option<string>)

  // ----- Validity -----

  /** The total share of a wallet, over all rules that name it. */
  function WalletTotal(rules: seq<AgentWalletRule>, wallet: string): real {
    if rules == [] then 0.0
    else
      var last := rules[|rules| - 1];
      WalletTotal(rules[..|rules| - 1], wallet) + if last.wallet == wallet then last.allocationPct else 0.0
  }

  predicate AllocationInRange(r: AgentWalletRule) { 1.0 <= r.allocationPct <= 100.0 }

  predicate ValidRule(r: AgentWalletRule) {
    AllocationInRange(r) && r.tierLimit > 0.0 && r.permitCap >= 1
  }

  ghost predicate Valid(c: ConstitutionContent) {
    && c.rules.maxDrawdownPct > 0.0
    && c.rules.maxConcurrentPermits >= 1
    && (forall r | r in c.walletRules :: ValidRule(r))
    && (forall wallet: string :: WalletTotal(c.walletRules, wallet) <= 100.0)
  }

  datatype ValidationError =
    | BadDrawdown
    | BadMaxConcurrent
    | BadAllocation(agent: nat, wallet: string)
    | BadTierLimit(agent: nat, wallet: string)
    | BadPermitCap(agent: nat, wallet: string)
    | OverAllocated(wallet: string, total: real)

  predicate RuleComplaint(r: AgentWalletRule, e: ValidationError) {
    match e
    case BadAllocation(a, w) => a == r.agent && w == r.wallet && (r.allocationPct < 1.0 || r.allocationPct > 100.0)
    case BadTierLimit(a, w) => a == r.agent && w == r.wallet && r.tierLimit <= 0.0
    case BadPermitCap(a, w) => a == r.agent && w == r.wallet && r.permitCap < 1
    case _ => false
  }

  predicate Mentions(rules: seq<AgentWalletRule>, wallet: string) {
    exists i | 0 <= i < |rules| :: rules[i].wallet == wallet
  }

  predicate SomeRuleComplaint(rules: seq<AgentWalletRule>, e: ValidationError) {
    exists i | 0 <= i < |rules| :: RuleComplaint(rules[i], e)
  }

  /** The error `e` is due: what a complete report on `c` must and may contain. */
  ghost predicate Complaint(c: ConstitutionContent, e: ValidationError) {
    match e
    case BadDrawdown => c.rules.maxDrawdownPct <= 0.0
    case BadMaxConcurrent => c.rules.maxConcurrentPermits < 1
    case OverAllocated(w, total) =>
      Mentions(c.walletRules, w) && total == WalletTotal(c.walletRules, w) && total > 100.0
    case _ => SomeRuleComplaint(c.walletRules, e)
  }

  function RuleErrors(r: AgentWalletRule): (errors: seq<ValidationError>)
    ensures forall e :: e in errors <==> RuleComplaint(r, e)
  {
    (if !AllocationInRange(r) then [BadAllocation(r.agent, r.wallet)] else []) +
    (if r.tierLimit <= 0.0 then [BadTierLimit(r.agent, r.wallet)] else []) +
    (if r.permitCap < 1 then [BadPermitCap(r.agent, r.wallet)] else [])
  }

  /** The report is empty exactly for valid constitutions. */
  lemma NoComplaintsMeansValid(c: ConstitutionContent)
    ensures (forall e :: !Complaint(c, e)) <==> Valid(c)
  {
    if forall e :: !Complaint(c, e) {
      assert !Complaint(c, BadDrawdown) && !Complaint(c, BadMaxConcurrent);
      forall r | r in c.walletRules ensures ValidRule(r) {
        var i :| 0 <= i < |c.walletRules| && c.walletRules[i] == r;
        assert !Complaint(c, BadAllocation(r.agent, r.wallet));
        assert !RuleComplaint(c.walletRules[i], BadAllocation(r.agent, r.wallet));
        assert !Complaint(c, BadTierLimit(r.agent, r.wallet));
        assert !RuleComplaint(c.walletRules[i], BadTierLimit(r.agent, r.wallet));
        assert !Complaint(c, BadPermitCap(r.agent, r.wallet));
        assert !RuleComplaint(c.walletRules[i], BadPermitCap(r.agent, r.wallet));
      }
      forall wallet: string ensures WalletTotal(c.walletRules, wallet) <= 100.0 {
        UnnamedWalletTotal(c.walletRules, wallet);
        assert !Complaint(c, OverAllocated(wallet, WalletTotal(c.walletRules, wallet)));
      }
    }
    if Valid(c) {
      forall e, i | 0 <= i < |c.walletRules| ensures !RuleComplaint(c.walletRules[i], e) {
        assert c.walletRules[i] in c.walletRules;
      }
    }
  }

  lemma {:induction false} UnnamedWalletTotal(rules: seq<AgentWalletRule>, wallet: string)
    ensures !Mentions(rules, wallet) ==> WalletTotal(rules, wallet) == 0.0
  {
    if rules != [] {
      UnnamedWalletTotal(rules[..|rules| - 1], wallet);
    }
  }

  lemma OneMoreRule(rules: seq<AgentWalletRule>, last: AgentWalletRule)
    ensures forall w :: Mentions(rules + [last], w) <==> Mentions(rules, w) || w == last.wallet
    ensures forall e :: SomeRuleComplaint(rules + [last], e) <==> SomeRuleComplaint(rules, e) || RuleComplaint(last, e)
    ensures forall w :: WalletTotal(rules + [last], w) ==
                        WalletTotal(rules, w) + if w == last.wallet then last.allocationPct else 0.0
  {
    var all := rules + [last];
    assert all[..|rules|] == rules && all[|rules|] == last;
    forall w | Mentions(rules, w) ensures Mentions(all, w) {
      var i :| 0 <= i < |rules| && rules[i].wallet == w;
      assert all[i].wallet == w;
    }
    forall e | SomeRuleComplaint(rules, e) ensures SomeRuleComplaint(all, e) {
      var i :| 0 <= i < |rules| && RuleComplaint(rules[i], e);
      assert RuleComplaint(all[i], e);
    }
  }

  /** The first loop: errors of the single rules, and the running total of every named wallet. */
  method CheckRules(rules: seq<AgentWalletRule>) returns (errors: seq<ValidationError>, totals: map<string, real>)
    ensures forall e :: e in errors <==> SomeRuleComplaint(rules, e)
    ensures forall w :: w in totals <==> Mentions(rules, w)
    ensures forall w | w in totals :: totals[w] == WalletTotal(rules, w)
  {
    errors, totals := [], map[];
    for i := 0 to |rules|
      invariant forall w :: w in totals <==> Mentions(rules[..i], w)
      invariant forall w | w in totals :: totals[w] == WalletTotal(rules[..i], w)
      invariant forall e :: e in errors <==> SomeRuleComplaint(rules[..i], e)
    {
      var rule := rules[i];
      assert rules[..i + 1] == rules[..i] + [rule];
      OneMoreRule(rules[..i], rule);
      UnnamedWalletTotal(rules[..i], rule.wallet);
      errors := errors + RuleErrors(rule);
      var current := if rule.wallet in totals then totals[rule.wallet] else 0.0;
      totals := totals[rule.wallet := current + rule.allocationPct];
    }
    assert rules[..|rules|] == rules;
  }

  /** The second loop, over the wallets in whatever order the hash map yields them. */
  method CheckTotals(totals: map<string, real>) returns (errors: seq<ValidationError>)
    ensures forall e :: e in errors <==> e.OverAllocated? && e.wallet in totals && e.total == totals[e.wallet] > 100.0
  {
    errors := [];
    var wallets := totals.Keys;
    while wallets != {}
      invariant wallets <= totals.Keys
      invariant forall e :: e in errors <==> e.OverAllocated? && e.wallet in totals.Keys - wallets
                                             && e.total == totals[e.wallet] > 100.0
      decreases |wallets|
    {
      var wallet :| wallet in wallets;
      if totals[wallet] > 100.0 {
        errors := errors + [OverAllocated(wallet, totals[wallet])];
      }
      wallets := wallets - {wallet};
    }
  }

  method ValidateConstitution(c: ConstitutionContent) returns (valid: bool, errors: seq<ValidationError>)
    ensures forall e :: e in errors <==> Complaint(c, e)
    ensures valid <==> Valid(c)
  {
    errors := [];
    if c.rules.maxDrawdownPct <= 0.0 {
      errors := errors + [BadDrawdown];
    }
    if c.rules.maxConcurrentPermits < 1 {
      errors := errors + [BadMaxConcurrent];
    }
    var ruleErrors, totals := CheckRules(c.walletRules);
    var totalErrors := CheckTotals(totals);
    errors := errors + ruleErrors + totalErrors;
    valid := errors == [];
    NoComplaintsMeansValid(c);
    assert errors != [] ==> errors[0] in errors;
  }

  // ----- The rules of one agent -----

  predicate Names(r: AgentWalletRule, agent: nat, wallet: string) { r.agent == agent && r.wallet == wallet }

  /** The first rule for an agent on a wallet, which is the one the permit engine applies. */
  function FindRule(rules: seq<AgentWalletRule>, agent: nat, wallet: string): (r: Option<AgentWalletRule>)
    ensures r.Some? ==> exists i | 0 <= i < |rules| && rules[i] == r.value && Names(rules[i], agent, wallet) ::
                          forall j | 0 <= j < i :: !Names(rules[j], agent, wallet)
    ensures r.None? ==> forall i | 0 <= i < |rules| :: !Names(rules[i], agent, wallet)
  {
    if rules == [] then None
    else
      var before, last := FindRule(rules[..|rules| - 1], agent, wallet), rules[|rules| - 1];
      if before.Some? then before else if Names(last, agent, wallet) then Some(last) else None
  }

  /** The rules of the agent, or those of all others, in their order. */
  function Kept(rules: seq<AgentWalletRule>, agent: nat, own: bool): seq<AgentWalletRule> {
    if rules == [] then []
    else
      var last := rules[|rules| - 1];
      Kept(rules[..|rules| - 1], agent, own) + if (last.agent == agent) == own then [last] else []
  }

  lemma {:induction false} KeptMembers(rules: seq<AgentWalletRule>, agent: nat, own: bool)
    ensures forall r :: r in Kept(rules, agent, own) <==> r in rules && (r.agent == agent) == own
    ensures |Kept(rules, agent, own)| <= |rules|
  {
    if rules != [] {
      var n := |rules| - 1;
      KeptMembers(rules[..n], agent, own);
      assert forall r :: r in rules <==> r in rules[..n] || r == rules[n];
    }
  }

  function RulesForAgent(rules: seq<AgentWalletRule>, agent: nat): (own: seq<AgentWalletRule>)
    ensures forall r :: r in own <==> r in rules && r.agent == agent
  {
    KeptMembers(rules, agent, true);
    Kept(rules, agent, true)
  }

  function WithoutAgent(rules: seq<AgentWalletRule>, agent: nat): (kept: seq<AgentWalletRule>)
    ensures forall r :: r in kept <==> r in rules && r.agent != agent
    ensures |kept| <= |rules|
  {
    KeptMembers(rules, agent, false);
    Kept(rules, agent, false)
  }

  /** An agent with a rule of its own on a wallet has a first rule on it. */
  lemma OwnRuleIsFound(rules: seq<AgentWalletRule>, agent: nat, wallet: string)
    requires exists i | 0 <= i < |RulesForAgent(rules, agent)| :: RulesForAgent(rules, agent)[i].wallet == wallet
    ensures FindRule(rules, agent, wallet).Some?
  {
    var own := RulesForAgent(rules, agent);
    var i :| 0 <= i < |own| && own[i].wallet == wallet;
    assert own[i] in own;
    var j :| 0 <= j < |rules| && rules[j] == own[i];
    assert Names(rules[j], agent, wallet);
  }

  lemma KeptLast(init: seq<AgentWalletRule>, last: AgentWalletRule, agent: nat, own: bool)
    ensures Kept(init + [last], agent, own) ==
            if (last.agent == agent) == own then Kept(init, agent, own) + [last] else Kept(init, agent, own)
  {
    assert (init + [last])[..|init|] == init;
  }

  lemma ConcatRegroups(a: seq<AgentWalletRule>, b: seq<AgentWalletRule>, c: seq<AgentWalletRule>)
    ensures (a + b) + c == a + (b + c)
  {}

  lemma KeptConcatLast(x: seq<AgentWalletRule>, init: seq<AgentWalletRule>, last: AgentWalletRule, agent: nat,
                       own: bool)
    requires Kept(x + init, agent, own) == Kept(x, agent, own) + Kept(init, agent, own)
    ensures Kept(x + (init + [last]), agent, own) == Kept(x, agent, own) + Kept(init + [last], agent, own)
  {
    hide Kept;
    KeptLast(x + init, last, agent, own);
    KeptLast(init, last, agent, own);
    ConcatRegroups(x, init, [last]);
    ConcatRegroups(Kept(x, agent, own), Kept(init, agent, own), [last]);
  }

  lemma {:induction false} KeptConcat(x: seq<AgentWalletRule>, y: seq<AgentWalletRule>, agent: nat, own: bool)
    ensures Kept(x + y, agent, own) == Kept(x, agent, own) + Kept(y, agent, own)
    decreases |y|
  {
    if y == [] {
      assert x + y == x;
      return;
    }
    hide Kept;
    var init, last := y[..|y| - 1], y[|y| - 1];
    KeptConcat(x, init, agent, own);
    KeptConcatLast(x, init, last, agent, own);
    assert init + [last] == y;
  }

  lemma AddedOnce(rules: seq<AgentWalletRule>, r: AgentWalletRule)
    ensures multiset(rules + [r]) == multiset(rules) + multiset{r}
  {}

  /** A rule put at the end of a list and of one of its two parts. */
  lemma PartsGrow(x: seq<AgentWalletRule>, y: seq<AgentWalletRule>, rules: seq<AgentWalletRule>, r: AgentWalletRule)
    requires multiset(x) + multiset(y) == multiset(rules)
    ensures multiset(x + [r]) + multiset(y) == multiset(rules + [r]) == multiset(x) + multiset(y + [r])
  {
    AddedOnce(x, r);
    AddedOnce(y, r);
    AddedOnce(rules, r);
  }

  lemma KeptDivideLast(init: seq<AgentWalletRule>, last: AgentWalletRule, agent: nat)
    requires multiset(Kept(init, agent, true)) + multiset(Kept(init, agent, false)) == multiset(init)
    ensures multiset(Kept(init + [last], agent, true)) + multiset(Kept(init + [last], agent, false)) ==
            multiset(init + [last])
  {
    hide Kept;
    KeptLast(init, last, agent, true);
    KeptLast(init, last, agent, false);
    PartsGrow(Kept(init, agent, true), Kept(init, agent, false), init, last);
  }

  lemma {:induction false} KeptDivide(rules: seq<AgentWalletRule>, agent: nat)
    ensures multiset(Kept(rules, agent, true)) + multiset(Kept(rules, agent, false)) == multiset(rules)
  {
    if rules == [] {
      return;
    }
    hide Kept;
    var init, last := rules[..|rules| - 1], rules[|rules| - 1];
    KeptDivide(init, agent);
    KeptDivideLast(init, last, agent);
    assert init + [last] == rules;
  }

  lemma KeptOne(r: AgentWalletRule, agent: nat, own: bool)
    ensures Kept([r], agent, own) == if (r.agent == agent) == own then [r] else []
  {
    assert [r][..0] == [];
  }

  /** Both filters keep the order and the repetitions of the rules: around any rule of a list they
      keep what they keep of the parts, and together they keep every rule once. */
  lemma FiltersKeepOrder(x: seq<AgentWalletRule>, r: AgentWalletRule, y: seq<AgentWalletRule>, agent: nat)
    ensures RulesForAgent(x + [r] + y, agent) ==
            RulesForAgent(x, agent) + (if r.agent == agent then [r] else []) + RulesForAgent(y, agent)
    ensures WithoutAgent(x + [r] + y, agent) ==
            WithoutAgent(x, agent) + (if r.agent == agent then [] else [r]) + WithoutAgent(y, agent)
    ensures multiset(RulesForAgent(x, agent)) + multiset(WithoutAgent(x, agent)) == multiset(x)
  {
    hide Kept;
    KeptConcat(x + [r], y, agent, true);
    KeptConcat(x, [r], agent, true);
    KeptConcat(x + [r], y, agent, false);
    KeptConcat(x, [r], agent, false);
    KeptOne(r, agent, true);
    KeptOne(r, agent, false);
    KeptDivide(x, agent);
  }

  lemma {:induction false} TotalOfOthers(rules: seq<AgentWalletRule>, agent: nat, wallet: string)
    requires forall r | r in rules :: ValidRule(r)
    ensures WalletTotal(Kept(rules, agent, false), wallet) <= WalletTotal(rules, wallet)
  {
    if rules != [] {
      var n := |rules| - 1;
      TotalOfOthers(rules[..n], agent, wallet);
      assert ValidRule(rules[n]);
      var kept := Kept(rules[..n], agent, false);
      assert kept + [] == kept && (kept + [rules[n]])[..|kept|] == kept;
    }
  }

  lemma TotalWithoutAgent(rules: seq<AgentWalletRule>, agent: nat, wallet: string)
    requires forall r | r in rules :: ValidRule(r)
    ensures WalletTotal(WithoutAgent(rules, agent), wallet) <= WalletTotal(rules, wallet)
  {
    TotalOfOthers(rules, agent, wallet);
  }

  /** Revocation filters rules without validating again; what is left of a valid constitution is
      valid, whatever memo is kept. */
  lemma RemovalKeepsValid(c: ConstitutionContent, agent: nat, memo: Option<string>)
    requires Valid(c)
    ensures Valid(c.(walletRules := WithoutAgent(c.walletRules, agent), memo := memo))
  {
    forall wallet: string
      ensures WalletTotal(WithoutAgent(c.walletRules, agent), wallet) <= 100.0
    {
      TotalWithoutAgent(c.walletRules, agent, wallet);
    }
  }

  lemma {:induction false} KeptIsNoLonger(rules: seq<AgentWalletRule>, agent: nat, own: bool)
    ensures |Kept(rules, agent, own)| <= |rules|
  {
    if rules != [] {
      KeptIsNoLonger(rules[..|rules| - 1], agent, own);
    }
  }

  lemma {:induction false} AllKeptMeansUntouched(rules: seq<AgentWalletRule>, agent: nat)
    requires |Kept(rules, agent, false)| == |rules|
    ensures Kept(rules, agent, false) == rules && Kept(rules, agent, true) == []
  {
    if rules == [] {
      return;
    }
    hide Kept;
    var init, last := rules[..|rules| - 1], rules[|rules| - 1];
    assert init + [last] == rules;
    KeptLast(init, last, agent, true);
    KeptLast(init, last, agent, false);
    KeptIsNoLonger(init, agent, false);
    AllKeptMeansUntouched(init, agent);
  }

  lemma SameLengthMeansUntouched(rules: seq<AgentWalletRule>, agent: nat)
    requires |WithoutAgent(rules, agent)| == |rules|
    ensures WithoutAgent(rules, agent) == rules && RulesForAgent(rules, agent) == []
  {
    AllKeptMeansUntouched(rules, agent);
  }

  /** The constitution every treasury starts with. */
  function Genesis(): (c: ConstitutionContent) {
    ConstitutionContent(TreasuryRules(15.0, 10), [], Some("Genesis Constitution"))
  }
}
