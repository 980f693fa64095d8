/** What the permit and intent endpoints answer and store, in plain numbers on the state before the
    call: none of the engine's own terms occur here. */
module Answers {
  import opened Outcomes
  import opened Policy
  import opened Constitution
  import opened Permits
  import opened Normalizer
  import opened Store
  import opened PermitHandlers
  import opened Intents
  import opened Lifecycle
  import opened Json
  import StrKey
  import Text

  /** The sums and counts of the engine, row by row. */
  lemma SumsRowByRow(ps: seq<Permit>, p: Permit, agent: nat, wallet: string, treasury: nat)
    ensures Reserved([], OfAgent(agent, wallet)) == 0.0
    ensures Reserved(ps + [p], OfAgent(agent, wallet)) == Reserved(ps, OfAgent(agent, wallet)) +
            if p.status == Active && p.agent == agent && p.wallet == wallet then p.approved else 0.0
    ensures Count([], OfAgent(agent, wallet)) == 0 && Count([], OfTreasury(treasury)) == 0
    ensures Count(ps + [p], OfAgent(agent, wallet)) == Count(ps, OfAgent(agent, wallet)) +
            if p.status == Active && p.agent == agent && p.wallet == wallet then 1 else 0
    ensures Count(ps + [p], OfTreasury(treasury)) == Count(ps, OfTreasury(treasury)) +
            if p.status == Active && p.treasury == treasury then 1 else 0
  {
    Appended(ps, p, OfAgent(agent, wallet));
    Appended(ps, p, OfTreasury(treasury));
  }

  /** The decision on a request under the rule in force.  It is approved if and only if the treasury is
      not halted and within its drawdown limit, the slot is active, the two counts are below their
      limits, and what the agent holds is below its percentage of the assets.  It is then approved for
      what is asked up to the tier limit if that fits the percentage, and otherwise for what fills it. */
  predicate DecidedInNumbers(s: Db, request: PermitRequest, rule: AgentWalletRule, rules: TreasuryRules,
                             r: PolicyResult)
    requires request.agent < |s.agents| && request.treasury < |s.treasuries|
  {
    var t := s.treasuries[request.treasury];
    var held := Reserved(s.permits, OfAgent(request.agent, request.wallet));
    var asked := if request.amount <= rule.tierLimit then request.amount else rule.tierLimit;
    var share := rule.allocationPct * t.current;
    && (r.approved <==>
        && t.health != Halted
        && !(t.peak > 0.0 && (t.peak - t.current) * 100.0 >= rules.maxDrawdownPct * t.peak)
        && s.agents[request.agent].status == SlotActive
        && Count(s.permits, OfAgent(request.agent, request.wallet)) < rule.permitCap
        && Count(s.permits, OfTreasury(request.treasury)) < rules.maxConcurrentPermits
        && 100.0 * held < share)
    && (r.approved && 100.0 * (held + asked) <= share ==> r.amount == asked)
    && (r.approved && 100.0 * (held + asked) > share ==> 100.0 * (held + r.amount) == share)
    && (!r.approved ==> r.amount == 0.0)
    && (r.partialReason.Some? <==> r.approved && r.amount < request.amount)
    && (r.denyReason.None? <==> r.approved) && (r.check.None? <==> r.approved)
  }

  /** The row inserted for a request: its own data, the stored amount, ACTIVE or DENIED, for an hour. */
  predicate StoredFor(q: real -> real, s: Db, s': Db, request: PermitRequest, r: PolicyResult) {
    s'.permits == s.permits + [Permit(|s.groups|, request.agent, request.treasury, request.wallet, request.asset,
                                      request.amount, q(r.amount), if r.approved then Active else Denied,
                                      r.denyReason, r.check, s.now + 3_600_000_000, None)]
  }

  lemma RuleIsOnTheWallet(s: Db, request: PermitRequest)
    requires RuleFor(s, request).Ok?
    ensures RuleFor(s, request).value.0.wallet == request.wallet
    ensures RuleFor(s, request).value.0.agent == request.agent
    ensures s.agents[request.agent].treasury == request.treasury
  {
    hide RulesInForce;
  }

  lemma CaseInNumbers(s: Db, request: PermitRequest, rule: AgentWalletRule, rules: TreasuryRules, r: PolicyResult)
    requires Linked(s) && CountsFit(s.permits)
    requires request.agent < |s.agents| && request.treasury == s.agents[request.agent].treasury
    requires rule.wallet == request.wallet
    requires DecidesInNumbers(CaseFor(s, request, rule, rules), r)
    ensures DecidedInNumbers(s, request, rule, rules, r)
  {
    hide Linked, CountsFit, Reserved, Count, AsI32;
    CastsAreExact(s, request, rule, rules);
  }

  lemma SingleIsDecided(q: real -> real, s: Db, auth: AgentAuth, request: PermitRequest, granted: GroupStatus)
    requires Linked(s) && CountsFit(s.permits)
    ensures var r := IssueSingle(q, s, auth, request, granted);
            && (r.result.Ok? <==> RuleFor(s, request).Ok?)
            && (r.result.Ok? ==>
                  && r.result.value.1 == |s.permits|
                  && StoredFor(q, s, r.db, request, r.result.value.0)
                  && DecidedInNumbers(s, request, RuleFor(s, request).value.0, RuleFor(s, request).value.1,
                                      r.result.value.0))
  {
    hide RulesInForce, FindRule, Verdict, DecidesInNumbers, DecidedInNumbers, Linked, CountsFit, Reserved, Count;
    var d := OpenGroup(s, auth, true, request.amount);
    assert RuleFor(d, request) == RuleFor(s, request);
    if RuleFor(s, request).Ok? {
      var (rule, rules) := RuleFor(s, request).value;
      assert CaseFor(d, request, rule, rules) == CaseFor(s, request, rule, rules);
      VerdictInNumbers(CaseFor(s, request, rule, rules));
      RuleIsOnTheWallet(s, request);
      CaseInNumbers(s, request, rule, rules, Verdict(CaseFor(s, request, rule, rules)));
    }
  }

  /** In every reachable state: a permit request is answered if and only if it comes signed from an
      authenticated session of its own agent with a rule on the wallet; the answer is the decision in
      numbers under that rule, and the row stored is that answer. */
  lemma RequestIsAnswered(q: real -> real, s: Db, auth: AgentAuth, signed: Result<()>, request: PermitRequest)
    requires Linked(s) && CountsFit(s.permits)
    ensures var r := RequestPermit(q, s, auth, signed, request);
            && (r.result.Ok? <==> Authenticate(s, auth).Ok? && auth == AgentAuth(request.agent, request.treasury)
                                  && signed.Ok? && RuleFor(s, request).Ok?)
            && (r.result.Ok? ==>
                  && r.result.value.1 == |s.permits|
                  && StoredFor(q, s, r.db, request, r.result.value.0)
                  && DecidedInNumbers(s, request, RuleFor(s, request).value.0, RuleFor(s, request).value.1,
                                      r.result.value.0))
  {
    hide IssueSingle, RuleFor, Linked, CountsFit, DecidedInNumbers, Authenticate, StoredFor;
    SingleIsDecided(q, s, auth, request, GroupActive);
  }

  // ----- Intents -----

  /** The wallet an intent is for, told from the document: the text it names, trimmed, unless blank. */
  predicate NamesWallet(intent: Document, wallet: string) {
    && intent.Object? && "wallet_address" in intent.fields && intent.fields["wallet_address"].String?
    && !Text.Blank(intent.fields["wallet_address"].s) && wallet == Text.Trim(intent.fields["wallet_address"].s)
  }

  predicate NamesNoWallet(intent: Document) {
    !(intent.Object? && "wallet_address" in intent.fields && intent.fields["wallet_address"].String?
      && !Text.Blank(intent.fields["wallet_address"].s))
  }

  predicate IsText(intent: Document, key: string, text: string) {
    intent.Object? && key in intent.fields && intent.fields[key] == String(text)
  }

  /** The asset an intent is for: the asset of a payment or a delegation, what a swap gives. */
  predicate NamesAsset(intent: Document, asset: string) {
    || (IsText(intent, "type", "payment") && IsText(intent, "asset", asset))
    || (IsText(intent, "type", "delegate") && IsText(intent, "asset", asset))
    || (IsText(intent, "type", "swap") && IsText(intent, "from_asset", asset))
  }

  /** The destination: `to` when there is such a member, otherwise `destination`. */
  predicate NamesDestination(intent: Document, destination: string) {
    || IsText(intent, "to", destination)
    || (intent.Object? && "to" !in intent.fields && IsText(intent, "destination", destination))
  }

  /** Both directions: what a document names is what is read from it. */
  lemma MembersInWords(intent: Document, kind: string, text: string)
    requires IsText(intent, "type", kind) && kind in {"payment", "delegate", "swap"}
    ensures AssetOf(intent, kind) == Some(text) <==> NamesAsset(intent, text)
    ensures DestinationOf(intent) == Some(text) <==> NamesDestination(intent, text)
    ensures ExplicitWallet(intent) == Some(text) <==> NamesWallet(intent, text)
    ensures ExplicitWallet(intent) == None <==> NamesNoWallet(intent)
  {
    hide Text.Trim, Text.Blank;
  }

  lemma ResolvedInWords(intent: Document, amount: Option<real>, own: seq<AgentWalletRule>)
    requires ParseAndResolve(intent, amount, own).Ok?
    ensures var r := ParseAndResolve(intent, amount, own).value;
            && Some(r.amount) == amount && NamesAsset(intent, r.asset) && NamesDestination(intent, r.destination)
            && (NamesWallet(intent, r.wallet) || (NamesNoWallet(intent) && |own| == 1 && r.wallet == own[0].wallet))
            && (exists i | 0 <= i < |own| :: own[i].wallet == r.wallet)
            && (forall memo :: IsText(intent, "memo", memo) <==> r.memo == Some(memo))
  {
    var r := ParseAndResolve(intent, amount, own).value;
    hide Text.Trim, Text.Blank, PassesTheChecks;
    assert StrAt(intent, "type") == Some(r.kind);
  }

  /** In every reachable state an intent that is answered stores one row: of the agent with the key,
      for the amount, the asset, and the wallet the document names or else the only one the agent has a
      rule for, decided in numbers under the rule in force there. */
  lemma IntentIsAnswered(q: real -> real, s: Db, pubkey: string, signed: Result<()>, intent: Document,
                         amount: Option<real>)
    requires Linked(s) && CountsFit(s.permits)
    requires SubmitIntent(q, s, pubkey, signed, intent, amount).result.Ok?
    ensures signed.Ok? && amount.Some? && AgentByPubkey(s.agents, pubkey).Some?
    ensures var a := AgentByPubkey(s.agents, pubkey).value;
            var t := s.agents[a].treasury;
            && !Barred(s.agents[a].status) && t < |s.treasuries| && NewestRules(s.treasuries[t]).Ok?
            && var own := RulesForAgent(NewestRules(s.treasuries[t]).value.walletRules, a);
               var r := SubmitIntent(q, s, pubkey, signed, intent, amount);
               exists wallet, asset ::
                 && NamesAsset(intent, asset)
                 && (NamesWallet(intent, wallet) || (NamesNoWallet(intent) && |own| == 1 && wallet == own[0].wallet))
                 && var request := PermitRequest(a, t, wallet, asset, amount.value);
                    && RuleFor(s, request).Ok? && StoredFor(q, s, r.db, request, r.result.value.0)
                    && DecidedInNumbers(s, request, RuleFor(s, request).value.0, RuleFor(s, request).value.1,
                                        r.result.value.0)
  {
    hide IssueSingle, RuleFor, Linked, CountsFit, DecidedInNumbers, StoredFor, NewestRules, RulesForAgent,
      ParseAndResolve, StrKey.ValidPublicKey, NamesAsset, NamesWallet, NamesNoWallet, NamesDestination;
    var (auth, asked) := ResolveIntent(s, pubkey, signed, intent, amount).value;
    var own := RulesForAgent(NewestRules(s.treasuries[auth.treasury]).value.walletRules, auth.agent);
    ResolvedInWords(intent, amount, own);
    var request := PermitRequest(auth.agent, auth.treasury, asked.wallet, asked.asset, asked.amount);
    SingleIsDecided(q, s, auth, request, GroupExecuting);
    assert NamesAsset(intent, asked.asset);
  }
}
