/** Constitution documents: how a constitution is written as JSON, and how a stored document,
    of the current or the older form, is read back.  Agent identifiers are row numbers, and
    their text is decimal. */
module Normalizer {
  import opened Outcomes
  import opened Json
  import opened Policy
  import opened Constitution
  import Decimal

  datatype JsonNumber = Integer(i: int) | Float(r: real)

  type Document = Value<JsonNumber>

  function AsF64(v: Document): Option<real> {
    match v
    case Number(Integer(i)) => Some(i as real)
    case Number(Float(r)) => Some(r)
    case _ => None
  }

  /** Integers that fit 64 bits; a floating-point number is not an integer even when whole. */
  function AsI64(v: Document): Option<int> {
    match v
    case Number(Integer(i)) => if -0x8000_0000_0000_0000 <= i < 0x8000_0000_0000_0000 then Some(i) else None
    case _ => None
  }

  function F64At(v: Document, key: string): Option<real> {
    var member := v.Get(key);
    if member.Some? then AsF64(member.value) else None
  }

  function I32At(v: Document, key: string): Option<i32> {
    var member := v.Get(key);
    if member.Some? && AsI64(member.value).Some? then Some(AsI32(AsI64(member.value).value)) else None
  }

  function StrAt(v: Document, key: string): Option<string> {
    var member := v.Get(key);
    if member.Some? then member.value.AsStr() else None
  }

  function ArrayAt(v: Document, key: string): Option<seq<Document>> {
    var member := v.Get(key);
    if member.Some? then member.value.AsArray() else None
  }

  function OrElse<T>(first: Option<T>, second: Option<T>): Option<T> { if first.Some? then first else second }

  function OrDefault<T>(o: Option<T>, default: T): T { if o.Some? then o.value else default }

  const DEFAULT_DRAWDOWN_PCT := 15.0
  const DEFAULT_MAX_CONCURRENT: i32 := 10
  const DEFAULT_ALLOCATION_PCT := 100.0
  const DEFAULT_TIER_LIMIT := 1000.0
  const DEFAULT_PERMIT_CAP: i32 := 5

  // ----- Writing -----

  function RuleToJson(r: AgentWalletRule): Document {
    Object(map["agent_id" := String(Decimal.FromNat(r.agent)),
               "wallet_address" := String(r.wallet),
               "allocation_pct" := Number(Float(r.allocationPct)),
               "tier_limit_usd" := Number(Float(r.tierLimit)),
               "concurrent_permit_cap" := Number(Integer(r.permitCap))])
  }

  function RulesToJson(c: TreasuryRules): Document {
    Object(map["max_drawdown_pct" := Number(Float(c.maxDrawdownPct)),
               "max_concurrent_permits" := Number(Integer(c.maxConcurrentPermits))])
  }

  function ToJson(c: ConstitutionContent): Document {
    Object(map["treasury_rules" := RulesToJson(c.rules),
               "agent_wallet_rules" :=
                 Array(seq(|c.walletRules|, i requires 0 <= i < |c.walletRules| => RuleToJson(c.walletRules[i]))),
               "memo" := if c.memo.Some? then String(c.memo.value) else Null])
  }

  // ----- Reading -----

  /** The treasury-wide rules, each from the nested object, then from the top level, then a default. */
  function ReadTreasuryRules(doc: Document): TreasuryRules {
    var nested := doc.Get("treasury_rules");
    if nested.Some? then
      TreasuryRules(
        OrDefault(OrElse(F64At(nested.value, "max_drawdown_pct"), F64At(doc, "max_drawdown_pct")),
                  DEFAULT_DRAWDOWN_PCT),
        OrDefault(OrElse(I32At(nested.value, "max_concurrent_permits"), I32At(doc, "max_concurrent_permits")),
                  DEFAULT_MAX_CONCURRENT))
    else
      TreasuryRules(
        OrDefault(F64At(doc, "max_drawdown_pct"), DEFAULT_DRAWDOWN_PCT),
        OrDefault(I32At(doc, "max_concurrent_permits"), DEFAULT_MAX_CONCURRENT))
  }

  function ReadRule(doc: Document): Result<AgentWalletRule> {
    var id, wallet := StrAt(doc, "agent_id"), StrAt(doc, "wallet_address");
    if id.None? || Decimal.ParseNat(id.value).None? || wallet.None? then Err(InvalidInput)
    else
      Ok(AgentWalletRule(
           Decimal.ParseNat(id.value).value, wallet.value,
           OrDefault(F64At(doc, "allocation_pct"), DEFAULT_ALLOCATION_PCT),
           OrDefault(F64At(doc, "tier_limit_usd"), DEFAULT_TIER_LIMIT),
           OrDefault(I32At(doc, "concurrent_permit_cap"), DEFAULT_PERMIT_CAP)))
  }

  /** Rules of the current form: one unreadable rule makes the document unreadable. */
  function ReadRules(docs: seq<Document>): (r: Result<seq<AgentWalletRule>>)
    ensures r.Ok? ==> |r.value| == |docs| && forall i | 0 <= i < |docs| :: ReadRule(docs[i]) == Ok(r.value[i])
    ensures r.Err? <==> exists i | 0 <= i < |docs| :: ReadRule(docs[i]).Err?
  {
    if docs == [] then Ok([])
    else
      match ReadRules(docs[..|docs| - 1])
      case Err(e) => Err(e)
      case Ok(before) =>
        match ReadRule(docs[|docs| - 1])
        case Err(e) => Err(e)
        case Ok(rule) => Ok(before + [rule])
  }

  /** An allocation of the older form, which has no tier limit and no permit cap. */
  function ReadAllocation(doc: Document): Option<AgentWalletRule> {
    var id, wallet := StrAt(doc, "agent_id"), StrAt(doc, "wallet_address");
    if id.None? || wallet.None? || Decimal.ParseNat(id.value).None? then None
    else
      Some(AgentWalletRule(
             Decimal.ParseNat(id.value).value, wallet.value,
             OrDefault(F64At(doc, "allocation_pct"), DEFAULT_ALLOCATION_PCT), DEFAULT_TIER_LIMIT, DEFAULT_PERMIT_CAP))
  }

  /** Unreadable allocations of the older form are skipped. */
  function ReadAllocations(docs: seq<Document>): seq<AgentWalletRule> {
    if docs == [] then []
    else
      var before, last := ReadAllocations(docs[..|docs| - 1]), ReadAllocation(docs[|docs| - 1]);
      if last.Some? then before + [last.value] else before
  }

  function ReadWalletRules(doc: Document): Result<seq<AgentWalletRule>> {
    var current, legacy := ArrayAt(doc, "agent_wallet_rules"), ArrayAt(doc, "agent_allocations");
    if current.Some? then ReadRules(current.value)
    else if legacy.Some? then Ok(ReadAllocations(legacy.value))
    else Ok([])
  }

  function Normalize(doc: Document): Result<ConstitutionContent> {
    match ReadWalletRules(doc)
    case Err(e) => Err(e)
    case Ok(rules) => Ok(ConstitutionContent(ReadTreasuryRules(doc), rules, StrAt(doc, "memo")))
  }

  method NormalizeConstitutionValue(doc: Document) returns (r: Result<ConstitutionContent>)
    ensures r == Normalize(doc)
  {
    var memo := StrAt(doc, "memo");
    var treasuryRules := ReadTreasuryRules(doc);
    var walletRules := [];
    var current, legacy := ArrayAt(doc, "agent_wallet_rules"), ArrayAt(doc, "agent_allocations");
    if current.Some? {
      var docs := current.value;
      for i := 0 to |docs|
        invariant ReadRules(docs[..i]) == Ok(walletRules)
      {
        assert docs[..i + 1][..i] == docs[..i];
        var id := StrAt(docs[i], "agent_id");
        if id.None? || Decimal.ParseNat(id.value).None? {
          UnreadableRule(docs, i);
          return Err(InvalidInput);
        }
        var wallet := StrAt(docs[i], "wallet_address");
        if wallet.None? {
          UnreadableRule(docs, i);
          return Err(InvalidInput);
        }
        walletRules := walletRules + [ReadRule(docs[i]).value];
      }
      assert docs[..|docs|] == docs;
    } else if legacy.Some? {
      var docs := legacy.value;
      for i := 0 to |docs|
        invariant walletRules == ReadAllocations(docs[..i])
      {
        assert docs[..i + 1][..i] == docs[..i];
        var allocation := ReadAllocation(docs[i]);
        if allocation.Some? {
          walletRules := walletRules + [allocation.value];
        }
      }
      assert docs[..|docs|] == docs;
    }
    r := Ok(ConstitutionContent(treasuryRules, walletRules, memo));
  }

  lemma {:induction false} UnreadableRule(docs: seq<Document>, i: nat)
    requires i < |docs| && ReadRule(docs[i]).Err?
    ensures ReadRules(docs) == Err(InvalidInput)
    decreases |docs|
  {
    var n := |docs| - 1;
    if i < n {
      UnreadableRule(docs[..n], i);
    } else if ReadRules(docs[..n]).Err? {
      var j :| 0 <= j < n && ReadRule(docs[..n][j]).Err?;
      UnreadableRule(docs[..n], j);
    }
  }

  // ----- Reading undoes writing -----

  lemma RuleRoundTrip(r: AgentWalletRule)
    ensures ReadRule(RuleToJson(r)) == Ok(r)
  {
    Decimal.NatRoundTrip(r.agent);
  }

  /** Every constitution with finite numbers is read back from its serialised form, rules in
      order. */
  lemma NormalizeInvertsToJson(c: ConstitutionContent)
    ensures Normalize(ToJson(c)) == Ok(c)
  {
    var doc := ToJson(c);
    var docs := doc.fields["agent_wallet_rules"].items;
    forall i | 0 <= i < |docs| ensures ReadRule(docs[i]) == Ok(c.walletRules[i]) {
      RuleRoundTrip(c.walletRules[i]);
    }
    assert ReadRules(docs).Ok? && ReadRules(docs).value == c.walletRules;
    assert ArrayAt(doc, "agent_wallet_rules") == Some(docs);
    TreasuryRulesRoundTrip(c);
    MemoRoundTrip(c);
  }

  lemma TreasuryRulesRoundTrip(c: ConstitutionContent)
    ensures ReadTreasuryRules(ToJson(c)) == c.rules
  {
    assert ToJson(c).Get("treasury_rules") == Some(RulesToJson(c.rules));
    assert RulesToJson(c.rules).Get("max_drawdown_pct") == Some(Number(Float(c.rules.maxDrawdownPct)));
    assert RulesToJson(c.rules).Get("max_concurrent_permits") == Some(Number(Integer(c.rules.maxConcurrentPermits)));
  }

  lemma MemoRoundTrip(c: ConstitutionContent)
    ensures StrAt(ToJson(c), "memo") == c.memo
  {}

  /** Reading any accepted document, old form included, and writing it in the current form is a
      normal form: reading and writing again changes nothing. */
  lemma NormalFormIsStable(doc: Document)
    requires Normalize(doc).Ok?
    ensures var written := ToJson(Normalize(doc).value);
            Normalize(written) == Normalize(doc) && ToJson(Normalize(written).value) == written
  {
    NormalizeInvertsToJson(Normalize(doc).value);
  }

  /** A document of the older form loses its allocations once rules of the current form stand
      beside them, and is read with the default tier limit and permit cap otherwise. */
  lemma LegacyOnlyWithoutCurrentRules(doc: Document)
    requires ArrayAt(doc, "agent_allocations").Some?
    ensures ArrayAt(doc, "agent_wallet_rules").None? ==>
              && Normalize(doc).Ok?
              && forall r | r in Normalize(doc).value.walletRules ::
                   r.tierLimit == DEFAULT_TIER_LIMIT && r.permitCap == DEFAULT_PERMIT_CAP
    ensures ArrayAt(doc, "agent_wallet_rules").Some? ==>
              ReadWalletRules(doc) == ReadRules(ArrayAt(doc, "agent_wallet_rules").value)
  {
    AllocationsUseDefaults(ArrayAt(doc, "agent_allocations").value);
  }

  lemma {:induction false} AllocationsUseDefaults(docs: seq<Document>)
    ensures forall r | r in ReadAllocations(docs) ::
              r.tierLimit == DEFAULT_TIER_LIMIT && r.permitCap == DEFAULT_PERMIT_CAP
  {
    if docs != [] {
      AllocationsUseDefaults(docs[..|docs| - 1]);
    }
  }

  /** The genesis document, as it is written out in the source. */
  function GenesisDocument(): Document {
    Object(map["memo" := String("Genesis Constitution"),
               "treasury_rules" := Object(map["max_drawdown_pct" := Number(Float(15.0)),
                                              "max_concurrent_permits" := Number(Integer(10))]),
               "agent_wallet_rules" := Array([])])
  }

  lemma GenesisIsValid()
    ensures Normalize(GenesisDocument()) == Ok(Genesis()) && Valid(Genesis())
  {
    var written := ToJson(Genesis());
    assert written.fields["agent_wallet_rules"] == Array([]);
    assert RulesToJson(Genesis().rules).fields == GenesisDocument().fields["treasury_rules"].fields;
    assert written.fields == GenesisDocument().fields;
    NormalizeInvertsToJson(Genesis());
  }
}
