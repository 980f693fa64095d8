/** What stored constitution documents read as, told from their members by name and with every
    default as a number: documents of the older form, which list allocations, and members that are
    missing or stand at the top level. */
module DocumentForms {
  import opened Outcomes
  import opened Json
  import opened Policy
  import opened Constitution
  import opened Normalizer
  import Decimal

  predicate Has(doc: Document, key: string, v: Document) {
    doc.Object? && key in doc.fields && doc.fields[key] == v
  }

  ghost predicate HasNumber(doc: Document, key: string, x: real) {
    Has(doc, key, Number(Float(x))) || exists i :: Has(doc, key, Number(Integer(i))) && i as real == x
  }

  /** An integer of 64 bits; a floating-point number is none. */
  ghost predicate HasInteger(doc: Document, key: string, i: int) {
    Has(doc, key, Number(Integer(i))) && -0x8000_0000_0000_0000 <= i < 0x8000_0000_0000_0000
  }

  ghost predicate LacksNumber(doc: Document, key: string) { forall x :: !HasNumber(doc, key, x) }

  ghost predicate LacksInteger(doc: Document, key: string) { forall i :: !HasInteger(doc, key, i) }

  ghost predicate LacksText(doc: Document, key: string) { forall text :: !Has(doc, key, String(text)) }

  ghost predicate LacksArray(doc: Document, key: string) { forall items :: !Has(doc, key, Array(items)) }

  // ----- Members -----

  lemma NumberIsRead(doc: Document, key: string, x: real)
    ensures HasNumber(doc, key, x) <==> F64At(doc, key) == Some(x)
  {
    if F64At(doc, key) == Some(x) && !Has(doc, key, Number(Float(x))) {
      assert Has(doc, key, Number(Integer(doc.fields[key].n.i)));
    }
  }

  lemma NumberIsMissing(doc: Document, key: string)
    ensures LacksNumber(doc, key) <==> F64At(doc, key) == None
  {
    forall x { NumberIsRead(doc, key, x); }
    if F64At(doc, key).Some? {
      assert HasNumber(doc, key, F64At(doc, key).value);
    }
  }

  lemma IntegerIsRead(doc: Document, key: string, i: int)
    requires HasInteger(doc, key, i)
    ensures I32At(doc, key) == Some(AsI32(i))
  {}

  lemma IntegerIsMissing(doc: Document, key: string)
    ensures LacksInteger(doc, key) <==> I32At(doc, key) == None
  {
    if I32At(doc, key).Some? {
      assert HasInteger(doc, key, doc.fields[key].n.i);
    }
  }

  lemma TextIsMissing(doc: Document, key: string)
    ensures LacksText(doc, key) <==> StrAt(doc, key) == None
  {
    if StrAt(doc, key).Some? {
      assert Has(doc, key, String(StrAt(doc, key).value));
    }
  }

  lemma ArrayIsMissing(doc: Document, key: string)
    ensures LacksArray(doc, key) <==> ArrayAt(doc, key) == None
  {
    if ArrayAt(doc, key).Some? {
      assert Has(doc, key, Array(ArrayAt(doc, key).value));
    }
  }

  // ----- Treasury rules -----

  /** The drawdown limit is the number of the nested object, else that of the top level, else 15. */
  lemma DrawdownLimitIsRead(doc: Document, x: real)
    ensures (exists nested :: Has(doc, "treasury_rules", nested) && HasNumber(nested, "max_drawdown_pct", x)) ==>
              ReadTreasuryRules(doc).maxDrawdownPct == x
    ensures (forall nested :: Has(doc, "treasury_rules", nested) ==> LacksNumber(nested, "max_drawdown_pct")) ==>
              && (HasNumber(doc, "max_drawdown_pct", x) ==> ReadTreasuryRules(doc).maxDrawdownPct == x)
              && (LacksNumber(doc, "max_drawdown_pct") ==> ReadTreasuryRules(doc).maxDrawdownPct == 15.0)
  {
    hide HasNumber, LacksNumber, F64At;
    NumberIsRead(doc, "max_drawdown_pct", x);
    NumberIsMissing(doc, "max_drawdown_pct");
    if doc.Get("treasury_rules").Some? {
      var nested := doc.Get("treasury_rules").value;
      assert Has(doc, "treasury_rules", nested);
      NumberIsRead(nested, "max_drawdown_pct", x);
      NumberIsMissing(nested, "max_drawdown_pct");
    }
  }

  /** The permit limit likewise, as an integer cut to 32 bits, else 10. */
  lemma PermitLimitIsRead(doc: Document, i: int)
    ensures (exists nested :: Has(doc, "treasury_rules", nested)
                              && HasInteger(nested, "max_concurrent_permits", i)) ==>
              ReadTreasuryRules(doc).maxConcurrentPermits == AsI32(i)
    ensures (forall nested :: Has(doc, "treasury_rules", nested) ==> LacksInteger(nested, "max_concurrent_permits")) ==>
              && (HasInteger(doc, "max_concurrent_permits", i) ==>
                    ReadTreasuryRules(doc).maxConcurrentPermits == AsI32(i))
              && (LacksInteger(doc, "max_concurrent_permits") ==> ReadTreasuryRules(doc).maxConcurrentPermits == 10)
  {
    hide HasInteger, LacksInteger, I32At;
    IntegerIsMissing(doc, "max_concurrent_permits");
    if HasInteger(doc, "max_concurrent_permits", i) {
      IntegerIsRead(doc, "max_concurrent_permits", i);
    }
    if doc.Get("treasury_rules").Some? {
      var nested := doc.Get("treasury_rules").value;
      assert Has(doc, "treasury_rules", nested);
      IntegerIsMissing(nested, "max_concurrent_permits");
      if HasInteger(nested, "max_concurrent_permits", i) {
        IntegerIsRead(nested, "max_concurrent_permits", i);
      }
    }
  }

  // ----- Rules of the current form -----

  /** What names an agent and a wallet: two texts, the first a row number in decimal. */
  ghost predicate NamesPair(doc: Document, agent: nat, wallet: string) {
    && Has(doc, "wallet_address", String(wallet))
    && exists text :: Has(doc, "agent_id", String(text)) && Decimal.ParseNat(text) == Some(agent)
  }

  ghost predicate NamesNoPair(doc: Document) {
    || LacksText(doc, "agent_id") || LacksText(doc, "wallet_address")
    || exists text :: Has(doc, "agent_id", String(text)) && Decimal.ParseNat(text) == None
  }

  /** A percentage, tier limit and permit cap each as given, else 100, 1000 and 5. */
  ghost predicate HasOrDefault(doc: Document, key: string, x: real, default: real) {
    HasNumber(doc, key, x) || (LacksNumber(doc, key) && x == default)
  }

  lemma DefaultIsRead(doc: Document, key: string, x: real, default: real)
    requires HasOrDefault(doc, key, x, default)
    ensures OrDefault(F64At(doc, key), default) == x
  {
    NumberIsRead(doc, key, x);
    NumberIsMissing(doc, key);
  }

  lemma RuleIsRead(doc: Document, agent: nat, wallet: string, share: real, tier: real, cap: int)
    requires NamesPair(doc, agent, wallet)
    requires HasOrDefault(doc, "allocation_pct", share, 100.0)
    requires HasOrDefault(doc, "tier_limit_usd", tier, 1000.0)
    requires HasInteger(doc, "concurrent_permit_cap", cap) || (LacksInteger(doc, "concurrent_permit_cap") && cap == 5)
    ensures ReadRule(doc) == Ok(AgentWalletRule(agent, wallet, share, tier, AsI32(cap)))
  {
    hide HasOrDefault, HasInteger, LacksInteger, F64At, I32At;
    DefaultIsRead(doc, "allocation_pct", share, 100.0);
    DefaultIsRead(doc, "tier_limit_usd", tier, 1000.0);
    IntegerIsMissing(doc, "concurrent_permit_cap");
    if HasInteger(doc, "concurrent_permit_cap", cap) {
      IntegerIsRead(doc, "concurrent_permit_cap", cap);
    }
    NamesAreRead(doc, agent, wallet);
  }

  lemma NamesAreRead(doc: Document, agent: nat, wallet: string)
    requires NamesPair(doc, agent, wallet)
    ensures StrAt(doc, "wallet_address") == Some(wallet)
    ensures StrAt(doc, "agent_id").Some? && Decimal.ParseNat(StrAt(doc, "agent_id").value) == Some(agent)
  {
    hide Decimal.ParseNat;
    var text :| Has(doc, "agent_id", String(text)) && Decimal.ParseNat(text) == Some(agent);
    assert StrAt(doc, "agent_id") == Some(text);
  }

  /** A rule without the two names makes the whole document unreadable. */
  lemma NamelessRuleRefuses(doc: Document, docs: seq<Document>, i: nat)
    requires Has(doc, "agent_wallet_rules", Array(docs)) && i < |docs| && NamesNoPair(docs[i])
    ensures Normalize(doc) == Err(InvalidInput)
  {
    NamelessIsUnreadable(docs[i]);
    UnreadableRule(docs, i);
    assert ArrayAt(doc, "agent_wallet_rules") == Some(docs);
  }

  lemma NamelessIsUnreadable(doc: Document)
    requires NamesNoPair(doc)
    ensures ReadRule(doc).Err? && ReadAllocation(doc) == None
  {
    TextIsMissing(doc, "agent_id");
    TextIsMissing(doc, "wallet_address");
  }

  // ----- The older form -----

  /** An entry of the older form, with its percentage if it gives one. */
  datatype Allocation = Allocation(agent: nat, wallet: string, share: Option<real>)

  ghost predicate Describes(doc: Document, a: Allocation) {
    && NamesPair(doc, a.agent, a.wallet)
    && if a.share.Some? then HasNumber(doc, "allocation_pct", a.share.value) else LacksNumber(doc, "allocation_pct")
  }

  /** The documents list the allocations in order; `None` stands for an entry without the two names. */
  ghost predicate Lists(docs: seq<Document>, entries: seq<Option<Allocation>>) {
    && |docs| == |entries|
    && forall i | 0 <= i < |docs| ::
         match entries[i]
         case Some(a) => Describes(docs[i], a)
         case None => NamesNoPair(docs[i])
  }

  function RulesOf(entries: seq<Option<Allocation>>): seq<AgentWalletRule> {
    if entries == [] then []
    else
      var before, last := RulesOf(entries[..|entries| - 1]), entries[|entries| - 1];
      match last
      case None => before
      case Some(a) =>
        before + [AgentWalletRule(a.agent, a.wallet, if a.share.Some? then a.share.value else 100.0, 1000.0, 5)]
  }

  lemma AllocationIsRead(doc: Document, a: Allocation)
    requires Describes(doc, a)
    ensures ReadAllocation(doc) ==
            Some(AgentWalletRule(a.agent, a.wallet, if a.share.Some? then a.share.value else 100.0, 1000.0, 5))
  {
    hide HasNumber, LacksNumber, F64At;
    DefaultIsRead(doc, "allocation_pct", if a.share.Some? then a.share.value else 100.0, 100.0);
    NamesAreRead(doc, a.agent, a.wallet);
  }

  lemma {:induction false} AllocationsAreRead(docs: seq<Document>, entries: seq<Option<Allocation>>)
    requires Lists(docs, entries)
    ensures ReadAllocations(docs) == RulesOf(entries)
  {
    hide Describes, NamesNoPair, ReadAllocation;
    if docs != [] {
      var n := |docs| - 1;
      AllocationsAreRead(docs[..n], entries[..n]);
      match entries[n]
      case Some(a) => AllocationIsRead(docs[n], a);
      case None => NamelessIsUnreadable(docs[n]);
    }
  }

  /** A document of the older form reads as exactly the allocations it lists, in order, with 100
      percent where none is given, a tier limit of 1000 and a permit cap of 5; entries without the
      two names change nothing. */
  lemma LegacyReadsAsListed(doc: Document, docs: seq<Document>, entries: seq<Option<Allocation>>)
    requires LacksArray(doc, "agent_wallet_rules") && Has(doc, "agent_allocations", Array(docs)) && Lists(docs, entries)
    ensures Normalize(doc).Ok? && Normalize(doc).value.walletRules == RulesOf(entries)
  {
    hide Lists;
    ArrayIsMissing(doc, "agent_wallet_rules");
    AllocationsAreRead(docs, entries);
    assert ArrayAt(doc, "agent_allocations") == Some(docs);
  }

  /** Every list of allocations can be written so. */
  lemma {:induction false} LegacyCanBeWritten(entries: seq<Allocation>) returns (docs: seq<Document>)
    ensures Lists(docs, seq(|entries|, i requires 0 <= i < |entries| => Some(entries[i])))
  {
    docs := seq(|entries|, i requires 0 <= i < |entries| => AllocationToJson(entries[i]));
    forall i | 0 <= i < |entries| ensures Describes(docs[i], entries[i]) {
      AllocationIsWritten(entries[i]);
    }
  }

  function AllocationToJson(a: Allocation): Document {
    var names := map["agent_id" := String(Decimal.FromNat(a.agent)), "wallet_address" := String(a.wallet)];
    Object(if a.share.Some? then names["allocation_pct" := Number(Float(a.share.value))] else names)
  }

  lemma AllocationIsWritten(a: Allocation)
    ensures Describes(AllocationToJson(a), a)
  {
    Decimal.NatRoundTrip(a.agent);
    var doc := AllocationToJson(a);
    assert Has(doc, "agent_id", String(Decimal.FromNat(a.agent)));
  }
}
