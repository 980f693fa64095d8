/** What an executed intent spends, and whether it can be executed at all.  The check of the signed
    transaction compares it with the intent, not with what was approved, so an intent the rules cut
    down is executed in full.  It writes the addresses of the transaction without their checksum, so
    hardly any wallet's intent is executed. */
module Spending {
  import opened Outcomes
  import opened Policy
  import opened Constitution
  import opened Permits
  import opened Normalizer
  import opened Store
  import opened PermitHandlers
  import opened Intents
  import opened StrKey

  // ----- The transaction -----

  type i64 = x: int | -0x8000_0000_0000_0000 <= x < 0x8000_0000_0000_0000

  datatype Asset = Native | Credit(code: string, issuer: PublicKey)

  /** Amounts are in units of 1e-7. */
  datatype Operation = Payment(destination: PublicKey, asset: Asset, units: i64) | OtherOperation

  /** `TextMemo` holds the text as the network library shows it. */
  datatype Memo = NoMemo | TextMemo(text: string) | OtherMemo

  datatype Transaction = Transaction(source: PublicKey, operations: seq<Operation>, memo: Memo)

  const UNITS := 10_000_000

  function InUnits(units: int): real { units as real / UNITS as real }

  function AssetText(a: Asset): (string, Option<string>) {
    match a
    case Native => ("XLM", None)
    case Credit(code, issuer) => (code, Some(Unchecked(issuer)))
  }

  /** What the check asks of a transaction; the issuer of a resolved intent is always empty. */
  predicate PassesCheck(tx: Transaction, intent: ResolvedIntent) {
    && Unchecked(tx.source) == intent.wallet
    && |tx.operations| == 1 && tx.operations[0].Payment?
    && Unchecked(tx.operations[0].destination) == intent.destination
    && AssetText(tx.operations[0].asset) == (intent.asset, None)
    && InUnits(tx.operations[0].units) == intent.amount
    && (intent.memo.Some? ==> tx.memo == TextMemo(intent.memo.value))
  }

  function Spent(tx: Transaction): real
    requires |tx.operations| == 1 && tx.operations[0].Payment?
  {
    InUnits(tx.operations[0].units)
  }

  /** The check as the source runs it. */
  method CheckTransaction(tx: Transaction, intent: ResolvedIntent) returns (r: Result<()>)
    ensures r == if PassesCheck(tx, intent) then Ok(()) else Err(CosignFailed)
  {
    hide Address;
    var source := EncodeStellarAddress(tx.source);
    if source != intent.wallet {
      return Err(CosignFailed);
    }
    if |tx.operations| != 1 || !tx.operations[0].Payment? {
      return Err(CosignFailed);
    }
    var payment := tx.operations[0];
    var destination := EncodeStellarAddress(payment.destination);
    if destination != intent.destination {
      return Err(CosignFailed);
    }
    var code, issuer := "XLM", None;
    if payment.asset.Credit? {
      var encoded := EncodeStellarAddress(payment.asset.issuer);
      code, issuer := payment.asset.code, Some(encoded);
    }
    if code != intent.asset || issuer != None {
      return Err(CosignFailed);
    }
    if payment.units as real / UNITS as real != intent.amount {
      return Err(CosignFailed);
    }
    if intent.memo.Some? {
      match tx.memo {
        case TextMemo(text) =>
          if text != intent.memo.value {
            return Err(CosignFailed);
          }
        case _ =>
          return Err(CosignFailed);
      }
    }
    r := Ok(());
  }

  // ----- Which intents can be executed -----

  /** A whole number of units that fits 64 bits. */
  predicate Payable(amount: real) {
    var units := amount * UNITS as real;
    units.Floor as real == units && -0x8000_0000_0000_0000 <= units.Floor < 0x8000_0000_0000_0000
  }

  lemma PayableExactly(amount: real)
    ensures Payable(amount) <==> exists units: i64 :: InUnits(units) == amount
  {
    if Payable(amount) {
      var units: i64 := (amount * UNITS as real).Floor;
      assert InUnits(units) == amount;
    }
    if units: i64 :| InUnits(units) == amount {
      assert amount * UNITS as real == units as real;
    }
  }

  /** The intent can be executed: both its addresses are written without a checksum, its asset is the
      native one, its amount a whole number of units, and its memo one that a transaction can carry.
      `memos` are the texts the network library can show. */
  ghost predicate Executable(intent: ResolvedIntent, memos: iset<string>) {
    && IsUnchecked(intent.wallet) && IsUnchecked(intent.destination)
    && intent.asset == "XLM" && Payable(intent.amount)
    && (intent.memo.Some? ==> intent.memo.value in memos)
  }

  ghost predicate Writable(tx: Transaction, memos: iset<string>) { tx.memo.TextMemo? ==> tx.memo.text in memos }

  /** Some transaction passes the check of an intent if and only if the intent is executable. */
  lemma SomeTransactionPassesExactly(intent: ResolvedIntent, memos: iset<string>)
    ensures (exists tx :: Writable(tx, memos) && PassesCheck(tx, intent)) <==> Executable(intent, memos)
  {
    hide Unchecked, IsUnchecked, Payable, InUnits;
    UncheckedExactly(intent.wallet);
    UncheckedExactly(intent.destination);
    PayableExactly(intent.amount);
    if Executable(intent, memos) {
      var source: PublicKey :| Unchecked(source) == intent.wallet;
      var destination: PublicKey :| Unchecked(destination) == intent.destination;
      var units: i64 :| InUnits(units) == intent.amount;
      var tx := Transaction(source, [Payment(destination, Native, units)],
                            if intent.memo.Some? then TextMemo(intent.memo.value) else NoMemo);
      assert Writable(tx, memos) && PassesCheck(tx, intent);
    }
    if tx :| Writable(tx, memos) && PassesCheck(tx, intent) {
      assert Unchecked(tx.source) == intent.wallet;
      assert Unchecked(tx.operations[0].destination) == intent.destination;
      assert InUnits(tx.operations[0].units) == intent.amount;
    }
  }

  /** An intent between accounts as the network writes them is executable only if the checksum of
      either address is zero, which holds for one key in 65536. */
  lemma AccountsAreExecutableExactly(intent: ResolvedIntent, memos: iset<string>, source: PublicKey,
                                     destination: PublicKey)
    requires intent.wallet == Account(source) && intent.destination == Account(destination)
    ensures Executable(intent, memos) <==>
            && Crc16.Crc([ED25519_PUBLIC_KEY_VERSION] + source) == 0
            && Crc16.Crc([ED25519_PUBLIC_KEY_VERSION] + destination) == 0
            && intent.asset == "XLM" && Payable(intent.amount)
            && (intent.memo.Some? ==> intent.memo.value in memos)
  {
    hide Account, IsUnchecked, Payable, Crc16.Crc;
    CheckedIsUncheckedExactly(source);
    CheckedIsUncheckedExactly(destination);
  }

  // ----- How much is spent -----

  /** An approval leaves a partial reason exactly when it is for less than was asked. */
  lemma PartialMeansLess(c: Case)
    requires Verdict(c).approved
    ensures Verdict(c).partialReason == None <==> Verdict(c).amount == c.request.amount
    ensures Verdict(c).partialReason.Some? <==> Verdict(c).amount < c.request.amount
  {}

  /** The request fits what the rule in force leaves of the agent's share, and the tier limit. */
  predicate FitsWhole(db: Db, request: PermitRequest) {
    && RuleFor(db, request).Ok?
    && var rule := RuleFor(db, request).value.0;
       && request.amount <= rule.tierLimit
       && request.amount <= Cap(rule.allocationPct, db.treasuries[request.treasury].current)
                            - Reserved(db.permits, OfAgent(request.agent, request.wallet))
  }

  lemma SingleGrantsWholeExactly(q: real -> real, db: Db, auth: AgentAuth, request: PermitRequest, granted: GroupStatus)
    requires var r := IssueSingle(q, db, auth, request, granted).result; r.Ok? && r.value.0.approved
    ensures request.amount <= IssueSingle(q, db, auth, request, granted).result.value.0.amount <==>
            FitsWhole(db, request)
  {
    hide FindRule, RulesInForce, Reserved, Count, AsI32;
    var opened' := OpenGroup(db, auth, true, request.amount);
    assert RuleFor(opened', request) == RuleFor(db, request);
    var (rule, rules) := RuleFor(opened', request).value;
    var c := CaseFor(opened', request, rule, rules);
    assert IssueSingle(q, db, auth, request, granted).result.value.0 == Verdict(c);
  }

  lemma ResolvedAmount(db: Db, pubkey: string, signature: Result<()>, intent: Document, amount: Option<real>)
    requires ResolveIntent(db, pubkey, signature, intent, amount).Ok?
    ensures Some(ResolveIntent(db, pubkey, signature, intent, amount).value.1.amount) == amount
  {
    hide NewestRules, RulesForAgent, AgentByPubkey, ValidPublicKey, PassesTheChecks;
  }

  /** A transaction that passes the check of an approved intent spends what was asked, and that is
      no more than was approved if and only if, before the intent was submitted, the amount asked fit
      the agent's headroom and the tier limit. */
  lemma {:induction false} ExecutedWithinApprovalExactly(q: real -> real, db: Db, pubkey: string,
                                                         signature: Result<()>, intent: Document,
                                                         amount: Option<real>, tx: Transaction)
    requires var r := SubmitIntent(q, db, pubkey, signature, intent, amount).result; r.Ok? && r.value.0.approved
    requires PassesCheck(tx, ResolveIntent(db, pubkey, signature, intent, amount).value.1)
    ensures Some(Spent(tx)) == amount
    ensures Spent(tx) <= SubmitIntent(q, db, pubkey, signature, intent, amount).result.value.0.amount <==>
            FitsWhole(db, IntentRequest(db, pubkey, signature, intent, amount).value)
  {
    hide ResolveIntent, IssueSingle, FitsWhole, Unchecked, InUnits;
    ResolvedAmount(db, pubkey, signature, intent, amount);
    var request := IntentRequest(db, pubkey, signature, intent, amount).value;
    SingleGrantsWholeExactly(q, db, AgentAuth(request.agent, request.treasury), request, GroupExecuting);
  }
}
