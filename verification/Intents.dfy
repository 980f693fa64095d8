/** What a signed intent asks for: its type, amount, asset, destination, and the wallet it spends
    from.  The amount is a decimal text in the document; its value is given beside it. */
module Intents {
  import opened Outcomes
  import opened Constitution
  import opened Normalizer
  import Text

  datatype ResolvedIntent = ResolvedIntent(kind: string, amount: real, asset: string, wallet: string,
                                           destination: string, memo: Option<string>)

  /** `destination` is only looked at when there is no `to` at all. */
  function DestinationOf(intent: Document): Option<string> {
    if intent.Get("to").Some? then StrAt(intent, "to") else StrAt(intent, "destination")
  }

  function AssetOf(intent: Document, kind: string): Option<string> {
    if kind == "payment" || kind == "delegate" then StrAt(intent, "asset")
    else if kind == "swap" then StrAt(intent, "from_asset")
    else None
  }

  /** The wallet an intent names, trimmed; an empty name is no name. */
  function ExplicitWallet(intent: Document): (w: Option<string>)
    ensures w.Some? ==> w.value != ""
    ensures w.Some? <==> intent.Object? && "wallet_address" in intent.fields && intent.fields["wallet_address"].String?
                         && !Text.Blank(intent.fields["wallet_address"].s)
    ensures w.Some? ==> w.value == Text.Trim(intent.fields["wallet_address"].s)
  {
    var named := StrAt(intent, "wallet_address");
    Text.TrimmedToNothing(OrDefault(named, ""));
    if named.Some? && Text.Trim(named.value) != "" then Some(Text.Trim(named.value)) else None
  }

  /** The wallet an intent spends from: the one it names, or the agent's only one. */
  function ResolveWallet(explicit: Option<string>, own: seq<AgentWalletRule>): (r: Result<string>)
    ensures r.Ok? ==> exists i | 0 <= i < |own| :: own[i].wallet == r.value
    ensures r.Ok? && explicit.Some? ==> r.value == explicit.value
    ensures r.Ok? && explicit.None? ==> |own| == 1 && r.value == own[0].wallet
    ensures r.Err? ==> r.error == InvalidInput
    ensures r.Err? <==> if explicit.Some? then forall i | 0 <= i < |own| :: own[i].wallet != explicit.value
                        else |own| != 1
  {
    if explicit.Some? then
      if exists i | 0 <= i < |own| :: own[i].wallet == explicit.value then Ok(explicit.value) else Err(InvalidInput)
    else if |own| == 1 then assert own[0].wallet == own[0].wallet; Ok(own[0].wallet)
    else Err(InvalidInput)
  }

  /** Everything the handler asks of an intent before it unwraps the destination. */
  predicate PassesTheChecks(intent: Document, amount: Option<real>, own: seq<AgentWalletRule>) {
    var kind := StrAt(intent, "type");
    && kind.Some? && StrAt(intent, "amount").Some? && amount.Some?
    && AssetOf(intent, kind.value).Some?
    && (kind.value in {"payment", "delegate"} ==> DestinationOf(intent).Some?)
    && (kind.value == "swap" ==> StrAt(intent, "to_asset").Some?)
    && ResolveWallet(ExplicitWallet(intent), own).Ok?
  }

  /** The checks in the order of the source.  `amount` is what the amount text reads as, if it is
      a decimal. */
  function ParseAndResolve(intent: Document, amount: Option<real>,
                           own: seq<AgentWalletRule>): (r: Result<ResolvedIntent>)
    ensures r.Ok? <==> PassesTheChecks(intent, amount, own) && DestinationOf(intent).Some?
    ensures r.Ok? ==> r.value.amount == amount.value && Some(r.value.kind) == StrAt(intent, "type")
    ensures r.Ok? ==> Some(r.value.asset) == AssetOf(intent, r.value.kind)
    ensures r.Ok? ==> Some(r.value.destination) == DestinationOf(intent) && r.value.memo == StrAt(intent, "memo")
    ensures r.Ok? ==> exists i | 0 <= i < |own| :: own[i].wallet == r.value.wallet
    ensures r.Ok? && ExplicitWallet(intent).Some? ==> r.value.wallet == ExplicitWallet(intent).value
    ensures r.Ok? && ExplicitWallet(intent).None? ==> |own| == 1 && r.value.wallet == own[0].wallet
    ensures r.Err? ==> r.error == InvalidInput || r.error == HandlerPanicked
    ensures r == Err(HandlerPanicked) <==> PassesTheChecks(intent, amount, own) && DestinationOf(intent).None?
  {
    var kind := StrAt(intent, "type");
    if kind.None? then Err(InvalidInput)
    else if StrAt(intent, "amount").None? || amount.None? then Err(InvalidInput)
    else
      var asset := AssetOf(intent, kind.value);
      if asset.None? then Err(InvalidInput)
      else if kind.value in {"payment", "delegate"} && DestinationOf(intent).None? then Err(InvalidInput)
      else if kind.value == "swap" && StrAt(intent, "to_asset").None? then Err(InvalidInput)
      else
        var wallet := ResolveWallet(ExplicitWallet(intent), own);
        if wallet.Err? then Err(InvalidInput)
        else if DestinationOf(intent).None? then Err(HandlerPanicked)
        else
          Ok(ResolvedIntent(kind.value, amount.value, asset.value, wallet.value, DestinationOf(intent).value,
                            StrAt(intent, "memo")))
  }

  /** The destination is asked of payments and delegations only but unwrapped for every type, so
      the handler panics exactly on swaps that pass all checks and name no destination. */
  lemma OnlySwapsPanic(intent: Document, amount: Option<real>, own: seq<AgentWalletRule>)
    ensures ParseAndResolve(intent, amount, own) == Err(HandlerPanicked) <==>
            && StrAt(intent, "type") == Some("swap") && StrAt(intent, "amount").Some? && amount.Some?
            && StrAt(intent, "from_asset").Some? && StrAt(intent, "to_asset").Some?
            && ResolveWallet(ExplicitWallet(intent), own).Ok? && DestinationOf(intent).None?
  {
    var kind := StrAt(intent, "type");
    if kind.Some? && AssetOf(intent, kind.value).Some? {
      assert kind.value in {"payment", "delegate", "swap"};
    }
  }
}
