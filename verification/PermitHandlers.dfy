/** What the permit, intent, outcome, halt and resume handlers do to the state.  `q` is how the
    store rounds an approved amount.  Each handler is one database transaction. */
module PermitHandlers {
  import opened Outcomes
  import opened Policy
  import opened Constitution
  import opened Permits
  import opened Store
  import opened Normalizer
  import opened Intents
  import Lex
  import StrKey

  const PERMIT_TTL := 3600 * SECOND

  // ----- Granting -----

  datatype Processed = Processed(db: Db, verdict: PolicyResult, permit: nat)

  function AccessFromRule(r: AgentWalletRule, canExecute: bool): AgentWalletAccess {
    AgentWalletAccess(r.agent, r.wallet, r.allocationPct, r.tierLimit, r.permitCap, canExecute)
  }

  /** What the engine is told: the live reservations and counts, and the rule in force. */
  function CaseFor(db: Db, request: PermitRequest, rule: AgentWalletRule, rules: TreasuryRules): Case
    requires request.agent < |db.agents| && request.treasury < |db.treasuries|
  {
    var t := db.treasuries[request.treasury];
    Case(request, TreasuryState(t.health, t.peak, t.current),
         AccessFromRule(rule, db.agents[request.agent].status == SlotActive), rules,
         Reserved(db.permits, OfAgent(request.agent, request.wallet)),
         AsI32(Count(db.permits, OfAgent(request.agent, request.wallet))),
         AsI32(Count(db.permits, OfTreasury(request.treasury))))
  }

  function NewPermit(q: real -> real, db: Db, request: PermitRequest, group: nat, verdict: PolicyResult): Permit {
    Permit(group, request.agent, request.treasury, request.wallet, request.asset, request.amount, q(verdict.amount),
           if verdict.approved then Active else Denied, verdict.denyReason, verdict.check,
           db.now + PERMIT_TTL, None)
  }

  /** The rule a request falls under, or the error that stops it before the engine runs. */
  function RuleFor(db: Db, request: PermitRequest): (r: Result<(AgentWalletRule, TreasuryRules)>)
    ensures r.Ok? ==> request.agent < |db.agents| && request.treasury < |db.treasuries|
  {
    if request.agent >= |db.agents| || db.agents[request.agent].treasury != request.treasury then Err(AgentNotFound)
    else if request.treasury >= |db.treasuries| then Err(InvalidInput)
    else
      match RulesInForce(db.treasuries[request.treasury])
      case Err(e) => Err(e)
      case Ok(content) =>
        match FindRule(content.walletRules, request.agent, request.wallet)
        case None => Err(InvalidInput)
        case Some(rule) => Ok((rule, content.rules))
  }

  /** One permit row, approved or denied, or an error and no row. */
  function ProcessSinglePermit(q: real -> real, db: Db, request: PermitRequest, group: nat): (r: Result<Processed>)
    ensures r.Ok? ==> exists p :: r.value.db == db.(permits := db.permits + [p]) && p.status in {Active, Denied}
  {
    match RuleFor(db, request)
    case Err(e) => Err(e)
    case Ok((rule, rules)) =>
      var verdict := Verdict(CaseFor(db, request, rule, rules));
      Ok(Processed(db.(permits := db.permits + [NewPermit(q, db, request, group, verdict)]), verdict, |db.permits|))
  }

  function OpenGroup(db: Db, auth: AgentAuth, requireAll: bool, requested: real): Db {
    db.(groups := db.groups + [PermitGroup(auth.agent, auth.treasury, requireAll, requested, 0.0, GroupPending,
                                           db.now + PERMIT_TTL)])
  }

  function CloseGroup(db: Db, group: nat, status: GroupStatus, requested: real, approved: real): Db
    requires group < |db.groups|
  {
    db.(groups := db.groups[group := db.groups[group].(status := status, totalRequested := requested,
                                                       totalApproved := approved)])
  }

  /** A group of its own for one request.  The column default makes it a require-all group. */
  function IssueSingle(q: real -> real, db: Db, auth: AgentAuth, request: PermitRequest, granted: GroupStatus)
    : Reply<(PolicyResult, nat)>
  {
    var group := |db.groups|;
    match ProcessSinglePermit(q, OpenGroup(db, auth, true, request.amount), request, group)
    case Err(e) => Reply(db, Err(e))
    case Ok(Processed(db', verdict, permit)) =>
      Reply(CloseGroup(db', group, if verdict.approved then granted else GroupDenied, request.amount, verdict.amount),
            Ok((verdict, permit)))
  }

  function RequestPermit(q: real -> real, db: Db, auth: AgentAuth, signed: Result<()>, request: PermitRequest)
    : Reply<(PolicyResult, nat)>
  {
    if Authenticate(db, auth).Err? then Reply(db, Err(Authenticate(db, auth).error))
    else if request.agent != auth.agent || request.treasury != auth.treasury then Reply(db, Err(InvalidAgentSession))
    else if signed.Err? then Reply(db, Err(signed.error))
    else IssueSingle(q, db, auth, request, GroupActive)
  }

  // ----- Groups -----

  /** A leg put behind every leg whose wallet is not above its own. */
  function InsertLeg(leg: PermitRequest, legs: seq<PermitRequest>): (r: seq<PermitRequest>)
    ensures multiset(r) == multiset(legs) + multiset{leg}
  {
    if legs == [] || !Lex.Leq(legs[0].wallet, leg.wallet) then [leg] + legs
    else
      assert legs == [legs[0]] + legs[1..];
      [legs[0]] + InsertLeg(leg, legs[1..])
  }

  /** Sorted by wallet address, legs on one wallet in their given order. */
  function SortLegs(legs: seq<PermitRequest>): (r: seq<PermitRequest>)
    ensures multiset(r) == multiset(legs)
  {
    if legs == [] then []
    else
      assert legs == legs[..|legs| - 1] + [legs[|legs| - 1]];
      InsertLeg(legs[|legs| - 1], SortLegs(legs[..|legs| - 1]))
  }

  datatype Legs = Legs(db: Db, results: seq<PolicyResult>, requested: real, anyDenied: bool)

  /** The loop of a group request: every leg sees the permits of the legs before it. */
  function ProcessLegs(q: real -> real, db: Db, legs: seq<PermitRequest>, group: nat): (r: Result<Legs>)
    ensures r.Ok? ==> |r.value.results| == |legs|
    ensures r.Ok? ==> r.value.db == db.(permits := r.value.db.permits) && db.permits <= r.value.db.permits
  {
    if legs == [] then Ok(Legs(db, [], 0.0, false))
    else
      var leg := legs[|legs| - 1];
      match ProcessLegs(q, db, legs[..|legs| - 1], group)
      case Err(e) => Err(e)
      case Ok(done) =>
        match ProcessSinglePermit(q, done.db, leg, group)
        case Err(e) => Err(e)
        case Ok(Processed(db', verdict, _)) =>
          Ok(Legs(db', done.results + [verdict], done.requested + leg.amount, done.anyDenied || !verdict.approved))
  }

  function TotalApproved(results: seq<PolicyResult>): real {
    if results == [] then 0.0 else TotalApproved(results[..|results| - 1]) + results[|results| - 1].amount
  }

  function RefusedTogether(results: seq<PolicyResult>): seq<PolicyResult> {
    seq(|results|, i requires 0 <= i < |results| =>
      results[i].(approved := false, denyReason := Some(GroupRequireAllFailure)))
  }

  /** A leg carries its own agent and treasury, which the source does not compare with the group's. */
  function RequestPermitGroup(q: real -> real, db: Db, auth: AgentAuth, signed: Result<()>, group: AgentAuth,
                              legs: seq<PermitRequest>, requireAll: bool): Reply<seq<PolicyResult>>
  {
    if Authenticate(db, auth).Err? then Reply(db, Err(Authenticate(db, auth).error))
    else if group != auth then Reply(db, Err(InvalidAgentSession))
    else if signed.Err? then Reply(db, Err(signed.error))
    else
      var id := |db.groups|;
      match ProcessLegs(q, OpenGroup(db, group, requireAll, 0.0), SortLegs(legs), id)
      case Err(e) => Reply(db, Err(e))
      case Ok(done) =>
        if requireAll && done.anyDenied then Reply(db, Ok(RefusedTogether(done.results)))
        else Reply(CloseGroup(done.db, id, GroupActive, done.requested, TotalApproved(done.results)), Ok(done.results))
  }

  // ----- Intents -----

  /** Whose intent it is and what it asks for, or the error that stops it. */
  function ResolveIntent(db: Db, pubkey: string, signature: Result<()>, intent: Document, amount: Option<real>)
    : (r: Result<(AgentAuth, ResolvedIntent)>)
    ensures r.Ok? ==> r.value.0.agent < |db.agents| && r.value.0.treasury == db.agents[r.value.0.agent].treasury
  {
    if !StrKey.ValidPublicKey(pubkey) then Err(InvalidInput)
    else
      match AgentByPubkey(db.agents, pubkey)
      case None => Err(AgentNotFound)
      case Some(a) =>
        var slot := db.agents[a];
        if Barred(slot.status) then Err(BarredError(slot.status))
        else if signature.Err? then Err(signature.error)
        else if slot.treasury >= |db.treasuries| then Err(InvalidInput)
        else
          match NewestRules(db.treasuries[slot.treasury])
          case Err(e) => Err(e)
          case Ok(content) =>
            match ParseAndResolve(intent, amount, RulesForAgent(content.walletRules, a))
            case Err(e) => Err(e)
            case Ok(asked) => Ok((AgentAuth(a, slot.treasury), asked))
  }

  /** The request an intent amounts to. */
  function IntentRequest(db: Db, pubkey: string, signature: Result<()>, intent: Document, amount: Option<real>)
    : (r: Result<PermitRequest>)
    ensures r.Ok? ==> r.value.agent < |db.agents| && r.value.treasury == db.agents[r.value.agent].treasury
  {
    match ResolveIntent(db, pubkey, signature, intent, amount)
    case Err(e) => Err(e)
    case Ok((auth, asked)) => Ok(PermitRequest(auth.agent, auth.treasury, asked.wallet, asked.asset, asked.amount))
  }

  function SubmitIntent(q: real -> real, db: Db, pubkey: string, signature: Result<()>, intent: Document,
                        amount: Option<real>): Reply<(PolicyResult, nat)>
  {
    match IntentRequest(db, pubkey, signature, intent, amount)
    case Err(e) => Reply(db, Err(e))
    case Ok(request) => IssueSingle(q, db, AgentAuth(request.agent, request.treasury), request, GroupExecuting)
  }

  /** The commit after the network accepted the transaction; it does not look at the status. */
  function IntentExecuted(db: Db, permit: nat): Db {
    if permit >= |db.permits| then db
    else
      var p := db.permits[permit];
      db.(permits := db.permits[permit := p.(status := Consumed, pnl := Some(0.0))],
          groups := if p.group < |db.groups| then db.groups[p.group := db.groups[p.group].(status := GroupConsumed)]
                    else db.groups)
  }

  /** The group is marked even when the permit is no longer active. */
  function IntentFailed(db: Db, permit: nat): Db {
    if permit >= |db.permits| then db
    else
      var p := db.permits[permit];
      db.(permits := if p.status == Active
                     then db.permits[permit := p.(status := Failed,
                                                  denyReason := Some(ExecutionFailed))] else db.permits,
          groups := if p.group < |db.groups| then db.groups[p.group := db.groups[p.group].(status := GroupFailed)]
                    else db.groups)
  }

  // ----- Outcomes, halting, resuming -----

  function ApplyHalt(db: Db, treasury: nat): Db
    requires treasury < |db.treasuries|
  {
    db.(treasuries := db.treasuries[treasury := db.treasuries[treasury].(health := Halted)],
        permits := Settle(db.permits, InTreasury(treasury), Revoked))
  }

  /** The permit is consumed whatever its status was. */
  function RecordOutcome(db: Db, permit: nat, pnl: real): Db
    requires permit < |db.permits| && db.permits[permit].treasury < |db.treasuries|
  {
    var t := db.permits[permit].treasury;
    db.(permits := db.permits[permit := db.permits[permit].(status := Consumed, pnl := Some(pnl))],
        treasuries := db.treasuries[t := db.treasuries[t].(current := db.treasuries[t].current + pnl)])
  }

  function ReportOutcome(db: Db, auth: AgentAuth, signed: Result<()>, permit: nat, pnl: real): Reply<()> {
    if Authenticate(db, auth).Err? then Reply(db, Err(Authenticate(db, auth).error))
    else if permit >= |db.permits| || db.permits[permit].treasury >= |db.treasuries| then Reply(db, Err(DatabaseError))
    else
      var t := db.treasuries[db.permits[permit].treasury];
      if ContentAt(t.history, t.version).None? then Reply(db, Err(DatabaseError))
      else if db.permits[permit].agent != auth.agent then Reply(db, Err(InvalidAgentSession))
      else if signed.Err? then Reply(db, Err(signed.error))
      else
        match RulesInForce(t)
        case Err(e) => Reply(db, Err(e))
        case Ok(content) =>
          var db' := RecordOutcome(db, permit, pnl);
          if DrawdownReached(t.peak, t.current + pnl, content.rules.maxDrawdownPct)
          then Reply(ApplyHalt(db', db.permits[permit].treasury), Ok(()))
          else Reply(db', Ok(()))
  }

  function ResumeTreasury(db: Db, user: nat, treasury: nat): Reply<()> {
    if treasury >= |db.treasuries| || db.treasuries[treasury].owner != user then Reply(db, Err(TreasuryNotFound))
    else
      var t := db.treasuries[treasury];
      Reply(db.(treasuries := db.treasuries[treasury := t.(health := Healthy, peak := t.current)]), Ok(()))
  }

  /** The end of a resync: the new total, and the peak raised to it. */
  function Resync(db: Db, treasury: nat, total: real): Db {
    if treasury >= |db.treasuries| then db
    else
      var t := db.treasuries[treasury];
      db.(treasuries := db.treasuries[treasury := t.(current := total, peak := Max(t.peak, total))])
  }

  function ExpirePermits(db: Db): Db {
    db.(permits := Settle(db.permits, PastExpiry(db.now), Expired))
  }
}
