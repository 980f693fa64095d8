/** The policy engine: eight rules, tried in order, two of which lower the approved amount
    instead of denying.  Amounts are exact. */
module Policy {
  import opened Outcomes

  /** Signed 32-bit integers, and the truncating cast into them. */
  type i32 = x: int | -0x8000_0000 <= x < 0x8000_0000

  function AsI32(n: int): (r: i32)
    ensures -0x8000_0000 <= n < 0x8000_0000 ==> r == n
  {
    var low := n % 0x1_0000_0000;
    if low < 0x8000_0000 then low else low - 0x1_0000_0000
  }

  function Min(a: real, b: real): real { if a <= b then a else b }

  function Max(a: real, b: real): real { if a >= b then a else b }

  datatype Health = PendingWallet | Healthy | Halted

  datatype PermitRequest = PermitRequest(agent: nat, treasury: nat, wallet: string, asset: string, amount: real)

  datatype TreasuryState = TreasuryState(health: Health, peak: real, current: real)

  datatype AgentWalletAccess = AgentWalletAccess(agent: nat, wallet: string, allocationPct: real, tierLimit: real,
                                                 permitCap: i32, canExecute: bool)

  datatype TreasuryRules = TreasuryRules(maxDrawdownPct: real, maxConcurrentPermits: i32)

  datatype Reason =
    | TreasuryHalted
    | AgentSuspendedReason
    | WalletAccessDenied
    | AllocationReached
    | TierLimitExceeded
    | ConcurrentLimitReached
    | TreasuryConcurrentLimitReached
    | MaxDrawdownReached
    | GroupRequireAllFailure
    | ExecutionFailed

  datatype PolicyResult = PolicyResult(approved: bool, amount: real, denyReason: Option<Reason>,
                                       check: Option<nat>, partialReason: Option<Reason>)

  /** Everything the engine is given for one request. */
  datatype Case = Case(request: PermitRequest, treasury: TreasuryState, access: AgentWalletAccess,
                       rules: TreasuryRules, reserved: real, active: i32, treasuryActive: i32)

  // ----- The single rules -----

  /** What an agent may hold on a wallet: its share of the treasury's assets. */
  function Cap(allocationPct: real, aum: real): (cap: real)
    ensures 100.0 * cap == allocationPct * aum
  {
    allocationPct / 100.0 * aum
  }

  datatype Limit = Within(amount: real) | Exceeded

  function CheckAgentAllocation(request: PermitRequest, access: AgentWalletAccess, reserved: real, aum: real): Limit {
    var cap := Cap(access.allocationPct, aum);
    if reserved >= cap then Exceeded
    else if request.amount > cap - reserved then Within(cap - reserved)
    else Within(request.amount)
  }

  function CheckTierLimit(request: PermitRequest, access: AgentWalletAccess): real {
    if request.amount > access.tierLimit then access.tierLimit else request.amount
  }

  /** Rule 8, also the trigger for halting after an outcome. */
  predicate DrawdownReached(peak: real, current: real, maxDrawdownPct: real) {
    peak > 0.0 && (peak - current) / peak * 100.0 >= maxDrawdownPct
  }

  function Deny(reason: Reason, check: nat): PolicyResult {
    PolicyResult(false, 0.0, Some(reason), Some(check), None)
  }

  // ----- Specification -----

  /** Rule `k` stands in the way.  Rule 5, the tier limit, only ever lowers the amount. */
  predicate Violates(k: nat, c: Case) {
    match k
    case 1 => c.treasury.health == Halted
    case 2 => !c.access.canExecute
    case 3 => c.request.wallet != c.access.wallet
    case 4 => c.reserved >= Cap(c.access.allocationPct, c.treasury.current)
    case 6 => c.active >= c.access.permitCap
    case 7 => c.treasuryActive >= c.rules.maxConcurrentPermits
    case 8 => DrawdownReached(c.treasury.peak, c.treasury.current, c.rules.maxDrawdownPct)
    case _ => false
  }

  function ReasonOf(k: nat): Reason {
    match k
    case 1 => TreasuryHalted
    case 2 => AgentSuspendedReason
    case 3 => WalletAccessDenied
    case 4 => AllocationReached
    case 5 => TierLimitExceeded
    case 6 => ConcurrentLimitReached
    case 7 => TreasuryConcurrentLimitReached
    case _ => MaxDrawdownReached
  }

  function Headroom(c: Case): real { Cap(c.access.allocationPct, c.treasury.current) - c.reserved }

  function ApprovedAmount(c: Case): real { Min(c.request.amount, Min(Headroom(c), c.access.tierLimit)) }

  /** The last rule that lowered the amount. */
  function PartialReason(c: Case): Option<Reason> {
    if c.access.tierLimit < Min(c.request.amount, Headroom(c)) then Some(TierLimitExceeded)
    else if Headroom(c) < c.request.amount then Some(AllocationReached)
    else None
  }

  function FirstViolated(c: Case, k: nat): (r: nat)
    requires k <= 9
    ensures k <= r <= 9
    ensures r < 9 ==> Violates(r, c)
    ensures forall j | k <= j < r :: !Violates(j, c)
    decreases 9 - k
  {
    if k == 9 || Violates(k, c) then k else FirstViolated(c, k + 1)
  }

  /** Denied by the lowest-numbered rule that stands in the way, otherwise approved for the
      smallest of request, headroom and tier limit. */
  function Verdict(c: Case): (r: PolicyResult)
    ensures r.approved <==> forall k | 1 <= k <= 8 :: !Violates(k, c)
    ensures r.approved ==> r == PolicyResult(true, ApprovedAmount(c), None, None, PartialReason(c))
    ensures !r.approved ==>
              exists k | 1 <= k <= 8 && Violates(k, c) && r == Deny(ReasonOf(k), k) ::
                forall j | 1 <= j < k :: !Violates(j, c)
  {
    var k := FirstViolated(c, 1);
    if k < 9 then Deny(ReasonOf(k), k) else PolicyResult(true, ApprovedAmount(c), None, None, PartialReason(c))
  }

  // ----- The decision in numbers -----

  /** The rules other than the allocation, each in plain terms. */
  predicate OpenToRequest(c: Case) {
    && c.treasury.health != Halted
    && c.access.canExecute
    && c.request.wallet == c.access.wallet
    && c.active < c.access.permitCap
    && c.treasuryActive < c.rules.maxConcurrentPermits
    && !(c.treasury.peak > 0.0
         && (c.treasury.peak - c.treasury.current) * 100.0 >= c.rules.maxDrawdownPct * c.treasury.peak)
  }

  /** What a decision `r` on a case means, without the engine's own terms.  It is approved if and
      only if the other rules are open and the agent's reservations are below its percentage of the
      assets; it then approves the request up to the tier limit if that still fits the percentage,
      and otherwise exactly what fills it. */
  predicate DecidesInNumbers(c: Case, r: PolicyResult) {
    var asked := if c.request.amount <= c.access.tierLimit then c.request.amount else c.access.tierLimit;
    var share := c.access.allocationPct * c.treasury.current;
    && (r.approved <==> OpenToRequest(c) && 100.0 * c.reserved < share)
    && (r.approved && 100.0 * (c.reserved + asked) <= share ==> r.amount == asked)
    && (r.approved && 100.0 * (c.reserved + asked) > share ==> 100.0 * (c.reserved + r.amount) == share)
    && (!r.approved ==> r.amount == 0.0)
    && (r.partialReason.Some? <==> r.approved && r.amount < c.request.amount)
    && (r.denyReason.None? <==> r.approved) && (r.check.None? <==> r.approved)
  }

  lemma DrawdownInNumbers(peak: real, current: real, limit: real)
    ensures DrawdownReached(peak, current, limit) <==> peak > 0.0 && (peak - current) * 100.0 >= limit * peak
  {
    if peak > 0.0 {
      var drawdown := (peak - current) / peak;
      assert drawdown * peak == peak - current;
      assert drawdown * 100.0 >= limit <==> drawdown * 100.0 * peak >= limit * peak;
    }
  }

  lemma VerdictInNumbers(c: Case)
    ensures DecidesInNumbers(c, Verdict(c))
  {
    DrawdownInNumbers(c.treasury.peak, c.treasury.current, c.rules.maxDrawdownPct);
    hide DrawdownReached;
    assert OpenToRequest(c) <==>
           && !Violates(1, c) && !Violates(2, c) && !Violates(3, c)
           && !Violates(6, c) && !Violates(7, c) && !Violates(8, c);
    assert Violates(4, c) <==> 100.0 * c.reserved >= c.access.allocationPct * c.treasury.current;
    hide Cap;
  }

  // ----- The engine as the source runs it -----

  method RunPolicyEngine(c: Case) returns (r: PolicyResult)
    ensures r == Verdict(c)
    ensures DecidesInNumbers(c, r)
  {
    VerdictInNumbers(c);
    hide DecidesInNumbers;
    var currentApproved := c.request.amount;
    var partialReason := None;
    if c.treasury.health == Halted {
      return Deny(TreasuryHalted, 1);
    }
    if !c.access.canExecute {
      return Deny(AgentSuspendedReason, 2);
    }
    if c.request.wallet != c.access.wallet {
      return Deny(WalletAccessDenied, 3);
    }
    match CheckAgentAllocation(c.request, c.access, c.reserved, c.treasury.current) {
      case Within(limit) =>
        if limit < currentApproved {
          currentApproved := limit;
          partialReason := Some(AllocationReached);
        }
      case Exceeded =>
        return Deny(AllocationReached, 4);
    }
    var tier := CheckTierLimit(c.request, c.access);
    if tier < currentApproved {
      currentApproved := tier;
      partialReason := Some(TierLimitExceeded);
    }
    if c.active >= c.access.permitCap {
      return Deny(ConcurrentLimitReached, 6);
    }
    if c.treasuryActive >= c.rules.maxConcurrentPermits {
      return Deny(TreasuryConcurrentLimitReached, 7);
    }
    if DrawdownReached(c.treasury.peak, c.treasury.current, c.rules.maxDrawdownPct) {
      return Deny(MaxDrawdownReached, 8);
    }
    r := PolicyResult(true, currentApproved, None, None, partialReason);
  }

  /** An approval never takes the agent past its cap, never exceeds the request or the tier
      limit, and is positive exactly when something positive was asked of a positive tier. */
  lemma ApprovalStaysWithinCap(c: Case)
    requires Verdict(c).approved
    ensures c.reserved < Cap(c.access.allocationPct, c.treasury.current)
    ensures c.reserved + Verdict(c).amount <= Cap(c.access.allocationPct, c.treasury.current)
    ensures Verdict(c).amount <= c.request.amount && Verdict(c).amount <= c.access.tierLimit
    ensures Verdict(c).amount > 0.0 <==> c.request.amount > 0.0 && c.access.tierLimit > 0.0
    ensures c.request.amount >= 0.0 && c.access.tierLimit >= 0.0 ==> Verdict(c).amount >= 0.0
  {
    assert !Violates(4, c);
  }
}
