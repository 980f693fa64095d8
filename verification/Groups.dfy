/** Permit groups.  A group request is one transaction: all of it or nothing; its recorded totals
    are those of its rows; without `require_all` it does what single requests in wallet order
    would do; and on one wallet what it approves in total does not depend on the order of its legs. */
module Groups {
  import opened Outcomes
  import opened Policy
  import opened Permits
  import opened Store
  import opened PermitHandlers
  import opened GovernanceHandlers
  import opened AgentHandlers
  import opened System
  import opened Lifecycle

  // ----- All or nothing -----

  /** The row is the stored form of the leg's result. */
  predicate RowRecords(q: real -> real, p: Permit, leg: PermitRequest, result: PolicyResult, group: nat) {
    && RequestOf(p) == leg && p.group == group
    && p.status == (if result.approved then Active else Denied)
    && p.approved == q(result.amount) && p.denyReason == result.denyReason && p.check == result.check
  }

  /** The rows `ps[n..]` record the results of the legs, in order. */
  predicate Records(q: real -> real, ps: seq<Permit>, n: nat, legs: seq<PermitRequest>, results: seq<PolicyResult>,
                    group: nat) {
    && |ps| == n + |legs| && |results| == |legs|
    && forall i | 0 <= i < |legs| :: RowRecords(q, ps[n + i], legs[i], results[i], group)
  }

  lemma SingleRecords(q: real -> real, d: Db, request: PermitRequest, group: nat)
    requires ProcessSinglePermit(q, d, request, group).Ok?
    ensures var r := ProcessSinglePermit(q, d, request, group).value;
            |r.db.permits| == |d.permits| + 1 && d.permits <= r.db.permits
            && RowRecords(q, r.db.permits[|d.permits|], request, r.verdict, group)
  {
    hide RuleFor, CaseFor, Verdict;
  }

  lemma {:induction false} LegsAreRecorded(q: real -> real, d: Db, legs: seq<PermitRequest>, group: nat)
    requires ProcessLegs(q, d, legs, group).Ok?
    ensures var done := ProcessLegs(q, d, legs, group).value;
            Records(q, done.db.permits, |d.permits|, legs, done.results, group)
  {
    hide ProcessSinglePermit, RowRecords;
    if legs != [] {
      var k := |legs| - 1;
      LegsAreRecorded(q, d, legs[..k], group);
      var before, done := ProcessLegs(q, d, legs[..k], group).value, ProcessLegs(q, d, legs, group).value;
      SingleRecords(q, before.db, legs[k], group);
      forall i | 0 <= i < |legs| ensures RowRecords(q, done.db.permits[|d.permits| + i], legs[i], done.results[i],
                                                    group) {
        if i < k {
          assert RowRecords(q, before.db.permits[|d.permits| + i], legs[..k][i], before.results[i], group);
        }
      }
    }
  }

  predicate SomeRefused(results: seq<PolicyResult>) {
    exists i | 0 <= i < |results| :: !results[i].approved
  }

  lemma {:induction false} DenialsAreNoticed(q: real -> real, d: Db, legs: seq<PermitRequest>, group: nat)
    requires ProcessLegs(q, d, legs, group).Ok?
    ensures var done := ProcessLegs(q, d, legs, group).value; done.anyDenied <==> SomeRefused(done.results)
  {
    hide ProcessSinglePermit;
    if legs != [] {
      var k := |legs| - 1;
      DenialsAreNoticed(q, d, legs[..k], group);
      var before, done := ProcessLegs(q, d, legs[..k], group).value, ProcessLegs(q, d, legs, group).value;
      assert done.results == before.results + [done.results[k]];
      if SomeRefused(before.results) {
        var i :| 0 <= i < |before.results| && !before.results[i].approved;
        assert !done.results[i].approved;
      }
    }
  }

  /** A group request either changes nothing, and then every leg is refused or the request failed,
      or commits a row for every leg in wallet order.  With `require_all` only approved legs are
      ever committed. */
  lemma GroupsAreTransactions(q: real -> real, s: Db, auth: AgentAuth, signed: Result<()>, group: AgentAuth,
                              legs: seq<PermitRequest>, requireAll: bool)
    ensures var r := RequestPermitGroup(q, s, auth, signed, group, legs, requireAll);
            && (r.result.Err? ==> r.db == s)
            && (r.result.Ok? ==>
                  || (requireAll && r.db == s && |r.result.value| == |legs|
                      && forall i | 0 <= i < |legs| :: !r.result.value[i].approved)
                  || (s.permits <= r.db.permits && |r.db.groups| == |s.groups| + 1
                      && Records(q, r.db.permits, |s.permits|, SortLegs(legs), r.result.value, |s.groups|)
                      && (requireAll ==>
                            forall i | |s.permits| <= i < |r.db.permits| :: r.db.permits[i].status == Active)))
  {
    hide ProcessLegs, TotalApproved, Authenticate, SortLegs;
    var d := OpenGroup(s, group, requireAll, 0.0);
    var r := ProcessLegs(q, d, SortLegs(legs), |s.groups|);
    assert |SortLegs(legs)| == |legs| by {
      assert |multiset(SortLegs(legs))| == |multiset(legs)|;
    }
    if r.Ok? {
      LegsAreRecorded(q, d, SortLegs(legs), |s.groups|);
      DenialsAreNoticed(q, d, SortLegs(legs), |s.groups|);
      var rows, results := r.value.db.permits, r.value.results;
      if !r.value.anyDenied {
        forall i | |s.permits| <= i < |rows| ensures rows[i].status == Active {
          assert RowRecords(q, rows[|s.permits| + (i - |s.permits|)], SortLegs(legs)[i - |s.permits|],
                            results[i - |s.permits|], |s.groups|);
        }
      }
    }
  }

  // ----- Recorded totals -----

  function RowsRequested(ps: seq<Permit>, g: nat): real {
    if ps == [] then 0.0
    else RowsRequested(ps[..|ps| - 1], g) + if ps[|ps| - 1].group == g then ps[|ps| - 1].requested else 0.0
  }

  function RowsApproved(ps: seq<Permit>, g: nat): real {
    if ps == [] then 0.0
    else RowsApproved(ps[..|ps| - 1], g) + if ps[|ps| - 1].group == g then ps[|ps| - 1].approved else 0.0
  }

  function RowsIn(ps: seq<Permit>, g: nat): nat {
    if ps == [] then 0 else RowsIn(ps[..|ps| - 1], g) + if ps[|ps| - 1].group == g then 1 else 0
  }

  predicate WithinSlack(x: real, y: real, n: nat, eps: real) {
    y - n as real * eps <= x <= y + n as real * eps
  }

  lemma OneMoreSlack(x: real, y: real, n: nat, eps: real, dx: real, dy: real)
    requires WithinSlack(x, y, n, eps) && dy - eps <= dx <= dy + eps
    ensures WithinSlack(x + dx, y + dy, n + 1, eps)
  {
    assert (n + 1) as real * eps == n as real * eps + eps;
  }

  lemma RowAppended(ps: seq<Permit>, p: Permit, g: nat)
    ensures RowsRequested(ps + [p], g) == RowsRequested(ps, g) + if p.group == g then p.requested else 0.0
    ensures RowsApproved(ps + [p], g) == RowsApproved(ps, g) + if p.group == g then p.approved else 0.0
    ensures RowsIn(ps + [p], g) == RowsIn(ps, g) + if p.group == g then 1 else 0
  {
    assert (ps + [p])[..|ps|] == ps;
  }

  lemma RecordedRow(q: real -> real, eps: real, p: Permit, leg: PermitRequest, result: PolicyResult, g: nat)
    requires Rounds(q, eps) && RowRecords(q, p, leg, result, g)
    ensures p.group == g && p.requested == leg.amount && p.approved - eps <= result.amount <= p.approved + eps
  {
    assert RequestOf(p).amount == leg.amount;
    assert result.amount - eps <= q(result.amount) <= result.amount + eps;
  }

  lemma NoSlack(eps: real)
    ensures WithinSlack(0.0, 0.0, 0, eps)
  {}

  lemma {:induction false} LegsRecordTotals(q: real -> real, eps: real, d: Db, legs: seq<PermitRequest>, g: nat)
    requires Rounds(q, eps) && ProcessLegs(q, d, legs, g).Ok?
    requires RowsIn(d.permits, g) == 0 && RowsRequested(d.permits, g) == 0.0 && RowsApproved(d.permits, g) == 0.0
    ensures var done := ProcessLegs(q, d, legs, g).value;
            && RowsRequested(done.db.permits, g) == done.requested
            && RowsIn(done.db.permits, g) == |legs|
            && WithinSlack(TotalApproved(done.results), RowsApproved(done.db.permits, g), |legs|, eps)
  {
    hide Rounds, RowRecords, WithinSlack, ProcessSinglePermit, RowsRequested, RowsApproved, RowsIn;
    if legs == [] {
      NoSlack(eps);
    } else {
      var k := |legs| - 1;
      LegsRecordTotals(q, eps, d, legs[..k], g);
      var before, done := ProcessLegs(q, d, legs[..k], g).value, ProcessLegs(q, d, legs, g).value;
      SingleRecords(q, before.db, legs[k], g);
      var p := done.db.permits[|before.db.permits|];
      assert done.db.permits == before.db.permits + [p];
      RowAppended(before.db.permits, p, g);
      RecordedRow(q, eps, p, legs[k], done.results[k], g);
      assert done.results[..k] == before.results;
      OneMoreSlack(TotalApproved(before.results), RowsApproved(before.db.permits, g), k, eps, done.results[k].amount,
                   p.approved);
    }
  }

  /** Each group's totals are the sums over its rows; approved amounts to within one rounding a row. */
  ghost predicate TotalRecorded(s: Db, eps: real, g: nat)
    requires g < |s.groups|
  {
    && s.groups[g].totalRequested == RowsRequested(s.permits, g)
    && WithinSlack(s.groups[g].totalApproved, RowsApproved(s.permits, g), RowsIn(s.permits, g), eps)
  }

  ghost predicate TotalsRecorded(s: Db, eps: real) {
    forall g | 0 <= g < |s.groups| :: TotalRecorded(s, eps, g)
  }

  /** No row refers to a group that is not there. */
  lemma {:induction false} NoRowsYet(ps: seq<Permit>, g: nat)
    requires forall i | 0 <= i < |ps| :: ps[i].group < g
    ensures RowsIn(ps, g) == 0 && RowsRequested(ps, g) == 0.0 && RowsApproved(ps, g) == 0.0
  {
    if ps != [] {
      NoRowsYet(ps[..|ps| - 1], g);
    }
  }

  lemma SingleRecordsTotals(q: real -> real, eps: real, s: Db, auth: AgentAuth, request: PermitRequest,
                            granted: GroupStatus)
    requires Linked(s) && Rounds(q, eps)
    ensures var s' := IssueSingle(q, s, auth, request, granted).db;
            s' == s || (|s'.groups| == |s.groups| + 1 && TotalRecorded(s', eps, |s.groups|))
  {
    hide RuleFor, Verdict, CaseFor;
    var s' := IssueSingle(q, s, auth, request, granted).db;
    if s' != s {
      var g := |s.groups|;
      NoRowsYet(s.permits, g);
      var p := s'.permits[|s.permits|];
      assert s'.permits == s.permits + [p];
      RowAppended(s.permits, p, g);
      var amount := s'.groups[g].totalApproved;
      assert amount - eps <= q(amount) <= amount + eps;
      OneMoreSlack(0.0, 0.0, 0, eps, amount, p.approved);
    }
  }

  lemma GroupRecordsTotals(q: real -> real, eps: real, s: Db, auth: AgentAuth, signed: Result<()>, group: AgentAuth,
                           legs: seq<PermitRequest>, requireAll: bool)
    requires Linked(s) && Rounds(q, eps)
    ensures var s' := RequestPermitGroup(q, s, auth, signed, group, legs, requireAll).db;
            s' == s || (|s'.groups| == |s.groups| + 1 && TotalRecorded(s', eps, |s.groups|))
  {
    hide ProcessLegs, TotalApproved, Authenticate, SortLegs, RowsIn, RowsRequested, RowsApproved, WithinSlack, Rounds;
    var d, g := OpenGroup(s, group, requireAll, 0.0), |s.groups|;
    var r := ProcessLegs(q, d, SortLegs(legs), g);
    if r.Ok? {
      NoRowsYet(s.permits, g);
      LegsRecordTotals(q, eps, d, SortLegs(legs), g);
    }
  }

  lemma AskingRecordsTotals(q: real -> real, eps: real, s: Db, op: PermitOp)
    requires Asks(op) && Linked(s) && Rounds(q, eps)
    ensures var s' := PermitNext(q, s, op);
            s' == s || (|s'.groups| == |s.groups| + 1 && TotalRecorded(s', eps, |s.groups|))
  {
    hide IssueSingle, RequestPermitGroup, Linked, Rounds, Authenticate;
    match op
    case AskPermit(auth, signed, request) => SingleRecordsTotals(q, eps, s, auth, request, GroupActive);
    case AskGroup(auth, signed, onBehalf, legs, all) => GroupRecordsTotals(q, eps, s, auth, signed, onBehalf, legs,
                                                                           all);
    case AskIntent(pubkey, signed, intent, amount) =>
      var r := IntentRequest(s, pubkey, signed, intent, amount);
      if r.Ok? {
        SingleRecordsTotals(q, eps, s, AgentAuth(r.value.agent, r.value.treasury), r.value, GroupExecuting);
      }
  }

  /** The totals of the groups already there. */
  predicate KeepsTotals(s: Db, s': Db) {
    && |s.groups| <= |s'.groups|
    && forall g | 0 <= g < |s.groups| ::
         && s'.groups[g].totalRequested == s.groups[g].totalRequested
         && s'.groups[g].totalApproved == s.groups[g].totalApproved
  }

  lemma {:induction false} MovesKeepSums(ps: seq<Permit>, ps': seq<Permit>, g: nat)
    requires Advanced(ps, ps')
    ensures RowsRequested(ps', g) == RowsRequested(ps, g) && RowsApproved(ps', g) == RowsApproved(ps, g)
    ensures RowsIn(ps', g) == RowsIn(ps, g)
  {
    if ps != [] {
      var n := |ps| - 1;
      MovesKeepSums(ps[..n], ps'[..n], g);
      assert Moves(ps[n], ps'[n]);
    }
  }

  lemma {:induction false} OtherRowsKeepSums(ps: seq<Permit>, n: nat, g: nat, other: nat)
    requires n <= |ps| && g != other && forall i | n <= i < |ps| :: ps[i].group == other
    ensures RowsRequested(ps, g) == RowsRequested(ps[..n], g) && RowsApproved(ps, g) == RowsApproved(ps[..n], g)
    ensures RowsIn(ps, g) == RowsIn(ps[..n], g)
  {
    if n == |ps| {
      assert ps[..n] == ps;
    } else {
      var k := |ps| - 1;
      OtherRowsKeepSums(ps[..k], n, g, other);
      assert ps[..k][..n] == ps[..n];
    }
  }

  lemma RevokingKeepsTotals(s: Db, treasury: nat, agent: nat, scrubbed: Option<string>)
    ensures KeepsTotals(s, RevokeAgent(s, treasury, agent, scrubbed).db)
  {
    hide RemoveAgentRules;
    if treasury < |s.treasuries| {
      var settled := s.(permits := Settle(s.permits, OfSlot(treasury, agent), Revoked),
                        groups := RevokeGroups(s.groups, treasury, agent));
      RemovalKeepsTheRest(settled, treasury, agent, scrubbed);
    }
  }

  lemma AgentStepsKeepTotals(s: Db, op: AgentOp)
    ensures KeepsTotals(s, AgentNext(s, op))
  {
    hide RevokeAgent, EnrollPubkey, CompleteConnect, CompleteMcpConnect, RefreshMcpLiveness, Heartbeat,
      StrKey.ValidPublicKey;
    if op.Revoke? {
      RevokingKeepsTotals(s, op.treasury, op.agent, op.scrubbed);
    } else if op.Enrol? || op.Connect? || op.ConnectMcp? || op.RefreshMcp? || op.Beat? {
      ConnectingTouchesOneSlot(s, op);
    }
  }

  lemma StepKeepsOldTotals(q: real -> real, s: Db, step: Step)
    ensures KeepsTotals(s, Next(q, s, step))
    ensures |Next(q, s, step).groups| > |s.groups| ==> step.OnPermits? && Asks(step.permitOp) && Grants(q, s, Next(q,
        s, step))
    ensures |Next(q, s, step).groups| == |s.groups| ==> Advanced(s.permits, Next(q, s, step).permits)
  {
    hide GovernanceNext, AgentNext, RequestPermit, RequestPermitGroup, SubmitIntent, ContentAt, DrawdownReached,
      RulesInForce,
      Authenticate, Settle, Judged;
    match step
    case Tick(_) =>
    case OnPermits(op) => if Asks(op) { AskingJudges(q, s, op); } else { OtherPermitOpsAdvance(q, s, op); }
    case OnGovernance(op) => GovernanceKeepsTheRest(s, op);
    case OnAgents(op) => AgentStepsKeepTotals(s, op); AgentStepsKeepRows(s, op);
  }

  lemma StepKeepsTotals(q: real -> real, eps: real, s: Db, step: Step)
    requires Linked(s) && Rounds(q, eps) && TotalsRecorded(s, eps)
    ensures TotalsRecorded(Next(q, s, step), eps)
  {
    hide PermitNext, GovernanceNext, AgentNext, Linked, Rounds, Judged, WithinSlack;
    var s' := Next(q, s, step);
    StepKeepsOldTotals(q, s, step);
    forall g | 0 <= g < |s'.groups| ensures TotalRecorded(s', eps, g) {
      if |s'.groups| == |s.groups| {
        MovesKeepSums(s.permits, s'.permits, g);
        assert TotalRecorded(s, eps, g);
      } else if g < |s.groups| {
        OtherRowsKeepSums(s'.permits, |s.permits|, g, |s.groups|);
        assert s'.permits[..|s.permits|] == s.permits;
        assert TotalRecorded(s, eps, g);
      } else {
        AskingRecordsTotals(q, eps, s, step.permitOp);
      }
    }
  }

  /** In every reachable state each group's recorded totals are the sums over its rows. */
  lemma {:induction false} GroupTotalsAreSums(q: real -> real, eps: real, s: Db, steps: seq<Step>)
    requires Sane(s) && Rounds(q, eps) && TotalsRecorded(s, eps)
    ensures TotalsRecorded(Run(q, s, steps), eps)
  {
    hide Next, Linked, Rounds, TotalRecorded, CountsFit, HaltedIsIdle;
    if steps != [] {
      GroupTotalsAreSums(q, eps, s, steps[..|steps| - 1]);
      RunsStaySane(q, s, steps[..|steps| - 1]);
      StepKeepsTotals(q, eps, Run(q, s, steps[..|steps| - 1]), steps[|steps| - 1]);
    }
  }
}
