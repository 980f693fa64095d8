/** Outcome reports.  When a report is booked, what it does to the permit and to the treasury's total,
    and what else moves a settled permit: a report looks at everything except the permit's status. */
module Reports {
  import opened Outcomes
  import opened Policy
  import opened Permits
  import opened Store
  import opened PermitHandlers
  import opened GovernanceHandlers
  import opened AgentHandlers
  import opened System
  import opened ConstitutionLog
  import opened Lifecycle

  /** The report passes every check: session, permit, its agent, signature, readable rules. */
  predicate Accepted(s: Db, auth: AgentAuth, signed: Result<()>, permit: nat) {
    && Authenticate(s, auth).Ok? && signed.Ok?
    && permit < |s.permits| && s.permits[permit].agent == auth.agent
    && s.permits[permit].treasury < |s.treasuries|
    && RulesInForce(s.treasuries[s.permits[permit].treasury]).Ok?
  }

  /** A report is booked exactly when it is accepted, whatever the permit's status: the permit ends
      CONSUMED with this result, the treasury's total moves by it, and no other total moves.  A
      refused report changes nothing. */
  lemma ReportIsBookedWhateverTheStatus(s: Db, auth: AgentAuth, signed: Result<()>, permit: nat, pnl: real)
    ensures var r := ReportOutcome(s, auth, signed, permit, pnl);
            && (r.result.Ok? <==> Accepted(s, auth, signed, permit))
            && (r.result.Err? ==> r.db == s)
            && (r.result.Ok? ==>
                  && |r.db.permits| == |s.permits| && |r.db.treasuries| == |s.treasuries|
                  && r.db.permits[permit].status == Consumed && r.db.permits[permit].pnl == Some(pnl)
                  && forall t | 0 <= t < |s.treasuries| ::
                       r.db.treasuries[t].current ==
                       s.treasuries[t].current + if t == s.permits[permit].treasury then pnl else 0.0)
  {
    hide ContentAt, Normalizer.Normalize, DrawdownReached, Authenticate;
  }

  /** In reachable states the rules are readable and the permit's treasury exists, so a report is
      accepted exactly when it comes signed from an authenticated session of the permit's agent. */
  lemma AcceptedWhenReachable(s: Db, auth: AgentAuth, signed: Result<()>, permit: nat)
    requires Linked(s) && LogsSound(s)
    ensures Accepted(s, auth, signed, permit) <==>
            Authenticate(s, auth).Ok? && signed.Ok? && permit < |s.permits| && s.permits[permit].agent == auth.agent
  {
    hide Normalizer.Normalize, Authenticate, RulesInForce, NewestRules;
    if permit < |s.permits| {
      CurrentReadsTheNewest(s.treasuries[s.permits[permit].treasury]);
    }
  }

  // ----- What moves a settled permit -----

  /** The step commits the permit's transaction or reports its outcome and is accepted. */
  predicate Consumes(s: Db, step: Step, i: nat) {
    step.OnPermits? &&
    match step.permitOp
    case CommitIntent(permit) => permit == i
    case Outcome(auth, signed, permit, _) => permit == i && Accepted(s, auth, signed, i)
    case _ => false
  }

  lemma PermitOpsMoveSettled(q: real -> real, s: Db, op: PermitOp, i: nat)
    requires i < |s.permits| && Rank(s.permits[i].status) == 1 && !Asks(op)
    ensures |PermitNext(q, s, op).permits| == |s.permits|
    ensures PermitNext(q, s, op).permits[i].status == (if Consumes(s, OnPermits(op),
                                                                   i) then Consumed else s.permits[i].status)
  {
    hide Accepted, Authenticate, ContentAt, RulesInForce, DrawdownReached, ReportOutcome;
    if op.Outcome? {
      OutcomeMovesSettled(s, op.auth, op.signed, op.permit, op.pnl, i);
    }
  }

  lemma OutcomeMovesSettled(s: Db, auth: AgentAuth, signed: Result<()>, permit: nat, pnl: real, i: nat)
    requires i < |s.permits| && Rank(s.permits[i].status) == 1
    ensures var s' := ReportOutcome(s, auth, signed, permit, pnl).db;
            && |s'.permits| == |s.permits|
            && s'.permits[i].status == (if permit == i && Accepted(s, auth, signed,
                                                                   i) then Consumed else s.permits[i].status)
  {
    ReportIsBookedWhateverTheStatus(s, auth, signed, permit, pnl);
    hide ContentAt, Normalizer.Normalize, DrawdownReached, Authenticate, Accepted;
  }

  lemma RevokingSparesSettled(s: Db, treasury: nat, agent: nat, scrubbed: Option<string>, i: nat)
    requires i < |s.permits| && s.permits[i].status != Active
    ensures var s' := RevokeAgent(s, treasury, agent, scrubbed).db;
            |s'.permits| == |s.permits| && s'.permits[i] == s.permits[i]
  {
    hide RemoveAgentRules;
    if treasury < |s.treasuries| {
      var settled := s.(permits := Settle(s.permits, OfSlot(treasury, agent), Revoked),
                        groups := RevokeGroups(s.groups, treasury, agent));
      RemovalKeepsTheRest(settled, treasury, agent, scrubbed);
    }
  }

  lemma AgentStepsSpareSettled(s: Db, op: AgentOp, i: nat)
    requires i < |s.permits| && s.permits[i].status != Active
    ensures |AgentNext(s, op).permits| == |s.permits| && AgentNext(s, op).permits[i] == s.permits[i]
  {
    hide RevokeAgent, EnrollPubkey, CompleteConnect, CompleteMcpConnect, RefreshMcpLiveness, Heartbeat,
      StrKey.ValidPublicKey, AgentByPubkey;
    if op.Revoke? {
      RevokingSparesSettled(s, op.treasury, op.agent, op.scrubbed, i);
    } else if op.Enrol? || op.Connect? || op.ConnectMcp? || op.RefreshMcp? || op.Beat? {
      ConnectingTouchesOneSlot(s, op);
    }
  }

  /** A denied, expired, revoked or failed permit changes status exactly when its transaction is
      committed or its outcome reported and accepted, and then becomes CONSUMED. */
  lemma {:induction false} SettledMovesExactly(q: real -> real, s: Db, step: Step, i: nat)
    requires i < |s.permits| && Rank(s.permits[i].status) == 1
    ensures i < |Next(q, s, step).permits|
    ensures Next(q, s, step).permits[i].status == (if Consumes(s, step, i) then Consumed else s.permits[i].status)
  {
    hide PermitNext, GovernanceNext, AgentNext, Accepted, Judged;
    match step
    case Tick(_) =>
    case OnPermits(op) => if Asks(op) { AskingJudges(q, s, op); } else { PermitOpsMoveSettled(q, s, op, i); }
    case OnGovernance(op) => GovernanceKeepsTheRest(s, op);
    case OnAgents(op) => AgentStepsSpareSettled(s, op, i);
  }

  // ----- The ledger -----

  /** What a step books to a treasury: a resync sets the total, an accepted report adds its result. */
  function Book(s: Db, step: Step, t: nat, total: real): real {
    if !step.OnPermits? then total
    else
      match step.permitOp
      case SetTotal(treasury, resynced) => if treasury == t then resynced else total
      case Outcome(auth, signed, permit, pnl) =>
        if Accepted(s, auth, signed, permit) && s.permits[permit].treasury == t then total + pnl else total
      case _ => total
  }

  ghost function Ledger(q: real -> real, s: Db, steps: seq<Step>, t: nat): real
    requires t < |s.treasuries|
  {
    if steps == [] then s.treasuries[t].current
    else
      var before := steps[..|steps| - 1];
      Book(Run(q, s, before), steps[|steps| - 1], t, Ledger(q, s, before, t))
  }

  lemma StepBooks(q: real -> real, s: Db, step: Step, t: nat)
    requires t < |s.treasuries|
    ensures t < |Next(q, s, step).treasuries|
    ensures Next(q, s, step).treasuries[t].current == Book(s, step, t, s.treasuries[t].current)
  {
    hide GovernanceNext, AgentNext, RequestPermit, RequestPermitGroup, SubmitIntent, ReportOutcome, Judged, Settle,
      Accepted;
    match step
    case Tick(_) =>
    case OnPermits(op) =>
      if Asks(op) {
        AskingJudges(q, s, op);
      } else if op.Outcome? {
        ReportIsBookedWhateverTheStatus(s, op.auth, op.signed, op.permit, op.pnl);
        AcceptedHasPermit(s, op.auth, op.signed, op.permit);
      }
    case OnGovernance(op) => GovernanceKeepsTheRest(s, op);
    case OnAgents(op) => AgentStepsKeepRows(s, op);
  }

  lemma AcceptedHasPermit(s: Db, auth: AgentAuth, signed: Result<()>, permit: nat)
    ensures Accepted(s, auth, signed, permit) ==> permit < |s.permits|
  {}

  /** Over any run a treasury's total is its last resync and every report accepted since, repeated
      reports on one permit included; nothing else moves it. */
  lemma {:induction false} TotalIsTheLedger(q: real -> real, s: Db, steps: seq<Step>, t: nat)
    requires t < |s.treasuries|
    ensures t < |Run(q, s, steps).treasuries|
    ensures Run(q, s, steps).treasuries[t].current == Ledger(q, s, steps, t)
  {
    hide Next, Book;
    if steps != [] {
      TotalIsTheLedger(q, s, steps[..|steps| - 1], t);
      StepBooks(q, Run(q, s, steps[..|steps| - 1]), steps[|steps| - 1], t);
    }
  }

  /** An outcome once booked is booked again by a later report exactly when that report is signed
      and comes from an authenticated session of the permit's agent.  So an outcome is booked once
      if and only if the agent makes no second such report. */
  lemma {:induction false} BookedAgainExactlyWhenReportedAgain(q: real -> real, s: Db, auth: AgentAuth, permit: nat,
                                                               pnl: real, later: seq<Step>, auth': AgentAuth,
                                                               signed: Result<()>, pnl': real)
    requires Linked(s) && LogsSound(s) && Accepted(s, auth, Ok(()), permit)
    ensures var booked := ReportOutcome(s, auth, Ok(()), permit, pnl).db;
            var now := Run(q, booked, later);
            && permit < |s.permits| <= |now.permits|
            && now.permits[permit].status == Consumed
            && (ReportOutcome(now, auth', signed, permit, pnl').result.Ok? <==>
                Authenticate(now, auth').Ok? && signed.Ok? && auth'.agent == s.permits[permit].agent)
  {
    hide Next, Linked, LogsSound, ReportOutcome, Authenticate, Accepted;
    AcceptedHasPermit(s, auth, Ok(()), permit);
    ReportIsBookedWhateverTheStatus(s, auth, Ok(()), permit, pnl);
    var booked := ReportOutcome(s, auth, Ok(()), permit, pnl).db;
    ReportingIsAStep(q, s, auth, permit, pnl);
    StepKeepsLinked(q, s, OnPermits(Outcome(auth, Ok(()), permit, pnl)));
    StepKeepsLogsSound(q, s, OnPermits(Outcome(auth, Ok(()), permit, pnl)));
    StepGrows(q, s, OnPermits(Outcome(auth, Ok(()), permit, pnl)));
    RunGrows(q, booked, later);
    RunsStayLinked(q, booked, later);
    LogsStaySound(q, booked, later);
    AcceptedWhenReachable(Run(q, booked, later), auth', signed, permit);
    ReportIsBookedWhateverTheStatus(Run(q, booked, later), auth', signed, permit, pnl');
  }

  lemma ReportingIsAStep(q: real -> real, s: Db, auth: AgentAuth, permit: nat, pnl: real)
    ensures Next(q, s, OnPermits(Outcome(auth, Ok(()), permit, pnl))) == ReportOutcome(s, auth, Ok(()), permit, pnl).db
  {
    hide ReportOutcome;
  }

  lemma {:induction false} RunsStayLinked(q: real -> real, s: Db, steps: seq<Step>)
    requires Linked(s)
    ensures Linked(Run(q, s, steps))
  {
    hide Next, Linked;
    if steps != [] {
      RunsStayLinked(q, s, steps[..|steps| - 1]);
      StepKeepsLinked(q, Run(q, s, steps[..|steps| - 1]), steps[|steps| - 1]);
    }
  }
}
