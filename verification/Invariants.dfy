/** The invariants of the coordinator together: what every state a service passes through satisfies. */
module Invariants {
  import opened Store
  import opened System
  import opened ConstitutionLog
  import opened Lifecycle
  import opened AgentKeys
  import opened Voting

  ghost predicate Good(s: Db) {
    Sane(s) && LogsSound(s) && KeysSound(s) && OneOpen(s)
  }

  lemma EmptyIsGood(now: int)
    ensures Good(Empty(now))
  {}

  lemma StepKeepsGood(q: real -> real, s: Db, step: Step)
    requires Good(s)
    ensures Good(Next(q, s, step))
  {
    hide Next, Linked, CountsFit, HaltedIsIdle, LogsSound, KeysSound, OneOpen;
    StepKeepsLinked(q, s, step);
    StepKeepsCounts(q, s, step);
    StepKeepsHaltedIdle(q, s, step);
    StepKeepsLogsSound(q, s, step);
    StepKeepsKeysSound(q, s, step);
    StepKeepsOneOpen(q, s, step);
  }

  /** Every reachable state satisfies all of them. */
  lemma {:induction false} RunsStayGood(q: real -> real, s: Db, steps: seq<Step>)
    requires Good(s)
    ensures Good(Run(q, s, steps))
  {
    hide Next, Good;
    if steps != [] {
      RunsStayGood(q, s, steps[..|steps| - 1]);
      StepKeepsGood(q, Run(q, s, steps[..|steps| - 1]), steps[|steps| - 1]);
    }
  }

  lemma GoodLogs(s: Db)
    requires Good(s)
    ensures LogsSound(s)
  {}

  lemma GoodHaltedIsIdle(s: Db)
    requires Good(s)
    ensures HaltedIsIdle(s)
  {}

  lemma GoodKeys(s: Db)
    requires Good(s)
    ensures KeysSound(s)
  {}

  // ----- Request by request -----

  lemma PermitOpsKeepGood(q: real -> real, s: Db, op: PermitOp)
    requires Good(s)
    ensures Good(PermitNext(q, s, op))
  {
    hide Good, PermitNext, GovernanceNext, AgentNext;
    StepKeepsGood(q, s, OnPermits(op));
  }

  lemma GovernanceOpsKeepGood(s: Db, op: GovernanceOp)
    requires Good(s)
    ensures Good(GovernanceNext(s, op))
  {
    hide Good, PermitNext, GovernanceNext, AgentNext;
    StepKeepsGood(x => x, s, OnGovernance(op));
  }

  lemma AgentOpsKeepGood(s: Db, op: AgentOp)
    requires Good(s)
    ensures Good(AgentNext(s, op))
  {
    hide Good, PermitNext, GovernanceNext, AgentNext;
    StepKeepsGood(x => x, s, OnAgents(op));
  }
}
