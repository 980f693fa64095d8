/** The event log: background writers that each lock, read the highest sequence number of a
    treasury, insert the next one and commit, interleaved in any order. */
module EventLog {

  /** Treasury identifiers are 128-bit numbers; the lock key keeps their low 63 bits, so two
      treasuries can share one. */
  function LockKey(treasury: nat): nat { treasury % 0x8000_0000_0000_0000 }

  datatype Row = Row(treasury: nat, sequence: nat)

  /** Where a writer is in its transaction. */
  datatype Phase =
    | Begun(treasury: nat)
    | Locked(treasury: nat)
    | HasRead(treasury: nat, next: nat)
    | HasInserted(treasury: nat, next: nat)
  {
    predicate HoldsLock() { !Begun? }
  }

  /** `rows`: committed rows in commit order; a pending insert is in its writer's phase. */
  datatype Log = Log(rows: seq<Row>, writers: map<nat, Phase>, locks: map<nat, nat>)

  datatype Action = Begin(treasury: nat) | Lock | ReadMax | Insert | Commit | Abort

  /** COALESCE(MAX(sequence), 0) over the committed rows of a treasury. */
  function MaxSequence(rows: seq<Row>, treasury: nat): nat {
    if rows == [] then 0
    else
      var before := MaxSequence(rows[..|rows| - 1], treasury);
      var last := rows[|rows| - 1];
      if last.treasury == treasury && last.sequence > before then last.sequence else before
  }

  /** The UNIQUE(treasury_id, sequence) index, which sees other writers' pending rows too. */
  predicate UniqueFires(log: Log, writer: nat)
    requires writer in log.writers && log.writers[writer].HasRead?
  {
    var me := log.writers[writer];
    || Row(me.treasury, me.next) in log.rows
    || exists w | w in log.writers && w != writer :: log.writers[w] == HasInserted(me.treasury, me.next)
  }

  function Release(log: Log, writer: nat): Log {
    log.(writers := log.writers - {writer},
         locks := map k | k in log.locks && log.locks[k] != writer :: log.locks[k])
  }

  /** One action of one writer; an action that is not the writer's next one, or that has to wait
      for a lock, changes nothing.  A unique violation aborts the transaction. */
  function Step(log: Log, writer: nat, action: Action): Log {
    if writer !in log.writers then
      if action.Begin? then log.(writers := log.writers[writer := Begun(action.treasury)]) else log
    else
      match (log.writers[writer], action)
      case (Begun(t), Lock) =>
        if LockKey(t) in log.locks then log
        else log.(writers := log.writers[writer := Locked(t)], locks := log.locks[LockKey(t) := writer])
      case (Locked(t), ReadMax) =>
        log.(writers := log.writers[writer := HasRead(t, MaxSequence(log.rows, t) + 1)])
      case (HasRead(t, next), Insert) =>
        if UniqueFires(log, writer) then Release(log, writer)
        else log.(writers := log.writers[writer := HasInserted(t, next)])
      case (HasInserted(t, next), Commit) => Release(log.(rows := log.rows + [Row(t, next)]), writer)
      case (_, Abort) => Release(log, writer)
      case _ => log
  }

  function Run(log: Log, actions: seq<(nat, Action)>): Log {
    if actions == [] then log
    else
      var n := |actions| - 1;
      Step(Run(log, actions[..n]), actions[n].0, actions[n].1)
  }

  /** The committed sequence numbers of a treasury, in commit order. */
  function Sequences(rows: seq<Row>, treasury: nat): seq<nat> {
    if rows == [] then []
    else
      var before := Sequences(rows[..|rows| - 1], treasury);
      var last := rows[|rows| - 1];
      if last.treasury == treasury then before + [last.sequence] else before
  }

  function OneTo(n: nat): (s: seq<nat>)
    ensures |s| == n && forall i | 0 <= i < n :: s[i] == i + 1
  {
    seq(n, i => i + 1)
  }

  ghost predicate Gapless(rows: seq<Row>) {
    forall t: nat :: Sequences(rows, t) == OneTo(|Sequences(rows, t)|)
  }

  /** Locks are held by exactly the writers past their lock, and a number read under the lock
      is still the next free one. */
  ghost predicate Inv(log: Log) {
    && Gapless(log.rows)
    && (forall k | k in log.locks :: log.locks[k] in log.writers && log.writers[log.locks[k]].HoldsLock()
                                     && LockKey(log.writers[log.locks[k]].treasury) == k)
    && (forall w | w in log.writers && log.writers[w].HoldsLock() ::
          LockKey(log.writers[w].treasury) in log.locks && log.locks[LockKey(log.writers[w].treasury)] == w)
    && (forall w | w in log.writers && (log.writers[w].HasRead? || log.writers[w].HasInserted?) ::
          log.writers[w].next == |Sequences(log.rows, log.writers[w].treasury)| + 1)
  }

  lemma {:induction false} MaxIsCount(rows: seq<Row>, treasury: nat)
    requires Sequences(rows, treasury) == OneTo(|Sequences(rows, treasury)|)
    ensures MaxSequence(rows, treasury) == |Sequences(rows, treasury)|
    decreases |rows|
  {
    if rows != [] {
      var before := rows[..|rows| - 1];
      var s := Sequences(rows, treasury);
      if rows[|rows| - 1].treasury == treasury {
        var b := Sequences(before, treasury);
        assert s == b + [rows[|rows| - 1].sequence];
        assert forall i | 0 <= i < |b| :: b[i] == s[i] == i + 1;
        assert b == OneTo(|b|);
        assert s[|b|] == |b| + 1;
      }
      MaxIsCount(before, treasury);
    }
  }

  lemma {:induction false} CommittedInSequences(rows: seq<Row>, r: Row)
    requires r in rows
    ensures r.sequence in Sequences(rows, r.treasury)
    decreases |rows|
  {
    if r != rows[|rows| - 1] {
      CommittedInSequences(rows[..|rows| - 1], r);
      var s := Sequences(rows[..|rows| - 1], r.treasury);
      var i :| 0 <= i < |s| && s[i] == r.sequence;
      assert Sequences(rows, r.treasury)[i] == r.sequence;
    } else {
      var s := Sequences(rows, r.treasury);
      assert s[|s| - 1] == r.sequence;
    }
  }

  /** In a state the invariant allows, no insert can meet the unique index. */
  lemma UniqueNeverFires(log: Log, writer: nat)
    requires Inv(log) && writer in log.writers && log.writers[writer].HasRead?
    ensures !UniqueFires(log, writer)
  {
    var me := log.writers[writer];
    if Row(me.treasury, me.next) in log.rows {
      CommittedInSequences(log.rows, Row(me.treasury, me.next));
    }
  }

  lemma CommitKeepsGapless(rows: seq<Row>, t: nat, next: nat)
    requires Gapless(rows) && next == |Sequences(rows, t)| + 1
    ensures Gapless(rows + [Row(t, next)])
    ensures forall u: nat :: Sequences(rows + [Row(t, next)], u) ==
                             if u == t then Sequences(rows, t) + [next] else Sequences(rows, u)
  {
    var rows' := rows + [Row(t, next)];
    assert rows'[..|rows|] == rows;
    forall u: nat
      ensures Sequences(rows', u) == OneTo(|Sequences(rows', u)|)
    {
      assert Sequences(rows, u) == OneTo(|Sequences(rows, u)|);
    }
  }

  /** Writers of one treasury are kept apart by its lock, so a commit leaves the numbers other
      writers have read correct. */
  lemma CommitKeepsInv(log: Log, writer: nat)
    requires Inv(log) && writer in log.writers && log.writers[writer].HasInserted?
    ensures Inv(Step(log, writer, Commit))
  {
    var me := log.writers[writer];
    CommitKeepsGapless(log.rows, me.treasury, me.next);
    forall w | w in log.writers && w != writer && log.writers[w].HoldsLock()
      ensures log.writers[w].treasury != me.treasury
    {
      assert log.locks[LockKey(me.treasury)] == writer;
    }
  }

  lemma InsertKeepsInv(log: Log, writer: nat)
    requires Inv(log) && writer in log.writers && log.writers[writer].HasRead?
    ensures Inv(Step(log, writer, Insert))
  {
    UniqueNeverFires(log, writer);
  }

  lemma ReadKeepsInv(log: Log, writer: nat)
    requires Inv(log) && writer in log.writers && log.writers[writer].Locked?
    ensures Inv(Step(log, writer, ReadMax))
  {
    MaxIsCount(log.rows, log.writers[writer].treasury);
  }

  lemma StepKeepsInv(log: Log, writer: nat, action: Action)
    requires Inv(log)
    ensures Inv(Step(log, writer, action))
  {
    if writer in log.writers {
      match (log.writers[writer], action)
      case (Locked(_), ReadMax) => ReadKeepsInv(log, writer);
      case (HasRead(_, _), Insert) => InsertKeepsInv(log, writer);
      case (HasInserted(_, _), Commit) => CommitKeepsInv(log, writer);
      case _ =>
    }
  }

  const EMPTY := Log([], map[], map[])

  lemma {:induction false} RunKeepsInv(actions: seq<(nat, Action)>)
    ensures Inv(Run(EMPTY, actions))
    decreases |actions|
  {
    if actions != [] {
      var n := |actions| - 1;
      RunKeepsInv(actions[..n]);
      StepKeepsInv(Run(EMPTY, actions[..n]), actions[n].0, actions[n].1);
    }
  }

  /** Whatever the interleaving, each treasury's committed numbers are 1, 2, ..., n in commit
      order, and an insert that is about to be made does not violate the unique index. */
  lemma EveryInterleavingIsGapless(actions: seq<(nat, Action)>, treasury: nat)
    ensures var log := Run(EMPTY, actions);
            && Sequences(log.rows, treasury) == OneTo(|Sequences(log.rows, treasury)|)
            && forall w | w in log.writers && log.writers[w].HasRead? :: !UniqueFires(log, w)
  {
    RunKeepsInv(actions);
    var log := Run(EMPTY, actions);
    forall w | w in log.writers && log.writers[w].HasRead?
      ensures !UniqueFires(log, w)
    {
      UniqueNeverFires(log, w);
    }
  }

  /** The log while `writer`, alone, has locked the treasury and is in `phase`. */
  function During(log: Log, writer: nat, phase: Phase): Log {
    Log(log.rows, log.writers[writer := phase], log.locks[LockKey(phase.treasury) := writer])
  }

  lemma OpeningActions(log: Log, writer: nat, treasury: nat)
    requires writer !in log.writers && LockKey(treasury) !in log.locks
    ensures Step(Step(Step(log, writer, Begin(treasury)), writer, Lock), writer, ReadMax) ==
            During(log, writer, HasRead(treasury, MaxSequence(log.rows, treasury) + 1))
  {
    var begun := Step(log, writer, Begin(treasury));
    var locked := Step(begun, writer, Lock);
    assert locked == During(log, writer, Locked(treasury));
  }

  lemma ClosingActions(log: Log, writer: nat, treasury: nat, next: nat)
    requires writer !in log.writers && LockKey(treasury) !in log.locks && writer !in log.locks.Values
    ensures Step(During(log, writer, HasInserted(treasury, next)), writer, Commit) ==
            log.(rows := log.rows + [Row(treasury, next)])
  {
    var committed := Step(During(log, writer, HasInserted(treasury, next)), writer, Commit);
    assert committed.writers == log.writers;
    assert committed.locks == log.locks;
  }

  lemma LockExcludes(log: Log, writer: nat, treasury: nat)
    requires Inv(log) && writer !in log.writers && LockKey(treasury) !in log.locks
    ensures var read := During(log, writer, HasRead(treasury, MaxSequence(log.rows, treasury) + 1));
            Inv(read) && !UniqueFires(read, writer)
  {
    MaxIsCount(log.rows, treasury);
    UniqueNeverFires(During(log, writer, HasRead(treasury, MaxSequence(log.rows, treasury) + 1)), writer);
  }

  lemma InsertWhenFree(log: Log, writer: nat, treasury: nat, next: nat)
    requires !UniqueFires(During(log, writer, HasRead(treasury, next)), writer)
    ensures Step(During(log, writer, HasRead(treasury, next)), writer, Insert) ==
            During(log, writer, HasInserted(treasury, next))
  {}

  /** A writer left alone, with its lock free, appends exactly the next row and leaves no trace
      of itself. */
  lemma UninterruptedWriter(log: Log, writer: nat, treasury: nat)
    requires Inv(log) && writer !in log.writers && LockKey(treasury) !in log.locks
    ensures var read := Step(Step(Step(log, writer, Begin(treasury)), writer, Lock), writer, ReadMax);
            Step(Step(read, writer, Insert), writer, Commit) ==
            log.(rows := log.rows + [Row(treasury, MaxSequence(log.rows, treasury) + 1)])
  {
    hide Step, During, UniqueFires;
    var next := MaxSequence(log.rows, treasury) + 1;
    OpeningActions(log, writer, treasury);
    LockExcludes(log, writer, treasury);
    InsertWhenFree(log, writer, treasury, next);
    ClosingActions(log, writer, treasury, next);
  }

  /** The table as one writer at a time sees it. */
  class EventTable {
    var rows: seq<Row>

    constructor ()
      ensures rows == [] && Gapless(rows)
    {
      rows := [];
      new;
      assert forall t: nat :: Sequences([], t) == OneTo(0);
    }

    method PersistTreasuryEvent(treasury: nat)
      requires Gapless(rows)
      modifies this
      ensures Gapless(rows)
      ensures rows == old(rows) + [Row(treasury, |Sequences(old(rows), treasury)| + 1)]
    {
      MaxIsCount(rows, treasury);
      var nextSequence := MaxSequence(rows, treasury) + 1;
      CommitKeepsGapless(rows, treasury, nextSequence);
      rows := rows + [Row(treasury, nextSequence)];
    }
  }
}
