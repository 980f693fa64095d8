/** Rows of the permit table: the sums and counts the engine reads from it, the bulk updates the
    handlers make, and the order in which a permit's status can move. */
module Permits {
  import opened Outcomes
  import opened Policy

  datatype PermitStatus = Active | Denied | Expired | Revoked | Failed | Consumed

  datatype Permit = Permit(group: nat, agent: nat, treasury: nat, wallet: string, asset: string,
                           requested: real, approved: real, status: PermitStatus, denyReason: Option<Reason>,
                           check: Option<nat>, expiresAt: int, pnl: Option<real>)

  // ----- SELECT SUM / COUNT ... WHERE status = 'ACTIVE' AND ... -----

  datatype Filter =
    | OfAgent(agent: nat, wallet: string)
    | OnWallet(treasury: nat, wallet: string)
    | OfTreasury(treasury: nat)

  predicate Matches(f: Filter, p: Permit) {
    && p.status == Active
    && match f
       case OfAgent(a, w) => p.agent == a && p.wallet == w
       case OnWallet(t, w) => p.treasury == t && p.wallet == w
       case OfTreasury(t) => p.treasury == t
  }

  function Reserved(ps: seq<Permit>, f: Filter): real {
    if ps == [] then 0.0
    else
      var last := ps[|ps| - 1];
      Reserved(ps[..|ps| - 1], f) + if Matches(f, last) then last.approved else 0.0
  }

  function Count(ps: seq<Permit>, f: Filter): nat {
    if ps == [] then 0
    else Count(ps[..|ps| - 1], f) + if Matches(f, ps[|ps| - 1]) then 1 else 0
  }

  lemma Appended(ps: seq<Permit>, p: Permit, f: Filter)
    ensures Reserved(ps + [p], f) == Reserved(ps, f) + if Matches(f, p) then p.approved else 0.0
    ensures Count(ps + [p], f) == Count(ps, f) + if Matches(f, p) then 1 else 0
  {
    assert (ps + [p])[..|ps|] == ps;
  }

  predicate NoneMatch(ps: seq<Permit>, f: Filter) {
    forall i | 0 <= i < |ps| :: !Matches(f, ps[i])
  }

  lemma {:induction false} NoneMatchMeansZero(ps: seq<Permit>, f: Filter)
    ensures NoneMatch(ps, f) ==> Reserved(ps, f) == 0.0
    ensures NoneMatch(ps, f) <==> Count(ps, f) == 0
  {
    if ps != [] {
      NoneMatchMeansZero(ps[..|ps| - 1], f);
      if NoneMatch(ps[..|ps| - 1], f) && !Matches(f, ps[|ps| - 1]) {
        assert forall i | 0 <= i < |ps| :: i == |ps| - 1 || ps[i] == ps[..|ps| - 1][i];
      }
    }
  }

  predicate NonNegative(ps: seq<Permit>) {
    forall i | 0 <= i < |ps| :: ps[i].approved >= 0.0
  }

  // ----- Status moves -----

  /** 0 while the permit holds a reservation, 1 once it is settled some other way than by use,
      2 once it is used. */
  function Rank(s: PermitStatus): nat {
    match s
    case Active => 0
    case Consumed => 2
    case _ => 1
  }

  predicate SameGrant(p: Permit, q: Permit) {
    && p.group == q.group && p.agent == q.agent && p.treasury == q.treasury && p.wallet == q.wallet
    && p.asset == q.asset && p.requested == q.requested && p.approved == q.approved
    && p.check == q.check && p.expiresAt == q.expiresAt
  }

  predicate Moves(p: Permit, q: Permit) {
    SameGrant(p, q) && (p.status == q.status || Rank(p.status) < Rank(q.status))
  }

  /** Every permit stayed or moved up; none was added or lost. */
  predicate Advanced(ps: seq<Permit>, ps': seq<Permit>) {
    |ps| == |ps'| && forall i | 0 <= i < |ps| :: Moves(ps[i], ps'[i])
  }

  lemma {:induction false} AdvancingFrees(ps: seq<Permit>, ps': seq<Permit>, f: Filter)
    requires Advanced(ps, ps')
    ensures Count(ps', f) <= Count(ps, f)
    ensures NonNegative(ps) ==> Reserved(ps', f) <= Reserved(ps, f)
  {
    if ps != [] {
      var n := |ps| - 1;
      AdvancingFrees(ps[..n], ps'[..n], f);
      assert Moves(ps[n], ps'[n]);
    }
  }

  // ----- UPDATE permits SET status = ... WHERE status = 'ACTIVE' AND ... -----

  datatype Selection =
    | InTreasury(treasury: nat)
    | OfSlot(treasury: nat, agent: nat)
    | PastExpiry(now: int)

  predicate Selects(s: Selection, p: Permit) {
    && p.status == Active
    && match s
       case InTreasury(t) => p.treasury == t
       case OfSlot(t, a) => p.treasury == t && p.agent == a
       case PastExpiry(now) => p.expiresAt < now
  }

  function Settle(ps: seq<Permit>, s: Selection, status: PermitStatus): (ps': seq<Permit>)
    requires Rank(status) > 0
    ensures Advanced(ps, ps')
    ensures forall i | 0 <= i < |ps| ::
              ps'[i] == if Selects(s, ps[i]) then ps[i].(status := status) else ps[i]
  {
    seq(|ps|, i requires 0 <= i < |ps| => if Selects(s, ps[i]) then ps[i].(status := status) else ps[i])
  }

  /** After settling a selection nothing in it is active. */
  lemma SettledIsEmpty(ps: seq<Permit>, s: Selection, status: PermitStatus)
    requires Rank(status) > 0
    ensures forall i | 0 <= i < |ps| :: !Selects(s, Settle(ps, s, status)[i])
  {}

  /** Storing an amount may round it.  `eps` bounds the error, and what is not negative stays so. */
  ghost predicate Rounds(q: real -> real, eps: real) {
    && eps >= 0.0
    && forall x :: x - eps <= q(x) <= x + eps && (x >= 0.0 ==> q(x) >= 0.0)
  }

  function Exact(x: real): real { x }

  /** NUMERIC(20,7): seven decimal places, halves away from zero. */
  function Numeric7(x: real): real {
    if x >= 0.0 then (x * 10000000.0 + 0.5).Floor as real / 10000000.0
    else -((-x * 10000000.0 + 0.5).Floor as real / 10000000.0)
  }

  lemma ExactRoundsByNothing()
    ensures Rounds(Exact, 0.0)
  {}

  function Abs(x: real): real { if x < 0.0 then -x else x }

  /** `n` is no nearer to `units` than `k`, and when as near no farther from zero. */
  predicate NoNearer(n: int, k: int, units: real) {
    && Abs(k as real - units) <= Abs(n as real - units)
    && (Abs(k as real - units) == Abs(n as real - units) ==> Abs(n as real) <= Abs(k as real))
  }

  /** `k` is the integer nearest to `units`, of two equally near the one farther from zero. */
  ghost predicate Nearest(k: int, units: real) { forall n: int :: NoNearer(n, k, units) }

  lemma NearestAboveZero(units: real)
    requires units >= 0.0
    ensures Nearest((units + 0.5).Floor, units)
  {
    var k := (units + 0.5).Floor;
    forall n: int ensures NoNearer(n, k, units) {
      assert n >= k + 1 || n == k || n <= k - 1;
    }
  }

  lemma NearestMirrors(k: int, units: real)
    requires Nearest(k, units)
    ensures Nearest(-k, -units)
  {
    var mirrored, at := -k, -units;
    forall n: int ensures NoNearer(n, mirrored, at) {
      assert NoNearer(-n, k, units);
    }
  }

  /** The stored amount is the nearest whole number of units of 1e-7. */
  lemma Numeric7IsNearest(x: real) returns (k: int)
    ensures Numeric7(x) == k as real / 10000000.0 && Nearest(k, x * 10000000.0)
  {
    hide Nearest;
    if x >= 0.0 {
      k := (x * 10000000.0 + 0.5).Floor;
      NearestAboveZero(x * 10000000.0);
    } else {
      k := -((-x * 10000000.0 + 0.5).Floor);
      NearestAboveZero(-x * 10000000.0);
      NearestMirrors(-k, -x * 10000000.0);
      assert -(-x * 10000000.0) == x * 10000000.0;
    }
  }

  lemma Numeric7RoundsByHalfAUnit()
    ensures Rounds(Numeric7, 0.00000005)
  {}
}
