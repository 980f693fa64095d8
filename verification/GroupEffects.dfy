/** What a committed group does to the permits: the same as its legs issued one by one in wallet
    order, and on a single wallet a total that no order of the legs can change. */
module GroupEffects {
  import opened Outcomes
  import opened Policy
  import opened Permits
  import opened Store
  import opened PermitHandlers
  import Lex

  // ----- The order legs are taken in -----

  predicate ByWallet(legs: seq<PermitRequest>) {
    forall i, j | 0 <= i < j < |legs| :: Lex.Leq(legs[i].wallet, legs[j].wallet)
  }

  function LegsOn(legs: seq<PermitRequest>, w: string): seq<PermitRequest> {
    if legs == [] then []
    else (if legs[0].wallet == w then [legs[0]] else []) + LegsOn(legs[1..], w)
  }

  lemma {:induction false} InsertKeepsOrder(leg: PermitRequest, legs: seq<PermitRequest>)
    requires ByWallet(legs)
    ensures ByWallet(InsertLeg(leg, legs))
  {
    var r := InsertLeg(leg, legs);
    if legs == [] {
    } else if !Lex.Leq(legs[0].wallet, leg.wallet) {
      Lex.Total(legs[0].wallet, leg.wallet);
      assert r == [leg] + legs;
      forall j | 0 <= j < |legs| ensures Lex.Leq(leg.wallet, legs[j].wallet) {
        if j > 0 {
          Lex.Transitive(leg.wallet, legs[0].wallet, legs[j].wallet);
        }
      }
    } else {
      var tail := InsertLeg(leg, legs[1..]);
      InsertKeepsOrder(leg, legs[1..]);
      assert r == [legs[0]] + tail;
      forall j | 0 <= j < |tail| ensures Lex.Leq(legs[0].wallet, tail[j].wallet) {
        InsertedFrom(leg, legs[1..], j);
      }
    }
  }

  lemma InsertedFrom(leg: PermitRequest, legs: seq<PermitRequest>, j: nat)
    requires j < |InsertLeg(leg, legs)|
    ensures InsertLeg(leg, legs)[j] == leg || exists i | 0 <= i < |legs| :: legs[i] == InsertLeg(leg, legs)[j]
  {
    var r := InsertLeg(leg, legs);
    hide InsertLeg;
    assert r[j] in multiset(r);
    if r[j] != leg {
      assert r[j] in legs;
    }
  }

  lemma {:induction false} InsertGoesLast(leg: PermitRequest, legs: seq<PermitRequest>, w: string)
    requires ByWallet(legs)
    ensures LegsOn(InsertLeg(leg, legs), w) == LegsOn(legs, w) + if leg.wallet == w then [leg] else []
  {
    var r := InsertLeg(leg, legs);
    if legs == [] {
      assert r[1..] == [];
    } else if !Lex.Leq(legs[0].wallet, leg.wallet) {
      Lex.Total(legs[0].wallet, leg.wallet);
      assert r[1..] == legs;
      if leg.wallet == w {
        NoLegsAbove(legs, w);
      }
    } else {
      InsertGoesLast(leg, legs[1..], w);
      assert r[0] == legs[0] && r[1..] == InsertLeg(leg, legs[1..]);
    }
  }

  lemma {:induction false} NoLegsAbove(legs: seq<PermitRequest>, w: string)
    requires ByWallet(legs) && (legs != [] ==> Lex.Leq(w, legs[0].wallet) && legs[0].wallet != w)
    ensures LegsOn(legs, w) == []
  {
    if legs != [] {
      if |legs| > 1 {
        assert Lex.Leq(legs[0].wallet, legs[1].wallet);
        Lex.Transitive(w, legs[0].wallet, legs[1].wallet);
        if legs[1].wallet == w {
          Lex.Antisymmetric(w, legs[0].wallet);
        }
      }
      NoLegsAbove(legs[1..], w);
    }
  }

  lemma {:induction false} LegsOnAppend(legs: seq<PermitRequest>, leg: PermitRequest, w: string)
    ensures LegsOn(legs + [leg], w) == LegsOn(legs, w) + if leg.wallet == w then [leg] else []
  {
    if legs == [] {
      assert [leg][1..] == [];
    } else {
      LegsOnAppend(legs[1..], leg, w);
      assert (legs + [leg])[1..] == legs[1..] + [leg];
    }
  }

  lemma {:induction false} SortedByWallet(legs: seq<PermitRequest>)
    ensures ByWallet(SortLegs(legs))
  {
    hide InsertLeg;
    if legs != [] {
      SortedByWallet(legs[..|legs| - 1]);
      InsertKeepsOrder(legs[|legs| - 1], SortLegs(legs[..|legs| - 1]));
    }
  }

  lemma {:induction false} SortKeepsWalletOrder(legs: seq<PermitRequest>, w: string)
    ensures LegsOn(SortLegs(legs), w) == LegsOn(legs, w)
  {
    hide InsertLeg, LegsOn, ByWallet;
    if legs != [] {
      var n := |legs| - 1;
      SortKeepsWalletOrder(legs[..n], w);
      SortedByWallet(legs[..n]);
      InsertGoesLast(legs[n], SortLegs(legs[..n]), w);
      LegsOnAppend(legs[..n], legs[n], w);
      assert legs[..n] + [legs[n]] == legs;
    }
  }

  /** The legs are taken by wallet, those of one wallet in the order given: a stable sort. */
  lemma {:induction false} SortIsStable(legs: seq<PermitRequest>)
    ensures ByWallet(SortLegs(legs)) && multiset(SortLegs(legs)) == multiset(legs)
    ensures forall w :: LegsOn(SortLegs(legs), w) == LegsOn(legs, w)
  {
    SortedByWallet(legs);
    forall w ensures LegsOn(SortLegs(legs), w) == LegsOn(legs, w) {
      SortKeepsWalletOrder(legs, w);
    }
  }

  // ----- A group is its legs issued one by one -----

  predicate SameButGroup(ps: seq<Permit>, ps': seq<Permit>) {
    |ps| == |ps'| && forall i | 0 <= i < |ps| :: ps[i].(group := 0) == ps'[i].(group := 0)
  }

  lemma {:induction false} SameSums(ps: seq<Permit>, ps': seq<Permit>, f: Filter)
    requires SameButGroup(ps, ps')
    ensures Reserved(ps, f) == Reserved(ps', f) && Count(ps, f) == Count(ps', f)
  {
    if ps != [] {
      var n := |ps| - 1;
      assert ps[n].(group := 0) == ps'[n].(group := 0);
      SameSums(ps[..n], ps'[..n], f);
    }
  }

  predicate Alike(d: Db, e: Db) {
    d.now == e.now && d.agents == e.agents && d.treasuries == e.treasuries && SameButGroup(d.permits, e.permits)
  }

  lemma AlikeAreJudgedAlike(q: real -> real, d: Db, e: Db, request: PermitRequest, g: nat, h: nat)
    requires Alike(d, e)
    ensures ProcessSinglePermit(q, d, request, g).Ok? <==> ProcessSinglePermit(q, e, request, h).Ok?
    ensures ProcessSinglePermit(q, d, request, g).Ok? ==>
              var x, y := ProcessSinglePermit(q, d, request, g).value, ProcessSinglePermit(q, e, request, h).value;
              x.verdict == y.verdict && Alike(x.db, y.db)
  {
    hide Verdict, RulesInForce;
    assert RuleFor(d, request) == RuleFor(e, request);
    SameSums(d.permits, e.permits, OfAgent(request.agent, request.wallet));
    SameSums(d.permits, e.permits, OfTreasury(request.treasury));
  }

  /** One leg as the grant of a single request, by the agent it names. */
  lemma LegIsASingle(q: real -> real, d: Db, e: Db, leg: PermitRequest, g: nat)
    requires Alike(d, e) && ProcessSinglePermit(q, d, leg, g).Ok?
    ensures var x := ProcessSinglePermit(q, d, leg, g).value;
            var r := IssueSingle(q, e, AgentAuth(leg.agent, leg.treasury), leg, GroupActive);
            r.result.Ok? && r.result.value.0 == x.verdict && Alike(x.db, r.db)
  {
    hide ProcessSinglePermit;
    var opened' := OpenGroup(e, AgentAuth(leg.agent, leg.treasury), true, leg.amount);
    AlikeAreJudgedAlike(q, d, opened', leg, g, |e.groups|);
  }

  datatype Issued = Issued(db: Db, verdicts: seq<PolicyResult>)

  /** The legs granted as single requests, one after the other, up to the first that fails. */
  function OneByOne(q: real -> real, s: Db, legs: seq<PermitRequest>): Result<Issued> {
    if legs == [] then Ok(Issued(s, []))
    else
      var leg := legs[|legs| - 1];
      match OneByOne(q, s, legs[..|legs| - 1])
      case Err(e) => Err(e)
      case Ok(before) =>
        var r := IssueSingle(q, before.db, AgentAuth(leg.agent, leg.treasury), leg, GroupActive);
        if r.result.Err? then Err(r.result.error) else Ok(Issued(r.db, before.verdicts + [r.result.value.0]))
  }

  lemma {:induction false} LegsAreSingles(q: real -> real, d: Db, s: Db, legs: seq<PermitRequest>, g: nat)
    requires Alike(d, s) && ProcessLegs(q, d, legs, g).Ok?
    ensures var done, issued := ProcessLegs(q, d, legs, g).value, OneByOne(q, s, legs);
            issued.Ok? && issued.value.verdicts == done.results && Alike(done.db, issued.value.db)
  {
    hide ProcessSinglePermit, IssueSingle, SameButGroup;
    if legs != [] {
      var n := |legs| - 1;
      LegsAreSingles(q, d, s, legs[..n], g);
      var before, issued := ProcessLegs(q, d, legs[..n], g).value, OneByOne(q, s, legs[..n]).value;
      LegIsASingle(q, before.db, issued.db, legs[n], g);
    }
  }

  /** A group that fails on no leg and need not grant all has the verdicts and, up to the group
      they are filed under, the permits of its legs granted singly in wallet order. */
  lemma GroupIsItsLegsOneByOne(q: real -> real, s: Db, auth: AgentAuth, signed: Result<()>, legs: seq<PermitRequest>)
    requires RequestPermitGroup(q, s, auth, signed, auth, legs, false).result.Ok?
    ensures var r, issued := RequestPermitGroup(q, s, auth, signed, auth, legs, false), OneByOne(q, s, SortLegs(legs));
            issued.Ok? && issued.value.verdicts == r.result.value && SameButGroup(r.db.permits, issued.value.db.permits)
  {
    hide ProcessLegs, OneByOne, SortLegs, Authenticate, TotalApproved;
    LegsAreSingles(q, OpenGroup(s, auth, false, 0.0), s, SortLegs(legs), |s.groups|);
  }

  // ----- The session guard of single requests -----

  /** The legs asked for in requests of their own, each in a session of the agent it names. */
  function AskedOneByOne(q: real -> real, s: Db, legs: seq<PermitRequest>): Result<Issued> {
    if legs == [] then Ok(Issued(s, []))
    else
      var leg := legs[|legs| - 1];
      match AskedOneByOne(q, s, legs[..|legs| - 1])
      case Err(e) => Err(e)
      case Ok(before) =>
        var r := RequestPermit(q, before.db, AgentAuth(leg.agent, leg.treasury), Ok(()), leg);
        if r.result.Err? then Err(r.result.error) else Ok(Issued(r.db, before.verdicts + [r.result.value.0]))
  }

  predicate AllAuthenticate(s: Db, legs: seq<PermitRequest>) {
    forall i | 0 <= i < |legs| :: Authenticate(s, AgentAuth(legs[i].agent, legs[i].treasury)).Ok?
  }

  lemma SameSlotsSameAuth(s: Db, s': Db, auth: AgentAuth)
    requires s.agents == s'.agents
    ensures Authenticate(s, auth) == Authenticate(s', auth)
  {}

  lemma {:induction false} GrantsKeepSlots(q: real -> real, s: Db, legs: seq<PermitRequest>)
    requires OneByOne(q, s, legs).Ok?
    ensures OneByOne(q, s, legs).value.db.agents == s.agents
  {
    hide ProcessSinglePermit;
    if legs != [] {
      GrantsKeepSlots(q, s, legs[..|legs| - 1]);
    }
  }

  /** Asked for in sessions, the legs are granted the same exactly when every agent they name passes
      the session guard, which a group puts to its own agent only. */
  lemma {:induction false} AskedIsGrantedExactlyWhenAllAuthenticate(q: real -> real, s: Db, legs: seq<PermitRequest>)
    requires OneByOne(q, s, legs).Ok?
    ensures AskedOneByOne(q, s, legs).Ok? <==> AllAuthenticate(s, legs)
    ensures AskedOneByOne(q, s, legs).Ok? ==> AskedOneByOne(q, s, legs) == OneByOne(q, s, legs)
  {
    hide IssueSingle, Authenticate;
    if legs != [] {
      var n := |legs| - 1;
      AskedIsGrantedExactlyWhenAllAuthenticate(q, s, legs[..n]);
      GrantsKeepSlots(q, s, legs[..n]);
      var auth := AgentAuth(legs[n].agent, legs[n].treasury);
      SameSlotsSameAuth(s, OneByOne(q, s, legs[..n]).value.db, auth);
      assert AllAuthenticate(s, legs) <==> AllAuthenticate(s, legs[..n]) && Authenticate(s, auth).Ok? by {
        assert forall i | 0 <= i < n :: legs[..n][i] == legs[i];
      }
    }
  }

  // ----- The total on one wallet -----

  predicate AllOn(legs: seq<PermitRequest>, a: nat, t: nat, w: string) {
    forall i | 0 <= i < |legs| :: legs[i].agent == a && legs[i].treasury == t && legs[i].wallet == w
      && legs[i].amount >= 0.0
  }

  /** What the legs would get under the tier limit alone. */
  function TierTotal(legs: seq<PermitRequest>, tier: real): real {
    if legs == [] then 0.0 else TierTotal(legs[..|legs| - 1], tier) + Min(legs[|legs| - 1].amount, tier)
  }

  /** The agent's case on the wallet, for no amount. */
  function Plain(s: Db, a: nat, t: nat, w: string): Case
    requires RuleFor(s, PermitRequest(a, t, w, "", 0.0)).Ok?
  {
    var (rule, rules) := RuleFor(s, PermitRequest(a, t, w, "", 0.0)).value;
    CaseFor(s, PermitRequest(a, t, w, "", 0.0), rule, rules)
  }

  /** Only the headroom can bind: no other rule stands in the way, with slots for `n` more permits. */
  predicate OnlyHeadroomBinds(s: Db, a: nat, t: nat, w: string, n: nat) {
    && RuleFor(s, PermitRequest(a, t, w, "", 0.0)).Ok?
    && var c := Plain(s, a, t, w);
       && !Violates(1, c) && !Violates(2, c) && !Violates(4, c) && !Violates(8, c)
       && c.access.tierLimit >= 0.0
       && Count(s.permits, OfAgent(a, w)) + n <= c.access.permitCap
       && Count(s.permits, OfTreasury(t)) + n <= c.rules.maxConcurrentPermits
  }

  /** What the legs so far have done: granted `total` on top of what was held, with `used` slots. */
  predicate Progress(s: Db, d: Db, a: nat, t: nat, w: string, total: real, used: nat) {
    && d == s.(permits := d.permits, groups := d.groups)
    && Reserved(d.permits, OfAgent(a, w)) == Reserved(s.permits, OfAgent(a, w)) + total
    && Count(d.permits, OfAgent(a, w)) <= Count(s.permits, OfAgent(a, w)) + used
    && Count(d.permits, OfTreasury(t)) <= Count(s.permits, OfTreasury(t)) + used
  }

  lemma LegVerdict(s: Db, d: Db, leg: PermitRequest, total: real, used: nat, n: nat)
    requires OnlyHeadroomBinds(s, leg.agent, leg.treasury, leg.wallet, n) && used < n
    requires Progress(s, d, leg.agent, leg.treasury, leg.wallet, total, used) && leg.amount >= 0.0
    ensures RuleFor(d, leg).Ok?
    ensures var (rule, rules) := RuleFor(d, leg).value;
            var c := Plain(s, leg.agent, leg.treasury, leg.wallet);
            var v := Verdict(CaseFor(d, leg, rule, rules));
            if total >= Headroom(c) then !v.approved && v.amount == 0.0
            else v.approved && v.amount == Min(leg.amount, Min(Headroom(c) - total, c.access.tierLimit))
  {
    hide RulesInForce, DrawdownReached;
    assert RuleFor(d, leg) == RuleFor(s, PermitRequest(leg.agent, leg.treasury, leg.wallet, "", 0.0));
    var (rule, rules) := RuleFor(d, leg).value;
    var c, c0 := CaseFor(d, leg, rule, rules), Plain(s, leg.agent, leg.treasury, leg.wallet);
    assert Violates(4, c) <==> total >= Headroom(c0);
    assert forall k | 1 <= k <= 8 && k != 4 :: !Violates(k, c);
  }

  lemma LegProgress(s: Db, d: Db, leg: PermitRequest, g: nat, total: real, used: nat, n: nat)
    requires OnlyHeadroomBinds(s, leg.agent, leg.treasury, leg.wallet, n) && used < n
    requires Progress(s, d, leg.agent, leg.treasury, leg.wallet, total, used) && leg.amount >= 0.0
    ensures ProcessSinglePermit(Exact, d, leg, g).Ok?
    ensures var r := ProcessSinglePermit(Exact, d, leg, g).value;
            var c := Plain(s, leg.agent, leg.treasury, leg.wallet);
            && r.verdict.amount == (if total >= Headroom(c) then 0.0
                                    else Min(leg.amount, Min(Headroom(c) - total, c.access.tierLimit)))
            && Progress(s, r.db, leg.agent, leg.treasury, leg.wallet, total + r.verdict.amount, used + 1)
  {
    hide RuleFor, Verdict, CaseFor, OnlyHeadroomBinds, Plain, Headroom;
    LegVerdict(s, d, leg, total, used, n);
    var r := ProcessSinglePermit(Exact, d, leg, g).value;
    var p := r.db.permits[|d.permits|];
    assert r.db.permits == d.permits + [p];
    Appended(d.permits, p, OfAgent(leg.agent, leg.wallet));
    Appended(d.permits, p, OfTreasury(leg.treasury));
  }

  lemma {:induction false} TierTotalIsNonNegative(legs: seq<PermitRequest>, a: nat, t: nat, w: string, tier: real)
    requires AllOn(legs, a, t, w) && tier >= 0.0
    ensures TierTotal(legs, tier) >= 0.0
  {
    if legs != [] {
      TierTotalIsNonNegative(legs[..|legs| - 1], a, t, w, tier);
    }
  }

  lemma FillStep(headroom: real, tier: real, wanted: real, amount: real)
    requires headroom > 0.0 && tier >= 0.0 && wanted >= 0.0 && amount >= 0.0
    ensures var total := Min(headroom, wanted);
            total + (if total >= headroom then 0.0 else Min(amount, Min(headroom - total, tier))) ==
            Min(headroom, wanted + Min(amount, tier))
  {}

  lemma BindingFacts(s: Db, a: nat, t: nat, w: string, n: nat)
    requires OnlyHeadroomBinds(s, a, t, w, n)
    ensures RuleFor(s, PermitRequest(a, t, w, "", 0.0)).Ok?
    ensures Headroom(Plain(s, a, t, w)) > 0.0 && Plain(s, a, t, w).access.tierLimit >= 0.0
  {}

  /** After any number of legs the loop has granted the smaller of the headroom and what the tier
      limit alone would have granted, although single legs may be cut down or denied. */
  lemma {:induction false} LegsFillTheHeadroom(s: Db, d: Db, legs: seq<PermitRequest>, g: nat, a: nat, t: nat,
                                               w: string, n: nat)
    requires d == s.(groups := d.groups) && AllOn(legs, a, t, w) && |legs| <= n && OnlyHeadroomBinds(s, a, t, w, n)
    ensures ProcessLegs(Exact, d, legs, g).Ok?
    ensures var done, c := ProcessLegs(Exact, d, legs, g).value, Plain(s, a, t, w);
            && TotalApproved(done.results) == Min(Headroom(c), TierTotal(legs, c.access.tierLimit))
            && Progress(s, done.db, a, t, w, TotalApproved(done.results), |legs|)
  {
    hide OnlyHeadroomBinds, Plain, Headroom, ProcessSinglePermit, Progress, RuleFor, Min;
    BindingFacts(s, a, t, w, n);
    var c := Plain(s, a, t, w);
    if legs == [] {
      NoProgress(s, d, a, t, w);
      ZeroIsLess(Headroom(c));
    } else {
      var k := |legs| - 1;
      LegsFillTheHeadroom(s, d, legs[..k], g, a, t, w, n);
      TierTotalIsNonNegative(legs[..k], a, t, w, c.access.tierLimit);
      var before := ProcessLegs(Exact, d, legs[..k], g).value;
      LegProgress(s, before.db, legs[k], g, TotalApproved(before.results), k, n);
      FillStep(Headroom(c), c.access.tierLimit, TierTotal(legs[..k], c.access.tierLimit), legs[k].amount);
      var done := ProcessLegs(Exact, d, legs, g).value;
      assert done.results == before.results + [done.results[k]] && done.results[..k] == before.results;
    }
  }

  lemma ZeroIsLess(x: real)
    requires x > 0.0
    ensures Min(x, 0.0) == 0.0
  {}

  lemma NoProgress(s: Db, d: Db, a: nat, t: nat, w: string)
    requires d == s.(groups := d.groups)
    ensures Progress(s, d, a, t, w, 0.0, 0)
  {}

  // ----- No order of the legs can change it -----

  lemma {:induction false} TierTotalConcat(x: seq<PermitRequest>, y: seq<PermitRequest>, tier: real)
    ensures TierTotal(x + y, tier) == TierTotal(x, tier) + TierTotal(y, tier)
  {
    if y == [] {
      assert x + y == x;
    } else {
      TierTotalConcat(x, y[..|y| - 1], tier);
      assert (x + y)[..|x + y| - 1] == x + y[..|y| - 1];
    }
  }

  function Without(y: seq<PermitRequest>, i: nat): seq<PermitRequest>
    requires i < |y|
  {
    y[..i] + y[i + 1..]
  }

  lemma WithoutIs(y: seq<PermitRequest>, i: nat)
    requires i < |y|
    ensures multiset(y) == multiset(Without(y, i)) + multiset{y[i]}
  {
    assert y == y[..i] + [y[i]] + y[i + 1..];
  }

  lemma WithoutOne(x: seq<PermitRequest>, y: seq<PermitRequest>) returns (i: nat)
    requires x != [] && multiset(x) == multiset(y)
    ensures i < |y| && y[i] == x[|x| - 1] && multiset(x[..|x| - 1]) == multiset(Without(y, i))
  {
    var n := |x| - 1;
    assert x == x[..n] + [x[n]];
    assert multiset(x) == multiset(x[..n]) + multiset{x[n]};
    assert x[n] in multiset(y);
    i :| 0 <= i < |y| && y[i] == x[n];
    WithoutIs(y, i);
    hide Without;
    assert multiset(Without(y, i)) == multiset(y) - multiset{x[n]};
    assert multiset(x[..n]) == multiset(x) - multiset{x[n]};
  }

  lemma TierTotalWithout(y: seq<PermitRequest>, i: nat, tier: real)
    requires i < |y|
    ensures TierTotal(y, tier) == TierTotal(Without(y, i), tier) + Min(y[i].amount, tier)
  {
    TierTotalConcat(y[..i], y[i + 1..], tier);
    TierTotalConcat(y[..i + 1], y[i + 1..], tier);
    assert y == y[..i + 1] + y[i + 1..];
    assert y[..i + 1][..i] == y[..i];
  }

  lemma {:induction false} TierTotalOfPermutation(x: seq<PermitRequest>, y: seq<PermitRequest>, tier: real)
    requires multiset(x) == multiset(y)
    ensures TierTotal(x, tier) == TierTotal(y, tier)
    decreases |x|
  {
    hide Without, Min;
    if x == [] {
      assert |y| == |multiset(y)|;
    } else {
      var i := WithoutOne(x, y);
      TierTotalOfPermutation(x[..|x| - 1], Without(y, i), tier);
      TierTotalWithout(y, i, tier);
    }
  }

  /** The total a group on one wallet records: the headroom, or what the tier limit leaves of the
      requests if that is less. */
  lemma GroupTotalIsClosedForm(s: Db, auth: AgentAuth, group: AgentAuth, legs: seq<PermitRequest>, requireAll: bool,
                               a: nat, t: nat, w: string)
    requires Authenticate(s, auth).Ok? && group == auth
    requires AllOn(legs, a, t, w) && OnlyHeadroomBinds(s, a, t, w, |legs|)
    ensures var r, c := RequestPermitGroup(Exact, s, auth, Ok(()), group, legs, requireAll), Plain(s, a, t, w);
            && r.result.Ok?
            && (r.db == s ==> requireAll)
            && (r.db != s ==> |r.db.groups| == |s.groups| + 1
                              && r.db.groups[|s.groups|].totalApproved == TotalApproved(r.result.value)
                                 == Min(Headroom(c), TierTotal(legs, c.access.tierLimit)))
  {
    hide OnlyHeadroomBinds, Plain, Headroom, ProcessLegs, Progress, Authenticate, SortLegs;
    SortedLegsStayOn(legs, a, t, w);
    LegsFillTheHeadroom(s, OpenGroup(s, group, requireAll, 0.0), SortLegs(legs), |s.groups|, a, t, w, |legs|);
    BindingFacts(s, a, t, w, |legs|);
    TierTotalOfPermutation(SortLegs(legs), legs, Plain(s, a, t, w).access.tierLimit);
  }

  lemma SortedLegsStayOn(legs: seq<PermitRequest>, a: nat, t: nat, w: string)
    requires AllOn(legs, a, t, w)
    ensures AllOn(SortLegs(legs), a, t, w) && |SortLegs(legs)| == |legs| && multiset(SortLegs(legs)) == multiset(legs)
  {
    hide SortLegs;
    var sorted := SortLegs(legs);
    assert |multiset(sorted)| == |multiset(legs)|;
    forall i | 0 <= i < |sorted| ensures sorted[i] in legs {
      assert sorted[i] in multiset(sorted);
    }
  }

  /** So two committed groups with the same legs in different orders grant the same total. */
  lemma LegOrderDoesNotMatter(s: Db, auth: AgentAuth, x: seq<PermitRequest>, y: seq<PermitRequest>, a: nat, t: nat,
                              w: string)
    requires Authenticate(s, auth).Ok? && multiset(x) == multiset(y)
    requires AllOn(x, a, t, w) && OnlyHeadroomBinds(s, a, t, w, |x|)
    ensures var r, r' := RequestPermitGroup(Exact, s, auth, Ok(()), auth, x, false), RequestPermitGroup(Exact, s,
        auth, Ok(()), auth, y, false);
            r.result.Ok? && r'.result.Ok? && TotalApproved(r.result.value) == TotalApproved(r'.result.value)
  {
    hide OnlyHeadroomBinds, Plain, Headroom, RequestPermitGroup, Authenticate;
    assert |multiset(x)| == |multiset(y)|;
    forall i | 0 <= i < |y| ensures y[i] in x {
      assert y[i] in multiset(y);
    }
    GroupTotalIsClosedForm(s, auth, auth, x, false, a, t, w);
    GroupTotalIsClosedForm(s, auth, auth, y, false, a, t, w);
    BindingFacts(s, a, t, w, |x|);
    TierTotalOfPermutation(x, y, Plain(s, a, t, w).access.tierLimit);
  }
}
