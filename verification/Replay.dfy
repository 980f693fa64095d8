/** The replay guard on signed agent requests: a request is admitted when its timestamp lies in
    a 300-second window around the clock and its identifier is not remembered; an admitted
    identifier is remembered for 600 seconds.  Time is in whole seconds, as in the source. */
module Replay {
  import opened Outcomes

  const WINDOW_SECS := 300
  const KEY_TTL_SECS := 600

  /** `keyMatches`: the signing key is the session's; `signatureValid`: the signature verifies. */
  datatype SignedRequest = SignedRequest(agent: nat, requestId: string, timestamp: int,
                                         keyMatches: bool, signatureValid: bool)

  /** Remembered identifiers with the second at which each is forgotten. */
  type Keys = map<(nat, string), int>

  function KeyOf(r: SignedRequest): (nat, string) { (r.agent, r.requestId) }

  predicate Live(keys: Keys, key: (nat, string), now: int) {
    key in keys && now < keys[key]
  }

  function Distance(a: int, b: int): nat { if a < b then b - a else a - b }

  /** The outcome of one check, in the order the source makes its tests. */
  function Verdict(keys: Keys, now: int, r: SignedRequest): Result<()> {
    if !r.keyMatches then Err(RequestSignatureInvalid)
    else if Distance(now, r.timestamp) > WINDOW_SECS then Err(ChallengeExpired)
    else if Live(keys, KeyOf(r), now) then Err(RequestReplay)
    else if !r.signatureValid then Err(RequestSignatureInvalid)
    else Ok(())
  }

  function Remember(keys: Keys, now: int, r: SignedRequest): Keys {
    if Verdict(keys, now, r).Ok? then keys[KeyOf(r) := now + KEY_TTL_SECS] else keys
  }

  class ReplayGuard {
    var keys: Keys

    constructor ()
      ensures keys == map[]
    {
      keys := map[];
    }

    method VerifySignedRequest(now: int, r: SignedRequest) returns (outcome: Result<()>)
      modifies this
      ensures outcome == Verdict(old(keys), now, r)
      ensures keys == Remember(old(keys), now, r)
    {
      if !r.keyMatches {
        return Err(RequestSignatureInvalid);
      }
      var skew := now - r.timestamp;
      if skew > WINDOW_SECS || -skew > WINDOW_SECS {
        return Err(ChallengeExpired);
      }
      var alreadySeen := KeyOf(r) in keys && now < keys[KeyOf(r)];
      if alreadySeen {
        return Err(RequestReplay);
      }
      if !r.signatureValid {
        return Err(RequestSignatureInvalid);
      }
      keys := keys[KeyOf(r) := now + KEY_TTL_SECS];
      outcome := Ok(());
    }
  }

  // ----- Runs -----

  datatype Arrival = Arrival(at: int, request: SignedRequest)

  predicate ClockNeverGoesBack(run: seq<Arrival>) {
    forall i, j | 0 <= i < j < |run| :: run[i].at <= run[j].at
  }

  function KeysAfter(keys: Keys, run: seq<Arrival>): Keys {
    if run == [] then keys
    else
      var n := |run| - 1;
      Remember(KeysAfter(keys, run[..n]), run[n].at, run[n].request)
  }

  /** The `i`-th arrival is admitted, given what the arrivals before it left behind. */
  predicate Admitted(keys: Keys, run: seq<Arrival>, i: nat)
    requires i < |run|
  {
    Verdict(KeysAfter(keys, run[..i]), run[i].at, run[i].request).Ok?
  }

  lemma {:induction false} StillRemembered(keys: Keys, run: seq<Arrival>, i: nat, j: nat)
    requires ClockNeverGoesBack(run) && i < j <= |run| && Admitted(keys, run, i)
    ensures KeyOf(run[i].request) in KeysAfter(keys, run[..j])
    ensures KeysAfter(keys, run[..j])[KeyOf(run[i].request)] >= run[i].at + KEY_TTL_SECS
  {
    assert run[..j][..j - 1] == run[..j - 1];
    if j > i + 1 {
      StillRemembered(keys, run, i, j - 1);
    }
  }

  /** What is remembered of an identifier comes from an earlier admission of it. */
  lemma {:induction false} RememberedFrom(run: seq<Arrival>, n: nat, key: (nat, string)) returns (i: nat)
    requires n <= |run| && key in KeysAfter(map[], run[..n])
    ensures i < n && Admitted(map[], run, i) && KeyOf(run[i].request) == key
    ensures KeysAfter(map[], run[..n])[key] == run[i].at + KEY_TTL_SECS
  {
    assert run[..n][..n - 1] == run[..n - 1];
    if Admitted(map[], run, n - 1) && KeyOf(run[n - 1].request) == key {
      i := n - 1;
    } else {
      i := RememberedFrom(run, n - 1, key);
    }
  }

  /** The rule for identifiers: a request is admitted if and only if it is the session's, in its window
      and well signed, and every earlier admission of its identifier, under whatever timestamp, is at
      least 600 seconds old. */
  lemma AdmittedExactly(run: seq<Arrival>, j: nat)
    requires ClockNeverGoesBack(run) && j < |run|
    ensures Admitted(map[], run, j) <==>
            && run[j].request.keyMatches && run[j].request.signatureValid
            && Distance(run[j].at, run[j].request.timestamp) <= WINDOW_SECS
            && forall i | 0 <= i < j && KeyOf(run[i].request) == KeyOf(run[j].request) && Admitted(map[], run, i) ::
                 run[j].at >= run[i].at + KEY_TTL_SECS
  {
    var key := KeyOf(run[j].request);
    forall i | 0 <= i < j && KeyOf(run[i].request) == key && Admitted(map[], run, i)
      ensures key in KeysAfter(map[], run[..j]) && KeysAfter(map[], run[..j])[key] >= run[i].at + KEY_TTL_SECS
    {
      StillRemembered(map[], run, i, j);
    }
    if key in KeysAfter(map[], run[..j]) {
      var i := RememberedFrom(run, j, key);
    }
  }

  /** Over any run and from any remembered keys, one (agent, identifier, timestamp) is admitted
      twice only at the two ends of its window: first 300 seconds early, then 300 seconds late. */
  lemma ReplayOnlyAtWindowEnds(keys: Keys, run: seq<Arrival>, i: nat, j: nat)
    requires ClockNeverGoesBack(run) && i < j < |run|
    requires Admitted(keys, run, i) && Admitted(keys, run, j)
    requires KeyOf(run[i].request) == KeyOf(run[j].request)
    requires run[i].request.timestamp == run[j].request.timestamp
    ensures run[i].at == run[i].request.timestamp - WINDOW_SECS
    ensures run[j].at == run[i].request.timestamp + WINDOW_SECS
  {
    StillRemembered(keys, run, i, j);
  }

  /** An admission strictly inside the window, or at its late end, is the only one. */
  lemma AdmittedAtMostOnce(keys: Keys, run: seq<Arrival>, i: nat, j: nat)
    requires ClockNeverGoesBack(run) && i < j < |run|
    requires Admitted(keys, run, i)
    requires run[i].at > run[i].request.timestamp - WINDOW_SECS
    requires KeyOf(run[i].request) == KeyOf(run[j].request)
    requires run[i].request.timestamp == run[j].request.timestamp
    ensures !Admitted(keys, run, j)
  {
    if Admitted(keys, run, j) {
      ReplayOnlyAtWindowEnds(keys, run, i, j);
    }
  }

  /** The exception is real: key and window end in the same second, so every well-signed request
      first admitted 300 seconds early is admitted again 300 seconds late. */
  lemma WindowEndsAdmitTwice(r: SignedRequest)
    requires r.keyMatches && r.signatureValid
    ensures var run := [Arrival(r.timestamp - WINDOW_SECS, r), Arrival(r.timestamp + WINDOW_SECS, r)];
            ClockNeverGoesBack(run) && Admitted(map[], run, 0) && Admitted(map[], run, 1)
  {
    var run := [Arrival(r.timestamp - WINDOW_SECS, r), Arrival(r.timestamp + WINDOW_SECS, r)];
    assert run[..1][..0] == run[..0] == [];
    assert KeysAfter(map[], run[..1]) == map[KeyOf(r) := r.timestamp + WINDOW_SECS];
  }
}
