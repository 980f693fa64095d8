/** What lasts how long: a permit, a proposal, an enrolment, connect or MCP challenge, which is
    also answered only once, and an agent's silence. */
module Lifetimes {
  import opened Outcomes
  import opened Policy
  import opened Constitution
  import opened Permits
  import opened Store
  import opened PermitHandlers
  import opened GovernanceHandlers
  import opened AgentHandlers
  import opened System
  import opened ConstitutionLog
  import opened Lifecycle
  import opened AgentKeys

  function After(s: Db, micros: nat): Db { s.(now := s.now + micros) }

  /** Whole seconds gone by on the clock face: what challenges are measured in. */
  function SecondsPassed(s: Db, micros: nat): (seconds: int)
    ensures micros / SECOND <= seconds <= micros / SECOND + 1
  {
    Seconds(s.now + micros) - Seconds(s.now)
  }

  /** An enrolment challenge answered with the right key, wallet, nonce and signature is expired
      exactly when the clock's second is 600 on, and in reachable states accepted exactly before that;
      a wrong signature does not use it up, an answer in time does. */
  lemma EnrolmentIsAnsweredOnceInTime(s: Db, a: nat, wallet: string, pubkey: string, nonce: nat, k: nat,
                                      signerOf: set<string>)
    requires StartEnrollment(s, a, wallet, pubkey, nonce).result.Ok?
    ensures var issued := After(StartEnrollment(s, a, wallet, pubkey, nonce).db, k);
            var answered := EnrollPubkey(issued, a, wallet, pubkey, nonce, Ok(()), signerOf);
            && (answered.result == Err(ChallengeExpired) <==> SecondsPassed(s, k) >= 600)
            && (SecondsPassed(s, k) >= 600 ==> answered.db == issued)
            && (SecondsPassed(s, k) < 600 ==> forall n, signed, who ::
                  EnrollPubkey(answered.db, a, wallet, pubkey, n, signed, who) ==
                  Reply(answered.db, Err(ChallengeExpired)))
            && (LogsSound(s) && KeysSound(s) ==> (answered.result.Ok? <==> SecondsPassed(s, k) < 600))
    ensures var issued := After(StartEnrollment(s, a, wallet, pubkey, nonce).db, k);
            forall e :: EnrollPubkey(issued, a, wallet, pubkey, nonce, Err(e), signerOf).db == issued
  {
    hide ConnectionStatus, KeyHeldByOther, WalletIsActive, SoundLog, Sound, KeysSound;
    var issued := After(StartEnrollment(s, a, wallet, pubkey, nonce).db, k);
    var answered := EnrollPubkey(issued, a, wallet, pubkey, nonce, Ok(()), signerOf);
    if SecondsPassed(s, k) < 600 {
      assert a !in answered.db.enrolments;
      var slot := issued.agents[a].(pubkey := Some(pubkey), status := PendingSigner);
      StatusNeverExpires(issued, slot, a, signerOf);
      if LogsSound(s) && KeysSound(s) {
        StatusNeverFails(issued, slot, a, signerOf);
        KeyIsItsOwn(s, a, wallet, pubkey, nonce);
      }
    }
  }

  lemma StatusNeverExpires(s: Db, slot: AgentSlot, a: nat, signerOf: set<string>)
    ensures ConnectionStatus(s, slot, a, signerOf) != Err(ChallengeExpired)
    ensures McpStatus(s, slot, a) != Err(ChallengeExpired)
  {
    if slot.treasury < |s.treasuries| {
      ReadingNeverExpires(s.treasuries[slot.treasury]);
    }
  }

  lemma StatusNeverFails(s: Db, slot: AgentSlot, a: nat, signerOf: set<string>)
    requires LogsSound(s)
    ensures ConnectionStatus(s, slot, a, signerOf).Ok? && McpStatus(s, slot, a).Ok?
  {
    hide SoundLog, Sound, NewestRules, RulesForAgent, SignsEverywhere;
    if slot.treasury < |s.treasuries| {
      CurrentReadsTheNewest(s.treasuries[slot.treasury]);
    }
  }

  /** The key an enrolment is begun with is not another slot's. */
  lemma KeyIsItsOwn(s: Db, a: nat, wallet: string, pubkey: string, nonce: nat)
    requires KeysSound(s) && StartEnrollment(s, a, wallet, pubkey, nonce).result.Ok?
    ensures !KeyHeldByOther(s.agents, pubkey, a)
  {
    hide WalletIsActive;
    assert s.agents[a].pubkey == Some(pubkey);
  }

  lemma ReadingNeverExpires(t: Treasury)
    ensures NewestRules(t) != Err(ChallengeExpired)
  {
    hide LatestContent;
    if LatestContent(t.history).Some? {
      var doc := LatestContent(t.history).value;
      if Normalizer.Normalize(doc).Err? {
        UnreadableIsInvalidInput(Normalizer.ArrayAt(doc, "agent_wallet_rules").value);
      }
    }
  }

  lemma {:induction false} UnreadableIsInvalidInput(docs: seq<Normalizer.Document>)
    requires Normalizer.ReadRules(docs).Err?
    ensures Normalizer.ReadRules(docs) == Err(InvalidInput)
  {
    if docs != [] && Normalizer.ReadRules(docs[..|docs| - 1]).Err? {
      UnreadableIsInvalidInput(docs[..|docs| - 1]);
    }
  }

  /** A connect challenge lasts 300 seconds and is answered once; in reachable states a right answer
      is accepted exactly in that time. */
  lemma ConnectIsAnsweredOnceInTime(s: Db, pubkey: string, nonce: nat, k: nat, signerOf: set<string>)
    requires StartConnect(s, pubkey, nonce).result.Ok?
    ensures var issued := After(StartConnect(s, pubkey, nonce).db, k);
            var answered := CompleteConnect(issued, pubkey, nonce, Ok(()), signerOf);
            && (answered.result == Err(ChallengeExpired) <==> SecondsPassed(s, k) >= 300)
            && (SecondsPassed(s, k) >= 300 ==> answered.db == issued)
            && (SecondsPassed(s, k) < 300 ==> forall n, signed, who ::
                  CompleteConnect(answered.db, pubkey, n, signed, who) == Reply(answered.db, Err(ChallengeExpired)))
            && (LogsSound(s) ==> (answered.result.Ok? <==> SecondsPassed(s, k) < 300))
  {
    hide ConnectionStatus, AgentByPubkey, SoundLog, Sound;
    var issued := After(StartConnect(s, pubkey, nonce).db, k);
    var a := StartConnect(s, pubkey, nonce).result.value;
    assert pubkey !in (issued.connects - {pubkey});
    StatusNeverExpires(issued, issued.agents[a], a, signerOf);
    if LogsSound(s) {
      StatusNeverFails(issued, issued.agents[a], a, signerOf);
    }
  }

  /** An MCP nonce lasts 120 seconds and is answered once; in reachable states a right answer is
      accepted exactly in that time. */
  lemma McpNonceIsAnsweredOnceInTime(s: Db, pubkey: string, nonce: nat, k: nat)
    requires StartMcpConnect(s, pubkey, nonce).result.Ok?
    ensures var issued := After(StartMcpConnect(s, pubkey, nonce).db, k);
            var answered := CompleteMcpConnect(issued, pubkey, nonce, Ok(()));
            && (answered.result == Err(ChallengeExpired) <==> SecondsPassed(s, k) >= 120)
            && (SecondsPassed(s, k) >= 120 ==> answered.db == issued)
            && (SecondsPassed(s, k) < 120 ==> forall n, signed ::
                  CompleteMcpConnect(answered.db, pubkey, n, signed) == Reply(answered.db, Err(ChallengeExpired)))
            && (LogsSound(s) ==> (answered.result.Ok? <==> SecondsPassed(s, k) < 120))
  {
    hide McpStatus, AgentByPubkey, StrKey.ValidPublicKey, SoundLog, Sound;
    var issued := After(StartMcpConnect(s, pubkey, nonce).db, k);
    assert pubkey !in (issued.mcpNonces - {pubkey});
    var a := AgentByPubkey(issued.agents, pubkey).value;
    StatusNeverExpires(issued, issued.agents[a], a, {});
    if LogsSound(s) {
      StatusNeverFails(issued, issued.agents[a], a, {});
    }
  }

  /** A heartbeat that finds the agent complete keeps it active: the sweep takes it exactly when it
      has been silent for more than ten minutes. */
  lemma HeartbeatOutlastsTheSweep(s: Db, auth: AgentAuth, signerOf: set<string>, k: nat)
    requires Heartbeat(s, auth, auth.agent, signerOf).result.Ok?
    requires ConnectionStatus(s, s.agents[auth.agent], auth.agent, signerOf) == Ok(Complete)
    ensures var swept := SweepInactive(After(Heartbeat(s, auth, auth.agent, signerOf).db, k));
            && auth.agent < |swept.agents|
            && swept.agents[auth.agent].status == (if k > 600 * SECOND then Inactive else SlotActive)
  {
    hide ConnectionStatus;
  }

  function OwnRules(s: Db, a: nat): seq<AgentWalletRule>
    requires a < |s.agents| && s.agents[a].treasury < |s.treasuries|
    requires NewestRules(s.treasuries[s.agents[a].treasury]).Ok?
  {
    RulesForAgent(NewestRules(s.treasuries[s.agents[a].treasury]).value.walletRules, a)
  }

  /** The two ways of keeping a slot alive agree exactly when the agent has no rules or its key
      signs on every one of its wallets: the MCP refresh looks at rules only, a heartbeat at signers
      too.  This covers every unbarred slot of every reachable state. */
  lemma PathsAgreeExactlyWhenSigned(s: Db, session: AgentAuth, signerOf: set<string>)
    requires Linked(s) && LogsSound(s) && KeysSound(s)
    requires session.agent < |s.agents| && s.agents[session.agent].treasury == session.treasury
    requires !Barred(s.agents[session.agent].status)
    ensures session.treasury < |s.treasuries| && NewestRules(s.treasuries[session.treasury]).Ok?
    ensures var refreshed, beaten := RefreshMcpLiveness(s, session), Heartbeat(s, session, session.agent, signerOf);
            var own := OwnRules(s, session.agent);
            && refreshed.result.Ok? && beaten.result.Ok?
            && |refreshed.db.agents| == |beaten.db.agents| == |s.agents|
            && (refreshed.db.agents[session.agent].status == beaten.db.agents[session.agent].status <==>
                own == [] || SignsEverywhere(own, signerOf))
            && (own != [] && !SignsEverywhere(own, signerOf) ==>
                  refreshed.db.agents[session.agent].status == SlotActive
                  && beaten.db.agents[session.agent].status == PendingSigner)
  {
    hide NewestRules, RulesForAgent, SignsEverywhere, DistinctKeys, RulesInForce, Valid, Sound;
    CurrentReadsTheNewest(s.treasuries[session.treasury]);
  }

  /** A permit granted on request lapses in a sweep exactly when more than an hour has gone by. */
  lemma PermitLastsAnHour(q: real -> real, s: Db, auth: AgentAuth, signed: Result<()>, request: PermitRequest, k: nat)
    requires var r := RequestPermit(q, s, auth, signed, request).result; r.Ok? && r.value.0.approved
    ensures var (granted, id) := (RequestPermit(q, s, auth, signed, request).db, |s.permits|);
            var swept := ExpirePermits(After(granted, k));
            && RequestPermit(q, s, auth, signed, request).result.value.1 == id
            && |swept.permits| == id + 1 && SameGrant(granted.permits[id], swept.permits[id])
            && granted.permits[id].status == Active
            && swept.permits[id].status == (if k > 3600 * SECOND then Expired else Active)
  {
    hide RuleFor, CaseFor, Verdict, Authenticate;
  }

  /** A proposal stands in the way of another for less than three days, and takes a signature of an
      active wallet until three days have gone by; after that a signature only marks it expired. */
  lemma ProposalLastsThreeDays(s: Db, treasury: nat, content: ConstitutionContent, wallet: string, k: nat)
    requires CreateProposal(s, treasury, content).result.Ok?
    requires WalletIsActive(s.treasuries[treasury], wallet)
    ensures var created, id := After(CreateProposal(s, treasury, content).db, k), |s.proposals|;
            var s' := SignProposal(created, treasury, id, wallet, Ok(())).db;
            && (k < 259200 * SECOND ==> HasOpenProposal(created, treasury))
            && (k >= 259200 * SECOND ==> !Open(created.proposals[id], treasury, created.now))
            && |s'.proposals| == id + 1
            && (k <= 259200 * SECOND ==> s'.proposals[id].signers == [wallet])
            && (k > 259200 * SECOND ==> s'.proposals[id] == created.proposals[id].(status := ProposalExpired))
  {
    hide AppendVersion, Threshold, Normalizer.ToJson, Valid, WalletIsActive;
    var created, id := After(CreateProposal(s, treasury, content).db, k), |s.proposals|;
    if k < 259200 * SECOND {
      assert Open(created.proposals[id], treasury, created.now);
    }
    var p := created.proposals[id];
    assert p.signers + [wallet] == [wallet];
    AppendKeepsTheRest(WithProposal(created, id, p.(signers := p.signers + [wallet], status := ProposalExecuted)),
                       treasury, p.content);
  }
}
