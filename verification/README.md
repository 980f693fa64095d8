# The Synod treasury coordinator, verified

Synod lets autonomous agents spend from shared Stellar treasuries under a constitution: who may
hold how much of which wallet, how much at once, and when everything stops. The coordinator is
the service that decides. This project models the coordinator as one transition system and proves
what its parts together guarantee over every run.

## What is modelled

* **State** (`Store`). The rows of the treasury, wallet, agent, permit, permit-group, constitution
  and proposal tables, and the enrolment, connect and MCP challenges. Rows are never deleted except
  from a treasury's wallets, so an identifier is a row number.
* **Handlers** (`PermitHandlers`, `GovernanceHandlers`, `AgentHandlers`). Each handler and sweep is
  a function from the state to the new state and the reply, with the checks in the order of the
  source and every error return. `Policy` is the eight-rule engine, `Constitution` validation and
  rule lookup, `Normalizer` the reader of stored constitution documents of both forms, `Intents`
  the reader of agents' intents.
* **The running service** (`Coordinator`). A class whose fields are the tables and whose methods
  read, insert and update in place, return early and roll back. Each handler method is
  proved to do what its handler function says and to keep all invariants; the helpers inside a transaction
  leave states in between. `Serve` ties any sequence of calls to a run of the transition system.
* **Runs** (`System`). `Next` is one step, `Run` any finite sequence. Everything from outside is part
  of a step: the passing of time, whether a signature verifies, which wallets list an agent's key
  on chain, an intent's amount, a resynchronised total, nonces. So a statement about all runs holds
  whatever the outside does. The clock counts microseconds, as the database's timestamps do; challenges keep
  their expiry in whole seconds, as in the source.
* **Companions.** Canonical JSON (`CanonicalJson`), the event-log sequencer as interleaved writers
  under a lock (`EventLog`), the replay guard (`Replay`), and CRC-16/XMODEM with StrKey addresses
  (`LinearRegister`, `Crc16`, `StrKey`).
* **Findings** (`Witnesses`). Runs from the empty store that reach the states the findings below speak of.

Money is exact. Where the store rounds an approved amount, the rounding is a function `q` with an
error bound `eps` (`Permits.Rounds`); `Permits.Numeric7` is NUMERIC(20,7). Each handler or database
transaction is one atomic step, except for the event log, whose lock, read, insert and commit are
separate steps of interleaved writers. Challenges are set and deleted without failure. The wallets in the runs of
`Witnesses` that sign anything are any well-formed addresses, which the signature checks can decode.

## Main results

* **Every permit row is a verdict.** A request of any kind inserts only rows that are the engine's
  verdict given all rows before them (`System.AskingJudges`). What that verdict is, and what row and group it
  leaves, is told in plain numbers on the state before the call, for requests and for intents (`Answers`,
  `GroupRows`).
* **Reservations** stay within one rounding of the largest cap in force at a grant, over any run
  (`Reservations`), and all agents together stay within the treasury's assets on each wallet while
  the constitution stands and the assets do not fall (`WalletConservation`). **Counts** of active permits never
  pass the largest limit under which one was granted (`PermitCounts`).
* **Halting** leaves nothing active and resuming gives every agent its whole capacity back (`Lifecycle`,
  `Recovery`). A treasury that is halted or within its drawdown limit stays so whatever agents report, and
  stops being so exactly at a resync that is too low or a limit already exceeded (`Drawdown`).
* **Reports** are booked exactly when every check but the permit's status passes, and a treasury's total
  is its last resync and all reports booked since (`Reports`).
* **Permits** change status at most twice, never return to ACTIVE and never leave CONSUMED (`Lifecycle`).
* **Groups** are transactions with true totals; they equal their legs granted one by one, and on one
  wallet their total is independent of the order of the legs (`Groups`, `GroupEffects`).
* **The constitution history** is append-only, gapless and valid throughout, with the treasury's version
  column at its head, whichever of five writers wrote (`ConstitutionLog`). Documents of both forms read as what
  they list, with every default as a number (`DocumentForms`).
* **Proposals** execute at most once and only by the rule that counts all stored signatures against the
  wallets active where the last one is given. With a fixed electorate that is a majority, and any two
  executed proposals share a signer (`Voting`).
* **Suspension** is final unless an enrolment is outstanding, and **revocation** is final (`Revocation`);
  keys stay distinct (`AgentKeys`); challenges are answered once and in time, permits and proposals last as
  long as promised (`Lifetimes`).
* **Signatures.** A step whose signature or proof does not verify changes nothing but an expired proposal's status
  (`Signatures`). The canonical text that intents are signed over is the shortest that reads as its value
  (`ShortestText`), and two values never share one (`CanonicalJson`).
* **Together.** All invariants hold in every reachable state (`Invariants`), and every handler method of
  the running service keeps them (`Coordinator`).

## Findings

Properties that turned out false of the code. Each comes with the exact condition under which it holds,
and with an input that reaches the failure; `Witnesses` holds runs from the empty store.

* *A settled permit stays settled.* A denied, expired, revoked or failed permit becomes CONSUMED exactly
  when its transaction is committed or its outcome report accepted, which looks at no status (permit.rs:422-429):
  `Reports.SettledMovesExactly`. Run: `Witnesses.ADeniedPermitIsConsumedAndBookedTwice`.
* *An outcome is booked once.* It is booked again exactly when the permit's agent reports it again in a signed
  request of an authenticated session (permit.rs:420-440): `Reports.BookedAgainExactlyWhenReportedAgain`. Same run.
* *A suspended slot stays suspended.* True when no enrolment is outstanding (`Revocation.ShutForGood`); lifted
  exactly by the answer to an enrolment begun before, given in time with its nonce, wallet and key
  (agent.rs:729-799): `Revocation.OnlyAnEnrolmentLiftsSuspension`. Run: `Witnesses.ASuspensionIsLifted`.
* *The MCP refresh and the heartbeat agree on a slot.* They do exactly when the agent has no rules or its key
  signs on all its wallets (mcp.rs:672-720): `Lifetimes.PathsAgreeExactlyWhenSigned`. State:
  `Witnesses.TheTwoPathsDisagree`.
* *A treasury over its drawdown limit is halted.* Kept by every step but a resync to too low a total
  (resync.rs:200-208) and an update, rollback or executed proposal with a limit the drawdown has already
  reached (constitution.rs:321-354), neither of which halts anything: `Drawdown.GuardBreaksExactly`. Runs:
  `Witnesses.AResyncHaltsNothing`, `Witnesses.ATighterLimitHaltsNothing`.
* *Proposals are executed by a majority of their treasury's active wallets.* The rule counts all signatures
  stored, also of wallets removed since and of other treasuries' wallets, against the active wallets of the
  treasury in the path (proposal.rs:204-312): `Voting.SigningRule`. It makes a majority there when no signer is
  absent, and otherwise exactly when the others suffice: `Voting.MajorityWithoutTheAbsent`. Runs:
  `Witnesses.ARemovedWalletStillCounts`, `Witnesses.AForeignProposalIsExecuted`. With a fixed electorate it always
  is one (`Voting.VotesStayFair`).
* *One proposal of a treasury can be signed at a time.* At the instant a proposal expires it can still be signed
  and a new one is already accepted (proposal.rs:126, proposal.rs:195); otherwise never:
  `Voting.SecondSignableExpiresNow`. Run: `Witnesses.TwoProposalsCanBeSigned`.
* *A wallet signs proposals of its own treasury.* The path is not compared with the proposal (proposal.rs:178-216):
  a wallet active in the treasury of the path signs every pending unexpired proposal it has not signed, whichever
  treasury it is for: `Voting.PathSignsForAnyTreasury`. Run: `Witnesses.AWalletSignsForAnotherTreasury`.
* *An executed intent spends at most what was approved.* The execution compares the payment with the intent, not
  with the approval (mcp.rs:1076-1082), so this holds exactly when the amount asked fit the agent's headroom and
  the tier limit: `Spending.ExecutedWithinApprovalExactly`. Run: `Witnesses.APartialIntentIsSpentInFull`.
* *An approved intent can be executed.* The check writes both addresses of the transaction with zero bytes for
  their checksum and the asset with an issuer no intent has (mcp.rs:1037-1073, mcp.rs:1279-1285), so some
  transaction passes exactly for native payments of whole units between addresses written that way:
  `Spending.SomeTransactionPassesExactly`. An address as the network writes it is so written for one key in 65536:
  `Spending.AccountsAreExecutableExactly`, `StrKey.OneKeyIn65536`. Run: `Witnesses.AnApprovedIntentCannotBeExecuted`.
* *A signed request is admitted once.* The same agent, identifier and timestamp are admitted twice only from the
  earliest second of the window to the latest (auth.rs:325-358): `Replay.ReplayOnlyAtWindowEnds`,
  `Replay.WindowEndsAdmitTwice`. An identifier under other timestamps is admitted again exactly when every earlier
  admission of it is 600 seconds old: `Replay.AdmittedExactly`.
* *A malformed intent is refused with an error.* A swap that passes every check but names no destination makes
  the handler panic, and nothing else does (mcp.rs:864-886): `Intents.OnlySwapsPanic`.

## Model

| member | source | states |
|---|---|---|
| Policy.Verdict | synod-coordinator/src/policy/mod.rs:7-83 | A request is approved if and only if none of the seven denying rules stands in its way, and then for the smallest of request, headroom and tier limit; otherwise it is denied by the lowest-numbered rule that does |
| Policy.RunPolicyEngine | synod-coordinator/src/policy/mod.rs:7-83 | The cascade of early returns with its running amount gives exactly that verdict, partial reason included |
| Policy.ApprovalStaysWithinCap | synod-coordinator/src/policy/rules.rs:32-64 | An approval starts strictly below the agent's cap, does not pass it, and exceeds neither request nor tier limit |
| Policy.AsI32 | synod-coordinator/src/permit.rs:625-626 | The cast of a count is the count whenever it fits 32 bits |
| Policy.VerdictInNumbers | synod-coordinator/src/policy/rules.rs:4-104 | Without the engine's own terms: approved if and only if the other rules are open and 100 times the reservations are below percentage times assets; then the request up to the tier limit if it still fits, and otherwise exactly what fills the share |
| Answers.SumsRowByRow | synod-coordinator/src/permit.rs:574-603 | The sums and counts the engine reads, row by row |
| Answers.RequestIsAnswered | synod-coordinator/src/permit.rs:60-134 | In reachable states a request is answered if and only if session, identity, signature and rule are right; the answer is the decision in numbers on the state before, and the row stored is that answer, for an hour |
| Answers.ResolvedInWords | synod-coordinator/src/mcp.rs:819-926 | A resolved intent has the amount, asset, destination and memo its document names, and the wallet it names, trimmed, or the agent's only one |
| Answers.MembersInWords | synod-coordinator/src/mcp.rs:838-926 | Both directions: asset, destination and wallet are read exactly where the document names them |
| Answers.IntentIsAnswered | synod-coordinator/src/mcp.rs:315-392 | The row an intent stores is of the agent with the key, on the wallet named or else the only one assigned, decided in numbers under the rule in force there |
| PermitCounts.CountsStayBelowLimits | synod-coordinator/src/policy/rules.rs:66-85 | Over any run an agent's active permits on a wallet, and a treasury's, are at most the largest limit under which one was granted, or what there was at the start |
| Constitution.ValidateConstitution | synod-coordinator/src/constitution.rs:75-128 | The report holds exactly the errors that are due, and is empty if and only if every rule is in range and no wallet's rules total more than 100 percent |
| Constitution.CheckRules | synod-coordinator/src/constitution.rs:87-107 | The first loop reports exactly the single-rule errors and totals exactly the named wallets |
| Constitution.CheckTotals | synod-coordinator/src/constitution.rs:109-120 | The second loop reports exactly the over-allocated wallets, in whatever order it meets them |
| Constitution.FindRule | synod-coordinator/src/permit.rs:563-571 | The rule applied is the first of the agent on the wallet, duplicates notwithstanding |
| Constitution.FiltersKeepOrder | synod-coordinator/src/constitution.rs:269-276 | The rules of one agent, and those kept when it is revoked, are the rules in their order with their repetitions, and together every rule once |
| Constitution.OwnRuleIsFound | synod-coordinator/src/permit.rs:563-571 | An agent with any rule on a wallet has a first one, which the engine finds |
| Constitution.RemovalKeepsValid | synod-coordinator/src/agent.rs:284-290 | What revocation leaves of a valid constitution is valid, although it is not validated again |
| Constitution.SameLengthMeansUntouched | synod-coordinator/src/agent.rs:292-294 | Comparing lengths is enough to know that no rule was removed |
| Normalizer.NormalizeConstitutionValue | synod-coordinator/src/constitution.rs:142-267 | The reading loops compute the specified reading: one unreadable current rule refuses the document, unreadable legacy allocations are skipped |
| Normalizer.NormalizeInvertsToJson | synod-coordinator/src/constitution.rs:142-267 | Every constitution is read back from its serialised form, rules in order |
| Normalizer.NormalFormIsStable | synod-coordinator/src/constitution.rs:142-267 | Reading any accepted document, legacy ones included, and writing it is idempotent |
| Normalizer.LegacyOnlyWithoutCurrentRules | synod-coordinator/src/constitution.rs:181-258 | Legacy allocations count only without current rules beside them, and get the default tier limit and permit cap |
| DocumentForms.LegacyReadsAsListed | synod-coordinator/src/constitution.rs:221-258 | A document of the older form reads as exactly the allocations it lists, in order, with 100 percent where none is given, tier limit 1000 and permit cap 5; nameless entries change nothing |
| DocumentForms.RuleIsRead | synod-coordinator/src/constitution.rs:181-220 | A rule reads as its named members, with 100, 1000 and 5 for a missing percentage, tier limit and cap |
| DocumentForms.NamelessRuleRefuses | synod-coordinator/src/constitution.rs:185-201 | A rule without a readable agent or wallet refuses the whole document |
| DocumentForms.DrawdownLimitIsRead | synod-coordinator/src/constitution.rs:150-179 | The drawdown limit is the nested number, else the one at the top level, else 15 |
| DocumentForms.PermitLimitIsRead | synod-coordinator/src/constitution.rs:150-179 | The permit limit is the nested integer cut to 32 bits, else the one at the top level, else 10 |
| Normalizer.GenesisIsValid | synod-coordinator/src/treasury.rs:51-59 | The document every treasury starts with reads as a valid constitution |
| Permits.Settle | synod-coordinator/src/treasury.rs:143-149 | A bulk update changes the status of exactly the selected active rows and moves every row forward |
| Permits.AdvancingFrees | synod-coordinator/src/permit.rs:574-603 | Moving rows forward never raises a count, nor a sum of non-negative amounts |
| Permits.Numeric7RoundsByHalfAUnit | synod-coordinator/migrations/20260330000001_initial.sql:110-111 | Storing an amount in seven decimal places moves it by at most half a unit and never below zero from above |
| Permits.Numeric7IsNearest | synod-coordinator/migrations/20260330000001_initial.sql:110-111 | The stored amount is the nearest whole number of units of 1e-7, and of two equally near the one farther from zero |
| Coordinator.Tables.ProcessSinglePermit | synod-coordinator/src/permit.rs:511-656 | In the order of the source: slot, version join, rule, sums and counts, engine, insert; the row is the verdict on live reservations, or there is an error and no row |
| Coordinator.Tables.RequestPermit | synod-coordinator/src/permit.rs:60-134 | Exactly the handler; keeps every invariant; an error leaves the tables as they were, a reply inserts one row |
| Coordinator.Tables.ProcessLegs | synod-coordinator/src/permit.rs:176-193 | The loop over the legs: each leg sees the rows of the legs before it, and the first error ends it |
| Coordinator.Tables.RequestPermitGroup | synod-coordinator/src/permit.rs:136-218 | Exactly the handler, rollback included; keeps every invariant; an error changes nothing, and with `require_all` every row inserted is active |
| Coordinator.Tables.SubmitIntent | synod-coordinator/src/mcp.rs:315-392 | Exactly the handler; keeps every invariant; on valid tables it succeeds if and only if the intent resolves to a request |
| Coordinator.Tables.CommitIntent | synod-coordinator/src/mcp.rs:1199-1214 | Exactly the handler, which has no status guard; the permit ends CONSUMED |
| Coordinator.Tables.MarkIntentExecutionFailed | synod-coordinator/src/mcp.rs:1218-1240 | Exactly the handler; the permit ends not ACTIVE, and only an active one changes |
| Coordinator.Tables.ApplyHalt | synod-coordinator/src/treasury.rs:119-152 | The treasury is halted without an active permit left; no row of another treasury changes |
| Coordinator.Tables.ReportOutcome | synod-coordinator/src/permit.rs:376-465 | Exactly the handler; keeps every invariant; it is booked if and only if every check but the status passes |
| Coordinator.Tables.ResumeTreasury | synod-coordinator/src/treasury.rs:154-188 | Succeeds for the owner only; the treasury ends healthy without drawdown, and if it was halted without an active permit |
| Coordinator.Tables.FinishResync | synod-coordinator/src/resync.rs:200-208 | The total is stored and is at most the peak, which never falls |
| Coordinator.Tables.ExpirePermits | synod-coordinator/src/main.rs:160-172 | No active permit is left past its time |
| Coordinator.Tables.CreateTreasury | synod-coordinator/src/treasury.rs:30-78 | The new treasury has the genesis constitution in force, and every invariant is kept |
| Coordinator.Tables.VerifyOwnership | synod-coordinator/src/wallet.rs:60-101 | The wallet ends active wherever it is listed, and no treasury that lists it still waits |
| Coordinator.Tables.RegisterWallet | synod-coordinator/src/treasury.rs:82-117 | Succeeds for the owner only; the wallet is listed and the active wallets are the same |
| Coordinator.Tables.RemoveWallet | synod-coordinator/src/treasury.rs:190-217 | Succeeds for the owner only; exactly this wallet leaves the active ones |
| Coordinator.Tables.ConfirmMultisig | synod-coordinator/src/multisig.rs:80-118 | Succeeds for the owner and a listed wallet only; exactly this wallet joins the active ones |
| Coordinator.Tables.RevokeMultisig | synod-coordinator/src/multisig.rs:131-311 | Succeeds for any user and a listed wallet when the transaction is accepted or skipped; exactly this wallet leaves the active ones |
| Coordinator.Tables.CreateOrUpdateConstitution | synod-coordinator/src/constitution.rs:307-376 | Succeeds if and only if the content is valid and the treasury exists, and then exactly this content is in force |
| Coordinator.Tables.RollbackConstitution | synod-coordinator/src/constitution.rs:378-403 | Succeeds if and only if the version is stored, and then what it reads as is in force |
| Coordinator.Tables.CreateProposal | synod-coordinator/src/proposal.rs:112-155 | A proposal for an existing treasury is accepted if and only if it is valid and no other is open |
| Coordinator.Tables.SignProposal | synod-coordinator/src/proposal.rs:171-312 | Exactly the handler; keeps every invariant; it executes if and only if the signature is taken and carries by the rule |
| Coordinator.Tables.CreateAgentSlot | synod-coordinator/src/agent.rs:484-541 | The slot created is the one found by its trimmed key, and keys stay distinct |
| Coordinator.Tables.ComputeConnectionStatus | synod-coordinator/src/agent.rs:425-482 | A slot is complete if and only if it is not barred, has a key and rules, and its key signs on every one of its wallets; the loop stops at the first that fails |
| Coordinator.Tables.StartPubkeyEnrollment | synod-coordinator/src/agent.rs:653-727 | A challenge is outstanding only for a slot that is not barred, and for the key it has |
| Coordinator.Tables.EnrollPubkey | synod-coordinator/src/agent.rs:729-799 | Exactly the handler with its two updates; keeps every invariant; success uses the challenge up |
| Coordinator.Tables.ConnectChallenge | synod-coordinator/src/agent.rs:849-898 | A challenge for the slot with the key, unless it is barred |
| Coordinator.Tables.ConnectComplete | synod-coordinator/src/agent.rs:900-1006 | A matching challenge is used up and the slot takes the status of its connection |
| Coordinator.Tables.McpConnectChallenge | synod-coordinator/src/mcp.rs:184-222 | A nonce for a well-formed key of a slot that is not barred |
| Coordinator.Tables.McpConnectComplete | synod-coordinator/src/mcp.rs:224-293 | Exactly the handler; success uses the nonce up and renews a slot that is not barred |
| Coordinator.Tables.AgentHeartbeat | synod-coordinator/src/agent.rs:1069-1103 | Exactly the handler; success renews the caller's own slot |
| Coordinator.Tables.SweepInactive | synod-coordinator/src/main.rs:174-203 | No active slot is left silent beyond ten minutes |
| Coordinator.Tables.SuspendAgent | synod-coordinator/src/agent.rs:1105-1134 | A slot of the treasury is suspended whatever its status |
| Coordinator.Tables.RevokeAgent | synod-coordinator/src/agent.rs:1136-1209 | Succeeds if and only if the slot exists in the treasury, and then the agent is gone |
| Coordinator.Tables.Serve | synod-coordinator/src/lib.rs:345-365 | Any sequence of requests, sweeps and clock ticks takes the tables through exactly the run of the transition system, and every invariant holds throughout |
| Coordinator.KeepingAliveNeverFails | synod-coordinator/src/mcp.rs:686-739 | On valid tables a refresh never fails and a heartbeat fails only at the session guard |
| Invariants.RunsStayGood | synod-coordinator/src/lib.rs:345-365 | Every run keeps all invariants together: references, counts, idle halted treasuries, sound histories, distinct keys, one open proposal |
| Wallets.RegisteringLists | synod-coordinator/src/treasury.rs:82-117 | Registering lists a new wallet as pending, keeps a listed one as it stands, and touches no other |
| Wallets.RemovingUnlists | synod-coordinator/src/treasury.rs:190-217 | Removing, and the multisig revocation, take exactly the one wallet off the list |
| Wallets.ConfirmingActivates | synod-coordinator/src/multisig.rs:80-118 | Confirming makes exactly the one wallet active |
| Wallets.ProofActivatesEverywhere | synod-coordinator/src/wallet.rs:76-101 | A proof activates the wallet wherever it is listed and makes exactly the waiting treasuries among those healthy; every other wallet stays as it stands |
| Signatures.PermitsNeedSignatures | synod-coordinator/src/auth.rs:314-360 | A permit, group, intent or outcome request that is not signed is refused and changes nothing |
| Signatures.OthersNeedSignatures | synod-coordinator/src/stellar.rs:7-40 | So is a wallet proof, a proposal signature, an enrolment and a connection, apart from marking an expired proposal |
| Signatures.BadSignatureChangesNothing | synod-coordinator/src/stellar.rs:7-40 | Over every step of the system |
| Statuses.EnrolmentStatus | synod-coordinator/src/agent.rs:778-799 | An enrolment leaves the slot with the key, INACTIVE when everything is in place and otherwise pending what is missing, whatever its status was |
| Statuses.HeldKeyIsRefused | synod-coordinator/migrations/20260414000000_synod_connect_v1.sql:10-12 | A key that another slot holds cannot be enrolled |
| Statuses.BarredIsRefused | synod-coordinator/src/auth.rs:126-159 | A suspended agent is told that it is suspended and a revoked one that it is revoked, with a session or a key, and nothing changes |
| Statuses.ConnectStatus | synod-coordinator/src/agent.rs:949-1006 | Connecting makes a complete slot ACTIVE and leaves a barred one as it was |
| Statuses.HeartbeatStatus | synod-coordinator/src/agent.rs:1069-1103 | So does a heartbeat, for the caller's own slot only |
| Statuses.McpStatusIsByRules | synod-coordinator/src/mcp.rs:262-293 | The MCP connection makes a slot ACTIVE if and only if it has a rule |
| Statuses.RefreshStatusIsByRules | synod-coordinator/src/mcp.rs:672-739 | So does the refresh, and it leaves barred and foreign slots alone |
| Statuses.SweepTakesTheSilent | synod-coordinator/src/main.rs:174-203 | The sweep makes INACTIVE exactly the active slots silent for more than 600 seconds |
| Intents.ParseAndResolve | synod-coordinator/src/mcp.rs:819-893 | An intent is accepted if and only if all checks pass and it has a destination, and it spends from a wallet the agent has a rule for |
| Intents.OnlySwapsPanic | synod-coordinator/src/mcp.rs:864-886 | The unwrapped destination panics exactly on swaps that pass every check and name none |
| Intents.ResolveWallet | synod-coordinator/src/mcp.rs:895-926 | The wallet named, if assigned, else the only one assigned; an error in every other case |
| Text.OnlyEndsAreTrimmed | synod-coordinator/src/mcp.rs:899-904 | Trimming takes white space off the two ends and nothing else |
| Spending.CheckTransaction | synod-coordinator/src/mcp.rs:1037-1101 | The cascade of the check passes exactly the single payments whose addresses, written with zero checksum bytes, asset, issuer, amount and memo are those of the intent |
| Spending.SomeTransactionPassesExactly | synod-coordinator/src/mcp.rs:1037-1101 | Some transaction passes the check of an intent if and only if both its addresses have zero checksum bytes, its asset is the native one, its amount is a whole number of units in 64 bits and its memo one a transaction can carry |
| Spending.AccountsAreExecutableExactly | synod-coordinator/src/mcp.rs:1242-1285 | Between accounts written with their true checksums only if both checksums are zero |
| Spending.ExecutedWithinApprovalExactly | synod-coordinator/src/mcp.rs:1037-1082 | A transaction that passes for an approved intent spends what was asked, which is within the approval if and only if before the submission it fit the agent's headroom and the tier limit |
| Spending.PartialMeansLess | synod-coordinator/src/policy/mod.rs:35-58 | An approval has a partial reason if and only if it is for less than was asked |
| Witnesses.APartialIntentIsSpentInFull | synod-coordinator/src/mcp.rs:1076-1082 | For any two keys, a run from the empty store in which an intent of fifty between their unchecked addresses is approved for ten and a payment of fifty passes |
| Witnesses.AnApprovedIntentCannotBeExecuted | synod-coordinator/src/mcp.rs:1037-1043 | For any account with a checksum other than zero, a run in which its intent is approved and no transaction passes |
| System.AskingJudges | synod-coordinator/src/permit.rs:511-656 | Any request changes nothing or inserts rows each of which is the engine's verdict given all rows before it |
| System.StepGrantsOrAdvances | synod-coordinator/src/permit.rs:60-134 | Every step of the system either grants rows in this way or only moves the rows there forward |
| Lifecycle.StepGrows | synod-coordinator/src/permit.rs:422-429 | No step loses a permit, alters a grant or lowers the rank of a status |
| Lifecycle.AtMostTwoStatusChanges | synod-coordinator/src/mcp.rs:1199-1230 | Over any run a permit's status changes no more often than its rank rises, so at most twice |
| Lifecycle.SettledStaysSettled | synod-coordinator/src/main.rs:163-165 | ACTIVE is never entered again and CONSUMED never left |
| Lifecycle.RunsStaySane | synod-coordinator/src/treasury.rs:119-152 | Every run keeps permits referring to existing rows of one treasury, counts within 32 bits, and halted treasuries without active permits |
| Lifecycle.ReachableStatesAreSane | synod-coordinator/src/treasury.rs:119-152 | In every reachable state a halted treasury has no active permit |
| Lifecycle.StepKeepsHaltedIdle | synod-coordinator/src/wallet.rs:90-101 | No step, wallet activation included, gives a halted treasury an active permit |
| Lifecycle.CastsAreExact | synod-coordinator/src/permit.rs:625-626 | In such states the casts of the counts to 32 bits never change them |
| Reports.ReportIsBookedWhateverTheStatus | synod-coordinator/src/permit.rs:376-465 | A report is booked if and only if session, agent, signature and rules pass, whatever the status; the permit ends CONSUMED, its treasury's total moves by the result and no other; a refused one changes nothing |
| Reports.SettledMovesExactly | synod-coordinator/src/permit.rs:422-429 | A denied, expired, revoked or failed permit changes status exactly when its transaction is committed or its outcome accepted, and then to CONSUMED |
| Reports.BookedAgainExactlyWhenReportedAgain | synod-coordinator/src/permit.rs:422-440 | After any run an outcome once booked is booked again if and only if it is reported again, signed, from an authenticated session of the permit's agent |
| Reports.TotalIsTheLedger | synod-coordinator/src/permit.rs:420-440 | Over any run a treasury's total is its last resync and every report accepted since; nothing else moves it |
| Witnesses.ADeniedPermitIsConsumedAndBookedTwice | synod-coordinator/src/permit.rs:422-440 | A run from the empty store denies a permit, consumes it by a report and books the same report twice |
| Reservations.GrantBelowCap | synod-coordinator/src/policy/rules.rs:38-52 | A grant needs room below the cap and ends at most one rounding above it |
| Reservations.ReservationsStayBelowHighWater | synod-coordinator/src/permit.rs:629-653 | Over any run of non-negative requests an agent's reservations on a wallet exceed the largest cap in force at a grant by at most one rounding in all |
| Reservations.SevenPlacesStayBelowHighWater | synod-coordinator/migrations/20260330000001_initial.sql:110-111 | As the store rounds, by at most half a unit in the seventh place |
| WalletConservation.AllowancesAddUp | synod-coordinator/src/constitution.rs:87-122 | What the first rules of all agents allow on a wallet adds up to at most the total that validation bounds, duplicate rules included |
| WalletConservation.WalletSplitsByAgent | synod-coordinator/src/permit.rs:574-584 | A wallet's reservations are the sum of those of the treasury's agents |
| WalletConservation.AgentsStayWithinAllowance | synod-coordinator/src/policy/rules.rs:32-53 | Over a calm run each agent, those created on the way included, stays within its share of the assets |
| WalletConservation.WalletIsConserved | synod-coordinator/src/permit.rs:553-603 | While version and assets hold, all agents together hold on a wallet no more than the treasury's assets, and one rounding for each rule on it |
| WalletConservation.ExactWalletIsConserved | synod-coordinator/src/permit.rs:553-603 | With exact storage, from any reachable state with nothing active on the wallet, no more than the assets |
| Recovery.OutcomeHaltsOnDrawdown | synod-coordinator/src/permit.rs:441-452 | After an outcome the treasury is halted if and only if it was before or the drawdown rule fires on the new total |
| Recovery.OutcomeLeavesHaltedOrPassingRule8 | synod-coordinator/src/policy/rules.rs:87-104 | So right after any outcome the treasury is halted or every request passes rule 8 |
| Recovery.HaltsAndSweepsSettleExactly | synod-coordinator/src/treasury.rs:119-152 | A halt revokes exactly the treasury's active permits, a sweep expires exactly the active permits past their time |
| Drawdown.LimitAfter | synod-coordinator/src/constitution.rs:321-403 | After any step the limit in force is that of the valid update, stored rollback target or carried proposal the step names, and otherwise the one before; a revocation keeps it |
| Drawdown.GuardBreaksExactly | synod-coordinator/src/resync.rs:200-208 | A treasury that is halted or passes rule 8 stops being so exactly at a resync to too low a total, or at such an update, rollback or proposal whose limit the drawdown has already reached, told from the step and the state before it |
| Drawdown.GuardHolds | synod-coordinator/src/permit.rs:441-452 | Over every run without a resync of the treasury or a lower limit it stays halted or passing rule 8 |
| Drawdown.NewTreasuryIsGuarded | synod-coordinator/src/treasury.rs:30-78 | A treasury starts out so |
| Witnesses.AResyncHaltsNothing | synod-coordinator/src/resync.rs:200-208 | A run from the empty store resyncs a treasury to a tenth of its peak and leaves it healthy |
| Witnesses.ATighterLimitHaltsNothing | synod-coordinator/src/constitution.rs:321-354 | A run from the empty store in which a version with a lower limit leaves a treasury healthy beyond it |
| Recovery.ResumeRestoresState | synod-coordinator/src/treasury.rs:154-188 | A halted treasury resumes with nothing reserved, no permit counted and no drawdown |
| Recovery.ResumeRestoresCapacity | synod-coordinator/src/treasury.rs:119-188 | In any reachable state the first non-negative request after resuming is approved if and only if there are assets, for exactly the smallest of request, tier limit and whole share |
| Groups.GroupsAreTransactions | synod-coordinator/src/permit.rs:154-218 | A group commits a true row for every leg or changes nothing; with `require_all` only approved legs are ever committed |
| Groups.GroupTotalsAreSums | synod-coordinator/src/permit.rs:203-215 | In every reachable state a group's recorded totals are the sums over its rows, approved ones to within a rounding a row |
| GroupRows.RequestOpensAGroup | synod-coordinator/src/permit.rs:84-124 | A permit request opens one require-all group with its two amounts for an hour, ACTIVE if approved and else DENIED |
| GroupRows.IntentOpensAGroup | synod-coordinator/src/mcp.rs:338-392 | An intent opens one likewise, EXECUTING if approved |
| GroupRows.GroupRequestOpensAGroup | synod-coordinator/src/permit.rs:154-218 | A group request that is not rolled back opens one ACTIVE group of the asker |
| GroupRows.ExecutionClosesTheGroup | synod-coordinator/src/mcp.rs:1199-1240 | A commit marks exactly the permit's group CONSUMED, a failed execution FAILED |
| GroupRows.RevocationClosesTheGroups | synod-coordinator/src/agent.rs:1172-1180 | A revocation marks REVOKED exactly the agent's PENDING and ACTIVE groups in the treasury |
| GroupRows.StepMovesGroups | synod-coordinator/src/permit.rs:84-218 | Over every step a group keeps who it belongs to and its status, or closes; new ones belong to agents that are not barred |
| GroupEffects.SortIsStable | synod-coordinator/src/permit.rs:159-161 | The legs are taken by wallet, and in the order given on each wallet |
| GroupEffects.GroupIsItsLegsOneByOne | synod-coordinator/src/permit.rs:84-124 | An error-free group without `require_all`, whatever agents its legs name, gives the verdicts and permits of its legs granted singly in wallet order |
| GroupEffects.AskedIsGrantedExactlyWhenAllAuthenticate | synod-coordinator/src/auth.rs:126-159 | Asked for in sessions of their own, the legs are granted the same if and only if every agent they name passes the session guard |
| GroupEffects.LegsFillTheHeadroom | synod-coordinator/src/policy/mod.rs:35-58 | After any number of legs on one wallet the loop has granted the smaller of the headroom and the sum of the tier-limited requests |
| GroupEffects.GroupTotalIsClosedForm | synod-coordinator/src/permit.rs:159-208 | The total a committed group records is that closed form |
| GroupEffects.LegOrderDoesNotMatter | synod-coordinator/src/permit.rs:159-208 | The same legs in any order are granted the same total |
| ConstitutionLog.CurrentReadsTheNewest | synod-coordinator/src/permit.rs:537-552 | On a sound log the row of the version column and the newest row read the same valid rules |
| Store.NewestIsLargest | synod-coordinator/src/constitution.rs:321-354 | The newest version is the largest, whatever order and gaps the rows have |
| Store.ContentIsOfItsVersion | synod-coordinator/src/permit.rs:537-552 | A content is read exactly when a row has the version, and belongs to such a row |
| ConstitutionLog.StepMovesLogs | synod-coordinator/src/constitution.rs:307-403 | Each step leaves a treasury's history alone or extends it by one valid version |
| ConstitutionLog.LogsStaySound | synod-coordinator/src/constitution.rs:321-354 | Over any run the history loses and changes nothing, its numbers are 0 to n, the version column is n, and every version is valid, whichever writer wrote it |
| ConstitutionLog.ReadersAlwaysAgree | synod-coordinator/src/mcp.rs:799-817 | In every reachable state the engine and the agent handlers see the same valid rules |
| ConstitutionLog.RollbackNeverFailsValidation | synod-coordinator/src/constitution.rs:378-403 | In every reachable state rolling back succeeds if and only if the version is stored |
| ConstitutionLog.RollbackReproduces | synod-coordinator/src/constitution.rs:378-403 | The new head reads as the version rolled back to, and is the same document if and only if that version is in the current form |
| ConstitutionLog.RemovalExtends | synod-coordinator/src/agent.rs:270-327 | On a sound log removing an agent's rules cannot fail and leaves the log sound |
| ConstitutionLog.RevokingMovesLogs | synod-coordinator/src/agent.rs:1136-1209 | Revoking succeeds if and only if the slot exists in the treasury |
| ConstitutionLog.ResolvedIntentIsProcessed | synod-coordinator/src/mcp.rs:315-392 | An intent resolved against the newest rules never fails against the rules of the version column |
| Revocation.GoneForGood | synod-coordinator/src/agent.rs:1136-1209 | Once gone, over any run an agent stays barred and without key, enrolment, active permit or open group |
| Revocation.RevocationSettlesExactly | synod-coordinator/src/agent.rs:1158-1203 | A revocation settles exactly the agent's active permits in the treasury, clears exactly its slot, and drops its connect challenge |
| Revocation.ShutForGood | synod-coordinator/src/agent.rs:653-813 | A barred slot without an outstanding enrolment stays barred over any run and keeps its key or loses it |
| Revocation.SuspensionIsFinal | synod-coordinator/src/agent.rs:1105-1134 | Suspending such a slot is final |
| Revocation.OnlyAnEnrolmentLiftsSuspension | synod-coordinator/src/agent.rs:729-799 | A step unbars a slot if and only if it answers, in time and signed, the enrolment outstanding with its nonce, wallet and key |
| Witnesses.ASuspensionIsLifted | synod-coordinator/src/agent.rs:729-799 | A run from the empty store in which a suspension is lifted so |
| Revocation.RevocationIsFinal | synod-coordinator/src/agent.rs:1136-1209 | In any reachable state revoking a slot succeeds and makes its agent gone in every later state |
| AgentKeys.EnrolmentConfirmsTheKey | synod-coordinator/src/agent.rs:653-813 | In every reachable state an outstanding enrolment is for the key its slot has, which no other slot holds |
| AgentKeys.RunsKeepKeysSound | synod-coordinator/migrations/20260414000000_synod_connect_v1.sql:10-12 | Over any run keys are distinct and a slot without a key stays dismissed |
| Lifetimes.PermitLastsAnHour | synod-coordinator/src/main.rs:163-165 | A granted permit lapses in a sweep if and only if more than 3600 seconds have gone by, its grant unchanged |
| Lifetimes.ProposalLastsThreeDays | synod-coordinator/src/proposal.rs:124-155 | A proposal blocks others for less than 72 hours, takes a signature up to 72 hours, and is marked expired by a later one |
| Lifetimes.EnrolmentIsAnsweredOnceInTime | synod-coordinator/src/agent.rs:729-813 | A right answer is refused as expired if and only if the clock's second is 600 or more on, and in reachable states accepted if and only if not; in time it uses the challenge up, a wrong signature does not |
| Lifetimes.ConnectIsAnsweredOnceInTime | synod-coordinator/src/agent.rs:900-960 | For connecting a right answer is refused as expired from 300 seconds on, in reachable states accepted exactly before, and used up |
| Lifetimes.McpNonceIsAnsweredOnceInTime | synod-coordinator/src/mcp.rs:224-262 | For the MCP nonce a right answer is refused as expired from 120 seconds on, in reachable states accepted exactly before, and used up |
| Lifetimes.HeartbeatOutlastsTheSweep | synod-coordinator/src/main.rs:174-203 | After a heartbeat of a complete agent the sweep takes it if and only if it is silent for more than 600 seconds |
| Lifetimes.PathsAgreeExactlyWhenSigned | synod-coordinator/src/mcp.rs:672-720 | For every unbarred slot of a reachable state the MCP refresh and a heartbeat give one status if and only if the agent has no rules or its key signs on all its wallets |
| Witnesses.TheTwoPathsDisagree | synod-coordinator/src/mcp.rs:672-720 | A reachable state in which they do not |
| Voting.ExecutesAtMostOnce | synod-coordinator/src/proposal.rs:259-312 | Over any run a proposal is executed once if it was pending and ends executed, and otherwise not at all |
| Voting.ProposalIsStored | synod-coordinator/src/proposal.rs:112-155 | A valid proposal with none open is stored with the content proposed, unsigned, for 72 hours, and nothing else changes |
| Voting.ExecutionInstallsTheProposal | synod-coordinator/src/proposal.rs:276-312 | Execution puts exactly the proposed rules in force |
| Voting.SigningRule | synod-coordinator/src/proposal.rs:188-284 | A signature executes if and only if it is taken and all signatures stored, from whatever wallets and paths, with it outnumber half of the wallets now active in the treasury of the path |
| Voting.MajorityWithoutTheAbsent | synod-coordinator/src/proposal.rs:259-275 | When every earlier signer is active in the treasury of the path, an executing signature makes a strict majority of its active wallets; when some are not, exactly if the others suffice |
| Voting.RunsKeepSignersDistinct | synod-coordinator/src/proposal.rs:217-231 | Over any run no wallet signs a proposal twice |
| Voting.ExecutedOnlyByTheRule | synod-coordinator/src/proposal.rs:259-284 | Over any run a proposal comes to be executed only by a signature that carries it by this rule |
| Witnesses.ARemovedWalletStillCounts | synod-coordinator/src/proposal.rs:259-275 | A run from the empty store in which one of two active wallets executes with the signature of a removed one |
| Witnesses.AForeignProposalIsExecuted | synod-coordinator/src/proposal.rs:204-312 | A run from the empty store in which a proposal of one treasury, signed there once, is executed into another by one of its two wallets |
| Voting.VotesStayFair | synod-coordinator/src/proposal.rs:188-231 | While the wallets active where a proposal is signed are a fixed set, its signers are distinct members of it and an executed one has a strict majority of it; between signatures wallets may change |
| Voting.ExecutedProposalsShareASigner | synod-coordinator/src/proposal.rs:259-284 | Then any two executed proposals of a treasury share a signer |
| Voting.AtMostOneOpenProposal | synod-coordinator/src/proposal.rs:124-155 | As time passes a treasury has at most one unexpired pending proposal |
| Voting.SecondSignableExpiresNow | synod-coordinator/src/proposal.rs:188-201 | Of two proposals of one treasury that can be signed at once, one expires at this instant |
| Voting.PathSignsForAnyTreasury | synod-coordinator/src/proposal.rs:178-231 | A wallet active in the treasury of the path signs an unsigned proposal if and only if it is pending and not expired, whichever treasury it is for; two it may sign at once are of different treasuries or one expires now |
| Witnesses.AWalletSignsForAnotherTreasury | synod-coordinator/src/proposal.rs:178-216 | A run from the empty store with one unexpired proposal for each of two treasuries, both of which a wallet of the first can sign |
| Voting.BoundaryAdmitsASecond | synod-coordinator/src/proposal.rs:124-155 | At that instant a new proposal is accepted beside the expiring one |
| Witnesses.TwoProposalsCanBeSigned | synod-coordinator/src/proposal.rs:124-155 | A run from the empty store that reaches this instant |
| CanonicalJson.SerializeCanonicalValue | synod-coordinator/src/mcp.rs:977-1007 | The recursive printer computes one text for a value, in whatever order maps at any depth yield their entries |
| CanonicalJson.SortedKeys | synod-coordinator/src/mcp.rs:990-992 | The keys of an object are put in strictly ascending order, whatever the iteration order |
| Lex.LeqMeans | synod-coordinator/src/mcp.rs:990-992 | The order of keys and wallets: the one that goes on, or has the greater character where they first differ, comes later |
| ShortestText.EscapeIsShortest | synod-coordinator/src/mcp.rs:979-981 | No spelling of a character is shorter than its escape, and no other is as short |
| ShortestText.StringIsShortest | synod-coordinator/src/mcp.rs:979-981 | The same for whole strings |
| ShortestText.CanonicalIsShortest | synod-coordinator/src/mcp.rs:977-1007 | Whatever text reads as a value, repeated keys and longer escapes included, is at least as long as its canonical text |
| CanonicalJson.ParseInverts | synod-coordinator/src/mcp.rs:977-1007 | The parser gives back every printed value and the text after it |
| CanonicalJson.PrintIsInjective | synod-coordinator/src/mcp.rs:969-1007 | Two values have one canonical text if and only if they are equal |
| CanonicalJson.PrintIsPrefixFree | synod-coordinator/src/mcp.rs:969-1007 | No canonical text goes on as another, numbers apart |
| EventLog.EveryInterleavingIsGapless | synod-coordinator/src/lib.rs:292-326 | Whatever the interleaving, each treasury's committed sequence numbers are 1 to n, shared lock keys included |
| EventLog.UniqueNeverFires | synod-coordinator/migrations/20260330000001_initial.sql:138 | No insert of a writer under its lock meets the unique index |
| EventLog.UninterruptedWriter | synod-coordinator/src/lib.rs:292-326 | A writer left alone appends exactly the next row and releases its lock |
| EventLog.EventTable.PersistTreasuryEvent | synod-coordinator/src/lib.rs:292-326 | One persisted event is the next row of its treasury |
| Replay.ReplayGuard.VerifySignedRequest | synod-coordinator/src/auth.rs:314-360 | Key, window, replay and signature are tested in this order, and only an admitted request is remembered |
| Replay.AdmittedAtMostOnce | synod-coordinator/src/auth.rs:325-358 | Over any run a request first admitted later than the first second of its window is never admitted again |
| Replay.AdmittedExactly | synod-coordinator/src/auth.rs:325-358 | A request is admitted if and only if key, window and signature are right and every earlier admission of its identifier, under whatever timestamp, is at least 600 seconds old |
| Replay.ReplayOnlyAtWindowEnds | synod-coordinator/src/auth.rs:325-358 | A second admission of one identifier and timestamp is possible only from the first second of the window to its last |
| Replay.WindowEndsAdmitTwice | synod-coordinator/src/auth.rs:325-358 | At those two seconds every well-signed request is admitted twice |
| Crc16.Crc16Xmodem | synod-coordinator/examples/generate_keys.rs:37-50 | The nested loops compute the checksum of the linear register |
| Crc16.CrcXorLinear | synod-coordinator/examples/generate_keys.rs:37-50 | The checksum is linear over exclusive-or on inputs of one length |
| Crc16.BurstDetected | synod-coordinator/examples/generate_keys.rs:37-50 | Inputs that differ only within one byte or two adjacent ones have different checksums |
| Crc16.CrcZeroExactly | synod-coordinator/examples/generate_keys.rs:37-50 | A text followed by its own checksum, high byte first, has checksum zero, and followed by no other two bytes |
| StrKey.EncodeWithChecksum | synod-coordinator/examples/generate_keys.rs:26-35 | Version, key and little-endian checksum in Base32 |
| StrKey.EncodeStellarAddress | synod-coordinator/src/mcp.rs:1279-1285 | Version and key with two zero bytes in place of the checksum |
| StrKey.CheckedIsUncheckedExactly | synod-coordinator/src/mcp.rs:1279-1285 | The MCP encoder writes the address of an account as the network does if and only if its checksum is zero |
| StrKey.OneKeyIn65536 | synod-coordinator/src/mcp.rs:1279-1285 | Of the keys with the same first 30 bytes that is so for exactly one, whose last two bytes are given |
| StrKey.DecodeStellarAddress | synod-coordinator/src/stellar.rs:71-88 | A text is decoded if and only if it is a well-formed address, and to the key it was made from; the checksum is not tested |
| StrKey.DecodeInvertsEncode | synod-coordinator/src/stellar.rs:71-88 | Decoding inverts both encoders on every 32-byte key |
| StrKey.EncodedAddressIsAccepted | synod-coordinator/src/mcp.rs:951-959 | Every encoded address has 56 characters, starts with G and is accepted as a public key |
| StrKey.EncodeDecode | synod-coordinator/src/stellar.rs:71-88 | Encoding inverts decoding on whole groups of symbols |

## Left out

- Routing, cookies, sessions, JWT, passwords and passkeys; rate limits; WebSocket loops and event envelopes.
- Ed25519, SHA-256, XDR decoding and co-signing: whether a signature verifies and whether a transaction was accepted are inputs.
- Horizon calls, prices and signer lookups: their results are inputs.
- Floating point: amounts are exact, and only the stored approved amount of a permit is rounded; group totals and treasury totals are stored exactly.
- The 32-bit version number: versions are unbounded, so the overflow after 2^31 versions is not modelled.
- Identifiers: row numbers in place of UUIDs, written in decimal in constitution documents.
- Database isolation and failing key-value operations: each handler is atomic and challenges are always set and deleted.
- Negative requests: the code accepts them; sums are bounded only for runs without them.
- The scrubbing of a revoked agent's name from the memo: the memo after scrubbing is an input of `RevokeAgent`.
- Descriptions of agents and names of treasuries, which no decision depends on.
- How the network library shows the bytes of a memo as text: the texts it can show are an input of `SomeTransactionPassesExactly`.
- Coordinator.Tables.SubmitIntent: the insert of the permit also fails for an asset code over 12 characters or an amount outside NUMERIC(20,7); columns are unbounded here.
- ConstitutionLog.ResolvedIntentIsProcessed: for the same reason it does not cover an insert refused by the column types.
- Coordinator.Tables.ProcessSinglePermit: likewise, for all three ways of asking.
- Co-signing on request (`cosign_permit`, `approve_signer`): it changes no row of the model.
- The connections of users' wallets and the watchers of the network: no modelled handler reads them.
