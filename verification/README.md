# Paperboat server: connector control protocol and billing, verified

A Dafny model of the parts of the Paperboat server where many fields and several parties have to agree.

- **Control sessions.** A server offers configuration generations to a connector process, first as a full snapshot
  and then as deltas. The connector stages a candidate, acknowledges it, activates it and reports readiness; the
  server then promotes it. Heartbeats, leases, renewals, drains and process replacement interleave with this.
- **Persistence.** Every transition of a server session is followed by a store write; a session whose write failed
  is closed.
- **Credential rotation.** A set of connectors moves, each through its own phases, to new credentials. No old
  credential is ordered revoked before every replacement is ready, through store failures and restarts.
- **Billing.** An idempotent credit ledger under repeated webhook delivery, prorated plan switches, seat pricing
  and the charge previewed for an upgrade.
- **JSON.** The two walkers that refuse repeated names.

## How it is built

Each state machine is a function from state and input to state, reply and store writes (`ServerSpec`, `ClientSpec`,
`PersistenceSpec`, `RotationSpec`, `CreditLedger`). The theorems are about runs of that function. Modules named
`Effects` say of every single call what it needs, what it leaves and why it refuses, on the message and the state
alone. Beside it stands a class with the fields of the original, updated in place; each of its methods is proved to
perform exactly the specified step, and the session classes carry the invariants of the runs as their class invariant.
`dafny verify dfyconfig.toml` checks everything.

| files | contents |
|---|---|
| `wrappers.dfy`, `protocol.dfy` | messages, codes, limits |
| `server_spec.dfy`, `server_runs.dfy`, `server_effects.dfy`, `server_leases.dfy`, `server_session.dfy`, `registry.dfy`, `fencing.dfy`, `dispatchers.dfy` | the server half, its registries |
| `client_spec.dfy`, `client_runs.dfy`, `client_effects.dfy`, `client_session.dfy` | the connector half |
| `two_party.dfy`, `in_order.dfy` | both halves and the network between them |
| `persistence_spec.dfy`, `persistence_effects.dfy`, `persistent_session.dfy` | fail-closed persistence |
| `rotation_messages.dfy`, `rotation_plan.dfy`, `rotation_spec.dfy`, `rotation_runs.dfy`, `rotation_theorems.dfy`, `rotation_trail.dfy`, `rotation_effects.dfy`, `rotation_success.dfy`, `rotation_coordinator.dfy`, `rotation_windows.dfy` | credential rotation |
| `credit_ledger.dfy`, `credit_books.dfy`, `webhooks.dfy`, `proration.dfy`, `int64.dfy`, `pricing.dfy`, `preview.dfy` | billing |
| `json_walk.dfy` | the JSON walkers |

Clock readings, the outcomes of store writes, authenticator and applier calls, random identifiers and what recovery
loads are parameters. Times are nanoseconds. The results of checks on encodings, digests, keys and signatures are
carried by fields of the values they check (`sound`, `signed`, `decodes`, `matches`). `ServerSession.Renew`, which
drops its lock around the authenticator call, is two steps; every other operation is one.

## Where the code and what is said about it differ

The model follows the code. Each point is a lemma with its exact condition.

- A comment on heartbeats says readiness withdrawn by a mismatch needs a matching full snapshot
  (`internal/connectorprotocol/session.go:640-643`). Without one, a readiness for whatever is then awaited restores it:
  the active configuration, a staged one, or a delta acknowledged since (`ServerRuns.ReadinessReturnsIff`).
- An offer is ordered only against the active generation, so an offer older than the staged one can lower the active
  generation (`ServerRuns.OfferIsSafeIffForward`, `ServerRuns.OvertakeLowers`).
- The two sides can stage different contents of one generation, exactly when a generation is offered again with other
  content (`TwoParty.HeldContentsCanDifferIff`). Active ones agree always (`TwoParty.Agreement`).
- The store can end with a drain status or code the session does not have, among others from a rejection that reaches a
  session already closed or expired (`PersistenceSpec.DrainAgreesUnlessRewritten`).
- Recovery does not check the revocation gate across targets (`RotationRuns.ResumeKeepsInvIffGated`), and a target
  failed before the coordinator was started can come back (`RotationTheorems.ResumeLowersIff`). A failure whose write
  failed is forgotten by a restart (`RotationTrail.RecoveryFromTheLog`).
- Amounts finer than a millionth of a credit are rounded when stored: a tie breaks conservation
  (`CreditLedger.LedgerIsConservedIff`) and a repeat of any of them is a conflict, as is a repeated plan switch whose
  cap has changed (`CreditLedger.RepeatSucceedsIff`). The direction of an adjustment is not part of what its key
  protects (`CreditLedger.SecondAdjustmentIff`).
- A rotation whose installed key runs out before the replacement reports ready is neither failed nor able to succeed
  (`RotationSuccess.CanSucceedIff`, `RotationSuccess.StuckForGood`).
- Of a closed session, a late rejection of its last offer or its drain is still written
  (`PersistenceEffects.ClosedCallEffect`).
- A plan switch down and back up can gain credits (`Proration.ThereAndBackOnTheLedgerIff`).
- The previewed charge of an upgrade is the quotient of a reduced fraction whose parts are converted to 64-bit integers
  first (`internal/billing/billing.go:601`). It is the prorated difference exactly when the numerator fits
  (`Previews.PreviewIsShareIff`); over a month of nanoseconds a difference of 3559 minor units may already be too
  much, and the preview can be negative (`Previews.PreviewCanBeNegative`).
- Volume pricing can make an upgrade cheaper than nothing, exactly when a tier boundary drops
  (`Previews.VolumePreviewFitsIff`).
- The two JSON walkers differ: one limits the depth, and only the other fails on numbers no 64-bit float can hold
  (`JsonWalk.WalkersDifferIff`).

## Model

| member | source | states |
|---|---|---|
| `TwoParty.Agreement` | internal/connectorprotocol/session.go:481-516 | Over a network that drops, duplicates, reorders and forges everything but readiness, in every run: the server's active configuration is one the client has activated exactly, the client is at that generation or past it, and what it holds at that generation has the same hash |
| `TwoParty.NextKeepsInv` | internal/connectorprotocol/session.go:1214-1279 | Activated generations strictly increase, every readiness ever sent names an activated configuration, and the server's active configuration is among them: kept by any step of either side |
| `TwoParty.HeldConfigurationsAgree` | internal/connectorprotocol/session.go:374-453 | However many configurations are offered, while no generation among them has two hashes, active and staged configurations of both sides agree on every generation they share, in every run |
| `TwoParty.HeldContentsCanDifferIff` | internal/connectorprotocol/session.go:536-563 | From a fresh pair, a run that offers nothing but the first snapshot and those of any finite set can leave the sides holding different contents of one generation exactly when two of all these have one generation and different hashes: then some run does in which the peers sent every message, otherwise none does even with forged acknowledgements |
| `InOrder.HeartbeatsAreCompatible` | internal/connectorprotocol/session.go:628-650 | On in-order, loss-free channels with one snapshot and then deltas, no heartbeat the client sent is ever answered that a snapshot is required, through failed applies, rejections and failed activations |
| `InOrder.ServerTakesFits` | internal/connectorprotocol/session.go:566-594 | A queued message meets the server in the state it was written for: acknowledgements and readiness take effect and heartbeats name the expected configuration |
| `InOrder.RunKeepsInv` | internal/connectorprotocol/session.go:1281-1302 | After any run, replaying the queued messages on the server brings it to exactly what the client holds, with at most one offer under way |
| `ServerRuns.AcceptEstablishesInv` | internal/connectorprotocol/session.go:216-267 | A newly accepted session has one pending snapshot, nothing active, and satisfies the session invariant |
| `ServerRuns.StepKeepsInv` | internal/connectorprotocol/session.go:291-301 | Any operation keeps: never two pending offers; a pending delta extends the active generation by one with nothing staged; readiness is 0 or the active generation; Ready and Draining mean ready and owing no snapshot; AwaitingReady means a candidate |
| `ServerRuns.RunKeepsInv` | internal/connectorprotocol/session.go:374-662 | The session invariant holds after every run of operations |
| `ServerRuns.AckNeverFindsGap` | internal/connectorprotocol/session.go:429-431 | The generation-gap branch of a delta acknowledgement is unreachable from any state satisfying the invariant |
| `ServerRuns.CurrentReadyIsStateReady` | internal/connectorprotocol/session.go:1739-1751 | In every reachable state, Current reports ready exactly when the session state is Ready |
| `ServerRuns.ClosedIsAbsorbing` | internal/connectorprotocol/session.go:334-358 | Nothing about a closed session changes in any later run |
| `ServerRuns.ReadinessReturnsIff` | internal/connectorprotocol/session.go:481-516 | From an active configuration that is not ready, in any run that offers no snapshot, the session becomes Ready exactly when a full readiness arrives, the gate open, for the offer then outstanding if its first answer was positive, or else for what was staged, or else for the active configuration |
| `ServerRuns.WithdrawnReadinessReturns` | internal/connectorprotocol/session.go:637-650 | A heartbeat for another configuration withdraws readiness and leaves offer, staged and active configuration alone; from there Ready returns exactly as ReadinessReturnsIff says, and offering the active configuration transfers nothing |
| `ServerRuns.DrainIsStable` | internal/connectorprotocol/session.go:668-752 | A drain request never changes once begun, its terminal status and code are fixed by the first terminal acknowledgement, and while Draining the drained configuration is the active one, over every run |
| `ServerRuns.AcceptEstablishesLeaseInv` | internal/connectorprotocol/session.go:250-265 | The lease of an accepted session is within the credential and within the lease duration of its first contact |
| `ServerRuns.LeaseIsSafe` | internal/connectorprotocol/session.go:334-358 | Over every run of heartbeats and two-step renewals the lease never outlives the credential or the last contact plus the lease duration, and no operation succeeds after any of them ran out |
| `ServerRuns.SuccessIsInTime` | internal/connectorprotocol/session.go:596-662 | An operation that succeeds was called before lease and credential expiry and within two heartbeat intervals of the last contact |
| `ServerRuns.HeartbeatsNeverReplay` | internal/connectorprotocol/session.go:618-620 | The send times of the heartbeats a run accepts strictly increase, so none is accepted twice |
| `ServerRuns.SilenceIsFinal` | internal/connectorprotocol/session.go:353-356 | Once more than two heartbeat intervals passed in silence, no later operation but closing succeeds |
| `ServerRuns.ForwardRunsNeverLower` | internal/connectorprotocol/session.go:536-563 | The active generation never decreases in a run whose offered snapshots are never older than the staged candidate |
| `ServerRuns.OvertakeLowers` | internal/connectorprotocol/session.go:518-564 | With a pending snapshot older than the staged candidate, reporting the candidate ready, acknowledging the snapshot and reporting that ready lowers the active generation |
| `ServerRuns.OfferIsSafeIffForward` | internal/connectorprotocol/session.go:540-563 | After an accepted offer, no further run lowers the active generation, its own offers being forward, exactly when the offer is not older than the staged candidate |
| `ServerEffects.AcceptsIff` | internal/connectorprotocol/session.go:216-267 | A session is accepted exactly for a sound greeting of the process the authenticator names, a valid snapshot of its tunnel and a valid identifier, when a heartbeat of at least a millisecond fits into the lease |
| `ServerEffects.AcceptedState` | internal/connectorprotocol/session.go:238-265 | It begins with the earlier of the two leases, contact now and the snapshot addressed to it outstanding |
| `ServerEffects.ClosesIff` | internal/connectorprotocol/session.go:334-372 | An operation closes an open session exactly when it asks to, or is well formed and too late; the first cause is the reason recorded and nothing else changes |
| `ServerEffects.AckEffect` | internal/connectorprotocol/session.go:374-453 | The first answer to an offer decides it: positive stages it, negative takes it back and leaves a snapshot owed; any other acknowledgement changes nothing |
| `ServerEffects.ReadinessEffect` | internal/connectorprotocol/session.go:481-516 | The newest configuration becomes active exactly by a readiness for it with edge, route and origin ready |
| `ServerEffects.OfferEffect` | internal/connectorprotocol/session.go:518-564 | An offer becomes outstanding exactly when addressed to the session, not older than the active configuration and of a generation not held; a repeat of what is held is answered without a transfer |
| `ServerEffects.OfferNextEffect` | internal/connectorprotocol/session.go:566-594 | A delta becomes outstanding exactly when it extends an active configuration that is ready, with no snapshot owed, nothing staged and nothing outstanding |
| `ServerEffects.HeartbeatEffect` | internal/connectorprotocol/session.go:596-662 | A timely heartbeat for the configuration due makes the lease the earlier of credential expiry and the lease duration from now, and acknowledges that; one for another configuration withdraws readiness; any other changes nothing |
| `ServerEffects.StartRenewalEffect` | internal/connectorprotocol/session.go:787-807 | A renewal begins exactly for the session's own host, key and credential generation |
| `ServerEffects.EndRenewalEffect` | internal/connectorprotocol/session.go:808-835 | It ends in the new credential exactly when nothing was renewed since, with the lease the earlier of the lease duration from its beginning and the lease granted |
| `ServerEffects.StartDrainEffect` | internal/connectorprotocol/session.go:668-702 | A drain starts exactly on a capable, Ready session without one, with a deadline within a day, and asks for the deadline and force given; under its own identifier it is repeated, under another refused |
| `ServerEffects.DrainAckEffect` | internal/connectorprotocol/session.go:707-752 | An acknowledgement is recorded exactly while the drain has not ended; a rejection restores the state, and after the end only a repeat is well answered |
| `ServerEffects.RefusalsAreTrue` | internal/connectorprotocol/session.go:334-835 | The code of every refusal is true of the message, of the gate or of what the operation found |
| `ServerEffects.AcceptRefusalsAreTrue` | internal/connectorprotocol/session.go:216-267 | The code a greeting is refused with names a cause that holds |
| `ServerLeases.LeaseIsWhatWasGranted` | internal/connectorprotocol/session.go:656-660 | In every run the lease is exactly the earlier of the lease duration from the last answered heartbeat or renewal and what that one was authorised for |
| `ServerLeases.InTouchStaysOpen` | internal/connectorprotocol/session.go:334-358 | A session nobody closes or replaces, called only within two heartbeat intervals of its last contact and before credential and authorisation end, never closes and is never refused by the gate, over any run |
| `ServerLeases.OutOfTouchCloses` | internal/connectorprotocol/session.go:334-358 | Past any of these it is closed by the next well-formed operation |
| `ServerSessions.ServerSession.CloseLocked` | internal/connectorprotocol/session.go:360-372 | closing keeps everything but state and reason, and gives up exactly this session's registry slot |
| `ServerSessions.ServerSession.EnsureActive` | internal/connectorprotocol/session.go:334-358 | refuses and closes a closed, replaced, expired or silent session with the code and reason of the first test it fails, and changes nothing otherwise |
| `ServerSessions.ServerSession.RestoreState` | internal/connectorprotocol/session.go:291-301 | Ready exactly when the active configuration is ready and no snapshot is owed |
| `ServerSessions.ServerSession.HandleAck` | internal/connectorprotocol/session.go:374-453 | new state, reply and registry are those of the specified step: stage, withdraw or refuse |
| `ServerSessions.ServerSession.HandleReadiness` | internal/connectorprotocol/session.go:481-516 | new state, reply and registry are those of the specified step: promote the candidate or refuse |
| `ServerSessions.ServerSession.OfferSnapshot` | internal/connectorprotocol/session.go:518-564 | new state, reply and registry are those of the specified step: replace any pending delta, or answer without a transfer |
| `ServerSessions.ServerSession.OfferDelta` | internal/connectorprotocol/session.go:566-594 | new state, reply and registry are those of the specified step |
| `ServerSessions.ServerSession.HandleHeartbeat` | internal/connectorprotocol/session.go:596-662 | new state, reply and registry are those of the specified step, and an accepted beat leaves the lease at exactly the earlier of credential expiry and the lease duration from now |
| `ServerSessions.ServerSession.BeginDrain` | internal/connectorprotocol/session.go:668-702 | new state, reply and registry are those of the specified step; repeating a drain returns the first request |
| `ServerSessions.ServerSession.HandleDrainAck` | internal/connectorprotocol/session.go:707-752 | new state, reply and registry are those of the specified step |
| `ServerSessions.ServerSession.BeginRenewal` | internal/connectorprotocol/session.go:787-807 | the first half of a renewal changes nothing and remembers the identity it began with |
| `ServerSessions.ServerSession.FinishRenewal` | internal/connectorprotocol/session.go:808-835 | the second half takes the answer only if nothing was renewed meanwhile, and caps the lease |
| `ServerSessions.ServerSession.Close` | internal/connectorprotocol/session.go:837-849 | an open session closes with the reason given, a closed one keeps its own |
| `ServerSessions.ServerSession.CheckLease` | internal/connectorprotocol/session.go:1762-1769 | the gate alone |
| `ServerSessions.ControlServer.Accept` | internal/connectorprotocol/session.go:216-267 | a session is returned exactly when authentication, snapshot, identifier, lease and registry all accept, in the specified first state and holding the registry slot; otherwise the registry is untouched |
| `Registry.SessionRegistry.Attach` | internal/connectorprotocol/session.go:53-74 | a slot is taken only when free or held by an older process of the same tunnel, and the previous holder is returned |
| `Registry.SessionRegistry.Disconnect` | internal/connectorprotocol/session.go:76-91 | only an exact match is removed; every other entry stays |
| `Registry.SessionRegistry.Active` | internal/connectorprotocol/session.go:93-101 | the session registered for a valid connector |
| `Fencing.AtMostOnePasses` | internal/connectorprotocol/session.go:334-372 | At any time at most one session of a connector passes the gate |
| `Fencing.FencedForever` | internal/connectorprotocol/session.go:53-91 | With fresh session identifiers, a session once replaced or closed never passes the gate again, in any run of accepts, operations and closes |
| `Fencing.AdmitRevivesIffReused` | internal/connectorprotocol/session.go:216-267 | A replaced session that is still open and in time passes again after an accept exactly when the accept reuses its reference |
| `Fencing.ReplacementIsNewer` | internal/connectorprotocol/session.go:53-74 | A session stops being current only by an operation of its own or by an accept for a strictly newer process of the same tunnel |
| `Dispatchers.ControlKeyIsInjective` | internal/connectorprotocol/transport.go:52-93 | Different valid pairs of tunnel and connector never share a key in the table of active control sessions |
| `Dispatchers.ActiveControlSessions.Attach` | internal/connectorprotocol/transport.go:52-66 | adds the session exactly when its slot is free, held by an older process or by itself, leaving every other entry |
| `Dispatchers.ActiveControlSessions.Detach` | internal/connectorprotocol/transport.go:68-79 | removes only the session detached, never another under another key |
| `Dispatchers.ActiveControlSessions.Lookup` | internal/connectorprotocol/transport.go:82-93 | finds exactly the session attached under that reference |
| `Dispatchers.DrainDispatcher.RegisterSession` | internal/connectorprotocol/drain_dispatcher.go:200-224 | takes a slot exactly when it is free, or held for the same account and host by an older process or by itself |
| `Dispatchers.DrainDispatcher.DetachSession` | internal/connectorprotocol/drain_dispatcher.go:227-238 | removes only an exact match |
| `Dispatchers.RotationDispatcher.RegisterSession` | internal/connectorprotocol/rotation_dispatcher.go:158-183 | takes a slot exactly when it is free, or held for the same account, host and tunnel by an older process whose disconnect was recorded |
| `Dispatchers.RotationDispatcher.UnregisterSession` | internal/connectorprotocol/rotation_dispatcher.go:187-206 | removes only an exact match, after its disconnect was recorded |
| `Dispatchers.RotationDispatcher.DetachSession` | internal/connectorprotocol/rotation_dispatcher.go:211-227 | removes only an exact match and exactly the delivery records of that session |
| `Dispatchers.RotationDispatcher.Send` | internal/connectorprotocol/rotation_dispatcher.go:260-288 | a frame goes out exactly when the session registered now is the one meant, with its account, host, credential and key, the same payload was not delivered to it before, and its carrier accepts |
| `Dispatchers.RotationDispatcher.Remember` | internal/connectorprotocol/rotation_dispatcher.go:289-296 | a delivery is remembered only while the session it went to is still registered |
| `ClientRuns.StepKeepsInv` | internal/connectorprotocol/session.go:1005-1176 | Any operation keeps: a candidate exactly when a configuration is prepared, newer than the active one; Ready means active, ready and nothing staged; and the active configuration changes only by promoting the candidate |
| `ClientRuns.GenerationsAscend` | internal/connectorprotocol/session.go:1270-1277 | The generations a run activates strictly increase and start above the one already active |
| `ClientRuns.ActiveIsLastActivation` | internal/connectorprotocol/session.go:1214-1279 | After any run the active configuration is the last one the run activated, or unchanged if it activated none |
| `ClientRuns.PromotionIsActive` | internal/connectorprotocol/session.go:1214-1279 | An operation reports readiness exactly when it made the candidate active, and otherwise the active configuration is unchanged |
| `ClientRuns.ClosedIsAbsorbing` | internal/connectorprotocol/session.go:985-1003 | Nothing about a closed client session changes in any later run |
| `ClientRuns.HandlesAreLinear` | internal/connectorprotocol/session.go:1051-1091 | In every run each prepared configuration is returned once and is exactly one of staged, activated or aborted while the session is open; none is aborted twice or after activation |
| `ClientRuns.OnlySelfClosingStrands` | internal/connectorprotocol/session.go:985-1003 | When an operation closes the session, a configuration stays staged through every later run exactly when it was staged and the operation was neither a close nor a readiness report the gate let through |
| `ClientEffects.WelcomeEffect` | internal/connectorprotocol/session.go:957-983 | A session is welcomed exactly once, by a sound welcome with room for a heartbeat in a lease of at most a day, and takes over its session, lease and heartbeat |
| `ClientEffects.SnapshotEffect` | internal/connectorprotocol/session.go:1005-1091 | A snapshot is staged exactly when it is for the session, newer than all held, nothing is staged, nobody cancelled, the runtime prepared it and the session is open before and after; whatever was prepared in vain is aborted |
| `ClientEffects.DeltaEffect` | internal/connectorprotocol/session.go:1094-1180 | A delta is staged exactly when it extends the active configuration, with no snapshot owed and the same conditions; one that skipped something makes a snapshot owed |
| `ClientEffects.PromotesIff` | internal/connectorprotocol/session.go:1214-1279 | A configuration is activated and reported ready exactly by a readiness report with edge, route and origin ready, a candidate staged, no cancellation before, the runtime activating it, and the session open before and after |
| `ClientEffects.ReadyEffect` | internal/connectorprotocol/session.go:1214-1279 | What a report leaves in each case: promoted, dropped with a snapshot owed, activated but too late to report, or unchanged |
| `ClientEffects.SendHeartbeatEffect` | internal/connectorprotocol/session.go:1281-1302 | A heartbeat reports the active configuration, or the candidate before there is one, and changes nothing |
| `ClientEffects.HeartbeatAckEffect` | internal/connectorprotocol/session.go:1304-1323 | An acknowledgement for the session takes over the lease end it names and counts as contact |
| `ClientEffects.RenewalEffect` | internal/connectorprotocol/session.go:1610-1636 | A renewal is taken exactly when it is for the session, host and key and goes back on neither generation, expiry nor lease |
| `ClientEffects.CloseEffect` | internal/connectorprotocol/session.go:1702-1724 | Closing an open session aborts what is staged and records the reason |
| `ClientEffects.RefusalsAreTrue` | internal/connectorprotocol/session.go:957-1636 | The code of every refusal is true of the message, of the gate or of what the operation found |
| `ClientSessions.ClientSession.AcceptWelcome` | internal/connectorprotocol/session.go:957-983 | new state is that of the specified step: a new session takes the session identifier and lease of a valid welcome |
| `ClientSessions.ClientSession.ApplySnapshot` | internal/connectorprotocol/session.go:1005-1092 | new state, result and acknowledgement are those of the specified step, and every configuration prepared is staged or aborted |
| `ClientSessions.ClientSession.ApplyDelta` | internal/connectorprotocol/session.go:1094-1176 | new state, result and acknowledgement are those of the specified step: stage, ask for a snapshot, or refuse |
| `ClientSessions.ClientSession.MarkReady` | internal/connectorprotocol/session.go:1214-1279 | new state and result are those of the specified step, which succeeds exactly with edge, route and origin ready, a candidate staged, nobody cancelling, the runtime activating, and the session open before and after |
| `ClientSessions.ClientSession.Heartbeat` | internal/connectorprotocol/session.go:1281-1302 | reports the active configuration, or the candidate before there is one |
| `ClientSessions.ClientSession.AcceptHeartbeatAck` | internal/connectorprotocol/session.go:1304-1323 | new state is that of the specified step |
| `ClientSessions.ClientSession.ApplyRenewal` | internal/connectorprotocol/session.go:1610-1636 | new state is that of the specified step: never an older credential, expiry or lease |
| `ClientSessions.ClientSession.Close` | internal/connectorprotocol/session.go:1702-1724 | aborts what is staged exactly when the session was open |
| `PersistenceSpec.DurableIsNeverBehind` | internal/connectorprotocol/persistence.go:353-364 | From accepting a session, over every sequence of calls and store failures: it is closed, or the store holds the readiness of its active configuration, the acknowledgement of its candidate, its drain with its present status, its credential generation, and a lease no shorter than the live one |
| `PersistenceSpec.CallKeepsBacked` | internal/connectorprotocol/persistence.go:377-524 | Each call, whichever of its writes fail, keeps what the store confirms ahead of an open session |
| `PersistenceSpec.WithdrawnOfferIsRecorded` | internal/connectorprotocol/persistence.go:377-404 | When an outstanding offer is taken back, the acknowledgement is in the store, negative exactly if nothing was staged, or a newer snapshot took its place, or the session is closed |
| `PersistenceSpec.DrainAgreesUnlessRewritten` | internal/connectorprotocol/persistence.go:480-524 | Whatever the call and whether its write succeeds or fails, the drain stored last stays the live one, with its status and code, except exactly in these cases: a successful write when a drain that has made progress is commanded again, or when a rejection of the drain finds it ended otherwise or finds a session the gate refuses; a failed write when the call started the drain or moved its status or code |
| `PersistenceSpec.PersistsNegativeAckIff` | internal/connectorprotocol/session.go:460-479 | With the gate open, the acknowledgements persisted although refused are exactly the negative ones that take the outstanding offer back |
| `PersistenceSpec.PersistsNegativeDrainAckIff` | internal/connectorprotocol/session.go:757-764 | With the gate open, a drain acknowledgement is answered as a rejection of the drain exactly when it may be persisted and the drain has not ended |
| `PersistenceEffects.WritesIff` | internal/connectorprotocol/persistence.go:377-558 | Each call writes exactly when it achieved something, got a negative answer to its outstanding offer or its drain, or found or made the session closed; and the entry says what |
| `PersistenceEffects.CallEffect` | internal/connectorprotocol/persistence.go:353-558 | A stored call appends exactly its entry; one whose write fails closes the session and appends at most the end of it |
| `PersistenceEffects.EndEffect` | internal/connectorprotocol/persistence.go:353-376 | A stored close, a stored lease check that finds the session ended, and a failed write whose cleanup succeeds append the session's own reason; no other call appends an end |
| `PersistenceEffects.EndIsLast` | internal/connectorprotocol/persistence.go:526-558 | After any run, a last call of these kinds leaves the session closed and its reason as the last entry of the log |
| `PersistenceEffects.EndIsRecordedIff` | internal/connectorprotocol/persistence.go:526-558 | In every run the log says that the session ended exactly when some call of these kinds was made, and every end it says has the reason the session has |
| `PersistenceEffects.ClosedCallEffect` | internal/connectorprotocol/persistence.go:377-558 | Of a closed session nothing is written but its end and valid negative answers to the offer and the drain it was left with |
| `PersistenceEffects.OpenedEffect` | internal/connectorprotocol/persistence.go:281-340 | A session is handed out exactly when its creation is stored, and is closed otherwise |
| `PersistentSessions.PersistentSession.FailClosed` | internal/connectorprotocol/persistence.go:353-364 | closes the session for good and tries to record the disconnect |
| `PersistentSessions.PersistentSession.HandleAck` | internal/connectorprotocol/persistence.go:377-404 | session, store, registry and result are those of the specified call; whether a negative acknowledgement is stored is decided before the session changes |
| `PersistentSessions.PersistentSession.HandleReadiness` | internal/connectorprotocol/persistence.go:431-446 | session, store, registry and result are those of the specified call |
| `PersistentSessions.PersistentSession.HandleHeartbeat` | internal/connectorprotocol/persistence.go:448-462 | session, store, registry and result are those of the specified call |
| `PersistentSessions.PersistentSession.FinishRenewal` | internal/connectorprotocol/persistence.go:464-478 | session, store, registry and result are those of the specified call |
| `PersistentSessions.PersistentSession.BeginDrain` | internal/connectorprotocol/persistence.go:480-499 | session, store, registry and result are those of the specified call |
| `PersistentSessions.PersistentSession.HandleDrainAck` | internal/connectorprotocol/persistence.go:501-524 | session, store, registry and result are those of the specified call |
| `PersistentSessions.PersistentSession.Close` | internal/connectorprotocol/persistence.go:526-542 | closes first, then records; a failed record is reported |
| `PersistentSessions.PersistentSession.CheckLease` | internal/connectorprotocol/persistence.go:544-559 | appends the disconnect with the reason of the session exactly when the check leaves it closed and the store accepts |
| `PersistentSessions.PersistentServer.Accept` | internal/connectorprotocol/persistence.go:281-333 | a session is handed out only once its creation is stored; otherwise it is closed and its registry slot given up |
| `RotationTrail.RevocationWaitsForAll` | internal/connectorprotocol/rotation.go:952-994 | Over every run of calls, store failures and restarts from the log: if revocation of any target has begun, in memory or in the store, every target has a ready replacement for its own install and key |
| `RotationTrail.RecoveryFromTheLog` | internal/connectorprotocol/rotation.go:649-820 | After any such run the log of successful writes is enough to recover: its records are accepted and respect the gate, and the coordinator rebuilt differs from the lost one exactly in the targets whose failure is not in the store, which come back in the phase stored last |
| `RotationTrail.CallIsAccounted` | internal/connectorprotocol/rotation.go:830-1090 | Every call changes nothing, or writes exactly what it changes, or fails one target in memory alone because its write failed |
| `RotationTrail.NextKeepsInv` | internal/connectorprotocol/rotation.go:870-1062 | The live coordinator is what the log replays to, but for failures that could not be stored; a restart rebuilds exactly what the log replays to |
| `RotationTrail.StoreOrdersRevocationLast` | internal/connectorprotocol/rotation.go:529-536 | Over every such run, each revoke order in the store comes after a ready report of every target of the plan |
| `RotationTheorems.InvThroughoutIff` | internal/connectorprotocol/rotation.go:649-729 | A run of one coordinator keeps the invariant, the revocation gate with it, at every point exactly when every recovery that takes effect loads gated records |
| `RotationTheorems.PhasesNeverGoBack` | internal/connectorprotocol/rotation.go:830-1090 | Once started, no call lowers a phase, a failed or revoked target never changes, and a ready session and a revoke order once recorded stay, over every run |
| `RotationTheorems.EndIsFinal` | internal/connectorprotocol/rotation.go:1119-1140 | A failed aggregate stays failed, a succeeded one keeps every target as it is, and it succeeds exactly when all targets are revoked |
| `RotationTheorems.ResumeLowersIff` | internal/connectorprotocol/rotation.go:649-729 | A recovery lowers a phase exactly when it replaces a target failed before the start by one that had not failed |
| `RotationTheorems.RecoveryRoundTrip` | internal/connectorprotocol/rotation.go:649-820 | Every reachable started coordinator, written out target by target, is accepted by a fresh coordinator, which becomes exactly it |
| `RotationTheorems.WrittenIsAccepted` | internal/connectorprotocol/rotation.go:736-820 | Every record written out of a reachable coordinator passes the recovery checks |
| `RotationRuns.CallAdvances` | internal/connectorprotocol/rotation.go:830-1090 | Every call keeps: each target's messages belong to the plan, the target and each other and fit its phase; an order to revoke anywhere means a ready replacement everywhere; and at most one target moves, forward |
| `RotationRuns.ResumeKeepsInvIffGated` | internal/connectorprotocol/rotation.go:649-729 | An accepted recovery keeps the invariant exactly when its records respect the revocation gate, which it does not check |
| `RotationRuns.UngatedRecordsAreAccepted` | internal/connectorprotocol/rotation.go:675-684 | For every plan of two targets, records with one target ordered revoked and the other never challenged are accepted |
| `RotationRuns.NewIsInv` | internal/connectorprotocol/rotation.go:612-625 | A new coordinator tracks exactly the targets of its plan, all pending |
| `RotationEffects.ChallengeEffect` | internal/connectorprotocol/rotation.go:830-868 | A target is challenged exactly on a started coordinator while it waits, on sound terms nobody denies, stored; the challenge says what the terms say |
| `RotationEffects.ProofEffect` | internal/connectorprotocol/rotation.go:870-911 | A proof is taken exactly when sound, verified, in answer to the target's challenge and before the overlap ends; the install orders the new key to the next process |
| `RotationEffects.ReadyEffect` | internal/connectorprotocol/rotation.go:917-947 | A replacement counts as ready exactly by a sound report of another session, on the process ordered or later, with the installed key and expiry |
| `RotationEffects.RevokeEffect` | internal/connectorprotocol/rotation.go:952-994 | A revoke order is made exactly when every target is ready or further and this one is ready; it goes to the replacement session with a deadline of five seconds, and repeating it returns it |
| `RotationEffects.AcknowledgementEffect` | internal/connectorprotocol/rotation.go:996-1062 | What each acknowledgement does: revokes, completes with the last target, fails, confirms a delivery or changes nothing |
| `RotationEffects.BecomesRevokedIff` | internal/connectorprotocol/rotation.go:1047-1062 | A call makes a target Revoked exactly when it is a stored, valid revoked acknowledgement about it, it is Revoking, and session and process are those of its revoke order |
| `RotationEffects.BecomesFailedIff` | internal/connectorprotocol/rotation.go:996-1090 | A call makes a target Failed exactly when it is stored and fails it or comes from the session the target is dealing with in its phase and is negative, or when the write of proof, readiness, revoke order or revocation fails |
| `RotationEffects.FailEffect` | internal/connectorprotocol/rotation.go:1064-1090 | A target is failed exactly while it has not ended and that is stored, under the name of the session dealing with it |
| `RotationEffects.ResumeEffect` | internal/connectorprotocol/rotation.go:649-729 | A coordinator not started takes over exactly one valid record for each target; a started one keeps what it has |
| `RotationEffects.SummaryIs` | internal/connectorprotocol/rotation.go:1119-1140 | The summary lists the targets in plan order as they are; one failure is failure, success is that all are revoked |
| `RotationEffects.RefusalsAreTrue` | internal/connectorprotocol/rotation.go:627-1090 | The code of every refusal is true of the message, of the target or of the store |
| `RotationSuccess.CanSucceedIff` | internal/connectorprotocol/rotation.go:830-1062 | A started rotation can still succeed, in some run under a clock that does not go back, exactly when no target has failed and no key ran out while installed |
| `RotationSuccess.EveryPlanCanSucceed` | internal/connectorprotocol/rotation.go:612-1062 | From any valid plan, at any time, some run ends in success |
| `RotationSuccess.StuckForGood` | internal/connectorprotocol/rotation.go:870-947 | A target that failed, or whose installed key ran out, never gets anywhere in any later run |
| `RotationCoordinators.RotationCoordinator.constructor` | internal/connectorprotocol/rotation.go:612-625 | the loop over the plan leaves every target pending |
| `RotationCoordinators.RotationCoordinator.Summarize` | internal/connectorprotocol/rotation.go:1119-1140 | the loop over the plan reports failed if any target failed, succeeded if all are revoked, and every target's line |
| `RotationCoordinators.RotationCoordinator.AllTargetsReady` | internal/connectorprotocol/rotation.go:1142-1149 | the loop over the targets finds whether all are ready, revoking or revoked |
| `RotationCoordinators.RotationCoordinator.Start` | internal/connectorprotocol/rotation.go:627-644 | state, store and result are those of the specified step |
| `RotationCoordinators.RotationCoordinator.Resume` | internal/connectorprotocol/rotation.go:649-729 | state and result are those of the specified step; on any refusal nothing has changed |
| `RotationCoordinators.RotationCoordinator.CheckRecords` | internal/connectorprotocol/rotation.go:675-684 | accepts exactly records without duplicates that each match their target and pass validation |
| `RotationCoordinators.RotationCoordinator.TakeOver` | internal/connectorprotocol/rotation.go:715-724 | every target becomes what its record says |
| `RotationCoordinators.RotationCoordinator.Challenge` | internal/connectorprotocol/rotation.go:830-868 | state, store and result are those of the specified step: a pending target, or one whose challenge expired |
| `RotationCoordinators.RotationCoordinator.AcceptProof` | internal/connectorprotocol/rotation.go:870-907 | state, store and result are those of the specified step: install, refuse, or fail the target when the store does |
| `RotationCoordinators.RotationCoordinator.MarkReady` | internal/connectorprotocol/rotation.go:917-946 | state, store and result are those of the specified step |
| `RotationCoordinators.RotationCoordinator.Revoke` | internal/connectorprotocol/rotation.go:952-994 | state, store and result are those of the specified step, behind the aggregate gate |
| `RotationCoordinators.RotationCoordinator.HandleAck` | internal/connectorprotocol/rotation.go:996-1062 | state, store and result are those of the specified step; an unrecorded failure is taken back and an unrecorded revocation fails the target; a revoked acknowledgement succeeds only from the session and process ordered to revoke |
| `RotationCoordinators.RotationCoordinator.Fail` | internal/connectorprotocol/rotation.go:1064-1090 | state, store and result are those of the specified step |
| `RotationPlans.NewRotationPlan` | internal/connectorprotocol/rotation.go:62-74 | a plan is made exactly from valid identifiers and one to 256 valid targets with distinct connectors; it is valid and holds the same targets in connector order |
| `RotationPlans.CheckTargets` | internal/connectorprotocol/rotation.go:90-109 | the loop over sorted targets accepts exactly valid ones with distinct connectors |
| `RotationPlans.SortTargets` | internal/connectorprotocol/rotation.go:63-64 | the targets in connector order, the same collection |
| `RotationPlans.PlanIgnoresListOrder` | internal/connectorprotocol/rotation.go:62-74 | A plan, and with it its target set hash, does not depend on the order in which its targets are listed |
| `RotationWindows.WindowsNeverMove` | internal/connectorprotocol/rotation_dispatcher.go:350-405 | Over any number of attempts under a clock that does not go back, the overlap end and credential expiry of a challenged target never change and its windows stay nested and within bounds |
| `RotationWindows.ReissueKeepsWaiting` | internal/connectorprotocol/rotation_dispatcher.go:452-472 | Every challenge issued satisfies now < expiry < overlap end < credential expiry |
| `RotationWindows.TimesAreNeverRefused` | internal/connectorprotocol/rotation.go:150-163 | A challenge the dispatcher builds passes the timing checks: an attempt succeeds exactly when a challenge is still live, nothing is recorded yet, or enough overlap is left, and otherwise the credential counts as expired |
| `RotationWindows.EveryReissueIsAccepted` | internal/connectorprotocol/rotation_dispatcher.go:373-395 | After any run of attempts the next succeeds exactly when the challenge is still live or enough of the overlap fixed by the first challenge is left, and is refused as expired otherwise |
| `RotationWindows.PolicyHoldsIff` | internal/connectorprotocol/rotation_dispatcher.go:452-472 | A recorded window can be challenged again exactly while more than a millisecond of overlap, or the whole challenge lifetime if shorter, is left |
| `RotationWindows.IssuedWindow` | internal/connectorprotocol/rotation_dispatcher.go:373-395 | A live challenge is sent again; a new one goes to the session online, lasts the configured time or until a millisecond before the overlap ends, and keeps the recorded overlap end and expiry, or else takes the configured ones |
| `CreditLedger.LedgerIsConservedIff` | internal/billing/billing.go:1654-1733 | A run of calls, failed ones rolled back, leaves every balance nonnegative and the signed sum of its entries, and every key recorded once, exactly when it books no debit half way between two millionths |
| `CreditLedger.GapCountsTies` | internal/billing/billing.go:1671-1710 | Over any list of calls what a balance holds beyond its entries grows by exactly the number of such debits, and no balance falls below zero |
| `CreditLedger.StepIsBalancedIff` | internal/billing/billing.go:1687-1710 | A call keeps the books balanced except exactly when it books a debit of an amount half way between two millionths |
| `CreditLedger.TieLosesMoney` | internal/billing/billing.go:1687-1710 | A debit of half a millionth is recorded as one millionth and leaves the balance as it was |
| `CreditLedger.KeyCountsOnce` | internal/billing/billing.go:1712-1733 | Over any list of calls an idempotency key adds at most one entry |
| `CreditLedger.AnswerUnderRecordedKey` | internal/billing/billing.go:1712-1733 | Under a recorded key any call moves no money and is answered as done exactly when it asks for nothing or for the user, type, source and size recorded, whatever its direction and the balance; otherwise it conflicts |
| `CreditLedger.AnswerUnderNewKey` | internal/billing/billing.go:1643-1710 | Under a new key a call books what it asks for, or is refused for its amount or its balance |
| `CreditLedger.NewKeyEffect` | internal/billing/billing.go:1643-1710 | Entry and balance each kind of call leaves under a new key: grants always book, debits, refunds and downward adjustments within the balance, a plan switch down takes at most what is there |
| `CreditLedger.RoundIsNearest` | internal/billing/billing.go:1687-1710 | What is stored is the nearest millionth, a tie going away from zero |
| `CreditLedger.RepeatSucceedsIff` | internal/billing/billing.go:1307-1346 | Repeating any call that booked something, after any calls in between, is answered as done exactly when its amount needed no rounding and a plan switch down finds nothing to take or the same cap as the first time; otherwise it is refused as a conflict |
| `CreditLedger.SwitchRepeatedAtOnce` | internal/billing/billing.go:1307-1346 | A plan switch down repeated at once is refused exactly when it left something, but less than it took |
| `CreditLedger.SecondAdjustmentIff` | internal/billing/billing.go:357-375 | A second adjustment under the key of a first is answered as done, and does nothing, exactly when it has the size stored for the first, in either direction; otherwise it conflicts |
| `CreditBooks.Tables.EntryMatches` | internal/billing/billing.go:1712-1733 | finds whether the request was recorded, or conflicts with what its key recorded |
| `CreditBooks.Tables.InsertCreditLedger` | internal/billing/billing.go:1687-1710 | entries and balances are those of the specified booking, once per key |
| `CreditBooks.Tables.AddCreditsTx` | internal/billing/billing.go:1643-1652 | opens the account and books a credit |
| `CreditBooks.Tables.DebitCreditsTx` | internal/billing/billing.go:1654-1669 | books a debit the balance covers, answers a repeat, or refuses |
| `CreditBooks.Tables.SwitchPlanTx` | internal/billing/billing.go:1307-1346 | a grant, or a debit of at most the balance |
| `CreditBooks.Tables.InTx` | internal/billing/billing.go:335-375 | a failed call leaves the tables as they were |
| `CreditBooks.Tables.RecordEvent` | internal/billing/billing.go:425-446 | an event already recorded is skipped, a failure rolls back its record too, and success records it with all its calls |
| `CreditBooks.DeliveriesGap` | internal/billing/billing.go:425-446 | Over any list of webhook deliveries, repeated or failing, each balance exceeds the signed sum of its entries by as much more as there were tie debits booked by the deliveries that took effect |
| `CreditBooks.DeliveriesConserveIff` | internal/billing/billing.go:425-446 | Any list of webhook deliveries leaves every balance the signed sum of its entries exactly when those that take effect book no tie debit |
| `Webhooks.RunsOnlyTheEffective` | internal/billing/billing.go:425-446 | Any list of deliveries leaves the state that plain processing of the effective ones leaves, each event effective at most once |
| `Webhooks.RecordedIff` | internal/billing/billing.go:425-446 | An event ends up recorded exactly when it was before or one of its deliveries succeeds at its turn |
| `Webhooks.UselessDeliveryIsInvisible` | internal/billing/billing.go:425-446 | A repeat after success and a failing delivery can be left out anywhere in the list |
| `Proration.DeltaIsBounded` | internal/billing/billing.go:1282-1305 | The delta never exceeds the plan difference, never has the other sign, is the whole difference up to the period start and nothing from its end |
| `Proration.DeltaIsProrated` | internal/billing/billing.go:1282-1305 | Within a period the delta is the plan difference times the time left over the length of the period, to the nearest millionth with ties away from zero; without a period there is none |
| `Proration.LaterMovesLess` | internal/billing/billing.go:1282-1305 | The later the switch, the less it moves |
| `Proration.ThereAndBack` | internal/billing/billing.go:1282-1305 | Switching to another plan and back at one instant nets exactly nothing |
| `Proration.DetourIsCheap` | internal/billing/billing.go:1282-1305 | Going through a third plan differs from switching directly by at most a millionth of a credit |
| `Proration.NearestIs` | internal/billing/billing.go:1301-1304 | The rounded quotient is within half of the exact one, a tie going away from zero |
| `Proration.SwitchMoves` | internal/billing/billing.go:1307-1346 | A plan switch adds the delta to the balance, stopping at zero |
| `Proration.ThereAndBackOnTheLedgerIff` | internal/billing/billing.go:1307-1346 | Switching there and back leaves the balance as it was exactly when it covered the first change |
| `Pricing.ComputeSeatPriceTotal` | internal/billing/billing.go:606-630 | The loop over the tiers, in 64-bit arithmetic, computes the total modulo 2^64, the exact one exactly when that is a 64-bit integer; for graduated tiers that start at seat 1 or later it is the sum over the seats of the prices of the tiers covering each |
| `Pricing.GraduatedIsPerSeatIff` | internal/billing/billing.go:606-630 | For tiers that start anywhere the total is the sum over the seats from 1 exactly when what they charge below seat 1 comes to nothing |
| `Pricing.GraduatedIsMonotone` | internal/billing/billing.go:606-630 | With nonnegative prices, more seats never cost less |
| `Pricing.VolumeIsFirstTier` | internal/billing/billing.go:624-629 | A whole volume is priced by the first tier that covers it, and is free if none does |
| `Previews.PreviewIsShareIff` | internal/billing/billing.go:586-602 | A reduction, and any change without a period, is previewed at nothing; an upgrade within a period at the prorated difference of the totals, rounded toward zero, exactly when the reduced numerator of that fraction is a 64-bit integer |
| `Previews.ShareIsProrated` | internal/billing/billing.go:590-601 | The prorated difference is the difference times the time left over the length of the period, cut toward zero |
| `Previews.PreviewCanBeNegative` | internal/billing/billing.go:600-601 | It is not for 1 to 20 seats at 199 each, a millisecond and three nanoseconds into thirty days: the preview is -3335 where the prorated difference is 3780 |
| `Previews.SmallDifferencesFit` | internal/billing/billing.go:600-601 | The reduced numerator fits whenever the difference times the nanoseconds left does |
| `Previews.DifferenceIsExactIff` | internal/billing/billing.go:583-600 | The difference of the 64-bit totals is the exact one exactly when that is a 64-bit integer, even if a total is not |
| `Previews.PreviewFitsIff` | internal/billing/billing.go:588-602 | While difference and numerator fit, the preview lies between nothing and the full difference exactly when the total does not fall |
| `Int64s.LowestIs` | internal/billing/billing.go:600-601 | The reduced fraction is the given one with the greatest common divisor cancelled, its denominator positive and no larger |
| `Int64s.LowestIsLowest` | internal/billing/billing.go:600-601 | Nothing but 1 divides both parts of the reduced fraction |
| `Int64s.LowestQuotient` | internal/billing/billing.go:600-601 | The reduced fraction has the quotient of the given one |
| `Previews.GraduatedPreviewFits` | internal/billing/billing.go:582-602 | For graduated seats at nonnegative prices whose difference fits, the preview is the prorated difference exactly when the reduced numerator fits, and then lies between nothing and the difference of the totals |
| `Pricing.VolumeIsMonotoneIff` | internal/billing/billing.go:624-629 | For consecutive volume tiers at nonnegative prices, more seats never cost less exactly when at no boundary the first volume of a tier is cheaper than the last of the tier before |
| `Previews.VolumePreviewFitsIff` | internal/billing/billing.go:588-602 | For such tiers, with 64-bit totals at the boundaries, every upgrade whose difference and reduced numerator fit is previewed between nothing and the difference of the totals exactly when no boundary drops |
| `Previews.VolumeUpgradeCanBeNegative` | internal/billing/billing.go:624-629 | With 10 a seat up to nine seats and 5 from ten on, a boundary drops and the tenth seat is previewed at -40 |
| `JsonWalk.RejectDuplicateKeys` | internal/connectorprotocol/protocol.go:744-801 | accepts exactly the token streams of one document with unique names at every level and no value nested deeper than 64 |
| `JsonWalk.RejectDuplicateFields` | internal/canonicaljson/duplicates.go:12-63 | accepts exactly the token streams of one document with unique names at every level and no number outside the range of a 64-bit float |
| `JsonWalk.AcceptsExactly` | internal/connectorprotocol/protocol.go:744-801 | either walk accepts a stream exactly when it is the tokens of such a document |
| `JsonWalk.WalkTakesTree` | internal/connectorprotocol/protocol.go:747-793 | on the tokens of a tree, whatever follows, the walk consumes exactly that tree, or fails if a name repeats, it is too deep or a number cannot be read |
| `JsonWalk.TakenIsTree` | internal/connectorprotocol/protocol.go:747-793 | whatever the walk consumes is the tokens of a tree with unique names that the walk admits |
| `JsonWalk.WalkersDifferIff` | internal/canonicaljson/duplicates.go:12-63 | the two walkers answer differently exactly on the documents with unique names that nest deeper than 64 or hold a number outside the range of a 64-bit float, but not both |
| `JsonWalk.DocumentsAreUnambiguous` | internal/canonicaljson/duplicates.go:12-63 | a token stream has one document as its beginning and says where it ends |
| `JsonWalk.WalkLimited` | internal/connectorprotocol/protocol.go:747-793 | the recursive walk with its loops and seen sets leaves the decoder and answers as specified |
| `JsonWalk.WalkUnlimited` | internal/canonicaljson/duplicates.go:14-56 | the recursive walk with its loops and seen sets leaves the decoder and answers as specified |

## Left out

- Plan credits finer than a millionth of a credit.
- The client's drain methods (`HandleDrain`, `DrainProgress`, `CompleteDrain`) and their callbacks.
- Interleavings inside client callbacks and inside one `PersistentSession` call: each operation is atomic, except the
  two halves of `Renew`.
- Cancellation of a server call's context, and nil receivers and arguments.
- Cryptography and encodings, and wire-field syntax other than identifiers, hashes and nonces; string lengths count
  characters where the original counts bytes.
- Size limits of snapshots, deltas, frames and messages.
- Wrap-around of 64-bit counters and durations, and overflow of `numeric(18,6)`; seat totals and previews do wrap, and
  the durations of a preview stop at the ends of the range, but seat counts are unbounded. `big.Int.Int64` is undefined
  outside its range by its documentation, and taken to yield the low 64 bits as its implementation does.
- The hash of a plan is a parameter, and its sort an insertion sort.
- The store's own recovery queries, `ResetCredentialRotationInstall` and `RebindCredentialRotationRevoke`: recovery is
  stated against the log of the coordinator's writes. A write that fails is taken not to have happened.
- The reconcile loops of the two dispatchers beyond issuing and reissuing challenges, and their tickers and retries.
- Amounts and credits that do not parse as numbers, and concurrent transactions on one account.
- Which ledger calls a webhook makes: the lemmas hold for any.
- Storage allocation, checkout, automatic top-up and the provider client.
- Characters and syntax errors below the token level of JSON: a closing token of the wrong kind is refused where the
  decoder refuses it.
- Telemetry, HTTP, WebSocket and configuration plumbing, and decisions made in SQL.
