/** `ServerSession` with its own fields, updated in place; every method is proved against `ServerSpec`. */
module ServerSessions {
  import opened Wrappers
  import opened Protocol
  import opened ServerSpec
  import opened Registry
  import SR = ServerRuns

  /** The registry after an operation took a session from one state to another. */
  function Unregistered(current: map<Id, SessionRef>, before: SessionState, after: SessionState,
                        ref: SessionRef): map<Id, SessionRef> {
    if after.Closed? && !before.Closed? then Without(current, ref) else current
  }

  /** What an operation leaves behind: the specified state and reply, and a registry that lost this session
      exactly when the operation closed it. */
  ghost predicate Performed(before: Server, registered: map<Id, SessionRef>, i: Input,
                            after: Server, registered': map<Id, SessionRef>, out: Outcome<Reply>) {
    var step := Do(before, i);
    && after == step.next && out == step.out
    && registered' == Unregistered(registered, before.cfg.state, after.cfg.state, before.ref)
  }

  /** What every session keeps: the session invariant and the bounds on its lease. */
  ghost predicate Sound(s: Server) { SR.Inv(s) && SR.LeaseInv(s) }

  lemma StepIsSound(s: Server, i: Input)
    requires Sound(s)
    ensures Sound(Do(s, i).next)
  {
    SR.StepKeepsInv(s, i);
    SR.LeaseStep(s, i);
  }

  class ServerSession {
    const registry: SessionRegistry
    const settings: Settings
    const ref: SessionRef
    const canDrain: bool
    var auth: AuthResult
    var leaseExpiresAt: nat
    const heartbeatMs: nat
    var pendingSnapshot: Option<Snapshot>
    var pendingDelta: Option<Delta>
    var active: Option<Snapshot>
    var candidate: Option<Snapshot>
    var readyGeneration: nat
    var needsSnapshot: bool
    var state: SessionState
    var lastHeartbeat: nat
    var lastHeartbeatSentAt: nat
    var drain: Option<Drain>
    var drainStatus: DrainStatus
    var drainCode: Option<Code>
    var drainCompleted: bool
    var disconnectReason: Option<Reason>

    ghost function Cfg(): Progress
      reads this
    {
      Progress(pendingSnapshot, pendingDelta, active, candidate, readyGeneration, needsSnapshot, state)
    }

    ghost function View(): Server
      reads this
    {
      Server(settings, ref, canDrain, auth,
             Liveness(leaseExpiresAt, heartbeatMs, lastHeartbeat, lastHeartbeatSentAt),
             Cfg(), DrainRecord(drain, drainStatus, drainCode, drainCompleted), disconnectReason)
    }

    ghost predicate Live()
      reads registry
    {
      ValidIdentifier(ref.connector) && Names(registry.current, ref)
    }

    ghost predicate Valid()
      reads this, registry
    {
      ref.Valid() && registry.Valid() && Sound(View())
    }

    constructor (registry: SessionRegistry, accepted: Server)
      requires accepted.ref.Valid() && registry.Valid() && Sound(accepted)
      ensures View() == accepted && this.registry == registry && Valid()
    {
      this.registry := registry;
      settings, ref, canDrain, auth := accepted.settings, accepted.ref, accepted.canDrain, accepted.auth;
      leaseExpiresAt, heartbeatMs := accepted.lease.leaseExpiresAt, accepted.lease.heartbeatMs;
      lastHeartbeat, lastHeartbeatSentAt := accepted.lease.lastHeartbeat, accepted.lease.lastHeartbeatSentAt;
      pendingSnapshot, pendingDelta := accepted.cfg.pendingSnapshot, accepted.cfg.pendingDelta;
      active, candidate := accepted.cfg.active, accepted.cfg.candidate;
      readyGeneration, needsSnapshot, state := accepted.cfg.readyGeneration, accepted.cfg.needsSnapshot,
        accepted.cfg.state;
      drain, drainStatus := accepted.drain.request, accepted.drain.status;
      drainCode, drainCompleted := accepted.drain.code, accepted.drain.completed;
      disconnectReason := accepted.disconnectReason;
    }

    method CloseLocked(reason: Reason)
      requires Valid()
      modifies this`state, this`disconnectReason, registry
      ensures Valid() && View() == CloseFor(old(View()), reason)
      ensures registry.current == Unregistered(old(registry.current), old(state), state, ref)
    {
      if state.Closed? {
        return;
      }
      state := Closed;
      disconnectReason := Some(reason);
      var _ := registry.Disconnect(ref);
      StepIsSound(old(View()), Input(1, true, CloseSession(reason)));
    }

    method EnsureActive(now: Instant) returns (refusal: Option<Code>)
      requires Valid()
      modifies this`state, this`disconnectReason, registry
      ensures Valid()
      ensures var v := Admission(old(View()), now, old(Live()));
              if v.Pass? then refusal == None && View() == old(View())
              else refusal == Some(v.Code()) && View() == Evict(old(View()), v).next
      ensures registry.current == Unregistered(old(registry.current), old(state), state, ref)
    {
      if state.Closed? {
        return Some(SessionClosed);
      }
      var current := registry.Active(ref.connector);
      if current != Some(ref) {
        CloseLocked(ReasonSessionReplaced);
        return Some(StaleSession);
      }
      if auth.credentialExpiresAt <= now {
        CloseLocked(ReasonCredentialExpired);
        return Some(CredentialExpired);
      }
      if leaseExpiresAt <= now {
        CloseLocked(ReasonLeaseExpired);
        return Some(LeaseExpired);
      }
      if lastHeartbeat != 0 && now - lastHeartbeat > 2_000_000 * heartbeatMs {
        CloseLocked(ReasonHeartbeatTimeout);
        return Some(HeartbeatTimeout);
      }
      refusal := None;
    }

    function MatchesIdentity(binding: Binding): (same: bool)
      reads this
    {
      binding.account == auth.account && binding.ref == ref
    }

    method RestoreState()
      modifies this`state
      ensures Cfg() == Restored(old(Cfg()))
    {
      if active.Some? && readyGeneration == active.value.config.generation && !needsSnapshot {
        state := Ready;
      } else {
        state := AwaitingSnapshot;
      }
    }

    method HandleAck(now: Instant, ack: Ack) returns (out: Outcome<Reply>)
      requires Valid()
      modifies this, registry
      ensures Valid()
      ensures Performed(old(View()), old(registry.current), Input(now, old(Live()), DeliverAck(ack)), View(),
                        registry.current, out)
    {
      if !ack.Valid() {
        return Err(InvalidInput);
      }
      var refusal := EnsureActive(now);
      if refusal.Some? {
        return Err(refusal.value);
      }
      out := HandleAckLocked(ack);
      StepIsSound(old(View()), Input(now, old(Live()), DeliverAck(ack)));
    }

    method HandleAckLocked(ack: Ack) returns (out: Outcome<Reply>)
      modifies this
      ensures Step(View(), out) == Moved(old(View()), ServerSpec.HandleAck(old(View()), ack))
    {
      if !MatchesIdentity(ack.binding) {
        return Err(IdentityMismatch);
      }
      if pendingSnapshot.Some? {
        out := HandleSnapshotAck(ack);
      } else if pendingDelta.Some? {
        out := HandleDeltaAck(ack);
      } else {
        out := HandleDuplicateAck(ack);
      }
    }

    method HandleSnapshotAck(ack: Ack) returns (out: Outcome<Reply>)
      requires pendingSnapshot.Some?
      modifies this`pendingSnapshot, this`candidate, this`needsSnapshot, this`state
      ensures Move(Cfg(), out) == AckPendingSnapshot(old(Cfg()), ack)
    {
      if !ack.kind.AckSnapshot? || ack.config != pendingSnapshot.value.config {
        return Err(SnapshotRejected);
      }
      if ack.status.FullSnapshotRequired? || ack.status.Rejected? {
        pendingSnapshot := None;
        needsSnapshot := true;
        RestoreState();
        if ack.status.FullSnapshotRequired? {
          return Err(SnapshotRequired);
        }
        return Err(SnapshotRejected);
      }
      candidate := pendingSnapshot;
      pendingSnapshot := None;
      needsSnapshot := false;
      if !(active.Some? && readyGeneration == active.value.config.generation) {
        state := AwaitingReady;
      }
      out := Ok(Done);
    }

    method HandleDeltaAck(ack: Ack) returns (out: Outcome<Reply>)
      requires pendingDelta.Some?
      modifies this`pendingDelta, this`candidate, this`needsSnapshot, this`state
      ensures Move(Cfg(), out) == AckPendingDelta(old(Cfg()), Binding(auth.account, ref), ack)
    {
      var pending := pendingDelta.value;
      if !ack.kind.AckDelta? || ack.config != pending.config {
        return Err(DeltaRejected);
      }
      pendingDelta := None;
      if ack.status.FullSnapshotRequired? {
        needsSnapshot := true;
        RestoreState();
        return Err(SnapshotRequired);
      }
      if ack.status.Rejected? {
        needsSnapshot := true;
        RestoreState();
        return Err(DeltaRejected);
      }
      if active.Some? && pending.previous != active.value.config {
        return Err(GenerationGap);
      }
      var binding := Binding(auth.account, ref.(tunnel := pending.binding.ref.tunnel));
      candidate := Some(Snapshot(binding, pending.config, pending.payload));
      if !(active.Some? && readyGeneration == active.value.config.generation) {
        state := AwaitingReady;
      }
      out := Ok(Done);
    }

    method HandleDuplicateAck(ack: Ack) returns (out: Outcome<Reply>)
      ensures out == AckDuplicate(Cfg(), ack)
    {
      if !ack.status.Duplicate? {
        return Err(InvalidInput);
      }
      if candidate.None? && active.None? {
        return Err(StaleGeneration);
      }
      var current := active;
      if candidate.Some? {
        current := candidate;
      }
      if ack.config != current.value.config {
        return Err(StaleGeneration);
      }
      out := Ok(Done);
    }

    function CanPersistNegativeAck(ack: Ack): (persists: bool)
      reads this
      ensures persists == ServerSpec.CanPersistNegativeAck(View(), ack)
    {
      if !(ack.status.Rejected? || ack.status.FullSnapshotRequired?) || !ack.Valid()
        || !MatchesIdentity(ack.binding) then false
      else if pendingSnapshot.Some? then ack.kind.AckSnapshot? && ack.config == pendingSnapshot.value.config
      else if pendingDelta.Some? then ack.kind.AckDelta? && ack.config == pendingDelta.value.config
      else false
    }

    function CanPersistNegativeDrainAck(ack: DrainAck): (persists: bool)
      reads this
      ensures persists == ServerSpec.CanPersistNegativeDrainAck(View(), ack)
    {
      && ack.status.DrainRefused? && ack.Valid() && drain.Some? && MatchesIdentity(ack.binding)
      && ack.drainId == drain.value.drainId && ack.config == drain.value.config
    }

    method HandleReadiness(now: Instant, r: Readiness) returns (out: Outcome<Reply>)
      requires Valid()
      modifies this, registry
      ensures Valid()
      ensures Performed(old(View()), old(registry.current), Input(now, old(Live()), DeliverReadiness(r)), View(),
                        registry.current, out)
    {
      if !r.Valid() {
        return Err(InvalidInput);
      }
      var refusal := EnsureActive(now);
      if refusal.Some? {
        return Err(refusal.value);
      }
      out := HandleReadinessLocked(r);
      StepIsSound(old(View()), Input(now, old(Live()), DeliverReadiness(r)));
    }

    method HandleReadinessLocked(r: Readiness) returns (out: Outcome<Reply>)
      modifies this
      ensures Step(View(), out) == Moved(old(View()), ServerSpec.HandleReadiness(old(View()), r))
    {
      if !MatchesIdentity(r.binding) {
        return Err(IdentityMismatch);
      }
      if candidate.Some? {
        if r.config != candidate.value.config {
          return Err(StaleGeneration);
        }
      } else if active.None? || r.config != active.value.config {
        return Err(StaleGeneration);
      }
      if !r.edge || !r.route || !r.origin {
        return Err(NotReady);
      }
      if candidate.Some? {
        active := candidate;
        candidate := None;
      }
      needsSnapshot := false;
      readyGeneration := r.config.generation;
      state := Ready;
      out := Ok(ReadyAck(Ack(Binding(auth.account, ref), AckReady, Applied, r.config, None)));
    }

    method OfferSnapshot(now: Instant, offer: Snapshot) returns (out: Outcome<Reply>)
      requires Valid()
      modifies this, registry
      ensures Valid()
      ensures Performed(old(View()), old(registry.current), Input(now, old(Live()), Offer(offer)), View(),
                        registry.current, out)
    {
      if !offer.Valid() {
        return Err(SnapshotRejected);
      }
      var refusal := EnsureActive(now);
      if refusal.Some? {
        return Err(refusal.value);
      }
      out := OfferSnapshotLocked(offer);
      StepIsSound(old(View()), Input(now, old(Live()), Offer(offer)));
    }

    method OfferSnapshotLocked(offer: Snapshot) returns (out: Outcome<Reply>)
      modifies this
      ensures Step(View(), out) == Moved(old(View()), ServerSpec.OfferSnapshot(old(View()), offer))
    {
      var identity := Binding(auth.account, ref);
      if offer.binding.ref.tunnel != ref.tunnel || !offer.binding.Offerable(identity) {
        return Err(IdentityMismatch);
      }
      if active.Some? && offer.config.generation < active.value.config.generation {
        return Err(StaleGeneration);
      }
      if candidate.Some? && offer.config.generation == candidate.value.config.generation {
        return if offer.config.hash != candidate.value.config.hash then Err(ContentHashMismatch) else Ok(Done);
      }
      if active.Some? && offer.config.generation == active.value.config.generation {
        return if offer.config.hash != active.value.config.hash then Err(ContentHashMismatch) else Ok(Done);
      }
      if pendingSnapshot.Some? && offer.config.generation == pendingSnapshot.value.config.generation {
        return if offer.config.hash != pendingSnapshot.value.config.hash then Err(ContentHashMismatch) else Ok(Done);
      }
      pendingDelta := None;
      pendingSnapshot := Some(offer.(binding := Binding(auth.account, ref.(tunnel := offer.binding.ref.tunnel))));
      if active.None? {
        state := AwaitingSnapshot;
      }
      out := Ok(Done);
    }

    method OfferDelta(now: Instant, offer: Delta) returns (out: Outcome<Reply>)
      requires Valid()
      modifies this, registry
      ensures Valid()
      ensures Performed(old(View()), old(registry.current), Input(now, old(Live()), OfferNext(offer)), View(),
                        registry.current, out)
    {
      if !offer.Valid() {
        return Err(DeltaRejected);
      }
      var refusal := EnsureActive(now);
      if refusal.Some? {
        return Err(refusal.value);
      }
      out := OfferDeltaLocked(offer);
      StepIsSound(old(View()), Input(now, old(Live()), OfferNext(offer)));
    }

    method OfferDeltaLocked(offer: Delta) returns (out: Outcome<Reply>)
      modifies this
      ensures Step(View(), out) == Moved(old(View()), ServerSpec.OfferDelta(old(View()), offer))
    {
      if active.None? || readyGeneration != active.value.config.generation || needsSnapshot {
        return Err(NotReady);
      }
      if pendingSnapshot.Some? || pendingDelta.Some? || candidate.Some? {
        return Err(GenerationGap);
      }
      var identity := Binding(auth.account, ref);
      if offer.binding.ref.tunnel != ref.tunnel || !offer.binding.Offerable(identity)
        || offer.previous != active.value.config {
        return Err(GenerationGap);
      }
      pendingDelta := Some(offer.(binding := identity));
      out := Ok(Done);
    }

    method HandleHeartbeat(now: Instant, beat: Heartbeat) returns (out: Outcome<Reply>)
      requires Valid()
      modifies this, registry
      ensures Valid()
      ensures Performed(old(View()), old(registry.current), Input(now, old(Live()), DeliverHeartbeat(beat)), View(),
                        registry.current, out)
      ensures out.Ok? ==>
                leaseExpiresAt == Earlier(auth.credentialExpiresAt, now + settings.leaseDuration)
                  && lastHeartbeat == now
    {
      if !beat.Valid() {
        return Err(InvalidInput);
      }
      var refusal := EnsureActive(now);
      if refusal.Some? {
        return Err(refusal.value);
      }
      out := HandleHeartbeatLocked(now, beat);
      StepIsSound(old(View()), Input(now, old(Live()), DeliverHeartbeat(beat)));
    }

    method HandleHeartbeatLocked(now: Instant, beat: Heartbeat) returns (out: Outcome<Reply>)
      modifies this
      ensures Step(View(), out) == ServerSpec.HandleHeartbeat(old(View()), now, beat)
    {
      if !MatchesIdentity(beat.binding) {
        return Err(IdentityMismatch);
      }
      if beat.sentAt > now + MAX_CLOCK_SKEW {
        return Err(InvalidInput);
      }
      if beat.sentAt < now - MAX_CLOCK_SKEW {
        return Err(HeartbeatTimeout);
      }
      if lastHeartbeatSentAt != 0 && beat.sentAt <= lastHeartbeatSentAt {
        return Err(StaleSession);
      }
      var expected := active;
      if active.None? {
        expected := if candidate.Some? then candidate else pendingSnapshot;
      }
      if expected.None? {
        return Err(SnapshotRequired);
      }
      if beat.applied != expected.value.config {
        if active.Some? {
          needsSnapshot := true;
          readyGeneration := 0;
          state := AwaitingSnapshot;
        }
        return Err(SnapshotRequired);
      }
      lastHeartbeatSentAt := beat.sentAt;
      lastHeartbeat := now;
      leaseExpiresAt := now + settings.leaseDuration;
      if auth.credentialExpiresAt < leaseExpiresAt {
        leaseExpiresAt := auth.credentialExpiresAt;
      }
      out := Ok(BeatAck(HeartbeatAck(Binding(auth.account, ref), leaseExpiresAt, now)));
    }

    method BeginDrain(now: Instant, drainId: Id, deadline: nat, force: bool, later: Instant)
      returns (out: Outcome<Reply>)
      requires Valid()
      modifies this, registry
      ensures Valid()
      ensures Performed(old(View()), old(registry.current),
                        Input(now, old(Live()), StartDrain(drainId, deadline, force, later)), View(), registry.current,
                        out)
    {
      var refusal := EnsureActive(now);
      if refusal.Some? {
        return Err(refusal.value);
      }
      out := BeginDrainLocked(drainId, deadline, force, later);
      StepIsSound(old(View()), Input(now, old(Live()), StartDrain(drainId, deadline, force, later)));
    }

    method BeginDrainLocked(drainId: Id, deadline: nat, force: bool, later: Instant) returns (out: Outcome<Reply>)
      modifies this
      ensures Step(View(), out) == ServerSpec.BeginDrain(old(View()), drainId, deadline, force, later)
    {
      if !canDrain {
        return Err(CapabilityMissing);
      }
      if drain.Some? {
        return if drain.value.drainId == drainId then Ok(DrainRequest(drain.value)) else Err(SessionConflict);
      }
      if active.None? || needsSnapshot || readyGeneration != active.value.config.generation || !state.Ready? {
        return Err(NotReady);
      }
      var request := Drain(Binding(auth.account, ref), drainId, active.value.config, deadline, true, force);
      if !request.Valid(later) {
        return Err(InvalidInput);
      }
      drain := Some(request);
      drainStatus := DrainAccepted;
      drainCode := None;
      drainCompleted := false;
      state := Draining;
      out := Ok(DrainRequest(request));
    }

    method HandleDrainAck(now: Instant, ack: DrainAck) returns (out: Outcome<Reply>)
      requires Valid()
      modifies this, registry
      ensures Valid()
      ensures Performed(old(View()), old(registry.current), Input(now, old(Live()), DeliverDrainAck(ack)), View(),
                        registry.current, out)
    {
      if !ack.Valid() {
        return Err(InvalidInput);
      }
      var refusal := EnsureActive(now);
      if refusal.Some? {
        return Err(refusal.value);
      }
      out := HandleDrainAckLocked(ack);
      StepIsSound(old(View()), Input(now, old(Live()), DeliverDrainAck(ack)));
    }

    method HandleDrainAckLocked(ack: DrainAck) returns (out: Outcome<Reply>)
      modifies this
      ensures Step(View(), out) == ServerSpec.HandleDrainAck(old(View()), ack)
    {
      if !MatchesIdentity(ack.binding) {
        return Err(IdentityMismatch);
      }
      if drain.None? || ack.drainId != drain.value.drainId {
        return Err(StaleSession);
      }
      if ack.config != drain.value.config {
        return Err(ContentHashMismatch);
      }
      if drainCompleted {
        return if ack.status == drainStatus && ack.code == drainCode then Ok(Done) else Err(StaleGeneration);
      }
      drainStatus := ack.status;
      drainCode := ack.code;
      match ack.status {
        case DrainAccepted => out := Ok(Done);
        case DrainProgress => out := Ok(Done);
        case DrainCompleted =>
          drainCompleted := true;
          out := Ok(Done);
        case DrainForced =>
          drainCompleted := true;
          out := Ok(Done);
        case DrainRefused =>
          drainCompleted := true;
          RestoreState();
          out := Err(DrainRejected);
      }
    }

    /** The first half of `Renew`, up to the point where the lock is dropped. */
    method BeginRenewal(now: Instant, request: RenewalRequest) returns (out: Outcome<Reply>)
      requires Valid()
      modifies this, registry
      ensures Valid()
      ensures Performed(old(View()), old(registry.current), Input(now, old(Live()), StartRenewal(request)), View(),
                        registry.current, out)
    {
      if !request.ValidAt(now) {
        return Err(AuthenticationFailed);
      }
      var refusal := EnsureActive(now);
      if refusal.Some? {
        return Err(refusal.value);
      }
      out := BeginRenewalLocked(now, request);
      StepIsSound(old(View()), Input(now, old(Live()), StartRenewal(request)));
    }

    method BeginRenewalLocked(now: Instant, request: RenewalRequest) returns (out: Outcome<Reply>)
      modifies this
      ensures Step(View(), out) == Step(old(View()), ServerSpec.BeginRenewal(old(View()), now, request))
    {
      if !MatchesIdentity(request.binding) || request.host != auth.host || request.key != auth.key
         || request.credentialGeneration != auth.credentialGeneration {
        return Err(IdentityMismatch);
      }
      out := Ok(Ticket(RenewalTicket(now, auth, ref)));
    }

    /** The second half of `Renew`, with the authenticator's answer, after the lock is taken again. */
    method FinishRenewal(now: Instant, ticket: RenewalTicket, answer: Outcome<AuthResult>) returns (out: Outcome<Reply>)
      requires Valid()
      modifies this, registry
      ensures Valid()
      ensures Performed(old(View()), old(registry.current), Input(now, old(Live()), EndRenewal(ticket, answer)), View(),
                        registry.current, out)
    {
      if answer.Err? {
        return Err(CredentialExpired);
      }
      if !AcceptableRenewal(ticket, answer.value) {
        return Err(AuthenticationFailed);
      }
      var refusal := EnsureActive(now);
      if refusal.Some? {
        return Err(refusal.value);
      }
      out := FinishRenewalLocked(ticket, answer);
      StepIsSound(old(View()), Input(now, old(Live()), EndRenewal(ticket, answer)));
    }

    method FinishRenewalLocked(ticket: RenewalTicket, answer: Outcome<AuthResult>) returns (out: Outcome<Reply>)
      requires answer.Ok?
      modifies this
      ensures Step(View(), out) == ServerSpec.FinishRenewal(old(View()), ticket, answer.value)
    {
      if auth != ticket.expected || ref != ticket.ref {
        return Err(SessionConflict);
      }
      auth := answer.value.(session := ticket.ref.session);
      leaseExpiresAt := auth.leaseExpiresAt;
      var configured := ticket.begun + settings.leaseDuration;
      if configured < leaseExpiresAt {
        leaseExpiresAt := configured;
      }
      lastHeartbeat := ticket.begun;
      out := Ok(Renewed(auth));
    }

    method Close(reason: Reason) returns (out: Outcome<Reply>)
      requires Valid()
      modifies this, registry
      ensures Valid()
      ensures Performed(old(View()), old(registry.current), Input(1, old(Live()), CloseSession(reason)), View(),
                        registry.current, out)
    {
      CloseLocked(reason);
      out := Ok(Done);
    }

    /** `CheckLease`: the gate alone. */
    method CheckLease(now: Instant) returns (out: Outcome<Reply>)
      requires Valid()
      modifies this, registry
      ensures Valid()
      ensures Performed(old(View()), old(registry.current), Input(now, old(Live()), Op.CheckLease), View(),
                        registry.current, out)
    {
      var refusal := EnsureActive(now);
      out := if refusal.Some? then Err(refusal.value) else Ok(Done);
    }
  }

  /** `Server.Accept`: authenticate, build the first state, and take the connector's registry slot. */
  class ControlServer {
    const registry: SessionRegistry
    const settings: Settings

    constructor (registry: SessionRegistry, settings: Settings)
      ensures this.registry == registry && this.settings == settings
    {
      this.registry, this.settings := registry, settings;
    }

    method Accept(now: Instant, hello: Hello, drains: Outcome<bool>, auth: Outcome<AuthResult>,
                  source: Outcome<Snapshot>, sessionId: Outcome<Id>) returns (out: Outcome<ServerSession>)
      requires registry.Valid()
      modifies registry
      ensures registry.Valid()
      ensures var a := ServerSpec.Accept(settings, now, hello, drains, auth, source, sessionId);
              if a.Err? then out == Err(a.code) && registry.current == old(registry.current)
              else if AttachRefusal(old(registry.current), a.value.ref).Some? then
                out == Err(AttachRefusal(old(registry.current), a.value.ref).value)
                  && registry.current == old(registry.current)
              else
                && out.Ok? && fresh(out.value) && out.value.View() == a.value && out.value.registry == registry
                && out.value.Valid() && out.value.Live()
                && registry.current == old(registry.current)[a.value.ref.connector := a.value.ref]
    {
      var accepted := ServerSpec.Accept(settings, now, hello, drains, auth, source, sessionId);
      if accepted.Err? {
        return Err(accepted.code);
      }
      var attached := registry.Attach(accepted.value.ref);
      if attached.Err? {
        return Err(attached.code);
      }
      SR.AcceptEstablishesInv(settings, now, hello, drains, auth, source, sessionId);
      SR.AcceptEstablishesLeaseInv(settings, now, hello, drains, auth, source, sessionId);
      var session := new ServerSession(registry, accepted.value);
      out := Ok(session);
    }
  }
}
