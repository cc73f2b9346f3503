/** `ClientSession` with its own fields, updated in place; every method is proved against `ClientSpec`. */
module ClientSessions {
  import opened Wrappers
  import opened Protocol
  import opened ClientSpec
  import Effects = ClientEffects
  import CR = ClientRuns

  lemma StepIsValid(c: Client, i: Input)
    requires CR.Inv(c.hold) && CR.Accounted(c.hold) && CR.FreshHandle(c, i.op)
    ensures CR.Inv(Do(c, i).next.hold) && CR.Accounted(Do(c, i).next.hold)
  {
    CR.StepKeepsInv(c, i);
    CR.StepKeepsAccounts(c, i);
  }

  class ClientSession {
    var identity: Binding
    var credential: Credential
    var leaseExpiresAt: nat
    var heartbeatMs: nat
    var lastHeartbeatAck: nat
    var active: Option<Snapshot>
    var candidate: Option<Snapshot>
    var prepared: Option<Handle>
    var needsSnapshot: bool
    var readyGeneration: nat
    var state: SessionState
    var disconnectReason: Option<Reason>
    /** The calls made on the runtime's handles. */
    ghost var handles: multiset<HandleEvent>

    ghost function Hold(): Holding
      reads this
    {
      Holding(active, candidate, prepared, needsSnapshot, readyGeneration, state, handles)
    }

    ghost function View(): Client
      reads this
    {
      Client(identity, credential, leaseExpiresAt, heartbeatMs, lastHeartbeatAck, Hold(), disconnectReason)
    }

    /** The staging invariant, and every prepared configuration accounted for. */
    ghost predicate Valid()
      reads this
    {
      CR.Inv(Hold()) && CR.Accounted(Hold())
    }

    constructor (identity: Binding, credential: Credential)
      ensures Valid() && View() == Initial(identity, credential)
    {
      this.identity, this.credential := identity, credential;
      leaseExpiresAt, heartbeatMs, lastHeartbeatAck := 0, 0, 0;
      active, candidate, prepared := None, None, None;
      needsSnapshot, readyGeneration, state := false, 0, New;
      disconnectReason := None;
      handles := multiset{};
    }

    method AcceptWelcome(now: Instant, welcome: Welcome) returns (out: Outcome<Reply>)
      requires Valid()
      modifies this
      ensures Valid()
      ensures Step(View(), out, None) == Do(old(View()), Input(now, Welcomed(welcome)))
    {
      out := TakeWelcome(now, welcome);
      StepIsValid(old(View()), Input(now, Welcomed(welcome)));
    }

    method TakeWelcome(now: Instant, welcome: Welcome) returns (out: Outcome<Reply>)
      modifies this
      ensures Step(View(), out, None) == ClientSpec.AcceptWelcome(old(View()), now, welcome)
    {
      if !welcome.Valid(now) {
        return Err(InvalidInput);
      }
      if !state.New? {
        return Err(SessionConflict);
      }
      identity := identity.(ref := identity.ref.(session := welcome.session));
      leaseExpiresAt, heartbeatMs := welcome.leaseExpiresAt, welcome.heartbeatMs;
      state := AwaitingSnapshot;
      lastHeartbeatAck := now;
      out := Ok(Done);
    }

    method EnsureActive(now: Instant) returns (refusal: Option<Code>)
      modifies this`state, this`disconnectReason
      ensures var v := Admission(old(View()), now);
              View() == Expired(old(View()), v) && refusal == if v.Pass? then None else Some(v.Code())
    {
      if state.Closed? {
        return Some(SessionClosed);
      }
      if state.New? {
        return Some(SessionConflict);
      }
      if leaseExpiresAt <= now {
        state, disconnectReason := Closed, Some(ReasonLeaseExpired);
        return Some(LeaseExpired);
      }
      if lastHeartbeatAck != 0 && now - lastHeartbeatAck > 2_000_000 * heartbeatMs {
        state, disconnectReason := Closed, Some(ReasonHeartbeatTimeout);
        return Some(HeartbeatTimeout);
      }
      refusal := None;
    }

    /** The runtime aborts a prepared configuration; there may be none to abort. */
    ghost method Abort(handle: Option<Handle>)
      modifies this`handles
      ensures handles == old(handles) + if handle.Some? then multiset{Aborted(handle.value)} else multiset{}
    {
      if handle.Some? {
        handles := handles + multiset{Aborted(handle.value)};
      }
    }

    method RestoreState()
      modifies this`state
      ensures Hold() == Restored(old(Hold()))
    {
      if active.Some? && readyGeneration == active.value.config.generation && !needsSnapshot {
        state := Ready;
      } else if candidate.Some? {
        state := AwaitingReady;
      } else {
        state := AwaitingSnapshot;
      }
    }

    /** A configuration the runtime returned but that is not going to be staged. */
    ghost method Discard(handle: Option<Handle>)
      modifies this`handles
      ensures handles == old(handles) + ReturnedAndAborted(handle)
    {
      handles := handles + ReturnedAndAborted(handle);
    }

    method StageLocked(prep: Preparation, rejected: Code, later: Instant, staged: Snapshot, kind: AckKind)
      returns (out: Outcome<Reply>, ack: Option<Ack>)
      modifies this
      ensures Step(View(), out, ack) == Stage(old(View()), prep, rejected, later, staged, kind)
    {
      if prep.failed || prep.timedOut || prep.handle.None? {
        Discard(prep.handle);
        return Err(if prep.timedOut then Canceled else rejected), None;
      }
      var refusal := EnsureActive(later);
      if refusal.Some? {
        Discard(prep.handle);
        return Err(refusal.value), None;
      }
      out, ack := InstallLocked(prep.handle.value, staged, kind);
    }

    method InstallLocked(handle: Handle, staged: Snapshot, kind: AckKind)
      returns (out: Outcome<Reply>, ack: Option<Ack>)
      modifies this`candidate, this`prepared, this`needsSnapshot, this`readyGeneration, this`state, this`handles
      ensures Step(View(), out, ack) == Install(old(View()), handle, staged, kind)
    {
      if candidate.Some? && prepared.Some? {
        Discard(Some(handle));
        return Err(GenerationGap), None;
      }
      handles := handles + multiset{Returned(handle)};
      candidate := Some(staged);
      prepared := Some(handle);
      if kind.AckSnapshot? {
        needsSnapshot := false;
      }
      readyGeneration := 0;
      state := AwaitingReady;
      return Ok(Acked), Some(Ack(identity, kind, Applied, staged.config, None));
    }

    method DropCandidate()
      requires prepared.Some?
      modifies this`candidate, this`prepared, this`needsSnapshot, this`state, this`handles
      ensures Hold() == Dropped(old(Hold()))
    {
      Abort(prepared);
      candidate, prepared := None, None;
      needsSnapshot := true;
      RestoreState();
    }

    method PromoteCandidate()
      requires candidate.Some?
      modifies this`active, this`candidate, this`prepared, this`needsSnapshot, this`readyGeneration, this`state
      ensures Hold()
              == Holding(old(candidate), None, None, false, old(candidate).value.config.generation, Ready, handles)
    {
      active := candidate;
      candidate, prepared := None, None;
      needsSnapshot := false;
      readyGeneration := active.value.config.generation;
      state := Ready;
    }

    method ApplySnapshotLocked(snapshot: Snapshot, canceled: bool, prep: Preparation, later: Instant)
      returns (out: Outcome<Reply>, ack: Option<Ack>)
      modifies this
      ensures Step(View(), out, ack) == ClientSpec.ApplySnapshot(old(View()), snapshot, canceled, prep, later)
    {
      if snapshot.binding != identity || !snapshot.ValidBound() {
        return Err(IdentityMismatch), None;
      }
      var current := active;
      if candidate.Some? {
        current := candidate;
      }
      if current.Some? {
        if snapshot.config.generation < current.value.config.generation {
          return Err(StaleGeneration), None;
        }
        if snapshot.config.generation == current.value.config.generation {
          if snapshot.config.hash == current.value.config.hash {
            return Ok(Acked), Some(Ack(identity, AckSnapshot, Duplicate, snapshot.config, None));
          }
          return Err(ContentHashMismatch), None;
        }
      }
      if canceled {
        return Err(Canceled), None;
      }
      out, ack := StageLocked(prep, SnapshotRejected, later, snapshot, AckSnapshot);
    }

    method ApplySnapshot(now: Instant, snapshot: Snapshot, canceled: bool, prep: Preparation, later: Instant)
      returns (out: Outcome<Reply>, ack: Option<Ack>)
      requires Valid()
      requires prep.handle.Some? ==> handles[Returned(prep.handle.value)] == 0
      modifies this
      ensures Valid()
      ensures Step(View(), out, ack) == Do(old(View()), Input(now, GetSnapshot(snapshot, canceled, prep, later)))
    {
      if !snapshot.Valid() {
        return Err(SnapshotRejected), None;
      }
      var refusal := EnsureActive(now);
      if refusal.Some? {
        return Err(refusal.value), None;
      }
      out, ack := ApplySnapshotLocked(snapshot, canceled, prep, later);
      StepIsValid(old(View()), Input(now, GetSnapshot(snapshot, canceled, prep, later)));
    }

    method ApplyDeltaLocked(delta: Delta, canceled: bool, prep: Preparation, later: Instant)
      returns (out: Outcome<Reply>, ack: Option<Ack>)
      modifies this
      ensures Step(View(), out, ack) == ClientSpec.ApplyDelta(old(View()), delta, canceled, prep, later)
    {
      if delta.binding != identity || !delta.ValidBound() {
        return Err(IdentityMismatch), None;
      }
      var notice := Ack(identity, AckDelta, FullSnapshotRequired, delta.config, None);
      if active.None? || needsSnapshot || candidate.Some? {
        return Err(SnapshotRequired), Some(notice);
      }
      if delta.previous == active.value.config {
        // A valid delta succeeds what it names, so there is no gap to test for here.
        assert delta.config.generation == active.value.config.generation + 1;
      } else if delta.config.generation <= active.value.config.generation {
        return Err(StaleGeneration), None;
      } else {
        needsSnapshot := true;
        return Err(GenerationGap), Some(notice);
      }
      if canceled {
        return Err(Canceled), None;
      }
      out, ack := StageLocked(prep, DeltaRejected, later, Snapshot(identity, delta.config, delta.payload), AckDelta);
    }

    method ApplyDelta(now: Instant, delta: Delta, canceled: bool, prep: Preparation, later: Instant)
      returns (out: Outcome<Reply>, ack: Option<Ack>)
      requires Valid()
      requires prep.handle.Some? ==> handles[Returned(prep.handle.value)] == 0
      modifies this
      ensures Valid()
      ensures Step(View(), out, ack) == Do(old(View()), Input(now, GetDelta(delta, canceled, prep, later)))
    {
      if !delta.Valid() {
        return Err(DeltaRejected), None;
      }
      var refusal := EnsureActive(now);
      if refusal.Some? {
        return Err(refusal.value), None;
      }
      out, ack := ApplyDeltaLocked(delta, canceled, prep, later);
      StepIsValid(old(View()), Input(now, GetDelta(delta, canceled, prep, later)));
    }

    method MarkReadyLocked(probe: Probe, canceled: bool, activates: bool, canceledLater: bool, later: Instant)
      returns (out: Outcome<Reply>)
      modifies this
      ensures Step(View(), out, None)
              == ClientSpec.MarkReady(old(View()), probe, canceled, activates, canceledLater, later)
    {
      if candidate.None? {
        return Err(SnapshotRequired);
      }
      var readiness := Readiness(identity, candidate.value.config, true, true, true);
      if !probe.edge || !probe.route || !probe.origin {
        return Err(NotReady);
      }
      if canceled {
        return Err(Canceled);
      }
      if prepared.None? {
        return Err(SnapshotRejected);
      }
      if !activates {
        DropCandidate();
        return Err(if canceledLater then Canceled else SnapshotRejected);
      }
      handles := handles + multiset{Activated(prepared.value)};
      var refusal := EnsureActive(later);
      if refusal.Some? {
        return Err(refusal.value);
      }
      PromoteCandidate();
      out := Ok(Promoted(readiness));
    }

    /** `MarkReadyContext`: the candidate is activated only when every readiness dimension is true. */
    method MarkReady(now: Instant, probe: Probe, canceled: bool, activates: bool, canceledLater: bool, later: Instant)
      returns (out: Outcome<Reply>)
      requires Valid()
      modifies this
      ensures Valid()
      ensures Step(View(), out, None)
              == Do(old(View()), Input(now, ReportReady(probe, canceled, activates, canceledLater, later)))
      ensures out.Ok? <==>
              && probe.edge && probe.route && probe.origin && old(candidate).Some? && !canceled && activates
              && Effects.Open(old(View()), now) && Effects.Open(old(View()), later)
    {
      Effects.ReadyEffect(View(), Input(now, ReportReady(probe, canceled, activates, canceledLater, later)));
      var refusal := EnsureActive(now);
      if refusal.Some? {
        return Err(refusal.value);
      }
      out := MarkReadyLocked(probe, canceled, activates, canceledLater, later);
      StepIsValid(old(View()), Input(now, ReportReady(probe, canceled, activates, canceledLater, later)));
    }

    method Heartbeat(now: Instant) returns (out: Outcome<Reply>)
      requires Valid()
      modifies this
      ensures Valid()
      ensures Step(View(), out, None) == Do(old(View()), Input(now, SendHeartbeat))
    {
      var refusal := EnsureActive(now);
      if refusal.Some? {
        return Err(refusal.value);
      }
      var current := if active.Some? then active else candidate;
      if current.None? {
        return Err(SnapshotRequired);
      }
      out := Ok(Beat(Protocol.Heartbeat(identity, current.value.config, now)));
      StepIsValid(old(View()), Input(now, SendHeartbeat));
    }

    method AcceptHeartbeatAck(now: Instant, ack: HeartbeatAck) returns (out: Outcome<Reply>)
      requires Valid()
      modifies this
      ensures Valid()
      ensures Step(View(), out, None) == Do(old(View()), Input(now, GetHeartbeatAck(ack)))
    {
      if !ack.Valid(now) {
        return Err(InvalidInput);
      }
      var refusal := EnsureActive(now);
      if refusal.Some? {
        return Err(refusal.value);
      }
      if ack.binding != identity {
        return Err(IdentityMismatch);
      }
      leaseExpiresAt := ack.leaseExpiresAt;
      lastHeartbeatAck := now;
      out := Ok(Done);
      StepIsValid(old(View()), Input(now, GetHeartbeatAck(ack)));
    }

    method ApplyRenewal(now: Instant, result: AuthResult, sound: bool) returns (out: Outcome<Reply>)
      requires Valid()
      modifies this
      ensures Valid()
      ensures Step(View(), out, None) == Do(old(View()), Input(now, GetRenewal(result, sound)))
    {
      if !sound {
        return Err(AuthenticationFailed);
      }
      var refusal := EnsureActive(now);
      if refusal.Some? {
        return Err(refusal.value);
      }
      out := ApplyRenewalLocked(now, result);
      StepIsValid(old(View()), Input(now, GetRenewal(result, sound)));
    }

    method ApplyRenewalLocked(now: Instant, result: AuthResult) returns (out: Outcome<Reply>)
      modifies this
      ensures Step(View(), out, None) == ClientSpec.ApplyRenewal(old(View()), now, result)
    {
      var named := SessionRef(result.tunnel, result.connector, result.session, result.process);
      if Binding(result.account, named) != identity
         || result.host != credential.host || result.key != credential.key
         || result.credentialGeneration < credential.generation {
        return Err(IdentityMismatch);
      }
      if result.credentialExpiresAt < credential.expiresAt || result.leaseExpiresAt < leaseExpiresAt {
        return Err(SessionConflict);
      }
      if result.credentialGeneration == credential.generation && result.credentialExpiresAt == credential.expiresAt
         && result.leaseExpiresAt == leaseExpiresAt {
        return Ok(Done);
      }
      credential := credential.(generation := result.credentialGeneration, expiresAt := result.credentialExpiresAt);
      leaseExpiresAt := result.leaseExpiresAt;
      lastHeartbeatAck := now;
      out := Ok(Done);
    }

    method Close(reason: Reason) returns (out: Outcome<Reply>)
      requires Valid()
      modifies this
      ensures Valid()
      ensures Step(View(), out, None) == Do(old(View()), Input(1, CloseSession(reason)))
    {
      CloseLocked(reason);
      StepIsValid(old(View()), Input(1, CloseSession(reason)));
      out := Ok(Done);
    }

    method CloseLocked(reason: Reason)
      modifies this
      ensures View() == ClientSpec.Close(old(View()), reason)
    {
      if state.Closed? {
        return;
      }
      state, disconnectReason := Closed, Some(reason);
      var staged := prepared;
      candidate, prepared := None, None;
      Abort(staged);
    }
  }
}
