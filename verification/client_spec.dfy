/** The connector's half of one control session, as a function from state and input to state and reply.

    Each public operation of `ClientSession` is one step. The runtime behind it answers through the inputs:
    what preparing a configuration returned, whether activating it succeeded, and the clock when control
    came back. The handles the runtime hands out are accounted for in `handles`. */
module ClientSpec {
  import opened Wrappers
  import opened Protocol

  type Handle = nat
  datatype HandleEvent = Returned(h: Handle) | Activated(h: Handle) | Aborted(h: Handle)

  /** What `PrepareSnapshot` or `PrepareDelta` returned, and whether its context had run out. */
  datatype Preparation = Preparation(handle: Option<Handle>, failed: bool, timedOut: bool)

  datatype Welcome = Welcome(session: Id, leaseExpiresAt: nat, heartbeatMs: nat, sound: bool) {
    predicate Valid(now: Instant) {
      && sound && ValidIdentifier(session) && leaseExpiresAt != 0 && heartbeatMs != 0
      && leaseExpiresAt > now && leaseExpiresAt - now <= MAX_LEASE && heartbeatMs * 1_000_000 < leaseExpiresAt - now
    }
  }

  datatype Holding = Holding(
    active: Option<Snapshot>,
    candidate: Option<Snapshot>,
    prepared: Option<Handle>,
    needsSnapshot: bool,
    readyGeneration: nat,
    state: SessionState,
    handles: multiset<HandleEvent>)

  datatype Credential = Credential(host: Id, key: KeyIdentity, generation: nat, expiresAt: nat)

  datatype Client = Client(
    identity: Binding,
    credential: Credential,
    leaseExpiresAt: nat,
    heartbeatMs: nat,
    lastHeartbeatAck: nat,
    hold: Holding,
    disconnectReason: Option<Reason>)

  datatype Reply = Done | Acked | Promoted(readiness: Readiness) | Beat(beat: Heartbeat)

  /** The next state, the result, and the acknowledgement that is returned even beside an error. */
  datatype Step = Step(next: Client, out: Outcome<Reply>, ack: Option<Ack>)

  function Refuse(c: Client, code: Code): Step { Step(c, Err(code), None) }

  /** A new session of a process that has not been welcomed yet. */
  function Initial(identity: Binding, credential: Credential): Client {
    Client(identity, credential, 0, 0, 0, Holding(None, None, None, false, 0, New, multiset{}), None)
  }

  datatype Verdict = Pass | AlreadyClosed | NotWelcomed | LeaseOver | Silent {
    function Code(): Code
      requires !Pass?
    {
      match this
      case AlreadyClosed => SessionClosed
      case NotWelcomed => SessionConflict
      case LeaseOver => LeaseExpired
      case Silent => HeartbeatTimeout
    }

    predicate Closes() { LeaseOver? || Silent? }
  }

  function Admission(c: Client, now: Instant): Verdict {
    if c.hold.state.Closed? then AlreadyClosed
    else if c.hold.state.New? then NotWelcomed
    else if c.leaseExpiresAt <= now then LeaseOver
    else if c.lastHeartbeatAck != 0 && now - c.lastHeartbeatAck > 2_000_000 * c.heartbeatMs then Silent
    else Pass
  }

  /** The gate closes an expired session without releasing what it has staged. */
  function Expired(c: Client, v: Verdict): Client {
    if !v.Closes() then c
    else c.(hold := c.hold.(state := Closed),
            disconnectReason := Some(if v.LeaseOver? then ReasonLeaseExpired else ReasonHeartbeatTimeout))
  }

  function Noted(c: Client, events: multiset<HandleEvent>): Client {
    c.(hold := c.hold.(handles := c.hold.handles + events))
  }

  function ReturnedAndAborted(handle: Option<Handle>): multiset<HandleEvent> {
    if handle.Some? then multiset{Returned(handle.value), Aborted(handle.value)} else multiset{}
  }

  function Restored(h: Holding): Holding {
    h.(state := if h.active.Some? && h.readyGeneration == h.active.value.config.generation && !h.needsSnapshot
                then Ready
                else if h.candidate.Some? then AwaitingReady else AwaitingSnapshot)
  }

  function AckFor(c: Client, kind: AckKind, status: AckStatus, config: Config): Ack {
    Ack(c.identity, kind, status, config, None)
  }

  /** The negative answer a transport sends when an apply failed. */
  function RejectionAck(c: Client, kind: AckKind, config: Config, code: Code): Ack {
    Ack(c.identity, kind, Rejected, config, Some(code))
  }

  function AcceptWelcome(c: Client, now: Instant, welcome: Welcome): Step {
    if !welcome.Valid(now) then Refuse(c, InvalidInput)
    else if !c.hold.state.New? then Refuse(c, SessionConflict)
    else Step(c.(identity := c.identity.(ref := c.identity.ref.(session := welcome.session)),
                 leaseExpiresAt := welcome.leaseExpiresAt, heartbeatMs := welcome.heartbeatMs, lastHeartbeatAck := now,
                 hold := c.hold.(state := AwaitingSnapshot)),
              Ok(Done), None)
  }

  // ---------------------------------------------------------------------------------------------
  // Applying configurations

  /** Why a preparation is not staged. */
  function PreparationRefusal(prep: Preparation, rejected: Code): Option<Code> {
    if prep.timedOut then Some(Canceled)
    else if prep.failed || prep.handle.None? then Some(rejected)
    else None
  }

  /** At most one configuration is staged; a second one is aborted. */
  function Install(c: Client, handle: Handle, candidate: Snapshot, kind: AckKind): Step {
    if c.hold.candidate.Some? && c.hold.prepared.Some? then
      Refuse(Noted(c, ReturnedAndAborted(Some(handle))), GenerationGap)
    else
      Step(c.(hold := Holding(c.hold.active, Some(candidate), Some(handle),
                              c.hold.needsSnapshot && !kind.AckSnapshot?, 0, AwaitingReady,
                              c.hold.handles + multiset{Returned(handle)})),
           Ok(Acked), Some(AckFor(c, kind, Applied, candidate.config)))
  }

  /** The second half of both applies: everything that is not staged is aborted. */
  function Stage(c: Client, prep: Preparation, rejected: Code, later: Instant, candidate: Snapshot,
                 kind: AckKind): Step {
    var refusal := PreparationRefusal(prep, rejected);
    var v := Admission(c, later);
    if refusal.Some? then Refuse(Noted(c, ReturnedAndAborted(prep.handle)), refusal.value)
    else if !v.Pass? then Refuse(Noted(Expired(c, v), ReturnedAndAborted(prep.handle)), v.Code())
    else Install(c, prep.handle.value, candidate, kind)
  }

  /** The newest configuration held: the candidate, or else the active one. */
  function Newest(h: Holding): Option<Snapshot> { if h.candidate.Some? then h.candidate else h.active }

  function SnapshotRefusal(c: Client, snapshot: Snapshot): Option<Code> {
    var current := Newest(c.hold);
    if snapshot.binding != c.identity || !snapshot.ValidBound() then Some(IdentityMismatch)
    else if current.Some? && snapshot.config.generation < current.value.config.generation then Some(StaleGeneration)
    else if current.Some? && snapshot.config.generation == current.value.config.generation
            && snapshot.config.hash != current.value.config.hash then Some(ContentHashMismatch)
    else None
  }

  function ApplySnapshot(c: Client, snapshot: Snapshot, canceled: bool, prep: Preparation, later: Instant): Step {
    var refusal := SnapshotRefusal(c, snapshot);
    if refusal.Some? then Refuse(c, refusal.value)
    else if Newest(c.hold).Some? && snapshot.config == Newest(c.hold).value.config then
      Step(c, Ok(Acked), Some(AckFor(c, AckSnapshot, Duplicate, snapshot.config)))
    else if canceled then Refuse(c, Canceled)
    else Stage(c, prep, SnapshotRejected, later, snapshot, AckSnapshot)
  }

  datatype DeltaCheck = DeltaForeign | DeltaNeedsSnapshot | DeltaGap | DeltaStale | DeltaFits

  function CheckDelta(c: Client, delta: Delta): DeltaCheck {
    if delta.binding != c.identity || !delta.ValidBound() then DeltaForeign
    else if c.hold.active.None? || c.hold.needsSnapshot || c.hold.candidate.Some? then DeltaNeedsSnapshot
    else if delta.previous == c.hold.active.value.config then
      if delta.config.generation != c.hold.active.value.config.generation + 1 then DeltaGap else DeltaFits
    else if delta.config.generation <= c.hold.active.value.config.generation then DeltaStale
    else DeltaGap
  }

  function ApplyDelta(c: Client, delta: Delta, canceled: bool, prep: Preparation, later: Instant): Step {
    var notice := Some(AckFor(c, AckDelta, FullSnapshotRequired, delta.config));
    match CheckDelta(c, delta)
    case DeltaForeign => Refuse(c, IdentityMismatch)
    case DeltaNeedsSnapshot => Step(c, Err(SnapshotRequired), notice)
    case DeltaGap => Step(c.(hold := c.hold.(needsSnapshot := true)), Err(GenerationGap), notice)
    case DeltaStale => Refuse(c, StaleGeneration)
    case DeltaFits =>
      if canceled then Refuse(c, Canceled)
      else Stage(c, prep, DeltaRejected, later, Snapshot(c.identity, delta.config, delta.payload), AckDelta)
  }

  // ---------------------------------------------------------------------------------------------
  // Activation

  datatype Probe = Probe(edge: bool, route: bool, origin: bool)

  /** Activation failed: the candidate is aborted and dropped, the active configuration stays. */
  function Dropped(h: Holding): Holding
    requires h.prepared.Some?
  {
    Restored(h.(candidate := None, prepared := None, needsSnapshot := true,
                handles := h.handles + multiset{Aborted(h.prepared.value)}))
  }

  function MarkReadyRefusal(h: Holding, probe: Probe, canceled: bool): Option<Code> {
    if h.candidate.None? then Some(SnapshotRequired)
    else if !(probe.edge && probe.route && probe.origin) then Some(NotReady)
    else if canceled then Some(Canceled)
    else if h.prepared.None? then Some(SnapshotRejected)
    else None
  }

  /** `activates` is the runtime's answer to Activate; `canceledLater` whether the context ran out meanwhile. */
  function MarkReady(c: Client, probe: Probe, canceled: bool, activates: bool, canceledLater: bool,
                     later: Instant): Step {
    var refusal := MarkReadyRefusal(c.hold, probe, canceled);
    if refusal.Some? then Refuse(c, refusal.value)
    else if !activates then
      Refuse(c.(hold := Dropped(c.hold)), if canceledLater then Canceled else SnapshotRejected)
    else
      var active := Noted(c, multiset{Activated(c.hold.prepared.value)});
      var v := Admission(active, later);
      if !v.Pass? then Refuse(Expired(active, v), v.Code())
      else
        var h := active.hold;
        Step(active.(hold :=
                     Holding(h.candidate, None, None, false, h.candidate.value.config.generation, Ready, h.handles)),
             Ok(Promoted(Readiness(c.identity, h.candidate.value.config, true, true, true))), None)
  }

  // ---------------------------------------------------------------------------------------------
  // Liveness and closing

  function Reported(h: Holding): Option<Snapshot> { if h.active.Some? then h.active else h.candidate }

  function MakeHeartbeat(c: Client, now: Instant): Step {
    if Reported(c.hold).None? then Refuse(c, SnapshotRequired)
    else Step(c, Ok(Beat(Heartbeat(c.identity, Reported(c.hold).value.config, now))), None)
  }

  function AcceptHeartbeatAck(c: Client, now: Instant, ack: HeartbeatAck): Step {
    if ack.binding != c.identity then Refuse(c, IdentityMismatch)
    else Step(c.(leaseExpiresAt := ack.leaseExpiresAt, lastHeartbeatAck := now), Ok(Done), None)
  }

  function RenewalRefusal(c: Client, r: AuthResult): Option<Code> {
    if Binding(r.account, SessionRef(r.tunnel, r.connector, r.session, r.process)) != c.identity
       || r.host != c.credential.host || r.key != c.credential.key || r.credentialGeneration < c.credential.generation
    then Some(IdentityMismatch)
    else if r.credentialExpiresAt < c.credential.expiresAt || r.leaseExpiresAt < c.leaseExpiresAt then
      Some(SessionConflict)
    else None
  }

  function ApplyRenewal(c: Client, now: Instant, r: AuthResult): Step {
    var refusal := RenewalRefusal(c, r);
    if refusal.Some? then Refuse(c, refusal.value)
    else if r.credentialGeneration == c.credential.generation && r.credentialExpiresAt == c.credential.expiresAt
            && r.leaseExpiresAt == c.leaseExpiresAt then Step(c, Ok(Done), None)
    else Step(c.(credential := c.credential.(generation := r.credentialGeneration, expiresAt := r.credentialExpiresAt),
                 leaseExpiresAt := r.leaseExpiresAt, lastHeartbeatAck := now),
              Ok(Done), None)
  }

  /** Closing an open session aborts what is staged; closing a closed one does nothing. */
  function Close(c: Client, reason: Reason): Client {
    if c.hold.state.Closed? then c
    else
      var events := if c.hold.prepared.Some? then multiset{Aborted(c.hold.prepared.value)} else multiset{};
      c.(hold := c.hold.(state := Closed, candidate := None, prepared := None, handles := c.hold.handles + events),
         disconnectReason := Some(reason))
  }

  // ---------------------------------------------------------------------------------------------
  // One operation, and runs of them

  datatype Op =
    | Welcomed(welcome: Welcome)
    | GetSnapshot(snapshot: Snapshot, canceled: bool, prep: Preparation, later: Instant)
    | GetDelta(delta: Delta, canceled: bool, prep: Preparation, later: Instant)
    | ReportReady(probe: Probe, canceled: bool, activates: bool, canceledLater: bool, later: Instant)
    | SendHeartbeat
    | GetHeartbeatAck(beatAck: HeartbeatAck)
    | GetRenewal(auth: AuthResult, sound: bool)
    | CheckLease
    | CloseSession(reason: Reason)

  datatype Input = Input(now: Instant, op: Op)

  function Malformed(op: Op, now: Instant): Option<Code> {
    match op
    case GetSnapshot(snapshot, _, _, _) => if snapshot.Valid() then None else Some(SnapshotRejected)
    case GetDelta(delta, _, _, _) => if delta.Valid() then None else Some(DeltaRejected)
    case GetHeartbeatAck(ack) => if ack.Valid(now) then None else Some(InvalidInput)
    case GetRenewal(_, sound) => if sound then None else Some(AuthenticationFailed)
    case _ => None
  }

  function Body(c: Client, now: Instant, op: Op): Step {
    match op
    case GetSnapshot(snapshot, canceled, prep, later) => ApplySnapshot(c, snapshot, canceled, prep, later)
    case GetDelta(delta, canceled, prep, later) => ApplyDelta(c, delta, canceled, prep, later)
    case ReportReady(probe, canceled, activates, canceledLater, later) =>
      MarkReady(c, probe, canceled, activates, canceledLater, later)
    case SendHeartbeat => MakeHeartbeat(c, now)
    case GetHeartbeatAck(ack) => AcceptHeartbeatAck(c, now, ack)
    case GetRenewal(auth, _) => ApplyRenewal(c, now, auth)
    case _ => Step(c, Ok(Done), None)
  }

  function Do(c: Client, i: Input): Step {
    if i.op.CloseSession? then Step(Close(c, i.op.reason), Ok(Done), None)
    else if i.op.Welcomed? then AcceptWelcome(c, i.now, i.op.welcome)
    else if Malformed(i.op, i.now).Some? then Refuse(c, Malformed(i.op, i.now).value)
    else if !Admission(c, i.now).Pass? then Refuse(Expired(c, Admission(c, i.now)), Admission(c, i.now).Code())
    else Body(c, i.now, i.op)
  }

  function Run(c: Client, inputs: seq<Input>): Client
    decreases |inputs|
  {
    if inputs == [] then c else Run(Do(c, inputs[0]).next, inputs[1..])
  }
}
