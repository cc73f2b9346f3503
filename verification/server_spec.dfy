/** The server half of one control session, as a function from state and input to state and reply.

    Every operation of `ServerSession` that runs under its lock is one function here; `Renew`, which
    drops the lock around the authenticator call, is the pair `BeginRenewal` / `FinishRenewal`.
    `live` says whether the session registry still names this session. */
module ServerSpec {
  import opened Wrappers
  import opened Protocol

  datatype Settings = Settings(leaseDuration: nat, heartbeatInterval: nat) {
    predicate Valid() {
      0 < leaseDuration <= MAX_LEASE && 0 < heartbeatInterval && 2 * heartbeatInterval < leaseDuration
    }
  }

  /** Offers, acknowledgements and readiness of configuration generations. */
  datatype Progress = Progress(
    pendingSnapshot: Option<Snapshot>,
    pendingDelta: Option<Delta>,
    active: Option<Snapshot>,
    candidate: Option<Snapshot>,
    readyGeneration: nat,
    needsSnapshot: bool,
    state: SessionState) {

    /** The active configuration has been reported ready and still counts as such. */
    predicate ActiveReady() {
      active.Some? && readyGeneration == active.value.config.generation
    }
  }

  datatype Liveness = Liveness(leaseExpiresAt: nat, heartbeatMs: nat, lastHeartbeat: nat, lastHeartbeatSentAt: nat)

  datatype DrainRecord = DrainRecord(request: Option<Drain>, status: DrainStatus, code: Option<Code>, completed: bool)

  datatype Server = Server(
    settings: Settings,
    ref: SessionRef,
    canDrain: bool,
    auth: AuthResult,
    lease: Liveness,
    cfg: Progress,
    drain: DrainRecord,
    disconnectReason: Option<Reason>) {

    function Identity(): Binding { Binding(auth.account, ref) }

    function Bind(offer: Snapshot): Snapshot {
      offer.(binding := Binding(auth.account, ref.(tunnel := offer.binding.ref.tunnel)))
    }
  }

  /** What a renewal remembers while the authenticator runs without the lock. */
  datatype RenewalTicket = RenewalTicket(begun: Instant, expected: AuthResult, ref: SessionRef)

  datatype Reply =
    | Done
    | ReadyAck(ack: Ack)
    | BeatAck(beat: HeartbeatAck)
    | DrainRequest(drain: Drain)
    | Ticket(ticket: RenewalTicket)
    | Renewed(auth: AuthResult)

  datatype Step = Step(next: Server, out: Outcome<Reply>)

  function Refuse(s: Server, code: Code): Step { Step(s, Err(code)) }

  /** The first state of a session. `drains` is whether the negotiated capabilities include drain. */
  function Accept(settings: Settings, now: Instant, hello: Hello, drains: Outcome<bool>, auth: Outcome<AuthResult>,
                  source: Outcome<Snapshot>, sessionId: Outcome<Id>): Outcome<Server>
  {
    if !hello.sound then Err(InvalidInput)
    else if drains.Err? then Err(drains.code)
    else if auth.Err? then Err(AuthenticationFailed)
    else
      var a := auth.value;
      if !a.Valid(now) || a.account != hello.account || a.tunnel != hello.tunnel || a.connector != hello.connector
         || a.host != hello.host || a.key != hello.key || a.process != hello.process then Err(AuthenticationFailed)
      else if source.Err? || !source.value.Valid() || source.value.binding.ref.tunnel != hello.tunnel then
        Err(SnapshotRejected)
      else if sessionId.Err? || !ValidIdentifier(sessionId.value) then Err(SessionConflict)
      else
        var leaseExpiry := if now + settings.leaseDuration < a.leaseExpiresAt then now + settings.leaseDuration
                           else a.leaseExpiresAt;
        var heartbeatMs := settings.heartbeatInterval / MILLISECOND;
        if heartbeatMs == 0 || leaseExpiry <= now || leaseExpiry - now > MAX_LEASE
          || heartbeatMs * MILLISECOND >= leaseExpiry - now then
          Err(AuthenticationFailed)
        else
          var ref := SessionRef(hello.tunnel, hello.connector, sessionId.value, hello.process);
          var first := source.value.(binding := Binding(hello.account, ref));
          Ok(Server(settings, ref, drains.value, a,
                    Liveness(leaseExpiry, heartbeatMs, now, 0),
                    Progress(Some(first), None, None, None, 0, false, AwaitingSnapshot),
                    DrainRecord(None, DrainAccepted, None, false),
                    None))
  }

  function CloseFor(s: Server, reason: Reason): Server {
    if s.cfg.state.Closed? then s else s.(cfg := s.cfg.(state := Closed), disconnectReason := Some(reason))
  }

  // ---------------------------------------------------------------------------------------------
  // The gate in front of every operation (`ensureActiveLocked`)

  datatype Verdict = Pass | AlreadyClosed | Replaced | CredentialOver | LeaseOver | Silent {
    function Code(): Code
      requires !Pass?
    {
      match this
      case AlreadyClosed => SessionClosed
      case Replaced => StaleSession
      case CredentialOver => CredentialExpired
      case LeaseOver => LeaseExpired
      case Silent => HeartbeatTimeout
    }

    function Reason(): Reason {
      match this
      case CredentialOver => ReasonCredentialExpired
      case LeaseOver => ReasonLeaseExpired
      case Silent => ReasonHeartbeatTimeout
      case _ => ReasonSessionReplaced
    }
  }

  function Admission(s: Server, now: Instant, live: bool): Verdict {
    if s.cfg.state.Closed? then AlreadyClosed
    else if !live then Replaced
    else if s.auth.credentialExpiresAt <= now then CredentialOver
    else if s.lease.leaseExpiresAt <= now then LeaseOver
    else if s.lease.lastHeartbeat != 0 && now - s.lease.lastHeartbeat > 2_000_000 * s.lease.heartbeatMs then Silent
    else Pass
  }

  /** The gate closes the session it refuses. */
  function Evict(s: Server, v: Verdict): Step
    requires !v.Pass?
  {
    Refuse(CloseFor(s, v.Reason()), v.Code())
  }

  function Restored(c: Progress): Progress {
    c.(state := if c.ActiveReady() && !c.needsSnapshot then Ready else AwaitingSnapshot)
  }

  // ---------------------------------------------------------------------------------------------
  // Configuration: offers, acknowledgements, readiness

  datatype Move = Move(next: Progress, out: Outcome<Reply>)

  function HandleAck(s: Server, ack: Ack): Move {
    if ack.binding != s.Identity() then Move(s.cfg, Err(IdentityMismatch))
    else if s.cfg.pendingSnapshot.Some? then AckPendingSnapshot(s.cfg, ack)
    else if s.cfg.pendingDelta.Some? then AckPendingDelta(s.cfg, s.Identity(), ack)
    else Move(s.cfg, AckDuplicate(s.cfg, ack))
  }

  function Staged(c: Progress, candidate: Snapshot): Progress {
    c.(candidate := Some(candidate), state := if c.ActiveReady() then c.state else AwaitingReady)
  }

  function AckPendingSnapshot(c: Progress, ack: Ack): Move
    requires c.pendingSnapshot.Some?
  {
    var pending := c.pendingSnapshot.value;
    if !ack.kind.AckSnapshot? || ack.config != pending.config then Move(c, Err(SnapshotRejected))
    else if ack.Negative() then
      Move(Restored(c.(pendingSnapshot := None, needsSnapshot := true)),
           Err(if ack.status.FullSnapshotRequired? then SnapshotRequired else SnapshotRejected))
    else Move(Staged(c.(pendingSnapshot := None, needsSnapshot := false), pending), Ok(Done))
  }

  function AckPendingDelta(c: Progress, identity: Binding, ack: Ack): Move
    requires c.pendingDelta.Some?
  {
    var pending := c.pendingDelta.value;
    if !ack.kind.AckDelta? || ack.config != pending.config then Move(c, Err(DeltaRejected))
    else if ack.Negative() then
      Move(Restored(c.(pendingDelta := None, needsSnapshot := true)),
           Err(if ack.status.FullSnapshotRequired? then SnapshotRequired else DeltaRejected))
    else if c.active.Some? && pending.previous != c.active.value.config then
      Move(c.(pendingDelta := None), Err(GenerationGap))
    else
      var bound := identity.(ref := identity.ref.(tunnel := pending.binding.ref.tunnel));
      Move(Staged(c.(pendingDelta := None), Snapshot(bound, pending.config, pending.payload)), Ok(Done))
  }

  function AckDuplicate(c: Progress, ack: Ack): Outcome<Reply> {
    if !ack.status.Duplicate? then Err(InvalidInput)
    else if c.candidate.None? && c.active.None? then Err(StaleGeneration)
    else
      var current := if c.candidate.Some? then c.candidate.value else c.active.value;
      if ack.config != current.config then Err(StaleGeneration) else Ok(Done)
  }

  /** Whether a negative acknowledgement addresses exactly the offer outstanding now. */
  predicate CanPersistNegativeAck(s: Server, ack: Ack) {
    && ack.Negative() && ack.Valid() && ack.binding == s.Identity()
    && if s.cfg.pendingSnapshot.Some? then ack.kind.AckSnapshot? && ack.config == s.cfg.pendingSnapshot.value.config
       else s.cfg.pendingDelta.Some? && ack.kind.AckDelta? && ack.config == s.cfg.pendingDelta.value.config
  }

  function ReadinessRefusal(s: Server, r: Readiness): Option<Code> {
    var expected := if s.cfg.candidate.Some? then s.cfg.candidate else s.cfg.active;
    if r.binding != s.Identity() then Some(IdentityMismatch)
    else if expected.None? || r.config != expected.value.config then Some(StaleGeneration)
    else if !r.AllReady() then Some(NotReady)
    else None
  }

  function HandleReadiness(s: Server, r: Readiness): Move {
    var refusal := ReadinessRefusal(s, r);
    if refusal.Some? then Move(s.cfg, Err(refusal.value))
    else
      var promoted := if s.cfg.candidate.Some? then s.cfg.candidate else s.cfg.active;
      Move(s.cfg.(active := promoted, candidate := None, needsSnapshot := false,
                  readyGeneration := r.config.generation, state := Ready),
           Ok(ReadyAck(Ack(s.Identity(), AckReady, Applied, r.config, None))))
  }

  predicate Held(held: Option<Snapshot>, offer: Snapshot) {
    held.Some? && offer.config.generation == held.value.config.generation
  }

  /** The answer to an offer that needs no new transfer; `None` when it becomes the pending snapshot. */
  function OfferAnswer(s: Server, offer: Snapshot): Option<Outcome<Reply>> {
    var c := s.cfg;
    if offer.binding.ref.tunnel != s.ref.tunnel || !offer.binding.Offerable(s.Identity()) then
      Some(Err(IdentityMismatch))
    else if c.active.Some? && offer.config.generation < c.active.value.config.generation then Some(Err(StaleGeneration))
    else if Held(c.candidate, offer) then Some(SameGeneration(c.candidate.value, offer))
    else if Held(c.active, offer) then Some(SameGeneration(c.active.value, offer))
    else if Held(c.pendingSnapshot, offer) then Some(SameGeneration(c.pendingSnapshot.value, offer))
    else None
  }

  function SameGeneration(held: Snapshot, offer: Snapshot): Outcome<Reply> {
    if offer.config.hash != held.config.hash then Err(ContentHashMismatch) else Ok(Done)
  }

  function OfferSnapshot(s: Server, offer: Snapshot): Move {
    var answer := OfferAnswer(s, offer);
    if answer.Some? then Move(s.cfg, answer.value)
    else Move(s.cfg.(pendingDelta := None, pendingSnapshot := Some(s.Bind(offer)),
                     state := if s.cfg.active.None? then AwaitingSnapshot else s.cfg.state),
              Ok(Done))
  }

  function DeltaRefusal(s: Server, offer: Delta): Option<Code> {
    var c := s.cfg;
    if !c.ActiveReady() || c.needsSnapshot then Some(NotReady)
    else if c.pendingSnapshot.Some? || c.pendingDelta.Some? || c.candidate.Some? then Some(GenerationGap)
    else if offer.binding.ref.tunnel != s.ref.tunnel || !offer.binding.Offerable(s.Identity())
            || offer.previous != c.active.value.config then Some(GenerationGap)
    else None
  }

  function OfferDelta(s: Server, offer: Delta): Move {
    var refusal := DeltaRefusal(s, offer);
    if refusal.Some? then Move(s.cfg, Err(refusal.value))
    else Move(s.cfg.(pendingDelta := Some(offer.(binding := s.Identity()))), Ok(Done))
  }

  // ---------------------------------------------------------------------------------------------
  // Liveness: heartbeats and renewals

  /** The configuration a heartbeat must report. */
  function Expected(c: Progress): Option<Snapshot> {
    if c.active.Some? then c.active else if c.candidate.Some? then c.candidate else c.pendingSnapshot
  }

  function HeartbeatRefusal(s: Server, now: Instant, beat: Heartbeat): Option<Code> {
    if beat.binding != s.Identity() then Some(IdentityMismatch)
    else if beat.sentAt > now + MAX_CLOCK_SKEW then Some(InvalidInput)
    else if beat.sentAt < now - MAX_CLOCK_SKEW then Some(HeartbeatTimeout)
    else if s.lease.lastHeartbeatSentAt != 0 && beat.sentAt <= s.lease.lastHeartbeatSentAt then Some(StaleSession)
    else if Expected(s.cfg).None? then Some(SnapshotRequired)
    else None
  }

  /** A heartbeat for another configuration withdraws readiness but keeps the active snapshot. */
  function ReadinessWithdrawn(c: Progress): Progress {
    if c.active.Some? then c.(needsSnapshot := true, readyGeneration := 0, state := AwaitingSnapshot) else c
  }

  function Earlier(a: nat, b: nat): nat { if a < b then a else b }

  function HandleHeartbeat(s: Server, now: Instant, beat: Heartbeat): Step {
    var refusal := HeartbeatRefusal(s, now, beat);
    if refusal.Some? then Refuse(s, refusal.value)
    else if beat.applied != Expected(s.cfg).value.config then
      Refuse(s.(cfg := ReadinessWithdrawn(s.cfg)), SnapshotRequired)
    else
      var expiry := Earlier(s.auth.credentialExpiresAt, now + s.settings.leaseDuration);
      Step(s.(lease := s.lease.(lastHeartbeatSentAt := beat.sentAt, lastHeartbeat := now, leaseExpiresAt := expiry)),
           Ok(BeatAck(HeartbeatAck(s.Identity(), expiry, now))))
  }

  function BeginRenewal(s: Server, now: Instant, request: RenewalRequest): Outcome<Reply> {
    if request.binding != s.Identity() || request.host != s.auth.host || request.key != s.auth.key
       || request.credentialGeneration != s.auth.credentialGeneration then Err(IdentityMismatch)
    else Ok(Ticket(RenewalTicket(now, s.auth, s.ref)))
  }

  /** The authenticator's answer is checked against the instant the renewal began. */
  predicate AcceptableRenewal(t: RenewalTicket, r: AuthResult) {
    && r.Valid(t.begun)
    && r.account == t.expected.account && r.tunnel == t.ref.tunnel && r.connector == t.ref.connector
    && (r.session != "" ==> r.session == t.ref.session)
    && r.host == t.expected.host && r.key == t.expected.key && r.process == t.ref.process
    && r.credentialGeneration >= t.expected.credentialGeneration
  }

  function FinishRenewal(s: Server, t: RenewalTicket, answer: AuthResult): Step {
    if s.auth != t.expected || s.ref != t.ref then Refuse(s, SessionConflict)
    else
      var renewed := answer.(session := t.ref.session);
      var expiry := Earlier(t.begun + s.settings.leaseDuration, renewed.leaseExpiresAt);
      Step(s.(auth := renewed, lease := s.lease.(lastHeartbeat := t.begun, leaseExpiresAt := expiry)),
           Ok(Renewed(renewed)))
  }

  // ---------------------------------------------------------------------------------------------
  // Drains

  function DrainRefusal(c: Progress, request: Drain, later: Instant): Option<Code> {
    if !c.ActiveReady() || c.needsSnapshot || !c.state.Ready? then Some(NotReady)
    else if !request.Valid(later) then Some(InvalidInput)
    else None
  }

  function BeginDrain(s: Server, drainId: Id, deadline: nat, force: bool, later: Instant): Step {
    if !s.canDrain then Refuse(s, CapabilityMissing)
    else if s.drain.request.Some? then
      var request := s.drain.request.value;
      Step(s, if request.drainId == drainId then Ok(DrainRequest(request)) else Err(SessionConflict))
    else
      var config := if s.cfg.active.Some? then s.cfg.active.value.config else Config(0, "");
      var request := Drain(s.Identity(), drainId, config, deadline, true, force);
      var refusal := DrainRefusal(s.cfg, request, later);
      if refusal.Some? then Refuse(s, refusal.value)
      else Step(s.(drain := DrainRecord(Some(request), DrainAccepted, None, false), cfg := s.cfg.(state := Draining)),
                Ok(DrainRequest(request)))
  }

  /** The answer to a drain acknowledgement that records nothing. */
  function DrainAckAnswer(s: Server, ack: DrainAck): Option<Outcome<Reply>> {
    var d := s.drain;
    if ack.binding != s.Identity() then Some(Err(IdentityMismatch))
    else if d.request.None? || ack.drainId != d.request.value.drainId then Some(Err(StaleSession))
    else if ack.config != d.request.value.config then Some(Err(ContentHashMismatch))
    else if d.completed then
      Some(if ack.status == d.status && ack.code == d.code then Ok(Done) else Err(StaleGeneration))
    else None
  }

  function HandleDrainAck(s: Server, ack: DrainAck): Step {
    var answer := DrainAckAnswer(s, ack);
    if answer.Some? then Step(s, answer.value)
    else
      var recorded := DrainRecord(s.drain.request, ack.status, ack.code, ack.Terminal());
      if ack.status.DrainRefused? then Refuse(s.(drain := recorded, cfg := Restored(s.cfg)), DrainRejected)
      else Step(s.(drain := recorded), Ok(Done))
  }

  predicate CanPersistNegativeDrainAck(s: Server, ack: DrainAck) {
    && ack.status.DrainRefused? && ack.Valid() && s.drain.request.Some? && ack.binding == s.Identity()
    && ack.drainId == s.drain.request.value.drainId && ack.config == s.drain.request.value.config
  }

  // ---------------------------------------------------------------------------------------------
  // One operation, and runs of them

  datatype Op =
    | DeliverAck(ack: Ack)
    | DeliverReadiness(readiness: Readiness)
    | Offer(snapshot: Snapshot)
    | OfferNext(delta: Delta)
    | DeliverHeartbeat(beat: Heartbeat)
    | StartDrain(drainId: Id, deadline: nat, force: bool, later: Instant)
    | DeliverDrainAck(drainAck: DrainAck)
    | StartRenewal(request: RenewalRequest)
    | EndRenewal(ticket: RenewalTicket, answer: Outcome<AuthResult>)
    | CheckLease
    | CloseSession(reason: Reason)

  /** What an operation refuses before it looks at the session. */
  function Malformed(op: Op, now: Instant): Option<Code> {
    match op
    case DeliverAck(ack) => if ack.Valid() then None else Some(InvalidInput)
    case DeliverReadiness(r) => if r.Valid() then None else Some(InvalidInput)
    case Offer(offer) => if offer.Valid() then None else Some(SnapshotRejected)
    case OfferNext(delta) => if delta.Valid() then None else Some(DeltaRejected)
    case DeliverHeartbeat(beat) => if beat.Valid() then None else Some(InvalidInput)
    case DeliverDrainAck(ack) => if ack.Valid() then None else Some(InvalidInput)
    case StartRenewal(request) => if request.ValidAt(now) then None else Some(AuthenticationFailed)
    case EndRenewal(ticket, answer) =>
      if answer.Err? then Some(CredentialExpired)
      else if AcceptableRenewal(ticket, answer.value) then None else Some(AuthenticationFailed)
    case _ => None
  }

  function Moved(s: Server, m: Move): Step { Step(s.(cfg := m.next), m.out) }

  /** The operation itself, once the gate has passed. */
  function Body(s: Server, now: Instant, op: Op): Step {
    match op
    case DeliverAck(ack) => Moved(s, HandleAck(s, ack))
    case DeliverReadiness(r) => Moved(s, HandleReadiness(s, r))
    case Offer(offer) => Moved(s, OfferSnapshot(s, offer))
    case OfferNext(delta) => Moved(s, OfferDelta(s, delta))
    case DeliverHeartbeat(beat) => HandleHeartbeat(s, now, beat)
    case StartDrain(id, deadline, force, later) => BeginDrain(s, id, deadline, force, later)
    case DeliverDrainAck(ack) => HandleDrainAck(s, ack)
    case StartRenewal(request) => Step(s, BeginRenewal(s, now, request))
    case EndRenewal(ticket, answer) =>
      if answer.Ok? then FinishRenewal(s, ticket, answer.value) else Refuse(s, CredentialExpired)
    case CheckLease => Step(s, Ok(Done))
    case CloseSession(_) => Step(s, Ok(Done))
  }

  datatype Input = Input(now: Instant, live: bool, op: Op)

  function Do(s: Server, i: Input): Step {
    if i.op.CloseSession? then Step(CloseFor(s, i.op.reason), Ok(Done))
    else if Malformed(i.op, i.now).Some? then Refuse(s, Malformed(i.op, i.now).value)
    else if !Admission(s, i.now, i.live).Pass? then Evict(s, Admission(s, i.now, i.live))
    else Body(s, i.now, i.op)
  }

  function Run(s: Server, inputs: seq<Input>): Server
    decreases |inputs|
  {
    if inputs == [] then s else Run(Do(s, inputs[0]).next, inputs[1..])
  }
}
