/** What each operation of a server session needs and does, stated on the messages and the state for every input. */
module ServerEffects {
  import opened Wrappers
  import opened Protocol
  import opened ServerSpec
  import SR = ServerRuns

  // ---------------------------------------------------------------------------------------------
  // Acceptance

  predicate SameProcess(a: AuthResult, hello: Hello) {
    && a.account == hello.account && a.tunnel == hello.tunnel && a.connector == hello.connector
    && a.host == hello.host && a.key == hello.key && a.process == hello.process
  }

  /** A session is accepted exactly for a sound greeting of the process the authenticator names, with a valid snapshot
      for its tunnel and a fresh identifier, when a heartbeat of at least a millisecond fits into the lease. */
  lemma AcceptsIff(settings: Settings, now: Instant, hello: Hello, drains: Outcome<bool>, auth: Outcome<AuthResult>,
                   source: Outcome<Snapshot>, sessionId: Outcome<Id>)
    ensures Accept(settings, now, hello, drains, auth, source, sessionId).Ok?
            <==>
            && hello.sound && drains.Ok?
            && auth.Ok? && auth.value.Valid(now) && SameProcess(auth.value, hello)
            && source.Ok? && source.value.Valid() && source.value.binding.ref.tunnel == hello.tunnel
            && sessionId.Ok? && ValidIdentifier(sessionId.value)
            && MILLISECOND <= settings.heartbeatInterval
            && var beat := settings.heartbeatInterval / MILLISECOND * MILLISECOND;
               beat < settings.leaseDuration && beat < auth.value.leaseExpiresAt - now
  {}

  /** It begins at the moment of contact, with the lease the settings and the authenticator allow and with the snapshot
      of its tunnel outstanding, addressed to it. */
  lemma AcceptedState(settings: Settings, now: Instant, hello: Hello, drains: Outcome<bool>, auth: Outcome<AuthResult>,
                      source: Outcome<Snapshot>, sessionId: Outcome<Id>)
    requires Accept(settings, now, hello, drains, auth, source, sessionId).Ok?
    ensures var s := Accept(settings, now, hello, drains, auth, source, sessionId).value;
            && s.settings == settings && s.auth == auth.value && s.canDrain == drains.value
            && s.Identity()
               == Binding(hello.account, SessionRef(hello.tunnel, hello.connector, sessionId.value, hello.process))
            && s.lease.lastHeartbeat == now && s.lease.lastHeartbeatSentAt == 0
            && s.lease.leaseExpiresAt == Earlier(now + settings.leaseDuration, auth.value.leaseExpiresAt)
            && s.lease.heartbeatMs == settings.heartbeatInterval / MILLISECOND
            && s.cfg.pendingSnapshot == Some(Snapshot(s.Identity(), source.value.config, source.value.payload))
            && s.cfg.pendingDelta.None? && s.cfg.active.None? && s.cfg.candidate.None? && s.cfg.state.AwaitingSnapshot?
            && s.cfg.readyGeneration == 0 && !s.cfg.needsSnapshot && s.drain.request.None? && s.disconnectReason.None?
  {}

  // ---------------------------------------------------------------------------------------------
  // The gate

  /** Open, named by the registry, and within credential, lease and two heartbeat intervals. */
  predicate Open(s: Server, now: Instant, live: bool) {
    && !s.cfg.state.Closed? && live && now < s.auth.credentialExpiresAt && now < s.lease.leaseExpiresAt
    && (s.lease.lastHeartbeat == 0 || now <= s.lease.lastHeartbeat + 2 * s.lease.heartbeatMs * MILLISECOND)
  }

  /** The answer of an authenticator to a renewal: valid when the renewal began, for the same process and key, with no
      older credential. */
  predicate Renews(t: RenewalTicket, r: AuthResult) {
    && r.Valid(t.begun) && r.account == t.expected.account && r.host == t.expected.host && r.key == t.expected.key
    && SessionRef(r.tunnel, r.connector, if r.session == "" then t.ref.session else r.session, r.process) == t.ref
    && t.expected.credentialGeneration <= r.credentialGeneration
  }

  predicate WellFormed(op: Op, now: Instant) {
    match op
    case DeliverAck(ack) => ack.Valid()
    case DeliverReadiness(r) => r.Valid()
    case Offer(offer) => offer.Valid()
    case OfferNext(delta) => delta.Valid()
    case DeliverHeartbeat(beat) => beat.Valid()
    case DeliverDrainAck(ack) => ack.Valid()
    case StartRenewal(request) => request.ValidAt(now)
    case EndRenewal(ticket, answer) => answer.Ok? && Renews(ticket, answer.value)
    case _ => true
  }

  /** The operation is well formed and finds the session open. */
  predicate Comes(s: Server, i: Input) { WellFormed(i.op, i.now) && Open(s, i.now, i.live) }

  /** Why the gate closes a session: replaced, or else credential over, or else lease over, or else silent. */
  function ClosingReason(s: Server, now: Instant, live: bool): Reason {
    if !live then ReasonSessionReplaced
    else if s.auth.credentialExpiresAt <= now then ReasonCredentialExpired
    else if s.lease.leaseExpiresAt <= now then ReasonLeaseExpired
    else ReasonHeartbeatTimeout
  }

  /** An operation closes an open session exactly when it asks to, or when it is well formed and too late; the first
      cause is the reason, and nothing else changes. */
  lemma ClosesIff(s: Server, i: Input)
    requires !s.cfg.state.Closed?
    ensures var t := Do(s, i).next;
            var late := !i.op.CloseSession? && WellFormed(i.op, i.now) && !Open(s, i.now, i.live);
            && (t.cfg.state.Closed? <==> i.op.CloseSession? || late)
            && (late ==> Do(s, i).out.Err?)
            && (t.cfg.state.Closed? ==>
                  t == s.(cfg := s.cfg.(state := Closed),
                          disconnectReason := Some(if late then ClosingReason(s, i.now, i.live) else i.op.reason)))
  {
    if !i.op.CloseSession? {
      RefusedUnlessComes(s, i);
      if Comes(s, i) {
        BodyStaysOpen(s, i.now, i.op);
      }
    }
  }

  lemma WellFormedIff(op: Op, now: Instant)
    ensures Malformed(op, now).None? <==> WellFormed(op, now)
  {}

  lemma OpenIff(s: Server, now: Instant, live: bool)
    ensures Admission(s, now, live).Pass? <==> Open(s, now, live)
  {}

  /** A malformed operation changes nothing; one that comes too late only closes. */
  lemma RefusedUnlessComes(s: Server, i: Input)
    requires !i.op.CloseSession?
    ensures if !WellFormed(i.op, i.now) then Do(s, i).next == s && Do(s, i).out.Err?
            else if !Open(s, i.now, i.live) then
              Do(s, i).out.Err? && Do(s, i).next == CloseFor(s, ClosingReason(s, i.now, i.live))
            else Do(s, i) == Body(s, i.now, i.op)
  {
    WellFormedIff(i.op, i.now);
    OpenIff(s, i.now, i.live);
  }

  lemma BodyStaysOpen(s: Server, now: Instant, op: Op)
    requires !s.cfg.state.Closed?
    ensures !Body(s, now, op).next.cfg.state.Closed?
  {
    match op {
      case DeliverAck(ack) =>
        if s.cfg.pendingSnapshot.Some? {} else if s.cfg.pendingDelta.Some? {}
      case _ =>
    }
  }

  /** Nothing but closing happened. */
  ghost predicate Idle(s: Server, i: Input) {
    var t := Do(s, i).next;
    if Comes(s, i) || !WellFormed(i.op, i.now) then t == s else t == CloseFor(s, ClosingReason(s, i.now, i.live))
  }

  // ---------------------------------------------------------------------------------------------
  // Configurations

  predicate Outstanding(c: Progress) { c.pendingSnapshot.Some? || c.pendingDelta.Some? }

  /** The acknowledgement is about the outstanding offer. */
  predicate Names(s: Server, ack: Ack) {
    && ack.binding == s.Identity()
    && if s.cfg.pendingSnapshot.Some? then ack.kind.AckSnapshot? && ack.config == s.cfg.pendingSnapshot.value.config
       else s.cfg.pendingDelta.Some? && ack.kind.AckDelta? && ack.config == s.cfg.pendingDelta.value.config
  }

  /** The candidate, or else the active configuration. */
  function Newest(c: Progress): Option<Snapshot> { if c.candidate.Some? then c.candidate else c.active }

  /** `c'` stages what was outstanding in `c`, and keeps the active configuration as it was. */
  predicate StagedFrom(c: Progress, c': Progress) {
    && c'.candidate.Some? && c'.active == c.active && c'.readyGeneration == c.readyGeneration
    && (c.pendingSnapshot.Some? ==> c'.candidate == c.pendingSnapshot && !c'.needsSnapshot)
    && (c.pendingSnapshot.None? && c.pendingDelta.Some? ==>
          && c'.candidate.value.config == c.pendingDelta.value.config
          && c'.candidate.value.payload == c.pendingDelta.value.payload && c'.needsSnapshot == c.needsSnapshot)
    && c'.state == if c.ActiveReady() then c.state else AwaitingReady
  }

  /** `c'` owes a snapshot, and holds what `c` held. */
  predicate OwesFrom(c: Progress, c': Progress) {
    && c'.candidate == c.candidate && c'.active == c.active && c'.readyGeneration == c.readyGeneration
    && c'.needsSnapshot && c'.state.AwaitingSnapshot?
  }

  /** The first answer to an offer decides it: a positive one stages the offer, a negative one takes it back and leaves
      a snapshot owed. Any other acknowledgement changes nothing, and is well answered exactly when it repeats the
      newest configuration with no offer outstanding. */
  lemma AckEffect(s: Server, i: Input)
    requires SR.Inv(s) && i.op.DeliverAck?
    ensures var c, step, ack := s.cfg, Do(s, i), i.op.ack;
            if Comes(s, i) && Names(s, ack) then
              && step.next == s.(cfg := step.next.cfg) && !Outstanding(step.next.cfg)
              && if ack.status.Applied? || ack.status.Duplicate? then
                   StagedFrom(c, step.next.cfg) && step.out == Ok(Done)
                 else OwesFrom(c, step.next.cfg) && step.out.Err?
                      && (step.out.code.SnapshotRequired? <==> ack.status.FullSnapshotRequired?)
            else
              && Idle(s, i)
              && (step.out.Ok? <==>
                  Comes(s, i) && ack.binding == s.Identity() && !Outstanding(c) && ack.status.Duplicate?
                                    && Newest(c).Some? && ack.config == Newest(c).value.config)
  {
    RefusedUnlessComes(s, i);
  }

  /** A readiness makes the newest configuration active exactly when it is for that one and names edge, route and origin
      as ready; any other changes nothing. */
  lemma ReadinessEffect(s: Server, i: Input)
    requires i.op.DeliverReadiness?
    ensures var c, step, r := s.cfg, Do(s, i), i.op.readiness;
            if Comes(s, i) && r.binding == s.Identity() && r.edge && r.route && r.origin
               && Newest(c).Some? && r.config == Newest(c).value.config then
              && step.next
                 == s.(cfg := c.(active := Newest(c), candidate := None, readyGeneration := r.config.generation,
                                           needsSnapshot := false, state := Ready))
              && step.out == Ok(ReadyAck(Ack(s.Identity(), AckReady, Applied, r.config, None)))
            else Idle(s, i) && step.out.Err?
  {
    RefusedUnlessComes(s, i);
  }

  /** What is held at the generation of an offer: staged, or else active, or else outstanding. */
  function HeldAt(c: Progress, generation: nat): Option<Snapshot> {
    if c.candidate.Some? && c.candidate.value.config.generation == generation then c.candidate
    else if c.active.Some? && c.active.value.config.generation == generation then c.active
    else if c.pendingSnapshot.Some? && c.pendingSnapshot.value.config.generation == generation then c.pendingSnapshot
    else None
  }

  predicate Addressed(s: Server, b: Binding) { b.ref.tunnel == s.ref.tunnel && b.Offerable(s.Identity()) }

  /** An offer becomes the outstanding snapshot, in place of any delta, exactly when it is addressed to the session, not
      older than the active configuration and of a generation not held; otherwise it changes nothing, and is well
      answered exactly when it repeats what is held. */
  lemma OfferEffect(s: Server, i: Input)
    requires i.op.Offer?
    ensures var c, step, offer := s.cfg, Do(s, i), i.op.snapshot;
            var fits := Comes(s, i) && Addressed(s, offer.binding)
                        && (c.active.Some? ==> c.active.value.config.generation <= offer.config.generation);
            var held := HeldAt(c, offer.config.generation);
            if fits && held.None? then
              && step.next == s.(cfg := c.(pendingSnapshot := Some(Snapshot(s.Identity(), offer.config, offer.payload)),
                                           pendingDelta := None,
                                           state := if c.active.None? then AwaitingSnapshot else c.state))
              && step.out == Ok(Done)
            else Idle(s, i) && (step.out.Ok? <==> fits && held.value.config == offer.config)
  {
    RefusedUnlessComes(s, i);
  }

  /** A delta becomes outstanding exactly when it extends the active configuration, which is ready with no snapshot
      owed, nothing staged and nothing else outstanding. */
  lemma OfferNextEffect(s: Server, i: Input)
    requires i.op.OfferNext?
    ensures var c, step, offer := s.cfg, Do(s, i), i.op.delta;
            if Comes(s, i) && c.ActiveReady() && !c.needsSnapshot && c.candidate.None? && !Outstanding(c)
               && Addressed(s, offer.binding) && offer.previous == c.active.value.config then
              && step.next == s.(cfg := c.(pendingDelta := step.next.cfg.pendingDelta))
              && step.next.cfg.pendingDelta == Some(Delta(s.Identity(), offer.previous, offer.config, offer.payload))
              && step.out == Ok(Done)
            else Idle(s, i) && step.out.Err?
  {
    RefusedUnlessComes(s, i);
  }

  // ---------------------------------------------------------------------------------------------
  // Liveness

  /** The configuration the connector should be running. */
  function Due(c: Progress): Option<Snapshot> {
    if c.active.Some? then c.active else if c.candidate.Some? then c.candidate else c.pendingSnapshot
  }

  /** From this session, sent within two minutes of now, after the last one, with something to report. */
  predicate Timely(s: Server, now: Instant, beat: Heartbeat) {
    && beat.binding == s.Identity() && now <= beat.sentAt + MAX_CLOCK_SKEW && beat.sentAt <= now + MAX_CLOCK_SKEW
    && s.lease.lastHeartbeatSentAt < beat.sentAt && Due(s.cfg).Some?
  }

  /** A timely heartbeat for the configuration due extends the lease to the earlier of its two bounds, and says so; one
      for another configuration withdraws readiness from the active one; any other changes nothing. */
  lemma HeartbeatEffect(s: Server, i: Input)
    requires i.op.DeliverHeartbeat?
    ensures var step, beat := Do(s, i), i.op.beat;
            if Comes(s, i) && Timely(s, i.now, beat) then
              if beat.applied == Due(s.cfg).value.config then
                var end := Earlier(s.auth.credentialExpiresAt, i.now + s.settings.leaseDuration);
                && step.next == s.(lease := Liveness(end, s.lease.heartbeatMs, i.now, beat.sentAt))
                && step.out == Ok(BeatAck(HeartbeatAck(s.Identity(), end, i.now)))
              else
                && step.out == Err(SnapshotRequired) && step.next == s.(cfg := step.next.cfg)
                && if s.cfg.active.None? then step.next == s
                   else step.next.cfg == s.cfg.(needsSnapshot := true, readyGeneration := 0, state := AwaitingSnapshot)
            else Idle(s, i) && step.out.Err?
  {
    RefusedUnlessComes(s, i);
  }

  /** A renewal begins exactly for the session's own host, key and credential generation, and changes nothing. */
  lemma StartRenewalEffect(s: Server, i: Input)
    requires i.op.StartRenewal?
    ensures var r := i.op.request;
            && Idle(s, i)
            && Do(s, i).out.Ok?
               == (Comes(s, i) && r.binding == s.Identity() && r.host == s.auth.host && r.key == s.auth.key
                                    && r.credentialGeneration == s.auth.credentialGeneration)
            && (Do(s, i).out.Ok? ==> Do(s, i).out.value == Ticket(RenewalTicket(i.now, s.auth, s.ref)))
  {
    RefusedUnlessComes(s, i);
  }

  /** A renewal ends in the new credential, counting as contact when it began, exactly when nothing was renewed since;
      the lease becomes the earlier of the lease duration from then and the lease granted. */
  lemma EndRenewalEffect(s: Server, i: Input)
    requires i.op.EndRenewal?
    ensures var step, t := Do(s, i), i.op.ticket;
            if Comes(s, i) && t.expected == s.auth && t.ref == s.ref then
              var renewed := i.op.answer.value.(session := s.ref.session);
              var end := Earlier(t.begun + s.settings.leaseDuration, renewed.leaseExpiresAt);
              && step.next == s.(auth := renewed,
                                 lease := Liveness(end, s.lease.heartbeatMs, t.begun, s.lease.lastHeartbeatSentAt))
              && step.out == Ok(Renewed(renewed))
            else Idle(s, i) && step.out.Err?
  {
    RefusedUnlessComes(s, i);
  }

  // ---------------------------------------------------------------------------------------------
  // Drains

  /** A drain starts exactly on a capable, Ready session that has none, with a deadline ahead and within a day, and asks
      for what the caller asked. Later starts change nothing, and are answered with the first request exactly under its
      own identifier. */
  lemma StartDrainEffect(s: Server, i: Input)
    requires SR.Inv(s) && i.op.StartDrain?
    ensures var step, op := Do(s, i), i.op;
            if Comes(s, i) && s.canDrain && s.drain.request.None? && s.cfg.state.Ready? && ValidIdentifier(op.drainId)
               && op.later < op.deadline <= op.later + MAX_LEASE
               && s.Identity().Valid() && ValidHash(s.cfg.active.value.config.hash) then
              var request := Drain(s.Identity(), op.drainId, s.cfg.active.value.config, op.deadline, true, op.force);
              && step.next == s.(drain := DrainRecord(Some(request), DrainAccepted, None, false),
                                 cfg := s.cfg.(state := Draining))
              && step.out == Ok(DrainRequest(request))
            else
              && Idle(s, i)
              && (step.out.Ok? <==>
                  Comes(s, i) && s.canDrain && s.drain.request.Some? && s.drain.request.value.drainId == op.drainId)
              && (step.out.Ok? ==> step.out.value == DrainRequest(s.drain.request.value))
  {
    RefusedUnlessComes(s, i);
  }

  /** The acknowledgement is about this session's drain. */
  predicate AnswersDrain(s: Server, ack: DrainAck) {
    && ack.binding == s.Identity() && s.drain.request.Some?
    && ack.drainId == s.drain.request.value.drainId && ack.config == s.drain.request.value.config
  }

  /** An acknowledgement of a drain that has not ended is recorded as its status; a rejection also ends it and gives the
      session back the state its configuration has. After the end nothing changes, and only a repeat is well
      answered. */
  lemma DrainAckEffect(s: Server, i: Input)
    requires i.op.DeliverDrainAck?
    ensures var step, ack := Do(s, i), i.op.drainAck;
            if Comes(s, i) && AnswersDrain(s, ack) && !s.drain.completed then
              var ended := ack.status.DrainCompleted? || ack.status.DrainForced? || ack.status.DrainRefused?;
              && step.next.drain == DrainRecord(s.drain.request, ack.status, ack.code, ended)
              && step.next == s.(drain := step.next.drain, cfg := s.cfg.(state := step.next.cfg.state))
              && if ack.status.DrainRefused? then
                   && step.out == Err(DrainRejected)
                   && step.next.cfg.state
                      == if s.cfg.ActiveReady() && !s.cfg.needsSnapshot then Ready else AwaitingSnapshot
                 else step.out == Ok(Done) && step.next.cfg.state == s.cfg.state
            else
              && Idle(s, i)
              && (step.out.Ok? <==>
                  Comes(s, i) && AnswersDrain(s, ack) && ack.status == s.drain.status && ack.code == s.drain.code)
  {
    RefusedUnlessComes(s, i);
  }

  // ---------------------------------------------------------------------------------------------
  // Refusals say why

  predicate MalformedCause(op: Op, code: Code) {
    match op
    case Offer(_) => code.SnapshotRejected?
    case OfferNext(_) => code.DeltaRejected?
    case StartRenewal(_) => code.AuthenticationFailed?
    case EndRenewal(_, answer) => if answer.Err? then code.CredentialExpired? else code.AuthenticationFailed?
    case _ => code.InvalidInput?
  }

  predicate GateCause(s: Server, i: Input, code: Code) {
    match code
    case SessionClosed => s.cfg.state.Closed?
    case StaleSession => !i.live
    case CredentialExpired => s.auth.credentialExpiresAt <= i.now
    case LeaseExpired => s.lease.leaseExpiresAt <= i.now
    case HeartbeatTimeout => s.lease.lastHeartbeat + 2 * s.lease.heartbeatMs * MILLISECOND < i.now
    case _ => false
  }

  predicate AckCause(s: Server, ack: Ack, code: Code) {
    match code
    case IdentityMismatch => ack.binding != s.Identity()
    case SnapshotRejected => s.cfg.pendingSnapshot.Some? && (!Names(s, ack) || ack.status.Rejected?)
    case DeltaRejected => s.cfg.pendingDelta.Some? && (!Names(s, ack) || ack.status.Rejected?)
    case SnapshotRequired => Names(s, ack) && ack.status.FullSnapshotRequired?
    case InvalidInput => !Outstanding(s.cfg) && !ack.status.Duplicate?
    case StaleGeneration =>
      && !Outstanding(s.cfg) && ack.status.Duplicate?
      && (Newest(s.cfg).None? || Newest(s.cfg).value.config != ack.config)
    case _ => false
  }

  predicate OfferCause(s: Server, op: Op, code: Code)
    requires op.Offer? || op.OfferNext?
  {
    var c := s.cfg;
    if op.Offer? then
      match code
      case IdentityMismatch => !Addressed(s, op.snapshot.binding)
      case StaleGeneration => c.active.Some? && op.snapshot.config.generation < c.active.value.config.generation
      case ContentHashMismatch =>
        var held := HeldAt(c, op.snapshot.config.generation);
        held.Some? && held.value.config.hash != op.snapshot.config.hash
      case _ => false
    else
      match code
      case NotReady => !c.ActiveReady() || c.needsSnapshot
      case GenerationGap =>
        || Outstanding(c) || c.candidate.Some? || !Addressed(s, op.delta.binding)
        || (c.active.Some? && op.delta.previous != c.active.value.config)
      case _ => false
  }

  predicate HeartbeatCause(s: Server, now: Instant, beat: Heartbeat, code: Code) {
    match code
    case IdentityMismatch => beat.binding != s.Identity()
    case InvalidInput => now + MAX_CLOCK_SKEW < beat.sentAt
    case HeartbeatTimeout => beat.sentAt + MAX_CLOCK_SKEW < now
    case StaleSession => beat.sentAt <= s.lease.lastHeartbeatSentAt
    case SnapshotRequired => Due(s.cfg).None? || Due(s.cfg).value.config != beat.applied
    case _ => false
  }

  predicate DrainCause(s: Server, op: Op, code: Code)
    requires op.StartDrain? || op.DeliverDrainAck?
  {
    if op.StartDrain? then
      match code
      case CapabilityMissing => !s.canDrain
      case SessionConflict => s.drain.request.Some? && s.drain.request.value.drainId != op.drainId
      case NotReady => !s.cfg.state.Ready?
      case InvalidInput =>
        || !ValidIdentifier(op.drainId) || !(op.later < op.deadline <= op.later + MAX_LEASE) || !s.Identity().Valid()
        || s.cfg.active.None? || !ValidHash(s.cfg.active.value.config.hash)
      case _ => false
    else
      match code
      case IdentityMismatch => op.drainAck.binding != s.Identity()
      case StaleSession => s.drain.request.None? || s.drain.request.value.drainId != op.drainAck.drainId
      case ContentHashMismatch => s.drain.request.Some? && s.drain.request.value.config != op.drainAck.config
      case StaleGeneration =>
        s.drain.completed && (s.drain.status != op.drainAck.status || s.drain.code != op.drainAck.code)
      case DrainRejected => op.drainAck.status.DrainRefused? && !s.drain.completed
      case _ => false
  }

  predicate BodyCause(s: Server, i: Input, code: Code) {
    match i.op
    case DeliverAck(ack) => AckCause(s, ack, code)
    case DeliverReadiness(r) =>
      (match code
       case IdentityMismatch => r.binding != s.Identity()
       case StaleGeneration => Newest(s.cfg).None? || Newest(s.cfg).value.config != r.config
       case NotReady => !(r.edge && r.route && r.origin)
       case _ => false)
    case Offer(_) => OfferCause(s, i.op, code)
    case OfferNext(_) => OfferCause(s, i.op, code)
    case DeliverHeartbeat(beat) => HeartbeatCause(s, i.now, beat, code)
    case StartDrain(_, _, _, _) => DrainCause(s, i.op, code)
    case DeliverDrainAck(_) => DrainCause(s, i.op, code)
    case StartRenewal(r) =>
      code.IdentityMismatch? && (r.binding != s.Identity() || r.host != s.auth.host || r.key != s.auth.key
                                 || r.credentialGeneration != s.auth.credentialGeneration)
    case EndRenewal(t, _) => code.SessionConflict? && (t.expected != s.auth || t.ref != s.ref)
    case _ => false
  }

  /** The code of a refusal is true of the message, of the gate or of what the operation found, in that order. */
  lemma RefusalsAreTrue(s: Server, i: Input)
    requires SR.Inv(s) && Do(s, i).out.Err?
    ensures var code := Do(s, i).out.code;
            if !WellFormed(i.op, i.now) then MalformedCause(i.op, code)
            else if !Open(s, i.now, i.live) then GateCause(s, i, code)
            else BodyCause(s, i, code)
  {
    WellFormedIff(i.op, i.now);
    OpenIff(s, i.now, i.live);
    if Comes(s, i) {
      BodyRefusalIsTrue(s, i);
    }
  }

  lemma AckRefusalIsTrue(s: Server, ack: Ack)
    requires SR.Inv(s) && HandleAck(s, ack).out.Err?
    ensures AckCause(s, ack, HandleAck(s, ack).out.code)
  {
    if s.cfg.pendingSnapshot.Some? {} else if s.cfg.pendingDelta.Some? {}
  }

  lemma OfferRefusalIsTrue(s: Server, now: Instant, op: Op)
    requires (op.Offer? || op.OfferNext?) && Body(s, now, op).out.Err?
    ensures OfferCause(s, op, Body(s, now, op).out.code)
  {}

  lemma HeartbeatRefusalIsTrue(s: Server, now: Instant, beat: Heartbeat)
    requires HandleHeartbeat(s, now, beat).out.Err?
    ensures HeartbeatCause(s, now, beat, HandleHeartbeat(s, now, beat).out.code)
  {}

  lemma DrainRefusalIsTrue(s: Server, now: Instant, op: Op)
    requires SR.Inv(s) && (op.StartDrain? || op.DeliverDrainAck?) && Body(s, now, op).out.Err?
    ensures DrainCause(s, op, Body(s, now, op).out.code)
  {}

  lemma BodyRefusalIsTrue(s: Server, i: Input)
    requires SR.Inv(s) && Comes(s, i) && Body(s, i.now, i.op).out.Err?
    ensures BodyCause(s, i, Body(s, i.now, i.op).out.code)
  {
    match i.op {
      case DeliverAck(ack) => AckRefusalIsTrue(s, ack);
      case Offer(_) => OfferRefusalIsTrue(s, i.now, i.op);
      case OfferNext(_) => OfferRefusalIsTrue(s, i.now, i.op);
      case DeliverHeartbeat(beat) => HeartbeatRefusalIsTrue(s, i.now, beat);
      case StartDrain(_, _, _, _) => DrainRefusalIsTrue(s, i.now, i.op);
      case DeliverDrainAck(_) => DrainRefusalIsTrue(s, i.now, i.op);
      case _ =>
    }
  }

  /** Why a greeting is refused. */
  lemma AcceptRefusalsAreTrue(settings: Settings, now: Instant, hello: Hello, drains: Outcome<bool>,
                              auth: Outcome<AuthResult>, source: Outcome<Snapshot>, sessionId: Outcome<Id>)
    ensures var a := Accept(settings, now, hello, drains, auth, source, sessionId);
            a.Err? ==>
              if !hello.sound then a.code.InvalidInput?
              else if drains.Err? then a.code == drains.code
              else
                match a.code
                case AuthenticationFailed =>
                  || auth.Err? || !auth.value.Valid(now) || !SameProcess(auth.value, hello)
                  || settings.heartbeatInterval < MILLISECOND
                  || var beat := settings.heartbeatInterval / MILLISECOND * MILLISECOND;
                     settings.leaseDuration <= beat || auth.value.leaseExpiresAt - now <= beat
                case SnapshotRejected =>
                  source.Err? || !source.value.Valid() || source.value.binding.ref.tunnel != hello.tunnel
                case SessionConflict => sessionId.Err? || !ValidIdentifier(sessionId.value)
                case _ => false
  {}
}
