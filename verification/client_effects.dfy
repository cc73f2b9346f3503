/** What each operation of a client session needs and does, stated on the messages and the state for every input. */
module ClientEffects {
  import opened Wrappers
  import opened Protocol
  import opened ClientSpec
  import CR = ClientRuns

  // ---------------------------------------------------------------------------------------------
  // The gate

  /** Welcomed, not closed, and within lease and two heartbeat intervals. */
  predicate Open(c: Client, now: Instant) {
    && !c.hold.state.Closed? && !c.hold.state.New? && now < c.leaseExpiresAt
    && (c.lastHeartbeatAck == 0 || now <= c.lastHeartbeatAck + 2 * c.heartbeatMs * MILLISECOND)
  }

  predicate WellFormed(op: Op, now: Instant) {
    match op
    case GetSnapshot(snapshot, _, _, _) => snapshot.Valid()
    case GetDelta(delta, _, _, _) => delta.Valid()
    case GetHeartbeatAck(ack) => ack.binding.Valid() && now < ack.leaseExpiresAt && ack.serverTime != 0
    case GetRenewal(_, sound) => sound
    case _ => true
  }

  predicate Comes(c: Client, i: Input) { WellFormed(i.op, i.now) && Open(c, i.now) }

  /** The client as the gate leaves it at `now`: closed once lease or contact has run out, with its reason. */
  function Gated(c: Client, now: Instant): Client {
    if c.hold.state.Closed? || c.hold.state.New? || Open(c, now) then c
    else c.(hold := c.hold.(state := Closed),
            disconnectReason := Some(if c.leaseExpiresAt <= now then ReasonLeaseExpired else ReasonHeartbeatTimeout))
  }

  lemma GateIs(c: Client, now: Instant)
    ensures Admission(c, now).Pass? <==> Open(c, now)
    ensures Expired(c, Admission(c, now)) == Gated(c, now)
  {}

  lemma WellFormedIff(op: Op, now: Instant)
    ensures Malformed(op, now).None? <==> WellFormed(op, now)
  {}

  /** A malformed operation changes nothing; one that comes too late only closes. */
  lemma RefusedUnlessComes(c: Client, i: Input)
    requires !i.op.CloseSession? && !i.op.Welcomed?
    ensures if !WellFormed(i.op, i.now) then Do(c, i).next == c && Do(c, i).out.Err? && Do(c, i).ack.None?
            else if !Open(c, i.now) then Do(c, i).next == Gated(c, i.now) && Do(c, i).out.Err? && Do(c, i).ack.None?
            else Do(c, i) == Body(c, i.now, i.op)
  {
    WellFormedIff(i.op, i.now);
    GateIs(c, i.now);
  }

  /** Nothing but closing happened. */
  ghost predicate Idle(c: Client, i: Input) {
    Do(c, i).next == if WellFormed(i.op, i.now) then Gated(c, i.now) else c
  }

  // ---------------------------------------------------------------------------------------------
  // Welcome and closing

  /** A session is welcomed exactly once, by a sound welcome whose lease lies ahead, within a day, with room for a
      heartbeat; it takes session, lease and heartbeat over, and waits for a snapshot. */
  lemma WelcomeEffect(c: Client, i: Input)
    requires i.op.Welcomed?
    ensures var w, step := i.op.welcome, Do(c, i);
            if c.hold.state.New? && w.sound && ValidIdentifier(w.session) && w.heartbeatMs != 0
               && w.leaseExpiresAt <= i.now + MAX_LEASE && i.now + w.heartbeatMs * MILLISECOND < w.leaseExpiresAt then
              && step.out == Ok(Done) && step.ack.None?
              && step.next == c.(identity := Binding(c.identity.account, c.identity.ref.(session := w.session)),
                                 leaseExpiresAt := w.leaseExpiresAt, heartbeatMs := w.heartbeatMs,
                                 lastHeartbeatAck := i.now, hold := c.hold.(state := AwaitingSnapshot))
            else step.out.Err? && step.next == c && step.ack.None?
  {}

  /** Closing an open session aborts what is staged and records the reason; a closed one stays as it is. */
  lemma CloseEffect(c: Client, i: Input)
    requires i.op.CloseSession? && CR.Inv(c.hold)
    ensures var h, t := c.hold, Do(c, i).next;
            && Do(c, i).out == Ok(Done) && t.hold.state.Closed?
            && if h.state.Closed? then t == c
               else
                 && t.disconnectReason == Some(i.op.reason) && t.hold.candidate.None? && t.hold.prepared.None?
                 && t.hold.active == h.active
                 && t.hold.handles
                    == h.handles + if h.candidate.Some? then multiset{Aborted(h.prepared.value)} else multiset{}
  {}

  // ---------------------------------------------------------------------------------------------
  // Applying configurations

  /** The runtime prepared something usable in time. */
  predicate Usable(prep: Preparation) { prep.handle.Some? && !prep.failed && !prep.timedOut }

  /** `h'` stages `snapshot` beside what is active in `h`. */
  predicate StagedIn(h: Holding, h': Holding, snapshot: Snapshot, handle: Handle) {
    && h'.candidate == Some(snapshot) && h'.prepared == Some(handle) && h'.active == h.active
    && h'.readyGeneration == 0 && h'.state.AwaitingReady? && h'.handles == h.handles + multiset{Returned(handle)}
  }

  /** `h'` holds what `h` holds, and has aborted what the runtime returned. */
  predicate NotStaged(h: Holding, h': Holding, handle: Option<Handle>) {
    && h'.candidate == h.candidate && h'.prepared == h.prepared && h'.active == h.active
    && h'.readyGeneration == h.readyGeneration
    && h'.handles
       == h.handles + if handle.Some? then multiset{Returned(handle.value), Aborted(handle.value)} else multiset{}
  }

  predicate Newer(h: Holding, generation: nat) {
    && (h.active.Some? ==> h.active.value.config.generation < generation)
    && (h.candidate.Some? ==> h.candidate.value.config.generation < generation)
  }

  /** The newest configuration held. */
  function Newest(h: Holding): Option<Snapshot> { if h.candidate.Some? then h.candidate else h.active }

  /** The step stages `snapshot` and acknowledges it. */
  predicate Stages(c: Client, step: Step, snapshot: Snapshot, handle: Handle, kind: AckKind) {
    && step.next == c.(hold := step.next.hold) && StagedIn(c.hold, step.next.hold, snapshot, handle)
    && step.out == Ok(Acked) && step.ack == Some(Ack(c.identity, kind, Applied, snapshot.config, None))
  }

  lemma InstallEffect(c: Client, handle: Handle, snapshot: Snapshot, kind: AckKind)
    requires CR.Inv(c.hold)
    ensures var step := Install(c, handle, snapshot, kind);
            if c.hold.candidate.None? then
              && Stages(c, step, snapshot, handle, kind)
              && step.next.hold.needsSnapshot == (c.hold.needsSnapshot && !kind.AckSnapshot?)
            else InVain(c, step, Some(handle))
  {}

  /** The step stages nothing and aborts what the runtime returned. */
  predicate InVain(c: Client, step: Step, handle: Option<Handle>) {
    && NotStaged(c.hold, step.next.hold, handle)
    && step.next.hold.needsSnapshot == c.hold.needsSnapshot && step.out.Err? && step.ack.None?
  }

  /** The second half of both applies. */
  lemma StageEffect(c: Client, prep: Preparation, rejected: Code, later: Instant, snapshot: Snapshot, kind: AckKind)
    requires CR.Inv(c.hold)
    ensures var step := Stage(c, prep, rejected, later, snapshot, kind);
            if Usable(prep) && Open(c, later) && c.hold.candidate.None? then
              && Stages(c, step, snapshot, prep.handle.value, kind)
              && step.next.hold.needsSnapshot == (c.hold.needsSnapshot && !kind.AckSnapshot?)
            else InVain(c, step, prep.handle)
  {
    GateIs(c, later);
    if Usable(prep) && Open(c, later) {
      InstallEffect(c, prep.handle.value, snapshot, kind);
    } else {
      assert PreparationRefusal(prep, rejected).Some? <==> !Usable(prep);
    }
  }

  /** What the session is asked to prepare: a snapshot for it, newer than all it holds, not cancelled. */
  predicate PreparesSnapshot(c: Client, i: Input) {
    && i.op.GetSnapshot? && Comes(c, i) && i.op.snapshot.binding == c.identity && c.identity.Valid()
    && Newer(c.hold, i.op.snapshot.config.generation) && !i.op.canceled
  }

  /** The newest configuration held, again. */
  predicate RepeatsSnapshot(c: Client, i: Input) {
    && i.op.GetSnapshot? && Comes(c, i) && i.op.snapshot.binding == c.identity && c.identity.Valid()
    && Newest(c.hold).Some? && i.op.snapshot.config == Newest(c.hold).value.config
  }

  lemma SnapshotSteps(c: Client, i: Input)
    requires CR.Inv(c.hold) && i.op.GetSnapshot?
    ensures var op, step := i.op, Do(c, i);
            if PreparesSnapshot(c, i) then
              step == Stage(c, op.prep, SnapshotRejected, op.later, op.snapshot, AckSnapshot)
            else if RepeatsSnapshot(c, i) then
              step == Step(c, Ok(Acked), Some(Ack(c.identity, AckSnapshot, Duplicate, op.snapshot.config, None)))
            else Idle(c, i) && step.out.Err? && step.ack.None?
  {
    RefusedUnlessComes(c, i);
    if Comes(c, i) {
      assert Do(c, i) == ApplySnapshot(c, i.op.snapshot, i.op.canceled, i.op.prep, i.op.later);
      assert Gated(c, i.now) == c;
    }
  }

  lemma IdleHolds(c: Client, i: Input)
    requires Idle(c, i)
    ensures NotStaged(c.hold, Do(c, i).next.hold, None) && Do(c, i).next.hold.needsSnapshot == c.hold.needsSnapshot
  {
    assert c.hold.handles + multiset{} == c.hold.handles;
  }

  /** A snapshot is staged exactly when it is for this session and newer than all it holds, nothing is staged, the call
      was not cancelled, the runtime prepared it and the session is still open after that. A repeat of the newest is
      acknowledged as a duplicate; nothing else is acknowledged, and whatever was prepared in vain is aborted. */
  lemma SnapshotEffect(c: Client, i: Input)
    requires CR.Inv(c.hold) && i.op.GetSnapshot?
    ensures var op, step := i.op, Do(c, i);
            if PreparesSnapshot(c, i) && Usable(op.prep) && Open(c, op.later) && c.hold.candidate.None? then
              Stages(c, step, op.snapshot, op.prep.handle.value, AckSnapshot) && !step.next.hold.needsSnapshot
            else
              && NotStaged(c.hold, step.next.hold, if PreparesSnapshot(c, i) then op.prep.handle else None)
              && step.next.hold.needsSnapshot == c.hold.needsSnapshot
              && if RepeatsSnapshot(c, i) then
                   step.out == Ok(Acked)
                     && step.ack == Some(Ack(c.identity, AckSnapshot, Duplicate, op.snapshot.config, None))
                 else step.out.Err? && step.ack.None?
  {
    SnapshotSteps(c, i);
    if PreparesSnapshot(c, i) {
      StageEffect(c, i.op.prep, SnapshotRejected, i.op.later, i.op.snapshot, AckSnapshot);
    } else {
      IdleHolds(c, i);
    }
  }

  predicate Ours(c: Client, i: Input) {
    i.op.GetDelta? && Comes(c, i) && i.op.delta.binding == c.identity && c.identity.Valid()
  }

  /** A delta finds nothing active, a snapshot owed, or something staged. */
  predicate Blocked(c: Client, i: Input) {
    Ours(c, i) && (c.hold.active.None? || c.hold.needsSnapshot || c.hold.candidate.Some?)
  }

  /** A delta extends what is active. */
  predicate Extends(c: Client, i: Input) {
    Ours(c, i) && !Blocked(c, i) && i.op.delta.previous == c.hold.active.value.config
  }

  /** A delta has skipped something. */
  predicate Skips(c: Client, i: Input) {
    && Ours(c, i) && !Blocked(c, i) && !Extends(c, i)
    && c.hold.active.value.config.generation < i.op.delta.config.generation
  }

  lemma DeltaSteps(c: Client, i: Input)
    requires CR.Inv(c.hold) && i.op.GetDelta?
    ensures var op, step := i.op, Do(c, i);
            var staged := Snapshot(c.identity, op.delta.config, op.delta.payload);
            var required := Some(Ack(c.identity, AckDelta, FullSnapshotRequired, op.delta.config, None));
            if Extends(c, i) && !op.canceled then step == Stage(c, op.prep, DeltaRejected, op.later, staged, AckDelta)
            else if Blocked(c, i) then step == Step(c, Err(SnapshotRequired), required)
            else if Skips(c, i) then
              step == Step(c.(hold := c.hold.(needsSnapshot := true)), Err(GenerationGap), required)
            else Idle(c, i) && step.out.Err? && step.ack.None?
  {
    RefusedUnlessComes(c, i);
    if Comes(c, i) {
      assert Do(c, i) == ApplyDelta(c, i.op.delta, i.op.canceled, i.op.prep, i.op.later);
      assert Gated(c, i.now) == c;
    }
  }

  /** A delta is staged exactly when it extends the active configuration, no snapshot is owed, nothing is staged, the
      call was not cancelled, the runtime prepared it and the session is still open after that. A delta that cannot be
      applied for want of a snapshot is answered that one is required, and one past the next generation makes it
      owed. */
  lemma DeltaEffect(c: Client, i: Input)
    requires CR.Inv(c.hold) && i.op.GetDelta?
    ensures var op, step := i.op, Do(c, i);
            if Extends(c, i) && !op.canceled && Usable(op.prep) && Open(c, op.later) then
              && Stages(c, step, Snapshot(c.identity, op.delta.config, op.delta.payload), op.prep.handle.value,
                        AckDelta)
              && !step.next.hold.needsSnapshot
            else
              && NotStaged(c.hold, step.next.hold, if Extends(c, i) && !op.canceled then op.prep.handle else None)
              && step.next.hold.needsSnapshot == (c.hold.needsSnapshot || Skips(c, i)) && step.out.Err?
              && step.ack == if Blocked(c, i) || Skips(c, i)
                             then Some(Ack(c.identity, AckDelta, FullSnapshotRequired, op.delta.config, None))
                             else None
  {
    DeltaSteps(c, i);
    if Extends(c, i) && !i.op.canceled {
      var staged := Snapshot(c.identity, i.op.delta.config, i.op.delta.payload);
      StageEffect(c, i.op.prep, DeltaRejected, i.op.later, staged, AckDelta);
    } else if Blocked(c, i) || Skips(c, i) {
      assert c.hold.handles + multiset{} == c.hold.handles;
    } else {
      IdleHolds(c, i);
    }
  }

  // ---------------------------------------------------------------------------------------------
  // Activation

  /** What is staged is put to the runtime: the session is open, edge, route and origin are ready, nobody cancelled. */
  predicate Tries(c: Client, i: Input) {
    && i.op.ReportReady? && Open(c, i.now) && c.hold.candidate.Some?
    && i.op.probe.edge && i.op.probe.route && i.op.probe.origin && !i.op.canceled
  }

  /** A configuration is activated and reported ready exactly by a readiness report that finds edge, route and origin
      ready, a candidate staged, nobody cancelling, the runtime activating, and the session open before and after. */
  lemma PromotesIff(c: Client, i: Input)
    requires CR.Inv(c.hold)
    ensures CR.Promotes(c, i) <==> Tries(c, i) && i.op.activates && Open(c, i.op.later)
  {
    if i.op.ReportReady? {
      RefusedUnlessComes(c, i);
      GateIs(c, i.op.later);
      if Tries(c, i) && i.op.activates { GateIs(Noted(c, multiset{Activated(c.hold.prepared.value)}), i.op.later); }
    } else if i.op.GetSnapshot? {
      SnapshotEffect(c, i);
    } else if i.op.GetDelta? {
      DeltaEffect(c, i);
    }
  }

  /** What a report leaves: the candidate active and ready; or dropped, aborted and a snapshot owed when the runtime
      fails to activate it; or activated but never reported when the session ran out meanwhile; or nothing changed. */
  lemma ReadyEffect(c: Client, i: Input)
    requires CR.Inv(c.hold) && i.op.ReportReady?
    ensures var h, step := c.hold, Do(c, i);
            var h' := step.next.hold;
            && step.ack.None?
            && if !Tries(c, i) then Idle(c, i) && step.out.Err?
               else if !i.op.activates then
                 && step.out.Err? && (step.out.code.Canceled? <==> i.op.canceledLater) && step.next == c.(hold := h')
                 && h'.active == h.active && h'.candidate.None? && h'.prepared.None? && h'.needsSnapshot
                 && h'.readyGeneration == h.readyGeneration && h'.state.AwaitingSnapshot?
                 && h'.handles == h.handles + multiset{Aborted(h.prepared.value)}
               else
                 && h'.handles == h.handles + multiset{Activated(h.prepared.value)}
                 && if Open(c, i.op.later) then
                      && step.next == c.(hold := h') && h'.active == h.candidate && h'.candidate.None?
                      && h'.prepared.None?
                      && !h'.needsSnapshot && h'.readyGeneration == h.candidate.value.config.generation
                      && h'.state.Ready?
                      && step.out == Ok(Promoted(Readiness(c.identity, h.candidate.value.config, true, true, true)))
                    else
                      step.out.Err? && step.next == Gated(c, i.op.later).(hold := h')
                        && h' == Gated(c, i.op.later).hold.(handles := h'.handles)
  {
    RefusedUnlessComes(c, i);
    GateIs(c, i.op.later);
    if Tries(c, i) && i.op.activates { GateIs(Noted(c, multiset{Activated(c.hold.prepared.value)}), i.op.later); }
  }

  // ---------------------------------------------------------------------------------------------
  // Liveness

  /** A heartbeat reports the active configuration, or before there is one the candidate, and changes nothing. */
  lemma SendHeartbeatEffect(c: Client, i: Input)
    requires i.op.SendHeartbeat?
    ensures var h, step := c.hold, Do(c, i);
            && Idle(c, i) && step.ack.None?
            && (step.out.Ok? <==> Open(c, i.now) && (h.active.Some? || h.candidate.Some?))
            && (step.out.Ok? ==>
                  var reported := if h.active.Some? then h.active.value else h.candidate.value;
                  step.out.value == Beat(Heartbeat(c.identity, reported.config, i.now)))
  {
    RefusedUnlessComes(c, i);
  }

  /** An acknowledged heartbeat takes over the lease end it names and counts as contact now, exactly when it is for this
      session. */
  lemma HeartbeatAckEffect(c: Client, i: Input)
    requires i.op.GetHeartbeatAck?
    ensures var step := Do(c, i);
            && step.ack.None?
            && if Comes(c, i) && i.op.beatAck.binding == c.identity then
                 step.out == Ok(Done)
                   && step.next == c.(leaseExpiresAt := i.op.beatAck.leaseExpiresAt, lastHeartbeatAck := i.now)
               else Idle(c, i) && step.out.Err?
  {
    RefusedUnlessComes(c, i);
  }

  /** A renewal is taken exactly when it is for this session, host and key and goes back on neither generation, expiry
      nor lease; it counts as contact only when it brings something new. */
  lemma RenewalEffect(c: Client, i: Input)
    requires i.op.GetRenewal?
    ensures var r, step := i.op.auth, Do(c, i);
            var credential :=
                              Credential(c.credential.host, c.credential.key, r.credentialGeneration,
                                         r.credentialExpiresAt);
            var renewed := c.(credential := credential, leaseExpiresAt := r.leaseExpiresAt);
            var named := SessionRef(r.tunnel, r.connector, r.session, r.process);
            && step.ack.None?
            && if Comes(c, i) && Binding(r.account, named) == c.identity
                  && r.host == c.credential.host && r.key == c.credential.key
                  && c.credential.generation <= r.credentialGeneration
                  && c.credential.expiresAt <= r.credentialExpiresAt && c.leaseExpiresAt <= r.leaseExpiresAt then
                 step.out == Ok(Done) && step.next == if renewed == c then c else renewed.(lastHeartbeatAck := i.now)
               else Idle(c, i) && step.out.Err?
  {
    RefusedUnlessComes(c, i);
  }

  lemma CheckLeaseEffect(c: Client, i: Input)
    requires i.op.CheckLease?
    ensures Idle(c, i) && (Do(c, i).out.Ok? <==> Open(c, i.now))
  {
    RefusedUnlessComes(c, i);
  }

  // ---------------------------------------------------------------------------------------------
  // Refusals say why

  predicate GateCause(c: Client, now: Instant, code: Code) {
    match code
    case SessionClosed => c.hold.state.Closed?
    case SessionConflict => c.hold.state.New?
    case LeaseExpired => c.leaseExpiresAt <= now
    case HeartbeatTimeout => c.lastHeartbeatAck + 2 * c.heartbeatMs * MILLISECOND < now
    case _ => false
  }

  /** Why something prepared, or about to be, was not staged. */
  predicate StageCause(c: Client, canceled: bool, prep: Preparation, later: Instant, rejected: Code, code: Code) {
    || (code.Canceled? && (canceled || prep.timedOut))
    || (code == rejected && (prep.failed || prep.handle.None?))
    || (code.GenerationGap? && c.hold.candidate.Some?)
    || (!Open(c, later) && GateCause(c, later, code))
  }

  predicate SnapshotCause(c: Client, op: Op, code: Code)
    requires op.GetSnapshot?
  {
    var newest, snapshot := Newest(c.hold), op.snapshot;
    || (code.IdentityMismatch? && (snapshot.binding != c.identity || !c.identity.Valid()))
    || (code.StaleGeneration? && newest.Some? && snapshot.config.generation < newest.value.config.generation)
    || (code.ContentHashMismatch? && newest.Some? && snapshot.config.generation == newest.value.config.generation
        && snapshot.config.hash != newest.value.config.hash)
    || (Newer(c.hold, snapshot.config.generation)
        && StageCause(c, op.canceled, op.prep, op.later, SnapshotRejected, code))
  }

  predicate DeltaCause(c: Client, op: Op, code: Code)
    requires op.GetDelta?
  {
    var h, delta := c.hold, op.delta;
    || (code.IdentityMismatch? && (delta.binding != c.identity || !c.identity.Valid()))
    || (code.SnapshotRequired? && (h.active.None? || h.needsSnapshot || h.candidate.Some?))
    || (h.active.Some? && delta.previous != h.active.value.config
        && if delta.config.generation <= h.active.value.config.generation then code.StaleGeneration?
           else code.GenerationGap?)
    || (h.active.Some? && delta.previous == h.active.value.config
        && StageCause(c, op.canceled, op.prep, op.later, DeltaRejected, code))
  }

  predicate ReadyCause(c: Client, op: Op, code: Code)
    requires op.ReportReady?
  {
    || (code.SnapshotRequired? && c.hold.candidate.None?)
    || (code.NotReady? && !(op.probe.edge && op.probe.route && op.probe.origin))
    || (code.Canceled? && (op.canceled || (!op.activates && op.canceledLater)))
    || (code.SnapshotRejected? && !op.activates && !op.canceledLater)
    || (op.activates && !Open(c, op.later) && GateCause(c, op.later, code))
  }

  predicate BodyCause(c: Client, op: Op, code: Code) {
    match op
    case GetSnapshot(_, _, _, _) => SnapshotCause(c, op, code)
    case GetDelta(_, _, _, _) => DeltaCause(c, op, code)
    case ReportReady(_, _, _, _, _) => ReadyCause(c, op, code)
    case SendHeartbeat => code.SnapshotRequired? && c.hold.active.None? && c.hold.candidate.None?
    case GetHeartbeatAck(ack) => code.IdentityMismatch? && ack.binding != c.identity
    case GetRenewal(r, _) =>
      || (code.IdentityMismatch?
          && (Binding(r.account, SessionRef(r.tunnel, r.connector, r.session, r.process)) != c.identity
                                     || r.host != c.credential.host || r.key != c.credential.key
                                     || r.credentialGeneration < c.credential.generation))
      || (code.SessionConflict?
          && (r.credentialExpiresAt < c.credential.expiresAt || r.leaseExpiresAt < c.leaseExpiresAt))
    case _ => false
  }

  predicate MalformedCause(op: Op, code: Code) {
    match op
    case GetSnapshot(_, _, _, _) => code.SnapshotRejected?
    case GetDelta(_, _, _, _) => code.DeltaRejected?
    case GetHeartbeatAck(_) => code.InvalidInput?
    case GetRenewal(_, _) => code.AuthenticationFailed?
    case _ => false
  }

  /** The code of a refusal is true of the message, of the gate or of what the operation found, in that order; a refused
      welcome was malformed or came to a session already welcomed. */
  lemma RefusalsAreTrue(c: Client, i: Input)
    requires CR.Inv(c.hold) && Do(c, i).out.Err?
    ensures var code := Do(c, i).out.code;
            if i.op.Welcomed? then if i.op.welcome.Valid(i.now) then code.SessionConflict? else code.InvalidInput?
            else if !WellFormed(i.op, i.now) then MalformedCause(i.op, code)
            else if !Open(c, i.now) then GateCause(c, i.now, code)
            else BodyCause(c, i.op, code)
  {
    WellFormedIff(i.op, i.now);
    GateIs(c, i.now);
    match i.op {
      case GetSnapshot(_, _, _, _) => SnapshotRefusalIsTrue(c, i);
      case GetDelta(_, _, _, _) => DeltaRefusalIsTrue(c, i);
      case ReportReady(_, _, _, _, _) => ReadyRefusalIsTrue(c, i);
      case _ =>
    }
  }

  lemma StageRefusalIsTrue(c: Client, prep: Preparation, rejected: Code, later: Instant, snapshot: Snapshot,
                           kind: AckKind)
    ensures var step := Stage(c, prep, rejected, later, snapshot, kind);
            step.out.Err? ==> StageCause(c, false, prep, later, rejected, step.out.code)
  {
    GateIs(c, later);
  }

  lemma SnapshotRefusalIsTrue(c: Client, i: Input)
    requires CR.Inv(c.hold) && i.op.GetSnapshot?
    ensures Comes(c, i) && Do(c, i).out.Err? ==> SnapshotCause(c, i.op, Do(c, i).out.code)
  {
    RefusedUnlessComes(c, i);
    StageRefusalIsTrue(c, i.op.prep, SnapshotRejected, i.op.later, i.op.snapshot, AckSnapshot);
  }

  lemma DeltaRefusalIsTrue(c: Client, i: Input)
    requires CR.Inv(c.hold) && i.op.GetDelta?
    ensures Comes(c, i) && Do(c, i).out.Err? ==> DeltaCause(c, i.op, Do(c, i).out.code)
  {
    RefusedUnlessComes(c, i);
    var staged := Snapshot(c.identity, i.op.delta.config, i.op.delta.payload);
    StageRefusalIsTrue(c, i.op.prep, DeltaRejected, i.op.later, staged, AckDelta);
  }

  lemma ReadyRefusalIsTrue(c: Client, i: Input)
    requires CR.Inv(c.hold) && i.op.ReportReady?
    ensures Comes(c, i) && Do(c, i).out.Err? ==> ReadyCause(c, i.op, Do(c, i).out.code)
  {
    RefusedUnlessComes(c, i);
    if Tries(c, i) {
      GateIs(Noted(c, multiset{Activated(c.hold.prepared.value)}), i.op.later);
    }
  }
}
