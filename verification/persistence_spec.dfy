/** Fail-closed persistence: every call first moves the session in memory, then writes the store, and closes the
    session when the write fails. The store is the log of the writes that succeeded. */
module PersistenceSpec {
  import opened Wrappers
  import opened Protocol
  import opened ServerSpec
  import SR = ServerRuns

  datatype Entry =
    | Created(ref: SessionRef, leaseExpiresAt: nat, credentialGeneration: nat)
    | AppliedEntry(ack: Ack)
    | ReadyEntry(readiness: Readiness)
    | BeatEntry(beat: Heartbeat, answer: HeartbeatAck)
    | RenewalEntry(auth: AuthResult)
    | DrainEntry(request: Drain, status: DrainStatus, streams: nat, code: Option<Code>)
    | Disconnected(reason: Reason)

  datatype Durable = Durable(session: Server, log: seq<Entry>)

  datatype Called = Called(next: Durable, out: Outcome<Reply>)

  function ClosedEntry(s: Server): Entry {
    Disconnected(if s.disconnectReason.Some? then s.disconnectReason.value else ReasonProtocolClosed)
  }

  /** What a call writes once the session has answered `step`; whether a negative acknowledgement is written is
      decided against the session as it was before. */
  function Record(before: Server, step: Step, op: Op): Option<Entry> {
    var ok := step.out.Ok?;
    match op
    case DeliverAck(ack) => if ok || CanPersistNegativeAck(before, ack) then Some(AppliedEntry(ack)) else None
    case DeliverReadiness(r) => if ok then Some(ReadyEntry(r)) else None
    case DeliverHeartbeat(beat) =>
      if ok && step.out.value.BeatAck? then Some(BeatEntry(beat, step.out.value.beat)) else None
    case EndRenewal(_, _) => if ok && step.out.value.Renewed? then Some(RenewalEntry(step.out.value.auth)) else None
    case StartDrain(_, _, _, _) =>
      if ok && step.out.value.DrainRequest? then Some(DrainEntry(step.out.value.drain, DrainAccepted, 0, None))
      else None
    case DeliverDrainAck(ack) =>
      if (ok || CanPersistNegativeDrainAck(before, ack)) && step.next.drain.request.Some? then
        Some(DrainEntry(step.next.drain.request.value, ack.status, ack.activeStreams, ack.code))
      else None
    case CloseSession(_) => Some(ClosedEntry(step.next))
    case CheckLease => if !ok && step.next.cfg.state.Closed? then Some(ClosedEntry(step.next)) else None
    case _ => None
  }

  /** `stored` is whether the write succeeds, `cleaned` whether the disconnect record after a failed one does. */
  function Call(d: Durable, i: Input, stored: bool, cleaned: bool): Called {
    var step := Do(d.session, i);
    var record := Record(d.session, step, i.op);
    if record.None? then Called(Durable(step.next, d.log), step.out)
    else if stored then Called(Durable(step.next, d.log + [record.value]), step.out)
    else if i.op.CheckLease? then Called(Durable(step.next, d.log), step.out)
    else if i.op.CloseSession? then Called(Durable(step.next, d.log), Err(SessionConflict))
    else
      var closed := CloseFor(step.next, ReasonProtocolClosed);
      Called(Durable(closed, d.log + if cleaned then [ClosedEntry(closed)] else []), Err(SessionConflict))
  }

  /** `PersistentServer.Accept`: a session whose creation is not stored is closed and not handed out. */
  function Opened(accepted: Server, log: seq<Entry>, stored: bool): Called {
    if stored then
      var created := Created(accepted.ref, accepted.lease.leaseExpiresAt, accepted.auth.credentialGeneration);
      Called(Durable(accepted, log + [created]), Ok(Done))
    else Called(Durable(CloseFor(accepted, ReasonProtocolClosed), log), Err(SessionConflict))
  }

  datatype Request = Request(input: Input, stored: bool, cleaned: bool)

  function Run(d: Durable, calls: seq<Request>): Durable
    decreases |calls|
  {
    if calls == [] then d else Run(Call(d, calls[0].input, calls[0].stored, calls[0].cleaned).next, calls[1..])
  }

  // ---------------------------------------------------------------------------------------------
  // What the log confirms

  ghost predicate ReadyStored(log: seq<Entry>, id: Binding, config: Config) {
    exists e :: e in log && e.ReadyEntry? && e.readiness.binding == id && e.readiness.config == config
      && e.readiness.AllReady()
  }

  ghost predicate AppliedStored(log: seq<Entry>, id: Binding, config: Config) {
    exists e :: e in log && e.AppliedEntry? && e.ack.binding == id && e.ack.config == config && !e.ack.Negative()
  }

  ghost predicate DrainStored(log: seq<Entry>, drain: DrainRecord)
    requires drain.request.Some?
  {
    exists e :: e in log && e.DrainEntry? && e.request == drain.request.value && e.status == drain.status
      && e.code == drain.code
  }

  /** The lease and credential generation the latest write granted. */
  function DurableLease(log: seq<Entry>): nat
    decreases |log|
  {
    if log == [] then 0
    else match log[|log| - 1] {
      case Created(_, lease, _) => lease
      case BeatEntry(_, answer) => answer.leaseExpiresAt
      case RenewalEntry(auth) => auth.leaseExpiresAt
      case _ => DurableLease(log[..|log| - 1])
    }
  }

  function DurableCredential(log: seq<Entry>): nat
    decreases |log|
  {
    if log == [] then 0
    else match log[|log| - 1] {
      case Created(_, _, generation) => generation
      case RenewalEntry(auth) => auth.credentialGeneration
      case _ => DurableCredential(log[..|log| - 1])
    }
  }

  ghost predicate ConfigBacked(d: Durable) {
    && (d.session.cfg.active.Some? ==> ReadyStored(d.log, d.session.Identity(), d.session.cfg.active.value.config))
    && (d.session.cfg.candidate.Some? ==>
        AppliedStored(d.log, d.session.Identity(), d.session.cfg.candidate.value.config))
  }

  ghost predicate DrainBacked(d: Durable) {
    && (d.session.drain.request.Some? ==> DrainStored(d.log, d.session.drain))
    && (d.session.cfg.state.Draining? ==> d.session.drain.request.Some?)
  }

  ghost predicate LeaseBacked(d: Durable) {
    && d.session.lease.leaseExpiresAt <= DurableLease(d.log)
    && d.session.auth.credentialGeneration == DurableCredential(d.log)
  }

  /** The session is closed, or the store confirms everything it holds. */
  ghost predicate Backed(d: Durable) {
    d.session.cfg.state.Closed? || (ConfigBacked(d) && DrainBacked(d) && LeaseBacked(d))
  }

  lemma StoredStays(log: seq<Entry>, e: Entry, id: Binding, config: Config, drain: DrainRecord)
    requires drain.request.Some?
    ensures ReadyStored(log, id, config) ==> ReadyStored(log + [e], id, config)
    ensures AppliedStored(log, id, config) ==> AppliedStored(log + [e], id, config)
    ensures DrainStored(log, drain) ==> DrainStored(log + [e], drain)
  {
    forall x | x in log ensures x in log + [e] {}
  }

  lemma LatestGrant(log: seq<Entry>, e: Entry)
    ensures DurableLease(log + [e]) == match e {
              case Created(_, lease, _) => lease
              case BeatEntry(_, answer) => answer.leaseExpiresAt
              case RenewalEntry(auth) => auth.leaseExpiresAt
              case _ => DurableLease(log)
            }
    ensures DurableCredential(log + [e]) == match e {
              case Created(_, _, generation) => generation
              case RenewalEntry(auth) => auth.credentialGeneration
              case _ => DurableCredential(log)
            }
  {
    assert (log + [e])[..|log|] == log;
  }

  // ---------------------------------------------------------------------------------------------
  // Each call

  /** What the session gained in memory is exactly what the call writes. */
  ghost predicate ConfigGain(s: Server, s': Server, record: Option<Entry>) {
    && (s'.cfg.active == s.cfg.active
        || (record.Some? && record.value.ReadyEntry? && record.value.readiness.AllReady() && s'.cfg.active.Some?
            && record.value.readiness.binding == s'.Identity()
            && record.value.readiness.config == s'.cfg.active.value.config))
    && (s'.cfg.candidate == s.cfg.candidate || s'.cfg.candidate.None?
        || (record.Some? && record.value.AppliedEntry? && !record.value.ack.Negative()
            && record.value.ack.binding == s'.Identity() && record.value.ack.config == s'.cfg.candidate.value.config))
    && s'.Identity() == s.Identity()
  }

  lemma BodyConfigGain(s: Server, now: Instant, op: Op)
    requires op.EndRenewal? ==> Malformed(op, now).None?
    ensures var step := Body(s, now, op); ConfigGain(s, step.next, Record(s, step, op))
  {
    match op {
      case DeliverAck(ack) =>
        if ack.binding == s.Identity() {
          if s.cfg.pendingSnapshot.Some? {
            if ack.Negative() {} else {}
          } else if s.cfg.pendingDelta.Some? {
            if ack.Negative() {} else {}
          }
        }
      case DeliverReadiness(r) =>
      case DeliverHeartbeat(beat) =>
      case _ =>
    }
  }

  ghost predicate DrainGain(s: Server, s': Server, record: Option<Entry>) {
    && (s'.drain == s.drain
        || (record.Some? && record.value.DrainEntry? && s'.drain.request == Some(record.value.request)
            && s'.drain.status == record.value.status && s'.drain.code == record.value.code))
  }

  lemma BodyDrainGain(s: Server, now: Instant, op: Op)
    requires Malformed(op, now).None?
    ensures var step := Body(s, now, op); DrainGain(s, step.next, Record(s, step, op))
  {
    match op {
      case StartDrain(id, deadline, force, later) =>
      case DeliverDrainAck(ack) => if DrainAckAnswer(s, ack).Some? {} else {}
      case DeliverHeartbeat(beat) =>
      case _ =>
    }
  }

  ghost predicate LeaseGain(s: Server, s': Server, record: Option<Entry>) {
    if record.Some? && record.value.BeatEntry? then
      s'.lease.leaseExpiresAt == record.value.answer.leaseExpiresAt && s'.auth == s.auth
    else if record.Some? && record.value.RenewalEntry? then
      s'.lease.leaseExpiresAt <= record.value.auth.leaseExpiresAt
        && s'.auth.credentialGeneration == record.value.auth.credentialGeneration
    else s'.lease.leaseExpiresAt == s.lease.leaseExpiresAt && s'.auth == s.auth
  }

  lemma BodyLeaseGain(s: Server, now: Instant, op: Op)
    ensures var step := Body(s, now, op); LeaseGain(s, step.next, Record(s, step, op))
  {
    match op {
      case DeliverHeartbeat(beat) =>
      case EndRenewal(ticket, answer) =>
      case _ =>
    }
  }

  lemma Gains(s: Server, i: Input)
    ensures var step := Do(s, i);
            var record := Record(s, step, i.op);
            step.next.cfg.state.Closed?
            || (ConfigGain(s, step.next, record) && DrainGain(s, step.next, record) && LeaseGain(s, step.next, record))
  {
    if i.op.CloseSession? {
    } else if Malformed(i.op, i.now).Some? {
      RefusedWritesNothing(s, i);
    } else if Admission(s, i.now, i.live).Pass? {
      BodyConfigGain(s, i.now, i.op);
      BodyDrainGain(s, i.now, i.op);
      BodyLeaseGain(s, i.now, i.op);
    }
  }

  lemma RefusedWritesNothing(s: Server, i: Input)
    requires !i.op.CloseSession? && Malformed(i.op, i.now).Some?
    ensures Do(s, i).next == s
    ensures var r := Record(s, Do(s, i), i.op); r.None? || r.value.Disconnected?
  {}

  lemma StoredKeepsBacked(d: Durable, s': Server, e: Entry)
    requires ConfigBacked(d) && DrainBacked(d) && LeaseBacked(d)
    requires ConfigGain(d.session, s', Some(e)) && DrainGain(d.session, s', Some(e))
             && LeaseGain(d.session, s', Some(e))
    requires !e.Created? && (s'.cfg.state.Draining? ==> s'.drain.request.Some?)
    ensures Backed(Durable(s', d.log + [e]))
  {
    var log := d.log + [e];
    assert e in log;
    LatestGrant(d.log, e);
    var some := DrainRecord(Some(Drain(s'.Identity(), "", Config(0, ""), 0, true, true)), DrainAccepted, None, false);
    if s'.cfg.active.Some? { StoredStays(d.log, e, s'.Identity(), s'.cfg.active.value.config, some); }
    if s'.cfg.candidate.Some? { StoredStays(d.log, e, s'.Identity(), s'.cfg.candidate.value.config, some); }
    if s'.drain.request.Some? { StoredStays(d.log, e, s'.Identity(), Config(0, ""), s'.drain); }
  }

  lemma CallKeepsBacked(d: Durable, r: Request)
    requires SR.Inv(d.session) && Backed(d)
    ensures var d' := Call(d, r.input, r.stored, r.cleaned).next; SR.Inv(d'.session) && Backed(d')
  {
    var step := Do(d.session, r.input);
    var record := Record(d.session, step, r.input.op);
    SR.StepKeepsInv(d.session, r.input);
    if d.session.cfg.state.Closed? {
      SR.ClosedStep(d.session, r.input);
    } else if !step.next.cfg.state.Closed? {
      Gains(d.session, r.input);
      if record.Some? && r.stored {
        StoredKeepsBacked(d, step.next, record.value);
      } else if record.Some? {
        assert !r.input.op.CheckLease? && !r.input.op.CloseSession?;
      } else {
        UnstoredKeepsBacked(d, step.next);
      }
    }
  }

  lemma UnstoredKeepsBacked(d: Durable, s': Server)
    requires ConfigBacked(d) && DrainBacked(d) && LeaseBacked(d)
    requires ConfigGain(d.session, s', None) && DrainGain(d.session, s', None) && LeaseGain(d.session, s', None)
    requires s'.cfg.state.Draining? ==> s'.drain.request.Some?
    ensures Backed(Durable(s', d.log))
  {}

  // ---------------------------------------------------------------------------------------------
  // The theorem

  lemma {:induction false} RunKeepsBacked(d: Durable, calls: seq<Request>)
    requires SR.Inv(d.session) && Backed(d)
    ensures SR.Inv(Run(d, calls).session) && Backed(Run(d, calls))
    decreases |calls|
  {
    if calls == [] {
    } else {
      CallKeepsBacked(d, calls[0]);
      RunKeepsBacked(Call(d, calls[0].input, calls[0].stored, calls[0].cleaned).next, calls[1..]);
    }
  }

  /** From the moment a session is accepted, over every sequence of calls and store failures: the session is
      closed, or the store holds the readiness of its active configuration, the acknowledgement of its
      candidate, its drain with the status it has, and a lease at least as long as the live one. */
  lemma DurableIsNeverBehind(settings: Settings, now: Instant, hello: Hello, drains: Outcome<bool>,
                             auth: Outcome<AuthResult>, source: Outcome<Snapshot>, sessionId: Outcome<Id>,
                             log: seq<Entry>, stored: bool, calls: seq<Request>)
    ensures var a := Accept(settings, now, hello, drains, auth, source, sessionId);
            a.Ok? ==> Backed(Run(Opened(a.value, log, stored).next, calls))
  {
    var a := Accept(settings, now, hello, drains, auth, source, sessionId);
    if a.Ok? {
      SR.AcceptEstablishesInv(settings, now, hello, drains, auth, source, sessionId);
      var d := Opened(a.value, log, stored).next;
      if stored {
        LatestGrant(log, Created(a.value.ref, a.value.lease.leaseExpiresAt, a.value.auth.credentialGeneration));
      }
      RunKeepsBacked(d, calls);
    }
  }

  /** An outstanding offer is gone. */
  predicate Withdrawn(before: Progress, after: Progress) {
    (before.pendingSnapshot.Some? && after.pendingSnapshot.None?)
      || (before.pendingDelta.Some? && after.pendingDelta.None?)
  }

  lemma OthersKeepOffers(s: Server, i: Input)
    requires !i.op.DeliverAck?
    ensures var next := Do(s, i).next.cfg;
            next.state.Closed? || (i.op.Offer? && next.pendingSnapshot.Some?) || !Withdrawn(s.cfg, next)
  {
    match i.op {
      case Offer(offer) => if OfferAnswer(s, offer).Some? {} else {}
      case OfferNext(delta) =>
      case DeliverReadiness(r) =>
      case DeliverHeartbeat(beat) =>
      case _ =>
    }
  }

  ghost predicate AckRecorded(before: Progress, after: Progress, ack: Ack, log: seq<Entry>) {
    && AppliedEntry(ack) in log
    && (ack.Negative() <==> after.candidate == before.candidate && after.needsSnapshot)
  }

  lemma AckWithdraws(s: Server, ack: Ack)
    requires SR.Inv(s) && ack.Valid()
    ensures var m := HandleAck(s, ack);
            Withdrawn(s.cfg, m.next) ==>
              && (m.out.Ok? || CanPersistNegativeAck(s, ack))
              && (ack.Negative() <==> m.next.candidate == s.cfg.candidate && m.next.needsSnapshot)
  {
    if ack.binding == s.Identity() {
      if s.cfg.pendingSnapshot.Some? {
        if ack.Negative() {} else {}
      } else if s.cfg.pendingDelta.Some? {
        if ack.Negative() {} else {}
      }
    }
  }

  lemma AckIsRecorded(d: Durable, r: Request)
    requires SR.Inv(d.session) && r.input.op.DeliverAck?
    ensures var d' := Call(d, r.input, r.stored, r.cleaned).next;
            var before, after := d.session.cfg, d'.session.cfg;
            Withdrawn(before, after) ==> after.state.Closed? || AckRecorded(before, after, r.input.op.ack, d'.log)
  {
    var ack := r.input.op.ack;
    if ack.Valid() && Admission(d.session, r.input.now, r.input.live).Pass? {
      AckWithdraws(d.session, ack);
      assert AppliedEntry(ack) in d.log + [AppliedEntry(ack)];
    }
  }

  /** An outstanding offer never disappears unrecorded: when a call takes it back, either the acknowledgement is
      in the store, and it was negative exactly if nothing was staged, or a newer snapshot took its place, or the
      session is closed. */
  lemma WithdrawnOfferIsRecorded(d: Durable, r: Request)
    requires SR.Inv(d.session)
    ensures var d' := Call(d, r.input, r.stored, r.cleaned).next;
            var before, after := d.session.cfg, d'.session.cfg;
            Withdrawn(before, after)
            ==> after.state.Closed?
                || (r.input.op.Offer? && after.pendingSnapshot.Some?)
                || (r.input.op.DeliverAck? && AckRecorded(before, after, r.input.op.ack, d'.log))
  {
    if r.input.op.DeliverAck? {
      AckIsRecorded(d, r);
    } else {
      OthersKeepOffers(d.session, r.input);
      var step := Do(d.session, r.input);
      assert Call(d, r.input, r.stored, r.cleaned).next.session.cfg.state.Closed?
             || Call(d, r.input, r.stored, r.cleaned).next.session == step.next;
    }
  }

  // ---------------------------------------------------------------------------------------------
  // The drain the store reads last

  /** A drain command with its latest status and refusal code. */
  datatype DrainFact = DrainFact(request: Drain, status: DrainStatus, code: Option<Code>)

  function LastDrain(log: seq<Entry>): Option<DrainFact>
    decreases |log|
  {
    if log == [] then None
    else
      match log[|log| - 1]
      case DrainEntry(request, status, _, code) => Some(DrainFact(request, status, code))
      case _ => LastDrain(log[..|log| - 1])
  }

  function LiveDrain(s: Server): Option<DrainFact> {
    if s.drain.request.None? then None else Some(DrainFact(s.drain.request.value, s.drain.status, s.drain.code))
  }

  predicate DrainAgrees(d: Durable) { LastDrain(d.log) == LiveDrain(d.session) }

  /** The calls that write a drain status or code the session does not have: repeating the drain command once it has
      made progress, and a rejection of the drain that finds it already ended otherwise, or finds a session the gate
      refuses. */
  predicate RewritesDrain(s: Server, i: Input) {
    var passes := Admission(s, i.now, i.live).Pass?;
    && s.drain.request.Some?
    && match i.op {
      case StartDrain(id, _, _, _) =>
        passes && s.canDrain && id == s.drain.request.value.drainId
          && !(s.drain.status.DrainAccepted? && s.drain.code.None?)
      case DeliverDrainAck(ack) =>
        && CanPersistNegativeDrainAck(s, ack)
        && !(s.drain.status.DrainRefused? && s.drain.code == ack.code)
        && (s.drain.completed || !passes)
      case _ => false
    }
  }

  /** The calls that move the drain itself: its start, and an acknowledgement of it while it is open that says
      something else than the last one. */
  predicate MovesDrain(s: Server, i: Input) {
    && Malformed(i.op, i.now).None?
    && Admission(s, i.now, i.live).Pass?
    && match i.op {
      case StartDrain(id, deadline, force, later) =>
        && s.canDrain && s.drain.request.None? && s.cfg.active.Some?
        && DrainRefusal(s.cfg, Drain(s.Identity(), id, s.cfg.active.value.config, deadline, true, force), later).None?
      case DeliverDrainAck(ack) =>
        DrainAckAnswer(s, ack).None? && !(s.drain.status == ack.status && s.drain.code == ack.code)
      case _ => false
    }
  }

  lemma LastDrainOf(log: seq<Entry>, e: Entry)
    ensures LastDrain(log + [e]) == if e.DrainEntry? then Some(DrainFact(e.request, e.status, e.code))
            else LastDrain(log)
  {
    assert (log + [e])[..|log|] == log;
  }

  lemma OthersKeepDrain(s: Server, now: Instant, op: Op)
    requires !op.DeliverDrainAck? && !op.StartDrain?
    ensures var step := Body(s, now, op);
            step.next.drain == s.drain && (Record(s, step, op).None? || !Record(s, step, op).value.DrainEntry?)
  {
    match op {
      case DeliverHeartbeat(beat) =>
      case EndRenewal(_, _) =>
      case _ =>
    }
  }

  lemma GateKeepsDrain(s: Server, i: Input)
    requires i.op.CloseSession? || Malformed(i.op, i.now).Some? || !Admission(s, i.now, i.live).Pass?
    ensures var step := Do(s, i);
            && step.next.drain == s.drain
            && var r := Record(s, step, i.op);
               if i.op.DeliverDrainAck? && CanPersistNegativeDrainAck(s, i.op.drainAck) then
                 r.Some? && r.value.DrainEntry? && r.value.status.DrainRefused?
               else r.None? || !r.value.DrainEntry?
  {}

  lemma DrainMovesIff(s: Server, i: Input)
    requires SR.Inv(s)
    ensures LiveDrain(Do(s, i).next) != LiveDrain(s) <==> MovesDrain(s, i)
  {
    if i.op.CloseSession? || Malformed(i.op, i.now).Some? || !Admission(s, i.now, i.live).Pass? {
      GateKeepsDrain(s, i);
    } else {
      match i.op {
        case DeliverDrainAck(ack) => if DrainAckAnswer(s, ack).Some? {} else {}
        case StartDrain(_, _, _, _) =>
        case _ => OthersKeepDrain(s, i.now, i.op);
      }
    }
  }

  /** What a stored call leaves in the store is the live drain, except exactly after the calls that rewrite it. */
  lemma StoredDrainAgreesIff(d: Durable, i: Input, cleaned: bool)
    requires SR.Inv(d.session) && DrainAgrees(d)
    ensures DrainAgrees(Call(d, i, true, cleaned).next) <==> !RewritesDrain(d.session, i)
  {
    var step := Do(d.session, i);
    var record := Record(d.session, step, i.op);
    if record.Some? {
      LastDrainOf(d.log, record.value);
    }
    if i.op.CloseSession? || Malformed(i.op, i.now).Some? || !Admission(d.session, i.now, i.live).Pass? {
      GateKeepsDrain(d.session, i);
    } else {
      match i.op {
        case DeliverDrainAck(ack) => if DrainAckAnswer(d.session, ack).Some? {} else {}
        case StartDrain(_, _, _, _) =>
        case _ => OthersKeepDrain(d.session, i.now, i.op);
      }
    }
  }

  /** A call whose write fails adds no drain to the store, whatever becomes of the disconnect record. */
  lemma UnstoredDrainStays(d: Durable, i: Input, cleaned: bool)
    ensures var c := Call(d, i, false, cleaned).next;
            && LastDrain(c.log) == LastDrain(d.log)
            && LiveDrain(c.session) == LiveDrain(Do(d.session, i).next)
  {
    var closed := CloseFor(Do(d.session, i).next, ReasonProtocolClosed);
    LastDrainOf(d.log, ClosedEntry(closed));
    assert d.log + [] == d.log;
  }

  /** Whatever the call and whatever the store does, the last durable drain stays the live one, in status and code,
      except exactly when the write succeeds and rewrites it, or fails and the call has moved the drain. */
  lemma DrainAgreesUnlessRewritten(d: Durable, i: Input, stored: bool, cleaned: bool)
    requires SR.Inv(d.session) && DrainAgrees(d)
    ensures DrainAgrees(Call(d, i, stored, cleaned).next)
            <==> !if stored then RewritesDrain(d.session, i) else MovesDrain(d.session, i)
  {
    if stored {
      StoredDrainAgreesIff(d, i, cleaned);
    } else {
      UnstoredDrainStays(d, i, cleaned);
      DrainMovesIff(d.session, i);
    }
  }

  // ---------------------------------------------------------------------------------------------
  // What may be persisted of a refused acknowledgement

  /** With the gate open, the acknowledgements persisted although they are refused are exactly the negative ones that
      take the outstanding offer back. */
  lemma PersistsNegativeAckIff(s: Server, now: Instant, ack: Ack)
    requires SR.Inv(s) && Admission(s, now, true).Pass?
    ensures CanPersistNegativeAck(s, ack) <==>
            ack.Negative() && Withdrawn(s.cfg, Do(s, Input(now, true, DeliverAck(ack))).next.cfg)
  {
    if ack.Valid() && ack.binding == s.Identity() {
      if s.cfg.pendingSnapshot.Some? {
        if ack.Negative() {} else {}
      } else if s.cfg.pendingDelta.Some? {
        if ack.Negative() {} else {}
      }
    }
  }

  /** With the gate open, a drain acknowledgement is answered as a rejection of the drain exactly when it may be
      persisted and the drain has not ended. */
  lemma PersistsNegativeDrainAckIff(s: Server, now: Instant, ack: DrainAck)
    requires Admission(s, now, true).Pass?
    ensures Do(s, Input(now, true, DeliverDrainAck(ack))).out == Err(DrainRejected)
            <==> CanPersistNegativeDrainAck(s, ack) && !s.drain.completed
  {
    if ack.Valid() {
      if DrainAckAnswer(s, ack).Some? {} else {}
    }
  }
}
