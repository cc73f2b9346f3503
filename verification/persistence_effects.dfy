/** What every call on a persistent session writes, and how the store learns that a session has ended. */
module PersistenceEffects {
  import opened Wrappers
  import opened Protocol
  import opened ServerSpec
  import opened PersistenceSpec
  import E = ServerEffects
  import SR = ServerRuns

  // ---------------------------------------------------------------------------------------------
  // What a call writes

  /** The outstanding offer is taken back by a valid negative acknowledgement, whether or not the session is open. */
  predicate TakesBack(s: Server, ack: Ack) {
    ack.Valid() && E.Names(s, ack) && (ack.status.Rejected? || ack.status.FullSnapshotRequired?)
  }

  /** The drain is rejected by a valid acknowledgement, whether or not the session is open. */
  predicate RejectsDrain(s: Server, ack: DrainAck) { ack.Valid() && E.AnswersDrain(s, ack) && ack.status.DrainRefused? }

  predicate AppliesOrRepeats(s: Server, i: Input) {
    && i.op.DeliverAck? && E.Comes(s, i)
    && if E.Names(s, i.op.ack) then i.op.ack.status.Applied? || i.op.ack.status.Duplicate?
       else
         && i.op.ack.binding == s.Identity() && !E.Outstanding(s.cfg) && i.op.ack.status.Duplicate?
         && E.Newest(s.cfg).Some? && i.op.ack.config == E.Newest(s.cfg).value.config
  }

  predicate ReportsNewest(s: Server, i: Input) {
    && i.op.DeliverReadiness? && E.Comes(s, i)
    && var r := i.op.readiness;
       && r.binding == s.Identity() && r.edge && r.route && r.origin
       && E.Newest(s.cfg).Some? && r.config == E.Newest(s.cfg).value.config
  }

  predicate BeatsInTime(s: Server, i: Input) {
    && i.op.DeliverHeartbeat? && E.Comes(s, i) && E.Timely(s, i.now, i.op.beat)
    && i.op.beat.applied == E.Due(s.cfg).value.config
  }

  predicate RenewsNow(s: Server, i: Input) {
    i.op.EndRenewal? && E.Comes(s, i) && i.op.ticket.expected == s.auth && i.op.ticket.ref == s.ref
  }

  predicate DrainsNow(s: Server, i: Input) {
    && i.op.StartDrain? && E.Comes(s, i) && s.canDrain
    && if s.drain.request.Some? then s.drain.request.value.drainId == i.op.drainId
       else
         && s.cfg.state.Ready? && s.cfg.active.Some? && ValidIdentifier(i.op.drainId) && s.Identity().Valid()
         && ValidHash(s.cfg.active.value.config.hash) && i.op.later < i.op.deadline <= i.op.later + MAX_LEASE
  }

  predicate AcknowledgesDrain(s: Server, i: Input) {
    && i.op.DeliverDrainAck? && E.Comes(s, i) && E.AnswersDrain(s, i.op.drainAck)
    && if s.drain.completed then i.op.drainAck.status == s.drain.status && i.op.drainAck.code == s.drain.code
       else !i.op.drainAck.status.DrainRefused?
  }

  /** The lease check finds the session closed, or too late. */
  predicate FindsEnded(s: Server, i: Input) { s.cfg.state.Closed? || !E.Open(s, i.now, i.live) }

  /** The call has something to write: what it achieved, a negative answer that concerns the session, or its end. */
  predicate Writes(s: Server, i: Input) {
    match i.op
    case DeliverAck(ack) => AppliesOrRepeats(s, i) || TakesBack(s, ack)
    case DeliverReadiness(_) => ReportsNewest(s, i)
    case DeliverHeartbeat(_) => BeatsInTime(s, i)
    case EndRenewal(_, _) => RenewsNow(s, i)
    case StartDrain(_, _, _, _) => DrainsNow(s, i)
    case DeliverDrainAck(ack) => AcknowledgesDrain(s, i) || RejectsDrain(s, ack)
    case CloseSession(_) => true
    case CheckLease => FindsEnded(s, i)
    case _ => false
  }

  /** What is written of the achievement or answer, in terms of the message and the session after the call. */
  predicate Tells(s: Server, t: Server, i: Input, e: Entry) {
    match i.op
    case DeliverAck(ack) => e == AppliedEntry(ack)
    case DeliverReadiness(r) => e == ReadyEntry(r)
    case DeliverHeartbeat(beat) => e == BeatEntry(beat, HeartbeatAck(s.Identity(), t.lease.leaseExpiresAt, i.now))
    case EndRenewal(_, _) => e == RenewalEntry(t.auth)
    case StartDrain(_, _, _, _) =>
      t.drain.request.Some? && e == DrainEntry(t.drain.request.value, DrainAccepted, 0, None)
    case DeliverDrainAck(ack) =>
      s.drain.request.Some? && e == DrainEntry(s.drain.request.value, ack.status, ack.activeStreams, ack.code)
    case CloseSession(_) => t.disconnectReason.Some? && e == Disconnected(t.disconnectReason.value)
    case CheckLease => t.disconnectReason.Some? && e == Disconnected(t.disconnectReason.value)
    case _ => false
  }

  /** A closed session has a reason. */
  predicate Named(s: Server) { s.cfg.state.Closed? ==> s.disconnectReason.Some? }

  lemma StepKeepsNamed(s: Server, i: Input)
    requires Named(s)
    ensures Named(Do(s, i).next)
  {
    if s.cfg.state.Closed? {
      SR.ClosedStep(s, i);
    } else {
      E.ClosesIff(s, i);
    }
  }

  /** The call writes exactly when it has something to write, and what it then tells. */
  ghost predicate WritesWhatItTells(s: Server, i: Input) {
    var step := Do(s, i);
    var r := Record(s, step, i.op);
    (r.Some? <==> Writes(s, i)) && (r.Some? ==> Tells(s, step.next, i, r.value))
  }

  lemma AckWrites(s: Server, i: Input)
    requires SR.Inv(s) && i.op.DeliverAck?
    ensures WritesWhatItTells(s, i)
  {
    E.AckEffect(s, i);
    assert CanPersistNegativeAck(s, i.op.ack) <==> TakesBack(s, i.op.ack);
  }

  lemma DrainWrites(s: Server, i: Input)
    requires SR.Inv(s) && (i.op.StartDrain? || i.op.DeliverDrainAck?)
    ensures WritesWhatItTells(s, i)
  {
    if i.op.StartDrain? {
      E.StartDrainEffect(s, i);
    } else {
      E.DrainAckEffect(s, i);
    }
  }

  lemma WritesIff(s: Server, i: Input)
    requires SR.Inv(s) && Named(s)
    ensures WritesWhatItTells(s, i)
  {
    StepKeepsNamed(s, i);
    match i.op {
      case DeliverAck(_) => AckWrites(s, i);
      case DeliverReadiness(_) => E.ReadinessEffect(s, i);
      case DeliverHeartbeat(_) => E.HeartbeatEffect(s, i);
      case EndRenewal(_, _) => E.EndRenewalEffect(s, i);
      case StartDrain(_, _, _, _) => DrainWrites(s, i);
      case DeliverDrainAck(_) => DrainWrites(s, i);
      case CloseSession(_) =>
      case CheckLease => E.RefusedUnlessComes(s, i);
      case _ =>
    }
  }

  /** A stored call appends exactly what it tells. One whose write fails closes the session, unless it only checked the
      lease or was closing anyway, and then appends nothing but, if that write succeeds, the end of the session. */
  lemma CallEffect(d: Durable, r: Request)
    requires SR.Inv(d.session) && Named(d.session)
    ensures var s, t, d' := d.session, Do(d.session, r.input).next, Call(d, r.input, r.stored, r.cleaned).next;
            if !Writes(s, r.input) then d' == Durable(t, d.log)
            else if r.stored then
              && d'.session == t && |d'.log| == |d.log| + 1 && d'.log[..|d.log|] == d.log
              && Tells(s, t, r.input, d'.log[|d.log|])
            else if r.input.op.CheckLease? || r.input.op.CloseSession? then d' == Durable(t, d.log)
            else
              && d'.session.cfg.state.Closed? && d'.session.disconnectReason.Some?
              && d'.session == (if t.cfg.state.Closed? then t
                                else t.(cfg := t.cfg.(state := Closed), disconnectReason := Some(ReasonProtocolClosed)))
              && d'.log == d.log + if r.cleaned then [Disconnected(d'.session.disconnectReason.value)] else []
    ensures Call(d, r.input, r.stored, r.cleaned).out
            == if Writes(d.session, r.input) && !r.stored && !r.input.op.CheckLease? then Err(SessionConflict)
               else Do(d.session, r.input).out
  {
    WritesIff(d.session, r.input);
    StepKeepsNamed(d.session, r.input);
  }

  /** A session is handed out exactly when its creation is stored, with its lease and credential; otherwise it is closed
      and nothing is written. */
  lemma OpenedEffect(accepted: Server, log: seq<Entry>, stored: bool)
    requires !accepted.cfg.state.Closed?
    ensures var c := Opened(accepted, log, stored);
            if stored then
              && c.out == Ok(Done) && c.next.session == accepted
              && c.next.log
                 == log + [Created(accepted.ref, accepted.lease.leaseExpiresAt, accepted.auth.credentialGeneration)]
            else
              && c.out.Err? && c.next.log == log && c.next.session.cfg.state.Closed?
              && c.next.session.disconnectReason == Some(ReasonProtocolClosed)
  {}

  // ---------------------------------------------------------------------------------------------
  // How the store learns of the end

  /** The call records that the session has ended: a stored close, a stored lease check that finds it ended, or a failed
      write whose cleanup succeeds. */
  predicate RecordsEnd(d: Durable, r: Request) {
    && Writes(d.session, r.input)
    && if r.input.op.CloseSession? || r.input.op.CheckLease? then r.stored else !r.stored && r.cleaned
  }

  /** A call that records the end leaves the session closed and its own reason as the last entry; no other call adds an
      end to the log. */
  lemma EndEffect(d: Durable, r: Request)
    requires SR.Inv(d.session) && Named(d.session)
    ensures var d' := Call(d, r.input, r.stored, r.cleaned).next;
            if RecordsEnd(d, r) then
              && d'.session.cfg.state.Closed? && d'.session.disconnectReason.Some?
              && d'.log == d.log + [Disconnected(d'.session.disconnectReason.value)]
            else d'.log == d.log || (d'.log == d.log + [d'.log[|d.log|]] && !d'.log[|d.log|].Disconnected?)
  {
    var s, t, d' := d.session, Do(d.session, r.input).next, Call(d, r.input, r.stored, r.cleaned).next;
    CallEffect(d, r);
    StepKeepsNamed(s, r.input);
    if Writes(s, r.input) && r.stored {
      assert d'.log == d'.log[..|d.log|] + [d'.log[|d.log|]];
      if r.input.op.CloseSession? || r.input.op.CheckLease? { EndIsClosed(s, r.input); }
    }
  }

  lemma EndIsClosed(s: Server, i: Input)
    requires Writes(s, i) && (i.op.CloseSession? || i.op.CheckLease?)
    ensures Do(s, i).next.cfg.state.Closed?
  {
    if s.cfg.state.Closed? {
      SR.ClosedStep(s, i);
    } else {
      E.ClosesIff(s, i);
    }
  }

  predicate EndRecorded(log: seq<Entry>) { exists e :: e in log && e.Disconnected? }

  /** Every end in the log is the end of this session, for the reason it has. */
  predicate Truthful(d: Durable) {
    forall e :: e in d.log && e.Disconnected? ==>
      d.session.cfg.state.Closed? && d.session.disconnectReason == Some(e.reason)
  }

  /** Some call of the run records the end. */
  predicate EndsIn(d: Durable, calls: seq<Request>)
    decreases |calls|
  {
    calls != [] && (RecordsEnd(d, calls[0])
                    || EndsIn(Call(d, calls[0].input, calls[0].stored, calls[0].cleaned).next, calls[1..]))
  }

  lemma CallKeepsTruth(d: Durable, r: Request)
    requires SR.Inv(d.session) && Named(d.session) && Truthful(d)
    ensures var d' := Call(d, r.input, r.stored, r.cleaned).next;
            && SR.Inv(d'.session) && Named(d'.session) && Truthful(d')
            && (EndRecorded(d'.log) <==> EndRecorded(d.log) || RecordsEnd(d, r))
  {
    var s, t, d' := d.session, Do(d.session, r.input).next, Call(d, r.input, r.stored, r.cleaned).next;
    SR.StepKeepsInv(s, r.input);
    StepKeepsNamed(s, r.input);
    CallEffect(d, r);
    EndEffect(d, r);
    if s.cfg.state.Closed? {
      SR.ClosedStep(s, r.input);
    }
    if RecordsEnd(d, r) {
      assert d'.log[|d.log|] in d'.log;
    }
    forall e | e in d.log ensures e in d'.log {}
  }

  /** In every run, the store says that the session has ended exactly when some call recorded that, and whatever end it
      says is the session's own: it is closed, for that reason. */
  lemma {:induction false} EndIsRecordedIff(d: Durable, calls: seq<Request>)
    requires SR.Inv(d.session) && Named(d.session) && Truthful(d)
    ensures var d' := PersistenceSpec.Run(d, calls);
            && Truthful(d') && Named(d'.session) && SR.Inv(d'.session)
            && (EndRecorded(d'.log) <==> EndRecorded(d.log) || EndsIn(d, calls))
    decreases |calls|
  {
    if calls == [] {
    } else {
      CallKeepsTruth(d, calls[0]);
      EndIsRecordedIff(Call(d, calls[0].input, calls[0].stored, calls[0].cleaned).next, calls[1..]);
    }
  }

  lemma {:induction false} RunAppends(d: Durable, first: seq<Request>, second: seq<Request>)
    ensures PersistenceSpec.Run(d, first + second) == PersistenceSpec.Run(PersistenceSpec.Run(d, first), second)
    decreases |first|
  {
    if first == [] {
      assert first + second == second;
    } else {
      assert (first + second)[1..] == first[1..] + second;
      RunAppends(Call(d, first[0].input, first[0].stored, first[0].cleaned).next, first[1..], second);
    }
  }

  /** After any run, a last call that records the end leaves the session's reason as the last entry of the log. */
  lemma EndIsLast(d: Durable, calls: seq<Request>, r: Request)
    requires SR.Inv(d.session) && Named(d.session) && Truthful(d) && RecordsEnd(PersistenceSpec.Run(d, calls), r)
    ensures var d' := PersistenceSpec.Run(d, calls + [r]);
            && d'.session.cfg.state.Closed? && d'.session.disconnectReason.Some?
            && d'.log == PersistenceSpec.Run(d, calls).log + [Disconnected(d'.session.disconnectReason.value)]
  {
    EndIsRecordedIff(d, calls);
    RunAppends(d, calls, [r]);
    assert [r][1..] == [];
    EndEffect(PersistenceSpec.Run(d, calls), r);
  }

  // ---------------------------------------------------------------------------------------------
  // What is still written once a session is closed

  /** The negative answers that are written even of a closed session. */
  predicate WrittenLate(s: Server, i: Input) {
    (i.op.DeliverAck? && TakesBack(s, i.op.ack)) || (i.op.DeliverDrainAck? && RejectsDrain(s, i.op.drainAck))
  }

  /** A closed session never changes, and nothing is written of it but its end and negative answers to the offer and the
      drain it was left with. */
  lemma ClosedCallEffect(d: Durable, r: Request)
    requires SR.Inv(d.session) && Named(d.session) && d.session.cfg.state.Closed?
    ensures var i, d' := r.input, Call(d, r.input, r.stored, r.cleaned).next;
            var end := Disconnected(d.session.disconnectReason.value);
            && d'.session == d.session
            && d'.log == d.log
                         + if i.op.CloseSession? || i.op.CheckLease? then (if r.stored then [end] else [])
                           else if !WrittenLate(d.session, i) then []
                           else if !r.stored then (if r.cleaned then [end] else [])
                           else if i.op.DeliverAck? then [AppliedEntry(i.op.ack)]
                           else [DrainEntry(d.session.drain.request.value, i.op.drainAck.status,
                                            i.op.drainAck.activeStreams,
                                            i.op.drainAck.code)]
  {
    var d' := Call(d, r.input, r.stored, r.cleaned).next;
    SR.ClosedStep(d.session, r.input);
    CallEffect(d, r);
    ClosedWritesIff(d.session, r.input);
    if Writes(d.session, r.input) && r.stored {
      assert d'.log == d'.log[..|d.log|] + [d'.log[|d.log|]];
    }
  }

  lemma ClosedWritesIff(s: Server, i: Input)
    requires s.cfg.state.Closed?
    ensures Writes(s, i) <==> i.op.CloseSession? || i.op.CheckLease? || WrittenLate(s, i)
  {}
}
