/** What every run of a server session keeps. */
module ServerRuns {
  import opened Wrappers
  import opened Protocol
  import opened ServerSpec

  // ---------------------------------------------------------------------------------------------
  // The inductive invariant

  ghost predicate CfgInv(c: Progress) {
    && (c.pendingSnapshot.Some? ==> c.pendingDelta.None? && c.pendingSnapshot.value.config.generation > 0)
    && (c.pendingDelta.Some? ==>
          && c.candidate.None? && c.active.Some?
          && c.pendingDelta.value.previous == c.active.value.config
          && c.pendingDelta.value.config.generation == c.active.value.config.generation + 1)
    && (c.readyGeneration == 0 || c.ActiveReady())
    && (c.active.Some? ==> c.active.value.config.generation > 0)
    && (c.candidate.Some? ==> c.candidate.value.config.generation > 0)
    && (c.state.Ready? || c.state.Draining? ==> c.ActiveReady() && !c.needsSnapshot)
    && (c.state.AwaitingReady? ==> c.candidate.Some?)
    && !c.state.New?
  }

  ghost predicate Inv(s: Server) {
    && CfgInv(s.cfg)
    && (s.cfg.state.Draining? ==> s.drain.request.Some? && s.drain.request.value.config == s.cfg.active.value.config)
    && (s.drain.completed ==> s.drain.request.Some?)
  }

  lemma AcceptEstablishesInv(settings: Settings, now: Instant, hello: Hello, drains: Outcome<bool>,
                             auth: Outcome<AuthResult>, source: Outcome<Snapshot>, sessionId: Outcome<Id>)
    ensures var a := Accept(settings, now, hello, drains, auth, source, sessionId);
            a.Ok? ==> Inv(a.value) && a.value.cfg.pendingSnapshot.Some? && a.value.cfg.active.None?
  {}

  lemma AckSnapshotKeepsInv(c: Progress, ack: Ack)
    requires CfgInv(c) && c.pendingSnapshot.Some?
    ensures var n := AckPendingSnapshot(c, ack).next;
            CfgInv(n) && n.active == c.active && (n.state.Draining? ==> c.state.Draining?)
  {
    if ack.kind.AckSnapshot? && ack.config == c.pendingSnapshot.value.config {
      if ack.Negative() {} else {}
    }
  }

  lemma AckDeltaKeepsInv(c: Progress, identity: Binding, ack: Ack)
    requires CfgInv(c) && c.pendingDelta.Some?
    ensures var n := AckPendingDelta(c, identity, ack).next;
            CfgInv(n) && n.active == c.active && (n.state.Draining? ==> c.state.Draining?)
  {
    if ack.kind.AckDelta? && ack.config == c.pendingDelta.value.config {
      if ack.Negative() {} else {}
    }
  }

  lemma AckKeepsInv(s: Server, ack: Ack)
    requires Inv(s)
    ensures Inv(Moved(s, HandleAck(s, ack)).next)
  {
    if ack.binding == s.Identity() {
      if s.cfg.pendingSnapshot.Some? {
        AckSnapshotKeepsInv(s.cfg, ack);
      } else if s.cfg.pendingDelta.Some? {
        AckDeltaKeepsInv(s.cfg, s.Identity(), ack);
      }
    }
  }

  lemma ReadinessKeepsInv(s: Server, r: Readiness)
    requires Inv(s)
    ensures Inv(Moved(s, HandleReadiness(s, r)).next)
  {
    if ReadinessRefusal(s, r).None? {}
  }

  lemma OfferKeepsInv(s: Server, offer: Snapshot)
    requires Inv(s) && offer.Valid()
    ensures Inv(Moved(s, OfferSnapshot(s, offer)).next)
  {
    if OfferAnswer(s, offer).None? {}
  }

  lemma OfferDeltaKeepsInv(s: Server, delta: Delta)
    requires Inv(s) && delta.Valid()
    ensures Inv(Moved(s, OfferDelta(s, delta)).next)
  {
    if DeltaRefusal(s, delta).None? {}
  }

  lemma HeartbeatKeepsInv(s: Server, now: Instant, beat: Heartbeat)
    requires Inv(s)
    ensures Inv(HandleHeartbeat(s, now, beat).next)
  {}

  lemma DrainKeepsInv(s: Server, drainId: Id, deadline: nat, force: bool, later: Instant)
    requires Inv(s)
    ensures Inv(BeginDrain(s, drainId, deadline, force, later).next)
  {}

  lemma DrainAckKeepsInv(s: Server, ack: DrainAck)
    requires Inv(s)
    ensures Inv(HandleDrainAck(s, ack).next)
  {}

  lemma BodyKeepsInv(s: Server, now: Instant, op: Op)
    requires Inv(s) && Malformed(op, now).None?
    ensures Inv(Body(s, now, op).next)
  {
    match op {
      case DeliverAck(ack) => AckKeepsInv(s, ack);
      case DeliverReadiness(r) => ReadinessKeepsInv(s, r);
      case Offer(offer) => OfferKeepsInv(s, offer);
      case OfferNext(delta) => OfferDeltaKeepsInv(s, delta);
      case DeliverHeartbeat(beat) => HeartbeatKeepsInv(s, now, beat);
      case StartDrain(id, deadline, force, later) => DrainKeepsInv(s, id, deadline, force, later);
      case DeliverDrainAck(ack) => DrainAckKeepsInv(s, ack);
      case _ =>
    }
  }

  lemma StepKeepsInv(s: Server, i: Input)
    requires Inv(s)
    ensures Inv(Do(s, i).next)
  {
    if !i.op.CloseSession? && Malformed(i.op, i.now).None? && Admission(s, i.now, i.live).Pass? {
      BodyKeepsInv(s, i.now, i.op);
    }
  }

  /** Every reachable session state satisfies the invariant. */
  lemma {:induction false} RunKeepsInv(s: Server, inputs: seq<Input>)
    requires Inv(s)
    ensures Inv(Run(s, inputs))
    decreases |inputs|
  {
    if inputs == [] {
    } else {
      StepKeepsInv(s, inputs[0]);
      RunKeepsInv(Do(s, inputs[0]).next, inputs[1..]);
    }
  }

  /** An acknowledgement never reaches the generation-gap branch. */
  lemma AckNeverFindsGap(s: Server, i: Input)
    requires Inv(s) && i.op.DeliverAck?
    ensures Do(s, i).out != Err(GenerationGap)
  {}

  /** The ready flag `Current` reports for the active snapshot. */
  predicate ReportedReady(s: Server) {
    s.cfg.active.Some? && s.cfg.state.Ready? && !s.cfg.needsSnapshot && s.cfg.ActiveReady()
  }

  /** In every reachable state `Current` reports ready exactly when the session state is Ready. */
  lemma CurrentReadyIsStateReady(s: Server, inputs: seq<Input>)
    requires Inv(s)
    ensures ReportedReady(Run(s, inputs)) <==> Run(s, inputs).cfg.state.Ready?
  {
    RunKeepsInv(s, inputs);
  }

  lemma ClosedStep(s: Server, i: Input)
    requires s.cfg.state.Closed?
    ensures Do(s, i).next == s
    ensures Do(s, i).out.Ok? ==> i.op.CloseSession?
  {}

  /** Closed is absorbing: nothing about a closed session changes again. */
  lemma {:induction false} ClosedIsAbsorbing(s: Server, inputs: seq<Input>)
    requires s.cfg.state.Closed?
    ensures Run(s, inputs) == s
    decreases |inputs|
  {
    if inputs == [] {
    } else {
      ClosedStep(s, inputs[0]);
      ClosedIsAbsorbing(s, inputs[1..]);
    }
  }

  // ---------------------------------------------------------------------------------------------
  // Readiness withdrawn by a heartbeat

  /** The acknowledgement answers the offer outstanding in `s`. */
  predicate AnswersOffer(s: Server, ack: Ack) {
    && ack.Valid() && ack.binding == s.Identity()
    && if s.cfg.pendingSnapshot.Some? then ack.kind.AckSnapshot? && ack.config == s.cfg.pendingSnapshot.value.config
       else s.cfg.pendingDelta.Some? && ack.kind.AckDelta? && ack.config == s.cfg.pendingDelta.value.config
  }

  /** The first answer among the inputs to the offer outstanding in `s`. */
  function FirstAnswer(s: Server, inputs: seq<Input>): Option<Ack>
    decreases |inputs|
  {
    if inputs == [] then None
    else if inputs[0].op.DeliverAck? && AnswersOffer(s, inputs[0].op.ack) then Some(inputs[0].op.ack)
    else FirstAnswer(s, inputs[1..])
  }

  /** The configuration whose readiness counts after the inputs: the outstanding offer if its first answer was
      positive, or else the staged configuration, or else the active one. */
  function Awaited(s: Server, inputs: seq<Input>): Config
    requires s.cfg.active.Some?
  {
    var answer := FirstAnswer(s, inputs);
    if answer.Some? && !answer.value.Negative() then answer.value.config
    else if s.cfg.candidate.Some? then s.cfg.candidate.value.config
    else s.cfg.active.value.config
  }

  /** The input is a full readiness for `config` that the gate lets through. */
  predicate ReportsReady(s: Server, i: Input, config: Config) {
    && i.op.DeliverReadiness? && i.op.readiness.Valid() && i.op.readiness.AllReady()
    && i.op.readiness.binding == s.Identity() && i.op.readiness.config == config
    && Admission(s, i.now, i.live).Pass?
  }

  /** An active configuration that is not ready: what a heartbeat for another configuration leaves. */
  predicate Unready(s: Server) { s.cfg.active.Some? && s.cfg.readyGeneration == 0 }

  lemma AwaitedNow(s: Server)
    requires s.cfg.active.Some?
    ensures Awaited(s, []) == if s.cfg.candidate.Some? then s.cfg.candidate.value.config else s.cfg.active.value.config
  {}

  lemma UnreadyAck(s: Server, ack: Ack)
    requires Inv(s) && Unready(s) && ack.Valid()
    ensures var c := HandleAck(s, ack).next;
            && c.readyGeneration == 0 && c.active == s.cfg.active
            && (if AnswersOffer(s, ack) then
                  && c.pendingSnapshot.None? && c.pendingDelta.None?
                  && (if ack.Negative() then c.candidate == s.cfg.candidate
                      else c.candidate.Some? && c.candidate.value.config == ack.config)
                else c == s.cfg)
  {
    if ack.binding == s.Identity() {
      if s.cfg.pendingSnapshot.Some? {
        if ack.Negative() {} else {}
      } else if s.cfg.pendingDelta.Some? {
        if ack.Negative() {} else {}
      }
    }
  }

  /** Without a readiness for the awaited configuration nothing but an answer to the offer changes what is held. */
  lemma UnreadyBody(s: Server, now: Instant, op: Op)
    requires Inv(s) && Unready(s) && !op.Offer? && !op.DeliverAck? && Malformed(op, now).None?
    requires op.DeliverReadiness? ==>
               op.readiness.binding != s.Identity() || !op.readiness.AllReady() || op.readiness.config != Awaited(s, [])
    ensures var t := Body(s, now, op).next;
            && t.cfg.readyGeneration == 0 && t.cfg.active == s.cfg.active && t.cfg.candidate == s.cfg.candidate
            && t.cfg.pendingSnapshot == s.cfg.pendingSnapshot && t.cfg.pendingDelta == s.cfg.pendingDelta
            && t.Identity() == s.Identity()
  {
    match op {
      case DeliverReadiness(r) => assert ReadinessRefusal(s, r).Some?;
      case DeliverHeartbeat(beat) =>
      case OfferNext(delta) => assert DeltaRefusal(s, delta).Some?;
      case StartDrain(_, _, _, _) => assert !s.cfg.ActiveReady();
      case _ =>
    }
  }

  /** What stays the same for `Awaited` when a step neither answers the offer nor reports it ready. */
  ghost predicate SameHeld(s: Server, t: Server) {
    && t.cfg.active == s.cfg.active && t.cfg.candidate == s.cfg.candidate && t.Identity() == s.Identity()
    && t.cfg.pendingSnapshot == s.cfg.pendingSnapshot && t.cfg.pendingDelta == s.cfg.pendingDelta
  }

  lemma {:induction false} SameHeldSameAwaited(s: Server, t: Server, inputs: seq<Input>)
    requires SameHeld(s, t) && s.cfg.active.Some?
    ensures FirstAnswer(t, inputs) == FirstAnswer(s, inputs) && Awaited(t, inputs) == Awaited(s, inputs)
    decreases |inputs|
  {
    if inputs == [] {
    } else {
      SameHeldSameAwaited(s, t, inputs[1..]);
    }
  }

  /** One step from an unready session: closed, or ready exactly on the awaited readiness, or unready and awaiting what
      the rest of the inputs say. */
  lemma UnreadyStep(s: Server, i: Input, rest: seq<Input>)
    requires Inv(s) && Unready(s) && !i.op.Offer?
    ensures var t := Do(s, i).next;
            if ReportsReady(s, i, Awaited(s, [])) then t.cfg.state.Ready?
            else
              && !t.cfg.state.Ready?
              && (t.cfg.state.Closed? || (Unready(t) && Awaited(t, rest) == Awaited(s, [i] + rest)))
  {
    var t := Do(s, i).next;
    StepKeepsInv(s, i);
    if i.op.CloseSession? || !Admission(s, i.now, i.live).Pass? {
      if !t.cfg.state.Closed? { RefusedUnreadyStep(s, i, rest); }
    } else if Malformed(i.op, i.now).Some? {
      RefusedUnreadyStep(s, i, rest);
    } else if i.op.DeliverAck? {
      UnreadyAckStep(s, i, rest);
    } else if ReportsReady(s, i, Awaited(s, [])) {
      assert ReadinessRefusal(s, i.op.readiness).None?;
    } else {
      UnreadyBody(s, i.now, i.op);
      SameHeldSameAwaited(s, t, rest);
      assert ([i] + rest)[1..] == rest;
    }
  }

  lemma RefusedUnreadyStep(s: Server, i: Input, rest: seq<Input>)
    requires Inv(s) && Unready(s) && Malformed(i.op, i.now).Some? && Do(s, i).next == s
    ensures !s.cfg.state.Ready? && Awaited(s, rest) == Awaited(s, [i] + rest)
  {
    assert ([i] + rest)[1..] == rest;
    assert i.op.DeliverAck? ==> !i.op.ack.Valid();
  }

  lemma UnreadyAckStep(s: Server, i: Input, rest: seq<Input>)
    requires Inv(s) && Unready(s) && i.op.DeliverAck? && i.op.ack.Valid() && Admission(s, i.now, i.live).Pass?
    ensures var t := Do(s, i).next;
            Unready(t) && !t.cfg.state.Ready? && Awaited(t, rest) == Awaited(s, [i] + rest)
  {
    var t := Do(s, i).next;
    StepKeepsInv(s, i);
    UnreadyAck(s, i.op.ack);
    assert ([i] + rest)[1..] == rest && ([i] + rest)[0] == i;
    if AnswersOffer(s, i.op.ack) {
      NothingAnswers(t, rest);
    } else {
      SameHeldSameAwaited(s, t, rest);
    }
  }

  lemma {:induction false} NothingAnswers(s: Server, inputs: seq<Input>)
    requires s.cfg.pendingSnapshot.None? && s.cfg.pendingDelta.None?
    ensures FirstAnswer(s, inputs).None?
    decreases |inputs|
  {
    if inputs == [] {
    } else {
      NothingAnswers(s, inputs[1..]);
    }
  }

  /** The session is Ready at some point of the run. */
  ghost predicate BecomesReady(s: Server, inputs: seq<Input>) {
    exists k :: 0 <= k <= |inputs| && Run(s, inputs[..k]).cfg.state.Ready?
  }

  /** Some input of the run is a readiness for what is awaited at its turn. */
  ghost predicate AwaitedArrives(s: Server, inputs: seq<Input>)
    requires s.cfg.active.Some?
  {
    exists k :: 0 <= k < |inputs| && ReportsReady(Run(s, inputs[..k]), inputs[k], Awaited(s, inputs[..k]))
  }

  lemma BecomesReadyCons(s: Server, inputs: seq<Input>)
    requires inputs != [] && !s.cfg.state.Ready?
    ensures BecomesReady(s, inputs) <==> BecomesReady(Do(s, inputs[0]).next, inputs[1..])
  {
    var t := Do(s, inputs[0]).next;
    forall k | 1 <= k <= |inputs| ensures Run(s, inputs[..k]) == Run(t, inputs[1..][..k - 1]) {
      assert inputs[..k][1..] == inputs[1..][..k - 1];
    }
    if BecomesReady(s, inputs) {
      var k :| 0 <= k <= |inputs| && Run(s, inputs[..k]).cfg.state.Ready?;
      assert k > 0;
      assert Run(t, inputs[1..][..k - 1]).cfg.state.Ready?;
    }
    if BecomesReady(t, inputs[1..]) {
      var k :| 0 <= k <= |inputs[1..]| && Run(t, inputs[1..][..k]).cfg.state.Ready?;
      assert Run(s, inputs[..k + 1]).cfg.state.Ready?;
    }
  }

  lemma ClosedNeverReports(s: Server, inputs: seq<Input>)
    requires s.cfg.state.Closed?
    ensures forall k :: 0 <= k <= |inputs| ==> Run(s, inputs[..k]) == s
  {
    forall k | 0 <= k <= |inputs| ensures Run(s, inputs[..k]) == s { ClosedIsAbsorbing(s, inputs[..k]); }
  }

  /** From an active configuration that is not ready, in any run that offers no snapshot, the session becomes Ready
      exactly when a full readiness arrives, the gate open, for what is awaited then: the offer that was outstanding
      if its first answer was positive, or else what was staged, or else the active configuration itself. */
  lemma {:induction false} ReadinessReturnsIff(s: Server, inputs: seq<Input>)
    requires Inv(s) && Unready(s) && forall k :: 0 <= k < |inputs| ==> !inputs[k].op.Offer?
    ensures BecomesReady(s, inputs) <==> AwaitedArrives(s, inputs)
    decreases |inputs|
  {
    if inputs == [] {
      assert Run(s, inputs[..0]) == s;
    } else {
      var i, rest := inputs[0], inputs[1..];
      var t := Do(s, i).next;
      BecomesReadyCons(s, inputs);
      StepKeepsInv(s, i);
      assert inputs[..0] == [];
      UnreadyStep(s, i, []);
      if ReportsReady(s, i, Awaited(s, [])) {
        assert ReportsReady(Run(s, inputs[..0]), inputs[0], Awaited(s, inputs[..0]));
        assert rest[..0] == [];
        assert Run(t, rest[..0]).cfg.state.Ready?;
      } else if t.cfg.state.Closed? {
        ClosedNeverReports(t, rest);
        ArrivesCons(s, inputs);
      } else {
        ReadinessReturnsIff(t, rest);
        ArrivesCons(s, inputs);
      }
    }
  }

  /** The awaited readiness arrives later in the run exactly when it arrives in the rest of it. */
  lemma ArrivesCons(s: Server, inputs: seq<Input>)
    requires Inv(s) && Unready(s) && inputs != [] && !inputs[0].op.Offer? && !ReportsReady(s, inputs[0], Awaited(s, []))
    ensures var t := Do(s, inputs[0]).next;
            if t.cfg.state.Closed? then !AwaitedArrives(s, inputs)
            else t.cfg.active.Some? && (AwaitedArrives(s, inputs) <==> AwaitedArrives(t, inputs[1..]))
  {
    var i, rest := inputs[0], inputs[1..];
    var t := Do(s, i).next;
    UnreadyStep(s, i, []);
    forall k | 1 <= k < |inputs|
      ensures Run(s, inputs[..k]) == Run(t, rest[..k - 1]) && inputs[k] == rest[k - 1]
              && (t.cfg.state.Closed? || Awaited(s, inputs[..k]) == Awaited(t, rest[..k - 1]))
    {
      assert inputs[..k] == [i] + rest[..k - 1] && inputs[..k][1..] == rest[..k - 1];
      UnreadyStep(s, i, rest[..k - 1]);
    }
    if t.cfg.state.Closed? {
      ClosedNeverReports(t, rest);
    }
    if AwaitedArrives(s, inputs) {
      var k :| 0 <= k < |inputs| && ReportsReady(Run(s, inputs[..k]), inputs[k], Awaited(s, inputs[..k]));
      assert inputs[..0] == [];
      assert k > 0;
    }
    if !t.cfg.state.Closed? && AwaitedArrives(t, rest) {
      var k :| 0 <= k < |rest| && ReportsReady(Run(t, rest[..k]), rest[k], Awaited(t, rest[..k]));
      assert ReportsReady(Run(s, inputs[..k + 1]), inputs[k + 1], Awaited(s, inputs[..k + 1]));
    }
  }

  /** A heartbeat for another configuration withdraws readiness and leaves offer, staged and active configuration as
      they were; from there no snapshot is needed to become Ready, and offering the active one transfers nothing. */
  lemma WithdrawnReadinessReturns(s: Server, now: Instant, beat: Heartbeat, inputs: seq<Input>, offer: Snapshot)
    requires Inv(s) && s.cfg.active.Some? && HeartbeatRefusal(s, now, beat).None?
             && beat.applied != s.cfg.active.value.config
    requires forall k :: 0 <= k < |inputs| ==> !inputs[k].op.Offer?
    ensures var w := HandleHeartbeat(s, now, beat).next;
            && w.cfg.needsSnapshot && w.cfg.state.AwaitingSnapshot? && SameHeld(s, w)
            && (BecomesReady(w, inputs) <==> AwaitedArrives(w, inputs))
            && (offer.config == s.cfg.active.value.config ==> OfferSnapshot(w, offer).next == w.cfg)
  {
    var w := HandleHeartbeat(s, now, beat).next;
    assert w.cfg == ReadinessWithdrawn(s.cfg) && Inv(w);
    ReadinessReturnsIff(w, inputs);
    if offer.config == s.cfg.active.value.config { assert OfferAnswer(w, offer).Some?; }
  }

  // ---------------------------------------------------------------------------------------------
  // Drains

  lemma DrainStep(s: Server, i: Input)
    ensures var d := Do(s, i).next.drain;
            && (s.drain.request.Some? ==> d.request == s.drain.request)
            && (s.drain.completed && s.drain.request.Some? ==> d == s.drain)
  {}

  /** Once begun a drain request never changes, its first terminal answer is final under any later
      acknowledgements, and while draining the drained configuration is the active one. */
  lemma {:induction false} DrainIsStable(s: Server, inputs: seq<Input>)
    requires Inv(s)
    ensures var t := Run(s, inputs);
            && (s.drain.request.Some? ==> t.drain.request == s.drain.request)
            && (s.drain.completed ==> t.drain == s.drain)
            && (t.cfg.state.Draining? ==>
                  && t.drain.request.Some? && t.cfg.active.Some?
                  && t.drain.request.value.config == t.cfg.active.value.config)
    decreases |inputs|
  {
    if inputs == [] {
    } else {
      StepKeepsInv(s, inputs[0]);
      DrainStep(s, inputs[0]);
      DrainIsStable(Do(s, inputs[0]).next, inputs[1..]);
    }
  }

  // ---------------------------------------------------------------------------------------------
  // Leases

  ghost predicate LeaseInv(s: Server) {
    && s.lease.lastHeartbeat > 0
    && s.lease.leaseExpiresAt <= s.auth.credentialExpiresAt
    && s.lease.leaseExpiresAt <= s.lease.lastHeartbeat + s.settings.leaseDuration
  }

  lemma AcceptEstablishesLeaseInv(settings: Settings, now: Instant, hello: Hello, drains: Outcome<bool>,
                                  auth: Outcome<AuthResult>, source: Outcome<Snapshot>, sessionId: Outcome<Id>)
    ensures var a := Accept(settings, now, hello, drains, auth, source, sessionId);
            a.Ok? ==> LeaseInv(a.value) && a.value.lease.leaseExpiresAt > now && a.value.lease.lastHeartbeatSentAt == 0
  {}

  lemma LeaseStep(s: Server, i: Input)
    requires LeaseInv(s)
    ensures LeaseInv(Do(s, i).next)
  {}

  /** What a successful operation says about the lease, the credential and the last heartbeat. */
  ghost predicate InTime(s: Server, i: Input) {
    && i.live && !s.cfg.state.Closed?
    && i.now < s.auth.credentialExpiresAt && i.now < s.lease.leaseExpiresAt
    && i.now < s.lease.lastHeartbeat + s.settings.leaseDuration
    && i.now - s.lease.lastHeartbeat <= 2 * s.lease.heartbeatMs * 1_000_000
  }

  lemma SuccessIsInTime(s: Server, i: Input)
    requires LeaseInv(s) && Do(s, i).out.Ok? && !i.op.CloseSession?
    ensures InTime(s, i)
  {}

  /** In every run the lease outlives neither the credential nor the last sign of life plus the lease
      duration, and no operation succeeds once lease, credential or two heartbeat intervals have passed. */
  lemma {:induction false} LeaseIsSafe(s: Server, inputs: seq<Input>)
    requires LeaseInv(s)
    ensures LeaseInv(Run(s, inputs))
    ensures forall k :: 0 <= k < |inputs| && Do(Run(s, inputs[..k]), inputs[k]).out.Ok? && !inputs[k].op.CloseSession?
              ==> InTime(Run(s, inputs[..k]), inputs[k])
    decreases |inputs|
  {
    if inputs == [] {
    } else {
      var next := Do(s, inputs[0]).next;
      LeaseStep(s, inputs[0]);
      LeaseIsSafe(next, inputs[1..]);
      forall k | 0 <= k < |inputs| && Do(Run(s, inputs[..k]), inputs[k]).out.Ok? && !inputs[k].op.CloseSession?
        ensures InTime(Run(s, inputs[..k]), inputs[k])
      {
        if k == 0 {
          SuccessIsInTime(s, inputs[0]);
        } else {
          assert inputs[..k][1..] == inputs[1..][..k - 1] && inputs[1..][k - 1] == inputs[k];
        }
      }
    }
  }

  /** The send times of the heartbeats a run accepts, in order. */
  ghost function AcceptedBeats(s: Server, inputs: seq<Input>): (beats: seq<nat>)
    decreases |inputs|
  {
    if inputs == [] then [] else
      var step := Do(s, inputs[0]);
      (if inputs[0].op.DeliverHeartbeat? && step.out.Ok? then [inputs[0].op.beat.sentAt] else [])
      + AcceptedBeats(step.next, inputs[1..])
  }

  lemma FenceStep(s: Server, i: Input)
    ensures var f, f' := s.lease.lastHeartbeatSentAt, Do(s, i).next.lease.lastHeartbeatSentAt;
            if i.op.DeliverHeartbeat? && Do(s, i).out.Ok? then f' == i.op.beat.sentAt && f' > f else f' == f
  {}

  ghost predicate IncreasingAbove(floor: nat, beats: seq<nat>) {
    && (forall j :: 0 <= j < |beats| ==> floor < beats[j])
    && (forall j, k :: 0 <= j < k < |beats| ==> beats[j] < beats[k])
  }

  /** Accepted heartbeats carry strictly increasing send times, so none is ever accepted twice. */
  lemma {:induction false} HeartbeatsNeverReplay(s: Server, inputs: seq<Input>)
    ensures IncreasingAbove(s.lease.lastHeartbeatSentAt, AcceptedBeats(s, inputs))
    decreases |inputs|
  {
    if inputs == [] {
    } else {
      var step := Do(s, inputs[0]);
      FenceStep(s, inputs[0]);
      var rest := AcceptedBeats(step.next, inputs[1..]);
      HeartbeatsNeverReplay(step.next, inputs[1..]);
      if inputs[0].op.DeliverHeartbeat? && step.out.Ok? {
        assert AcceptedBeats(s, inputs) == [inputs[0].op.beat.sentAt] + rest;
      } else {
        assert AcceptedBeats(s, inputs) == rest;
      }
    }
  }

  lemma SilentStep(s: Server, i: Input)
    requires s.lease.lastHeartbeat > 0 && i.now - s.lease.lastHeartbeat > 2 * s.lease.heartbeatMs * 1_000_000
    ensures Do(s, i).out.Ok? ==> i.op.CloseSession?
    ensures Do(s, i).next.cfg.state.Closed? || Do(s, i).next == s
  {}

  /** A session silent for more than two heartbeat intervals answers nothing again. */
  lemma {:induction false} SilenceIsFinal(s: Server, inputs: seq<Input>, k: nat)
    requires s.lease.lastHeartbeat > 0
    requires forall j :: 0 <= j < |inputs| ==>
             inputs[j].now - s.lease.lastHeartbeat > 2 * s.lease.heartbeatMs * 1_000_000
    requires k < |inputs|
    ensures Do(Run(s, inputs[..k]), inputs[k]).out.Ok? ==> inputs[k].op.CloseSession?
    decreases |inputs|
  {
    SilentStep(s, inputs[0]);
    if k > 0 {
      var next := Do(s, inputs[0]).next;
      assert inputs[..k][1..] == inputs[1..][..k - 1];
      if next.cfg.state.Closed? {
        ClosedIsAbsorbing(next, inputs[1..][..k - 1]);
        ClosedStep(next, inputs[k]);
      } else {
        SilenceIsFinal(next, inputs[1..], k - 1);
      }
    }
  }

  // ---------------------------------------------------------------------------------------------
  // Generations

  /** Held generations are ordered active < candidate < pending snapshot. */
  ghost predicate Ordered(c: Progress) {
    && (c.active.Some? && c.candidate.Some? ==> c.active.value.config.generation < c.candidate.value.config.generation)
    && (c.active.Some? && c.pendingSnapshot.Some? ==>
          c.active.value.config.generation < c.pendingSnapshot.value.config.generation)
    && (c.candidate.Some? && c.pendingSnapshot.Some? ==>
          c.candidate.value.config.generation < c.pendingSnapshot.value.config.generation)
  }

  function ActiveGeneration(c: Progress): nat {
    if c.active.Some? then c.active.value.config.generation else 0
  }

  /** What the caller of `OfferSnapshot` can check: the offer is not older than the staged candidate. */
  predicate Forward(s: Server, op: Op) {
    op.Offer? && s.cfg.candidate.Some? ==> op.snapshot.config.generation >= s.cfg.candidate.value.config.generation
  }

  ghost predicate ForwardRun(s: Server, inputs: seq<Input>)
    decreases |inputs|
  {
    inputs == [] || (Forward(s, inputs[0].op) && ForwardRun(Do(s, inputs[0]).next, inputs[1..]))
  }

  ghost predicate NeverLowers(s: Server, inputs: seq<Input>)
    decreases |inputs|
  {
    inputs == [] ||
    var next := Do(s, inputs[0]).next;
    ActiveGeneration(next.cfg) >= ActiveGeneration(s.cfg) && NeverLowers(next, inputs[1..])
  }

  lemma AckKeepsOrder(s: Server, ack: Ack)
    requires Inv(s) && Ordered(s.cfg)
    ensures var c := HandleAck(s, ack).next; Ordered(c) && c.active == s.cfg.active
  {
    if ack.binding == s.Identity() {
      if s.cfg.pendingSnapshot.Some? {
        AckSnapshotKeepsInv(s.cfg, ack);
      } else if s.cfg.pendingDelta.Some? {
        AckDeltaKeepsInv(s.cfg, s.Identity(), ack);
      }
    }
  }

  lemma OfferKeepsOrder(s: Server, offer: Snapshot)
    requires Inv(s) && Ordered(s.cfg) && Forward(s, Op.Offer(offer))
    ensures var c := OfferSnapshot(s, offer).next; Ordered(c) && c.active == s.cfg.active
  {
    if OfferAnswer(s, offer).None? {}
  }

  lemma BodyKeepsOrder(s: Server, now: Instant, op: Op)
    requires Inv(s) && Ordered(s.cfg) && Forward(s, op)
    ensures var c := Body(s, now, op).next.cfg; Ordered(c) && ActiveGeneration(c) >= ActiveGeneration(s.cfg)
  {
    match op {
      case DeliverAck(ack) => AckKeepsOrder(s, ack);
      case Offer(offer) => OfferKeepsOrder(s, offer);
      case _ =>
    }
  }

  /** The active generation never decreases while no offer is older than the staged candidate. */
  lemma {:induction false} ForwardRunsNeverLower(s: Server, inputs: seq<Input>)
    requires Inv(s) && Ordered(s.cfg) && ForwardRun(s, inputs)
    ensures NeverLowers(s, inputs) && Ordered(Run(s, inputs).cfg)
    decreases |inputs|
  {
    if inputs == [] {
    } else {
      var i := inputs[0];
      if !i.op.CloseSession? && Malformed(i.op, i.now).None? && Admission(s, i.now, i.live).Pass? {
        BodyKeepsOrder(s, i.now, i.op);
      }
      StepKeepsInv(s, i);
      ForwardRunsNeverLower(Do(s, i).next, inputs[1..]);
    }
  }

  /** An open session whose messages pass their own checks at `now`. */
  ghost predicate Responsive(s: Server, now: Instant) {
    && Admission(s, now, true).Pass? && s.Identity().Valid()
    && (s.cfg.candidate.Some? ==> ValidHash(s.cfg.candidate.value.config.hash))
  }

  /** Report the candidate ready, acknowledge the pending snapshot, report that ready. */
  function Overtake(s: Server, now: Instant): seq<Input>
    requires s.cfg.candidate.Some? && s.cfg.pendingSnapshot.Some?
  {
    var first, second := s.cfg.candidate.value.config, s.cfg.pendingSnapshot.value.config;
    [Input(now, true, DeliverReadiness(Readiness(s.Identity(), first, true, true, true))),
     Input(now, true, DeliverAck(Ack(s.Identity(), AckSnapshot, Applied, second, None))),
     Input(now, true, DeliverReadiness(Readiness(s.Identity(), second, true, true, true)))]
  }

  /** A run lowers the active generation at its first step, or later. */
  lemma LowersAt(s: Server, i: Input, rest: seq<Input>)
    requires ActiveGeneration(Do(s, i).next.cfg) < ActiveGeneration(s.cfg) || !NeverLowers(Do(s, i).next, rest)
    ensures !NeverLowers(s, [i] + rest)
  {
    assert ([i] + rest)[1..] == rest;
  }

  lemma NoOffersAreForward(s: Server, inputs: seq<Input>)
    requires forall i :: 0 <= i < |inputs| ==> !inputs[i].op.Offer?
    ensures ForwardRun(s, inputs)
    decreases |inputs|
  {
    if inputs == [] {
    } else {
      NoOffersAreForward(Do(s, inputs[0]).next, inputs[1..]);
    }
  }

  lemma OvertakeLowers(s: Server, now: Instant)
    requires Inv(s) && Responsive(s, now) && s.cfg.candidate.Some? && s.cfg.pendingSnapshot.Some?
    requires ValidHash(s.cfg.pendingSnapshot.value.config.hash)
    requires s.cfg.pendingSnapshot.value.config.generation < s.cfg.candidate.value.config.generation
    ensures ForwardRun(s, Overtake(s, now)) && !NeverLowers(s, Overtake(s, now))
  {
    var run := Overtake(s, now);
    NoOffersAreForward(s, run);
    var s1 := Do(s, run[0]).next;
    assert ReadinessRefusal(s, run[0].op.readiness).None?;
    assert s1.cfg.active == s.cfg.candidate && s1.cfg.pendingSnapshot == s.cfg.pendingSnapshot
           && Admission(s1, now, true).Pass?;
    var s2 := Do(s1, run[1]).next;
    assert s2.cfg.candidate == s.cfg.pendingSnapshot && s2.cfg.active == s.cfg.candidate
           && Admission(s2, now, true).Pass?;
    assert ReadinessRefusal(s2, run[2].op.readiness).None?;
    assert Do(s2, run[2]).next.cfg.active == s.cfg.pendingSnapshot;
    LowersAt(s2, run[2], []);
    LowersAt(s1, run[1], [run[2]] + []);
    LowersAt(s, run[0], [run[1]] + ([run[2]] + []));
    assert run == [run[0]] + ([run[1]] + ([run[2]] + []));
  }

  /** `OfferSnapshot` orders an offer only against the active generation. An accepted offer leaves the
      active generation safe from ever decreasing if and only if it is not older than the candidate. */
  lemma OfferIsSafeIffForward(s: Server, now: Instant, offer: Snapshot)
    requires Inv(s) && Ordered(s.cfg) && Responsive(s, now)
    requires offer.Valid() && OfferAnswer(s, offer).None?
    ensures var t := Do(s, Input(now, true, Op.Offer(offer))).next;
            Forward(s, Op.Offer(offer)) <==> (forall inputs | ForwardRun(t, inputs) :: NeverLowers(t, inputs))
  {
    var i := Input(now, true, Op.Offer(offer));
    var t := Do(s, i).next;
    StepKeepsInv(s, i);
    if Forward(s, Op.Offer(offer)) {
      OfferKeepsOrder(s, offer);
      forall inputs | ForwardRun(t, inputs) ensures NeverLowers(t, inputs) {
        ForwardRunsNeverLower(t, inputs);
      }
    } else {
      assert t.cfg.pendingSnapshot == Some(s.Bind(offer)) && t.cfg.candidate == s.cfg.candidate;
      OvertakeLowers(t, now);
    }
  }
}
