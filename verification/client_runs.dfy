/** What every run of a client session keeps. */
module ClientRuns {
  import opened Wrappers
  import opened Protocol
  import opened ClientSpec

  // ---------------------------------------------------------------------------------------------
  // Generations and staging

  ghost predicate Inv(h: Holding) {
    && (h.candidate.Some? <==> h.prepared.Some?)
    && (h.active.Some? && h.candidate.Some? ==> h.active.value.config.generation < h.candidate.value.config.generation)
    && (h.state.New? ==> h.active.None? && h.candidate.None?)
    && (h.readyGeneration != 0 ==> h.active.Some? && h.readyGeneration == h.active.value.config.generation)
    && (h.state.Ready? ==> h.active.Some? && h.readyGeneration == h.active.value.config.generation && h.candidate.None?)
    && (h.state.AwaitingReady? ==> h.candidate.Some?)
  }

  /** Nothing newer than the active configuration was installed except by promoting the candidate. */
  ghost predicate Advances(h: Holding, h': Holding) {
    h'.active == h.active
    || (h'.active.Some? && h'.active == h.candidate
        && (h.active.Some? ==> h'.active.value.config.generation > h.active.value.config.generation))
  }

  lemma InstallKeepsInv(c: Client, handle: Handle, candidate: Snapshot, kind: AckKind)
    requires Inv(c.hold)
    requires c.hold.active.Some? && c.hold.candidate.None? ==>
               c.hold.active.value.config.generation < candidate.config.generation
    ensures var h := Install(c, handle, candidate, kind).next.hold; Inv(h) && h.active == c.hold.active
  {}

  lemma StageKeepsInv(c: Client, prep: Preparation, rejected: Code, later: Instant, candidate: Snapshot, kind: AckKind)
    requires Inv(c.hold)
    requires c.hold.active.Some? && c.hold.candidate.None? ==>
               c.hold.active.value.config.generation < candidate.config.generation
    ensures var h := Stage(c, prep, rejected, later, candidate, kind).next.hold; Inv(h) && h.active == c.hold.active
  {
    if PreparationRefusal(prep, rejected).Some? {
    } else if !Admission(c, later).Pass? {
    } else {
      InstallKeepsInv(c, prep.handle.value, candidate, kind);
    }
  }

  lemma ApplyKeepsInv(c: Client, now: Instant, op: Op)
    requires Inv(c.hold) && (op.GetSnapshot? || op.GetDelta?)
    ensures var h := Body(c, now, op).next.hold; Inv(h) && h.active == c.hold.active
  {
    match op {
      case GetSnapshot(snapshot, canceled, prep, later) =>
        if SnapshotRefusal(c, snapshot).None?
          && !(Newest(c.hold).Some? && snapshot.config == Newest(c.hold).value.config) {
          StageKeepsInv(c, prep, SnapshotRejected, later, snapshot, AckSnapshot);
        }
      case GetDelta(delta, canceled, prep, later) =>
        if CheckDelta(c, delta).DeltaFits? {
          StageKeepsInv(c, prep, DeltaRejected, later, Snapshot(c.identity, delta.config, delta.payload), AckDelta);
        }
    }
  }

  lemma MarkReadyKeepsInv(c: Client, probe: Probe, canceled: bool, activates: bool, canceledLater: bool, later: Instant)
    requires Inv(c.hold)
    ensures var h := MarkReady(c, probe, canceled, activates, canceledLater, later).next.hold;
            Inv(h) && Advances(c.hold, h)
  {
    if MarkReadyRefusal(c.hold, probe, canceled).None? {
      if !activates {
      } else if !Admission(Noted(c, multiset{Activated(c.hold.prepared.value)}), later).Pass? {
      } else {
      }
    }
  }

  lemma StepKeepsInv(c: Client, i: Input)
    requires Inv(c.hold)
    ensures Inv(Do(c, i).next.hold) && Advances(c.hold, Do(c, i).next.hold)
  {
    if !i.op.CloseSession? && !i.op.Welcomed? && Malformed(i.op, i.now).None? && Admission(c, i.now).Pass? {
      match i.op {
        case GetSnapshot(_, _, _, _) => ApplyKeepsInv(c, i.now, i.op);
        case GetDelta(_, _, _, _) => ApplyKeepsInv(c, i.now, i.op);
        case ReportReady(probe, canceled, activates, canceledLater, later) =>
          MarkReadyKeepsInv(c, probe, canceled, activates, canceledLater, later);
        case _ =>
      }
    }
  }

  /** The step reports readiness: it activated the candidate and has not expired meanwhile. */
  predicate Promotes(c: Client, i: Input) { Do(c, i).out.Ok? && Do(c, i).out.value.Promoted? }

  /** The configurations a run activates, in order. */
  ghost function Activations(c: Client, inputs: seq<Input>): seq<Config>
    decreases |inputs|
  {
    if inputs == [] then [] else
      var step := Do(c, inputs[0]);
      (if Promotes(c, inputs[0]) then [step.out.value.readiness.config] else []) + Activations(step.next, inputs[1..])
  }

  ghost predicate PromotesOrKeeps(c: Client, step: Step) {
    if step.out.Ok? && step.out.value.Promoted? then
      && c.hold.candidate.Some? && step.next.hold.active == c.hold.candidate
      && step.out.value.readiness == Readiness(c.identity, c.hold.candidate.value.config, true, true, true)
    else step.next.hold.active == c.hold.active
  }

  lemma StageKeepsActive(c: Client, prep: Preparation, rejected: Code, later: Instant, candidate: Snapshot,
                         kind: AckKind)
    ensures PromotesOrKeeps(c, Stage(c, prep, rejected, later, candidate, kind))
  {
    if PreparationRefusal(prep, rejected).Some? {} else if !Admission(c, later).Pass? {}
  }

  lemma BodyPromotesOrKeeps(c: Client, now: Instant, op: Op)
    ensures PromotesOrKeeps(c, Body(c, now, op))
  {
    match op {
      case GetSnapshot(s, _, prep, later) => StageKeepsActive(c, prep, SnapshotRejected, later, s, AckSnapshot);
      case GetDelta(d, _, prep, later) =>
        StageKeepsActive(c, prep, DeltaRejected, later, Snapshot(c.identity, d.config, d.payload), AckDelta);
      case ReportReady(_, _, _, _, _) =>
      case _ =>
    }
  }

  lemma PromotionIsActive(c: Client, i: Input)
    ensures PromotesOrKeeps(c, Do(c, i))
  {
    if !i.op.CloseSession? && !i.op.Welcomed? && Malformed(i.op, i.now).None? && Admission(c, i.now).Pass? {
      BodyPromotesOrKeeps(c, i.now, i.op);
    }
  }

  ghost predicate Ascending(floor: Option<Snapshot>, configs: seq<Config>) {
    && (forall j :: 0 <= j < |configs| && floor.Some? ==> floor.value.config.generation < configs[j].generation)
    && (forall j, k :: 0 <= j < k < |configs| ==> configs[j].generation < configs[k].generation)
  }

  lemma {:induction false} RunKeepsInv(c: Client, inputs: seq<Input>)
    requires Inv(c.hold)
    ensures Inv(Run(c, inputs).hold)
    decreases |inputs|
  {
    if inputs == [] {
    } else {
      StepKeepsInv(c, inputs[0]);
      RunKeepsInv(Do(c, inputs[0]).next, inputs[1..]);
    }
  }

  lemma AscendingCons(floor: Option<Snapshot>, first: Snapshot, rest: seq<Config>)
    requires floor.Some? ==> floor.value.config.generation < first.config.generation
    requires Ascending(Some(first), rest)
    ensures Ascending(floor, [first.config] + rest)
  {}

  /** Over every run the active generation strictly increases with each activation. */
  lemma {:induction false} GenerationsAscend(c: Client, inputs: seq<Input>)
    requires Inv(c.hold)
    ensures Ascending(c.hold.active, Activations(c, inputs))
    decreases |inputs|
  {
    if inputs == [] {
    } else {
      var next := Do(c, inputs[0]).next;
      var rest := Activations(next, inputs[1..]);
      StepKeepsInv(c, inputs[0]);
      PromotionIsActive(c, inputs[0]);
      GenerationsAscend(next, inputs[1..]);
      if Promotes(c, inputs[0]) {
        AscendingCons(c.hold.active, c.hold.candidate.value, rest);
        assert Activations(c, inputs) == [c.hold.candidate.value.config] + rest;
      } else {
        assert Activations(c, inputs) == rest;
      }
    }
  }

  /** What is active at the end of a run is what was activated last. */
  lemma {:induction false} ActiveIsLastActivation(c: Client, inputs: seq<Input>)
    ensures var acts := Activations(c, inputs);
            if acts == [] then Run(c, inputs).hold.active == c.hold.active
            else Run(c, inputs).hold.active.Some? && Run(c, inputs).hold.active.value.config == acts[|acts| - 1]
    decreases |inputs|
  {
    if inputs == [] {
    } else {
      PromotionIsActive(c, inputs[0]);
      ActiveIsLastActivation(Do(c, inputs[0]).next, inputs[1..]);
    }
  }

  lemma ClosedStep(c: Client, i: Input)
    requires c.hold.state.Closed?
    ensures Do(c, i).next == c
  {}

  lemma {:induction false} ClosedIsAbsorbing(c: Client, inputs: seq<Input>)
    requires c.hold.state.Closed?
    ensures Run(c, inputs) == c
    decreases |inputs|
  {
    if inputs == [] {
    } else {
      ClosedStep(c, inputs[0]);
      ClosedIsAbsorbing(c, inputs[1..]);
    }
  }

  // ---------------------------------------------------------------------------------------------
  // Prepared configurations are used linearly

  /** The runtime hands out a new handle each time it prepares. */
  predicate FreshHandle(c: Client, op: Op) {
    (op.GetSnapshot? || op.GetDelta?) && op.prep.handle.Some? ==> c.hold.handles[Returned(op.prep.handle.value)] == 0
  }

  ghost predicate FreshRun(c: Client, inputs: seq<Input>)
    decreases |inputs|
  {
    inputs == [] || (FreshHandle(c, inputs[0].op) && FreshRun(Do(c, inputs[0]).next, inputs[1..]))
  }

  predicate StagedHandle(h: Holding, x: Handle) { Staged(h.handles, h.prepared, x) }

  predicate Staged(m: multiset<HandleEvent>, prepared: Option<Handle>, x: Handle) {
    prepared == Some(x) && m[Activated(x)] == 0
  }

  /** Each handle was returned at most once, and what became of it adds up: staged, activated or aborted. */
  ghost predicate Balanced(m: multiset<HandleEvent>, prepared: Option<Handle>, open: bool) {
    && (forall x: Handle :: m[Returned(x)] <= 1)
    && (forall x: Handle {:trigger m[Aborted(x)]} ::
          m[Activated(x)] + m[Aborted(x)] + (if Staged(m, prepared, x) then 1 else 0) == m[Returned(x)])
    && (open && prepared.Some? ==> Staged(m, prepared, prepared.value))
  }

  ghost predicate Accounted(h: Holding) { Balanced(h.handles, h.prepared, !h.state.Closed?) }

  lemma AbortingFresh(m: multiset<HandleEvent>, prepared: Option<Handle>, open: bool, x: Handle)
    requires Balanced(m, prepared, open) && m[Returned(x)] == 0
    ensures Balanced(m + multiset{Returned(x), Aborted(x)}, prepared, open)
  {
    assert m[Aborted(x)] == 0;
  }

  lemma StagingFresh(m: multiset<HandleEvent>, x: Handle)
    requires Balanced(m, None, true) && m[Returned(x)] == 0
    ensures Balanced(m + multiset{Returned(x)}, Some(x), true)
  {
    assert m[Aborted(x)] == 0;
  }

  lemma SettlingStaged(m: multiset<HandleEvent>, x: Handle)
    requires Balanced(m, Some(x), true)
    ensures Balanced(m + multiset{Aborted(x)}, None, true)
    ensures Balanced(m + multiset{Activated(x)}, None, true) && Balanced(m + multiset{Activated(x)}, Some(x), false)
  {
    assert m[Aborted(x)] == 0;
  }

  /** Staging leaves the preparation aborted and the staged handle alone, or stages it where nothing was staged. */
  lemma StageLeaves(c: Client, prep: Preparation, rejected: Code, later: Instant, candidate: Snapshot, kind: AckKind)
    requires Inv(c.hold) && !c.hold.state.Closed?
    ensures var h := Stage(c, prep, rejected, later, candidate, kind).next.hold;
            || (h.handles == c.hold.handles + ReturnedAndAborted(prep.handle) && h.prepared == c.hold.prepared)
            || (prep.handle.Some? && c.hold.prepared.None? && h.prepared == prep.handle
                && h.handles == c.hold.handles + multiset{Returned(prep.handle.value)} && !h.state.Closed?)
  {
    if PreparationRefusal(prep, rejected).Some? {
    } else if !Admission(c, later).Pass? {
    } else if c.hold.candidate.None? {
    }
  }

  lemma StageKeepsAccounts(c: Client, prep: Preparation, rejected: Code, later: Instant, candidate: Snapshot,
                           kind: AckKind)
    requires Inv(c.hold) && Accounted(c.hold) && !c.hold.state.Closed?
    requires prep.handle.Some? ==> c.hold.handles[Returned(prep.handle.value)] == 0
    ensures Accounted(Stage(c, prep, rejected, later, candidate, kind).next.hold)
  {
    var m := c.hold.handles;
    StageLeaves(c, prep, rejected, later, candidate, kind);
    if prep.handle.Some? {
      AbortingFresh(m, c.hold.prepared, true, prep.handle.value);
      if c.hold.prepared.None? { StagingFresh(m, prep.handle.value); }
    } else {
      assert m + multiset{} == m;
    }
  }

  /** Reporting readiness leaves the handles alone, or settles the staged one. */
  lemma MarkReadyLeaves(c: Client, probe: Probe, canceled: bool, activates: bool, canceledLater: bool, later: Instant)
    requires Inv(c.hold) && !c.hold.state.Closed?
    ensures var h := MarkReady(c, probe, canceled, activates, canceledLater, later).next.hold;
            || h == c.hold
            || (c.hold.prepared.Some? && h.handles == c.hold.handles + multiset{Aborted(c.hold.prepared.value)}
                && h.prepared.None?)
            || (c.hold.prepared.Some? && h.handles == c.hold.handles + multiset{Activated(c.hold.prepared.value)}
                && (h.prepared.None? || (h.prepared == c.hold.prepared && h.state.Closed?)))
  {
    if MarkReadyRefusal(c.hold, probe, canceled).None? {
      if !activates {} else if !Admission(Noted(c, multiset{Activated(c.hold.prepared.value)}), later).Pass? {} else {}
    }
  }

  lemma MarkReadyKeepsAccounts(c: Client, probe: Probe, canceled: bool, activates: bool, canceledLater: bool,
                               later: Instant)
    requires Inv(c.hold) && Accounted(c.hold) && !c.hold.state.Closed?
    ensures Accounted(MarkReady(c, probe, canceled, activates, canceledLater, later).next.hold)
  {
    MarkReadyLeaves(c, probe, canceled, activates, canceledLater, later);
    if c.hold.prepared.Some? { SettlingStaged(c.hold.handles, c.hold.prepared.value); }
  }

  lemma ApplyKeepsAccounts(c: Client, now: Instant, op: Op)
    requires Inv(c.hold) && Accounted(c.hold) && !c.hold.state.Closed? && FreshHandle(c, op)
    requires op.GetSnapshot? || op.GetDelta?
    ensures Accounted(Body(c, now, op).next.hold)
  {
    match op {
      case GetSnapshot(snapshot, canceled, prep, later) =>
        StageKeepsAccounts(c, prep, SnapshotRejected, later, snapshot, AckSnapshot);
      case GetDelta(delta, canceled, prep, later) =>
        StageKeepsAccounts(c, prep, DeltaRejected, later, Snapshot(c.identity, delta.config, delta.payload), AckDelta);
    }
  }

  lemma CloseKeepsAccounts(c: Client, reason: Reason)
    requires Accounted(c.hold)
    ensures Accounted(Close(c, reason).hold)
  {
    if !c.hold.state.Closed? {
      if c.hold.prepared.Some? {
        SettlingStaged(c.hold.handles, c.hold.prepared.value);
      } else {
        assert c.hold.handles + multiset{} == c.hold.handles;
      }
    }
  }

  lemma StepKeepsAccounts(c: Client, i: Input)
    requires Inv(c.hold) && Accounted(c.hold) && FreshHandle(c, i.op)
    ensures Accounted(Do(c, i).next.hold)
  {
    if i.op.CloseSession? {
      CloseKeepsAccounts(c, i.op.reason);
    } else if !i.op.Welcomed? && Malformed(i.op, i.now).None? && Admission(c, i.now).Pass? {
      if i.op.GetSnapshot? || i.op.GetDelta? {
        ApplyKeepsAccounts(c, i.now, i.op);
      } else if i.op.ReportReady? {
        MarkReadyKeepsAccounts(c, i.op.probe, i.op.canceled, i.op.activates, i.op.canceledLater, i.op.later);
      }
    }
  }

  /** Over every run no handle is aborted twice, nor both activated and aborted; and while the session is
      open every handle the runtime returned is exactly one of staged, activated or aborted. */
  lemma {:induction false} HandlesAreLinear(c: Client, inputs: seq<Input>, x: Handle)
    requires Inv(c.hold) && Accounted(c.hold) && FreshRun(c, inputs)
    ensures var h := Run(c, inputs).hold;
            && h.handles[Activated(x)] + h.handles[Aborted(x)] <= 1
            && (!h.state.Closed? ==>
                  h.handles[Activated(x)] + h.handles[Aborted(x)] + (if h.prepared == Some(x) then 1 else 0)
                    == h.handles[Returned(x)])
            && (h.handles[Returned(x)] > h.handles[Activated(x)] + h.handles[Aborted(x)] <==> StagedHandle(h, x))
    decreases |inputs|
  {
    if inputs == [] {
      assert c.hold.handles[Aborted(x)] >= 0;
    } else {
      StepKeepsInv(c, inputs[0]);
      StepKeepsAccounts(c, inputs[0]);
      HandlesAreLinear(Do(c, inputs[0]).next, inputs[1..], x);
    }
  }

  /** A session that closes itself has activated its staged handle exactly if it expired during an activation. */
  lemma SelfClosingActivates(c: Client, i: Input, x: Handle)
    requires Inv(c.hold) && !c.hold.state.Closed? && Do(c, i).next.hold.state.Closed? && !i.op.CloseSession?
    ensures var m := Do(c, i).next.hold.handles;
            if i.op.ReportReady? && Admission(c, i.now).Pass? && c.hold.prepared == Some(x) then
              m[Activated(x)] == c.hold.handles[Activated(x)] + 1
            else m[Activated(x)] == c.hold.handles[Activated(x)]
  {
    if !i.op.Welcomed? && Malformed(i.op, i.now).None? && Admission(c, i.now).Pass? {
      match i.op {
        case GetSnapshot(s, _, prep, later) => StageClosingAborts(c, prep, SnapshotRejected, later, s, AckSnapshot, x);
        case GetDelta(d, _, prep, later) =>
          StageClosingAborts(c, prep, DeltaRejected, later, Snapshot(c.identity, d.config, d.payload), AckDelta, x);
        case ReportReady(probe, canceled, activates, canceledLater, later) =>
          MarkReadyClosing(c, probe, canceled, activates, canceledLater, later);
        case _ =>
      }
    }
  }

  lemma StageClosingAborts(c: Client, prep: Preparation, rejected: Code, later: Instant, candidate: Snapshot,
                           kind: AckKind, x: Handle)
    requires Inv(c.hold) && !c.hold.state.Closed?
    ensures var h := Stage(c, prep, rejected, later, candidate, kind).next.hold;
            h.state.Closed? ==> h.handles[Activated(x)] == c.hold.handles[Activated(x)]
  {
    StageLeaves(c, prep, rejected, later, candidate, kind);
  }

  lemma MarkReadyClosing(c: Client, probe: Probe, canceled: bool, activates: bool, canceledLater: bool, later: Instant)
    requires Inv(c.hold) && !c.hold.state.Closed?
    ensures var h := MarkReady(c, probe, canceled, activates, canceledLater, later).next.hold;
            h.state.Closed? ==>
              c.hold.prepared.Some? && h.handles == c.hold.handles + multiset{Activated(c.hold.prepared.value)}
  {
    if MarkReadyRefusal(c.hold, probe, canceled).None? {
      if !activates {} else if !Admission(Noted(c, multiset{Activated(c.hold.prepared.value)}), later).Pass? {} else {}
    }
  }

  /** Exactly when a handle is stranded: an open session that stops being open releases what it staged if it was closed,
      has activated it if it expired during an activation, and keeps it staged, for every later run, otherwise. */
  lemma OnlySelfClosingStrands(c: Client, i: Input, later: seq<Input>, x: Handle)
    requires Inv(c.hold) && !c.hold.state.Closed? && Do(c, i).next.hold.state.Closed?
    ensures StagedHandle(Run(Do(c, i).next, later).hold, x) <==>
              StagedHandle(c.hold, x) && !i.op.CloseSession? && !(i.op.ReportReady? && Admission(c, i.now).Pass?)
  {
    ClosedIsAbsorbing(Do(c, i).next, later);
    SelfClosingKeepsPrepared(c, i);
    if !i.op.CloseSession? { SelfClosingActivates(c, i, x); }
  }

  lemma StageClosingKeepsPrepared(c: Client, prep: Preparation, rejected: Code, later: Instant, candidate: Snapshot,
                                  kind: AckKind)
    requires !c.hold.state.Closed?
    ensures var h := Stage(c, prep, rejected, later, candidate, kind).next.hold;
            h.state.Closed? ==> h.prepared == c.hold.prepared
  {
    if PreparationRefusal(prep, rejected).Some? {
    } else if !Admission(c, later).Pass? {
    } else {
    }
  }

  lemma BodyClosingKeepsPrepared(c: Client, now: Instant, op: Op)
    requires !c.hold.state.Closed?
    ensures var h := Body(c, now, op).next.hold; h.state.Closed? ==> h.prepared == c.hold.prepared
  {
    match op {
      case GetSnapshot(snapshot, _, prep, later) =>
        StageClosingKeepsPrepared(c, prep, SnapshotRejected, later, snapshot, AckSnapshot);
      case GetDelta(delta, _, prep, later) =>
        StageClosingKeepsPrepared(c, prep, DeltaRejected, later, Snapshot(c.identity, delta.config, delta.payload),
                                  AckDelta);
      case _ =>
    }
  }

  lemma SelfClosingKeepsPrepared(c: Client, i: Input)
    requires !c.hold.state.Closed? && Do(c, i).next.hold.state.Closed?
    ensures Do(c, i).next.hold.prepared == if i.op.CloseSession? then None else c.hold.prepared
  {
    if !i.op.CloseSession? && !i.op.Welcomed? && Malformed(i.op, i.now).None? && Admission(c, i.now).Pass? {
      BodyClosingKeepsPrepared(c, i.now, i.op);
    }
  }
}
