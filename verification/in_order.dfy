/** A server session and a client session joined by one in-order, loss-free channel each way. The server offers
    its first snapshot and then deltas; the client queues every message in the step that creates it. */
module InOrder {
  import opened Wrappers
  import opened Protocol
  import S = ServerSpec
  import C = ClientSpec
  import SR = ServerRuns
  import CR = ClientRuns

  datatype Down = DownSnapshot(snapshot: Snapshot) | DownDelta(delta: Delta) {
    function Config(): Config { if DownSnapshot? then snapshot.config else delta.config }
  }

  datatype Up = UpAck(ack: Ack) | UpReady(readiness: Readiness) | UpBeat(beat: Heartbeat)

  datatype Link = Link(server: S.Server, client: C.Client, down: seq<Down>, up: seq<Up>)

  datatype Action =
    | ServerTakes(now: Instant, live: bool)
    | ServerOffers(now: Instant, live: bool, delta: Delta)
    | ServerElse(server: S.Input)
    | ClientTakes(now: Instant, canceled: bool, prep: C.Preparation, later: Instant, rejects: bool, code: Code)
    | ClientElse(client: C.Input)

  /** Operations of the server that neither offer nor consume a queued message. */
  predicate Aside(op: S.Op) {
    op.StartDrain? || op.DeliverDrainAck? || op.StartRenewal? || op.EndRenewal? || op.CheckLease? || op.CloseSession?
  }

  predicate Allowed(l: Link, a: Action) {
    match a
    case ServerElse(i) => Aside(i.op)
    case ClientElse(i) => !i.op.GetSnapshot? && !i.op.GetDelta?
    case _ => true
  }

  function Delivery(m: Up): S.Op {
    match m
    case UpAck(ack) => S.DeliverAck(ack)
    case UpReady(r) => S.DeliverReadiness(r)
    case UpBeat(beat) => S.DeliverHeartbeat(beat)
  }

  function Receipt(m: Down, canceled: bool, prep: C.Preparation, later: Instant): C.Op {
    match m
    case DownSnapshot(s) => C.GetSnapshot(s, canceled, prep, later)
    case DownDelta(d) => C.GetDelta(d, canceled, prep, later)
  }

  /** What an apply sends back: the acknowledgement it returned, or a rejection if it failed without one and the
      client chooses to report that. */
  function Answer(c: C.Client, m: Down, step: C.Step, rejects: bool, code: Code): seq<Up> {
    if step.ack.Some? then [UpAck(step.ack.value)]
    else if step.out.Err? && rejects then
      [UpAck(C.RejectionAck(c, if m.DownSnapshot? then AckSnapshot else AckDelta, m.Config(), code))]
    else []
  }

  function Sent(out: Outcome<C.Reply>): seq<Up> {
    if out.Ok? && out.value.Promoted? then [UpReady(out.value.readiness)]
    else if out.Ok? && out.value.Beat? then [UpBeat(out.value.beat)]
    else []
  }

  function Next(l: Link, a: Action): Link {
    match a
    case ServerTakes(now, live) =>
      if l.up == [] then l
      else l.(server := S.Do(l.server, S.Input(now, live, Delivery(l.up[0]))).next, up := l.up[1..])
    case ServerOffers(now, live, delta) =>
      var step := S.Do(l.server, S.Input(now, live, S.OfferNext(delta)));
      l.(server := step.next,
         down := l.down + if step.out.Ok? && step.next.cfg.pendingDelta.Some?
                          then [DownDelta(step.next.cfg.pendingDelta.value)]
                          else [])
    case ServerElse(i) => l.(server := S.Do(l.server, i).next)
    case ClientTakes(now, canceled, prep, later, rejects, code) =>
      if l.down == [] then l
      else
        var step := C.Do(l.client, C.Input(now, Receipt(l.down[0], canceled, prep, later)));
        l.(client := step.next, down := l.down[1..], up := l.up + Answer(l.client, l.down[0], step, rejects, code))
    case ClientElse(i) =>
      var step := C.Do(l.client, i);
      l.(client := step.next, up := l.up + Sent(step.out))
  }

  function Run(l: Link, actions: seq<Action>): Link
    decreases |actions|
  {
    if actions == [] then l else Run(Next(l, actions[0]), actions[1..])
  }

  ghost predicate AllowedRun(l: Link, actions: seq<Action>)
    decreases |actions|
  {
    actions == [] || (Allowed(l, actions[0]) && AllowedRun(Next(l, actions[0]), actions[1..]))
  }

  // ---------------------------------------------------------------------------------------------
  // What the queued messages will make of the server

  /** The configurations a server or a client holds. */
  datatype View = View(active: Option<Config>, candidate: Option<Config>, snapshot: Option<Config>,
                       delta: Option<Config>)

  function Of(held: Option<Snapshot>): Option<Config> { if held.Some? then Some(held.value.config) else None }

  function ViewOf(c: S.Progress): View {
    View(Of(c.active), Of(c.candidate), Of(c.pendingSnapshot),
         if c.pendingDelta.Some? then Some(c.pendingDelta.value.config) else None)
  }

  function Expected(v: View): Option<Config> {
    if v.active.Some? then v.active else if v.candidate.Some? then v.candidate else v.snapshot
  }

  function After(v: View, m: Up): View {
    match m
    case UpBeat(_) => v
    case UpReady(r) => v.(active := Some(r.config), candidate := None)
    case UpAck(ack) =>
      v.(candidate := if ack.Negative() then v.candidate else Some(ack.config), snapshot := None, delta := None)
  }

  /** The message is one the server, when it gets to it, will accept for the configurations it holds then. */
  predicate Fits(id: Binding, v: View, m: Up) {
    match m
    case UpBeat(beat) => Expected(v) == Some(beat.applied)
    case UpReady(r) => r.Valid() && r.binding == id && r.AllReady() && v.candidate == Some(r.config)
    case UpAck(ack) =>
      && ack.Valid() && ack.binding == id
      && (v.snapshot.Some? ==> ack.kind.AckSnapshot? && v.snapshot == Some(ack.config))
      && (v.snapshot.None? ==> ack.kind.AckDelta? && v.delta == Some(ack.config))
  }

  function Finally(v: View, up: seq<Up>): View
    decreases |up|
  {
    if up == [] then v else Finally(After(v, up[0]), up[1..])
  }

  ghost predicate AllFit(id: Binding, v: View, up: seq<Up>)
    decreases |up|
  {
    up == [] || (Fits(id, v, up[0]) && AllFit(id, After(v, up[0]), up[1..]))
  }

  lemma {:induction false} QueueUp(id: Binding, v: View, up: seq<Up>, m: Up)
    requires AllFit(id, v, up)
    ensures Finally(v, up + [m]) == After(Finally(v, up), m)
    ensures Fits(id, Finally(v, up), m) ==> AllFit(id, v, up + [m])
    decreases |up|
  {
    if up == [] {
      assert (up + [m])[1..] == [];
    } else {
      assert (up + [m])[1..] == up[1..] + [m];
      QueueUp(id, After(v, up[0]), up[1..], m);
    }
  }

  /** With nothing pending and nothing staged, only heartbeats can be queued. */
  lemma {:induction false} OnlyBeats(id: Binding, v: View, v': View, up: seq<Up>)
    requires AllFit(id, v, up) && v.candidate.None? && v.snapshot.None? && v.delta.None?
    requires v' == v.(delta := v'.delta)
    ensures Finally(v, up) == v && Finally(v', up) == v' && AllFit(id, v', up)
    decreases |up|
  {
    if up == [] {
    } else {
      OnlyBeats(id, v, v', up[1..]);
    }
  }

  /** The first snapshot is answered before anything else is held or offered. */
  predicate SnapshotFirst(v: View) {
    v.snapshot.Some? ==> v.active.None? && v.candidate.None? && v.delta.None?
  }

  lemma {:induction false} SnapshotStaysFirst(id: Binding, v: View, up: seq<Up>)
    requires AllFit(id, v, up) && SnapshotFirst(v)
    ensures SnapshotFirst(Finally(v, up))
    decreases |up|
  {
    if up == [] {
    } else {
      SnapshotStaysFirst(id, After(v, up[0]), up[1..]);
    }
  }

  // ---------------------------------------------------------------------------------------------
  // The invariant

  predicate SoundConfig(c: Option<Config>) { c.Some? ==> c.value.generation != 0 && ValidHash(c.value.hash) }
  predicate SoundView(v: View) {
    SoundConfig(v.active) && SoundConfig(v.candidate) && SoundConfig(v.snapshot) && SoundConfig(v.delta)
  }

  /** How the client stands to the server once every queued message has been handled. */
  ghost predicate Settled(v: View, h: C.Holding, down: seq<Down>) {
    && SoundView(v)
    && Of(h.active) == v.active
    && (h.candidate.Some? ==> Of(h.candidate) == v.candidate && down == [])
    && |down| <= 1
    && (down != [] ==> if down[0].DownSnapshot? then v.snapshot == Some(down[0].Config())
                       else v.snapshot.None? && v.delta == Some(down[0].Config()))
  }

  ghost predicate Inv(l: Link) {
    l.server.cfg.state.Closed? ||
    (&& SR.Inv(l.server) && CR.Inv(l.client.hold)
     && l.server.Identity().Valid() && l.client.identity == l.server.Identity() && !l.client.hold.state.New?
     && SnapshotFirst(ViewOf(l.server.cfg))
     && AllFit(l.server.Identity(), ViewOf(l.server.cfg), l.up)
     && Settled(Finally(ViewOf(l.server.cfg), l.up), l.client.hold, l.down))
  }

  /** A session just accepted, its snapshot under way, and a client just welcomed. */
  ghost predicate Initial(l: Link) {
    && SR.Inv(l.server) && l.server.Identity().Valid()
    && l.server.cfg.active.None? && l.server.cfg.candidate.None? && l.server.cfg.pendingSnapshot.Some?
    && SoundConfig(Of(l.server.cfg.pendingSnapshot))
    && l.client.identity == l.server.Identity() && l.client.hold.state.AwaitingSnapshot?
    && l.client.hold.active.None? && l.client.hold.candidate.None? && CR.Inv(l.client.hold)
    && l.down == [DownSnapshot(l.server.cfg.pendingSnapshot.value)] && l.up == []
  }

  // ---------------------------------------------------------------------------------------------
  // The server's steps

  lemma TakesAck(s: S.Server, ack: Ack)
    requires SR.Inv(s) && Fits(s.Identity(), ViewOf(s.cfg), UpAck(ack))
    ensures ViewOf(S.HandleAck(s, ack).next) == After(ViewOf(s.cfg), UpAck(ack))
  {
    if s.cfg.pendingSnapshot.Some? {
      if ack.Negative() {} else {}
    } else {
      if ack.Negative() {} else {}
    }
  }

  lemma TakesReadiness(s: S.Server, r: Readiness)
    requires Fits(s.Identity(), ViewOf(s.cfg), UpReady(r))
    ensures ViewOf(S.HandleReadiness(s, r).next) == After(ViewOf(s.cfg), UpReady(r))
  {
    assert S.ReadinessRefusal(s, r).None?;
  }

  lemma TakesBeat(s: S.Server, now: Instant, beat: Heartbeat)
    requires Fits(s.Identity(), ViewOf(s.cfg), UpBeat(beat))
    ensures S.HandleHeartbeat(s, now, beat).next.cfg == s.cfg
    ensures S.HandleHeartbeat(s, now, beat).out != Err(SnapshotRequired)
  {
    assert S.Expected(s.cfg).Some? && S.Expected(s.cfg).value.config == beat.applied;
  }

  lemma IdentityStays(s: S.Server, i: S.Input)
    requires !S.Do(s, i).next.cfg.state.Closed?
    ensures S.Do(s, i).next.Identity() == s.Identity()
  {}

  /** A queued message meets the server it was written for. */
  lemma ServerTakesFits(s: S.Server, now: Instant, live: bool, m: Up)
    requires SR.Inv(s) && !s.cfg.state.Closed? && Fits(s.Identity(), ViewOf(s.cfg), m)
    ensures var step := S.Do(s, S.Input(now, live, Delivery(m)));
            && (step.next.cfg.state.Closed? || ViewOf(step.next.cfg) == After(ViewOf(s.cfg), m))
            && (m.UpBeat? ==> step.out != Err(SnapshotRequired))
  {
    match m {
      case UpAck(ack) => TakesAck(s, ack);
      case UpReady(r) => TakesReadiness(s, r);
      case UpBeat(beat) => TakesBeat(s, now, beat);
    }
  }

  lemma AsideKeepsView(s: S.Server, i: S.Input)
    requires Aside(i.op)
    ensures ViewOf(S.Do(s, i).next.cfg) == ViewOf(s.cfg)
  {}

  lemma OfferIsPending(s: S.Server, i: S.Input)
    requires SR.Inv(s) && i.op.OfferNext? && !S.Do(s, i).next.cfg.state.Closed?
    ensures var step := S.Do(s, i);
            var c := step.next.cfg;
            if step.out.Ok? then
              && s.cfg.candidate.None? && s.cfg.pendingSnapshot.None? && s.cfg.pendingDelta.None?
              && c.pendingDelta.Some? && c == s.cfg.(pendingDelta := c.pendingDelta)
              && ValidHash(c.pendingDelta.value.config.hash) && c.pendingDelta.value.config.generation != 0
            else c == s.cfg
  {}

  lemma NextByServer(l: Link, a: Action)
    requires Inv(l) && Allowed(l, a) && (a.ServerTakes? || a.ServerElse? || a.ServerOffers?)
    ensures Inv(Next(l, a))
  {
    if l.server.cfg.state.Closed? {
      match a {
        case ServerTakes(now, live) => if l.up != [] { SR.ClosedStep(l.server, S.Input(now, live, Delivery(l.up[0]))); }
        case ServerOffers(now, live, delta) => SR.ClosedStep(l.server, S.Input(now, live, S.OfferNext(delta)));
        case ServerElse(i) => SR.ClosedStep(l.server, i);
      }
    } else {
      match a {
        case ServerTakes(now, live) =>
          if l.up != [] {
            var i := S.Input(now, live, Delivery(l.up[0]));
            SR.StepKeepsInv(l.server, i);
            ServerTakesFits(l.server, now, live, l.up[0]);
            if !Next(l, a).server.cfg.state.Closed? { IdentityStays(l.server, i); }
          }
        case ServerOffers(now, live, delta) => NextByOffer(l, a);
        case ServerElse(i) =>
          SR.StepKeepsInv(l.server, i);
          AsideKeepsView(l.server, i);
          if !Next(l, a).server.cfg.state.Closed? { IdentityStays(l.server, i); }
      }
    }
  }

  lemma NextByOffer(l: Link, a: Action)
    requires Inv(l) && a.ServerOffers? && !l.server.cfg.state.Closed?
    ensures Inv(Next(l, a))
  {
    var i := S.Input(a.now, a.live, S.OfferNext(a.delta));
    var s := S.Do(l.server, i).next;
    SR.StepKeepsInv(l.server, i);
    if !s.cfg.state.Closed? {
      IdentityStays(l.server, i);
      OfferIsPending(l.server, i);
      if S.Do(l.server, i).out.Ok? {
        OnlyBeats(l.server.Identity(), ViewOf(l.server.cfg), ViewOf(s.cfg), l.up);
        assert l.down == [] && l.client.hold.candidate.None?;
      } else {
        assert ViewOf(s.cfg) == ViewOf(l.server.cfg);
      }
    }
  }

  // ---------------------------------------------------------------------------------------------
  // The client's steps

  lemma ClientElseStep(c: C.Client, i: C.Input)
    requires CR.Inv(c.hold) && !i.op.GetSnapshot? && !i.op.GetDelta? && !c.hold.state.New?
    ensures var step := C.Do(c, i);
            var h := step.next.hold;
            && step.next.identity == c.identity && !h.state.New?
            && (step.out.Ok? && step.out.value.Promoted? ==>
                  && c.hold.candidate.Some? && h.active == c.hold.candidate && h.candidate.None?
                  && step.out.value.readiness == Readiness(c.identity, c.hold.candidate.value.config, true, true, true))
            && (!(step.out.Ok? && step.out.value.Promoted?) ==>
                  h.active == c.hold.active && (h.candidate == c.hold.candidate || h.candidate.None?))
            && (step.out.Ok? && step.out.value.Beat? ==>
                  C.Reported(c.hold).Some? && step.out.value.beat.applied == C.Reported(c.hold).value.config
                    && h == c.hold)
  {}

  lemma NextByClientElse(l: Link, a: Action)
    requires Inv(l) && Allowed(l, a) && a.ClientElse?
    ensures Inv(Next(l, a))
  {
    if !l.server.cfg.state.Closed? {
      var step := C.Do(l.client, a.client);
      var id, v := l.server.Identity(), ViewOf(l.server.cfg);
      var end := Finally(v, l.up);
      CR.StepKeepsInv(l.client, a.client);
      ClientElseStep(l.client, a.client);
      if step.out.Ok? && step.out.value.Promoted? {
        QueueUp(id, v, l.up, UpReady(step.out.value.readiness));
      } else if step.out.Ok? && step.out.value.Beat? {
        QueueUp(id, v, l.up, UpBeat(step.out.value.beat));
      } else {
        assert l.up + [] == l.up;
      }
    }
  }

  /** What an apply of `m` may leave: nothing staged and at most a negative acknowledgement, or the
      configuration staged and acknowledged. */
  ghost predicate Applies(c: C.Client, config: Config, kind: AckKind, step: C.Step) {
    var h := step.next.hold;
    && step.next.identity == c.identity && h.active == c.hold.active && !h.state.New?
    && (step.ack.Some? ==>
          && step.ack.value.binding == c.identity && step.ack.value.config == config && step.ack.value.kind == kind
          && step.ack.value.code.None? && !step.ack.value.status.Rejected?)
    && (step.ack.Some? && !step.ack.value.Negative() <==> h.candidate.Some?)
    && (h.candidate.Some? ==> h.candidate.value.config == config)
  }

  lemma StageStep(c: C.Client, prep: C.Preparation, rejected: Code, later: Instant, candidate: Snapshot, kind: AckKind)
    requires !c.hold.state.New? && c.hold.candidate.None?
    ensures Applies(c, candidate.config, kind, C.Stage(c, prep, rejected, later, candidate, kind))
  {
    if C.PreparationRefusal(prep, rejected).Some? {} else if !C.Admission(c, later).Pass? {}
  }

  lemma ApplyStep(c: C.Client, m: Down, i: C.Input)
    requires !c.hold.state.New? && c.hold.candidate.None?
    requires m.DownSnapshot? ==> c.hold.active.None?
    requires match m case DownSnapshot(s) => i.op.GetSnapshot? && i.op.snapshot == s
                     case DownDelta(d) => i.op.GetDelta? && i.op.delta == d
    ensures Applies(c, m.Config(), if m.DownSnapshot? then AckSnapshot else AckDelta, C.Do(c, i))
  {
    match m {
      case DownSnapshot(s) =>
        assert C.Newest(c.hold).None?;
        StageStep(c, i.op.prep, SnapshotRejected, i.op.later, s, AckSnapshot);
      case DownDelta(d) =>
        StageStep(c, i.op.prep, DeltaRejected, i.op.later, Snapshot(c.identity, d.config, d.payload), AckDelta);
    }
  }

  lemma NextByClientTakes(l: Link, a: Action)
    requires Inv(l) && a.ClientTakes?
    ensures Inv(Next(l, a))
  {
    if !l.server.cfg.state.Closed? && l.down != [] {
      var m := l.down[0];
      var i := C.Input(a.now, Receipt(m, a.canceled, a.prep, a.later));
      var step := C.Do(l.client, i);
      var id, v := l.server.Identity(), ViewOf(l.server.cfg);
      var answer := Answer(l.client, m, step, a.rejects, a.code);
      CR.StepKeepsInv(l.client, i);
      SnapshotStaysFirst(id, v, l.up);
      ApplyStep(l.client, m, i);
      if answer == [] {
        assert l.up + answer == l.up;
      } else {
        QueueUp(id, v, l.up, answer[0]);
      }
    }
  }

  // ---------------------------------------------------------------------------------------------
  // The theorem

  lemma {:induction false} RunKeepsInv(l: Link, actions: seq<Action>)
    requires Inv(l) && AllowedRun(l, actions)
    ensures Inv(Run(l, actions))
    decreases |actions|
  {
    if actions == [] {
    } else {
      match actions[0] {
        case ClientTakes(_, _, _, _, _, _) => NextByClientTakes(l, actions[0]);
        case ClientElse(_) => NextByClientElse(l, actions[0]);
        case _ => NextByServer(l, actions[0]);
      }
      RunKeepsInv(Next(l, actions[0]), actions[1..]);
    }
  }

  /** No heartbeat is ever refused for naming the wrong configuration, whatever applies and activations fail on
      the way: when the server takes one, at any time, the answer is never that a snapshot is required. */
  lemma HeartbeatsAreCompatible(l: Link, actions: seq<Action>, now: Instant, live: bool)
    requires Initial(l) && AllowedRun(l, actions)
    requires var m := Run(l, actions); m.up != [] && m.up[0].UpBeat?
    ensures var m := Run(l, actions);
            S.Do(m.server, S.Input(now, live, S.DeliverHeartbeat(m.up[0].beat))).out != Err(SnapshotRequired)
  {
    assert Inv(l);
    RunKeepsInv(l, actions);
    var m := Run(l, actions);
    if m.server.cfg.state.Closed? {
      SR.ClosedStep(m.server, S.Input(now, live, S.DeliverHeartbeat(m.up[0].beat)));
    } else {
      ServerTakesFits(m.server, now, live, m.up[0]);
    }
  }
}
