/** A server session and a client session joined by a network that may drop, duplicate and reorder. */
module TwoParty {
  import opened Wrappers
  import opened Protocol
  import S = ServerSpec
  import C = ClientSpec
  import SR = ServerRuns
  import CR = ClientRuns

  /** `readiness`, `acks`, `snapshots` and `deltas` hold every message of that kind ever sent: a message is dropped by
      never being delivered, and duplicated or reordered by being delivered again or later. `activated` is
      the history of the client's activations, `offered` that of the server's offers. */
  datatype Net = Net(
    server: S.Server, client: C.Client,
    readiness: set<Readiness>, acks: set<Ack>, snapshots: set<Snapshot>, deltas: set<Delta>,
    activated: seq<Config>, offered: set<Config>)

  datatype Action = ServerActs(server: S.Input) | ClientActs(client: C.Input)

  /** A readiness reaches the server only if the client sent it. Everything else may even be forged. */
  predicate Allowed(n: Net, a: Action) {
    a.ServerActs? && a.server.op.DeliverReadiness? ==> a.server.op.readiness in n.readiness
  }

  /** The client, in turn, receives only configurations the server offered. */
  predicate Authentic(n: Net, a: Action) {
    && Allowed(n, a)
    && (a.ClientActs? && a.client.op.GetSnapshot? ==> a.client.op.snapshot in n.snapshots)
    && (a.ClientActs? && a.client.op.GetDelta? ==> a.client.op.delta in n.deltas)
  }

  /** And the server receives only acknowledgements the client sent. */
  predicate Genuine(n: Net, a: Action) {
    Authentic(n, a) && (a.ServerActs? && a.server.op.DeliverAck? ==> a.server.op.ack in n.acks)
  }

  /** What the client sends back: the acknowledgement of an apply, or a rejection when it failed without one. */
  function AcksOf(c: C.Client, i: C.Input): set<Ack> {
    var step := C.Do(c, i);
    if step.ack.Some? then {step.ack.value}
    else if step.out.Err? && i.op.GetSnapshot? then
      {C.RejectionAck(c, AckSnapshot, i.op.snapshot.config, step.out.code)}
    else if step.out.Err? && i.op.GetDelta? then {C.RejectionAck(c, AckDelta, i.op.delta.config, step.out.code)}
    else {}
  }

  function PendingSnapshots(c: S.Progress): set<Snapshot> {
    if c.pendingSnapshot.Some? then {c.pendingSnapshot.value} else {}
  }
  function PendingDeltas(c: S.Progress): set<Delta> { if c.pendingDelta.Some? then {c.pendingDelta.value} else {} }

  function PendingConfigs(c: S.Progress): set<Config> {
    (if c.pendingSnapshot.Some? then {c.pendingSnapshot.value.config} else {})
    + (if c.pendingDelta.Some? then {c.pendingDelta.value.config} else {})
  }

  /** The server sends what is pending; the client sends readiness only when it was activated without error. */
  function Next(n: Net, a: Action): Net {
    match a
    case ServerActs(i) =>
      var s := S.Do(n.server, i).next;
      n.(server := s, snapshots := n.snapshots + PendingSnapshots(s.cfg), deltas := n.deltas + PendingDeltas(s.cfg),
         offered := n.offered + PendingConfigs(s.cfg))
    case ClientActs(i) =>
      var step := C.Do(n.client, i);
      var acks := n.acks + AcksOf(n.client, i);
      if CR.Promotes(n.client, i) then
        var r := step.out.value.readiness;
        n.(client := step.next, acks := acks, readiness := n.readiness + {r}, activated := n.activated + [r.config])
      else n.(client := step.next, acks := acks)
  }

  function Run(n: Net, actions: seq<Action>): Net
    decreases |actions|
  {
    if actions == [] then n else Run(Next(n, actions[0]), actions[1..])
  }

  ghost predicate AllowedRun(n: Net, actions: seq<Action>)
    decreases |actions|
  {
    actions == [] || (Allowed(n, actions[0]) && AllowedRun(Next(n, actions[0]), actions[1..]))
  }

  ghost predicate AuthenticRun(n: Net, actions: seq<Action>)
    decreases |actions|
  {
    actions == [] || (Authentic(n, actions[0]) && AuthenticRun(Next(n, actions[0]), actions[1..]))
  }

  ghost predicate GenuineRun(n: Net, actions: seq<Action>)
    decreases |actions|
  {
    actions == [] || (Genuine(n, actions[0]) && GenuineRun(Next(n, actions[0]), actions[1..]))
  }

  /** A session just accepted and a process not yet welcomed. */
  ghost predicate Initial(n: Net) {
    && SR.Inv(n.server) && n.server.cfg.active.None? && n.server.cfg.candidate.None?
    && n.client == C.Initial(n.client.identity, n.client.credential)
    && n.readiness == {} && n.acks == {} && n.activated == []
    && n.snapshots == PendingSnapshots(n.server.cfg) && n.deltas == PendingDeltas(n.server.cfg)
    && n.offered == PendingConfigs(n.server.cfg)
  }

  // ---------------------------------------------------------------------------------------------
  // Agreement on what is active

  ghost predicate Inv(n: Net) {
    && CR.Inv(n.client.hold)
    && History(n.activated, n.client.hold.active)
    && (forall r :: r in n.readiness ==> r.config in n.activated)
    && (n.server.cfg.active.Some? ==> n.server.cfg.active.value.config in n.activated)
  }

  lemma BodyActiveStep(s: S.Server, now: Instant, op: S.Op)
    ensures var c := S.Body(s, now, op).next.cfg;
            || c.active == s.cfg.active
            || (op.DeliverReadiness? && c.active.Some? && c.active.value.config == op.readiness.config)
  {
    match op {
      case DeliverReadiness(r) =>
      case DeliverAck(ack) =>
      case DeliverHeartbeat(beat) =>
      case _ =>
    }
  }

  lemma ServerActiveStep(s: S.Server, i: S.Input)
    ensures var c := S.Do(s, i).next.cfg;
            || c.active == s.cfg.active
            || (i.op.DeliverReadiness? && c.active.Some? && c.active.value.config == i.op.readiness.config)
  {
    if !i.op.CloseSession? && S.Malformed(i.op, i.now).None? && S.Admission(s, i.now, i.live).Pass? {
      BodyActiveStep(s, i.now, i.op);
    }
  }

  lemma ServerKeepsInv(n: Net, i: S.Input)
    requires Inv(n) && Allowed(n, ServerActs(i))
    ensures Inv(Next(n, ServerActs(i)))
  {
    ServerActiveStep(n.server, i);
  }

  /** What an activation adds to the history keeps it ascending and ending with what is active. */
  ghost predicate History(activated: seq<Config>, active: Option<Snapshot>) {
    && (forall j, k :: 0 <= j < k < |activated| ==> activated[j].generation < activated[k].generation)
    && (if activated == [] then active.None?
        else active.Some? && active.value.config == activated[|activated| - 1])
  }

  lemma HistoryGrows(activated: seq<Config>, active: Option<Snapshot>, next: Snapshot)
    requires History(activated, active) && (active.Some? ==> active.value.config.generation < next.config.generation)
    ensures History(activated + [next.config], Some(next))
  {
    var grown := activated + [next.config];
    forall j, k | 0 <= j < k < |grown| ensures grown[j].generation < grown[k].generation {
      if k == |activated| && j < k - 1 { assert activated[j].generation < activated[k - 1].generation; }
    }
  }

  lemma ClientKeepsInv(n: Net, i: C.Input)
    requires Inv(n)
    ensures Inv(Next(n, ClientActs(i)))
  {
    CR.StepKeepsInv(n.client, i);
    CR.PromotionIsActive(n.client, i);
    var m := Next(n, ClientActs(i));
    if CR.Promotes(n.client, i) {
      HistoryGrows(n.activated, n.client.hold.active, n.client.hold.candidate.value);
      assert m.activated == n.activated + [n.client.hold.candidate.value.config];
    } else {
      assert m.activated == n.activated && m.readiness == n.readiness;
    }
  }

  lemma NextKeepsInv(n: Net, a: Action)
    requires Inv(n) && Allowed(n, a)
    ensures Inv(Next(n, a))
  {
    match a {
      case ServerActs(i) => ServerKeepsInv(n, i);
      case ClientActs(i) => ClientKeepsInv(n, i);
    }
  }

  lemma {:induction false} RunKeepsInv(n: Net, actions: seq<Action>)
    requires Inv(n) && AllowedRun(n, actions)
    ensures Inv(Run(n, actions))
    decreases |actions|
  {
    if actions == [] {
    } else {
      NextKeepsInv(n, actions[0]);
      RunKeepsInv(Next(n, actions[0]), actions[1..]);
    }
  }

  /** The server's active configuration is one the client has activated exactly, the client is at that generation or
      beyond it, and nothing the client holds at that generation, active or staged, has another hash. */
  ghost predicate Agreed(m: Net) {
    m.server.cfg.active.Some? ==>
      var g := m.server.cfg.active.value.config;
      && g in m.activated
      && m.client.hold.active.Some? && m.client.hold.active.value.config.generation >= g.generation
      && (m.client.hold.active.value.config.generation == g.generation ==> m.client.hold.active.value.config == g)
      && (m.client.hold.candidate.Some? ==> m.client.hold.candidate.value.config.generation > g.generation)
  }

  lemma InvIsAgreed(m: Net)
    requires Inv(m)
    ensures Agreed(m)
  {
    if m.server.cfg.active.Some? {
      var k :| 0 <= k < |m.activated| && m.activated[k] == m.server.cfg.active.value.config;
      assert k == |m.activated| - 1 || m.activated[k].generation < m.activated[|m.activated| - 1].generation;
    }
  }

  /** Whatever the network and the other messages do, the two sides agree. */
  lemma Agreement(n: Net, actions: seq<Action>)
    requires Initial(n) && AllowedRun(n, actions)
    ensures Agreed(Run(n, actions))
  {
    RunKeepsInv(n, actions);
    InvIsAgreed(Run(n, actions));
  }

  // ---------------------------------------------------------------------------------------------
  // Agreement on everything that is held

  /** No generation was offered with two hashes. */
  ghost predicate Functional(offered: set<Config>) {
    forall a, b :: a in offered && b in offered && a.generation == b.generation ==> a == b
  }

  ghost predicate Known(held: Option<Snapshot>, offered: set<Config>) {
    held.Some? ==> held.value.config in offered
  }

  ghost predicate AllOffered(n: Net) {
    && Known(n.server.cfg.active, n.offered) && Known(n.server.cfg.candidate, n.offered)
    && PendingConfigs(n.server.cfg) <= n.offered
    && Known(n.client.hold.active, n.offered) && Known(n.client.hold.candidate, n.offered)
    && (forall s :: s in n.snapshots ==> s.config in n.offered)
    && (forall d :: d in n.deltas ==> d.config in n.offered)
  }

  lemma BodyHoldsOffers(s: S.Server, now: Instant, op: S.Op)
    ensures var c := S.Body(s, now, op).next.cfg;
            && (c.active == s.cfg.active || c.active == s.cfg.candidate)
            && (c.candidate == s.cfg.candidate || c.candidate.None?
                || (c.candidate.Some? && c.candidate.value.config in PendingConfigs(s.cfg)))
  {
    match op {
      case DeliverAck(ack) =>
        if ack.binding == s.Identity() {
          if s.cfg.pendingSnapshot.Some? {} else if s.cfg.pendingDelta.Some? {}
        }
      case _ =>
    }
  }

  lemma ServerHoldsOffers(s: S.Server, i: S.Input)
    ensures var c := S.Do(s, i).next.cfg;
            && (c.active == s.cfg.active || c.active == s.cfg.candidate)
            && (c.candidate == s.cfg.candidate || c.candidate.None?
                || (c.candidate.Some? && c.candidate.value.config in PendingConfigs(s.cfg)))
  {
    if !i.op.CloseSession? && S.Malformed(i.op, i.now).None? && S.Admission(s, i.now, i.live).Pass? {
      BodyHoldsOffers(s, i.now, i.op);
    }
  }

  ghost predicate HoldsOr(h: C.Holding, h': C.Holding, config: Option<Config>) {
    && (h'.active == h.active || h'.active == h.candidate)
    && (h'.candidate == h.candidate || h'.candidate.None?
        || (h'.candidate.Some? && config == Some(h'.candidate.value.config)))
  }

  lemma StageHolds(c: C.Client, prep: C.Preparation, rejected: Code, later: Instant, candidate: Snapshot, kind: AckKind)
    ensures HoldsOr(c.hold, C.Stage(c, prep, rejected, later, candidate, kind).next.hold, Some(candidate.config))
  {
    if C.PreparationRefusal(prep, rejected).Some? {} else if !C.Admission(c, later).Pass? {}
  }

  function ConfigOf(op: C.Op): Option<Config> {
    match op
    case GetSnapshot(s, _, _, _) => Some(s.config)
    case GetDelta(d, _, _, _) => Some(d.config)
    case _ => None
  }

  lemma BodyHoldsReceived(c: C.Client, now: Instant, op: C.Op)
    ensures HoldsOr(c.hold, C.Body(c, now, op).next.hold, ConfigOf(op))
  {
    match op {
      case GetSnapshot(s, _, prep, later) => StageHolds(c, prep, SnapshotRejected, later, s, AckSnapshot);
      case GetDelta(d, _, prep, later) =>
        StageHolds(c, prep, DeltaRejected, later, Snapshot(c.identity, d.config, d.payload), AckDelta);
      case ReportReady(_, _, _, _, _) =>
      case _ =>
    }
  }

  lemma ClientHoldsReceived(c: C.Client, i: C.Input)
    ensures HoldsOr(c.hold, C.Do(c, i).next.hold, ConfigOf(i.op))
  {
    if !i.op.CloseSession? && !i.op.Welcomed? && C.Malformed(i.op, i.now).None? && C.Admission(c, i.now).Pass? {
      BodyHoldsReceived(c, i.now, i.op);
    }
  }

  lemma NextKeepsAllOffered(n: Net, a: Action)
    requires AllOffered(n) && Authentic(n, a)
    ensures AllOffered(Next(n, a))
  {
    match a {
      case ServerActs(i) => ServerHoldsOffers(n.server, i);
      case ClientActs(i) => ClientHoldsReceived(n.client, i);
    }
  }

  lemma {:induction false} RunKeepsAllOffered(n: Net, actions: seq<Action>)
    requires AllOffered(n) && AuthenticRun(n, actions)
    ensures AllOffered(Run(n, actions))
    decreases |actions|
  {
    if actions == [] {
    } else {
      NextKeepsAllOffered(n, actions[0]);
      RunKeepsAllOffered(Next(n, actions[0]), actions[1..]);
    }
  }

  ghost predicate Agree(a: Option<Snapshot>, b: Option<Snapshot>) {
    a.Some? && b.Some? && a.value.config.generation == b.value.config.generation ==> a.value.config == b.value.config
  }

  /** Everything held by the two sides agrees. */
  ghost predicate AllAgree(m: Net) {
    && Agree(m.server.cfg.active, m.client.hold.active) && Agree(m.server.cfg.active, m.client.hold.candidate)
    && Agree(m.server.cfg.candidate, m.client.hold.active) && Agree(m.server.cfg.candidate, m.client.hold.candidate)
  }

  /** While no generation is offered with two hashes, the staged configurations agree as well. */
  lemma HeldConfigurationsAgree(n: Net, actions: seq<Action>)
    requires Initial(n) && AuthenticRun(n, actions) && Functional(Run(n, actions).offered)
    ensures AllAgree(Run(n, actions))
  {
    RunKeepsAllOffered(n, actions);
  }

  // ---------------------------------------------------------------------------------------------
  // Exactly when what is held can differ

  /** The run offers nothing but `offers`. */
  predicate OnlyOffers(actions: seq<Action>, offers: set<Snapshot>) {
    forall i :: 0 <= i < |actions| && actions[i].ServerActs? ==>
      !actions[i].server.op.OfferNext? && (actions[i].server.op.Offer? ==> actions[i].server.op.snapshot in offers)
  }

  function ConfigsOf(offers: set<Snapshot>): set<Config> { set s | s in offers :: s.config }

  lemma BodyOffers(s: S.Server, now: Instant, op: S.Op)
    requires !op.OfferNext?
    ensures PendingConfigs(S.Body(s, now, op).next.cfg) 
            <= PendingConfigs(s.cfg) + if op.Offer? then {op.snapshot.config} else {}
  {
    match op {
      case DeliverAck(ack) =>
        if ack.binding == s.Identity() {
          if s.cfg.pendingSnapshot.Some? {} else if s.cfg.pendingDelta.Some? {}
        }
      case Offer(offer) =>
      case DeliverHeartbeat(beat) =>
      case _ =>
    }
  }

  lemma OnlyOffered(n: Net, a: Action, offers: set<Snapshot>)
    requires OnlyOffers([a], offers) && PendingConfigs(n.server.cfg) <= n.offered
    ensures var m := Next(n, a); m.offered <= n.offered + ConfigsOf(offers) && PendingConfigs(m.server.cfg) <= m.offered
  {
    assert [a][0] == a;
    if a.ServerActs? {
      var i := a.server;
      if !i.op.CloseSession? && S.Malformed(i.op, i.now).None? && S.Admission(n.server, i.now, i.live).Pass? {
        BodyOffers(n.server, i.now, i.op);
        assert i.op.Offer? ==> i.op.snapshot.config in ConfigsOf(offers);
      }
    }
  }

  lemma {:induction false} RunOffersOnly(n: Net, actions: seq<Action>, offers: set<Snapshot>)
    requires OnlyOffers(actions, offers) && PendingConfigs(n.server.cfg) <= n.offered
    ensures Run(n, actions).offered <= n.offered + ConfigsOf(offers)
    decreases |actions|
  {
    if actions == [] {
    } else {
      assert [actions[0]][0] == actions[0];
      OnlyOffered(n, actions[0], offers);
      assert forall i :: 0 <= i < |actions[1..]| ==> actions[1..][i] == actions[i + 1];
      RunOffersOnly(Next(n, actions[0]), actions[1..], offers);
    }
  }

  /** A session just accepted with its snapshot outstanding, and a process about to be welcomed to it, both in time. */
  ghost predicate Fresh(n: Net, now: Instant, welcome: C.Welcome) {
    && Initial(n) && n.server.cfg.pendingSnapshot.Some?
    && n.server.cfg.pendingSnapshot.value.ValidBound()
    && n.server.cfg.pendingSnapshot.value.binding == n.server.Identity()
    && S.Admission(n.server, now, true).Pass?
    && welcome.Valid(now) && welcome.session == n.server.ref.session
    && n.client.identity.(ref := n.client.identity.ref.(session := welcome.session)) == n.server.Identity()
  }

  ghost predicate ValidOffers(n: Net, offers: set<Snapshot>) {
    forall s :: s in offers ==> s.ValidBound() && s.binding == n.server.Identity()
  }

  /** Two of the offers, the outstanding first one included, have one generation and different contents. */
  ghost predicate Clash(n: Net, offers: set<Snapshot>)
    requires n.server.cfg.pendingSnapshot.Some?
  {
    exists a, b :: Clashing(n, offers, a, b)
  }

  ghost predicate Clashing(n: Net, offers: set<Snapshot>, a: Snapshot, b: Snapshot)
    requires n.server.cfg.pendingSnapshot.Some?
  {
    var all := offers + {n.server.cfg.pendingSnapshot.value};
    a in all && b in all && a.config.generation == b.config.generation && a.config.hash != b.config.hash
  }

  function Receives(now: Instant, s: Snapshot, prep: C.Preparation): Action {
    ClientActs(C.Input(now, C.GetSnapshot(s, false, prep, now)))
  }
  function Delivers(now: Instant, ack: Ack): Action { ServerActs(S.Input(now, true, S.DeliverAck(ack))) }

  const FAILING := C.Preparation(None, true, false)
  function Prepared(h: C.Handle): C.Preparation { C.Preparation(Some(h), false, false) }

  function FailsActivation(now: Instant): Action {
    ClientActs(C.Input(now, C.ReportReady(C.Probe(true, true, true), false, false, false, now)))
  }
  function Offers(now: Instant, offer: Snapshot): Action { ServerActs(S.Input(now, true, S.Offer(offer))) }
  function Welcomes(now: Instant, welcome: C.Welcome): Action { ClientActs(C.Input(now, C.Welcomed(welcome))) }
  function Rejects(id: Binding, config: Config): Ack { Ack(id, AckSnapshot, Rejected, config, Some(SnapshotRejected)) }
  function Applies(id: Binding, config: Config): Ack { Ack(id, AckSnapshot, Applied, config, None) }

  /** The client, welcomed, fails to stage the first snapshot and says so; the server offers the generation again; the
      client stages that and says so, drops it on a failed activation and stages a late copy of the first; the server
      learns that the second is staged. */
  function Divergence(id: Binding, now: Instant, welcome: C.Welcome, first: Snapshot, offer: Snapshot): seq<Action> {
    [Welcomes(now, welcome), Receives(now, first, FAILING), Delivers(now, Rejects(id, first.config)),
     Offers(now, offer)]
    + Crossing(id, now, first, offer)
  }

  /** The same with two offers after the first: the client fails to stage the former of them too. */
  function LongDivergence(id: Binding, now: Instant, welcome: C.Welcome, first: Snapshot, a: Snapshot,
                          b: Snapshot): seq<Action> {
    [Welcomes(now, welcome), Receives(now, first, FAILING), Delivers(now, Rejects(id, first.config)), Offers(now, a)]
    + ([Receives(now, a, FAILING)]
       + ([Delivers(now, Rejects(id, a.config))] + ([Offers(now, b)] + Crossing(id, now, a, b))))
  }

  function Crossing(id: Binding, now: Instant, first: Snapshot, offer: Snapshot): seq<Action> {
    [Receives(now, offer, Prepared(1)), FailsActivation(now), Receives(now, first, Prepared(2)),
     Delivers(now, Applies(id, offer.config))] + []
  }

  /** An empty, welcomed client in time. */
  ghost predicate Ready(c: C.Client, id: Binding, now: Instant) {
    && c.identity == id && c.hold.active.None? && c.hold.candidate.None? && C.Admission(c, now).Pass?
  }

  lemma StagesReceived(n: Net, now: Instant, s: Snapshot, h: C.Handle)
    requires Ready(n.client, s.binding, now) && s.ValidBound()
    ensures var m := Next(n, Receives(now, s, Prepared(h)));
            && m.client.identity == n.client.identity && m.client.hold.candidate == Some(s)
            && m.client.hold.prepared == Some(h)
            && m.client.hold.active.None? && C.Admission(m.client, now).Pass?
            && m == n.(client := m.client, acks := n.acks + {Applies(s.binding, s.config)})
  {}

  lemma FailsToReceive(n: Net, now: Instant, s: Snapshot)
    requires Ready(n.client, s.binding, now) && s.ValidBound()
    ensures Next(n, Receives(now, s, FAILING))
            == n.(acks := n.acks + {Rejects(s.binding, s.config)})
  {
    assert C.Noted(n.client, multiset{}) == n.client;
  }

  lemma FailsToActivate(n: Net, now: Instant, id: Binding)
    requires C.Admission(n.client, now).Pass? && n.client.identity == id
    requires n.client.hold.active.None? && n.client.hold.candidate.Some? && n.client.hold.prepared.Some?
    ensures var m := Next(n, FailsActivation(now));
            Ready(m.client, id, now) && m == n.(client := m.client)
  {
    assert n.acks + {} == n.acks;
  }

  lemma IsWelcomed(n: Net, now: Instant, welcome: C.Welcome)
    requires Fresh(n, now, welcome)
    ensures var m := Next(n, Welcomes(now, welcome));
            Ready(m.client, n.server.Identity(), now) && m == n.(client := m.client)
  {
    assert n.acks + {} == n.acks;
  }

  /** A server in time, holding nothing but possibly an outstanding snapshot. */
  ghost predicate Bare(s: S.Server, now: Instant) {
    && s.cfg.pendingDelta.None? && s.cfg.active.None? && s.cfg.candidate.None? && S.Admission(s, now, true).Pass?
    && s.Identity().Valid()
  }

  lemma TakesRejection(n: Net, now: Instant)
    requires Bare(n.server, now) && n.server.cfg.pendingSnapshot.Some?
             && n.server.cfg.pendingSnapshot.value.ValidBound()
    ensures var m := Next(n, Delivers(now, Rejects(n.server.Identity(), n.server.cfg.pendingSnapshot.value.config)));
            && Bare(m.server, now) && m.server.Identity() == n.server.Identity() && m.server.cfg.pendingSnapshot.None?
            && m.client == n.client && m.snapshots == n.snapshots
  {}

  lemma TakesOffer(n: Net, now: Instant, offer: Snapshot)
    requires Bare(n.server, now) && n.server.cfg.pendingSnapshot.None? && offer.ValidBound()
             && offer.binding == n.server.Identity()
    ensures var m := Next(n, Offers(now, offer));
            && Bare(m.server, now) && m.server.Identity() == n.server.Identity()
            && m.server.cfg.pendingSnapshot == Some(offer)
            && m.client == n.client && m.snapshots == n.snapshots + {offer}
  {
    assert n.server.Bind(offer) == offer;
  }

  lemma TakesApplied(n: Net, now: Instant, offer: Snapshot)
    requires Bare(n.server, now) && n.server.cfg.pendingSnapshot == Some(offer) && offer.ValidBound()
    ensures var m := Next(n, Delivers(now, Applies(n.server.Identity(), offer.config)));
            m.server.cfg.candidate == Some(offer) && m.client == n.client
  {}

  lemma Unroll(n: Net, a: Action, rest: seq<Action>)
    ensures Run(n, [a] + rest) == Run(Next(n, a), rest)
    ensures GenuineRun(n, [a] + rest) <==> Genuine(n, a) && GenuineRun(Next(n, a), rest)
  {
    assert ([a] + rest)[1..] == rest;
  }

  lemma Unroll4(n: Net, a: Action, b: Action, c: Action, d: Action, rest: seq<Action>)
    ensures var n1 := Next(n, a); var n2 := Next(n1, b); var n3 := Next(n2, c);
            && Run(n, [a, b, c, d] + rest) == Run(Next(n3, d), rest)
            && (GenuineRun(n, [a, b, c, d] + rest) <==>
                  Genuine(n, a) && Genuine(n1, b) && Genuine(n2, c) && Genuine(n3, d) && GenuineRun(Next(n3, d), rest))
  {
    var n1 := Next(n, a);
    var n2 := Next(n1, b);
    var n3 := Next(n2, c);
    Unroll(n3, d, rest);
    Unroll(n2, c, [d] + rest);
    Unroll(n1, b, [c] + ([d] + rest));
    Unroll(n, a, [b] + ([c] + ([d] + rest)));
    assert [a, b, c, d] + rest == [a] + ([b] + ([c] + ([d] + rest)));
  }

  /** Half way: the second offer is outstanding, the client holds nothing, and both offers are on the network. */
  ghost predicate HalfWay(m: Net, now: Instant, id: Binding, first: Snapshot, offer: Snapshot) {
    && Bare(m.server, now) && m.server.Identity() == id && m.server.cfg.pendingSnapshot == Some(offer)
    && Ready(m.client, id, now)
    && first in m.snapshots && offer in m.snapshots && first.binding == id && offer.binding == id
  }

  lemma FirstQuarter(n: Net, now: Instant, welcome: C.Welcome)
    requires Fresh(n, now, welcome)
    ensures var first := n.server.cfg.pendingSnapshot.value;
            var n1 := Next(n, Welcomes(now, welcome)); var n2 := Next(n1, Receives(now, first, FAILING));
            && Genuine(n, Welcomes(now, welcome)) && Genuine(n1, Receives(now, first, FAILING))
            && n2 == n.(client := n2.client, acks := {Rejects(n.server.Identity(), first.config)})
            && Ready(n2.client, n.server.Identity(), now)
  {
    var first := n.server.cfg.pendingSnapshot.value;
    IsWelcomed(n, now, welcome);
    FailsToReceive(Next(n, Welcomes(now, welcome)), now, first);
  }

  lemma SecondQuarter(n: Net, now: Instant, id: Binding, offer: Snapshot)
    requires Bare(n.server, now) && n.server.cfg.pendingSnapshot.Some?
             && n.server.cfg.pendingSnapshot.value.ValidBound()
    requires n.server.Identity() == id && Ready(n.client, id, now) && n.server.cfg.pendingSnapshot.value in n.snapshots
    requires n.server.cfg.pendingSnapshot.value.binding == id && offer.ValidBound() && offer.binding == id
    requires Rejects(id, n.server.cfg.pendingSnapshot.value.config) in n.acks
    ensures var first := n.server.cfg.pendingSnapshot.value;
            var n1 := Next(n, Delivers(now, Rejects(id, first.config)));
            && Genuine(n, Delivers(now, Rejects(id, first.config))) && Genuine(n1, Offers(now, offer))
            && HalfWay(Next(n1, Offers(now, offer)), now, id, first, offer)
  {
    TakesRejection(n, now);
    TakesOffer(Next(n, Delivers(now, Rejects(id, n.server.cfg.pendingSnapshot.value.config))), now, offer);
  }

  lemma SecondHalf(m: Net, now: Instant, id: Binding, first: Snapshot, offer: Snapshot)
    requires HalfWay(m, now, id, first, offer) && first.ValidBound() && offer.ValidBound()
    ensures var m1 := Next(m, Receives(now, offer, Prepared(1))); var m2 := Next(m1, FailsActivation(now));
            var m3 := Next(m2, Receives(now, first, Prepared(2)));
            var m4 := Next(m3, Delivers(now, Applies(id, offer.config)));
            && Genuine(m, Receives(now, offer, Prepared(1))) && Genuine(m1, FailsActivation(now))
            && Genuine(m2, Receives(now, first, Prepared(2))) && Genuine(m3, Delivers(now, Applies(id, offer.config)))
            && m4.server.cfg.candidate == Some(offer) && m4.client.hold.candidate == Some(first)
  {
    var m1 := Next(m, Receives(now, offer, Prepared(1)));
    StagesReceived(m, now, offer, 1);
    var m2 := Next(m1, FailsActivation(now));
    FailsToActivate(m1, now, id);
    StagesReceived(m2, now, first, 2);
    TakesApplied(Next(m2, Receives(now, first, Prepared(2))), now, offer);
  }

  lemma CrossingDiffers(m: Net, now: Instant, id: Binding, first: Snapshot, offer: Snapshot)
    requires HalfWay(m, now, id, first, offer) && first.ValidBound() && offer.ValidBound()
    ensures var d := Crossing(id, now, first, offer);
            GenuineRun(m, d) && Run(m, d).server.cfg.candidate == Some(offer)
              && Run(m, d).client.hold.candidate == Some(first)
  {
    SecondHalf(m, now, id, first, offer);
    Unroll4(m, Receives(now, offer, Prepared(1)), FailsActivation(now), Receives(now, first, Prepared(2)),
            Delivers(now, Applies(id, offer.config)), []);
  }

  lemma FirstHalf(n: Net, now: Instant, welcome: C.Welcome, offer: Snapshot)
    requires Fresh(n, now, welcome) && offer.ValidBound() && offer.binding == n.server.Identity()
    ensures var first, id := n.server.cfg.pendingSnapshot.value, n.server.Identity();
            var n1 := Next(n, Welcomes(now, welcome)); var n2 := Next(n1, Receives(now, first, FAILING));
            var n3 := Next(n2, Delivers(now, Rejects(id, first.config)));
            && Genuine(n, Welcomes(now, welcome)) && Genuine(n1, Receives(now, first, FAILING))
            && Genuine(n2, Delivers(now, Rejects(id, first.config))) && Genuine(n3, Offers(now, offer))
            && HalfWay(Next(n3, Offers(now, offer)), now, id, first, offer)
  {
    FirstQuarter(n, now, welcome);
    var n2 := Next(Next(n, Welcomes(now, welcome)), Receives(now, n.server.cfg.pendingSnapshot.value, FAILING));
    SecondQuarter(n2, now, n.server.Identity(), offer);
  }

  /** The run above is genuine and ends with each side staging another content. */
  lemma DivergenceDiffers(n: Net, now: Instant, welcome: C.Welcome, offer: Snapshot)
    requires Fresh(n, now, welcome) && offer.ValidBound() && offer.binding == n.server.Identity()
    ensures var d := Divergence(n.server.Identity(), now, welcome, n.server.cfg.pendingSnapshot.value, offer);
            var m := Run(n, d);
            && GenuineRun(n, d)
            && m.server.cfg.candidate == Some(offer) && m.client.hold.candidate == n.server.cfg.pendingSnapshot
  {
    var first, id := n.server.cfg.pendingSnapshot.value, n.server.Identity();
    FirstHalf(n, now, welcome, offer);
    Unroll4(n, Welcomes(now, welcome), Receives(now, first, FAILING), Delivers(now, Rejects(id, first.config)),
            Offers(now, offer),
            Crossing(id, now, first, offer));
    CrossingDiffers(Next(Next(Next(Next(n, Welcomes(now, welcome)), Receives(now, first, FAILING)),
                              Delivers(now, Rejects(id, first.config))), Offers(now, offer)),
                    now, id, first, offer);
  }

  /** The client fails to stage the outstanding offer `a`, and the server offers `b` instead. */
  lemma Replaces(m: Net, now: Instant, id: Binding, first: Snapshot, a: Snapshot, b: Snapshot, rest: seq<Action>)
    requires HalfWay(m, now, id, first, a) && a.ValidBound() && b.ValidBound() && b.binding == id
    ensures var m1 := Next(m, Receives(now, a, FAILING)); var m2 := Next(m1, Delivers(now, Rejects(id, a.config)));
            var m3 := Next(m2, Offers(now, b));
            var d := [Receives(now, a, FAILING)] + ([Delivers(now, Rejects(id, a.config))] + ([Offers(now, b)] + rest));
            HalfWay(m3, now, id, a, b) && Run(m, d) == Run(m3, rest) && (GenuineRun(m, d) <==> GenuineRun(m3, rest))
  {
    var m1 := Next(m, Receives(now, a, FAILING));
    var m2 := Next(m1, Delivers(now, Rejects(id, a.config)));
    FailsToReceive(m, now, a);
    SecondQuarter(m1, now, id, b);
    Unroll(m2, Offers(now, b), rest);
    Unroll(m1, Delivers(now, Rejects(id, a.config)), [Offers(now, b)] + rest);
    Unroll(m, Receives(now, a, FAILING), [Delivers(now, Rejects(id, a.config))] + ([Offers(now, b)] + rest));
  }

  /** So is the longer one. */
  lemma LongDivergenceDiffers(n: Net, now: Instant, welcome: C.Welcome, a: Snapshot, b: Snapshot)
    requires Fresh(n, now, welcome) && ValidOffers(n, {a, b})
    ensures var d := LongDivergence(n.server.Identity(), now, welcome, n.server.cfg.pendingSnapshot.value, a, b);
            var m := Run(n, d);
            GenuineRun(n, d) && m.server.cfg.candidate == Some(b) && m.client.hold.candidate == Some(a)
  {
    var first, id := n.server.cfg.pendingSnapshot.value, n.server.Identity();
    var rest := [Receives(now, a, FAILING)]
      + ([Delivers(now, Rejects(id, a.config))] + ([Offers(now, b)] + Crossing(id, now, a, b)));
    FirstHalf(n, now, welcome, a);
    Unroll4(n, Welcomes(now, welcome), Receives(now, first, FAILING), Delivers(now, Rejects(id, first.config)),
            Offers(now, a), rest);
    var n2 := Next(Next(n, Welcomes(now, welcome)), Receives(now, first, FAILING));
    var n3 := Next(n2, Delivers(now, Rejects(id, first.config)));
    var m := Next(n3, Offers(now, a));
    Replaces(m, now, id, first, a, b, Crossing(id, now, a, b));
    var m3 := Next(Next(Next(m, Receives(now, a, FAILING)), Delivers(now, Rejects(id, a.config))), Offers(now, b));
    CrossingDiffers(m3, now, id, a, b);
  }

  lemma DivergenceOffersOnly(id: Binding, now: Instant, welcome: C.Welcome, first: Snapshot, a: Snapshot, b: Snapshot)
    ensures OnlyOffers(Divergence(id, now, welcome, first, a), {a})
    ensures OnlyOffers(LongDivergence(id, now, welcome, first, a, b), {a, b})
  {}

  lemma {:induction false} GenuineIsAuthentic(n: Net, actions: seq<Action>)
    requires GenuineRun(n, actions)
    ensures AuthenticRun(n, actions)
    decreases |actions|
  {
    if actions == [] {
    } else {
      GenuineIsAuthentic(Next(n, actions[0]), actions[1..]);
    }
  }

  ghost predicate GenuinelyDiffers(n: Net, actions: seq<Action>, offers: set<Snapshot>) {
    GenuineRun(n, actions) && OnlyOffers(actions, offers) && !AllAgree(Run(n, actions))
  }

  ghost predicate AuthenticallyDiffers(n: Net, actions: seq<Action>, offers: set<Snapshot>) {
    AuthenticRun(n, actions) && OnlyOffers(actions, offers) && !AllAgree(Run(n, actions))
  }

  /** Two clashing offers have a run that ends in their disagreement. */
  lemma ClashDiffers(n: Net, now: Instant, welcome: C.Welcome, offers: set<Snapshot>, a: Snapshot, b: Snapshot)
    returns (d: seq<Action>)
    requires Fresh(n, now, welcome) && ValidOffers(n, offers) && Clashing(n, offers, a, b)
    ensures GenuinelyDiffers(n, d, offers)
  {
    var first, id := n.server.cfg.pendingSnapshot.value, n.server.Identity();
    if a == first || b == first {
      var offer := if a == first then b else a;
      d := Divergence(id, now, welcome, first, offer);
      DivergenceDiffers(n, now, welcome, offer);
      DivergenceOffersOnly(id, now, welcome, first, offer, offer);
    } else {
      d := LongDivergence(id, now, welcome, first, a, b);
      LongDivergenceDiffers(n, now, welcome, a, b);
      DivergenceOffersOnly(id, now, welcome, first, a, b);
    }
  }

  lemma NoClashAgrees(n: Net, now: Instant, welcome: C.Welcome, offers: set<Snapshot>, actions: seq<Action>)
    requires Fresh(n, now, welcome) && !Clash(n, offers) && AuthenticRun(n, actions) && OnlyOffers(actions, offers)
    ensures AllAgree(Run(n, actions))
  {
    var first := n.server.cfg.pendingSnapshot.value;
    RunOffersOnly(n, actions, offers);
    forall x, y | x in Run(n, actions).offered && y in Run(n, actions).offered && x.generation == y.generation
      ensures x == y {
      var a :| a in offers + {first} && a.config == x;
      var b :| b in offers + {first} && b.config == y;
      assert !Clashing(n, offers, a, b);
    }
    HeldConfigurationsAgree(n, actions);
  }

  /** From a fresh pair, a run that offers nothing but the first snapshot and the ones of `offers` can leave the two
      sides holding different contents of one generation exactly when two of them have one generation and different
      hashes: then some run does in which every message was sent by its peer; otherwise none does, even if
      acknowledgements are forged. */
  lemma HeldContentsCanDifferIff(n: Net, now: Instant, welcome: C.Welcome, offers: set<Snapshot>)
    requires Fresh(n, now, welcome) && ValidOffers(n, offers)
    ensures (exists actions :: GenuinelyDiffers(n, actions, offers)) <==> Clash(n, offers)
    ensures (exists actions :: AuthenticallyDiffers(n, actions, offers)) <==> Clash(n, offers)
  {
    if Clash(n, offers) {
      var a, b :| Clashing(n, offers, a, b);
      var d := ClashDiffers(n, now, welcome, offers, a, b);
      GenuineIsAuthentic(n, d);
      assert GenuinelyDiffers(n, d, offers) && AuthenticallyDiffers(n, d, offers);
    } else {
      forall actions | AuthenticRun(n, actions) && OnlyOffers(actions, offers) ensures AllAgree(Run(n, actions)) {
        NoClashAgrees(n, now, welcome, offers, actions);
      }
      forall actions | GenuineRun(n, actions) ensures AuthenticRun(n, actions) { GenuineIsAuthentic(n, actions); }
    }
  }
}
