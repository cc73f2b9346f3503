/** Many sessions, one registry: a replaced or closed process is fenced off for good. */
module Fencing {
  import opened Wrappers
  import opened Protocol
  import opened ServerSpec
  import opened Registry
  import opened ServerSessions

  /** Every session ever accepted, and the registry they share. */
  datatype World = World(current: map<Id, SessionRef>, sessions: seq<Server>)

  datatype Event =
    | Admit(accepted: Server)
    | Operate(k: nat, now: Instant, op: Op)

  /** Session identifiers are fresh: `newOpaqueID` draws 18 random bytes. */
  predicate Fresh(w: World, ref: SessionRef) {
    forall j :: 0 <= j < |w.sessions| ==> w.sessions[j].ref.session != ref.session
  }

  function Next(w: World, e: Event): World {
    match e
    case Admit(a) =>
      if AttachRefusal(w.current, a.ref).Some? then w
      else World(w.current[a.ref.connector := a.ref], w.sessions + [a])
    case Operate(k, now, op) =>
      if k >= |w.sessions| then w
      else
        var s := w.sessions[k];
        var next := Do(s, Input(now, Names(w.current, s.ref), op)).next;
        World(Unregistered(w.current, s.cfg.state, next.cfg.state, s.ref), w.sessions[k := next])
  }

  predicate Allowed(w: World, e: Event) {
    e.Admit? ==> Fresh(w, e.accepted.ref)
  }

  function Run(w: World, events: seq<Event>): World
    decreases |events|
  {
    if events == [] then w else Run(Next(w, events[0]), events[1..])
  }

  predicate AllowedRun(w: World, events: seq<Event>)
    decreases |events|
  {
    events == [] || (Allowed(w, events[0]) && AllowedRun(Next(w, events[0]), events[1..]))
  }

  ghost predicate Inv(w: World) {
    && (forall j, k :: 0 <= j < k < |w.sessions| ==> w.sessions[j].ref.session != w.sessions[k].ref.session)
    && (forall c :: c in w.current ==> w.current[c].connector == c)
  }

  /** Session `k` would pass the gate at `now`. */
  predicate Passes(w: World, k: nat, now: Instant)
    requires k < |w.sessions|
  {
    Admission(w.sessions[k], now, Names(w.current, w.sessions[k].ref)).Pass?
  }

  /** Session `k` has been closed, replaced or disconnected. */
  predicate Fenced(w: World, k: nat)
    requires k < |w.sessions|
  {
    w.sessions[k].cfg.state.Closed? || !Names(w.current, w.sessions[k].ref)
  }

  lemma DoKeepsIdentity(s: Server, i: Input)
    ensures Do(s, i).next.ref == s.ref
    ensures s.cfg.state.Closed? ==> Do(s, i).next.cfg.state.Closed?
  {}

  lemma NextKeepsInv(w: World, e: Event)
    requires Inv(w) && Allowed(w, e)
    ensures Inv(Next(w, e))
    ensures |Next(w, e).sessions| >= |w.sessions|
    ensures forall k :: 0 <= k < |w.sessions| ==> Next(w, e).sessions[k].ref == w.sessions[k].ref
  {
    match e {
      case Admit(a) =>
      case Operate(k, now, op) =>
        if k < |w.sessions| {
          DoKeepsIdentity(w.sessions[k], Input(now, Names(w.current, w.sessions[k].ref), op));
        }
    }
  }

  lemma NextKeepsFenced(w: World, e: Event, k: nat)
    requires Inv(w) && Allowed(w, e) && k < |w.sessions| && Fenced(w, k)
    ensures k < |Next(w, e).sessions| && Fenced(Next(w, e), k)
  {
    NextKeepsInv(w, e);
    match e {
      case Admit(a) =>
      case Operate(j, now, op) =>
        if j < |w.sessions| {
          DoKeepsIdentity(w.sessions[j], Input(now, Names(w.current, w.sessions[j].ref), op));
        }
    }
  }

  /** A replaced or closed session never passes the gate again, whatever happens afterwards. */
  lemma {:induction false} FencedForever(w: World, events: seq<Event>, k: nat, now: Instant)
    requires Inv(w) && AllowedRun(w, events) && k < |w.sessions| && Fenced(w, k)
    ensures k < |Run(w, events).sessions| && !Passes(Run(w, events), k, now)
    decreases |events|
  {
    if events == [] {
    } else {
      NextKeepsInv(w, events[0]);
      NextKeepsFenced(w, events[0], k);
      FencedForever(Next(w, events[0]), events[1..], k, now);
    }
  }

  /** In every reachable world at most one session of a connector passes the gate. */
  lemma {:induction false} AtMostOnePasses(w: World, events: seq<Event>, j: nat, k: nat, now: Instant, now': Instant)
    requires Inv(w) && AllowedRun(w, events)
    requires j < k < |Run(w, events).sessions|
    requires Run(w, events).sessions[j].ref.connector == Run(w, events).sessions[k].ref.connector
    ensures !(Passes(Run(w, events), j, now) && Passes(Run(w, events), k, now'))
    decreases |events|
  {
    if events == [] {
    } else {
      NextKeepsInv(w, events[0]);
      AtMostOnePasses(Next(w, events[0]), events[1..], j, k, now, now');
    }
  }

  /** Why freshness is needed, and exactly how far: admitting `a` revives a fenced session that is still open
      and in time if and only if `a` reuses that session's reference. */
  lemma AdmitRevivesIffReused(w: World, a: Server, k: nat, now: Instant)
    requires Inv(w) && k < |w.sessions| && AttachRefusal(w.current, a.ref).None?
    requires Admission(w.sessions[k], now, true).Pass? && !Names(w.current, w.sessions[k].ref)
    ensures Passes(Next(w, Admit(a)), k, now) <==> a.ref == w.sessions[k].ref
  {
    var w' := Next(w, Admit(a));
    assert w'.sessions[k] == w.sessions[k];
    assert Names(w'.current, w.sessions[k].ref) <==> a.ref == w.sessions[k].ref;
  }

  /** A session is replaced only by a newer process of the same tunnel. */
  lemma ReplacementIsNewer(w: World, e: Event, k: nat)
    requires Inv(w) && Allowed(w, e) && k < |w.sessions| && !Fenced(w, k) && Fenced(Next(w, e), k)
    ensures (e.Operate? && e.k == k) || (e.Admit? && e.accepted.ref.process > w.sessions[k].ref.process
                                       && e.accepted.ref.tunnel == w.sessions[k].ref.tunnel)
  {
    match e {
      case Admit(a) =>
      case Operate(j, now, op) =>
        if j < |w.sessions| {
          DoKeepsIdentity(w.sessions[j], Input(now, Names(w.current, w.sessions[j].ref), op));
        }
    }
  }
}
