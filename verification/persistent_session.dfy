/** `PersistentSession` and `PersistentServer` over a store whose writes may fail; every method is proved against
    `PersistenceSpec.Call`. */
module PersistentSessions {
  import opened Wrappers
  import opened Protocol
  import opened ServerSpec
  import opened PersistenceSpec
  import opened Registry
  import opened ServerSessions

  class ControlStore {
    var log: seq<Entry>

    constructor ()
      ensures log == []
    {
      log := [];
    }

    method Write(e: Entry, succeeds: bool)
      modifies this
      ensures log == if succeeds then old(log) + [e] else old(log)
    {
      if succeeds {
        log := log + [e];
      }
    }
  }

  /** The call left the specified session, log and result, and the registry lost the session exactly when the
      call closed it. */
  ghost predicate CallPerformed(before: Durable, registered: map<Id, SessionRef>, i: Input, stored: bool, cleaned: bool,
                                after: Durable, registered': map<Id, SessionRef>, out: Outcome<Reply>) {
    && Called(after, out) == Call(before, i, stored, cleaned)
    && registered' == Unregistered(registered, before.session.cfg.state, after.session.cfg.state, before.session.ref)
  }

  class PersistentSession {
    const session: ServerSession
    const store: ControlStore

    constructor (session: ServerSession, store: ControlStore)
      ensures this.session == session && this.store == store
    {
      this.session, this.store := session, store;
    }

    ghost function View(): Durable
      reads this, session, store
    {
      Durable(session.View(), store.log)
    }

    /** Durable state could not confirm the transition: close, and try to record that. */
    method FailClosed(cleaned: bool) returns (out: Outcome<Reply>)
      requires session.Valid()
      modifies session, session.registry, store
      ensures session.Valid()
      ensures var closed := CloseFor(old(session.View()), ReasonProtocolClosed);
              View() == Durable(closed, old(store.log) + if cleaned then [ClosedEntry(closed)] else [])
      ensures session.registry.current
              == Unregistered(old(session.registry.current), old(session.state), session.state, session.ref)
      ensures out == Err(SessionConflict)
    {
      var _ := session.Close(ReasonProtocolClosed);
      RecordDisconnected(cleaned);
      out := Err(SessionConflict);
    }

    method RecordDisconnected(succeeds: bool)
      modifies store
      ensures store.log == old(store.log) + if succeeds then [ClosedEntry(session.View())] else []
    {
      store.Write(Disconnected(if session.disconnectReason.Some? then session.disconnectReason.value
                               else ReasonProtocolClosed), succeeds);
    }

    /** The write after a transition, and the closing when it fails. */
    method Confirm(e: Entry, answer: Outcome<Reply>, stored: bool, cleaned: bool) returns (out: Outcome<Reply>)
      requires session.Valid()
      modifies session, session.registry, store
      ensures session.Valid()
      ensures if stored then View() == Durable(old(session.View()), old(store.log) + [e]) && out == answer
                             && session.registry.current == old(session.registry.current)
              else
                var closed := CloseFor(old(session.View()), ReasonProtocolClosed);
                && View() == Durable(closed, old(store.log) + if cleaned then [ClosedEntry(closed)] else [])
                && out == Err(SessionConflict)
                && session.registry.current
                   == Unregistered(old(session.registry.current), old(session.state), session.state, session.ref)
    {
      store.Write(e, stored);
      if !stored {
        out := FailClosed(cleaned);
        return;
      }
      out := answer;
    }

    method HandleAck(now: Instant, ack: Ack, stored: bool, cleaned: bool) returns (out: Outcome<Reply>)
      requires session.Valid()
      modifies session, session.registry, store
      ensures session.Valid()
      ensures CallPerformed(old(View()), old(session.registry.current),
                            Input(now, old(session.Live()), DeliverAck(ack)),
                            stored, cleaned, View(), session.registry.current, out)
    {
      var persistNegative := session.CanPersistNegativeAck(ack);
      out := session.HandleAck(now, ack);
      if out.Err? && !persistNegative {
        return;
      }
      out := Confirm(AppliedEntry(ack), out, stored, cleaned);
    }

    method HandleReadiness(now: Instant, r: Readiness, stored: bool, cleaned: bool) returns (out: Outcome<Reply>)
      requires session.Valid()
      modifies session, session.registry, store
      ensures session.Valid()
      ensures CallPerformed(old(View()), old(session.registry.current),
                            Input(now, old(session.Live()), DeliverReadiness(r)),
                            stored, cleaned, View(), session.registry.current, out)
    {
      out := session.HandleReadiness(now, r);
      if out.Err? {
        return;
      }
      out := Confirm(ReadyEntry(r), out, stored, cleaned);
    }

    method HandleHeartbeat(now: Instant, beat: Heartbeat, stored: bool, cleaned: bool) returns (out: Outcome<Reply>)
      requires session.Valid()
      modifies session, session.registry, store
      ensures session.Valid()
      ensures CallPerformed(old(View()), old(session.registry.current),
                            Input(now, old(session.Live()), DeliverHeartbeat(beat)),
                            stored, cleaned, View(), session.registry.current, out)
    {
      out := session.HandleHeartbeat(now, beat);
      if out.Err? {
        return;
      }
      out := Confirm(BeatEntry(beat, out.value.beat), out, stored, cleaned);
    }

    /** The second half of `Renew`: the first, `ServerSession.BeginRenewal`, changes nothing and writes nothing. */
    method FinishRenewal(now: Instant, ticket: RenewalTicket, answer: Outcome<AuthResult>, stored: bool, cleaned: bool)
      returns (out: Outcome<Reply>)
      requires session.Valid()
      modifies session, session.registry, store
      ensures session.Valid()
      ensures CallPerformed(old(View()), old(session.registry.current),
                            Input(now, old(session.Live()), EndRenewal(ticket, answer)),
                            stored, cleaned, View(), session.registry.current, out)
    {
      out := session.FinishRenewal(now, ticket, answer);
      if out.Err? {
        return;
      }
      out := Confirm(RenewalEntry(out.value.auth), out, stored, cleaned);
    }

    method BeginDrain(now: Instant, drainId: Id, deadline: nat, force: bool, later: Instant, stored: bool,
                      cleaned: bool)
      returns (out: Outcome<Reply>)
      requires session.Valid()
      modifies session, session.registry, store
      ensures session.Valid()
      ensures CallPerformed(old(View()), old(session.registry.current),
                            Input(now, old(session.Live()), StartDrain(drainId, deadline, force, later)),
                            stored, cleaned, View(), session.registry.current, out)
    {
      out := session.BeginDrain(now, drainId, deadline, force, later);
      if out.Err? {
        return;
      }
      out := Confirm(DrainEntry(out.value.drain, DrainAccepted, 0, None), out, stored, cleaned);
    }

    method HandleDrainAck(now: Instant, ack: DrainAck, stored: bool, cleaned: bool) returns (out: Outcome<Reply>)
      requires session.Valid()
      modifies session, session.registry, store
      ensures session.Valid()
      ensures CallPerformed(old(View()), old(session.registry.current),
                            Input(now, old(session.Live()), DeliverDrainAck(ack)),
                            stored, cleaned, View(), session.registry.current, out)
    {
      var persistNegative := session.CanPersistNegativeDrainAck(ack);
      out := session.HandleDrainAck(now, ack);
      if out.Err? && !persistNegative {
        return;
      }
      out := Confirm(DrainEntry(session.drain.value, ack.status, ack.activeStreams, ack.code), out, stored, cleaned);
    }

    method Close(reason: Reason, stored: bool) returns (out: Outcome<Reply>)
      requires session.Valid()
      modifies session, session.registry, store
      ensures session.Valid()
      ensures CallPerformed(old(View()), old(session.registry.current),
                            Input(1, old(session.Live()), CloseSession(reason)),
                            stored, false, View(), session.registry.current, out)
    {
      out := session.Close(reason);
      RecordDisconnected(stored);
      if !stored {
        out := Err(SessionConflict);
      }
    }

    method CheckLease(now: Instant, stored: bool) returns (out: Outcome<Reply>)
      requires session.Valid()
      modifies session, session.registry, store
      ensures session.Valid()
      ensures CallPerformed(old(View()), old(session.registry.current), Input(now, old(session.Live()), Op.CheckLease),
                            stored, false, View(), session.registry.current, out)
      ensures store.log
              == old(store.log) + if session.state.Closed? && stored then [ClosedEntry(View().session)] else []
    {
      out := session.CheckLease(now);
      if out.Err? && session.state.Closed? {
        RecordDisconnected(stored);
      }
    }
  }

  class PersistentServer {
    const server: ControlServer
    const store: ControlStore

    constructor (server: ControlServer, store: ControlStore)
      ensures this.server == server && this.store == store
    {
      this.server, this.store := server, store;
    }

    /** A session is handed out only once its creation is durable; otherwise it is closed again and its registry
        slot given up. */
    method Accept(now: Instant, hello: Hello, drains: Outcome<bool>, auth: Outcome<AuthResult>,
                  source: Outcome<Snapshot>, sessionId: Outcome<Id>, stored: bool)
      returns (out: Outcome<PersistentSession>)
      requires server.registry.Valid()
      modifies server.registry, store
      ensures server.registry.Valid()
      ensures var a := ServerSpec.Accept(server.settings, now, hello, drains, auth, source, sessionId);
              if a.Err? || AttachRefusal(old(server.registry.current), a.value.ref).Some? then
                out.Err? && store.log == old(store.log) && server.registry.current == old(server.registry.current)
              else if stored then
                && out.Ok? && fresh(out.value) && out.value.session.Valid()
                && out.value.View() == Opened(a.value, old(store.log), true).next
                && Names(server.registry.current, a.value.ref)
              else
                && out == Err(SessionConflict) && store.log == old(store.log)
                && server.registry.current == old(server.registry.current) - {a.value.ref.connector}
    {
      var accepted := server.Accept(now, hello, drains, auth, source, sessionId);
      if accepted.Err? {
        return Err(accepted.code);
      }
      var session := accepted.value;
      store.Write(Created(session.ref, session.leaseExpiresAt, session.auth.credentialGeneration), stored);
      if !stored {
        var _ := session.Close(ReasonProtocolClosed);
        return Err(SessionConflict);
      }
      var durable := new PersistentSession(session, store);
      out := Ok(durable);
    }
  }
}
