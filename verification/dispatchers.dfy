/** The three in-memory tables that sit beside the session registry: the transport's active sessions, the
    drain dispatcher's and the rotation dispatcher's. Each is keyed by connector, replaced only by a process
    that is not older, and cleared only by an exact match. */
module Dispatchers {
  import opened Wrappers
  import opened Protocol

  /** The key of the transport and drain tables. */
  function ControlKey(tunnel: Id, connector: Id): string { tunnel + "\0" + connector }

  lemma ValidIdentifierHasNoZero(s: Id, i: nat)
    requires ValidIdentifier(s) && i < |s|
    ensures s[i] != '\0'
  {}

  /** A key made of valid identifiers is the key of no other pair, valid or not. */
  lemma ControlKeyIsInjective(tunnel: Id, connector: Id, tunnel': Id, connector': Id)
    requires ValidIdentifier(tunnel) && ValidIdentifier(connector)
    requires ControlKey(tunnel, connector) == ControlKey(tunnel', connector')
    ensures tunnel == tunnel' && connector == connector'
  {
    var key := ControlKey(tunnel, connector);
    var n := |tunnel'|;
    assert key[n] == '\0' && n < |key|;
    if n < |tunnel| {
      ValidIdentifierHasNoZero(tunnel, n);
      assert false;
    } else if n > |tunnel| {
      assert key[n] == connector[n - |tunnel| - 1];
      ValidIdentifierHasNoZero(connector, n - |tunnel| - 1);
      assert false;
    }
    assert key[..n] == tunnel == tunnel' && key[n + 1..] == connector == connector';
  }

  /** The secret-free projection of one authenticated control stream. */
  datatype Projection = Projection(
    account: Id, ref: SessionRef, host: Id, key: KeyIdentity, credentialGeneration: nat, config: Config) {
    predicate Valid() {
      && ValidIdentifier(account) && ref.Valid() && ValidIdentifier(host) && key.sound
      && credentialGeneration != 0 && config.generation != 0 && ValidHash(config.hash)
    }

    function Key(): string { ControlKey(ref.tunnel, ref.connector) }
  }

  ghost predicate Keyed(table: map<string, Projection>) {
    forall k :: k in table ==> table[k].Valid() && k == table[k].Key()
  }

  /** Everything but the entry of exactly this session. */
  ghost predicate OnlyRemoves(table: map<string, Projection>, table': map<string, Projection>, ref: SessionRef) {
    && table'.Keys <= table.Keys
    && forall k :: k in table ==> (k in table' <==> table[k].ref != ref) && (k in table' ==> table'[k] == table[k])
  }

  class ActiveControlSessions {
    var sessions: map<string, Projection>

    ghost predicate Valid()
      reads this
    {
      Keyed(sessions)
    }

    constructor ()
      ensures Valid() && sessions == map[]
    {
      sessions := map[];
    }

    method Attach(p: Projection) returns (out: Outcome<()>)
      requires Valid()
      modifies this
      ensures Valid()
      ensures out.Err? ==> sessions == old(sessions)
      ensures out.Ok? ==> p.Valid() && sessions == old(sessions)[p.Key() := p]
      ensures p.Valid() ==>
                (out.Ok? <==> (p.Key() in old(sessions) ==>
                                 var c := old(sessions)[p.Key()].ref; c.process < p.ref.process || c == p.ref))
    {
      if !p.Valid() {
        return Err(InvalidInput);
      }
      var key := p.Key();
      if key in sessions {
        var current := sessions[key];
        ControlKeyIsInjective(current.ref.tunnel, current.ref.connector, p.ref.tunnel, p.ref.connector);
        if current.ref.process > p.ref.process
          || (current.ref.process == p.ref.process && current.ref.session != p.ref.session) {
          return Err(SessionConflict);
        }
      }
      sessions := sessions[key := p];
      out := Ok(());
    }

    /** An older connection finishing after its replacement deletes nothing; `p` need not even be valid. */
    method Detach(p: Projection)
      requires Valid()
      modifies this
      ensures Valid()
      ensures OnlyRemoves(old(sessions), sessions, p.ref)
    {
      var key := p.Key();
      forall k | k in sessions && (k == key || sessions[k].ref == p.ref)
        ensures k == key && sessions[k].ref.tunnel == p.ref.tunnel && sessions[k].ref.connector == p.ref.connector
      {
        ControlKeyIsInjective(sessions[k].ref.tunnel, sessions[k].ref.connector, p.ref.tunnel, p.ref.connector);
      }
      if key in sessions && sessions[key].ref.session == p.ref.session && sessions[key].ref.process == p.ref.process {
        sessions := sessions - {key};
      }
    }

    /** A copy is returned only when every session fence matches. */
    method Lookup(ref: SessionRef) returns (found: Option<Projection>)
      requires Valid()
      ensures found.Some? ==> found.value in sessions.Values && found.value.ref == ref
      ensures found.None? ==> forall k :: k in sessions ==> sessions[k].ref != ref
    {
      if !ref.Valid() {
        return None;
      }
      var key := ControlKey(ref.tunnel, ref.connector);
      if key !in sessions || sessions[key].ref.session != ref.session || sessions[key].ref.process != ref.process {
        return None;
      }
      ControlKeyIsInjective(sessions[key].ref.tunnel, sessions[key].ref.connector, ref.tunnel, ref.connector);
      found := Some(sessions[key]);
    }
  }

  class DrainDispatcher {
    var sessions: map<string, Projection>

    ghost predicate Valid()
      reads this
    {
      Keyed(sessions)
    }

    constructor ()
      ensures Valid() && sessions == map[]
    {
      sessions := map[];
    }

    method RegisterSession(live: Projection) returns (out: Outcome<()>)
      requires Valid()
      modifies this
      ensures Valid()
      ensures out.Err? ==> sessions == old(sessions)
      ensures out.Ok? ==> live.Valid() && sessions == old(sessions)[live.Key() := live]
      ensures live.Valid() ==>
                (out.Ok? <==> (live.Key() in old(sessions) ==>
                                 var c := old(sessions)[live.Key()];
                                 && c.account == live.account && c.host == live.host
                                 && (c.ref.process < live.ref.process || c.ref == live.ref)))
    {
      if !live.Valid() {
        return Err(InvalidInput);
      }
      var key := live.Key();
      if key in sessions {
        var current := sessions[key];
        ControlKeyIsInjective(current.ref.tunnel, current.ref.connector, live.ref.tunnel, live.ref.connector);
        if current.account != live.account || current.host != live.host {
          return Err(IdentityMismatch);
        }
        if live.ref.process < current.ref.process
          || (live.ref.process == current.ref.process && live.ref.session != current.ref.session) {
          return Err(SessionConflict);
        }
      }
      sessions := sessions[key := live];
      out := Ok(());
    }

    /** Exact match only: a replacement process is never removed. */
    method DetachSession(ref: SessionRef)
      requires Valid()
      modifies this
      ensures Valid()
      ensures OnlyRemoves(old(sessions), sessions, ref)
    {
      if !ref.Valid() {
        return;
      }
      var key := ControlKey(ref.tunnel, ref.connector);
      if key in sessions && sessions[key].ref == ref {
        sessions := sessions - {key};
      }
    }
  }

  /** The session metadata the rotation dispatcher routes by. */
  datatype RotationLive = RotationLive(account: Id, host: Id, ref: SessionRef, credentialGeneration: nat,
                                       key: KeyIdentity, rotates: bool) {
    function Refusal(): Option<Code> {
      if !ValidIdentifier(account) || !ValidIdentifier(host) || !ref.Valid() || credentialGeneration == 0
        || !key.sound then Some(InvalidInput)
      else if !rotates then Some(CapabilityMissing)
      else None
    }
  }

  /** A frame as the dispatcher remembers it: operation, connector and message type, and a payload digest. */
  datatype FrameKey = FrameKey(operation: Id, connector: Id, message: string)
  datatype Delivery = Delivery(ref: SessionRef, digest: string)

  class RotationDispatcher {
    var sessions: map<Id, RotationLive>
    var deliveries: map<FrameKey, Delivery>
    /** Every frame some session's carrier has accepted. */
    ghost var carried: set<(FrameKey, Delivery)>

    ghost predicate Valid()
      reads this
    {
      && (forall c :: c in sessions ==> sessions[c].Refusal().None? && sessions[c].ref.connector == c)
      && (forall k :: k in deliveries ==> (k, deliveries[k]) in carried)
    }

    constructor ()
      ensures Valid() && sessions == map[] && deliveries == map[] && carried == {}
    {
      sessions, deliveries, carried := map[], map[], {};
    }

    method RegisterSession(session: RotationLive, recorded: bool) returns (out: Outcome<()>)
      requires Valid()
      modifies this`sessions
      ensures Valid()
      ensures out.Err? ==> sessions == old(sessions)
      ensures out.Ok? ==> sessions == old(sessions)[session.ref.connector := session]
      ensures out.Ok? <==>
                && session.Refusal().None?
                && (session.ref.connector in old(sessions) ==>
                      var c := old(sessions)[session.ref.connector];
                      && c.account == session.account && c.host == session.host && c.ref.tunnel == session.ref.tunnel
                      && c.ref.process < session.ref.process && recorded)
    {
      var refusal := session.Refusal();
      if refusal.Some? {
        return Err(refusal.value);
      }
      var connector := session.ref.connector;
      if connector in sessions {
        var current := sessions[connector];
        if current.account != session.account || current.host != session.host
          || current.ref.tunnel != session.ref.tunnel {
          return Err(IdentityMismatch);
        }
        if session.ref.process <= current.ref.process {
          return Err(SessionConflict);
        }
        if !recorded {
          return Err(SessionConflict);
        }
      }
      sessions := sessions[connector := session];
      out := Ok(());
    }

    /** A late close from an old carrier does not remove its replacement; nor does a close the store refused. */
    method UnregisterSession(ref: SessionRef, recorded: bool) returns (out: Outcome<()>)
      requires Valid()
      modifies this`sessions
      ensures Valid()
      ensures forall c :: c in old(sessions) ==>
                && (c in sessions <==> !(old(sessions)[c].ref == ref && recorded))
                && (c in sessions ==> sessions[c] == old(sessions)[c])
      ensures sessions.Keys <= old(sessions).Keys
    {
      if !ref.Valid() {
        return Err(InvalidInput);
      }
      if ref.connector !in sessions {
        return Ok(());
      }
      if sessions[ref.connector].ref != ref {
        return Err(StaleSession);
      }
      if !recorded {
        return Err(SessionConflict);
      }
      sessions := sessions - {ref.connector};
      out := Ok(());
    }

    method DetachSession(ref: SessionRef)
      requires Valid()
      modifies this`sessions, this`deliveries
      ensures Valid()
      ensures forall c :: c in old(sessions) ==>
                (c in sessions <==> old(sessions)[c].ref != ref) && (c in sessions ==> sessions[c] == old(sessions)[c])
      ensures sessions.Keys <= old(sessions).Keys
      ensures forall k :: k in deliveries ==> k in old(deliveries) && deliveries[k] == old(deliveries)[k]
      ensures forall k :: k in old(deliveries) && old(deliveries)[k].ref != ref ==> k in deliveries
      ensures ref.Valid() && ref.connector in old(sessions) && old(sessions)[ref.connector].ref == ref
              ==> forall k :: k in deliveries ==> deliveries[k].ref != ref
    {
      if !ref.Valid() || ref.connector !in sessions || sessions[ref.connector].ref != ref {
        return;
      }
      sessions := sessions - {ref.connector};
      deliveries := map k | k in deliveries && deliveries[k].ref != ref :: deliveries[k];
    }

    /** The first half of `send`, under the read lock: the frame goes to the session registered now, exactly if that is
        the session meant, with its account, host, credential and key, and not again if it was delivered to it. */
    method Send(session: RotationLive, frame: FrameKey, digest: string, carrierAccepts: bool)
      returns (out: Outcome<()>, sent: bool)
      requires Valid()
      modifies this`carried
      ensures Valid()
      ensures var matches := session.ref.connector in sessions
                             && sessions[session.ref.connector]
                                == session.(rotates := sessions[session.ref.connector].rotates);
              var delivered := frame in deliveries && deliveries[frame] == Delivery(session.ref, digest);
              && (out.Ok? <==> matches && (delivered || carrierAccepts))
              && (sent <==> matches && !delivered && carrierAccepts)
      ensures carried == old(carried) + if sent then {(frame, Delivery(session.ref, digest))} else {}
      ensures out.Ok? ==> (frame, Delivery(session.ref, digest)) in carried
    {
      sent := false;
      if session.ref.connector !in sessions {
        return Err(StaleSession), false;
      }
      var current := sessions[session.ref.connector];
      if current.ref != session.ref || current.account != session.account || current.host != session.host
         || current.credentialGeneration != session.credentialGeneration || current.key != session.key {
        return Err(StaleSession), false;
      }
      var delivery := Delivery(current.ref, digest);
      if frame in deliveries && deliveries[frame] == delivery {
        return Ok(()), false;
      }
      if !carrierAccepts {
        return Err(StaleSession), false;
      }
      carried := carried + {(frame, delivery)};
      out, sent := Ok(()), true;
    }

    /** The second half, under the write lock: what was sent is remembered only if its session is still registered. */
    method Remember(ref: SessionRef, frame: FrameKey, digest: string)
      requires Valid() && (frame, Delivery(ref, digest)) in carried
      modifies this`deliveries
      ensures Valid()
      ensures deliveries
              == if ref.connector in sessions && sessions[ref.connector].ref == ref
                 then old(deliveries)[frame := Delivery(ref, digest)]
                 else old(deliveries)
    {
      if ref.connector in sessions && sessions[ref.connector].ref == ref {
        deliveries := deliveries[frame := Delivery(ref, digest)];
      }
    }
  }
}
