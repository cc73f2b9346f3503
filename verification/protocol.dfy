/** Messages of the connector-v1 control protocol and the checks each carries.

    Times are nanoseconds, with 0 for Go's zero `time.Time`; a clock reading is never zero.
    The checks on encodings (canonical JSON, digests, keys, signatures) are not re-implemented: a
    value carries their outcome in a field named `sound`. */
module Protocol {
  import opened Wrappers

  /** The typed error codes of the protocol. */
  datatype Code =
    | InvalidInput | CapabilityMissing | AuthenticationFailed | CredentialExpired | IdentityMismatch
    | SessionConflict | SessionClosed | LeaseExpired | HeartbeatTimeout | SnapshotRequired
    | GenerationGap | StaleGeneration | ContentHashMismatch | SnapshotRejected | DeltaRejected
    | NotReady | Canceled | StaleSession | UnsupportedMessage | DrainRejected | DrainTimeout
    | RotationRejected | RotationNotReady | RotationFailed

  datatype Outcome<+T> = Ok(value: T) | Err(code: Code)

  datatype Reason =
    | ReasonAuthentication | ReasonCredentialExpired | ReasonLeaseExpired | ReasonHeartbeatTimeout
    | ReasonSessionReplaced | ReasonServerShutdown | ReasonProtocolClosed | ReasonCanceled

  type Id = string
  type Instant = t: nat | t > 0 witness 1

  const MILLISECOND: nat := 1_000_000
  const SECOND: nat := 1_000_000_000
  const MINUTE: nat := 60 * SECOND
  const MAX_CLOCK_SKEW: nat := 2 * MINUTE
  const MAX_LEASE: nat := 24 * 60 * MINUTE
  const ABORT_TIMEOUT: nat := 5 * SECOND
  const MAX_ACTIVE_STREAMS: nat := 0x10_0000

  predicate Alphanumeric(c: char) {
    'a' <= c <= 'z' || 'A' <= c <= 'Z' || '0' <= c <= '9'
  }

  predicate IdentifierChar(c: char) {
    Alphanumeric(c) || c == '.' || c == '_' || c == ':' || c == '-'
  }

  predicate ValidIdentifier(s: Id) {
    1 <= |s| <= 128 && Alphanumeric(s[0]) && forall i :: 1 <= i < |s| ==> IdentifierChar(s[i])
  }

  predicate ValidHash(s: string) {
    && |s| == 71 && s[..7] == "sha256:"
    && forall i :: 7 <= i < |s| ==> '0' <= s[i] <= '9' || 'a' <= s[i] <= 'f'
  }

  /** A configuration as the protocol compares it: a generation and the digest of its content. */
  datatype Config = Config(generation: nat, hash: string)

  datatype Payload = Payload(raw: string, sound: bool)

  datatype SessionRef = SessionRef(tunnel: Id, connector: Id, session: Id, process: nat) {
    predicate Valid() {
      ValidIdentifier(tunnel) && ValidIdentifier(connector) && ValidIdentifier(session) && process != 0
    }
  }

  /** The identity envelope every session message repeats. */
  datatype Binding = Binding(account: Id, ref: SessionRef) {
    predicate Valid() { ValidIdentifier(account) && ref.Valid() }

    /** An offer may leave these fields empty; it may not contradict the session it is offered to. */
    predicate Offerable(session: Binding) {
      && (account != "" ==> account == session.account)
      && (ref.connector != "" ==> ref.connector == session.ref.connector)
      && (ref.session != "" ==> ref.session == session.ref.session)
      && (ref.process != 0 ==> ref.process == session.ref.process)
    }
  }

  datatype Snapshot = Snapshot(binding: Binding, config: Config, payload: Payload) {
    predicate Valid() {
      && ValidIdentifier(binding.ref.tunnel)
      && (binding.account != "" ==> ValidIdentifier(binding.account))
      && (binding.ref.session != "" ==> ValidIdentifier(binding.ref.session))
      && config.generation != 0 && ValidHash(config.hash) && payload.sound
    }

    predicate ValidBound() { binding.Valid() && Valid() }
  }

  datatype Delta = Delta(binding: Binding, previous: Config, config: Config, payload: Payload) {
    predicate Valid() {
      && ValidIdentifier(binding.ref.tunnel)
      && (binding.account != "" ==> ValidIdentifier(binding.account))
      && (binding.ref.session != "" ==> ValidIdentifier(binding.ref.session))
      && ValidHash(previous.hash) && ValidHash(config.hash)
      && previous.generation != 0 && config.generation == previous.generation + 1
      && payload.sound
    }

    predicate ValidBound() { binding.Valid() && Valid() }
  }

  datatype AckKind = AckSnapshot | AckDelta | AckReady | AckRenewal
  datatype AckStatus = Applied | Duplicate | Rejected | FullSnapshotRequired

  datatype Ack = Ack(binding: Binding, kind: AckKind, status: AckStatus, config: Config, code: Option<Code>) {
    predicate Valid() {
      && binding.Valid() && config.generation != 0 && ValidHash(config.hash)
      && (status.Rejected? <==> code.Some?)
    }

    predicate Negative() { status.Rejected? || status.FullSnapshotRequired? }
  }

  datatype Readiness = Readiness(binding: Binding, config: Config, edge: bool, route: bool, origin: bool) {
    predicate Valid() { binding.Valid() && config.generation != 0 && ValidHash(config.hash) }
    predicate AllReady() { edge && route && origin }
  }

  datatype Heartbeat = Heartbeat(binding: Binding, applied: Config, sentAt: nat) {
    predicate Valid() {
      binding.Valid() && applied.generation != 0 && ValidHash(applied.hash) && sentAt != 0
    }
  }

  datatype HeartbeatAck = HeartbeatAck(binding: Binding, leaseExpiresAt: nat, serverTime: nat) {
    predicate Valid(now: nat) {
      binding.Valid() && leaseExpiresAt != 0 && leaseExpiresAt > now && serverTime != 0
    }
  }

  datatype DrainStatus = DrainAccepted | DrainProgress | DrainCompleted | DrainForced | DrainRefused

  datatype Drain = Drain(binding: Binding, drainId: Id, config: Config, deadline: nat, stopNewStreams: bool,
                         force: bool) {
    predicate Valid(now: Instant) {
      && binding.Valid() && ValidIdentifier(drainId)
      && config.generation != 0 && ValidHash(config.hash) && deadline != 0 && stopNewStreams
      && deadline > now && deadline - now <= MAX_LEASE
    }
  }

  datatype DrainAck = DrainAck(
    binding: Binding, drainId: Id, config: Config, status: DrainStatus,
    activeStreams: nat, forced: bool, code: Option<Code>) {
    predicate Valid() {
      && binding.Valid() && ValidIdentifier(drainId)
      && config.generation != 0 && ValidHash(config.hash) && activeStreams <= MAX_ACTIVE_STREAMS
      && match status {
        case DrainAccepted => !forced && code.None?
        case DrainProgress => !forced && code.None?
        case DrainCompleted => activeStreams == 0 && !forced && code.None?
        case DrainForced => forced && code == Some(DrainTimeout) && activeStreams == 0
        case DrainRefused => !forced && code == Some(DrainRejected)
      }
    }

    predicate Terminal() { status.DrainCompleted? || status.DrainForced? || status.DrainRefused? }
  }

  /** An enrolled public key: its identifier and thumbprint. */
  datatype KeyIdentity = KeyIdentity(keyId: string, thumbprint: string, sound: bool)

  datatype AuthResult = AuthResult(
    account: Id, tunnel: Id, connector: Id, session: Id, host: Id, key: KeyIdentity, process: nat,
    credentialGeneration: nat, credentialExpiresAt: nat, leaseExpiresAt: nat) {
    predicate Valid(now: Instant) {
      && ValidIdentifier(account) && ValidIdentifier(tunnel) && ValidIdentifier(connector) && ValidIdentifier(host)
      && (session != "" ==> ValidIdentifier(session))
      && key.sound && process != 0 && credentialGeneration != 0
      && credentialExpiresAt != 0 && leaseExpiresAt != 0 && leaseExpiresAt <= credentialExpiresAt
      && credentialExpiresAt > now && leaseExpiresAt > now && leaseExpiresAt - now <= MAX_LEASE
    }
  }

  datatype RenewalRequest = RenewalRequest(
    binding: Binding, host: Id, key: KeyIdentity, credentialGeneration: nat, requestedAt: nat, sound: bool) {
    predicate ValidAt(now: Instant) {
      && binding.Valid() && ValidIdentifier(host) && key.sound && credentialGeneration != 0
      && requestedAt != 0 && sound
      && requestedAt <= now + MAX_CLOCK_SKEW && now - requestedAt <= MAX_CLOCK_SKEW
    }
  }

  /** The opening frame, after version and capability negotiation. */
  datatype Hello = Hello(account: Id, tunnel: Id, connector: Id, host: Id, key: KeyIdentity, process: nat, sound: bool)

  datatype SessionState = New | AwaitingSnapshot | AwaitingReady | Ready | Draining | Closed
}
