/** The plan and the messages of a credential rotation, with the checks each carries.

    A check made with the zero clock reading skips the comparisons with the clock; it is written `Shape` here,
    and `Refusal(now)` is the full check. */
module RotationMessages {
  import opened Wrappers
  import opened Protocol

  const MAX_TARGETS: nat := 256
  const MAX_NONCE: nat := 128
  const MAX_CHALLENGE: nat := 15 * MINUTE
  const MAX_LIFETIME: nat := 5 * 365 * 24 * 60 * MINUTE

  predicate Space(c: char) {
    || '\U{0009}' <= c <= '\U{000D}' || c == ' ' || c == '\U{0085}' || c == '\U{00A0}' || c == '\U{1680}'
    || '\U{2000}' <= c <= '\U{200A}' || c == '\U{2028}' || c == '\U{2029}' || c == '\U{202F}' || c == '\U{205F}'
    || c == '\U{3000}'
  }

  predicate ValidNonce(s: string) {
    16 <= |s| <= MAX_NONCE && !Space(s[0]) && !Space(s[|s| - 1]) && '\r' !in s && '\n' !in s
  }

  datatype Target = Target(connector: Id, host: Id, oldGeneration: nat, newGeneration: nat) {
    predicate Valid() {
      ValidIdentifier(connector) && ValidIdentifier(host) && oldGeneration != 0 && newGeneration == oldGeneration + 1
    }
  }

  /** Bytewise string order. */
  predicate Below(a: string, b: string)
    decreases |a|
  {
    b != "" && (a == "" || a[0] < b[0] || (a[0] == b[0] && Below(a[1..], b[1..])))
  }

  predicate Differ(a: Target, b: Target) { a.connector != b.connector }

  predicate DistinctTargets(targets: seq<Target>) {
    forall i, j {:trigger Differ(targets[i], targets[j])} :: 0 <= i < j < |targets| ==> Differ(targets[i], targets[j])
  }

  /** `sound`: the target set hash is the digest of the other fields. */
  datatype Plan = Plan(account: Id, tunnel: Id, operation: Id, setHash: string, targets: seq<Target>, sound: bool) {
    predicate Valid() {
      && ValidIdentifier(account) && ValidIdentifier(tunnel) && ValidIdentifier(operation) && ValidHash(setHash)
      && sound
      && 0 < |targets| <= MAX_TARGETS
      && (forall i {:trigger targets[i].Valid()} :: 0 <= i < |targets| ==> targets[i].Valid())
      && (forall i, j {:trigger Below(targets[i].connector, targets[j].connector)} ::
            0 <= i && j == i + 1 < |targets| ==> Below(targets[i].connector, targets[j].connector))
      && DistinctTargets(targets)
    }

    /** The identity fields every message about `target` carries. */
    function EnvelopeOf(target: Target, session: Id, process: nat): Envelope {
      Envelope(account, tunnel, operation, target.connector, target.host, session, process, setHash,
               target.oldGeneration, target.newGeneration)
    }

    predicate Same(other: Plan) {
      account == other.account && tunnel == other.tunnel && operation == other.operation && setHash == other.setHash
    }
  }

  datatype Envelope = Envelope(
    account: Id, tunnel: Id, operation: Id, connector: Id, host: Id, session: Id, process: nat,
    setHash: string, oldGeneration: nat, newGeneration: nat) {
    predicate Valid() {
      && ValidIdentifier(account) && ValidIdentifier(tunnel) && ValidIdentifier(operation)
      && ValidIdentifier(connector) && ValidIdentifier(host) && ValidIdentifier(session)
      && process != 0 && ValidHash(setHash) && oldGeneration != 0 && newGeneration == oldGeneration + 1
    }
  }

  /** The replacement key: whether it decodes, whether it matches its thumbprint, and whether the reference to its
      stored credential is well formed are outcomes of encodings. */
  datatype NewKey = NewKey(identity: KeyIdentity, publicKey: string, reference: string, decodes: bool, matches: bool,
                           referenced: bool) {
    predicate Shape() { identity.sound && referenced }

    predicate Sound() { decodes && matches }

    function Refusal(): Option<Code> {
      if !decodes then Some(InvalidInput) else if !matches then Some(IdentityMismatch) else None
    }
  }

  datatype Challenge = Challenge(
    env: Envelope, target: Target, oldKey: KeyIdentity, nonce: string,
    issuedAt: nat, expiresAt: nat, overlapUntil: nat, validUntil: nat) {
    predicate Windows() {
      && issuedAt != 0 && issuedAt < expiresAt < overlapUntil < validUntil
      && expiresAt - issuedAt <= MAX_CHALLENGE && overlapUntil - issuedAt <= MAX_LEASE
      && validUntil - issuedAt <= MAX_LIFETIME
    }

    predicate NamesTarget() {
      && target.Valid() && target.connector == env.connector && target.host == env.host
      && target.oldGeneration == env.oldGeneration && target.newGeneration == env.newGeneration
    }

    predicate Shape() { env.Valid() && oldKey.sound && ValidNonce(nonce) && Windows() && NamesTarget() }

    predicate Timely(now: Instant) {
      issuedAt <= now + MAX_CLOCK_SKEW && now - issuedAt <= MAX_CLOCK_SKEW && expiresAt > now && overlapUntil > now
    }

    function Refusal(now: Instant): Option<Code> {
      if !(env.Valid() && oldKey.sound && ValidNonce(nonce) && Windows()) then Some(InvalidInput)
      else if !NamesTarget() then Some(IdentityMismatch)
      else if !Timely(now) then Some(CredentialExpired)
      else None
    }
  }

  /** `signed`: both signatures are well-formed encodings. */
  datatype Proof = Proof(
    env: Envelope, oldKey: KeyIdentity, newKey: NewKey, nonce: string, issuedAt: nat, validUntil: nat, signed: bool) {
    predicate Shape() {
      && env.Valid() && oldKey.sound && newKey.Shape() && oldKey.keyId != newKey.identity.keyId && ValidNonce(nonce)
      && issuedAt != 0 && issuedAt < validUntil && validUntil - issuedAt <= MAX_LIFETIME
    }

    function Refusal(now: Instant): Option<Code> {
      if !Shape() then Some(InvalidInput)
      else if newKey.Refusal().Some? then newKey.Refusal()
      else if !signed then Some(InvalidInput)
      else if issuedAt > now + MAX_CLOCK_SKEW || now - issuedAt > MAX_CLOCK_SKEW then Some(AuthenticationFailed)
      else None
    }

    predicate Answers(c: Challenge, target: Target) {
      && env == c.env.(oldGeneration := target.oldGeneration, newGeneration := target.newGeneration)
      && oldKey == c.oldKey && nonce == c.nonce && validUntil == c.validUntil
      && c.issuedAt <= issuedAt <= c.expiresAt
    }
  }

  datatype Install = Install(env: Envelope, newKey: NewKey, nonce: string, overlapUntil: nat, validUntil: nat,
                             replacement: nat) {
    predicate Fields() {
      && env.Valid() && replacement > env.process && newKey.Shape() && ValidNonce(nonce)
      && overlapUntil != 0 && overlapUntil < validUntil && validUntil - overlapUntil <= MAX_LIFETIME
    }

    predicate Shape() { Fields() && newKey.Sound() }

    function Refusal(now: Instant): Option<Code> {
      if !Fields() then Some(InvalidInput)
      else if newKey.Refusal().Some? then newKey.Refusal()
      else if overlapUntil <= now then Some(CredentialExpired)
      else None
    }
  }

  datatype ReadyReport = ReadyReport(
    env: Envelope, previousSession: Id, newKey: NewKey, validUntil: nat, config: Config,
    edge: bool, route: bool, origin: bool, readyAt: nat) {
    predicate Fields() {
      && env.Valid() && ValidIdentifier(previousSession) && newKey.Shape() && validUntil != 0
      && config.generation != 0 && ValidHash(config.hash) && readyAt != 0
    }

    predicate Shape() { Fields() && newKey.Sound() && edge && route && origin }

    function Refusal(now: Instant): Option<Code> {
      if !Fields() then Some(InvalidInput)
      else if newKey.Refusal().Some? then newKey.Refusal()
      else if !(edge && route && origin) then Some(RotationNotReady)
      else if validUntil <= now then Some(CredentialExpired)
      else if readyAt < now - MAX_CLOCK_SKEW || readyAt > now + MAX_CLOCK_SKEW then Some(InvalidInput)
      else None
    }

    /** The replacement session this install asked for, on a later process. */
    predicate Follows(plan: Plan, i: Install) {
      && env == plan.EnvelopeOf(Target(i.env.connector, i.env.host, i.env.oldGeneration, i.env.newGeneration),
                                env.session, env.process)
      && env.session != i.env.session && previousSession == i.env.session && env.process >= i.replacement
      && newKey == i.newKey && validUntil == i.validUntil
    }
  }

  datatype Revocation = Revocation(env: Envelope, nonce: string, issuedAt: nat, deadline: nat) {
    predicate Shape() {
      && env.Valid() && ValidNonce(nonce) && issuedAt != 0 && issuedAt < deadline
      && deadline - issuedAt <= 2 * ABORT_TIMEOUT
    }
  }

  datatype RotationAckStatus = ProofAccepted | InstalledAck | ReadyAck | RevokedAck | RejectedAck | FailedAck

  /** `fits`: the free-text message is within its limit. */
  datatype RotationAck = RotationAck(env: Envelope, status: RotationAckStatus, code: Option<Code>, fits: bool) {
    predicate Negative() { status.RejectedAck? || status.FailedAck? }
    predicate Valid() { env.Valid() && fits && (Negative() <==> code.Some?) }
  }
}
