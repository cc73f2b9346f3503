/** The rotation coordinator as a function from state and input to state, store writes and result.

    Each target moves through phases on its own; revoking is gated on all of them. Whether a store write succeeds,
    whether the signatures verify and what recovery loads are inputs. */
module RotationSpec {
  import opened Wrappers
  import opened Protocol
  import opened RotationMessages

  datatype Phase = Pending | Challenged | Installed | Replaced | Revoking | Revoked | Failed {
    function Rank(): nat {
      match this
      case Pending => 0
      case Challenged => 1
      case Installed => 2
      case Replaced => 3
      case Revoking => 4
      case Revoked => 5
      case Failed => 6
    }
  }

  /** One target; a message that was never recorded is `None`. */
  datatype Progress = Progress(
    target: Target, phase: Phase, code: Option<Code>,
    challenge: Option<Challenge>, proof: Option<Proof>, install: Option<Install>,
    ready: Option<ReadyReport>, revoke: Option<Revocation>)

  datatype Coordinator = Coordinator(plan: Plan, started: bool, finished: nat, targets: map<Id, Progress>)

  function NewTarget(target: Target): Progress { Progress(target, Pending, None, None, None, None, None, None) }

  /** The first `n` targets, all pending. */
  function NewTargets(targets: seq<Target>, n: nat): map<Id, Progress>
    requires n <= |targets|
    decreases n
  {
    if n == 0 then map[] else NewTargets(targets, n - 1)[targets[n - 1].connector := NewTarget(targets[n - 1])]
  }

  function NewCoordinator(plan: Plan): Outcome<Coordinator> {
    if plan.Valid() then Ok(Coordinator(plan, false, 0, NewTargets(plan.targets, |plan.targets|)))
    else Err(InvalidInput)
  }

  // ---------------------------------------------------------------------------------------------
  // Aggregate

  datatype Aggregate = AggregatePending | AggregateSucceeded | AggregateFailed
  datatype Line = Line(target: Target, phase: Phase, code: Option<Code>)
  datatype Summary = Summary(status: Aggregate, lines: seq<Line>, completedAt: nat)

  predicate AnyFailed(c: Coordinator) { exists k :: k in c.targets && c.targets[k].phase.Failed? }
  predicate AllRevoked(c: Coordinator) { forall k :: k in c.targets ==> c.targets[k].phase.Revoked? }

  predicate AllReady(c: Coordinator) {
    forall k :: k in c.targets ==>
      c.targets[k].phase.Replaced? || c.targets[k].phase.Revoking? || c.targets[k].phase.Revoked?
  }

  function Status(c: Coordinator): Aggregate {
    if AnyFailed(c) then AggregateFailed else if AllRevoked(c) then AggregateSucceeded else AggregatePending
  }

  function LineOf(c: Coordinator, target: Target): Line {
    if target.connector in c.targets then
      Line(target, c.targets[target.connector].phase, c.targets[target.connector].code)
    else Line(target, Pending, None)
  }

  function SummaryOf(c: Coordinator): Summary {
    Summary(Status(c), seq(|c.plan.targets|, i requires 0 <= i < |c.plan.targets| => LineOf(c, c.plan.targets[i])),
            if Status(c).AggregateSucceeded? then c.finished else 0)
  }

  // ---------------------------------------------------------------------------------------------
  // One target

  datatype Entry =
    | Begun(plan: Plan)
    | ChallengeEntry(challenge: Challenge)
    | ProofEntry(challenge: Challenge, proof: Proof, install: Install)
    | ReadyEntry(ready: ReadyReport)
    | RevokeEntry(revoke: Revocation)
    | ResultEntry(ack: RotationAck, summary: Summary)

  datatype Reply =
    | Done
    | ChallengeReply(challenge: Challenge)
    | InstallReply(install: Install, ack: RotationAck)
    | AckReply(ack: RotationAck)
    | RevokeReply(revoke: Revocation)
    | SummaryReply(summary: Summary)

  /** What an operation does to the target it names. */
  datatype Turn = Turn(next: Progress, entry: Option<Entry>, out: Outcome<Reply>)

  function Unmoved(p: Progress, code: Code): Turn { Turn(p, None, Err(code)) }

  function Broken(p: Progress): Progress { p.(phase := Failed, code := Some(RotationFailed)) }

  /** What a caller asks a challenge to say. */
  datatype Terms = Terms(
    session: Id, process: nat, oldKey: KeyIdentity, nonce: string,
    issuedAt: nat, expiresAt: nat, overlapUntil: nat, validUntil: nat)

  function ChallengeFor(plan: Plan, target: Target, t: Terms): Challenge {
    Challenge(plan.EnvelopeOf(target, t.session, t.process), target, t.oldKey, t.nonce, t.issuedAt, t.expiresAt,
              t.overlapUntil, t.validUntil)
  }

  /** A target is challenged once, or again when its challenge has expired. */
  predicate Challengeable(p: Progress, now: Instant) {
    || p.phase.Pending?
    || (p.phase.Challenged? && p.challenge.Some? && p.challenge.value.expiresAt != 0
        && p.challenge.value.expiresAt <= now)
  }

  function ChallengeTurn(plan: Plan, p: Progress, now: Instant, t: Terms, denied: Option<Code>, stored: bool): Turn {
    var c := ChallengeFor(plan, p.target, t);
    if !Challengeable(p, now) then Unmoved(p, SessionConflict)
    else if c.Refusal(now).Some? then Unmoved(p, c.Refusal(now).value)
    else if denied.Some? then Unmoved(p, denied.value)
    else if !stored then Unmoved(p, RotationFailed)
    else Turn(p.(phase := Challenged, challenge := Some(c)), Some(ChallengeEntry(c)), Ok(ChallengeReply(c)))
  }

  function InstallFor(plan: Plan, c: Challenge, proof: Proof): Install {
    Install(proof.env.(account := plan.account, tunnel := plan.tunnel, operation := plan.operation,
                       setHash := plan.setHash),
            proof.newKey, proof.nonce, c.overlapUntil, proof.validUntil, proof.env.process + 1)
  }

  function ProofTurn(plan: Plan, p: Progress, now: Instant, proof: Proof, verified: bool, stored: bool): Turn {
    if !p.phase.Challenged? || p.challenge.None? then Unmoved(p, StaleGeneration)
    else
      var c := p.challenge.value;
      var install := InstallFor(plan, c, proof);
      if !proof.Answers(c, p.target) then Unmoved(p, IdentityMismatch)
      else if !verified then Unmoved(p, AuthenticationFailed)
      else if install.Refusal(now).Some? then Unmoved(p, install.Refusal(now).value)
      else if !stored then Turn(Broken(p), None, Err(RotationFailed))
      else Turn(p.(phase := Installed, proof := Some(proof), install := Some(install)),
                Some(ProofEntry(c, proof, install)),
                Ok(InstallReply(install, RotationAck(install.env, InstalledAck, None, true))))
  }

  function ReadyTurn(plan: Plan, p: Progress, ready: ReadyReport, stored: bool): Turn {
    if !p.phase.Installed? || p.install.None? then Unmoved(p, StaleGeneration)
    else if !ready.Follows(plan, p.install.value) then Unmoved(p, IdentityMismatch)
    else if !stored then Turn(Broken(p), None, Err(RotationFailed))
    else Turn(p.(phase := Replaced, ready := Some(ready)), Some(ReadyEntry(ready)),
              Ok(AckReply(RotationAck(ready.env, ReadyAck, None, true))))
  }

  function RevocationFor(plan: Plan, p: Progress, now: Instant, nonce: string): Revocation
    requires p.ready.Some?
  {
    Revocation(plan.EnvelopeOf(p.target, p.ready.value.env.session, p.ready.value.env.process), nonce, now,
               now + ABORT_TIMEOUT)
  }

  /** Revoking one target, once the aggregate gate has passed. */
  function RevokeTurn(plan: Plan, p: Progress, now: Instant, nonce: Outcome<string>, stored: bool): Turn {
    if p.phase.Revoking? && p.revoke.Some? then Turn(p, None, Ok(RevokeReply(p.revoke.value)))
    else if !p.phase.Replaced? || p.ready.None? then Unmoved(p, StaleGeneration)
    else if nonce.Err? then Unmoved(p, nonce.code)
    else
      var revoke := RevocationFor(plan, p, now, nonce.value);
      if !revoke.Shape() then Unmoved(p, InvalidInput)
      else if !stored then Turn(Broken(p), None, Err(RotationFailed))
      else Turn(p.(phase := Revoking, revoke := Some(revoke)), Some(RevokeEntry(revoke)), Ok(RevokeReply(revoke)))
  }

  /** The session that may speak for a target in its current phase. */
  function Speaker(p: Progress): Option<(Id, nat)> {
    match p.phase
    case Challenged =>
      if p.challenge.Some? then Some((p.challenge.value.env.session, p.challenge.value.env.process)) else None
    case Installed =>
      if p.challenge.Some? then Some((p.challenge.value.env.session, p.challenge.value.env.process)) else None
    case Replaced => if p.ready.Some? then Some((p.ready.value.env.session, p.ready.value.env.process)) else None
    case Revoking => if p.revoke.Some? then Some((p.revoke.value.env.session, p.revoke.value.env.process)) else None
    case _ => None
  }

  predicate SpeaksFor(p: Progress, ack: RotationAck) {
    Speaker(p).Some? && Speaker(p).value.0 != "" && Speaker(p).value.1 > 0
      && (ack.env.session, ack.env.process) == Speaker(p).value
  }

  predicate Confirms(ack: RotationAck, env: Option<Envelope>) {
    env.Some? && ack.env.session == env.value.session && ack.env.process == env.value.process
  }

  function EnvOfInstall(i: Option<Install>): Option<Envelope> { if i.Some? then Some(i.value.env) else None }
  function EnvOfReady(r: Option<ReadyReport>): Option<Envelope> { if r.Some? then Some(r.value.env) else None }
  function EnvOfRevoke(r: Option<Revocation>): Option<Envelope> { if r.Some? then Some(r.value.env) else None }

  datatype AckEffect = Refuses(code: Code) | FailsTarget | ConfirmsOnly | RevokesTarget

  function EffectOf(p: Progress, ack: RotationAck): AckEffect {
    if p.phase.Revoked? || p.phase.Failed? then Refuses(StaleGeneration)
    else if ack.Negative() then (if SpeaksFor(p, ack) then FailsTarget else Refuses(IdentityMismatch))
    else match ack.status
      case InstalledAck =>
        if p.phase.Installed? && Confirms(ack, EnvOfInstall(p.install)) then ConfirmsOnly else Refuses(StaleGeneration)
      case ReadyAck =>
        if p.phase.Replaced? && Confirms(ack, EnvOfReady(p.ready)) then ConfirmsOnly else Refuses(StaleGeneration)
      case RevokedAck =>
        if p.phase.Revoking? && Confirms(ack, EnvOfRevoke(p.revoke)) then RevokesTarget else Refuses(StaleGeneration)
      case _ => Refuses(StaleGeneration)
  }

  // ---------------------------------------------------------------------------------------------
  // Recovery

  datatype Record = Record(
    target: Target, phase: Phase, code: Option<Code>, overlapUntil: nat, validUntil: nat,
    challenge: Option<Challenge>, proof: Option<Proof>, install: Option<Install>,
    ready: Option<ReadyReport>, revoke: Option<Revocation>)

  datatype Loaded = Loaded(plan: Plan, started: bool, finishedAt: nat, records: seq<Record>)

  predicate HasChallenge(r: Record) { r.challenge.Some? && r.challenge.value.env.session != "" }
  predicate HasInstall(r: Record) { r.install.Some? && r.install.value.env.session != "" }
  predicate HasReady(r: Record) { r.ready.Some? && r.ready.value.env.session != "" }
  predicate HasRevoke(r: Record) { r.revoke.Some? && r.revoke.value.env.session != "" }

  predicate ChallengeBelongs(plan: Plan, target: Target, c: Challenge) {
    c.Shape() && c.target == target && c.env == plan.EnvelopeOf(target, c.env.session, c.env.process)
  }

  predicate InstallBelongs(plan: Plan, target: Target, c: Challenge, i: Install) {
    i.Shape() && i.env == plan.EnvelopeOf(target, c.env.session, c.env.process) && i.nonce == c.nonce
  }

  predicate ReadyBelongs(plan: Plan, target: Target, i: Install, r: ReadyReport) {
    && r.Shape() && r.env == plan.EnvelopeOf(target, r.env.session, r.env.process)
    && r.previousSession == i.env.session && r.env.session != i.env.session && r.env.process >= i.replacement
    && r.newKey == i.newKey && r.validUntil == i.validUntil
  }

  predicate RevokeBelongs(plan: Plan, target: Target, ready: ReadyReport, r: Revocation) {
    && r.Shape() && r.env == plan.EnvelopeOf(target, r.env.session, r.env.process)
    && ((r.env.process == ready.env.process && r.env.session == ready.env.session)
        || (r.env.process > ready.env.process && r.env.session != ready.env.session))
  }

  /** No later message without its predecessor. */
  predicate Chained(r: Record) {
    (HasRevoke(r) ==> HasReady(r)) && (HasReady(r) ==> HasInstall(r)) && (HasInstall(r) ==> HasChallenge(r))
  }

  predicate PhaseFits(r: Record) {
    match r.phase
    case Pending => !HasChallenge(r)
    case Challenged => HasChallenge(r) && !HasInstall(r)
    case Installed => HasInstall(r) && !HasReady(r)
    case Replaced => HasReady(r) && !HasRevoke(r)
    case Revoking => HasRevoke(r)
    case Revoked => HasRevoke(r)
    case Failed => true
  }

  predicate MessagesBelong(plan: Plan, r: Record) {
    && (HasChallenge(r) ==> ChallengeBelongs(plan, r.target, r.challenge.value))
    && (HasChallenge(r) && HasInstall(r) ==> InstallBelongs(plan, r.target, r.challenge.value, r.install.value))
    && (HasInstall(r) && HasReady(r) ==> ReadyBelongs(plan, r.target, r.install.value, r.ready.value))
    && (HasReady(r) && HasRevoke(r) ==> RevokeBelongs(plan, r.target, r.ready.value, r.revoke.value))
  }

  /** `validateRotationResumeTarget`. */
  predicate ValidRecord(plan: Plan, r: Record) {
    && r.target.Valid() && r.target in plan.targets
    && (r.phase.Failed? <==> r.code.Some?)
    && (r.overlapUntil == 0 <==> r.validUntil == 0) && (r.overlapUntil != 0 ==> r.validUntil > r.overlapUntil)
    && Chained(r) && MessagesBelong(plan, r) && PhaseFits(r)
  }

  predicate Recoverable(c: Coordinator, r: Record) {
    r.target.connector in c.targets && c.targets[r.target.connector].target == r.target && ValidRecord(c.plan, r)
  }

  predicate AllRecoverable(c: Coordinator, records: seq<Record>) {
    forall i {:trigger Recoverable(c, records[i])} :: 0 <= i < |records| ==> Recoverable(c, records[i])
  }

  predicate Distinct(records: seq<Record>) {
    forall i, j :: 0 <= i < j < |records| ==> records[i].target.connector != records[j].target.connector
  }

  predicate Terminal(records: seq<Record>) {
    || (exists i :: 0 <= i < |records| && records[i].phase.Failed?)
    || (forall i :: 0 <= i < |records| ==> records[i].phase.Revoked?)
  }

  function ResumeRefusal(c: Coordinator, loaded: Loaded, now: Instant): Option<Code> {
    if |loaded.records| != |c.targets| then Some(IdentityMismatch)
    else if !Distinct(loaded.records) || !AllRecoverable(c, loaded.records) then Some(IdentityMismatch)
    else if loaded.finishedAt != 0 && (!Terminal(loaded.records) || loaded.finishedAt > now + MAX_CLOCK_SKEW) then
      Some(IdentityMismatch)
    else None
  }

  function Recovered(p: Progress, r: Record): Progress {
    p.(phase := r.phase, code := r.code, challenge := r.challenge, proof := r.proof, install := r.install,
       ready := r.ready, revoke := r.revoke)
  }

  /** The targets after the first `n` records have been taken over. */
  function Overlay(targets: map<Id, Progress>, records: seq<Record>, n: nat): map<Id, Progress>
    requires n <= |records|
    decreases n
  {
    if n == 0 then targets
    else
      var before := Overlay(targets, records, n - 1);
      var k := records[n - 1].target.connector;
      if k in before then before[k := Recovered(before[k], records[n - 1])] else before
  }

  function Resume(c: Coordinator, loaded: Outcome<Loaded>, now: Instant): Step {
    if loaded.Err? then Stay(c, RotationFailed)
    else if !loaded.value.started || !loaded.value.plan.Same(c.plan) || !loaded.value.plan.Valid() then
      Stay(c, IdentityMismatch)
    else if c.started then Step(c, None, Ok(Done))
    else
      var refusal := ResumeRefusal(c, loaded.value, now);
      if refusal.Some? then Stay(c, refusal.value)
      else Step(c.(started := true, finished := loaded.value.finishedAt,
                   targets := Overlay(c.targets, loaded.value.records, |loaded.value.records|)),
                None, Ok(Done))
  }

  // ---------------------------------------------------------------------------------------------
  // Operations

  datatype Step = Step(next: Coordinator, entry: Option<Entry>, out: Outcome<Reply>)

  function Stay(c: Coordinator, code: Code): Step { Step(c, None, Err(code)) }

  function With(c: Coordinator, k: Id, turn: Turn): Step {
    Step(c.(targets := c.targets[k := turn.next]), turn.entry, turn.out)
  }

  function Start(c: Coordinator, stored: bool): Step {
    if c.started then Step(c, None, Ok(Done))
    else if !stored then Stay(c, RotationFailed)
    else Step(c.(started := true), Some(Begun(c.plan)), Ok(Done))
  }

  function ChallengeOp(c: Coordinator, now: Instant, k: Id, t: Terms, denied: Option<Code>, stored: bool): Step {
    if !c.started then Stay(c, InvalidInput)
    else if k !in c.targets then Stay(c, IdentityMismatch)
    else With(c, k, ChallengeTurn(c.plan, c.targets[k], now, t, denied, stored))
  }

  function AcceptProof(c: Coordinator, now: Instant, proof: Proof, verified: bool, stored: bool): Step {
    var k := proof.env.connector;
    if proof.Refusal(now).Some? then Stay(c, proof.Refusal(now).value)
    else if k !in c.targets then Stay(c, StaleGeneration)
    else With(c, k, ProofTurn(c.plan, c.targets[k], now, proof, verified, stored))
  }

  function MarkReady(c: Coordinator, now: Instant, ready: ReadyReport, stored: bool): Step {
    var k := ready.env.connector;
    if ready.Refusal(now).Some? then Stay(c, ready.Refusal(now).value)
    else if k !in c.targets then Stay(c, StaleGeneration)
    else With(c, k, ReadyTurn(c.plan, c.targets[k], ready, stored))
  }

  function Revoke(c: Coordinator, now: Instant, k: Id, nonce: Outcome<string>, stored: bool): Step {
    if k !in c.targets then Stay(c, IdentityMismatch)
    else if Status(c).AggregateFailed? then Stay(c, RotationFailed)
    else if !AllReady(c) then Stay(c, RotationNotReady)
    else With(c, k, RevokeTurn(c.plan, c.targets[k], now, nonce, stored))
  }

  function FailedTarget(c: Coordinator, k: Id, code: Code): Coordinator
    requires k in c.targets
  {
    c.(targets := c.targets[k := c.targets[k].(phase := Failed, code := Some(code))])
  }

  /** A recorded failure stays; one that could not be recorded is taken back. */
  function RecordFailure(c: Coordinator, k: Id, code: Code, ack: RotationAck, stored: bool): Step
    requires k in c.targets
  {
    var failed := FailedTarget(c, k, code);
    if stored then Step(failed, Some(ResultEntry(ack, SummaryOf(failed))), Err(RotationFailed))
    else Stay(c, RotationFailed)
  }

  function RevokedTarget(c: Coordinator, k: Id, now: Instant): Coordinator
    requires k in c.targets
  {
    var next := c.(targets := c.targets[k := c.targets[k].(phase := Revoked)]);
    if Status(next).AggregateSucceeded? then next.(finished := now) else next
  }

  /** The answer to an acknowledgement that names target `k` of this operation. */
  function AckStep(c: Coordinator, now: Instant, k: Id, ack: RotationAck, stored: bool): Step
    requires k in c.targets && ack.Valid()
  {
    match EffectOf(c.targets[k], ack)
    case Refuses(code) => Stay(c, code)
    case FailsTarget => RecordFailure(c, k, ack.code.value, ack, stored)
    case ConfirmsOnly => Step(c, None, Ok(SummaryReply(SummaryOf(c))))
    case RevokesTarget =>
      var next := RevokedTarget(c, k, now);
      if stored then Step(next, Some(ResultEntry(ack, SummaryOf(next))), Ok(SummaryReply(SummaryOf(next))))
      else Step(FailedTarget(next, k, RotationFailed), None, Err(RotationFailed))
  }

  function HandleAck(c: Coordinator, now: Instant, ack: RotationAck, stored: bool): Step {
    var k := ack.env.connector;
    if !ack.Valid() then Stay(c, InvalidInput)
    else if k !in c.targets || ack.env != c.plan.EnvelopeOf(c.targets[k].target, ack.env.session, ack.env.process) then
      Stay(c, IdentityMismatch)
    else AckStep(c, now, k, ack, stored)
  }

  function FailureAck(c: Coordinator, p: Progress, code: Code): RotationAck {
    var env := if p.revoke.Some? && p.revoke.value.env.session != "" then
                 (p.revoke.value.env.session, p.revoke.value.env.process)
               else if p.ready.Some? && p.ready.value.env.session != "" then
                 (p.ready.value.env.session, p.ready.value.env.process)
               else if p.challenge.Some? then (p.challenge.value.env.session, p.challenge.value.env.process)
               else ("", 0);
    RotationAck(c.plan.EnvelopeOf(p.target, env.0, env.1), FailedAck, Some(code), true)
  }

  function Fail(c: Coordinator, k: Id, code: Option<Code>, stored: bool): Step {
    if code.None? then Stay(c, InvalidInput)
    else if k !in c.targets then Stay(c, IdentityMismatch)
    else if c.targets[k].phase.Revoked? then Stay(c, StaleGeneration)
    else if c.targets[k].phase.Failed? then Stay(c, RotationFailed)
    else RecordFailure(c, k, code.value, FailureAck(c, c.targets[k], code.value), stored)
  }

  datatype Op =
    | StartOp
    | ResumeOp(loaded: Outcome<Loaded>)
    | IssueChallenge(connector: Id, terms: Terms, denied: Option<Code>)
    | GetProof(proof: Proof, verified: bool)
    | GetReady(ready: ReadyReport)
    | OrderRevoke(connector: Id, nonce: Outcome<string>)
    | GetAck(ack: RotationAck)
    | FailTarget(connector: Id, code: Option<Code>)

  /** One call, the clock it read and whether its store write succeeds. */
  datatype Input = Input(now: Instant, stored: bool, op: Op)

  function Do(c: Coordinator, i: Input): Step {
    match i.op
    case StartOp => Start(c, i.stored)
    case ResumeOp(loaded) => Resume(c, loaded, i.now)
    case IssueChallenge(k, terms, denied) => ChallengeOp(c, i.now, k, terms, denied, i.stored)
    case GetProof(proof, verified) => AcceptProof(c, i.now, proof, verified, i.stored)
    case GetReady(ready) => MarkReady(c, i.now, ready, i.stored)
    case OrderRevoke(k, nonce) => Revoke(c, i.now, k, nonce, i.stored)
    case GetAck(ack) => HandleAck(c, i.now, ack, i.stored)
    case FailTarget(k, code) => Fail(c, k, code, i.stored)
  }

  function Run(c: Coordinator, inputs: seq<Input>): Coordinator
    decreases |inputs|
  {
    if inputs == [] then c else Run(Do(c, inputs[0]).next, inputs[1..])
  }
}
