/** A coordinator beside its store, through restarts: recovery rebuilds the coordinator from the log of the writes
    that succeeded, and knows nothing else. */
module RotationTrail {
  import opened Wrappers
  import opened Protocol
  import opened RotationMessages
  import opened RotationSpec
  import opened RotationRuns
  import opened RotationTheorems

  datatype World = World(c: Coordinator, log: seq<Entry>)

  function Appended(log: seq<Entry>, e: Option<Entry>): seq<Entry> { if e.Some? then log + [e.value] else log }

  // ---------------------------------------------------------------------------------------------
  // Replaying the log

  /** The target an entry is about. */
  function Subject(e: Entry): Id {
    match e
    case Begun(_) => ""
    case ChallengeEntry(challenge) => challenge.env.connector
    case ProofEntry(_, proof, _) => proof.env.connector
    case ReadyEntry(ready) => ready.env.connector
    case RevokeEntry(revoke) => revoke.env.connector
    case ResultEntry(ack, _) => ack.env.connector
  }

  /** What an entry says of its target. */
  function Told(p: Progress, e: Entry): Progress {
    match e
    case Begun(_) => p
    case ChallengeEntry(challenge) => p.(phase := Challenged, challenge := Some(challenge))
    case ProofEntry(_, proof, install) => p.(phase := Installed, proof := Some(proof), install := Some(install))
    case ReadyEntry(ready) => p.(phase := Replaced, ready := Some(ready))
    case RevokeEntry(revoke) => p.(phase := Revoking, revoke := Some(revoke))
    case ResultEntry(ack, _) => if ack.Negative() then p.(phase := Failed, code := ack.code) else p.(phase := Revoked)
  }

  /** What an entry says of the operation. */
  function Retold(c: Coordinator, e: Entry): Coordinator {
    if e.Begun? then c.(started := true)
    else if Subject(e) !in c.targets then c
    else
      c.(targets := c.targets[Subject(e) := Told(c.targets[Subject(e)], e)],
         finished := if e.ResultEntry? && e.summary.completedAt != 0 then e.summary.completedAt else c.finished)
  }

  function Replay(plan: Plan, log: seq<Entry>): Coordinator
    requires plan.Valid()
    decreases |log|
  {
    if log == [] then NewCoordinator(plan).value else Retold(Replay(plan, log[..|log| - 1]), log[|log| - 1])
  }

  lemma ReplayAppended(plan: Plan, log: seq<Entry>, e: Entry)
    requires plan.Valid()
    ensures Replay(plan, log + [e]) == Retold(Replay(plan, log), e)
  {
    assert (log + [e])[..|log|] == log;
  }

  // ---------------------------------------------------------------------------------------------
  // Events

  /** A call, or a restart: a new coordinator resumes from the log. */
  datatype Event = Call(input: Input) | Restart(now: Instant)

  /** What recovery loads. */
  function Reloaded(w: World): Loaded
    requires w.c.plan.Valid() && WellFormed(Replay(w.c.plan, w.log))
  {
    Written(Replay(w.c.plan, w.log))
  }

  function Next(w: World, e: Event): World {
    match e
    case Call(i) => World(Do(w.c, i).next, Appended(w.log, Do(w.c, i).entry))
    case Restart(now) =>
      if w.c.plan.Valid() && WellFormed(Replay(w.c.plan, w.log)) then
        World(Resume(NewCoordinator(w.c.plan).value, Ok(Reloaded(w)), now).next, w.log)
      else w
  }

  /** Recovery happens only in restarts: of a started operation, and with a clock that has not gone far back. */
  predicate Allowed(w: World, e: Event) {
    match e
    case Call(i) => !i.op.ResumeOp?
    case Restart(now) =>
      w.c.plan.Valid() && Replay(w.c.plan, w.log).started && Replay(w.c.plan, w.log).finished <= now + MAX_CLOCK_SKEW
  }

  function Run(w: World, events: seq<Event>): World
    decreases |events|
  {
    if events == [] then w else Run(Next(w, events[0]), events[1..])
  }

  predicate AllowedRun(w: World, events: seq<Event>)
    decreases |events|
  {
    events == [] || (Allowed(w, events[0]) && AllowedRun(Next(w, events[0]), events[1..]))
  }

  // ---------------------------------------------------------------------------------------------
  // Each call writes all it changes, or fails one target in memory alone

  /** `q` is `p`, failed because a write failed. */
  predicate FailedUnstored(p: Progress, q: Progress) {
    !p.phase.Failed? && !p.phase.Revoked? && q == Broken(p)
  }

  /** The step changed nothing, or exactly what its write tells, of a target that had not ended; or it wrote nothing
      and failed one target. */
  ghost predicate Accounted(c: Coordinator, step: Step, k: Id) {
    if step.entry.Some? then
      && step.next == Retold(c, step.entry.value)
      && (step.entry.value.Begun? || (Subject(step.entry.value) == k && k in c.targets && Open(c.targets[k])))
      && (step.entry.value.RevokeEntry? ==> AllReady(c))
      && (step.entry.value.ResultEntry? && step.entry.value.summary.completedAt != 0 ==> AllRevoked(step.next))
    else
      step.next == c || FailsUnstored(c, step.next, k)
  }

  /** Neither failed nor revoked. */
  predicate Open(p: Progress) { !p.phase.Failed? && !p.phase.Revoked? }

  ghost predicate FailsUnstored(c: Coordinator, c': Coordinator, k: Id) {
    && k in c.targets && Open(c.targets[k])
    && c'.plan == c.plan && c'.started == c.started && c'.targets == c.targets[k := Broken(c.targets[k])]
  }

  function TargetOf(op: Op): Id {
    match op
    case IssueChallenge(k, _, _) => k
    case GetProof(proof, _) => proof.env.connector
    case GetReady(ready) => ready.env.connector
    case OrderRevoke(k, _) => k
    case GetAck(ack) => ack.env.connector
    case FailTarget(k, _) => k
    case _ => ""
  }

  /** A turn is accounted for: nothing, its write, or an unstored failure. */
  ghost predicate TurnAccounted(p: Progress, turn: Turn, k: Id) {
    if turn.entry.Some? then
      && !turn.entry.value.Begun? && !turn.entry.value.ResultEntry? && Subject(turn.entry.value) == k
      && Open(p) && turn.next == Told(p, turn.entry.value)
    else turn.next == p || FailedUnstored(p, turn.next)
  }

  lemma ChallengeTold(plan: Plan, p: Progress, now: Instant, t: Terms, denied: Option<Code>, stored: bool)
    ensures var turn := ChallengeTurn(plan, p, now, t, denied, stored);
            TurnAccounted(p, turn, p.target.connector) && (turn.entry.Some? ==> !turn.entry.value.RevokeEntry?)
  {}

  lemma ProofTold(plan: Plan, p: Progress, now: Instant, proof: Proof, verified: bool, stored: bool)
    ensures var turn := ProofTurn(plan, p, now, proof, verified, stored);
            TurnAccounted(p, turn, proof.env.connector) && (turn.entry.Some? ==> !turn.entry.value.RevokeEntry?)
  {}

  lemma ReadyTold(plan: Plan, p: Progress, ready: ReadyReport, stored: bool)
    ensures var turn := ReadyTurn(plan, p, ready, stored);
            TurnAccounted(p, turn, ready.env.connector) && (turn.entry.Some? ==> !turn.entry.value.RevokeEntry?)
  {}

  lemma RevokeTold(plan: Plan, p: Progress, now: Instant, nonce: Outcome<string>, stored: bool)
    ensures TurnAccounted(p, RevokeTurn(plan, p, now, nonce, stored), p.target.connector)
  {}

  lemma TurnTells(c: Coordinator, k: Id, turn: Turn)
    requires k in c.targets && TurnAccounted(c.targets[k], turn, k)
    requires turn.entry.Some? && turn.entry.value.RevokeEntry? ==> AllReady(c)
    ensures Accounted(c, With(c, k, turn), k)
  {
    if turn.entry.None? && turn.next == c.targets[k] { assert c.targets[k := turn.next] == c.targets; }
  }

  lemma ChallengeAccounted(c: Coordinator, i: Input)
    requires i.op.IssueChallenge? && WellFormed(c)
    ensures Accounted(c, Do(c, i), TargetOf(i.op))
  {
    var k := i.op.connector;
    if c.started && k in c.targets {
      ChallengeTold(c.plan, c.targets[k], i.now, i.op.terms, i.op.denied, i.stored);
      TurnTells(c, k, ChallengeTurn(c.plan, c.targets[k], i.now, i.op.terms, i.op.denied, i.stored));
    }
  }

  lemma ProofAccounted(c: Coordinator, i: Input)
    requires i.op.GetProof?
    ensures Accounted(c, Do(c, i), TargetOf(i.op))
  {
    var k := i.op.proof.env.connector;
    if i.op.proof.Refusal(i.now).None? && k in c.targets {
      ProofTold(c.plan, c.targets[k], i.now, i.op.proof, i.op.verified, i.stored);
      TurnTells(c, k, ProofTurn(c.plan, c.targets[k], i.now, i.op.proof, i.op.verified, i.stored));
    }
  }

  lemma ReadyAccounted(c: Coordinator, i: Input)
    requires i.op.GetReady?
    ensures Accounted(c, Do(c, i), TargetOf(i.op))
  {
    var k := i.op.ready.env.connector;
    if i.op.ready.Refusal(i.now).None? && k in c.targets {
      ReadyTold(c.plan, c.targets[k], i.op.ready, i.stored);
      TurnTells(c, k, ReadyTurn(c.plan, c.targets[k], i.op.ready, i.stored));
    }
  }

  lemma RevokeAccounted(c: Coordinator, i: Input)
    requires i.op.OrderRevoke? && WellFormed(c)
    ensures Accounted(c, Do(c, i), TargetOf(i.op))
  {
    var k := i.op.connector;
    if k in c.targets && !Status(c).AggregateFailed? && AllReady(c) {
      RevokeTold(c.plan, c.targets[k], i.now, i.op.nonce, i.stored);
      TurnTells(c, k, RevokeTurn(c.plan, c.targets[k], i.now, i.op.nonce, i.stored));
    }
  }

  lemma FailureAccounted(c: Coordinator, k: Id, code: Code, ack: RotationAck, stored: bool)
    requires k in c.targets && Open(c.targets[k]) && ack.Negative() && ack.code == Some(code) && ack.env.connector == k
    ensures Accounted(c, RecordFailure(c, k, code, ack, stored), k)
  {
    var failed := FailedTarget(c, k, code);
    assert failed.targets[k].phase.Failed?;
    assert SummaryOf(failed).completedAt == 0;
  }

  lemma RevokedAccounted(c: Coordinator, k: Id, now: Instant, ack: RotationAck)
    requires k in c.targets && c.targets[k].phase.Revoking? && !ack.Negative() && ack.env.connector == k
    ensures var next := RevokedTarget(c, k, now);
            Accounted(c, Step(next, Some(ResultEntry(ack, SummaryOf(next))), Ok(Done)), k)
  {
    var next := RevokedTarget(c, k, now);
    var bare := c.(targets := c.targets[k := c.targets[k].(phase := Revoked)]);
    assert Status(next) == Status(bare);
  }

  lemma AckAccounted(c: Coordinator, i: Input)
    requires i.op.GetAck?
    ensures Accounted(c, Do(c, i), TargetOf(i.op))
  {
    var ack := i.op.ack;
    var k := ack.env.connector;
    if ack.Valid() && k in c.targets
      && ack.env == c.plan.EnvelopeOf(c.targets[k].target, ack.env.session, ack.env.process) {
      var effect := EffectOf(c.targets[k], ack);
      if effect.FailsTarget? {
        FailureAccounted(c, k, ack.code.value, ack, i.stored);
      } else if effect.RevokesTarget? {
        RevokedAccounted(c, k, i.now, ack);
        UnrecordedIsFailure(c, k, i.now, RotationFailed);
      }
    }
  }

  lemma FailAccounted(c: Coordinator, i: Input)
    requires i.op.FailTarget? && WellFormed(c)
    ensures Accounted(c, Do(c, i), TargetOf(i.op))
  {
    var k := i.op.connector;
    if i.op.code.Some? && k in c.targets && Open(c.targets[k]) {
      FailureAccounted(c, k, i.op.code.value, FailureAck(c, c.targets[k], i.op.code.value), i.stored);
    }
  }

  /** Every call changes nothing, or writes exactly what it changes, or fails one target in memory alone. */
  lemma CallIsAccounted(c: Coordinator, i: Input)
    requires WellFormed(c) && !i.op.ResumeOp?
    ensures Accounted(c, Do(c, i), TargetOf(i.op))
  {
    match i.op {
      case StartOp =>
      case IssueChallenge(_, _, _) => ChallengeAccounted(c, i);
      case GetProof(_, _) => ProofAccounted(c, i);
      case GetReady(_) => ReadyAccounted(c, i);
      case OrderRevoke(_, _) => RevokeAccounted(c, i);
      case GetAck(_) => AckAccounted(c, i);
      case FailTarget(_, _) => FailAccounted(c, i);
    }
  }

  // ---------------------------------------------------------------------------------------------
  // The live coordinator and the replayed one

  predicate Mirrored(stored: Progress, live: Progress) { live == stored || FailedUnstored(stored, live) }

  /** The live coordinator is the replayed one, but for targets failed in memory alone. */
  ghost predicate Mirrors(live: Coordinator, stored: Coordinator) {
    && live.plan == stored.plan && live.started == stored.started && live.targets.Keys == stored.targets.Keys
    && (forall k {:trigger Mirrored(stored.targets[k], live.targets[k])} ::
          k in live.targets ==> Mirrored(stored.targets[k], live.targets[k]))
    && (live.targets == stored.targets ==> live.finished == stored.finished)
  }

  lemma RetoldMirrors(live: Coordinator, stored: Coordinator, e: Entry)
    requires Mirrors(live, stored)
    requires e.Begun? || (Subject(e) in live.targets && Open(live.targets[Subject(e)]))
    ensures Mirrors(Retold(live, e), Retold(stored, e))
    ensures !e.Begun? ==> Retold(stored, e).targets == stored.targets[Subject(e) := Retold(live, e).targets[Subject(e)]]
  {
    var live', stored' := Retold(live, e), Retold(stored, e);
    if !e.Begun? {
      assert Mirrored(stored.targets[Subject(e)], live.targets[Subject(e)]);
    }
    forall k | k in live'.targets ensures Mirrored(stored'.targets[k], live'.targets[k]) {
      assert Mirrored(stored.targets[k], live.targets[k]);
    }
    if live'.targets == stored'.targets && !e.Begun? {
      forall k | k in live.targets ensures live.targets[k] == stored.targets[k] {
        assert k != Subject(e) ==> live'.targets[k] == live.targets[k] && stored'.targets[k] == stored.targets[k];
      }
      assert live.targets == stored.targets;
    }
  }

  lemma UnstoredMirrors(live: Coordinator, live': Coordinator, stored: Coordinator, k: Id)
    requires Mirrors(live, stored) && FailsUnstored(live, live', k)
    ensures Mirrors(live', stored)
  {
    assert Mirrored(stored.targets[k], live.targets[k]);
    forall j | j in live'.targets ensures Mirrored(stored.targets[j], live'.targets[j]) {
      assert Mirrored(stored.targets[j], live.targets[j]);
    }
    assert live'.targets[k] != stored.targets[k];
  }

  /** If no live target has failed, nothing is failed in memory alone. */
  lemma NoneFailedIsSame(live: Coordinator, stored: Coordinator)
    requires Mirrors(live, stored) && forall k :: k in live.targets ==> !live.targets[k].phase.Failed?
    ensures live.targets == stored.targets
  {
    forall k | k in live.targets ensures live.targets[k] == stored.targets[k] {
      assert Mirrored(stored.targets[k], live.targets[k]);
    }
  }

  lemma AdvancedTarget(c: Coordinator, c': Coordinator, k: Id)
    requires Advanced(c, c') && k in c.targets
    ensures k in c'.targets && Moves(c.targets[k], c'.targets[k]) && TargetInv(c.plan, c'.targets[k])
    ensures !c.started ==> Untouched(c'.targets[k])
    ensures c'.targets[k].revoke == c.targets[k].revoke || AllReady(c)
  {
    if c'.targets != c.targets {
      var j, p :| MayMove(c, j, p) && c'.targets == c.targets[j := p];
    }
    assert TargetInv(c'.plan, c'.targets[k]);
    if !c.started { assert Untouched(c'.targets[k]); }
  }

  lemma StoredMayMove(live: Coordinator, stored: Coordinator, live': Coordinator, k: Id)
    requires Inv(live) && Mirrors(live, stored) && Advanced(live, live') && k in live.targets && Open(live.targets[k])
    ensures MayMove(stored, k, live'.targets[k])
  {
    AdvancedTarget(live, live', k);
    assert Mirrored(stored.targets[k], live.targets[k]);
    if AllReady(live) { NoneFailedIsSame(live, stored); }
  }

  /** What a call writes moves the replayed coordinator as it moves the live one, and keeps its invariant. */
  lemma RetoldKeepsInv(live: Coordinator, stored: Coordinator, i: Input)
    requires Inv(live) && Inv(stored) && Mirrors(live, stored) && !i.op.ResumeOp? && !i.op.StartOp?
    requires Do(live, i).entry.Some? && !Do(live, i).entry.value.Begun? && Accounted(live, Do(live, i), TargetOf(i.op))
    ensures Inv(Retold(stored, Do(live, i).entry.value))
  {
    var live' := Do(live, i).next;
    var e := Do(live, i).entry.value;
    var k := Subject(e);
    CallAdvances(live, i);
    StoredMayMove(live, stored, live', k);
    MoveKeepsInv(stored, k, live'.targets[k]);
    RetoldMirrors(live, stored, e);
    var moved := stored.(targets := stored.targets[k := live'.targets[k]]);
    var stored' := Retold(stored, e);
    if stored'.finished == moved.finished {
      assert stored' == moved;
    } else {
      ResultIsStarted(live, i);
      RetoldFinishes(live', stored', moved);
    }
  }

  lemma RetoldFinishes(live': Coordinator, stored': Coordinator, moved: Coordinator)
    requires Mirrors(live', stored') && AllRevoked(live') && Inv(moved) && moved.started
    requires stored' == moved.(finished := stored'.finished)
    ensures Inv(stored')
  {
    NoneFailedIsSame(live', stored');
    assert AllRevoked(moved);
    FinishKeepsInv(moved, stored'.finished);
  }

  lemma BegunKeepsInv(c: Coordinator)
    requires Inv(c)
    ensures Inv(c.(started := true))
  {
    var c' := c.(started := true);
    assert Status(c') == Status(c);
    assert AllValid(c') && Gate(c') && WellFormed(c');
  }

  /** A finished aggregate was started. */
  lemma ResultIsStarted(c: Coordinator, i: Input)
    requires Inv(c) && Inv(Do(c, i).next) && Accounted(c, Do(c, i), TargetOf(i.op)) && !i.op.StartOp? && !i.op.ResumeOp?
    requires Do(c, i).entry.Some? && !Do(c, i).entry.value.Begun? && AllRevoked(Do(c, i).next)
    ensures c.started
  {
    var step := Do(c, i);
    var k := Subject(step.entry.value);
    assert !Untouched(step.next.targets[k]);
  }

  // ---------------------------------------------------------------------------------------------
  // What the log says of failures and readiness

  predicate IsFailureOf(e: Entry, k: Id) { e.ResultEntry? && e.ack.Negative() && e.ack.env.connector == k }

  /** The failure of target `k` is in the store. */
  predicate StoredFailure(log: seq<Entry>, k: Id) { exists e :: e in log && IsFailureOf(e, k) }

  ghost predicate FailuresTold(stored: Coordinator, log: seq<Entry>) {
    forall k {:trigger StoredFailure(log, k)} :: k in stored.targets ==>
      (stored.targets[k].phase.Failed? <==> StoredFailure(log, k))
  }

  lemma StoredFailureOf(log: seq<Entry>, e: Entry, k: Id)
    ensures StoredFailure(log + [e], k) <==> StoredFailure(log, k) || IsFailureOf(e, k)
  {
    if StoredFailure(log, k) {
      var x :| x in log && IsFailureOf(x, k);
      assert x in log + [e];
    }
    if IsFailureOf(e, k) { assert e in log + [e]; }
  }

  lemma FailuresStayTold(live: Coordinator, stored: Coordinator, log: seq<Entry>, e: Entry)
    requires Mirrors(live, stored) && FailuresTold(stored, log)
    requires e.Begun? || (Subject(e) in live.targets && Open(live.targets[Subject(e)]))
    ensures FailuresTold(Retold(stored, e), log + [e])
  {
    var stored' := Retold(stored, e);
    forall k | k in stored'.targets ensures stored'.targets[k].phase.Failed? <==> StoredFailure(log + [e], k) {
      StoredFailureOf(log, e, k);
      assert Mirrored(stored.targets[k], live.targets[k]);
      assert stored.targets[k].phase.Failed? <==> StoredFailure(log, k);
    }
  }

  predicate IsReadyOf(e: Entry, t: Target) { e.ReadyEntry? && e.ready.env.connector == t.connector }

  predicate Reported(log: seq<Entry>, t: Target) { exists e :: e in log && IsReadyOf(e, t) }

  /** A replayed ready report is in the log. */
  lemma {:induction false} ReplayedReady(plan: Plan, log: seq<Entry>, k: Id)
    requires plan.Valid()
    ensures var s := Replay(plan, log);
            k in s.targets && s.targets[k].ready.Some? ==>
              exists e :: e in log && e.ReadyEntry? && e.ready.env.connector == k
    decreases |log|
  {
    if log == [] {
      NewTargetsAre(plan.targets);
    } else {
      ReplayedReady(plan, log[..|log| - 1], k);
      assert log == log[..|log| - 1] + [log[|log| - 1]];
    }
  }

  /** Every target of the plan has reported ready. */
  predicate AllReported(plan: Plan, log: seq<Entry>) {
    forall i {:trigger Reported(log, plan.targets[i])} :: 0 <= i < |plan.targets| ==> Reported(log, plan.targets[i])
  }

  predicate RevokesFollow(plan: Plan, log: seq<Entry>) {
    forall n {:trigger log[n].RevokeEntry?} :: 0 <= n < |log| && log[n].RevokeEntry? ==> AllReported(plan, log[..n])
  }

  lemma FollowsStill(plan: Plan, log: seq<Entry>, e: Option<Entry>)
    requires RevokesFollow(plan, log) && (e.Some? && e.value.RevokeEntry? ==> AllReported(plan, log))
    ensures RevokesFollow(plan, Appended(log, e))
  {
    if e.Some? {
      var log' := log + [e.value];
      forall n | 0 <= n < |log'| && log'[n].RevokeEntry? ensures AllReported(plan, log'[..n]) {
        if n < |log| {
          assert log[n].RevokeEntry?;
          assert log'[..n] == log[..n];
        } else {
          assert log'[..n] == log;
        }
      }
    }
  }

  /** When all targets are ready, the log has a ready report of each. */
  lemma AllReadyIsReported(w: World)
    requires WorldInv(w) && AllReady(w.c)
    ensures AllReported(w.c.plan, w.log)
  {
    var stored := Replay(w.c.plan, w.log);
    NoneFailedIsSame(w.c, stored);
    AllReadyMeans(w.c);
    forall i | 0 <= i < |w.c.plan.targets| ensures Reported(w.log, w.c.plan.targets[i]) {
      var k := w.c.plan.targets[i].connector;
      assert IsReady(w.c.targets[k]);
      ReplayedReady(w.c.plan, w.log, k);
      var e :| e in w.log && e.ReadyEntry? && e.ready.env.connector == k;
      assert IsReadyOf(e, w.c.plan.targets[i]);
    }
  }

  // ---------------------------------------------------------------------------------------------
  // Every run

  ghost predicate WorldInv(w: World) {
    && Inv(w.c) && Inv(Replay(w.c.plan, w.log)) && Mirrors(w.c, Replay(w.c.plan, w.log))
    && FailuresTold(Replay(w.c.plan, w.log), w.log) && RevokesFollow(w.c.plan, w.log)
  }

  lemma CallKeepsStoredInv(live: Coordinator, stored: Coordinator, i: Input)
    requires Inv(live) && Inv(stored) && Mirrors(live, stored) && !i.op.ResumeOp?
    requires Do(live, i).entry.Some? && Accounted(live, Do(live, i), TargetOf(i.op))
    ensures Inv(Retold(stored, Do(live, i).entry.value))
  {
    if Do(live, i).entry.value.Begun? {
      BegunKeepsInv(stored);
    } else {
      RetoldKeepsInv(live, stored, i);
    }
  }

  lemma CallKeepsStored(w: World, i: Input)
    requires WorldInv(w) && !i.op.ResumeOp? && Do(w.c, i).entry.Some?
    ensures var e := Do(w.c, i).entry.value;
            var stored' := Replay(w.c.plan, w.log + [e]);
            Inv(stored') && Mirrors(Do(w.c, i).next, stored') && FailuresTold(stored', w.log + [e])
  {
    var stored := Replay(w.c.plan, w.log);
    var e := Do(w.c, i).entry.value;
    CallIsAccounted(w.c, i);
    ReplayAppended(w.c.plan, w.log, e);
    RetoldMirrors(w.c, stored, e);
    FailuresStayTold(w.c, stored, w.log, e);
    CallKeepsStoredInv(w.c, stored, i);
  }

  lemma CallKeepsWorld(w: World, i: Input)
    requires WorldInv(w) && !i.op.ResumeOp?
    ensures WorldInv(Next(w, Call(i))) && Next(w, Call(i)).c.plan == w.c.plan
  {
    var step := Do(w.c, i);
    StepKeepsInvIff(w.c, i);
    CallIsAccounted(w.c, i);
    if step.entry.Some? {
      CallKeepsStored(w, i);
      if step.entry.value.RevokeEntry? { AllReadyIsReported(w); }
      FollowsStill(w.c.plan, w.log, step.entry);
    } else if step.next != w.c {
      UnstoredMirrors(w.c, step.next, Replay(w.c.plan, w.log), TargetOf(i.op));
    }
  }

  lemma MirrorsItself(c: Coordinator)
    ensures Mirrors(c, c)
  {}

  /** Each event keeps it: what is live is what the log replays to, but for failures that could not be stored; the
      restart rebuilds exactly what the log replays to. */
  lemma NextKeepsInv(w: World, e: Event)
    requires WorldInv(w) && Allowed(w, e)
    ensures WorldInv(Next(w, e)) && Next(w, e).c.plan == w.c.plan
    ensures e.Restart? ==> Next(w, e).c == Replay(w.c.plan, w.log) && Next(w, e).log == w.log
  {
    match e {
      case Call(i) => CallKeepsWorld(w, i);
      case Restart(now) =>
        RecoveryRoundTrip(Replay(w.c.plan, w.log), now);
        MirrorsItself(Replay(w.c.plan, w.log));
    }
  }

  lemma {:induction false} RunKeepsWorld(w: World, events: seq<Event>)
    requires WorldInv(w) && AllowedRun(w, events)
    ensures WorldInv(Run(w, events)) && Run(w, events).c.plan == w.c.plan
    decreases |events|
  {
    if events == [] {
    } else {
      NextKeepsInv(w, events[0]);
      RunKeepsWorld(Next(w, events[0]), events[1..]);
    }
  }

  function Begin(plan: Plan): World
    requires plan.Valid()
  {
    World(NewCoordinator(plan).value, [])
  }

  lemma BeginIsInv(plan: Plan)
    requires plan.Valid()
    ensures WorldInv(Begin(plan))
  {
    NewIsInv(plan);
    NewTargetsAre(plan.targets);
    MirrorsItself(NewCoordinator(plan).value);
  }

  // ---------------------------------------------------------------------------------------------
  // The theorems

  /** Over every run of calls, store failures and restarts: no target's revocation has begun, in memory or in the
      store, while any target lacks a ready replacement of its own. */
  lemma RevocationWaitsForAll(plan: Plan, events: seq<Event>, j: Id, k: Id)
    requires plan.Valid() && AllowedRun(Begin(plan), events)
    ensures var w := Run(Begin(plan), events);
            var stored := Replay(plan, w.log);
            && (j in w.c.targets && k in w.c.targets && RevocationBegun(w.c.targets[j]) ==>
                ReplacementReady(plan, w.c.targets[k]))
            && (j in stored.targets && k in stored.targets && RevocationBegun(stored.targets[j]) ==>
                ReplacementReady(plan, stored.targets[k]))
  {
    BeginIsInv(plan);
    RunKeepsWorld(Begin(plan), events);
    var w := Run(Begin(plan), events);
    var stored := Replay(plan, w.log);
    if j in w.c.targets && k in w.c.targets && RevocationBegun(w.c.targets[j]) { InvMeansAllReady(w.c, j, k); }
    if j in stored.targets && k in stored.targets && RevocationBegun(stored.targets[j]) {
      InvMeansAllReady(stored, j, k);
    }
  }

  /** Over every such run each revoke order in the store comes after a ready report of every target of the plan. */
  lemma StoreOrdersRevocationLast(plan: Plan, events: seq<Event>)
    requires plan.Valid() && AllowedRun(Begin(plan), events)
    ensures var w := Run(Begin(plan), events);
            RevokesFollow(plan, w.log) && (Status(w.c).AggregateSucceeded? ==> AllReported(plan, w.log))
  {
    BeginIsInv(plan);
    RunKeepsWorld(Begin(plan), events);
    var w := Run(Begin(plan), events);
    if Status(w.c).AggregateSucceeded? { AllReadyIsReported(w); }
  }

  /** After any such run, the log alone is enough to recover: its records are accepted and respect the gate, and the
      coordinator rebuilt from them differs from the lost one exactly in the targets whose failure is not in the
      store, which come back in the phase stored last. */
  lemma RecoveryFromTheLog(plan: Plan, events: seq<Event>, now: Instant, k: Id)
    requires plan.Valid() && AllowedRun(Begin(plan), events)
    requires var w := Run(Begin(plan), events);
             Replay(plan, w.log).started && Replay(plan, w.log).finished <= now + MAX_CLOCK_SKEW
    ensures var w := Run(Begin(plan), events);
            && w.c.plan == plan && WellFormed(Replay(plan, w.log)) && Gated(Reloaded(w).records)
            && var step := Resume(NewCoordinator(plan).value, Ok(Reloaded(w)), now);
            && step.out.Ok? && step.next.targets.Keys == w.c.targets.Keys
            && (k in w.c.targets ==>
                  && (step.next.targets[k] != w.c.targets[k] <==>
                      w.c.targets[k].phase.Failed? && !StoredFailure(w.log, k))
                  && Mirrored(step.next.targets[k], w.c.targets[k]))
            && (step.next.targets == w.c.targets ==> step.next == w.c)
  {
    BeginIsInv(plan);
    RunKeepsWorld(Begin(plan), events);
    var w := Run(Begin(plan), events);
    var stored := Replay(plan, w.log);
    RecoveryRoundTrip(stored, now);
    WrittenIsGated(stored);
    if k in w.c.targets {
      assert Mirrored(stored.targets[k], w.c.targets[k]);
      assert stored.targets[k].phase.Failed? <==> StoredFailure(w.log, k);
    }
  }

  lemma WrittenIsGated(c: Coordinator)
    requires WellFormed(c) && Gate(c)
    ensures Gated(Written(c).records)
  {
    var records := Written(c).records;
    forall i, j | 0 <= i < |records| && 0 <= j < |records| && HasRevoke(records[i]) ensures HasReady(records[j]) {
      assert IsOrdered(c.targets[c.plan.targets[i].connector]);
      assert IsReady(c.targets[c.plan.targets[j].connector]);
    }
  }
}
