/** What every run of the rotation coordinator keeps. */
module RotationRuns {
  import opened Wrappers
  import opened Protocol
  import opened RotationMessages
  import opened RotationSpec

  /** A target as the store would hand it back. */
  function WriteOut(p: Progress): Record {
    var windows := if p.challenge.Some? && p.challenge.value.env.session != ""
                   then (p.challenge.value.overlapUntil, p.challenge.value.validUntil)
                   else (0, 0);
    Record(p.target, p.phase, p.code, windows.0, windows.1, p.challenge, p.proof, p.install, p.ready, p.revoke)
  }

  /** The target has a ready replacement, or an order to revoke its old credential. */
  predicate IsReady(p: Progress) { p.ready.Some? && p.ready.value.env.session != "" }
  predicate IsOrdered(p: Progress) { p.revoke.Some? && p.revoke.value.env.session != "" }

  predicate TargetInv(plan: Plan, p: Progress) { ValidRecord(plan, WriteOut(p)) }

  predicate WellFormed(c: Coordinator) {
    && c.plan.Valid()
    && (forall k :: k in c.targets ==> c.targets[k].target.connector == k)
    && (forall i :: 0 <= i < |c.plan.targets| ==> c.plan.targets[i].connector in c.targets)
  }

  predicate AllValid(c: Coordinator) {
    forall k {:trigger TargetInv(c.plan, c.targets[k])} :: k in c.targets ==> TargetInv(c.plan, c.targets[k])
  }

  /** An order to revoke anywhere means a ready replacement everywhere. */
  predicate Gate(c: Coordinator) {
    forall j, k {:trigger IsOrdered(c.targets[j]), IsReady(c.targets[k])} ::
      j in c.targets && k in c.targets && IsOrdered(c.targets[j]) ==> IsReady(c.targets[k])
  }

  /** Before it is started, a coordinator can only fail targets. */
  predicate Idle(c: Coordinator) {
    !c.started ==>
      && c.finished == 0
      && forall k {:trigger Untouched(c.targets[k])} :: k in c.targets ==> Untouched(c.targets[k])
  }

  predicate Untouched(p: Progress) {
    (p.phase.Pending? || p.phase.Failed?) && p.challenge.None? && p.proof.None? && p.install.None? && p.ready.None?
      && p.revoke.None?
  }

  /** A completion time is only ever set on an aggregate that has ended. */
  predicate FinishFits(c: Coordinator) { c.finished != 0 ==> !Status(c).AggregatePending? }

  ghost predicate Inv(c: Coordinator) { WellFormed(c) && AllValid(c) && Gate(c) && Idle(c) && FinishFits(c) }

  // ---------------------------------------------------------------------------------------------
  // One target

  /** A target never goes back, never leaves a terminal phase, and keeps its ready session and its revoke order. */
  predicate Moves(p: Progress, p': Progress) {
    && p'.target == p.target
    && p'.phase.Rank() >= p.phase.Rank()
    && (p.phase.Failed? || p.phase.Revoked? ==> p' == p)
    && (IsReady(p) ==> p'.ready == p.ready)
    && (IsOrdered(p) ==> p'.revoke == p.revoke)
  }

  lemma ChallengeTurnFits(plan: Plan, p: Progress, now: Instant, t: Terms, denied: Option<Code>, stored: bool)
    requires plan.Valid() && TargetInv(plan, p)
    ensures var p' := ChallengeTurn(plan, p, now, t, denied, stored).next;
            TargetInv(plan, p') && Moves(p, p') && p'.ready == p.ready && p'.revoke == p.revoke
  {
    var c := ChallengeFor(plan, p.target, t);
    if Challengeable(p, now) && c.Refusal(now).None? && denied.None? && stored {
      assert ChallengeBelongs(plan, p.target, c);
      assert !HasInstall(WriteOut(p));
    }
  }

  lemma ProofTurnFits(plan: Plan, p: Progress, now: Instant, proof: Proof, verified: bool, stored: bool)
    requires plan.Valid() && TargetInv(plan, p)
    ensures var p' := ProofTurn(plan, p, now, proof, verified, stored).next;
            TargetInv(plan, p') && Moves(p, p') && p'.ready == p.ready && p'.revoke == p.revoke
  {
    if p.phase.Challenged? {
      var c := p.challenge.value;
      assert ChallengeBelongs(plan, p.target, c);
      var install := InstallFor(plan, c, proof);
      if proof.Answers(c, p.target) && verified && install.Refusal(now).None? && stored {
        assert InstallBelongs(plan, p.target, c, install);
      }
    }
  }

  lemma ReadyTurnFits(plan: Plan, p: Progress, now: Instant, ready: ReadyReport, stored: bool)
    requires plan.Valid() && TargetInv(plan, p) && ready.Refusal(now).None?
    ensures var p' := ReadyTurn(plan, p, ready, stored).next;
            TargetInv(plan, p') && Moves(p, p') && p'.revoke == p.revoke
  {
    if p.phase.Installed? {
      var i := p.install.value;
      assert InstallBelongs(plan, p.target, p.challenge.value, i);
      if ready.Follows(plan, i) && stored {
        assert ReadyBelongs(plan, p.target, i, ready);
      }
    }
  }

  lemma RevokeTurnFits(plan: Plan, p: Progress, now: Instant, nonce: Outcome<string>, stored: bool)
    requires plan.Valid() && TargetInv(plan, p)
    ensures var p' := RevokeTurn(plan, p, now, nonce, stored).next;
            TargetInv(plan, p') && Moves(p, p') && p'.ready == p.ready
  {
    if p.phase.Replaced? && nonce.Ok? {
      var revoke := RevocationFor(plan, p, now, nonce.value);
      assert ReadyBelongs(plan, p.target, p.install.value, p.ready.value);
      if revoke.Shape() && stored {
        assert RevokeBelongs(plan, p.target, p.ready.value, revoke);
      }
    }
  }

  lemma FailingFits(plan: Plan, p: Progress, code: Code)
    requires TargetInv(plan, p) && !p.phase.Failed? && !p.phase.Revoked?
    ensures var p' := p.(phase := Failed, code := Some(code)); TargetInv(plan, p') && Moves(p, p')
  {}

  lemma RevokedFits(plan: Plan, p: Progress)
    requires TargetInv(plan, p) && p.phase.Revoking?
    ensures var p' := p.(phase := Revoked); TargetInv(plan, p') && Moves(p, p')
  {}

  // ---------------------------------------------------------------------------------------------
  // The aggregate

  lemma AllReadyMeans(c: Coordinator)
    requires AllValid(c) && AllReady(c)
    ensures forall k :: k in c.targets ==> IsReady(c.targets[k])
  {
    forall k | k in c.targets ensures IsReady(c.targets[k]) {
      assert TargetInv(c.plan, c.targets[k]);
    }
  }

  /** Moving one target keeps the gate, if a new order finds every target ready. */
  lemma MoveKeepsGate(c: Coordinator, k: Id, p: Progress)
    requires Gate(c) && k in c.targets
    requires IsReady(c.targets[k]) ==> IsReady(p)
    requires IsOrdered(p) ==> IsOrdered(c.targets[k]) || forall j :: j in c.targets ==> IsReady(c.targets[j])
    ensures Gate(c.(targets := c.targets[k := p]))
  {
    var targets := c.targets[k := p];
    forall i, j | i in targets && j in targets && IsOrdered(targets[i]) ensures IsReady(targets[j]) {
      assert IsReady(c.targets[j]);
    }
  }

  lemma MoveKeepsValid(c: Coordinator, k: Id, p: Progress)
    requires WellFormed(c) && AllValid(c) && k in c.targets && p.target == c.targets[k].target && TargetInv(c.plan, p)
    ensures var c' := c.(targets := c.targets[k := p]); WellFormed(c') && AllValid(c')
  {
    var c' := c.(targets := c.targets[k := p]);
    forall j | j in c'.targets ensures TargetInv(c'.plan, c'.targets[j]) && c'.targets[j].target.connector == j {
      if j != k { assert TargetInv(c.plan, c.targets[j]); }
    }
  }

  /** An ended aggregate does not change its status. */
  lemma MoveKeepsEnd(c: Coordinator, k: Id, p: Progress)
    requires k in c.targets && Moves(c.targets[k], p) && !Status(c).AggregatePending?
    ensures Status(c.(targets := c.targets[k := p])) == Status(c)
  {
    var c' := c.(targets := c.targets[k := p]);
    if AnyFailed(c) {
      var j :| j in c.targets && c.targets[j].phase.Failed?;
      assert j in c'.targets && c'.targets[j].phase.Failed?;
    } else {
      assert c.targets[k].phase.Revoked?;
      assert c'.targets == c.targets;
    }
  }

  lemma MoveKeepsIdle(c: Coordinator, k: Id, p: Progress)
    requires Idle(c) && k in c.targets && (!c.started ==> Untouched(p))
    ensures Idle(c.(targets := c.targets[k := p]))
  {
    if !c.started {
      var targets := c.targets[k := p];
      forall j | j in targets ensures Untouched(targets[j]) {
        if j != k { assert Untouched(c.targets[j]); }
      }
    }
  }

  /** A step may move target `k` to `p`. */
  predicate MayMove(c: Coordinator, k: Id, p: Progress) {
    && k in c.targets && Moves(c.targets[k], p) && TargetInv(c.plan, p)
    && (p.revoke == c.targets[k].revoke || AllReady(c))
    && (!c.started ==> Untouched(p))
  }

  lemma MoveKeepsInv(c: Coordinator, k: Id, p: Progress)
    requires Inv(c) && MayMove(c, k, p)
    ensures Inv(c.(targets := c.targets[k := p]))
  {
    if AllReady(c) { AllReadyMeans(c); }
    MoveKeepsGate(c, k, p);
    MoveKeepsValid(c, k, p);
    MoveKeepsIdle(c, k, p);
    if c.finished != 0 { MoveKeepsEnd(c, k, p); }
  }

  // ---------------------------------------------------------------------------------------------
  // Each operation

  /** What one call does: nothing, or one target moves, and possibly the finish time is set on an ended aggregate. */
  ghost predicate Advances(c: Coordinator, c': Coordinator) {
    && c'.plan == c.plan && c'.started == c.started
    && (c'.targets == c.targets || exists k, p :: MayMove(c, k, p) && c'.targets == c.targets[k := p])
  }

  ghost predicate Advanced(c: Coordinator, c': Coordinator) { Inv(c') && Advances(c, c') }

  lemma MoveAdvances(c: Coordinator, k: Id, p: Progress)
    requires Inv(c) && MayMove(c, k, p)
    ensures Advanced(c, c.(targets := c.targets[k := p]))
  {
    MoveKeepsInv(c, k, p);
  }

  lemma StayAdvances(c: Coordinator)
    requires Inv(c)
    ensures Advanced(c, c)
  {}

  lemma ChallengeAdvances(c: Coordinator, i: Input)
    requires Inv(c) && i.op.IssueChallenge?
    ensures Advanced(c, Do(c, i).next)
  {
    var k := i.op.connector;
    if c.started && k in c.targets {
      assert TargetInv(c.plan, c.targets[k]);
      ChallengeTurnFits(c.plan, c.targets[k], i.now, i.op.terms, i.op.denied, i.stored);
      MoveAdvances(c, k, ChallengeTurn(c.plan, c.targets[k], i.now, i.op.terms, i.op.denied, i.stored).next);
    } else {
      StayAdvances(c);
    }
  }

  lemma ProofAdvances(c: Coordinator, i: Input)
    requires Inv(c) && i.op.GetProof?
    ensures Advanced(c, Do(c, i).next)
  {
    var proof := i.op.proof;
    var k := proof.env.connector;
    if proof.Refusal(i.now).None? && k in c.targets {
      assert TargetInv(c.plan, c.targets[k]);
      ProofTurnFits(c.plan, c.targets[k], i.now, proof, i.op.verified, i.stored);
      if !c.started { assert Untouched(c.targets[k]); }
      MoveAdvances(c, k, ProofTurn(c.plan, c.targets[k], i.now, proof, i.op.verified, i.stored).next);
    } else {
      StayAdvances(c);
    }
  }

  lemma ReadyAdvances(c: Coordinator, i: Input)
    requires Inv(c) && i.op.GetReady?
    ensures Advanced(c, Do(c, i).next)
  {
    var ready := i.op.ready;
    var k := ready.env.connector;
    if ready.Refusal(i.now).None? && k in c.targets {
      assert TargetInv(c.plan, c.targets[k]);
      ReadyTurnFits(c.plan, c.targets[k], i.now, ready, i.stored);
      if !c.started { assert Untouched(c.targets[k]); }
      MoveAdvances(c, k, ReadyTurn(c.plan, c.targets[k], ready, i.stored).next);
    } else {
      StayAdvances(c);
    }
  }

  lemma RevokeAdvances(c: Coordinator, i: Input)
    requires Inv(c) && i.op.OrderRevoke?
    ensures Advanced(c, Do(c, i).next)
  {
    var k := i.op.connector;
    if k in c.targets && !Status(c).AggregateFailed? && AllReady(c) {
      assert TargetInv(c.plan, c.targets[k]);
      RevokeTurnFits(c.plan, c.targets[k], i.now, i.op.nonce, i.stored);
      if !c.started { assert Untouched(c.targets[k]); }
      MoveAdvances(c, k, RevokeTurn(c.plan, c.targets[k], i.now, i.op.nonce, i.stored).next);
    } else {
      StayAdvances(c);
    }
  }

  lemma FailureAdvances(c: Coordinator, k: Id, code: Code)
    requires Inv(c) && k in c.targets && !c.targets[k].phase.Failed? && !c.targets[k].phase.Revoked?
    ensures Advanced(c, FailedTarget(c, k, code))
  {
    assert TargetInv(c.plan, c.targets[k]);
    FailingFits(c.plan, c.targets[k], code);
    if !c.started { assert Untouched(c.targets[k]); }
    MoveAdvances(c, k, c.targets[k].(phase := Failed, code := Some(code)));
  }

  /** Setting the finish time of an ended aggregate, of a started coordinator. */
  lemma FinishKeepsInv(c: Coordinator, now: nat)
    requires Inv(c) && c.started && !Status(c).AggregatePending?
    ensures Inv(c.(finished := now))
  {
    var c' := c.(finished := now);
    assert Status(c') == Status(c);
    assert AllValid(c') && Gate(c') && WellFormed(c');
  }

  lemma OrderedIsStarted(c: Coordinator, k: Id)
    requires Idle(c) && k in c.targets && c.targets[k].phase.Revoking?
    ensures c.started
  {
    assert !Untouched(c.targets[k]);
  }

  lemma RevokedAdvances(c: Coordinator, k: Id, now: Instant)
    requires Inv(c) && k in c.targets && c.targets[k].phase.Revoking?
    ensures Advanced(c, RevokedTarget(c, k, now))
  {
    assert TargetInv(c.plan, c.targets[k]);
    RevokedFits(c.plan, c.targets[k]);
    OrderedIsStarted(c, k);
    var p := c.targets[k].(phase := Revoked);
    MoveAdvances(c, k, p);
    var next := c.(targets := c.targets[k := p]);
    if Status(next).AggregateSucceeded? { FinishKeepsInv(next, now); }
  }

  lemma UnrecordedIsFailure(c: Coordinator, k: Id, now: Instant, code: Code)
    requires k in c.targets
    ensures var c' := FailedTarget(RevokedTarget(c, k, now), k, code);
            c' == FailedTarget(c, k, code).(finished := c'.finished)
  {
    var c' := FailedTarget(RevokedTarget(c, k, now), k, code);
    assert c'.targets == FailedTarget(c, k, code).targets;
  }

  /** The revoked acknowledgement could not be recorded: the target fails, and a finish time already set stays. */
  lemma UnrecordedAdvances(c: Coordinator, k: Id, now: Instant)
    requires Inv(c) && k in c.targets && c.targets[k].phase.Revoking?
    ensures Advanced(c, FailedTarget(RevokedTarget(c, k, now), k, RotationFailed))
  {
    UnrecordedIsFailure(c, k, now, RotationFailed);
    OrderedIsStarted(c, k);
    FailureAdvances(c, k, RotationFailed);
    var failed := FailedTarget(c, k, RotationFailed);
    assert failed.targets[k].phase.Failed?;
    FinishKeepsInv(failed, FailedTarget(RevokedTarget(c, k, now), k, RotationFailed).finished);
  }

  /** The four things an acknowledgement can do. */
  lemma AckDoes(c: Coordinator, i: Input)
    requires i.op.GetAck?
    ensures var c' := Do(c, i).next;
            var k := i.op.ack.env.connector;
            || c' == c
            || (k in c.targets && !c.targets[k].phase.Failed? && !c.targets[k].phase.Revoked? && i.op.ack.code.Some?
                && c' == FailedTarget(c, k, i.op.ack.code.value))
            || (k in c.targets && c.targets[k].phase.Revoking? && i.stored && c' == RevokedTarget(c, k, i.now))
            || (k in c.targets && c.targets[k].phase.Revoking? && !i.stored
                && c' == FailedTarget(RevokedTarget(c, k, i.now), k, RotationFailed))
  {
    var ack := i.op.ack;
    var k := ack.env.connector;
    if ack.Valid() && k in c.targets
      && ack.env == c.plan.EnvelopeOf(c.targets[k].target, ack.env.session, ack.env.process) {
      match EffectOf(c.targets[k], ack) {
        case FailsTarget => if i.stored {} else {}
        case RevokesTarget => if i.stored {} else {}
        case _ =>
      }
    }
  }

  lemma AckAdvances(c: Coordinator, i: Input)
    requires Inv(c) && i.op.GetAck?
    ensures Advanced(c, Do(c, i).next)
  {
    var k := i.op.ack.env.connector;
    var c' := Do(c, i).next;
    AckDoes(c, i);
    if c' == c {
      StayAdvances(c);
    } else if c.targets[k].phase.Revoking? && i.stored && c' == RevokedTarget(c, k, i.now) {
      RevokedAdvances(c, k, i.now);
    } else if c.targets[k].phase.Revoking? && !i.stored
              && c' == FailedTarget(RevokedTarget(c, k, i.now), k, RotationFailed) {
      UnrecordedAdvances(c, k, i.now);
    } else {
      FailureAdvances(c, k, i.op.ack.code.value);
    }
  }

  lemma FailAdvances(c: Coordinator, i: Input)
    requires Inv(c) && i.op.FailTarget?
    ensures Advanced(c, Do(c, i).next)
  {
    var k := i.op.connector;
    StayAdvances(c);
    if i.op.code.Some? && k in c.targets && !c.targets[k].phase.Failed? && !c.targets[k].phase.Revoked? {
      FailureAdvances(c, k, i.op.code.value);
    }
  }

  lemma StartKeepsInv(c: Coordinator, i: Input)
    requires Inv(c) && i.op.StartOp?
    ensures Inv(Do(c, i).next)
  {
    var c' := Do(c, i).next;
    assert Status(c') == Status(c);
    assert AllValid(c') && Gate(c') && WellFormed(c');
  }

  /** Every call but starting and recovering keeps the invariant and moves at most one target, forward. */
  lemma CallAdvances(c: Coordinator, i: Input)
    requires Inv(c) && !i.op.StartOp? && !i.op.ResumeOp?
    ensures Advanced(c, Do(c, i).next)
  {
    match i.op {
      case IssueChallenge(_, _, _) => ChallengeAdvances(c, i);
      case GetProof(_, _) => ProofAdvances(c, i);
      case GetReady(_) => ReadyAdvances(c, i);
      case OrderRevoke(_, _) => RevokeAdvances(c, i);
      case GetAck(_) => AckAdvances(c, i);
      case FailTarget(_, _) => FailAdvances(c, i);
    }
  }

  // ---------------------------------------------------------------------------------------------
  // Creation and recovery

  lemma {:induction false} NewTargetsHold(targets: seq<Target>, n: nat)
    requires n <= |targets| && DistinctTargets(targets)
    ensures var m := NewTargets(targets, n);
            && (forall i :: 0 <= i < n ==>
                targets[i].connector in m && m[targets[i].connector] == NewTarget(targets[i]))
            && (forall k :: k in m ==>
                m[k].target.connector == k && m[k].target in targets[..n] && m[k] == NewTarget(m[k].target))
    decreases n
  {
    if n == 0 {
    } else {
      NewTargetsHold(targets, n - 1);
      forall i | 0 <= i < n - 1 ensures targets[i].connector != targets[n - 1].connector {
        assert Differ(targets[i], targets[n - 1]);
      }
      assert targets[..n] == targets[..n - 1] + [targets[n - 1]];
    }
  }

  lemma {:induction false} NewTargetsCount(targets: seq<Target>, n: nat)
    requires n <= |targets| && DistinctTargets(targets)
    ensures |NewTargets(targets, n)| == n
    decreases n
  {
    if n == 0 {
    } else {
      NewTargetsCount(targets, n - 1);
      NewTargetsHold(targets, n - 1);
      forall i | 0 <= i < n - 1 ensures targets[i].connector != targets[n - 1].connector {
        assert Differ(targets[i], targets[n - 1]);
      }
      assert targets[n - 1].connector !in NewTargets(targets, n - 1);
    }
  }

  lemma NewTargetsAre(targets: seq<Target>)
    requires DistinctTargets(targets)
    ensures var m := NewTargets(targets, |targets|);
            && |m| == |targets|
            && (forall i :: 0 <= i < |targets| ==>
                targets[i].connector in m && m[targets[i].connector] == NewTarget(targets[i]))
            && (forall k :: k in m ==>
                m[k].target.connector == k && m[k].target in targets && m[k] == NewTarget(m[k].target))
  {
    NewTargetsHold(targets, |targets|);
    NewTargetsCount(targets, |targets|);
    assert targets[..|targets|] == targets;
  }

  lemma NewIsInv(plan: Plan)
    requires plan.Valid()
    ensures Inv(NewCoordinator(plan).value) && !NewCoordinator(plan).value.started
  {
    var c := NewCoordinator(plan).value;
    NewTargetsAre(plan.targets);
    forall k | k in c.targets
      ensures TargetInv(c.plan, c.targets[k]) && Untouched(c.targets[k]) && !IsOrdered(c.targets[k]) {
      var t := c.targets[k].target;
      var i :| 0 <= i < |plan.targets| && plan.targets[i] == t;
      assert t.Valid();
    }
  }

  function Named(records: seq<Record>, n: nat): set<Id>
    requires n <= |records|
    decreases n
  {
    if n == 0 then {} else Named(records, n - 1) + {records[n - 1].target.connector}
  }

  predicate NamedBy(records: seq<Record>, n: nat, k: Id)
    requires n <= |records|
  {
    exists i :: 0 <= i < n && records[i].target.connector == k
  }

  lemma {:induction false} NamedIff(records: seq<Record>, n: nat, k: Id)
    requires n <= |records|
    ensures k in Named(records, n) <==> NamedBy(records, n, k)
    decreases n
  {
    if n == 0 {
    } else {
      NamedIff(records, n - 1, k);
      if NamedBy(records, n, k) && !NamedBy(records, n - 1, k) {
        assert records[n - 1].target.connector == k;
      }
    }
  }

  lemma {:induction false} NamedCount(records: seq<Record>, n: nat)
    requires n <= |records| && Distinct(records)
    ensures |Named(records, n)| == n
    decreases n
  {
    if n == 0 {
    } else {
      NamedCount(records, n - 1);
      NamedIff(records, n - 1, records[n - 1].target.connector);
    }
  }

  lemma SameSize(a: set<Id>, b: set<Id>)
    requires a <= b && |a| == |b|
    ensures a == b
  {
    assert b == a + (b - a);
    assert |b - a| == 0;
  }

  /** Equal count and no duplicates: every target has its record. */
  lemma EveryTargetNamed(c: Coordinator, loaded: Loaded, now: Instant)
    requires ResumeRefusal(c, loaded, now).None?
    ensures forall k :: k in c.targets ==> NamedBy(loaded.records, |loaded.records|, k)
  {
    var n := |loaded.records|;
    var names := Named(loaded.records, n);
    NamedCount(loaded.records, n);
    forall k | k in names ensures k in c.targets.Keys {
      NamedIff(loaded.records, n, k);
      var i :| 0 <= i < n && loaded.records[i].target.connector == k;
      assert Recoverable(c, loaded.records[i]);
    }
    SameSize(names, c.targets.Keys);
    forall k | k in c.targets ensures NamedBy(loaded.records, n, k) { NamedIff(loaded.records, n, k); }
  }

  lemma {:induction false} OverlayKeys(targets: map<Id, Progress>, records: seq<Record>, n: nat)
    requires n <= |records|
    ensures Overlay(targets, records, n).Keys == targets.Keys
    decreases n
  {
    if n == 0 {
    } else {
      OverlayKeys(targets, records, n - 1);
    }
  }

  lemma {:induction false} OverlayAt(targets: map<Id, Progress>, records: seq<Record>, n: nat, i: nat)
    requires n <= |records| && i < |records| && Distinct(records) && records[i].target.connector in targets
    ensures Overlay(targets, records, n).Keys == targets.Keys
    ensures var k := records[i].target.connector;
            Overlay(targets, records, n)[k] == if i < n then Recovered(targets[k], records[i]) else targets[k]
    decreases n
  {
    if n == 0 {
    } else {
      OverlayAt(targets, records, n - 1, i);
    }
  }

  /** An order to revoke among the records means a ready replacement in each of them. */
  predicate Gated(records: seq<Record>) {
    forall i, j {:trigger HasRevoke(records[i]), HasReady(records[j])} ::
      0 <= i < |records| && 0 <= j < |records| && HasRevoke(records[i]) ==> HasReady(records[j])
  }

  /** The coordinator's targets are exactly the records. */
  ghost predicate TakenOver(c: Coordinator, records: seq<Record>) {
    && (forall i :: 0 <= i < |records| ==>
          && records[i].target.connector in c.targets
          && c.targets[records[i].target.connector] == Recovered(c.targets[records[i].target.connector], records[i])
          && c.targets[records[i].target.connector].target == records[i].target)
    && (forall k :: k in c.targets ==> NamedBy(records, |records|, k))
  }

  lemma ResumeTakesOver(c: Coordinator, loaded: Loaded, now: Instant)
    requires ResumeRefusal(c, loaded, now).None?
    ensures var targets := Overlay(c.targets, loaded.records, |loaded.records|);
            TakenOver(c.(targets := targets), loaded.records) && targets.Keys == c.targets.Keys
  {
    var records := loaded.records;
    var targets := Overlay(c.targets, records, |records|);
    EveryTargetNamed(c, loaded, now);
    forall i | 0 <= i < |records|
      ensures records[i].target.connector in targets
              && targets[records[i].target.connector] == Recovered(targets[records[i].target.connector], records[i])
              && targets[records[i].target.connector].target == records[i].target
    {
      assert Recoverable(c, records[i]);
      OverlayAt(c.targets, records, |records|, i);
    }
    if |records| > 0 { assert Recoverable(c, records[0]); OverlayAt(c.targets, records, |records|, 0); }
  }

  lemma RecoveredFits(plan: Plan, p: Progress, r: Record)
    requires ValidRecord(plan, r) && p == Recovered(p, r) && p.target == r.target
    ensures TargetInv(plan, p)
  {
    if HasChallenge(r) { assert ChallengeBelongs(plan, r.target, r.challenge.value); }
  }

  lemma TakenOverGate(c: Coordinator, records: seq<Record>)
    requires TakenOver(c, records)
    ensures Gate(c) <==> Gated(records)
  {
    if Gate(c) {
      forall i, j | 0 <= i < |records| && 0 <= j < |records| && HasRevoke(records[i]) ensures HasReady(records[j]) {
        assert IsOrdered(c.targets[records[i].target.connector]);
        assert IsReady(c.targets[records[j].target.connector]);
      }
    }
    if Gated(records) {
      forall a, b | a in c.targets && b in c.targets && IsOrdered(c.targets[a]) ensures IsReady(c.targets[b]) {
        var i :| 0 <= i < |records| && records[i].target.connector == a;
        var j :| 0 <= j < |records| && records[j].target.connector == b;
        assert HasRevoke(records[i]) && HasReady(records[j]);
      }
    }
  }

  lemma TakenOverEnd(c: Coordinator, records: seq<Record>)
    requires TakenOver(c, records) && Terminal(records)
    ensures !Status(c).AggregatePending?
  {
    if i :| 0 <= i < |records| && records[i].phase.Failed? {
      assert c.targets[records[i].target.connector].phase.Failed?;
    } else {
      forall k | k in c.targets ensures c.targets[k].phase.Revoked? {
        var i :| 0 <= i < |records| && records[i].target.connector == k;
      }
    }
  }

  lemma ResumedIsValid(c: Coordinator, loaded: Loaded, now: Instant)
    requires WellFormed(c) && ResumeRefusal(c, loaded, now).None?
    ensures var c' := c.(targets := Overlay(c.targets, loaded.records, |loaded.records|));
            WellFormed(c') && AllValid(c')
  {
    var c' := c.(targets := Overlay(c.targets, loaded.records, |loaded.records|));
    ResumeTakesOver(c, loaded, now);
    forall k | k in c'.targets ensures c'.targets[k].target.connector == k && TargetInv(c'.plan, c'.targets[k]) {
      assert NamedBy(loaded.records, |loaded.records|, k);
      var i :| 0 <= i < |loaded.records| && loaded.records[i].target.connector == k;
      assert Recoverable(c, loaded.records[i]);
      RecoveredFits(c.plan, c'.targets[k], loaded.records[i]);
    }
  }

  /** What started targets make of a coordinator. */
  lemma StartedInvIff(c: Coordinator, finished: nat)
    requires WellFormed(c) && AllValid(c) && (finished != 0 ==> !Status(c).AggregatePending?)
    ensures Inv(c.(started := true, finished := finished)) <==> Gate(c)
  {
    var c' := c.(started := true, finished := finished);
    assert Status(c') == Status(c);
    assert WellFormed(c') && AllValid(c') && (Gate(c') <==> Gate(c));
  }

  /** An accepted recovery keeps the invariant exactly when the recovered records respect the gate, which it does
      not itself check. */
  lemma ResumeKeepsInvIffGated(c: Coordinator, loaded: Loaded, now: Instant)
    requires WellFormed(c) && !c.started && Resume(c, Ok(loaded), now).out.Ok?
    ensures Inv(Resume(c, Ok(loaded), now).next) <==> Gated(loaded.records)
  {
    var c' := Resume(c, Ok(loaded), now).next;
    var taken := c.(targets := Overlay(c.targets, loaded.records, |loaded.records|));
    ResumeTakesOver(c, loaded, now);
    ResumedIsValid(c, loaded, now);
    TakenOverGate(taken, loaded.records);
    if loaded.finishedAt != 0 { TakenOverEnd(taken, loaded.records); }
    StartedInvIff(taken, loaded.finishedAt);
    assert c' == taken.(started := true, finished := loaded.finishedAt);
  }

  /** The gate is not checked: records of two targets, one ordered revoked and one never challenged, are accepted. */
  lemma UngatedRecordsAreAccepted(plan: Plan, ordered: Record, now: Instant)
    requires plan.Valid() && |plan.targets| == 2 && ordered.target == plan.targets[0]
    requires ValidRecord(plan, ordered) && HasRevoke(ordered)
    ensures var pending := WriteOut(NewTarget(plan.targets[1]));
            var c := NewCoordinator(plan).value;
            var step := Resume(c, Ok(Loaded(plan, true, 0, [ordered, pending])), now);
            step.out.Ok? && !Inv(step.next)
  {
    var pending := WriteOut(NewTarget(plan.targets[1]));
    var c := NewCoordinator(plan).value;
    var loaded := Loaded(plan, true, 0, [ordered, pending]);
    NewTargetsAre(plan.targets);
    assert plan.targets[1].Valid() && Differ(plan.targets[0], plan.targets[1]);
    assert Recoverable(c, loaded.records[0]) && Recoverable(c, loaded.records[1]);
    NewIsInv(plan);
    assert HasRevoke(loaded.records[0]) && !HasReady(loaded.records[1]);
    ResumeKeepsInvIffGated(c, loaded, now);
  }
}
