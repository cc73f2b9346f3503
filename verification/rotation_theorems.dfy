/** Safety of a rotation over whole runs, and recovery after a restart. */
module RotationTheorems {
  import opened Wrappers
  import opened Protocol
  import opened RotationMessages
  import opened RotationSpec
  import opened RotationRuns

  // ---------------------------------------------------------------------------------------------
  // Ordering

  /** The call is a recovery that takes effect. */
  predicate Recovers(c: Coordinator, i: Input) {
    i.op.ResumeOp? && i.op.loaded.Ok? && !c.started && Do(c, i).out.Ok?
  }

  lemma StepKeepsInvIff(c: Coordinator, i: Input)
    requires Inv(c)
    ensures Inv(Do(c, i).next) <==> (Recovers(c, i) ==> Gated(i.op.loaded.value.records))
  {
    if i.op.StartOp? {
      StartKeepsInv(c, i);
    } else if !i.op.ResumeOp? {
      CallAdvances(c, i);
    } else if Recovers(c, i) {
      ResumeKeepsInvIffGated(c, i.op.loaded.value, i.now);
    }
  }

  /** The invariant holds at every point of a run. */
  ghost predicate Throughout(c: Coordinator, inputs: seq<Input>)
    decreases |inputs|
  {
    Inv(c) && (inputs == [] || Throughout(Do(c, inputs[0]).next, inputs[1..]))
  }

  /** Every recovery that takes effect loads records that respect the gate. */
  predicate GatedRun(c: Coordinator, inputs: seq<Input>)
    decreases |inputs|
  {
    inputs == [] ||
    ((Recovers(c, inputs[0]) ==> Gated(inputs[0].op.loaded.value.records))
     && GatedRun(Do(c, inputs[0]).next, inputs[1..]))
  }

  /** A run keeps the invariant, the revocation gate with it, at every point exactly when what it recovers is gated. */
  lemma {:induction false} InvThroughoutIff(c: Coordinator, inputs: seq<Input>)
    requires Inv(c)
    ensures Throughout(c, inputs) <==> GatedRun(c, inputs)
    decreases |inputs|
  {
    if inputs == [] {
    } else {
      StepKeepsInvIff(c, inputs[0]);
      if Inv(Do(c, inputs[0]).next) { InvThroughoutIff(Do(c, inputs[0]).next, inputs[1..]); }
    }
  }

  predicate RevocationBegun(p: Progress) { p.phase.Revoking? || p.phase.Revoked? || IsOrdered(p) }

  /** The ready report of a replacement session for exactly this target, key and install. */
  predicate ReplacementReady(plan: Plan, p: Progress) {
    && p.challenge.Some? && p.install.Some? && p.ready.Some?
    && InstallBelongs(plan, p.target, p.challenge.value, p.install.value)
    && ReadyBelongs(plan, p.target, p.install.value, p.ready.value)
  }

  /** What the invariant says of revocation: none begins anywhere while a target lacks a ready replacement. */
  lemma InvMeansAllReady(c: Coordinator, j: Id, k: Id)
    requires Inv(c) && j in c.targets && k in c.targets && RevocationBegun(c.targets[j])
    ensures ReplacementReady(c.plan, c.targets[k])
  {
    assert TargetInv(c.plan, c.targets[j]) && TargetInv(c.plan, c.targets[k]);
    assert IsOrdered(c.targets[j]);
    assert IsReady(c.targets[k]);
    assert HasReady(WriteOut(c.targets[k]));
  }

  // ---------------------------------------------------------------------------------------------
  // Progress

  lemma MovesTrans(p: Progress, q: Progress, r: Progress)
    requires Moves(p, q) && Moves(q, r)
    ensures Moves(p, r)
  {}

  /** Every target of `c` only moved forward on the way to `c'`. */
  ghost predicate Forward(c: Coordinator, c': Coordinator) {
    && c'.targets.Keys == c.targets.Keys
    && forall k {:trigger Moves(c.targets[k], c'.targets[k])} :: k in c.targets ==> Moves(c.targets[k], c'.targets[k])
  }

  lemma StartedStep(c: Coordinator, i: Input)
    requires Inv(c) && c.started
    ensures var c' := Do(c, i).next; Inv(c') && c'.started && Forward(c, c')
  {
    if !i.op.StartOp? && !i.op.ResumeOp? {
      CallAdvances(c, i);
    }
  }

  /** Once started, phases never go back, a failed or revoked target never changes again, and a ready session and a
      revoke order once recorded stay, whatever is called, recovery included. */
  lemma {:induction false} PhasesNeverGoBack(c: Coordinator, inputs: seq<Input>)
    requires Inv(c) && c.started
    ensures var c' := Run(c, inputs); Inv(c') && c'.started && Forward(c, c')
    decreases |inputs|
  {
    if inputs == [] {
    } else {
      var d := Do(c, inputs[0]).next;
      StartedStep(c, inputs[0]);
      PhasesNeverGoBack(d, inputs[1..]);
      var c' := Run(c, inputs);
      forall k | k in c.targets ensures Moves(c.targets[k], c'.targets[k]) {
        assert Moves(c.targets[k], d.targets[k]) && Moves(d.targets[k], c'.targets[k]);
        MovesTrans(c.targets[k], d.targets[k], c'.targets[k]);
      }
    }
  }

  /** A failed aggregate stays failed and a succeeded one succeeded; it succeeds exactly when all are revoked. */
  lemma EndIsFinal(c: Coordinator, inputs: seq<Input>)
    requires Inv(c) && c.started
    ensures var c' := Run(c, inputs);
            && (Status(c).AggregateFailed? ==> Status(c').AggregateFailed?)
            && (Status(c).AggregateSucceeded? ==> c'.targets == c.targets)
            && (Status(c').AggregateSucceeded? <==> forall k :: k in c'.targets ==> c'.targets[k].phase.Revoked?)
  {
    PhasesNeverGoBack(c, inputs);
    var c' := Run(c, inputs);
    if Status(c).AggregateFailed? {
      var k :| k in c.targets && c.targets[k].phase.Failed?;
      assert Moves(c.targets[k], c'.targets[k]);
      assert k in c'.targets && c'.targets[k].phase.Failed?;
    } else if Status(c).AggregateSucceeded? {
      forall k | k in c.targets ensures c'.targets[k] == c.targets[k] {
        assert c.targets[k].phase.Revoked?;
        assert Moves(c.targets[k], c'.targets[k]);
      }
    }
  }

  predicate NeverLower(c: Coordinator, c': Coordinator) {
    forall k :: k in c.targets && k in c'.targets ==> c'.targets[k].phase.Rank() >= c.targets[k].phase.Rank()
  }

  /** Every target that has failed is recovered as failed. */
  predicate FailuresKept(c: Coordinator, records: seq<Record>) {
    forall i :: (0 <= i < |records| && records[i].target.connector in c.targets
                 && c.targets[records[i].target.connector].phase.Failed?) ==> records[i].phase.Failed?
  }

  lemma LowersIff(c: Coordinator, c': Coordinator, records: seq<Record>)
    requires TakenOver(c', records) && c'.targets.Keys == c.targets.Keys
    requires forall k :: k in c.targets ==> c.targets[k].phase.Pending? || c.targets[k].phase.Failed?
    ensures NeverLower(c, c') <==> FailuresKept(c, records)
  {
    if FailuresKept(c, records) {
      forall k | k in c.targets ensures c'.targets[k].phase.Rank() >= c.targets[k].phase.Rank() {
        assert NamedBy(records, |records|, k);
      }
    }
    if NeverLower(c, c') {
      forall i | 0 <= i < |records| && c.targets[records[i].target.connector].phase.Failed?
        ensures records[i].phase.Failed? {
        var k := records[i].target.connector;
        assert c'.targets[k].phase.Rank() >= c.targets[k].phase.Rank();
      }
    }
  }

  /** Only a recovery can lower a phase: on a coordinator not yet started, and exactly when it replaces a target
      failed before the start by one that had not failed. */
  lemma ResumeLowersIff(c: Coordinator, loaded: Loaded, now: Instant)
    requires Idle(c) && !c.started && Resume(c, Ok(loaded), now).out.Ok?
    ensures NeverLower(c, Resume(c, Ok(loaded), now).next) <==> FailuresKept(c, loaded.records)
  {
    ResumeTakesOver(c, loaded, now);
    forall k | k in c.targets ensures c.targets[k].phase.Pending? || c.targets[k].phase.Failed? {
      assert Untouched(c.targets[k]);
    }
    LowersIff(c, c.(targets := Overlay(c.targets, loaded.records, |loaded.records|)), loaded.records);
  }

  // ---------------------------------------------------------------------------------------------
  // Recovery round trip

  /** The coordinator as the store would hand it back. */
  function Written(c: Coordinator): Loaded
    requires WellFormed(c)
  {
    Loaded(c.plan, c.started, c.finished,
           seq(|c.plan.targets|,
               i requires 0 <= i < |c.plan.targets| => WriteOut(c.targets[c.plan.targets[i].connector])))
  }

  /** Where a target's own entry in the plan is. */
  lemma PlanIndex(c: Coordinator, k: Id) returns (i: nat)
    requires AllValid(c) && k in c.targets
    ensures i < |c.plan.targets| && c.plan.targets[i] == c.targets[k].target
  {
    assert TargetInv(c.plan, c.targets[k]);
    i :| 0 <= i < |c.plan.targets| && c.plan.targets[i] == c.targets[k].target;
  }

  lemma SameConnector(targets: seq<Target>, i: nat, j: nat)
    requires i < |targets| && j < |targets| && DistinctTargets(targets) && targets[i].connector == targets[j].connector
    ensures i == j
  {
    assert i < j ==> Differ(targets[i], targets[j]);
    assert j < i ==> Differ(targets[j], targets[i]);
  }

  lemma WrittenIsRecoverable(c: Coordinator, blank: Coordinator, i: nat)
    requires WellFormed(c) && AllValid(c) && blank == NewCoordinator(c.plan).value && i < |c.plan.targets|
    ensures var k := c.plan.targets[i].connector;
            && Recoverable(blank, WriteOut(c.targets[k])) && c.targets[k].target == c.plan.targets[i]
            && Recovered(blank.targets[k], WriteOut(c.targets[k])) == c.targets[k]
  {
    var k := c.plan.targets[i].connector;
    NewTargetsAre(c.plan.targets);
    assert TargetInv(c.plan, c.targets[k]);
    var j := PlanIndex(c, k);
    SameConnector(c.plan.targets, i, j);
  }

  lemma WrittenIsTerminal(c: Coordinator)
    requires WellFormed(c) && AllValid(c) && !Status(c).AggregatePending?
    ensures Terminal(Written(c).records)
  {
    var records := Written(c).records;
    if AnyFailed(c) {
      var k :| k in c.targets && c.targets[k].phase.Failed?;
      var i := PlanIndex(c, k);
      assert records[i].phase.Failed?;
    } else {
      assert forall i :: 0 <= i < |records| ==> records[i].phase.Revoked?;
    }
  }

  lemma WrittenIsAccepted(c: Coordinator, now: Instant)
    requires Inv(c) && c.finished <= now + MAX_CLOCK_SKEW
    ensures ResumeRefusal(NewCoordinator(c.plan).value, Written(c), now).None?
  {
    var blank := NewCoordinator(c.plan).value;
    var records := Written(c).records;
    NewTargetsAre(c.plan.targets);
    forall i | 0 <= i < |records| ensures Recoverable(blank, records[i]) && records[i].target == c.plan.targets[i] {
      WrittenIsRecoverable(c, blank, i);
    }
    forall i, j | 0 <= i < j < |records| ensures records[i].target.connector != records[j].target.connector {
      assert Differ(c.plan.targets[i], c.plan.targets[j]);
    }
    if c.finished != 0 { WrittenIsTerminal(c); }
  }

  lemma SameKeys(c: Coordinator, blank: Coordinator)
    requires WellFormed(c) && AllValid(c) && blank == NewCoordinator(c.plan).value
    ensures blank.targets.Keys == c.targets.Keys
  {
    NewTargetsAre(c.plan.targets);
    forall k | k in c.targets ensures k in blank.targets {
      var i := PlanIndex(c, k);
    }
    forall k | k in blank.targets ensures k in c.targets {
      var i :| 0 <= i < |c.plan.targets| && c.plan.targets[i] == blank.targets[k].target;
    }
  }

  lemma TakenBack(c: Coordinator, blank: Coordinator, k: Id)
    requires WellFormed(c) && AllValid(c) && blank == NewCoordinator(c.plan).value && k in c.targets
    requires Distinct(Written(c).records)
    ensures var records := Written(c).records;
            k in Overlay(blank.targets, records, |records|)
              && Overlay(blank.targets, records, |records|)[k] == c.targets[k]
  {
    var records := Written(c).records;
    var i := PlanIndex(c, k);
    WrittenIsRecoverable(c, blank, i);
    assert records[i] == WriteOut(c.targets[k]);
    OverlayAt(blank.targets, records, |records|, i);
  }

  lemma AllTakenBack(c: Coordinator, now: Instant)
    requires Inv(c) && ResumeRefusal(NewCoordinator(c.plan).value, Written(c), now).None?
    ensures var records := Written(c).records;
            Overlay(NewCoordinator(c.plan).value.targets, records, |records|) == c.targets
  {
    var blank := NewCoordinator(c.plan).value;
    var records := Written(c).records;
    SameKeys(c, blank);
    OverlayKeys(blank.targets, records, |records|);
    forall k | k in c.targets
      ensures k in Overlay(blank.targets, records, |records|)
              && Overlay(blank.targets, records, |records|)[k] == c.targets[k] {
      TakenBack(c, blank, k);
    }
  }

  /** Every reachable started coordinator, written out, is accepted by a fresh one, which becomes exactly it. */
  lemma RecoveryRoundTrip(c: Coordinator, now: Instant)
    requires Inv(c) && c.started && c.finished <= now + MAX_CLOCK_SKEW
    ensures Resume(NewCoordinator(c.plan).value, Ok(Written(c)), now) == Step(c, None, Ok(Done))
  {
    WrittenIsAccepted(c, now);
    AllTakenBack(c, now);
  }
}
