/** When a rotation can still succeed. */
module RotationSuccess {
  import opened Wrappers
  import opened Protocol
  import opened RotationMessages
  import opened RotationSpec
  import opened RotationRuns
  import opened RotationEffects
  import TH = RotationTheorems

  // ---------------------------------------------------------------------------------------------
  // Runs under a clock

  /** The clock of the run starts at `now` or later, never goes back, and ends by `end`. */
  predicate Clocked(now: Instant, inputs: seq<Input>, end: Instant)
    decreases |inputs|
  {
    if inputs == [] then now <= end else now <= inputs[0].now && Clocked(inputs[0].now, inputs[1..], end)
  }

  lemma {:induction false} RunAppends(c: Coordinator, first: seq<Input>, second: seq<Input>)
    ensures Run(c, first + second) == Run(Run(c, first), second)
    decreases |first|
  {
    if first == [] {
      assert first + second == second;
    } else {
      assert (first + second)[1..] == first[1..] + second;
      RunAppends(Do(c, first[0]).next, first[1..], second);
    }
  }

  lemma RunOne(c: Coordinator, i: Input)
    ensures Run(c, [i]) == Do(c, i).next
  {
    assert [i][1..] == [];
  }

  lemma {:induction false} ClockAppends(now: Instant, first: seq<Input>, t: Instant, second: seq<Input>, end: Instant)
    requires Clocked(now, first, t) && Clocked(t, second, end)
    ensures Clocked(now, first + second, end)
    decreases |first|
  {
    if first == [] {
      assert first + second == second;
      ClockEarlier(now, t, second, end);
    } else {
      assert (first + second)[1..] == first[1..] + second;
      ClockAppends(first[0].now, first[1..], t, second, end);
    }
  }

  lemma {:induction false} ClockEarlier(now: Instant, t: Instant, inputs: seq<Input>, end: Instant)
    requires now <= t && Clocked(t, inputs, end)
    ensures Clocked(now, inputs, end)
  {
    if inputs == [] {
    } else {
    }
  }

  // ---------------------------------------------------------------------------------------------
  // One target at a time

  /** From `c` to `c'` target `k` alone changed, and the coordinator is still sound and started. */
  ghost predicate Only(c: Coordinator, c': Coordinator, k: Id) {
    && Inv(c') && c'.started && c'.plan == c.plan && c'.targets.Keys == c.targets.Keys
    && forall j {:trigger c'.targets[j]} :: j in c.targets && j != k ==> c'.targets[j] == c.targets[j]
  }

  lemma OnlyTrans(a: Coordinator, b: Coordinator, c: Coordinator, k: Id)
    requires Only(a, b, k) && Only(b, c, k)
    ensures Only(a, c, k)
  {
    forall j | j in a.targets && j != k ensures c.targets[j] == a.targets[j] {
      assert j in b.targets && b.targets[j] == a.targets[j];
    }
  }

  lemma MovedIsOnly(c: Coordinator, i: Input, k: Id, p: Progress, e: Entry)
    requires Inv(c) && c.started && Moved(c, i, k, p, e)
    ensures Only(c, Do(c, i).next, k) && Do(c, i).next.targets[k] == p
  {
    TH.StartedStep(c, i);
  }

  const NONCE: string := "0123456789abcdef"
  const OLD_KEY: KeyIdentity := KeyIdentity("old", "old", true)
  const NEW_KEY: NewKey := NewKey(KeyIdentity("new", "new", true), "", "", true, true, true)

  function Offered(now: Instant): Terms {
    Terms("s1", 1, OLD_KEY, NONCE, now, now + 1, now + 2, now + 3)
  }

  function ProofFor(plan: Plan, target: Target, now: Instant): Proof {
    Proof(plan.EnvelopeOf(target, "s1", 1), OLD_KEY, NEW_KEY, NONCE, now, now + 3, true)
  }

  function Other(session: Id): Id { if session == "s1" then "s2" else "s1" }

  function ReportFor(plan: Plan, p: Progress, now: Instant): ReadyReport
    requires p.install.Some?
  {
    var i := p.install.value;
    ReadyReport(plan.EnvelopeOf(p.target, Other(i.env.session), i.replacement), i.env.session, i.newKey, i.validUntil,
                Config(1, plan.setHash), true, true, true, now)
  }

  lemma NonceIsValid()
    ensures ValidNonce(NONCE) && ValidIdentifier("s1") && ValidIdentifier("s2")
  {
    assert NONCE[0] == '0' && NONCE[15] == 'f';
  }

  /** An installed key that is still valid can be reported ready. */
  lemma ReadiesInstalled(c: Coordinator, k: Id, now: Instant)
    requires Inv(c) && c.started && k in c.targets && c.targets[k].phase.Installed?
    requires c.targets[k].install.Some? && now < c.targets[k].install.value.validUntil
    ensures var c' := Do(c, Input(now, true, GetReady(ReportFor(c.plan, c.targets[k], now)))).next;
            Only(c, c', k) && c'.targets[k].phase.Replaced?
  {
    var p := c.targets[k];
    assert TargetInv(c.plan, p);
    var install := p.install.value;
    assert InstallBelongs(c.plan, p.target, p.challenge.value, install);
    var i := Input(now, true, GetReady(ReportFor(c.plan, p, now)));
    NonceIsValid();
    AddressIs(c.plan, p.target, Other(install.env.session), install.replacement);
    assert ReportsReady(c, i);
    ReadyEffect(c, i);
    MovedIsOnly(c, i, k, p.(phase := Replaced, ready := Some(i.op.ready)), ReadyEntry(i.op.ready));
  }

  /** A target waiting for a challenge can be challenged and have its key installed, at any time. */
  lemma InstallsWaiting(c: Coordinator, k: Id, now: Instant) returns (inputs: seq<Input>)
    requires Inv(c) && c.started && k in c.targets && Waits(c.targets[k], now)
    ensures Clocked(now, inputs, now)
    ensures var c' := Run(c, inputs);
            && Only(c, c', k) && c'.targets[k].phase.Installed?
            && c'.targets[k].install.Some? && now < c'.targets[k].install.value.validUntil
  {
    var first := Input(now, true, IssueChallenge(k, Offered(now), None));
    var second := Input(now, true, GetProof(ProofFor(c.plan, c.targets[k].target, now), true));
    var c1 := Challenges(c, k, now);
    Installs(c1, k, now);
    inputs := [first, second];
    OnlyTrans(c, c1, Do(c1, second).next, k);
    RunOne(c1, second);
    assert inputs == [first] + [second];
    RunOne(c, first);
    RunAppends(c, [first], [second]);
  }

  lemma Challenges(c: Coordinator, k: Id, now: Instant) returns (c1: Coordinator)
    requires Inv(c) && c.started && k in c.targets && Waits(c.targets[k], now)
    ensures c1 == Do(c, Input(now, true, IssueChallenge(k, Offered(now), None))).next && Only(c, c1, k)
    ensures var p := c1.targets[k];
            && p.target == c.targets[k].target && p.phase.Challenged?
            && p.challenge == Some(ChallengeFor(c.plan, p.target, Offered(now)))
  {
    var i := Input(now, true, IssueChallenge(k, Offered(now), None));
    NonceIsValid();
    assert SoundTerms(Offered(now), now);
    ChallengeEffect(c, i);
    c1 := Do(c, i).next;
    var ch := ChallengeFor(c.plan, c.targets[k].target, Offered(now));
    MovedIsOnly(c, i, k, c.targets[k].(phase := Challenged, challenge := Some(ch)), ChallengeEntry(ch));
  }

  lemma Installs(c: Coordinator, k: Id, now: Instant)
    requires Inv(c) && c.started && k in c.targets && c.targets[k].phase.Challenged?
    requires c.targets[k].challenge == Some(ChallengeFor(c.plan, c.targets[k].target, Offered(now)))
    ensures var c' := Do(c, Input(now, true, GetProof(ProofFor(c.plan, c.targets[k].target, now), true))).next;
            && Only(c, c', k) && c'.targets[k].phase.Installed?
            && c'.targets[k].install.Some? && now < c'.targets[k].install.value.validUntil
  {
    var p := c.targets[k];
    assert TargetInv(c.plan, p);
    var ch := p.challenge.value;
    assert ChallengeBelongs(c.plan, p.target, ch);
    var proof := ProofFor(c.plan, p.target, now);
    var i := Input(now, true, GetProof(proof, true));
    AddressIs(c.plan, p.target, "s1", 1);
    assert Proves(c, i);
    ProofEffect(c, i);
    var install := Install(ch.env, proof.newKey, ch.nonce, ch.overlapUntil, ch.validUntil, ch.env.process + 1);
    MovedIsOnly(c, i, k, p.(phase := Installed, proof := Some(proof), install := Some(install)),
                ProofEntry(ch, proof, install));
  }

  // ---------------------------------------------------------------------------------------------
  // Every target gets its replacement

  /** The target has not failed, and if its key is installed that is still valid. */
  predicate Alive(p: Progress, now: Instant) {
    !p.phase.Failed? && (p.phase.Installed? ==> p.install.Some? && now < p.install.value.validUntil)
  }

  /** `k` gets its replacement ready, now if its key is installed, otherwise as soon as it can be challenged. */
  lemma SettlesOne(c: Coordinator, k: Id, now: Instant) returns (inputs: seq<Input>, end: Instant)
    requires Inv(c) && c.started && k in c.targets && Alive(c.targets[k], now)
    ensures Clocked(now, inputs, end) && (c.targets[k].phase.Installed? ==> end == now)
    ensures Only(c, Run(c, inputs), k) && Settled(Run(c, inputs).targets[k])
  {
    var p := c.targets[k];
    if Settled(p) {
      inputs, end := [], now;
    } else if p.phase.Installed? {
      var i := Input(now, true, GetReady(ReportFor(c.plan, p, now)));
      ReadiesInstalled(c, k, now);
      RunOne(c, i);
      inputs, end := [i], now;
    } else {
      assert TargetInv(c.plan, p);
      end := if p.phase.Challenged? && p.challenge.value.expiresAt > now then p.challenge.value.expiresAt else now;
      var first := InstallsWaiting(c, k, end);
      var c1 := Run(c, first);
      var last := Input(end, true, GetReady(ReportFor(c1.plan, c1.targets[k], end)));
      ReadiesInstalled(c1, k, end);
      RunOne(c1, last);
      RunAppends(c, first, [last]);
      OnlyTrans(c, c1, Do(c1, last).next, k);
      inputs := first + [last];
      ClockEarlier(now, end, first, end);
      assert Clocked(end, [last], end);
      ClockAppends(now, first, end, [last], end);
    }
  }

  /** Nothing but the targets of `todo` changed. */
  ghost predicate Within(c: Coordinator, c': Coordinator, todo: set<Id>) {
    && Inv(c') && c'.started && c'.plan == c.plan && c'.targets.Keys == c.targets.Keys
    && forall j {:trigger c'.targets[j]} :: j in c.targets && j !in todo ==> c'.targets[j] == c.targets[j]
  }

  ghost predicate AllAlive(c: Coordinator, todo: set<Id>, now: Instant) {
    forall k :: k in todo ==> k in c.targets && Alive(c.targets[k], now)
  }

  /** Which target to settle next: an installed one as long as there is one. */
  lemma NextToSettle(c: Coordinator, todo: set<Id>) returns (k: Id)
    requires todo != {} && todo <= c.targets.Keys
    ensures k in todo && (c.targets[k].phase.Installed? || forall j :: j in todo ==> !c.targets[j].phase.Installed?)
  {
    if j :| j in todo && c.targets[j].phase.Installed? {
      k := j;
    } else {
      k :| k in todo;
    }
  }

  lemma {:induction false} SettlesAll(c: Coordinator, todo: set<Id>, now: Instant)
    returns (inputs: seq<Input>, end: Instant)
    requires Inv(c) && c.started && todo <= c.targets.Keys && AllAlive(c, todo, now)
    ensures Clocked(now, inputs, end) && Within(c, Run(c, inputs), todo)
    ensures forall k :: k in todo ==> Settled(Run(c, inputs).targets[k])
    decreases |todo|
  {
    if todo == {} {
      inputs, end := [], now;
    } else {
      var k := NextToSettle(c, todo);
      var first, t := SettlesOne(c, k, now);
      var c1 := Run(c, first);
      var rest := todo - {k};
      forall j | j in rest ensures j in c1.targets && Alive(c1.targets[j], t) {
        assert c1.targets[j] == c.targets[j];
        assert Alive(c.targets[j], now);
      }
      var second, e := SettlesAll(c1, rest, t);
      inputs, end := first + second, e;
      ClockAppends(now, first, t, second, e);
      RunAppends(c, first, second);
      var c2 := Run(c1, second);
      forall j | j in c.targets && j !in todo ensures c2.targets[j] == c.targets[j] {
        assert c1.targets[j] == c.targets[j];
      }
      assert c2.targets[k] == c1.targets[k];
    }
  }

  // ---------------------------------------------------------------------------------------------
  // Every old credential is revoked

  /** With all replacements ready, `k` is ordered revoked and confirms. */
  lemma RevokesOne(c: Coordinator, k: Id, now: Instant) returns (inputs: seq<Input>)
    requires Inv(c) && c.started && k in c.targets && AllSettled(c)
    ensures Clocked(now, inputs, now) && Only(c, Run(c, inputs), k) && Run(c, inputs).targets[k].phase.Revoked?
  {
    assert Settled(c.targets[k]);
    if c.targets[k].phase.Revoked? {
      inputs := [];
    } else if c.targets[k].phase.Revoking? {
      var i := Confirms(c, k, now);
      inputs := [i];
      RunOne(c, i);
    } else {
      var first := Input(now, true, OrderRevoke(k, Ok(NONCE)));
      IsOrderedRevoked(c, k, now);
      var c1 := Do(c, first).next;
      var second := Confirms(c1, k, now);
      inputs := [first] + [second];
      RunOne(c, first);
      RunOne(c1, second);
      RunAppends(c, [first], [second]);
      OnlyTrans(c, c1, Do(c1, second).next, k);
      assert Clocked(now, [first], now) && Clocked(now, [second], now);
      ClockAppends(now, [first], now, [second], now);
    }
  }

  lemma IsOrderedRevoked(c: Coordinator, k: Id, now: Instant)
    requires Inv(c) && c.started && k in c.targets && AllSettled(c) && c.targets[k].phase.Replaced?
    ensures var c' := Do(c, Input(now, true, OrderRevoke(k, Ok(NONCE)))).next;
            Only(c, c', k) && c'.targets[k].phase.Revoking?
  {
    var p := c.targets[k];
    assert TargetInv(c.plan, p);
    var i := Input(now, true, OrderRevoke(k, Ok(NONCE)));
    NonceIsValid();
    assert Orders(c, i, k);
    RevokeEffect(c, i);
    var env := c.plan.EnvelopeOf(p.target, p.ready.value.env.session, p.ready.value.env.process);
    var revoke := Revocation(env, NONCE, now, now + 5 * SECOND);
    MovedIsOnly(c, i, k, p.(phase := Revoking, revoke := Some(revoke)), RevokeEntry(revoke));
  }

  lemma Confirms(c: Coordinator, k: Id, now: Instant) returns (i: Input)
    requires Inv(c) && c.started && k in c.targets && c.targets[k].phase.Revoking?
    ensures i.now == now && Only(c, Do(c, i).next, k) && Do(c, i).next.targets[k].phase.Revoked?
  {
    var p := c.targets[k];
    assert TargetInv(c.plan, p);
    var revoke := p.revoke.value;
    assert RevokeBelongs(c.plan, p.target, p.ready.value, revoke);
    AboutIff(c.plan, p.target, revoke.env);
    i := Input(now, true, GetAck(RotationAck(revoke.env, RevokedAck, None, true)));
    assert ConfirmsRevoked(c, i, k);
    AcknowledgementEffect(c, i);
    TH.StartedStep(c, i);
  }

  lemma {:induction false} RevokesAll(c: Coordinator, todo: set<Id>, now: Instant) returns (inputs: seq<Input>)
    requires Inv(c) && c.started && todo <= c.targets.Keys && AllSettled(c)
    ensures Clocked(now, inputs, now) && Within(c, Run(c, inputs), todo)
    ensures forall k :: k in todo ==> Run(c, inputs).targets[k].phase.Revoked?
    decreases |todo|
  {
    if todo == {} {
      inputs := [];
    } else {
      var k :| k in todo;
      var first := RevokesOne(c, k, now);
      var c1 := Run(c, first);
      forall j | j in c1.targets ensures Settled(c1.targets[j]) {
        assert j != k ==> c1.targets[j] == c.targets[j];
        assert Settled(c.targets[j]);
      }
      var second := RevokesAll(c1, todo - {k}, now);
      inputs := first + second;
      ClockAppends(now, first, now, second, now);
      RunAppends(c, first, second);
      var c2 := Run(c1, second);
      forall j | j in c.targets && j !in todo ensures c2.targets[j] == c.targets[j] {
        assert c1.targets[j] == c.targets[j];
      }
      assert c2.targets[k] == c1.targets[k];
    }
  }

  // ---------------------------------------------------------------------------------------------
  // The theorem

  /** Some run from `now` on, under a clock that does not go back, ends in success. */
  ghost predicate CanSucceed(c: Coordinator, now: Instant) {
    exists inputs, end :: Clocked(now, inputs, end) && Status(Run(c, inputs)).AggregateSucceeded?
  }

  lemma SucceedsIfAlive(c: Coordinator, now: Instant) returns (inputs: seq<Input>, end: Instant)
    requires Inv(c) && c.started && AllAlive(c, c.targets.Keys, now)
    ensures Clocked(now, inputs, end) && Status(Run(c, inputs)).AggregateSucceeded?
  {
    var first, t := SettlesAll(c, c.targets.Keys, now);
    var c1 := Run(c, first);
    forall k | k in c1.targets ensures Settled(c1.targets[k]) { assert k in c.targets.Keys; }
    var second := RevokesAll(c1, c1.targets.Keys, t);
    inputs, end := first + second, t;
    ClockAppends(now, first, t, second, t);
    RunAppends(c, first, second);
    var c2 := Run(c, inputs);
    forall k | k in c2.targets ensures c2.targets[k].phase.Revoked? { assert k in c1.targets.Keys; }
  }

  /** A key that ran out while installed keeps its target from ever being replaced. */
  predicate Stuck(p: Progress, now: Instant) {
    p.phase.Failed? || (p.phase.Installed? && p.install.Some? && p.install.value.validUntil <= now)
  }

  lemma StuckStep(c: Coordinator, i: Input, k: Id)
    requires Inv(c) && c.started && k in c.targets && Stuck(c.targets[k], i.now)
    ensures var c' := Do(c, i).next; k in c'.targets && Stuck(c'.targets[k], i.now)
  {
    TH.StartedStep(c, i);
    assert Moves(c.targets[k], Do(c, i).next.targets[k]);
    match i.op {
      case IssueChallenge(_, _, _) => ChallengeEffect(c, i);
      case GetProof(_, _) => ProofEffect(c, i);
      case GetReady(_) => ReadyEffect(c, i);
      case OrderRevoke(_, _) => RevokeEffect(c, i);
      case GetAck(_) => AcknowledgementEffect(c, i);
      case FailTarget(_, _) => FailEffect(c, i);
      case StartOp =>
      case ResumeOp(_) =>
    }
  }

  lemma {:induction false} StuckForGood(c: Coordinator, inputs: seq<Input>, k: Id, now: Instant, end: Instant)
    requires Inv(c) && c.started && k in c.targets && Stuck(c.targets[k], now) && Clocked(now, inputs, end)
    ensures k in Run(c, inputs).targets && Stuck(Run(c, inputs).targets[k], end)
    decreases |inputs|
  {
    if inputs == [] {
    } else {
      var i := inputs[0];
      TH.StartedStep(c, i);
      StuckStep(c, i, k);
      StuckForGood(Do(c, i).next, inputs[1..], k, i.now, end);
    }
  }

  /** A started rotation can still succeed exactly when no target has failed and no key ran out while it was installed:
      then some run does, under a clock that does not go back and with nothing but answers to what was asked; otherwise
      none does, whatever arrives. */
  lemma CanSucceedIff(c: Coordinator, now: Instant)
    requires Inv(c) && c.started
    ensures CanSucceed(c, now) <==> AllAlive(c, c.targets.Keys, now)
  {
    if AllAlive(c, c.targets.Keys, now) {
      var inputs, end := SucceedsIfAlive(c, now);
      assert CanSucceed(c, now);
    } else {
      var k :| k in c.targets.Keys && !Alive(c.targets[k], now);
      assert TargetInv(c.plan, c.targets[k]);
      assert Stuck(c.targets[k], now);
      forall inputs, end | Clocked(now, inputs, end) ensures !Status(Run(c, inputs)).AggregateSucceeded? {
        StuckForGood(c, inputs, k, now, end);
      }
    }
  }

  /** From any valid plan, at any time, some run ends in success. */
  lemma EveryPlanCanSucceed(plan: Plan, now: Instant) returns (inputs: seq<Input>, end: Instant)
    requires plan.Valid()
    ensures Clocked(now, inputs, end) && Status(Run(NewCoordinator(plan).value, inputs)).AggregateSucceeded?
  {
    var c := NewCoordinator(plan).value;
    NewIsInv(plan);
    var start := Input(now, true, StartOp);
    StartKeepsInv(c, start);
    var c1 := Do(c, start).next;
    NewTargetsAre(plan.targets);
    assert AllAlive(c1, c1.targets.Keys, now);
    var rest, e := SucceedsIfAlive(c1, now);
    inputs, end := [start] + rest, e;
    RunOne(c, start);
    RunAppends(c, [start], rest);
    assert inputs[1..] == rest;
  }
}
