/** What each call of the rotation coordinator needs and does, stated on the messages and the targets. */
module RotationEffects {
  import opened Wrappers
  import opened Protocol
  import opened RotationMessages
  import opened RotationSpec
  import opened RotationRuns
  import TH = RotationTheorems

  /** A message about `target` in this operation. */
  predicate About(plan: Plan, target: Target, env: Envelope) {
    && env.account == plan.account && env.tunnel == plan.tunnel && env.operation == plan.operation
    && env.setHash == plan.setHash && env.connector == target.connector && env.host == target.host
    && env.oldGeneration == target.oldGeneration && env.newGeneration == target.newGeneration
  }

  lemma AboutIff(plan: Plan, target: Target, env: Envelope)
    ensures About(plan, target, env) <==> env == plan.EnvelopeOf(target, env.session, env.process)
  {}

  lemma AddressIs(plan: Plan, target: Target, session: Id, process: nat)
    ensures var env := plan.EnvelopeOf(target, session, process);
            About(plan, target, env) && env.session == session && env.process == process
  {}

  /** The call changed nothing and wrote nothing. */
  ghost predicate Refused(c: Coordinator, i: Input) {
    Do(c, i).next == c && Do(c, i).entry.None? && Do(c, i).out.Err?
  }

  /** The call moved target `k` alone, to `p`, and wrote `e`. */
  ghost predicate Moved(c: Coordinator, i: Input, k: Id, p: Progress, e: Entry) {
    && k in c.targets && Do(c, i).next == c.(targets := c.targets[k := p])
    && Do(c, i).entry == Some(e) && Do(c, i).out.Ok?
  }

  /** The write failed: target `k` alone failed, in memory. */
  ghost predicate Lost(c: Coordinator, i: Input, k: Id) {
    && k in c.targets && Do(c, i).entry.None? && Do(c, i).out == Err(RotationFailed)
    && Do(c, i).next == c.(targets := c.targets[k := c.targets[k].(phase := Failed, code := Some(RotationFailed))])
  }

  // ---------------------------------------------------------------------------------------------
  // Challenge, proof, readiness

  /** Pending, or challenged with a challenge that has run out. */
  predicate Waits(p: Progress, now: Instant) {
    p.phase.Pending? || (p.phase.Challenged? && p.challenge.Some? && p.challenge.value.expiresAt <= now)
  }

  predicate SoundTerms(t: Terms, now: Instant) {
    && ValidIdentifier(t.session) && t.process > 0 && t.oldKey.sound && ValidNonce(t.nonce)
    && 0 < t.issuedAt < t.expiresAt < t.overlapUntil < t.validUntil
    && t.expiresAt <= t.issuedAt + MAX_CHALLENGE && t.overlapUntil <= t.issuedAt + MAX_LEASE
    && t.validUntil <= t.issuedAt + MAX_LIFETIME
    && t.issuedAt <= now + MAX_CLOCK_SKEW && now <= t.issuedAt + MAX_CLOCK_SKEW && now < t.expiresAt
  }

  /** A target is challenged exactly on a started coordinator, while it waits, on sound terms nobody denies and with the
      challenge stored; the challenge says what the terms say about the target. */
  lemma ChallengeEffect(c: Coordinator, i: Input)
    requires Inv(c) && i.op.IssueChallenge?
    ensures var k, t := i.op.connector, i.op.terms;
            if c.started && k in c.targets && Waits(c.targets[k], i.now) && SoundTerms(t, i.now)
               && i.op.denied.None? && i.stored then
              var p := c.targets[k];
              var ch := Challenge(c.plan.EnvelopeOf(p.target, t.session, t.process), p.target, t.oldKey, t.nonce,
                                  t.issuedAt, t.expiresAt, t.overlapUntil, t.validUntil);
              && Moved(c, i, k, p.(phase := Challenged, challenge := Some(ch)), ChallengeEntry(ch))
              && Do(c, i).out == Ok(ChallengeReply(ch))
            else Refused(c, i)
  {
    var k := i.op.connector;
    if k in c.targets {
      var p := c.targets[k];
      assert TargetInv(c.plan, p);
      var ch := ChallengeFor(c.plan, p.target, i.op.terms);
      assert c.targets[k := p] == c.targets;
      assert ch.Refusal(i.now).None? <==> SoundTerms(i.op.terms, i.now);
      if p.phase.Challenged? { assert ChallengeBelongs(c.plan, p.target, p.challenge.value); }
      assert Challengeable(p, i.now) <==> Waits(p, i.now);
    }
  }

  /** A proof well formed and signed, for a sound new key, made within two minutes of now. */
  predicate SoundProof(proof: Proof, now: Instant) {
    && proof.env.Valid() && proof.signed && proof.oldKey.sound
    && proof.newKey.identity.sound && proof.newKey.referenced && proof.newKey.decodes && proof.newKey.matches
    && proof.oldKey.keyId != proof.newKey.identity.keyId && ValidNonce(proof.nonce)
    && 0 < proof.issuedAt < proof.validUntil <= proof.issuedAt + MAX_LIFETIME
    && proof.issuedAt <= now + MAX_CLOCK_SKEW && now <= proof.issuedAt + MAX_CLOCK_SKEW
  }

  /** The proof answers this challenge: same session, old key, nonce and expiry, made while the challenge was live. */
  predicate AnswersChallenge(plan: Plan, target: Target, ch: Challenge, proof: Proof) {
    && About(plan, target, proof.env) && proof.env.session == ch.env.session && proof.env.process == ch.env.process
    && proof.oldKey == ch.oldKey && proof.nonce == ch.nonce && proof.validUntil == ch.validUntil
    && ch.issuedAt <= proof.issuedAt <= ch.expiresAt
  }

  predicate Proves(c: Coordinator, i: Input) {
    && i.op.GetProof? && SoundProof(i.op.proof, i.now) && i.op.verified
    && var k := i.op.proof.env.connector;
       && k in c.targets && c.targets[k].phase.Challenged? && c.targets[k].challenge.Some?
       && AnswersChallenge(c.plan, c.targets[k].target, c.targets[k].challenge.value, i.op.proof)
       && i.now < c.targets[k].challenge.value.overlapUntil
  }

  lemma ProvesIff(c: Coordinator, i: Input)
    requires Inv(c) && i.op.GetProof?
    ensures var proof := i.op.proof;
            Proves(c, i) <==>
            && proof.Refusal(i.now).None? && proof.env.connector in c.targets
            && var p := c.targets[proof.env.connector];
               && p.phase.Challenged? && p.challenge.Some? && proof.Answers(p.challenge.value, p.target)
               && i.op.verified
               && InstallFor(c.plan, p.challenge.value, proof).Refusal(i.now).None?
  {
    var proof := i.op.proof;
    var k := proof.env.connector;
    if k in c.targets {
      var p := c.targets[k];
      assert TargetInv(c.plan, p);
      if p.phase.Challenged? {
        var ch := p.challenge.value;
        assert ChallengeBelongs(c.plan, p.target, ch);
        AboutIff(c.plan, p.target, ch.env);
        assert proof.Answers(ch, p.target) <==> AnswersChallenge(c.plan, p.target, ch, proof);
      }
    }
  }

  /** A proof is taken exactly when it is sound, verified, answers the challenge of its target, and the overlap has not
      ended; the install orders the new key to a later process of the same session. A failed write fails the target. */
  lemma ProofEffect(c: Coordinator, i: Input)
    requires Inv(c) && i.op.GetProof?
    ensures var proof := i.op.proof;
            var k := proof.env.connector;
            if !Proves(c, i) then Refused(c, i)
            else if !i.stored then Lost(c, i, k)
            else
              var p := c.targets[k];
              var ch := p.challenge.value;
              var next := ch.env.process + 1;
              var install := Install(ch.env, proof.newKey, ch.nonce, ch.overlapUntil, ch.validUntil, next);
              && Moved(c, i, k, p.(phase := Installed, proof := Some(proof), install := Some(install)),
                       ProofEntry(ch, proof, install))
              && Do(c, i).out == Ok(InstallReply(install, RotationAck(ch.env, InstalledAck, None, true)))
  {
    var proof := i.op.proof;
    var k := proof.env.connector;
    ProvesIff(c, i);
    if k in c.targets {
      var p := c.targets[k];
      assert TargetInv(c.plan, p);
      assert c.targets[k := p] == c.targets;
      if Proves(c, i) {
        var ch := p.challenge.value;
        assert ChallengeBelongs(c.plan, p.target, ch);
        AboutIff(c.plan, p.target, ch.env);
      }
    }
  }

  /** The report of a new session with edge, route and origin ready, on the new key, made within two minutes of now. */
  predicate SoundReport(r: ReadyReport, now: Instant) {
    && r.env.Valid() && ValidIdentifier(r.previousSession) && r.edge && r.route && r.origin
    && r.newKey.identity.sound && r.newKey.referenced && r.newKey.decodes && r.newKey.matches
    && r.config.generation > 0 && ValidHash(r.config.hash) && now < r.validUntil
    && 0 < r.readyAt <= now + MAX_CLOCK_SKEW && now <= r.readyAt + MAX_CLOCK_SKEW
  }

  /** Another session, on the process ordered or a later one, with the key and expiry installed. */
  predicate Replaces(plan: Plan, target: Target, install: Install, r: ReadyReport) {
    && About(plan, target, r.env) && r.previousSession == install.env.session && r.env.session != install.env.session
    && install.replacement <= r.env.process && r.newKey == install.newKey && r.validUntil == install.validUntil
  }

  predicate ReportsReady(c: Coordinator, i: Input) {
    && i.op.GetReady? && SoundReport(i.op.ready, i.now)
    && var k := i.op.ready.env.connector;
       && k in c.targets && c.targets[k].phase.Installed? && c.targets[k].install.Some?
       && Replaces(c.plan, c.targets[k].target, c.targets[k].install.value, i.op.ready)
  }

  /** A replacement counts as ready exactly by a sound report of the session that replaces the installed one; a failed
      write fails the target. */
  lemma ReadyEffect(c: Coordinator, i: Input)
    requires Inv(c) && i.op.GetReady?
    ensures var ready := i.op.ready;
            var k := ready.env.connector;
            if !ReportsReady(c, i) then Refused(c, i)
            else if !i.stored then Lost(c, i, k)
            else
              && Moved(c, i, k, c.targets[k].(phase := Replaced, ready := Some(ready)), ReadyEntry(ready))
              && Do(c, i).out == Ok(AckReply(RotationAck(ready.env, ReadyAck, None, true)))
  {
    var k := i.op.ready.env.connector;
    assert i.op.ready.Refusal(i.now).None? <==> SoundReport(i.op.ready, i.now);
    if k in c.targets {
      var p := c.targets[k];
      assert TargetInv(c.plan, p);
      assert c.targets[k := p] == c.targets;
      if p.phase.Installed? {
        var install := p.install.value;
        assert InstallBelongs(c.plan, p.target, p.challenge.value, install);
        AboutIff(c.plan, p.target, install.env);
        AboutIff(c.plan, p.target, i.op.ready.env);
        assert i.op.ready.Follows(c.plan, install) <==> Replaces(c.plan, p.target, install, i.op.ready);
      }
    }
  }

  // ---------------------------------------------------------------------------------------------
  // Revocation

  predicate Settled(p: Progress) { p.phase.Replaced? || p.phase.Revoking? || p.phase.Revoked? }

  predicate AllSettled(c: Coordinator) { forall k :: k in c.targets ==> Settled(c.targets[k]) }

  lemma SettledIsReady(c: Coordinator)
    ensures AllSettled(c) <==> AllReady(c)
    ensures AllSettled(c) ==> !AnyFailed(c)
  {
    if AllSettled(c) {
      forall k | k in c.targets
        ensures c.targets[k].phase.Replaced? || c.targets[k].phase.Revoking? || c.targets[k].phase.Revoked?
      {
        assert Settled(c.targets[k]);
      }
    }
  }

  /** Every target has its replacement or is past that, and `k` is next. */
  predicate Orders(c: Coordinator, i: Input, k: Id) {
    && i.op.OrderRevoke? && i.op.connector == k && k in c.targets && AllSettled(c)
    && c.targets[k].phase.Replaced? && c.targets[k].ready.Some? && i.op.nonce.Ok? && ValidNonce(i.op.nonce.value)
  }

  /** A target is ordered revoked exactly when every target has its replacement or is past that, its own is next and the
      nonce is valid; the order goes to the replacement session and gives it five seconds. Repeating it returns the
      order; a failed write fails the target. */
  lemma RevokeEffect(c: Coordinator, i: Input)
    requires Inv(c) && i.op.OrderRevoke?
    ensures var k := i.op.connector;
            if k in c.targets && AllSettled(c) && c.targets[k].phase.Revoking? && c.targets[k].revoke.Some? then
              Do(c, i) == Step(c, None, Ok(RevokeReply(c.targets[k].revoke.value)))
            else if !Orders(c, i, k) then Refused(c, i)
            else if !i.stored then Lost(c, i, k)
            else
              var p := c.targets[k];
              var env := c.plan.EnvelopeOf(p.target, p.ready.value.env.session, p.ready.value.env.process);
              var revoke := Revocation(env, i.op.nonce.value, i.now, i.now + 5 * SECOND);
              && Moved(c, i, k, p.(phase := Revoking, revoke := Some(revoke)), RevokeEntry(revoke))
              && Do(c, i).out == Ok(RevokeReply(revoke))
  {
    var k := i.op.connector;
    if k in c.targets {
      var p := c.targets[k];
      assert TargetInv(c.plan, p);
      assert c.targets[k := p] == c.targets;
      SettledIsReady(c);
      if p.phase.Replaced? {
        assert ReadyBelongs(c.plan, p.target, p.install.value, p.ready.value);
      }
    }
  }

  // ---------------------------------------------------------------------------------------------
  // Acknowledgements

  /** The acknowledgement is sound and about target `k` of this operation. */
  predicate Concerns(c: Coordinator, i: Input, k: Id) {
    && i.op.GetAck? && k in c.targets && i.op.ack.env.connector == k && i.op.ack.env.Valid() && i.op.ack.fits
    && (i.op.ack.code.Some? <==> i.op.ack.status.RejectedAck? || i.op.ack.status.FailedAck?)
    && About(c.plan, c.targets[k].target, i.op.ack.env)
  }

  predicate SpokenBy(env: Envelope, session: Id, process: nat) { env.session == session && env.process == process }

  /** The session a target is dealing with: the challenged one until its replacement is ready, then the replacement, and
      in the end the one ordered to revoke. */
  predicate SpeaksNow(p: Progress, env: Envelope) {
    match p.phase
    case Challenged => p.challenge.Some? && SpokenBy(env, p.challenge.value.env.session, p.challenge.value.env.process)
    case Installed => p.challenge.Some? && SpokenBy(env, p.challenge.value.env.session, p.challenge.value.env.process)
    case Replaced => p.ready.Some? && SpokenBy(env, p.ready.value.env.session, p.ready.value.env.process)
    case Revoking => p.revoke.Some? && SpokenBy(env, p.revoke.value.env.session, p.revoke.value.env.process)
    case _ => false
  }

  /** The session ordered to revoke `k` confirms it. */
  predicate ConfirmsRevoked(c: Coordinator, i: Input, k: Id) {
    && Concerns(c, i, k) && i.op.ack.status.RevokedAck? && c.targets[k].phase.Revoking? && c.targets[k].revoke.Some?
    && SpokenBy(i.op.ack.env, c.targets[k].revoke.value.env.session, c.targets[k].revoke.value.env.process)
  }

  /** The session dealing with `k` gives up. */
  predicate GivesUp(c: Coordinator, i: Input, k: Id) {
    && Concerns(c, i, k) && (i.op.ack.status.RejectedAck? || i.op.ack.status.FailedAck?)
    && SpeaksNow(c.targets[k], i.op.ack.env)
  }

  /** A delivery confirmed once more: of the install by the installed session, of readiness by the replacement. */
  predicate ConfirmsDelivery(c: Coordinator, i: Input, k: Id) {
    && Concerns(c, i, k)
    && var p, env := c.targets[k], i.op.ack.env;
       || (i.op.ack.status.InstalledAck? && p.phase.Installed? && p.install.Some?
           && SpokenBy(env, p.install.value.env.session, p.install.value.env.process))
       || (i.op.ack.status.ReadyAck? && p.phase.Replaced? && p.ready.Some?
           && SpokenBy(env, p.ready.value.env.session, p.ready.value.env.process))
  }

  lemma EffectIs(c: Coordinator, i: Input, k: Id)
    requires Inv(c) && Concerns(c, i, k)
    ensures var e := EffectOf(c.targets[k], i.op.ack);
            && (e.RevokesTarget? <==> ConfirmsRevoked(c, i, k))
            && (e.FailsTarget? <==> GivesUp(c, i, k))
            && (e.ConfirmsOnly? <==> ConfirmsDelivery(c, i, k))
  {
    var p := c.targets[k];
    assert TargetInv(c.plan, p);
    match p.phase {
      case Challenged => assert ChallengeBelongs(c.plan, p.target, p.challenge.value);
      case Installed => assert ChallengeBelongs(c.plan, p.target, p.challenge.value);
      case Replaced => assert ReadyBelongs(c.plan, p.target, p.install.value, p.ready.value);
      case Revoking => assert RevokeBelongs(c.plan, p.target, p.ready.value, p.revoke.value);
      case _ =>
    }
  }

  /** The end of the last target is the end of the operation. */
  predicate LastToRevoke(c: Coordinator, k: Id) { forall j :: j in c.targets && j != k ==> c.targets[j].phase.Revoked? }

  /** An acknowledgement revokes its target exactly when the session ordered to revoke it confirms and that is stored,
      completing the operation with the last one; it fails it exactly when the session dealing with the target gives up
      and that is stored, or when a confirmed revocation could not be stored. Anything else changes nothing, and is
      answered well exactly when it confirms a delivery. */
  lemma AcknowledgementEffect(c: Coordinator, i: Input)
    requires Inv(c) && i.op.GetAck?
    ensures var k := i.op.ack.env.connector;
            var c', entry, out := Do(c, i).next, Do(c, i).entry, Do(c, i).out;
            if ConfirmsRevoked(c, i, k) then
              && c'.finished == (if LastToRevoke(c, k) then i.now else c.finished)
              && if i.stored then
                   && c' == c.(finished := c'.finished, targets := c.targets[k := c.targets[k].(phase := Revoked)])
                   && entry == Some(ResultEntry(i.op.ack, SummaryOf(c'))) && out == Ok(SummaryReply(SummaryOf(c')))
                 else
                   && c' == c.(finished := c'.finished,
                               targets := c.targets[k := c.targets[k].(phase := Failed, code := Some(RotationFailed))])
                   && entry.None? && out == Err(RotationFailed)
            else if GivesUp(c, i, k) && i.stored then
              && c' == c.(targets := c.targets[k := c.targets[k].(phase := Failed, code := i.op.ack.code)])
              && entry == Some(ResultEntry(i.op.ack, SummaryOf(c'))) && out == Err(RotationFailed)
            else if ConfirmsDelivery(c, i, k) then Do(c, i) == Step(c, None, Ok(SummaryReply(SummaryOf(c))))
            else Refused(c, i)
  {
    var ack := i.op.ack;
    var k := ack.env.connector;
    if k in c.targets { AboutIff(c.plan, c.targets[k].target, ack.env); }
    if Concerns(c, i, k) {
      EffectIs(c, i, k);
      if ConfirmsRevoked(c, i, k) {
        RevokedFinishes(c, i, k);
      }
    }
  }

  lemma RevokedFinishes(c: Coordinator, i: Input, k: Id)
    requires Inv(c) && ConfirmsRevoked(c, i, k)
    ensures var next := RevokedTarget(c, k, i.now);
            && next == c.(finished := next.finished, targets := c.targets[k := c.targets[k].(phase := Revoked)])
            && next.finished == (if LastToRevoke(c, k) then i.now else c.finished)
            && FailedTarget(next, k, RotationFailed).targets
               == c.targets[k := c.targets[k].(phase := Failed, code := Some(RotationFailed))]
  {
    var next := c.(targets := c.targets[k := c.targets[k].(phase := Revoked)]);
    if LastToRevoke(c, k) {
      assert AllRevoked(next);
    } else {
      var j :| j in c.targets && j != k && !c.targets[j].phase.Revoked?;
      assert j in next.targets && next.targets[j] == c.targets[j];
    }
  }

  lemma AckRevokesIff(c: Coordinator, i: Input, k: Id)
    requires Inv(c) && k in c.targets && !c.targets[k].phase.Revoked? && i.op.GetAck?
    ensures k in Do(c, i).next.targets
            && (Do(c, i).next.targets[k].phase.Revoked? <==> ConfirmsRevoked(c, i, k) && i.stored)
  {
    AcknowledgementEffect(c, i);
  }

  /** In one call target `k` becomes Revoked exactly when it was not and the session ordered to revoke it confirms, with
      the result stored; recovery aside, which takes over what was recorded. */
  lemma BecomesRevokedIff(c: Coordinator, i: Input, k: Id)
    requires Inv(c) && k in c.targets && !c.targets[k].phase.Revoked? && !i.op.ResumeOp?
    ensures k in Do(c, i).next.targets
            && (Do(c, i).next.targets[k].phase.Revoked? <==> ConfirmsRevoked(c, i, k) && i.stored)
  {
    match i.op {
      case IssueChallenge(_, _, _) => ChallengeEffect(c, i);
      case GetProof(_, _) => ProofEffect(c, i);
      case GetReady(_) => ReadyEffect(c, i);
      case OrderRevoke(_, _) => RevokeEffect(c, i);
      case GetAck(_) => AckRevokesIff(c, i, k);
      case FailTarget(_, _) =>
      case StartOp =>
    }
  }

  // ---------------------------------------------------------------------------------------------
  // Failing and starting

  /** Somebody fails target `k`, which has not ended. */
  predicate Fails(c: Coordinator, i: Input, k: Id) {
    && i.op.FailTarget? && i.op.connector == k && i.op.code.Some? && k in c.targets
    && !c.targets[k].phase.Revoked? && !c.targets[k].phase.Failed?
  }

  /** A target is failed by a call exactly while it has not ended and the result is stored, under the name of the
      session dealing with it, if any. */
  lemma FailEffect(c: Coordinator, i: Input)
    requires Inv(c) && i.op.FailTarget?
    ensures var k, c' := i.op.connector, Do(c, i).next;
            if Fails(c, i, k) && i.stored then
              && c' == c.(targets := c.targets[k := c.targets[k].(phase := Failed, code := i.op.code)])
              && Do(c, i).out == Err(RotationFailed)
              && Do(c, i).entry.Some? && Do(c, i).entry.value.ResultEntry?
              && Do(c, i).entry.value.summary == SummaryOf(c')
              && var ack := Do(c, i).entry.value.ack;
                 && ack.status.FailedAck? && ack.code == i.op.code && ack.fits
                 && About(c.plan, c.targets[k].target, ack.env)
                 && if c.targets[k].phase.Pending? then ack.env.session == "" else SpeaksNow(c.targets[k], ack.env)
            else Refused(c, i)
  {
    var k := i.op.connector;
    if Fails(c, i, k) {
      var p := c.targets[k];
      assert TargetInv(c.plan, p);
      FailureSpeaker(c, p, i.op.code.value);
    }
  }

  lemma FailureSpeaker(c: Coordinator, p: Progress, code: Code)
    requires TargetInv(c.plan, p) && !p.phase.Failed? && !p.phase.Revoked?
    ensures var ack := FailureAck(c, p, code);
            && ack.status.FailedAck? && ack.code == Some(code) && ack.fits && About(c.plan, p.target, ack.env)
            && if p.phase.Pending? then ack.env.session == "" else SpeaksNow(p, ack.env)
  {
    match p.phase {
      case Challenged => assert HasChallenge(WriteOut(p));
      case Installed => assert HasChallenge(WriteOut(p));
      case Replaced => assert HasReady(WriteOut(p));
      case Revoking => assert HasRevoke(WriteOut(p));
      case _ =>
    }
  }

  /** A coordinator is started once its record is stored; starting again changes nothing. */
  lemma StartEffect(c: Coordinator, i: Input)
    requires i.op.StartOp?
    ensures if c.started then Do(c, i) == Step(c, None, Ok(Done))
            else if i.stored then Do(c, i) == Step(c.(started := true), Some(Begun(c.plan)), Ok(Done))
            else Refused(c, i)
  {}

  /** What makes target `k` fail in one call. */
  predicate Undone(c: Coordinator, i: Input, k: Id) {
    if i.stored then Fails(c, i, k) || GivesUp(c, i, k)
    else
      || (Proves(c, i) && i.op.proof.env.connector == k)
      || (ReportsReady(c, i) && i.op.ready.env.connector == k)
      || Orders(c, i, k) || ConfirmsRevoked(c, i, k)
  }

  lemma AckFailsIff(c: Coordinator, i: Input, k: Id)
    requires Inv(c) && k in c.targets && !c.targets[k].phase.Failed? && i.op.GetAck?
    ensures k in Do(c, i).next.targets && (Do(c, i).next.targets[k].phase.Failed? <==> Undone(c, i, k))
  {
    AcknowledgementEffect(c, i);
  }

  lemma FailureFailsIff(c: Coordinator, i: Input, k: Id)
    requires Inv(c) && k in c.targets && !c.targets[k].phase.Failed? && i.op.FailTarget?
    ensures k in Do(c, i).next.targets && (Do(c, i).next.targets[k].phase.Failed? <==> Undone(c, i, k))
  {
    FailEffect(c, i);
  }

  /** In one call target `k` fails exactly when it is failed or its session gives up, and that is stored; or when the
      write of its proof, its readiness, its revoke order or its revocation fails. */
  lemma BecomesFailedIff(c: Coordinator, i: Input, k: Id)
    requires Inv(c) && k in c.targets && !c.targets[k].phase.Failed? && !i.op.ResumeOp?
    ensures k in Do(c, i).next.targets && (Do(c, i).next.targets[k].phase.Failed? <==> Undone(c, i, k))
  {
    match i.op {
      case IssueChallenge(_, _, _) => ChallengeEffect(c, i);
      case GetProof(_, _) => ProofEffect(c, i);
      case GetReady(_) => ReadyEffect(c, i);
      case OrderRevoke(_, _) => RevokeEffect(c, i);
      case GetAck(_) => AckFailsIff(c, i, k);
      case FailTarget(_, _) => FailureFailsIff(c, i, k);
      case StartOp => StartEffect(c, i);
    }
  }

  // ---------------------------------------------------------------------------------------------
  // Recovery and summary

  predicate SameOperation(a: Plan, b: Plan) {
    a.account == b.account && a.tunnel == b.tunnel && a.operation == b.operation && a.setHash == b.setHash
  }

  /** A coordinator not yet started takes over the records of its operation exactly when there is one valid record for
      each target and a completion time only with an end, not in the future; a started one keeps what it has. */
  lemma ResumeEffect(c: Coordinator, i: Input)
    requires Inv(c) && i.op.ResumeOp?
    ensures var c' := Do(c, i).next;
            && Do(c, i).entry.None?
            && if i.op.loaded.Ok? && i.op.loaded.value.started && SameOperation(i.op.loaded.value.plan, c.plan)
                  && i.op.loaded.value.plan.Valid() && (c.started || Complete(c, i.op.loaded.value, i.now)) then
                 && Do(c, i).out == Ok(Done)
                 && if c.started then c' == c
                    else
                      && c'.started && c'.plan == c.plan && c'.finished == i.op.loaded.value.finishedAt
                      && c'.targets.Keys == c.targets.Keys
                      && forall n :: 0 <= n < |i.op.loaded.value.records| ==>
                           var r := i.op.loaded.value.records[n];
                           && r.target.connector in c'.targets
                           && c'.targets[r.target.connector]
                              == Progress(r.target, r.phase, r.code, r.challenge, r.proof, r.install, r.ready, r.revoke)
               else Refused(c, i)
  {
    if i.op.loaded.Ok? {
      CompleteIff(c, i.op.loaded.value, i.now);
      if !c.started && Do(c, i).out.Ok? {
        ResumeTakesOver(c, i.op.loaded.value, i.now);
      }
    }
  }

  /** One valid record for each target, and a completion time only with an end. */
  predicate Complete(c: Coordinator, loaded: Loaded, now: Instant) {
    && |loaded.records| == |c.targets| && Distinct(loaded.records)
    && (forall n :: 0 <= n < |loaded.records| ==>
          var r := loaded.records[n];
          && r.target.connector in c.targets && c.targets[r.target.connector].target == r.target
          && ValidRecord(c.plan, r))
    && (loaded.finishedAt != 0 ==>
          && loaded.finishedAt <= now + MAX_CLOCK_SKEW
          && ((exists n :: 0 <= n < |loaded.records| && loaded.records[n].phase.Failed?)
              || forall n :: 0 <= n < |loaded.records| ==> loaded.records[n].phase.Revoked?))
  }

  lemma CompleteIff(c: Coordinator, loaded: Loaded, now: Instant)
    ensures Complete(c, loaded, now) <==> ResumeRefusal(c, loaded, now).None?
  {
    if Complete(c, loaded, now) {
      forall n | 0 <= n < |loaded.records| ensures Recoverable(c, loaded.records[n]) {}
    }
    if ResumeRefusal(c, loaded, now).None? {
      forall n | 0 <= n < |loaded.records|
        ensures loaded.records[n].target.connector in c.targets && ValidRecord(c.plan, loaded.records[n])
                && c.targets[loaded.records[n].target.connector].target == loaded.records[n].target
      {
        assert Recoverable(c, loaded.records[n]);
      }
    }
  }

  /** The summary lists the targets in the order of the plan as they are; one failure is failure, success is that all
      are revoked, and only success has a completion time. */
  lemma SummaryIs(c: Coordinator)
    requires Inv(c)
    ensures var s := SummaryOf(c);
            && |s.lines| == |c.plan.targets|
            && (forall n :: 0 <= n < |s.lines| ==>
                  var p := c.targets[c.plan.targets[n].connector];
                  s.lines[n] == Line(c.plan.targets[n], p.phase, p.code))
            && (s.status.AggregateFailed? <==> exists n :: 0 <= n < |s.lines| && s.lines[n].phase.Failed?)
            && (s.status.AggregateSucceeded? <==> forall n :: 0 <= n < |s.lines| ==> s.lines[n].phase.Revoked?)
            && s.completedAt == if s.status.AggregateSucceeded? then c.finished else 0
  {
    var s := SummaryOf(c);
    if exists k :: k in c.targets && c.targets[k].phase.Failed? {
      var k :| k in c.targets && c.targets[k].phase.Failed?;
      var n := TH.PlanIndex(c, k);
      assert s.lines[n].phase.Failed?;
    }
    if forall n :: 0 <= n < |s.lines| ==> s.lines[n].phase.Revoked? {
      forall k | k in c.targets ensures c.targets[k].phase.Revoked? {
        var n := TH.PlanIndex(c, k);
        assert s.lines[n].phase.Revoked?;
      }
    }
  }

  // ---------------------------------------------------------------------------------------------
  // Refusals say why

  predicate ChallengeCause(c: Coordinator, i: Input, code: Code)
    requires i.op.IssueChallenge?
  {
    var k, t := i.op.connector, i.op.terms;
    || (code.InvalidInput? && (!c.started || !SoundTerms(t, i.now)))
    || (code.IdentityMismatch? && k !in c.targets)
    || (code.SessionConflict? && k in c.targets && !Waits(c.targets[k], i.now))
    || (code.CredentialExpired? && !SoundTerms(t, i.now))
    || (i.op.denied == Some(code))
    || (code.RotationFailed? && !i.stored)
  }

  predicate ProofCause(c: Coordinator, i: Input, code: Code)
    requires i.op.GetProof?
  {
    var proof := i.op.proof;
    var k := proof.env.connector;
    if !SoundProof(proof, i.now) then
      || code.InvalidInput?
      || (code.IdentityMismatch? && !proof.newKey.matches)
      || (code.AuthenticationFailed?
          && !(proof.issuedAt <= i.now + MAX_CLOCK_SKEW && i.now <= proof.issuedAt + MAX_CLOCK_SKEW))
    else if k !in c.targets || !c.targets[k].phase.Challenged? || c.targets[k].challenge.None? then
      code.StaleGeneration?
    else
      var ch := c.targets[k].challenge.value;
      || (code.IdentityMismatch? && !AnswersChallenge(c.plan, c.targets[k].target, ch, proof))
      || (code.AuthenticationFailed? && !i.op.verified)
      || (code.CredentialExpired? && ch.overlapUntil <= i.now)
      || (code.RotationFailed? && !i.stored)
  }

  predicate ReadyCause(c: Coordinator, i: Input, code: Code)
    requires i.op.GetReady?
  {
    var r := i.op.ready;
    var k := r.env.connector;
    if !SoundReport(r, i.now) then
      || code.InvalidInput?
      || (code.IdentityMismatch? && !r.newKey.matches)
      || (code.RotationNotReady? && !(r.edge && r.route && r.origin))
      || (code.CredentialExpired? && r.validUntil <= i.now)
    else if k !in c.targets || !c.targets[k].phase.Installed? || c.targets[k].install.None? then code.StaleGeneration?
    else
      || (code.IdentityMismatch? && !Replaces(c.plan, c.targets[k].target, c.targets[k].install.value, r))
      || (code.RotationFailed? && !i.stored)
  }

  predicate RevokeCause(c: Coordinator, i: Input, code: Code)
    requires i.op.OrderRevoke?
  {
    var k := i.op.connector;
    || (code.IdentityMismatch? && k !in c.targets)
    || (code.RotationFailed? && (!i.stored || exists j :: j in c.targets && c.targets[j].phase.Failed?))
    || (code.RotationNotReady? && !AllSettled(c) && forall j :: j in c.targets ==> !c.targets[j].phase.Failed?)
    || (code.StaleGeneration? && k in c.targets && c.targets[k].phase.Revoked?)
    || (code.InvalidInput? && i.op.nonce.Ok? && !ValidNonce(i.op.nonce.value))
    || i.op.nonce == Err(code)
  }

  predicate AckCause(c: Coordinator, i: Input, code: Code)
    requires i.op.GetAck?
  {
    var ack := i.op.ack;
    var k := ack.env.connector;
    if !ack.Valid() then code.InvalidInput?
    else if !Concerns(c, i, k) then code.IdentityMismatch?
    else
      || (code.StaleGeneration? && (c.targets[k].phase.Revoked? || c.targets[k].phase.Failed? || !ack.Negative()))
      || (code.IdentityMismatch? && ack.Negative() && !SpeaksNow(c.targets[k], ack.env))
      || (code.RotationFailed? && (GivesUp(c, i, k) || (ConfirmsRevoked(c, i, k) && !i.stored)))
  }

  predicate RefusalCause(c: Coordinator, i: Input, code: Code) {
    match i.op
    case StartOp => code.RotationFailed? && !i.stored
    case ResumeOp(loaded) => if loaded.Err? then code.RotationFailed? else code.IdentityMismatch?
    case IssueChallenge(_, _, _) => ChallengeCause(c, i, code)
    case GetProof(_, _) => ProofCause(c, i, code)
    case GetReady(_) => ReadyCause(c, i, code)
    case OrderRevoke(_, _) => RevokeCause(c, i, code)
    case GetAck(_) => AckCause(c, i, code)
    case FailTarget(k, cause) =>
      if cause.None? then code.InvalidInput?
      else if k !in c.targets then code.IdentityMismatch?
      else if c.targets[k].phase.Revoked? then code.StaleGeneration?
      else code.RotationFailed?
  }

  /** The code of a refusal is true of the message, of the target or of the store. */
  lemma RefusalsAreTrue(c: Coordinator, i: Input)
    requires Inv(c) && Do(c, i).out.Err?
    ensures RefusalCause(c, i, Do(c, i).out.code)
  {
    match i.op {
      case IssueChallenge(_, _, _) => ChallengeRefusalIsTrue(c, i);
      case GetProof(_, _) => ProofRefusalIsTrue(c, i);
      case GetReady(_) => ReadyRefusalIsTrue(c, i);
      case OrderRevoke(_, _) => RevokeRefusalIsTrue(c, i);
      case GetAck(_) => AckRefusalIsTrue(c, i);
      case _ =>
    }
  }

  lemma ChallengeRefusalIsTrue(c: Coordinator, i: Input)
    requires Inv(c) && i.op.IssueChallenge?
    ensures Do(c, i).out.Err? ==> ChallengeCause(c, i, Do(c, i).out.code)
  {
    ChallengeEffect(c, i);
    var k := i.op.connector;
    if k in c.targets {
      assert TargetInv(c.plan, c.targets[k]);
      if c.targets[k].phase.Challenged? {
        assert ChallengeBelongs(c.plan, c.targets[k].target, c.targets[k].challenge.value);
      }
    }
  }

  lemma ProofRefusalIsTrue(c: Coordinator, i: Input)
    requires Inv(c) && i.op.GetProof?
    ensures Do(c, i).out.Err? ==> ProofCause(c, i, Do(c, i).out.code)
  {
    var proof := i.op.proof;
    var k := proof.env.connector;
    ProvesIff(c, i);
    if k in c.targets && c.targets[k].phase.Challenged? {
      var p := c.targets[k];
      assert TargetInv(c.plan, p);
      assert ChallengeBelongs(c.plan, p.target, p.challenge.value);
      AboutIff(c.plan, p.target, p.challenge.value.env);
      assert proof.Answers(p.challenge.value, p.target)
          <==> AnswersChallenge(c.plan, p.target, p.challenge.value, proof);
    }
  }

  lemma ReadyRefusalIsTrue(c: Coordinator, i: Input)
    requires Inv(c) && i.op.GetReady?
    ensures Do(c, i).out.Err? ==> ReadyCause(c, i, Do(c, i).out.code)
  {
    ReadyEffect(c, i);
  }

  lemma RevokeRefusalIsTrue(c: Coordinator, i: Input)
    requires Inv(c) && i.op.OrderRevoke?
    ensures Do(c, i).out.Err? ==> RevokeCause(c, i, Do(c, i).out.code)
  {
    var k := i.op.connector;
    SettledIsReady(c);
    if k in c.targets {
      var p := c.targets[k];
      assert TargetInv(c.plan, p);
      if AllSettled(c) { assert Settled(p); }
      if p.phase.Replaced? { assert ReadyBelongs(c.plan, p.target, p.install.value, p.ready.value); }
    }
  }

  lemma AckRefusalIsTrue(c: Coordinator, i: Input)
    requires Inv(c) && i.op.GetAck?
    ensures Do(c, i).out.Err? ==> AckCause(c, i, Do(c, i).out.code)
  {
    var k := i.op.ack.env.connector;
    if k in c.targets { AboutIff(c.plan, c.targets[k].target, i.op.ack.env); }
    if Concerns(c, i, k) { EffectIs(c, i, k); }
  }
}
