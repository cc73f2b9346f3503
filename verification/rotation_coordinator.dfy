/** `RotationCoordinator` with its own fields, updated in place; every method is proved against `RotationSpec`. */
module RotationCoordinators {
  import opened Wrappers
  import opened Protocol
  import opened RotationMessages
  import opened RotationSpec
  import opened RotationRuns
  import opened RotationTrail

  class RotationStore {
    var log: seq<Entry>

    constructor ()
      ensures log == []
    {
      log := [];
    }

    method Write(e: Entry, succeeds: bool)
      modifies this
      ensures log == if succeeds then old(log) + [e] else old(log)
    {
      if succeeds {
        log := log + [e];
      }
    }
  }

  /** The coordinator, the log and the result are those of the specified step. */
  ghost predicate Performed(before: World, i: Input, after: World, out: Outcome<Reply>) {
    var step := Do(before.c, i);
    after == World(step.next, Appended(before.log, step.entry)) && out == step.out
  }

  class RotationCoordinator {
    const plan: Plan
    const store: RotationStore
    var started: bool
    var finished: nat
    var targets: map<Id, Progress>

    ghost function View(): Coordinator
      reads this
    {
      Coordinator(plan, started, finished, targets)
    }

    ghost function Whole(): World
      reads this, store
    {
      World(View(), store.log)
    }

    /** The targets tracked are those of the plan. */
    ghost predicate Valid()
      reads this
    {
      && WellFormed(View())
      && (forall k {:trigger targets[k].target} :: k in targets ==> targets[k].target in plan.targets)
    }

    constructor (plan: Plan, store: RotationStore)
      requires plan.Valid()
      ensures View() == NewCoordinator(plan).value && this.store == store && Valid()
    {
      this.plan, this.store := plan, store;
      started, finished, targets := false, 0, map[];
      new;
      for n := 0 to |plan.targets|
        invariant targets == NewTargets(plan.targets, n)
        invariant this.plan == plan && this.store == store && !started && finished == 0
      {
        targets := targets[plan.targets[n].connector := NewTarget(plan.targets[n])];
      }
      NewTargetsAre(plan.targets);
    }

    // -------------------------------------------------------------------------------------------
    // The aggregate

    method Summarize() returns (summary: Summary)
      requires Valid()
      ensures summary == SummaryOf(View())
    {
      var failed, succeeded, lines := false, true, [];
      for n := 0 to |plan.targets|
        invariant |lines| == n && forall i :: 0 <= i < n ==> lines[i] == LineOf(View(), plan.targets[i])
        invariant failed <==> exists i :: 0 <= i < n && targets[plan.targets[i].connector].phase.Failed?
        invariant succeeded <==> forall i :: 0 <= i < n ==> targets[plan.targets[i].connector].phase.Revoked?
      {
        var p := targets[plan.targets[n].connector];
        lines := lines + [Line(plan.targets[n], p.phase, p.code)];
        if p.phase.Failed? {
          failed := true;
        }
        if !p.phase.Revoked? {
          succeeded := false;
        }
      }
      SeenAll(View(), failed, succeeded);
      var status := if failed then AggregateFailed else if succeeded then AggregateSucceeded else AggregatePending;
      summary := Summary(status, lines, if status.AggregateSucceeded? then finished else 0);
      assert summary.lines == SummaryOf(View()).lines;
    }

    method AllTargetsReady() returns (ready: bool)
      ensures ready == AllReady(View())
    {
      var rest := targets.Keys;
      while rest != {}
        invariant rest <= targets.Keys
        invariant forall k :: k in targets && k !in rest ==>
          targets[k].phase.Replaced? || targets[k].phase.Revoking? || targets[k].phase.Revoked?
        decreases |rest|
      {
        var k :| k in rest;
        if !targets[k].phase.Replaced? && !targets[k].phase.Revoking? && !targets[k].phase.Revoked? {
          return false;
        }
        rest := rest - {k};
      }
      ready := true;
    }

    // -------------------------------------------------------------------------------------------
    // Starting and recovering

    method Start(stored: bool) returns (out: Outcome<Reply>)
      requires Valid()
      modifies this`started, store
      ensures Valid()
      ensures var step := RotationSpec.Start(old(View()), stored);
              Whole() == World(step.next, Appended(old(store.log), step.entry)) && out == step.out
    {
      if started {
        return Ok(Done);
      }
      store.Write(Begun(plan), stored);
      if !stored {
        return Err(RotationFailed);
      }
      started := true;
      out := Ok(Done);
    }

    /** The checks of `Resume` over all records, before anything is taken over. */
    method CheckRecords(records: seq<Record>) returns (ok: bool)
      ensures ok <==> Distinct(records) && AllRecoverable(View(), records)
    {
      var seen: set<Id> := {};
      for n := 0 to |records|
        invariant seen == Named(records, n)
        invariant forall i, j :: 0 <= i < j < n ==> records[i].target.connector != records[j].target.connector
        invariant forall i {:trigger Recoverable(View(), records[i])} :: 0 <= i < n ==> Recoverable(View(), records[i])
      {
        NamedIff(records, n, records[n].target.connector);
        if records[n].target.connector in seen {
          return false;
        }
        seen := seen + {records[n].target.connector};
        if !(records[n].target.connector in targets && targets[records[n].target.connector].target == records[n].target
             && ValidRecord(plan, records[n])) {
          assert !Recoverable(View(), records[n]);
          return false;
        }
      }
      ok := true;
    }

    method IsTerminal(records: seq<Record>) returns (terminal: bool)
      ensures terminal == Terminal(records)
    {
      var failed, allRevoked := false, true;
      for n := 0 to |records|
        invariant failed <==> exists i :: 0 <= i < n && records[i].phase.Failed?
        invariant allRevoked <==> forall i :: 0 <= i < n ==> records[i].phase.Revoked?
      {
        if records[n].phase.Failed? {
          failed := true;
        }
        if !records[n].phase.Revoked? {
          allRevoked := false;
        }
      }
      terminal := failed || allRevoked;
    }

    /** Take over every record; nothing else changes. */
    method TakeOver(records: seq<Record>)
      requires Valid() && Distinct(records) && AllRecoverable(View(), records)
      modifies this`targets
      ensures targets == Overlay(old(targets), records, |records|) && Valid()
    {
      for n := 0 to |records|
        invariant targets == Overlay(old(targets), records, n) && targets.Keys == old(targets).Keys
        invariant forall k :: k in targets ==> targets[k].target == old(targets)[k].target
      {
        assert Recoverable(old(View()), records[n]);
        var k := records[n].target.connector;
        targets := targets[k := Recovered(targets[k], records[n])];
      }
    }

    /** All or nothing: any refusal leaves the coordinator as it was. */
    method Resume(now: Instant, loaded: Outcome<Loaded>) returns (out: Outcome<Reply>)
      requires Valid()
      modifies this
      ensures Valid()
      ensures Step(View(), None, out) == RotationSpec.Resume(old(View()), loaded, now)
      ensures out.Err? ==> View() == old(View())
    {
      if loaded.Err? {
        return Err(RotationFailed);
      }
      var found := loaded.value;
      if !found.started || !found.plan.Same(plan) || !found.plan.Valid() {
        return Err(IdentityMismatch);
      }
      if started {
        return Ok(Done);
      }
      if |found.records| != |targets| {
        return Err(IdentityMismatch);
      }
      var ok := CheckRecords(found.records);
      if !ok {
        return Err(IdentityMismatch);
      }
      if found.finishedAt != 0 {
        var terminal := IsTerminal(found.records);
        if !terminal || found.finishedAt > now + MAX_CLOCK_SKEW {
          return Err(IdentityMismatch);
        }
      }
      TakeOver(found.records);
      started := true;
      finished := found.finishedAt;
      out := Ok(Done);
    }

    // -------------------------------------------------------------------------------------------
    // One target at a time

    /** Replace what is known of one target. */
    method Put(k: Id, p: Progress)
      requires Valid() && k in targets && p.target == targets[k].target
      modifies this`targets
      ensures targets == old(targets)[k := p] && Valid()
    {
      targets := targets[k := p];
    }

    method Challenge(now: Instant, connector: Id, t: Terms, denied: Option<Code>, stored: bool)
      returns (out: Outcome<Reply>)
      requires Valid()
      modifies this`targets, store
      ensures Valid() && Performed(old(Whole()), Input(now, stored, IssueChallenge(connector, t, denied)), Whole(), out)
    {
      if !started {
        return Err(InvalidInput);
      }
      if connector !in targets {
        return Err(IdentityMismatch);
      }
      var p := targets[connector];
      assert targets == targets[connector := p];
      if !p.phase.Pending? {
        if !p.phase.Challenged? || p.challenge.None? || p.challenge.value.expiresAt == 0
          || p.challenge.value.expiresAt > now {
          return Err(SessionConflict);
        }
      }
      var challenge := ChallengeFor(plan, p.target, t);
      var refusal := challenge.Refusal(now);
      if refusal.Some? {
        return Err(refusal.value);
      }
      if denied.Some? {
        return Err(denied.value);
      }
      store.Write(ChallengeEntry(challenge), stored);
      if !stored {
        return Err(RotationFailed);
      }
      Put(connector, p.(phase := Challenged, challenge := Some(challenge)));
      out := Ok(ChallengeReply(challenge));
    }

    method AcceptProof(now: Instant, proof: Proof, verified: bool, stored: bool) returns (out: Outcome<Reply>)
      requires Valid()
      modifies this`targets, store
      ensures Valid() && Performed(old(Whole()), Input(now, stored, GetProof(proof, verified)), Whole(), out)
    {
      var refusal := proof.Refusal(now);
      if refusal.Some? {
        return Err(refusal.value);
      }
      var k := proof.env.connector;
      if k !in targets {
        return Err(StaleGeneration);
      }
      var p := targets[k];
      assert targets == targets[k := p];
      if !p.phase.Challenged? || p.challenge.None? {
        return Err(StaleGeneration);
      }
      var challenge := p.challenge.value;
      if !proof.Answers(challenge, p.target) {
        return Err(IdentityMismatch);
      }
      if !verified {
        return Err(AuthenticationFailed);
      }
      var install := InstallFor(plan, challenge, proof);
      refusal := install.Refusal(now);
      if refusal.Some? {
        return Err(refusal.value);
      }
      store.Write(ProofEntry(challenge, proof, install), stored);
      if !stored {
        Put(k, Broken(p));
        return Err(RotationFailed);
      }
      Put(k, p.(phase := Installed, proof := Some(proof), install := Some(install)));
      out := Ok(InstallReply(install, RotationAck(install.env, InstalledAck, None, true)));
    }

    method MarkReady(now: Instant, ready: ReadyReport, stored: bool) returns (out: Outcome<Reply>)
      requires Valid()
      modifies this`targets, store
      ensures Valid() && Performed(old(Whole()), Input(now, stored, GetReady(ready)), Whole(), out)
    {
      var refusal := ready.Refusal(now);
      if refusal.Some? {
        return Err(refusal.value);
      }
      var k := ready.env.connector;
      if k !in targets {
        return Err(StaleGeneration);
      }
      var p := targets[k];
      assert targets == targets[k := p];
      if !p.phase.Installed? || p.install.None? {
        return Err(StaleGeneration);
      }
      if !ready.Follows(plan, p.install.value) {
        return Err(IdentityMismatch);
      }
      store.Write(ReadyEntry(ready), stored);
      if !stored {
        Put(k, Broken(p));
        return Err(RotationFailed);
      }
      Put(k, p.(phase := Replaced, ready := Some(ready)));
      out := Ok(AckReply(RotationAck(ready.env, ReadyAck, None, true)));
    }

    method Revoke(now: Instant, connector: Id, nonce: Outcome<string>, stored: bool) returns (out: Outcome<Reply>)
      requires Valid()
      modifies this`targets, store
      ensures Valid() && Performed(old(Whole()), Input(now, stored, OrderRevoke(connector, nonce)), Whole(), out)
    {
      if connector !in targets {
        return Err(IdentityMismatch);
      }
      var summary := Summarize();
      if summary.status.AggregateFailed? {
        return Err(RotationFailed);
      }
      var ready := AllTargetsReady();
      if !ready {
        return Err(RotationNotReady);
      }
      out := RevokeReady(now, connector, nonce, stored);
    }

    /** The rest of `Revoke`, once the gate has passed. */
    method RevokeReady(now: Instant, k: Id, nonce: Outcome<string>, stored: bool) returns (out: Outcome<Reply>)
      requires Valid() && k in targets
      modifies this`targets, store
      ensures Valid()
      ensures var turn := RevokeTurn(plan, old(targets)[k], now, nonce, stored);
              targets == old(targets)[k := turn.next] && store.log == Appended(old(store.log), turn.entry)
                && out == turn.out
    {
      var p := targets[k];
      assert targets == targets[k := p];
      if p.phase.Revoking? && p.revoke.Some? {
        return Ok(RevokeReply(p.revoke.value));
      }
      if !p.phase.Replaced? || p.ready.None? {
        return Err(StaleGeneration);
      }
      if nonce.Err? {
        return Err(nonce.code);
      }
      var revoke := RevocationFor(plan, p, now, nonce.value);
      if !revoke.Shape() {
        return Err(InvalidInput);
      }
      store.Write(RevokeEntry(revoke), stored);
      if !stored {
        Put(k, Broken(p));
        return Err(RotationFailed);
      }
      Put(k, p.(phase := Revoking, revoke := Some(revoke)));
      out := Ok(RevokeReply(revoke));
    }

    /** Fail a target and record it, or put it back as it was. */
    method RecordFailed(k: Id, code: Code, ack: RotationAck, stored: bool) returns (out: Outcome<Reply>)
      requires Valid() && k in targets
      modifies this`targets, store
      ensures Valid()
      ensures var step := RecordFailure(old(View()), k, code, ack, stored);
              Whole() == World(step.next, Appended(old(store.log), step.entry)) && out == step.out
    {
      var previous := targets[k];
      Put(k, previous.(phase := Failed, code := Some(code)));
      var summary := Summarize();
      store.Write(ResultEntry(ack, summary), stored);
      if !stored {
        Put(k, targets[k].(phase := previous.phase, code := previous.code));
        assert targets == old(targets);
      }
      out := Err(RotationFailed);
    }

    /** The old credential is revoked: record it, or fail the target. */
    method RecordRevoked(now: Instant, k: Id, ack: RotationAck, stored: bool) returns (out: Outcome<Reply>)
      requires Valid() && k in targets
      modifies this`targets, this`finished, store
      ensures Valid()
      ensures var next := RevokedTarget(old(View()), k, now);
              if stored then
                Whole() == World(next, old(store.log) + [ResultEntry(ack, SummaryOf(next))])
                && out == Ok(SummaryReply(SummaryOf(next)))
              else Whole() == World(FailedTarget(next, k, RotationFailed), old(store.log)) && out == Err(RotationFailed)
    {
      Put(k, targets[k].(phase := Revoked));
      var summary := Summarize();
      if summary.status.AggregateSucceeded? {
        finished := now;
        summary := summary.(completedAt := now);
      }
      assert View() == RevokedTarget(old(View()), k, now);
      assert summary.lines == SummaryOf(View()).lines;
      store.Write(ResultEntry(ack, summary), stored);
      if !stored {
        Put(k, targets[k].(phase := Failed, code := Some(RotationFailed)));
        return Err(RotationFailed);
      }
      out := Ok(SummaryReply(summary));
    }

    method HandleAck(now: Instant, ack: RotationAck, stored: bool) returns (out: Outcome<Reply>)
      requires Valid()
      modifies this`targets, this`finished, store
      ensures Valid() && Performed(old(Whole()), Input(now, stored, GetAck(ack)), Whole(), out)
      ensures out.Ok? && ack.status.RevokedAck? ==>
                && stored && ack.env.connector in old(targets)
                && var p := old(targets)[ack.env.connector];
                   && p.phase.Revoking? && p.revoke.Some?
                   && ack.env.session == p.revoke.value.env.session && ack.env.process == p.revoke.value.env.process
                   && targets == old(targets)[ack.env.connector := p.(phase := Revoked)]
    {
      if !ack.Valid() {
        return Err(InvalidInput);
      }
      var k := ack.env.connector;
      if k !in targets || ack.env != plan.EnvelopeOf(targets[k].target, ack.env.session, ack.env.process) {
        return Err(IdentityMismatch);
      }
      out := Respond(now, k, ack, stored);
    }

    method Respond(now: Instant, k: Id, ack: RotationAck, stored: bool) returns (out: Outcome<Reply>)
      requires Valid() && k in targets && ack.Valid()
      modifies this`targets, this`finished, store
      ensures Valid()
      ensures var step := AckStep(old(View()), now, k, ack, stored);
              Whole() == World(step.next, Appended(old(store.log), step.entry)) && out == step.out
    {
      var p := targets[k];
      if p.phase.Revoked? || p.phase.Failed? {
        return Err(StaleGeneration);
      }
      if ack.Negative() {
        if !SpeaksFor(p, ack) {
          return Err(IdentityMismatch);
        }
        out := RecordFailed(k, ack.code.value, ack, stored);
        return;
      }
      if ack.status.InstalledAck? || ack.status.ReadyAck? {
        out := Confirm(p, ack);
        return;
      }
      if !ack.status.RevokedAck? || !p.phase.Revoking? || !Confirms(ack, EnvOfRevoke(p.revoke)) {
        return Err(StaleGeneration);
      }
      out := RecordRevoked(now, k, ack, stored);
    }

    /** An installed or ready acknowledgement only confirms what is already recorded. */
    method Confirm(p: Progress, ack: RotationAck) returns (out: Outcome<Reply>)
      requires Valid() && (ack.status.InstalledAck? || ack.status.ReadyAck?) && !p.phase.Revoked? && !p.phase.Failed?
      ensures out == if EffectOf(p, ack).ConfirmsOnly? then Ok(SummaryReply(SummaryOf(View())))
              else Err(StaleGeneration)
      ensures EffectOf(p, ack).ConfirmsOnly? || EffectOf(p, ack) == Refuses(StaleGeneration)
    {
      if ack.status.InstalledAck? && (!p.phase.Installed? || !Confirms(ack, EnvOfInstall(p.install))) {
        return Err(StaleGeneration);
      }
      if ack.status.ReadyAck? && (!p.phase.Replaced? || !Confirms(ack, EnvOfReady(p.ready))) {
        return Err(StaleGeneration);
      }
      var summary := Summarize();
      out := Ok(SummaryReply(summary));
    }

    method Fail(connector: Id, code: Option<Code>, stored: bool) returns (out: Outcome<Reply>)
      requires Valid()
      modifies this`targets, store
      ensures Valid()
      ensures var step := RotationSpec.Fail(old(View()), connector, code, stored);
              Whole() == World(step.next, Appended(old(store.log), step.entry)) && out == step.out
    {
      if code.None? {
        return Err(InvalidInput);
      }
      if connector !in targets {
        return Err(IdentityMismatch);
      }
      var p := targets[connector];
      if p.phase.Revoked? {
        return Err(StaleGeneration);
      }
      if p.phase.Failed? {
        return Err(RotationFailed);
      }
      out := RecordFailed(connector, code.value,
                          FailureAck(Coordinator(plan, started, finished, targets), p, code.value), stored);
    }
  }

  /** What the loop over the plan saw is what the targets hold. */
  lemma SeenAll(c: Coordinator, failed: bool, succeeded: bool)
    requires WellFormed(c)
    requires forall k {:trigger c.targets[k].target} :: k in c.targets ==> c.targets[k].target in c.plan.targets
    requires failed <==> exists i :: 0 <= i < |c.plan.targets| && c.targets[c.plan.targets[i].connector].phase.Failed?
    requires succeeded <==>
             forall i :: 0 <= i < |c.plan.targets| ==> c.targets[c.plan.targets[i].connector].phase.Revoked?
    ensures failed <==> AnyFailed(c)
    ensures succeeded <==> AllRevoked(c)
  {
    if AnyFailed(c) {
      var k :| k in c.targets && c.targets[k].phase.Failed?;
      var i :| 0 <= i < |c.plan.targets| && c.plan.targets[i] == c.targets[k].target;
    }
    if succeeded {
      forall k | k in c.targets ensures c.targets[k].phase.Revoked? {
        var i :| 0 <= i < |c.plan.targets| && c.plan.targets[i] == c.targets[k].target;
      }
    }
  }
}
