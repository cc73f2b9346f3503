/** The time windows of challenges the rotation dispatcher issues and reissues. */
module RotationWindows {
  import opened Wrappers
  import opened Protocol
  import opened RotationMessages
  import opened RotationSpec

  /** The dispatcher's configured durations. */
  datatype Policy = Policy(ttl: nat, overlap: nat, lifetime: nat) {
    predicate Valid() {
      0 < ttl <= MAX_CHALLENGE && ttl < overlap <= MAX_LEASE && overlap < lifetime <= MAX_LIFETIME
    }
  }

  datatype Window = Window(expiresAt: nat, overlapUntil: nat, validUntil: nat)

  /** `rotationPolicy`: the recorded overlap end and credential expiry, or new ones when neither is recorded. */
  function RotationPolicy(d: Policy, now: Instant, overlapUntil: nat, validUntil: nat): Outcome<Window> {
    var blank := overlapUntil == 0 && validUntil == 0;
    var overlap := if blank then now + d.overlap else overlapUntil;
    var valid := if blank then now + d.lifetime else validUntil;
    if overlap <= now || valid <= overlap then Err(CredentialExpired)
    else
      var expires := if overlap <= now + d.ttl then overlap - MILLISECOND else now + d.ttl;
      if expires <= now then Err(CredentialExpired) else Ok(Window(expires, overlap, valid))
  }

  /** How much overlap must be left for another challenge. */
  function Leeway(d: Policy): nat { if d.ttl < MILLISECOND then d.ttl else MILLISECOND }

  /** A recorded window can be challenged again exactly while more than a millisecond of overlap is left, or more
      than the challenge lifetime if that is shorter still. */
  lemma PolicyHoldsIff(d: Policy, now: Instant, overlapUntil: nat, validUntil: nat)
    requires d.Valid() && 0 < overlapUntil < validUntil
    ensures RotationPolicy(d, now, overlapUntil, validUntil).Ok?
            <==> overlapUntil > now + Leeway(d)
  {}

  /** The live session a challenge goes to, and the outcomes of the call. */
  datatype Attempt = Attempt(
    now: Instant, session: Id, process: nat, key: KeyIdentity, nonce: string, denied: Option<Code>, stored: bool) {
    predicate Sound() { ValidIdentifier(session) && process != 0 && key.sound && ValidNonce(nonce) }
  }

  function Recorded(p: Progress, row: (nat, nat)): (nat, nat) {
    if p.challenge.Some? then (p.challenge.value.overlapUntil, p.challenge.value.validUntil) else row
  }

  function TermsOf(a: Attempt, w: Window): Terms {
    Terms(a.session, a.process, a.key, a.nonce, a.now, w.expiresAt, w.overlapUntil, w.validUntil)
  }

  /** Reconciling a pending or challenged target with its session online: issue, reissue or resend. `row` is what
      the operation recorded when it was created. */
  function Reconcile(d: Policy, plan: Plan, p: Progress, row: (nat, nat), a: Attempt): Turn {
    var known := Recorded(p, row);
    if known.0 != 0 && known.0 <= a.now then Unmoved(p, CredentialExpired)
    else if p.phase.Challenged? && p.challenge.Some? && p.challenge.value.expiresAt > a.now then
      Turn(p, None, Ok(ChallengeReply(p.challenge.value)))
    else
      var window := RotationPolicy(d, a.now, known.0, known.1);
      if window.Err? then Unmoved(p, window.code)
      else ChallengeTurn(plan, p, a.now, TermsOf(a, window.value), a.denied, a.stored)
  }

  /** A target waiting for a proof, and the windows it must keep. */
  predicate Waiting(plan: Plan, p: Progress, row: (nat, nat)) {
    && plan.Valid() && p.target.Valid()
    && (p.phase.Pending? || p.phase.Challenged?)
    && (p.phase.Pending? <==> p.challenge.None?)
    && (p.challenge.Some? ==> p.challenge.value.Windows())
    && ((row.0 == 0 && row.1 == 0) || 0 < row.0 < row.1)
    && (p.challenge.Some? && row.0 != 0 ==> Recorded(p, row) == row)
  }

  /** The row's own windows leave room for a first challenge issued at `now`. */
  predicate Roomy(row: (nat, nat), now: Instant) {
    row.0 != 0 ==> row.0 - now <= MAX_LEASE && row.1 - now <= MAX_LIFETIME
  }

  lemma ReissueKeepsWaiting(d: Policy, plan: Plan, p: Progress, row: (nat, nat), a: Attempt)
    requires d.Valid() && Waiting(plan, p, row)
    ensures var p' := Reconcile(d, plan, p, row, a).next;
            && Waiting(plan, p', row)
            && (p.challenge.Some? ==> p'.challenge.Some? && Recorded(p', row) == Recorded(p, row))
            && (p' != p ==>
                  && p'.challenge.Some?
                  && var ch := p'.challenge.value;
                     a.now == ch.issuedAt < ch.expiresAt < ch.overlapUntil < ch.validUntil)
  {}

  /** A live challenge is sent again as it is. A new one goes to the session online now and lasts for the configured
      time, or until a millisecond before the overlap ends if that is sooner; overlap end and credential expiry are
      the recorded ones, or else the configured times from now. */
  lemma IssuedWindow(d: Policy, plan: Plan, p: Progress, row: (nat, nat), a: Attempt)
    requires d.Valid() && Waiting(plan, p, row)
    ensures var turn := Reconcile(d, plan, p, row, a);
            && (turn.out.Ok? && StillLive(p, a.now) ==> turn == Turn(p, None, Ok(ChallengeReply(p.challenge.value))))
            && (turn.out.Ok? && !StillLive(p, a.now) ==>
                  && turn.next.phase.Challenged? && turn.next.challenge.Some?
                  && var ch, recorded := turn.next.challenge.value, Recorded(p, row);
                     && turn.entry == Some(ChallengeEntry(ch)) && turn.out == Ok(ChallengeReply(ch))
                     && turn.next == p.(phase := Challenged, challenge := Some(ch))
                     && ch.env == plan.EnvelopeOf(p.target, a.session, a.process) && ch.target == p.target
                     && ch.oldKey == a.key && ch.nonce == a.nonce && ch.issuedAt == a.now
                     && ch.overlapUntil == (if recorded.0 == 0 then a.now + d.overlap else recorded.0)
                     && ch.validUntil == (if recorded.0 == 0 then a.now + d.lifetime else recorded.1)
                     && (ch.overlapUntil > a.now + d.ttl ==> ch.expiresAt == a.now + d.ttl)
                     && (ch.overlapUntil <= a.now + d.ttl ==> ch.expiresAt + MILLISECOND == ch.overlapUntil))
  {}

  /** The target's challenge has not expired. */
  predicate StillLive(p: Progress, now: Instant) { p.challenge.Some? && p.challenge.value.expiresAt > now }

  /** A challenge the dispatcher builds is never refused for its times, the first if the row leaves room and a reissue
      if the clock has not gone back: an attempt succeeds exactly when a challenge is still live, or nothing is
      recorded yet, or enough overlap is left; otherwise the credential counts as expired. */
  lemma TimesAreNeverRefused(d: Policy, plan: Plan, p: Progress, row: (nat, nat), a: Attempt)
    requires d.Valid() && Waiting(plan, p, row) && a.Sound() && a.denied.None? && a.stored
    requires if p.challenge.Some? then p.challenge.value.issuedAt <= a.now else Roomy(row, a.now)
    ensures Reconcile(d, plan, p, row, a).out.Ok?
            <==> StillLive(p, a.now) || Recorded(p, row).0 == 0 || Recorded(p, row).0 > a.now + Leeway(d)
    ensures Reconcile(d, plan, p, row, a).out.Err? ==> Reconcile(d, plan, p, row, a).out == Err(CredentialExpired)
  {
    var known := Recorded(p, row);
    if !StillLive(p, a.now) {
      var window := RotationPolicy(d, a.now, known.0, known.1);
      if window.Ok? {
        var c := ChallengeFor(plan, p.target, TermsOf(a, window.value));
        assert c.Windows();
        assert c.env.Valid();
      }
    }
  }

  // ---------------------------------------------------------------------------------------------
  // Any number of reissues

  function Run(d: Policy, plan: Plan, p: Progress, row: (nat, nat), attempts: seq<Attempt>): Progress
    decreases |attempts|
  {
    if attempts == [] then p else Run(d, plan, Reconcile(d, plan, p, row, attempts[0]).next, row, attempts[1..])
  }

  predicate ClockedFrom(now: nat, attempts: seq<Attempt>)
    decreases |attempts|
  {
    attempts == [] || (now <= attempts[0].now && ClockedFrom(attempts[0].now, attempts[1..]))
  }

  /** The latest challenge was issued by `now`. */
  predicate IssuedBy(p: Progress, now: nat) { p.challenge.Some? ==> p.challenge.value.issuedAt <= now }

  /** Over any number of attempts under a clock that does not go back, the overlap end and the credential expiry of
      a challenged target never change, and its windows stay nested and within bounds. */
  lemma {:induction false} WindowsNeverMove(d: Policy, plan: Plan, p: Progress, row: (nat, nat), now: nat,
                                            attempts: seq<Attempt>)
    requires d.Valid() && Waiting(plan, p, row) && IssuedBy(p, now) && ClockedFrom(now, attempts)
    ensures var p' := Run(d, plan, p, row, attempts);
            && Waiting(plan, p', row)
            && (p.challenge.Some? ==> p'.challenge.Some? && Recorded(p', row) == Recorded(p, row))
            && (forall later: nat :: (forall i :: 0 <= i < |attempts| ==> attempts[i].now <= later) && now <= later ==>
                IssuedBy(p', later))
    decreases |attempts|
  {
    if attempts == [] {
    } else {
      var a := attempts[0];
      var q := Reconcile(d, plan, p, row, a).next;
      ReissueKeepsWaiting(d, plan, p, row, a);
      WindowsNeverMove(d, plan, q, row, a.now, attempts[1..]);
      var p' := Run(d, plan, p, row, attempts);
      forall later: nat | (forall i :: 0 <= i < |attempts| ==> attempts[i].now <= later) && now <= later
        ensures IssuedBy(p', later) {
        assert attempts[0].now <= later;
        assert forall i :: 0 <= i < |attempts[1..]| ==> attempts[1..][i].now <= later;
      }
    }
  }

  /** After any run of attempts, the next one succeeds exactly when the challenge is still live or enough of the
      overlap fixed by the first challenge is left; otherwise the credential counts as expired. */
  lemma EveryReissueIsAccepted(d: Policy, plan: Plan, p: Progress, row: (nat, nat), now: nat, attempts: seq<Attempt>,
                               a: Attempt)
    requires d.Valid() && Waiting(plan, p, row) && p.challenge.Some? && IssuedBy(p, now) && ClockedFrom(now, attempts)
    requires now <= a.now && forall i :: 0 <= i < |attempts| ==> attempts[i].now <= a.now
    requires a.Sound() && a.denied.None? && a.stored
    ensures var q := Run(d, plan, p, row, attempts);
            && (Reconcile(d, plan, q, row, a).out.Ok? <==>
                StillLive(q, a.now) || p.challenge.value.overlapUntil > a.now + Leeway(d))
            && (Reconcile(d, plan, q, row, a).out.Err? ==> Reconcile(d, plan, q, row, a).out == Err(CredentialExpired))
  {
    WindowsNeverMove(d, plan, p, row, now, attempts);
    var q := Run(d, plan, p, row, attempts);
    assert IssuedBy(q, a.now);
    TimesAreNeverRefused(d, plan, q, row, a);
  }
}
