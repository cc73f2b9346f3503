/** How long a session lasts: the lease is exactly what the last contact granted, so a session that keeps beating stays
    open. */
module ServerLeases {
  import opened Wrappers
  import opened Protocol
  import opened ServerSpec
  import opened ServerEffects
  import SR = ServerRuns

  /** The last contact: when it was, and until when it was authorised to be followed. */
  datatype Contact = Contact(at: nat, until: nat)

  /** Contacts as an observer of the answers counts them: an answered heartbeat, and a renewal since it began. */
  function ContactAfter(s: Server, i: Input, c: Contact): Contact {
    var out := Do(s, i).out;
    if out.Ok? && i.op.DeliverHeartbeat? then Contact(i.now, s.auth.credentialExpiresAt)
    else if out.Ok? && i.op.EndRenewal? && i.op.answer.Ok? then
      Contact(i.op.ticket.begun, i.op.answer.value.leaseExpiresAt)
    else c
  }

  function LastContact(s: Server, inputs: seq<Input>, c: Contact): Contact
    decreases |inputs|
  {
    if inputs == [] then c else LastContact(Do(s, inputs[0]).next, inputs[1..], ContactAfter(s, inputs[0], c))
  }

  /** The lease is the earlier of the lease duration from the last contact and what that contact was authorised for. */
  ghost predicate Granted(s: Server, c: Contact) {
    && s.settings.Valid() && s.lease.heartbeatMs == s.settings.heartbeatInterval / MILLISECOND
    && c.at > 0 && s.lease.lastHeartbeat == c.at
    && s.lease.leaseExpiresAt == Earlier(c.at + s.settings.leaseDuration, c.until)
  }

  lemma AcceptGrants(settings: Settings, now: Instant, hello: Hello, drains: Outcome<bool>, auth: Outcome<AuthResult>,
                     source: Outcome<Snapshot>, sessionId: Outcome<Id>)
    requires settings.Valid()
    ensures var a := Accept(settings, now, hello, drains, auth, source, sessionId);
            a.Ok? ==> Granted(a.value, Contact(now, auth.value.leaseExpiresAt))
  {}

  lemma StepGrants(s: Server, i: Input, c: Contact)
    requires Granted(s, c)
    ensures Granted(Do(s, i).next, ContactAfter(s, i, c))
  {
    match i.op {
      case DeliverHeartbeat(_) => HeartbeatEffect(s, i);
      case EndRenewal(_, _) => EndRenewalEffect(s, i);
      case _ => OthersKeepLease(s, i);
    }
  }

  lemma OthersKeepLease(s: Server, i: Input)
    requires !i.op.DeliverHeartbeat? && !i.op.EndRenewal?
    ensures var t := Do(s, i).next; t.lease == s.lease && t.settings == s.settings && t.auth == s.auth
  {}

  /** In every run the lease is exactly what the last contact granted. */
  lemma {:induction false} LeaseIsWhatWasGranted(s: Server, inputs: seq<Input>, c: Contact)
    requires Granted(s, c)
    ensures Granted(Run(s, inputs), LastContact(s, inputs, c))
    decreases |inputs|
  {
    if inputs == [] {
    } else {
      StepGrants(s, inputs[0], c);
      LeaseIsWhatWasGranted(Do(s, inputs[0]).next, inputs[1..], ContactAfter(s, inputs[0], c));
    }
  }

  /** Nobody closes or replaces the session, and every input comes within two heartbeat intervals of the last contact,
      before the credential ends and before that contact's authorisation does. */
  ghost predicate InTouch(s: Server, inputs: seq<Input>, c: Contact)
    decreases |inputs|
  {
    inputs == []
    || (&& inputs[0].live && !inputs[0].op.CloseSession?
        && inputs[0].now <= c.at + 2 * (s.settings.heartbeatInterval / MILLISECOND) * MILLISECOND
        && inputs[0].now < s.auth.credentialExpiresAt && inputs[0].now < c.until
        && InTouch(Do(s, inputs[0]).next, inputs[1..], ContactAfter(s, inputs[0], c)))
  }

  lemma InTouchIsOpen(s: Server, i: Input, c: Contact)
    requires Granted(s, c) && !s.cfg.state.Closed? && InTouch(s, [i], c)
    ensures Open(s, i.now, i.live)
  {
    assert [i][0] == i;
    assert s.settings.heartbeatInterval / MILLISECOND * MILLISECOND <= s.settings.heartbeatInterval;
  }

  /** A session that stays in touch is never refused by the gate and never closes; after an answered heartbeat that only
      takes two heartbeat intervals and the credential. */
  lemma {:induction false} InTouchStaysOpen(s: Server, inputs: seq<Input>, c: Contact)
    requires Granted(s, c) && !s.cfg.state.Closed? && InTouch(s, inputs, c)
    ensures !Run(s, inputs).cfg.state.Closed?
    ensures forall k :: 0 <= k < |inputs| ==> Open(Run(s, inputs[..k]), inputs[k].now, inputs[k].live)
    decreases |inputs|
  {
    if inputs == [] {
    } else {
      var i, rest := inputs[0], inputs[1..];
      var t := Do(s, i).next;
      assert InTouch(s, [i], c) by { assert [i][0] == i && [i][1..] == []; }
      InTouchIsOpen(s, i, c);
      ClosesIff(s, i);
      StepGrants(s, i, c);
      InTouchStaysOpen(t, rest, ContactAfter(s, i, c));
      forall k | 0 <= k < |inputs| ensures Open(Run(s, inputs[..k]), inputs[k].now, inputs[k].live) {
        if k == 0 {
          assert Run(s, inputs[..0]) == s;
        } else {
          assert inputs[..k][1..] == rest[..k - 1] && inputs[k] == rest[k - 1];
        }
      }
    }
  }

  /** Out of touch, the session is closed by whatever well-formed operation comes next. */
  lemma OutOfTouchCloses(s: Server, i: Input, c: Contact)
    requires Granted(s, c) && !s.cfg.state.Closed? && WellFormed(i.op, i.now)
    requires c.until <= i.now || c.at + s.settings.leaseDuration <= i.now || s.auth.credentialExpiresAt <= i.now
             || c.at + 2 * (s.settings.heartbeatInterval / MILLISECOND) * MILLISECOND < i.now
    ensures Do(s, i).next.cfg.state.Closed? && (Do(s, i).out.Ok? ==> i.op.CloseSession?)
  {
    ClosesIff(s, i);
  }
}
