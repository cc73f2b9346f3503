/** Webhook delivery: an event is recorded and processed in one transaction, so deliveries may repeat and fail. */
module Webhooks {

  datatype Processed<+S> = Done(state: S) | Failed

  /** One delivery of an event; what processing it does to the rest of the database may differ each time. */
  datatype Delivery<!S> = Delivery(event: string, process: S -> Processed<S>)

  /** The events recorded, and everything else. */
  datatype Books<S> = Books(events: set<string>, state: S)

  /** `RecordPolarEvent`: a recorded event is skipped; a failure rolls back the record of the event too. */
  function Deliver<S>(b: Books<S>, d: Delivery<S>): Books<S> {
    if d.event in b.events then b
    else
      var out := d.process(b.state);
      if out.Failed? then b else Books(b.events + {d.event}, out.state)
  }

  function Run<S>(b: Books<S>, deliveries: seq<Delivery<S>>): Books<S>
    decreases |deliveries|
  {
    if deliveries == [] then b else Run(Deliver(b, deliveries[0]), deliveries[1..])
  }

  /** The deliveries that took effect. */
  function Effective<S>(b: Books<S>, deliveries: seq<Delivery<S>>): seq<Delivery<S>>
    decreases |deliveries|
  {
    if deliveries == [] then []
    else
      var rest := Effective(Deliver(b, deliveries[0]), deliveries[1..]);
      if deliveries[0].event !in b.events && deliveries[0].process(b.state).Done? then [deliveries[0]] + rest else rest
  }

  /** Processing a list in order, with no record of events at all. */
  function Plain<S>(state: S, deliveries: seq<Delivery<S>>): Processed<S>
    decreases |deliveries|
  {
    if deliveries == [] then Done(state)
    else
      var out := deliveries[0].process(state);
      if out.Failed? then Failed else Plain(out.state, deliveries[1..])
  }

  predicate DistinctEvents<S>(deliveries: seq<Delivery<S>>) {
    forall i, j :: 0 <= i < j < |deliveries| ==> deliveries[i].event != deliveries[j].event
  }

  predicate NoneOf<S>(deliveries: seq<Delivery<S>>, events: set<string>) {
    forall i :: 0 <= i < |deliveries| ==> deliveries[i].event !in events
  }

  function EventsOf<S>(deliveries: seq<Delivery<S>>): set<string>
    decreases |deliveries|
  {
    if deliveries == [] then {} else {deliveries[0].event} + EventsOf(deliveries[1..])
  }

  /** Any list of deliveries, with repeats and failures, leaves the state that plain processing of the effective
      ones leaves; each event is effective at most once, and only if it was not recorded at the start. */
  lemma {:induction false} RunsOnlyTheEffective<S>(b: Books<S>, deliveries: seq<Delivery<S>>)
    ensures var effective := Effective(b, deliveries);
            && Plain(b.state, effective) == Done(Run(b, deliveries).state)
            && DistinctEvents(effective) && NoneOf(effective, b.events)
            && Run(b, deliveries).events == b.events + EventsOf(effective)
    decreases |deliveries|
  {
    if deliveries == [] {
    } else {
      var d := deliveries[0];
      var next := Deliver(b, d);
      var rest := Effective(next, deliveries[1..]);
      RunsOnlyTheEffective(next, deliveries[1..]);
      if d.event !in b.events && d.process(b.state).Done? {
        var effective := [d] + rest;
        assert effective[1..] == rest;
        forall i, j | 0 <= i < j < |effective| ensures effective[i].event != effective[j].event {
          assert effective[j] == rest[j - 1];
          assert i > 0 ==> effective[i] == rest[i - 1];
        }
      }
    }
  }

  lemma {:induction false} RunAppends<S>(b: Books<S>, first: seq<Delivery<S>>, second: seq<Delivery<S>>)
    ensures Run(b, first + second) == Run(Run(b, first), second)
    decreases |first|
  {
    if first == [] {
      assert first + second == second;
    } else {
      assert (first + second)[1..] == first[1..] + second;
      RunAppends(Deliver(b, first[0]), first[1..], second);
    }
  }

  /** An event ends up recorded exactly when it was, or when one of its deliveries succeeds at its turn. */
  lemma {:induction false} RecordedIff<S>(b: Books<S>, deliveries: seq<Delivery<S>>, event: string)
    ensures event in Run(b, deliveries).events <==>
            || event in b.events
            || exists k :: 0 <= k < |deliveries| && deliveries[k].event == event
                           && deliveries[k].process(Run(b, deliveries[..k]).state).Done?
    decreases |deliveries|
  {
    if deliveries == [] {
    } else {
      var n := |deliveries| - 1;
      var init := deliveries[..n];
      RecordedIff(b, init, event);
      assert deliveries == init + [deliveries[n]];
      RunAppends(b, init, [deliveries[n]]);
      assert [deliveries[n]][1..] == [];
      forall k | 0 <= k < n ensures deliveries[..k] == init[..k] && deliveries[k] == init[k] {}
      if event in Run(b, deliveries).events && event !in Run(b, init).events {
        assert deliveries[n].event == event && deliveries[n].process(Run(b, deliveries[..n]).state).Done?;
      }
    }
  }

  /** A repeat after the event was processed, and a delivery that fails, can be left out anywhere in the list. */
  lemma UselessDeliveryIsInvisible<S>(b: Books<S>, first: seq<Delivery<S>>, d: Delivery<S>, second: seq<Delivery<S>>)
    requires d.event in Run(b, first).events || d.process(Run(b, first).state).Failed?
    ensures Run(b, first + [d] + second) == Run(b, first + second)
  {
    RunAppends(b, first + [d], second);
    RunAppends(b, first, [d]);
    RunAppends(b, first, second);
    assert [d][1..] == [];
  }
}
