/** The ledger tables, changed in place inside transactions; every method is proved against `CreditLedger`. */
module CreditBooks {
  import opened CreditLedger
  import W = Webhooks

  /** Run a list of calls inside one transaction, up to the first that fails. */
  function All(l: Ledger, ops: seq<Op>): W.Processed<Ledger>
    decreases |ops|
  {
    if ops == [] then W.Done(l)
    else if Do(l, ops[0]).Failure? then W.Failed
    else All(Do(l, ops[0]).value, ops[1..])
  }

  /** A transaction that commits is a run of its calls. */
  lemma {:induction false} AllIsRun(l: Ledger, ops: seq<Op>)
    ensures All(l, ops).Done? ==> All(l, ops).state == Run(l, ops)
    decreases |ops|
  {
    if ops == [] {
    } else if Do(l, ops[0]).Success? {
      AllIsRun(Do(l, ops[0]).value, ops[1..]);
    }
  }

  /** A webhook event and the ledger calls its processing makes. */
  datatype Event = Event(id: string, ops: seq<Op>) {
    function Delivery(): W.Delivery<Ledger> { W.Delivery(id, l => All(l, ops)) }
  }

  function Deliveries(events: seq<Event>): seq<W.Delivery<Ledger>> {
    seq(|events|, i requires 0 <= i < |events| => events[i].Delivery())
  }

  /** Whether delivering the event has an effect: it is new, and every call of its processing succeeds. */
  predicate TakesEffect(b: W.Books<Ledger>, e: Event) { e.id !in b.events && All(b.state, e.ops).Done? }

  /** How many tie debits of `u` the deliveries that have an effect book. */
  function DeliveredTies(b: W.Books<Ledger>, events: seq<Event>, u: string): nat
    decreases |events|
  {
    if events == [] then 0
    else
      (if TakesEffect(b, events[0]) then TieDebits(b.state, events[0].ops, u) else 0)
      + DeliveredTies(W.Deliver(b, events[0].Delivery()), events[1..], u)
  }

  ghost predicate NoneDelivered(b: W.Books<Ledger>, events: seq<Event>) {
    forall u {:trigger DeliveredTies(b, events, u)} :: DeliveredTies(b, events, u) == 0
  }

  lemma DeliveryGap(b: W.Books<Ledger>, e: Event, u: string)
    requires Solvent(b.state)
    ensures var l := W.Deliver(b, e.Delivery()).state;
            && Solvent(l) && (UniqueKeys(b.state.entries) ==> UniqueKeys(l.entries))
            && Gap(l, u) == Gap(b.state, u) + if TakesEffect(b, e) then TieDebits(b.state, e.ops, u) else 0
  {
    if TakesEffect(b, e) {
      AllIsRun(b.state, e.ops);
      GapCountsTies(b.state, e.ops, u);
      if UniqueKeys(b.state.entries) {
        RunKeepsUnique(b.state, e.ops);
      }
    }
  }

  /** Over any list of webhook deliveries, with repeats and failures, what a balance holds beyond its entries grows by
      exactly the tie debits that the deliveries with an effect book. */
  lemma {:induction false} DeliveriesGap(b: W.Books<Ledger>, events: seq<Event>, u: string)
    requires Solvent(b.state)
    ensures var l := W.Run(b, Deliveries(events)).state;
            && Solvent(l) && (UniqueKeys(b.state.entries) ==> UniqueKeys(l.entries))
            && Gap(l, u) == Gap(b.state, u) + DeliveredTies(b, events, u)
    decreases |events|
  {
    if events == [] {
    } else {
      assert Deliveries(events)[1..] == Deliveries(events[1..]);
      DeliveryGap(b, events[0], u);
      DeliveriesGap(W.Deliver(b, events[0].Delivery()), events[1..], u);
    }
  }

  /** Webhook deliveries leave every balance the signed sum of its entries exactly when they book no tie debit. */
  lemma DeliveriesConserveIff(b: W.Books<Ledger>, events: seq<Event>)
    requires Balanced(b.state)
    ensures Balanced(W.Run(b, Deliveries(events)).state) <==> NoneDelivered(b, events)
  {
    var l := W.Run(b, Deliveries(events)).state;
    forall u ensures Gap(l, u) == DeliveredTies(b, events, u) {
      DeliveriesGap(b, events, u);
      assert Gap(b.state, u) == 0;
    }
    DeliveriesGap(b, events, "");
    if Balanced(l) {
      forall u ensures DeliveredTies(b, events, u) == 0 { assert Gap(l, u) == 0; }
    }
    if NoneDelivered(b, events) {
      forall u ensures Gap(l, u) == 0 { assert DeliveredTies(b, events, u) == 0; }
    }
  }

  class Tables {
    var balances: map<string, int>
    var entries: seq<Entry>
    var events: set<string>

    constructor ()
      ensures View() == Ledger(map[], []) && events == {}
    {
      balances, entries, events := map[], [], {};
    }

    ghost function View(): Ledger
      reads this
    {
      Ledger(balances, entries)
    }

    method EnsureCreditAccount(user: string)
      modifies this`balances
      ensures View() == Opened(old(View()), user)
    {
      if user !in balances {
        balances := balances[user := 0];
      }
    }

    /** `creditLedgerEntryMatches` over the entries, newest first. */
    method EntryMatches(r: Request, amount: real) returns (seen: Result<bool>)
      ensures seen == Seen(View(), r, amount)
    {
      var n := |entries|;
      assert entries[..n] == entries;
      while n > 0
        invariant 0 <= n <= |entries|
        invariant Find(entries, r.key) == Find(entries[..n], r.key)
      {
        assert entries[..n][..n - 1] == entries[..n - 1];
        var e := entries[n - 1];
        if e.request.key == r.key {
          if e.request == r && e.amount as real == amount {
            return Success(true);
          }
          return Failure(IdempotencyConflict);
        }
        n := n - 1;
      }
      seen := Success(false);
    }

    method InsertCreditLedger(r: Request, amount: real, credit: bool) returns (out: Result<()>)
      requires r.user in balances
      modifies this`balances, this`entries
      ensures var i := Insert(old(View()), r, amount, credit);
              if i.Success? then View() == i.value && out == Success(())
              else View() == old(View()) && out == Failure(i.error)
    {
      var seen := EntryMatches(r, amount);
      if seen.Failure? {
        return Failure(seen.error);
      }
      if seen.value {
        return Success(());
      }
      entries := entries + [Entry(r, Round(amount), credit)];
      if credit {
        balances := balances[r.user := Round(balances[r.user] as real + amount)];
      } else {
        balances := balances[r.user := Round(balances[r.user] as real - amount)];
      }
      out := Success(());
    }

    method AddCreditsTx(r: Request, amount: real) returns (out: Result<()>)
      modifies this`balances, this`entries
      ensures var a := AddCredits(old(View()), r, amount);
              if a.Success? then View() == a.value && out.Success? else out == Failure(a.error)
    {
      if amount < 0.0 {
        return Failure(BadAmount);
      }
      EnsureCreditAccount(r.user);
      out := InsertCreditLedger(r, amount, true);
    }

    method DebitCreditsTx(r: Request, amount: real) returns (out: Result<()>)
      modifies this`balances, this`entries
      ensures var d := CreditLedger.DebitCredits(old(View()), r, amount);
              if d.Success? then View() == d.value && out.Success? else out == Failure(d.error)
    {
      if amount < 0.0 {
        return Failure(BadAmount);
      }
      EnsureCreditAccount(r.user);
      var seen := EntryMatches(r, amount);
      if seen.Failure? {
        return Failure(seen.error);
      }
      if seen.value {
        return Success(());
      }
      if (balances[r.user] as real) < amount {
        return Failure(InsufficientCredits);
      }
      out := InsertCreditLedger(r, amount, false);
    }

    method SwitchPlanTx(r: Request, delta: int) returns (out: Result<()>)
      modifies this`balances, this`entries
      ensures var s := SwitchPlan(old(View()), r, delta);
              if s.Success? then View() == s.value && out.Success? else out == Failure(s.error)
    {
      if delta == 0 {
        return Success(());
      }
      if delta > 0 {
        out := AddCreditsTx(r.(entryType := Grant), delta as real);
        return;
      }
      EnsureCreditAccount(r.user);
      var available := balances[r.user];
      if available <= 0 {
        return Success(());
      }
      var applied := -delta;
      if available < applied {
        applied := available;
      }
      out := InsertCreditLedger(r.(entryType := Debit), applied as real, false);
    }

    /** One call inside a transaction; after a failure the tables are the transaction's to roll back. */
    method Perform(op: Op) returns (out: Result<()>)
      modifies this`balances, this`entries
      ensures var d := Do(old(View()), op);
              if d.Success? then View() == d.value && out.Success? else out == Failure(d.error)
    {
      match op {
        case GrantOp(r, amount) => out := AddCreditsTx(r.(entryType := Grant), amount);
        case DebitOp(r, amount) => out := DebitCreditsTx(r.(entryType := Debit), amount);
        case RefundOp(r, amount) => out := DebitCreditsTx(r.(entryType := Refund), amount);
        case AdjustOp(r, amount, blank) =>
          if blank {
            out := Failure(BadAmount);
          } else if amount < 0.0 {
            out := DebitCreditsTx(r.(entryType := Adjustment), -amount);
          } else {
            out := AddCreditsTx(r.(entryType := Adjustment), amount);
          }
        case SwitchOp(r, delta) => out := SwitchPlanTx(r, delta);
      }
    }

    /** A call in a transaction of its own. */
    method InTx(op: Op) returns (out: Result<()>)
      modifies this`balances, this`entries
      ensures View() == Next(old(View()), op)
      ensures out == if Do(old(View()), op).Success? then Success(()) else Failure(Do(old(View()), op).error)
    {
      var balances', entries' := balances, entries;
      out := Perform(op);
      if out.Failure? {
        balances, entries := balances', entries';
      } else {
        out := Success(());
      }
    }

    /** `RecordPolarEvent` with the ledger calls its processing makes. */
    method RecordEvent(event: string, ops: seq<Op>) returns (inserted: bool, ok: bool)
      modifies this
      ensures var b := W.Deliver(W.Books(old(events), old(View())), Event(event, ops).Delivery());
              b == W.Books(events, View())
      ensures inserted == (event !in old(events))
      ensures ok == (event in old(events) || All(old(View()), ops).Done?)
    {
      if event in events {
        return false, true;
      }
      inserted := true;
      var balances', entries', events' := balances, entries, events;
      events := events + {event};
      ok := true;
      var n := 0;
      while n < |ops| && ok
        invariant n <= |ops| && events == old(events) + {event}
        invariant All(old(View()), ops) == if ok then All(View(), ops[n..]) else W.Failed
      {
        var out := Perform(ops[n]);
        assert ops[n..][1..] == ops[n + 1..];
        ok := out.Success?;
        n := n + 1;
      }
      if !ok {
        balances, entries, events := balances', entries', events';
      } else {
        assert ops[n..] == [];
      }
    }
  }
}
