/** The credit ledger: balances and entries kept to a millionth of a credit, amounts given at any scale.

    A balance and an entry are counted in millionths; an amount is a real number of millionths, and the database
    rounds what it stores half away from zero. An account is identified by its user. */
module CreditLedger {

  datatype Failure = BadAmount | InsufficientCredits | IdempotencyConflict
  datatype Result<+T> = Success(value: T) | Failure(error: Failure)

  datatype EntryType = Grant | Debit | Refund | Adjustment

  /** What identifies a request besides its amount. */
  datatype Request = Request(user: string, entryType: EntryType, sourceType: string, sourceId: string, key: string)

  /** A stored entry. The direction is not stored; it is kept here to say what the entry did. */
  datatype Entry = Entry(request: Request, amount: int, credit: bool)

  datatype Ledger = Ledger(balances: map<string, int>, entries: seq<Entry>)

  // ---------------------------------------------------------------------------------------------
  // Rounding

  function Round(x: real): int { if x >= 0.0 then (x + 0.5).Floor else -((-x + 0.5).Floor) }

  /** Representable without rounding. */
  predicate OnGrid(x: real) { x == x.Floor as real }

  /** Exactly half way between two millionths. */
  predicate Tie(x: real) { OnGrid(x + 0.5) }

  lemma FloorShift(x: real, n: int)
    ensures (x + n as real).Floor == x.Floor + n
  {}

  lemma RoundAdds(n: int, x: real)
    requires n >= 0 && x >= 0.0
    ensures Round(n as real + x) == n + Round(x)
  {
    FloorShift(x + 0.5, n);
    assert n as real + x + 0.5 == (x + 0.5) + n as real;
  }

  /** Subtracting rounds the other way, so a tie leaves one millionth too much. */
  lemma RoundSubtracts(n: int, x: real)
    requires 0.0 <= x <= n as real
    ensures Round(n as real - x) == n - Round(x) + (if Tie(x) then 1 else 0)
  {
    var f := (x + 0.5).Floor;
    var r := n as real - x + 0.5;
    assert f as real <= x + 0.5 < f as real + 1.0;
    if Tie(x) {
      assert r == (n - f + 1) as real;
    } else {
      assert (n - f) as real < r < (n - f + 1) as real;
      assert r.Floor == n - f;
    }
  }

  /** The nearest millionth, a tie going away from zero. */
  lemma RoundIsNearest(x: real)
    ensures -0.5 <= Round(x) as real - x <= 0.5
    ensures Round(x) as real - x == 0.5 ==> x > 0.0
    ensures Round(x) as real - x == -0.5 ==> x < 0.0
  {}

  lemma RoundOnGrid(x: real)
    requires OnGrid(x)
    ensures Round(x) as real == x && !Tie(x)
  {
    if x >= 0.0 {
      assert (x + 0.5).Floor == x.Floor;
    } else {
      assert (-x + 0.5).Floor == -(x.Floor);
    }
  }

  // ---------------------------------------------------------------------------------------------
  // Requests

  function Opened(l: Ledger, user: string): Ledger {
    if user in l.balances then l else l.(balances := l.balances[user := 0])
  }

  function Find(entries: seq<Entry>, key: string): (found: Result<Entry>)
    ensures found.Success? ==> found.value in entries && found.value.request.key == key
    ensures found.Failure? ==> forall e :: e in entries ==> e.request.key != key
    decreases |entries|
  {
    if entries == [] then Failure(BadAmount)
    else if entries[|entries| - 1].request.key == key then Success(entries[|entries| - 1])
    else Find(entries[..|entries| - 1], key)
  }

  /** Whether the request was recorded before; a recorded key with other contents is a conflict. */
  function Seen(l: Ledger, r: Request, amount: real): Result<bool> {
    var found := Find(l.entries, r.key);
    if found.Failure? then Success(false)
    else if found.value.request == r && found.value.amount as real == amount then Success(true)
    else Failure(IdempotencyConflict)
  }

  function Booked(l: Ledger, r: Request, amount: real, credit: bool): Ledger
    requires r.user in l.balances
  {
    var balance := l.balances[r.user] as real;
    Ledger(l.balances[r.user := Round(if credit then balance + amount else balance - amount)],
           l.entries + [Entry(r, Round(amount), credit)])
  }

  /** `insertCreditLedger`. */
  function Insert(l: Ledger, r: Request, amount: real, credit: bool): Result<Ledger>
    requires r.user in l.balances
  {
    var seen := Seen(l, r, amount);
    if seen.Failure? then Failure(seen.error) else if seen.value then Success(l)
    else Success(Booked(l, r, amount, credit))
  }

  function AddCredits(l: Ledger, r: Request, amount: real): Result<Ledger> {
    if amount < 0.0 then Failure(BadAmount) else Insert(Opened(l, r.user), r, amount, true)
  }

  /** `debitCreditsTx`. */
  function DebitCredits(l: Ledger, r: Request, amount: real): Result<Ledger> {
    if amount < 0.0 then Failure(BadAmount)
    else
      var l' := Opened(l, r.user);
      var seen := Seen(l', r, amount);
      if seen.Failure? then Failure(seen.error)
      else if seen.value then Success(l')
      else if (l'.balances[r.user] as real) < amount then Failure(InsufficientCredits)
      else Insert(l', r, amount, false)
  }

  /** `applyPlanSwitchCreditDeltaTx`: a grant, or a debit of at most what is there. */
  function SwitchPlan(l: Ledger, r: Request, delta: int): Result<Ledger> {
    if delta == 0 then Success(l)
    else if delta > 0 then AddCredits(l, r.(entryType := Grant), delta as real)
    else
      var l' := Opened(l, r.user);
      var available := l'.balances[r.user];
      if available <= 0 then Success(l')
      else Insert(l', r.(entryType := Debit), (if available < -delta then available else -delta) as real, false)
  }

  /** An adjustment is refused when its amount is blank: the empty string, `0` or `0.000000`. */
  datatype Op =
    | GrantOp(request: Request, amount: real)
    | DebitOp(request: Request, amount: real)
    | RefundOp(request: Request, amount: real)
    | AdjustOp(request: Request, amount: real, blank: bool)
    | SwitchOp(request: Request, delta: int)

  function Do(l: Ledger, op: Op): Result<Ledger> {
    match op
    case GrantOp(r, amount) => AddCredits(l, r.(entryType := Grant), amount)
    case DebitOp(r, amount) => DebitCredits(l, r.(entryType := Debit), amount)
    case RefundOp(r, amount) => DebitCredits(l, r.(entryType := Refund), amount)
    case AdjustOp(r, amount, blank) =>
      if blank then Failure(BadAmount)
      else if amount < 0.0 then DebitCredits(l, r.(entryType := Adjustment), -amount)
      else AddCredits(l, r.(entryType := Adjustment), amount)
    case SwitchOp(r, delta) => SwitchPlan(l, r, delta)
  }

  /** A call that fails rolls its transaction back. */
  function Next(l: Ledger, op: Op): Ledger { if Do(l, op).Success? then Do(l, op).value else l }

  function Run(l: Ledger, ops: seq<Op>): Ledger
    decreases |ops|
  {
    if ops == [] then l else Run(Next(l, ops[0]), ops[1..])
  }

  // ---------------------------------------------------------------------------------------------
  // Conservation

  function Signed(e: Entry, user: string): int {
    if e.request.user != user then 0 else if e.credit then e.amount else -e.amount
  }

  function Total(entries: seq<Entry>, user: string): int
    decreases |entries|
  {
    if entries == [] then 0 else Total(entries[..|entries| - 1], user) + Signed(entries[|entries| - 1], user)
  }

  function Balance(l: Ledger, user: string): int { if user in l.balances then l.balances[user] else 0 }

  /** What a balance holds beyond the signed sum of its entries. */
  function Gap(l: Ledger, user: string): int { Balance(l, user) - Total(l.entries, user) }

  predicate UniqueKeys(entries: seq<Entry>) {
    forall i, j :: 0 <= i < j < |entries| ==> entries[i].request.key != entries[j].request.key
  }

  predicate Solvent(l: Ledger) { forall u {:trigger l.balances[u]} :: u in l.balances ==> l.balances[u] >= 0 }

  /** Every balance is nonnegative and the signed sum of its entries; every key is recorded once. */
  ghost predicate Balanced(l: Ledger) {
    Solvent(l) && UniqueKeys(l.entries) && forall u {:trigger Gap(l, u)} :: Gap(l, u) == 0
  }

  lemma TotalOfAppended(entries: seq<Entry>, e: Entry, user: string)
    ensures Total(entries + [e], user) == Total(entries, user) + Signed(e, user)
  {
    assert (entries + [e])[..|entries|] == entries;
  }

  /** Booking opens a gap of one exactly when it debits an amount half way between two millionths. */
  lemma BookedGap(l: Ledger, r: Request, amount: real, credit: bool, u: string)
    requires Solvent(l) && r.user in l.balances && amount >= 0.0 && (!credit ==> amount <= l.balances[r.user] as real)
    ensures Solvent(Booked(l, r, amount, credit))
    ensures Gap(Booked(l, r, amount, credit), u) == Gap(l, u) + if u == r.user && !credit && Tie(amount) then 1 else 0
  {
    TotalOfAppended(l.entries, Entry(r, Round(amount), credit), u);
    if credit { RoundAdds(l.balances[r.user], amount); } else { RoundSubtracts(l.balances[r.user], amount); }
  }

  function Capped(balance: int, most: int): int { if balance < most then balance else most }

  /** What an operation would book if its key were new. */
  datatype Booking = Refused | Nothing | Book(request: Request, amount: real, credit: bool)

  function Asked(l: Ledger, op: Op): Booking {
    match op
    case GrantOp(r, amount) => if amount < 0.0 then Refused else Book(r.(entryType := Grant), amount, true)
    case DebitOp(r, amount) => if amount < 0.0 then Refused else Book(r.(entryType := Debit), amount, false)
    case RefundOp(r, amount) => if amount < 0.0 then Refused else Book(r.(entryType := Refund), amount, false)
    case AdjustOp(r, amount, blank) =>
      if blank then Refused
      else if amount < 0.0 then Book(r.(entryType := Adjustment), -amount, false)
      else Book(r.(entryType := Adjustment), amount, true)
    case SwitchOp(r, delta) =>
      if delta == 0 then Nothing
      else if delta > 0 then Book(r.(entryType := Grant), delta as real, true)
      else if Balance(l, r.user) <= 0 then Nothing
      else Book(r.(entryType := Debit), Capped(Balance(l, r.user), -delta) as real, false)
  }

  predicate Recorded(l: Ledger, key: string) { Find(l.entries, key).Success? }

  /** Under a key not recorded yet, a call books what it asks for, or is refused for its amount or its balance. */
  lemma AnswerUnderNewKey(l: Ledger, op: Op)
    requires !Recorded(l, op.request.key)
    ensures var asked := Asked(l, op);
            match asked {
              case Refused => Do(l, op) == Failure(BadAmount)
              case Nothing =>
                Do(l, op).Success? && Next(l, op).entries == l.entries
                  && forall u :: Balance(Next(l, op), u) == Balance(l, u)
              case Book(r, amount, credit) =>
                && amount >= 0.0 && r.key == op.request.key && r.user == op.request.user
                && Do(l, op) == if !credit && (Balance(l, r.user) as real) < amount then Failure(InsufficientCredits)
                                else Success(Booked(Opened(l, r.user), r, amount, credit))
            }
  {}

  /** Under a recorded key, a call is answered as done exactly when it asks for nothing, or for the user, type, source
      and size of the entry recorded, whatever its direction and whatever the balance; otherwise it conflicts. */
  lemma AnswerUnderRecordedKey(l: Ledger, op: Op)
    requires Recorded(l, op.request.key)
    ensures var e := Find(l.entries, op.request.key).value;
            var asked := Asked(l, op);
            match asked {
              case Refused => Do(l, op) == Failure(BadAmount)
              case Nothing => Do(l, op).Success?
              case Book(r, amount, _) =>
                if e.request == r && e.amount as real == amount then Do(l, op).Success?
                else Do(l, op) == Failure(IdempotencyConflict)
            }
    ensures Next(l, op).entries == l.entries && forall u :: Balance(Next(l, op), u) == Balance(l, u)
  {
    match op {
      case GrantOp(_, _) =>
      case DebitOp(_, _) =>
      case RefundOp(_, _) =>
      case AdjustOp(_, amount, _) => if amount < 0.0 {} else {}
      case SwitchOp(_, delta) => if delta > 0 {} else {}
    }
  }

  /** The operation books a debit of a tie. */
  predicate BooksTie(l: Ledger, op: Op) {
    var asked := Asked(l, op);
    asked.Book? && !asked.credit && Tie(asked.amount) && !Recorded(l, op.request.key)
      && asked.amount <= Balance(l, op.request.user) as real
  }

  /** A call that books nothing changes no balance and no total. */
  lemma IdleStepGap(l: Ledger, op: Op, u: string)
    requires Solvent(l) && Next(l, op).entries == l.entries && forall v :: Balance(Next(l, op), v) == Balance(l, v)
    ensures Solvent(Next(l, op)) && Gap(Next(l, op), u) == Gap(l, u)
  {
    StaysSolvent(l, op);
    assert Balance(Next(l, op), u) == Balance(l, u);
  }

  lemma StepGap(l: Ledger, op: Op, u: string)
    requires Solvent(l)
    ensures Solvent(Next(l, op))
    ensures Gap(Next(l, op), u) == Gap(l, u) + if BooksTie(l, op) && op.request.user == u then 1 else 0
  {
    if Recorded(l, op.request.key) {
      AnswerUnderRecordedKey(l, op);
      IdleStepGap(l, op, u);
    } else {
      NewStepGap(l, op, u);
    }
  }

  lemma OpenedGap(l: Ledger, user: string, u: string)
    requires Solvent(l)
    ensures Solvent(Opened(l, user)) && Gap(Opened(l, user), u) == Gap(l, u)
  {}

  lemma NewStepGap(l: Ledger, op: Op, u: string)
    requires Solvent(l) && !Recorded(l, op.request.key)
    ensures Solvent(Next(l, op))
    ensures Gap(Next(l, op), u) == Gap(l, u) + if BooksTie(l, op) && op.request.user == u then 1 else 0
  {
    var asked := Asked(l, op);
    AnswerUnderNewKey(l, op);
    if asked.Book? && (asked.credit || asked.amount <= Balance(l, asked.request.user) as real) {
      OpenedGap(l, op.request.user, u);
      var l' := Opened(l, op.request.user);
      assert l'.balances[asked.request.user] == Balance(l, asked.request.user);
      BookedGap(l', asked.request, asked.amount, asked.credit, u);
      assert Next(l, op) == Booked(l', asked.request, asked.amount, asked.credit);
    } else {
      IdleStepGap(l, op, u);
    }
  }

  lemma StaysSolvent(l: Ledger, op: Op)
    requires Solvent(l) && forall u :: Balance(Next(l, op), u) == Balance(l, u)
    ensures Solvent(Next(l, op))
  {
    forall u | u in Next(l, op).balances ensures Next(l, op).balances[u] >= 0 {
      assert Balance(Next(l, op), u) == Balance(l, u);
    }
  }

  lemma StepKeepsUnique(l: Ledger, op: Op)
    requires UniqueKeys(l.entries)
    ensures UniqueKeys(Next(l, op).entries)
  {
    StepAddsOwnKey(l, op);
    var l' := Next(l, op);
    if l'.entries != l.entries { assert l'.entries == l.entries + [l'.entries[|l.entries|]]; }
  }

  /** Any call keeps the books balanced, except exactly one that books a debit of a tie. */
  lemma StepIsBalancedIff(l: Ledger, op: Op)
    requires Balanced(l)
    ensures Balanced(Next(l, op)) <==> !BooksTie(l, op)
  {
    StepKeepsUnique(l, op);
    forall u
      ensures Solvent(Next(l, op))
      ensures Gap(Next(l, op), u) == if BooksTie(l, op) && op.request.user == u then 1 else 0
    {
      StepGap(l, op, u);
    }
    assert Gap(Next(l, op), op.request.user) == if BooksTie(l, op) then 1 else 0;
  }

  /** How many calls of a run book a debit of a tie for `u`. */
  function TieDebits(l: Ledger, ops: seq<Op>, u: string): nat
    decreases |ops|
  {
    if ops == [] then 0
    else (if BooksTie(l, ops[0]) && ops[0].request.user == u then 1 else 0) + TieDebits(Next(l, ops[0]), ops[1..], u)
  }

  /** Over any list of calls, failed ones rolled back, what a balance holds beyond its entries grows by exactly the
      number of tie debits booked, and no balance falls below zero. */
  lemma {:induction false} GapCountsTies(l: Ledger, ops: seq<Op>, u: string)
    requires Solvent(l)
    ensures Solvent(Run(l, ops)) && Gap(Run(l, ops), u) == Gap(l, u) + TieDebits(l, ops, u)
    decreases |ops|
  {
    if ops == [] {
    } else {
      StepGap(l, ops[0], u);
      GapCountsTies(Next(l, ops[0]), ops[1..], u);
    }
  }

  lemma {:induction false} RunKeepsUnique(l: Ledger, ops: seq<Op>)
    requires UniqueKeys(l.entries)
    ensures UniqueKeys(Run(l, ops).entries)
    decreases |ops|
  {
    if ops == [] {
    } else {
      StepKeepsUnique(l, ops[0]);
      RunKeepsUnique(Next(l, ops[0]), ops[1..]);
    }
  }

  /** No call of the run books a debit of a tie. */
  ghost predicate NoTieDebits(l: Ledger, ops: seq<Op>) {
    forall u {:trigger TieDebits(l, ops, u)} :: TieDebits(l, ops, u) == 0
  }

  /** A run leaves the books balanced exactly when it books no debit of a tie. */
  lemma LedgerIsConservedIff(l: Ledger, ops: seq<Op>)
    requires Balanced(l)
    ensures Balanced(Run(l, ops)) <==> NoTieDebits(l, ops)
  {
    var l' := Run(l, ops);
    RunKeepsUnique(l, ops);
    forall u ensures Gap(l', u) == TieDebits(l, ops, u) {
      GapCountsTies(l, ops, u);
      assert Gap(l, u) == 0;
    }
    GapCountsTies(l, ops, "");
    if Balanced(l') {
      forall u ensures TieDebits(l, ops, u) == 0 { assert Gap(l', u) == 0; }
    }
    if NoTieDebits(l, ops) {
      forall u ensures Gap(l', u) == 0 { assert TieDebits(l, ops, u) == 0; }
    }
  }

  // ---------------------------------------------------------------------------------------------
  // Each key once

  lemma FindInAppended(entries: seq<Entry>, e: Entry, key: string)
    ensures Find(entries + [e], key) == if e.request.key == key then Success(e) else Find(entries, key)
  {
    assert (entries + [e])[..|entries|] == entries;
  }

  /** A call changes the entries only by adding one under its own key, not recorded before. */
  lemma StepAddsOwnKey(l: Ledger, op: Op)
    ensures var l' := Next(l, op);
            || (l'.entries == l.entries && forall u :: Balance(l', u) == Balance(l, u))
            || (!Recorded(l, op.request.key) && |l'.entries| == |l.entries| + 1
                && l'.entries[..|l.entries|] == l.entries
                && l'.entries[|l.entries|].request.key == op.request.key)
  {
    if Recorded(l, op.request.key) { AnswerUnderRecordedKey(l, op); } else { AnswerUnderNewKey(l, op); }
  }

  /** The call booked `amount` for its user as a new entry of the type given, in or out, and changed nothing else. */
  ghost predicate Books(l: Ledger, op: Op, entryType: EntryType, amount: real, credit: bool) {
    var l', user := Next(l, op), op.request.user;
    && Do(l, op).Success?
    && l'.entries == l.entries + [Entry(op.request.(entryType := entryType), Round(amount), credit)]
    && Balance(l', user)
       == Round(if credit then Balance(l, user) as real + amount else Balance(l, user) as real - amount)
    && forall u :: u != user ==> Balance(l', u) == Balance(l, u)
  }

  /** Nothing was booked. */
  ghost predicate BooksNothing(l: Ledger, op: Op) {
    Next(l, op).entries == l.entries && forall u :: Balance(Next(l, op), u) == Balance(l, u)
  }

  lemma BooksAsAsked(l: Ledger, op: Op)
    requires !Recorded(l, op.request.key)
    ensures var asked := Asked(l, op);
            match asked {
              case Refused => Do(l, op) == Failure(BadAmount)
              case Nothing => Do(l, op).Success? && BooksNothing(l, op)
              case Book(r, amount, credit) =>
                if !credit && (Balance(l, op.request.user) as real) < amount then
                  Do(l, op) == Failure(InsufficientCredits)
                else r == op.request.(entryType := r.entryType) ==> Books(l, op, r.entryType, amount, credit)
            }
  {
    AnswerUnderNewKey(l, op);
    var asked := Asked(l, op);
    if asked.Book? && (asked.credit || asked.amount <= Balance(l, op.request.user) as real) {
      var l' := Opened(l, op.request.user);
      assert Next(l, op) == Booked(l', asked.request, asked.amount, asked.credit);
    }
  }

  /** What each call does under a key not recorded yet. Grants and upward changes always book; debits, refunds and
      downward adjustments only within the balance; a plan switch down takes what is there, at most what is asked. */
  lemma NewKeyEffect(l: Ledger, op: Op)
    requires !Recorded(l, op.request.key)
    ensures var balance := Balance(l, op.request.user);
            match op {
              case GrantOp(_, amount) =>
                if amount < 0.0 then Do(l, op) == Failure(BadAmount) else Books(l, op, Grant, amount, true)
              case DebitOp(_, amount) =>
                if amount < 0.0 then Do(l, op) == Failure(BadAmount)
                else if balance as real < amount then Do(l, op) == Failure(InsufficientCredits)
                else Books(l, op, Debit, amount, false)
              case RefundOp(_, amount) =>
                if amount < 0.0 then Do(l, op) == Failure(BadAmount)
                else if balance as real < amount then Do(l, op) == Failure(InsufficientCredits)
                else Books(l, op, Refund, amount, false)
              case AdjustOp(_, amount, blank) =>
                if blank then Do(l, op) == Failure(BadAmount)
                else if amount >= 0.0 then Books(l, op, Adjustment, amount, true)
                else if balance as real < -amount then Do(l, op) == Failure(InsufficientCredits)
                else Books(l, op, Adjustment, -amount, false)
              case SwitchOp(_, delta) =>
                if delta > 0 then Books(l, op, Grant, delta as real, true)
                else if delta == 0 || balance <= 0 then Do(l, op).Success? && BooksNothing(l, op)
                else Books(l, op, Debit, (if balance + delta < 0 then balance else -delta) as real, false)
            }
  {
    BooksAsAsked(l, op);
  }

  /** How many calls of a run changed anything under `key`. */
  function Changes(l: Ledger, ops: seq<Op>, key: string): nat
    decreases |ops|
  {
    if ops == [] then 0
    else
      (if ops[0].request.key == key && Next(l, ops[0]).entries != l.entries then 1 else 0)
      + Changes(Next(l, ops[0]), ops[1..], key)
  }

  lemma RecordedStays(l: Ledger, op: Op, key: string)
    ensures Recorded(l, key) ==> Recorded(Next(l, op), key)
    ensures op.request.key == key && Next(l, op).entries != l.entries ==>
            !Recorded(l, key) && Recorded(Next(l, op), key)
  {
    StepAddsOwnKey(l, op);
    var l' := Next(l, op);
    if l'.entries != l.entries {
      var e := l'.entries[|l.entries|];
      assert l'.entries == l.entries + [e];
      FindInAppended(l.entries, e, key);
    }
  }

  /** However often requests are repeated, a key moves money at most once. */
  lemma {:induction false} KeyCountsOnce(l: Ledger, ops: seq<Op>, key: string)
    ensures Changes(l, ops, key) <= if Recorded(l, key) then 0 else 1
    decreases |ops|
  {
    if ops == [] {
    } else {
      RecordedStays(l, ops[0], key);
      KeyCountsOnce(Next(l, ops[0]), ops[1..], key);
    }
  }

  /** Repeating the call with the ledger at `later` asks for what it booked, or for nothing: its amount needed no
      rounding, and a plan switch down finds nothing to take or is capped as it was. */
  predicate RepeatsAlike(l: Ledger, later: Ledger, op: Op) {
    match op
    case GrantOp(_, amount) => OnGrid(amount)
    case DebitOp(_, amount) => OnGrid(amount)
    case RefundOp(_, amount) => OnGrid(amount)
    case AdjustOp(_, amount, _) => OnGrid(amount)
    case SwitchOp(r, delta) =>
      delta < 0 ==>
        Balance(later, r.user) <= 0 || Capped(Balance(later, r.user), -delta) == Capped(Balance(l, r.user), -delta)
  }

  lemma OnGridNegates(x: real)
    ensures OnGrid(x) <==> OnGrid(-x)
  {
    if OnGrid(x) { assert (-x).Floor == -(x.Floor); }
    if OnGrid(-x) { assert x.Floor == -((-x).Floor); }
  }

  /** A recorded entry is found for good. */
  lemma {:induction false} FoundForGood(l: Ledger, ops: seq<Op>, key: string)
    requires Recorded(l, key)
    ensures Find(Run(l, ops).entries, key) == Find(l.entries, key)
    decreases |ops|
  {
    if ops == [] {
    } else {
      var l' := Next(l, ops[0]);
      StepAddsOwnKey(l, ops[0]);
      if l'.entries != l.entries {
        var e := l'.entries[|l.entries|];
        assert l'.entries == l.entries + [e];
        FindInAppended(l.entries, e, key);
      }
      FoundForGood(l', ops[1..], key);
    }
  }

  lemma BookedIsFound(l: Ledger, op: Op, between: seq<Op>)
    requires !Recorded(l, op.request.key) && Do(l, op).Success? && Asked(l, op).Book?
    ensures var asked := Asked(l, op);
            Find(Run(Next(l, op), between).entries, op.request.key)
            == Success(Entry(asked.request, Round(asked.amount), asked.credit))
  {
    var asked := Asked(l, op);
    AnswerUnderNewKey(l, op);
    FindInAppended(l.entries, Entry(asked.request, Round(asked.amount), asked.credit), op.request.key);
    FoundForGood(Next(l, op), between, op.request.key);
  }

  lemma RoundsToItselfIff(x: real)
    ensures Round(x) as real == x <==> OnGrid(x)
  {
    if OnGrid(x) { RoundOnGrid(x); }
  }

  lemma RepeatsAlikeIff(l: Ledger, later: Ledger, op: Op)
    requires Asked(l, op).Book?
    ensures var asked := Asked(l, op);
            RepeatsAlike(l, later, op) <==>
            match Asked(later, op) {
              case Refused => false
              case Nothing => true
              case Book(r, amount, _) => asked.request == r && Round(asked.amount) as real == amount
            }
  {
    RoundsToItselfIff(Asked(l, op).amount);
    if op.AdjustOp? {
      OnGridNegates(op.amount);
    } else if op.SwitchOp? {
      RoundOnGrid(Asked(l, op).amount);
    }
  }

  /** Repeating any call that booked something, after any other calls, is answered as done exactly when the amount of a
      grant, debit, refund or adjustment needed no rounding, and a plan switch down finds nothing to take or is capped
      as it was; otherwise the stored amount differs from what is asked and the repeat is refused as a conflict. */
  lemma RepeatSucceedsIff(l: Ledger, op: Op, between: seq<Op>)
    requires !Recorded(l, op.request.key) && Do(l, op).Success? && Asked(l, op).Book?
    ensures var later := Run(Next(l, op), between);
            if RepeatsAlike(l, later, op) then Do(later, op).Success? && Next(later, op).entries == later.entries
            else Do(later, op) == Failure(IdempotencyConflict)
  {
    var later := Run(Next(l, op), between);
    BookedIsFound(l, op, between);
    RepeatsAlikeIff(l, later, op);
    AnswerUnderRecordedKey(later, op);
  }

  /** Repeated at once, a plan switch down is refused exactly when it left something, but less than it took. */
  lemma SwitchRepeatedAtOnce(l: Ledger, op: Op)
    requires Solvent(l) && op.SwitchOp? && !Recorded(l, op.request.key) && Asked(l, op).Book?
    ensures Do(Next(l, op), op) == Failure(IdempotencyConflict)
            <==> op.delta < 0 && -op.delta < Balance(l, op.request.user) < -2 * op.delta
  {
    AnswerUnderNewKey(l, op);
    SwitchBooks(l, op);
    RepeatSucceedsIff(l, op, []);
  }

  /** A plan switch down takes what it asks for, and leaves the rest. */
  lemma SwitchBooks(l: Ledger, op: Op)
    requires Solvent(l) && op.SwitchOp? && !Recorded(l, op.request.key) && Asked(l, op).Book?
    ensures Balance(Next(l, op), op.request.user)
            == Balance(l, op.request.user)
               + if op.delta > 0 then op.delta else -Capped(Balance(l, op.request.user), -op.delta)
  {
    var asked := Asked(l, op);
    var l' := Opened(l, op.request.user);
    AnswerUnderNewKey(l, op);
    RoundOnGrid(asked.amount);
    if asked.credit {
      RoundAdds(l'.balances[op.request.user], asked.amount);
    } else {
      RoundSubtracts(l'.balances[op.request.user], asked.amount);
    }
  }

  function Size(x: real): real { if x < 0.0 then -x else x }

  /** A second adjustment under the key of a first is answered as done, and does nothing, exactly when it has the size
      stored for the first, in either direction; otherwise it conflicts. */
  lemma SecondAdjustmentIff(l: Ledger, r: Request, first: real, second: real)
    requires !Recorded(l, r.key) && Do(l, AdjustOp(r, first, false)).Success?
    ensures var l' := Next(l, AdjustOp(r, first, false));
            && Next(l', AdjustOp(r, second, false)).entries == l'.entries
            && if Size(second) == Round(Size(first)) as real then Do(l', AdjustOp(r, second, false)).Success?
               else Do(l', AdjustOp(r, second, false)) == Failure(IdempotencyConflict)
  {
    var op := AdjustOp(r, first, false);
    var asked := Asked(l, op);
    AnswerUnderNewKey(l, op);
    FindInAppended(l.entries, Entry(asked.request, Round(asked.amount), asked.credit), r.key);
    AnswerUnderRecordedKey(Next(l, op), AdjustOp(r, second, false));
  }

  /** A debit of half a millionth is recorded as one millionth, and takes nothing. */
  lemma TieLosesMoney(l: Ledger, r: Request)
    requires Solvent(l) && !Recorded(l, r.key) && Balance(l, r.user) >= 1
    ensures var l' := Next(l, DebitOp(r, 0.5));
            && l'.entries == l.entries + [Entry(r.(entryType := Debit), 1, false)]
            && Balance(l', r.user) == Balance(l, r.user) && Gap(l', r.user) == Gap(l, r.user) + 1
  {
    assert Tie(0.5) && Round(0.5) == 1;
    AnswerUnderNewKey(l, DebitOp(r, 0.5));
    RoundSubtracts(l.balances[r.user], 0.5);
    StepGap(l, DebitOp(r, 0.5), r.user);
  }
}
