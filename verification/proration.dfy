/** Credits given or taken back when a subscription changes plan within a billing period. */
module Proration {
  import opened CreditLedger
  import opened Int64s

  datatype Period = Period(start: int, end: int)

  /** The quotient rounded to the nearest integer, halves away from zero. */
  function Nearest(n: int, d: int): int
    requires d > 0
  {
    if n >= 0 then (2 * n + d) / (2 * d) else -((-2 * n + d) / (2 * d))
  }

  function Clamp(p: Period, at: int): int { if at < p.start then p.start else if at > p.end then p.end else at }

  /** `proratedCreditDelta`, in millionths of a credit; times in nanoseconds. */
  function Delta(oldCredits: int, newCredits: int, p: Period, at: int): Result<int> {
    if p.end <= p.start then Failure(BadAmount)
    else Success(Nearest((newCredits - oldCredits) * (p.end - Clamp(p, at)), p.end - p.start))
  }

  // ---------------------------------------------------------------------------------------------
  // Rounding

  /** The nearest integer, and the only one within half of the quotient except that ties go away from zero. */
  lemma NearestIs(n: int, d: int)
    requires d > 0
    ensures -d <= 2 * (Nearest(n, d) * d - n) <= d
    ensures 2 * (Nearest(n, d) * d - n) == d ==> n > 0
    ensures 2 * (Nearest(n, d) * d - n) == -d ==> n < 0
  {
    var m := 2 * Abs(n) + d;
    var q := m / (2 * d);
    FloorIs(m, 2 * d);
    assert q * (2 * d) == 2 * (q * d);
    if n < 0 { assert (-q) * d == -(q * d); }
  }

  lemma NearestIsOdd(n: int, d: int)
    requires d > 0
    ensures Nearest(-n, d) == -Nearest(n, d)
  {
    if n == 0 {
      assert d / (2 * d) == 0;
    }
  }

  /** An integer quotient's product that is small is small. */
  lemma SmallFactor(k: int, d: int, bound: int)
    requires d > 0 && k * d < bound * d
    ensures k < bound
  {
    if k >= bound {
      Scaled(bound, k, d);
    }
  }

  lemma Scaled(a: int, b: int, d: int)
    requires d >= 0 && a <= b
    ensures a * d <= b * d
  {
    assert (b - a) * d >= 0;
    assert (b - a) * d == b * d - a * d;
  }

  lemma NearestIsBounded(x: int, r: int, d: int)
    requires d > 0 && 0 <= r <= d
    ensures x >= 0 ==> 0 <= Nearest(x * r, d) <= x
    ensures x <= 0 ==> x <= Nearest(x * r, d) <= 0
  {
    if x >= 0 {
      NonNegativeBound(x, r, d);
    } else {
      NonNegativeBound(-x, r, d);
      NearestIsOdd((-x) * r, d);
      assert (-x) * r == -(x * r);
    }
  }

  lemma NonNegativeBound(x: int, r: int, d: int)
    requires d > 0 && 0 <= r <= d && x >= 0
    ensures 0 <= Nearest(x * r, d) <= x
  {
    var n := x * r;
    assert n >= 0;
    assert n <= x * d by { Scaled(r, d, x); assert r * x == x * r && d * x == x * d; }
    var k := Nearest(n, d);
    NearestIs(n, d);
    assert (x + 1) * d == x * d + d;
    SmallFactor(k, d, x + 1);
    assert k >= 0;
  }

  // ---------------------------------------------------------------------------------------------
  // The delta

  lemma RemainingFits(p: Period, at: int)
    requires p.start < p.end
    ensures 0 <= p.end - Clamp(p, at) <= p.end - p.start
  {}

  /** The delta never exceeds the difference between the plans and never has the other sign; the whole difference
      is given up to the start of the period, and nothing from its end on. */
  lemma DeltaIsBounded(oldCredits: int, newCredits: int, p: Period, at: int)
    requires p.start < p.end
    ensures var delta := Delta(oldCredits, newCredits, p, at).value;
            && Abs(delta) <= Abs(newCredits - oldCredits)
            && (newCredits >= oldCredits ==> delta >= 0) && (newCredits <= oldCredits ==> delta <= 0)
            && (at <= p.start ==> delta == newCredits - oldCredits)
            && (at >= p.end ==> delta == 0)
  {
    RemainingFits(p, at);
    NearestIsBounded(newCredits - oldCredits, p.end - Clamp(p, at), p.end - p.start);
    DeltaAtTheEnds(oldCredits, newCredits, p, at);
  }

  lemma DeltaAtTheEnds(oldCredits: int, newCredits: int, p: Period, at: int)
    requires p.start < p.end
    ensures at <= p.start ==> Delta(oldCredits, newCredits, p, at).value == newCredits - oldCredits
    ensures at >= p.end ==> Delta(oldCredits, newCredits, p, at).value == 0
  {
    var d := p.end - p.start;
    if at <= p.start { WholeQuotient(newCredits - oldCredits, d); }
    if at >= p.end { WholeQuotient(0, d); }
  }

  lemma WholeQuotient(x: int, d: int)
    requires d > 0
    ensures Nearest(x * d, d) == x
  {
    var k := Nearest(x * d, d);
    NearestIs(x * d, d);
    assert (k - x) * d == k * d - x * d;
    assert (x - k) * d == x * d - k * d;
    assert 1 * d == d;
    SmallFactor(k - x, d, 1);
    SmallFactor(x - k, d, 1);
  }

  /** Within a period of positive length the delta is the difference times the time left, over the length, to the
      nearest millionth, a tie going away from zero; without one there is none. */
  lemma DeltaIsProrated(oldCredits: int, newCredits: int, p: Period, at: int)
    ensures Delta(oldCredits, newCredits, p, at).Success? <==> p.start < p.end
    ensures p.start < p.end && p.start <= at <= p.end ==>
              var delta, length := Delta(oldCredits, newCredits, p, at).value, p.end - p.start;
              var due := (newCredits - oldCredits) * (p.end - at);
              && -length <= 2 * (delta * length - due) <= length
              && (2 * (delta * length - due) == length ==> due > 0)
              && (2 * (delta * length - due) == -length ==> due < 0)
  {
    if p.start < p.end && p.start <= at <= p.end {
      NearestIs((newCredits - oldCredits) * (p.end - at), p.end - p.start);
    }
  }

  lemma NearestIsMonotone(m: int, n: int, d: int)
    requires d > 0 && m <= n
    ensures Nearest(m, d) <= Nearest(n, d)
  {
    var x, y := Nearest(m, d), Nearest(n, d);
    NearestIs(m, d);
    NearestIs(n, d);
    assert (x - y) * d == x * d - y * d;
    Less(x - y, 1, d);
  }

  /** The later the switch, the less it moves. */
  lemma LaterMovesLess(oldCredits: int, newCredits: int, p: Period, at: int, later: int)
    requires p.start < p.end && at <= later
    ensures Abs(Delta(oldCredits, newCredits, p, later).value) <= Abs(Delta(oldCredits, newCredits, p, at).value)
  {
    DeltaIsBounded(oldCredits, newCredits, p, at);
    DeltaIsBounded(oldCredits, newCredits, p, later);
    ProductsOrdered(newCredits - oldCredits, p.end - Clamp(p, later), p.end - Clamp(p, at), p.end - p.start);
  }

  lemma ProductsOrdered(x: int, less: int, more: int, d: int)
    requires d > 0 && less <= more
    ensures x >= 0 ==> Nearest(x * less, d) <= Nearest(x * more, d)
    ensures x < 0 ==> Nearest(x * more, d) <= Nearest(x * less, d)
  {
    if x >= 0 {
      Floors(less, more, x);
      NearestIsMonotone(x * less, x * more, d);
    } else {
      Floors(less, more, -x);
      NearestIsMonotone(x * more, x * less, d);
    }
  }

  /** Switching to another plan and back at one instant nets exactly nothing. */
  lemma ThereAndBack(a: int, b: int, p: Period, at: int)
    requires p.start < p.end
    ensures Delta(a, b, p, at).value + Delta(b, a, p, at).value == 0
  {
    var r := p.end - Clamp(p, at);
    NearestIsOdd((b - a) * r, p.end - p.start);
    assert (a - b) * r == -((b - a) * r);
  }

  lemma Within(k: int, d: int)
    requires d > 0 && -3 * d <= 2 * (k * d) <= 3 * d
    ensures Abs(k) <= 1
  {
    assert (-k) * d == -(k * d);
    SmallFactor(k, d, 2);
    SmallFactor(-k, d, 2);
  }

  lemma NearestOfSum(m: int, n: int, d: int)
    requires d > 0
    ensures Abs(Nearest(m, d) + Nearest(n, d) - Nearest(m + n, d)) <= 1
  {
    var x, y, z := Nearest(m, d), Nearest(n, d), Nearest(m + n, d);
    NearestIs(m, d);
    NearestIs(n, d);
    NearestIs(m + n, d);
    Distributes(x, y, d);
    Distributes(x + y - z, z, d);
    Within(x + y - z, d);
  }

  lemma Distributes(x: int, y: int, r: int)
    ensures x * r + y * r == (x + y) * r
  {}

  /** Going through a third plan costs or gains at most a millionth of a credit. */
  lemma DetourIsCheap(a: int, b: int, c: int, p: Period, at: int)
    requires p.start < p.end
    ensures Abs(Delta(a, b, p, at).value + Delta(b, c, p, at).value - Delta(a, c, p, at).value) <= 1
  {
    var r := p.end - Clamp(p, at);
    NearestOfSum((b - a) * r, (c - b) * r, p.end - p.start);
    Distributes(b - a, c - b, r);
  }

  // ---------------------------------------------------------------------------------------------
  // On the ledger

  lemma SwitchMoves(l: Ledger, r: Request, delta: int)
    requires Solvent(l) && !Recorded(l, r.key)
    ensures var s := SwitchPlan(l, r, delta);
            && s.Success? && Solvent(s.value)
            && Balance(s.value, r.user) == if delta < -Balance(l, r.user) then 0 else Balance(l, r.user) + delta
    ensures forall key :: key != r.key && !Recorded(l, key) ==> !Recorded(SwitchPlan(l, r, delta).value, key)
  {
    var op := SwitchOp(r, delta);
    AnswerUnderNewKey(l, op);
    StepGap(l, op, r.user);
    if Asked(l, op).Book? { SwitchBooks(l, op); }
    forall key | key != r.key && !Recorded(l, key) ensures !Recorded(SwitchPlan(l, r, delta).value, key) {
      StepAddsOwnKey(l, op);
      var next := Next(l, op);
      if next.entries != l.entries {
        assert next.entries == l.entries + [next.entries[|l.entries|]];
        FindInAppended(l.entries, next.entries[|l.entries|], key);
      }
    }
  }

  /** Switching there and back at one instant leaves the balance as it was exactly when the balance covered the
      first change; a smaller one is debited only to zero and then given the full amount back. */
  lemma ThereAndBackOnTheLedgerIff(l: Ledger, there: Request, back: Request, a: int, b: int, p: Period, at: int)
    requires Solvent(l) && p.start < p.end && there.user == back.user && there.key != back.key
    requires !Recorded(l, there.key) && !Recorded(l, back.key)
    ensures var first := SwitchPlan(l, there, Delta(a, b, p, at).value);
            first.Success? &&
            var second := SwitchPlan(first.value, back, Delta(b, a, p, at).value);
            second.Success?
            && (Balance(second.value, there.user) == Balance(l, there.user)
                <==> Balance(l, there.user) + Delta(a, b, p, at).value >= 0)
  {
    ThereAndBack(a, b, p, at);
    SwitchMoves(l, there, Delta(a, b, p, at).value);
    var first := SwitchPlan(l, there, Delta(a, b, p, at).value).value;
    SwitchMoves(first, back, Delta(b, a, p, at).value);
  }
}
