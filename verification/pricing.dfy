/** Seat pricing of storage subscriptions. */
module Pricing {
  import opened Wrappers
  import opened Int64s

  /** A price for the seats from `min` to `max`, or without end. */
  datatype Tier = Tier(min: int, max: Option<int>, price: int) {
    predicate Covers(seat: int) { min <= seat && (max.Some? ==> seat <= max.value) }
  }

  datatype Pricing = Pricing(graduated: bool, tiers: seq<Tier>)

  // ---------------------------------------------------------------------------------------------
  // The reference: seat by seat

  /** What one seat costs: the prices of all tiers that cover it. */
  function SeatPrice(tiers: seq<Tier>, seat: int): int
    decreases |tiers|
  {
    if tiers == [] then 0
    else SeatPrice(tiers[..|tiers| - 1], seat) + if tiers[|tiers| - 1].Covers(seat) then tiers[|tiers| - 1].price else 0
  }

  /** The seats from `low` to `n`, one by one. */
  function SeatSum(tiers: seq<Tier>, low: int, n: int): int
    decreases n - low + 1
  {
    if n < low then 0 else SeatSum(tiers, low, n - 1) + SeatPrice(tiers, n)
  }

  // ---------------------------------------------------------------------------------------------
  // The computation: tier by tier

  function Upper(t: Tier, seats: int): int { if t.max.Some? && seats > t.max.value then t.max.value else seats }

  function Count(t: Tier, seats: int): int {
    if Upper(t, seats) - t.min + 1 > 0 then Upper(t, seats) - t.min + 1 else 0
  }

  function TierSum(tiers: seq<Tier>, seats: int): int
    decreases |tiers|
  {
    if tiers == [] then 0
    else TierSum(tiers[..|tiers| - 1], seats) + Count(tiers[|tiers| - 1], seats) * tiers[|tiers| - 1].price
  }

  /** The first tier a whole volume falls in. */
  function VolumePrice(tiers: seq<Tier>, seats: int): int
    decreases |tiers|
  {
    if tiers == [] then 0 else if tiers[0].Covers(seats) then seats * tiers[0].price else VolumePrice(tiers[1..], seats)
  }

  function SeatPriceTotal(seats: int, pricing: Pricing): int {
    if seats <= 0 then 0 else if pricing.graduated then TierSum(pricing.tiers, seats)
    else VolumePrice(pricing.tiers, seats)
  }

  /** `seatPriceTotal`, in 64-bit arithmetic: what wraps on the way wraps to the total that wraps once. */
  method ComputeSeatPriceTotal(seats: int, pricing: Pricing) returns (total: int)
    ensures total == Int64(SeatPriceTotal(seats, pricing))
    ensures Fits(SeatPriceTotal(seats, pricing)) <==> total == SeatPriceTotal(seats, pricing)
    ensures pricing.graduated && StartAt(pricing.tiers, 1) ==> total == Int64(SeatSum(pricing.tiers, 1, seats))
  {
    var _ := Int64Is(SeatPriceTotal(seats, pricing));
    if pricing.graduated && StartAt(pricing.tiers, 1) {
      GraduatedIsPerSeat(pricing.tiers, seats);
    }
    if seats <= 0 {
      return 0;
    }
    var tiers := pricing.tiers;
    if pricing.graduated {
      total := 0;
      for n := 0 to |tiers|
        invariant total == Int64(TierSum(tiers[..n], seats))
      {
        var upper := seats;
        if tiers[n].max.Some? && upper > tiers[n].max.value {
          upper := tiers[n].max.value;
        }
        var count := upper - tiers[n].min + 1;
        assert tiers[..n + 1][..n] == tiers[..n];
        if count > 0 {
          WrapsSum(TierSum(tiers[..n], seats), count * tiers[n].price);
          total := Int64(total + Int64(count * tiers[n].price));
        }
      }
      assert tiers[..|tiers|] == tiers;
      return;
    }
    for n := 0 to |tiers|
      invariant VolumePrice(tiers, seats) == VolumePrice(tiers[n..], seats)
    {
      if seats >= tiers[n].min && (tiers[n].max.None? || seats <= tiers[n].max.value) {
        return Int64(seats * tiers[n].price);
      }
      assert tiers[n..][1..] == tiers[n + 1..];
    }
    total := 0;
  }

  // ---------------------------------------------------------------------------------------------
  // Refinement

  /** The tiers start no lower than `low`. */
  predicate StartAt(tiers: seq<Tier>, low: int) { forall t :: t in tiers ==> t.min >= low }

  lemma CountGrows(t: Tier, seats: int)
    ensures Count(t, seats) == Count(t, seats - 1) + if t.Covers(seats) then 1 else 0
  {}

  lemma {:induction false} TierSumGrows(tiers: seq<Tier>, seats: int)
    ensures TierSum(tiers, seats) == TierSum(tiers, seats - 1) + SeatPrice(tiers, seats)
    decreases |tiers|
  {
    if tiers == [] {
    } else {
      var t := tiers[|tiers| - 1];
      TierSumGrows(tiers[..|tiers| - 1], seats);
      CountGrows(t, seats);
      assert Count(t, seats) * t.price == Count(t, seats - 1) * t.price + if t.Covers(seats) then t.price else 0;
    }
  }

  lemma {:induction false} TierSumStarts(tiers: seq<Tier>, low: int, seats: int)
    requires StartAt(tiers, low) && seats < low
    ensures TierSum(tiers, seats) == 0
    decreases |tiers|
  {
    if tiers == [] {
    } else {
      assert tiers[|tiers| - 1] in tiers;
      TierSumStarts(tiers[..|tiers| - 1], low, seats);
    }
  }

  /** Counting tier by tier is adding up seat by seat, from any seat no tier starts below. */
  lemma {:induction false} TierSumIsSeatSum(tiers: seq<Tier>, low: int, seats: int)
    requires StartAt(tiers, low)
    ensures TierSum(tiers, seats) == SeatSum(tiers, low, seats)
    decreases seats - low + 1
  {
    if seats < low {
      TierSumStarts(tiers, low, seats);
    } else {
      TierSumGrows(tiers, seats);
      TierSumIsSeatSum(tiers, low, seats - 1);
    }
  }

  lemma GraduatedIsPerSeat(tiers: seq<Tier>, seats: int)
    requires StartAt(tiers, 1)
    ensures SeatPriceTotal(seats, Pricing(true, tiers)) == SeatSum(tiers, 1, seats)
  {
    TierSumIsSeatSum(tiers, 1, seats);
  }

  lemma {:induction false} SeatSumSplits(tiers: seq<Tier>, low: int, n: int)
    requires low <= 1 && n >= 0
    ensures SeatSum(tiers, low, n) == SeatSum(tiers, low, 0) + SeatSum(tiers, 1, n)
    decreases n
  {
    if n == 0 {
    } else {
      SeatSumSplits(tiers, low, n - 1);
    }
  }

  /** For tiers that start anywhere, the total is the price of the seats from 1 exactly when what the tiers charge
      for seats below 1 comes to nothing. */
  lemma GraduatedIsPerSeatIff(tiers: seq<Tier>, low: int, seats: int)
    requires StartAt(tiers, low) && low <= 1 && seats > 0
    ensures SeatPriceTotal(seats, Pricing(true, tiers)) == SeatSum(tiers, 1, seats) <==> SeatSum(tiers, low, 0) == 0
  {
    TierSumIsSeatSum(tiers, low, seats);
    SeatSumSplits(tiers, low, seats);
  }

  /** A whole volume is priced by the first tier that covers it, and is free if none does. */
  lemma {:induction false} VolumeIsFirstTier(tiers: seq<Tier>, seats: int, k: nat)
    requires k <= |tiers| && (forall j :: 0 <= j < k ==> !tiers[j].Covers(seats))
             && (k < |tiers| ==> tiers[k].Covers(seats))
    ensures VolumePrice(tiers, seats) == if k < |tiers| then seats * tiers[k].price else 0
    decreases k
  {
    if k == 0 {
    } else {
      VolumeIsFirstTier(tiers[1..], seats, k - 1);
    }
  }

  // ---------------------------------------------------------------------------------------------
  // Monotone totals

  predicate NoDiscounts(tiers: seq<Tier>) { forall t :: t in tiers ==> t.price >= 0 }

  lemma {:induction false} SeatPriceIsNonNegative(tiers: seq<Tier>, seat: int)
    requires NoDiscounts(tiers)
    ensures SeatPrice(tiers, seat) >= 0
    decreases |tiers|
  {
    if tiers == [] {
    } else {
      assert tiers[|tiers| - 1] in tiers;
      SeatPriceIsNonNegative(tiers[..|tiers| - 1], seat);
    }
  }

  lemma {:induction false} TierSumIsMonotone(tiers: seq<Tier>, fewer: int, more: int)
    requires NoDiscounts(tiers) && fewer <= more
    ensures TierSum(tiers, fewer) <= TierSum(tiers, more)
    decreases more - fewer
  {
    if fewer == more {
    } else {
      TierSumIsMonotone(tiers, fewer, more - 1);
      TierSumGrows(tiers, more);
      SeatPriceIsNonNegative(tiers, more);
    }
  }

  lemma {:induction false} TierSumIsNonNegative(tiers: seq<Tier>, seats: int)
    requires NoDiscounts(tiers)
    ensures TierSum(tiers, seats) >= 0
    decreases |tiers|
  {
    if tiers == [] {
    } else {
      assert tiers[|tiers| - 1] in tiers;
      TierSumIsNonNegative(tiers[..|tiers| - 1], seats);
    }
  }

  /** More seats never cost less. */
  lemma GraduatedIsMonotone(tiers: seq<Tier>, fewer: int, more: int)
    requires NoDiscounts(tiers) && fewer <= more
    ensures SeatPriceTotal(fewer, Pricing(true, tiers)) <= SeatPriceTotal(more, Pricing(true, tiers))
  {
    TierSumIsMonotone(tiers, fewer, more);
    TierSumIsNonNegative(tiers, more);
  }

  // ---------------------------------------------------------------------------------------------
  // Volume tiers

  /** Tiers that cover the seats from 1 on, each once, at nonnegative prices. */
  predicate Consecutive(tiers: seq<Tier>) {
    && tiers != [] && tiers[0].min == 1 && tiers[|tiers| - 1].max.None? && NoDiscounts(tiers)
    && (forall k :: 0 <= k < |tiers| - 1 ==> tiers[k].max.Some? && tiers[k].min <= tiers[k].max.value)
    && (forall k :: 0 <= k < |tiers| - 1 ==> tiers[k + 1].min == tiers[k].max.value + 1)
  }

  /** At no boundary is the first volume of a tier cheaper than the last one of the tier before. */
  predicate NoDrops(tiers: seq<Tier>)
    requires Consecutive(tiers)
  {
    forall k :: 0 <= k < |tiers| - 1 ==> tiers[k].max.value * tiers[k].price <= tiers[k + 1].min * tiers[k + 1].price
  }

  lemma {:induction false} StartsAscend(tiers: seq<Tier>, j: nat, k: nat)
    requires Consecutive(tiers) && j <= k < |tiers|
    ensures 1 <= tiers[j].min <= tiers[k].min
    ensures j < k ==> tiers[j].max.Some? && tiers[j].max.value < tiers[k].min
    decreases k
  {
    if k == 0 {
    } else if j < k {
      StartsAscend(tiers, j, k - 1);
      assert tiers[k - 1 + 1].min == tiers[k - 1].max.value + 1;
    } else {
      StartsAscend(tiers, k - 1, k - 1);
      assert tiers[k - 1 + 1].min == tiers[k - 1].max.value + 1;
    }
  }

  lemma VolumeInTier(tiers: seq<Tier>, seats: int, k: nat)
    requires Consecutive(tiers) && k < |tiers| && tiers[k].Covers(seats)
    ensures SeatPriceTotal(seats, Pricing(false, tiers)) == seats * tiers[k].price
  {
    forall j | 0 <= j < k ensures !tiers[j].Covers(seats) { StartsAscend(tiers, j, k); }
    StartsAscend(tiers, k, k);
    VolumeIsFirstTier(tiers, seats, k);
  }

  lemma TierOf(tiers: seq<Tier>, seats: int) returns (k: nat)
    requires Consecutive(tiers) && seats >= 1
    ensures k < |tiers| && tiers[k].Covers(seats)
  {
    k := 0;
    while !tiers[k].Covers(seats)
      invariant k < |tiers| && tiers[k].min <= seats
      decreases |tiers| - k
    {
      assert tiers[k + 1].min == tiers[k].max.value + 1;
      k := k + 1;
    }
  }

  function Volume(tiers: seq<Tier>, seats: int): int { SeatPriceTotal(seats, Pricing(false, tiers)) }

  lemma SameTierGrows(seats: int, price: int)
    requires price >= 0
    ensures seats * price <= (seats + 1) * price
  {}

  lemma VolumeStep(tiers: seq<Tier>, seats: int)
    requires Consecutive(tiers) && NoDrops(tiers)
    ensures Volume(tiers, seats) <= Volume(tiers, seats + 1)
  {
    if seats < 0 {
    } else if seats == 0 {
      FirstSeat(tiers);
    } else {
      var k := TierOf(tiers, seats);
      VolumeInTier(tiers, seats, k);
      if tiers[k].Covers(seats + 1) {
        VolumeInTier(tiers, seats + 1, k);
        assert tiers[k] in tiers;
        SameTierGrows(seats, tiers[k].price);
      } else {
        Drop(tiers, k);
      }
    }
  }

  lemma FirstSeat(tiers: seq<Tier>)
    requires Consecutive(tiers)
    ensures Volume(tiers, 1) >= 0
  {
    VolumeInTier(tiers, 1, 0);
    assert tiers[0] in tiers;
  }

  lemma {:induction false} VolumeGrows(tiers: seq<Tier>, fewer: int, more: int)
    requires Consecutive(tiers) && NoDrops(tiers) && fewer <= more
    ensures Volume(tiers, fewer) <= Volume(tiers, more)
    decreases more - fewer
  {
    if fewer == more {
    } else {
      VolumeGrows(tiers, fewer, more - 1);
      VolumeStep(tiers, more - 1);
    }
  }

  /** More seats never cost less by volume exactly when no boundary between tiers drops. */
  lemma VolumeIsMonotoneIff(tiers: seq<Tier>)
    requires Consecutive(tiers)
    ensures NoDrops(tiers) <==> forall fewer, more :: fewer <= more ==> Volume(tiers, fewer) <= Volume(tiers, more)
  {
    if NoDrops(tiers) {
      forall fewer, more | fewer <= more ensures Volume(tiers, fewer) <= Volume(tiers, more) {
        VolumeGrows(tiers, fewer, more);
      }
    } else {
      var k :| 0 <= k < |tiers| - 1 && tiers[k].max.value * tiers[k].price > tiers[k + 1].min * tiers[k + 1].price;
      Drop(tiers, k);
    }
  }

  lemma Drop(tiers: seq<Tier>, k: nat)
    requires Consecutive(tiers) && k < |tiers| - 1
    ensures Volume(tiers, tiers[k].max.value) == tiers[k].max.value * tiers[k].price
    ensures Volume(tiers, tiers[k].max.value + 1) == tiers[k + 1].min * tiers[k + 1].price
  {
    VolumeInTier(tiers, tiers[k].max.value, k);
    VolumeInTier(tiers, tiers[k + 1].min, k + 1);
  }
}
