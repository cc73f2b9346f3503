/** The charge previewed for a storage upgrade: the difference of the totals, prorated over the rest of the period in
    reduced fractions and divided as 64-bit integers. */
module Previews {
  import opened Wrappers
  import opened Int64s
  import opened Pricing
  import opened Proration

  // ---------------------------------------------------------------------------------------------
  // The computation

  /** A difference of two instants, in nanoseconds; it stops at the ends of the 64-bit range. */
  function Since(a: int, b: int): int { if a - b >= HALF then HALF - 1 else if a - b < -HALF then -HALF else a - b }

  function Remaining(p: Period, now: int): int { Since(p.end, Clamp(p, now)) }

  function Length(p: Period): int { Since(p.end, p.start) }

  /** The difference of the totals of two numbers of seats, as 64-bit totals differ. */
  function Difference(pricing: Pricing, fewer: int, more: int): int {
    Int64(Int64(SeatPriceTotal(more, pricing)) - Int64(SeatPriceTotal(fewer, pricing)))
  }

  lemma DurationsFit(p: Period, now: int)
    requires p.start < p.end
    ensures 0 <= Remaining(p, now) <= Length(p) && 0 < Length(p) < HALF
  {}

  lemma DenominatorFits(n: int, d: int)
    requires 0 < d < HALF
    ensures 0 < Lowest(n, d).den < HALF
  {
    var g := LowestIs(n, d);
  }

  /** The prorated difference in lowest terms. */
  function Prorated(diff: int, p: Period, now: int): (f: Fraction)
    requires p.start < p.end
    ensures 0 < f.den < HALF
  {
    DenominatorFits(diff * Remaining(p, now), Length(p));
    Lowest(diff * Remaining(p, now), Length(p))
  }

  /** `PreviewStorageSubscription`: nothing for a reduction or without a period. */
  function Preview(pricing: Pricing, current: int, requested: int, p: Period, now: int): int {
    if requested < current || p.end <= p.start then 0
    else
      var f := Prorated(Difference(pricing, current, requested), p, now);
      Int64Keeps(f.den);
      Truncated(Int64(f.num), Int64(f.den))
  }

  // ---------------------------------------------------------------------------------------------
  // What it should be, and exactly when it is

  /** The share of a difference for the rest of the period, rounded toward zero. */
  function Share(diff: int, p: Period, now: int): int
    requires p.start < p.end
  {
    Truncated(diff * Remaining(p, now), Length(p))
  }

  /** The reduced numerator is a 64-bit integer. */
  predicate NumeratorFits(diff: int, p: Period, now: int)
    requires p.start < p.end
  {
    Fits(Prorated(diff, p, now).num)
  }

  /** A reduction, and any change without a period, is previewed at nothing. An upgrade is previewed at the prorated
      difference exactly when the reduced numerator is a 64-bit integer. */
  lemma PreviewIsShareIff(pricing: Pricing, current: int, requested: int, p: Period, now: int)
    ensures var diff := Difference(pricing, current, requested);
            if requested < current || p.end <= p.start then Preview(pricing, current, requested, p, now) == 0
            else Preview(pricing, current, requested, p, now) == Share(diff, p, now) <==> NumeratorFits(diff, p, now)
  {
    if current <= requested && p.start < p.end {
      var diff := Difference(pricing, current, requested);
      var f := Prorated(diff, p, now);
      DurationsFit(p, now);
      Int64Keeps(f.den);
      WrappedQuotientIff(f.num, f.den);
      LowestQuotient(diff * Remaining(p, now), Length(p));
    }
  }

  /** Within a period shorter than 2^63 nanoseconds the share is the difference times the time left, over the length,
      cut toward zero. */
  lemma ShareIsProrated(diff: int, p: Period, now: int)
    requires p.start <= now <= p.end && p.start < p.end && p.end - p.start < HALF
    ensures var length, due := p.end - p.start, Abs(diff) * (p.end - now);
            && Abs(Share(diff, p, now)) * length <= due < Abs(Share(diff, p, now)) * length + length
            && (diff >= 0 ==> Share(diff, p, now) >= 0) && (diff <= 0 ==> Share(diff, p, now) <= 0)
  {
    var left, length := p.end - now, p.end - p.start;
    assert Remaining(p, now) == left && Length(p) == length;
    AbsOfProduct(diff, left);
    QuotientSign(diff * left, length);
    FloorIs(Abs(diff * left), length);
    if diff >= 0 { Floors(0, diff, left); } else { Floors(diff, 0, left); }
  }

  predicate DifferenceFits(pricing: Pricing, fewer: int, more: int) {
    Fits(SeatPriceTotal(more, pricing) - SeatPriceTotal(fewer, pricing))
  }

  /** The difference is exact exactly when it is a 64-bit integer, whatever the totals did. */
  lemma DifferenceIsExactIff(pricing: Pricing, fewer: int, more: int)
    ensures Difference(pricing, fewer, more) == SeatPriceTotal(more, pricing) - SeatPriceTotal(fewer, pricing)
            <==> DifferenceFits(pricing, fewer, more)
  {
    WrapsDifference(SeatPriceTotal(more, pricing), SeatPriceTotal(fewer, pricing));
    var k := Int64Is(SeatPriceTotal(more, pricing) - SeatPriceTotal(fewer, pricing));
  }

  /** The share lies between nothing and the whole difference exactly when that is not negative. */
  lemma ShareFitsIff(diff: int, p: Period, now: int)
    requires p.start < p.end
    ensures 0 <= Share(diff, p, now) <= diff <==> diff >= 0
  {
    if diff >= 0 {
      DurationsFit(p, now);
      ShareOf(diff, Remaining(p, now), Length(p));
    }
  }

  lemma ShareOf(x: int, r: int, d: int)
    requires x >= 0 && 0 <= r <= d && d > 0
    ensures x * r >= 0 && 0 <= x * r / d <= x
  {
    Floors(0, x, r);
    Floors(r, d, x);
    assert r * x == x * r && d * x == x * d;
    FloorIs(x * r, d);
    assert (x + 1) * d == x * d + d;
    Less(x * r / d, x + 1, d);
    Less(-1, x * r / d, d);
  }

  /** While the numbers fit, the preview lies between nothing and the difference of the totals exactly when the total
      does not fall. */
  lemma PreviewFitsIff(pricing: Pricing, fewer: int, more: int, p: Period, now: int)
    requires fewer <= more && p.start < p.end && DifferenceFits(pricing, fewer, more)
    requires NumeratorFits(SeatPriceTotal(more, pricing) - SeatPriceTotal(fewer, pricing), p, now)
    ensures var diff := SeatPriceTotal(more, pricing) - SeatPriceTotal(fewer, pricing);
            0 <= Preview(pricing, fewer, more, p, now) <= diff <==> diff >= 0
  {
    DifferenceIsExactIff(pricing, fewer, more);
    PreviewIsShareIff(pricing, fewer, more, p, now);
    ShareFitsIff(SeatPriceTotal(more, pricing) - SeatPriceTotal(fewer, pricing), p, now);
  }

  // ---------------------------------------------------------------------------------------------
  // Graduated tiers

  /** While the numbers fit, an upgrade of graduated seats is previewed between nothing and the difference. */
  lemma GraduatedPreviewFits(tiers: seq<Tier>, fewer: int, more: int, p: Period, now: int)
    requires NoDiscounts(tiers) && fewer <= more && p.start < p.end && DifferenceFits(Pricing(true, tiers), fewer, more)
    ensures var diff := SeatPriceTotal(more, Pricing(true, tiers)) - SeatPriceTotal(fewer, Pricing(true, tiers));
            && (NumeratorFits(diff, p, now) <==>
                Preview(Pricing(true, tiers), fewer, more, p, now) == Share(diff, p, now))
            && (NumeratorFits(diff, p, now) ==> 0 <= Preview(Pricing(true, tiers), fewer, more, p, now) <= diff)
  {
    GraduatedIsMonotone(tiers, fewer, more);
    DifferenceIsExactIff(Pricing(true, tiers), fewer, more);
    PreviewIsShareIff(Pricing(true, tiers), fewer, more, p, now);
    ShareFitsIff(SeatPriceTotal(more, Pricing(true, tiers)) - SeatPriceTotal(fewer, Pricing(true, tiers)), p, now);
  }

  /** The numerator fits whenever the difference times the nanoseconds left does. */
  lemma SmallDifferencesFit(diff: int, p: Period, now: int)
    requires p.start < p.end && -HALF < diff * Remaining(p, now) < HALF
    ensures NumeratorFits(diff, p, now)
  {
    DurationsFit(p, now);
    var n := diff * Remaining(p, now);
    var g := LowestIs(n, Length(p));
    var f := Lowest(n, Length(p));
    AbsOfProduct(f.num, g);
    Floors(1, g, Abs(f.num));
    assert g * Abs(f.num) == Abs(f.num) * g;
  }

  const MONTH: Period := Period(0, 2592000000000000)
  const ODD_PRICE: Pricing := Pricing(true, [Tier(1, None, 199)])

  lemma OddTotals()
    ensures SeatPriceTotal(1, ODD_PRICE) == 199 && SeatPriceTotal(20, ODD_PRICE) == 3980
  {
    var tiers := ODD_PRICE.tiers;
    assert tiers[..0] == [] && TierSum(tiers[..0], 1) == 0 && TierSum(tiers[..0], 20) == 0;
  }

  lemma OddFraction()
    ensures Prorated(3781, MONTH, 1000003) == Fraction(9800351996218988657, 2592000000000000)
    ensures Share(3781, MONTH, 1000003) == 3780 && Int64(9800351996218988657) == -8646392077490562959
  {
    assert 3781 * Remaining(MONTH, 1000003) == 9800351996218988657;
    Coprime(9800351996218988657, 2592000000000000, -598479972964207, 2262852776904649859);
  }

  /** It does not always fit: upgrading from 1 to 20 seats at 199 each, a millisecond and three nanoseconds into a
      month of thirty days, is previewed at -3335 instead of 3780. */
  lemma PreviewCanBeNegative()
    ensures SeatPriceTotal(1, ODD_PRICE) == 199 && SeatPriceTotal(20, ODD_PRICE) == 3980
    ensures !NumeratorFits(3781, MONTH, 1000003) && Share(3781, MONTH, 1000003) == 3780
    ensures Preview(ODD_PRICE, 1, 20, MONTH, 1000003) == -3335
  {
    OddTotals();
    DifferenceIsExactIff(ODD_PRICE, 1, 20);
    OddFraction();
    Int64Keeps(2592000000000000);
  }

  // ---------------------------------------------------------------------------------------------
  // Volume tiers

  /** While the numbers fit, the upgrade is previewed between nothing and the difference of the totals. */
  predicate UpgradeFits(tiers: seq<Tier>, fewer: int, more: int, p: Period, now: int) {
    var diff := Volume(tiers, more) - Volume(tiers, fewer);
    fewer <= more && p.start < p.end && Fits(diff) && NumeratorFits(diff, p, now)
    ==> 0 <= Preview(Pricing(false, tiers), fewer, more, p, now) <= diff
  }

  predicate SmallTotals(tiers: seq<Tier>, seats: int) { Fits(Volume(tiers, seats)) }

  /** While the totals up to the boundaries are 64-bit integers, every upgrade by volume whose numbers fit is previewed
      between nothing and the difference exactly when no boundary drops. */
  lemma VolumePreviewFitsIff(tiers: seq<Tier>)
    requires Consecutive(tiers)
    requires forall k :: 0 <= k < |tiers| - 1 ==> SmallTotals(tiers, tiers[k].max.value)
    ensures NoDrops(tiers) <==> forall fewer, more, p, now :: UpgradeFits(tiers, fewer, more, p, now)
  {
    if NoDrops(tiers) {
      forall fewer, more, p, now ensures UpgradeFits(tiers, fewer, more, p, now) {
        UpgradeFitsIfNoDrops(tiers, fewer, more, p, now);
      }
    } else {
      var k :| 0 <= k < |tiers| - 1 && tiers[k].max.value * tiers[k].price > tiers[k + 1].min * tiers[k + 1].price;
      DropIsPreviewed(tiers, k);
    }
  }

  lemma UpgradeFitsIfNoDrops(tiers: seq<Tier>, fewer: int, more: int, p: Period, now: int)
    requires Consecutive(tiers) && NoDrops(tiers)
    ensures UpgradeFits(tiers, fewer, more, p, now)
  {
    var diff := Volume(tiers, more) - Volume(tiers, fewer);
    if fewer <= more && p.start < p.end && Fits(diff) && NumeratorFits(diff, p, now) {
      VolumeGrows(tiers, fewer, more);
      PreviewFitsIff(Pricing(false, tiers), fewer, more, p, now);
    }
  }

  lemma DropIsPreviewed(tiers: seq<Tier>, k: nat)
    requires Consecutive(tiers) && k < |tiers| - 1 && SmallTotals(tiers, tiers[k].max.value)
    requires tiers[k].max.value * tiers[k].price > tiers[k + 1].min * tiers[k + 1].price
    ensures !UpgradeFits(tiers, tiers[k].max.value, tiers[k].max.value + 1, Period(0, 1), 1)
  {
    var fewer := tiers[k].max.value;
    Drop(tiers, k);
    var m := TierOf(tiers, fewer + 1);
    assert tiers[k + 1] in tiers;
    StartsAscend(tiers, k + 1, k + 1);
    Floors(0, tiers[k + 1].min, tiers[k + 1].price);
    var diff := Volume(tiers, fewer + 1) - Volume(tiers, fewer);
    assert diff * Remaining(Period(0, 1), 1) == 0;
    SmallDifferencesFit(diff, Period(0, 1), 1);
    PreviewFitsIff(Pricing(false, tiers), fewer, fewer + 1, Period(0, 1), 1);
  }

  /** Such tiers exist: 10 a seat up to nine seats and 5 from ten on make the tenth seat cost -40. */
  lemma VolumeUpgradeCanBeNegative()
    ensures var tiers := [Tier(1, Some(9), 10), Tier(10, None, 5)];
            Consecutive(tiers) && !NoDrops(tiers) && Preview(Pricing(false, tiers), 9, 10, Period(0, 100), 0) == -40
  {
    var tiers := [Tier(1, Some(9), 10), Tier(10, None, 5)];
    assert Consecutive(tiers);
    assert tiers[0].max.value * tiers[0].price == 90 && tiers[0 + 1].min * tiers[0 + 1].price == 50;
    Drop(tiers, 0);
    DifferenceIsExactIff(Pricing(false, tiers), 9, 10);
    SmallDifferencesFit(-40, Period(0, 100), 0);
    PreviewIsShareIff(Pricing(false, tiers), 9, 10, Period(0, 100), 0);
  }
}
