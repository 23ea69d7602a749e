/** The threshold classifications of the dynamic pricing engine: a demand
    multiplier chosen by occupancy, a time multiplier chosen by the hours left
    before departure, and the low / moderate / high price trend shown to the
    user. The random fluctuation and the floating-point product of the
    multipliers are not part of this module. */
module Pricing {

  /** Share of the seats already sold, (total - available) / total, and 0 for
      a flight without seats. */
  function OccupancyRate(totalSeats: int, availableSeats: int): (r: real)
    ensures totalSeats > 0 ==> r * (totalSeats as real) == (totalSeats - availableSeats) as real
    ensures totalSeats <= 0 ==> r == 0.0
  {
    if totalSeats > 0 then (totalSeats - availableSeats) as real / totalSeats as real else 0.0
  }

  /** The demand multiplier for an occupancy rate. */
  function DemandMultiplier(occupancy: real): (m: real)
    ensures 0.85 <= m <= 1.65
  {
    if occupancy < 0.3 then 0.85
    else if occupancy < 0.5 then 1.0
    else if occupancy < 0.7 then 1.15
    else if occupancy < 0.9 then 1.35
    else 1.65
  }

  /** The time multiplier for the hours left before departure. */
  function TimeMultiplier(hoursToDeparture: real): (m: real)
    ensures 0.9 <= m <= 1.5
  {
    if hoursToDeparture < 24.0 then 1.5
    else if hoursToDeparture < 48.0 then 1.3
    else if hoursToDeparture < 168.0 then 1.1
    else if hoursToDeparture < 720.0 then 1.0
    else 0.9
  }

  /** The dynamic price before rounding to cents: the base price times the
      demand, time and random multipliers. The random factor is a parameter;
      the program draws it uniformly from [0.95, 1.05]. */
  function CalculatePrice(basePrice: real, totalSeats: int, availableSeats: int,
                          hoursToDeparture: real, randomFactor: real): (p: real)
    ensures basePrice >= 0.0 && randomFactor >= 0.0 ==> p >= 0.0
  {
    basePrice * DemandMultiplier(OccupancyRate(totalSeats, availableSeats))
      * TimeMultiplier(hoursToDeparture) * randomFactor
  }

  datatype Trend = Low | Moderate | High

  /** The price trend of a flight; the base price takes no part in it. */
  function PriceTrend(basePrice: real, totalSeats: int, availableSeats: int): (t: Trend)
    ensures t == Low <==> OccupancyRate(totalSeats, availableSeats) < 0.5
    ensures t == Moderate <==> 0.5 <= OccupancyRate(totalSeats, availableSeats) < 0.8
    ensures t == High <==> 0.8 <= OccupancyRate(totalSeats, availableSeats)
  {
    var occupancy := OccupancyRate(totalSeats, availableSeats);
    if occupancy < 0.5 then Low
    else if occupancy < 0.8 then Moderate
    else High
  }

  function TrendRank(t: Trend): nat {
    match t
    case Low => 0
    case Moderate => 1
    case High => 2
  }

  /** A fuller flight never costs less per seat on demand. */
  lemma {:induction false} DemandMultiplierMonotone(a: real, b: real)
    requires a <= b
    ensures DemandMultiplier(a) <= DemandMultiplier(b)
  {
  }

  /** The demand multiplier takes one of the five tier values only. */
  lemma {:induction false} DemandMultiplierValues(occupancy: real)
    ensures DemandMultiplier(occupancy) in {0.85, 1.0, 1.15, 1.35, 1.65}
  {
  }

  /** Booking later never costs less: the multiplier does not grow with the
      time left. */
  lemma {:induction false} TimeMultiplierAntitone(a: real, b: real)
    requires a <= b
    ensures TimeMultiplier(b) <= TimeMultiplier(a)
  {
  }

  /** The trend never goes down as the occupancy rises. */
  lemma {:induction false} TrendMonotone(p: real, q: real, total1: int, avail1: int, total2: int, avail2: int)
    requires OccupancyRate(total1, avail1) <= OccupancyRate(total2, avail2)
    ensures TrendRank(PriceTrend(p, total1, avail1)) <= TrendRank(PriceTrend(q, total2, avail2))
  {
  }

  /** Selling one more seat of the same flight never lowers its trend. */
  lemma {:induction false} TrendMonotoneInSales(p: real, total: int, avail: int)
    ensures TrendRank(PriceTrend(p, total, avail)) <= TrendRank(PriceTrend(p, total, avail - 1))
  {
    if total > 0 {
      OccupancyMonotoneInSales(total, avail);
    }
  }

  lemma {:induction false} OccupancyMonotoneInSales(total: int, avail: int)
    requires total > 0
    ensures OccupancyRate(total, avail) <= OccupancyRate(total, avail - 1)
  {
    var t := total as real;
    assert OccupancyRate(total, avail - 1) == OccupancyRate(total, avail) + 1.0 / t;
  }

  /** Selling a seat never makes the same flight cheaper at the same moment
      and with the same random draw. */
  lemma {:induction false} PriceMonotoneInSales(p: real, total: int, avail: int, hours: real, factor: real)
    requires p >= 0.0 && factor >= 0.0
    ensures CalculatePrice(p, total, avail, hours, factor) <= CalculatePrice(p, total, avail - 1, hours, factor)
  {
    if total > 0 {
      OccupancyMonotoneInSales(total, avail);
    }
    DemandMultiplierMonotone(OccupancyRate(total, avail), OccupancyRate(total, avail - 1));
    var d1, d2 := DemandMultiplier(OccupancyRate(total, avail)), DemandMultiplier(OccupancyRate(total, avail - 1));
    var t := TimeMultiplier(hours);
    assert t >= 0.0;
    assert p * d1 <= p * d2;
    assert p * d1 * t <= p * d2 * t;
    assert p * d1 * t * factor <= p * d2 * t * factor;
  }

  /** With a random factor in [0.95, 1.05] the price stays between
      0.85 * 0.9 * 0.95 and 1.65 * 1.5 * 1.05 times the base price. */
  lemma {:induction false} PriceBounds(p: real, total: int, avail: int, hours: real, factor: real)
    requires p >= 0.0 && 0.95 <= factor <= 1.05
    ensures p * 0.85 * 0.9 * 0.95 <= CalculatePrice(p, total, avail, hours, factor)
    ensures CalculatePrice(p, total, avail, hours, factor) <= p * 1.65 * 1.5 * 1.05
  {
    var d := DemandMultiplier(OccupancyRate(total, avail));
    var t := TimeMultiplier(hours);
    assert 0.85 <= d <= 1.65 && 0.9 <= t <= 1.5;
    assert p * 0.85 <= p * d <= p * 1.65;
    assert p * 0.85 * 0.9 <= p * d * t <= p * 1.65 * 1.5;
    assert p * 0.85 * 0.9 * 0.95 <= p * d * t * factor;
    assert p * d * t * factor <= p * 1.65 * 1.5 * 1.05;
  }

  /** The trend does not depend on the base price. */
  lemma {:induction false} TrendIgnoresBasePrice(p: real, q: real, total: int, avail: int)
    ensures PriceTrend(p, total, avail) == PriceTrend(q, total, avail)
  {
  }

  /** The exact meaning of an occupancy threshold num/den, by integer
      cross-multiplication: for a flight with seats, occupancy < num/den
      exactly when den * (total - available) < num * total. */
  lemma {:induction false} OccupancyBelow(total: int, avail: int, num: int, den: int)
    requires total > 0 && den > 0
    ensures OccupancyRate(total, avail) < (num as real) / (den as real)
        <==> den * (total - avail) < num * total
  {
    var r := OccupancyRate(total, avail);
    var t, d := total as real, den as real;
    var q := (num as real) / d;
    assert q * d == num as real;
    assert r * t == (total - avail) as real;
    if r < q {
      assert r * t * d < q * t * d;
      assert (den * (total - avail)) as real == r * t * d;
      assert (num * total) as real == q * d * t;
    } else {
      assert r * t * d >= q * t * d;
      assert (den * (total - avail)) as real == r * t * d;
      assert (num * total) as real == q * d * t;
    }
  }

  /** The demand tier computed on integers only: 0 for the lowest multiplier
      up to 4 for the highest. */
  function DemandTier(total: int, avail: int): (tier: nat)
    ensures tier <= 4
  {
    if total <= 0 || 10 * (total - avail) < 3 * total then 0
    else if 10 * (total - avail) < 5 * total then 1
    else if 10 * (total - avail) < 7 * total then 2
    else if 10 * (total - avail) < 9 * total then 3
    else 4
  }

  function TierMultiplier(tier: nat): real requires tier <= 4 {
    [0.85, 1.0, 1.15, 1.35, 1.65][tier]
  }

  /** The real-valued rule and the integer rule choose the same multiplier. */
  lemma {:induction false} DemandTierAgrees(total: int, avail: int)
    ensures DemandMultiplier(OccupancyRate(total, avail)) == TierMultiplier(DemandTier(total, avail))
  {
    if total > 0 {
      OccupancyBelow(total, avail, 3, 10);
      OccupancyBelow(total, avail, 5, 10);
      OccupancyBelow(total, avail, 7, 10);
      OccupancyBelow(total, avail, 9, 10);
    }
  }

  /** A flight with every seat still available has the "low" trend and the
      lowest demand multiplier. */
  lemma {:induction false} FullyAvailableIsCheapest(p: real, total: int)
    requires total > 0
    ensures PriceTrend(p, total, total) == Low
    ensures DemandMultiplier(OccupancyRate(total, total)) == 0.85
    ensures forall occ: real :: 0.85 <= DemandMultiplier(occ)
  {
  }
}
