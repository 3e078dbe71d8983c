/** What distinguishes a small car (`SmallCar.java`): a 49-litre tank, a
    flat consumption of one litre per 20 km, and the " (S)" tag. */
module SmallCars {
  const Capacity := 49

  /** Kilometres driven per litre. */
  const ConsumptionRate := 20

  /** Litres requested for a trip of `km` kilometres: one for every whole
      20 km, the part of a stretch shorter than 20 km costing nothing. */
  function Consumption(km: int): (litres: int)
    requires km >= 0
    ensures litres >= 0
    ensures litres * ConsumptionRate <= km < (litres + 1) * ConsumptionRate
  {
    km / ConsumptionRate
  }

  /** A longer trip never requests less fuel. */
  lemma ConsumptionMonotone(k1: int, k2: int)
    requires 0 <= k1 <= k2
    ensures Consumption(k1) <= Consumption(k2)
  {
  }

  /** What `toString` prints after the plate. */
  const Tag := " (S)"
}
