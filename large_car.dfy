/** What distinguishes a large car (`LargeCar.java`): a 60-litre tank, a
    tiered consumption of 10 km per litre for the first 50 km and 15 km per
    litre beyond, and the " (L)" tag. */
module LargeCars {
  const Capacity := 60

  /** Kilometres per litre over the first `Threshold` kilometres. */
  const FirstRate := 10

  /** Kilometres per litre beyond `Threshold`. */
  const SecondRate := 15

  const Threshold := 50

  /** Litres requested for a trip of `km` kilometres. Up to 50 km: a litre
      for every whole 10 km. Beyond: the 5 litres of the first 50 km plus a
      litre for every whole 15 km of the excess, and never less than one
      litre for the excess however short it is. */
  function Consumption(km: int): (litres: int)
    requires km >= 0
    ensures km <= Threshold ==> litres * FirstRate <= km < (litres + 1) * FirstRate
    ensures km > Threshold ==> litres >= Threshold / FirstRate + 1
    ensures km > Threshold && km - Threshold >= SecondRate ==>
      (litres - 5) * SecondRate <= km - Threshold < (litres - 4) * SecondRate
    ensures km > Threshold && km - Threshold < SecondRate ==> litres == 6
  {
    if km > Threshold then
      var firstFifty := Threshold / FirstRate;
      var remaining := (km - Threshold) / SecondRate;
      firstFifty + (if remaining == 0 then 1 else remaining)
    else km / FirstRate
  }

  /** A longer trip never requests less fuel: the forced litre beyond 50 km
      makes up for the change of rate. */
  lemma {:induction false} ConsumptionMonotone(k1: int, k2: int)
    requires 0 <= k1 <= k2
    ensures Consumption(k1) <= Consumption(k2)
  {
    if k1 <= Threshold && k2 > Threshold {
      assert Consumption(k1) <= 5;
    }
  }

  /** What `toString` prints after the plate. */
  const Tag := " (L)"
}
