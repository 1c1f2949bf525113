/**
 * Prices are whole cents. Both price spin boxes of the application show two
 * decimals and accept values from 0.01 to 999999.99, with 1.00 preset.
 */
module Pricing {

  const MinPrice: int := 1
  const MaxPrice: int := 99999999
  const DefaultPrice: int := 100

  predicate InSpinRange(p: int) {
    MinPrice <= p <= MaxPrice
  }

  /** The value a spin box holds after being asked to show `p`: it is clamped to the range. */
  function SpinBoxValue(p: int): (v: int)
    ensures InSpinRange(v)
    ensures InSpinRange(p) ==> v == p
    ensures p < MinPrice ==> v == MinPrice
    ensures p > MaxPrice ==> v == MaxPrice
  {
    if p < MinPrice then MinPrice else if p > MaxPrice then MaxPrice else p
  }
}
