/**
 The price formula: dollars of wholesale, a rate and a markup make a whole number of roubles.

 Dollars are cents, the rate is ten-thousandths of a rouble, the markup hundredths of a per cent; the
 exact product of the three is then a fraction of `UNIT`, and only the result is rounded.
 */
module Pricing {
  import opened Basics

  const UNIT := 10_000_000_000

  const VIN_SURCHARGE := 2500

  datatype Settings = Settings(rate: int, brpMarkup: int, polarisMarkup: int)

  function RawPrice(cents: int, rate: int, markup: int): int {
    cents * rate * (10_000 + markup)
  }

  /** To the nearest whole, a half away from zero. */
  function HalfUp(numerator: int, unit: int): int
    requires unit > 0
  {
    if numerator >= 0 then (2 * numerator + unit) / (2 * unit) else -((2 * -numerator + unit) / (2 * unit))
  }

  function CustomerPrice(cents: Option<int>, rate: int, markup: int): Option<int> {
    match cents
    case None => None
    case Some(value) => Some(HalfUp(RawPrice(value, rate, markup), UNIT))
  }

  function UpperLatin(s: string): string {
    if s == "" then "" else [Upper(s[0])] + UpperLatin(s[1..])
  }

  function StatusSurcharge(status: string): int {
    if UpperLatin(Strip(status)) == "VIN" then VIN_SURCHARGE else 0
  }

  /** The surcharge is added to a price; it does not make one. */
  function EffectiveWholesale(wholesale: Option<int>, status: string): Option<int> {
    match wholesale
    case None => None
    case Some(cents) => Some(cents + StatusSurcharge(status))
  }

  // ---------------------------------------------------------------- what rounding means

  /** `whole` units are as near as any, and a half has gone away from zero. */
  predicate IsNearest(whole: int, numerator: int, unit: int) {
    var off := numerator - whole * unit;
    if numerator >= 0 then -unit <= 2 * off < unit else -unit < 2 * off <= unit
  }

  lemma DivisionBounds(numerator: nat, unit: nat)
    requires unit > 0
    ensures numerator / unit * unit <= numerator < (numerator / unit + 1) * unit
  {
  }

  lemma HalfUpIsNearest(numerator: int, unit: int)
    requires unit > 0
    ensures IsNearest(HalfUp(numerator, unit), numerator, unit)
  {
    var size := if numerator >= 0 then numerator else -numerator;
    var whole := (2 * size + unit) / (2 * unit);
    DivisionBounds(2 * size + unit, 2 * unit);
    assert whole * (2 * unit) == 2 * (whole * unit);
    assert (-whole) * unit == -(whole * unit);
    assert (whole + 1) * (2 * unit) == whole * (2 * unit) + 2 * unit;
  }

  lemma ProductsApart(a: int, b: int, gap: nat, unit: int)
    requires unit > 0
    ensures a + gap <= b ==> a * unit + gap * unit <= b * unit
  {
    assert b * unit - a * unit - gap * unit == (b - a - gap) * unit;
  }

  lemma NearestIsUnique(a: int, b: int, numerator: int, unit: int)
    requires unit > 0 && IsNearest(a, numerator, unit) && IsNearest(b, numerator, unit)
    ensures a == b
  {
    ProductsApart(a, b, 1, unit);
    ProductsApart(b, a, 1, unit);
  }

  /** The rounded price is the nearest whole rouble to the exact one, a half going up. */
  lemma RoundedIff(whole: int, numerator: int, unit: int)
    requires unit > 0
    ensures whole == HalfUp(numerator, unit) <==> IsNearest(whole, numerator, unit)
  {
    HalfUpIsNearest(numerator, unit);
    if IsNearest(whole, numerator, unit) {
      NearestIsUnique(whole, HalfUp(numerator, unit), numerator, unit);
    }
  }

  /** Any whole number less than one away from the exact price: its floor, its ceiling, or any rounding of it. */
  predicate IsARounding(whole: int, numerator: int, unit: int) {
    -unit < numerator - whole * unit < unit
  }

  /** Two rules of rounding never part by more than one rouble. */
  lemma RoundingsAreOneApart(whole: int, numerator: int, unit: int)
    requires unit > 0 && IsARounding(whole, numerator, unit)
    ensures -1 <= whole - HalfUp(numerator, unit) <= 1
  {
    HalfUpIsNearest(numerator, unit);
    var price := HalfUp(numerator, unit);
    ProductsApart(price, whole, 2, unit);
    ProductsApart(whole, price, 2, unit);
  }

  lemma RoundingIsMonotone(a: int, b: int, unit: int)
    requires unit > 0 && a <= b
    ensures HalfUp(a, unit) <= HalfUp(b, unit)
  {
    HalfUpIsNearest(a, unit);
    HalfUpIsNearest(b, unit);
    ProductsApart(HalfUp(b, unit), HalfUp(a, unit), 1, unit);
  }

  /** A dearer wholesale price never makes a cheaper customer price. */
  lemma PriceIsMonotone(a: int, b: int, rate: int, markup: int)
    requires a <= b && rate >= 0 && markup >= -10_000
    ensures CustomerPrice(Some(a), rate, markup).value <= CustomerPrice(Some(b), rate, markup).value
  {
    assert RawPrice(b, rate, markup) - RawPrice(a, rate, markup) == (b - a) * (rate * (10_000 + markup));
    assert rate * (10_000 + markup) >= 0;
    assert (b - a) * (rate * (10_000 + markup)) >= 0;
    RoundingIsMonotone(RawPrice(a, rate, markup), RawPrice(b, rate, markup), UNIT);
  }

  /** The worked examples of the formula, at a rate of 105 and a markup of 40 per cent. */
  lemma WorkedExamples()
    ensures CustomerPrice(Some(739), 1_050_000, 4_000) == Some(1086)
    ensures CustomerPrice(Some(903), 1_050_000, 4_000) == Some(1327)
    ensures CustomerPrice(Some(9_999), 1_050_000, 4_000) == Some(14_699)
  {
  }
}
