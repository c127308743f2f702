/**
 * Fixed-point decimals with two places, held as integers in hundredths.
 * A product of two such values has four places; storing it in a two-place
 * decimal column quantises it back to hundredths, rounding ties to even
 * (the default rounding of Python's decimal context).
 */
module Decimals {

  /** Rounds a value held in ten-thousandths to the nearest hundredth, ties to even. */
  function Quantize(n: int): (r: int)
    ensures -50 <= n - 100 * r <= 50
    ensures n % 100 == 0 ==> 100 * r == n
    ensures n - 100 * r == 50 || n - 100 * r == -50 ==> r % 2 == 0
  {
    var q, rem := n / 100, n % 100;
    if rem < 50 then q
    else if rem > 50 then q + 1
    else if q % 2 == 0 then q
    else q + 1
  }

  /** The stored product of a quantity and a price, both in hundredths. */
  function Times(quantity: int, price: int): (r: int)
    ensures -50 <= quantity * price - 100 * r <= 50
    ensures (quantity * price) % 100 == 0 ==> 100 * r == quantity * price
  {
    Quantize(quantity * price)
  }

  /** For a whole-unit quantity the stored amount is exactly quantity × price. */
  lemma {:induction false} TimesWholeUnits(quantity: int, price: int)
    ensures Times(100 * quantity, price) == quantity * price
  {
    assert (100 * quantity) * price == 100 * (quantity * price);
  }
}
