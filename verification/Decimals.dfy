/** The width of a decimal number, and the bound below which an integer is safe. */
module Decimals {

  /** `Number.MAX_SAFE_INTEGER`. */
  const MAX_SAFE_INTEGER: int := 9007199254740991

  function Power(digits: nat): nat {
    if digits == 0 then 1 else 10 * Power(digits - 1)
  }

  /** How many decimal digits a number is written with. */
  function DecimalWidth(n: nat): (width: nat)
    ensures width > 0
  {
    if n < 10 then 1 else DecimalWidth(n / 10) + 1
  }

  /** A number below the given power of ten has no more digits than its exponent. */
  lemma {:induction false} DecimalLength(n: nat, digits: nat)
    requires digits > 0 && n < Power(digits)
    ensures DecimalWidth(n) <= digits
  {
    if n >= 10 {
      DecimalLength(n / 10, digits - 1);
    }
  }
}
