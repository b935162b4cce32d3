/** Token amounts are integers scaled by a power of ten. */
module Decimals {

  function Pow10(n: nat): (r: real)
    ensures r > 0.0
  {
    if n == 0 then 1.0 else 10.0 * Pow10(n - 1)
  }

  /** Ten, multiplied as often as `n` says. */
  lemma {:induction false} PowersOfTen(n: nat, m: nat)
    ensures Pow10(0) == 1.0 && Pow10(1) == 10.0 && Pow10(n + m) == Pow10(n) * Pow10(m)
  {
    assert Pow10(1) == 10.0 * Pow10(0);
    if n > 0 {
      PowersOfTen(n - 1, m);
    }
  }
}
