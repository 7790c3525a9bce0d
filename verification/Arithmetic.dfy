// Word sizes, powers, and facts about products and quotients that several models share.
module Arithmetic {
  const WORD_LIMIT: nat := 0x1_0000_0000_0000_0000
  const INT_MAX: nat := 0x7FFF_FFFF_FFFF_FFFF
  const INT_MIN_MAGNITUDE: nat := 0x8000_0000_0000_0000

  lemma ProductMono(x: nat, y: nat, a: nat)
    requires x <= y
    ensures x * a <= y * a
  {}

  lemma LessFromProduct(x: nat, y: nat, a: nat)
    requires x * a < y * a
    ensures x < y
  {
    if y <= x { ProductMono(y, x, a); }
  }

  lemma DivMod(n: nat, d: nat)
    requires d > 0
    ensures n / d * d + n % d == n && n % d < d
  {}

  function Power(base: nat, k: nat): (r: nat)
    requires base > 0
    ensures r > 0
  {
    if k == 0 then 1 else base * Power(base, k - 1)
  }

  lemma PowerStep(base: nat, k: nat)
    requires base > 0 && k > 0
    ensures Power(base, k) == base * Power(base, k - 1) >= base
    ensures k == 1 ==> Power(base, k) == base
  {
    assert base * Power(base, k - 1) >= base * 1;
  }
}
