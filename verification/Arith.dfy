/** Minimum and maximum, and facts about remainders that the solver does not find on its own. */
module Arith {

  function Min(a: int, b: int): int { if a < b then a else b }

  function Max(a: int, b: int): int { if a < b then b else a }

  lemma MulAtLeast(q: int, a: nat)
    requires q >= 1
    ensures q * a >= a
  {
  }

  /** Division with remainder is unique. */
  lemma ModUnique(x: int, a: nat, q: int, r: int)
    requires a > 0 && x == q * a + r && 0 <= r < a
    ensures x % a == r && x / a == q
  {
    var p := x / a;
    assert x == p * a + x % a;
    assert (q - p) * a == x % a - r;
    if q > p { MulAtLeast(q - p, a); }
    if q < p { MulAtLeast(p - q, a); }
  }

  lemma MulMod(q: int, a: nat)
    requires a > 0
    ensures (q * a) % a == 0
  {
    ModUnique(q * a, a, q, 0);
  }

  /** Adding a multiple of the modulus changes nothing. */
  lemma ModAddMul(x: int, q: int, a: nat)
    requires a > 0
    ensures (x + q * a) % a == x % a
  {
    assert x == (x / a) * a + x % a;
    assert (x / a + q) * a == (x / a) * a + q * a;
    ModUnique(x + q * a, a, x / a + q, x % a);
  }

  lemma ModAdd(x: int, y: int, a: nat)
    requires a > 0
    ensures (x % a + y) % a == (x + y) % a
  {
    assert x == (x / a) * a + x % a;
    ModAddMul(x % a + y, x / a, a);
  }

  lemma MultiplesAdd(x: int, y: int, a: nat)
    requires a > 0 && x % a == 0 && y % a == 0
    ensures (x + y) % a == 0
  {
    ModAdd(x, y, a);
  }
}
