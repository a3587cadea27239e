/** Natural-number facts shared by the arithmetic units: powers of two and
    sixteen, division by a power, and the bitwise OR of naturals. */
module Arith {

  const TWO32: nat := 0x1_0000_0000
  const TWO64: nat := 0x1_0000_0000_0000_0000

  function Pow2(n: nat): (p: nat)
    ensures p > 0
  {
    if n == 0 then 1 else 2 * Pow2(n - 1)
  }

  function Pow16(n: nat): (p: nat)
    ensures p > 0
  {
    if n == 0 then 1 else 16 * Pow16(n - 1)
  }

  lemma {:induction false} Pow2Sum(a: nat, b: nat)
    ensures Pow2(a + b) == Pow2(a) * Pow2(b)
  {
    if a == 0 {
    } else {
      Pow2Sum(a - 1, b);
      assert 2 * (Pow2(a - 1) * Pow2(b)) == (2 * Pow2(a - 1)) * Pow2(b);
    }
  }

  lemma MulGrows(p: nat, d: nat)
    requires d >= 1
    ensures p * d >= p
  {
  }

  /** Splitting off a remainder below `p` recovers quotient and remainder. */
  lemma DivModUnique(low: nat, p: nat, high: nat)
    requires low < p
    ensures (low + p * high) / p == high && (low + p * high) % p == low
  {
    var n := low + p * high;
    var q := n / p;
    assert n == p * q + n % p;
    assert p * (q - high) == low - n % p;
    if q > high {
      MulGrows(p, q - high);
    } else if q < high {
      MulGrows(p, high - q);
    }
  }

  /** The OR of two naturals, bit by bit. */
  function BitOr(a: nat, b: nat): nat
  {
    if a == 0 && b == 0 then 0
    else (if a % 2 == 1 || b % 2 == 1 then 1 else 0) + 2 * BitOr(a / 2, b / 2)
  }

  lemma {:induction false} OrZero(a: nat)
    ensures BitOr(a, 0) == a
  {
    if a != 0 {
      OrZero(a / 2);
    }
  }

  /** Setting a bit below all the bits of `a` adds it. */
  lemma {:induction false} OrBelow(a: nat, k: nat)
    ensures BitOr(Pow2(k + 1) * a, Pow2(k)) == Pow2(k + 1) * a + Pow2(k)
    decreases k
  {
    var x := Pow2(k + 1) * a;
    assert x == 2 * (Pow2(k) * a);
    assert x / 2 == Pow2(k) * a;
    if k == 0 {
      OrZero(Pow2(k) * a);
      assert Pow2(0) / 2 == 0;
    } else {
      OrBelow(a, k - 1);
      assert Pow2(k) / 2 == Pow2(k - 1);
    }
  }
}
