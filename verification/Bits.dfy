/** Fixed-width words as bit sequences: index `i` is bit `i`. */
module Bits {
  import opened Arith

  type Bits = seq<bool>

  type Byte = b: Bits | |b| == 8 witness seq(8, _ => false)

  /** One bit for each byte of a word. */
  type Strobe = b: Bits | |b| == 4 witness seq(4, _ => false)

  type Word = w: Bits | |w| == 32 witness seq(32, _ => false)

  type Block = b: Bits | |b| == 128 witness seq(128, _ => false)

  function Zeros(n: nat): (r: Bits)
    ensures |r| == n && forall i | 0 <= i < n :: !r[i]
  {
    seq(n, _ => false)
  }

  function Xor(a: Bits, b: Bits): (r: Bits)
    requires |a| == |b|
    ensures |r| == |a| && forall i | 0 <= i < |a| :: r[i] == (a[i] != b[i])
  {
    seq(|a|, i requires 0 <= i < |a| => a[i] != b[i])
  }

  function And(a: Bits, b: Bits): (r: Bits)
    requires |a| == |b|
    ensures |r| == |a| && forall i | 0 <= i < |a| :: r[i] == (a[i] && b[i])
  {
    seq(|a|, i requires 0 <= i < |a| => a[i] && b[i])
  }

  function Or(a: Bits, b: Bits): (r: Bits)
    requires |a| == |b|
    ensures |r| == |a| && forall i | 0 <= i < |a| :: r[i] == (a[i] || b[i])
  {
    seq(|a|, i requires 0 <= i < |a| => a[i] || b[i])
  }

  function Not(a: Bits): (r: Bits)
    ensures |r| == |a| && forall i | 0 <= i < |a| :: r[i] == !a[i]
  {
    seq(|a|, i requires 0 <= i < |a| => !a[i])
  }

  /** Logical shift right, keeping the width. */
  function Shr(a: Bits, n: nat): (r: Bits)
    ensures |r| == |a| && forall i | 0 <= i < |a| :: r[i] == (i + n < |a| && a[i + n])
  {
    seq(|a|, i requires 0 <= i < |a| => i + n < |a| && a[i + n])
  }

  /** Shift left, keeping the width. */
  function Shl(a: Bits, n: nat): (r: Bits)
    ensures |r| == |a| && forall i | 0 <= i < |a| :: r[i] == (i >= n && a[i - n])
  {
    seq(|a|, i requires 0 <= i < |a| => i >= n && a[i - n])
  }

  /** The bits of `a`, extended with zeros to width `n`. */
  function Pad(a: Bits, n: nat): (r: Bits)
    requires |a| <= n
    ensures |r| == n && forall i | 0 <= i < n :: r[i] == (i < |a| && a[i])
  {
    a + Zeros(n - |a|)
  }

  /** The bits of a number, lowest first. */
  function Number(x: nat, n: nat): (r: Bits)
    ensures |r| == n
  {
    seq(n, i requires 0 <= i < n => (x / Pow2(i)) % 2 == 1)
  }

  /** The number that bits stand for, the lowest bit first. */
  function Value(b: Bits): nat
  {
    if b == [] then 0 else (if b[0] then 1 else 0) + 2 * Value(b[1..])
  }

  lemma HalfOfQuotient(x: nat, p: nat)
    requires p > 0
    ensures x / (2 * p) == (x / 2) / p && x % (2 * p) == x % 2 + 2 * ((x / 2) % p)
  {
    var h, b := x / 2, x % 2;
    var q, r := h / p, h % p;
    assert x == (2 * r + b) + (2 * p) * q;
    DivModUnique(2 * r + b, 2 * p, q);
  }

  /** The lowest bit, and the bits of the half. */
  lemma NumberStep(x: nat, n: nat)
    requires n > 0
    ensures Number(x, n) == [x % 2 == 1] + Number(x / 2, n - 1)
  {
    forall i | 0 <= i < n
      ensures Number(x, n)[i] == ([x % 2 == 1] + Number(x / 2, n - 1))[i]
    {
      if i > 0 {
        HalfOfQuotient(x, Pow2(i - 1));
      }
    }
  }

  lemma NumberZero(n: nat)
    ensures Number(0, n) == Zeros(n)
  {
  }

  /** Read back, lowest bit first, the bits give the number modulo 2^n. */
  lemma {:induction false} ValueOfNumber(x: nat, n: nat)
    ensures Value(Number(x, n)) == x % Pow2(n)
    decreases n
  {
    if n > 0 {
      NumberStep(x, n);
      ValueOfNumber(x / 2, n - 1);
      HalfOfQuotient(x, Pow2(n - 1));
      assert Number(x, n)[1..] == Number(x / 2, n - 1);
    }
  }

  lemma XorTwice(a: Bits, b: Bits)
    requires |a| == |b|
    ensures Xor(Xor(a, b), b) == a
  {
  }

  lemma XorSymmetric(a: Bits, b: Bits)
    requires |a| == |b|
    ensures Xor(a, b) == Xor(b, a)
  {
  }

  lemma XorZeros(a: Bits)
    ensures Xor(a, Zeros(|a|)) == a
  {
  }
}
