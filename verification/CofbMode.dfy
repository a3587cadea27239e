/** GIFT-COFB as a function: the mask field, the block maps and the mode over
    any block cipher and any number of blocks. */
module CofbMode {
  import opened Bits
  import opened Clocked

  type Mask = m: Bits | |m| == 64 witness seq(64, _ => false)

  // ---- the mask field -------------------------------------------------------------

  /** The reduction 0x1B. */
  function Reduction(): (r: Mask)
    ensures forall i | 0 <= i < 64 :: r[i] == (i == 0 || i == 1 || i == 3 || i == 4)
  {
    seq(64, i => i == 0 || i == 1 || i == 3 || i == 4)
  }

  /** Doubling in GF(2^64). */
  function Double(s: Mask): Mask
  {
    Xor(Shl(s, 1), if s[63] then Reduction() else Zeros(64))
  }

  function Triple(s: Mask): Mask { Xor(s, Double(s)) }

  lemma DoubleBit(s: Mask, i: nat)
    requires i < 64
    ensures Double(s)[i] == ((i > 0 && s[i - 1]) != (s[63] && (i == 0 || i == 1 || i == 3 || i == 4)))
  {
  }

  lemma DoubleLinear(a: Mask, b: Mask)
    ensures Double(Xor(a, b)) == Xor(Double(a), Double(b))
  {
    forall i | 0 <= i < 64
      ensures Double(Xor(a, b))[i] == Xor(Double(a), Double(b))[i]
    {
      DoubleBit(Xor(a, b), i);
      DoubleBit(a, i);
      DoubleBit(b, i);
    }
  }

  lemma DoubleTripleCommute(s: Mask)
    ensures Double(Triple(s)) == Triple(Double(s))
  {
    DoubleLinear(s, Double(s));
  }

  lemma DoubleInjective(a: Mask, b: Mask)
    requires Double(a) == Double(b)
    ensures a == b
  {
    DoubleBit(a, 0);
    DoubleBit(b, 0);
    forall i | 0 <= i < 63
      ensures a[i] == b[i]
    {
      DoubledBitsAgree(a, b, i);
    }
  }

  lemma DoubledBitsAgree(a: Mask, b: Mask, i: nat)
    requires Double(a) == Double(b) && a[63] == b[63] && i < 63
    ensures a[i] == b[i]
  {
    DoubleBit(a, i + 1);
    DoubleBit(b, i + 1);
  }

  /** A mask equal to its own double is zero. */
  lemma FixedByDouble(x: Mask)
    requires Double(x) == x
    ensures x == Zeros(64)
  {
    DoubleBit(x, 0);
    DoubleBit(x, 1);
    DoubleBit(x, 2);
    DoubleBit(x, 3);
    DoubleBit(x, 4);
    for i := 5 to 64
      invariant forall j | 4 <= j < i :: x[j] == x[4]
    {
      DoubleBit(x, i);
    }
  }

  lemma TripleInjective(a: Mask, b: Mask)
    requires Triple(a) == Triple(b)
    ensures a == b
  {
    var x := Xor(a, b);
    DoubleLinear(a, b);
    forall i | 0 <= i < 64
      ensures Double(x)[i] == x[i]
    {
      assert Triple(a)[i] == (a[i] != Double(a)[i]) && Triple(b)[i] == (b[i] != Double(b)[i]);
    }
    FixedByDouble(x);
    forall i | 0 <= i < 64
      ensures a[i] == b[i]
    {
      assert x[i] == Zeros(64)[i];
    }
  }

  // ---- the block maps ------------------------------------------------------------------

  /** The sum of two blocks, cut to the first `n` bytes. */
  function XorBlock(a: Block, b: Block, n: nat): Block
  {
    if n <= 16 then Zeros(128 - 8 * n) + Xor(a, b)[128 - 8 * n..] else Zeros(128)
  }

  /** The first `n` bytes followed by a one bit, or the whole block. */
  function Padding(m: Block, n: nat): Block
  {
    if n < 16 then Zeros(127 - 8 * n) + [true] + m[128 - 8 * n..]
    else if n == 16 then m
    else Zeros(128)
  }

  /** Swaps the halves and rotates the one that was on top. */
  function FeedbackG(y: Block): Block
  {
    [y[127]] + y[64..127] + y[..64]
  }

  function Pho1(y: Block, m: Block, n: nat): Block
  {
    XorBlock(FeedbackG(y), Padding(m, n), 16)
  }

  function XorTop(b: Block, l: Mask): Block { b[..64] + Xor(b[64..], l) }

  /** The first `n` bytes of a block. */
  function Truncate(m: Block, n: nat): Block
    requires n <= 16
  {
    Zeros(128 - 8 * n) + m[128 - 8 * n..]
  }

  lemma UnmaskMasked(y: Block, m: Block, n: nat)
    requires n <= 16
    ensures XorBlock(y, XorBlock(y, m, n), n) == Truncate(m, n)
  {
  }

  lemma PaddingOfTruncated(m: Block, n: nat)
    requires n <= 16
    ensures Padding(Truncate(m, n), n) == Padding(m, n)
  {
    var k := 128 - 8 * n;
    assert Truncate(m, n)[k..] == m[k..];
    if n == 16 {
      assert Truncate(m, n) == Zeros(0) + m == m;
    }
  }

  // ---- the mode --------------------------------------------------------------------------

  type Cipher = Block -> Block

  /** The combinational parts of the mode: cipher, feedback, output, masking,
      doubling and tripling. The mode is defined over any such parts. */
  datatype Maps = Maps(e: Cipher, pho: (Block, Block, nat) -> Block, out: (Block, Block, nat) -> Block,
    top: (Block, Mask) -> Block, double: Mask -> Mask, triple: Mask -> Mask)

  /** The parts of COFB. */
  function Cofb(e: Cipher): Maps { Maps(e, Pho1, XorBlock, XorTop, Double, Triple) }

  /** One query: `ad` and `msg` number the blocks, the lengths are in bytes. */
  datatype Query = Query(decrypt: bool, nonce: Block, ad: nat -> Block, adLen: nat, msg: nat -> Block, msgLen: nat)

  /** Empty associated data still takes one padded block. */
  function AdBlocks(len: nat): (n: nat)
    ensures n >= 1
  {
    if len == 0 then 1 else (len + 15) / 16
  }

  function MsgBlocks(len: nat): nat { (len + 15) / 16 }

  /** The bytes left before block `k`. */
  function Left(len: nat, k: nat): nat { if len >= 16 * k then len - 16 * k else 0 }

  /** The bytes of the next block. */
  function Bytes(left: nat): (n: nat)
    ensures n <= 16
  {
    if left > 16 then 16 else left
  }

  /** The chaining value and the mask. */
  datatype Chain = Chain(y: Block, l: Mask)

  function AdTriples(left: nat, emptyM: bool): nat
  {
    (if left == 0 || left % 16 != 0 then 2 else 1) + (if emptyM then 2 else 0)
  }

  function MsgTriples(left: nat): nat { if left % 16 != 0 then 2 else 1 }

  function AdMask(w: Maps, l: Mask, left: nat, emptyM: bool): Mask
  {
    if left > 16 then w.double(l) else Iterate(w.triple, l, AdTriples(left, emptyM))
  }

  function MsgMask(w: Maps, l: Mask, left: nat): Mask
  {
    if left > 16 then w.double(l) else Iterate(w.triple, l, MsgTriples(left))
  }

  function AdStep(w: Maps, c: Chain, block: Block, left: nat, emptyM: bool): Chain
  {
    var l := AdMask(w, c.l, left, emptyM);
    Chain(w.e(w.top(w.pho(c.y, block, Bytes(left)), l)), l)
  }

  /** The block that leaves for the block that enters. */
  function Output(w: Maps, y: Block, block: Block, left: nat): Block { w.out(y, block, Bytes(left)) }

  /** The plaintext block of a message step. */
  function Plain(w: Maps, decrypt: bool, y: Block, block: Block, left: nat): Block
  {
    if decrypt then Output(w, y, block, left) else block
  }

  function MsgStep(w: Maps, decrypt: bool, c: Chain, block: Block, left: nat): Chain
  {
    var l := MsgMask(w, c.l, left);
    Chain(w.e(w.top(w.pho(c.y, Plain(w, decrypt, c.y, block, left), Bytes(left)), l)), l)
  }

  /** After the nonce and `k` blocks of associated data. */
  function AdChain(w: Maps, q: Query, k: nat): Chain
  {
    if k == 0 then Chain(w.e(q.nonce), w.e(q.nonce)[64..])
    else AdStep(w, AdChain(w, q, k - 1), q.ad(k - 1), Left(q.adLen, k - 1), q.msgLen == 0)
  }

  /** After all associated data and `k` message blocks. */
  function MsgChain(w: Maps, q: Query, k: nat): Chain
  {
    if k == 0 then AdChain(w, q, AdBlocks(q.adLen))
    else MsgStep(w, q.decrypt, MsgChain(w, q, k - 1), q.msg(k - 1), Left(q.msgLen, k - 1))
  }

  /** Output block `k`. */
  function Out(w: Maps, q: Query, k: nat): Block
  {
    Output(w, MsgChain(w, q, k).y, q.msg(k), Left(q.msgLen, k))
  }

  function Tag(w: Maps, q: Query): Block { MsgChain(w, q, MsgBlocks(q.msgLen)).y }

  // ---- decryption inverts encryption ---------------------------------------------------------

  /** `d` decrypts what `q` encrypts: same nonce, associated data and lengths,
      and the output blocks of `q` as input. */
  ghost predicate Decrypts(w: Maps, d: Query, q: Query)
  {
    && !q.decrypt && d.decrypt && d.nonce == q.nonce && d.ad == q.ad && d.adLen == q.adLen && d.msgLen == q.msgLen
    && forall k: nat | k < MsgBlocks(q.msgLen) :: d.msg(k) == Out(w, q, k)
  }

  lemma {:induction false} SameAdChain(w: Maps, d: Query, q: Query, k: nat)
    requires Decrypts(w, d, q)
    ensures AdChain(w, d, k) == AdChain(w, q, k)
  {
    if k > 0 {
      SameAdChain(w, d, q, k - 1);
    }
  }

  /** What decryption needs of the parts: unmasking what was masked gives the
      valid bytes, and the feedback sees no more than those. */
  ghost predicate Reversible(w: Maps)
  {
    forall y: Block, m: Block, n: nat | n <= 16 ::
      w.out(y, w.out(y, m, n), n) == Truncate(m, n) && w.pho(y, w.out(y, w.out(y, m, n), n), n) == w.pho(y, m, n)
  }

  lemma CofbReversible(e: Cipher)
    ensures Reversible(Cofb(e))
  {
    forall y: Block, m: Block, n: nat | n <= 16
      ensures XorBlock(y, XorBlock(y, m, n), n) == Truncate(m, n)
      ensures Pho1(y, XorBlock(y, XorBlock(y, m, n), n), n) == Pho1(y, m, n)
    {
      UnmaskMasked(y, m, n);
      PaddingOfTruncated(m, n);
    }
  }

  lemma SameMsgStep(w: Maps, c: Chain, m: Block, left: nat)
    requires Reversible(w)
    ensures Output(w, c.y, Output(w, c.y, m, left), left) == Truncate(m, Bytes(left))
    ensures MsgStep(w, true, c, Output(w, c.y, m, left), left) == MsgStep(w, false, c, m, left)
  {
  }

  lemma {:induction false} SameMsgChain(w: Maps, d: Query, q: Query, k: nat)
    requires Reversible(w) && Decrypts(w, d, q) && k <= MsgBlocks(q.msgLen)
    ensures MsgChain(w, d, k) == MsgChain(w, q, k)
  {
    if k == 0 {
      SameAdChain(w, d, q, AdBlocks(q.adLen));
    } else {
      SameMsgChain(w, d, q, k - 1);
      SameMsgStep(w, MsgChain(w, q, k - 1), q.msg(k - 1), Left(q.msgLen, k - 1));
    }
  }

  /** Decryption returns every message block, cut to its valid bytes, and the
      same tag, for any number of blocks and any block cipher. */
  lemma DecryptionInverts(w: Maps, d: Query, q: Query)
    requires Reversible(w) && Decrypts(w, d, q)
    ensures forall k: nat | k < MsgBlocks(q.msgLen) :: Out(w, d, k) == Truncate(q.msg(k), Bytes(Left(q.msgLen, k)))
    ensures Tag(w, d) == Tag(w, q)
  {
    forall k: nat | k < MsgBlocks(q.msgLen)
      ensures Out(w, d, k) == Truncate(q.msg(k), Bytes(Left(q.msgLen, k)))
    {
      SameMsgChain(w, d, q, k);
      SameMsgStep(w, MsgChain(w, q, k), q.msg(k), Left(q.msgLen, k));
    }
    SameMsgChain(w, d, q, MsgBlocks(q.msgLen));
  }

  // ---- the masks in closed form -----------------------------------------------------------------

  function NonceMask(w: Maps, q: Query): Mask { w.e(q.nonce)[64..] }

  lemma LeftBeforeLast(len: nat, k: nat)
    ensures k + 1 < AdBlocks(len) <==> Left(len, k) > 16
    ensures k + 1 < MsgBlocks(len) <==> Left(len, k) > 16
  {
  }

  /** Before the last block of associated data the mask has only been doubled. */
  lemma {:induction false} AdMaskDoubled(w: Maps, q: Query, k: nat)
    requires k < AdBlocks(q.adLen)
    ensures AdChain(w, q, k).l == Iterate(w.double, NonceMask(w, q), k)
  {
    if k > 0 {
      AdMaskDoubled(w, q, k - 1);
      LeftBeforeLast(q.adLen, k - 1);
    }
  }

  /** The triplings at the last block of associated data, by the lengths of the
      query: one if it is full and two if not, and two more without a message. */
  function LastAdTriples(q: Query): nat
  {
    if q.adLen > 0 && q.adLen % 16 == 0 then if q.msgLen == 0 then 3 else 1
    else if q.msgLen == 0 then 4 else 2
  }

  /** Those at the last block of the message: one if it is full and two if not. */
  function LastMsgTriples(q: Query): nat { if q.msgLen % 16 == 0 then 1 else 2 }

  /** What is left at the last block is what the lengths say. */
  lemma LeftAtLast(q: Query)
    ensures AdTriples(Left(q.adLen, AdBlocks(q.adLen) - 1), q.msgLen == 0) == LastAdTriples(q)
    ensures q.msgLen > 0 ==> MsgTriples(Left(q.msgLen, MsgBlocks(q.msgLen) - 1)) == LastMsgTriples(q)
  {
    if q.adLen > 0 {
      LeftRemainder(q.adLen, AdBlocks(q.adLen) - 1);
    }
    if q.msgLen > 0 {
      LeftRemainder(q.msgLen, MsgBlocks(q.msgLen) - 1);
    }
  }

  lemma LeftRemainder(len: nat, k: nat)
    requires len > 16 * k
    ensures Left(len, k) > 0 && Left(len, k) % 16 == len % 16
  {
  }

  /** The mask in the power form 2^i 3^j times the half block of the nonce. */
  function Power(w: Maps, q: Query, doubles: nat, triples: nat): Mask
  {
    Iterate(w.triple, Iterate(w.double, NonceMask(w, q), doubles), triples)
  }

  lemma AdMaskFinal(w: Maps, q: Query)
    ensures AdChain(w, q, AdBlocks(q.adLen)).l == Power(w, q, AdBlocks(q.adLen) - 1, LastAdTriples(q))
  {
    var k := AdBlocks(q.adLen) - 1;
    AdMaskDoubled(w, q, k);
    LeftBeforeLast(q.adLen, k);
    LeftAtLast(q);
  }

  ghost predicate Commuting(w: Maps)
  {
    forall s: Mask :: w.double(w.triple(s)) == w.triple(w.double(s))
  }

  lemma CofbCommuting(e: Cipher)
    ensures Commuting(Cofb(e))
  {
    forall s: Mask
      ensures Double(Triple(s)) == Triple(Double(s))
    {
      DoubleTripleCommute(s);
    }
  }

  lemma DoublePower(w: Maps, q: Query, doubles: nat, triples: nat)
    requires Commuting(w)
    ensures w.double(Power(w, q, doubles, triples)) == Power(w, q, doubles + 1, triples)
  {
    IterateCommutes(w.triple, w.double, Iterate(w.double, NonceMask(w, q), doubles), triples);
  }

  lemma {:induction false} MsgMaskPower(w: Maps, q: Query, k: nat)
    requires Commuting(w) && k < MsgBlocks(q.msgLen)
    ensures MsgChain(w, q, k).l == Power(w, q, AdBlocks(q.adLen) - 1 + k, LastAdTriples(q))
  {
    if k == 0 {
      AdMaskFinal(w, q);
    } else {
      MsgMaskPower(w, q, k - 1);
      LeftBeforeLast(q.msgLen, k - 1);
      DoublePower(w, q, AdBlocks(q.adLen) - 1 + (k - 1), LastAdTriples(q));
    }
  }

  /** At the last message block the mask is tripled once more, or twice more. */
  lemma MsgMaskFinal(w: Maps, q: Query)
    requires Commuting(w) && q.msgLen > 0
    ensures var k := MsgBlocks(q.msgLen);
      MsgChain(w, q, k).l
        == Power(w, q, AdBlocks(q.adLen) - 1 + (k - 1), LastAdTriples(q) + LastMsgTriples(q))
  {
    var k := MsgBlocks(q.msgLen);
    LeftAtLast(q);
    MsgMaskPower(w, q, k - 1);
    LeftBeforeLast(q.msgLen, k - 1);
    MorePower(w, q, AdBlocks(q.adLen) - 1 + (k - 1), LastAdTriples(q), MsgTriples(Left(q.msgLen, k - 1)));
  }

  lemma MorePower(w: Maps, q: Query, d: nat, t: nat, u: nat)
    ensures Iterate(w.triple, Power(w, q, d, t), u) == Power(w, q, d, t + u)
  {
    IterateSplit(w.triple, Iterate(w.double, NonceMask(w, q), d), t, u);
  }

  // ---- the masks of full and padded blocks differ -----------------------------------------------

  lemma DoubleZero()
    ensures Double(Zeros(64)) == Zeros(64)
  {
    DoubleLinear(Zeros(64), Zeros(64));
    assert Xor(Zeros(64), Zeros(64)) == Zeros(64);
    assert Xor(Double(Zeros(64)), Double(Zeros(64))) == Zeros(64);
  }

  /** Only the zero mask is doubled to zero. */
  lemma ZeroDouble(x: Mask)
    requires Double(x) == Zeros(64)
    ensures x == Zeros(64)
  {
    DoubleZero();
    DoubleInjective(x, Zeros(64));
  }

  /** Terms of a sum that give the same cancel. */
  lemma Cancel(a: Mask, b: Mask)
    requires Xor(a, b) == a
    ensures b == Zeros(64)
  {
    forall i | 0 <= i < 64
      ensures !b[i]
    {
      assert Xor(a, b)[i] == a[i];
    }
  }

  /** 3x, 9x and 27x as sums: x + 2x, x + 4x and x + 2x + 4x + 8x. */
  lemma TriplesAsSums(x: Mask)
    ensures Triple(x) == Xor(x, Double(x))
    ensures Triple(Triple(x)) == Xor(x, Double(Double(x)))
    ensures Triple(Triple(Triple(x))) == Xor(x, Double(Xor(Xor(x, Double(x)), Double(Double(x)))))
  {
    NineTimes(x);
    var d, e := Double(x), Double(Double(x));
    DoubleLinear(x, e);
    DoubleLinear(Xor(x, d), e);
    DoubleLinear(x, d);
    forall i | 0 <= i < 64
      ensures Triple(Triple(Triple(x)))[i] == Xor(x, Double(Xor(Xor(x, d), e)))[i]
    {
      assert Triple(Xor(x, e))[i] == (Xor(x, e)[i] != Double(Xor(x, e))[i]);
    }
  }

  lemma NineTimes(x: Mask)
    ensures Triple(Triple(x)) == Xor(x, Double(Double(x)))
  {
    var d := Double(x);
    DoubleLinear(x, d);
    forall i | 0 <= i < 64
      ensures Triple(Triple(x))[i] == Xor(x, Double(d))[i]
    {
      assert Triple(Xor(x, d))[i] == (Xor(x, d)[i] != Double(Xor(x, d))[i]);
    }
  }

  /** Only the zero mask has x + 2x + 4x zero. */
  lemma SevenTimes(x: Mask)
    requires Xor(Xor(x, Double(x)), Double(Double(x))) == Zeros(64)
    ensures x == Zeros(64)
  {
    SevenHigh(x);
    for i := 0 to 4
      invariant forall j | 0 <= j < i :: !x[j]
    {
      SevenBit(x, i);
    }
  }

  lemma SevenHigh(x: Mask)
    requires Xor(Xor(x, Double(x)), Double(Double(x))) == Zeros(64)
    ensures forall j | 4 <= j < 64 :: !x[j]
  {
    SevenLow(x);
    for i := 6 to 64
      invariant forall j | 4 <= j < i :: !x[j]
    {
      SevenBit(x, i);
    }
  }

  lemma SevenLow(x: Mask)
    requires Xor(Xor(x, Double(x)), Double(Double(x))) == Zeros(64)
    ensures !x[4] && !x[5]
  {
    SevenBit(x, 0);
    SevenBit(x, 1);
    SevenBit(x, 2);
    SevenBit(x, 3);
    SevenBit(x, 4);
    SevenBit(x, 5);
  }

  /** The bits set in the reduction. */
  predicate Reduced(i: int) { i == 0 || i == 1 || i == 3 || i == 4 }

  lemma SevenBit(x: Mask, i: nat)
    requires Xor(Xor(x, Double(x)), Double(Double(x))) == Zeros(64) && i < 64
    ensures x[i] == ((((i >= 1 && x[i - 1]) != (i >= 2 && x[i - 2])) != (x[63] && Reduced(i) != Reduced(i - 1))) != (x[62] && Reduced(i)))
  {
    var d := Double(x);
    assert !Xor(Xor(x, d), Double(d))[i];
    DoubleBit(x, i);
    DoubleBit(d, i);
    DoubleBit(x, 63);
    if i >= 1 {
      DoubleBit(x, i - 1);
    }
  }

  /** 3x, 9x and 27x are x for no mask but zero. */
  lemma TripleMoves(x: Mask)
    requires Triple(x) == x
    ensures x == Zeros(64)
  {
    Cancel(x, Double(x));
    ZeroDouble(x);
  }

  lemma NineMoves(x: Mask)
    requires Triple(Triple(x)) == x
    ensures x == Zeros(64)
  {
    NineTimes(x);
    Cancel(x, Double(Double(x)));
    ZeroDouble(Double(x));
    ZeroDouble(x);
  }

  lemma TwentySevenMoves(x: Mask)
    requires Triple(Triple(Triple(x))) == x
    ensures x == Zeros(64)
  {
    TriplesAsSums(x);
    var s := Xor(Xor(x, Double(x)), Double(Double(x)));
    Cancel(x, Double(s));
    ZeroDouble(s);
    SevenTimes(x);
  }

  lemma TripleZero()
    ensures Triple(Zeros(64)) == Zeros(64)
  {
    DoubleZero();
  }

  lemma NotZero(x: Mask)
    requires x != Zeros(64)
    ensures Triple(x) != Zeros(64)
  {
    if Triple(x) == Zeros(64) {
      TripleZero();
      TripleInjective(x, Zeros(64));
    }
  }

  /** A mask that is not zero differs from its first three multiples. */
  lemma MultiplesMove(x: Mask, a: Mask, b: Mask, c: Mask)
    requires x != Zeros(64) && a == Triple(x) && b == Triple(a) && c == Triple(b)
    ensures a != x && b != x && c != x
  {
    if a == x {
      TripleMoves(x);
    } else if b == x {
      NineMoves(x);
    } else if c == x {
      TwentySevenMoves(x);
    }
  }

  /** The four masks that a last block of associated data can get, by whether it is
      full and whether a message follows, all differ; so do the two that a last
      block of a message can get. */
  lemma MasksDiffer(x: Mask, a: Mask, b: Mask, c: Mask, d: Mask)
    requires x != Zeros(64) && a == Triple(x) && b == Triple(a) && c == Triple(b) && d == Triple(c)
    ensures a != b && a != c && a != d && b != c && b != d && c != d
  {
    NotZero(x);
    NotZero(a);
    NotZero(b);
    MultiplesMove(a, b, c, d);
    MultiplesMove(b, c, d, Triple(d));
    MultiplesMove(c, d, Triple(d), Triple(Triple(d)));
  }

  // ---- the block maps bit by bit -------------------------------------------------------------------

  /** Byte `127 - i` over 8, counted from the top, holds bit `i`. */
  function ByteOf(i: nat): nat
    requires i < 128
  {
    (127 - i) / 8
  }

  /** Truncated addition. */
  lemma XorBlockBit(y: Block, m: Block, n: nat, i: nat)
    requires n <= 16 && i < 128
    ensures XorBlock(y, m, n)[i] == (ByteOf(i) < n && y[i] != m[i])
  {
  }

  /** Padding puts a one behind the last byte. */
  lemma PaddingBit(m: Block, n: nat, i: nat)
    requires n <= 16 && i < 128
    ensures Padding(m, n)[i] == if ByteOf(i) < n then m[i] else i == 127 - 8 * n
  {
  }

  /** The feedback swaps the halves and rotates the old top half up by one. */
  lemma FeedbackBit(y: Block, i: nat)
    requires i < 128
    ensures FeedbackG(y)[i] == if i >= 64 then y[i - 64] else if i == 0 then y[127] else y[63 + i]
  {
  }

  /** What goes into the cipher: feedback and padded block, and the mask on the top half. */
  lemma InputBit(y: Block, m: Block, l: Mask, n: nat, i: nat)
    requires n <= 16 && i < 128
    ensures XorTop(Pho1(y, m, n), l)[i]
         == ((FeedbackG(y)[i] != Padding(m, n)[i]) != (i >= 64 && l[i - 64]))
  {
    XorBlockBit(FeedbackG(y), Padding(m, n), 16, i);
    TopBit(Pho1(y, m, n), l, i);
  }

  lemma TopBit(b: Block, l: Mask, i: nat)
    requires i < 128
    ensures XorTop(b, l)[i] == (b[i] != (i >= 64 && l[i - 64]))
  {
  }

  /** Output bytes: each byte of the message is added to the chaining value's, and
      nothing is put out beyond the message. */
  lemma OutputBits(e: Cipher, q: Query, k: nat, i: nat)
    requires i < 128
    ensures var w := Cofb(e);
      Out(w, q, k)[i] == (16 * k + ByteOf(i) < q.msgLen && MsgChain(w, q, k).y[i] != q.msg(k)[i])
  {
    var w := Cofb(e);
    XorBlockBit(MsgChain(w, q, k).y, q.msg(k), Bytes(Left(q.msgLen, k)), i);
  }

  // ---- the mode with the circuit's maps ----------------------------------------------------------

  /** The masks of the mode are doubled by a shift with reduction, and tripled by
      adding the double. */
  lemma MaskMaps(e: Cipher, l: Mask, i: nat)
    requires i < 64
    ensures Cofb(e).double(l)[i] == ((i > 0 && l[i - 1]) != (l[63] && (i == 0 || i == 1 || i == 3 || i == 4)))
    ensures Cofb(e).triple(l)[i] == (l[i] != Cofb(e).double(l)[i])
  {
    DoubleBit(l, i);
  }

  /** The first call is on the nonce, and the first mask is the top half of its result. */
  lemma ChainStarts(e: Cipher, q: Query, i: nat)
    requires i < 64
    ensures AdChain(Cofb(e), q, 0).y == e(q.nonce) && AdChain(Cofb(e), q, 0).l[i] == e(q.nonce)[64 + i]
  {
  }

  /** The bytes of block `k` that lie within `len`. */
  function BytesIn(len: nat, k: nat): (n: nat)
    ensures n <= 16
  {
    if len >= 16 * k + 16 then 16 else if len >= 16 * k then len - 16 * k else 0
  }

  lemma BytesLeft(len: nat, k: nat)
    ensures Bytes(Left(len, k)) == BytesIn(len, k)
  {
  }

  /** Bit `i` of what the cipher is called on: a padded block, the feedback, and the mask on top. */
  predicate CalledOn(y: Block, m: Block, n: nat, l: Mask, i: nat)
    requires n <= 16 && i < 128
  {
    ((if i >= 64 then y[i - 64] else if i == 0 then y[127] else y[63 + i])
     != (if ByteOf(i) < n then m[i] else i == 127 - 8 * n)) != (i >= 64 && l[i - 64])
  }

  lemma InputIs(y: Block, m: Block, n: nat, l: Mask, i: nat)
    requires n <= 16 && i < 128
    ensures XorTop(Pho1(y, m, n), l)[i] == CalledOn(y, m, n, l, i)
  {
    InputBit(y, m, l, n, i);
    FeedbackBit(y, i);
    PaddingBit(m, n, i);
  }

  /** Each block of associated data makes one call of the cipher, under the new mask. */
  lemma AdCall(e: Cipher, q: Query, k: nat) returns (x: Block)
    ensures var c, d := AdChain(Cofb(e), q, k), AdChain(Cofb(e), q, k + 1);
      d.y == e(x) && forall i: nat | i < 128 :: x[i] == CalledOn(c.y, q.ad(k), BytesIn(q.adLen, k), d.l, i)
  {
    var c, d := AdChain(Cofb(e), q, k), AdChain(Cofb(e), q, k + 1);
    BytesLeft(q.adLen, k);
    x := XorTop(Pho1(c.y, q.ad(k), BytesIn(q.adLen, k)), d.l);
    forall i: nat | i < 128
      ensures x[i] == CalledOn(c.y, q.ad(k), BytesIn(q.adLen, k), d.l, i)
    {
      InputIs(c.y, q.ad(k), BytesIn(q.adLen, k), d.l, i);
    }
  }

  /** And so does each block of the message, with the plaintext in both directions:
      what comes in when encrypting, what goes out when decrypting. */
  lemma MsgCall(e: Cipher, q: Query, k: nat) returns (x: Block)
    ensures var c, d := MsgChain(Cofb(e), q, k), MsgChain(Cofb(e), q, k + 1);
      var plain := if q.decrypt then Out(Cofb(e), q, k) else q.msg(k);
      d.y == e(x) && forall i: nat | i < 128 :: x[i] == CalledOn(c.y, plain, BytesIn(q.msgLen, k), d.l, i)
  {
    var c, d := MsgChain(Cofb(e), q, k), MsgChain(Cofb(e), q, k + 1);
    var plain := if q.decrypt then Out(Cofb(e), q, k) else q.msg(k);
    BytesLeft(q.msgLen, k);
    x := XorTop(Pho1(c.y, plain, BytesIn(q.msgLen, k)), d.l);
    forall i: nat | i < 128
      ensures x[i] == CalledOn(c.y, plain, BytesIn(q.msgLen, k), d.l, i)
    {
      InputIs(c.y, plain, BytesIn(q.msgLen, k), d.l, i);
    }
  }
}
