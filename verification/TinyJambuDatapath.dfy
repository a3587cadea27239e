/** The TinyJAMBU datapath: byte swaps, the one barrel shifter used in three
    phases, word selection and output collection. */
module TinyJambuDatapath {
  import opened Bits
  import opened TinyJambuMode

  /** Reverses the order of the `n` bytes of a word. */
  function SwapBytes(n: nat, x: Bits): (r: Bits)
    requires |x| == 8 * n
    ensures |r| == |x|
  {
    if n == 0 then [] else SwapBytes(n - 1, x[8..]) + x[..8]
  }

  lemma {:induction false} SwapParts(m: nat, a: Bits, n: nat, b: Bits)
    requires |a| == 8 * m && |b| == 8 * n
    ensures SwapBytes(m + n, a + b) == SwapBytes(n, b) + SwapBytes(m, a)
  {
    if m == 0 {
      assert a + b == b;
    } else {
      SwapParts(m - 1, a[8..], n, b);
      assert (a + b)[8..] == a[8..] + b && (a + b)[..8] == a[..8];
    }
  }

  lemma {:induction false} SwapTwice(n: nat, x: Bits)
    requires |x| == 8 * n
    ensures SwapBytes(n, SwapBytes(n, x)) == x
  {
    if n > 0 {
      SwapTwice(n - 1, x[8..]);
      SwapParts(n - 1, SwapBytes(n - 1, x[8..]), 1, x[..8]);
      OneByte(x[..8]);
    }
  }

  lemma OneByte(x: Bits)
    requires |x| == 8
    ensures SwapBytes(1, x) == x
  {
    assert SwapBytes(0, x[8..]) == [];
  }

  /** The low `len` bytes of a block, most significant byte first. */
  function Stream(x: Block, len: nat): (r: Bits)
    requires len <= 16
    ensures |r| == 8 * len
  {
    SwapBytes(len, x[..8 * len])
  }

  /** The shared barrel shifter: swap the bytes, then shift the unused ones out. */
  function SwapAndAlign(x: Block, len: nat): Block
    requires len <= 16
  {
    Shr(SwapBytes(16, x), 8 * (16 - len))
  }

  /** No bit set above the low `len` bytes. */
  ghost predicate Fits(x: Block, len: nat)
    requires len <= 16
  {
    x == Pad(x[..8 * len], 128)
  }

  /** What the shifter delivers: the stream of valid bytes from bit 0 up. */
  lemma AlignIsStream(x: Block, len: nat)
    requires len <= 16
    ensures SwapAndAlign(x, len) == Pad(Stream(x, len), 128)
  {
    SwapParts(len, x[..8 * len], 16 - len, x[8 * len..]);
    assert x == x[..8 * len] + x[8 * len..];
  }

  /** The value delivered for a stream has that stream, and nothing above it. */
  lemma StreamOfAligned(s: Bits, len: nat)
    requires len <= 16 && |s| == 8 * len
    ensures SwapAndAlign(Pad(s, 128), len) == Pad(SwapBytes(len, s), 128)
    ensures Stream(SwapAndAlign(Pad(s, 128), len), len) == s && Fits(SwapAndAlign(Pad(s, 128), len), len)
  {
    AlignIsStream(Pad(s, 128), len);
    assert Pad(s, 128)[..8 * len] == s;
    assert Pad(SwapBytes(len, s), 128)[..8 * len] == SwapBytes(len, s);
    SwapTwice(len, s);
  }

  /** At a fixed length, swapping and aligning twice is the identity on values
      that fit the length. */
  lemma AlignTwice(x: Block, len: nat)
    requires len <= 16 && Fits(x, len)
    ensures SwapAndAlign(SwapAndAlign(x, len), len) == x
  {
    AlignIsStream(x, len);
    StreamOfAligned(Stream(x, len), len);
    SwapTwice(len, x[..8 * len]);
  }

  function GetWord(x: Block, index: nat): Word
    requires index < 4
  {
    x[32 * index..32 * index + 32]
  }

  function SetWord(x: Block, index: nat, w: Word): Block
    requires index < 4
  {
    x[..32 * index] + w + x[32 * index + 32..]
  }

  function NonceWord(x: Bits, index: nat): Word
    requires |x| == 96
  {
    if index % 4 < 3 then x[32 * (index % 4)..32 * (index % 4) + 32] else Zeros(32)
  }

  /** Ones over the valid bytes of a word: all four when the remainder is zero. */
  function ByteMask(len: nat): (r: Word)
    ensures forall k | 0 <= k < 32 :: r[k] == (len % 4 == 0 || k < 8 * (len % 4))
  {
    seq(32, k requires 0 <= k < 32 => len % 4 == 0 || k < 8 * (len % 4))
  }

  function CountWords(len: nat): nat
  {
    if len == 0 then 0 else len / 4 + (if len % 4 != 0 then 1 else 0)
  }

  // ---- words of a padded stream --------------------------------------------------

  /** A word of a padded stream is the padded chunk of the stream. */
  lemma WordOfStream(s: Bits, k: nat)
    requires |s| <= 128 && k < 4 && 32 * k <= |s|
    ensures GetWord(Pad(s, 128), k) == Pad(Chunk(s[32 * k..]), 32)
  {
  }

  /** The length of the chunk that word `k` holds, and whether it is the last. */
  lemma ChunkLength(s: Bits, len: nat, k: nat)
    requires |s| == 8 * len && k < CountWords(len)
    ensures 32 * k < |s|
    ensures var c := Chunk(s[32 * k..]);
      && (k == CountWords(len) - 1 <==> |s| <= 32 * k + 32)
      && |c| == (if k == CountWords(len) - 1 && len % 4 != 0 then 8 * (len % 4) else 32)
      && (k == CountWords(len) - 1 ==> s[32 * k..][|c|..] == [])
      && (k < CountWords(len) - 1 ==> s[32 * k..][|c|..] == s[32 * (k + 1)..])
  {
  }

  lemma MaskPadded(c: Bits, len: nat)
    requires |c| == (if len % 4 != 0 then 8 * (len % 4) else 32)
    ensures And(Pad(c, 32), ByteMask(len)) == Pad(c, 32)
  {
  }

  /** Masking the sum of two words leaves the sum of their valid parts. */
  lemma MaskSum(w: Word, c: Bits, len: nat)
    requires |c| == (if len % 4 != 0 then 8 * (len % 4) else 32)
    ensures And(Xor(w, Pad(c, 32)), ByteMask(len)) == Pad(Xor(c, w[..|c|]), 32)
  {
  }

  lemma FullSum(w: Word, c: Bits)
    requires |c| == 32
    ensures Xor(w, Pad(c, 32)) == Pad(Xor(c, w[..|c|]), 32)
  {
  }

  /** Storing the word that continues a padded stream. */
  lemma SetStreamWord(s: Bits, k: nat, c: Bits)
    requires k < 4 && |s| == 32 * k && |c| <= 32
    ensures SetWord(Pad(s, 128), k, Pad(c, 32)) == Pad(s + c, 128)
  {
  }

  // ---- registers --------------------------------------------------------------

  /** The lengths, in bytes, that the interface documents. */
  type Length = n: nat | n <= 16

  type Index = n: nat | n < 4

  datatype In = In(ena: bool, mode: nat, key: Block, nonce: Nonce, ad: Block, adLen: Length, dataIn: Block, dataLen: Length, tagIn: Tag)

  datatype Datapath = Datapath(keyR: Block, nonceR: Nonce, adR: Block, dataR: Block, tagInR: Tag, adLen: Length, dataLen: Length,
    mode: nat, adWords: nat, dataWords: nat, dataOut: Block, tag: Tag, valid: bool)

  type Nonce = b: Bits | |b| == 96 witness seq(96, _ => false)

  type Tag = b: Bits | |b| == 64 witness seq(64, _ => false)

  datatype Control = Control(latch: bool, latchAd: bool, latchDat: bool, outWr: bool, outIdx: Index, outWord: Word,
    finalize: bool, tagLo: Word, tagHi: Word)

  const MODE_DECRYPT: nat := 2

  /** One clock edge of the datapath. Each clock asserts at most one control. */
  function NextDatapath(d: Datapath, i: In, k: Control): Datapath
  {
    if k.latch then
      d.(keyR := SwapBytes(16, i.key), nonceR := SwapBytes(12, i.nonce), tagInR := SwapBytes(8, i.tagIn),
         adLen := i.adLen, dataLen := i.dataLen, mode := i.mode,
         adWords := CountWords(i.adLen), dataWords := CountWords(i.dataLen),
         dataOut := Zeros(128), tag := Zeros(64), valid := false)
    else if k.latchAd then d.(adR := SwapAndAlign(i.ad, i.adLen))
    else if k.latchDat then d.(dataR := SwapAndAlign(i.dataIn, i.dataLen))
    else if k.outWr then d.(dataOut := SetWord(d.dataOut, k.outIdx, k.outWord))
    else if k.finalize then
      d.(dataOut := SwapAndAlign(d.dataOut, d.dataLen),
         tag := SwapBytes(8, k.tagLo + k.tagHi),
         valid := d.mode != MODE_DECRYPT || k.tagLo + k.tagHi == d.tagInR)
    else d
  }
}
