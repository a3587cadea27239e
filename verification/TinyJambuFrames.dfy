/** Where frames, lengths, nonce and data words land in the 128 bits of the
    TinyJAMBU state, in the mode and in the core alike, and the byte order at the
    ports. */
module TinyJambuFrames {
  import opened Bits
  import opened TinyJambuNlfsr
  import opened TinyJambuMode
  import opened TinyJambuDatapath
  import opened TinyJambuCore

  /** The block with the bits at these positions inverted. */
  function Flipped(b: Block, at: set<nat>): (r: Block)
    ensures forall i: nat | i < 128 :: r[i] == (b[i] != (i in at))
  {
    seq(128, i requires 0 <= i < 128 => b[i] != (i in at))
  }

  /** Word 1 of the state holds bits 32 to 63, word 3 bits 96 to 127. */
  lemma FlatBits(s: State, x: Word, i: nat)
    requires i < 128
    ensures AddW1(s, x).Flat()[i] == (s.Flat()[i] != (32 <= i < 64 && x[i - 32]))
    ensures AddW3(s, x).Flat()[i] == (s.Flat()[i] != (i >= 96 && x[i - 96]))
  {
  }

  /** Adding to word 1 a word with exactly the bits `at` inverts exactly those, 32 further up. */
  lemma AddsBits(s: State, x: Word, at: set<nat>)
    requires forall j: nat | j < 32 :: x[j] <==> j + 32 in at
    requires forall j: nat | j in at :: 32 <= j < 64
    ensures AddW1(s, x).Flat() == Flipped(s.Flat(), at)
  {
    forall i: nat | i < 128
      ensures AddW1(s, x).Flat()[i] == Flipped(s.Flat(), at)[i]
    {
      FlatBits(s, x, i);
      assert 32 <= i < 64 ==> (x[i - 32] <==> (i - 32) + 32 in at);
    }
  }

  // ---- frames and lengths --------------------------------------------------------------

  lemma NonceFrame36(s: State)
    ensures AddW1(s, Number(FRAME_NONCE, 32)).Flat() == Flipped(s.Flat(), {36})
  {
    NumberAsBits(FRAME_NONCE);
    AddsBits(s, Number(FRAME_NONCE, 32), {36});
  }

  lemma AdFrame3637(s: State)
    ensures AddW1(s, Number(FRAME_AD, 32)).Flat() == Flipped(s.Flat(), {36, 37})
  {
    NumberAsBits(FRAME_AD);
    AddsBits(s, Number(FRAME_AD, 32), {36, 37});
  }

  lemma MessageFrame3638(s: State)
    ensures AddW1(s, Number(FRAME_MESSAGE, 32)).Flat() == Flipped(s.Flat(), {36, 38})
  {
    NumberAsBits(FRAME_MESSAGE);
    AddsBits(s, Number(FRAME_MESSAGE, 32), {36, 38});
  }

  lemma FinalFrame363738(s: State)
    ensures AddW1(s, Number(FRAME_FINAL, 32)).Flat() == Flipped(s.Flat(), {36, 37, 38})
  {
    NumberAsBits(FRAME_FINAL);
    AddsBits(s, Number(FRAME_FINAL, 32), {36, 37, 38});
  }

  /** An incomplete chunk of one, two or three bytes inverts bit 32, bit 33 or both;
      a complete one inverts nothing. */
  lemma LengthBits(s: State, chunk: Bits)
    requires |chunk| == 8 || |chunk| == 16 || |chunk| == 24 || |chunk| == 32
    ensures AddLength(s, chunk).Flat()
         == Flipped(s.Flat(), if |chunk| == 8 then {32} else if |chunk| == 16 then {33} else if |chunk| == 24 then {32, 33} else {})
  {
    if |chunk| == 8 {
      LengthAdds(s, 1, {32});
    } else if |chunk| == 16 {
      LengthAdds(s, 2, {33});
    } else if |chunk| == 24 {
      LengthAdds(s, 3, {32, 33});
    }
  }

  lemma LengthAdds(s: State, n: nat, at: set<nat>)
    requires n < 4 && at == (if n == 0 then {} else if n == 1 then {32} else if n == 2 then {33} else {32, 33})
    ensures AddW1(s, Number(n, 32)).Flat() == Flipped(s.Flat(), at)
  {
    NumberAsBits(n);
    AddsBits(s, Number(n, 32), at);
  }

  /** The bits of a number below 128. */
  lemma NumberAsBits(x: nat)
    requires x < 128
    ensures Number(x, 32) == [x % 2 == 1, x / 2 % 2 == 1, x / 4 % 2 == 1, x / 8 % 2 == 1, x / 16 % 2 == 1, x / 32 % 2 == 1, x / 64 % 2 == 1] + Zeros(25)
  {
    FourBits(x, 32);
    var y := x / 16;
    NumberStep(y, 28);
    NumberStep(y / 2, 27);
    NumberStep(y / 4, 26);
    NumberZero(25);
    Eighth(y);
    Sixteenth(x);
  }

  lemma FourBits(x: nat, n: nat)
    requires n >= 4
    ensures Number(x, n) == [x % 2 == 1, x / 2 % 2 == 1, x / 4 % 2 == 1, x / 8 % 2 == 1] + Number(x / 16, n - 4)
  {
    NumberStep(x, n);
    NumberStep(x / 2, n - 1);
    NumberStep(x / 4, n - 2);
    NumberStep(x / 8, n - 3);
    Quarters(x);
  }

  lemma Quarters(x: nat)
    ensures x / 2 / 2 == x / 4 && x / 4 / 2 == x / 8 && x / 8 / 2 == x / 16
  {
  }

  lemma Eighth(y: nat)
    requires y < 8
    ensures y / 2 / 2 == y / 4 && y / 4 / 2 == 0
  {
  }

  lemma Sixteenth(x: nat)
    ensures x / 16 / 2 == x / 32 && x / 16 / 4 == x / 64
  {
  }

  // ---- the mode and the core in these terms ----------------------------------------------

  /** The state with the bits at these positions inverted. */
  function Inverted(s: State, at: set<nat>): State { FromFlat(Flipped(s.Flat(), at)) }

  lemma IsInverted(s: State, x: Word, at: set<nat>)
    requires AddW1(s, x).Flat() == Flipped(s.Flat(), at)
    ensures AddW1(s, x) == Inverted(s, at)
  {
    FlatRoundTrip(AddW1(s, x));
  }

  /** The four steps of the mode that add a frame, with their rounds in words of 32. */
  lemma ModeFrames(s: State, p: TinyJambuMode.Perm, word: Word)
    ensures AddNonce(s, p, word) == AddW3(p(Inverted(s, {36}), 20), word)
    ensures Framed(s, p, FRAME_AD, 20) == p(Inverted(s, {36, 37}), 20)
    ensures MessageState(s, p) == p(Inverted(s, {36, 38}), 32)
  {
    NonceFrame36(s);
    IsInverted(s, Number(FRAME_NONCE, 32), {36});
    AdFrame3637(s);
    IsInverted(s, Number(FRAME_AD, 32), {36, 37});
    MessageFrame3638(s);
    IsInverted(s, Number(FRAME_MESSAGE, 32), {36, 38});
  }

  lemma ModeFinish(s: State, p: TinyJambuMode.Perm)
    ensures var a := p(Inverted(s, {36, 37, 38}), 32);
      Finish(s, p) == a.w2 + p(Inverted(a, {36, 37, 38}), 20).w2
  {
    FinalFrame363738(s);
    IsInverted(s, Number(FRAME_FINAL, 32), {36, 37, 38});
    var a := p(Inverted(s, {36, 37, 38}), 32);
    FinalFrame363738(a);
    IsInverted(a, Number(FRAME_FINAL, 32), {36, 37, 38});
  }

  /** A chunk of associated data: frame, 640 rounds, the chunk in bits 96 on, and its length. */
  lemma ModeAbsorbs(s: State, p: TinyJambuMode.Perm, chunk: Bits)
    requires |chunk| == 8 || |chunk| == 16 || |chunk| == 24 || |chunk| == 32
    ensures var a := AddW3(p(Inverted(s, {36, 37}), 20), Pad(chunk, 32));
      AbsorbChunk(s, p, chunk).Flat()
        == Flipped(a.Flat(), if |chunk| == 8 then {32} else if |chunk| == 16 then {33} else if |chunk| == 24 then {32, 33} else {})
  {
    ModeFrames(s, p, Zeros(32));
    LengthBits(AddW3(p(Inverted(s, {36, 37}), 20), Pad(chunk, 32)), chunk);
  }

  /** The positions inverted for the length of a chunk. */
  function LengthAt(bits: nat): set<nat>
  {
    if bits == 8 then {32} else if bits == 16 then {33} else if bits == 24 then {32, 33} else {}
  }

  /** Up to 32 bits of a stream. */
  function Front(m: Bits): (n: nat)
    ensures n <= 32 && n <= |m|
  {
    if |m| < 32 then |m| else 32
  }

  lemma WholeBytes(n: nat)
    requires n % 8 == 0 && 0 < n <= 32
    ensures n == 8 || n == 16 || n == 24 || n == 32
  {
  }

  /** What a chunk of plaintext makes of the state `a` after frame and 1024 rounds:
      the chunk goes to bits 96 on, its length to bits 32 and 33. */
  lemma MessageAdds(s: State, p: TinyJambuMode.Perm, plain: Bits)
    requires |plain| % 8 == 0 && 0 < |plain| <= 32
    ensures MessageChunk(s, p, plain).Flat()
         == Flipped(AddW3(p(Inverted(s, {36, 38}), 32), Pad(plain, 32)).Flat(), LengthAt(|plain|))
  {
    ModeFrames(s, p, Zeros(32));
    WholeBytes(|plain|);
    LengthBits(AddW3(p(Inverted(s, {36, 38}), 32), Pad(plain, 32)), plain);
  }

  /** Up to 32 bits are added to bits 64 on of that state, and the state takes up the
      plaintext: what comes in when encrypting. */
  lemma ModeEncrypts(s: State, p: TinyJambuMode.Perm, m: Bits)
    requires |m| % 8 == 0 && |m| > 0
    ensures var n, r := Front(m), Encrypt(s, p, m); var a, next := p(Inverted(s, {36, 38}), 32), MessageChunk(s, p, m[..n]);
      && (forall i: nat | i < n :: r.text[i] == (m[i] != a.Flat()[64 + i]))
      && next.Flat() == Flipped(AddW3(a, Pad(m[..n], 32)).Flat(), LengthAt(n))
      && r.text[n..] == Encrypt(next, p, m[n..]).text && r.state == Encrypt(next, p, m[n..]).state
  {
    var n := Front(m);
    assert Chunk(m) == m[..n];
    MaskBits(s, p, m[..n]);
    MessageAdds(s, p, m[..n]);
  }

  /** When decrypting, it is what goes out. */
  lemma ModeDecrypts(s: State, p: TinyJambuMode.Perm, c: Bits)
    requires |c| % 8 == 0 && |c| > 0
    ensures var n, r := Front(c), Decrypt(s, p, c); var a, next := p(Inverted(s, {36, 38}), 32), MessageChunk(s, p, r.text[..n]);
      && (forall i: nat | i < n :: r.text[i] == (c[i] != a.Flat()[64 + i]))
      && next.Flat() == Flipped(AddW3(a, Pad(r.text[..n], 32)).Flat(), LengthAt(n))
      && r.text[n..] == Decrypt(next, p, c[n..]).text && r.state == Decrypt(next, p, c[n..]).state
  {
    var n := Front(c);
    assert Chunk(c) == c[..n];
    var plain := Mask(s, p, c[..n]);
    MaskBits(s, p, c[..n]);
    MessageAdds(s, p, plain);
    assert Decrypt(s, p, c).text[..n] == plain;
  }

  lemma MaskBits(s: State, p: TinyJambuMode.Perm, chunk: Bits)
    requires |chunk| <= 32
    ensures forall i: nat | i < |chunk| :: Mask(s, p, chunk)[i] == (chunk[i] != p(Inverted(s, {36, 38}), 32).Flat()[64 + i])
  {
    ModeFrames(s, p, Zeros(32));
    var a := p(Inverted(s, {36, 38}), 32);
    assert a.Flat()[64..96] == a.w2;
  }

  /** The start: 1024 rounds of the zero state, three nonce words, then the associated data. */
  lemma ModeStarts(p: TinyJambuMode.Perm, nonce: Bits, ad: Bits) returns (s0: State, s1: State, s2: State, s3: State)
    requires |nonce| == 96
    ensures s0 == p(FromFlat(Zeros(128)), 32)
    ensures s1 == AddW3(p(Inverted(s0, {36}), 20), nonce[..32])
    ensures s2 == AddW3(p(Inverted(s1, {36}), 20), nonce[32..64])
    ensures s3 == AddW3(p(Inverted(s2, {36}), 20), nonce[64..])
    ensures Start(p, nonce, ad) == Absorb(s3, p, ad)
  {
    assert FromFlat(Zeros(128)) == Cleared();
    s0 := p(Cleared(), 32);
    s1 := AddNonce(s0, p, nonce[..32]);
    s2 := AddNonce(s1, p, nonce[32..64]);
    s3 := AddNonce(s2, p, nonce[64..]);
    ModeFrames(s0, p, nonce[..32]);
    ModeFrames(s1, p, nonce[32..64]);
    ModeFrames(s2, p, nonce[64..]);
  }

  /** In the core the clocks of the frame phases, and the first of the two final
      ones, invert the same bits. */
  lemma CoreFrames(step: Step, i: In, c: Regs)
    ensures c.fsm.phase == NonceFrame ==> Next(step, c, i).w == Inverted(c.w, {36})
    ensures c.fsm.phase == AdFrame ==> Next(step, c, i).w == Inverted(c.w, {36, 37})
    ensures c.fsm.phase == MsgFrame ==> Next(step, c, i).w == Inverted(c.w, {36, 38})
    ensures c.fsm.phase == Fin1 ==> Next(step, c, i).w == Inverted(c.w, {36, 37, 38})
  {
    match c.fsm.phase
    case NonceFrame =>
      NonceFrame36(c.w);
      IsInverted(c.w, Number(FRAME_NONCE, 32), {36});
    case AdFrame =>
      AdFrame3637(c.w);
      IsInverted(c.w, Number(FRAME_AD, 32), {36, 37});
    case MsgFrame =>
      MessageFrame3638(c.w);
      IsInverted(c.w, Number(FRAME_MESSAGE, 32), {36, 38});
    case Fin1 =>
      FinalFrame363738(c.w);
      IsInverted(c.w, Number(FRAME_FINAL, 32), {36, 37, 38});
    case _ =>
  }

  // ---- bytes at the ports -------------------------------------------------------------------

  /** Byte `j` goes to the place of byte `n - 1 - j`, with its bits in order. */
  lemma {:induction false} SwapBytesBit(n: nat, x: Bits, j: nat, b: nat)
    requires |x| == 8 * n && j < n && b < 8
    ensures SwapBytes(n, x)[8 * j + b] == x[8 * (n - 1 - j) + b]
  {
    if j < n - 1 {
      SwapBytesBit(n - 1, x[8..], j, b);
    }
  }

  /** Streams enter with the top valid byte of the port first. */
  lemma StreamBit(x: Block, len: nat, j: nat, b: nat)
    requires len <= 16 && j < len && b < 8
    ensures Stream(x, len)[8 * j + b] == x[8 * (len - 1 - j) + b]
  {
    SwapBytesBit(len, x[..8 * len], j, b);
  }

  /** The permutation of the port's key: serial rounds, whose key bits are those of
      the port from the top byte down, each from its lowest bit up, over and over. */
  lemma KeyedRounds(i: In, s: State, n: nat) returns (ks: Bits)
    ensures Keyed(i)(s, n).Flat() == Rounds(s.Flat(), ks) && |ks| == 32 * n
    ensures forall m: nat | m < 32 * n :: ks[m] == i.key[8 * (15 - m % 128 / 8) + m % 8]
  {
    ks := KeyBits(SwapBytes(16, i.key), 0, 32 * n);
    forall m: nat | m < 32 * n
      ensures ks[m] == i.key[8 * (15 - m % 128 / 8) + m % 8]
    {
      KeyBit(i.key, m);
    }
    assert FromFlat(Rounds(s.Flat(), ks)).Flat() == Rounds(s.Flat(), ks);
  }

  lemma KeyBit(key: Block, m: nat)
    ensures SwapBytes(16, key)[m % 128] == key[8 * (15 - m % 128 / 8) + m % 8]
  {
    SwapBytesBit(16, key, m % 128 / 8, m % 8);
    assert 8 * (m % 128 / 8) + m % 8 == m % 128;
  }

  /** What is delivered has the text's first byte on top of the valid bytes, nothing
      above, and the tag's first byte on top; the tag is checked in decryption only,
      which is mode 2. */
  lemma DeliveredBits(d: Datapath, i: In, r: Sealed, j: nat, b: nat)
    requires Delivers(d, i, r) && b < 8
    ensures j < 16 ==> d.dataOut[8 * j + b] == (j < i.dataLen && r.text[8 * (i.dataLen - 1 - j) + b])
    ensures j < 8 ==> d.tag[8 * j + b] == r.tag[8 * (7 - j) + b]
    ensures d.valid == (i.mode != 2 || d.tag == i.tagIn)
  {
    StreamOfAligned(r.text, i.dataLen);
    if j < i.dataLen {
      SwapBytesBit(i.dataLen, r.text, j, b);
    }
    if j < 8 {
      SwapBytesBit(8, r.tag, j, b);
    }
  }

  /** Encryption is mode 1: the operation seals, and opens in every other mode; the
      key, the nonce and both streams enter top byte first. */
  lemma ExpectedOf(i: In, p: TinyJambuMode.Perm)
    ensures var nonce, ad, m := SwapBytes(12, i.nonce), Stream(i.ad, i.adLen), Stream(i.dataIn, i.dataLen);
      Expected(i, p) == if i.mode == 1 then Seal(p, nonce, ad, m) else Open(p, nonce, ad, m)
  {
  }
}
