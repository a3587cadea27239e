/** TinyJAMBU-128 as a function of bit strings: associated data and messages
    of any length, bits in stream order. */
module TinyJambuMode {
  import opened Bits
  import opened TinyJambuNlfsr

  const FRAME_NONCE: nat := 0x10
  const FRAME_AD: nat := 0x30
  const FRAME_MESSAGE: nat := 0x50
  const FRAME_FINAL: nat := 0x70

  function FromFlat(b: Block): State { State(b[..32], b[32..64], b[64..96], b[96..]) }

  lemma FlatRoundTrip(s: State)
    ensures FromFlat(s.Flat()) == s
  {
    var b := s.Flat();
    assert b[..32] == s.w0 && b[32..64] == s.w1 && b[64..96] == s.w2 && b[96..] == s.w3;
  }

  /** The permutation of 32·`words` rounds, starting at key bit 0. */
  function Permute(s: State, key: Block, words: nat): State
  {
    FromFlat(Rounds(s.Flat(), KeyBits(key, 0, 32 * words)))
  }

  function AddW1(s: State, x: Word): State { s.(w1 := Xor(s.w1, x)) }

  function AddW3(s: State, x: Word): State { s.(w3 := Xor(s.w3, x)) }

  /** A permutation family: 32·`n` rounds of it on a state. The mode is defined
      over any such family. */
  type Perm = (State, nat) -> State

  /** The family of one key. */
  function KeyedPerm(key: Block): Perm
  {
    (s: State, words: nat) => Permute(s, key, words)
  }

  function Framed(s: State, p: Perm, frame: nat, words: nat): State
  {
    p(AddW1(s, Number(frame, 32)), words)
  }

  /** The next chunk: 32 bits, or what is left. */
  function Chunk(b: Bits): (r: Bits)
    ensures |r| <= 32 && |r| <= |b| && (b != [] ==> r != [])
  {
    if |b| <= 32 then b else b[..32]
  }

  /** An incomplete chunk also adds its number of bytes. */
  function AddLength(s: State, chunk: Bits): State
  {
    if |chunk| % 32 == 0 then s else AddW1(s, Number(|chunk| / 8, 32))
  }

  function AbsorbChunk(s: State, p: Perm, chunk: Bits): State
    requires |chunk| <= 32
  {
    AddLength(AddW3(Framed(s, p, FRAME_AD, 20), Pad(chunk, 32)), chunk)
  }

  function Absorb(s: State, p: Perm, ad: Bits): State
    decreases |ad|
  {
    if ad == [] then s
    else Absorb(AbsorbChunk(s, p, Chunk(ad)), p, ad[|Chunk(ad)|..])
  }

  function MessageState(s: State, p: Perm): State { Framed(s, p, FRAME_MESSAGE, 32) }

  /** Mask or unmask a chunk with the key stream. */
  function Mask(s: State, p: Perm, chunk: Bits): (r: Bits)
    requires |chunk| <= 32
    ensures |r| == |chunk|
  {
    Xor(chunk, MessageState(s, p).w2[..|chunk|])
  }

  function MessageChunk(s: State, p: Perm, plain: Bits): State
    requires |plain| <= 32
  {
    AddLength(AddW3(MessageState(s, p), Pad(plain, 32)), plain)
  }

  datatype Crypted = Crypted(state: State, text: Bits)

  function Encrypt(s: State, p: Perm, m: Bits): (r: Crypted)
    ensures |r.text| == |m|
    decreases |m|
  {
    if m == [] then Crypted(s, [])
    else
      var chunk := Chunk(m);
      var rest := Encrypt(MessageChunk(s, p, chunk), p, m[|chunk|..]);
      Crypted(rest.state, Mask(s, p, chunk) + rest.text)
  }

  function Decrypt(s: State, p: Perm, c: Bits): (r: Crypted)
    ensures |r.text| == |c|
    decreases |c|
  {
    if c == [] then Crypted(s, [])
    else
      var plain := Mask(s, p, Chunk(c));
      var rest := Decrypt(MessageChunk(s, p, plain), p, c[|plain|..]);
      Crypted(rest.state, plain + rest.text)
  }

  function Finish(s: State, p: Perm): (tag: Bits)
    ensures |tag| == 64
  {
    var s1 := Framed(s, p, FRAME_FINAL, 32);
    s1.w2 + Framed(s1, p, FRAME_FINAL, 20).w2
  }

  function AddNonce(s: State, p: Perm, word: Word): State
  {
    AddW3(Framed(s, p, FRAME_NONCE, 20), word)
  }

  function Start(p: Perm, nonce: Bits, ad: Bits): State
    requires |nonce| == 96
  {
    var s := p(Cleared(), 32);
    Absorb(AddNonce(AddNonce(AddNonce(s, p, nonce[..32]), p, nonce[32..64]), p, nonce[64..]), p, ad)
  }

  datatype Sealed = Sealed(text: Bits, tag: Bits)

  function Seal(p: Perm, nonce: Bits, ad: Bits, m: Bits): Sealed
    requires |nonce| == 96
  {
    var r := Encrypt(Start(p, nonce, ad), p, m);
    Sealed(r.text, Finish(r.state, p))
  }

  /** The text recovered, and the tag that the text should have carried. */
  function Open(p: Perm, nonce: Bits, ad: Bits, c: Bits): Sealed
    requires |nonce| == 96
  {
    var r := Decrypt(Start(p, nonce, ad), p, c);
    Sealed(r.text, Finish(r.state, p))
  }

  lemma {:induction false} DecryptEncrypt(s: State, p: Perm, m: Bits)
    ensures Decrypt(s, p, Encrypt(s, p, m).text) == Crypted(Encrypt(s, p, m).state, m)
    decreases |m|
  {
    if m != [] {
      var chunk := Chunk(m);
      var masked := Mask(s, p, chunk);
      var c := Encrypt(s, p, m).text;
      assert Chunk(c) == masked && c[|masked|..] == Encrypt(MessageChunk(s, p, chunk), p, m[|chunk|..]).text;
      assert Mask(s, p, masked) == chunk;
      DecryptEncrypt(MessageChunk(s, p, chunk), p, m[|chunk|..]);
      assert m == chunk + m[|chunk|..];
    }
  }

  /** Opening what was sealed under the same permutation, nonce and associated data
      returns the message and the same tag, for every length. */
  lemma OpenSeal(p: Perm, nonce: Bits, ad: Bits, m: Bits)
    requires |nonce| == 96
    ensures var sealed := Seal(p, nonce, ad, m);
      Open(p, nonce, ad, sealed.text) == Sealed(m, sealed.tag)
  {
    DecryptEncrypt(Start(p, nonce, ad), p, m);
  }

  // ---- the permutation in words ---------------------------------------------------

  function KeyWord(key: Block, j: nat): Word
  {
    key[32 * (j % 4)..32 * (j % 4) + 32]
  }

  function WordSteps(step: (State, Word) -> State, s: State, key: Block, n: nat): State
  {
    if n == 0 then s else step(WordSteps(step, s, key, n - 1), KeyWord(key, n - 1))
  }

  lemma KeyIndex(j: nat, i: nat)
    requires i < 32
    ensures (32 * j + i) % 128 == 32 * (j % 4) + i
  {
  }

  lemma KeyBitsOfWord(key: Block, j: nat)
    ensures KeyBits(key, 0, 32 * (j + 1)) == KeyBits(key, 0, 32 * j) + KeyWord(key, j)
  {
    var n := 32 * j;
    var word, bits := KeyWord(key, j), KeyBits(key, 0, n + 32);
    forall i | 0 <= i < 32
      ensures bits[n + i] == word[i]
    {
      KeyIndex(j, i);
    }
    assert bits[..n] == KeyBits(key, 0, n);
    assert bits[n..] == word;
  }

  /** The serial rounds, 32 at a time. */
  function RoundsByWord(f: Block, key: Block, n: nat): Block
  {
    if n == 0 then f else Rounds(RoundsByWord(f, key, n - 1), KeyWord(key, n - 1))
  }

  lemma {:induction false} RoundsInWords(f: Block, key: Block, n: nat)
    ensures RoundsByWord(f, key, n) == Rounds(f, KeyBits(key, 0, 32 * n))
  {
    if n > 0 {
      RoundsInWords(f, key, n - 1);
      KeyBitsOfWord(key, n - 1);
      RoundsSplit(f, KeyBits(key, 0, 32 * (n - 1)), KeyWord(key, n - 1));
    }
  }

  lemma {:induction false} WordStepsFlat(step: (State, Word) -> State, s: State, key: Block, n: nat)
    requires Performs32Rounds(step)
    ensures WordSteps(step, s, key, n).Flat() == RoundsByWord(s.Flat(), key, n)
  {
    if n > 0 {
      WordStepsFlat(step, s, key, n - 1);
    }
  }

  /** `n` word steps with the key words in turn are 32·`n` serial rounds. */
  lemma WordStepsArePermutation(step: (State, Word) -> State, s: State, key: Block, n: nat)
    requires Performs32Rounds(step)
    ensures WordSteps(step, s, key, n) == Permute(s, key, n)
  {
    WordStepsFlat(step, s, key, n);
    RoundsInWords(s.Flat(), key, n);
    FlatRoundTrip(WordSteps(step, s, key, n));
  }
}
