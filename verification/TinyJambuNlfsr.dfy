/** The TinyJAMBU permutation: one feedback bit per round in the definition,
    one feedback word per clock in the shift register. */
module TinyJambuNlfsr {
  import opened Bits

  // ---- the definition --------------------------------------------------------

  /** One round: the state moves down one bit and the feedback enters on top. */
  function Round(s: Block, k: bool): Block
  {
    s[1..] + [Combine(s[0], s[47], s[70], s[85], s[91], k)]
  }

  function Combine(b0: bool, b47: bool, b70: bool, b85: bool, b91: bool, k: bool): bool
  {
    (((b0 != b47) != !(b70 && b85)) != b91) != k
  }

  /** One round per key bit. */
  function Rounds(s: Block, ks: Bits): Block
  {
    if ks == [] then s else Round(Rounds(s, ks[..|ks| - 1]), ks[|ks| - 1])
  }

  /** The key bits of rounds `from` to `from + n`: bit `i` modulo 128 in round `i`. */
  function KeyBits(key: Block, from: nat, n: nat): (r: Bits)
    ensures |r| == n && forall i | 0 <= i < n :: r[i] == key[(from + i) % 128]
  {
    seq(n, i requires 0 <= i < n => key[(from + i) % 128])
  }

  lemma {:induction false} RoundsSplit(s: Block, a: Bits, b: Bits)
    ensures Rounds(s, a + b) == Rounds(Rounds(s, a), b)
  {
    if b == [] {
      assert a + b == a;
    } else {
      var n := |b| - 1;
      assert (a + b)[..|a + b| - 1] == a + b[..n];
      RoundsSplit(s, a, b[..n]);
    }
  }

  // ---- the word-parallel form ------------------------------------------------

  datatype State = State(w0: Word, w1: Word, w2: Word, w3: Word)
  {
    /** The 128-bit state: `w0` holds the lowest bits. */
    function Flat(): Block { w0 + w1 + w2 + w3 }
  }

  function Feedback(s: State, k: Word): Word
  {
    var t47 := Or(Shr(s.w1, 15), Shl(s.w2, 17));
    var t70 := Or(Shr(s.w2, 6), Shl(s.w3, 26));
    var t85 := Or(Shr(s.w2, 21), Shl(s.w3, 11));
    var t91 := Or(Shr(s.w2, 27), Shl(s.w3, 5));
    Xor(Xor(Xor(Xor(s.w0, t47), Not(And(t70, t85))), t91), k)
  }

  function WordStep(s: State, k: Word): State
  {
    State(s.w1, s.w2, s.w3, Feedback(s, k))
  }

  /** A bit of the feedback word is the feedback of the serial round with the
      same number, because no tap reaches a bit produced in the same word. */
  lemma FeedbackBit(s: State, k: Word, i: nat)
    requires i < 32
    ensures var f := s.Flat();
      Feedback(s, k)[i] == Combine(f[i], f[47 + i], f[70 + i], f[85 + i], f[91 + i], k[i])
  {
  }

  /** The serial round shifts down by one and feeds back the bits 0, 47 and 91,
      the NAND of bits 70 and 85, and the key bit. */
  lemma RoundBits(s: Block, k: bool, i: nat)
    requires i < 128
    ensures Round(s, k)[i]
         == if i < 127 then s[i + 1] else (((s[0] != s[47]) != !(s[70] && s[85])) != s[91]) != k
  {
  }

  lemma RoundAt(f: Block, fb: Word, i: nat, k: bool)
    requires i < 32 && fb[i] == Combine(f[i], f[47 + i], f[70 + i], f[85 + i], f[91 + i], k)
    ensures Round(f[i..] + fb[..i], k) == f[i + 1..] + fb[..i + 1]
  {
    var r := f[i..] + fb[..i];
    assert r[0] == f[i] && r[47] == f[47 + i] && r[70] == f[70 + i] && r[85] == f[85 + i] && r[91] == f[91 + i];
    assert r[1..] == f[i + 1..] + fb[..i];
    assert fb[..i + 1] == fb[..i] + [fb[i]];
  }

  lemma {:induction false} RoundsWithinWord(s: State, k: Word, j: nat)
    requires j <= 32
    ensures Rounds(s.Flat(), k[..j]) == s.Flat()[j..] + Feedback(s, k)[..j]
  {
    if j > 0 {
      RoundsWithinWord(s, k, j - 1);
      assert k[..j][..|k[..j]| - 1] == k[..j - 1];
      FeedbackBit(s, k, j - 1);
      RoundAt(s.Flat(), Feedback(s, k), j - 1, k[j - 1]);
    }
  }

  /** One word step is 32 serial rounds. */
  lemma WordStepIsRounds(s: State, k: Word)
    ensures WordStep(s, k).Flat() == Rounds(s.Flat(), k)
  {
    RoundsWithinWord(s, k, 32);
    assert k[..32] == k;
    assert s.Flat()[32..] + Feedback(s, k)[..32] == WordStep(s, k).Flat();
  }

  // ---- the clocked module -----------------------------------------------------

  /** The wires of the shift register during one clock. */
  datatype NlfsrIn = NlfsrIn(init: bool, run: bool, keyWord: Word,
    wrW1: bool, w1Xor: Word, wrW3: bool, w3Xor: Word)

  function Cleared(): State { State(Zeros(32), Zeros(32), Zeros(32), Zeros(32)) }

  /** One clock edge around any word step; the controller proofs use no more
      of the step than that it performs 32 rounds. */
  function NextWith(step: (State, Word) -> State, s: State, i: NlfsrIn): State
  {
    if i.init then Cleared()
    else if i.run then step(s, i.keyWord)
    else s.(w1 := if i.wrW1 then Xor(s.w1, i.w1Xor) else s.w1,
            w3 := if i.wrW3 then Xor(s.w3, i.w3Xor) else s.w3)
  }

  ghost predicate Performs32Rounds(step: (State, Word) -> State)
  {
    forall s: State, k: Word :: step(s, k).Flat() == Rounds(s.Flat(), k)
  }

  lemma WordStepPerforms32Rounds()
    ensures Performs32Rounds(WordStep)
  {
    forall s: State, k: Word
      ensures WordStep(s, k).Flat() == Rounds(s.Flat(), k)
    {
      WordStepIsRounds(s, k);
    }
  }

  class Nlfsr {
    var w0: Word
    var w1: Word
    var w2: Word
    var w3: Word

    ghost function Contents(): State
      reads this
    {
      State(w0, w1, w2, w3)
    }

    constructor ()
      ensures Contents() == Cleared()
    {
      w0, w1, w2, w3 := Zeros(32), Zeros(32), Zeros(32), Zeros(32);
    }

    /** One rising clock edge; a running clock performs 32 serial rounds. */
    method Tick(i: NlfsrIn)
      modifies this
      ensures Contents() == NextWith(WordStep, old(Contents()), i)
      ensures i.run && !i.init ==> Contents().Flat() == Rounds(old(Contents().Flat()), i.keyWord)
    {
      ghost var s := Contents();
      WordStepIsRounds(s, i.keyWord);
      var t47 := Or(Shr(w1, 15), Shl(w2, 17));
      var t70 := Or(Shr(w2, 6), Shl(w3, 26));
      var t85 := Or(Shr(w2, 21), Shl(w3, 11));
      var t91 := Or(Shr(w2, 27), Shl(w3, 5));
      var fb := Xor(Xor(Xor(Xor(w0, t47), Not(And(t70, t85))), t91), i.keyWord);
      if i.init {
        w0, w1, w2, w3 := Zeros(32), Zeros(32), Zeros(32), Zeros(32);
      } else if i.run {
        w0, w1, w2, w3 := w1, w2, w3, fb;
      } else {
        if i.wrW1 { w1 := Xor(w1, i.w1Xor); }
        if i.wrW3 { w3 := Xor(w3, i.w3Xor); }
      }
    }
  }
}
