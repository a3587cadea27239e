/** The GIFT-128 block cipher, its explicit inverse, and the engine that runs
    one round per clock. */
module Gift128 {
  import opened Bits
  import opened Clocked

  type Half = h: Bits | |h| == 16 witness seq(16, _ => false)

  datatype Text = Text(s0: Word, s1: Word, s2: Word, s3: Word)

  datatype Keys = Keys(w0: Half, w1: Half, w2: Half, w3: Half, w4: Half, w5: Half, w6: Half, w7: Half)

  // ---- the layers of a round ----------------------------------------------------

  /** The bit-sliced S-box. */
  function SubCells(t: Text): Text
  {
    var s1 := Xor(t.s1, And(t.s0, t.s2));
    var s0 := Xor(t.s0, And(s1, t.s3));
    var s2 := Xor(t.s2, Or(s0, s1));
    var s3 := Xor(t.s3, s2);
    var r1 := Xor(s1, s3);
    Text(Not(s3), r1, Xor(s2, And(s0, r1)), s0)
  }

  function InvSubCells(t: Text): Text
  {
    var s0 := t.s3;
    var s3 := Not(t.s0);
    var s2 := Xor(t.s2, And(s0, t.s1));
    var s1 := Xor(t.s1, s3);
    var r2 := Xor(s2, Or(s0, s1));
    var r3 := Xor(s3, s2);
    var r0 := Xor(s0, And(s1, r3));
    Text(r0, Xor(s1, And(r0, r2)), r2, r3)
  }

  lemma SubCellsInverse(t: Text)
    ensures InvSubCells(SubCells(t)) == t
  {
  }

  lemma InvSubCellsInverse(t: Text)
    ensures SubCells(InvSubCells(t)) == t
  {
  }

  /** Bits `g`, `4 + g`, `8 + g`, ... of a word. */
  function Row(s: Word, g: nat): (r: Byte)
    requires g < 4
    ensures forall i | 0 <= i < 8 :: r[i] == s[4 * i + g]
  {
    seq(8, i requires 0 <= i < 8 => s[4 * i + g])
  }

  /** The bit permutation of word `k`: its rows, in rotated order. */
  function PermWord(s: Word, k: nat): Word
    requires k < 4
  {
    Row(s, k) + Row(s, (k + 3) % 4) + Row(s, (k + 2) % 4) + Row(s, (k + 1) % 4)
  }

  function ByteAt(p: Word, m: nat): Byte
    requires m < 4
  {
    p[8 * m..8 * m + 8]
  }

  /** Row `g` is byte `(k - g) mod 4` of the permuted word. */
  function InvPermWord(p: Word, k: nat): (s: Word)
    requires k < 4
    ensures forall j | 0 <= j < 32 :: s[j] == p[8 * ((k + 4 - j % 4) % 4) + j / 4]
  {
    seq(32, j requires 0 <= j < 32 => p[8 * ((k + 4 - j % 4) % 4) + j / 4])
  }

  /** Byte `m` of the permuted word is row `(k - m) mod 4`. */
  lemma PermutedBit(s: Word, k: nat, m: nat, i: nat)
    requires k < 4 && m < 4 && i < 8
    ensures PermWord(s, k)[8 * m + i] == s[4 * i + (k + 4 - m) % 4]
  {
    var a, b, c, d := Row(s, k), Row(s, (k + 3) % 4), Row(s, (k + 2) % 4), Row(s, (k + 1) % 4);
    var g := (k + 4 - m) % 4;
    assert PermWord(s, k)[8 * m + i] == if m == 0 then a[i] else if m == 1 then b[i] else if m == 2 then c[i] else d[i];
    assert g == if m == 0 then k else if m == 1 then (k + 3) % 4 else if m == 2 then (k + 2) % 4 else (k + 1) % 4;
  }

  /** Going there and back changes neither the row nor the byte. */
  lemma BackAgain(k: nat, m: nat)
    requires k < 4 && m < 4
    ensures (k + 4 - (k + 4 - m) % 4) % 4 == m
  {
  }

  lemma PermWordInverse(s: Word, k: nat)
    requires k < 4
    ensures InvPermWord(PermWord(s, k), k) == s
  {
    var p := PermWord(s, k);
    forall j | 0 <= j < 32
      ensures InvPermWord(p, k)[j] == s[j]
    {
      PermutedBit(s, k, (k + 4 - j % 4) % 4, j / 4);
      BackAgain(k, j % 4);
    }
  }

  lemma InvPermWordInverse(p: Word, k: nat)
    requires k < 4
    ensures PermWord(InvPermWord(p, k), k) == p
  {
    var s := InvPermWord(p, k);
    forall b | 0 <= b < 32
      ensures PermWord(s, k)[b] == p[b]
    {
      var m, i := b / 8, b % 8;
      var g := (k + 4 - m) % 4;
      PermutedBit(s, k, m, i);
      BackAgain(k, m);
      FromRow(p, s, k, i, g);
    }
  }

  lemma FromRow(p: Word, s: Word, k: nat, i: nat, g: nat)
    requires k < 4 && i < 8 && g < 4 && s == InvPermWord(p, k)
    ensures s[4 * i + g] == p[8 * ((k + 4 - g) % 4) + i]
  {
    var j := 4 * i + g;
    assert j % 4 == g && j / 4 == i;
  }

  function PermBits(t: Text): Text
  {
    Text(PermWord(t.s0, 0), PermWord(t.s1, 1), PermWord(t.s2, 2), PermWord(t.s3, 3))
  }

  function InvPermBits(t: Text): Text
  {
    Text(InvPermWord(t.s0, 0), InvPermWord(t.s1, 1), InvPermWord(t.s2, 2), InvPermWord(t.s3, 3))
  }

  lemma PermBitsInverse(t: Text)
    ensures InvPermBits(PermBits(t)) == t && PermBits(InvPermBits(t)) == t
  {
    PermWordInverse(t.s0, 0);
    PermWordInverse(t.s1, 1);
    PermWordInverse(t.s2, 2);
    PermWordInverse(t.s3, 3);
    InvPermWordInverse(t.s0, 0);
    InvPermWordInverse(t.s1, 1);
    InvPermWordInverse(t.s2, 2);
    InvPermWordInverse(t.s3, 3);
  }

  /** The 40 round constants. */
  const ROUND_CONSTANTS: seq<nat> := [
    0x01, 0x03, 0x07, 0x0F, 0x1F, 0x3E, 0x3D, 0x3B, 0x37, 0x2F, 0x1E, 0x3C, 0x39, 0x33, 0x27, 0x0E,
    0x1D, 0x3A, 0x35, 0x2B, 0x16, 0x2C, 0x18, 0x30, 0x21, 0x02, 0x05, 0x0B, 0x17, 0x2E, 0x1C, 0x38,
    0x31, 0x23, 0x06, 0x0D, 0x1B, 0x36, 0x2D, 0x1A]

  function RoundConstant(round: nat): Word
  {
    Number(if round < |ROUND_CONSTANTS| then ROUND_CONSTANTS[round] else 0, 32)
  }

  function TopBit(): Word { Zeros(31) + [true] }

  /** The key XOR into two words and the constant XOR into the fourth. */
  function AddKeyAndConstant(t: Text, w: Keys, round: nat): Text
  {
    Text(t.s0, Xor(t.s1, w.w7 + w.w6), Xor(t.s2, w.w3 + w.w2), Xor(Xor(t.s3, TopBit()), RoundConstant(round)))
  }

  lemma AddKeyTwice(t: Text, w: Keys, round: nat)
    ensures AddKeyAndConstant(AddKeyAndConstant(t, w, round), w, round) == t
  {
    XorTwice(t.s1, w.w7 + w.w6);
    XorTwice(t.s2, w.w3 + w.w2);
    forall a: Word, b: Word
      ensures Xor(Xor(Xor(Xor(t.s3, a), b), a), b) == t.s3
    {
    }
  }

  function RotateRight(h: Half, n: nat): Half
    requires n <= 16
  {
    h[n..] + h[..n]
  }

  function KeySchedule(w: Keys): Keys
  {
    Keys(RotateRight(w.w6, 2), RotateRight(w.w7, 12), w.w0, w.w1, w.w2, w.w3, w.w4, w.w5)
  }

  function Round(t: Text, w: Keys, round: nat): Text
  {
    AddKeyAndConstant(PermBits(SubCells(t)), w, round)
  }

  function InvRound(t: Text, w: Keys, round: nat): Text
  {
    InvSubCells(InvPermBits(AddKeyAndConstant(t, w, round)))
  }

  /** Each round is undone layer by layer, under every key and constant. */
  lemma RoundInverse(t: Text, w: Keys, round: nat)
    ensures InvRound(Round(t, w, round), w, round) == t
    ensures Round(InvRound(t, w, round), w, round) == t
  {
    var u := SubCells(t);
    SubCellsInverse(t);
    PermBitsInverse(u);
    AddKeyTwice(PermBits(u), w, round);
    var v := AddKeyAndConstant(t, w, round);
    AddKeyTwice(t, w, round);
    PermBitsInverse(v);
    InvSubCellsInverse(InvPermBits(v));
  }

  // ---- the cipher -------------------------------------------------------------------

  function Load(b: Block): Text { Text(b[96..], b[64..96], b[32..64], b[..32]) }

  function Unload(t: Text): Block { t.s3 + t.s2 + t.s1 + t.s0 }

  function LoadKey(k: Block): Keys
  {
    Keys(k[112..], k[96..112], k[80..96], k[64..80], k[48..64], k[32..48], k[16..32], k[..16])
  }

  lemma LoadInverse(b: Block, t: Text)
    ensures Unload(Load(b)) == b && Load(Unload(t)) == t
  {
  }

  type RoundFunction = (Text, Keys, nat) -> Text

  function KeysAt(w: Keys, n: nat): Keys
  {
    if n == 0 then w else KeySchedule(KeysAt(w, n - 1))
  }

  function Rounds(f: RoundFunction, t: Text, w: Keys, n: nat): Text
  {
    if n == 0 then t else f(Rounds(f, t, w, n - 1), KeysAt(w, n - 1), n - 1)
  }

  /** Undoes rounds `n - 1` down to 0. */
  function Unrounds(g: RoundFunction, t: Text, w: Keys, n: nat): Text
    decreases n
  {
    if n == 0 then t else Unrounds(g, g(t, KeysAt(w, n - 1), n - 1), w, n - 1)
  }

  ghost predicate Inverses(f: RoundFunction, g: RoundFunction)
  {
    forall t: Text, w: Keys, n: nat :: g(f(t, w, n), w, n) == t && f(g(t, w, n), w, n) == t
  }

  lemma {:induction false} RoundsInverse(f: RoundFunction, g: RoundFunction, t: Text, w: Keys, n: nat)
    requires Inverses(f, g)
    ensures Unrounds(g, Rounds(f, t, w, n), w, n) == t && Rounds(f, Unrounds(g, t, w, n), w, n) == t
    decreases n
  {
    if n > 0 {
      RoundsInverse(f, g, t, w, n - 1);
      RoundsInverse(f, g, g(t, KeysAt(w, n - 1), n - 1), w, n - 1);
    }
  }

  function Encrypt(key: Block, b: Block): Block { Unload(Rounds(Round, Load(b), LoadKey(key), 40)) }

  function Decrypt(key: Block, b: Block): Block { Unload(Unrounds(InvRound, Load(b), LoadKey(key), 40)) }

  /** For every key the cipher is a bijection on blocks, with this inverse. */
  lemma CipherInverse(key: Block, b: Block)
    ensures Decrypt(key, Encrypt(key, b)) == b && Encrypt(key, Decrypt(key, b)) == b
  {
    RoundsAreInverses();
    CipherInverseOf(Round, InvRound, key, b);
  }

  lemma RoundsAreInverses()
    ensures Inverses(Round, InvRound)
  {
    forall t: Text, w: Keys, n: nat
      ensures InvRound(Round(t, w, n), w, n) == t && Round(InvRound(t, w, n), w, n) == t
    {
      RoundInverse(t, w, n);
    }
  }

  lemma CipherInverseOf(f: RoundFunction, g: RoundFunction, key: Block, b: Block)
    requires Inverses(f, g)
    ensures Unload(Unrounds(g, Load(Unload(Rounds(f, Load(b), LoadKey(key), 40))), LoadKey(key), 40)) == b
    ensures Unload(Rounds(f, Load(Unload(Unrounds(g, Load(b), LoadKey(key), 40))), LoadKey(key), 40)) == b
  {
    var w := LoadKey(key);
    RoundsInverse(f, g, Load(b), w, 40);
    LoadInverse(b, Rounds(f, Load(b), w, 40));
    LoadInverse(b, Unrounds(g, Load(b), w, 40));
  }

  // ---- the engine --------------------------------------------------------------------

  datatype Engine = Engine(text: Text, keys: Keys, round: nat, busy: bool, done: bool, ciphertext: Block)

  /** One clock edge around any round function. */
  function NextEngine(f: RoundFunction, e: Engine, start: bool, plaintext: Block, key: Block): Engine
  {
    if start && !e.busy then Engine(Load(plaintext), LoadKey(key), 0, true, false, e.ciphertext)
    else if e.busy then
      var t := f(e.text, e.keys, e.round);
      Engine(t, KeySchedule(e.keys), (e.round + 1) % 64, e.round != 39, e.round == 39,
        if e.round == 39 then Unload(t) else e.ciphertext)
    else e.(done := false)
  }

  /** The engine as its user sees it: the request under way and a count. */
  datatype Job = Job(key: Block, block: Block, count: nat, busy: bool, done: bool, out: Block)

  type Cipher = (Block, Block) -> Block

  function NextJob(cipher: Cipher, j: Job, start: bool, plaintext: Block, key: Block): Job
  {
    if start && !j.busy then Job(key, plaintext, 0, true, false, j.out)
    else if j.busy then
      if j.count == 39 then j.(busy := false, done := true, out := cipher(j.key, j.block))
      else j.(count := j.count + 1, done := false)
    else j.(done := false)
  }

  ghost predicate Simulates(f: RoundFunction, e: Engine, j: Job)
  {
    && e.busy == j.busy && e.done == j.done && e.ciphertext == j.out
    && (j.busy ==>
          && j.count == e.round && e.round < 40
          && e.text == Rounds(f, Load(j.block), LoadKey(j.key), j.count)
          && e.keys == KeysAt(LoadKey(j.key), j.count))
  }

  function CipherOf(f: RoundFunction): Cipher
  {
    (key: Block, b: Block) => Unload(Rounds(f, Load(b), LoadKey(key), 40))
  }

  /** Clock by clock, and for every input, the engine does what the job view
      says: 40 rounds after an accepted start, `done` for one clock, and starts
      ignored while busy. */
  lemma EngineStep(f: RoundFunction, e: Engine, j: Job, start: bool, plaintext: Block, key: Block)
    requires Simulates(f, e, j)
    ensures Simulates(f, NextEngine(f, e, start, plaintext, key), NextJob(CipherOf(f), j, start, plaintext, key))
  {
    if j.busy {
      assert Rounds(f, Load(j.block), LoadKey(j.key), j.count + 1)
          == f(Rounds(f, Load(j.block), LoadKey(j.key), j.count), KeysAt(LoadKey(j.key), j.count), j.count);
      assert KeysAt(LoadKey(j.key), j.count + 1) == KeySchedule(KeysAt(LoadKey(j.key), j.count));
    }
  }

  /** The wires of the engine during clock `n` of a run. */
  datatype EngineIn = EngineIn(start: bool, plaintext: Block, key: Block)

  function RunEngine(f: RoundFunction, e: Engine, i: nat -> EngineIn, n: nat): Engine
  {
    if n == 0 then e
    else
      var w := i(n - 1);
      NextEngine(f, RunEngine(f, e, i, n - 1), w.start, w.plaintext, w.key)
  }

  lemma {:induction false} Engaged(f: RoundFunction, e: Engine, i: nat -> EngineIn, n: nat)
    requires !e.busy && i(0).start && 1 <= n <= 40
    ensures var r := RunEngine(f, e, i, n);
      && r.busy && !r.done && r.round == n - 1
      && r.text == Rounds(f, Load(i(0).plaintext), LoadKey(i(0).key), n - 1)
      && r.keys == KeysAt(LoadKey(i(0).key), n - 1)
  {
    if n == 1 {
      assert RunEngine(f, e, i, 0) == e;
    } else {
      Engaged(f, e, i, n - 1);
    }
  }

  /** A start accepted at clock 0 delivers the 40-fold round at clock 41, with
      `done` up at that clock and at no earlier one, whatever the inputs do. */
  lemma EncryptsIn41(f: RoundFunction, e: Engine, i: nat -> EngineIn)
    requires !e.busy && i(0).start
    ensures forall n: nat | 1 <= n <= 40 :: !RunEngine(f, e, i, n).done
    ensures RunEngine(f, e, i, 41).done && !RunEngine(f, e, i, 41).busy && !RunEngine(f, e, i, 42).done
    ensures RunEngine(f, e, i, 41).ciphertext == CipherOf(f)(i(0).key, i(0).plaintext)
  {
    forall n: nat | 1 <= n <= 40
      ensures !RunEngine(f, e, i, n).done
    {
      Engaged(f, e, i, n);
    }
    Engaged(f, e, i, 40);
    var r := RunEngine(f, e, i, 40);
    var s := NextEngine(f, r, i(40).start, i(40).plaintext, i(40).key);
    assert RunEngine(f, e, i, 41) == s;
    assert RunEngine(f, e, i, 42) == NextEngine(f, s, i(41).start, i(41).plaintext, i(41).key);
  }

  class EncryptTop {
    /** The round datapath. */
    const round128: RoundFunction
    var text: Text
    var keys: Keys
    var round: nat
    var busy: bool
    var done: bool
    var ciphertext: Block

    ghost function Contents(): Engine
      reads this
    {
      Engine(text, keys, round, busy, done, ciphertext)
    }

    constructor ()
      ensures !busy && !done && round128 == Round
    {
      round128 := Round;
      text := Text(Zeros(32), Zeros(32), Zeros(32), Zeros(32));
      keys := Keys(Zeros(16), Zeros(16), Zeros(16), Zeros(16), Zeros(16), Zeros(16), Zeros(16), Zeros(16));
      round, busy, done, ciphertext := 0, false, false, Zeros(128);
    }

    /** One rising clock edge. */
    method Tick(start: bool, plaintext: Block, key: Block)
      modifies this
      ensures Contents() == NextEngine(round128, old(Contents()), start, plaintext, key)
    {
      done := false;
      if start && !busy {
        text, keys := Load(plaintext), LoadKey(key);
        round, busy := 0, true;
      } else if busy {
        text, keys := round128(text, keys, round), KeySchedule(keys);
        if round == 39 {
          busy, done, ciphertext := false, true, Unload(text);
        }
        round := (round + 1) % 64;
      }
    }
  }
}
