/** The layers of GIFT-128 bit by bit: S-box table, bit positions, round keys in
    closed form, and round constants as a feedback register. */
module Gift128Layers {
  import opened Arith
  import opened Bits
  import opened Gift128

  function Bit(b: bool): nat { if b then 1 else 0 }

  /** Word `k` of the text. */
  function Slice(t: Text, k: nat): Word
    requires k < 4
  {
    if k == 0 then t.s0 else if k == 1 then t.s1 else if k == 2 then t.s2 else t.s3
  }

  // ---- the S-box ----------------------------------------------------------------------

  /** The four bits of column `i`, word 0 lowest. */
  function Column(t: Text, i: nat): (c: nat)
    requires i < 32
    ensures c < 16
  {
    Bit(t.s0[i]) + 2 * Bit(t.s1[i]) + 4 * Bit(t.s2[i]) + 8 * Bit(t.s3[i])
  }

  const SBOX: seq<nat> := [0x1, 0xA, 0x4, 0xC, 0x6, 0xF, 0x3, 0x9, 0x2, 0xD, 0xB, 0x7, 0x5, 0x0, 0x8, 0xE]

  /** The same logic acts on every column: the table of sixteen values. */
  lemma SubCellsColumn(t: Text, i: nat)
    requires i < 32
    ensures Column(SubCells(t), i) == SBOX[Column(t, i)]
  {
  }

  // ---- the bit permutation -------------------------------------------------------------

  /** `(k - g)` modulo 4. */
  function RowMove(k: nat, g: nat): (m: nat)
    requires k < 4 && g < 4
    ensures m < 4
  {
    if g <= k then k - g else k + 4 - g
  }

  /** Where row `k` sends its bit `4 * i + g`. */
  function Target(k: nat, i: nat, g: nat): (b: nat)
    requires k < 4 && i < 8 && g < 4
    ensures b < 32
  {
    8 * RowMove(k, g) + i
  }

  lemma PermWordBit(s: Word, k: nat, i: nat, g: nat)
    requires k < 4 && i < 8 && g < 4
    ensures PermWord(s, k)[Target(k, i, g)] == s[4 * i + g]
  {
    PermutedBit(s, k, RowMove(k, g), i);
  }

  lemma PermBitsSlice(t: Text, k: nat)
    requires k < 4
    ensures Slice(PermBits(t), k) == PermWord(Slice(t, k), k)
  {
    if k == 0 {
      assert PermBits(t).s0 == PermWord(t.s0, 0);
    } else if k == 1 {
      assert PermBits(t).s1 == PermWord(t.s1, 1);
    } else if k == 2 {
      assert PermBits(t).s2 == PermWord(t.s2, 2);
    } else {
      assert PermBits(t).s3 == PermWord(t.s3, 3);
    }
  }

  lemma PermBitsBit(t: Text, k: nat, i: nat, g: nat)
    requires k < 4 && i < 8 && g < 4
    ensures Slice(PermBits(t), k)[Target(k, i, g)] == Slice(t, k)[4 * i + g]
  {
    PermBitsSlice(t, k);
    PermWordBit(Slice(t, k), k, i, g);
  }

  // ---- round keys and round constants -----------------------------------------------------

  /** Word 1 takes key halves 6, on top, and 7; word 2 takes halves 2, on top, and
      3; word 3 takes the round constant and a one on top. */
  lemma AddedBits(t: Text, w: Keys, round: nat, i: nat)
    requires i < 32
    ensures var u := AddKeyAndConstant(t, w, round);
      && u.s0 == t.s0
      && u.s1[i] == (t.s1[i] != if i < 16 then w.w7[i] else w.w6[i - 16])
      && u.s2[i] == (t.s2[i] != if i < 16 then w.w3[i] else w.w2[i - 16])
      && u.s3[i] == ((t.s3[i] != RoundConstant(round)[i]) != (i == 31))
  {
  }

  /** The next state of the 6-bit feedback register. */
  function NextConstant(c: nat): nat
  {
    (2 * c) % 64 + (if (c / 32) % 2 == (c / 16) % 2 then 1 else 0)
  }

  lemma ConstantStep(round: nat)
    requires round < 39
    ensures ROUND_CONSTANTS[round + 1] == NextConstant(ROUND_CONSTANTS[round]) && ROUND_CONSTANTS[round] < 64
  {
    if round < 10 {
      ConstantStep0(round);
    } else if round < 20 {
      ConstantStep1(round);
    } else if round < 30 {
      ConstantStep2(round);
    } else {
      ConstantStep3(round);
    }
  }

  lemma ConstantStep0(round: nat)
    requires round < 10
    ensures ROUND_CONSTANTS[round + 1] == NextConstant(ROUND_CONSTANTS[round]) && ROUND_CONSTANTS[round] < 64
  {
  }

  lemma ConstantStep1(round: nat)
    requires 10 <= round < 20
    ensures ROUND_CONSTANTS[round + 1] == NextConstant(ROUND_CONSTANTS[round]) && ROUND_CONSTANTS[round] < 64
  {
  }

  lemma ConstantStep2(round: nat)
    requires 20 <= round < 30
    ensures ROUND_CONSTANTS[round + 1] == NextConstant(ROUND_CONSTANTS[round]) && ROUND_CONSTANTS[round] < 64
  {
  }

  lemma ConstantStep3(round: nat)
    requires 30 <= round < 39
    ensures ROUND_CONSTANTS[round + 1] == NextConstant(ROUND_CONSTANTS[round]) && ROUND_CONSTANTS[round] < 64
  {
  }

  lemma {:induction false} PowerGrows(j: nat)
    requires j >= 6
    ensures Pow2(j) >= 64
  {
    if j == 6 {
      SixPowers();
    } else {
      PowerGrows(j - 1);
    }
  }

  lemma SixPowers()
    ensures Pow2(0) == 1 && Pow2(1) == 2 && Pow2(2) == 4 && Pow2(3) == 8 && Pow2(4) == 16 && Pow2(5) == 32 && Pow2(6) == 64
  {
  }

  lemma NumberBit(c: nat, n: nat, j: nat)
    requires j < n
    ensures Number(c, n)[j] == (c / Pow2(j) % 2 == 1)
  {
  }

  /** A number below 64 has no bits above the lowest six. */
  lemma NoHighBits(c: nat, j: nat)
    requires c < 64 && 6 <= j < 32
    ensures !Number(c, 32)[j]
  {
    PowerGrows(j);
    NumberBit(c, 32, j);
    SmallQuotient(c, Pow2(j));
  }

  lemma SmallQuotient(c: nat, p: nat)
    requires c < p
    ensures c / p == 0
  {
  }

  /** The bits of a register state. */
  lemma LowBitsOf(c: nat, j: nat)
    requires c < 64 && j < 6
    ensures Number(c, 32)[j] == (c / (if j == 0 then 1 else if j == 1 then 2 else if j == 2 then 4 else if j == 3 then 8 else if j == 4 then 16 else 32) % 2 == 1)
  {
    SixPowers();
    NumberBit(c, 32, j);
  }

  lemma DoubledState(b: nat)
    requires b < 64
    ensures var c := NextConstant(b); c < 64 && c / 2 == b % 32 && (c % 2 == 1 <==> b / 32 % 2 == b / 16 % 2)
  {
  }

  lemma LowQuotients(b: nat)
    requires b < 64
    ensures var r := b % 32;
      r % 2 == b % 2 && r / 2 % 2 == b / 2 % 2 && r / 4 % 2 == b / 4 % 2 && r / 8 % 2 == b / 8 % 2 && r / 16 % 2 == b / 16 % 2
  {
    if b >= 32 {
      var r := b - 32;
      assert b % 32 == r;
      assert b / 2 == r / 2 + 16;
      assert b / 4 == r / 4 + 8;
      assert b / 8 == r / 8 + 4;
      assert b / 16 == r / 16 + 2;
    }
  }

  lemma MovedBits(b: nat)
    requires b < 64
    ensures var c := NextConstant(b);
      c / 2 % 2 == b % 2 && c / 4 % 2 == b / 2 % 2 && c / 8 % 2 == b / 4 % 2 && c / 16 % 2 == b / 8 % 2 && c / 32 % 2 == b / 16 % 2
  {
    var c := NextConstant(b);
    DoubledState(b);
    LowQuotients(b);
    HalfOfQuotient(c, 2);
    HalfOfQuotient(c, 4);
    HalfOfQuotient(c, 8);
    HalfOfQuotient(c, 16);
  }

  /** The constants are the states of a 6-bit register that starts with a one in
      its lowest bit, moves up, and takes in the negated sum of its two top bits. */
  lemma ConstantBits(round: nat, j: nat)
    requires round < 39 && j < 32
    ensures var b, c := RoundConstant(round), RoundConstant(round + 1);
      c[j] == if j == 0 then b[5] == b[4] else j < 6 && b[j - 1]
    ensures RoundConstant(0)[j] <==> j == 0
  {
    ConstantStep(round);
    RegisterStep(ROUND_CONSTANTS[round], j);
    FirstConstant(j);
  }

  lemma RegisterStep(b: nat, j: nat)
    requires b < 64 && j < 32
    ensures var x, y := Number(b, 32), Number(NextConstant(b), 32);
      y[j] == if j == 0 then x[5] == x[4] else j < 6 && x[j - 1]
  {
    DoubledState(b);
    if j >= 6 {
      NoHighBits(NextConstant(b), j);
    } else {
      LowBitsOf(NextConstant(b), j);
      if j == 0 {
        LowBitsOf(b, 4);
        LowBitsOf(b, 5);
      } else {
        LowBitsOf(b, j - 1);
        MovedBits(b);
      }
    }
  }

  lemma FirstConstant(j: nat)
    requires j < 32
    ensures RoundConstant(0)[j] <==> j == 0
  {
    if j >= 6 {
      NoHighBits(1, j);
    } else {
      LowBitsOf(1, j);
    }
  }

  // ---- one round --------------------------------------------------------------------------

  /** What is added to word `k` of round `round`, bit `b`. */
  predicate Added(w: Keys, round: nat, k: nat, b: nat)
    requires k < 4 && b < 32
  {
    if k == 0 then false
    else if k == 1 then (if b < 16 then w.w7[b] else w.w6[b - 16])
    else if k == 2 then (if b < 16 then w.w3[b] else w.w2[b - 16])
    else RoundConstant(round)[b] != (b == 31)
  }

  lemma AddedBit(t: Text, w: Keys, round: nat, k: nat, b: nat)
    requires k < 4 && b < 32
    ensures Slice(AddKeyAndConstant(t, w, round), k)[b] == (Slice(t, k)[b] != Added(w, round, k, b))
  {
    AddedBits(t, w, round, b);
  }

  lemma TableOut(t: Text, c: nat, k: nat)
    requires c < 32 && k < 4
    ensures Slice(SubCells(t), k)[c] == TableBit(SBOX[Column(t, c)], k)
  {
    SubCellsColumn(t, c);
    ColumnBit(SubCells(t), c, k);
  }

  lemma RoundLayers(t: Text, w: Keys, round: nat)
    ensures Round(t, w, round) == AddKeyAndConstant(PermBits(SubCells(t)), w, round)
  {
  }

  /** Each bit of a round: the table entry of its column, moved, with its key or constant bit. */
  lemma RoundBit(t: Text, w: Keys, round: nat, k: nat, i: nat, g: nat)
    requires k < 4 && i < 8 && g < 4
    ensures var b := Target(k, i, g);
      Slice(Round(t, w, round), k)[b] == (TableBit(SBOX[Column(t, 4 * i + g)], k) != Added(w, round, k, b))
  {
    TableOut(t, 4 * i + g, k);
    RoundLayers(t, w, round);
    LayersBit(SubCells(t), w, round, k, i, g);
  }

  lemma LayersBit(u: Text, w: Keys, round: nat, k: nat, i: nat, g: nat)
    requires k < 4 && i < 8 && g < 4
    ensures var b := Target(k, i, g);
      Slice(AddKeyAndConstant(PermBits(u), w, round), k)[b] == (Slice(u, k)[4 * i + g] != Added(w, round, k, b))
  {
    PermBitsBit(u, k, i, g);
    AddedBit(PermBits(u), w, round, k, Target(k, i, g));
  }

  /** Bit `k` of a table entry. */
  predicate TableBit(v: nat, k: nat)
    requires k < 4
  {
    if k == 0 then v % 2 == 1 else if k == 1 then v / 2 % 2 == 1 else if k == 2 then v / 4 % 2 == 1 else v / 8 % 2 == 1
  }

  lemma ColumnBit(t: Text, i: nat, k: nat)
    requires i < 32 && k < 4
    ensures TableBit(Column(t, i), k) == Slice(t, k)[i]
  {
  }

  // ---- the key schedule over any number of rounds --------------------------------------------

  /** Half `c` of the key state. */
  function HalfOf(w: Keys, c: nat): Half
    requires c < 8
  {
    if c == 0 then w.w0 else if c == 1 then w.w1 else if c == 2 then w.w2 else if c == 3 then w.w3
    else if c == 4 then w.w4 else if c == 5 then w.w5 else if c == 6 then w.w6 else w.w7
  }

  /** One step: the halves move down by two; the two that come round are rotated, by
      2 the even one and by 12 the odd one. */
  lemma ScheduleStep(w: Keys, c: nat, i: nat)
    requires c < 8 && i < 16
    ensures HalfOf(KeySchedule(w), c)[i]
         == if c == 0 then w.w6[(i + 2) % 16] else if c == 1 then w.w7[(i + 12) % 16] else HalfOf(w, c - 2)[i]
  {
    if c == 0 {
      RotatedBit(w.w6, 2, i);
    } else if c == 1 {
      RotatedBit(w.w7, 12, i);
    }
  }

  lemma RotatedBit(h: Half, n: nat, i: nat)
    requires n <= 16 && i < 16
    ensures RotateRight(h, n)[i] == h[(i + n) % 16]
  {
  }

  /** How often half `c` after `n` rounds has come round: it was `2 * n` places further up. */
  function Passes(n: nat, c: nat): nat
    requires c < 8
  {
    (2 * n + 7 - c) / 8
  }

  function Turn(n: nat, c: nat): nat
    requires c < 8
  {
    if c % 2 == 0 then 2 * Passes(n, c) else 12 * Passes(n, c)
  }

  /** Bit `i` of half `c` after `n` rounds is this bit of the key. */
  predicate InRound(w: Keys, n: nat, c: nat, i: nat)
    requires c < 8 && i < 16
  {
    HalfOf(KeysAt(w, n), c)[i] == HalfOf(w, (c + 6 * n) % 8)[(i + Turn(n, c)) % 16]
  }

  /** The bit that the rotation of half `c` brings to bit `i`. */
  function RotatedFrom(c: nat, i: nat): (j: nat)
    ensures j < 16
  {
    if c == 0 then (i + 2) % 16 else (i + 12) % 16
  }

  lemma {:induction false} KeysInRound(w: Keys, n: nat, c: nat, i: nat)
    requires c < 8 && i < 16
    ensures InRound(w, n, c, i)
    decreases n, w
  {
    if n == 0 {
      NotMoved(w, n, c, i);
    } else if c >= 2 {
      KeysInRound(w, n - 1, c - 2, i);
      MovesDown(w, n, c, i);
    } else {
      var j := RotatedFrom(c, i);
      KeysInRound(w, n - 1, c + 6, j);
      ComesRound(w, n, c, i, j);
    }
  }

  lemma NotMoved(w: Keys, n: nat, c: nat, i: nat)
    requires c < 8 && i < 16 && n == 0
    ensures InRound(w, n, c, i)
  {
    InPlace(n, c, i);
    assert KeysAt(w, n) == w;
  }

  lemma InPlace(n: nat, c: nat, i: nat)
    requires c < 8 && i < 16 && n == 0
    ensures (c + 6 * n) % 8 == c && (i + Turn(n, c)) % 16 == i
  {
    assert Passes(n, c) == 0;
  }

  lemma MovesDown(w: Keys, n: nat, c: nat, i: nat)
    requires n > 0 && 2 <= c < 8 && i < 16 && InRound(w, n - 1, c - 2, i)
    ensures InRound(w, n, c, i)
  {
    ScheduleStep(KeysAt(w, n - 1), c, i);
    SamePass(n, c);
  }

  lemma ComesRound(w: Keys, n: nat, c: nat, i: nat, j: nat)
    requires n > 0 && c < 2 && i < 16 && j == RotatedFrom(c, i) && InRound(w, n - 1, c + 6, j)
    ensures InRound(w, n, c, i)
  {
    ScheduleStep(KeysAt(w, n - 1), c, i);
    OneMorePass(n, c, i, j);
  }

  lemma SamePass(n: nat, c: nat)
    requires n > 0 && 2 <= c < 8
    ensures (c - 2 + 6 * (n - 1)) % 8 == (c + 6 * n) % 8 && Turn(n - 1, c - 2) == Turn(n, c)
  {
    EightMore(c - 2 + 6 * (n - 1));
    assert Passes(n - 1, c - 2) == Passes(n, c);
  }

  lemma EightMore(x: nat)
    ensures (x + 8) % 8 == x % 8
  {
  }

  lemma OneMorePass(n: nat, c: nat, i: nat, j: nat)
    requires n > 0 && c < 2 && i < 16 && j == RotatedFrom(c, i)
    ensures (c + 6 + 6 * (n - 1)) % 8 == (c + 6 * n) % 8 && (j + Turn(n - 1, c + 6)) % 16 == (i + Turn(n, c)) % 16
  {
    var p := Passes(n - 1, c + 6);
    assert Passes(n, c) == p + 1;
    if c == 0 {
      SumInside(i, 2, 2 * p);
    } else {
      SumInside(i, 12, 12 * p);
    }
  }

  lemma SumInside(i: nat, a: nat, b: nat)
    ensures ((i + a) % 16 + b) % 16 == (i + (b + a)) % 16
  {
    var q := (i + a) / 16;
    assert i + a + b == ((i + a) % 16 + b) + 16 * q;
  }

  /** The closed form: after every fourth round each half is back in its place,
      rotated by 2, or by 12, once for each four rounds. */
  lemma KeysAfterFours(w: Keys, m: nat, c: nat, i: nat)
    requires c < 8 && i < 16
    ensures HalfOf(KeysAt(w, 4 * m), c)[i] == HalfOf(w, c)[(i + (if c % 2 == 0 then 2 * m else 12 * m)) % 16]
  {
    KeysInRound(w, 4 * m, c, i);
    BackInPlace(m, c);
  }

  lemma BackInPlace(m: nat, c: nat)
    requires c < 8
    ensures Passes(4 * m, c) == m && (c + 6 * (4 * m)) % 8 == c
  {
    DivModUnique(c, 8, 3 * m);
    DivModUnique(7 - c, 8, m);
  }

  // ---- blocks and keys at the ports ------------------------------------------------------------

  /** Text words come from the port top first. */
  lemma PortWord(b: Block, k: nat, i: nat)
    requires k < 4 && i < 32
    ensures Slice(Load(b), k)[i] == b[96 - 32 * k + i]
  {
  }

  /** And so do key halves. */
  lemma PortHalf(b: Block, c: nat, i: nat)
    requires c < 8 && i < 16
    ensures HalfOf(LoadKey(b), c)[i] == b[112 - 16 * c + i]
  {
    if c < 4 {
      assert HalfOf(LoadKey(b), c)[i]
          == if c == 0 then b[112..][i] else if c == 1 then b[96..112][i] else if c == 2 then b[80..96][i] else b[64..80][i];
    } else {
      assert HalfOf(LoadKey(b), c)[i]
          == if c == 4 then b[48..64][i] else if c == 5 then b[32..48][i] else if c == 6 then b[16..32][i] else b[..16][i];
    }
  }

  lemma ResultBits(t: Text, k: nat, i: nat)
    requires k < 4 && i < 32
    ensures Unload(t)[96 - 32 * k + i] == Slice(t, k)[i]
  {
    FourWords(t.s3, t.s2, t.s1, t.s0, k, i);
  }

  lemma FourWords(a: Word, b: Word, c: Word, d: Word, k: nat, i: nat)
    requires k < 4 && i < 32
    ensures (a + b + c + d)[96 - 32 * k + i] == if k == 0 then d[i] else if k == 1 then c[i] else if k == 2 then b[i] else a[i]
  {
    var m := 96 - 32 * k + i;
    assert (a + b + c + d)[m] == if m >= 96 then d[m - 96] else (a + b + c)[m];
    assert m < 96 ==> (a + b + c)[m] == if m >= 64 then c[m - 64] else (a + b)[m];
    assert m < 64 ==> (a + b)[m] == if m >= 32 then b[m - 32] else a[m];
  }
}
