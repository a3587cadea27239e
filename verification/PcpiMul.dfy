/** The serial multiplier of PicoRV32: a carry-save accumulator whose carries
    travel only between 4-bit groups, behind the PCPI handshake. */
module PcpiMul {
  import opened Arith
  import opened RiscvM

  // ---- one carry-save addition ------------------------------------------

  /** `sum` is the new accumulator, `next` the carries, already moved up to the
      group that consumes them, and `lost` the weight of the carry that leaves
      the top group. */
  datatype CarrySave = CarrySave(sum: nat, next: nat, lost: nat)

  /** Adds three words of `n` groups group by group; `cin` is the carry that
      the group below hands to the next addition. Group sums keep 5 bits. */
  function AddGroups(n: nat, rd: nat, rdx: nat, t: nat, cin: nat): CarrySave
    decreases n, rd
  {
    if n == 0 then CarrySave(0, 0, cin)
    else
      var s := (rd % 16 + rdx % 16 + t % 16) % 32;
      var rest := AddGroups(n - 1, rd / 16, rdx / 16, t / 16, s / 16);
      CarrySave(s % 16 + 16 * rest.sum, cin + 16 * rest.next, 16 * rest.lost)
  }

  /** Every set bit of `x` is the lowest bit of a group. */
  predicate Aligned(x: nat)
  {
    x == 0 || (x % 16 <= 1 && Aligned(x / 16))
  }

  /** The lowest `m` groups of `x` are zero. */
  predicate LowZero(m: nat, x: nat)
  {
    m == 0 || (x % 16 == 0 && LowZero(m - 1, x / 16))
  }

  /** The lowest `j` bits of `x` are zero. */
  predicate LowBitsZero(j: nat, x: nat)
  {
    j == 0 || (x % 2 == 0 && LowBitsZero(j - 1, x / 2))
  }

  lemma GroupExact(rd: nat, rdx: nat, t: nat, sum: nat, next: nat, lost: nat, cin: nat)
    requires rdx % 16 <= 1
    requires var s := rd % 16 + rdx % 16 + t % 16; sum + next + lost == rd / 16 + rdx / 16 + t / 16 + s / 16
    ensures var s := (rd % 16 + rdx % 16 + t % 16) % 32;
      (s % 16 + 16 * sum) + (cin + 16 * next) + 16 * lost == rd + rdx + t + cin
  {
    var s := rd % 16 + rdx % 16 + t % 16;
    assert s < 32;
    assert s % 16 + 16 * (s / 16) == s;
  }

  /** With carries only at group boundaries no group sum overflows its 5 bits,
      so the redundant pair still denotes the exact sum. */
  lemma {:induction false} AddGroupsExact(n: nat, rd: nat, rdx: nat, t: nat, cin: nat)
    requires rd < Pow16(n) && rdx < Pow16(n) && t < Pow16(n)
    requires Aligned(rdx)
    ensures var r := AddGroups(n, rd, rdx, t, cin); r.sum + r.next + r.lost == rd + rdx + t + cin
  {
    if n > 0 {
      var s := (rd % 16 + rdx % 16 + t % 16) % 32;
      AddGroupsExact(n - 1, rd / 16, rdx / 16, t / 16, s / 16);
      var rest := AddGroups(n - 1, rd / 16, rdx / 16, t / 16, s / 16);
      GroupExact(rd, rdx, t, rest.sum, rest.next, rest.lost, cin);
    }
  }

  /** The results fit `n` groups and the carries stay on group boundaries. */
  lemma {:induction false} AddGroupsBounded(n: nat, rd: nat, rdx: nat, t: nat, cin: nat)
    requires cin <= 1
    ensures var r := AddGroups(n, rd, rdx, t, cin);
      && r.sum < Pow16(n) && r.next < Pow16(n)
      && (r.lost == 0 || r.lost == Pow16(n))
      && Aligned(r.next)
  {
    if n > 0 {
      var s := (rd % 16 + rdx % 16 + t % 16) % 32;
      AddGroupsBounded(n - 1, rd / 16, rdx / 16, t / 16, s / 16);
      var rest := AddGroups(n - 1, rd / 16, rdx / 16, t / 16, s / 16);
      assert (cin + 16 * rest.next) / 16 == rest.next;
    }
  }

  /** Groups that receive neither a carry nor an addend stop producing carries,
      so the carry-free region grows by one group per addition. */
  lemma {:induction false} CarriesDrain(n: nat, m: nat, rd: nat, rdx: nat, t: nat)
    requires m <= n && LowZero(m, rdx) && LowZero(m, t)
    ensures LowZero(if m < n then m + 1 else n, AddGroups(n, rd, rdx, t, 0).next)
    decreases n
  {
    if n > 0 {
      var s := (rd % 16 + rdx % 16 + t % 16) % 32;
      var rest := AddGroups(n - 1, rd / 16, rdx / 16, t / 16, s / 16);
      assert (16 * rest.next) / 16 == rest.next;
      if m > 0 {
        CarriesDrain(n - 1, m - 1, rd / 16, rdx / 16, t / 16);
      }
    }
  }

  lemma {:induction false} LowZeroFactor(m: nat, x: nat) returns (q: nat)
    requires LowZero(m, x)
    ensures x == Pow16(m) * q
  {
    if m == 0 {
      q := x;
    } else {
      q := LowZeroFactor(m - 1, x / 16);
      assert x == 16 * (x / 16);
      assert 16 * (Pow16(m - 1) * q) == (16 * Pow16(m - 1)) * q;
    }
  }

  lemma {:induction false} LowZeroFewer(m: nat, k: nat, x: nat)
    requires k <= m && LowZero(m, x)
    ensures LowZero(k, x)
  {
    if k > 0 {
      LowZeroFewer(m - 1, k - 1, x / 16);
    }
  }

  lemma {:induction false} ZeroBitsToGroups(j: nat, x: nat)
    requires LowBitsZero(j, x)
    ensures LowZero(j / 4, x)
  {
    if j >= 4 {
      assert LowBitsZero(j - 1, x / 2);
      assert LowBitsZero(j - 2, x / 4);
      assert LowBitsZero(j - 3, x / 8);
      assert LowBitsZero(j - 4, x / 16);
      ZeroBitsToGroups(j - 4, x / 16);
    }
  }

  lemma {:induction false} ZeroBitsDifference(j: nat, x: nat, y: nat)
    requires x >= y && LowBitsZero(j, x) && LowBitsZero(j, y)
    ensures LowBitsZero(j, x - y)
  {
    if j > 0 {
      ZeroBitsDifference(j - 1, x / 2, y / 2);
      assert (x - y) / 2 == x / 2 - y / 2;
    }
  }

  lemma {:induction false} ZeroBitsOfPow(j: nat, k: nat)
    requires j <= k
    ensures LowBitsZero(j, Pow2(k)) && LowBitsZero(j, 0)
  {
    if j > 0 {
      ZeroBitsOfPow(j - 1, k - 1);
      assert Pow2(k) / 2 == Pow2(k - 1);
    }
  }

  // ---- the accumulation loop ----------------------------------------------

  datatype Acc = Acc(rs1: nat, rs2: nat, rd: nat, rdx: nat)

  function Step(a: Acc): Acc
  {
    var t := if a.rs1 % 2 == 1 then a.rs2 else 0;
    var r := AddGroups(16, a.rd, a.rdx, t, 0);
    Acc(a.rs1 / 2, (2 * a.rs2) % TWO64, r.sum, r.next)
  }

  function Steps(a: Acc, n: nat): Acc
  {
    if n == 0 then a else Step(Steps(a, n - 1))
  }

  lemma {:induction false} StepsSplit(a: Acc, m: nat, n: nat)
    ensures Steps(a, m + n) == Steps(Steps(a, m), n)
  {
    if n > 0 {
      StepsSplit(a, m, n - 1);
    }
  }

  function Min(a: nat, b: nat): nat { if a < b then a else b }

  /** The number of low groups without carries after `i` steps. */
  function GroupsDone(i: nat): nat { Min(16, (i + 3) / 4) }

  /** What holds after `i` steps of multiplying the 64-bit patterns `a` and
      `b`; `k` counts the multiples of 2^64 dropped so far. */
  ghost predicate Accumulated(acc: Acc, i: nat, a: nat, b: nat, k: int)
  {
    && acc.rs1 == Halved(a, i)
    && acc.rs2 < TWO64 && acc.rd < TWO64 && acc.rdx < TWO64
    && Aligned(acc.rdx) && LowZero(GroupsDone(i), acc.rdx)
    && LowBitsZero(Min(64, i), acc.rs2)
    && a * b == acc.rd + acc.rdx + acc.rs1 * acc.rs2 + TWO64 * k
  }

  function Halved(a: nat, i: nat): nat { if i == 0 then a else Halved(a, i - 1) / 2 }

  lemma {:induction false} HalvedToZero(a: nat, j: nat, i: nat)
    requires a < Pow2(j) && j <= i
    ensures Halved(a, i) == 0
  {
    var m := j;
    HalvedBelow(a, j, j);
    while m < i
      invariant j <= m <= i && Halved(a, m) == 0
    {
      m := m + 1;
    }
  }

  lemma {:induction false} HalvedBelow(a: nat, j: nat, i: nat)
    requires a < Pow2(j) && i <= j
    ensures Halved(a, i) < Pow2(j - i)
  {
    if i > 0 {
      HalvedBelow(a, j, i - 1);
    }
  }

  // The powers of the word size, kept apart from the other proofs.

  lemma PowersOfWord()
    ensures Pow16(16) == TWO64 && Pow16(8) == TWO32 && Pow2(64) == TWO64
  {
    assert Pow16(4) == 0x1_0000;
    assert Pow16(8) == 16 * (16 * (16 * (16 * Pow16(4))));
    assert Pow16(12) == 16 * (16 * (16 * (16 * Pow16(8))));
    assert Pow16(16) == 16 * (16 * (16 * (16 * Pow16(12))));
    assert Pow2(4) == 16;
    Pow2Sum(4, 4);
    Pow2Sum(8, 8);
    Pow2Sum(16, 16);
    Pow2Sum(32, 32);
  }

  lemma WordHalvedToZero(a: nat, i: nat)
    requires a < TWO64 && i >= 64
    ensures Halved(a, i) == 0
  {
    PowersOfWord();
    HalvedToZero(a, 64, i);
  }

  lemma WordZeroBits(j: nat)
    requires j <= 64
    ensures LowBitsZero(j, TWO64)
  {
    PowersOfWord();
    ZeroBitsOfPow(j, 64);
  }

  lemma WordLowZero(m: nat, x: nat)
    requires m >= 16 && LowZero(m, x) && x < TWO64
    ensures x == 0
  {
    PowersOfWord();
    LowZeroFewer(m, 16, x);
    var q := LowZeroFactor(16, x);
  }

  lemma HalfWordLowZero(m: nat, x: nat) returns (q: nat)
    requires m >= 8 && LowZero(m, x)
    ensures x == TWO32 * q
  {
    PowersOfWord();
    LowZeroFewer(m, 8, x);
    q := LowZeroFactor(8, x);
  }

  lemma WordAdd(rd: nat, rdx: nat, t: nat) returns (lost: nat)
    requires rd < TWO64 && rdx < TWO64 && t < TWO64 && Aligned(rdx)
    ensures var r := AddGroups(16, rd, rdx, t, 0);
      && r.sum + r.next + TWO64 * lost == rd + rdx + t
      && r.sum < TWO64 && r.next < TWO64 && Aligned(r.next)
  {
    PowersOfWord();
    AddGroupsExact(16, rd, rdx, t, 0);
    AddGroupsBounded(16, rd, rdx, t, 0);
    lost := if AddGroups(16, rd, rdx, t, 0).lost == 0 then 0 else 1;
  }

  lemma WordSum(rd: nat, rdx: nat, t: nat)
    ensures var r := AddGroups(16, rd, rdx, t, 0); r.sum < TWO64 && r.next < TWO64
  {
    PowersOfWord();
    AddGroupsBounded(16, rd, rdx, t, 0);
  }

  // ---- the invariant of the loop ------------------------------------------

  /** One bit of the multiplier moves from the product into the addend. */
  lemma SplitProduct(rs1: nat, rs2: nat) returns (lost: nat)
    requires rs2 < TWO64
    ensures rs1 * rs2 == (if rs1 % 2 == 1 then rs2 else 0) + (rs1 / 2) * ((2 * rs2) % TWO64) + TWO64 * lost
  {
    var d, c := (2 * rs2) % TWO64, (2 * rs2) / TWO64;
    var h, l := rs1 / 2, rs1 % 2;
    lost := if c == 1 then h else 0;
    assert 2 * rs2 == d + TWO64 * c && c <= 1;
    calc {
      rs1 * rs2;
      (2 * h + l) * rs2;
      h * (2 * rs2) + l * rs2;
      { assert l * rs2 == if l == 1 then rs2 else 0; }
      h * (2 * rs2) + (if l == 1 then rs2 else 0);
    }
    if c == 1 {
      assert h * (d + TWO64) == h * d + TWO64 * h;
    }
  }

  lemma StepDrains(acc: Acc, i: nat, t: nat)
    requires LowZero(GroupsDone(i), acc.rdx) && LowBitsZero(Min(64, i), acc.rs2)
    requires t == acc.rs2 || t == 0
    ensures LowZero(GroupsDone(i + 1), AddGroups(16, acc.rd, acc.rdx, t, 0).next)
  {
    var j := Min(64, i);
    ZeroBitsOfPow(j, j);
    ZeroBitsToGroups(j, t);
    LowZeroFewer(GroupsDone(i), j / 4, acc.rdx);
    CarriesDrain(16, j / 4, acc.rd, acc.rdx, t);
  }

  lemma ShiftKeepsZeroBits(x: nat, i: nat)
    requires x < TWO64 && LowBitsZero(Min(64, i), x)
    ensures LowBitsZero(Min(64, i + 1), (2 * x) % TWO64)
  {
    var j := Min(64, i + 1);
    assert LowBitsZero(Min(64, i) + 1, 2 * x) by {
      assert (2 * x) / 2 == x;
    }
    ZeroBitsFewer(Min(64, i) + 1, j, 2 * x);
    DropTopBit(j, 2 * x);
  }

  lemma DropTopBit(j: nat, y: nat)
    requires j <= 64 && y < 2 * TWO64 && LowBitsZero(j, y)
    ensures LowBitsZero(j, y % TWO64)
  {
    if y >= TWO64 {
      WordZeroBits(j);
      ZeroBitsDifference(j, y, TWO64);
      assert y % TWO64 == y - TWO64;
    }
  }

  lemma {:induction false} ZeroBitsFewer(m: nat, k: nat, x: nat)
    requires k <= m && LowBitsZero(m, x)
    ensures LowBitsZero(k, x)
  {
    if k > 0 {
      ZeroBitsFewer(m - 1, k - 1, x / 2);
    }
  }

  lemma StepAccumulates(acc: Acc, i: nat, a: nat, b: nat, k: int) returns (k': int)
    requires Accumulated(acc, i, a, b, k)
    ensures Accumulated(Step(acc), i + 1, a, b, k')
  {
    var t := if acc.rs1 % 2 == 1 then acc.rs2 else 0;
    var dropped := WordAdd(acc.rd, acc.rdx, t);
    var lost := SplitProduct(acc.rs1, acc.rs2);
    k' := k + lost + dropped;
    ShiftKeepsZeroBits(acc.rs2, i);
    StepDrains(acc, i, t);
  }

  lemma {:induction false} StepsAccumulate(a: nat, b: nat, n: nat) returns (k: int)
    requires a < TWO64 && b < TWO64
    ensures Accumulated(Steps(Acc(a, b, 0, 0), n), n, a, b, k)
  {
    if n == 0 {
      k := 0;
    } else {
      k := StepsAccumulate(a, b, n - 1);
      k := StepAccumulates(Steps(Acc(a, b, 0, 0), n - 1), n - 1, a, b, k);
    }
  }

  /** After 64 or more steps the carries are gone and `rd` is the product. */
  lemma FullProduct(a: nat, b: nat, n: nat)
    requires a < TWO64 && b < TWO64 && n >= 64
    ensures var r := Steps(Acc(a, b, 0, 0), n); r.rdx == 0 && r.rd == (a * b) % TWO64
  {
    var k := StepsAccumulate(a, b, n);
    var r := Steps(Acc(a, b, 0, 0), n);
    WordLowZero(GroupsDone(n), r.rdx);
    WordHalvedToZero(a, n);
    ModOf(a * b, r.rd, k);
  }

  lemma ModOf(x: int, r: nat, k: int)
    requires r < TWO64 && x == r + TWO64 * k
    ensures x % TWO64 == r
  {
  }

  /** After 32 or more steps the low 32 bits hold no carries and are exact. */
  lemma LowProduct(a: nat, b: nat, n: nat)
    requires a < TWO64 && b < TWO64 && n >= 32
    ensures var r := Steps(Acc(a, b, 0, 0), n);
      r.rdx % TWO32 == 0 && r.rd % TWO32 == (a * b) % TWO32
  {
    var k := StepsAccumulate(a, b, n);
    var r := Steps(Acc(a, b, 0, 0), n);
    var q := HalfWordLowZero(GroupsDone(n), r.rdx);
    ZeroBitsToGroups(Min(64, n), r.rs2);
    var d := HalfWordLowZero(Min(64, n) / 4, r.rs2);
    LowModOf(a * b, r.rd, q, r.rs1, d, k);
  }

  lemma LowModOf(x: int, r: nat, q: nat, rs1: nat, d: nat, k: int)
    requires x == r + TWO32 * q + rs1 * (TWO32 * d) + TWO64 * k
    ensures x % TWO32 == r % TWO32 && (TWO32 * q) % TWO32 == 0
  {
    var e := rs1 * d;
    assert rs1 * (TWO32 * d) == TWO32 * e;
    assert x == r + TWO32 * (q + e + TWO32 * k);
  }

  // ---- the registers --------------------------------------------------------

  // One record per clocked block of the module.

  datatype Op = Op(mul: bool, mulh: bool, mulhsu: bool, mulhu: bool)
  {
    predicate AnyMulh() { mulh || mulhsu || mulhu }
    predicate AnyMul() { mul || AnyMulh() }
  }

  /** The accumulation loop and its control. */
  datatype Loop = Loop(acc: Acc, counter: int, waiting: bool, finish: bool)

  datatype Out = Out(wr: bool, ready: bool, rd: nat)

  datatype Regs = Regs(op: Op, wait: bool, waitQ: bool, loop: Loop, out: Out)

  function Extend64(signed: bool, x: nat): nat
  {
    if signed && x >= 0x8000_0000 then x + (TWO64 - TWO32) else x
  }

  /** The 7-bit counter, read in two's complement: its bit 6 is the sign. */
  function Wrap7(x: int): int
  {
    if x < -64 then x + 128 else if x > 63 then x - 128 else x
  }

  function NextOp(i: PcpiIn): Op
  {
    var decode := i.resetn && i.valid && i.insn.IsM();
    Op(decode && i.insn.funct3 == 0, decode && i.insn.funct3 == 1,
      decode && i.insn.funct3 == 2, decode && i.insn.funct3 == 3)
  }

  function NextLoop(k: nat, r: Regs, i: PcpiIn): Loop
    requires k <= 64
  {
    if !i.resetn then r.loop.(waiting := true, finish := false)
    else if r.loop.waiting then
      Loop(Acc(Extend64(r.op.mulh || r.op.mulhsu, i.rs1), Extend64(r.op.mulh, i.rs2), 0, 0),
        Wrap7(if r.op.AnyMulh() then 63 - k else 31 - k), r.waitQ || !r.wait, false)
    else
      Loop(Steps(r.loop.acc, k), Wrap7(r.loop.counter - k), r.loop.counter < 0, r.loop.counter < 0)
  }

  function NextOut(r: Regs, i: PcpiIn): Out
  {
    if r.loop.finish && i.resetn then
      Out(true, true, (if r.op.AnyMulh() then r.loop.acc.rd / TWO32 else r.loop.acc.rd) % TWO32)
    else
      Out(false, false, r.out.rd)
  }

  /** One clock edge of the multiplier doing `k` additions per clock. */
  function Next(k: nat, r: Regs, i: PcpiIn): Regs
    requires k <= 64
  {
    Regs(NextOp(i), r.op.AnyMul(), r.wait, NextLoop(k, r, i), NextOut(r, i))
  }

  function Run(k: nat, r: Regs, i: PcpiIn, n: nat): Regs
    requires k <= 64
  {
    if n == 0 then r else Next(k, Run(k, r, i, n - 1), i)
  }

  /** Nothing requested, nothing under way. */
  predicate Idle(r: Regs)
  {
    !r.op.AnyMul() && !r.wait && r.loop.waiting && !r.loop.finish && !r.out.ready
  }

  predicate Requests(i: PcpiIn)
  {
    i.resetn && i.valid && i.insn.IsM() && i.insn.funct3 <= 3 && i.rs1 < TWO32 && i.rs2 < TWO32
  }

  function Width(i: PcpiIn): nat { if i.insn.funct3 == 0 then 32 else 64 }

  function Operands(i: PcpiIn): Acc
  {
    Acc(Extend64(i.insn.funct3 == 1 || i.insn.funct3 == 2, i.rs1), Extend64(i.insn.funct3 == 1, i.rs2), 0, 0)
  }

  /** The additions done in `c` clocks. */
  function Additions(k: nat, c: nat): nat { if c == 0 then 0 else Additions(k, c - 1) + k }

  lemma {:induction false} AdditionsMade(k: nat, c: nat)
    ensures Additions(k, c) == c * k
  {
    if c > 0 {
      AdditionsMade(k, c - 1);
      assert c * k == (c - 1) * k + k;
    }
  }

  /** `c` is the least number of clocks that do at least `width` additions. */
  predicate LeastClocks(k: nat, c: nat, width: nat)
  {
    c >= 1 && Additions(k, c - 1) < width <= Additions(k, c)
  }

  lemma {:induction false} AdditionsMonotone(k: nat, a: nat, b: nat)
    requires a <= b
    ensures Additions(k, a) <= Additions(k, b)
  {
    if a < b {
      AdditionsMonotone(k, a, b - 1);
    }
  }

  /** It is the width over the steps in each clock, rounded up. */
  lemma CeilingClocks(k: nat, c: nat, width: nat)
    requires k > 0 && width > 0
    ensures LeastClocks(k, c, width) <==> c == (width + k - 1) / k
  {
    var d := (width + k - 1) / k;
    assert d > 0;
    assert width + k - 1 == d * k + (width + k - 1) % k;
    assert (d - 1) * k == d * k - k;
    AdditionsMade(k, d);
    AdditionsMade(k, d - 1);
    if c > d {
      AdditionsMonotone(k, d, c - 1);
    } else if c < d {
      AdditionsMonotone(k, c, d - 1);
    }
  }

  /** The request has been decoded. */
  predicate Decoded(r: Regs, i: PcpiIn)
  {
    && r.op.mul == (i.insn.funct3 == 0) && r.op.mulh == (i.insn.funct3 == 1)
    && r.op.mulhsu == (i.insn.funct3 == 2) && r.op.mulhu == (i.insn.funct3 == 3)
  }

  lemma Started(k: nat, r: Regs, i: PcpiIn)
    requires 1 <= k <= 64 && Idle(r) && Requests(i)
    ensures forall n: nat | n <= 3 :: !Run(k, r, i, n).out.ready
    ensures var s := Run(k, r, i, 3);
      && Decoded(s, i) && s.wait && s.waitQ && !s.loop.waiting && !s.loop.finish
      && s.loop.acc == Operands(i) && s.loop.counter == Width(i) - 1 - k
  {
    var s1 := Next(k, r, i);
    var s2 := Next(k, s1, i);
    assert Run(k, r, i, 1) == s1;
    assert Run(k, r, i, 2) == s2;
    assert Run(k, r, i, 3) == Next(k, s2, i);
  }

  /** The request `i` is being served and `m` additions are done. */
  predicate Serving(k: nat, s: Regs, i: PcpiIn, m: nat)
  {
    && Decoded(s, i) && s.wait && s.waitQ
    && s.loop.acc == Steps(Operands(i), m) && (m < Width(i) ==> s.loop.counter == Width(i) - 1 - k - m)
  }

  lemma ServeStep(k: nat, s: Regs, i: PcpiIn, m: nat)
    requires 1 <= k <= 64 && Requests(i) && m < Width(i)
    requires Serving(k, s, i, m) && !s.loop.waiting && !s.loop.finish
    ensures Serving(k, Next(k, s, i), i, m + k)
    ensures var t := Next(k, s, i);
      !t.out.ready && t.loop.waiting == t.loop.finish == (m + k >= Width(i)) && t.loop.acc == Steps(Operands(i), m + k)
  {
    StepsSplit(Operands(i), m, k);
  }

  lemma {:induction false} Accumulating(k: nat, c: nat, r: Regs, i: PcpiIn, j: nat)
    requires 1 <= k <= 64 && Idle(r) && Requests(i)
    requires LeastClocks(k, c, Width(i)) && j <= c
    ensures !Run(k, r, i, 3 + j).out.ready
    ensures var s := Run(k, r, i, 3 + j);
      Serving(k, s, i, Additions(k, j)) && s.loop.waiting == s.loop.finish == (j == c)
  {
    if j == 0 {
      Started(k, r, i);
    } else {
      Accumulating(k, c, r, i, j - 1);
      AdditionsMonotone(k, j - 1, c - 1);
      AdditionsMonotone(k, j, if j < c then c - 1 else c);
      ServeStep(k, Run(k, r, i, 3 + (j - 1)), i, Additions(k, j - 1));
    }
  }

  lemma ExtendedProduct(sa: bool, a: nat, sb: bool, b: nat)
    requires a < TWO32 && b < TWO32
    ensures Extend64(sa, a) < TWO64 && Extend64(sb, b) < TWO64
    ensures (Extend64(sa, a) * Extend64(sb, b)) % TWO64
         == ((if sa then Signed(a) else a) * (if sb then Signed(b) else b)) % TWO64
  {
    var x, y := if sa then Signed(a) else a, if sb then Signed(b) else b;
    var m, n := if x < 0 then 1 else 0, if y < 0 then 1 else 0;
    assert Extend64(sa, a) == x + TWO64 * m && Extend64(sb, b) == y + TWO64 * n;
    ShiftedProduct(x, m, y, n);
  }

  lemma ShiftedProduct(x: int, m: int, y: int, n: int)
    requires 0 <= m <= 1 && 0 <= n <= 1
    ensures ((x + TWO64 * m) * (y + TWO64 * n)) % TWO64 == (x * y) % TWO64
  {
    var k := x * n + m * y + TWO64 * m * n;
    assert (x + TWO64 * m) * (y + TWO64 * n) == x * y + TWO64 * k;
    SameResidue(x * y, k);
  }

  lemma SameResidue(p: int, k: int)
    ensures (p + TWO64 * k) % TWO64 == p % TWO64
  {
  }

  /** The high half of a 64-bit product. */
  lemma HalfOfProduct(p: int, rd: nat)
    requires rd == p % TWO64
    ensures rd / TWO32 % TWO32 == Word(p / TWO32)
  {
    var q := p / TWO64;
    assert p == TWO32 * (TWO32 * q) + rd;
    assert p / TWO32 == TWO32 * q + rd / TWO32;
  }

  lemma SignedProductLow(a: nat, b: nat)
    requires a < TWO32 && b < TWO32
    ensures Word(a * b) == Word(Signed(a) * Signed(b))
  {
    var m, n := if a >= 0x8000_0000 then 1 else 0, if b >= 0x8000_0000 then 1 else 0;
    var x, y := Signed(a), Signed(b);
    assert a == x + TWO32 * m && b == y + TWO32 * n;
    var k := x * n + m * y + TWO32 * m * n;
    assert (x + TWO32 * m) * (y + TWO32 * n) == x * y + TWO32 * k;
    LowResidue(x * y, k);
  }

  lemma LowResidue(p: int, k: int)
    ensures (p + TWO32 * k) % TWO32 == p % TWO32
  {
  }

  /** What the result register receives once `n` additions are done. */
  lemma ProductSelected(i: PcpiIn, n: nat)
    requires Requests(i) && n >= Width(i)
    ensures var rd := Steps(Operands(i), n).rd;
      (if i.insn.funct3 == 0 then rd else rd / TWO32) % TWO32 == MulResult(i.insn.funct3, i.rs1, i.rs2)
  {
    if i.insn.funct3 == 0 {
      LowSelected(i.rs1, i.rs2, n);
    } else if i.insn.funct3 == 1 {
      HighSelected(true, i.rs1, true, i.rs2, n);
    } else if i.insn.funct3 == 2 {
      HighSelected(true, i.rs1, false, i.rs2, n);
    } else {
      HighSelected(false, i.rs1, false, i.rs2, n);
    }
  }

  lemma LowSelected(a: nat, b: nat, n: nat)
    requires a < TWO32 && b < TWO32 && n >= 32
    ensures Steps(Acc(a, b, 0, 0), n).rd % TWO32 == Word(Signed(a) * Signed(b))
  {
    LowProduct(a, b, n);
    SignedProductLow(a, b);
  }

  lemma HighSelected(sa: bool, a: nat, sb: bool, b: nat, n: nat)
    requires a < TWO32 && b < TWO32 && n >= 64
    ensures Steps(Acc(Extend64(sa, a), Extend64(sb, b), 0, 0), n).rd / TWO32 % TWO32
         == Word((if sa then Signed(a) else a) * (if sb then Signed(b) else b) / TWO32)
  {
    ExtendedProduct(sa, a, sb, b);
    FullProduct(Extend64(sa, a), Extend64(sb, b), n);
    HalfOfProduct((if sa then Signed(a) else a) * (if sb then Signed(b) else b),
      Steps(Acc(Extend64(sa, a), Extend64(sb, b), 0, 0), n).rd);
  }

  /** From an idle unit, a request that is held is answered exactly at clock
      4 + c, where c is the least number of clocks doing enough additions, and
      the answer is the one the standard requires. */
  lemma Multiply(k: nat, c: nat, r: Regs, i: PcpiIn)
    requires 1 <= k <= 64 && Idle(r) && i.resetn && i.valid && i.rs1 < TWO32 && i.rs2 < TWO32
    requires i.insn.opcode == 0x33 && i.insn.funct7 == 1 && i.insn.funct3 <= 3
    requires LeastClocks(k, c, Width(i))
    ensures forall n: nat | n < 4 + c :: !Run(k, r, i, n).out.ready
    ensures var s := Run(k, r, i, 4 + c);
      s.out.ready && s.out.wr && s.out.rd == MulResult(i.insn.funct3, i.rs1, i.rs2)
  {
    forall n: nat | n < 4 + c
      ensures !Run(k, r, i, n).out.ready
    {
      if n < 3 {
        Started(k, r, i);
      } else {
        Accumulating(k, c, r, i, n - 3);
      }
    }
    Accumulating(k, c, r, i, c);
    assert Run(k, r, i, 4 + c) == Next(k, Run(k, r, i, 3 + c), i);
    ProductSelected(i, Additions(k, c));
  }

  predicate Withdrawn(j: PcpiIn) { j.resetn && !j.valid }

  /** The core sees `ready` in the clock of the answer and withdraws the request
      at its end; two clocks later, whatever the operands are by then, the unit
      is idle and the next request can come. */
  lemma IdleAgain(k: nat, c: nat, r: Regs, i: PcpiIn, j: PcpiIn, l: PcpiIn)
    requires 1 <= k <= 64 && Idle(r) && Requests(i)
    requires LeastClocks(k, c, Width(i)) && Withdrawn(j) && Withdrawn(l)
    ensures var s := Run(k, r, i, 5 + c);
      !s.out.ready && !Next(k, s, j).out.ready && Idle(Next(k, Next(k, s, j), l))
  {
    Accumulating(k, c, r, i, c);
    var s := Run(k, r, i, 4 + c);
    assert s == Next(k, Run(k, r, i, 3 + c), i);
    assert Run(k, r, i, 5 + c) == Next(k, s, i);
  }

  /** An idle unit stays idle, and silent, in every clock that does not ask for a
      multiplication: without a request, or with any other instruction. */
  lemma StaysIdle(k: nat, r: Regs, j: PcpiIn)
    requires 1 <= k <= 64 && Idle(r) && j.resetn
    requires !(j.valid && j.insn.opcode == 0x33 && j.insn.funct7 == 1 && j.insn.funct3 <= 3)
    ensures Idle(Next(k, r, j))
  {
  }

  /** Two clocks of reset leave the unit idle, whatever it was doing. */
  lemma ResetLeavesIdle(k: nat, r: Regs, j: PcpiIn, l: PcpiIn)
    requires 1 <= k <= 64 && !j.resetn && !l.resetn
    ensures Idle(Next(k, Next(k, r, j), l))
  {
  }

  // ---- the clocked module -----------------------------------------------------

  /** The `n` groups of a word, lowest first. */
  function Groups(n: nat, x: nat): (g: seq<nat>)
    ensures |g| == n
    decreases n, x
  {
    if n == 0 then [] else [x % 16] + Groups(n - 1, x / 16)
  }

  function Value(g: seq<nat>): nat
  {
    if g == [] then 0 else g[0] + 16 * Value(g[1..])
  }

  lemma {:induction false} ValueOfGroups(n: nat, x: nat)
    requires x < Pow16(n)
    ensures Value(Groups(n, x)) == x
  {
    if n > 0 {
      ValueOfGroups(n - 1, x / 16);
      assert Groups(n, x)[1..] == Groups(n - 1, x / 16);
    }
  }

  lemma GroupsTail(g: seq<nat>, j: nat, x: nat)
    requires j < |g| && g[j..] == Groups(|g| - j, x)
    ensures g[j] == x % 16 && g[j + 1..] == Groups(|g| - j - 1, x / 16)
  {
    assert g[j] == g[j..][0];
    assert g[j + 1..] == g[j..][1..];
  }

  lemma GroupsPrefix(all: seq<nat>, prefix: seq<nat>, n: nat, x: nat)
    requires n > 0 && all == prefix + Groups(n, x)
    ensures all == (prefix + [x % 16]) + Groups(n - 1, x / 16)
  {
  }

  lemma AddGroupsStep(n: nat, rd: nat, rdx: nat, t: nat, cin: nat)
    requires n > 0 && cin <= 1
    ensures var s := (rd % 16 + rdx % 16 + t % 16) % 32;
      var all, rest := AddGroups(n, rd, rdx, t, cin), AddGroups(n - 1, rd / 16, rdx / 16, t / 16, s / 16);
      && all.sum % 16 == s % 16 && all.sum / 16 == rest.sum
      && all.next % 16 == cin && all.next / 16 == rest.next && s / 16 <= 1
  {
  }

  /** The loop has done `j` groups: what is above them is still to be added. */
  datatype Pending = Pending(rd: nat, rdx: nat, t: nat, cin: nat)

  function Rest(n: nat, p: Pending): CarrySave { AddGroups(n, p.rd, p.rdx, p.t, p.cin) }

  ghost predicate Adding(j: nat, sums: seq<nat>, carries: seq<nat>, addend: seq<nat>, shifted: seq<nat>, p: Pending)
  {
    && j <= 16 && |sums| == |carries| == |addend| == 16 && |shifted| == j + 1 && shifted[j] == p.cin <= 1
    && sums[j..] == Groups(16 - j, p.rd) && carries[j..] == Groups(16 - j, p.rdx) && addend[j..] == Groups(16 - j, p.t)
  }

  ghost predicate Gives(j: nat, sums: seq<nat>, shifted: seq<nat>, p: Pending, all: CarrySave)
    requires j <= 16 && j <= |sums| && j <= |shifted|
  {
    && Groups(16, all.sum) == sums[..j] + Groups(16 - j, Rest(16 - j, p).sum)
    && Groups(16, all.next) == shifted[..j] + Groups(16 - j, Rest(16 - j, p).next)
  }

  function NextPending(p: Pending, s: nat): Pending { Pending(p.rd / 16, p.rdx / 16, p.t / 16, s / 16) }

  lemma AddingStep(j: nat, sums: seq<nat>, carries: seq<nat>, addend: seq<nat>, shifted: seq<nat>, p: Pending, s: nat)
    requires j < 16 && Adding(j, sums, carries, addend, shifted, p) && s == (sums[j] + carries[j] + addend[j]) % 32
    ensures s == (p.rd % 16 + p.rdx % 16 + p.t % 16) % 32
    ensures Adding(j + 1, sums[j := s % 16], carries, addend, shifted + [s / 16], NextPending(p, s))
  {
    GroupsTail(sums, j, p.rd);
    GroupsTail(carries, j, p.rdx);
    GroupsTail(addend, j, p.t);
  }

  lemma GivesStep(j: nat, sums: seq<nat>, shifted: seq<nat>, p: Pending, all: CarrySave, s: nat)
    requires j < 16 && |sums| == 16 && |shifted| == j + 1 && shifted[j] == p.cin <= 1 && Gives(j, sums, shifted, p, all)
    requires s == (p.rd % 16 + p.rdx % 16 + p.t % 16) % 32
    ensures Gives(j + 1, sums[j := s % 16], shifted + [s / 16], NextPending(p, s), all)
  {
    var n := 16 - j;
    AddGroupsStep(n, p.rd, p.rdx, p.t, p.cin);
    var rest := Rest(n, p);
    GroupsPrefix(Groups(16, all.sum), sums[..j], n, rest.sum);
    GroupsPrefix(Groups(16, all.next), shifted[..j], n, rest.next);
    assert sums[j := s % 16][..j + 1] == sums[..j] + [s % 16];
    assert (shifted + [s / 16])[..j + 1] == shifted[..j] + [p.cin];
  }

  /** The combinational carry-save loop: the groups are added in place from the
      lowest to the highest; the carry of a group, written at its top bit and
      shifted up by one, is the lowest bit of the group above. */
  method AddInPlace(rd: nat, rdx: nat, t: nat) returns (nextRd: nat, nextRdx: nat)
    ensures nextRd == AddGroups(16, rd, rdx, t, 0).sum
    ensures nextRdx == AddGroups(16, rd, rdx, t, 0).next
  {
    var sums, carries, addend := Groups(16, rd), Groups(16, rdx), Groups(16, t);
    var shifted: seq<nat> := [0];
    ghost var all := AddGroups(16, rd, rdx, t, 0);
    ghost var p := Pending(rd, rdx, t, 0);
    for j := 0 to 16
      invariant Adding(j, sums, carries, addend, shifted, p) && Gives(j, sums, shifted, p, all)
    {
      var s := (sums[j] + carries[j] + addend[j]) % 32;
      AddingStep(j, sums, carries, addend, shifted, p, s);
      GivesStep(j, sums, shifted, p, all, s);
      sums, shifted := sums[j := s % 16], shifted + [s / 16];
      p := NextPending(p, s);
    }
    assert sums[..16] == sums;
    WordOfGroups(sums, all.sum, rd, rdx, t);
    WordOfGroups(shifted[..16], all.next, rd, rdx, t);
    nextRd, nextRdx := Value(sums), Value(shifted[..16]);
  }

  lemma WordOfGroups(g: seq<nat>, x: nat, rd: nat, rdx: nat, t: nat)
    requires g + Groups(0, 0) == Groups(16, x)
    requires x == AddGroups(16, rd, rdx, t, 0).sum || x == AddGroups(16, rd, rdx, t, 0).next
    ensures Value(g) == x
  {
    AddGroupsBounded(16, rd, rdx, t, 0);
    ValueOfGroups(16, x);
    assert g == Groups(16, x);
  }

  class Multiplier {
    const stepsAtOnce: nat
    var op: Op
    var wait: bool
    var waitQ: bool
    var loop: Loop
    var out: Out

    ghost predicate Valid()
      reads this
    {
      && 1 <= stepsAtOnce <= 64
      && loop.acc.rs1 < TWO64 && loop.acc.rs2 < TWO64 && loop.acc.rd < TWO64 && loop.acc.rdx < TWO64
    }

    ghost function Contents(): Regs
      reads this
    {
      Regs(op, wait, waitQ, loop, out)
    }

    constructor (stepsAtOnce: nat)
      requires 1 <= stepsAtOnce <= 64
      ensures Valid() && Idle(Contents()) && this.stepsAtOnce == stepsAtOnce
    {
      this.stepsAtOnce := stepsAtOnce;
      op, wait, waitQ := Op(false, false, false, false), false, false;
      loop, out := Loop(Acc(0, 0, 0, 0), 0, true, false), Out(false, false, 0);
    }

    /** One rising clock edge: every block reads the registers before the edge. */
    method Tick(i: PcpiIn)
      requires Valid() && i.rs1 < TWO32 && i.rs2 < TWO32
      modifies this
      ensures Valid() && Contents() == Next(stepsAtOnce, old(Contents()), i)
    {
      var nextLoop := ClockLoop(i);
      if loop.finish && i.resetn {
        out := Out(true, true, (if op.AnyMulh() then loop.acc.rd / TWO32 else loop.acc.rd) % TWO32);
      } else {
        out := Out(false, false, out.rd);
      }
      wait, waitQ, loop := op.AnyMul(), wait, nextLoop;
      op := NextOp(i);
    }

    /** The values that the accumulation block assigns at the edge. */
    method ClockLoop(i: PcpiIn) returns (next: Loop)
      requires Valid() && i.rs1 < TWO32 && i.rs2 < TWO32
      ensures next == NextLoop(stepsAtOnce, Contents(), i)
      ensures next.acc.rs1 < TWO64 && next.acc.rs2 < TWO64 && next.acc.rd < TWO64 && next.acc.rdx < TWO64
    {
      next := loop.(finish := false);
      if !i.resetn {
        next := next.(waiting := true);
      } else if loop.waiting {
        var acc := Acc(Extend64(op.mulh || op.mulhsu, i.rs1), Extend64(op.mulh, i.rs2), 0, 0);
        var first := Wrap7(if op.AnyMulh() then 63 - stepsAtOnce else 31 - stepsAtOnce);
        next := next.(acc := acc, counter := first, waiting := !(wait && !waitQ));
      } else {
        var acc := Accumulate();
        next := next.(acc := acc, counter := Wrap7(loop.counter - stepsAtOnce));
        if loop.counter < 0 {
          next := next.(finish := true, waiting := true);
        }
      }
    }

    /** The combinational block: `stepsAtOnce` additions of one clock. */
    method Accumulate() returns (next: Acc)
      requires Valid()
      ensures next == Steps(loop.acc, stepsAtOnce)
      ensures next.rs1 < TWO64 && next.rs2 < TWO64 && next.rd < TWO64 && next.rdx < TWO64
    {
      next := loop.acc;
      for n := 0 to stepsAtOnce
        invariant next.rs1 < TWO64 && next.rs2 < TWO64 && next.rd < TWO64 && next.rdx < TWO64
        invariant next == Steps(loop.acc, n)
      {
        var thisRs2 := if next.rs1 % 2 == 1 then next.rs2 else 0;
        WordSum(next.rd, next.rdx, thisRs2);
        var nextRd, nextRdx := AddInPlace(next.rd, next.rdx, thisRs2);
        next := Acc(next.rs1 / 2, (2 * next.rs2) % TWO64, nextRd, nextRdx);
      }
    }
  }
}
