/** The pipelined multiplier of PicoRV32 with its default parameters, and its
    agreement with the serial one. */
module PcpiFastMul {
  import opened Arith
  import opened RiscvM
  import PcpiMul

  /** `rs1` and `rs2` are the 33-bit registers read as signed numbers. */
  datatype Regs = Regs(rs1: int, rs2: int, rd: nat, shiftOut: bool, active: seq<bool>)

  predicate Selected(i: PcpiIn)
  {
    i.resetn && i.valid && i.insn.IsM() && i.insn.funct3 <= 3
  }

  function Next(r: Regs, i: PcpiIn): Regs
    requires |r.active| == 4
  {
    var load := Selected(i) && !r.active[0] && !r.active[1];
    Regs(
      if load then (if i.insn.funct3 == 1 || i.insn.funct3 == 2 then Signed(i.rs1) else i.rs1) else r.rs1,
      if load then (if i.insn.funct3 == 1 then Signed(i.rs2) else i.rs2) else r.rs2,
      (r.rs1 * r.rs2) % TWO64,
      Selected(i) && i.insn.funct3 != 0,
      if i.resetn then [load] + r.active[..3] else [false, false, false, false])
  }

  function Ready(r: Regs): bool
    requires |r.active| == 4
  {
    r.active[1]
  }

  function Rd(r: Regs): nat { (if r.shiftOut then r.rd / TWO32 else r.rd) % TWO32 }

  lemma HighHalf(p: int)
    ensures p % TWO64 / TWO32 % TWO32 == Word(p / TWO32)
  {
    PcpiMul.HalfOfProduct(p, p % TWO64);
  }

  lemma LowHalf(p: int)
    ensures p % TWO64 % TWO32 == Word(p)
  {
    var q := p / TWO64;
    assert p == TWO32 * (TWO32 * q) + p % TWO64;
  }

  predicate Empty(r: Regs) { r.active == [false, false, false, false] }

  /** From an empty pipeline the answer appears after exactly two clocks. */
  lemma FastMultiply(r: Regs, i: PcpiIn)
    requires Empty(r) && i.resetn && i.valid && i.rs1 < TWO32 && i.rs2 < TWO32
    requires i.insn.opcode == 0x33 && i.insn.funct7 == 1 && i.insn.funct3 <= 3
    ensures !Ready(Next(r, i)) && Ready(Next(Next(r, i), i))
    ensures Rd(Next(Next(r, i), i)) == MulResult(i.insn.funct3, i.rs1, i.rs2)
  {
    var f := i.insn.funct3;
    var s := Next(r, i);
    var p := s.rs1 * s.rs2;
    HighHalf(p);
    LowHalf(p);
    if f == 0 {
      PcpiMul.SignedProductLow(i.rs1, i.rs2);
    }
  }

  /** After the answer, the clock in which the core still requests, and two
      without a request, the pipeline is empty again and nothing else was answered. */
  lemma EmptyAgain(r: Regs, i: PcpiIn, j: PcpiIn, l: PcpiIn)
    requires Empty(r) && Selected(i) && PcpiMul.Withdrawn(j) && PcpiMul.Withdrawn(l)
    ensures var s := Next(Next(Next(r, i), i), i);
      !Ready(s) && !Ready(Next(s, j)) && Empty(Next(Next(s, j), l))
  {
  }

  /** An empty pipeline stays empty in every clock that does not ask for a multiplication. */
  lemma StaysEmpty(r: Regs, j: PcpiIn)
    requires Empty(r) && !(j.valid && j.insn.opcode == 0x33 && j.insn.funct7 == 1 && j.insn.funct3 <= 3)
    ensures Empty(Next(r, j)) && !Ready(Next(r, j))
  {
  }

  /** One clock of reset empties the pipeline. */
  lemma ResetEmpties(r: Regs, j: PcpiIn)
    requires |r.active| == 4 && !j.resetn
    ensures Empty(Next(r, j))
  {
  }

  /** Both multipliers answer every request with the same word. */
  lemma MultipliersAgree(k: nat, c: nat, serial: PcpiMul.Regs, fast: Regs, i: PcpiIn)
    requires 1 <= k <= 64 && PcpiMul.Idle(serial) && PcpiMul.Requests(i)
    requires PcpiMul.LeastClocks(k, c, PcpiMul.Width(i))
    requires Empty(fast)
    ensures PcpiMul.Run(k, serial, i, 4 + c).out.rd == Rd(Next(Next(fast, i), i))
  {
    PcpiMul.Multiply(k, c, serial, i);
    FastMultiply(fast, i);
  }

  class FastMultiplier {
    var rs1: int
    var rs2: int
    var rd: nat
    var shiftOut: bool
    var active: seq<bool>

    ghost function Contents(): Regs
      reads this
    {
      Regs(rs1, rs2, rd, shiftOut, active)
    }

    constructor ()
      ensures |active| == 4 && Empty(Contents())
    {
      rs1, rs2, rd, shiftOut := 0, 0, 0, false;
      active := [false, false, false, false];
    }

    method Tick(i: PcpiIn)
      requires |active| == 4
      modifies this
      ensures |active| == 4 && Contents() == Next(old(Contents()), i)
    {
      rd := (rs1 * rs2) % TWO64;
      var start := Selected(i) && !(active[0] || active[1]);
      if start {
        rs1 := if i.insn.funct3 == 1 || i.insn.funct3 == 2 then Signed(i.rs1) else i.rs1;
        rs2 := if i.insn.funct3 == 1 then Signed(i.rs2) else i.rs2;
      }
      active := [start, active[0], active[1], active[2]];
      shiftOut := Selected(i) && i.insn.funct3 != 0;
      if !i.resetn {
        active := [false, false, false, false];
      }
    }
  }
}
