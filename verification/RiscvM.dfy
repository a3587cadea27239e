/** The "M" extension as the coprocessor interface sees it: instruction
    decoding, and the results required by sections 7.1 and 7.2 of the RISC-V
    Unprivileged ISA (20191213). */
module RiscvM {
  import opened Arith

  /** Bits 6..0, 14..12 and 31..25 of an instruction word. */
  datatype Insn = Insn(opcode: nat, funct3: nat, funct7: nat)
  {
    predicate IsM() { opcode == 0x33 && funct7 == 1 }
  }

  /** The fields of an instruction word. */
  function Fields(word: nat): Insn { Insn(word % 0x80, word / 0x1000 % 8, word / 0x200_0000) }

  /** The words with the MULDIV encoding, for every choice of registers and
      operation, and only these, are taken by the units. */
  lemma MulDivWords(rd: nat, funct3: nat, rs1: nat, rs2: nat, opcode: nat, funct7: nat)
    requires rd < 32 && funct3 < 8 && rs1 < 32 && rs2 < 32 && opcode < 0x80 && funct7 < 0x80
    ensures var i := Fields(opcode + 0x80 * rd + 0x1000 * funct3 + 0x8000 * rs1 + 0x10_0000 * rs2 + 0x200_0000 * funct7);
      i.funct3 == funct3 && (i.IsM() <==> opcode == 0x33 && funct7 == 1)
  {
    var low := opcode + 0x80 * rd;
    var mid := rs1 + 0x20 * rs2 + 0x400 * funct7;
    var word := low + 0x1000 * funct3 + 0x8000 * mid;
    assert word % 0x80 == opcode;
    assert word / 0x1000 == funct3 + 8 * mid;
    assert word / 0x200_0000 == funct7;
  }

  /** The request wires of the coprocessor interface during one clock. */
  datatype PcpiIn = PcpiIn(resetn: bool, valid: bool, insn: Insn, rs1: nat, rs2: nat)

  function Signed(x: nat): int
  {
    if x >= 0x8000_0000 then x - TWO32 else x
  }

  /** The word that holds `x`. */
  function Word(x: int): nat { x % TWO32 }

  /** MUL, MULH, MULHSU and MULHU, for `funct3` 0 to 3. */
  function MulResult(funct3: nat, a: nat, b: nat): nat
  {
    if funct3 == 0 then Word(Signed(a) * Signed(b))
    else if funct3 == 1 then Word(Signed(a) * Signed(b) / TWO32)
    else if funct3 == 2 then Word(Signed(a) * b / TWO32)
    else Word(a * b / TWO32)
  }

  /** The quotient `q` and remainder `r` of a division rounding toward zero. */
  ghost predicate DividesTowardZero(a: int, b: int, q: int, r: int)
  {
    && a == b * q + r
    && (if b > 0 then -b < r < b else b < r < -b)
    && (a >= 0 ==> r >= 0)
    && (a <= 0 ==> r <= 0)
  }

  /** The result that the standard requires of DIV, DIVU, REM and REMU, for
      `funct3` 4 to 7: rounding toward zero, all ones or the dividend when the
      divisor is zero, and the dividend or zero when the quotient overflows. */
  ghost predicate IsDivResult(funct3: nat, a: nat, b: nat, result: nat)
  {
    var signed := funct3 == 4 || funct3 == 6;
    var x, y := if signed then Signed(a) else a, if signed then Signed(b) else b;
    if b == 0 then
      result == if funct3 <= 5 then TWO32 - 1 else a
    else if signed && x == -0x8000_0000 && y == -1 then
      result == if funct3 <= 5 then a else 0
    else
      exists q, r :: DividesTowardZero(x, y, q, r) && result == Word(if funct3 <= 5 then q else r)
  }
}
