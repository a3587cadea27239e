/** The divider of PicoRV32: restoring division, one quotient bit per clock,
    on magnitudes, with the sign put back at the end. */
module PcpiDiv {
  import opened Arith
  import opened RiscvM

  const TWO63: nat := 0x8000_0000_0000_0000

  datatype Op = Op(div: bool, divu: bool, rem: bool, remu: bool)
  {
    predicate Any() { div || divu || rem || remu }
  }

  datatype Core = Core(dividend: nat, divisor: nat, quotient: nat, mask: nat, running: bool, outsign: bool)

  /** `rd` means something only while `ready` is up. */
  datatype Out = Out(wr: bool, ready: bool, rd: nat)

  datatype Regs = Regs(op: Op, wait: bool, waitQ: bool, core: Core, out: Out)

  function Negate32(x: nat): nat { (TWO32 - x) % TWO32 }

  predicate Top(x: nat) { x >= 0x8000_0000 }

  /** The magnitude the unit works on. */
  function Magnitude(signed: bool, x: nat): nat
    requires x < TWO32
  {
    if signed && Top(x) then Negate32(x) else x
  }

  /** The initial divisor: negation and shift happen in 63 bits. */
  function InitialDivisor(signed: bool, x: nat): nat
    requires x < TWO32
  {
    ((if signed && Top(x) then TWO63 - x else x) * 0x8000_0000) % TWO63
  }

  function DivStep(c: Core): Core
  {
    var take := c.divisor <= c.dividend;
    c.(dividend := if take then c.dividend - c.divisor else c.dividend,
       quotient := if take then BitOr(c.quotient, c.mask) else c.quotient,
       divisor := c.divisor / 2,
       mask := c.mask / 2)
  }

  function NextOp(r: Regs, i: PcpiIn): Op
  {
    var decode := i.resetn && i.valid && !r.out.ready && i.insn.IsM();
    Op(decode && i.insn.funct3 == 4, decode && i.insn.funct3 == 5,
      decode && i.insn.funct3 == 6, decode && i.insn.funct3 == 7)
  }

  function NextCore(r: Regs, i: PcpiIn): Core
    requires i.rs1 < TWO32 && i.rs2 < TWO32
  {
    var signed := r.op.div || r.op.rem;
    if !i.resetn then r.core.(running := false)
    else if r.wait && !r.waitQ then
      Core(Magnitude(signed, i.rs1), InitialDivisor(signed, i.rs2), 0, 0x8000_0000, true,
        (r.op.div && Top(i.rs1) != Top(i.rs2) && i.rs2 != 0) || (r.op.rem && Top(i.rs1)))
    else if r.core.mask == 0 && r.core.running then r.core.(running := false)
    else DivStep(r.core)
  }

  function NextOut(r: Regs, i: PcpiIn): Out
  {
    if i.resetn && !(r.wait && !r.waitQ) && r.core.mask == 0 && r.core.running then
      var magnitude := (if r.op.div || r.op.divu then r.core.quotient else r.core.dividend) % TWO32;
      Out(true, true, if r.core.outsign then Negate32(magnitude) else magnitude)
    else
      Out(false, false, 0)
  }

  /** One clock edge. */
  function Next(r: Regs, i: PcpiIn): Regs
    requires i.rs1 < TWO32 && i.rs2 < TWO32
  {
    Regs(NextOp(r, i), r.op.Any() && i.resetn, r.wait && i.resetn, NextCore(r, i), NextOut(r, i))
  }

  function Run(r: Regs, i: PcpiIn, n: nat): Regs
    requires i.rs1 < TWO32 && i.rs2 < TWO32
  {
    if n == 0 then r else Next(Run(r, i, n - 1), i)
  }

  function DivSteps(c: Core, n: nat): Core
  {
    if n == 0 then c else DivStep(DivSteps(c, n - 1))
  }

  // ---- the restoring loop ----------------------------------------------------

  lemma DivisorShift(signed: bool, x: nat)
    requires x < TWO32
    ensures InitialDivisor(signed, x) == Magnitude(signed, x) * 0x8000_0000
  {
  }

  lemma Power31()
    ensures Pow2(31) == 0x8000_0000 && Pow2(32) == TWO32
  {
    assert Pow2(8) == 0x100;
    Pow2Sum(8, 8);
    Pow2Sum(16, 16);
    assert Pow2(32) == 2 * Pow2(31);
  }

  /** After `i` steps: the quotient bits found so far lie above the mask, and
      the remaining dividend is below twice the divisor still to be tried. */
  ghost predicate Restoring(c: Core, a: nat, b: nat, i: nat, high: nat)
  {
    && i <= 32
    && c.mask == (if i <= 31 then Pow2(31 - i) else 0)
    && (i <= 31 ==> c.divisor == b * c.mask)
    && c.quotient == Pow2(32 - i) * high
    && a == b * c.quotient + c.dividend
    && (b > 0 ==> c.dividend < if i <= 31 then 2 * c.divisor else b)
    && (b == 0 ==> high == Pow2(i) - 1)
  }

  /** One more quotient bit. */
  lemma QuotientBit(quotient: nat, i: nat, high: nat, b: nat)
    requires i < 32 && quotient == Pow2(32 - i) * high
    ensures quotient == Pow2(31 - i) * (2 * high)
    ensures BitOr(quotient, Pow2(31 - i)) == quotient + Pow2(31 - i) == Pow2(31 - i) * (2 * high + 1)
    ensures b * (quotient + Pow2(31 - i)) == b * quotient + b * Pow2(31 - i)
  {
    var k := 31 - i;
    var p := Pow2(k);
    OrBelow(high, k);
    DoubledProduct(p, high);
    Distributes(b, quotient, p);
  }

  lemma DoubledProduct(p: nat, h: nat)
    ensures (2 * p) * h == p * (2 * h) && p * (2 * h + 1) == p * (2 * h) + p
  {
  }

  lemma Distributes(b: nat, x: nat, y: nat)
    ensures b * (x + y) == b * x + b * y
  {
  }

  lemma DivisorHalves(b: nat, i: nat)
    requires i < 31
    ensures Pow2(31 - i) / 2 == Pow2(30 - i) && b * Pow2(31 - i) == 2 * (b * Pow2(30 - i))
  {
  }

  lemma RestoringStep(c: Core, a: nat, b: nat, i: nat, high: nat) returns (high': nat)
    requires i < 32 && Restoring(c, a, b, i, high)
    ensures Restoring(DivStep(c), a, b, i + 1, high')
  {
    QuotientBit(c.quotient, i, high, b);
    if i < 31 {
      DivisorHalves(b, i);
    }
    high' := if c.divisor <= c.dividend then 2 * high + 1 else 2 * high;
  }

  lemma {:induction false} RestoringRun(c: Core, a: nat, b: nat, i: nat) returns (high: nat)
    requires i <= 32 && a < TWO32
    requires c.dividend == a && c.divisor == b * 0x8000_0000 && c.quotient == 0 && c.mask == 0x8000_0000
    ensures Restoring(DivSteps(c, i), a, b, i, high)
    ensures DivSteps(c, i).running == c.running && DivSteps(c, i).outsign == c.outsign
  {
    if i == 0 {
      Power31();
      high := 0;
      if b > 0 {
        MulGrows(TWO32, b);
      }
    } else {
      high := RestoringRun(c, a, b, i - 1);
      high := RestoringStep(DivSteps(c, i - 1), a, b, i - 1, high);
    }
  }

  /** The loop divides: all ones and the dividend itself when `b` is zero. */
  lemma MagnitudesDivide(c: Core, a: nat, b: nat)
    requires a < TWO32 && b < TWO32
    requires c.dividend == a && c.divisor == b * 0x8000_0000 && c.quotient == 0 && c.mask == 0x8000_0000
    ensures var d := DivSteps(c, 32);
      && d.mask == 0 && d.running == c.running && d.outsign == c.outsign
      && a == b * d.quotient + d.dividend
      && (b > 0 ==> d.dividend < b)
      && (b == 0 ==> d.quotient == TWO32 - 1)
      && d.quotient < TWO32 && d.dividend < TWO32
  {
    var high := RestoringRun(c, a, b, 32);
    Power31();
    var d := DivSteps(c, 32);
    if b > 0 {
      QuotientBelow(b, d.quotient);
    }
  }

  lemma QuotientBelow(b: nat, q: nat)
    requires b > 0
    ensures q <= b * q
  {
  }

  // ---- signs --------------------------------------------------------------------

  lemma SignedDivision(x: int, y: int, q: int, r: int)
    requires y != 0 && q >= 0 && r >= 0
    requires var a, b := if x < 0 then -x else x, if y < 0 then -y else y; a == b * q + r && r < b
    ensures DividesTowardZero(x, y, if (x < 0) != (y < 0) then -q else q, if x < 0 then -r else r)
  {
    if y < 0 {
      assert y * -q == -y * q;
      assert y * q == -(-y * q);
    } else {
      assert y * -q == -(y * q);
    }
  }

  lemma ProductApart(y: int, d: int)
    requires y != 0 && d != 0
    ensures var b := if y < 0 then -y else y; y * d >= b || y * d <= -b
  {
    var b, e := if y < 0 then -y else y, if d < 0 then -d else d;
    MulGrows(b, e);
    assert y * d == b * e || y * d == -(b * e);
  }

  /** Quotient and remainder are unique, so the requirement fixes the result. */
  lemma DivisionUnique(x: int, y: int, q: int, r: int, q': int, r': int)
    requires y != 0 && DividesTowardZero(x, y, q, r) && DividesTowardZero(x, y, q', r')
    ensures q == q' && r == r'
  {
    assert y * (q - q') == y * q - y * q' == r' - r;
    if q != q' {
      ProductApart(y, q - q');
    }
  }

  lemma ResultUnique(funct3: nat, a: nat, b: nat, s: nat, t: nat)
    requires a < TWO32 && b < TWO32 && 4 <= funct3 <= 7
    requires IsDivResult(funct3, a, b, s) && IsDivResult(funct3, a, b, t)
    ensures s == t
  {
    var signed := funct3 == 4 || funct3 == 6;
    var x, y := if signed then Signed(a) else a, if signed then Signed(b) else b;
    if b != 0 && !(signed && x == -0x8000_0000 && y == -1) {
      var q, r :| DividesTowardZero(x, y, q, r) && s == Word(if funct3 <= 5 then q else r);
      var q', r' :| DividesTowardZero(x, y, q', r') && t == Word(if funct3 <= 5 then q' else r');
      DivisionUnique(x, y, q, r, q', r');
    }
  }

  predicate Requests(i: PcpiIn)
  {
    i.resetn && i.valid && i.insn.IsM() && 4 <= i.insn.funct3 <= 7 && i.rs1 < TWO32 && i.rs2 < TWO32
  }

  predicate OutSign(i: PcpiIn)
  {
    (i.insn.funct3 == 4 && Top(i.rs1) != Top(i.rs2) && i.rs2 != 0) || (i.insn.funct3 == 6 && Top(i.rs1))
  }

  predicate SignedOp(i: PcpiIn) { i.insn.funct3 == 4 || i.insn.funct3 == 6 }

  lemma SignFixup(i: PcpiIn, q: int, r: int)
    requires Requests(i) && 0 <= q < TWO32 && 0 <= r < TWO32
    requires var a, b := Magnitude(SignedOp(i), i.rs1), Magnitude(SignedOp(i), i.rs2);
      a == b * q + r && (b > 0 ==> r < b) && (b == 0 ==> q == TWO32 - 1)
    ensures var m := if i.insn.funct3 <= 5 then q else r;
      IsDivResult(i.insn.funct3, i.rs1, i.rs2, if OutSign(i) then Negate32(m) else m)
  {
    var f := i.insn.funct3;
    var x := if SignedOp(i) then Signed(i.rs1) else i.rs1;
    var y := if SignedOp(i) then Signed(i.rs2) else i.rs2;
    SignedMagnitude(SignedOp(i), i.rs1);
    SignedMagnitude(SignedOp(i), i.rs2);
    if i.rs2 != 0 {
      SignedDivision(x, y, q, r);
      var q' := if (x < 0) != (y < 0) then -q else q;
      var r' := if x < 0 then -r else r;
      NegatedWord(q);
      NegatedWord(r);
      var m := if f <= 5 then q else r;
      assert OutSign(i) == if f <= 5 then (x < 0) != (y < 0) else x < 0;
      assert (if OutSign(i) then Negate32(m) else m) == Word(if f <= 5 then q' else r');
      if SignedOp(i) && x == -0x8000_0000 && y == -1 {
        assert q == 0x8000_0000 && r == 0;
      }
    }
  }

  lemma SignedMagnitude(signed: bool, x: nat)
    requires x < TWO32
    ensures var v := if signed then Signed(x) else x; Magnitude(signed, x) == (if v < 0 then -v else v)
    ensures signed ==> (Signed(x) < 0 <==> Top(x)) && (Signed(x) == 0 <==> x == 0)
  {
  }

  lemma NegatedWord(m: int)
    requires 0 <= m < TWO32
    ensures Negate32(m) == Word(-m) && m == Word(m)
  {
  }

  // ---- whole runs -----------------------------------------------------------------

  /** Nothing requested, nothing under way. */
  predicate Idle(r: Regs)
  {
    !r.op.Any() && !r.wait && !r.core.running && !r.out.ready
  }

  predicate Decoded(r: Regs, i: PcpiIn)
  {
    r.op == Op(i.insn.funct3 == 4, i.insn.funct3 == 5, i.insn.funct3 == 6, i.insn.funct3 == 7)
    && r.wait && r.waitQ
  }

  function Initial(i: PcpiIn): Core
    requires Requests(i)
  {
    Core(Magnitude(SignedOp(i), i.rs1), InitialDivisor(SignedOp(i), i.rs2), 0, 0x8000_0000, true, OutSign(i))
  }

  lemma Started(r: Regs, i: PcpiIn)
    requires Idle(r) && Requests(i)
    ensures !Run(r, i, 1).out.ready && !Run(r, i, 2).out.ready && !Run(r, i, 3).out.ready
    ensures Decoded(Run(r, i, 3), i) && Run(r, i, 3).core == Initial(i)
  {
    var s1 := Next(r, i);
    assert Run(r, i, 1) == s1;
    var s2 := Next(s1, i);
    assert Run(r, i, 2) == s2;
    assert Run(r, i, 3) == Next(s2, i);
  }

  lemma {:induction false} Dividing(r: Regs, i: PcpiIn, j: nat)
    requires Idle(r) && Requests(i) && j <= 32
    ensures !Run(r, i, 3 + j).out.ready
    ensures Decoded(Run(r, i, 3 + j), i) && Run(r, i, 3 + j).core == DivSteps(Initial(i), j)
  {
    if j == 0 {
      Started(r, i);
    } else {
      Dividing(r, i, j - 1);
      DivisorShift(SignedOp(i), i.rs2);
      var high := RestoringRun(Initial(i), Magnitude(SignedOp(i), i.rs1), Magnitude(SignedOp(i), i.rs2), j - 1);
      assert Run(r, i, 3 + j) == Next(Run(r, i, 3 + (j - 1)), i);
    }
  }

  lemma DividedAtLast(i: PcpiIn)
    requires Requests(i)
    ensures var d := DivSteps(Initial(i), 32);
      && d.mask == 0 && d.running && d.outsign == OutSign(i)
      && d.quotient < TWO32 && d.dividend < TWO32
    ensures var d := DivSteps(Initial(i), 32);
      var m := if i.insn.funct3 <= 5 then d.quotient else d.dividend;
      IsDivResult(i.insn.funct3, i.rs1, i.rs2, if OutSign(i) then Negate32(m) else m)
  {
    DivisorShift(SignedOp(i), i.rs2);
    MagnitudesDivide(Initial(i), Magnitude(SignedOp(i), i.rs1), Magnitude(SignedOp(i), i.rs2));
    var d := DivSteps(Initial(i), 32);
    SignFixup(i, d.quotient, d.dividend);
  }

  /** From an idle unit, a request that is held is answered exactly at clock
      36, with the result that the standard requires for these operands. */
  lemma Divide(r: Regs, i: PcpiIn)
    requires Idle(r) && i.resetn && i.valid && i.rs1 < TWO32 && i.rs2 < TWO32
    requires i.insn.opcode == 0x33 && i.insn.funct7 == 1 && 4 <= i.insn.funct3 <= 7
    ensures forall n: nat | n < 36 :: !Run(r, i, n).out.ready
    ensures Run(r, i, 36).out.ready && Run(r, i, 36).out.wr
    ensures IsDivResult(i.insn.funct3, i.rs1, i.rs2, Run(r, i, 36).out.rd)
  {
    forall n: nat | n < 36
      ensures !Run(r, i, n).out.ready
    {
      NotYet(r, i, n);
    }
    Dividing(r, i, 32);
    DividedAtLast(i);
    Answer(Run(r, i, 35), i);
  }

  lemma Answer(s: Regs, i: PcpiIn)
    requires Requests(i) && Decoded(s, i)
    requires s.core.mask == 0 && s.core.running && s.core.quotient < TWO32 && s.core.dividend < TWO32
    ensures var m := if i.insn.funct3 <= 5 then s.core.quotient else s.core.dividend;
      Next(s, i).out == Out(true, true, if s.core.outsign then Negate32(m) else m)
  {
  }

  lemma NotYet(r: Regs, i: PcpiIn, n: nat)
    requires Idle(r) && Requests(i) && n < 36
    ensures !Run(r, i, n).out.ready
  {
    if n < 3 {
      Started(r, i);
    } else {
      Dividing(r, i, n - 3);
    }
  }

  predicate Withdrawn(j: PcpiIn) { j.resetn && !j.valid && j.rs1 < TWO32 && j.rs2 < TWO32 }

  /** The core sees `ready` in the clock of the answer and withdraws the request
      at its end; one clock later the unit is idle, and stays so in the next. */
  lemma IdleAgain(r: Regs, i: PcpiIn, j: PcpiIn, l: PcpiIn)
    requires Idle(r) && Requests(i) && Withdrawn(j) && Withdrawn(l)
    ensures var s := Run(r, i, 37);
      !s.out.ready && Idle(Next(s, j)) && Idle(Next(Next(s, j), l))
  {
    Dividing(r, i, 32);
    DividedAtLast(i);
    var s := Run(r, i, 36);
    assert s == Next(Run(r, i, 35), i);
    assert Run(r, i, 37) == Next(s, i);
  }

  /** An idle unit stays idle, and silent, in every clock that does not ask for a division. */
  lemma StaysIdle(r: Regs, j: PcpiIn)
    requires Idle(r) && j.resetn && j.rs1 < TWO32 && j.rs2 < TWO32
    requires !(j.valid && j.insn.opcode == 0x33 && j.insn.funct7 == 1 && 4 <= j.insn.funct3 <= 7)
    ensures Idle(Next(r, j))
  {
  }

  /** One clock of reset leaves the unit idle, whatever it was doing. */
  lemma ResetLeavesIdle(r: Regs, j: PcpiIn)
    requires !j.resetn && j.rs1 < TWO32 && j.rs2 < TWO32
    ensures Idle(Next(r, j))
  {
  }

  // ---- the clocked module -----------------------------------------------------------

  class Divider {
    var op: Op
    var wait: bool
    var waitQ: bool
    var core: Core
    var out: Out

    ghost function Contents(): Regs
      reads this
    {
      Regs(op, wait, waitQ, core, out)
    }

    constructor ()
      ensures Idle(Contents())
    {
      op, wait, waitQ := Op(false, false, false, false), false, false;
      core, out := Core(0, 0, 0, 0, false, false), Out(false, false, 0);
    }

    /** One rising clock edge: every block reads the registers before the edge. */
    method Tick(i: PcpiIn)
      requires i.rs1 < TWO32 && i.rs2 < TWO32
      modifies this
      ensures Contents() == Next(old(Contents()), i)
    {
      var start := wait && !waitQ;
      var decode := i.resetn && i.valid && !out.ready && i.insn.IsM();
      var nextCore, nextOut := core, Out(false, false, 0);
      if !i.resetn {
        nextCore := core.(running := false);
      } else if start {
        var signed := op.div || op.rem;
        var outsign := (op.div && Top(i.rs1) != Top(i.rs2) && i.rs2 != 0) || (op.rem && Top(i.rs1));
        nextCore := Core(Magnitude(signed, i.rs1), InitialDivisor(signed, i.rs2), 0, 0x8000_0000, true, outsign);
      } else if core.mask == 0 && core.running {
        nextCore := core.(running := false);
        var magnitude := (if op.div || op.divu then core.quotient else core.dividend) % TWO32;
        nextOut := Out(true, true, if core.outsign then Negate32(magnitude) else magnitude);
      } else {
        if core.divisor <= core.dividend {
          nextCore := core.(dividend := core.dividend - core.divisor, quotient := BitOr(core.quotient, core.mask));
        }
        nextCore := nextCore.(divisor := core.divisor / 2, mask := core.mask / 2);
      }
      wait, waitQ, core, out := op.Any() && i.resetn, wait && i.resetn, nextCore, nextOut;
      op := Op(decode && i.insn.funct3 == 4, decode && i.insn.funct3 == 5,
        decode && i.insn.funct3 == 6, decode && i.insn.funct3 == 7);
    }
  }
}
