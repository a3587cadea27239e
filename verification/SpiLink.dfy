/** The SPI byte shifter and the flash it talks to, bit by bit, and the
    byte-level link they implement together. Bytes go most significant bit first. */
module SpiLink {
  import opened Arith
  import opened Bits

  const ZERO_BYTE: Byte := [false, false, false, false, false, false, false, false]
  const CMD_READ: Byte := [true, true, false, false, false, false, false, false]
  const CMD_WAKE: Byte := [true, true, false, true, false, true, false, true]
  const CMD_SLEEP: Byte := [true, false, false, true, true, true, false, true]
  const CMD_EXIT: Byte := [true, true, true, true, true, true, true, true]

  /** The size of the address space. */
  const SIZE: nat := 0x100_0000

  type Memory = nat -> Byte

  function LowBits(v: nat, n: nat): (b: Bits)
    ensures |b| == n
    decreases n, v
  {
    if n == 0 then [] else [v % 2 == 1] + LowBits(v / 2, n - 1)
  }

  lemma {:induction false} ValueOfLowBits(v: nat, n: nat, p: nat)
    requires p == Pow2(n) && v < p
    ensures Value(LowBits(v, n)) == v
    decreases n
  {
    if n > 0 {
      ValueOfLowBits(v / 2, n - 1, p / 2);
      assert LowBits(v, n)[1..] == LowBits(v / 2, n - 1);
    }
  }

  function ShiftIn(b: Byte, x: bool): Byte { [x] + b[..7] }

  // ---- the flash at byte boundaries ------------------------------------------------

  /** `out` is the byte that goes out while the next one comes in. */
  datatype FlashByte = FlashByte(bytecount: nat, cmd: Byte, addr: nat, powered: bool, out: Byte)

  function SetAddress(addr: nat, bytecount: nat, v: nat): nat
  {
    if bytecount == 2 then addr % 65536 + v * 65536
    else if bytecount == 3 then addr / 65536 * 65536 + v * 256 + addr % 256
    else if bytecount == 4 then addr / 256 * 256 + v
    else addr
  }

  /** What the flash does when byte `b` is complete. */
  function Action(mem: Memory, f: FlashByte, b: Byte): FlashByte
  {
    var n := f.bytecount + 1;
    var cmd := if n == 1 then b else f.cmd;
    var powered := if n == 1 && b == CMD_WAKE then true else if n == 1 && b == CMD_SLEEP then false else f.powered;
    if powered && cmd == CMD_READ then
      var addr := SetAddress(f.addr, n, Value(b));
      if n >= 4 then FlashByte(n, cmd, (addr + 1) % SIZE, powered, mem(addr))
      else FlashByte(n, cmd, addr, powered, b)
    else FlashByte(n, cmd, f.addr, powered, b)
  }

  function Deselected(f: FlashByte): FlashByte
  {
    f.(bytecount := 0, out := ZERO_BYTE)
  }

  // ---- the flash, bit by bit ----------------------------------------------------------

  /** `byte` holds everything but the shift register and the output pin. */
  datatype Flash = Flash(byte: FlashByte, buffer: Byte, bitcount: nat, dout: bool)

  /** A rising clock edge while selected. */
  function Sample(mem: Memory, f: Flash, io0: bool): Flash
  {
    var b := ShiftIn(f.buffer, io0);
    if f.bitcount == 7 then
      var g := Action(mem, f.byte, b);
      Flash(g, g.out, 0, f.dout)
    else Flash(f.byte, b, f.bitcount + 1, f.dout)
  }

  /** The flash sees its select and clock pins go from `csb`, `clk` to `csb'`, `clk'`. */
  function FlashEdge(mem: Memory, f: Flash, csb: bool, clk: bool, csb': bool, clk': bool, io0: bool): Flash
  {
    if csb' then
      if csb then f else Flash(Deselected(f.byte), ZERO_BYTE, 0, f.dout)
    else if clk' then
      if clk then f else Sample(mem, f, io0)
    else if csb || clk then f.(dout := f.buffer[7])
    else f
  }

  // ---- the flash as its users know it -----------------------------------------------------

  /** The commands: read, release power-down, exit of the continuous modes, and power-down. */
  lemma CommandValues()
    ensures Value(CMD_READ) == 0x03 && Value(CMD_WAKE) == 0xAB && Value(CMD_EXIT) == 0xFF && Value(CMD_SLEEP) == 0xB9
  {
    ByteValue(true, true, false, false, false, false, false, false);
    ByteValue(true, true, false, true, false, true, false, true);
    ByteValue(true, true, true, true, true, true, true, true);
    ByteValue(true, false, false, true, true, true, false, true);
  }

  function Weight(b: bool, w: nat): nat { if b then w else 0 }

  lemma ByteValue(b0: bool, b1: bool, b2: bool, b3: bool, b4: bool, b5: bool, b6: bool, b7: bool)
    ensures Value([b0, b1, b2, b3, b4, b5, b6, b7])
         == Weight(b0, 1) + Weight(b1, 2) + Weight(b2, 4) + Weight(b3, 8) + Weight(b4, 16) + Weight(b5, 32) + Weight(b6, 64) + Weight(b7, 128)
  {
    NibbleValue(b0, b1, b2, b3, [b4, b5, b6, b7]);
    NibbleValue(b4, b5, b6, b7, []);
    assert [b0, b1, b2, b3] + [b4, b5, b6, b7] == [b0, b1, b2, b3, b4, b5, b6, b7];
    assert [b4, b5, b6, b7] + [] == [b4, b5, b6, b7];
  }

  lemma NibbleValue(b0: bool, b1: bool, b2: bool, b3: bool, rest: Bits)
    ensures Value([b0, b1, b2, b3] + rest) == Weight(b0, 1) + Weight(b1, 2) + Weight(b2, 4) + Weight(b3, 8) + 16 * Value(rest)
  {
    ValueOfFront(b3, rest);
    ValueOfFront(b2, [b3] + rest);
    ValueOfFront(b1, [b2] + ([b3] + rest));
    ValueOfFront(b0, [b1] + ([b2] + ([b3] + rest)));
    assert [b0] + ([b1] + ([b2] + ([b3] + rest))) == [b0, b1, b2, b3] + rest;
  }

  lemma ValueOfFront(b: bool, rest: Bits)
    ensures Value([b] + rest) == Weight(b, 1) + 2 * Value(rest)
  {
    assert ([b] + rest)[1..] == rest;
  }

  /** The first byte after selection is the command, and only it can wake the flash
      up or power it down; while it is powered down, or the command is another than
      to read, every byte comes back as it was sent and the address stays. */
  lemma FlashPower(mem: Memory, f: FlashByte, b: Byte)
    ensures var g := Action(mem, f, b);
      && g.cmd == (if f.bytecount == 0 then b else f.cmd)
      && g.powered == (if f.bytecount == 0 && b == CMD_WAKE then true else if f.bytecount == 0 && b == CMD_SLEEP then false else f.powered)
      && (!g.powered || g.cmd != CMD_READ ==> g.out == b && g.addr == f.addr)
  {
  }

  /** Bytes sent one after the other. */
  function AfterBytes(mem: Memory, f: FlashByte, bytes: seq<Byte>): FlashByte
  {
    if bytes == [] then f else Action(mem, AfterBytes(mem, f, bytes[..|bytes| - 1]), bytes[|bytes| - 1])
  }

  /** The flash after a command and an address of three bytes, the top byte first. */
  function Addressed(mem: Memory, f: FlashByte, cmd: Byte, a2: Byte, a1: Byte, a0: Byte): FlashByte
  {
    Action(mem, Action(mem, Action(mem, Action(mem, f, cmd), a2), a1), a0)
  }

  function Address(a2: Byte, a1: Byte, a0: Byte): nat { 65536 * Value(a2) + 256 * Value(a1) + Value(a0) }

  /** A powered flash, selected anew: after the read command and three address bytes, `k` more
      bytes of any kind bring out byte `k` of memory from that address on, around its end. */
  lemma FlashReads(mem: Memory, f: FlashByte, cmd: Byte, a2: Byte, a1: Byte, a0: Byte, more: seq<Byte>) returns (a: nat)
    requires f.powered && f.bytecount == 0 && cmd == CMD_READ
    ensures a == Address(a2, a1, a0)
    ensures AfterBytes(mem, Addressed(mem, f, cmd, a2, a1, a0), more).out == mem((a + |more|) % SIZE)
  {
    var g;
    g, a := FlashAddressed(mem, f, cmd, a2, a1, a0);
    FlashStreams(mem, g, a, more);
  }

  lemma {:induction false} FlashStreams(mem: Memory, g: FlashByte, a: nat, more: seq<Byte>)
    requires g.powered && g.cmd == CMD_READ && g.bytecount >= 4 && g.out == mem(a % SIZE) && g.addr == (a + 1) % SIZE
    ensures var h := AfterBytes(mem, g, more);
      h.powered && h.cmd == CMD_READ && h.bytecount >= 4 && h.out == mem((a + |more|) % SIZE) && h.addr == (a + |more| + 1) % SIZE
    decreases |more|
  {
    if |more| > 0 {
      FlashStreams(mem, g, a, more[..|more| - 1]);
      NextAddress(a, |more| - 1);
    }
  }

  lemma NextAddress(a: nat, m: nat)
    ensures ((a + m + 1) % SIZE + 1) % SIZE == (a + (m + 1) + 1) % SIZE
  {
  }

  lemma {:induction false} ValueOfByte(b: Byte)
    ensures Value(b) < 256
  {
    assert b == [b[0], b[1], b[2], b[3], b[4], b[5], b[6], b[7]];
    ByteValue(b[0], b[1], b[2], b[3], b[4], b[5], b[6], b[7]);
  }

  lemma FlashAddressed(mem: Memory, f: FlashByte, cmd: Byte, a2: Byte, a1: Byte, a0: Byte) returns (g: FlashByte, a: nat)
    requires f.powered && f.bytecount == 0 && cmd == CMD_READ
    ensures g == Addressed(mem, f, cmd, a2, a1, a0) && a == Address(a2, a1, a0)
    ensures g.out == mem(a % SIZE) && g.addr == (a + 1) % SIZE && g.powered && g.cmd == CMD_READ && g.bytecount == 4
  {
    var s := AddressTaken(mem, f, cmd, a2, a1, a0);
    g, a := Addressed(mem, f, cmd, a2, a1, a0), Address(a2, a1, a0);
    WithinSize(s, a);
  }

  lemma WithinSize(s: nat, a: nat)
    requires s == a < SIZE
    ensures a % SIZE == s && (a + 1) % SIZE == (s + 1) % SIZE
  {
  }

  lemma AddressTaken(mem: Memory, f: FlashByte, cmd: Byte, a2: Byte, a1: Byte, a0: Byte) returns (s: nat)
    requires f.powered && f.bytecount == 0 && cmd == CMD_READ
    ensures var g := Addressed(mem, f, cmd, a2, a1, a0);
      g.out == mem(s) && g.addr == (s + 1) % SIZE && g.powered && g.cmd == CMD_READ && g.bytecount == 4
    ensures s == Address(a2, a1, a0) < SIZE
  {
    var f1 := Action(mem, f, cmd);
    var f2 := Action(mem, f1, a2);
    var f3 := Action(mem, f2, a1);
    TakesCommand(mem, f, cmd);
    var s1 := TakesAddress(mem, f1, a2);
    var s2 := TakesAddress(mem, f2, a1);
    s := TakesAddress(mem, f3, a0);
    ValueOfByte(a2);
    ValueOfByte(a1);
    ValueOfByte(a0);
    AddressSet(f1.addr, s1, s2, s, Value(a2), Value(a1), Value(a0));
  }

  lemma TakesCommand(mem: Memory, f: FlashByte, cmd: Byte)
    requires f.powered && f.bytecount == 0 && cmd == CMD_READ
    ensures var g := Action(mem, f, cmd); g.powered && g.cmd == CMD_READ && g.bytecount == 1
  {
    assert CMD_READ[1] != CMD_SLEEP[1];
  }

  lemma TakesAddress(mem: Memory, f: FlashByte, b: Byte) returns (a: nat)
    requires f.powered && f.cmd == CMD_READ && 1 <= f.bytecount <= 3
    ensures a == SetAddress(f.addr, f.bytecount + 1, Value(b))
    ensures var g := Action(mem, f, b);
      && g.powered && g.cmd == CMD_READ && g.bytecount == f.bytecount + 1
      && if f.bytecount == 3 then g.addr == (a + 1) % SIZE && g.out == mem(a) else g.addr == a
  {
    a := SetAddress(f.addr, f.bytecount + 1, Value(b));
  }

  lemma AddressSet(s0: nat, s1: nat, s2: nat, s: nat, v2: nat, v1: nat, v0: nat)
    requires v2 < 256 && v1 < 256 && v0 < 256
    requires s1 == SetAddress(s0, 2, v2) && s2 == SetAddress(s1, 3, v1) && s == SetAddress(s2, 4, v0)
    ensures s == 65536 * v2 + 256 * v1 + v0 < SIZE
  {
    assert s1 / 65536 == v2;
    assert s2 / 256 == 256 * v2 + v1;
  }

  /** The flash after rising clock edges at which it sampled the top `n` bits of `b`, from bit 7 down. */
  function Sampled(mem: Memory, f: Flash, b: Byte, n: nat): Flash
    requires n <= 8
    decreases n, b
  {
    if n == 0 then f else Sample(mem, Sampled(mem, f, b, n - 1), b[8 - n])
  }

  lemma {:induction false} SampledBits(mem: Memory, f: Flash, b: Byte, n: nat)
    requires f.bitcount == 0 && n <= 7
    ensures var g := Sampled(mem, f, b, n); g.byte == f.byte && g.bitcount == n && g.buffer[..n] == b[8 - n..]
  {
    if n > 0 {
      SampledBits(mem, f, b, n - 1);
      var h := Sampled(mem, f, b, n - 1);
      assert ShiftIn(h.buffer, b[8 - n])[..n] == [b[8 - n]] + h.buffer[..n - 1];
      assert [b[8 - n]] + b[8 - (n - 1)..] == b[8 - n..];
    }
  }

  /** On the wire the top bit of a byte comes first: after eight edges the flash
      acts on the byte whose bit 7 was sampled first. */
  lemma SampledByte(mem: Memory, f: Flash, b: Byte, n: nat)
    requires f.bitcount == 0 && n == 8
    ensures var h := Sampled(mem, f, b, n); h.byte == Action(mem, f.byte, b) && h.buffer == h.byte.out && h.bitcount == 0
  {
    SampledBits(mem, f, b, n - 1);
    var g := Sampled(mem, f, b, n - 1);
    assert ShiftIn(g.buffer, b[0]) == [b[0]] + b[1..];
    assert [b[0]] + b[1..] == b;
  }

  /** And what the flash puts out are the bits of its byte, the top bit first: the
      pin shows bit 7 of the buffer at each falling edge, and each rising edge
      moves the next bit there. */
  lemma DrivenBit(mem: Memory, f: Flash, x: bool, io0: bool)
    requires f.bitcount < 7
    ensures FlashEdge(mem, f, false, true, false, false, io0).dout == f.buffer[7]
    ensures Sample(mem, f, x).buffer[7] == f.buffer[6] && Sample(mem, f, x).byte == f.byte
  {
  }

  // ---- the shifter ----------------------------------------------------------------------

  datatype Xfer = Xfer(fetch: bool, csb: bool, clk: bool, count: nat, obuffer: Byte, ibuffer: Byte, tag: nat, tagQ: nat)

  datatype Din = Din(valid: bool, data: Byte, tag: nat)

  function NextCount(x: Xfer): nat
  {
    if x.clk && x.count > 0 then x.count - 1 else x.count
  }

  predicate DinReady(x: Xfer, resetn: bool, din: Din)
  {
    din.valid && resetn && NextCount(x) == 0
  }

  predicate DoutValid(x: Xfer, resetn: bool)
  {
    NextCount(x) == 0 && !x.fetch && resetn
  }

  /** One system clock edge; `io1` is the flash output pin. */
  function NextXfer(x: Xfer, resetn: bool, din: Din, io1: bool): Xfer
  {
    if !resetn then Xfer(true, true, false, 0, x.obuffer, x.ibuffer, 0, x.tag)
    else if DinReady(x, resetn, din) then
      Xfer(true, false, false, 8, din.data, if x.count > 0 && !x.clk then ShiftIn(x.ibuffer, io1) else x.ibuffer, din.tag, x.tag)
    else if x.count > 0 then
      Xfer(NextCount(x) == 0, x.csb, !x.clk && !x.csb, NextCount(x),
           if x.clk then ShiftIn(x.obuffer, false) else x.obuffer,
           if x.clk then x.ibuffer else ShiftIn(x.ibuffer, io1), x.tag, x.tag)
    else x.(fetch := true, tagQ := x.tag)
  }

  datatype Wires = Wires(x: Xfer, f: Flash)

  /** Shifter and flash together. */
  function NextWires(mem: Memory, w: Wires, resetn: bool, din: Din): Wires
  {
    var x := NextXfer(w.x, resetn, din, w.f.dout);
    Wires(x, FlashEdge(mem, w.f, w.x.csb, w.x.clk, x.csb, x.clk, x.obuffer[7]))
  }

  // ---- the byte link --------------------------------------------------------------------

  /** `count` bits remain, and in the second half of each the clock is high. In
      the last half the flash has acted on the byte and `got` is what came back. */
  datatype Link = Link(count: nat, high: bool, flash: FlashByte, data: Byte, tag: nat, got: Byte)

  /** The last clock of a byte. */
  predicate LastHalf(l: Link) { l.count == 1 && l.high }

  predicate Free(l: Link) { l.count == 0 || LastHalf(l) }

  function NextLink(mem: Memory, l: Link, resetn: bool, din: Din): Link
  {
    if !resetn then Link(0, false, Deselected(l.flash), l.data, 0, l.got)
    else if Free(l) then
      if din.valid then Link(8, false, l.flash, din.data, din.tag, l.got) else l.(count := 0, high := false)
    else if l.high then l.(count := l.count - 1, high := false)
    else if l.count == 1 then Link(1, true, Action(mem, l.flash, l.data), l.data, l.tag, l.flash.out)
    else l.(high := true)
  }

  /** Bits of the byte under way that the flash has taken in. */
  function Taken(l: Link): nat
    requires l.count <= 8
  {
    if Free(l) then 0 else if l.high then 9 - l.count else 8 - l.count
  }

  ghost predicate ControlAgrees(x: Xfer, l: Link)
  {
    && l.count <= 8 && (l.count == 0 ==> !l.high)
    && x.count == l.count && x.clk == l.high
    && x.fetch == (l.count == 0 || (l.count == 8 && !l.high))
    && (l.count > 0 ==> !x.csb && x.tag == l.tag && (l.count < 8 || l.high ==> x.tagQ == l.tag))
  }

  ghost predicate DataAgrees(x: Xfer, l: Link)
    requires l.count <= 8
  {
    if LastHalf(l) then x.ibuffer == l.got
    else
      && x.obuffer[8 - l.count..] == l.data[..l.count]
      && x.ibuffer[..Taken(l)] == l.flash.out[8 - Taken(l)..]
  }

  ghost predicate FlashAgrees(x: Xfer, f: Flash, l: Link)
    requires l.count <= 8
  {
    var n := Taken(l);
    && f.byte == l.flash && f.bitcount == n
    && f.buffer == l.data[8 - n..] + l.flash.out[..8 - n]
    && (x.csb ==> Deselected(f.byte) == f.byte)
    && (!x.csb && !x.clk ==> f.dout == f.buffer[7])
  }

  /** The wires carry the link. */
  ghost predicate Carries(w: Wires, l: Link)
  {
    ControlAgrees(w.x, l) && DataAgrees(w.x, l) && FlashAgrees(w.x, w.f, l)
  }

  lemma ControlStep(x: Xfer, l: Link, mem: Memory, resetn: bool, din: Din, io1: bool)
    requires ControlAgrees(x, l)
    ensures ControlAgrees(NextXfer(x, resetn, din, io1), NextLink(mem, l, resetn, din))
    ensures DinReady(x, resetn, din) <==> din.valid && resetn && Free(l)
    ensures DoutValid(x, resetn) <==> resetn && LastHalf(l)
  {
  }

  lemma ShiftedOut(b: Byte, d: Byte, c: nat)
    requires 0 < c <= 8 && b[8 - c..] == d[..c]
    ensures b[7] == d[c - 1] && ShiftIn(b, false)[8 - (c - 1)..] == d[..c - 1]
  {
    assert b[8 - c..][c - 1] == d[..c][c - 1];
    forall i | 0 <= i < c - 1
      ensures ShiftIn(b, false)[9 - c + i] == d[i]
    {
      assert b[8 - c..][i] == d[..c][i];
    }
  }

  lemma ShiftedIn(b: Byte, v: Byte, n: nat)
    requires n < 8 && b[..n] == v[8 - n..]
    ensures ShiftIn(b, v[7 - n])[..n + 1] == v[7 - n..]
  {
  }

  /** The next bit pushes one bit of the outgoing byte out of the flash buffer. */
  lemma Pushed(d: Byte, v: Byte, n: nat)
    requires n < 8
    ensures ShiftIn(d[8 - n..] + v[..8 - n], d[7 - n]) == d[7 - n..] + v[..7 - n]
    ensures (d[8 - n..] + v[..8 - n])[7] == v[7 - n]
  {
  }

  lemma Whole(d: Byte, v: Byte)
    ensures d[0..] + v[..0] == d && v[0..] == v && d[8..] + v[..8] == v
  {
  }

  /** Clock low: both sides take a bit in. */
  lemma LowHalf(w: Wires, l: Link, mem: Memory, din: Din)
    requires Carries(w, l) && l.count > 1 && !l.high
    ensures Carries(NextWires(mem, w, true, din), NextLink(mem, l, true, din))
  {
    var n := 8 - l.count;
    ShiftedOut(w.x.obuffer, l.data, l.count);
    Pushed(l.data, l.flash.out, n);
    ShiftedIn(w.x.ibuffer, l.flash.out, n);
  }

  /** The eighth bit completes the byte. */
  lemma LastLowHalf(w: Wires, l: Link, mem: Memory, din: Din)
    requires Carries(w, l) && l.count == 1 && !l.high
    ensures Carries(NextWires(mem, w, true, din), NextLink(mem, l, true, din))
  {
    ShiftedOut(w.x.obuffer, l.data, 1);
    Pushed(l.data, l.flash.out, 7);
    ShiftedIn(w.x.ibuffer, l.flash.out, 7);
    Whole(l.data, l.flash.out);
    assert ShiftIn(w.x.ibuffer, l.flash.out[0])[..8] == ShiftIn(w.x.ibuffer, l.flash.out[0]);
    assert ShiftIn(w.f.buffer, l.data[0]) == l.data;
  }

  /** Clock high: the shifter moves on to the next bit. */
  lemma HighHalf(w: Wires, l: Link, mem: Memory, din: Din)
    requires Carries(w, l) && l.count > 1 && l.high
    ensures Carries(NextWires(mem, w, true, din), NextLink(mem, l, true, din))
  {
    ShiftedOut(w.x.obuffer, l.data, l.count);
  }

  /** Between bytes: the next one is accepted, or the link rests. */
  lemma Boundary(w: Wires, l: Link, mem: Memory, din: Din)
    requires Carries(w, l) && Free(l)
    ensures Carries(NextWires(mem, w, true, din), NextLink(mem, l, true, din))
  {
    Whole(l.data, l.flash.out);
    Whole(din.data, l.flash.out);
  }

  lemma Closing(w: Wires, l: Link, mem: Memory, din: Din)
    requires Carries(w, l)
    ensures Carries(NextWires(mem, w, false, din), NextLink(mem, l, false, din))
  {
    Whole(l.data, ZERO_BYTE);
    Whole(l.data, l.flash.out);
  }

  /** Clock by clock, shifter and flash implement the byte link: the byte sent
      reaches the flash, and the byte that comes back is the one it had to give. */
  lemma LinkStep(w: Wires, l: Link, mem: Memory, resetn: bool, din: Din)
    requires Carries(w, l)
    ensures Carries(NextWires(mem, w, resetn, din), NextLink(mem, l, resetn, din))
    ensures DinReady(w.x, resetn, din) <==> din.valid && resetn && Free(l)
    ensures DoutValid(w.x, resetn) <==> resetn && LastHalf(l)
    ensures DoutValid(w.x, resetn) ==> w.x.ibuffer == l.got && w.x.tagQ == l.tag
  {
    ControlStep(w.x, l, mem, resetn, din, w.f.dout);
    if !resetn {
      Closing(w, l, mem, din);
    } else if Free(l) {
      Boundary(w, l, mem, din);
    } else if l.high {
      HighHalf(w, l, mem, din);
    } else if l.count == 1 {
      LastLowHalf(w, l, mem, din);
    } else {
      LowHalf(w, l, mem, din);
    }
  }

  // ---- the two devices ------------------------------------------------------------------

  class Shifter {
    var fetch: bool
    var csb: bool
    var clk: bool
    var count: nat
    var obuffer: Byte
    var ibuffer: Byte
    var tag: nat
    var tagQ: nat

    ghost function Contents(): Xfer
      reads this
    {
      Xfer(fetch, csb, clk, count, obuffer, ibuffer, tag, tagQ)
    }

    constructor ()
      ensures fetch && csb && !clk && count == 0
    {
      fetch, csb, clk, count := true, true, false, 0;
      obuffer, ibuffer, tag, tagQ := ZERO_BYTE, ZERO_BYTE, 0, 0;
    }

    /** One rising clock edge. */
    method Tick(resetn: bool, din: Din, io1: bool)
      modifies this
      ensures Contents() == NextXfer(old(Contents()), resetn, din, io1)
    {
      var nextCount := if clk && count > 0 then count - 1 else count;
      var accept := din.valid && resetn && nextCount == 0;
      tagQ := tag;
      if !resetn {
        fetch, csb, clk, count, tag := true, true, false, 0, 0;
      } else {
        fetch := nextCount == 0;
        if count > 0 {
          if clk {
            obuffer := ShiftIn(obuffer, false);
          } else {
            ibuffer := ShiftIn(ibuffer, io1);
          }
          clk, count := !clk && !csb, nextCount;
        }
        if accept {
          csb, clk, count, obuffer, tag := false, false, 8, din.data, din.tag;
        }
      }
    }
  }

  class SpiFlash {
    const memory: Memory
    var byte: FlashByte
    var buffer: Byte
    var bitcount: nat
    var dout: bool
    /** The pins as last seen. */
    var csb: bool
    var clk: bool

    ghost function Contents(): Flash
      reads this
    {
      Flash(byte, buffer, bitcount, dout)
    }

    constructor (memory: Memory)
      ensures this.memory == memory && csb && !clk && Contents().byte == Deselected(Contents().byte) && buffer == ZERO_BYTE && bitcount == 0
    {
      this.memory := memory;
      byte := FlashByte(0, ZERO_BYTE, 0, false, ZERO_BYTE);
      buffer, bitcount, dout, csb, clk := ZERO_BYTE, 0, false, true, false;
    }

    /** The pins take new values. */
    method Pins(csb': bool, clk': bool, io0: bool)
      modifies this
      ensures Contents() == FlashEdge(memory, old(Contents()), old(csb), old(clk), csb', clk', io0)
      ensures csb == csb' && clk == clk'
    {
      if csb' {
        if !csb {
          byte, buffer, bitcount := Deselected(byte), ZERO_BYTE, 0;
        }
      } else if clk' {
        if !clk {
          buffer, bitcount := ShiftIn(buffer, io0), bitcount + 1;
          if bitcount == 8 {
            bitcount := 0;
            byte := Action(memory, byte, buffer);
            buffer := byte.out;
          }
        }
      } else if csb || clk {
        dout := buffer[7];
      }
      csb, clk := csb', clk';
    }
  }
}
