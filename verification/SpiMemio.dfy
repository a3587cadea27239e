/** The prefetching flash reader, in its default single-bit read mode, against
    the plain memory it fronts. */
module SpiMemio {
  import opened Bits
  import opened Clocked
  import opened SpiLink

  // ---- registers ---------------------------------------------------------------------

  datatype Control = Control(state: nat, xferResetn: bool, softreset: bool)

  /** The word offered to the CPU: its address, whether it is there, whether the
      next one waits for a request, whether the next one follows on. */
  datatype Fetch = Fetch(addr: nat, valid: bool, wait: bool, inc: bool)

  datatype Collected = Collected(b0: Byte, b1: Byte, b2: Byte, rdata: Word)

  datatype Main = Main(ctl: Control, fetch: Fetch, col: Collected, din: Din)

  datatype In = In(resetn: bool, valid: bool, addr: nat)

  /** What the shifter gives back in a clock. */
  datatype Dout = Dout(valid: bool, tag: nat, data: Byte)

  predicate Ready(m: Main, i: In)
  {
    i.valid && i.addr == m.fetch.addr && m.fetch.valid
  }

  /** The comparison with the next address does not wrap at 24 bits. */
  predicate Jump(m: Main, i: In)
  {
    i.valid && !Ready(m, i) && i.addr != m.fetch.addr + 4 && m.fetch.valid
  }

  /** The low eight bits of a number. */
  function ByteOf(v: nat): Byte { LowBits(v, 8) }

  function NextFetch(m: Main, d: Dout, i: In): Fetch
  {
    var f := m.fetch;
    if !i.resetn || m.ctl.softreset then f.(valid := false)
    else
      var f1 := if d.valid && d.tag == 4 then Fetch(if f.inc then (f.addr + 4) % SIZE else i.addr, true, f.inc, true) else f;
      var f2 := if i.valid then f1.(wait := false) else f1;
      if Jump(m, i) then f2.(inc := false, valid := false)
      else if m.ctl.state == 4 then f2.(inc := false)
      else f2
  }

  function NextCollected(m: Main, d: Dout, i: In): Collected
  {
    var c := m.col;
    if !i.resetn || m.ctl.softreset || !d.valid then c
    else if d.tag == 1 then c.(b0 := d.data)
    else if d.tag == 2 then c.(b1 := d.data)
    else if d.tag == 3 then c.(b2 := d.data)
    else if d.tag == 4 then c.(rdata := c.b0 + c.b1 + c.b2 + d.data)
    else c
  }

  /** The states that send a byte, while they do. */
  predicate Sends(m: Main, i: In)
  {
    var s := m.ctl.state;
    s in {0, 2, 4, 6, 7, 9, 10, 11} || (s == 5 && i.valid && !Ready(m, i)) || (s == 12 && (!m.fetch.wait || i.valid))
  }

  function DataToSend(m: Main, i: In): Byte
  {
    var s := m.ctl.state;
    if s == 0 then CMD_EXIT
    else if s == 2 then CMD_WAKE
    else if s == 4 then CMD_READ
    else if s == 5 then ByteOf(i.addr / 65536)
    else if s == 6 then ByteOf(i.addr / 256 % 256)
    else if s == 7 then ByteOf(i.addr % 256)
    else if s == 10 then ZERO_BYTE
    else m.din.data
  }

  function TagToSend(s: nat): nat
  {
    if 9 <= s <= 12 then s - 8 else 0
  }

  function AfterSending(s: nat): nat
  {
    if s == 7 || s == 12 then 9 else s + 1
  }

  function NextDin(m: Main, dinReady: bool, i: In): Din
  {
    if !i.resetn || m.ctl.softreset then Din(false, m.din.data, 0)
    else if Sends(m, i) then
      Din(!dinReady, if m.ctl.state == 7 && dinReady then ZERO_BYTE else DataToSend(m, i), TagToSend(m.ctl.state))
    else m.din.(valid := false)
  }

  function NextControl(m: Main, d: Dout, dinReady: bool, i: In): Control
  {
    var s := m.ctl.state;
    if !i.resetn || m.ctl.softreset then Control(0, false, !i.resetn)
    else if Jump(m, i) then Control(4, false, false)
    else if (s == 1 || s == 3) && d.valid then Control(s + 1, false, false)
    else if Sends(m, i) && dinReady then Control(AfterSending(s), true, false)
    else Control(s, true, false)
  }

  /** One rising clock edge. */
  function NextMain(m: Main, d: Dout, dinReady: bool, i: In): Main
  {
    Main(NextControl(m, d, dinReady, i), NextFetch(m, d, i), NextCollected(m, d, i), NextDin(m, dinReady, i))
  }

  // ---- the controller's view of the link -------------------------------------------------

  /** The byte under way, if any: its tag, the byte that comes back for it, whether
      this is its last clock, and the flash as it will be when it is complete. */
  datatype View = View(sending: bool, ends: bool, tag: nat, coming: Byte, flash: FlashByte)

  function NoByte(f: FlashByte): View { View(false, false, 0, ZERO_BYTE, f) }

  function ViewOf(mem: Memory, m: Main, l: Link): View
  {
    if !m.ctl.xferResetn then NoByte(Deselected(l.flash))
    else if l.count == 0 then NoByte(l.flash)
    else if LastHalf(l) then View(true, true, l.tag, l.got, l.flash)
    else View(true, false, l.tag, l.flash.out, Action(mem, l.flash, l.data))
  }

  function DoutOf(v: View): Dout { Dout(v.ends, v.tag, v.coming) }

  predicate Accepts(m: Main, v: View)
  {
    m.din.valid && m.ctl.xferResetn && (!v.sending || v.ends)
  }

  /** One clock edge of the controller against the link it sees. */
  function NextOf(m: Main, v: View, i: In): Main
  {
    NextMain(m, DoutOf(v), Accepts(m, v), i)
  }

  /** The link a clock later, as long as it is not closed in the middle of a byte. */
  function NextView(mem: Memory, m: Main, resetn': bool, v: View, ends': bool): View
  {
    if !resetn' then NoByte(Deselected(v.flash))
    else if Accepts(m, v) then View(true, false, m.din.tag, v.flash.out, Action(mem, v.flash, m.din.data))
    else if v.sending && !v.ends then v.(ends := ends')
    else NoByte(v.flash)
  }

  // ---- the invariant -----------------------------------------------------------------------

  /** What the CPU has promised to hold: the address of an unanswered request. */
  datatype Promise = Nothing | Held(addr: nat)

  function NextPromise(m: Main, i: In): Promise
  {
    if i.resetn && i.valid && !Ready(m, i) then Held(i.addr) else Nothing
  }

  predicate Keeps(p: Promise, i: In)
  {
    i.addr < SIZE && (p.Held? && i.resetn ==> i.valid && i.addr == p.addr)
  }

  function ByteAt(mem: Memory, a: nat, k: nat): Byte { mem((a + k) % SIZE) }

  /** The little-endian word at `a`. */
  function WordAt(mem: Memory, a: nat): Word
  {
    ByteAt(mem, a, 0) + ByteAt(mem, a, 1) + ByteAt(mem, a, 2) + ByteAt(mem, a, 3)
  }

  /** The word at an address is little-endian: byte `k` of it is the byte `k` further on. */
  lemma WordAtBit(mem: Memory, a: nat, k: nat, b: nat)
    requires k < 4 && b < 8
    ensures WordAt(mem, a)[8 * k + b] == mem((a + k) % 0x100_0000)[b]
  {
  }

  /** Where the word being collected starts. */
  function Base(f: Fetch, p: Promise): nat
  {
    if f.inc then (f.addr + 4) % SIZE else if p.Held? then p.addr else 0
  }

  /** The next byte out of the flash is the one at `a + k`. */
  ghost predicate Streams(mem: Memory, e: FlashByte, a: nat, k: nat)
  {
    e.powered && e.cmd == CMD_READ && e.bytecount >= 4 && e.out == ByteAt(mem, a, k) && e.addr == (a + k + 1) % SIZE
  }

  /** States 0 to 4: the flash is woken up and the read command sent. */
  ghost predicate Starting(m: Main, v: View)
  {
    var s := m.ctl.state;
    && !m.fetch.valid
    && v.flash.bytecount == (if s == 1 || s == 3 then 1 else 0)
    && v.sending == (s == 1 || s == 3)
    && (s >= 3 ==> v.flash.powered)
    && (v.sending ==> v.tag == 0)
    && (m.din.valid && m.ctl.xferResetn ==>
          s in {0, 2, 4} && m.din.tag == 0
          && m.din.data == (if s == 0 then CMD_EXIT else if s == 2 then CMD_WAKE else CMD_READ))
  }

  /** States 5 to 7: the three address bytes. */
  ghost predicate Addressing(m: Main, v: View, p: Promise)
  {
    var e, s := v.flash, m.ctl.state;
    && !m.fetch.valid && !m.fetch.inc && m.ctl.xferResetn
    && e.powered && e.cmd == CMD_READ && e.bytecount == s - 4
    && (v.sending ==> v.tag == 0)
    && (m.din.valid || s > 5 ==> p.Held?)
    && (m.din.valid ==>
          m.din.tag == 0 && Value(m.din.data) == (if s == 5 then p.addr / 65536 else if s == 6 then p.addr / 256 % 256 else p.addr % 256))
    && (s == 6 ==> e.addr / 65536 == p.addr / 65536)
    && (s == 7 ==> e.addr / 256 == p.addr / 256)
  }

  /** The fourth byte of a word is still on its way. */
  predicate LastByte(s: nat, v: View) { s == 9 && v.sending && v.tag == 4 }

  /** States 9 to 12: where the flash is in the word that starts at `b`. */
  ghost predicate Reading(mem: Memory, s: nat, v: View, b: nat)
    requires s >= 9
  {
    if LastByte(s, v) then Streams(mem, v.flash, b, 4) && v.coming == ByteAt(mem, b, 3)
    else if s == 9 then Streams(mem, v.flash, b, 0) && (v.sending ==> v.tag == 0)
    else Streams(mem, v.flash, b, s - 9) && (v.sending ==> v.tag == s - 9 && v.coming == ByteAt(mem, b, s - 10))
  }

  /** The bytes of the word that have come in. */
  ghost predicate Gathered(mem: Memory, s: nat, v: View, c: Collected, b: nat)
  {
    && (LastByte(s, v) || s > 10 || (s == 10 && !v.sending) ==> c.b0 == ByteAt(mem, b, 0))
    && (LastByte(s, v) || s > 11 || (s == 11 && !v.sending) ==> c.b1 == ByteAt(mem, b, 1))
    && (LastByte(s, v) || (s == 12 && !v.sending) ==> c.b2 == ByteAt(mem, b, 2))
  }

  ghost predicate Requesting(m: Main, p: Promise)
  {
    && m.fetch.valid == m.fetch.inc && m.ctl.xferResetn
    && (!m.fetch.inc ==> p.Held?)
    && (m.din.valid ==> m.din.tag == m.ctl.state - 8 && (m.ctl.state == 12 ==> !m.fetch.wait))
  }

  ghost predicate Inv(mem: Memory, m: Main, v: View, p: Promise)
  {
    var s := m.ctl.state;
    && s <= 12 && s != 8 && (v.ends ==> v.sending)
    && m.fetch.addr < SIZE && (p.Held? ==> p.addr < SIZE)
    && (m.fetch.valid ==> m.col.rdata == WordAt(mem, m.fetch.addr))
    && (s <= 4 ==> Starting(m, v))
    && (5 <= s <= 7 ==> Addressing(m, v, p))
    && (9 <= s ==> Requesting(m, p) && Reading(mem, s, v, Base(m.fetch, p)) && Gathered(mem, s, v, m.col, Base(m.fetch, p)))
  }

  // ---- what each byte does to the flash --------------------------------------------------

  lemma ValueOfByte(v: nat)
    requires v < 256
    ensures Value(ByteOf(v)) == v
  {
    ValueOfLowBits(v, 8, 256);
  }

  /** The three address bytes put the address together. */
  lemma HighByte(e: nat, a: nat)
    requires a < SIZE
    ensures SetAddress(e, 2, a / 65536) / 65536 == a / 65536
  {
  }

  lemma MiddleByte(e: nat, a: nat)
    requires e / 65536 == a / 65536
    ensures SetAddress(e, 3, a / 256 % 256) / 256 == a / 256
  {
  }

  lemma LowByte(e: nat, a: nat)
    requires e / 256 == a / 256
    ensures SetAddress(e, 4, a % 256) == a
  {
  }

  lemma StreamsOn(mem: Memory, e: FlashByte, b: Byte, a: nat, k: nat)
    requires Streams(mem, e, a, k)
    ensures Streams(mem, Action(mem, e, b), a, k + 1)
  {
    NextAddress(a + k + 1);
  }

  lemma NextAddress(n: nat)
    ensures (n % SIZE + 1) % SIZE == (n + 1) % SIZE
  {
  }

  // ---- the invariant is kept -----------------------------------------------------------------

  predicate Runs(m: Main, i: In) { i.resetn && !m.ctl.softreset }

  ghost predicate Stays(mem: Memory, m: Main, v: View, p: Promise, i: In, ends': bool)
  {
    var n := NextOf(m, v, i);
    Inv(mem, n, NextView(mem, m, n.ctl.xferResetn, v, ends'), NextPromise(m, i))
  }

  lemma StartStep(mem: Memory, m: Main, v: View, p: Promise, i: In, ends': bool)
    requires Inv(mem, m, v, p) && Keeps(p, i) && Runs(m, i) && m.ctl.state <= 4
    ensures Stays(mem, m, v, p, i, ends')
  {
  }

  lemma AddressWait(mem: Memory, m: Main, v: View, p: Promise, i: In, ends': bool)
    requires Inv(mem, m, v, p) && Keeps(p, i) && Runs(m, i) && 5 <= m.ctl.state <= 7 && !Accepts(m, v)
    ensures Stays(mem, m, v, p, i, ends')
  {
    ValueOfByte(i.addr / 65536);
    ValueOfByte(i.addr / 256 % 256);
    ValueOfByte(i.addr % 256);
  }

  lemma AddressSent(mem: Memory, m: Main, v: View, p: Promise, i: In, ends': bool)
    requires Inv(mem, m, v, p) && Keeps(p, i) && Runs(m, i) && 5 <= m.ctl.state <= 6 && Accepts(m, v)
    ensures Stays(mem, m, v, p, i, ends')
  {
    if m.ctl.state == 5 {
      HighByte(v.flash.addr, i.addr);
    } else {
      MiddleByte(v.flash.addr, i.addr);
    }
  }

  /** With the last address byte the flash starts to stream. */
  lemma LastAddressSent(mem: Memory, m: Main, v: View, p: Promise, i: In, ends': bool)
    requires Inv(mem, m, v, p) && Keeps(p, i) && Runs(m, i) && m.ctl.state == 7 && Accepts(m, v)
    ensures Stays(mem, m, v, p, i, ends')
  {
    LowByte(v.flash.addr, i.addr);
  }

  lemma Rebase(mem: Memory, e: FlashByte, a: nat)
    requires Streams(mem, e, a, 4)
    ensures Streams(mem, e, (a + 4) % SIZE, 0)
  {
  }

  /** In states 9 to 12 the controller only moves on when a byte is accepted. */
  lemma ReadMain(m: Main, v: View, p: Promise, i: In)
    requires Runs(m, i) && 9 <= m.ctl.state <= 12 && !Jump(m, i) && Requesting(m, p) && Keeps(p, i)
    ensures var n, s, word := NextOf(m, v, i), m.ctl.state, v.ends && v.tag == 4;
      && n.ctl == Control(if Accepts(m, v) then AfterSending(s) else s, true, false)
      && n.fetch.addr == (if word then Base(m.fetch, p) else m.fetch.addr)
      && n.fetch.inc == (m.fetch.inc || word) == n.fetch.valid
      && (n.din.valid ==> !Accepts(m, v) && n.din.tag == s - 8 && (s == 12 ==> !m.fetch.wait || i.valid))
      && (!word && (i.valid || !m.fetch.wait) ==> !n.fetch.wait)
      && (!n.fetch.inc ==> NextPromise(m, i) == p)
  {
  }

  /** A clock in which the last byte of a word comes in. */
  lemma WordStep(mem: Memory, m: Main, v: View, p: Promise, i: In, ends': bool, n: Main)
    requires Inv(mem, m, v, p) && Keeps(p, i) && Runs(m, i) && 9 <= m.ctl.state && !Jump(m, i) && v.ends && v.tag == 4
    requires n.ctl == Control(if Accepts(m, v) then 10 else 9, true, false)
    requires n.fetch.addr == Base(m.fetch, p) && n.fetch.inc && n.fetch.valid
    requires n.din.valid ==> !Accepts(m, v) && n.din.tag == 1
    requires n.col == m.col.(rdata := m.col.b0 + m.col.b1 + m.col.b2 + v.coming)
    ensures Inv(mem, n, NextView(mem, m, true, v, ends'), NextPromise(m, i))
  {
    var b := Base(m.fetch, p);
    assert m.ctl.state == 9 && LastByte(9, v);
    Rebase(mem, v.flash, b);
    if Accepts(m, v) {
      StreamsOn(mem, v.flash, m.din.data, (b + 4) % SIZE, 0);
    }
  }

  /** Any other clock of states 9 to 12. */
  lemma ByteStep(mem: Memory, m: Main, v: View, p: Promise, i: In, ends': bool, n: Main)
    requires Inv(mem, m, v, p) && Keeps(p, i) && Runs(m, i) && 9 <= m.ctl.state && !Jump(m, i) && !(v.ends && v.tag == 4)
    requires n.ctl == Control(if Accepts(m, v) then AfterSending(m.ctl.state) else m.ctl.state, true, false)
    requires n.fetch.addr == m.fetch.addr && n.fetch.inc == m.fetch.inc == n.fetch.valid
    requires n.din.valid ==> !Accepts(m, v) && n.din.tag == m.ctl.state - 8 && (m.ctl.state == 12 ==> !n.fetch.wait)
    requires n.col == NextCollected(m, DoutOf(v), i)
    requires !n.fetch.inc ==> NextPromise(m, i) == p
    ensures Inv(mem, n, NextView(mem, m, true, v, ends'), NextPromise(m, i))
  {
    var b := Base(m.fetch, p);
    assert Base(n.fetch, NextPromise(m, i)) == b;
    if Accepts(m, v) {
      StreamsOn(mem, v.flash, m.din.data, b, m.ctl.state - 9);
    }
  }

  lemma ReadStep(mem: Memory, m: Main, v: View, p: Promise, i: In, ends': bool)
    requires Inv(mem, m, v, p) && Keeps(p, i) && Runs(m, i) && 9 <= m.ctl.state && !Jump(m, i)
    ensures Stays(mem, m, v, p, i, ends')
  {
    ReadMain(m, v, p, i);
    var n := NextOf(m, v, i);
    if v.ends && v.tag == 4 {
      WordStep(mem, m, v, p, i, ends', n);
    } else {
      ByteStep(mem, m, v, p, i, ends', n);
    }
  }

  // ---- the whole chip --------------------------------------------------------------------------

  /** The controller with the link seen byte by byte. */
  datatype System = System(m: Main, l: Link)

  function NextSystem(mem: Memory, s: System, i: In): System
  {
    System(NextOf(s.m, ViewOf(mem, s.m, s.l), i), NextLink(mem, s.l, s.m.ctl.xferResetn, s.m.din))
  }

  /** In a clock that does not close the link, the view moves as the invariant expects. */
  lemma ViewStep(mem: Memory, s: System, i: In)
    requires NextSystem(mem, s, i).m.ctl.xferResetn || (s.m.ctl.state <= 4 && Runs(s.m, i) && Starting(s.m, ViewOf(mem, s.m, s.l)))
    ensures var n, v := NextSystem(mem, s, i), ViewOf(mem, s.m, s.l);
      ViewOf(mem, n.m, n.l) == NextView(mem, s.m, n.m.ctl.xferResetn, v, ViewOf(mem, n.m, n.l).ends)
  {
  }

  ghost predicate SystemInv(mem: Memory, s: System, p: Promise)
  {
    Inv(mem, s.m, ViewOf(mem, s.m, s.l), p)
  }

  lemma ResetStep(mem: Memory, s: System, p: Promise, i: In)
    requires SystemInv(mem, s, p) && Keeps(p, i) && !Runs(s.m, i)
    ensures SystemInv(mem, NextSystem(mem, s, i), NextPromise(s.m, i))
  {
  }

  /** A jump closes the link, wherever it is; the flash stays awake. */
  lemma JumpStep(mem: Memory, s: System, p: Promise, i: In)
    requires SystemInv(mem, s, p) && Keeps(p, i) && Runs(s.m, i) && Jump(s.m, i)
    ensures SystemInv(mem, NextSystem(mem, s, i), NextPromise(s.m, i))
  {
    assert s.m.ctl.state >= 9 && ViewOf(mem, s.m, s.l).flash.bytecount >= 4;
    assert s.l.flash.powered;
  }

  lemma AnyStep(mem: Memory, s: System, p: Promise, i: In)
    requires SystemInv(mem, s, p) && Keeps(p, i)
    ensures SystemInv(mem, NextSystem(mem, s, i), NextPromise(s.m, i))
  {
    var v := ViewOf(mem, s.m, s.l);
    var n := NextSystem(mem, s, i);
    var ends' := ViewOf(mem, n.m, n.l).ends;
    if !Runs(s.m, i) {
      ResetStep(mem, s, p, i);
    } else if Jump(s.m, i) {
      JumpStep(mem, s, p, i);
    } else {
      NormalStep(mem, s, p, i, ends');
      if s.m.ctl.state >= 5 {
        StaysOpen(s.m, v, p, i);
      }
      ViewStep(mem, s, i);
    }
  }

  lemma StaysOpen(m: Main, v: View, p: Promise, i: In)
    requires Runs(m, i) && !Jump(m, i) && m.ctl.state >= 5
    ensures NextOf(m, v, i).ctl.xferResetn
  {
  }

  lemma NormalStep(mem: Memory, s: System, p: Promise, i: In, ends': bool)
    requires SystemInv(mem, s, p) && Keeps(p, i) && Runs(s.m, i) && !Jump(s.m, i)
    ensures Stays(mem, s.m, ViewOf(mem, s.m, s.l), p, i, ends')
  {
    var v := ViewOf(mem, s.m, s.l);
    if s.m.ctl.state <= 4 {
      StartStep(mem, s.m, v, p, i, ends');
    } else if s.m.ctl.state >= 9 {
      ReadStep(mem, s.m, v, p, i, ends');
    } else if !Accepts(s.m, v) {
      AddressWait(mem, s.m, v, p, i, ends');
    } else if s.m.ctl.state == 7 {
      LastAddressSent(mem, s.m, v, p, i, ends');
    } else {
      AddressSent(mem, s.m, v, p, i, ends');
    }
  }

  // ---- runs of controller, shifter and flash ---------------------------------------------------

  datatype Chip = Chip(m: Main, w: Wires)

  /** One rising clock edge of everything. */
  function NextChip(mem: Memory, c: Chip, i: In): Chip
  {
    var resetn := c.m.ctl.xferResetn;
    Chip(NextMain(c.m, Dout(DoutValid(c.w.x, resetn), c.w.x.tagQ, c.w.x.ibuffer), DinReady(c.w.x, resetn, c.m.din), i),
         NextWires(mem, c.w, resetn, c.m.din))
  }

  /** The wires carry a link that keeps the invariant. */
  ghost predicate Realizes(mem: Memory, c: Chip, l: Link, p: Promise)
  {
    Carries(c.w, l) && SystemInv(mem, System(c.m, l), p)
  }

  /** Data and tag of the shifter only count when they are valid. */
  lemma SameDout(m: Main, d: Dout, e: Dout, dinReady: bool, i: In)
    requires d.valid == e.valid && (d.valid ==> d == e)
    ensures NextMain(m, d, dinReady, i) == NextMain(m, e, dinReady, i)
  {
  }

  lemma ChipStep(mem: Memory, c: Chip, l: Link, p: Promise, i: In)
    requires Realizes(mem, c, l, p) && Keeps(p, i)
    ensures Realizes(mem, NextChip(mem, c, i), NextLink(mem, l, c.m.ctl.xferResetn, c.m.din), NextPromise(c.m, i))
  {
    var resetn := c.m.ctl.xferResetn;
    var v := ViewOf(mem, c.m, l);
    LinkStep(c.w, l, mem, resetn, c.m.din);
    AnyStep(mem, System(c.m, l), p, i);
    var d := Dout(DoutValid(c.w.x, resetn), c.w.x.tagQ, c.w.x.ibuffer);
    assert DinReady(c.w.x, resetn, c.m.din) == Accepts(c.m, v);
    SameDout(c.m, d, DoutOf(v), Accepts(c.m, v), i);
  }

  type ChipClock = (Chip, In) -> Chip

  predicate Look(c: Chip, i: In) { true }

  /** `tick` is the clock edge of the chip; asserting `Look(c, i)` looks at it. */
  ghost predicate Implements(tick: ChipClock, mem: Memory)
  {
    forall c: Chip, i: In {:trigger Look(c, i)} :: tick(c, i) == NextChip(mem, c, i)
  }

  /** After a reset clock: nothing fetched, nothing offered, flash deselected. */
  ghost predicate AfterReset(c: Chip)
  {
    && c.m.ctl == Control(0, false, true) && !c.m.fetch.valid && c.m.fetch.addr < SIZE && !c.m.din.valid
    && c.w.x.fetch && c.w.x.csb && !c.w.x.clk && c.w.x.count == 0
    && c.w.f.byte == Deselected(c.w.f.byte) && c.w.f.buffer == ZERO_BYTE && c.w.f.bitcount == 0
  }

  /** A request made and not answered in clock `k` is still there in the next one. */
  predicate HoldsAt(tick: ChipClock, c: Chip, ins: nat -> In, k: nat)
  {
    && ins(k).addr < SIZE
    && (ins(k).resetn && ins(k).valid && !Ready(RunWith(tick, c, ins, k).m, ins(k)) && ins(k + 1).resetn ==>
          ins(k + 1).valid && ins(k + 1).addr == ins(k).addr)
  }

  ghost predicate HoldsRequests(tick: ChipClock, c: Chip, ins: nat -> In)
  {
    forall k: nat :: HoldsAt(tick, c, ins, k)
  }

  function PromiseAt(tick: ChipClock, c: Chip, ins: nat -> In, k: nat): Promise
  {
    if k == 0 then Nothing else NextPromise(RunWith(tick, c, ins, k - 1).m, ins(k - 1))
  }

  lemma PromiseKept(tick: ChipClock, c: Chip, ins: nat -> In, k: nat)
    requires HoldsRequests(tick, c, ins)
    ensures Keeps(PromiseAt(tick, c, ins, k), ins(k))
  {
    if k > 0 {
      assert HoldsAt(tick, c, ins, k - 1);
    }
    assert HoldsAt(tick, c, ins, k);
  }

  /** The link carried by the wires during a run. */
  lemma {:induction false} RunRealizes(tick: ChipClock, mem: Memory, c: Chip, ins: nat -> In, k: nat) returns (l: Link)
    requires Implements(tick, mem) && AfterReset(c) && HoldsRequests(tick, c, ins)
    ensures Realizes(mem, RunWith(tick, c, ins, k), l, PromiseAt(tick, c, ins, k))
  {
    if k == 0 {
      l := Link(0, false, c.w.f.byte, ZERO_BYTE, 0, ZERO_BYTE);
      assert RunWith(tick, c, ins, 0) == c;
    } else {
      var m := RunRealizes(tick, mem, c, ins, k - 1);
      var d := RunWith(tick, c, ins, k - 1);
      PromiseKept(tick, c, ins, k - 1);
      assert Look(d, ins(k - 1));
      ChipStep(mem, d, m, PromiseAt(tick, c, ins, k - 1), ins(k - 1));
      l := NextLink(mem, m, d.m.ctl.xferResetn, d.m.din);
    }
  }

  /** In every run from reset, whenever `ready` is up the data is the
      little-endian word of the flash at the address asked for. */
  lemma ReadsMemory(tick: ChipClock, mem: Memory, c: Chip, ins: nat -> In, k: nat)
    requires Implements(tick, mem) && AfterReset(c) && HoldsRequests(tick, c, ins)
    requires Ready(RunWith(tick, c, ins, k).m, ins(k))
    ensures RunWith(tick, c, ins, k).m.col.rdata == WordAt(mem, ins(k).addr)
  {
    var l := RunRealizes(tick, mem, c, ins, k);
  }

  // ---- every request is answered ---------------------------------------------------------------

  predicate Served(m: Main, p: Promise)
  {
    p.Held? && m.fetch.valid && m.fetch.addr == p.addr
  }

  /** Bytes and controller steps still to come before the request is answered. */
  function Stage(m: Main, v: View, a: nat): nat
    requires m.ctl.state <= 12
  {
    var s := m.ctl.state;
    if m.fetch.valid && a != m.fetch.addr + 4 then 21
    else if LastByte(s, v) then 8
    else if s >= 9 then 21 - s
    else 20 - s
  }

  /** Half-bits of the byte under way still to come. */
  function Left(l: Link): nat
  {
    if l.count > 0 && l.high then 2 * l.count - 1 else 2 * l.count
  }

  function Rank(mem: Memory, s: System, a: nat): nat
    requires s.m.ctl.state <= 12
  {
    24 * Stage(s.m, ViewOf(mem, s.m, s.l), a) + (if s.m.ctl.xferResetn then Left(s.l) else 3) + (if s.m.din.valid then 0 else 2)
  }

  ghost predicate Progresses(mem: Memory, s: System, p: Promise, i: In)
    requires p.Held? && s.m.ctl.state <= 12
  {
    var n := NextSystem(mem, s, i);
    Served(n.m, p) || (n.m.ctl.state <= 12 && Rank(mem, n, p.addr) < Rank(mem, s, p.addr))
  }

  ghost predicate Outstanding(mem: Memory, s: System, p: Promise, i: In)
  {
    SystemInv(mem, s, p) && s.l.count <= 8 && Keeps(p, i) && Runs(s.m, i) && p.Held? && !Served(s.m, p)
  }

  lemma JumpProgresses(mem: Memory, s: System, p: Promise, i: In)
    requires Outstanding(mem, s, p, i) && s.m.fetch.valid && p.addr != s.m.fetch.addr + 4
    ensures Progresses(mem, s, p, i)
  {
  }

  lemma StartProgresses(mem: Memory, s: System, p: Promise, i: In)
    requires Outstanding(mem, s, p, i) && s.m.ctl.state <= 4
    ensures Progresses(mem, s, p, i)
  {
  }

  lemma AddressProgresses(mem: Memory, s: System, p: Promise, i: In)
    requires Outstanding(mem, s, p, i) && 5 <= s.m.ctl.state <= 7
    ensures Progresses(mem, s, p, i)
  {
  }

  lemma ReadProgresses(mem: Memory, s: System, p: Promise, i: In)
    requires Outstanding(mem, s, p, i) && 9 <= s.m.ctl.state && (s.m.fetch.valid ==> p.addr == s.m.fetch.addr + 4)
    ensures Progresses(mem, s, p, i)
  {
    var v := ViewOf(mem, s.m, s.l);
    ReadMain(s.m, v, p, i);
  }

  lemma RequestProgresses(mem: Memory, s: System, p: Promise, i: In)
    requires Outstanding(mem, s, p, i)
    ensures Progresses(mem, s, p, i) && NextPromise(s.m, i) == p && !NextSystem(mem, s, i).m.ctl.softreset
  {
    if s.m.fetch.valid && p.addr != s.m.fetch.addr + 4 {
      JumpProgresses(mem, s, p, i);
    } else if s.m.ctl.state <= 4 {
      StartProgresses(mem, s, p, i);
    } else if s.m.ctl.state <= 7 {
      AddressProgresses(mem, s, p, i);
    } else {
      ReadProgresses(mem, s, p, i);
    }
  }

  lemma RankBound(mem: Memory, s: System, a: nat)
    requires s.m.ctl.state <= 12 && s.l.count <= 8
    ensures Rank(mem, s, a) <= 522
  {
  }

  lemma SameMain(mem: Memory, c: Chip, l: Link, p: Promise, i: In)
    requires Realizes(mem, c, l, p)
    ensures NextChip(mem, c, i).m == NextSystem(mem, System(c.m, l), i).m
  {
    var resetn := c.m.ctl.xferResetn;
    var v := ViewOf(mem, c.m, l);
    LinkStep(c.w, l, mem, resetn, c.m.din);
    var d := Dout(DoutValid(c.w.x, resetn), c.w.x.tagQ, c.w.x.ibuffer);
    SameDout(c.m, d, DoutOf(v), Accepts(c.m, v), i);
  }

  /** The request `p` is answered in at most `r` clocks. */
  ghost predicate Due(mem: Memory, c: Chip, l: Link, p: Promise, r: nat)
  {
    && Realizes(mem, c, l, p) && p.Held? && !c.m.ctl.softreset
    && (Served(c.m, p) || Rank(mem, System(c.m, l), p.addr) <= r)
  }

  /** One clock of an outstanding request. */
  lemma WaitStep(mem: Memory, c: Chip, l: Link, p: Promise, i: In, r: nat) returns (l': Link)
    requires Due(mem, c, l, p, r) && !Served(c.m, p) && Keeps(p, i) && i.resetn
    ensures r > 0 && Due(mem, NextChip(mem, c, i), l', p, r - 1) && NextPromise(c.m, i) == p
  {
    l' := NextLink(mem, l, c.m.ctl.xferResetn, c.m.din);
    RequestProgresses(mem, System(c.m, l), p, i);
    ChipStep(mem, c, l, p, i);
    SameMain(mem, c, l, p, i);
    RankPositive(mem, System(c.m, l), p.addr);
  }

  lemma RankPositive(mem: Memory, s: System, a: nat)
    requires s.m.ctl.state <= 12
    ensures Rank(mem, s, a) > 0
  {
  }

  lemma ServedIsReady(c: Chip, p: Promise, i: In)
    requires Served(c.m, p) && Keeps(p, i) && i.resetn
    ensures Ready(c.m, i) && i.addr == p.addr
  {
  }

  lemma {:induction false} WaitServed(tick: ChipClock, mem: Memory, c: Chip, ins: nat -> In, k: nat, l: Link, p: Promise, r: nat) returns (n: nat)
    requires Implements(tick, mem) && HoldsRequests(tick, c, ins)
    requires Due(mem, RunWith(tick, c, ins, k), l, p, r) && p == PromiseAt(tick, c, ins, k)
    requires forall j: nat | k <= j :: ins(j).resetn
    ensures k <= n <= k + r && Ready(RunWith(tick, c, ins, n).m, ins(n)) && ins(n).addr == p.addr
    decreases r
  {
    var d := RunWith(tick, c, ins, k);
    PromiseKept(tick, c, ins, k);
    assert ins(k).resetn;
    if Served(d.m, p) {
      n := k;
      ServedIsReady(d, p, ins(k));
    } else {
      var l' := WaitStep(mem, d, l, p, ins(k), r);
      assert Look(d, ins(k));
      n := WaitServed(tick, mem, c, ins, k + 1, l', p, r - 1);
    }
  }

  /** Every request made out of reset is answered within a fixed number of
      clocks, across start-up, prefetches and jumps. */
  lemma AnswersRequests(tick: ChipClock, mem: Memory, c: Chip, ins: nat -> In, k: nat) returns (n: nat)
    requires Implements(tick, mem) && AfterReset(c) && HoldsRequests(tick, c, ins)
    requires ins(k).valid && forall j: nat | k <= j :: ins(j).resetn
    ensures k <= n <= k + 523 && Ready(RunWith(tick, c, ins, n).m, ins(n)) && ins(n).addr == ins(k).addr
    ensures RunWith(tick, c, ins, n).m.col.rdata == WordAt(mem, ins(k).addr)
  {
    var d := RunWith(tick, c, ins, k);
    assert ins(k).resetn;
    if Ready(d.m, ins(k)) {
      n := k;
    } else {
      var l := RunRealizes(tick, mem, c, ins, k + 1);
      var e := RunWith(tick, c, ins, k + 1);
      assert Look(d, ins(k));
      RankBound(mem, System(e.m, l), ins(k).addr);
      n := WaitServed(tick, mem, c, ins, k + 1, l, Held(ins(k).addr), 522);
    }
    ReadsMemory(tick, mem, c, ins, n);
  }

  // ---- the controller --------------------------------------------------------------------------

  class Reader {
    const xfer: Shifter
    var ctl: Control
    var fetch: Fetch
    var col: Collected
    var din: Din

    ghost function Contents(): Main
      reads this
    {
      Main(ctl, fetch, col, din)
    }

    constructor ()
      ensures fresh(xfer) && ctl == Control(0, false, true) && !fetch.valid && !din.valid && fetch.addr < SIZE
      ensures xfer.fetch && xfer.csb && !xfer.clk && xfer.count == 0
    {
      xfer := new Shifter();
      ctl := Control(0, false, true);
      fetch := Fetch(0, false, false, false);
      col := Collected(ZERO_BYTE, ZERO_BYTE, ZERO_BYTE, Zeros(32));
      din := Din(false, ZERO_BYTE, 0);
    }

    /** Offers the byte of this state, and moves on once it is accepted. */
    method Send(d: Dout, dinReady: bool, i: In, request: bool, jump: bool)
      requires i.resetn && !ctl.softreset && jump == Jump(Contents(), i) && request == (i.valid && !Ready(Contents(), i))
      modifies this`ctl, this`din
      ensures ctl == NextControl(old(Contents()), d, dinReady, i) && din == NextDin(old(Contents()), dinReady, i)
    {
      var s, data := ctl.state, din.data;
      var send := s in {0, 2, 4, 6, 7, 9, 10, 11} || (s == 5 && request) || (s == 12 && (!fetch.wait || i.valid));
      if s == 0 {
        data := CMD_EXIT;
      } else if s == 2 {
        data := CMD_WAKE;
      } else if s == 4 {
        data := CMD_READ;
      } else if s == 5 {
        data := ByteOf(i.addr / 65536);
      } else if s == 6 {
        data := ByteOf(i.addr / 256 % 256);
      } else if s == 7 {
        data := if dinReady then ZERO_BYTE else ByteOf(i.addr % 256);
      } else if s == 10 {
        data := ZERO_BYTE;
      }
      din := if send then Din(!dinReady, data, if 9 <= s <= 12 then s - 8 else 0) else din.(valid := false);
      if jump {
        ctl := Control(4, false, false);
      } else if (s == 1 || s == 3) && d.valid {
        ctl := Control(s + 1, false, false);
      } else if send && dinReady {
        ctl := Control(if s == 7 || s == 12 then 9 else s + 1, true, false);
      } else {
        ctl := Control(s, true, false);
      }
    }

    /** Puts the byte that came back where its tag says, and completes the word. */
    method Collect(ghost m: Main, d: Dout, i: In, s: nat, jump: bool)
      requires fetch == m.fetch && col == m.col && s == m.ctl.state && i.resetn && !m.ctl.softreset && jump == Jump(m, i)
      modifies this`fetch, this`col
      ensures fetch == NextFetch(m, d, i) && col == NextCollected(m, d, i)
    {
      if d.valid && d.tag == 1 {
        col := col.(b0 := d.data);
      } else if d.valid && d.tag == 2 {
        col := col.(b1 := d.data);
      } else if d.valid && d.tag == 3 {
        col := col.(b2 := d.data);
      } else if d.valid && d.tag == 4 {
        col := col.(rdata := col.b0 + col.b1 + col.b2 + d.data);
        fetch := Fetch(if fetch.inc then (fetch.addr + 4) % SIZE else i.addr, true, fetch.inc, true);
      }
      if i.valid {
        fetch := fetch.(wait := false);
      }
      if s == 4 {
        fetch := fetch.(inc := false);
      }
      if jump {
        fetch := fetch.(inc := false, valid := false);
      }
    }

    /** The reader's registers, given what the shifter gives back. */
    method Advance(d: Dout, dinReady: bool, i: In)
      modifies this
      ensures Contents() == NextMain(old(Contents()), d, dinReady, i)
    {
      ghost var m := Contents();
      if !i.resetn || ctl.softreset {
        ctl, din := Control(0, false, !i.resetn), Din(false, din.data, 0);
        fetch := fetch.(valid := false);
      } else {
        var request := i.valid && !(i.addr == fetch.addr && fetch.valid);
        var jump := request && fetch.valid && i.addr != fetch.addr + 4;
        var s := ctl.state;
        Send(d, dinReady, i, request, jump);
        Collect(m, d, i, s, jump);
      }
    }

    /** One rising clock edge; `io1` is the flash output pin. */
    method Tick(i: In, io1: bool)
      modifies this, xfer
      ensures var x, resetn := old(xfer.Contents()), old(ctl).xferResetn;
        && xfer.Contents() == NextXfer(x, resetn, old(din), io1)
        && Contents() == NextMain(old(Contents()), Dout(DoutValid(x, resetn), x.tagQ, x.ibuffer), DinReady(x, resetn, old(din)), i)
    {
      var nextCount := if xfer.clk && xfer.count > 0 then xfer.count - 1 else xfer.count;
      var dinReady := din.valid && ctl.xferResetn && nextCount == 0;
      var d := Dout(nextCount == 0 && !xfer.fetch && ctl.xferResetn, xfer.tagQ, xfer.ibuffer);
      xfer.Tick(ctl.xferResetn, din, io1);
      Advance(d, dinReady, i);
    }
  }
}
