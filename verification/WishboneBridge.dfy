/** The state machine that turns native memory transfers into Wishbone cycles. */
module WishboneBridge {
  import opened Bits
  import opened Clocked

  datatype Transfer = Transfer(addr: Word, wdata: Word, wstrb: Strobe)

  predicate Writes(t: Transfer) { t.wstrb[0] || t.wstrb[1] || t.wstrb[2] || t.wstrb[3] }

  datatype State = Idle | Started | Ending

  /** The bus outputs. */
  datatype Bus = Bus(adr: Word, dat: Word, we: bool, sel: Strobe, stb: bool, cyc: bool)

  datatype Regs = Regs(state: State, bus: Bus, ready: bool, rdata: Word)

  datatype In = In(reset: bool, valid: bool, t: Transfer, ack: bool, dat: Word)

  /** One clock edge. */
  function Next(r: Regs, i: In): Regs
  {
    if i.reset then Regs(Idle, Bus(Zeros(32), Zeros(32), false, [false, false, false, false], false, false), r.ready, r.rdata)
    else
      match r.state
      case Idle =>
        if i.valid then r.(state := Started, bus := Bus(i.t.addr, i.t.wdata, Writes(i.t), i.t.wstrb, true, true))
        else r.(ready := false, bus := r.bus.(stb := false, cyc := false, we := false))
      case Started =>
        if i.ack then Regs(Ending, r.bus.(stb := false, cyc := false, we := false), true, i.dat) else r
      case Ending => r.(state := Idle, ready := false)
  }

  // ---- the cycles of a transfer ------------------------------------------------------------

  /** An acknowledged bus cycle. */
  datatype Cycle = Cycle(adr: Word, dat: Word, we: bool, sel: Strobe, read: Word)

  function CycleOf(t: Transfer, read: Word): Cycle { Cycle(t.addr, t.wdata, Writes(t), t.wstrb, read) }

  /** The cycle of a transfer: its address, data and strobes, and a write if and only if a strobe is up. */
  lemma CycleFields(t: Transfer, read: Word)
    ensures var c := CycleOf(t, read);
      && c.adr == t.addr && c.dat == t.wdata && c.sel == t.wstrb && c.read == read
      && (c.we <==> exists k: nat | k < 4 :: t.wstrb[k])
  {
    assert Writes(t) ==> t.wstrb[0] || t.wstrb[1] || t.wstrb[2] || t.wstrb[3];
  }

  predicate Completes(r: Regs, i: In) { i.valid && r.ready }

  /** What binds the core in the next clock: nothing, the transfer it began and
      has not seen end, or a reset, which takes its request down as well. */
  datatype Open = Closed | Began(t: Transfer) | WasReset

  /** With the cycles acknowledged since the transfer began. */
  datatype System = System(r: Regs, cycles: seq<Cycle>, open: Open)

  function Acknowledged(s: System, i: In): seq<Cycle>
  {
    if s.r.bus.stb && s.r.bus.cyc && i.ack then s.cycles + [Cycle(s.r.bus.adr, s.r.bus.dat, s.r.bus.we, s.r.bus.sel, i.dat)] else s.cycles
  }

  function NextSystem(s: System, i: In): System
  {
    System(Next(s.r, i), if i.reset || Completes(s.r, i) then [] else Acknowledged(s, i),
           if i.reset then WasReset else if i.valid && !s.r.ready then Began(i.t) else Closed)
  }

  /** The core holds a transfer until it ends, and makes no request in the clock
      after one of reset. */
  predicate Obeys(s: System, i: In)
  {
    match s.open
    case Closed => true
    case Began(t) => i.reset || (i.valid && i.t == t)
    case WasReset => !i.valid
  }

  ghost predicate Inv(s: System)
  {
    var b := s.r.bus;
    if s.open.WasReset? then s.r.state.Idle? && s.cycles == [] && !b.stb && !b.cyc
    else
      && b.stb == b.cyc == s.r.state.Started? && s.r.ready == s.r.state.Ending?
      && match s.r.state
         case Idle => s.cycles == []
         case Started => s.open.Began? && s.cycles == [] && CycleOf(s.open.t, s.r.rdata) == Cycle(b.adr, b.dat, b.we, b.sel, s.r.rdata)
         case Ending => s.open.Began? && s.cycles == [CycleOf(s.open.t, s.r.rdata)]
  }

  lemma InvStep(s: System, i: In)
    requires Inv(s) && Obeys(s, i)
    ensures Inv(NextSystem(s, i))
  {
  }

  type Driver = (System, In) -> System

  predicate Look(s: System, i: In) { true }

  ghost predicate Drives(tick: Driver)
  {
    forall s: System, i: In {:trigger Look(s, i)} :: tick(s, i) == NextSystem(s, i)
  }

  predicate ObeysAt(tick: Driver, s: System, ins: nat -> In, k: nat) { Obeys(RunWith(tick, s, ins, k), ins(k)) }

  /** A run that begins with a clock of reset; others may come at any time. */
  ghost predicate RunsFromReset(tick: Driver, s: System, ins: nat -> In, n: nat)
  {
    ins(0).reset && forall k: nat | 1 <= k < n :: ObeysAt(tick, s, ins, k)
  }

  lemma {:induction false} RunKeepsInv(tick: Driver, s: System, ins: nat -> In, n: nat)
    requires Drives(tick) && n >= 1 && RunsFromReset(tick, s, ins, n)
    ensures Inv(RunWith(tick, s, ins, n))
  {
    var m := RunWith(tick, s, ins, n - 1);
    assert Look(m, ins(n - 1));
    if n == 1 {
      assert m == s;
    } else {
      assert ObeysAt(tick, s, ins, n - 1);
      RunKeepsInv(tick, s, ins, n - 1);
      InvStep(m, ins(n - 1));
    }
  }

  /** Between clocks `k` and `k + 1`: after a reset the core requests nothing, and a
      request that is not answered is held, unless a reset comes. */
  predicate HoldsAt(tick: Driver, s: System, ins: nat -> In, k: nat)
  {
    && (ins(k).reset ==> !ins(k + 1).valid)
    && (!ins(k).reset && ins(k).valid && !RunWith(tick, s, ins, k).r.ready ==>
          ins(k + 1).reset || (ins(k + 1).valid && ins(k + 1).t == ins(k).t))
  }

  /** The runs that these theorems are about, told from the ports alone. */
  lemma RunsByPorts(tick: Driver, s: System, ins: nat -> In, n: nat)
    requires Drives(tick) && ins(0).reset
    ensures RunsFromReset(tick, s, ins, n) <==> forall k: nat | k + 1 < n :: HoldsAt(tick, s, ins, k)
  {
    forall k: nat
      ensures ObeysAt(tick, s, ins, k + 1) <==> HoldsAt(tick, s, ins, k)
    {
      assert Look(RunWith(tick, s, ins, k), ins(k));
    }
    forall k: nat | 1 <= k < n
      ensures ObeysAt(tick, s, ins, k) <==> HoldsAt(tick, s, ins, k - 1)
    {
      assert ObeysAt(tick, s, ins, (k - 1) + 1) <==> HoldsAt(tick, s, ins, k - 1);
    }
  }

  /** A reset takes every output of the bus down. */
  lemma ResetClears(r: Regs, i: In, k: nat)
    requires i.reset && k < 32
    ensures var b := Next(r, i).bus;
      !b.stb && !b.cyc && !b.we && !b.adr[k] && !b.dat[k] && (k < 4 ==> !b.sel[k])
  {
  }

  /** From any state, under resets at any clocks: a transfer that ends has made
      exactly one bus cycle, with its own address, data and strobes, and the
      core gets the data of that cycle. */
  lemma OneCyclePerTransfer(tick: Driver, s: System, ins: nat -> In, n: nat)
    requires Drives(tick) && n >= 1 && RunsFromReset(tick, s, ins, n + 1)
    requires !ins(n).reset && Completes(RunWith(tick, s, ins, n).r, ins(n))
    ensures var m := RunWith(tick, s, ins, n);
      Acknowledged(m, ins(n)) == [CycleOf(ins(n).t, m.r.rdata)]
  {
    RunKeepsInv(tick, s, ins, n);
    assert ObeysAt(tick, s, ins, n);
  }

  /** Every acknowledged cycle belongs to a transfer: the one under way, which
      makes no second cycle and ends in the next clock unless a reset comes. */
  lemma CycleEndsTransfer(tick: Driver, s: System, ins: nat -> In, n: nat)
    requires Drives(tick) && n >= 1 && RunsFromReset(tick, s, ins, n + 2)
    requires var b := RunWith(tick, s, ins, n).r.bus; b.stb && b.cyc && ins(n).ack
    requires !ins(n).reset && !ins(n + 1).reset
    ensures var m, e := RunWith(tick, s, ins, n), RunWith(tick, s, ins, n + 1);
      && m.cycles == [] && m.open.Began? && ins(n).t == ins(n + 1).t == m.open.t && Completes(e.r, ins(n + 1))
      && Acknowledged(e, ins(n + 1)) == [CycleOf(m.open.t, ins(n).dat)]
  {
    RunKeepsInv(tick, s, ins, n);
    assert ObeysAt(tick, s, ins, n) && ObeysAt(tick, s, ins, n + 1);
    assert Look(RunWith(tick, s, ins, n), ins(n));
  }

  class Bridge {
    var state: State
    var bus: Bus
    var ready: bool
    var rdata: Word

    ghost function Contents(): Regs
      reads this
    {
      Regs(state, bus, ready, rdata)
    }

    /** One rising clock edge. */
    method Tick(i: In)
      modifies this
      ensures Contents() == Next(old(Contents()), i)
    {
      if i.reset {
        bus := Bus(Zeros(32), Zeros(32), false, [false, false, false, false], false, false);
        state := Idle;
      } else if state.Idle? {
        if i.valid {
          bus := Bus(i.t.addr, i.t.wdata, Writes(i.t), i.t.wstrb, true, true);
          state := Started;
        } else {
          ready := false;
          bus := bus.(stb := false, cyc := false, we := false);
        }
      } else if state.Started? {
        if i.ack {
          rdata, ready, state := i.dat, true, Ending;
          bus := bus.(stb := false, cyc := false, we := false);
        }
      } else {
        ready, state := false, Idle;
      }
    }
  }
}
