/** The interrupt slice of the core's main state machine: pending and mask
    registers, the entry sequence, `retirq`, `maskirq` and `waitirq`. */
module Irq {
  import opened Bits
  import opened Clocked

  // ---- parameters and registers ------------------------------------------------------

  datatype Params = Params(latched: Word, masked: Word, irqAddr: Word)

  const IRQ_TIMER: nat := 0
  const IRQ_EBREAK: nat := 1
  const IRQ_BUSERROR: nat := 2

  /** Fetch; the register stage; every later stage of an instruction; trapped. */
  datatype Cpu = Fetch | LdRs1 | Later | Trapped

  /** The registers a write-back can go to: a general one, or an IRQ register. */
  datatype Rd = General | Q0 | Q1

  datatype Latched = Latched(branch: bool, store: bool, stalu: bool, compr: bool, rd: Rd)

  datatype Control = Control(cpu: Cpu, irqState: nat, active: bool, delay: bool, waiting: bool)

  datatype Masks = Masks(mask: Word, pending: Word, eoi: Word)

  datatype Data = Data(pc: Word, nextPc: Word, out: Word, q0: Word, q1: Word)

  datatype Core = Core(ctl: Control, lat: Latched, irqs: Masks, data: Data)

  /** What the instruction at hand is, as far as interrupts are concerned. */
  datatype Instr = Jal | Waitirq | Retirq | Maskirq | Other

  /** Everything the slice does not model: decoder, memory interface, ALU and
      the outcome of the later stages. */
  datatype In = In(trigger: bool, instr: Instr, compressed: bool, rd: Rd, irq: Word, timer: bool, misaligned: bool, breaks: bool,
    stops: bool, rs1: Word, alu: Word, out: Word, step: Word, target: Word, next: Cpu, latched: Latched)

  function Unmasked(s: Core): Word { And(s.irqs.pending, Not(s.irqs.mask)) }

  predicate Any(w: Word) { exists k | 0 <= k < 32 :: w[k] }

  function SetBit(w: Word, k: nat, b: bool): Word
    requires k < 32
  {
    w[k := w[k] || b]
  }

  // ---- the fetch state -----------------------------------------------------------------

  /** Where the instruction about to be fetched or launched is. */
  function CurrentPc(p: Params, s: Core, i: In): Word
  {
    if s.lat.branch then
      if s.lat.store then (if s.lat.stalu then i.alu else s.data.out)[0 := false] else s.data.nextPc
    else if s.lat.store then s.data.nextPc
    else if s.ctl.irqState == 1 then p.irqAddr
    else s.data.nextPc
  }

  /** The write-back arm of the fetch state that belongs to the entry sequence. */
  predicate EntryArm(s: Core)
  {
    s.ctl.cpu.Fetch? && !s.lat.branch && !s.lat.store
  }

  predicate Saves(s: Core) { EntryArm(s) && s.ctl.irqState == 1 }

  predicate Reports(s: Core) { EntryArm(s) && s.ctl.irqState == 2 }

  /** The first clock of an entry. */
  predicate Enters(s: Core, i: In)
  {
    s.ctl.cpu.Fetch? && s.ctl.irqState == 0 && i.trigger && !s.ctl.active && !s.ctl.delay && Any(Unmasked(s))
  }

  predicate InEntry(s: Core, i: In)
  {
    Enters(s, i) || (s.ctl.cpu.Fetch? && s.ctl.irqState != 0)
  }

  predicate Waits(s: Core, i: In)
  {
    s.ctl.cpu.Fetch? && !InEntry(s, i) && (i.trigger || s.ctl.waiting) && i.instr.Waitirq?
  }

  /** An instruction is issued. */
  predicate Launches(s: Core, i: In)
  {
    s.ctl.cpu.Fetch? && !InEntry(s, i) && !Waits(s, i) && i.trigger
  }

  /** `retirq` executes. */
  predicate Returns(s: Core, i: In)
  {
    s.ctl.cpu.LdRs1? && i.instr.Retirq?
  }

  /** An environment break or an unsupported instruction is found. */
  predicate Breaks(s: Core, i: In)
  {
    i.breaks && ((s.ctl.cpu.LdRs1? && i.instr.Other?) || s.ctl.cpu.Later?)
  }

  /** Interrupt `k` can be raised from inside. */
  predicate CanRaise(s: Core, k: nat)
    requires k < 32
  {
    !s.irqs.mask[k] && !s.ctl.active
  }

  /** A fault that cannot be raised as an interrupt traps the core. */
  predicate Traps(s: Core, i: In)
  {
    i.stops || (i.misaligned && !CanRaise(s, IRQ_BUSERROR)) || (Breaks(s, i) && !CanRaise(s, IRQ_EBREAK))
  }

  // ---- one clock edge --------------------------------------------------------------------

  function NextPending(p: Params, s: Core, i: In): Word
  {
    var kept := And(s.irqs.pending, p.latched);
    var unreported := if Reports(s) then And(kept, s.irqs.mask) else kept;
    var broken := SetBit(unreported, IRQ_EBREAK, Breaks(s, i) && CanRaise(s, IRQ_EBREAK));
    var timed := SetBit(Or(broken, i.irq), IRQ_TIMER, i.timer);
    And(SetBit(timed, IRQ_BUSERROR, i.misaligned && CanRaise(s, IRQ_BUSERROR)), Not(p.masked))
  }

  function NextMasks(p: Params, s: Core, i: In): Masks
  {
    Masks(if s.ctl.cpu.LdRs1? && i.instr.Maskirq? then Or(i.rs1, p.masked) else s.irqs.mask,
          NextPending(p, s, i),
          if Reports(s) then Unmasked(s) else if Returns(s, i) then Zeros(32) else s.irqs.eoi)
  }

  function NextCpu(s: Core, i: In): Cpu
  {
    if s.ctl.cpu.Trapped? || Traps(s, i) then Trapped
    else
      match s.ctl.cpu
      case Fetch => if Launches(s, i) && !i.instr.Jal? then LdRs1 else Fetch
      case LdRs1 => if Breaks(s, i) || i.instr.Retirq? || i.instr.Maskirq? then Fetch else i.next
      case Later => if Breaks(s, i) then Fetch else i.next
      case Trapped => Trapped
  }

  function NextControl(s: Core, i: In): Control
  {
    Control(NextCpu(s, i),
            if InEntry(s, i) then (if s.ctl.irqState == 0 then 1 else if s.ctl.irqState == 1 then 2 else 0) else s.ctl.irqState,
            if Saves(s) then true else if Returns(s, i) then false else s.ctl.active,
            if Launches(s, i) then s.ctl.active else s.ctl.delay,
            Waits(s, i) && !Any(s.irqs.pending))
  }

  function NextLatched(s: Core, i: In): Latched
  {
    match s.ctl.cpu
    case Fetch =>
      Latched(Launches(s, i) && i.instr.Jal?, Waits(s, i) && Any(s.irqs.pending), false,
              if InEntry(s, i) then s.lat.compr else i.compressed,
              if InEntry(s, i) then (if s.ctl.irqState == 1 then Q1 else Q0) else i.rd)
    case LdRs1 =>
      if i.instr.Retirq? then s.lat.(branch := true, store := true)
      else if i.instr.Maskirq? then s.lat.(store := true)
      else if Breaks(s, i) || i.next.LdRs1? then s.lat
      else i.latched
    case Later => i.latched
    case Trapped => s.lat
  }

  /** What the fetch state writes back, and whether it does. */
  function WriteBack(s: Core, i: In): Word
  {
    if s.lat.branch then i.step
    else if s.lat.store then (if s.lat.stalu then i.alu else s.data.out)
    else if s.ctl.irqState == 1 then s.data.nextPc[0 := s.data.nextPc[0] || s.lat.compr]
    else Unmasked(s)
  }

  predicate Writes(s: Core)
  {
    s.ctl.cpu.Fetch? && (s.lat.branch || s.lat.store || s.ctl.irqState == 1 || s.ctl.irqState == 2)
  }

  function NextData(p: Params, s: Core, i: In): Data
  {
    var d := s.data;
    match s.ctl.cpu
    case Fetch =>
      var pc := CurrentPc(p, s, i);
      var w := WriteBack(s, i);
      Data(pc, if Launches(s, i) || (Waits(s, i) && Any(s.irqs.pending)) then i.target else pc, if Waits(s, i) then s.irqs.pending else i.out,
           if Writes(s) && s.lat.rd.Q0? then w else d.q0, if Writes(s) && s.lat.rd.Q1? then w else d.q1)
    case LdRs1 => d.(out := if i.instr.Retirq? then i.rs1[0 := false] else if i.instr.Maskirq? then s.irqs.mask else i.out)
    case Later => d.(out := i.out)
    case Trapped => d
  }

  function Next(p: Params, s: Core, i: In): Core
  {
    Core(NextControl(s, i), NextLatched(s, i), NextMasks(p, s, i), NextData(p, s, i))
  }

  /** The registers after reset. */
  ghost predicate AfterReset(s: Core)
  {
    && s.ctl.cpu.Fetch? && s.ctl.irqState == 0 && !s.ctl.active && !s.ctl.delay && !s.lat.branch && !s.lat.stalu
    && s.irqs.eoi == Zeros(32)
  }

  // ---- the invariant ------------------------------------------------------------------------

  ghost predicate Inv(s: Core)
  {
    !s.ctl.cpu.Trapped? ==>
      && s.ctl.irqState <= 2
      && (s.ctl.irqState > 0 ==> s.ctl.cpu.Fetch? && !s.lat.branch && !s.lat.store)
      && (s.ctl.irqState == 1 ==> !s.ctl.active && s.lat.rd == Q0)
      && (s.ctl.irqState == 2 ==> s.ctl.active && s.lat.rd == Q1)
      && (s.ctl.cpu.LdRs1? ==> s.ctl.delay == s.ctl.active && !s.lat.stalu)
  }

  /** The later stages come back to fetch or go on, but never to the register stage. */
  predicate Plausible(s: Core, i: In)
  {
    (i.next.LdRs1? ==> s.ctl.cpu.LdRs1?) && !i.next.Trapped?
  }

  lemma InvStep(p: Params, s: Core, i: In)
    requires Inv(s) && Plausible(s, i)
    ensures Inv(Next(p, s, i))
  {
  }

  /** An entry starts only while no handler is active, and `active` is only
      ever set from clear. */
  lemma NeverNested(p: Params, s: Core, i: In)
    requires Inv(s) && Plausible(s, i) && !s.ctl.cpu.Trapped?
    ensures Next(p, s, i).ctl.irqState == 1 && s.ctl.irqState != 1 ==> Enters(s, i) && !s.ctl.active && !s.ctl.delay
    ensures Saves(s) ==> !s.ctl.active && Next(p, s, i).ctl.active
    ensures Next(p, s, i).ctl.active && !s.ctl.active ==> Saves(s)
  {
  }

  /** A latched interrupt stays pending until the clock that reports it, in
      `eoi` and in the second IRQ register alike. */
  lemma PendingKept(p: Params, s: Core, i: In, k: nat)
    requires Inv(s) && !s.ctl.cpu.Trapped? && k < 32 && p.latched[k] && !p.masked[k] && s.irqs.pending[k]
    ensures var n := Next(p, s, i);
      n.irqs.pending[k] || (Reports(s) && n.irqs.eoi[k] && n.data.q1[k] && n.data.q1 == n.irqs.eoi)
  {
  }

  // ---- what raises an interrupt ------------------------------------------------------------

  /** The clock in which the causes are handed to the handler. */
  predicate HandsOver(s: Core)
  {
    s.ctl.cpu.Fetch? && s.ctl.irqState == 2 && !s.lat.branch && !s.lat.store
  }

  /** Something raises interrupt `k` in this clock: its line; the timer, for 0; an
      environment break or unsupported instruction, for 1; a misaligned access,
      for 2. The last two need the interrupt unmasked and no handler active. */
  predicate Raised(s: Core, i: In, k: nat)
    requires k < 32
  {
    || i.irq[k]
    || (k == 0 && i.timer)
    || (k == 1 && i.breaks && !s.irqs.mask[1] && !s.ctl.active && (s.ctl.cpu.Later? || (s.ctl.cpu.LdRs1? && i.instr.Other?)))
    || (k == 2 && i.misaligned && !s.irqs.mask[2] && !s.ctl.active)
  }

  /** Exactly when an interrupt is pending after a clock, in every state: it is
      not masked by parameter, and it is raised, or was pending, is latched and is
      not being handed over. */
  lemma PendingIff(p: Params, s: Core, i: In, k: nat)
    requires k < 32
    ensures Next(p, s, i).irqs.pending[k]
       <==> !p.masked[k] && (Raised(s, i, k) || (s.irqs.pending[k] && p.latched[k] && !(HandsOver(s) && !s.irqs.mask[k])))
  {
  }

  /** An interrupt line reaches the pending register in every state. */
  lemma LineRaises(p: Params, s: Core, i: In, k: nat)
    requires k < 32 && !p.masked[k] && i.irq[k]
    ensures Next(p, s, i).irqs.pending[k]
  {
    PendingIff(p, s, i, k);
  }

  /** What becomes pending has been raised in that clock. */
  lemma PendingFromCause(p: Params, s: Core, i: In, k: nat)
    requires k < 32 && Next(p, s, i).irqs.pending[k] && !s.irqs.pending[k]
    ensures Raised(s, i, k) && !p.masked[k]
  {
    PendingIff(p, s, i, k);
  }

  /** Exactly when an entry starts, in every untrapped state that does not trap now. */
  lemma EntersIff(p: Params, s: Core, i: In)
    requires Inv(s) && !s.ctl.cpu.Trapped?
    ensures s.ctl.irqState == 0 && Next(p, s, i).ctl.irqState == 1
       <==> s.ctl.cpu.Fetch? && s.ctl.irqState == 0 && i.trigger && !s.ctl.active && !s.ctl.delay
            && exists k | 0 <= k < 32 :: s.irqs.pending[k] && !s.irqs.mask[k]
  {
    if k :| 0 <= k < 32 && s.irqs.pending[k] && !s.irqs.mask[k] {
      assert Unmasked(s)[k];
    } else {
      forall k | 0 <= k < 32
        ensures !Unmasked(s)[k]
      {
      }
    }
  }

  /** Exactly when the core stops: told to, or on a misaligned access or a break or
      unsupported instruction whose interrupt cannot be raised, because it is masked
      or a handler is active. */
  lemma TrapsIff(p: Params, s: Core, i: In)
    requires !s.ctl.cpu.Trapped? && Plausible(s, i)
    ensures Next(p, s, i).ctl.cpu.Trapped?
       <==> || i.stops
            || (i.misaligned && (s.irqs.mask[2] || s.ctl.active))
            || (i.breaks && (s.ctl.cpu.Later? || (s.ctl.cpu.LdRs1? && i.instr.Other?)) && (s.irqs.mask[1] || s.ctl.active))
  {
  }

  /** A break whose interrupt is raised sends the core back to fetch the next instruction. */
  lemma BreakRefetches(p: Params, s: Core, i: In)
    requires i.breaks && (s.ctl.cpu.Later? || (s.ctl.cpu.LdRs1? && i.instr.Other?))
    ensures var n := Next(p, s, i); n.ctl.cpu.Fetch? || n.ctl.cpu.Trapped?
  {
  }

  /** A stopped core stays stopped: no entry, no return, no register written. */
  lemma StaysTrapped(p: Params, s: Core, i: In)
    requires s.ctl.cpu.Trapped?
    ensures var n := Next(p, s, i);
      n.ctl.cpu.Trapped? && n.ctl.irqState == s.ctl.irqState && n.ctl.active == s.ctl.active && n.data.(out := s.data.out) == s.data
  {
  }

  /** The registers that hold the return address and the causes change only at
      an entry and when an instruction writes to them. */
  lemma SavedKept(p: Params, s: Core, i: In)
    ensures var n := Next(p, s, i); var writes := s.ctl.cpu.Fetch? && (s.lat.branch || s.lat.store || s.ctl.irqState in {1, 2});
      && (n.data.q0 != s.data.q0 ==> writes && s.lat.rd == Q0)
      && (n.data.q1 != s.data.q1 ==> writes && s.lat.rd == Q1)
  {
  }

  /** `maskirq` sets the mask, never below the parameter's, and gives back the old
      one; nothing else changes the mask. */
  lemma MaskSet(p: Params, s: Core, i: In, k: nat)
    requires k < 32
    ensures var n := Next(p, s, i);
      if s.ctl.cpu.LdRs1? && i.instr.Maskirq? then n.irqs.mask[k] == (i.rs1[k] || p.masked[k]) && n.data.out == s.irqs.mask
      else n.irqs.mask[k] == s.irqs.mask[k]
  {
  }

  /** `waitirq` in a fetch clock without an entry: it completes with the pending
      causes as its result if there are any, and waits otherwise. */
  lemma WaitEnds(p: Params, s: Core, i: In)
    requires Inv(s) && s.ctl.cpu.Fetch? && s.ctl.irqState == 0 && (i.trigger || s.ctl.waiting) && i.instr.Waitirq?
    requires i.trigger && !s.ctl.active && !s.ctl.delay ==> forall k | 0 <= k < 32 :: !(s.irqs.pending[k] && !s.irqs.mask[k])
    requires !i.stops && !i.misaligned
    ensures var n := Next(p, s, i);
      && n.ctl.cpu.Fetch? && n.ctl.irqState == 0 && !n.lat.branch
      && if exists k | 0 <= k < 32 :: s.irqs.pending[k] then n.lat.store && n.data.out == s.irqs.pending && !n.ctl.waiting
         else !n.lat.store && n.ctl.waiting
  {
    EntersIff(p, s, i);
    assert !Any(Unmasked(s)) <==> forall k | 0 <= k < 32 :: !Unmasked(s)[k];
  }

  // ---- the entry sequence and the return ------------------------------------------------------

  /** From the clock that starts an entry, whatever the inputs: a clock later the
      return address is being saved, two clocks later the handler address is
      current and the core active, three clocks later the causes are in `eoi` and
      in the second IRQ register. Latched causes seen at the start are among them. */
  lemma EntrySequence(p: Params, s: Core, i: In, j: In, l: In)
    requires Inv(s) && Enters(s, i) && !Traps(s, i)
    requires var s1 := Next(p, s, i); !Traps(s1, j) && !Traps(Next(p, s1, j), l)
    ensures var s1 := Next(p, s, i);
      var s2, s3 := Next(p, s1, j), Next(p, Next(p, s1, j), l);
      && s2.ctl.cpu.Fetch? && s2.ctl.active && s2.data.pc == p.irqAddr && s2.data.nextPc == p.irqAddr
      && (forall k | 1 <= k < 32 :: s2.data.q0[k] == CurrentPc(p, s, i)[k])
      && s3.ctl.cpu.Fetch? && s3.ctl.irqState == 0 && s3.data.pc == p.irqAddr
      && s3.data.q0 == s2.data.q0 && s3.data.q1 == s3.irqs.eoi == Unmasked(s2)
      && (forall k | 0 <= k < 32 && p.latched[k] && !p.masked[k] && Unmasked(s)[k] :: s3.irqs.eoi[k])
  {
    FirstEntryClock(p, s, i);
    SecondEntryClock(p, Next(p, s, i), j);
    ThirdEntryClock(p, Next(p, Next(p, s, i), j), l);
    forall k | 0 <= k < 32 && p.latched[k] && !p.masked[k] && Unmasked(s)[k]
      ensures Unmasked(Next(p, Next(p, s, i), j))[k]
    {
      CauseStays(p, s, i, k);
      CauseStays(p, Next(p, s, i), j, k);
    }
  }

  lemma FirstEntryClock(p: Params, s: Core, i: In)
    requires Inv(s) && Enters(s, i) && !Traps(s, i)
    ensures var n := Next(p, s, i);
      && n.ctl.cpu.Fetch? && n.ctl.irqState == 1 && !n.ctl.active && n.irqs.mask == s.irqs.mask
      && !n.lat.branch && !n.lat.store && n.lat.rd == Q0 && n.data.nextPc == CurrentPc(p, s, i)
  {
  }

  lemma SecondEntryClock(p: Params, s: Core, i: In)
    requires s.ctl.cpu.Fetch? && s.ctl.irqState == 1 && !s.ctl.active && !s.lat.branch && !s.lat.store && s.lat.rd == Q0 && !Traps(s, i)
    ensures var n := Next(p, s, i);
      && n.ctl.cpu.Fetch? && n.ctl.irqState == 2 && n.ctl.active && n.irqs.mask == s.irqs.mask
      && !n.lat.branch && !n.lat.store && n.lat.rd == Q1
      && n.data.pc == p.irqAddr == n.data.nextPc && n.data.q0 == s.data.nextPc[0 := s.data.nextPc[0] || s.lat.compr]
  {
  }

  lemma ThirdEntryClock(p: Params, s: Core, i: In)
    requires s.ctl.cpu.Fetch? && s.ctl.irqState == 2 && !s.lat.branch && !s.lat.store && s.lat.rd == Q1 && !Traps(s, i)
    ensures var n := Next(p, s, i);
      && n.ctl.cpu.Fetch? && n.ctl.irqState == 0 && n.data.pc == s.data.nextPc && n.data.q0 == s.data.q0
      && n.data.q1 == n.irqs.eoi == Unmasked(s)
  {
  }

  lemma CauseStays(p: Params, s: Core, i: In, k: nat)
    requires s.ctl.cpu.Fetch? && !Reports(s) && k < 32 && p.latched[k] && !p.masked[k] && Unmasked(s)[k]
    ensures Unmasked(Next(p, s, i))[k]
  {
  }

  /** `retirq` with the saved address goes back to the interrupted instruction:
      the next fetch is at that address, its lowest bit cleared. */
  lemma ReturnResumes(p: Params, s: Core, i: In, j: In, pc: Word)
    requires Inv(s) && Returns(s, i) && !Traps(s, i) && forall k | 1 <= k < 32 :: i.rs1[k] == pc[k]
    ensures var n := Next(p, s, i);
      && n.ctl.cpu.Fetch? && !n.ctl.active && n.irqs.eoi == Zeros(32)
      && CurrentPc(p, n, j) == pc[0 := false] == Next(p, n, j).data.pc
  {
    var out := i.rs1[0 := false];
    assert out == pc[0 := false];
    assert out[0 := false] == out;
  }

  // ---- every run -----------------------------------------------------------------------------------

  type Driver = (Core, In) -> Core

  predicate Look(s: Core, i: In) { true }

  ghost predicate Drives(tick: Driver, p: Params)
  {
    forall s: Core, i: In {:trigger Look(s, i)} :: tick(s, i) == Next(p, s, i)
  }

  /** Clock `k` of a run is not trapped and its inputs are plausible. */
  predicate GoodAt(tick: Driver, s: Core, ins: nat -> In, k: nat)
  {
    !RunWith(tick, s, ins, k).ctl.cpu.Trapped? && Plausible(RunWith(tick, s, ins, k), ins(k))
  }

  ghost predicate GoodRun(tick: Driver, s: Core, ins: nat -> In, n: nat)
  {
    forall k: nat | k < n :: GoodAt(tick, s, ins, k)
  }

  lemma {:induction false} RunKeepsInv(tick: Driver, p: Params, s: Core, ins: nat -> In, n: nat)
    requires Drives(tick, p) && AfterReset(s) && GoodRun(tick, s, ins, n)
    ensures Inv(RunWith(tick, s, ins, n))
  {
    if n == 0 {
      assert RunWith(tick, s, ins, 0) == s;
    } else {
      RunKeepsInv(tick, p, s, ins, n - 1);
      assert GoodAt(tick, s, ins, n - 1);
      assert Look(RunWith(tick, s, ins, n - 1), ins(n - 1));
      InvStep(p, RunWith(tick, s, ins, n - 1), ins(n - 1));
    }
  }

  /** Clock `j` reports interrupt `k`: it is in `eoi` and in the second IRQ register a clock later. */
  predicate ReportsAt(tick: Driver, s: Core, ins: nat -> In, j: nat, k: nat)
    requires k < 32
  {
    var n := RunWith(tick, s, ins, j + 1);
    Reports(RunWith(tick, s, ins, j)) && n.irqs.eoi[k] && n.data.q1[k]
  }

  /** In every untrapped run: a latched, enabled interrupt pending at clock `m` is
      still pending at clock `n`, or was reported in between. */
  lemma {:induction false} PendingUntilReported(tick: Driver, p: Params, s: Core, ins: nat -> In, m: nat, n: nat, k: nat)
    requires Drives(tick, p) && AfterReset(s) && GoodRun(tick, s, ins, n) && m <= n
    requires k < 32 && p.latched[k] && !p.masked[k] && RunWith(tick, s, ins, m).irqs.pending[k]
    ensures RunWith(tick, s, ins, n).irqs.pending[k] || exists j: nat | m <= j < n :: ReportsAt(tick, s, ins, j, k)
  {
    if m < n {
      PendingUntilReported(tick, p, s, ins, m, n - 1, k);
      if RunWith(tick, s, ins, n - 1).irqs.pending[k] {
        RunKeepsInv(tick, p, s, ins, n - 1);
        assert GoodAt(tick, s, ins, n - 1);
        assert Look(RunWith(tick, s, ins, n - 1), ins(n - 1));
        PendingKept(p, RunWith(tick, s, ins, n - 1), ins(n - 1), k);
        assert !RunWith(tick, s, ins, n).irqs.pending[k] ==> ReportsAt(tick, s, ins, n - 1, k);
      }
    }
  }

  /** In every untrapped run: a latched interrupt, enabled by parameter, that its
      line raises in clock `m` is pending ever after, or was reported in between. */
  lemma RaisedUntilReported(tick: Driver, p: Params, s: Core, ins: nat -> In, m: nat, n: nat, k: nat)
    requires Drives(tick, p) && AfterReset(s) && GoodRun(tick, s, ins, n) && m < n
    requires k < 32 && p.latched[k] && !p.masked[k] && ins(m).irq[k]
    ensures RunWith(tick, s, ins, n).irqs.pending[k] || exists j: nat | m < j < n :: ReportsAt(tick, s, ins, j, k)
  {
    assert Look(RunWith(tick, s, ins, m), ins(m));
    LineRaises(p, RunWith(tick, s, ins, m), ins(m), k);
    assert RunWith(tick, s, ins, m + 1).irqs.pending[k];
    PendingUntilReported(tick, p, s, ins, m + 1, n, k);
  }

  predicate LaunchesAt(tick: Driver, s: Core, ins: nat -> In, k: nat)
  {
    Launches(RunWith(tick, s, ins, k), ins(k)) && !RunWith(tick, s, ins, k).ctl.active
  }

  /** After a handler returns, entries are held off until an instruction is issued. */
  lemma {:induction false} HeldOff(tick: Driver, p: Params, s: Core, ins: nat -> In, r: nat, n: nat)
    requires Drives(tick, p) && AfterReset(s) && GoodRun(tick, s, ins, n) && r < n
    requires Returns(RunWith(tick, s, ins, r), ins(r)) && RunWith(tick, s, ins, r).ctl.active
    requires forall l: nat | r < l < n :: !LaunchesAt(tick, s, ins, l)
    ensures var c := RunWith(tick, s, ins, n).ctl; c.cpu.Trapped? || (c.delay && !c.active && c.irqState == 0)
    decreases n
  {
    var c := RunWith(tick, s, ins, n - 1);
    RunKeepsInv(tick, p, s, ins, n - 1);
    assert GoodAt(tick, s, ins, n - 1);
    assert Look(c, ins(n - 1));
    if r < n - 1 {
      HeldOff(tick, p, s, ins, r, n - 1);
      assert !LaunchesAt(tick, s, ins, n - 1);
    }
  }

  /** In every untrapped run, between the `retirq` that ends a handler and the
      next entry at least one instruction of the interrupted program is issued. */
  lemma OneInstructionBetween(tick: Driver, p: Params, s: Core, ins: nat -> In, r: nat, e: nat)
    requires Drives(tick, p) && AfterReset(s) && GoodRun(tick, s, ins, e + 1) && r < e
    requires Returns(RunWith(tick, s, ins, r), ins(r)) && RunWith(tick, s, ins, r).ctl.active
    requires Enters(RunWith(tick, s, ins, e), ins(e))
    ensures exists l: nat | r < l < e :: LaunchesAt(tick, s, ins, l)
  {
    assert GoodAt(tick, s, ins, e);
    if forall l: nat | r < l < e :: !LaunchesAt(tick, s, ins, l) {
      HeldOff(tick, p, s, ins, r, e);
    }
  }

  /** The handler is never entered while one is active. */
  lemma EntersInactive(tick: Driver, p: Params, s: Core, ins: nat -> In, n: nat)
    requires Drives(tick, p) && AfterReset(s) && GoodRun(tick, s, ins, n + 1)
    ensures var c, d := RunWith(tick, s, ins, n), RunWith(tick, s, ins, n + 1);
      && (d.ctl.irqState == 1 && c.ctl.irqState != 1 ==> !c.ctl.active && !c.ctl.delay && Any(Unmasked(c)))
      && (d.ctl.active && !c.ctl.active ==> c.ctl.irqState == 1)
  {
    RunKeepsInv(tick, p, s, ins, n);
    assert GoodAt(tick, s, ins, n);
    assert Look(RunWith(tick, s, ins, n), ins(n));
    NeverNested(p, RunWith(tick, s, ins, n), ins(n));
  }

  class Interrupts {
    const params: Params
    var ctl: Control
    var lat: Latched
    var irqs: Masks
    var data: Data

    ghost function Contents(): Core
      reads this
    {
      Core(ctl, lat, irqs, data)
    }

    constructor (params: Params)
      ensures this.params == params && AfterReset(Contents()) && irqs.mask == Not(Zeros(32))
    {
      this.params := params;
      ctl := Control(Fetch, 0, false, false, false);
      lat := Latched(false, false, false, false, General);
      irqs := Masks(Not(Zeros(32)), Zeros(32), Zeros(32));
      data := Data(Zeros(32), Zeros(32), Zeros(32), Zeros(32), Zeros(32));
    }

    /** The pending register after this clock, one cause at a time. */
    method Collect(i: In) returns (pending: Word)
      ensures pending == NextPending(params, Contents(), i)
    {
      var s := Core(ctl, lat, irqs, data);
      pending := And(irqs.pending, params.latched);
      if Reports(s) {
        pending := And(pending, irqs.mask);
      }
      pending := Raise(pending, IRQ_EBREAK, Breaks(s, i) && CanRaise(s, IRQ_EBREAK));
      pending := Or(pending, i.irq);
      pending := Raise(pending, IRQ_TIMER, i.timer);
      pending := Raise(pending, IRQ_BUSERROR, i.misaligned && CanRaise(s, IRQ_BUSERROR));
      pending := And(pending, Not(params.masked));
    }

    static method Raise(w: Word, k: nat, b: bool) returns (r: Word)
      requires k < 32
      ensures r == SetBit(w, k, b)
    {
      r := w;
      if b {
        r := r[k := true];
      }
    }

    /** One rising clock edge. */
    method Tick(i: In)
      modifies this
      ensures Contents() == Next(params, old(Contents()), i)
    {
      var s := Core(ctl, lat, irqs, data);
      var pending := Collect(i);
      var mask := if ctl.cpu.LdRs1? && i.instr.Maskirq? then Or(i.rs1, params.masked) else irqs.mask;
      var eoi := if Reports(s) then Unmasked(s) else if Returns(s, i) then Zeros(32) else irqs.eoi;
      irqs := Masks(mask, pending, eoi);
      ctl, lat, data := NextControl(s, i), NextLatched(s, i), NextData(params, s, i);
    }
  }
}
