/** The AXI4-Lite adapter between the native memory interface and three
    request channels, for every slave timing. */
module AxiAdapter {
  import opened Bits
  import opened Clocked

  const NO_STROBE: Strobe := [false, false, false, false]

  /** What the native interface asks for. */
  datatype Transfer = Transfer(instr: bool, addr: Word, wdata: Word, wstrb: Strobe)

  predicate Writes(t: Transfer) { t.wstrb != NO_STROBE }

  /** A transfer writes if and only if one of its byte strobes is up. */
  lemma WritesIffStrobe(t: Transfer)
    ensures Writes(t) <==> exists k: nat | k < 4 :: t.wstrb[k]
  {
    if !t.wstrb[0] && !t.wstrb[1] && !t.wstrb[2] && !t.wstrb[3] {
      assert t.wstrb == NO_STROBE;
    }
  }

  /** The native request, if any, and the slave's side of the channels. */
  datatype In = In(valid: bool, t: Transfer, awready: bool, wready: bool, arready: bool, bvalid: bool, rvalid: bool)

  datatype Regs = Regs(ackAw: bool, ackW: bool, ackAr: bool, xferDone: bool)

  predicate AwValid(r: Regs, i: In) { i.valid && Writes(i.t) && !r.ackAw }
  predicate WValid(r: Regs, i: In) { i.valid && Writes(i.t) && !r.ackW }
  predicate ArValid(r: Regs, i: In) { i.valid && !Writes(i.t) && !r.ackAr }

  predicate Ready(i: In) { i.bvalid || i.rvalid }

  /** The native transfer ends in this clock. */
  predicate Completes(i: In) { i.valid && Ready(i) }

  /** One clock edge out of reset. */
  function Next(r: Regs, i: In): Regs
  {
    if r.xferDone || !i.valid then Regs(false, false, false, Completes(i))
    else Regs(r.ackAw || (i.awready && AwValid(r, i)), r.ackW || (i.wready && WValid(r, i)),
              r.ackAr || (i.arready && ArValid(r, i)), Completes(i))
  }

  // ---- what was accepted for the transfer under way ----------------------------------

  /** Handshakes since the transfer began. */
  datatype Counts = Counts(aw: nat, w: nat, ar: nat)

  const NONE: Counts := Counts(0, 0, 0)

  function Bit(b: bool): nat { if b then 1 else 0 }

  /** The counts including this clock. */
  function Counted(r: Regs, c: Counts, i: In): Counts
  {
    Counts(c.aw + Bit(i.awready && AwValid(r, i)), c.w + Bit(i.wready && WValid(r, i)), c.ar + Bit(i.arready && ArValid(r, i)))
  }

  /** What the master holds: the transfer it began and has not seen end. */
  datatype Open = Closed | Began(t: Transfer)

  datatype System = System(r: Regs, c: Counts, open: Open)

  function NextSystem(s: System, i: In): System
  {
    System(Next(s.r, i), if Completes(i) then NONE else Counted(s.r, s.c, i), if i.valid && !Ready(i) then Began(i.t) else Closed)
  }

  /** The master keeps a transfer unchanged until it ends; the slave answers a
      write once address and data are accepted, a read once its address is,
      possibly in the same clock. */
  predicate Obeys(s: System, i: In)
  {
    var d := Counted(s.r, s.c, i);
    && (s.open.Began? ==> i.valid && i.t == s.open.t)
    && (i.bvalid ==> i.valid && Writes(i.t) && d.aw > 0 && d.w > 0)
    && (i.rvalid ==> i.valid && !Writes(i.t) && d.ar > 0)
  }

  /** A channel asks again for what was already accepted. */
  predicate Repeats(s: System, i: In)
  {
    (AwValid(s.r, i) && s.c.aw > 0) || (WValid(s.r, i) && s.c.w > 0) || (ArValid(s.r, i) && s.c.ar > 0)
  }

  predicate Handshakes(r: Regs, i: In)
  {
    (i.awready && AwValid(r, i)) || (i.wready && WValid(r, i)) || (i.arready && ArValid(r, i))
  }

  /** A request accepted in the clock right after a transfer ended, and not answered at once. */
  predicate Forgets(s: System, i: In)
  {
    s.r.xferDone && Handshakes(s.r, i) && !Completes(i)
  }

  /** The acknowledge registers are the counts, except right after a transfer. */
  ghost predicate Inv(s: System)
  {
    if s.r.xferDone then s.c == NONE && s.open.Closed?
    else
      && s.c == Counts(Bit(s.r.ackAw), Bit(s.r.ackW), Bit(s.r.ackAr))
      && (s.open.Closed? ==> s.c == NONE)
      && (s.open.Began? ==> if Writes(s.open.t) then s.c.ar == 0 else s.c.aw == 0 && s.c.w == 0)
  }

  lemma InvStep(s: System, i: In)
    requires Inv(s) && Obeys(s, i) && !Forgets(s, i)
    ensures Inv(NextSystem(s, i)) && !Repeats(s, i)
  {
  }

  /** At its end a transfer has made exactly one read request, or exactly one
      write address and one write data request. */
  lemma OncePerTransfer(s: System, i: In)
    requires Inv(s) && Obeys(s, i) && Completes(i)
    ensures Counted(s.r, s.c, i) == if Writes(i.t) then Counts(1, 1, 0) else Counts(0, 0, 1)
  {
  }

  /** After a forgotten handshake the same request is made again. */
  lemma ForgottenRepeats(s: System, i: In, j: In)
    requires Forgets(s, i) && Obeys(s, i) && Obeys(NextSystem(s, i), j)
    ensures Repeats(NextSystem(s, i), j)
  {
  }

  // ---- every run ------------------------------------------------------------------------

  type Driver = (System, In) -> System

  predicate Look(s: System, i: In) { true }

  ghost predicate Drives(tick: Driver)
  {
    forall s: System, i: In {:trigger Look(s, i)} :: tick(s, i) == NextSystem(s, i)
  }

  predicate ObeysAt(tick: Driver, s: System, ins: nat -> In, k: nat) { Obeys(RunWith(tick, s, ins, k), ins(k)) }

  predicate RepeatsAt(tick: Driver, s: System, ins: nat -> In, k: nat) { Repeats(RunWith(tick, s, ins, k), ins(k)) }

  predicate ForgetsAt(tick: Driver, s: System, ins: nat -> In, k: nat) { Forgets(RunWith(tick, s, ins, k), ins(k)) }

  ghost predicate ObeysAll(tick: Driver, s: System, ins: nat -> In, n: nat)
  {
    forall k: nat | k < n :: ObeysAt(tick, s, ins, k)
  }

  /** Before the first transfer. */
  ghost predicate AfterReset(s: System, i: In)
  {
    !i.valid && s.c == NONE && s.open.Closed?
  }

  lemma {:induction false} RunKeepsInv(tick: Driver, s: System, ins: nat -> In, n: nat)
    requires Drives(tick) && AfterReset(s, ins(0)) && n >= 1 && ObeysAll(tick, s, ins, n)
    requires forall k: nat | k < n :: !ForgetsAt(tick, s, ins, k)
    ensures Inv(RunWith(tick, s, ins, n))
  {
    var m := RunWith(tick, s, ins, n - 1);
    assert Look(m, ins(n - 1));
    if n == 1 {
      assert RunWith(tick, s, ins, 0) == s;
      assert ObeysAt(tick, s, ins, 0) && !ForgetsAt(tick, s, ins, 0);
    } else {
      RunKeepsInv(tick, s, ins, n - 1);
      assert ObeysAt(tick, s, ins, n - 1) && !ForgetsAt(tick, s, ins, n - 1);
      InvStep(m, ins(n - 1));
    }
  }

  /** In every run up to clock `n`: no request is ever repeated if and only if
      none is accepted, and left unanswered, in the clock right after a transfer. */
  lemma RepeatsIffForgets(tick: Driver, s: System, ins: nat -> In, n: nat)
    requires Drives(tick) && AfterReset(s, ins(0)) && n >= 1 && ObeysAll(tick, s, ins, n + 1)
    ensures (exists k: nat | k <= n :: RepeatsAt(tick, s, ins, k)) <==> (exists k: nat | k < n :: ForgetsAt(tick, s, ins, k))
  {
    if k: nat :| k < n && ForgetsAt(tick, s, ins, k) {
      var m := RunWith(tick, s, ins, k);
      assert ObeysAt(tick, s, ins, k) && ObeysAt(tick, s, ins, k + 1);
      assert Look(m, ins(k));
      ForgottenRepeats(m, ins(k), ins(k + 1));
      assert RepeatsAt(tick, s, ins, k + 1);
    } else {
      forall k: nat | k <= n
        ensures !RepeatsAt(tick, s, ins, k)
      {
        NeverRepeats(tick, s, ins, n, k);
      }
    }
  }

  lemma NeverRepeats(tick: Driver, s: System, ins: nat -> In, n: nat, k: nat)
    requires Drives(tick) && AfterReset(s, ins(0)) && k <= n && ObeysAll(tick, s, ins, n + 1)
    requires forall k: nat | k < n :: !ForgetsAt(tick, s, ins, k)
    ensures !RepeatsAt(tick, s, ins, k)
  {
    var m := RunWith(tick, s, ins, k);
    assert ObeysAt(tick, s, ins, k);
    if k == 0 {
      assert m == s;
    } else {
      RunKeepsInv(tick, s, ins, k);
    }
  }

  /** Every transfer of such a run makes exactly its requests, once each. */
  lemma ExactlyOnce(tick: Driver, s: System, ins: nat -> In, n: nat)
    requires Drives(tick) && AfterReset(s, ins(0)) && n >= 1 && ObeysAll(tick, s, ins, n + 1)
    requires forall k: nat | k < n :: !ForgetsAt(tick, s, ins, k)
    requires Completes(ins(n))
    ensures var m := RunWith(tick, s, ins, n);
      Counted(m.r, m.c, ins(n)) == if Writes(ins(n).t) then Counts(1, 1, 0) else Counts(0, 0, 1)
  {
    RunKeepsInv(tick, s, ins, n);
    assert ObeysAt(tick, s, ins, n);
    OncePerTransfer(RunWith(tick, s, ins, n), ins(n));
  }

  /** Requests up and not accepted under `r` and `i` are up, with the same payload, under `n` and `j`. */
  predicate Holds(r: Regs, i: In, n: Regs, j: In)
  {
    && (AwValid(r, i) && !i.awready ==> AwValid(n, j) && j.t == i.t)
    && (WValid(r, i) && !i.wready ==> WValid(n, j) && j.t == i.t)
    && (ArValid(r, i) && !i.arready ==> ArValid(n, j) && j.t == i.t)
  }

  lemma HeldNext(s: System, i: In, j: In)
    requires Inv(s) && Obeys(s, i) && Obeys(NextSystem(s, i), j)
    ensures Holds(s.r, i, Next(s.r, i), j)
  {
  }

  /** In such a run a request stays up, with the same payload, until it is accepted. */
  lemma HeldUntilAccepted(tick: Driver, s: System, ins: nat -> In, n: nat)
    requires Drives(tick) && AfterReset(s, ins(0)) && ObeysAll(tick, s, ins, n + 2)
    requires forall k: nat | k < n :: !ForgetsAt(tick, s, ins, k)
    ensures Holds(RunWith(tick, s, ins, n).r, ins(n), RunWith(tick, s, ins, n + 1).r, ins(n + 1))
  {
    var m := RunWith(tick, s, ins, n);
    assert Look(m, ins(n));
    if n == 0 {
      assert m == s;
    } else {
      RunKeepsInv(tick, s, ins, n);
      assert ObeysAt(tick, s, ins, n) && ObeysAt(tick, s, ins, n + 1);
      HeldNext(m, ins(n), ins(n + 1));
    }
  }

  // ---- masters that keep the direction ------------------------------------------------------

  /** Right after a transfer in direction `w` its acknowledgements are still up. */
  ghost predicate Stale(s: System, w: bool)
  {
    s.r.xferDone ==> if w then s.r.ackAw && s.r.ackW else s.r.ackAr
  }

  lemma StaleStep(s: System, i: In, w: bool)
    requires Inv(s) && Obeys(s, i) && Stale(s, w) && (s.r.xferDone && i.valid ==> Writes(i.t) == w)
    ensures !Forgets(s, i) && Stale(NextSystem(s, i), Writes(i.t))
  {
  }

  /** A transfer that follows clock `k` at once has the direction of the one that ends there. */
  predicate FollowsOn(ins: nat -> In, k: nat)
  {
    Completes(ins(k)) && ins(k + 1).valid ==> Writes(ins(k + 1).t) == Writes(ins(k).t)
  }

  ghost predicate KeepsDirection(ins: nat -> In, n: nat)
  {
    forall k: nat | k < n :: FollowsOn(ins, k)
  }

  /** The state after a clock with input `prev` of such a run. */
  ghost predicate Clean(s: System, prev: In)
  {
    Inv(s) && Stale(s, Writes(prev.t)) && s.r.xferDone == Completes(prev)
  }

  lemma CleanStep(s: System, prev: In, i: In)
    requires Clean(s, prev) && Obeys(s, i) && (Completes(prev) && i.valid ==> Writes(i.t) == Writes(prev.t))
    ensures !Forgets(s, i) && Clean(NextSystem(s, i), i)
  {
    StaleStep(s, i, Writes(prev.t));
    InvStep(s, i);
  }

  lemma FirstClean(s: System, i: In)
    requires AfterReset(s, i) && Obeys(s, i)
    ensures !Forgets(s, i) && Clean(NextSystem(s, i), i)
  {
  }

  lemma {:induction false} DirectionKept(tick: Driver, s: System, ins: nat -> In, n: nat)
    requires Drives(tick) && AfterReset(s, ins(0)) && n >= 1 && ObeysAll(tick, s, ins, n) && KeepsDirection(ins, n)
    ensures Clean(RunWith(tick, s, ins, n), ins(n - 1)) && !Forgets(RunWith(tick, s, ins, n - 1), ins(n - 1))
  {
    var m := RunWith(tick, s, ins, n - 1);
    assert Look(m, ins(n - 1));
    assert ObeysAt(tick, s, ins, n - 1);
    if n == 1 {
      assert RunWith(tick, s, ins, 0) == s;
      FirstClean(s, ins(0));
    } else {
      DirectionKept(tick, s, ins, n - 1);
      var prev := ins(n - 2);
      assert FollowsOn(ins, n - 2);
      CleanStep(m, prev, ins(n - 1));
    }
  }

  /** With such a master, and any slave, every transfer makes exactly its requests. */
  lemma SameDirectionExactlyOnce(tick: Driver, s: System, ins: nat -> In, n: nat)
    requires Drives(tick) && AfterReset(s, ins(0)) && n >= 1 && ObeysAll(tick, s, ins, n + 1) && KeepsDirection(ins, n)
    requires Completes(ins(n))
    ensures var m := RunWith(tick, s, ins, n);
      Counted(m.r, m.c, ins(n)) == if Writes(ins(n).t) then Counts(1, 1, 0) else Counts(0, 0, 1)
  {
    DirectionKept(tick, s, ins, n);
    var m := RunWith(tick, s, ins, n);
    assert ObeysAt(tick, s, ins, n);
    OncePerTransfer(m, ins(n));
  }

  // ---- a read followed at once by a write ------------------------------------------------------

  /** Idle; a read accepted and answered; a write whose address is accepted at once. */
  function TurnAround(read: Transfer, write: Transfer, k: nat): In
  {
    if k == 0 then In(false, read, false, false, false, false, false)
    else if k == 1 then In(true, read, false, false, true, false, true)
    else In(true, write, k == 2, false, false, false, false)
  }

  const IDLE: Regs := Regs(false, false, false, false)

  lemma ReadStep(s: System, i: In)
    requires s == System(IDLE, NONE, Closed) && i.valid && !Writes(i.t) && i.arready && i.rvalid && !i.bvalid
    ensures Obeys(s, i) && NextSystem(s, i) == System(Regs(false, false, true, true), NONE, Closed)
  {
  }

  lemma WriteStep(s: System, i: In)
    requires s == System(Regs(false, false, true, true), NONE, Closed)
    requires i.valid && Writes(i.t) && i.awready && !i.wready && !i.rvalid && !i.bvalid
    ensures Obeys(s, i) && NextSystem(s, i) == System(IDLE, Counts(1, 0, 0), Began(i.t))
  {
  }

  /** For any read and write: the write address is requested a second time,
      though master and slave both obey. */
  lemma TurnAroundRepeats(tick: Driver, ins: nat -> In, read: Transfer, write: Transfer)
    requires Drives(tick) && !Writes(read) && Writes(write) && forall k: nat :: ins(k) == TurnAround(read, write, k)
    ensures var s := System(IDLE, NONE, Closed);
      && AfterReset(s, ins(0)) && ObeysAll(tick, s, ins, 4)
      && Repeats(RunWith(tick, s, ins, 3), ins(3)) && AwValid(RunWith(tick, s, ins, 3).r, ins(3))
  {
    var s := System(IDLE, NONE, Closed);
    var s2 := System(Regs(false, false, true, true), NONE, Closed);
    var s3 := System(IDLE, Counts(1, 0, 0), Began(write));
    assert ins(0) == TurnAround(read, write, 0) && ins(1) == TurnAround(read, write, 1);
    assert ins(2) == TurnAround(read, write, 2) && ins(3) == TurnAround(read, write, 3);
    ReadStep(s, ins(1));
    WriteStep(s2, ins(2));
    FourStates(tick, ins, s, s, s2, s3);
  }

  lemma FourStates(tick: Driver, ins: nat -> In, s0: System, s1: System, s2: System, s3: System)
    requires Drives(tick) && NextSystem(s0, ins(0)) == s1 && NextSystem(s1, ins(1)) == s2 && NextSystem(s2, ins(2)) == s3
    requires Obeys(s0, ins(0)) && Obeys(s1, ins(1)) && Obeys(s2, ins(2)) && Obeys(s3, ins(3))
    ensures RunWith(tick, s0, ins, 3) == s3 && ObeysAll(tick, s0, ins, 4)
  {
    assert Look(s0, ins(0)) && Look(s1, ins(1)) && Look(s2, ins(2));
    assert RunWith(tick, s0, ins, 0) == s0;
    assert RunWith(tick, s0, ins, 1) == s1;
    assert RunWith(tick, s0, ins, 2) == s2;
    assert RunWith(tick, s0, ins, 3) == s3;
  }

  class Adapter {
    var ackAw: bool
    var ackW: bool
    var ackAr: bool
    var xferDone: bool

    ghost function Contents(): Regs
      reads this
    {
      Regs(ackAw, ackW, ackAr, xferDone)
    }

    /** One rising clock edge out of reset. */
    method Tick(i: In)
      modifies this
      ensures Contents() == Next(old(Contents()), i)
    {
      var done := xferDone;
      var writes := i.t.wstrb != NO_STROBE;
      xferDone := i.valid && (i.bvalid || i.rvalid);
      if i.awready && i.valid && writes {
        ackAw := true;
      }
      if i.arready && i.valid && !writes {
        ackAr := true;
      }
      if i.wready && i.valid && writes {
        ackW := true;
      }
      if done || !i.valid {
        ackAw, ackAr, ackW := false, false, false;
      }
    }
  }
}
