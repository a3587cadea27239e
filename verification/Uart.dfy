/** The serial port with its receiver tied to its transmitter. */
module Uart {
  import opened Arith
  import opened Bits
  import opened Clocked

  /** Ten bits on the line, the one being sent first. */
  type Pattern = p: Bits | |p| == 10 witness seq(10, _ => true)

  const ONES: Pattern := [true, true, true, true, true, true, true, true, true, true]

  // ---- registers ----------------------------------------------------------------------

  datatype Sender = Sender(pattern: Pattern, bitcnt: nat, divcnt: nat, dummy: bool)

  datatype Receiver = Receiver(state: nat, divcnt: nat, pattern: Byte, data: Byte, valid: bool)

  datatype In = In(write: bool, read: bool, data: Byte)

  predicate Accepts(t: Sender, i: In)
  {
    i.write && !t.dummy && t.bitcnt == 0
  }

  /** One clock edge of the transmitter. Counters are 32 bits wide. */
  function NextSender(div: nat, t: Sender, i: In): Sender
  {
    if t.dummy && t.bitcnt == 0 then Sender(ONES, 15, 0, false)
    else if i.write && t.bitcnt == 0 then Sender([false] + i.data + [true], 10, 0, t.dummy)
    else if t.divcnt > div && t.bitcnt > 0 then Sender(t.pattern[1..] + [true], t.bitcnt - 1, 0, t.dummy)
    else t.(divcnt := (t.divcnt + 1) % TWO32)
  }

  /** The byte in the receive pattern is complete. */
  predicate Completes(div: nat, r: Receiver)
  {
    r.state == 10 && r.divcnt > div
  }

  /** One clock edge of the receiver; the doubled counter is compared in 32 bits. */
  function NextReceiver(div: nat, r: Receiver, line: bool, i: In): Receiver
  {
    var valid := r.valid && !i.read;
    var count := (r.divcnt + 1) % TWO32;
    if r.state == 0 then Receiver(if line then 0 else 1, 0, r.pattern, r.data, valid)
    else if r.state == 1 then
      if 2 * r.divcnt % TWO32 > div then Receiver(2, 0, r.pattern, r.data, valid) else Receiver(1, count, r.pattern, r.data, valid)
    else if r.state == 10 then
      if r.divcnt > div then Receiver(0, count, r.pattern, r.pattern, true) else Receiver(10, count, r.pattern, r.data, valid)
    else if r.divcnt > div then Receiver((r.state + 1) % 16, 0, r.pattern[1..] + [line], r.data, valid)
    else Receiver(r.state, count, r.pattern, r.data, valid)
  }

  /** Both directions on one wire, with the bytes written and the bytes received so far. */
  datatype Loop = Loop(tx: Sender, rx: Receiver, sent: seq<Byte>, received: seq<Byte>)

  function NextLoop(div: nat, l: Loop, i: In): Loop
  {
    Loop(NextSender(div, l.tx, i), NextReceiver(div, l.rx, l.tx.pattern[0], i),
         if Accepts(l.tx, i) then l.sent + [i.data] else l.sent,
         if Completes(div, l.rx) then l.received + [l.rx.pattern] else l.received)
  }

  // ---- the invariant --------------------------------------------------------------------

  /** What is on the line. */
  datatype Frame = Quiet | Data(byte: Byte)

  /** Bit `j` of the frame that carries `b`; ones follow. */
  function FrameBit(b: Byte, j: nat): bool
  {
    if j == 0 then false else if j <= 8 then b[j - 1] else true
  }

  /** The receiver waits this long before the middle of the start bit. */
  function Half(div: nat): nat { div / 2 + 1 }

  /** The receiver has put the byte of this frame away. */
  predicate Done(l: Loop) { l.rx.state == 0 && l.tx.bitcnt == 1 }

  /** Where the receiver is when the transmitter is `d` clocks into bit `j`:
      its counter `e` runs `Half + 2` clocks behind, less than a bit. */
  ghost predicate InStep(div: nat, r: Receiver, j: nat, d: nat)
  {
    var h, k, e := Half(div), r.state - 2, r.divcnt;
    if r.state == 0 then (j == 0 && d == 0) || (j == 9 && d >= h + 2)
    else if r.state == 1 then j == 0 && d == e + 1 && e <= h
    else r.state <= 10 && e <= div + 1 && ((j == k && d == e + 2 + h) || (j == k + 1 && d + div == e + h))
  }

  ghost predicate Collected(r: Receiver, b: Byte)
  {
    2 <= r.state <= 10 ==> r.pattern[10 - r.state..] == b[..r.state - 2]
  }

  ghost predicate Inv(div: nat, l: Loop, f: Frame)
  {
    match f
    case Quiet =>
      l.tx.pattern == ONES && l.tx.bitcnt <= 15 && l.rx.state == 0 && l.received == l.sent
      && (l.tx.bitcnt > 0 ==> l.tx.divcnt <= div + 1)
    case Data(b) =>
      && Shifting(l.tx, b, div)
      && InStep(div, l.rx, 10 - l.tx.bitcnt, l.tx.divcnt) && Collected(l.rx, b)
      && l.sent == l.received + (if Done(l) then [] else [b])
  }

  /** The dividers for which the receiver keeps up. */
  predicate GoodDivider(div: nat)
  {
    1 <= div <= TWO32 - 3
  }

  lemma QuietStep(div: nat, l: Loop, i: In)
    requires GoodDivider(div) && Inv(div, l, Quiet) && !Accepts(l.tx, i)
    ensures Inv(div, NextLoop(div, l, i), Quiet)
  {
    assert ONES[1..] + [true] == ONES;
  }

  lemma WriteStep(div: nat, l: Loop, i: In)
    requires GoodDivider(div) && Inv(div, l, Quiet) && Accepts(l.tx, i)
    ensures Inv(div, NextLoop(div, l, i), Data(i.data))
  {
    var p: Pattern := [false] + i.data + [true];
    var n := NextLoop(div, l, i);
    assert n.tx == Sender(p, 10, 0, false);
    forall k | 0 <= k < 10
      ensures p[k] == FrameBit(i.data, 10 - n.tx.bitcnt + k)
    {
      assert p[k] == FrameBit(i.data, k);
    }
  }

  lemma SenderBits(t: Sender, b: Byte)
    requires 1 <= t.bitcnt <= 10 && forall i | 0 <= i < 10 :: t.pattern[i] == FrameBit(b, 10 - t.bitcnt + i)
    ensures var p: Pattern := t.pattern[1..] + [true];
      (forall i | 0 <= i < 10 :: p[i] == FrameBit(b, 11 - t.bitcnt + i)) && (t.bitcnt == 1 ==> p == ONES)
    ensures t.pattern[0] == FrameBit(b, 10 - t.bitcnt)
  {
  }

  lemma ReceiverBit(p: Byte, b: Byte, k: nat)
    requires k < 8 && p[8 - k..] == b[..k]
    ensures (p[1..] + [b[k]])[7 - k..] == b[..k + 1]
  {
    assert (p[1..] + [b[k]])[7 - k..] == p[8 - k..] + [b[k]];
  }

  /** Each sample falls inside its bit, and the frame is put away before it ends. */
  lemma InStepNext(div: nat, r: Receiver, j: nat, d: nat, line: bool, i: In)
    requires GoodDivider(div) && InStep(div, r, j, d) && j <= 9 && d <= div + 1 && (j == 0 ==> !line) && (j == 9 ==> line)
    ensures var n := NextReceiver(div, r, line, i);
      if d <= div then InStep(div, n, j, d + 1) else if j < 9 then InStep(div, n, j + 1, 0) else n.state == 0
    ensures 2 <= r.state <= 9 && r.divcnt > div ==> j == r.state - 1
    ensures Completes(div, r) ==> j == 9
    ensures r.state == 0 && j == 9 ==> NextReceiver(div, r, line, i).state == 0
  {
    if r.state <= 1 {
      EarlyInStep(div, r, j, d, line, i);
    } else if r.divcnt > div {
      SampleInStep(div, r, j, d, line, i);
    } else {
      CountInStep(div, r, j, d, line, i);
    }
  }

  lemma EarlyInStep(div: nat, r: Receiver, j: nat, d: nat, line: bool, i: In)
    requires GoodDivider(div) && InStep(div, r, j, d) && j <= 9 && d <= div + 1 && (j == 0 ==> !line) && (j == 9 ==> line) && r.state <= 1
    ensures var n := NextReceiver(div, r, line, i);
      if d <= div then InStep(div, n, j, d + 1) else if j < 9 then InStep(div, n, j + 1, 0) else n.state == 0
  {
  }

  lemma SampleInStep(div: nat, r: Receiver, j: nat, d: nat, line: bool, i: In)
    requires GoodDivider(div) && InStep(div, r, j, d) && j <= 9 && d <= div + 1 && r.state > 1 && r.divcnt > div
    ensures j == r.state - 1
    ensures var n := NextReceiver(div, r, line, i);
      if d <= div then InStep(div, n, j, d + 1) else if j < 9 then InStep(div, n, j + 1, 0) else n.state == 0
  {
  }

  lemma CountInStep(div: nat, r: Receiver, j: nat, d: nat, line: bool, i: In)
    requires GoodDivider(div) && InStep(div, r, j, d) && j <= 9 && d <= div + 1 && r.state > 1 && r.divcnt <= div
    ensures var n := NextReceiver(div, r, line, i);
      if d <= div then InStep(div, n, j, d + 1) else if j < 9 then InStep(div, n, j + 1, 0) else n.state == 0
  {
  }

  lemma SampleNext(div: nat, r: Receiver, b: Byte, j: nat, i: In)
    requires Collected(r, b) && 2 <= r.state <= 9 && r.divcnt > div && j == r.state - 1
    ensures Collected(NextReceiver(div, r, FrameBit(b, j), i), b)
  {
    ReceiverBit(r.pattern, b, r.state - 2);
    var line := FrameBit(b, j);
    assert line == b[r.state - 2];
    var n := NextReceiver(div, r, line, i);
    assert n.state == r.state + 1;
  }

  lemma UnsampledNext(div: nat, r: Receiver, b: Byte, line: bool, i: In)
    requires Collected(r, b) && r.state <= 10 && (r.state < 2 || r.state == 10 || r.divcnt <= div)
    ensures Collected(NextReceiver(div, r, line, i), b)
  {
    var n := NextReceiver(div, r, line, i);
    assert n.pattern == r.pattern;
    if n.state != r.state && n.state == 2 {
      assert n.pattern[8..] == [] == b[..0];
    }
  }

  lemma CollectedNext(div: nat, r: Receiver, b: Byte, j: nat, i: In)
    requires Collected(r, b) && r.state <= 10 && (2 <= r.state <= 9 && r.divcnt > div ==> j == r.state - 1)
    ensures Collected(NextReceiver(div, r, FrameBit(b, j), i), b)
  {
    if 2 <= r.state <= 9 && r.divcnt > div {
      SampleNext(div, r, b, j, i);
    } else {
      UnsampledNext(div, r, b, FrameBit(b, j), i);
    }
  }

  lemma Whole(r: Receiver, b: Byte)
    requires Collected(r, b) && r.state == 10
    ensures r.pattern == b
  {
    assert r.pattern[0..] == r.pattern && b[..8] == b;
  }

  /** The transmitter's half of a data frame. */
  ghost predicate Shifting(t: Sender, b: Byte, div: nat)
  {
    && 1 <= t.bitcnt <= 10 && t.divcnt <= div + 1 && !t.dummy
    && (forall i | 0 <= i < 10 :: t.pattern[i] == FrameBit(b, 10 - t.bitcnt + i))
  }

  lemma ShiftingNext(div: nat, t: Sender, b: Byte, i: In)
    requires GoodDivider(div) && Shifting(t, b, div)
    ensures var n := NextSender(div, t, i);
      && (if n.bitcnt == 0 then n.pattern == ONES else Shifting(n, b, div))
      && n.bitcnt == (if t.divcnt > div then t.bitcnt - 1 else t.bitcnt) && n.divcnt == (if t.divcnt > div then 0 else t.divcnt + 1)
    ensures t.pattern[0] == FrameBit(b, 10 - t.bitcnt)
  {
    SenderBits(t, b);
  }

  lemma DataStep(div: nat, l: Loop, b: Byte, i: In)
    requires GoodDivider(div) && Inv(div, l, Data(b))
    ensures var n := NextLoop(div, l, i); Inv(div, n, if n.tx.bitcnt == 0 then Quiet else Data(b))
  {
    var j := 10 - l.tx.bitcnt;
    ShiftingNext(div, l.tx, b, i);
    InStepNext(div, l.rx, j, l.tx.divcnt, FrameBit(b, j), i);
    CollectedNext(div, l.rx, b, j, i);
    if l.rx.state == 10 {
      Whole(l.rx, b);
    }
  }

  // ---- every run ----------------------------------------------------------------------------

  type LoopClock = (Loop, In) -> Loop

  predicate Look(l: Loop, i: In) { true }

  /** `tick` is the clock edge of the loop; asserting `Look(l, i)` looks at it. */
  ghost predicate Implements(tick: LoopClock, div: nat)
  {
    forall l: Loop, i: In {:trigger Look(l, i)} :: tick(l, i) == NextLoop(div, l, i)
  }

  function NextFrame(l: Loop, n: Loop, f: Frame, i: In): Frame
  {
    if Accepts(l.tx, i) then Data(i.data) else if n.tx.bitcnt == 0 then Quiet else f
  }

  lemma LoopStep(div: nat, l: Loop, f: Frame, i: In)
    requires GoodDivider(div) && Inv(div, l, f)
    ensures var n := NextLoop(div, l, i); Inv(div, n, NextFrame(l, n, f, i))
  {
    match f
    case Quiet =>
      if Accepts(l.tx, i) {
        WriteStep(div, l, i);
      } else {
        QuietStep(div, l, i);
      }
    case Data(b) => DataStep(div, l, b, i);
  }

  /** The state after reset. */
  ghost predicate AfterReset(l: Loop)
  {
    && l.tx == Sender(ONES, 0, 0, true) && l.rx == Receiver(0, 0, Zeros(8), Zeros(8), false)
    && l.sent == [] && l.received == []
  }

  lemma {:induction false} RunKeepsInv(tick: LoopClock, div: nat, l: Loop, ins: nat -> In, n: nat) returns (f: Frame)
    requires Implements(tick, div) && GoodDivider(div) && AfterReset(l)
    ensures Inv(div, RunWith(tick, l, ins, n), f)
  {
    if n == 0 {
      f := Quiet;
      assert RunWith(tick, l, ins, 0) == l;
    } else {
      var g := RunKeepsInv(tick, div, l, ins, n - 1);
      var m := RunWith(tick, l, ins, n - 1);
      assert Look(m, ins(n - 1));
      LoopStep(div, m, g, ins(n - 1));
      f := NextFrame(m, RunWith(tick, l, ins, n), g, ins(n - 1));
    }
  }

  /** For every good divider and all bytes written at any times, the receiver
      has decoded exactly the bytes sent, except for the one still on the line;
      between frames nothing is missing. */
  lemma DecodesWhatIsSent(tick: LoopClock, div: nat, l: Loop, ins: nat -> In, n: nat)
    requires Implements(tick, div) && GoodDivider(div) && AfterReset(l)
    ensures var m := RunWith(tick, l, ins, n);
      && m.received <= m.sent && |m.sent| <= |m.received| + 1
      && (m.tx.bitcnt == 0 ==> m.received == m.sent && m.rx.state == 0)
  {
    var f := RunKeepsInv(tick, div, l, ins, n);
  }

  /** What the CPU reads is the byte received last. */
  lemma {:induction false} BufferHoldsLast(tick: LoopClock, div: nat, l: Loop, ins: nat -> In, n: nat)
    requires Implements(tick, div) && AfterReset(l)
    ensures var m := RunWith(tick, l, ins, n); m.rx.valid ==> m.received != [] && m.rx.data == m.received[|m.received| - 1]
  {
    if n == 0 {
      assert RunWith(tick, l, ins, 0) == l;
    } else {
      BufferHoldsLast(tick, div, l, ins, n - 1);
      assert Look(RunWith(tick, l, ins, n - 1), ins(n - 1));
    }
  }

  // ---- how long a frame takes ------------------------------------------------------------------

  /** Clocks until the transmitter is idle. */
  function ClocksLeft(div: nat, t: Sender): int
  {
    t.bitcnt * (div + 2) - t.divcnt
  }

  lemma SenderCountsDown(div: nat, t: Sender, i: In)
    requires div <= TWO32 - 2 && t.bitcnt > 0 && t.divcnt <= div + 1
    ensures var n := NextSender(div, t, i);
      ClocksLeft(div, n) == ClocksLeft(div, t) - 1 && (n.bitcnt > 0 ==> n.divcnt <= div + 1) && (n.bitcnt == 0 ==> n.divcnt == 0)
  {
    var p := div + 2;
    assert (t.bitcnt - 1) * p == t.bitcnt * p - p;
  }

  lemma TimeIsUp(div: nat, t: Sender, m: nat)
    requires ClocksLeft(div, t) == m && t.divcnt <= div + 1
    ensures t.bitcnt > 0 ==> m > 0
  {
    if t.bitcnt > 0 {
      assert t.bitcnt * (div + 2) == (t.bitcnt - 1) * (div + 2) + (div + 2);
      assert (t.bitcnt - 1) * (div + 2) >= 0;
    }
  }

  lemma {:induction false} IdleAfter(tick: LoopClock, div: nat, l: Loop, ins: nat -> In, k: nat, m: nat)
    requires Implements(tick, div) && div <= TWO32 - 2
    requires var t := RunWith(tick, l, ins, k).tx; ClocksLeft(div, t) == m && t.divcnt <= div + 1 && (t.bitcnt == 0 ==> m == 0)
    ensures RunWith(tick, l, ins, k + m).tx.bitcnt == 0
    ensures RunWith(tick, l, ins, k + m).sent == RunWith(tick, l, ins, k).sent
    decreases m
  {
    var s := RunWith(tick, l, ins, k);
    TimeIsUp(div, s.tx, m);
    if m > 0 {
      assert Look(s, ins(k));
      SenderCountsDown(div, s.tx, ins(k));
      IdleAfter(tick, div, l, ins, k + 1, m - 1);
    }
  }

  /** A byte accepted in clock `k` has been received `10 * (div + 2)` clocks later, when the next one can be accepted. */
  lemma ByteTakesTenBits(tick: LoopClock, div: nat, l: Loop, ins: nat -> In, k: nat)
    requires Implements(tick, div) && GoodDivider(div) && AfterReset(l) && Accepts(RunWith(tick, l, ins, k).tx, ins(k))
    ensures var e := RunWith(tick, l, ins, k + 1 + 10 * (div + 2));
      e.tx.bitcnt == 0 && e.received == e.sent == RunWith(tick, l, ins, k).sent + [ins(k).data]
  {
    assert Look(RunWith(tick, l, ins, k), ins(k));
    IdleAfter(tick, div, l, ins, k + 1, 10 * (div + 2));
    DecodesWhatIsSent(tick, div, l, ins, k + 1 + 10 * (div + 2));
  }

  // ---- the line --------------------------------------------------------------------------------

  /** The transmitter is `d` clocks into bit `j` of the frame of `b`. */
  ghost predicate Sending(t: Sender, b: Byte, j: nat, d: nat)
  {
    t.bitcnt == 10 - j && t.divcnt == d && !t.dummy && forall i | 0 <= i < 10 :: t.pattern[i] == FrameBit(b, j + i)
  }

  lemma SendingNext(div: nat, t: Sender, i: In, b: Byte, j: nat, d: nat)
    requires div <= TWO32 - 2 && j < 10 && d <= div + 1 && Sending(t, b, j, d)
    ensures if d <= div then Sending(NextSender(div, t, i), b, j, d + 1) else Sending(NextSender(div, t, i), b, j + 1, 0)
  {
  }

  lemma CellBefore(div: nat, j: nat, n: nat)
    requires n == (j + 1) * (div + 2)
    ensures n - 1 == j * (div + 2) + (div + 1)
  {
  }

  lemma {:induction false} OnTheWay(tick: LoopClock, div: nat, l: Loop, ins: nat -> In, k: nat, n: nat, j: nat, d: nat)
    requires Implements(tick, div) && div <= TWO32 - 2 && Accepts(RunWith(tick, l, ins, k).tx, ins(k))
    requires j < 10 && d < div + 2 && n == j * (div + 2) + d
    ensures Sending(RunWith(tick, l, ins, k + 1 + n).tx, ins(k).data, j, d)
    decreases n
  {
    var before := RunWith(tick, l, ins, k + n);
    assert Look(before, ins(k + n));
    if d > 0 {
      OnTheWay(tick, div, l, ins, k, n - 1, j, d - 1);
      SendingNext(div, before.tx, ins(k + n), ins(k).data, j, d - 1);
    } else if j > 0 {
      CellBefore(div, j - 1, n);
      OnTheWay(tick, div, l, ins, k, n - 1, j - 1, div + 1);
      SendingNext(div, before.tx, ins(k + n), ins(k).data, j - 1, div + 1);
    }
  }

  /** A byte accepted in clock `k` is on the line in ten cells of `div + 2` clocks
      each: a zero, its bits from the lowest up, and a one; for every divider up to
      2^32 - 2, whatever is written meanwhile. */
  lemma OnTheLine(tick: LoopClock, div: nat, l: Loop, ins: nat -> In, k: nat, j: nat, d: nat)
    requires Implements(tick, div) && div <= TWO32 - 2 && Accepts(RunWith(tick, l, ins, k).tx, ins(k))
    requires j < 10 && d < div + 2
    ensures RunWith(tick, l, ins, k + 1 + j * (div + 2) + d).tx.pattern[0]
         == if j == 0 then false else if j == 9 then true else ins(k).data[j - 1]
  {
    var n := j * (div + 2) + d;
    OnTheWay(tick, div, l, ins, k, n, j, d);
    assert k + 1 + n == k + 1 + j * (div + 2) + d;
  }

  // ---- the other dividers -------------------------------------------------------------------------

  /** From 2^32 - 2 on, the doubled counter never exceeds the divider: after
      the first start bit the receiver waits forever. */
  lemma {:induction false} HugeDividerReceivesNothing(tick: LoopClock, div: nat, l: Loop, ins: nat -> In, n: nat)
    requires Implements(tick, div) && TWO32 - 2 <= div < TWO32 && AfterReset(l)
    ensures RunWith(tick, l, ins, n).received == [] && RunWith(tick, l, ins, n).rx.state <= 1
  {
    if n == 0 {
      assert RunWith(tick, l, ins, 0) == l;
    } else {
      HugeDividerReceivesNothing(tick, div, l, ins, n - 1);
      var m := RunWith(tick, l, ins, n - 1);
      assert Look(m, ins(n - 1));
      EvenBelow(m.rx.divcnt);
    }
  }

  lemma EvenBelow(c: nat)
    ensures 2 * c % TWO32 <= TWO32 - 2
  {
    assert 2 * c % TWO32 == 2 * (c % 0x8000_0000);
  }

  /** With the largest divider not even the first idle bit ends. */
  lemma {:induction false} MaxDividerSendsNothing(tick: LoopClock, div: nat, l: Loop, ins: nat -> In, n: nat)
    requires Implements(tick, div) && div == TWO32 - 1 && AfterReset(l)
    ensures RunWith(tick, l, ins, n).sent == []
    ensures n > 0 ==> var t := RunWith(tick, l, ins, n).tx; t.bitcnt == 15 && t.divcnt < TWO32
  {
    if n == 0 {
      assert RunWith(tick, l, ins, 0) == l;
    } else {
      MaxDividerSendsNothing(tick, div, l, ins, n - 1);
      assert Look(RunWith(tick, l, ins, n - 1), ins(n - 1));
    }
  }

  /** What the receiver makes of byte `b` when the divider is zero. */
  function Shifted(b: Byte): Byte { b[1..] + [true] }

  /** With divider zero the receiver samples one bit late. */
  ghost predicate OneLate(r: Receiver, b: Byte, j: nat, d: nat)
  {
    if r.state == 0 then j == 0 && d == 0
    else if r.state == 1 then (j == 0 && d == 1 && r.divcnt == 0) || (j == 1 && d == 0 && r.divcnt == 1)
    else
      && r.state <= 10 && r.pattern[10 - r.state..] == Shifted(b)[..r.state - 2]
      && ((j == r.state - 1 && d == 1 && r.divcnt == 0) || (j == r.state && d == 0 && r.divcnt == 1))
  }

  ghost predicate LateFrame(l: Loop, b: Byte, before: Loop)
  {
    && l.sent == before.sent && l.received == before.received
    && (if l.tx.bitcnt > 0 then Shifting(l.tx, b, 0) else l.tx.pattern == ONES && l.tx.divcnt == 0)
    && l.tx.bitcnt <= 10 && OneLate(l.rx, b, 10 - l.tx.bitcnt, l.tx.divcnt)
  }

  lemma LateSample(r: Receiver, b: Byte, i: In)
    requires 2 <= r.state <= 9 && r.divcnt == 1 && r.pattern[10 - r.state..] == Shifted(b)[..r.state - 2]
    ensures var n := NextReceiver(0, r, FrameBit(b, r.state), i);
      n.state == r.state + 1 && n.divcnt == 0 && n.pattern[9 - r.state..] == Shifted(b)[..r.state - 1]
  {
    var k := r.state - 2;
    assert FrameBit(b, r.state) == Shifted(b)[k];
    ReceiverBit(r.pattern, Shifted(b), k);
  }

  lemma LateEarly(r: Receiver, b: Byte, j: nat, d: nat, i: In)
    requires OneLate(r, b, j, d) && j <= 9 && d <= 1 && r.state <= 1
    ensures OneLate(NextReceiver(0, r, FrameBit(b, j), i), b, if d == 1 then j + 1 else j, if d == 1 then 0 else 1)
  {
    assert r.pattern[8..] == [] == Shifted(b)[..0];
  }

  lemma LateWait(r: Receiver, b: Byte, j: nat, d: nat, line: bool, i: In)
    requires OneLate(r, b, j, d) && j <= 9 && d <= 1 && r.state > 1 && r.divcnt == 0
    ensures OneLate(NextReceiver(0, r, line, i), b, j + 1, 0)
  {
  }

  /** The receiver's part of a clock with divider zero. */
  lemma LateReceiver(r: Receiver, b: Byte, j: nat, d: nat, i: In)
    requires OneLate(r, b, j, d) && j <= 9 && d <= 1
    ensures OneLate(NextReceiver(0, r, FrameBit(b, j), i), b, if d == 1 then j + 1 else j, if d == 1 then 0 else 1)
    ensures !Completes(0, r)
  {
    if r.state <= 1 {
      LateEarly(r, b, j, d, i);
    } else if r.divcnt == 0 {
      LateWait(r, b, j, d, FrameBit(b, j), i);
    } else {
      LateSample(r, b, i);
    }
  }

  lemma LateStep(l: Loop, b: Byte, before: Loop, i: In)
    requires LateFrame(l, b, before) && l.tx.bitcnt > 0
    ensures LateFrame(NextLoop(0, l, i), b, before)
  {
    SenderBits(l.tx, b);
    LateReceiver(l.rx, b, 10 - l.tx.bitcnt, l.tx.divcnt, i);
  }

  lemma {:induction false} LateRun(tick: LoopClock, l: Loop, ins: nat -> In, k: nat, s: Loop, m: nat, b: Byte, before: Loop)
    requires Implements(tick, 0) && s == RunWith(tick, l, ins, k) && LateFrame(s, b, before) && m == 2 * s.tx.bitcnt - s.tx.divcnt
    ensures var e := RunWith(tick, l, ins, k + m); LateFrame(e, b, before) && e.tx.bitcnt == 0
    decreases m
  {
    if s.tx.bitcnt > 0 {
      var n := tick(s, ins(k));
      assert Look(s, ins(k));
      LateStep(s, b, before, ins(k));
      assert n == RunWith(tick, l, ins, k + 1);
      LateRun(tick, l, ins, k + 1, n, m - 1, b, before);
    }
  }

  /** With divider zero a byte arrives shifted by one bit, with the stop bit on
      top: it arrives intact if and only if all its bits are one. */
  lemma ZeroDividerShiftsBytes(tick: LoopClock, l: Loop, ins: nat -> In)
    requires Implements(tick, 0) && Inv(0, l, Quiet) && Accepts(l.tx, ins(0))
    ensures var e := RunWith(tick, l, ins, 22);
      l.sent + [ins(0).data] <= e.sent && e.received == l.received + [Shifted(ins(0).data)]
    ensures Shifted(ins(0).data) == ins(0).data <==> forall k | 0 <= k < 8 :: ins(0).data[k]
  {
    var b := ins(0).data;
    var a := RunWith(tick, l, ins, 1);
    assert RunWith(tick, l, ins, 0) == l;
    assert Look(l, ins(0));
    LateStart(l, b, a);
    LateRun(tick, l, ins, 1, a, 20, b, a);
    var e := RunWith(tick, l, ins, 21);
    assert Look(e, ins(21));
    LateEnd(e, b, a, ins(21));
    AllOnes(b);
  }

  lemma LateStart(l: Loop, b: Byte, a: Loop)
    requires Inv(0, l, Quiet) && a.tx == Sender([false] + b + [true], 10, 0, false) && a.rx.state == 0
    ensures LateFrame(a, b, a)
  {
    assert forall i | 0 <= i < 10 :: ([false] + b + [true])[i] == FrameBit(b, i);
  }

  lemma LateEnd(e: Loop, b: Byte, before: Loop, i: In)
    requires LateFrame(e, b, before) && e.tx.bitcnt == 0
    ensures NextLoop(0, e, i).received == before.received + [Shifted(b)] && before.sent <= NextLoop(0, e, i).sent
  {
    assert e.rx.pattern[0..] == e.rx.pattern && Shifted(b)[..8] == Shifted(b);
  }

  lemma AllOnes(b: Byte)
    ensures Shifted(b) == b <==> forall k | 0 <= k < 8 :: b[k]
  {
    var s := Shifted(b);
    assert s[0] == b[1] && s[1] == b[2] && s[2] == b[3] && s[3] == b[4] && s[4] == b[5] && s[5] == b[6] && s[6] == b[7] && s[7];
  }

  // ---- exactly which dividers work ------------------------------------------------------------------

  predicate FreeAt(tick: LoopClock, l: Loop, ins: nat -> In, k: nat)
  {
    var t := RunWith(tick, l, ins, k).tx; !t.dummy && t.bitcnt == 0
  }

  predicate AcceptsAt(tick: LoopClock, l: Loop, ins: nat -> In, k: nat) { Accepts(RunWith(tick, l, ins, k).tx, ins(k)) }

  /** By clock `m` the byte accepted in clock `k` has been received, behind those before it. */
  predicate ArrivesBy(tick: LoopClock, l: Loop, ins: nat -> In, k: nat, m: nat)
  {
    RunWith(tick, l, ins, k).sent + [ins(k).data] <= RunWith(tick, l, ins, m).received
  }

  ghost predicate FreeAgain(tick: LoopClock, l: Loop, ins: nat -> In, k: nat)
  {
    exists n: nat :: k <= n && FreeAt(tick, l, ins, n)
  }

  ghost predicate Arrives(tick: LoopClock, l: Loop, ins: nat -> In, k: nat)
  {
    exists m: nat :: ArrivesBy(tick, l, ins, k, m)
  }

  /** In every run from reset the transmitter becomes free again and again, and
      each byte it accepts is received. */
  ghost predicate Works(tick: LoopClock)
  {
    forall l: Loop, ins: nat -> In, k: nat | AfterReset(l) ::
      FreeAgain(tick, l, ins, k) && (AcceptsAt(tick, l, ins, k) ==> Arrives(tick, l, ins, k))
  }

  lemma {:induction false} ReceivedGrows(tick: LoopClock, div: nat, l: Loop, ins: nat -> In, m: nat, n: nat)
    requires Implements(tick, div) && m <= n
    ensures RunWith(tick, l, ins, m).received <= RunWith(tick, l, ins, n).received
  {
    if m < n {
      ReceivedGrows(tick, div, l, ins, m, n - 1);
      assert Look(RunWith(tick, l, ins, n - 1), ins(n - 1));
    }
  }

  /** The idle frame after reset, of fifteen bits, for every divider but the
      largest: nothing is accepted or received until it ends. */
  lemma {:induction false} WarmUp(tick: LoopClock, div: nat, l: Loop, ins: nat -> In, k: nat)
    requires Implements(tick, div) && div <= TWO32 - 2 && AfterReset(l) && 1 <= k <= 1 + 15 * (div + 2)
    ensures var m := RunWith(tick, l, ins, k);
      && m.tx.pattern == ONES && !m.tx.dummy && m.tx.bitcnt <= 15 && m.rx.state == 0 && m.sent == m.received == []
      && ClocksLeft(div, m.tx) == 1 + 15 * (div + 2) - k && m.tx.divcnt <= div + 1
  {
    var m := RunWith(tick, l, ins, k - 1);
    assert Look(m, ins(k - 1));
    if k == 1 {
      assert m == l;
    } else {
      WarmUp(tick, div, l, ins, k - 1);
      SenderCountsDown(div, m.tx, ins(k - 1));
      assert ONES[1..] + [true] == ONES;
    }
  }

  lemma FirstFree(tick: LoopClock, div: nat, l: Loop, ins: nat -> In)
    requires Implements(tick, div) && div <= TWO32 - 2 && AfterReset(l)
    ensures var m := RunWith(tick, l, ins, 1 + 15 * (div + 2)); Inv(div, m, Quiet) && !m.tx.dummy && m.tx.bitcnt == 0 && m.sent == []
  {
    WarmUp(tick, div, l, ins, 1 + 15 * (div + 2));
    TimeIsUp(div, RunWith(tick, l, ins, 1 + 15 * (div + 2)).tx, 0);
  }

  lemma {:induction false} DummyOnce(tick: LoopClock, div: nat, l: Loop, ins: nat -> In, k: nat)
    requires Implements(tick, div) && AfterReset(l) && k >= 1
    ensures !RunWith(tick, l, ins, k).tx.dummy
  {
    assert Look(RunWith(tick, l, ins, k - 1), ins(k - 1));
    if k == 1 {
      assert RunWith(tick, l, ins, 0) == l;
    } else {
      DummyOnce(tick, div, l, ins, k - 1);
    }
  }

  lemma StillBusy(div: nat, t: Sender)
    requires t.bitcnt > 0 && t.divcnt <= div + 1
    ensures ClocksLeft(div, t) > 0
  {
    assert t.bitcnt * (div + 2) == (t.bitcnt - 1) * (div + 2) + (div + 2);
    assert (t.bitcnt - 1) * (div + 2) >= 0;
  }

  lemma CounterBounded(div: nat, l: Loop, f: Frame)
    requires Inv(div, l, f) && l.tx.bitcnt > 0
    ensures l.tx.divcnt <= div + 1
  {
  }

  /** From clock `c` on the transmitter is idle once more. */
  lemma IdleFrom(tick: LoopClock, div: nat, l: Loop, ins: nat -> In, c: nat) returns (n: nat)
    requires Implements(tick, div) && GoodDivider(div) && AfterReset(l)
    ensures c <= n && RunWith(tick, l, ins, n).tx.bitcnt == 0
  {
    var t := RunWith(tick, l, ins, c).tx;
    n := c;
    if t.bitcnt > 0 {
      var f := RunKeepsInv(tick, div, l, ins, c);
      CounterBounded(div, RunWith(tick, l, ins, c), f);
      StillBusy(div, t);
      IdleAfter(tick, div, l, ins, c, ClocksLeft(div, t));
      n := c + ClocksLeft(div, t);
    }
  }

  lemma GoodFreeAgain(tick: LoopClock, div: nat, l: Loop, ins: nat -> In, k: nat)
    requires Implements(tick, div) && GoodDivider(div) && AfterReset(l)
    ensures FreeAgain(tick, l, ins, k)
  {
    var n := IdleFrom(tick, div, l, ins, k + 1);
    DummyOnce(tick, div, l, ins, n);
    assert FreeAt(tick, l, ins, n);
  }

  lemma GoodArrives(tick: LoopClock, div: nat, l: Loop, ins: nat -> In, k: nat)
    requires Implements(tick, div) && GoodDivider(div) && AfterReset(l) && AcceptsAt(tick, l, ins, k)
    ensures Arrives(tick, l, ins, k)
  {
    ByteTakesTenBits(tick, div, l, ins, k);
    assert ArrivesBy(tick, l, ins, k, k + 1 + 10 * (div + 2));
  }

  /** The CPU writes a zero byte in every clock. */
  ghost predicate WritesZeros(ins: nat -> In)
  {
    forall k: nat :: ins(k) == In(true, false, Zeros(8))
  }

  lemma NeverArrives(tick: LoopClock, l: Loop, ins: nat -> In, k: nat)
    requires forall c: nat :: !ArrivesBy(tick, l, ins, k, c)
    ensures !Arrives(tick, l, ins, k)
  {
  }

  /** In the first clock in which the transmitter is free a byte is accepted. */
  lemma FirstAccepted(tick: LoopClock, div: nat, l: Loop, ins: nat -> In, k: nat)
    requires Implements(tick, div) && div <= TWO32 - 2 && AfterReset(l) && WritesZeros(ins) && k == 1 + 15 * (div + 2)
    ensures AcceptsAt(tick, l, ins, k) && RunWith(tick, l, ins, k).sent == [] && Inv(div, RunWith(tick, l, ins, k), Quiet)
  {
    FirstFree(tick, div, l, ins);
  }

  lemma OtherByteReceived(tick: LoopClock, l: Loop, ins: nat -> In, later: nat -> In, k: nat)
    requires Implements(tick, 0) && AfterReset(l) && WritesZeros(ins) && k == 31 && forall j: nat :: later(j) == ins(k + j)
    ensures RunWith(tick, l, ins, k + 22).received == [Shifted(ins(k).data)]
  {
    FirstAccepted(tick, 0, l, ins, k);
    var m := RunWith(tick, l, ins, k);
    ZeroDividerShiftsBytes(tick, m, later);
    RunOn(tick, l, ins, later, k, 22);
    assert m.received == [];
  }

  lemma OtherByteFirst(x: seq<Byte>, y: seq<Byte>, b: Byte, c: Byte)
    requires (x <= y || y <= x) && y == [c] && b != c
    ensures !([b] <= x)
  {
    assert x != [] ==> x[0] == y[0] == c;
  }

  /** With divider 0 a zero byte is accepted 31 clocks after reset and never arrives. */
  lemma ZeroDividerLosesByte(tick: LoopClock, l: Loop, ins: nat -> In, k: nat)
    requires Implements(tick, 0) && AfterReset(l) && WritesZeros(ins) && k == 31
    ensures AcceptsAt(tick, l, ins, k) && !Arrives(tick, l, ins, k)
  {
    FirstAccepted(tick, 0, l, ins, k);
    OtherByteReceived(tick, l, ins, (j: nat) => ins(k + j), k);
    AllOnes(Zeros(8));
    assert !Zeros(8)[0];
    forall c: nat {:trigger ArrivesBy(tick, l, ins, k, c)}
      ensures !ArrivesBy(tick, l, ins, k, c)
    {
      if c <= k + 22 {
        ReceivedGrows(tick, 0, l, ins, c, k + 22);
      } else {
        ReceivedGrows(tick, 0, l, ins, k + 22, c);
      }
      OtherByteFirst(RunWith(tick, l, ins, c).received, RunWith(tick, l, ins, k + 22).received, Zeros(8), Shifted(Zeros(8)));
    }
    NeverArrives(tick, l, ins, k);
  }

  /** With divider 2^32 - 2 a byte is accepted as soon as the idle frame has ended, and never arrives. */
  lemma HugeDividerLosesByte(tick: LoopClock, div: nat, l: Loop, ins: nat -> In, k: nat)
    requires Implements(tick, div) && div == TWO32 - 2 && AfterReset(l) && WritesZeros(ins) && k == 1 + 15 * (div + 2)
    ensures AcceptsAt(tick, l, ins, k) && !Arrives(tick, l, ins, k)
  {
    FirstAccepted(tick, div, l, ins, k);
    forall c: nat {:trigger ArrivesBy(tick, l, ins, k, c)}
      ensures !ArrivesBy(tick, l, ins, k, c)
    {
      HugeDividerReceivesNothing(tick, div, l, ins, c);
    }
    NeverArrives(tick, l, ins, k);
  }

  /** With divider 2^32 - 1 the transmitter is never free after reset. */
  lemma MaxDividerNeverFree(tick: LoopClock, div: nat, l: Loop, ins: nat -> In)
    requires Implements(tick, div) && div == TWO32 - 1 && AfterReset(l)
    ensures !FreeAgain(tick, l, ins, 0)
  {
    forall n: nat
      ensures !FreeAt(tick, l, ins, n)
    {
      MaxDividerSendsNothing(tick, div, l, ins, n);
      assert RunWith(tick, l, ins, 0) == l;
    }
  }

  /** A run from reset in which the loop does not work. */
  lemma BadDividerFails(tick: LoopClock, div: nat, l: Loop, ins: nat -> In)
    requires Implements(tick, div) && div < TWO32 && !GoodDivider(div) && AfterReset(l) && WritesZeros(ins)
    ensures !Works(tick)
  {
    if div == 0 {
      ZeroDividerLosesByte(tick, l, ins, 31);
    } else if div == TWO32 - 2 {
      HugeDividerLosesByte(tick, div, l, ins, 1 + 15 * (div + 2));
    } else {
      MaxDividerNeverFree(tick, div, l, ins);
    }
  }

  /** The loop works in every run from reset if and only if the divider is 1 to 2^32 - 3. */
  lemma WorksIffGoodDivider(tick: LoopClock, div: nat)
    requires Implements(tick, div) && div < TWO32
    ensures Works(tick) <==> GoodDivider(div)
  {
    if GoodDivider(div) {
      forall l: Loop, ins: nat -> In, k: nat | AfterReset(l)
        ensures FreeAgain(tick, l, ins, k) && (AcceptsAt(tick, l, ins, k) ==> Arrives(tick, l, ins, k))
      {
        GoodFreeAgain(tick, div, l, ins, k);
        if AcceptsAt(tick, l, ins, k) {
          GoodArrives(tick, div, l, ins, k);
        }
      }
    } else {
      var zero := Zeros(8);
      BadDividerFails(tick, div, Loop(Sender(ONES, 0, 0, true), Receiver(0, 0, zero, zero, false), [], []),
        (k: nat) => In(true, false, Zeros(8)));
    }
  }

  // ---- the port ---------------------------------------------------------------------------------------

  class SerialPort {
    const divider: nat
    var tx: Sender
    var rx: Receiver

    constructor (divider: nat)
      ensures this.divider == divider && tx == Sender(ONES, 0, 0, true) && rx == Receiver(0, 0, Zeros(8), Zeros(8), false)
    {
      this.divider := divider;
      tx := Sender(ONES, 0, 0, true);
      rx := Receiver(0, 0, Zeros(8), Zeros(8), false);
    }

    method Send(i: In)
      modifies this`tx
      ensures tx == NextSender(divider, old(tx), i)
    {
      if tx.dummy && tx.bitcnt == 0 {
        tx := Sender(ONES, 15, 0, false);
      } else if i.write && tx.bitcnt == 0 {
        tx := tx.(pattern := [false] + i.data + [true], bitcnt := 10, divcnt := 0);
      } else if tx.divcnt > divider && tx.bitcnt > 0 {
        tx := tx.(pattern := tx.pattern[1..] + [true], bitcnt := tx.bitcnt - 1, divcnt := 0);
      } else {
        tx := tx.(divcnt := (tx.divcnt + 1) % TWO32);
      }
    }

    method Receive(line: bool, i: In)
      modifies this`rx
      ensures rx == NextReceiver(divider, old(rx), line, i)
    {
      var count := rx.divcnt;
      rx := rx.(divcnt := (count + 1) % TWO32);
      if i.read {
        rx := rx.(valid := false);
      }
      if rx.state == 0 {
        rx := rx.(state := if line then 0 else 1, divcnt := 0);
      } else if rx.state == 1 {
        if 2 * count % TWO32 > divider {
          rx := rx.(state := 2, divcnt := 0);
        }
      } else if rx.state == 10 {
        if count > divider {
          rx := rx.(data := rx.pattern, valid := true, state := 0);
        }
      } else if count > divider {
        rx := rx.(pattern := rx.pattern[1..] + [line], state := (rx.state + 1) % 16, divcnt := 0);
      }
    }

    /** One rising clock edge of both directions. */
    method Tick(line: bool, i: In)
      modifies this
      ensures tx == NextSender(divider, old(tx), i) && rx == NextReceiver(divider, old(rx), line, i)
    {
      Send(i);
      Receive(line, i);
    }
  }
}
