/** The GIFT-COFB core: the streaming controller around a busy block cipher,
    and its refinement of the mode for every query. */
module CofbCore {
  import opened Bits
  import opened Clocked
  import opened CofbMode
  import Gift128

  // ---- registers and wires ---------------------------------------------------------

  datatype Phase = Idle | WaitNonce | ProcAd | WaitAd | ReqAd | ProcMsg | WaitMsg | ReqMsg | Done

  /** The chaining registers and what is handed to the cipher. */
  datatype Chaining = Chaining(l: Mask, y: Block, giftIn: Block, giftStart: bool)

  datatype Count = Count(remAd: nat, remMsg: nat, lastAd: bool, lastMsg: bool)

  datatype Outputs = Outputs(adReq: bool, msgReq: bool, dataOut: Block, dataValid: bool, tagOut: Block, valid: bool, done: bool)

  datatype Core = Core(phase: Phase, ch: Chaining, n: Count, out: Outputs)

  datatype In = In(start: bool, decrypt: bool, key: Block, nonce: Block,
    adData: Block, adLen: nat, adAck: bool, msgData: Block, msgLen: nat, msgAck: bool, tagIn: Block)

  /** An 8-bit counter going down by one block. */
  function OneBlockLess(x: nat): nat { (x + 240) % 256 }

  function NextPhase(c: Core, i: In, giftDone: bool): Phase
  {
    match c.phase
    case Idle => if i.start then WaitNonce else Idle
    case WaitNonce => if giftDone then ProcAd else WaitNonce
    case ProcAd => WaitAd
    case WaitAd =>
      if !giftDone then WaitAd
      else if !c.n.lastAd then ReqAd
      else if i.msgLen != 0 then ProcMsg else Done
    case ReqAd => if i.adAck then ProcAd else ReqAd
    case ProcMsg => WaitMsg
    case WaitMsg => if !giftDone then WaitMsg else if c.n.lastMsg then Done else ReqMsg
    case ReqMsg => if i.msgAck then ProcMsg else ReqMsg
    case Done => if i.start then Done else Idle
  }

  function NextChaining(w: Maps, c: Core, i: In, giftDone: bool, giftOut: Block): Chaining
  {
    match c.phase
    case Idle => if i.start then Chaining(Zeros(64), c.ch.y, i.nonce, true) else c.ch.(giftStart := false)
    case WaitNonce =>
      if giftDone then c.ch.(y := giftOut, l := giftOut[64..], giftStart := false) else c.ch.(giftStart := false)
    case ProcAd =>
      Chaining(AdMask(w, c.ch.l, c.n.remAd, i.msgLen == 0), c.ch.y, w.pho(c.ch.y, i.adData, Bytes(c.n.remAd)), true)
    case ProcMsg =>
      Chaining(MsgMask(w, c.ch.l, c.n.remMsg), c.ch.y,
        w.pho(c.ch.y, Plain(w, i.decrypt, c.ch.y, i.msgData, c.n.remMsg), Bytes(c.n.remMsg)), true)
    case WaitAd => if giftDone then c.ch.(y := giftOut, giftStart := false) else c.ch.(giftStart := false)
    case WaitMsg => if giftDone then c.ch.(y := giftOut, giftStart := false) else c.ch.(giftStart := false)
    case _ => c.ch.(giftStart := false)
  }

  function NextCount(c: Core, i: In, giftDone: bool): Count
  {
    match c.phase
    case Idle => if i.start then c.n.(remAd := i.adLen, remMsg := i.msgLen) else c.n
    case ProcAd => c.n.(lastAd := c.n.remAd <= 16)
    case WaitAd => if giftDone && !c.n.lastAd then c.n.(remAd := OneBlockLess(c.n.remAd)) else c.n
    case ProcMsg => c.n.(lastMsg := c.n.remMsg <= 16)
    case WaitMsg => if giftDone && !c.n.lastMsg then c.n.(remMsg := OneBlockLess(c.n.remMsg)) else c.n
    case _ => c.n
  }

  function NextOutputs(w: Maps, c: Core, i: In, giftDone: bool, giftOut: Block): Outputs
  {
    var o := c.out.(adReq := false, msgReq := false, dataValid := false);
    match c.phase
    case Idle => o.(done := false, valid := false)
    case WaitAd => if giftDone && c.n.lastAd && i.msgLen == 0 then o.(tagOut := giftOut) else o
    case ReqAd => o.(adReq := true)
    case ProcMsg => o.(dataOut := Output(w, c.ch.y, i.msgData, c.n.remMsg), dataValid := true)
    case WaitMsg => if giftDone && c.n.lastMsg then o.(tagOut := giftOut) else o
    case ReqMsg => o.(msgReq := true)
    case Done => o.(done := true, valid := !i.decrypt || c.out.tagOut == i.tagIn)
    case _ => o
  }

  /** One clock edge of the controller around any combinational parts. */
  function Next(w: Maps, c: Core, i: In, giftDone: bool, giftOut: Block): Core
  {
    Core(NextPhase(c, i, giftDone), NextChaining(w, c, i, giftDone, giftOut),
      NextCount(c, i, giftDone), NextOutputs(w, c, i, giftDone, giftOut))
  }

  // ---- the controller with its cipher engine ------------------------------------------

  type KeyedCipher = (Block, Block) -> Block

  /** The whole core, with a record of what its user has seen: the blocks
      acknowledged so far and the blocks put out so far. */
  datatype System = System(core: Core, job: Gift128.Job, adAcks: nat, msgAcks: nat, outs: seq<Block>)

  function NextSystem(w: Maps, cipher: KeyedCipher, s: System, i: In): System
  {
    var c := s.core;
    System(Next(w, c, i, s.job.done, s.job.out),
      Gift128.NextJob(cipher, s.job, c.ch.giftStart, w.top(c.ch.giftIn, c.ch.l), i.key),
      s.adAcks + if c.phase == ReqAd && i.adAck then 1 else 0,
      s.msgAcks + if c.phase == ReqMsg && i.msgAck then 1 else 0,
      if c.phase == ProcMsg then s.outs + [NextOutputs(w, c, i, s.job.done, s.job.out).dataOut] else s.outs)
  }

  /** What the user of the core wants done. */
  datatype Request = Request(q: Query, key: Block, tagIn: Block)
  {
    predicate Valid() { q.adLen < 256 && q.msgLen < 256 }
  }

  /** The user keeps the stable inputs stable, and shows block `k` whenever the
      core reads a block after `k` acknowledged requests. */
  ghost predicate Serves(r: Request, s: System, i: In)
  {
    && i.decrypt == r.q.decrypt && i.key == r.key && i.msgLen == r.q.msgLen && i.tagIn == r.tagIn
    && (s.core.phase == Idle ==> i.nonce == r.q.nonce && i.adLen == r.q.adLen)
    && (s.core.phase == ProcAd ==> i.adData == r.q.ad(s.adAcks))
    && (s.core.phase == ProcMsg ==> i.msgData == r.q.msg(s.msgAcks))
  }

  ghost predicate Suits(w: Maps, cipher: KeyedCipher, r: Request)
  {
    && r.Valid()
    && (forall b: Block :: w.e(b) == cipher(r.key, b))
    && (forall b: Block :: w.top(b, Zeros(64)) == b)
  }

  // ---- the invariant --------------------------------------------------------------------

  /** The cipher is free. */
  predicate Free(s: System) { !s.core.ch.giftStart && !s.job.busy && !s.job.done }

  /** A call of the cipher on `b` has been requested, is running or is delivered. */
  ghost predicate Calling(w: Maps, cipher: KeyedCipher, r: Request, s: System, b: Block)
  {
    && w.top(s.core.ch.giftIn, s.core.ch.l) == b
    && ( || (s.core.ch.giftStart && !s.job.busy && !s.job.done)
         || (!s.core.ch.giftStart && s.job.busy && !s.job.done && s.job.key == r.key && s.job.block == b && s.job.count < 40)
         || (!s.core.ch.giftStart && !s.job.busy && s.job.done && s.job.out == cipher(r.key, b)))
  }

  ghost predicate OutputsSoFar(w: Maps, r: Request, s: System, n: nat)
  {
    |s.outs| == n && forall k: nat | k < n :: s.outs[k] == Out(w, r.q, k)
  }

  /** The input of cipher call `k` on associated data. */
  function AdInput(w: Maps, q: Query, k: nat): Block
  {
    var c := AdChain(w, q, k);
    w.top(w.pho(c.y, q.ad(k), Bytes(Left(q.adLen, k))), AdMask(w, c.l, Left(q.adLen, k), q.msgLen == 0))
  }

  /** The input of cipher call `k` on the message. */
  function MsgInput(w: Maps, q: Query, k: nat): Block
  {
    var c := MsgChain(w, q, k);
    var left := Left(q.msgLen, k);
    w.top(w.pho(c.y, Plain(w, q.decrypt, c.y, q.msg(k), left), Bytes(left)), MsgMask(w, c.l, left))
  }

  ghost predicate InAd(w: Maps, r: Request, s: System)
  {
    s.adAcks < AdBlocks(r.q.adLen) && s.core.n.remMsg == r.q.msgLen && s.msgAcks == 0 && s.outs == []
  }

  ghost predicate InMsg(r: Request, s: System)
  {
    r.q.msgLen > 0 && s.adAcks == AdBlocks(r.q.adLen) - 1 && s.msgAcks < MsgBlocks(r.q.msgLen)
  }

  /** What holds at every clock of a query, phase by phase: the registers are
      those of the mode after the blocks acknowledged so far. */
  ghost predicate Invariant(w: Maps, cipher: KeyedCipher, r: Request, s: System)
  {
    var q, c, k, j := r.q, s.core, s.adAcks, s.msgAcks;
    match c.phase
    case Idle => Free(s)
    case WaitNonce =>
      InAd(w, r, s) && k == 0 && c.n.remAd == q.adLen && Calling(w, cipher, r, s, q.nonce)
    case ProcAd =>
      InAd(w, r, s) && Free(s) && c.n.remAd == Left(q.adLen, k)
      && Chain(c.ch.y, c.ch.l) == AdChain(w, q, k)
    case WaitAd =>
      InAd(w, r, s) && c.n.remAd == Left(q.adLen, k) && c.n.lastAd == (k + 1 == AdBlocks(q.adLen))
      && c.ch.l == AdChain(w, q, k + 1).l && Calling(w, cipher, r, s, AdInput(w, q, k))
    case ReqAd =>
      InAd(w, r, s) && Free(s) && k + 1 < AdBlocks(q.adLen) && c.n.remAd == Left(q.adLen, k + 1)
      && Chain(c.ch.y, c.ch.l) == AdChain(w, q, k + 1)
    case ProcMsg =>
      InMsg(r, s) && Free(s) && c.n.remMsg == Left(q.msgLen, j)
      && Chain(c.ch.y, c.ch.l) == MsgChain(w, q, j) && OutputsSoFar(w, r, s, j)
    case WaitMsg =>
      InMsg(r, s) && c.n.remMsg == Left(q.msgLen, j) && c.n.lastMsg == (j + 1 == MsgBlocks(q.msgLen))
      && c.ch.l == MsgChain(w, q, j + 1).l && Calling(w, cipher, r, s, MsgInput(w, q, j)) && OutputsSoFar(w, r, s, j + 1)
    case ReqMsg =>
      InMsg(r, s) && Free(s) && j + 1 < MsgBlocks(q.msgLen) && c.n.remMsg == Left(q.msgLen, j + 1)
      && Chain(c.ch.y, c.ch.l) == MsgChain(w, q, j + 1) && OutputsSoFar(w, r, s, j + 1)
    case Done =>
      && Free(s) && c.out.tagOut == Tag(w, q) && OutputsSoFar(w, r, s, MsgBlocks(q.msgLen))
      && s.adAcks == AdBlocks(q.adLen) - 1
      && s.msgAcks == if q.msgLen == 0 then 0 else MsgBlocks(q.msgLen) - 1
  }

  /** The start pulse is never up while the cipher is busy. */
  lemma NeverStartsBusyCipher(w: Maps, cipher: KeyedCipher, r: Request, s: System)
    requires Invariant(w, cipher, r, s)
    ensures !(s.core.ch.giftStart && s.job.busy)
  {
  }

  // ---- the invariant is kept, phase by phase ------------------------------------------------

  /** A call goes on, or its result is there. */
  lemma CallGoesOn(w: Maps, cipher: KeyedCipher, r: Request, s: System, i: In, b: Block)
    requires Suits(w, cipher, r) && i.key == r.key && Calling(w, cipher, r, s, b)
    requires s.core.phase == WaitNonce || s.core.phase == WaitAd || s.core.phase == WaitMsg
    ensures var n := NextSystem(w, cipher, s, i);
      && (!s.job.done ==> Calling(w, cipher, r, n, b) && n.core.phase == s.core.phase)
      && (s.job.done ==> Free(n) && n.core.ch.y == w.e(b))
  {
  }

  lemma StepWaitNonce(w: Maps, cipher: KeyedCipher, r: Request, s: System, i: In)
    requires Suits(w, cipher, r) && Serves(r, s, i) && Invariant(w, cipher, r, s) && s.core.phase == WaitNonce
    ensures Invariant(w, cipher, r, NextSystem(w, cipher, s, i))
  {
    CallGoesOn(w, cipher, r, s, i, r.q.nonce);
  }

  lemma StepProcAd(w: Maps, cipher: KeyedCipher, r: Request, s: System, i: In)
    requires Suits(w, cipher, r) && Serves(r, s, i) && Invariant(w, cipher, r, s) && s.core.phase == ProcAd
    ensures Invariant(w, cipher, r, NextSystem(w, cipher, s, i))
  {
    LeftBeforeLast(r.q.adLen, s.adAcks);
  }

  lemma StepWaitAd(w: Maps, cipher: KeyedCipher, r: Request, s: System, i: In)
    requires Suits(w, cipher, r) && Serves(r, s, i) && Invariant(w, cipher, r, s) && s.core.phase == WaitAd
    ensures Invariant(w, cipher, r, NextSystem(w, cipher, s, i))
  {
    if s.job.done {
      AdCallEnds(w, cipher, r, s, i);
    } else {
      CallGoesOn(w, cipher, r, s, i, AdInput(w, r.q, s.adAcks));
    }
  }

  lemma AdCallEnds(w: Maps, cipher: KeyedCipher, r: Request, s: System, i: In)
    requires Suits(w, cipher, r) && Serves(r, s, i) && Invariant(w, cipher, r, s) && s.core.phase == WaitAd && s.job.done
    ensures Invariant(w, cipher, r, NextSystem(w, cipher, s, i))
  {
    CallGoesOn(w, cipher, r, s, i, AdInput(w, r.q, s.adAcks));
    LeftBeforeLast(r.q.adLen, s.adAcks);
  }

  lemma StepReqAd(w: Maps, cipher: KeyedCipher, r: Request, s: System, i: In)
    requires Suits(w, cipher, r) && Serves(r, s, i) && Invariant(w, cipher, r, s) && s.core.phase == ReqAd
    ensures Invariant(w, cipher, r, NextSystem(w, cipher, s, i))
  {
  }

  /** The block output in this clock is the mode's. */
  lemma ProcMsgOutput(w: Maps, cipher: KeyedCipher, r: Request, s: System, i: In)
    requires Suits(w, cipher, r) && Serves(r, s, i) && Invariant(w, cipher, r, s) && s.core.phase == ProcMsg
    ensures OutputsSoFar(w, r, NextSystem(w, cipher, s, i), s.msgAcks + 1)
  {
    var n := NextSystem(w, cipher, s, i);
    assert n.outs[s.msgAcks] == Out(w, r.q, s.msgAcks);
  }

  /** The cipher is called on the mode's next input, under the next mask. */
  lemma ProcMsgCall(w: Maps, cipher: KeyedCipher, r: Request, s: System, i: In)
    requires Suits(w, cipher, r) && Serves(r, s, i) && Invariant(w, cipher, r, s) && s.core.phase == ProcMsg
    ensures var n, j := NextSystem(w, cipher, s, i), s.msgAcks;
      && n.core.phase == WaitMsg && InMsg(r, n) && n.msgAcks == j && n.core.n.remMsg == Left(r.q.msgLen, j)
      && n.core.n.lastMsg == (j + 1 == MsgBlocks(r.q.msgLen))
      && n.core.ch.l == MsgChain(w, r.q, j + 1).l && Calling(w, cipher, r, n, MsgInput(w, r.q, j))
  {
    LeftBeforeLast(r.q.msgLen, s.msgAcks);
  }

  lemma StepProcMsg(w: Maps, cipher: KeyedCipher, r: Request, s: System, i: In)
    requires Suits(w, cipher, r) && Serves(r, s, i) && Invariant(w, cipher, r, s) && s.core.phase == ProcMsg
    ensures Invariant(w, cipher, r, NextSystem(w, cipher, s, i))
  {
    ProcMsgOutput(w, cipher, r, s, i);
    ProcMsgCall(w, cipher, r, s, i);
  }

  lemma WaitMsgOutput(w: Maps, cipher: KeyedCipher, r: Request, s: System, i: In)
    requires Invariant(w, cipher, r, s) && s.core.phase == WaitMsg
    ensures OutputsSoFar(w, r, NextSystem(w, cipher, s, i), s.msgAcks + 1)
  {
    assert NextSystem(w, cipher, s, i).outs == s.outs;
  }

  lemma StepWaitMsg(w: Maps, cipher: KeyedCipher, r: Request, s: System, i: In)
    requires Suits(w, cipher, r) && Serves(r, s, i) && Invariant(w, cipher, r, s) && s.core.phase == WaitMsg
    ensures Invariant(w, cipher, r, NextSystem(w, cipher, s, i))
  {
    WaitMsgOutput(w, cipher, r, s, i);
    CallGoesOn(w, cipher, r, s, i, MsgInput(w, r.q, s.msgAcks));
    LeftBeforeLast(r.q.msgLen, s.msgAcks);
  }

  lemma StepReqMsg(w: Maps, cipher: KeyedCipher, r: Request, s: System, i: In)
    requires Suits(w, cipher, r) && Serves(r, s, i) && Invariant(w, cipher, r, s) && s.core.phase == ReqMsg
    ensures Invariant(w, cipher, r, NextSystem(w, cipher, s, i))
  {
  }

  lemma StepIdle(w: Maps, cipher: KeyedCipher, r: Request, s: System, i: In)
    requires Suits(w, cipher, r) && Serves(r, s, i) && s.core.phase == Idle && Free(s) && i.start
    requires s.adAcks == 0 && s.msgAcks == 0 && s.outs == []
    ensures Invariant(w, cipher, r, NextSystem(w, cipher, s, i)) && NextSystem(w, cipher, s, i).core.phase == WaitNonce
  {
  }

  predicate Running(s: System) { s.core.phase != Idle && s.core.phase != Done }

  lemma StepRunning(w: Maps, cipher: KeyedCipher, r: Request, s: System, i: In)
    requires Suits(w, cipher, r) && Serves(r, s, i) && Invariant(w, cipher, r, s) && Running(s)
    ensures Invariant(w, cipher, r, NextSystem(w, cipher, s, i)) && NextSystem(w, cipher, s, i).core.phase != Idle
  {
    match s.core.phase
    case WaitNonce => StepWaitNonce(w, cipher, r, s, i);
    case ProcAd => StepProcAd(w, cipher, r, s, i);
    case WaitAd => StepWaitAd(w, cipher, r, s, i);
    case ReqAd => StepReqAd(w, cipher, r, s, i);
    case ProcMsg => StepProcMsg(w, cipher, r, s, i);
    case WaitMsg => StepWaitMsg(w, cipher, r, s, i);
    case ReqMsg => StepReqMsg(w, cipher, r, s, i);
  }

  // ---- whole queries -----------------------------------------------------------------------

  type Tick = (System, In) -> System

  predicate Edge(s: System, i: In) { true }

  /** `tick` is the clock edge of the whole core; asserting `Edge(s, i)` looks at it. */
  ghost predicate IsCore(tick: Tick, w: Maps, cipher: KeyedCipher)
  {
    forall s: System, i: In {:trigger Edge(s, i)} :: tick(s, i) == NextSystem(w, cipher, s, i)
  }

  /** A free core in which nothing has been acknowledged or put out. */
  predicate Fresh(s: System)
  {
    s.core.phase == Idle && Free(s) && s.adAcks == 0 && s.msgAcks == 0 && s.outs == []
  }

  /** The user accepts the query at clock 0 and serves the first `n` clocks,
      during which the core does not finish. */
  ghost predicate Served(tick: Tick, r: Request, s: System, ins: nat -> In, n: nat)
  {
    && ins(0).start
    && (forall m: nat | m < n :: Serves(r, RunWith(tick, s, ins, m), ins(m)))
    && (forall m: nat | 1 <= m < n :: RunWith(tick, s, ins, m).core.phase != Done)
  }

  lemma AcceptTick(tick: Tick, w: Maps, cipher: KeyedCipher, r: Request, s: System, i: In)
    requires IsCore(tick, w, cipher) && Suits(w, cipher, r) && Fresh(s) && Serves(r, s, i) && i.start
    ensures Invariant(w, cipher, r, tick(s, i)) && tick(s, i).core.phase != Idle
  {
    assert Edge(s, i);
    StepIdle(w, cipher, r, s, i);
  }

  lemma RunningTick(tick: Tick, w: Maps, cipher: KeyedCipher, r: Request, s: System, i: In)
    requires IsCore(tick, w, cipher) && Suits(w, cipher, r) && Serves(r, s, i) && Invariant(w, cipher, r, s) && Running(s)
    ensures Invariant(w, cipher, r, tick(s, i)) && tick(s, i).core.phase != Idle
    ensures if HoldsUp(s, i) then Rank(r, tick(s, i)) == Rank(r, s) else Rank(r, tick(s, i)) < Rank(r, s)
  {
    assert Edge(s, i);
    StepRunning(w, cipher, r, s, i);
    Progress(w, cipher, r, s, i);
  }

  lemma TickKeeps(tick: Tick, w: Maps, cipher: KeyedCipher, r: Request)
    requires IsCore(tick, w, cipher) && Suits(w, cipher, r)
    ensures Keeps(tick, Going(w, cipher, r), (s: System, i: In) => Serves(r, s, i), Ended)
  {
    forall s: System, i: In | Going(w, cipher, r)(s) && Serves(r, s, i) && !Ended(s)
      ensures Going(w, cipher, r)(tick(s, i))
    {
      RunningTick(tick, w, cipher, r, s, i);
    }
  }

  ghost function Going(w: Maps, cipher: KeyedCipher, r: Request): System -> bool
  {
    (s: System) => Invariant(w, cipher, r, s) && s.core.phase != Idle
  }

  predicate Ended(s: System) { s.core.phase == Done }

  /** The invariant holds at every clock of every served query, with any delay
      of the acknowledgements. */
  lemma Safety(tick: Tick, w: Maps, cipher: KeyedCipher, r: Request, s: System, ins: nat -> In, n: nat)
    requires IsCore(tick, w, cipher) && Suits(w, cipher, r) && Fresh(s) && n >= 1 && Served(tick, r, s, ins, n)
    ensures Invariant(w, cipher, r, RunWith(tick, s, ins, n)) && RunWith(tick, s, ins, n).core.phase != Idle
  {
    var good := (x: System, i: In) => Serves(r, x, i);
    TickKeeps(tick, w, cipher, r);
    FirstClock(tick, w, cipher, r, s, ins);
    SafetyFrom(tick, Going(w, cipher, r), good, r, s, ins, n);
    assert Going(w, cipher, r)(RunWith(tick, s, ins, n));
  }

  lemma FirstClock(tick: Tick, w: Maps, cipher: KeyedCipher, r: Request, s: System, ins: nat -> In)
    requires IsCore(tick, w, cipher) && Suits(w, cipher, r) && Fresh(s) && Served(tick, r, s, ins, 1)
    ensures Going(w, cipher, r)(RunWith(tick, s, ins, 1))
  {
    assert RunWith(tick, s, ins, 0) == s;
    AcceptTick(tick, w, cipher, r, s, ins(0));
  }

  lemma SafetyFrom(tick: Tick, inv: System -> bool, good: (System, In) -> bool, r: Request, s: System, ins: nat -> In, n: nat)
    requires n >= 1 && Served(tick, r, s, ins, n) && inv(RunWith(tick, s, ins, 1)) && Keeps(tick, inv, good, Ended)
    requires forall x: System, i: In :: Serves(r, x, i) ==> good(x, i)
    ensures inv(RunWith(tick, s, ins, n))
  {
    forall k: nat | 1 <= k < n
      ensures good(RunWith(tick, s, ins, k), ins(k)) && !Ended(RunWith(tick, s, ins, k))
    {
      assert Serves(r, RunWith(tick, s, ins, k), ins(k));
    }
    KeptAlong(tick, inv, good, Ended, s, ins, 1, n);
  }

  /** What a user sees at the data port up to clock `n`: the block at the port
      in each clock in which `data_out_valid` is up. */
  function Shown<S, I>(tick: (S, I) -> S, out: S -> Outputs, s: S, ins: nat -> I, n: nat): seq<Block>
    decreases n, s
  {
    if n == 0 then []
    else
      var o := out(RunWith(tick, s, ins, n));
      Shown(tick, out, s, ins, n - 1) + if o.dataValid then [o.dataOut] else []
  }

  function OutputsOf(s: System): Outputs { s.core.out }

  /** The blocks recorded are the blocks shown. */
  lemma {:induction false} RecordIsShown(tick: Tick, w: Maps, cipher: KeyedCipher, s: System, ins: nat -> In, n: nat)
    requires IsCore(tick, w, cipher) && s.outs == []
    ensures Shown(tick, OutputsOf, s, ins, n) == RunWith(tick, s, ins, n).outs
  {
    if n == 0 {
      assert RunWith(tick, s, ins, 0) == s;
    } else {
      RecordIsShown(tick, w, cipher, s, ins, n - 1);
      assert Edge(RunWith(tick, s, ins, n - 1), ins(n - 1));
    }
  }

  /** When the core reaches its last phase, exactly the output blocks of the mode
      have been shown and the tag is the mode's, and the requests acknowledged are one less than the
      blocks; one clock later `done` is up, `valid` is the tag comparison, and no further block is shown. */
  lemma Outcome(tick: Tick, w: Maps, cipher: KeyedCipher, r: Request, s: System, ins: nat -> In, n: nat)
    requires IsCore(tick, w, cipher) && Suits(w, cipher, r) && Fresh(s) && n >= 1 && Served(tick, r, s, ins, n)
    requires RunWith(tick, s, ins, n).core.phase == Done && Serves(r, RunWith(tick, s, ins, n), ins(n))
    ensures var e := RunWith(tick, s, ins, n);
      && |e.outs| == MsgBlocks(r.q.msgLen)
      && (forall k: nat | k < MsgBlocks(r.q.msgLen) :: e.outs[k] == Out(w, r.q, k))
      && e.core.out.tagOut == Tag(w, r.q)
      && e.adAcks == AdBlocks(r.q.adLen) - 1
    ensures Shown(tick, OutputsOf, s, ins, n) == Shown(tick, OutputsOf, s, ins, n + 1) == RunWith(tick, s, ins, n).outs
    ensures var o := RunWith(tick, s, ins, n + 1).core.out;
      o.done && o.tagOut == Tag(w, r.q) && o.valid == (!r.q.decrypt || Tag(w, r.q) == r.tagIn)
  {
    Safety(tick, w, cipher, r, s, ins, n);
    RecordIsShown(tick, w, cipher, s, ins, n);
    var e := RunWith(tick, s, ins, n);
    assert Edge(e, ins(n));
    assert RunWith(tick, s, ins, n + 1) == tick(e, ins(n));
  }

  // ---- termination -----------------------------------------------------------------------------

  function CallLeft(s: System): nat
  {
    if s.core.ch.giftStart then 43 else if s.job.busy && s.job.count < 40 then 42 - s.job.count else 1
  }

  /** Decreases at every clock at which the user does not hold the core up. */
  function Rank(r: Request, s: System): nat
  {
    var a := if s.adAcks <= AdBlocks(r.q.adLen) then AdBlocks(r.q.adLen) - s.adAcks else 0;
    var m := if s.msgAcks <= MsgBlocks(r.q.msgLen) then MsgBlocks(r.q.msgLen) - s.msgAcks else 0;
    match s.core.phase
    case WaitNonce => 100 * (a + m) + 200 + CallLeft(s)
    case ProcAd => 100 * (a + m) + 160
    case WaitAd => 100 * (a + m) + 100 + CallLeft(s)
    case ReqAd => 100 * (a + m) + if s.core.out.adReq then 70 else 71
    case ProcMsg => 100 * m + 160
    case WaitMsg => 100 * m + 100 + CallLeft(s)
    case ReqMsg => 100 * m + if s.core.out.msgReq then 70 else 71
    case _ => 0
  }

  /** The user leaves a request for a block, shown at the port, unanswered. */
  predicate HoldsUp(s: System, i: In)
  {
    (s.core.phase == ReqAd && s.core.out.adReq && !i.adAck) || (s.core.phase == ReqMsg && s.core.out.msgReq && !i.msgAck)
  }

  lemma Progress(w: Maps, cipher: KeyedCipher, r: Request, s: System, i: In)
    requires Suits(w, cipher, r) && Serves(r, s, i) && Invariant(w, cipher, r, s) && Running(s)
    ensures var n := NextSystem(w, cipher, s, i);
      if HoldsUp(s, i) then Rank(r, n) == Rank(r, s) else Rank(r, n) < Rank(r, s)
  {
    match s.core.phase
    case WaitNonce => ProgressOfCall(w, cipher, r, s, i, r.q.nonce);
    case ProcAd => ProgressOfStep(w, cipher, r, s, i);
    case WaitAd => ProgressOfCall(w, cipher, r, s, i, AdInput(w, r.q, s.adAcks));
    case ReqAd => ProgressOfRequest(w, cipher, r, s, i);
    case ProcMsg => ProgressOfStep(w, cipher, r, s, i);
    case WaitMsg => ProgressOfCall(w, cipher, r, s, i, MsgInput(w, r.q, s.msgAcks));
    case ReqMsg => ProgressOfRequest(w, cipher, r, s, i);
  }

  lemma ProgressOfStep(w: Maps, cipher: KeyedCipher, r: Request, s: System, i: In)
    requires s.core.phase == ProcAd || s.core.phase == ProcMsg
    ensures Rank(r, NextSystem(w, cipher, s, i)) < Rank(r, s)
  {
  }

  /** A request goes up in the first clock, if it is not answered unseen, and then stays up. */
  lemma ProgressOfRequest(w: Maps, cipher: KeyedCipher, r: Request, s: System, i: In)
    requires s.core.phase == ReqAd || s.core.phase == ReqMsg
    requires s.adAcks < AdBlocks(r.q.adLen) && s.msgAcks <= MsgBlocks(r.q.msgLen)
    requires s.core.phase == ReqMsg ==> s.msgAcks < MsgBlocks(r.q.msgLen)
    ensures var n := NextSystem(w, cipher, s, i);
      if HoldsUp(s, i) then Rank(r, n) == Rank(r, s) else Rank(r, n) < Rank(r, s)
  {
  }

  lemma ProgressOfCall(w: Maps, cipher: KeyedCipher, r: Request, s: System, i: In, b: Block)
    requires Calling(w, cipher, r, s, b)
    requires s.core.phase == WaitNonce || s.core.phase == WaitAd || s.core.phase == WaitMsg
    requires s.core.phase == WaitAd ==> s.adAcks < AdBlocks(r.q.adLen)
    ensures Rank(r, NextSystem(w, cipher, s, i)) < Rank(r, s)
  {
    ProgressInCall(w, cipher, r, s, i, b);
  }

  lemma ProgressInCall(w: Maps, cipher: KeyedCipher, r: Request, s: System, i: In, b: Block)
    requires Calling(w, cipher, r, s, b)
    requires s.core.phase == WaitNonce || s.core.phase == WaitAd || s.core.phase == WaitMsg
    ensures var n := NextSystem(w, cipher, s, i);
      && n.adAcks == s.adAcks && n.msgAcks == s.msgAcks && 1 <= CallLeft(s) <= 43
      && (!s.job.done ==> n.core.phase == s.core.phase && CallLeft(n) < CallLeft(s))
  {
  }

  /** Every request that is up at the ports is answered in the same clock. */
  ghost predicate Answers(r: Request, s: System, i: In)
  {
    Serves(r, s, i) && (s.core.out.adReq ==> i.adAck) && (s.core.out.msgReq ==> i.msgAck)
  }

  lemma TickDescends(tick: Tick, w: Maps, cipher: KeyedCipher, r: Request)
    requires IsCore(tick, w, cipher) && Suits(w, cipher, r)
    ensures Keeps(tick, Going(w, cipher, r), (s: System, i: In) => Answers(r, s, i), Ended)
    ensures Descends(tick, Going(w, cipher, r), (s: System, i: In) => Answers(r, s, i), Ended, (s: System) => Rank(r, s))
  {
    forall s: System, i: In | Going(w, cipher, r)(s) && Answers(r, s, i) && !Ended(s)
      ensures Going(w, cipher, r)(tick(s, i)) && Rank(r, tick(s, i)) < Rank(r, s)
    {
      RunningTick(tick, w, cipher, r, s, i);
    }
  }

  /** A user that answers the requests it sees, and need do no more, sees every query end. */
  lemma Terminates(tick: Tick, w: Maps, cipher: KeyedCipher, r: Request, s: System, ins: nat -> In) returns (n: nat)
    requires IsCore(tick, w, cipher) && Suits(w, cipher, r) && Fresh(s) && ins(0).start
    requires forall k: nat :: Answers(r, RunWith(tick, s, ins, k), ins(k))
    ensures n >= 1 && RunWith(tick, s, ins, n).core.phase == Done && Served(tick, r, s, ins, n)
  {
    TickDescends(tick, w, cipher, r);
    forall m: nat | m < 1
      ensures Serves(r, RunWith(tick, s, ins, m), ins(m))
    {
      assert Answers(r, RunWith(tick, s, ins, m), ins(m));
    }
    FirstClock(tick, w, cipher, r, s, ins);
    n := EndsFrom(tick, Going(w, cipher, r), (x: System, i: In) => Answers(r, x, i), (x: System) => Rank(r, x), r, s, ins);
  }

  lemma EndsFrom(tick: Tick, inv: System -> bool, ok: (System, In) -> bool, rank: System -> nat, r: Request,
      s: System, ins: nat -> In) returns (n: nat)
    requires Keeps(tick, inv, ok, Ended) && Descends(tick, inv, ok, Ended, rank) && inv(RunWith(tick, s, ins, 1))
    requires ins(0).start
    requires forall k: nat :: Answers(r, RunWith(tick, s, ins, k), ins(k))
    requires forall x: System, i: In :: Answers(r, x, i) ==> ok(x, i)
    ensures n >= 1 && RunWith(tick, s, ins, n).core.phase == Done && Served(tick, r, s, ins, n)
  {
    n := Ends(tick, inv, ok, Ended, rank, s, ins, 1);
    forall m: nat | m < n
      ensures Serves(r, RunWith(tick, s, ins, m), ins(m)) && (m >= 1 ==> !Ended(RunWith(tick, s, ins, m)))
    {
      assert Answers(r, RunWith(tick, s, ins, m), ins(m));
    }
  }

  // ---- the masks, and both directions together -----------------------------------------------

  /** At every call of the cipher on associated data the mask is 2^i 3^j times
      the nonce half block. */
  lemma MaskAtAdCall(w: Maps, cipher: KeyedCipher, r: Request, s: System)
    requires Invariant(w, cipher, r, s) && s.core.phase == WaitAd
    ensures var n, k := AdBlocks(r.q.adLen), s.adAcks;
      s.core.ch.l == if k + 1 < n then Power(w, r.q, k + 1, 0) else Power(w, r.q, n - 1, LastAdTriples(r.q))
  {
    if s.adAcks + 1 < AdBlocks(r.q.adLen) {
      AdMaskDoubled(w, r.q, s.adAcks + 1);
    } else {
      AdMaskFinal(w, r.q);
    }
  }

  /** And at every call on the message, where the doublings continue after the
      triplings. */
  lemma MaskAtMsgCall(w: Maps, cipher: KeyedCipher, r: Request, s: System)
    requires Invariant(w, cipher, r, s) && s.core.phase == WaitMsg && Commuting(w)
    ensures var a, n, k := AdBlocks(r.q.adLen), MsgBlocks(r.q.msgLen), s.msgAcks;
      s.core.ch.l ==
        if k + 1 < n then Power(w, r.q, a + k, LastAdTriples(r.q))
        else Power(w, r.q, a - 1 + k, LastAdTriples(r.q) + LastMsgTriples(r.q))
  {
    if s.msgAcks + 1 < MsgBlocks(r.q.msgLen) {
      MsgMaskPower(w, r.q, s.msgAcks + 1);
    } else {
      MsgMaskFinal(w, r.q);
    }
  }

  function CofbOf(cipher: KeyedCipher, key: Block): Maps
  {
    Cofb((b: Block) => cipher(key, b))
  }

  lemma CofbSuits(cipher: KeyedCipher, r: Request)
    requires r.Valid()
    ensures Suits(CofbOf(cipher, r.key), cipher, r)
  {
    forall b: Block
      ensures XorTop(b, Zeros(64)) == b
    {
      XorZeros(b[64..]);
    }
  }

  /** A decryption query fed with the blocks and the tag that an encryption
      query put out, under the same key, nonce and associated data, ends with
      every message block, cut to its valid bytes, and accepts the tag. */
  lemma RoundTrip(tick: Tick, cipher: KeyedCipher, r: Request, s: System, ins: nat -> In, n: nat,
      tick': Tick, r': Request, s': System, ins': nat -> In, n': nat)
    requires r.Valid() && !r.q.decrypt
    requires IsCore(tick, CofbOf(cipher, r.key), cipher) && Fresh(s) && n >= 1 && Served(tick, r, s, ins, n)
    requires RunWith(tick, s, ins, n).core.phase == Done && Serves(r, RunWith(tick, s, ins, n), ins(n))
    requires var e := RunWith(tick, s, ins, n);
      && r'.key == r.key && r'.tagIn == e.core.out.tagOut
      && r'.q == r.q.(decrypt := true, msg := r'.q.msg)
      && forall k: nat | k < |e.outs| :: r'.q.msg(k) == e.outs[k]
    requires IsCore(tick', CofbOf(cipher, r.key), cipher) && Fresh(s') && n' >= 1 && Served(tick', r', s', ins', n')
    requires RunWith(tick', s', ins', n').core.phase == Done && Serves(r', RunWith(tick', s', ins', n'), ins'(n'))
    ensures var e := RunWith(tick', s', ins', n');
      && |e.outs| == MsgBlocks(r.q.msgLen)
      && (forall k: nat | k < |e.outs| :: e.outs[k] == Truncate(r.q.msg(k), Bytes(Left(r.q.msgLen, k))))
    ensures RunWith(tick', s', ins', n' + 1).core.out.valid
  {
    var w := CofbOf(cipher, r.key);
    CofbSuits(cipher, r);
    CofbSuits(cipher, r');
    Outcome(tick, w, cipher, r, s, ins, n);
    Outcome(tick', w, cipher, r', s', ins', n');
    CofbReversible((b: Block) => cipher(r.key, b));
    DecryptionInverts(w, r'.q, r.q);
  }

  // ---- the core with the GIFT-128 engine --------------------------------------------------------

  datatype Concrete = Concrete(core: Core, engine: Gift128.Engine)

  function NextConcrete(w: Maps, f: Gift128.RoundFunction, x: Concrete, i: In): Concrete
  {
    Concrete(Next(w, x.core, i, x.engine.done, x.engine.ciphertext),
      Gift128.NextEngine(f, x.engine, x.core.ch.giftStart, w.top(x.core.ch.giftIn, x.core.ch.l), i.key))
  }

  ghost predicate Realizes(f: Gift128.RoundFunction, x: Concrete, s: System)
  {
    x.core == s.core && Gift128.Simulates(f, x.engine, s.job)
  }

  /** The core around the real engine follows the core around the job view,
      clock by clock and for every input. */
  lemma ConcreteFollows(w: Maps, f: Gift128.RoundFunction, x: Concrete, s: System, i: In)
    requires Realizes(f, x, s)
    ensures Realizes(f, NextConcrete(w, f, x, i), NextSystem(w, Gift128.CipherOf(f), s, i))
  {
    Gift128.EngineStep(f, x.engine, s.job, s.core.ch.giftStart, w.top(s.core.ch.giftIn, s.core.ch.l), i.key);
  }

  class CofbTop {
    const parts: Maps
    const gift: Gift128.EncryptTop
    var phase: Phase
    var chaining: Chaining
    var count: Count
    var outputs: Outputs

    ghost function Contents(): Concrete
      reads this, gift
    {
      Concrete(Core(phase, chaining, count, outputs), gift.Contents())
    }

    constructor (parts: Maps)
      ensures this.parts == parts && phase == Idle && !chaining.giftStart && fresh(gift)
      ensures !gift.busy && !gift.done && gift.round128 == Gift128.Round
    {
      this.parts := parts;
      gift := new Gift128.EncryptTop();
      phase, chaining := Idle, Chaining(Zeros(64), Zeros(128), Zeros(128), false);
      count := Count(0, 0, false, false);
      outputs := Outputs(false, false, Zeros(128), false, Zeros(128), false, false);
    }

    /** One rising clock edge of the core and of its engine. */
    method Tick(i: In)
      modifies this, gift
      ensures Contents() == NextConcrete(parts, gift.round128, old(Contents()), i)
    {
      var ch, n, out, next := ClockCore(i, gift.done, gift.ciphertext);
      gift.Tick(chaining.giftStart, parts.top(chaining.giftIn, chaining.l), i.key);
      phase, chaining, count, outputs := next, ch, n, out;
    }

    /** The values of the controller's registers after the edge. */
    method ClockCore(i: In, giftDone: bool, giftOut: Block) returns (ch: Chaining, n: Count, out: Outputs, next: Phase)
      ensures Core(next, ch, n, out) == Next(parts, Core(phase, chaining, count, outputs), i, giftDone, giftOut)
    {
      next := phase;
      ch, n := chaining.(giftStart := false), count;
      out := outputs.(adReq := false, msgReq := false, dataValid := false);
      match phase
      case Idle =>
        out := out.(done := false, valid := false);
        if i.start {
          ch := ch.(giftIn := i.nonce, l := Zeros(64), giftStart := true);
          n := n.(remAd := i.adLen, remMsg := i.msgLen);
          next := WaitNonce;
        }
      case WaitNonce =>
        if giftDone {
          ch := ch.(y := giftOut, l := giftOut[64..]);
          next := ProcAd;
        }
      case ProcAd =>
        n := n.(lastAd := n.remAd <= 16);
        ch := ch.(l := AdMask(parts, chaining.l, n.remAd, i.msgLen == 0));
        ch := ch.(giftIn := parts.pho(chaining.y, i.adData, Bytes(n.remAd)), giftStart := true);
        next := WaitAd;
      case WaitAd =>
        if giftDone {
          ch := ch.(y := giftOut);
          if n.lastAd {
            if i.msgLen != 0 {
              next := ProcMsg;
            } else {
              out := out.(tagOut := giftOut);
              next := Done;
            }
          } else {
            n := n.(remAd := OneBlockLess(n.remAd));
            next := ReqAd;
          }
        }
      case ReqAd =>
        out := out.(adReq := true);
        if i.adAck { next := ProcAd; }
      case ProcMsg =>
        n := n.(lastMsg := n.remMsg <= 16);
        ch := ch.(l := MsgMask(parts, chaining.l, n.remMsg));
        out := out.(dataOut := parts.out(chaining.y, i.msgData, Bytes(n.remMsg)), dataValid := true);
        var plain := if i.decrypt then out.dataOut else i.msgData;
        ch := ch.(giftIn := parts.pho(chaining.y, plain, Bytes(n.remMsg)), giftStart := true);
        next := WaitMsg;
      case WaitMsg =>
        if giftDone {
          ch := ch.(y := giftOut);
          if n.lastMsg {
            out := out.(tagOut := giftOut);
            next := Done;
          } else {
            n := n.(remMsg := OneBlockLess(n.remMsg));
            next := ReqMsg;
          }
        }
      case ReqMsg =>
        out := out.(msgReq := true);
        if i.msgAck { next := ProcMsg; }
      case Done =>
        out := out.(done := true, valid := if i.decrypt then outputs.tagOut == i.tagIn else true);
        if !i.start { next := Idle; }
    }
  }
}
