/** The TinyJAMBU core: controller, shift register and datapath clock by clock,
    and their refinement of the mode. */
module TinyJambuCore {
  import opened Bits
  import opened Clocked
  import opened TinyJambuNlfsr
  import opened TinyJambuMode
  import opened TinyJambuDatapath

  // ---- registers and wires -------------------------------------------------------

  datatype Phase = Idle | LatchAd | LatchDat | Perm | NonceFrame | NonceXor | AdFrame | AdXor
    | MsgFrame | MsgXor | Fin1 | Fin2 | Done

  datatype Fsm = Fsm(phase: Phase, permRet: Phase, steps: nat, kidx: nat, ncnt: nat, wcnt: nat, tlo: Word, done: bool)

  datatype Regs = Regs(fsm: Fsm, w: State, d: Datapath)

  type Step = (State, Word) -> State

  const MODE_ENCRYPT: nat := 1

  predicate LastAd(f: Fsm, d: Datapath) { f.wcnt == d.adWords - 1 }

  predicate LastMsg(f: Fsm, d: Datapath) { f.wcnt == d.dataWords - 1 }

  function Partial(len: nat): Word { Number(len % 4, 32) }

  function Frame(frame: nat): Word { Number(frame, 32) }

  /** The message word as it leaves, cut to the valid bytes in the last word. */
  function OutWord(f: Fsm, w2: Word, d: Datapath): Word
  {
    var out := Xor(w2, GetWord(d.dataR, f.wcnt % 4));
    if LastMsg(f, d) && d.dataLen % 4 != 0 then And(out, ByteMask(d.dataLen)) else out
  }

  /** The message word as it is absorbed. */
  function PlainWord(f: Fsm, w2: Word, d: Datapath): Word
  {
    var word := GetWord(d.dataR, f.wcnt % 4);
    if d.mode != MODE_ENCRYPT then OutWord(f, w2, d)
    else if LastMsg(f, d) && d.dataLen % 4 != 0 then And(word, ByteMask(d.dataLen)) else word
  }

  function NoXor(init: bool, run: bool, keyWord: Word): NlfsrIn
  {
    NlfsrIn(init, run, keyWord, false, Zeros(32), false, Zeros(32))
  }

  function FrameOnly(keyWord: Word, x: Word): NlfsrIn
  {
    NlfsrIn(false, false, keyWord, true, x, false, Zeros(32))
  }

  /** What the controller asks of the shift register: XOR deltas only. */
  function NlfsrWires(f: Fsm, w2: Word, d: Datapath, ena: bool): NlfsrIn
  {
    var k := KeyWord(d.keyR, f.kidx);
    match f.phase
    case Idle => NoXor(ena, false, k)
    case Perm => NoXor(false, true, k)
    case NonceFrame => FrameOnly(k, Frame(FRAME_NONCE))
    case NonceXor =>
      NlfsrIn(false, false, k,
        f.ncnt >= 2 && d.adWords == 0 && d.dataWords == 0, Frame(FRAME_FINAL),
        true, NonceWord(d.nonceR, f.ncnt))
    case AdFrame => FrameOnly(k, Frame(FRAME_AD))
    case AdXor =>
      var partial := d.adLen % 4 != 0;
      var word := GetWord(d.adR, f.wcnt % 4);
      NlfsrIn(false, false, k,
        LastAd(f, d) && (d.dataWords == 0 || partial),
        if d.dataWords > 0 then Partial(d.adLen)
        else if partial then Xor(Partial(d.adLen), Frame(FRAME_FINAL)) else Frame(FRAME_FINAL),
        true, if LastAd(f, d) && partial then And(word, ByteMask(d.adLen)) else word)
    case MsgFrame => FrameOnly(k, Frame(FRAME_MESSAGE))
    case MsgXor =>
      NlfsrIn(false, false, k,
        LastMsg(f, d),
        if d.dataLen % 4 != 0 then Xor(Partial(d.dataLen), Frame(FRAME_FINAL)) else Frame(FRAME_FINAL),
        true, PlainWord(f, w2, d))
    case Fin1 => FrameOnly(k, Frame(FRAME_FINAL))
    case _ => NoXor(false, false, k)
  }

  /** What the controller asks of the datapath. */
  function DatapathWires(f: Fsm, w2: Word, d: Datapath, ena: bool): Control
  {
    Control(f.phase == Idle && ena, f.phase == LatchAd, f.phase == LatchDat,
      f.phase == MsgXor, f.wcnt % 4, OutWord(f, w2, d),
      f.phase == Fin2, f.tlo, w2)
  }

  function ToPerm(f: Fsm, words: nat, ret: Phase): Fsm
  {
    f.(phase := Perm, steps := words, kidx := 0, permRet := ret, done := false)
  }

  function ToMessage(f: Fsm, d: Datapath): Fsm
  {
    if d.dataWords > 0 then f.(phase := MsgFrame, wcnt := 0, done := false)
    else ToPerm(f.(wcnt := 0), 32, Fin1)
  }

  function NextFsm(f: Fsm, w2: Word, d: Datapath, ena: bool): Fsm
  {
    match f.phase
    case Idle => if ena then f.(ncnt := 0, wcnt := 0, tlo := Zeros(32), phase := LatchAd, done := false) else f.(done := false)
    case LatchAd => f.(phase := LatchDat, done := false)
    case LatchDat => ToPerm(f, 32, NonceFrame)
    case Perm =>
      f.(kidx := (f.kidx + 1) % 64, steps := (f.steps + 63) % 64,
         phase := if f.steps == 1 then f.permRet else Perm, done := false)
    case NonceFrame => ToPerm(f, 20, NonceXor)
    case NonceXor =>
      var g := f.(ncnt := (f.ncnt + 1) % 4);
      if f.ncnt < 2 then g.(phase := NonceFrame, done := false)
      else if d.adWords > 0 then g.(wcnt := 0, phase := AdFrame, done := false)
      else ToMessage(g, d)
    case AdFrame => ToPerm(f, 20, AdXor)
    case AdXor =>
      if LastAd(f, d) then ToMessage(f, d)
      else f.(wcnt := (f.wcnt + 1) % 8, phase := AdFrame, done := false)
    case MsgFrame => ToPerm(f, 32, MsgXor)
    case MsgXor =>
      var g := f.(wcnt := (f.wcnt + 1) % 8);
      if LastMsg(f, d) then ToPerm(g, 32, Fin1) else g.(phase := MsgFrame, done := false)
    case Fin1 => ToPerm(f.(tlo := w2), 20, Fin2)
    case Fin2 => f.(phase := Done, done := false)
    case Done => f.(phase := Idle, done := true)
  }

  function Next(step: Step, c: Regs, i: In): Regs
  {
    Regs(NextFsm(c.fsm, c.w.w2, c.d, i.ena),
      NextWith(step, c.w, NlfsrWires(c.fsm, c.w.w2, c.d, i.ena)),
      NextDatapath(c.d, i, DatapathWires(c.fsm, c.w.w2, c.d, i.ena)))
  }

  type Clock = Regs -> Regs

  predicate Edge(c: Regs) { true }

  /** `next` is the clock edge of this core; asserting `Edge(c)` looks at it in `c`. */
  ghost predicate Implements(next: Clock, step: Step, i: In)
  {
    forall c: Regs {:trigger Edge(c)} :: next(c) == Next(step, c, i)
  }

  /** Neither finished nor waiting for a request. */
  predicate Busy(c: Regs) { !c.fsm.done && c.fsm.phase != Idle }

  // ---- the phases ---------------------------------------------------------------

  ghost predicate Computes(p: TinyJambuMode.Perm, step: Step, key: Block)
  {
    forall s: State, n: nat :: p(s, n) == WordSteps(step, s, key, n)
  }

  predicate Permuting(c: Regs, words: nat)
  {
    c.fsm.phase == Perm && c.fsm.steps == words && c.fsm.kidx == 0 && c.fsm.permRet != Idle
  }

  /** The registers after `m` clocks of a permutation phase. */
  function Permuted(step: Step, c: Regs, words: nat, m: nat): Regs
  {
    Regs(c.fsm.(steps := if m < words then words - m else 0, kidx := m, phase := if m >= words then c.fsm.permRet else Perm),
      WordSteps(step, c.w, c.d.keyR, m), c.d)
  }

  lemma PermClock(next: Clock, step: Step, i: In, c: Regs, words: nat, m: nat)
    requires Implements(next, step, i) && words <= 32 && m < words && Permuting(c, words) && !c.fsm.done
    ensures next(Permuted(step, c, words, m)) == Permuted(step, c, words, m + 1)
  {
    assert Edge(Permuted(step, c, words, m));
  }

  /** A permutation phase applies the permutation and returns where it was told. */
  lemma PermPhase(next: Clock, step: Step, i: In, p: TinyJambuMode.Perm, c: Regs, words: nat)
    requires Implements(next, step, i) && Computes(p, step, c.d.keyR)
    requires 1 <= words <= 32 && Permuting(c, words) && !c.fsm.done
    ensures Reaches(next, Busy, c, words,
      Regs(c.fsm.(steps := 0, kidx := words, phase := c.fsm.permRet), p(c.w, words), c.d))
  {
    var f := (m: nat) => Permuted(step, c, words, m);
    forall k: nat | k < words
      ensures Follows(next, Busy, f, k)
    {
      PermClock(next, step, i, c, words, k);
    }
    Along(next, Busy, c, f, words);
  }

  function FrameOf(phase: Phase): nat
  {
    if phase == NonceFrame then FRAME_NONCE else if phase == AdFrame then FRAME_AD else FRAME_MESSAGE
  }

  function WordsOf(phase: Phase): nat { if phase == MsgFrame then 32 else 20 }

  function AfterFrame(phase: Phase): Phase
  {
    if phase == NonceFrame then NonceXor else if phase == AdFrame then AdXor else MsgXor
  }

  function Started(c: Regs): Regs
  {
    Regs(ToPerm(c.fsm, WordsOf(c.fsm.phase), AfterFrame(c.fsm.phase)), AddW1(c.w, Number(FrameOf(c.fsm.phase), 32)), c.d)
  }

  lemma FrameClock(next: Clock, step: Step, i: In, c: Regs)
    requires Implements(next, step, i)
    requires c.fsm.phase == NonceFrame || c.fsm.phase == AdFrame || c.fsm.phase == MsgFrame
    ensures Reaches(next, Busy, c, 1, Started(c))
  {
    assert Edge(c);
    OneClock(next, Busy, c);
  }

  /** A frame phase: frame bits, then the permutation. */
  lemma FramePhase(next: Clock, step: Step, i: In, p: TinyJambuMode.Perm, c: Regs) returns (e: Regs)
    requires Implements(next, step, i) && Computes(p, step, c.d.keyR)
    requires c.fsm.phase == NonceFrame || c.fsm.phase == AdFrame || c.fsm.phase == MsgFrame
    ensures e.fsm.phase == AfterFrame(c.fsm.phase) && e.fsm.ncnt == c.fsm.ncnt && e.fsm.wcnt == c.fsm.wcnt
    ensures e.w == Framed(c.w, p, FrameOf(c.fsm.phase), WordsOf(c.fsm.phase)) && e.d == c.d
    ensures Reaches(next, Busy, c, 1 + WordsOf(c.fsm.phase), e)
  {
    var s, n := Started(c), WordsOf(c.fsm.phase);
    FrameClock(next, step, i, c);
    PermPhase(next, step, i, p, s, n);
    e := Regs(s.fsm.(steps := 0, kidx := n, phase := s.fsm.permRet), p(s.w, n), s.d);
    Then(next, Busy, c, 1, s, n, e);
  }

  // ---- from acceptance to the first word ----------------------------------------

  function Latched(d: Datapath, i: In): Datapath
  {
    d.(keyR := SwapBytes(16, i.key), nonceR := SwapBytes(12, i.nonce), tagInR := SwapBytes(8, i.tagIn),
       adR := Pad(Stream(i.ad, i.adLen), 128), dataR := Pad(Stream(i.dataIn, i.dataLen), 128),
       adLen := i.adLen, dataLen := i.dataLen, mode := i.mode,
       adWords := CountWords(i.adLen), dataWords := CountWords(i.dataLen),
       dataOut := Zeros(128), tag := Zeros(64), valid := false)
  }

  lemma AcceptClocks(step: Step, i: In, c: Regs) returns (e: Regs)
    requires c.fsm.phase == Idle && i.ena
    ensures Busy(Next(step, c, i)) && Busy(Next(step, Next(step, c, i), i))
    ensures e == Next(step, Next(step, Next(step, c, i), i), i)
    ensures Permuting(e, 32) && e.fsm.permRet == NonceFrame && !e.fsm.done && e.fsm.ncnt == 0
    ensures e.w == Cleared() && e.d == Latched(c.d, i)
  {
    AlignIsStream(i.ad, i.adLen);
    AlignIsStream(i.dataIn, i.dataLen);
    e := Next(step, Next(step, Next(step, c, i), i), i);
  }

  lemma Accept(next: Clock, step: Step, i: In, c: Regs) returns (e: Regs)
    requires Implements(next, step, i) && c.fsm.phase == Idle && i.ena
    ensures Permuting(e, 32) && e.fsm.permRet == NonceFrame && !e.fsm.done && e.fsm.ncnt == 0
    ensures e.w == Cleared() && e.d == Latched(c.d, i)
    ensures Reaches(next, Busy, c, 3, e)
  {
    e := AcceptClocks(step, i, c);
    assert Edge(c) && Edge(next(c)) && Edge(next(next(c)));
    OneClock(next, Busy, c);
    OneClock(next, Busy, next(c));
    OneClock(next, Busy, next(next(c)));
    Then(next, Busy, c, 1, next(c), 1, next(next(c)));
    Then(next, Busy, c, 2, next(next(c)), 1, e);
  }

  /** At the start of a frame phase. */
  predicate At(c: Regs, phase: Phase, w: State, d: Datapath)
  {
    c.fsm.phase == phase && !c.fsm.done && c.w == w && c.d == d
  }

  /** About to permute for the tag: the final frame is already added. */
  predicate ReadyFinal(c: Regs, w: State, d: Datapath)
  {
    Permuting(c, 32) && c.fsm.permRet == Fin1 && !c.fsm.done && c.w == AddW1(w, Frame(FRAME_FINAL)) && c.d == d
  }

  predicate ReadyMessage(c: Regs, w: State, d: Datapath)
  {
    if d.dataWords > 0 then At(c, MsgFrame, w, d) && c.fsm.wcnt == 0 else ReadyFinal(c, w, d)
  }

  predicate ReadyAd(c: Regs, w: State, d: Datapath)
  {
    if d.adWords > 0 then At(c, AdFrame, w, d) && c.fsm.wcnt == 0 else ReadyMessage(c, w, d)
  }

  /** The datapath keeps its registers except in the latch, output and final phases. */
  lemma DatapathHolds(i: In, c: Regs)
    requires c.fsm.phase == NonceXor || c.fsm.phase == AdXor || c.fsm.phase == Fin1
    ensures NextDatapath(c.d, i, DatapathWires(c.fsm, c.w.w2, c.d, i.ena)) == c.d
  {
  }

  lemma NonceWires(step: Step, i: In, c: Regs)
    requires c.fsm.phase == NonceXor && c.fsm.ncnt <= 2
    ensures var w := AddW3(c.w, NonceWord(c.d.nonceR, c.fsm.ncnt));
      NextWith(step, c.w, NlfsrWires(c.fsm, c.w.w2, c.d, i.ena))
        == if c.fsm.ncnt == 2 && c.d.adWords == 0 && c.d.dataWords == 0 then AddW1(w, Frame(FRAME_FINAL)) else w
  {
  }

  lemma NonceClock(step: Step, i: In, c: Regs)
    requires c.fsm.phase == NonceXor && c.fsm.ncnt <= 2
    ensures var w := AddW3(c.w, NonceWord(c.d.nonceR, c.fsm.ncnt));
      var e := Next(step, c, i);
      && (c.fsm.ncnt < 2 ==> At(e, NonceFrame, w, c.d) && e.fsm.ncnt == c.fsm.ncnt + 1)
      && (c.fsm.ncnt == 2 ==> ReadyAd(e, w, c.d))
  {
    DatapathHolds(i, c);
    NonceWires(step, i, c);
    var f := NextFsm(c.fsm, c.w.w2, c.d, i.ena);
    assert !f.done;
  }

  lemma NonceRound(next: Clock, step: Step, i: In, p: TinyJambuMode.Perm, c: Regs) returns (e: Regs)
    requires Implements(next, step, i) && Computes(p, step, c.d.keyR)
    requires c.fsm.phase == NonceFrame && c.fsm.ncnt <= 2
    ensures var w := AddNonce(c.w, p, NonceWord(c.d.nonceR, c.fsm.ncnt));
      && (c.fsm.ncnt < 2 ==> At(e, NonceFrame, w, c.d) && e.fsm.ncnt == c.fsm.ncnt + 1)
      && (c.fsm.ncnt == 2 ==> ReadyAd(e, w, c.d))
    ensures Reaches(next, Busy, c, 22, e)
  {
    var s := FramePhase(next, step, i, p, c);
    assert Edge(s);
    NonceClock(step, i, s);
    e := next(s);
    OneClock(next, Busy, s);
    Then(next, Busy, c, 21, s, 1, e);
  }

  /** The state of the mode once `n` words of the nonce are absorbed. */
  function NonceState(p: TinyJambuMode.Perm, nonce: Bits, n: nat): State
    requires |nonce| == 96
  {
    if n == 0 then p(Cleared(), 32) else AddNonce(NonceState(p, nonce, n - 1), p, NonceWord(nonce, n - 1))
  }

  lemma {:induction false} NonceLoop(next: Clock, step: Step, i: In, p: TinyJambuMode.Perm, c: Regs) returns (e: Regs)
    requires Implements(next, step, i) && Computes(p, step, c.d.keyR)
    requires c.fsm.phase == NonceFrame && c.fsm.ncnt <= 2 && c.w == NonceState(p, c.d.nonceR, c.fsm.ncnt)
    ensures ReadyAd(e, NonceState(p, c.d.nonceR, 3), c.d)
    ensures Reaches(next, Busy, c, 22 * (3 - c.fsm.ncnt), e)
    decreases 3 - c.fsm.ncnt
  {
    var f := NonceRound(next, step, i, p, c);
    if c.fsm.ncnt == 2 {
      e := f;
    } else {
      e := NonceLoop(next, step, i, p, f);
      Then(next, Busy, c, 22, f, 22 * (2 - c.fsm.ncnt), e);
    }
  }

  lemma Setup(next: Clock, step: Step, i: In, p: TinyJambuMode.Perm, c: Regs) returns (e: Regs)
    requires Implements(next, step, i) && c.fsm.phase == Idle && i.ena
    requires Computes(p, step, SwapBytes(16, i.key))
    ensures ReadyAd(e, NonceState(p, SwapBytes(12, i.nonce), 3), Latched(c.d, i))
    ensures Reaches(next, Busy, c, 101, e)
  {
    var a := Accept(next, step, i, c);
    PermPhase(next, step, i, p, a, 32);
    var b := Regs(a.fsm.(steps := 0, kidx := 32, phase := NonceFrame), p(a.w, 32), a.d);
    e := NonceLoop(next, step, i, p, b);
    Then(next, Busy, c, 3, a, 32, b);
    Then(next, Busy, c, 35, b, 66, e);
  }

  // ---- associated data ----------------------------------------------------------------

  /** The registers hold the padded stream `s` as associated data. */
  ghost predicate HoldsAd(d: Datapath, s: Bits)
  {
    |s| == 8 * d.adLen && d.adR == Pad(s, 128) && d.adWords == CountWords(d.adLen)
  }

  /** The word of the last, incomplete chunk is masked without effect. */
  lemma AdWord(f: Fsm, d: Datapath, s: Bits, k: nat)
    requires f.wcnt == k && HoldsAd(d, s) && k < d.adWords && 32 * k < |s|
    ensures var chunk := Chunk(s[32 * k..]);
      var word := GetWord(d.adR, k);
      && (if LastAd(f, d) && d.adLen % 4 != 0 then And(word, ByteMask(d.adLen)) else word) == Pad(chunk, 32)
      && (|chunk| % 32 != 0 <==> LastAd(f, d) && d.adLen % 4 != 0)
      && (|chunk| % 32 != 0 ==> |chunk| / 8 == d.adLen % 4)
  {
    WordOfStream(s, k);
    ChunkLength(s, d.adLen, k);
    if LastAd(f, d) {
      MaskPadded(Chunk(s[32 * k..]), d.adLen);
    }
  }

  /** Adding the length and the final frame in one delta, or either alone, or none. */
  lemma AdDelta(step: Step, w: State, wires: NlfsrIn, chunk: Bits, last: bool, more: bool)
    requires |chunk| <= 32 && (|chunk| % 32 != 0 ==> last)
    requires !wires.init && !wires.run && wires.wrW3 && wires.w3Xor == Pad(chunk, 32)
    requires var partial := |chunk| % 32 != 0;
      var length := Number(|chunk| / 8, 32);
      && wires.wrW1 == (last && (!more || partial))
      && (wires.wrW1 ==>
            wires.w1Xor == if more then length else if partial then Xor(length, Frame(FRAME_FINAL)) else Frame(FRAME_FINAL))
    ensures var v := AddLength(AddW3(w, Pad(chunk, 32)), chunk);
      NextWith(step, w, wires) == if last && !more then AddW1(v, Frame(FRAME_FINAL)) else v
  {
    XorLengthAndFrame(w.w1, Number(|chunk| / 8, 32), Frame(FRAME_FINAL));
  }

  /** The wires in the phase that adds associated data. */
  lemma AdWireValues(f: Fsm, w2: Word, d: Datapath, ena: bool, s: Bits, k: nat)
    requires f.phase == AdXor && f.wcnt == k && HoldsAd(d, s) && k < d.adWords && 32 * k < |s|
    ensures var wires, chunk, last, more := NlfsrWires(f, w2, d, ena), Chunk(s[32 * k..]), LastAd(f, d), d.dataWords > 0;
      var partial, length := |chunk| % 32 != 0, Number(|chunk| / 8, 32);
      && (partial ==> last)
      && !wires.init && !wires.run && wires.wrW3 && wires.w3Xor == Pad(chunk, 32)
      && wires.wrW1 == (last && (!more || partial))
      && (wires.wrW1 ==>
            wires.w1Xor == if more then length else if partial then Xor(length, Frame(FRAME_FINAL)) else Frame(FRAME_FINAL))
  {
    AdWord(f, d, s, k);
    assert f.wcnt % 4 == k;
  }

  lemma AdWires(step: Step, i: In, c: Regs, s: Bits, k: nat)
    requires c.fsm.phase == AdXor && c.fsm.wcnt == k && HoldsAd(c.d, s) && k < c.d.adWords && 32 * k < |s|
    ensures var chunk := Chunk(s[32 * k..]);
      var w := AddLength(AddW3(c.w, Pad(chunk, 32)), chunk);
      NextWith(step, c.w, NlfsrWires(c.fsm, c.w.w2, c.d, i.ena))
        == if LastAd(c.fsm, c.d) && c.d.dataWords == 0 then AddW1(w, Frame(FRAME_FINAL)) else w
  {
    AdWireValues(c.fsm, c.w.w2, c.d, i.ena, s, k);
    AdDelta(step, c.w, NlfsrWires(c.fsm, c.w.w2, c.d, i.ena), Chunk(s[32 * k..]), LastAd(c.fsm, c.d), c.d.dataWords > 0);
  }

  lemma AdClock(step: Step, i: In, c: Regs, s: Bits, k: nat, w: State)
    requires c.fsm.phase == AdXor && c.fsm.wcnt == k && HoldsAd(c.d, s) && k < c.d.adWords
    requires 32 * k < |s|
    requires w == AddLength(AddW3(c.w, Pad(Chunk(s[32 * k..]), 32)), Chunk(s[32 * k..]))
    ensures var e := Next(step, c, i);
      if k + 1 < c.d.adWords then At(e, AdFrame, w, c.d) && e.fsm.wcnt == k + 1 else ReadyMessage(e, w, c.d)
  {
    DatapathHolds(i, c);
    AdWires(step, i, c, s, k);
    assert !NextFsm(c.fsm, c.w.w2, c.d, i.ena).done;
  }

  lemma XorLengthAndFrame(w: Word, a: Word, b: Word)
    ensures Xor(w, Xor(a, b)) == Xor(Xor(w, a), b)
  {
  }

  lemma AdRound(next: Clock, step: Step, i: In, p: TinyJambuMode.Perm, c: Regs, s: Bits) returns (e: Regs)
    requires Implements(next, step, i) && Computes(p, step, c.d.keyR)
    requires HoldsAd(c.d, s) && c.fsm.phase == AdFrame && c.fsm.wcnt < c.d.adWords
    requires 32 * c.fsm.wcnt < |s|
    ensures var w := AbsorbChunk(c.w, p, Chunk(s[32 * c.fsm.wcnt..]));
      if c.fsm.wcnt + 1 < c.d.adWords then At(e, AdFrame, w, c.d) && e.fsm.wcnt == c.fsm.wcnt + 1
      else ReadyMessage(e, w, c.d)
    ensures Reaches(next, Busy, c, 22, e)
  {
    var f := FramePhase(next, step, i, p, c);
    assert Edge(f);
    AdClock(step, i, f, s, c.fsm.wcnt, AbsorbChunk(c.w, p, Chunk(s[32 * c.fsm.wcnt..])));
    e := next(f);
    OneClock(next, Busy, f);
    Then(next, Busy, c, 21, f, 1, e);
  }

  lemma {:induction false} AdLoop(next: Clock, step: Step, i: In, p: TinyJambuMode.Perm, c: Regs, s: Bits) returns (e: Regs)
    requires Implements(next, step, i) && Computes(p, step, c.d.keyR)
    requires HoldsAd(c.d, s) && c.fsm.phase == AdFrame && !c.fsm.done && c.fsm.wcnt < c.d.adWords
    requires 32 * c.fsm.wcnt <= |s|
    ensures ReadyMessage(e, Absorb(c.w, p, s[32 * c.fsm.wcnt..]), c.d)
    ensures Reaches(next, Busy, c, 22 * (c.d.adWords - c.fsm.wcnt), e)
    decreases c.d.adWords - c.fsm.wcnt
  {
    var k := c.fsm.wcnt;
    ChunkLength(s, c.d.adLen, k);
    var f := AdRound(next, step, i, p, c, s);
    if k + 1 < c.d.adWords {
      e := AdLoop(next, step, i, p, f, s);
      Then(next, Busy, c, 22, f, 22 * (c.d.adWords - k - 1), e);
    } else {
      e := f;
    }
  }

  // ---- the message ----------------------------------------------------------------------

  /** The registers hold the padded stream `s` as message or ciphertext. */
  ghost predicate HoldsData(d: Datapath, s: Bits)
  {
    |s| == 8 * d.dataLen && d.dataR == Pad(s, 128) && d.dataWords == CountWords(d.dataLen)
  }

  /** Encryption or decryption of a stream, as the mode register selects. */
  function Crypt(mode: nat, s: State, p: TinyJambuMode.Perm, m: Bits): Crypted
  {
    if mode == MODE_ENCRYPT then Encrypt(s, p, m) else Decrypt(s, p, m)
  }

  function Plain(mode: nat, chunk: Bits, masked: Bits): Bits
  {
    if mode == MODE_ENCRYPT then chunk else masked
  }

  lemma DataChunk(f: Fsm, d: Datapath, s: Bits, k: nat)
    requires f.wcnt == k && HoldsData(d, s) && k < d.dataWords && 32 * k < |s|
    ensures k < 4 && GetWord(d.dataR, k) == Pad(Chunk(s[32 * k..]), 32)
    ensures var chunk := Chunk(s[32 * k..]);
      && |chunk| == (if LastMsg(f, d) && d.dataLen % 4 != 0 then 8 * (d.dataLen % 4) else 32)
  {
    WordOfStream(s, k);
    ChunkLength(s, d.dataLen, k);
  }

  lemma OutWordIsMasked(f: Fsm, w2: Word, d: Datapath, chunk: Bits)
    requires f.wcnt < 4 && |chunk| <= 32 && GetWord(d.dataR, f.wcnt) == Pad(chunk, 32)
    requires |chunk| == if LastMsg(f, d) && d.dataLen % 4 != 0 then 8 * (d.dataLen % 4) else 32
    ensures OutWord(f, w2, d) == Pad(Xor(chunk, w2[..|chunk|]), 32)
  {
    if LastMsg(f, d) && d.dataLen % 4 != 0 {
      MaskSum(w2, chunk, d.dataLen);
    } else {
      FullSum(w2, chunk);
    }
  }

  lemma PlainWordIsPlain(f: Fsm, w2: Word, d: Datapath, chunk: Bits)
    requires f.wcnt < 4 && |chunk| <= 32 && GetWord(d.dataR, f.wcnt) == Pad(chunk, 32)
    requires |chunk| == if LastMsg(f, d) && d.dataLen % 4 != 0 then 8 * (d.dataLen % 4) else 32
    ensures PlainWord(f, w2, d) == Pad(Plain(d.mode, chunk, Xor(chunk, w2[..|chunk|])), 32)
  {
    OutWordIsMasked(f, w2, d, chunk);
    if LastMsg(f, d) && d.dataLen % 4 != 0 {
      MaskPadded(chunk, d.dataLen);
    }
  }

  lemma PlainLength(mode: nat, chunk: Bits, w: Word)
    requires |chunk| <= 32
    ensures |Plain(mode, chunk, Xor(chunk, w[..|chunk|]))| == |chunk|
  {
  }

  /** The number the controller adds for an incomplete chunk is its length in bytes. */
  lemma PartialOfLength(last: bool, len: nat, chunk: Bits)
    requires |chunk| == if last && len % 4 != 0 then 8 * (len % 4) else 32
    ensures |chunk| % 32 != 0 <==> last && len % 4 != 0
    ensures |chunk| % 32 != 0 ==> |chunk| / 8 == len % 4
  {
  }

  /** The wires in the phase that adds data. */
  lemma MsgWireValues(f: Fsm, w2: Word, d: Datapath, ena: bool, s: Bits, k: nat)
    requires f.phase == MsgXor && f.wcnt == k && HoldsData(d, s) && k < d.dataWords && 32 * k < |s|
    ensures var chunk := Chunk(s[32 * k..]);
      var plain := Plain(d.mode, chunk, Xor(chunk, w2[..|chunk|]));
      var wires, last, partial, length := NlfsrWires(f, w2, d, ena), LastMsg(f, d), |plain| % 32 != 0, Number(|plain| / 8, 32);
      && (partial ==> last)
      && !wires.init && !wires.run && wires.wrW3 && wires.w3Xor == Pad(plain, 32)
      && wires.wrW1 == last
      && (wires.wrW1 ==> wires.w1Xor == if partial then Xor(length, Frame(FRAME_FINAL)) else Frame(FRAME_FINAL))
  {
    var chunk := Chunk(s[32 * k..]);
    DataChunk(f, d, s, k);
    PlainWordIsPlain(f, w2, d, chunk);
    PlainLength(d.mode, chunk, w2);
    PartialOfLength(LastMsg(f, d), d.dataLen, chunk);
  }

  lemma MsgWires(step: Step, i: In, c: Regs, s: Bits, k: nat)
    requires c.fsm.phase == MsgXor && c.fsm.wcnt == k && HoldsData(c.d, s) && k < c.d.dataWords && 32 * k < |s|
    ensures var chunk := Chunk(s[32 * k..]);
      var plain := Plain(c.d.mode, chunk, Xor(chunk, c.w.w2[..|chunk|]));
      var w := AddLength(AddW3(c.w, Pad(plain, 32)), plain);
      NextWith(step, c.w, NlfsrWires(c.fsm, c.w.w2, c.d, i.ena))
        == if LastMsg(c.fsm, c.d) then AddW1(w, Frame(FRAME_FINAL)) else w
  {
    var chunk := Chunk(s[32 * k..]);
    MsgWireValues(c.fsm, c.w.w2, c.d, i.ena, s, k);
    AdDelta(step, c.w, NlfsrWires(c.fsm, c.w.w2, c.d, i.ena),
      Plain(c.d.mode, chunk, Xor(chunk, c.w.w2[..|chunk|])), LastMsg(c.fsm, c.d), false);
  }

  lemma MsgOutput(i: In, c: Regs, s: Bits, k: nat, out: Bits)
    requires c.fsm.phase == MsgXor && c.fsm.wcnt == k && HoldsData(c.d, s) && k < c.d.dataWords && 32 * k < |s|
    requires |out| == 32 * k && c.d.dataOut == Pad(out, 128)
    ensures var chunk := Chunk(s[32 * k..]);
      NextDatapath(c.d, i, DatapathWires(c.fsm, c.w.w2, c.d, i.ena))
        == c.d.(dataOut := Pad(out + Xor(chunk, c.w.w2[..|chunk|]), 128))
  {
    var chunk := Chunk(s[32 * k..]);
    DataChunk(c.fsm, c.d, s, k);
    OutWordIsMasked(c.fsm, c.w.w2, c.d, chunk);
    var wires := DatapathWires(c.fsm, c.w.w2, c.d, i.ena);
    assert wires.outWr && !wires.latch && !wires.latchAd && !wires.latchDat && wires.outIdx == k;
    SetStreamWord(out, k, Xor(chunk, c.w.w2[..|chunk|]));
  }

  lemma MsgClock(step: Step, i: In, c: Regs, s: Bits, k: nat, out: Bits)
    requires c.fsm.phase == MsgXor && c.fsm.wcnt == k && HoldsData(c.d, s) && k < c.d.dataWords && 32 * k < |s|
    requires |out| == 32 * k && c.d.dataOut == Pad(out, 128)
    ensures var chunk := Chunk(s[32 * k..]);
      var masked := Xor(chunk, c.w.w2[..|chunk|]);
      var plain := Plain(c.d.mode, chunk, masked);
      var w := AddLength(AddW3(c.w, Pad(plain, 32)), plain);
      var d := c.d.(dataOut := Pad(out + masked, 128));
      var e := Next(step, c, i);
      if k + 1 < c.d.dataWords then At(e, MsgFrame, w, d) && e.fsm.wcnt == k + 1 else ReadyFinal(e, w, d)
  {
    MsgWires(step, i, c, s, k);
    MsgOutput(i, c, s, k, out);
    assert !NextFsm(c.fsm, c.w.w2, c.d, i.ena).done;
  }

  lemma MsgRound(next: Clock, step: Step, i: In, p: TinyJambuMode.Perm, c: Regs, s: Bits, out: Bits) returns (e: Regs)
    requires Implements(next, step, i) && Computes(p, step, c.d.keyR)
    requires HoldsData(c.d, s) && c.fsm.phase == MsgFrame && c.fsm.wcnt < c.d.dataWords && 32 * c.fsm.wcnt < |s|
    requires |out| == 32 * c.fsm.wcnt && c.d.dataOut == Pad(out, 128)
    ensures var chunk := Chunk(s[32 * c.fsm.wcnt..]);
      var masked := Mask(c.w, p, chunk);
      var w := MessageChunk(c.w, p, Plain(c.d.mode, chunk, masked));
      var d := c.d.(dataOut := Pad(out + masked, 128));
      if c.fsm.wcnt + 1 < c.d.dataWords then At(e, MsgFrame, w, d) && e.fsm.wcnt == c.fsm.wcnt + 1
      else ReadyFinal(e, w, d)
    ensures Reaches(next, Busy, c, 34, e)
  {
    var f := FramePhase(next, step, i, p, c);
    assert Edge(f);
    MsgClock(step, i, f, s, c.fsm.wcnt, out);
    e := next(f);
    OneClock(next, Busy, f);
    Then(next, Busy, c, 33, f, 1, e);
  }

  lemma CryptStep(mode: nat, w: State, p: TinyJambuMode.Perm, m: Bits)
    requires m != []
    ensures var masked := Mask(w, p, Chunk(m));
      var rest := Crypt(mode, MessageChunk(w, p, Plain(mode, Chunk(m), masked)), p, m[|Chunk(m)|..]);
      Crypt(mode, w, p, m) == Crypted(rest.state, masked + rest.text)
    ensures m[|Chunk(m)|..] == [] ==>
      Crypt(mode, w, p, m) == Crypted(MessageChunk(w, p, Plain(mode, m, Mask(w, p, m))), Mask(w, p, m))
  {
  }

  lemma {:induction false} MsgLoop(next: Clock, step: Step, i: In, p: TinyJambuMode.Perm, c: Regs, s: Bits, out: Bits)
    returns (e: Regs)
    requires Implements(next, step, i) && Computes(p, step, c.d.keyR)
    requires HoldsData(c.d, s) && c.fsm.phase == MsgFrame && c.fsm.wcnt < c.d.dataWords && 32 * c.fsm.wcnt <= |s|
    requires |out| == 32 * c.fsm.wcnt && c.d.dataOut == Pad(out, 128)
    ensures var r := Crypt(c.d.mode, c.w, p, s[32 * c.fsm.wcnt..]);
      ReadyFinal(e, r.state, c.d.(dataOut := Pad(out + r.text, 128)))
    ensures Reaches(next, Busy, c, 34 * (c.d.dataWords - c.fsm.wcnt), e)
    decreases c.d.dataWords - c.fsm.wcnt
  {
    var k := c.fsm.wcnt;
    ChunkLength(s, c.d.dataLen, k);
    var f := MsgRound(next, step, i, p, c, s, out);
    CryptStep(c.d.mode, c.w, p, s[32 * k..]);
    var masked := Mask(c.w, p, Chunk(s[32 * k..]));
    if k + 1 < c.d.dataWords {
      e := MsgLoop(next, step, i, p, f, s, out + masked);
      AppendThrough(out, masked, Crypt(c.d.mode, f.w, p, s[32 * (k + 1)..]).text);
      Then(next, Busy, c, 34, f, 34 * (c.d.dataWords - k - 1), e);
    } else {
      e := f;
    }
  }

  lemma AppendThrough(a: Bits, b: Bits, c: Bits)
    ensures (a + b) + c == a + (b + c)
  {
  }

  // ---- the tag -------------------------------------------------------------------------------

  function Finalized(d: Datapath, tag: Bits): Datapath
    requires |tag| == 64
  {
    d.(dataOut := SwapAndAlign(d.dataOut, d.dataLen), tag := SwapBytes(8, tag),
       valid := d.mode != MODE_DECRYPT || tag == d.tagInR)
  }

  lemma Fin1Clock(step: Step, i: In, c: Regs)
    requires c.fsm.phase == Fin1
    ensures Next(step, c, i)
         == Regs(ToPerm(c.fsm.(tlo := c.w.w2), 20, Fin2), AddW1(c.w, Frame(FRAME_FINAL)), c.d)
  {
    DatapathHolds(i, c);
  }

  lemma Fin2Clock(step: Step, i: In, c: Regs)
    requires c.fsm.phase == Fin2
    ensures var e := Next(step, c, i);
      e.fsm.phase == Done && !e.fsm.done && e.d == Finalized(c.d, c.fsm.tlo + c.w.w2)
  {
  }

  lemma FinalPhase(next: Clock, step: Step, i: In, p: TinyJambuMode.Perm, c: Regs, w: State) returns (e: Regs)
    requires Implements(next, step, i) && Computes(p, step, c.d.keyR) && ReadyFinal(c, w, c.d)
    ensures e.fsm.phase == Done && e.d == Finalized(c.d, Finish(w, p))
    ensures Reaches(next, Busy, c, 54, e)
  {
    PermPhase(next, step, i, p, c, 32);
    var a := Regs(c.fsm.(steps := 0, kidx := 32, phase := Fin1), p(c.w, 32), c.d);
    assert Edge(a);
    Fin1Clock(step, i, a);
    var b := next(a);
    OneClock(next, Busy, a);
    PermPhase(next, step, i, p, b, 20);
    var f := Regs(b.fsm.(steps := 0, kidx := 20, phase := Fin2), p(b.w, 20), b.d);
    assert Edge(f);
    Fin2Clock(step, i, f);
    e := next(f);
    OneClock(next, Busy, f);
    Then(next, Busy, c, 32, a, 1, b);
    Then(next, Busy, c, 33, b, 20, f);
    Then(next, Busy, c, 53, f, 1, e);
  }

  // ---- whole requests ------------------------------------------------------------------------

  /** The clock edges from acceptance to `done`, counting both. */
  function Latency(i: In): nat { 156 + 22 * CountWords(i.adLen) + 34 * CountWords(i.dataLen) }

  lemma StartOfNonce(p: TinyJambuMode.Perm, nonce: Bits, ad: Bits)
    requires |nonce| == 96
    ensures Start(p, nonce, ad) == Absorb(NonceState(p, nonce, 3), p, ad)
  {
    assert NonceState(p, nonce, 0) == p(Cleared(), 32);
    assert NonceState(p, nonce, 1) == AddNonce(NonceState(p, nonce, 0), p, nonce[..32]) by {
      assert NonceWord(nonce, 0) == nonce[..32];
    }
    assert NonceState(p, nonce, 2) == AddNonce(NonceState(p, nonce, 1), p, nonce[32..64]);
    assert NonceState(p, nonce, 3) == AddNonce(NonceState(p, nonce, 2), p, nonce[64..]) by {
      assert NonceWord(nonce, 2) == nonce[64..];
    }
  }

  lemma AdPart(next: Clock, step: Step, i: In, p: TinyJambuMode.Perm, c: Regs, w: State, s: Bits) returns (e: Regs)
    requires Implements(next, step, i) && Computes(p, step, c.d.keyR)
    requires ReadyAd(c, w, c.d) && HoldsAd(c.d, s)
    ensures ReadyMessage(e, Absorb(w, p, s), c.d)
    ensures Reaches(next, Busy, c, 22 * c.d.adWords, e)
  {
    if c.d.adWords > 0 {
      assert s[32 * c.fsm.wcnt..] == s;
      e := AdLoop(next, step, i, p, c, s);
    } else {
      e := c;
    }
  }

  lemma MsgPart(next: Clock, step: Step, i: In, p: TinyJambuMode.Perm, c: Regs, w: State, s: Bits) returns (e: Regs)
    requires Implements(next, step, i) && Computes(p, step, c.d.keyR)
    requires ReadyMessage(c, w, c.d) && HoldsData(c.d, s) && c.d.dataOut == Pad([], 128)
    ensures var r := Crypt(c.d.mode, w, p, s);
      |r.text| == |s| && ReadyFinal(e, r.state, c.d.(dataOut := Pad(r.text, 128)))
    ensures Reaches(next, Busy, c, 34 * c.d.dataWords, e)
  {
    if c.d.dataWords > 0 {
      assert s[32 * c.fsm.wcnt..] == s;
      e := MsgLoop(next, step, i, p, c, s, []);
      assert [] + Crypt(c.d.mode, w, p, s).text == Crypt(c.d.mode, w, p, s).text;
    } else {
      e := c;
    }
  }

  lemma LatchedHolds(d: Datapath, i: In)
    ensures HoldsAd(Latched(d, i), Stream(i.ad, i.adLen)) && HoldsData(Latched(d, i), Stream(i.dataIn, i.dataLen))
    ensures Latched(d, i).dataOut == Pad([], 128)
  {
  }

  lemma AllWords(next: Clock, step: Step, i: In, p: TinyJambuMode.Perm, c: Regs, w: State, s: Bits, m: Bits)
    returns (e: Regs)
    requires Implements(next, step, i) && Computes(p, step, c.d.keyR)
    requires ReadyAd(c, w, c.d) && HoldsAd(c.d, s) && HoldsData(c.d, m) && c.d.dataOut == Pad([], 128)
    ensures var r := Crypt(c.d.mode, Absorb(w, p, s), p, m);
      |r.text| == |m| && ReadyFinal(e, r.state, c.d.(dataOut := Pad(r.text, 128)))
    ensures Reaches(next, Busy, c, 22 * c.d.adWords + 34 * c.d.dataWords, e)
  {
    var b := AdPart(next, step, i, p, c, w, s);
    e := MsgPart(next, step, i, p, b, Absorb(w, p, s), m);
    Then(next, Busy, c, 22 * c.d.adWords, b, 34 * c.d.dataWords, e);
  }

  /** What the mode says about a request: the stream out, and the tag. */
  function Expected(i: In, p: TinyJambuMode.Perm): Sealed
  {
    var nonce, ad, m := SwapBytes(12, i.nonce), Stream(i.ad, i.adLen), Stream(i.dataIn, i.dataLen);
    if i.mode == MODE_ENCRYPT then Seal(p, nonce, ad, m) else Open(p, nonce, ad, m)
  }

  /** The outputs once `done` is up. */
  ghost predicate Delivers(d: Datapath, i: In, r: Sealed)
  {
    && |r.text| == 8 * i.dataLen && |r.tag| == 64
    && d.dataOut == SwapAndAlign(Pad(r.text, 128), i.dataLen)
    && d.tag == SwapBytes(8, r.tag)
    && d.valid == (i.mode != MODE_DECRYPT || d.tag == i.tagIn)
  }

  lemma DeliveredTag(d: Datapath, i: In, c: Regs, r: Sealed)
    requires |r.text| == 8 * i.dataLen && |r.tag| == 64
    requires d == Finalized(Latched(c.d, i).(dataOut := Pad(r.text, 128)), r.tag)
    ensures Delivers(d, i, r)
  {
    SwapTwice(8, i.tagIn);
    SwapTwice(8, r.tag);
  }

  lemma Request(next: Clock, step: Step, i: In, p: TinyJambuMode.Perm, c: Regs) returns (e: Regs)
    requires Implements(next, step, i) && c.fsm.phase == Idle && i.ena
    requires Computes(p, step, SwapBytes(16, i.key))
    ensures e.fsm.phase == Done && Delivers(e.d, i, Expected(i, p))
    ensures Reaches(next, Busy, c, Latency(i) - 1, e)
  {
    var w := NonceState(p, SwapBytes(12, i.nonce), 3);
    LatchedHolds(c.d, i);
    var b := RequestWords(next, step, i, p, c, w, Stream(i.ad, i.adLen), Stream(i.dataIn, i.dataLen));
    var n := 101 + 22 * CountWords(i.adLen) + 34 * CountWords(i.dataLen);
    var r := Crypt(i.mode, Absorb(w, p, Stream(i.ad, i.adLen)), p, Stream(i.dataIn, i.dataLen));
    e := RequestEnd(next, step, i, p, c, w, n, b, Latency(i) - 1, r);
  }

  lemma RequestWords(next: Clock, step: Step, i: In, p: TinyJambuMode.Perm, c: Regs, w: State, s: Bits, m: Bits)
    returns (b: Regs)
    requires Implements(next, step, i) && c.fsm.phase == Idle && i.ena
    requires Computes(p, step, SwapBytes(16, i.key)) && w == NonceState(p, SwapBytes(12, i.nonce), 3)
    requires var d := Latched(c.d, i); HoldsAd(d, s) && HoldsData(d, m) && d.dataOut == Pad([], 128)
    ensures var r := Crypt(i.mode, Absorb(w, p, s), p, m);
      |r.text| == |m| && ReadyFinal(b, r.state, Latched(c.d, i).(dataOut := Pad(r.text, 128)))
    ensures Reaches(next, Busy, c, 101 + 22 * CountWords(i.adLen) + 34 * CountWords(i.dataLen), b)
  {
    var a := Setup(next, step, i, p, c);
    b := AllWords(next, step, i, p, a, w, s, m);
    Then(next, Busy, c, 101, a, 22 * CountWords(i.adLen) + 34 * CountWords(i.dataLen), b);
  }

  lemma RequestEnd(next: Clock, step: Step, i: In, p: TinyJambuMode.Perm, c: Regs, w: State, n: nat, b: Regs, total: nat, r: Crypted)
    returns (e: Regs)
    requires Implements(next, step, i) && Computes(p, step, b.d.keyR) && total == n + 54
    requires w == NonceState(p, SwapBytes(12, i.nonce), 3) && Reaches(next, Busy, c, n, b)
    requires r == Crypt(i.mode, Absorb(w, p, Stream(i.ad, i.adLen)), p, Stream(i.dataIn, i.dataLen))
    requires |r.text| == 8 * i.dataLen && ReadyFinal(b, r.state, Latched(c.d, i).(dataOut := Pad(r.text, 128)))
    ensures e.fsm.phase == Done && Delivers(e.d, i, Expected(i, p))
    ensures Reaches(next, Busy, c, total, e)
  {
    StartOfNonce(p, SwapBytes(12, i.nonce), Stream(i.ad, i.adLen));
    e := FinalPhase(next, step, i, p, b, r.state);
    ThenIn(next, Busy, c, n, b, 54, e, total);
    DeliveredTag(e.d, i, c, Sealed(r.text, Finish(r.state, p)));
  }

  // ---- the core with its own shift register ----------------------------------------------

  /** A run in which only the enable input changes; the other inputs are stable. */
  function Run(tick: (Regs, bool) -> Regs, c: Regs, ena: nat -> bool, n: nat): Regs
  {
    if n == 0 then c else tick(Run(tick, c, ena, n - 1), ena(n - 1))
  }

  predicate EdgeWith(c: Regs, ena: bool) { true }

  /** `tick` is the clock edge of the core for the inputs `i` and any enable. */
  ghost predicate IsCore(tick: (Regs, bool) -> Regs, i: In)
  {
    forall c: Regs, ena: bool {:trigger EdgeWith(c, ena)} :: tick(c, ena) == Next(WordStep, c, i.(ena := ena))
  }

  lemma EnaIgnored(tick: (Regs, bool) -> Regs, c: Regs, i: In, ena: bool)
    requires IsCore(tick, i) && c.fsm.phase != Idle
    ensures tick(c, ena) == tick(c, true)
  {
    assert EdgeWith(c, ena) && EdgeWith(c, true);
  }

  lemma {:induction false} RunFollows(tick: (Regs, bool) -> Regs, next: Clock, c: Regs, i: In, ena: nat -> bool, n: nat, m: nat, e: Regs)
    requires IsCore(tick, i) && ena(0) && m <= n
    requires forall r: Regs :: next(r) == tick(r, true)
    requires Reaches(next, Busy, c, n, e)
    ensures Run(tick, c, ena, m) == Iterate(next, c, m)
  {
    if m > 0 {
      RunFollows(tick, next, c, i, ena, n, m - 1, e);
      var s := Iterate(next, c, m - 1);
      if m > 1 {
        assert Busy(s);
        EnaIgnored(tick, s, i, ena(m - 1));
      }
    }
  }

  function Keyed(i: In): TinyJambuMode.Perm { KeyedPerm(SwapBytes(16, i.key)) }

  lemma CoreImplements(tick: (Regs, bool) -> Regs, next: Clock, i: In)
    requires IsCore(tick, i) && i.ena
    requires forall r: Regs :: next(r) == tick(r, true)
    ensures Implements(next, WordStep, i)
  {
    assert i.(ena := true) == i;
    forall r: Regs
      ensures next(r) == Next(WordStep, r, i)
    {
      assert EdgeWith(r, true);
    }
  }

  /** From an accepted request, with any enable input afterwards, the core
      delivers what TinyJAMBU-128 defines, for every length up to 16 bytes, and
      raises `done` at exactly the stated clock edge. */
  lemma Aead(tick: (Regs, bool) -> Regs, c: Regs, i: In, ena: nat -> bool)
    requires IsCore(tick, i) && i.ena && ena(0) && c.fsm.phase == Idle
    ensures forall m: nat | 1 <= m < Latency(i) :: !Run(tick, c, ena, m).fsm.done
    ensures Run(tick, c, ena, Latency(i)).fsm.done
    ensures Delivers(Run(tick, c, ena, Latency(i)).d, i, Expected(i, Keyed(i)))
  {
    var next := (r: Regs) => tick(r, true);
    KeyedComputes(SwapBytes(16, i.key));
    AeadClocks(tick, next, Keyed(i), c, i, ena);
  }

  lemma AeadClocks(tick: (Regs, bool) -> Regs, next: Clock, p: TinyJambuMode.Perm, c: Regs, i: In, ena: nat -> bool)
    requires IsCore(tick, i) && i.ena && ena(0) && c.fsm.phase == Idle
    requires Computes(p, WordStep, SwapBytes(16, i.key))
    requires forall r: Regs :: next(r) == tick(r, true)
    ensures forall m: nat | 1 <= m < Latency(i) :: !Run(tick, c, ena, m).fsm.done
    ensures Run(tick, c, ena, Latency(i)).fsm.done
    ensures Delivers(Run(tick, c, ena, Latency(i)).d, i, Expected(i, p))
  {
    CoreImplements(tick, next, i);
    var e := Request(next, WordStep, i, p, c);
    var n := Latency(i) - 1;
    NotDoneBefore(tick, next, c, i, ena, n, e);
    LastClock(tick, e, i, ena(n));
    assert Run(tick, c, ena, n + 1) == tick(e, ena(n));
  }

  lemma NotDoneBefore(tick: (Regs, bool) -> Regs, next: Clock, c: Regs, i: In, ena: nat -> bool, n: nat, e: Regs)
    requires IsCore(tick, i) && ena(0) && Reaches(next, Busy, c, n, e)
    requires forall r: Regs :: next(r) == tick(r, true)
    ensures forall m: nat | 1 <= m <= n :: !Run(tick, c, ena, m).fsm.done
    ensures Run(tick, c, ena, n) == e
  {
    forall m: nat | m <= n
      ensures Run(tick, c, ena, m) == Iterate(next, c, m)
    {
      RunFollows(tick, next, c, i, ena, n, m, e);
    }
    forall m: nat | 1 <= m <= n
      ensures !Run(tick, c, ena, m).fsm.done
    {
      assert Busy(Iterate(next, c, m));
    }
  }

  lemma LastClock(tick: (Regs, bool) -> Regs, c: Regs, i: In, ena: bool)
    requires IsCore(tick, i) && c.fsm.phase == Done
    ensures tick(c, ena).fsm.done && tick(c, ena).d == c.d
  {
    assert EdgeWith(c, ena);
  }

  lemma KeyedComputes(key: Block)
    ensures Computes(KeyedPerm(key), WordStep, key)
  {
    WordStepPerforms32Rounds();
    forall s: State, n: nat
      ensures KeyedPerm(key)(s, n) == WordSteps(WordStep, s, key, n)
    {
      WordStepsArePermutation(WordStep, s, key, n);
    }
  }

  /** `j` asks to decrypt what an encryption asked for by `i` has delivered. */
  predicate Reverses(i: In, d: Datapath, j: In)
  {
    i.mode == MODE_ENCRYPT && j == i.(mode := MODE_DECRYPT, dataIn := d.dataOut, tagIn := d.tag)
  }

  lemma DeliveryInverts(d: Datapath, i: In, d': Datapath, j: In)
    requires Delivers(d, i, Expected(i, Keyed(i))) && Reverses(i, d, j)
    requires Delivers(d', j, Expected(j, Keyed(j)))
    ensures d'.valid && d'.dataOut == Pad(i.dataIn[..8 * i.dataLen], 128)
  {
    var p := Keyed(i);
    var m := Stream(i.dataIn, i.dataLen);
    var sealed := Expected(i, p);
    StreamOfAligned(sealed.text, i.dataLen);
    OpenSeal(p, SwapBytes(12, i.nonce), Stream(i.ad, i.adLen), m);
    StreamOfAligned(m, i.dataLen);
    SwapTwice(i.dataLen, i.dataIn[..8 * i.dataLen]);
  }

  lemma DecryptingRun(d: Datapath, i: In, tick: (Regs, bool) -> Regs, c: Regs, j: In, ena: nat -> bool)
    requires Delivers(d, i, Expected(i, Keyed(i))) && Reverses(i, d, j)
    requires IsCore(tick, j) && j.ena && ena(0) && c.fsm.phase == Idle
    ensures var e := Run(tick, c, ena, Latency(j)); e.fsm.done && e.d.valid && e.d.dataOut == Pad(i.dataIn[..8 * i.dataLen], 128)
  {
    Aead(tick, c, j, ena);
    DeliveryInverts(d, i, Run(tick, c, ena, Latency(j)).d, j);
  }

  /** An encrypting run, and a decrypting run of any core on the data and tag
      it delivered: the second one ends with `done`, delivers the valid bytes of
      the original data and accepts the tag. */
  lemma RoundTrip(tick: (Regs, bool) -> Regs, c: Regs, i: In, ena: nat -> bool,
      tick': (Regs, bool) -> Regs, c': Regs, j: In, ena': nat -> bool)
    requires IsCore(tick, i) && i.ena && ena(0) && c.fsm.phase == Idle
    requires IsCore(tick', j) && j.ena && ena'(0) && c'.fsm.phase == Idle
    requires Reverses(i, Run(tick, c, ena, Latency(i)).d, j)
    ensures var e := Run(tick', c', ena', Latency(j)); e.fsm.done && e.d.valid && e.d.dataOut == Pad(i.dataIn[..8 * i.dataLen], 128)
  {
    Aead(tick, c, i, ena);
    DecryptingRun(Run(tick, c, ena, Latency(i)).d, i, tick', c', j, ena');
  }

  // ---- the clocked module -------------------------------------------------------------------

  class Core {
    const nlfsr: Nlfsr
    var fsm: Fsm
    var dp: Datapath

    ghost function Contents(): Regs
      reads this, nlfsr
    {
      Regs(fsm, nlfsr.Contents(), dp)
    }

    constructor ()
      ensures Contents().fsm.phase == Idle && !Contents().fsm.done && fresh(nlfsr)
    {
      nlfsr := new Nlfsr();
      fsm := Fsm(Idle, Idle, 0, 0, 0, 0, Zeros(32), false);
      dp := Datapath(Zeros(128), Zeros(96), Zeros(128), Zeros(128), Zeros(64), 0, 0, 0, 0, 0, Zeros(128), Zeros(64), false);
    }

    /** One rising clock edge: all blocks read the registers before the edge. */
    method Tick(i: In)
      modifies this, nlfsr
      ensures Contents() == Next(WordStep, old(Contents()), i)
    {
      var w2 := nlfsr.w2;
      var wires := NlfsrWires(fsm, w2, dp, i.ena);
      var control := DatapathWires(fsm, w2, dp, i.ena);
      var nextFsm := ClockFsm(fsm, w2, dp, i.ena);
      var nextDp := ClockDatapath(dp, i, control);
      nlfsr.Tick(wires);
      fsm, dp := nextFsm, nextDp;
    }

    /** The controller's registers after the edge. */
    static method ClockFsm(f: Fsm, w2: Word, d: Datapath, ena: bool) returns (g: Fsm)
      ensures g == NextFsm(f, w2, d, ena)
    {
      g := f.(done := false);
      match f.phase
      case Idle =>
        if ena { g := g.(ncnt := 0, wcnt := 0, tlo := Zeros(32), phase := LatchAd); }
      case LatchAd =>
        g := g.(phase := LatchDat);
      case LatchDat =>
        g := g.(steps := 32, kidx := 0, permRet := NonceFrame, phase := Perm);
      case Perm =>
        g := g.(kidx := (f.kidx + 1) % 64, steps := (f.steps + 63) % 64);
        if f.steps == 1 { g := g.(phase := f.permRet); }
      case NonceFrame =>
        g := g.(steps := 20, kidx := 0, permRet := NonceXor, phase := Perm);
      case NonceXor =>
        g := g.(ncnt := (f.ncnt + 1) % 4);
        if f.ncnt < 2 {
          g := g.(phase := NonceFrame);
        } else {
          g := g.(wcnt := 0);
          if d.adWords > 0 {
            g := g.(phase := AdFrame);
          } else if d.dataWords > 0 {
            g := g.(phase := MsgFrame);
          } else {
            g := g.(steps := 32, kidx := 0, permRet := Fin1, phase := Perm);
          }
        }
      case AdFrame =>
        g := g.(steps := 20, kidx := 0, permRet := AdXor, phase := Perm);
      case AdXor =>
        g := g.(wcnt := (f.wcnt + 1) % 8);
        if LastAd(f, d) {
          g := g.(wcnt := 0);
          if d.dataWords > 0 {
            g := g.(phase := MsgFrame);
          } else {
            g := g.(steps := 32, kidx := 0, permRet := Fin1, phase := Perm);
          }
        } else {
          g := g.(phase := AdFrame);
        }
      case MsgFrame =>
        g := g.(steps := 32, kidx := 0, permRet := MsgXor, phase := Perm);
      case MsgXor =>
        g := g.(wcnt := (f.wcnt + 1) % 8);
        if LastMsg(f, d) {
          g := g.(steps := 32, kidx := 0, permRet := Fin1, phase := Perm);
        } else {
          g := g.(phase := MsgFrame);
        }
      case Fin1 =>
        g := g.(tlo := w2, steps := 20, kidx := 0, permRet := Fin2, phase := Perm);
      case Fin2 =>
        g := g.(phase := Done);
      case Done =>
        g := g.(done := true, phase := Idle);
    }

    /** The datapath's registers after the edge; the one shifter serves the
        phase that is asserted. */
    static method ClockDatapath(d: Datapath, i: In, k: Control) returns (e: Datapath)
      requires !(k.latch && (k.latchAd || k.latchDat || k.outWr || k.finalize)) && !(k.latchAd && (k.latchDat || k.outWr || k.finalize))
      requires !(k.latchDat && (k.outWr || k.finalize)) && !(k.outWr && k.finalize)
      ensures e == NextDatapath(d, i, k)
    {
      var input, length := Zeros(128), 16;
      if k.latchAd {
        input, length := i.ad, i.adLen;
      } else if k.latchDat {
        input, length := i.dataIn, i.dataLen;
      } else if k.finalize {
        input, length := d.dataOut, d.dataLen;
      }
      var shifted := SwapAndAlign(input, length);
      e := d;
      if k.latch {
        e := e.(keyR := SwapBytes(16, i.key), nonceR := SwapBytes(12, i.nonce), tagInR := SwapBytes(8, i.tagIn),
          adLen := i.adLen, dataLen := i.dataLen, mode := i.mode);
        e := e.(adWords := CountWords(i.adLen), dataWords := CountWords(i.dataLen));
        e := e.(dataOut := Zeros(128), tag := Zeros(64), valid := false);
      }
      if k.latchAd { e := e.(adR := shifted); }
      if k.latchDat { e := e.(dataR := shifted); }
      if k.outWr { e := e.(dataOut := SetWord(d.dataOut, k.outIdx, k.outWord)); }
      if k.finalize {
        e := e.(dataOut := shifted, tag := SwapBytes(8, k.tagLo + k.tagHi));
        e := e.(valid := if d.mode == MODE_DECRYPT then k.tagLo + k.tagHi == d.tagInR else true);
      }
    }
  }
}
