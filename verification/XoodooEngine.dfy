/** The iterative permutation engine: round constants, unrolled rounds and the
    start/valid control that stops on a round-constant state. */
module XoodooEngine {
  import opened Arith
  import opened Bits
  import opened Clocked
  import opened Xoodoo

  // ---- round constants -------------------------------------------------------------

  /** Bits 0 to 2 are `si`, bits 3 to 5 are `qi`. */
  type Rc = r: Bits | |r| == 6 witness seq(6, _ => false)

  datatype Sum = Sum(bit: bool, carry: bool)

  function FullAdd(a: bool, b: bool, c: bool): Sum
  {
    Sum((a != b) != c, (a && b) || (a && c) || (b && c))
  }

  /** `si` plus its rotation by one, with the carry added back in; `qi` through a feedback register. */
  function NextRc(r: Rc): Rc
  {
    var t0 := FullAdd(r[0], r[2], false);
    var t1 := FullAdd(r[1], r[0], t0.carry);
    var t2 := FullAdd(r[2], r[1], t1.carry);
    var u0 := FullAdd(t0.bit, t2.carry, false);
    var u1 := FullAdd(t1.bit, u0.carry, false);
    var u2 := FullAdd(t2.bit, u1.carry, false);
    [u0.bit, u1.bit, u2.bit, r[5], r[3] != r[5], r[4]]
  }

  function Bit(b: bool): nat { if b then 1 else 0 }

  function Si(r: Rc): nat { Bit(r[0]) + 2 * Bit(r[1]) + 4 * Bit(r[2]) }

  function Qi(r: Rc): nat { Bit(r[3]) + 2 * Bit(r[4]) + 4 * Bit(r[5]) }

  /** A one followed by `qi`, shifted up by `si`. */
  function ConstantValue(r: Rc): nat
  {
    if 1 <= Si(r) <= 6 then (8 + Qi(r)) * Pow2(Si(r)) else 0
  }

  function Constant(r: Rc): Word { Number(ConstantValue(r), 32) }

  const RC_FIRST: Rc := [true, true, false, true, true, false]
  const RC_LAST: Rc := [true, true, false, false, true, false]

  function RcAfter(r: Rc, n: nat): Rc
    decreases n, r
  {
    if n == 0 then r else NextRc(RcAfter(r, n - 1))
  }

  /** The state with the given `si` and `qi`. */
  function RcOf(si: nat, qi: nat): Rc
  {
    [si in {1, 3, 5, 7}, si in {2, 3, 6, 7}, si in {4, 5, 6, 7}, qi in {1, 3, 5, 7}, qi in {2, 3, 6, 7}, qi in {4, 5, 6, 7}]
  }

  const RC_TABLE: seq<Rc> := [
    RcOf(3, 3), RcOf(2, 6), RcOf(6, 7), RcOf(4, 5), RcOf(5, 1), RcOf(1, 2), RcOf(3, 4),
    RcOf(2, 3), RcOf(6, 6), RcOf(4, 7), RcOf(5, 5), RcOf(1, 1), RcOf(3, 2)]

  /** The twelve constants of the permutation. */
  const CONSTANTS: seq<nat> := [0x58, 0x38, 0x3C0, 0xD0, 0x120, 0x14, 0x60, 0x2C, 0x380, 0xF0, 0x1A0, 0x12]

  lemma TableStep(k: nat)
    requires k < 12
    ensures NextRc(RC_TABLE[k]) == RC_TABLE[k + 1]
  {
    if k < 6 {
      EarlySteps();
    } else {
      LateSteps();
    }
  }

  lemma EarlySteps()
    ensures NextRc(RcOf(3, 3)) == RcOf(2, 6) && NextRc(RcOf(2, 6)) == RcOf(6, 7) && NextRc(RcOf(6, 7)) == RcOf(4, 5)
    ensures NextRc(RcOf(4, 5)) == RcOf(5, 1) && NextRc(RcOf(5, 1)) == RcOf(1, 2) && NextRc(RcOf(1, 2)) == RcOf(3, 4)
  {
  }

  lemma LateSteps()
    ensures NextRc(RcOf(3, 4)) == RcOf(2, 3) && NextRc(RcOf(2, 3)) == RcOf(6, 6) && NextRc(RcOf(6, 6)) == RcOf(4, 7)
    ensures NextRc(RcOf(4, 7)) == RcOf(5, 5) && NextRc(RcOf(5, 5)) == RcOf(1, 1) && NextRc(RcOf(1, 1)) == RcOf(3, 2)
  {
  }

  lemma TableEarly(k: nat)
    requires k < 12
    ensures RC_TABLE[k] != RC_LAST
  {
  }

  lemma TableConstant(k: nat)
    requires k < 12
    ensures ConstantValue(RC_TABLE[k]) == CONSTANTS[k]
  {
    SmallPowers();
  }

  lemma SmallPowers()
    ensures Pow2(1) == 2 && Pow2(2) == 4 && Pow2(3) == 8 && Pow2(4) == 16 && Pow2(5) == 32 && Pow2(6) == 64
  {
  }

  lemma {:induction false} RcOnTable(k: nat)
    requires k <= 12
    ensures RcAfter(RC_FIRST, k) == RC_TABLE[k]
  {
    if k > 0 {
      RcOnTable(k - 1);
      TableStep(k - 1);
    }
  }

  /** The state that ends a run is first reached after twelve steps. */
  lemma LastRcAfterTwelve(k: nat)
    requires k <= 12
    ensures RcAfter(RC_FIRST, k) == RC_LAST <==> k == 12
  {
    RcOnTable(k);
    if k < 12 {
      TableEarly(k);
    }
  }

  lemma ConstantAt(k: nat)
    requires k < 12
    ensures ConstantValue(RcAfter(RC_FIRST, k)) == CONSTANTS[k]
  {
    RcOnTable(k);
    TableConstant(k);
  }

  // ---- unrolled rounds ---------------------------------------------------------------

  type RoundMap = (State, Word) -> State

  datatype Chain = Chain(state: State, rc: Rc)

  /** `n` rounds in one clock, each with its own constant generator. */
  function Unrolled(round: RoundMap, c: Chain, n: nat): Chain
    decreases n, c
  {
    if n == 0 then c
    else
      var d := Unrolled(round, c, n - 1);
      Chain(round(d.state, Constant(d.rc)), NextRc(d.rc))
  }

  lemma {:induction false} UnrolledSplit(round: RoundMap, c: Chain, m: nat, n: nat)
    ensures Unrolled(round, c, m + n) == Unrolled(round, Unrolled(round, c, m), n)
  {
    if n > 0 {
      UnrolledSplit(round, c, m, n - 1);
    }
  }

  lemma {:induction false} UnrolledRc(round: RoundMap, c: Chain, n: nat)
    ensures Unrolled(round, c, n).rc == RcAfter(c.rc, n)
  {
    if n > 0 {
      UnrolledRc(round, c, n - 1);
    }
  }

  /** The permutation of `n` rounds over the fixed list of constants. */
  function Rounds(round: RoundMap, s: State, n: nat): State
    requires n <= 12
    decreases n, s
  {
    if n == 0 then s else round(Rounds(round, s, n - 1), Number(CONSTANTS[n - 1], 32))
  }

  lemma {:induction false} UnrolledIsRounds(round: RoundMap, s: State, n: nat)
    requires n <= 12
    ensures Unrolled(round, Chain(s, RC_FIRST), n).state == Rounds(round, s, n)
  {
    if n > 0 {
      UnrolledIsRounds(round, s, n - 1);
      UnrolledRc(round, Chain(s, RC_FIRST), n - 1);
      ConstantAt(n - 1);
    }
  }

  function Unrounds(inverse: RoundMap, s: State, n: nat): State
    requires n <= 12
    decreases n
  {
    if n == 0 then s else Unrounds(inverse, inverse(s, Number(CONSTANTS[n - 1], 32)), n - 1)
  }

  ghost predicate Inverses(f: RoundMap, g: RoundMap)
  {
    forall s: State, rc: Word :: g(f(s, rc), rc) == s && f(g(s, rc), rc) == s
  }

  lemma {:induction false} RoundsInverse(f: RoundMap, g: RoundMap, s: State, n: nat)
    requires Inverses(f, g) && n <= 12
    ensures Unrounds(g, Rounds(f, s, n), n) == s && Rounds(f, Unrounds(g, s, n), n) == s
    decreases n
  {
    if n > 0 {
      RoundsInverse(f, g, s, n - 1);
      RoundsInverse(f, g, g(s, Number(CONSTANTS[n - 1], 32)), n - 1);
    }
  }

  lemma RoundsAreInverses()
    ensures Inverses(Round, InvRound)
  {
    forall s: State, rc: Word
      ensures InvRound(Round(s, rc), rc) == s && Round(InvRound(s, rc), rc) == s
    {
      RoundInverse(s, rc);
    }
  }

  /** The twelve-round permutation is a bijection. */
  lemma PermutationInverse(s: State)
    ensures Unrounds(InvRound, Rounds(Round, s, 12), 12) == s && Rounds(Round, Unrounds(InvRound, s, 12), 12) == s
  {
    RoundsAreInverses();
    RoundsInverse(Round, InvRound, s, 12);
  }

  // ---- the engine -----------------------------------------------------------------------

  datatype Engine = Engine(state: State, rc: Rc, running: bool, valid: bool)

  datatype Wires = Wires(start: bool, init: bool, wordEnable: bool, index: nat, word: Word, domainEnable: bool, domain: Word)

  function XorWord(s: State, i: nat, w: Word): State
    requires i < 12
  {
    s[i := Xor(s[i], w)]
  }

  /** The state with the word and domain inputs added. */
  function WithInputs(s: State, w: Wires): State
  {
    var t := if w.wordEnable && w.index < 12 then XorWord(s, w.index, w.word) else s;
    if w.domainEnable then XorWord(t, 11, w.domain) else t
  }

  const ZERO_STATE: State := [ZERO, ZERO, ZERO, ZERO, ZERO, ZERO, ZERO, ZERO, ZERO, ZERO, ZERO, ZERO]

  /** One rising clock edge of an engine with `r` rounds per cycle. */
  function NextEngine(round: RoundMap, r: nat, e: Engine, w: Wires): Engine
  {
    var s := WithInputs(e.state, w);
    var out := Unrolled(round, Chain(s, e.rc), r);
    var state := if w.init then ZERO_STATE else if e.running || w.start then out.state else s;
    if out.rc == RC_LAST then Engine(state, RC_FIRST, false, true)
    else if w.start || e.running then Engine(state, out.rc, true, false)
    else Engine(state, e.rc, e.running, e.valid)
  }

  ghost predicate Idle(e: Engine)
  {
    !e.running && e.rc == RC_FIRST
  }

  type EngineClock = (Engine, Wires) -> Engine

  predicate Edge(e: Engine, w: Wires) { true }

  /** `next` is the clock edge of this engine; asserting `Edge(e, w)` looks at it. */
  ghost predicate Implements(next: EngineClock, round: RoundMap, r: nat)
  {
    forall e: Engine, w: Wires {:trigger Edge(e, w)} :: next(e, w) == NextEngine(round, r, e, w)
  }

  ghost predicate Quiet(w: Wires)
  {
    !w.init && !w.wordEnable && !w.domainEnable
  }

  /** `m` rounds of the run that started from `s` are done. */
  ghost predicate Working(round: RoundMap, s: State, m: nat, e: Engine)
  {
    if m < 12 then e.running && !e.valid && Chain(e.state, e.rc) == Unrolled(round, Chain(s, RC_FIRST), m)
    else m == 12 && e.valid && Idle(e) && e.state == Rounds(round, s, m)
  }

  lemma ChainEnds(round: RoundMap, c: Chain, m: nat)
    requires c.rc == RC_FIRST && m <= 12
    ensures Unrolled(round, c, m).rc == RC_LAST <==> m == 12
  {
    UnrolledRc(round, c, m);
    LastRcAfterTwelve(m);
  }

  lemma RunningClock(round: RoundMap, r: nat, e: Engine, w: Wires)
    requires e.running && Quiet(w)
    ensures var out := Unrolled(round, Chain(e.state, e.rc), r);
      NextEngine(round, r, e, w) ==
        if out.rc == RC_LAST then Engine(out.state, RC_FIRST, false, true) else Engine(out.state, out.rc, true, false)
  {
  }

  /** The chunk that takes the chain from `m` rounds to `k`. */
  lemma ChunkOf(round: RoundMap, s: State, m: nat, r: nat, k: nat, out: Chain)
    requires k == m + r <= 12 && out == Unrolled(round, Unrolled(round, Chain(s, RC_FIRST), m), r)
    ensures out == Unrolled(round, Chain(s, RC_FIRST), k)
    ensures (out.rc == RC_LAST <==> k == 12) && out.state == Rounds(round, s, k)
  {
    UnrolledSplit(round, Chain(s, RC_FIRST), m, r);
    ChainEnds(round, Chain(s, RC_FIRST), k);
    UnrolledIsRounds(round, s, k);
  }

  lemma WorkingClock(round: RoundMap, r: nat, s: State, m: nat, e: Engine, w: Wires)
    requires Working(round, s, m, e) && Quiet(w) && m < 12 && m + r <= 12
    ensures Working(round, s, m + r, NextEngine(round, r, e, w))
  {
    RunningClock(round, r, e, w);
    ChunkOf(round, s, m, r, m + r, Unrolled(round, Chain(e.state, e.rc), r));
  }

  lemma StartClock(round: RoundMap, r: nat, e: Engine, w: Wires)
    requires Idle(e) && w.start && !w.init && r <= 12
    ensures Working(round, WithInputs(e.state, w), r, NextEngine(round, r, e, w))
  {
    var s := WithInputs(e.state, w);
    ChainEnds(round, Chain(s, RC_FIRST), r);
    UnrolledIsRounds(round, s, r);
  }

  /** An idle engine adds its inputs; with twelve rounds per cycle, and only then, an idle clock raises `valid`. */
  lemma IdleClock(round: RoundMap, r: nat, e: Engine, w: Wires)
    requires Idle(e) && !w.start && r <= 12
    ensures var f := NextEngine(round, r, e, w);
      && Idle(f) && f.state == (if w.init then ZERO_STATE else WithInputs(e.state, w))
      && f.valid == (e.valid || r == 12)
  {
    var s := WithInputs(e.state, w);
    ChainEnds(round, Chain(s, RC_FIRST), r);
    UnrolledIsRounds(round, s, r);
  }

  lemma RoundsDone(r: nat, n: nat, k: nat)
    requires n * r == 12 && k <= n
    ensures k * r <= 12 && (k * r == 12 <==> k == n)
  {
    assert n * r == k * r + (n - k) * r;
    assert k < n ==> (n - k) * r > 0;
  }

  lemma FirstClock(next: EngineClock, round: RoundMap, r: nat, e: Engine, ins: nat -> Wires)
    requires Implements(next, round, r) && Idle(e) && ins(0).start && !ins(0).init && r <= 12
    ensures Working(round, WithInputs(e.state, ins(0)), r, RunWith(next, e, ins, 1))
  {
    assert RunWith(next, e, ins, 1) == next(RunWith(next, e, ins, 0), ins(0));
    assert Edge(e, ins(0));
    StartClock(round, r, e, ins(0));
  }

  lemma LaterClock(next: EngineClock, round: RoundMap, r: nat, e: Engine, ins: nat -> Wires, k: nat, s: State, m: nat)
    requires Implements(next, round, r) && Quiet(ins(k)) && m + r <= 12 && m < 12
    requires Working(round, s, m, RunWith(next, e, ins, k))
    ensures Working(round, s, m + r, RunWith(next, e, ins, k + 1))
  {
    var f := RunWith(next, e, ins, k);
    assert Edge(f, ins(k));
    WorkingClock(round, r, s, m, f, ins(k));
  }

  lemma {:induction false} UnderWay(next: EngineClock, round: RoundMap, r: nat, n: nat, e: Engine, ins: nat -> Wires, k: nat, m: nat)
    requires Implements(next, round, r) && n * r == 12 && Idle(e) && 1 <= k <= n && m == k * r
    requires ins(0).start && !ins(0).init && forall i: nat | 1 <= i < k :: Quiet(ins(i))
    ensures Working(round, WithInputs(e.state, ins(0)), m, RunWith(next, e, ins, k))
  {
    RoundsDone(r, n, k);
    if k == 1 {
      assert m == r;
      FirstClock(next, round, r, e, ins);
    } else {
      RoundsDone(r, n, k - 1);
      LastChunk(r, k, m);
      UnderWay(next, round, r, n, e, ins, k - 1, m - r);
      LaterClock(next, round, r, e, ins, k - 1, WithInputs(e.state, ins(0)), m - r);
    }
  }

  lemma LastChunk(r: nat, k: nat, m: nat)
    requires m == k * r && k > 0
    ensures m - r == (k - 1) * r >= 0
  {
  }

  /** A start with no further writes leaves exactly twelve rounds of the start
      state when `valid` rises, after `n` clocks of `r` rounds and no earlier. */
  lemma TwelveRounds(next: EngineClock, round: RoundMap, r: nat, n: nat, e: Engine, ins: nat -> Wires)
    requires Implements(next, round, r) && n * r == 12 && Idle(e)
    requires ins(0).start && !ins(0).init && forall i: nat | 1 <= i < n :: Quiet(ins(i))
    ensures var f := RunWith(next, e, ins, n);
      f.valid && Idle(f) && f.state == Rounds(round, WithInputs(e.state, ins(0)), 12)
    ensures forall k: nat | 1 <= k < n :: !RunWith(next, e, ins, k).valid
  {
    UnderWay(next, round, r, n, e, ins, n, 12);
    forall k: nat | 1 <= k < n
      ensures !RunWith(next, e, ins, k).valid
    {
      Early(next, round, r, n, e, ins, k);
    }
  }

  lemma Early(next: EngineClock, round: RoundMap, r: nat, n: nat, e: Engine, ins: nat -> Wires, k: nat)
    requires Implements(next, round, r) && n * r == 12 && Idle(e) && 1 <= k < n
    requires ins(0).start && !ins(0).init && forall i: nat | 1 <= i < n :: Quiet(ins(i))
    ensures !RunWith(next, e, ins, k).valid
  {
    RoundsDone(r, n, k);
    var m := k * r;
    UnderWay(next, round, r, n, e, ins, k, m);
  }

  class XoodooTop {
    /** The round datapath and its unrolling. */
    const round: RoundMap
    const roundsPerCycle: nat
    var state: State
    var rc: Rc
    var running: bool
    var valid: bool

    ghost function Contents(): Engine
      reads this
    {
      Engine(state, rc, running, valid)
    }

    constructor (roundsPerCycle: nat)
      ensures Idle(Contents()) && !valid && state == ZERO_STATE
      ensures round == Round && this.roundsPerCycle == roundsPerCycle
    {
      round, this.roundsPerCycle := Round, roundsPerCycle;
      state, rc, running, valid := ZERO_STATE, RC_FIRST, false, false;
    }

    /** One rising clock edge. */
    method Tick(w: Wires)
      modifies this
      ensures Contents() == NextEngine(round, roundsPerCycle, old(Contents()), w)
    {
      var s := WithInputs(state, w);
      var out := Unrolled(round, Chain(s, rc), roundsPerCycle);
      if w.init {
        state := ZERO_STATE;
      } else if running || w.start {
        state := out.state;
      } else {
        state := s;
      }
      if out.rc == RC_LAST {
        running, rc, valid := false, RC_FIRST, true;
      } else if w.start || running {
        running, rc, valid := true, out.rc, false;
      }
    }
  }
}
