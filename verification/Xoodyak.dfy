/** The Xoodyak core: authenticated encryption and hashing sequenced around the
    permutation engine. 128-bit registers are four words, most significant first. */
module Xoodyak {
  import opened Bits
  import opened Clocked
  import opened Xoodoo
  import opened XoodooEngine

  type Quad = q: seq<Word> | |q| == 4 witness [ZERO, ZERO, ZERO, ZERO]

  const ZERO_QUAD: Quad := [ZERO, ZERO, ZERO, ZERO]

  function ByteSwap(w: Word): Word
  {
    w[24..] + w[16..24] + w[8..16] + w[..8]
  }

  lemma ByteSwapTwice(w: Word)
    ensures ByteSwap(ByteSwap(w)) == w
  {
    var v := ByteSwap(w);
    assert v[24..] == w[..8] && v[16..24] == w[8..16] && v[8..16] == w[16..24] && v[..8] == w[24..];
    assert w == w[..8] + w[8..16] + w[16..24] + w[24..];
  }

  function GetWord(q: Quad, k: nat): Word
    requires k < 4
  {
    ByteSwap(q[k])
  }

  /** The word with exactly bit `k` set. */
  function OneBit(k: nat): Word
  {
    seq(32, i => i == k)
  }

  const DOMAIN_ABSORB_HASH: Word := OneBit(24)
  const DOMAIN_ABSORB_KEY: Word := OneBit(25)
  const DOMAIN_ABSORB: Word := Xor(OneBit(24), OneBit(25))
  const DOMAIN_SQUEEZE: Word := OneBit(30)
  const DOMAIN_CRYPT: Word := OneBit(31)
  const PAD_KEY_NONCE: Word := Xor(OneBit(8), OneBit(4))
  const PAD_01: Word := OneBit(0)

  const ENCRYPT: nat := 1
  const DECRYPT: nat := 2
  const HASH: nat := 3

  // ---- the mode as a function ----------------------------------------------------

  type Permutation = State -> State

  /** Words that hold `len` bytes. */
  function Words(len: nat): nat { (len + 3) / 4 }

  /** Adds the first `n` words of `q` from index `at` on. */
  function Absorb(s: State, q: Quad, n: nat, at: nat): State
    requires n <= 4 && at + n <= 12
  {
    if n == 0 then s else XorWord(Absorb(s, q, n - 1, at), at + n - 1, GetWord(q, n - 1))
  }

  /** Replaces the first `n` words by those of `q`. */
  function Replace(s: State, q: Quad, n: nat): State
    requires n <= 4
  {
    if n == 0 then s else Replace(s, q, n - 1)[n - 1 := GetWord(q, n - 1)]
  }

  /** The padding byte after `len` bytes, and the domain in the last word. */
  function PadAt(s: State, len: nat, domain: Word): State
    requires len <= 16
  {
    XorWord(XorWord(s, len / 4, OneBit(8 * (len % 4))), 11, domain)
  }

  function Keyed(key: Quad, nonce: Quad): State
  {
    XorWord(XorWord(Absorb(Absorb(ZERO_STATE, key, 4, 0), nonce, 4, 4), 8, PAD_KEY_NONCE), 11, DOMAIN_ABSORB_KEY)
  }

  function AfterAd(p: Permutation, key: Quad, nonce: Quad, ad: Quad, adLen: nat): State
    requires adLen <= 16
  {
    p(PadAt(Absorb(p(Keyed(key, nonce)), ad, Words(adLen), 0), adLen, Xor(DOMAIN_ABSORB, DOMAIN_CRYPT)))
  }

  /** Output word `k` of the data phase from state `s`. */
  function Crypt(s: State, data: Quad, k: nat): Word
    requires k < 4
  {
    ByteSwap(Xor(s[k], GetWord(data, k)))
  }

  function AfterData(p: Permutation, decrypt: bool, s: State, data: Quad, len: nat): State
    requires len <= 16
  {
    p(PadAt(if decrypt then Replace(s, data, Words(len)) else Absorb(s, data, Words(len), 0), len, DOMAIN_SQUEEZE))
  }

  /** The first four words of a state, as an output register. */
  function Squeeze(s: State): Quad
  {
    [ByteSwap(s[0]), ByteSwap(s[1]), ByteSwap(s[2]), ByteSwap(s[3])]
  }

  /** Replacing a state word by ciphertext equals absorbing the plaintext. */
  lemma {:induction false} ReplaceIsAbsorb(s: State, data: Quad, cipher: Quad, n: nat)
    requires n <= 4 && forall k: nat | k < n :: cipher[k] == Crypt(s, data, k)
    ensures Replace(s, cipher, n) == Absorb(s, data, n, 0)
  {
    if n > 0 {
      ReplaceIsAbsorb(s, data, cipher, n - 1);
      AbsorbLeaves(s, data, n - 1, n - 1);
      ByteSwapTwice(Xor(s[n - 1], GetWord(data, n - 1)));
    }
  }

  lemma {:induction false} AbsorbLeaves(s: State, q: Quad, n: nat, k: nat)
    requires n <= 4 && n <= k < 12
    ensures Absorb(s, q, n, 0)[k] == s[k]
  {
    if n > 0 {
      AbsorbLeaves(s, q, n - 1, k);
    }
  }

  lemma {:induction false} ReplaceLeaves(s: State, q: Quad, n: nat, k: nat)
    requires n <= 4 && n <= k < 12
    ensures Replace(s, q, n)[k] == s[k]
  {
    if n > 0 {
      ReplaceLeaves(s, q, n - 1, k);
    }
  }

  /** Decrypting the output words gives the input words back. */
  lemma CryptTwice(s: State, data: Quad, cipher: Quad, k: nat)
    requires k < 4 && cipher[k] == Crypt(s, data, k)
    ensures Crypt(s, cipher, k) == data[k]
  {
    ByteSwapTwice(Xor(s[k], GetWord(data, k)));
    XorSymmetric(s[k], GetWord(data, k));
    XorTwice(GetWord(data, k), s[k]);
    XorSymmetric(s[k], Xor(s[k], GetWord(data, k)));
    ByteSwapTwice(data[k]);
  }

  // ---- the core -----------------------------------------------------------------------

  datatype Phase =
    | Waiting | LoadKey | LoadNonce | PadNonce | PermNonce | LoadAd | PadAd | PermAd
    | LoadData | PadData | PermData | ExtractTag | VerifyTag | Finish
    | HashLoad | HashPad | HashPerm1 | HashSqueeze1 | HashPad2 | HashPerm2 | HashSqueeze2

  datatype Fsm = Fsm(phase: Phase, cnt: nat, start: bool)

  datatype Latched = Latched(key: Quad, nonce: Quad, ad: Quad, data: Quad, tag: Quad,
    adLen: nat, dataLen: nat, sel: nat, domain: Word)

  datatype Results = Results(dataOut: Quad, tag: Quad, valid: bool)

  datatype Ports = Ports(done: bool, valid: bool, dataOut: Quad, tag: Quad)

  datatype System = System(fsm: Fsm, lat: Latched, res: Results, ports: Ports, engine: Engine)

  datatype In = In(ena: bool, restart: bool, sel: nat, key: Quad, nonce: Quad, ad: Quad, data: Quad, tag: Quad,
    adLen: nat, dataLen: nat)

  /** The last word of `len` bytes, as the counter comparison has it. */
  predicate LastWord(cnt: nat, len: nat)
  {
    (0 < Words(len) <= cnt + 1) || cnt == 3
  }

  function NextPhase(f: Fsm, l: Latched, valid: bool, i: In): Phase
  {
    var go := valid && !f.start;
    match f.phase
    case Waiting => if !i.ena then Waiting else if i.sel == HASH then HashLoad else LoadKey
    case LoadKey => if f.cnt == 3 then LoadNonce else LoadKey
    case LoadNonce => if f.cnt == 7 then PadNonce else LoadNonce
    case PadNonce => PermNonce
    case PermNonce => if !go then PermNonce else if l.adLen > 0 then LoadAd else PadAd
    case LoadAd => if LastWord(f.cnt, l.adLen) then PadAd else LoadAd
    case PadAd => PermAd
    case PermAd => if !go then PermAd else if l.dataLen > 0 then LoadData else PadData
    case LoadData => if LastWord(f.cnt, l.dataLen) then PadData else LoadData
    case PadData => PermData
    case PermData => if !go then PermData else if l.sel == ENCRYPT then ExtractTag else VerifyTag
    case ExtractTag => if f.cnt == 3 then Finish else ExtractTag
    case VerifyTag => if f.cnt == 3 then Finish else VerifyTag
    case Finish => Waiting
    case HashLoad => if l.dataLen == 0 || f.cnt >= 3 then HashPad else HashLoad
    case HashPad => HashPerm1
    case HashPerm1 => if go then HashSqueeze1 else HashPerm1
    case HashSqueeze1 => if f.cnt == 3 then HashPad2 else HashSqueeze1
    case HashPad2 => HashPerm2
    case HashPerm2 => if go then HashSqueeze2 else HashPerm2
    case HashSqueeze2 => if f.cnt == 3 then Finish else HashSqueeze2
  }

  predicate Counts(p: Phase)
  {
    p.LoadKey? || p.LoadNonce? || p.LoadAd? || p.LoadData? || p.ExtractTag? || p.VerifyTag?
    || p.HashLoad? || p.HashSqueeze1? || p.HashSqueeze2?
  }

  predicate Pads(p: Phase)
  {
    p.PadNonce? || p.PadAd? || p.PadData? || p.HashPad? || p.HashPad2?
  }

  function NextFsm(f: Fsm, l: Latched, valid: bool, i: In): Fsm
  {
    if i.restart then Fsm(Waiting, 0, false)
    else Fsm(NextPhase(f, l, valid, i), if Counts(f.phase) then (f.cnt + 1) % 16 else 0, Pads(f.phase))
  }

  const CLEARED: Latched := Latched(ZERO_QUAD, ZERO_QUAD, ZERO_QUAD, ZERO_QUAD, ZERO_QUAD, 0, 0, 0, ZERO)

  function NextLatched(p: Phase, l: Latched, i: In): Latched
  {
    if i.restart then CLEARED
    else if p.Waiting? && i.ena then
      Latched(i.key, i.nonce, i.ad, i.data, i.tag, i.adLen, i.dataLen, i.sel,
        if i.sel == HASH then DOMAIN_ABSORB_HASH else DOMAIN_ABSORB_KEY)
    else if p.PadNonce? then l.(domain := DOMAIN_ABSORB)
    else if p.PadAd? then l.(domain := ZERO)
    else l
  }

  function Write(start: bool, index: nat, word: Word): Wires { Wires(start, false, true, index, word, false, ZERO) }

  function WriteBoth(start: bool, index: nat, word: Word, domain: Word): Wires { Wires(start, false, true, index, word, true, domain) }

  function NoWrite(start: bool, index: nat): Wires { Wires(start, false, false, index, ZERO, false, ZERO) }

  /** The wires into the engine; `w` is its word output. */
  function ToEngine(f: Fsm, l: Latched, w: Word, ena: bool): Wires
  {
    match f.phase
    case Waiting => NoWrite(f.start, f.cnt).(init := ena)
    case LoadKey => Write(f.start, f.cnt, GetWord(l.key, f.cnt % 4))
    case LoadNonce => Write(f.start, f.cnt, GetWord(l.nonce, f.cnt % 4))
    case PadNonce => WriteBoth(f.start, 8, PAD_KEY_NONCE, l.domain)
    case LoadAd => Write(f.start, f.cnt, GetWord(l.ad, f.cnt % 4))
    case PadAd => WriteBoth(f.start, l.adLen / 4, OneBit(8 * (l.adLen % 4)), Xor(l.domain, DOMAIN_CRYPT))
    case LoadData =>
      Write(f.start, f.cnt, if l.sel == DECRYPT then Xor(w, GetWord(l.data, f.cnt % 4)) else GetWord(l.data, f.cnt % 4))
    case PadData => WriteBoth(f.start, l.dataLen / 4, OneBit(8 * (l.dataLen % 4)), DOMAIN_SQUEEZE)
    case HashLoad => Write(f.start, f.cnt, GetWord(l.data, f.cnt % 4)).(wordEnable := f.cnt < Words(l.dataLen))
    case HashPad => WriteBoth(f.start, l.dataLen / 4, OneBit(8 * (l.dataLen % 4)), l.domain)
    case HashPad2 => Write(f.start, 0, PAD_01)
    case _ => NoWrite(f.start, f.cnt)
  }

  function WordOut(e: Engine, index: nat): Word
  {
    if index < 12 then e.state[index] else ZERO
  }

  function NextResults(f: Fsm, l: Latched, r: Results, w: Word, i: In): Results
  {
    var k := f.cnt % 4;
    if i.restart then Results(ZERO_QUAD, ZERO_QUAD, true)
    else
      var tag := if f.phase.ExtractTag? || f.phase.VerifyTag? || f.phase.HashSqueeze1? then r.tag[k := ByteSwap(w)] else r.tag;
      var dataOut :=
        if f.phase.LoadData? then r.dataOut[k := ByteSwap(Xor(w, GetWord(l.data, k)))]
        else if f.phase.HashSqueeze2? then r.dataOut[k := ByteSwap(w)]
        else r.dataOut;
      var valid :=
        if f.phase.Waiting? && i.ena then true
        else if f.phase.VerifyTag? then r.valid && ByteSwap(w) == l.tag[k]
        else r.valid;
      Results(dataOut, tag, valid)
  }

  function NextPorts(f: Fsm, l: Latched, r: Results, o: Ports, i: In): Ports
  {
    if i.restart then Ports(false, false, ZERO_QUAD, ZERO_QUAD)
    else if f.phase.Finish? then Ports(true, if l.sel == DECRYPT then r.valid else true, r.dataOut, r.tag)
    else if f.phase.Waiting? then o.(done := false)
    else o
  }

  /** One rising clock edge of the core and its engine. */
  function NextSystem(engine: EngineClock, s: System, i: In): System
  {
    var w := WordOut(s.engine, s.fsm.cnt);
    System(
      NextFsm(s.fsm, s.lat, s.engine.valid, i),
      NextLatched(s.fsm.phase, s.lat, i),
      NextResults(s.fsm, s.lat, s.res, w, i),
      NextPorts(s.fsm, s.lat, s.res, s.ports, i),
      engine(s.engine, ToEngine(s.fsm, s.lat, w, i.ena)))
  }

  // ---- runs --------------------------------------------------------------------------

  type Clock = System -> System

  const QUIET: In := In(false, false, 0, ZERO_QUAD, ZERO_QUAD, ZERO_QUAD, ZERO_QUAD, ZERO_QUAD, 0, 0)

  predicate Look(s: System) { true }

  /** `next` is a clock edge of a busy core; asserting `Look(s)` looks at it in `s`. */
  ghost predicate Ticks(next: Clock, engine: EngineClock)
  {
    forall s: System {:trigger Look(s)} :: next(s) == NextSystem(engine, s, QUIET)
  }

  predicate Busy(s: System)
  {
    !s.fsm.phase.Waiting? && !s.ports.done
  }

  /** While the core is busy and not restarted, no input matters. */
  lemma InputsIgnored(engine: EngineClock, s: System, i: In)
    requires !s.fsm.phase.Waiting? && !i.restart
    ensures NextSystem(engine, s, i) == NextSystem(engine, s, QUIET)
  {
  }

  /** An idle engine holding state `x`. */
  ghost predicate Holds(e: Engine, x: State)
  {
    Idle(e) && e.state == x
  }

  // ---- permutation phases -------------------------------------------------------------

  predicate PermPhase(p: Phase)
  {
    p.PermNonce? || p.PermAd? || p.PermData? || p.HashPerm1? || p.HashPerm2?
  }

  /** Left alone, the engine is first `valid` after `k` clocks, idle and holding `y`. */
  ghost predicate Delivers(engine: EngineClock, e: Engine, k: nat, y: State)
    decreases k
  {
    if k == 0 then e.valid && Holds(e, y)
    else !e.valid && Delivers(engine, engine(e, NoWrite(false, 0)), k - 1, y)
  }

  lemma {:induction false} WorkingDelivers(engine: EngineClock, round: RoundMap, r: nat, e: Engine, x: State, m: nat, k: nat, y: State)
    requires Implements(engine, round, r) && r > 0 && m + k * r == 12
    requires Working(round, x, m, e) && y == Rounds(round, x, 12)
    ensures Delivers(engine, e, k, y)
    decreases k
  {
    if k == 0 {
      WorkingEnds(round, e, x, m, y);
    } else {
      var w := NoWrite(false, 0);
      ChunksLeft(r, m, k);
      assert Edge(e, w);
      WorkingClock(round, r, x, m, e, w);
      WorkingDelivers(engine, round, r, engine(e, w), x, m + r, k - 1, y);
    }
  }

  lemma WorkingEnds(round: RoundMap, e: Engine, x: State, m: nat, y: State)
    requires m == 12 && Working(round, x, m, e) && y == Rounds(round, x, 12)
    ensures e.valid && Holds(e, y)
  {
  }

  lemma ChunksLeft(r: nat, m: nat, k: nat)
    requires r > 0 && k > 0 && m + k * r == 12
    ensures m < 12 && m + r <= 12 && m + r + (k - 1) * r == 12
  {
    assert k * r == (k - 1) * r + r;
    assert (k - 1) * r >= 0;
  }

  /** Every start delivers the permutation of the state after `n` clocks, and `n - 1` more after the first. */
  ghost predicate Permutes(engine: EngineClock, p: Permutation, n: nat)
  {
    n > 0 && forall e: Engine {:trigger engine(e, NoWrite(true, 0))} :: Idle(e) ==> Delivers(engine, engine(e, NoWrite(true, 0)), n - 1, p(e.state))
  }

  /** The engine with `r` rounds per cycle, where `n * r` is twelve. */
  lemma EnginePermutes(engine: EngineClock, round: RoundMap, r: nat, n: nat, p: Permutation)
    requires Implements(engine, round, r) && n * r == 12 && forall s: State :: p(s) == Rounds(round, s, 12)
    ensures Permutes(engine, p, n)
  {
    assert n > 0 && r > 0;
    forall e: Engine | Idle(e)
      ensures Delivers(engine, engine(e, NoWrite(true, 0)), n - 1, p(e.state))
    {
      var w := NoWrite(true, 0);
      assert Edge(e, w);
      RoundsDone(r, n, 1);
      StartClock(round, r, e, w);
      LastChunk(r, n, 12);
      WorkingDelivers(engine, round, r, engine(e, w), e.state, r, n - 1, p(e.state));
    }
  }

  /** Idle clocks add the inputs to the state. */
  ghost predicate Absorbs(engine: EngineClock)
  {
    forall e: Engine, w: Wires {:trigger engine(e, w)} :: Idle(e) && !w.start ==>
      Holds(engine(e, w), if w.init then ZERO_STATE else WithInputs(e.state, w))
  }

  lemma EngineAbsorbs(engine: EngineClock, round: RoundMap, r: nat)
    requires Implements(engine, round, r) && r <= 12
    ensures Absorbs(engine)
  {
    forall e: Engine, w: Wires | Idle(e) && !w.start
      ensures Holds(engine(e, w), if w.init then ZERO_STATE else WithInputs(e.state, w))
    {
      assert Edge(e, w);
      IdleClock(round, r, e, w);
    }
  }

  /** The core stays in its permutation phase for exactly the clocks of a run:
      a `valid` left over from the last run does not move it on. */
  lemma {:induction false} Waits(next: Clock, engine: EngineClock, s: System, k: nat, y: State) returns (e: System)
    requires Ticks(next, engine) && Delivers(engine, s.engine, k, y)
    requires PermPhase(s.fsm.phase) && !s.fsm.start && s.fsm.cnt == 0 && Busy(s)
    ensures Reaches(next, Busy, s, k, e)
    ensures e == s.(engine := e.engine) && e.engine.valid && Holds(e.engine, y)
    decreases k
  {
    if k == 0 {
      e := s;
      assert Iterate(next, s, 0) == s;
    } else {
      var f := next(s);
      assert Look(s);
      OneClock(next, Busy, s);
      e := Waits(next, engine, f, k - 1, y);
      Then(next, Busy, s, 1, f, k - 1, e);
    }
  }

  lemma Permute(next: Clock, engine: EngineClock, p: Permutation, n: nat, s: System) returns (e: System)
    requires Ticks(next, engine) && Permutes(engine, p, n)
    requires PermPhase(s.fsm.phase) && s.fsm.start && s.fsm.cnt == 0 && Idle(s.engine) && Busy(s)
    ensures Reaches(next, Busy, s, n, e)
    ensures e == s.(fsm := Fsm(s.fsm.phase, 0, false), engine := e.engine) && e.engine.valid && Holds(e.engine, p(s.engine.state))
  {
    var f := next(s);
    assert Look(s);
    OneClock(next, Busy, s);
    e := Waits(next, engine, f, n - 1, p(s.engine.state));
    Then(next, Busy, s, 1, f, n - 1, e);
  }

  // ---- single clocks of the other phases --------------------------------------------------

  /** The phases that add the words of `q` to words `at`, `at + 1`, ... `at + n - 1`. */
  predicate Loads(p: Phase, l: Latched, q: Quad, at: nat, n: nat)
  {
    match p
    case LoadKey => q == l.key && at == 0 && n == 4
    case LoadNonce => q == l.nonce && at == 4 && n == 4
    case LoadAd => q == l.ad && at == 0 && n == Words(l.adLen) && 1 <= n <= 4
    case _ => false
  }

  function AfterLoad(p: Phase): Phase
  {
    if p.LoadKey? then LoadNonce else if p.LoadNonce? then PadNonce else PadAd
  }

  lemma LoadClock(next: Clock, engine: EngineClock, s: System, q: Quad, at: nat, n: nat) returns (e: System)
    requires Ticks(next, engine) && Absorbs(engine) && Loads(s.fsm.phase, s.lat, q, at, n)
    requires at <= s.fsm.cnt < at + n && !s.fsm.start && Idle(s.engine) && Busy(s)
    ensures Reaches(next, Busy, s, 1, e)
    ensures var cnt := s.fsm.cnt;
      && e == s.(fsm := Fsm(if cnt + 1 == at + n then AfterLoad(s.fsm.phase) else s.fsm.phase, cnt + 1, false), engine := e.engine)
      && Holds(e.engine, XorWord(s.engine.state, cnt, GetWord(q, cnt - at)))
  {
    e := next(s);
    assert Look(s);
    assert s.fsm.cnt % 4 == s.fsm.cnt - at;
    OneClock(next, Busy, s);
  }

  lemma {:induction false} LoadWords(next: Clock, engine: EngineClock, s: System, q: Quad, at: nat, n: nat, x: State, k: nat) returns (e: System)
    requires Ticks(next, engine) && Absorbs(engine) && Loads(s.fsm.phase, s.lat, q, at, n) && k < n
    requires s.fsm.cnt == at + k && !s.fsm.start && Holds(s.engine, Absorb(x, q, k, at)) && Busy(s)
    ensures Reaches(next, Busy, s, n - k, e)
    ensures e == s.(fsm := Fsm(AfterLoad(s.fsm.phase), at + n, false), engine := e.engine)
    ensures Holds(e.engine, Absorb(x, q, n, at))
    decreases n - k
  {
    var f := LoadClock(next, engine, s, q, at, n);
    if k + 1 == n {
      e := f;
    } else {
      e := LoadWords(next, engine, f, q, at, n, x, k + 1);
      Then(next, Busy, s, 1, f, n - k - 1, e);
    }
  }

  /** A padding phase adds its two words and starts the permutation. */
  lemma PadClock(next: Clock, engine: EngineClock, s: System, len: nat, domain: Word) returns (e: System)
    requires Ticks(next, engine) && Absorbs(engine) && Idle(s.engine) && Busy(s) && !s.fsm.start && len <= 16
    requires match s.fsm.phase
      case PadAd => len == s.lat.adLen && domain == Xor(s.lat.domain, DOMAIN_CRYPT)
      case PadData => len == s.lat.dataLen && domain == DOMAIN_SQUEEZE
      case HashPad => len == s.lat.dataLen && domain == s.lat.domain
      case _ => false
    ensures Reaches(next, Busy, s, 1, e)
    ensures PermPhase(e.fsm.phase) && e.fsm.phase == NextPhase(s.fsm, s.lat, false, QUIET) && e.fsm.cnt == 0 && e.fsm.start
    ensures e.lat == NextLatched(s.fsm.phase, s.lat, QUIET) && e.res == s.res && e.ports == s.ports
    ensures Holds(e.engine, PadAt(s.engine.state, len, domain))
  {
    e := next(s);
    assert Look(s);
    OneClock(next, Busy, s);
  }

  lemma PadNonceClock(next: Clock, engine: EngineClock, s: System) returns (e: System)
    requires Ticks(next, engine) && Absorbs(engine) && Idle(s.engine) && Busy(s) && !s.fsm.start && s.fsm.phase.PadNonce?
    ensures Reaches(next, Busy, s, 1, e)
    ensures e == s.(fsm := Fsm(PermNonce, 0, true), lat := s.lat.(domain := DOMAIN_ABSORB), engine := e.engine)
    ensures Holds(e.engine, XorWord(XorWord(s.engine.state, 8, PAD_KEY_NONCE), 11, s.lat.domain))
  {
    e := next(s);
    assert Look(s);
    OneClock(next, Busy, s);
  }

  /** With a fresh `valid` the core leaves its permutation phase. */
  lemma LeaveClock(next: Clock, engine: EngineClock, s: System) returns (e: System)
    requires Ticks(next, engine) && Absorbs(engine) && Idle(s.engine) && s.engine.valid && Busy(s)
    requires PermPhase(s.fsm.phase) && !s.fsm.start && s.fsm.cnt == 0
    ensures Reaches(next, Busy, s, 1, e)
    ensures e == s.(fsm := Fsm(NextPhase(s.fsm, s.lat, true, QUIET), 0, false), engine := e.engine)
    ensures Holds(e.engine, s.engine.state)
  {
    e := next(s);
    assert Look(s);
    OneClock(next, Busy, s);
  }

  /** A permutation phase as a whole. */
  lemma PermAndLeave(next: Clock, engine: EngineClock, p: Permutation, n: nat, s: System) returns (e: System)
    requires Ticks(next, engine) && Absorbs(engine) && Permutes(engine, p, n)
    requires PermPhase(s.fsm.phase) && s.fsm.start && s.fsm.cnt == 0 && Idle(s.engine) && Busy(s)
    ensures Reaches(next, Busy, s, n + 1, e)
    ensures e == s.(fsm := Fsm(NextPhase(Fsm(s.fsm.phase, 0, false), s.lat, true, QUIET), 0, false), engine := e.engine)
    ensures Holds(e.engine, p(s.engine.state))
  {
    var f := Permute(next, engine, p, n, s);
    e := LeaveClock(next, engine, f);
    Then(next, Busy, s, n, f, 1, e);
  }

  // ---- the three segments of an authenticated operation -------------------------------------

  lemma KeySegment(next: Clock, engine: EngineClock, p: Permutation, n: nat, s: System) returns (e: System)
    requires Ticks(next, engine) && Absorbs(engine) && Permutes(engine, p, n)
    requires s.fsm == Fsm(LoadKey, 0, false) && Busy(s) && Holds(s.engine, ZERO_STATE) && s.lat.domain == DOMAIN_ABSORB_KEY
    ensures Reaches(next, Busy, s, n + 10, e)
    ensures e == s.(fsm := Fsm(if s.lat.adLen > 0 then LoadAd else PadAd, 0, false), lat := s.lat.(domain := DOMAIN_ABSORB), engine := e.engine)
    ensures Holds(e.engine, p(Keyed(s.lat.key, s.lat.nonce)))
  {
    var a := LoadWords(next, engine, s, s.lat.key, 0, 4, ZERO_STATE, 0);
    var b := LoadWords(next, engine, a, s.lat.nonce, 4, 4, a.engine.state, 0);
    Then(next, Busy, s, 4, a, 4, b);
    var c := PadNonceClock(next, engine, b);
    Then(next, Busy, s, 8, b, 1, c);
    e := PermAndLeave(next, engine, p, n, c);
    Then(next, Busy, s, 9, c, n + 1, e);
  }

  lemma AdSegment(next: Clock, engine: EngineClock, p: Permutation, n: nat, s: System) returns (e: System)
    requires Ticks(next, engine) && Absorbs(engine) && Permutes(engine, p, n)
    requires s.fsm == Fsm(if s.lat.adLen > 0 then LoadAd else PadAd, 0, false) && s.lat.adLen <= 16
    requires Busy(s) && Idle(s.engine) && s.lat.domain == DOMAIN_ABSORB
    ensures Reaches(next, Busy, s, Words(s.lat.adLen) + n + 2, e)
    ensures e == s.(fsm := Fsm(if s.lat.dataLen > 0 then LoadData else PadData, 0, false), lat := s.lat.(domain := ZERO), engine := e.engine)
    ensures Holds(e.engine, p(PadAt(Absorb(s.engine.state, s.lat.ad, Words(s.lat.adLen), 0), s.lat.adLen, Xor(DOMAIN_ABSORB, DOMAIN_CRYPT))))
  {
    var m := Words(s.lat.adLen);
    var a := s;
    if m > 0 {
      a := LoadWords(next, engine, s, s.lat.ad, 0, m, s.engine.state, 0);
    } else {
      assert Iterate(next, s, 0) == s;
    }
    var b := PadClock(next, engine, a, s.lat.adLen, Xor(DOMAIN_ABSORB, DOMAIN_CRYPT));
    Then(next, Busy, s, m, a, 1, b);
    e := PermAndLeave(next, engine, p, n, b);
    Then(next, Busy, s, m + 1, b, n + 1, e);
  }

  // ---- the data phase -------------------------------------------------------------------------

  function DataState(decrypt: bool, x: State, q: Quad, k: nat): State
    requires k <= 4
  {
    if decrypt then Replace(x, q, k) else Absorb(x, q, k, 0)
  }

  /** The output register after `k` words. */
  function DataOut(before: Quad, x: State, q: Quad, k: nat): Quad
    requires k <= 4
  {
    if k == 0 then before else DataOut(before, x, q, k - 1)[k - 1 := Crypt(x, q, k - 1)]
  }

  lemma DataStep(decrypt: bool, x: State, q: Quad, k: nat)
    requires k < 4
    ensures var s := DataState(decrypt, x, q, k);
      && s[k] == x[k]
      && DataState(decrypt, x, q, k + 1) == XorWord(s, k, if decrypt then Xor(s[k], GetWord(q, k)) else GetWord(q, k))
  {
    AbsorbLeaves(x, q, k, k);
    ReplaceLeaves(x, q, k, k);
    XorSymmetric(x[k], GetWord(q, k));
    XorTwice(GetWord(q, k), x[k]);
    XorSymmetric(x[k], Xor(x[k], GetWord(q, k)));
  }

  lemma DataClock(next: Clock, engine: EngineClock, s: System) returns (e: System)
    requires Ticks(next, engine) && Absorbs(engine) && s.fsm.phase.LoadData? && s.fsm.cnt < Words(s.lat.dataLen) <= 4
    requires !s.fsm.start && Idle(s.engine) && Busy(s)
    ensures Reaches(next, Busy, s, 1, e)
    ensures var k, w := s.fsm.cnt, s.engine.state[s.fsm.cnt];
      && e == s.(fsm := Fsm(if k + 1 == Words(s.lat.dataLen) then PadData else LoadData, k + 1, false),
                 res := s.res.(dataOut := s.res.dataOut[k := ByteSwap(Xor(w, GetWord(s.lat.data, k)))]), engine := e.engine)
      && Holds(e.engine, XorWord(s.engine.state, k, if s.lat.sel == DECRYPT then Xor(w, GetWord(s.lat.data, k)) else GetWord(s.lat.data, k)))
  {
    e := next(s);
    assert Look(s);
    OneClock(next, Busy, s);
  }

  /** One word of the data phase, in terms of the mode. */
  lemma DataWord(next: Clock, engine: EngineClock, s: System, x: State, before: Quad, n: nat, k: nat) returns (e: System)
    requires Ticks(next, engine) && Absorbs(engine) && s.fsm == Fsm(LoadData, k, false) && k < n == Words(s.lat.dataLen) <= 4 && Busy(s)
    requires Holds(s.engine, DataState(s.lat.sel == DECRYPT, x, s.lat.data, k)) && s.res.dataOut == DataOut(before, x, s.lat.data, k)
    ensures Reaches(next, Busy, s, 1, e)
    ensures e == s.(fsm := Fsm(if k + 1 == n then PadData else LoadData, k + 1, false),
                    res := s.res.(dataOut := DataOut(before, x, s.lat.data, k + 1)), engine := e.engine)
    ensures Holds(e.engine, DataState(s.lat.sel == DECRYPT, x, s.lat.data, k + 1))
  {
    e := DataClock(next, engine, s);
    DataStep(s.lat.sel == DECRYPT, x, s.lat.data, k);
  }

  lemma {:induction false} DataWords(next: Clock, engine: EngineClock, s: System, x: State, before: Quad, n: nat, k: nat) returns (e: System)
    requires Ticks(next, engine) && Absorbs(engine) && s.fsm == Fsm(LoadData, k, false) && k < n == Words(s.lat.dataLen) <= 4 && Busy(s)
    requires Holds(s.engine, DataState(s.lat.sel == DECRYPT, x, s.lat.data, k)) && s.res.dataOut == DataOut(before, x, s.lat.data, k)
    ensures Reaches(next, Busy, s, n - k, e)
    ensures e == s.(fsm := Fsm(PadData, n, false), res := s.res.(dataOut := DataOut(before, x, s.lat.data, n)), engine := e.engine)
    ensures Holds(e.engine, DataState(s.lat.sel == DECRYPT, x, s.lat.data, n))
    decreases n - k
  {
    var f := DataWord(next, engine, s, x, before, n, k);
    if k + 1 == n {
      e := f;
    } else {
      e := DataWords(next, engine, f, x, before, n, k + 1);
      Then(next, Busy, s, 1, f, n - k - 1, e);
    }
  }

  lemma DataSegment(next: Clock, engine: EngineClock, p: Permutation, n: nat, s: System) returns (e: System)
    requires Ticks(next, engine) && Absorbs(engine) && Permutes(engine, p, n)
    requires s.fsm == Fsm(if s.lat.dataLen > 0 then LoadData else PadData, 0, false) && s.lat.dataLen <= 16
    requires Busy(s) && Idle(s.engine)
    ensures Reaches(next, Busy, s, Words(s.lat.dataLen) + n + 2, e)
    ensures e == s.(fsm := Fsm(if s.lat.sel == ENCRYPT then ExtractTag else VerifyTag, 0, false),
      res := s.res.(dataOut := DataOut(s.res.dataOut, s.engine.state, s.lat.data, Words(s.lat.dataLen))), engine := e.engine)
    ensures Holds(e.engine, AfterData(p, s.lat.sel == DECRYPT, s.engine.state, s.lat.data, s.lat.dataLen))
  {
    var m := Words(s.lat.dataLen);
    var a := s;
    if m > 0 {
      a := DataWords(next, engine, s, s.engine.state, s.res.dataOut, m, 0);
    } else {
      assert Iterate(next, s, 0) == s;
    }
    var b := PadClock(next, engine, a, s.lat.dataLen, DOMAIN_SQUEEZE);
    Then(next, Busy, s, m, a, 1, b);
    e := PermAndLeave(next, engine, p, n, b);
    Then(next, Busy, s, m + 1, b, n + 1, e);
  }

  // ---- the tag and squeeze phases -----------------------------------------------------------

  predicate Tags(p: Phase)
  {
    p.ExtractTag? || p.VerifyTag? || p.HashSqueeze1?
  }

  /** The tag register after `k` words. */
  function TagOut(before: Quad, x: State, k: nat): Quad
    requires k <= 4
  {
    if k == 0 then before else TagOut(before, x, k - 1)[k - 1 := ByteSwap(x[k - 1])]
  }

  lemma TagOutIsSqueeze(before: Quad, x: State)
    ensures TagOut(before, x, 4) == Squeeze(x)
  {
    assert TagOut(before, x, 1) == before[0 := ByteSwap(x[0])];
    assert TagOut(before, x, 2) == before[0 := ByteSwap(x[0])][1 := ByteSwap(x[1])];
    assert TagOut(before, x, 3) == before[0 := ByteSwap(x[0])][1 := ByteSwap(x[1])][2 := ByteSwap(x[2])];
  }

  /** The verification flag after `k` words. */
  predicate Matches(tag: Quad, x: State, k: nat)
    requires k <= 4
  {
    if k == 0 then true else Matches(tag, x, k - 1) && ByteSwap(x[k - 1]) == tag[k - 1]
  }

  lemma MatchesIsEquality(tag: Quad, x: State)
    ensures Matches(tag, x, 4) <==> tag == Squeeze(x)
  {
    assert Matches(tag, x, 3) <==> Matches(tag, x, 2) && ByteSwap(x[2]) == tag[2];
    assert Matches(tag, x, 2) <==> Matches(tag, x, 1) && ByteSwap(x[1]) == tag[1];
    assert Matches(tag, x, 1) <==> ByteSwap(x[0]) == tag[0];
    assert tag == [tag[0], tag[1], tag[2], tag[3]];
  }

  lemma TagClock(next: Clock, engine: EngineClock, s: System) returns (e: System)
    requires Ticks(next, engine) && Absorbs(engine) && Tags(s.fsm.phase) && s.fsm.cnt < 4
    requires !s.fsm.start && Idle(s.engine) && Busy(s)
    ensures Reaches(next, Busy, s, 1, e)
    ensures var k, w := s.fsm.cnt, ByteSwap(s.engine.state[s.fsm.cnt]);
      && e == s.(fsm := Fsm(NextPhase(s.fsm, s.lat, false, QUIET), k + 1, false),
                 res := s.res.(tag := s.res.tag[k := w], valid := s.res.valid && (s.fsm.phase.VerifyTag? ==> w == s.lat.tag[k])),
                 engine := e.engine)
      && Holds(e.engine, s.engine.state)
  {
    e := next(s);
    assert Look(s);
    OneClock(next, Busy, s);
  }

  lemma {:induction false} TagWords(next: Clock, engine: EngineClock, s: System, before: Results, k: nat) returns (e: System)
    requires Ticks(next, engine) && Absorbs(engine) && Tags(s.fsm.phase) && s.fsm.cnt == k < 4
    requires !s.fsm.start && Idle(s.engine) && Busy(s)
    requires s.res == before.(tag := TagOut(before.tag, s.engine.state, k),
      valid := before.valid && (s.fsm.phase.VerifyTag? ==> Matches(s.lat.tag, s.engine.state, k)))
    ensures Reaches(next, Busy, s, 4 - k, e)
    ensures e == s.(fsm := Fsm(if s.fsm.phase.HashSqueeze1? then HashPad2 else Finish, 4, false),
      res := before.(tag := TagOut(before.tag, s.engine.state, 4),
        valid := before.valid && (s.fsm.phase.VerifyTag? ==> Matches(s.lat.tag, s.engine.state, 4))), engine := e.engine)
    ensures Holds(e.engine, s.engine.state)
    decreases 4 - k
  {
    var f := TagClock(next, engine, s);
    if k == 3 {
      e := f;
    } else {
      e := TagWords(next, engine, f, before, k + 1);
      Then(next, Busy, s, 1, f, 3 - k, e);
    }
  }

  /** The four clocks that give and check the tag. */
  lemma TagSegment(next: Clock, engine: EngineClock, s: System) returns (e: System)
    requires Ticks(next, engine) && Absorbs(engine) && Tags(s.fsm.phase) && s.fsm.cnt == 0
    requires !s.fsm.start && Idle(s.engine) && Busy(s)
    ensures Reaches(next, Busy, s, 4, e)
    ensures e == s.(fsm := Fsm(if s.fsm.phase.HashSqueeze1? then HashPad2 else Finish, 4, false),
      res := s.res.(tag := Squeeze(s.engine.state), valid := s.res.valid && (s.fsm.phase.VerifyTag? ==> s.lat.tag == Squeeze(s.engine.state))),
      engine := e.engine)
    ensures Holds(e.engine, s.engine.state)
  {
    e := TagWords(next, engine, s, s.res, 0);
    TagOutIsSqueeze(s.res.tag, s.engine.state);
    MatchesIsEquality(s.lat.tag, s.engine.state);
  }

  // ---- whole runs under any inputs ------------------------------------------------------------

  type Driver = (System, In) -> System

  predicate LookIn(s: System, i: In) { true }

  /** `tick` is a clock edge of the core under any inputs. */
  ghost predicate Drives(tick: Driver, engine: EngineClock)
  {
    forall s: System, i: In {:trigger LookIn(s, i)} :: tick(s, i) == NextSystem(engine, s, i)
  }

  function Quiescent(tick: Driver): Clock
  {
    (s: System) => tick(s, QUIET)
  }

  lemma QuiescentTicks(tick: Driver, engine: EngineClock)
    requires Drives(tick, engine)
    ensures Ticks(Quiescent(tick), engine)
  {
    forall s: System
      ensures Quiescent(tick)(s) == NextSystem(engine, s, QUIET)
    {
      assert LookIn(s, QUIET);
    }
  }

  lemma BusyTick(tick: Driver, engine: EngineClock, s: System, i: In)
    requires Drives(tick, engine) && !s.fsm.phase.Waiting? && !i.restart
    ensures tick(s, i) == tick(s, QUIET)
  {
    assert LookIn(s, i) && LookIn(s, QUIET);
    InputsIgnored(engine, s, i);
  }

  /** A run of `m` busy clocks followed by one more, whatever the inputs. */
  lemma {:induction false} BusyRun(tick: Driver, engine: EngineClock, next: Clock, s: System, ins: nat -> In, a: System, m: nat, e: System)
    requires Drives(tick, engine) && next == Quiescent(tick) && a == tick(s, ins(0)) && Busy(a)
    requires Reaches(next, Busy, a, m, e) && forall k: nat | k <= m :: !ins(k).restart
    ensures RunWith(tick, s, ins, m + 1) == e
    decreases m
  {
    if m == 0 {
      assert RunWith(tick, s, ins, 0) == s;
      assert Iterate(next, a, 0) == a;
    } else {
      var b := Iterate(next, a, m - 1);
      assert Iterate(next, a, 0) == a;
      BusyRun(tick, engine, next, s, ins, a, m - 1, b);
      BusyTick(tick, engine, b, ins(m));
    }
  }

  lemma HeadRun(next: Clock, engine: EngineClock, p: Permutation, n: nat, a: System) returns (e: System)
    requires Ticks(next, engine) && Absorbs(engine) && Permutes(engine, p, n)
    requires a.fsm == Fsm(LoadKey, 0, false) && Busy(a) && Holds(a.engine, ZERO_STATE) && a.lat.domain == DOMAIN_ABSORB_KEY
    requires a.lat.adLen <= 16
    ensures Reaches(next, Busy, a, Words(a.lat.adLen) + 2 * n + 12, e)
    ensures e == a.(fsm := Fsm(if a.lat.dataLen > 0 then LoadData else PadData, 0, false), lat := a.lat.(domain := ZERO), engine := e.engine)
    ensures Holds(e.engine, AfterAd(p, a.lat.key, a.lat.nonce, a.lat.ad, a.lat.adLen))
  {
    var b := KeySegment(next, engine, p, n, a);
    e := AdSegment(next, engine, p, n, b);
    ThenIn(next, Busy, a, n + 10, b, Words(a.lat.adLen) + n + 2, e, Words(a.lat.adLen) + 2 * n + 12);
  }

  lemma TailRun(next: Clock, engine: EngineClock, p: Permutation, n: nat, s: System) returns (e: System)
    requires Ticks(next, engine) && Absorbs(engine) && Permutes(engine, p, n)
    requires s.fsm == Fsm(if s.lat.dataLen > 0 then LoadData else PadData, 0, false) && s.lat.dataLen <= 16
    requires Busy(s) && Idle(s.engine)
    ensures Reaches(next, Busy, s, Words(s.lat.dataLen) + n + 6, e)
    ensures e.fsm == Fsm(Finish, 4, false) && e.lat == s.lat && e.ports == s.ports && Idle(e.engine)
    ensures var tag := Squeeze(AfterData(p, s.lat.sel == DECRYPT, s.engine.state, s.lat.data, s.lat.dataLen));
      e.res == Results(DataOut(s.res.dataOut, s.engine.state, s.lat.data, Words(s.lat.dataLen)), tag,
                       s.res.valid && (s.lat.sel == ENCRYPT || s.lat.tag == tag))
  {
    var d := DataSegment(next, engine, p, n, s);
    e := TagSegment(next, engine, d);
    ThenIn(next, Busy, s, Words(s.lat.dataLen) + n + 2, d, 4, e, Words(s.lat.dataLen) + n + 6);
  }

  /** Everything between the accepting clock and the one that raises `done`. */
  lemma WholeRun(next: Clock, engine: EngineClock, p: Permutation, n: nat, a: System) returns (e: System)
    requires Ticks(next, engine) && Absorbs(engine) && Permutes(engine, p, n)
    requires a.fsm == Fsm(LoadKey, 0, false) && Busy(a) && Holds(a.engine, ZERO_STATE) && a.lat.domain == DOMAIN_ABSORB_KEY
    requires a.lat.adLen <= 16 && a.lat.dataLen <= 16
    ensures Reaches(next, Busy, a, 3 * n + 18 + Words(a.lat.adLen) + Words(a.lat.dataLen), e)
    ensures e.fsm == Fsm(Finish, 4, false) && e.lat == a.lat.(domain := ZERO) && e.ports == a.ports && Idle(e.engine)
    ensures e.res == ResultsOf(p, a.lat, a.res)
  {
    var b := HeadRun(next, engine, p, n, a);
    e := TailRun(next, engine, p, n, b);
    ThenIn(next, Busy, a, Words(a.lat.adLen) + 2 * n + 12, b, Words(a.lat.dataLen) + n + 6, e,
      3 * n + 18 + Words(a.lat.adLen) + Words(a.lat.dataLen));
  }

  /** The results of an authenticated operation on latched inputs. */
  function ResultsOf(p: Permutation, l: Latched, before: Results): Results
    requires l.adLen <= 16 && l.dataLen <= 16
  {
    var x := AfterAd(p, l.key, l.nonce, l.ad, l.adLen);
    var tag := Squeeze(AfterData(p, l.sel == DECRYPT, x, l.data, l.dataLen));
    Results(DataOut(before.dataOut, x, l.data, Words(l.dataLen)), tag, before.valid && (l.sel == ENCRYPT || l.tag == tag))
  }

  ghost predicate Ready(s: System)
  {
    s.fsm.phase.Waiting? && !s.fsm.start && Idle(s.engine)
  }

  /** The core accepts a request and leaves its engine idle over the zero state. */
  ghost predicate Accepts(tick: Driver, s: System, i: In)
  {
    s.fsm.phase.Waiting? && i.ena && !i.restart && Holds(tick(s, i).engine, ZERO_STATE)
  }

  lemma ReadyAccepts(tick: Driver, engine: EngineClock, s: System, i: In)
    requires Drives(tick, engine) && Absorbs(engine) && Ready(s) && i.ena && !i.restart
    ensures Accepts(tick, s, i)
  {
    assert LookIn(s, i);
  }

  lemma AcceptClock(tick: Driver, engine: EngineClock, s: System, i: In) returns (a: System)
    requires Drives(tick, engine) && Accepts(tick, s, i)
    ensures a == tick(s, i) && Busy(a) && Holds(a.engine, ZERO_STATE)
    ensures a.fsm == Fsm(if i.sel == HASH then HashLoad else LoadKey, 0, false)
    ensures a.lat == Latched(i.key, i.nonce, i.ad, i.data, i.tag, i.adLen, i.dataLen, i.sel,
      if i.sel == HASH then DOMAIN_ABSORB_HASH else DOMAIN_ABSORB_KEY)
    ensures a.res == s.res.(valid := true)
  {
    a := tick(s, i);
    assert LookIn(s, i);
  }

  lemma FinishClock(tick: Driver, engine: EngineClock, s: System, i: In)
    requires Drives(tick, engine) && Absorbs(engine) && s.fsm.phase.Finish? && !s.fsm.start && Idle(s.engine) && !i.restart
    ensures var e := tick(s, i);
      Ready(e) && e.res == s.res && e.ports == Ports(true, s.lat.sel == DECRYPT ==> s.res.valid, s.res.dataOut, s.res.tag)
  {
    assert LookIn(s, i);
  }

  /** A busy run that ends in the finishing phase: `done` rises one clock later and no earlier. */
  lemma RunToDone(tick: Driver, engine: EngineClock, s: System, ins: nat -> In, a: System, m: nat, e: System)
    requires Drives(tick, engine) && Absorbs(engine) && a == tick(s, ins(0)) && Busy(a)
    requires Reaches(Quiescent(tick), Busy, a, m, e) && forall k: nat | k <= m + 1 :: !ins(k).restart
    requires e.fsm.phase.Finish? && !e.fsm.start && Idle(e.engine)
    ensures forall k: nat | 1 <= k <= m + 1 :: !RunWith(tick, s, ins, k).ports.done
    ensures var f := RunWith(tick, s, ins, m + 2);
      Ready(f) && f.res == e.res && f.ports == Ports(true, e.lat.sel == DECRYPT ==> e.res.valid, e.res.dataOut, e.res.tag)
  {
    var next := Quiescent(tick);
    forall k: nat | 1 <= k <= m + 1
      ensures !RunWith(tick, s, ins, k).ports.done
    {
      var b := Iterate(next, a, k - 1);
      assert Iterate(next, a, 0) == a;
      assert Busy(b);
      BusyRun(tick, engine, next, s, ins, a, k - 1, b);
    }
    BusyRun(tick, engine, next, s, ins, a, m, e);
    FinishClock(tick, engine, e, ins(m + 1));
  }

  /** The outputs of an authenticated operation. */
  function Outcome(p: Permutation, i: In, before: Quad): Ports
    requires i.adLen <= 16 && i.dataLen <= 16
  {
    var x := AfterAd(p, i.key, i.nonce, i.ad, i.adLen);
    var tag := Squeeze(AfterData(p, i.sel == DECRYPT, x, i.data, i.dataLen));
    Ports(true, i.sel == DECRYPT ==> i.tag == tag, DataOut(before, x, i.data, Words(i.dataLen)), tag)
  }

  function AeadClocks(n: nat, i: In): nat { 3 * n + 20 + Words(i.adLen) + Words(i.dataLen) }

  /** From an accepted `ena`, for every permutation that takes `n` clocks and
      whatever the inputs do afterwards, the core computes the mode and raises
      `done` with the clock of this number, and no earlier. */
  lemma Aead(tick: Driver, engine: EngineClock, p: Permutation, n: nat, s: System, ins: nat -> In)
    requires Drives(tick, engine) && Absorbs(engine) && Permutes(engine, p, n)
    requires Accepts(tick, s, ins(0)) && ins(0).sel != HASH && ins(0).adLen <= 16 && ins(0).dataLen <= 16
    requires forall k: nat | k < AeadClocks(n, ins(0)) :: !ins(k).restart
    ensures forall k: nat | 1 <= k < AeadClocks(n, ins(0)) :: !RunWith(tick, s, ins, k).ports.done
    ensures var f := RunWith(tick, s, ins, AeadClocks(n, ins(0)));
      Ready(f) && f.ports == Outcome(p, ins(0), s.res.dataOut)
  {
    QuiescentTicks(tick, engine);
    var a := AcceptClock(tick, engine, s, ins(0));
    var e := WholeRun(Quiescent(tick), engine, p, n, a);
    var m := AeadClocks(n, ins(0)) - 2;
    RunToDone(tick, engine, s, ins, a, m, e);
    SameOutcome(p, ins(0), a.lat, s.res, a.res);
  }

  lemma SameOutcome(p: Permutation, i: In, l: Latched, before: Results, r: Results)
    requires i.adLen <= 16 && i.dataLen <= 16 && r == before.(valid := true)
    requires l == Latched(i.key, i.nonce, i.ad, i.data, i.tag, i.adLen, i.dataLen, i.sel, l.domain)
    ensures var f := ResultsOf(p, l, r);
      Outcome(p, i, before.dataOut) == Ports(true, l.sel == DECRYPT ==> f.valid, f.dataOut, f.tag)
  {
  }

  lemma {:induction false} DataOutAt(before: Quad, x: State, q: Quad, n: nat, k: nat)
    requires k < n <= 4
    ensures DataOut(before, x, q, n)[k] == Crypt(x, q, k)
  {
    if k < n - 1 {
      DataOutAt(before, x, q, n - 1, k);
    }
  }

  /** Two operations in which the second decrypts what the first produced. */
  ghost predicate Answers(i: In, o: Ports, j: In)
  {
    && i.sel == ENCRYPT && j.sel == DECRYPT
    && j.key == i.key && j.nonce == i.nonce && j.ad == i.ad && j.adLen == i.adLen && j.dataLen == i.dataLen
    && j.data == o.dataOut && j.tag == o.tag
  }

  lemma OutcomeInverts(p: Permutation, i: In, before: Quad, j: In, before': Quad)
    requires i.adLen <= 16 && i.dataLen <= 16 && Answers(i, Outcome(p, i, before), j)
    ensures var o := Outcome(p, j, before');
      o.valid && o.tag == Outcome(p, i, before).tag && forall k: nat | k < Words(i.dataLen) :: o.dataOut[k] == i.data[k]
  {
    var n := Words(i.dataLen);
    var x := AfterAd(p, i.key, i.nonce, i.ad, i.adLen);
    forall k: nat | k < n
      ensures j.data[k] == Crypt(x, i.data, k)
    {
      DataOutAt(before, x, i.data, n, k);
    }
    ReplaceIsAbsorb(x, i.data, j.data, n);
    forall k: nat | k < n
      ensures DataOut(before', x, j.data, n)[k] == i.data[k]
    {
      DataOutAt(before', x, j.data, n, k);
      CryptTwice(x, i.data, j.data, k);
    }
  }

  /** Decrypting the raw output and tag of an encryption, on any two cores with
      any permutation, gives back every processed word and a valid tag. */
  lemma RoundTrip(tick: Driver, engine: EngineClock, p: Permutation, n: nat, s: System, ins: nat -> In, s': System, ins': nat -> In)
    requires Drives(tick, engine) && Absorbs(engine) && Permutes(engine, p, n)
    requires Accepts(tick, s, ins(0)) && forall k: nat | k < AeadClocks(n, ins(0)) :: !ins(k).restart
    requires ins(0).adLen <= 16 && ins(0).dataLen <= 16
    requires Accepts(tick, s', ins'(0)) && forall k: nat | k < AeadClocks(n, ins'(0)) :: !ins'(k).restart
    requires Answers(ins(0), RunWith(tick, s, ins, AeadClocks(n, ins(0))).ports, ins'(0))
    ensures var o := RunWith(tick, s', ins', AeadClocks(n, ins'(0))).ports;
      o.done && o.valid && forall k: nat | k < Words(ins(0).dataLen) :: o.dataOut[k] == ins(0).data[k]
  {
    Aead(tick, engine, p, n, s, ins);
    Aead(tick, engine, p, n, s', ins');
    OutcomeInverts(p, ins(0), s.res.dataOut, ins'(0), s'.res.dataOut);
  }

  // ---- hashing ----------------------------------------------------------------------------------

  function HashWords(len: nat): nat { if Words(len) < 4 then Words(len) else 4 }

  lemma HashClock(next: Clock, engine: EngineClock, s: System) returns (e: System)
    requires Ticks(next, engine) && Absorbs(engine) && s.fsm.phase.HashLoad? && s.fsm.cnt < 4
    requires !s.fsm.start && Idle(s.engine) && Busy(s)
    ensures Reaches(next, Busy, s, 1, e)
    ensures var k := s.fsm.cnt;
      && e == s.(fsm := Fsm(if s.lat.dataLen == 0 || k == 3 then HashPad else HashLoad, k + 1, false), engine := e.engine)
      && Holds(e.engine, if k < Words(s.lat.dataLen) then XorWord(s.engine.state, k, GetWord(s.lat.data, k)) else s.engine.state)
  {
    e := next(s);
    assert Look(s);
    OneClock(next, Busy, s);
  }

  /** The load phase runs over all four words but adds only those that hold data. */
  lemma {:induction false} HashLoads(next: Clock, engine: EngineClock, s: System, x: State, k: nat) returns (e: System)
    requires Ticks(next, engine) && Absorbs(engine) && s.fsm == Fsm(HashLoad, k, false) && k < 4 && Busy(s) && s.lat.dataLen > 0
    requires var w := HashWords(s.lat.dataLen); Holds(s.engine, Absorb(x, s.lat.data, if k < w then k else w, 0))
    ensures Reaches(next, Busy, s, 4 - k, e)
    ensures e == s.(fsm := Fsm(HashPad, 4, false), engine := e.engine)
    ensures Holds(e.engine, Absorb(x, s.lat.data, HashWords(s.lat.dataLen), 0))
    decreases 4 - k
  {
    var f := HashClock(next, engine, s);
    if k == 3 {
      e := f;
    } else {
      e := HashLoads(next, engine, f, x, k + 1);
      Then(next, Busy, s, 1, f, 3 - k, e);
    }
  }

  lemma Pad2Clock(next: Clock, engine: EngineClock, s: System) returns (e: System)
    requires Ticks(next, engine) && Absorbs(engine) && Idle(s.engine) && Busy(s) && !s.fsm.start && s.fsm.phase.HashPad2?
    ensures Reaches(next, Busy, s, 1, e)
    ensures e == s.(fsm := Fsm(HashPerm2, 0, true), engine := e.engine) && Holds(e.engine, XorWord(s.engine.state, 0, PAD_01))
  {
    e := next(s);
    assert Look(s);
    OneClock(next, Busy, s);
  }

  lemma DigestClock(next: Clock, engine: EngineClock, s: System) returns (e: System)
    requires Ticks(next, engine) && Absorbs(engine) && s.fsm.phase.HashSqueeze2? && s.fsm.cnt < 4
    requires !s.fsm.start && Idle(s.engine) && Busy(s)
    ensures Reaches(next, Busy, s, 1, e)
    ensures var k, w := s.fsm.cnt, ByteSwap(s.engine.state[s.fsm.cnt]);
      e == s.(fsm := Fsm(if k == 3 then Finish else HashSqueeze2, k + 1, false), res := s.res.(dataOut := s.res.dataOut[k := w]),
              engine := e.engine)
      && Holds(e.engine, s.engine.state)
  {
    e := next(s);
    assert Look(s);
    OneClock(next, Busy, s);
  }

  lemma {:induction false} DigestWords(next: Clock, engine: EngineClock, s: System, before: Quad, k: nat) returns (e: System)
    requires Ticks(next, engine) && Absorbs(engine) && s.fsm == Fsm(HashSqueeze2, k, false) && k < 4
    requires Idle(s.engine) && Busy(s) && s.res.dataOut == TagOut(before, s.engine.state, k)
    ensures Reaches(next, Busy, s, 4 - k, e)
    ensures e == s.(fsm := Fsm(Finish, 4, false), res := s.res.(dataOut := TagOut(before, s.engine.state, 4)), engine := e.engine)
    ensures Holds(e.engine, s.engine.state)
    decreases 4 - k
  {
    var f := DigestClock(next, engine, s);
    if k == 3 {
      e := f;
    } else {
      e := DigestWords(next, engine, f, before, k + 1);
      Then(next, Busy, s, 1, f, 3 - k, e);
    }
  }

  /** The state from which the first half of the digest is squeezed. */
  function HashState(p: Permutation, data: Quad, len: nat): State
    requires len <= 16
  {
    p(PadAt(Absorb(ZERO_STATE, data, HashWords(len), 0), len, DOMAIN_ABSORB_HASH))
  }

  function LoadClocks(len: nat): nat { if len == 0 then 1 else 4 }

  lemma HashAbsorbs(next: Clock, engine: EngineClock, p: Permutation, n: nat, a: System) returns (e: System)
    requires Ticks(next, engine) && Absorbs(engine) && Permutes(engine, p, n)
    requires a.fsm == Fsm(HashLoad, 0, false) && Busy(a) && Holds(a.engine, ZERO_STATE) && a.lat.domain == DOMAIN_ABSORB_HASH
    requires a.lat.dataLen <= 16
    ensures Reaches(next, Busy, a, LoadClocks(a.lat.dataLen) + n + 2, e)
    ensures e == a.(fsm := Fsm(HashSqueeze1, 0, false), engine := e.engine)
    ensures Holds(e.engine, HashState(p, a.lat.data, a.lat.dataLen))
  {
    var b;
    if a.lat.dataLen == 0 {
      b := HashClock(next, engine, a);
    } else {
      b := HashLoads(next, engine, a, ZERO_STATE, 0);
    }
    var m := LoadClocks(a.lat.dataLen);
    var c := PadClock(next, engine, b, a.lat.dataLen, DOMAIN_ABSORB_HASH);
    Then(next, Busy, a, m, b, 1, c);
    e := PermAndLeave(next, engine, p, n, c);
    ThenIn(next, Busy, a, m + 1, c, n + 1, e, m + n + 2);
  }

  lemma HashSqueezes(next: Clock, engine: EngineClock, p: Permutation, n: nat, a: System) returns (e: System)
    requires Ticks(next, engine) && Absorbs(engine) && Permutes(engine, p, n)
    requires a.fsm == Fsm(HashSqueeze1, 0, false) && Busy(a) && Idle(a.engine)
    ensures Reaches(next, Busy, a, n + 10, e)
    ensures e == a.(fsm := Fsm(Finish, 4, false), engine := e.engine,
      res := a.res.(tag := Squeeze(a.engine.state), dataOut := Squeeze(p(XorWord(a.engine.state, 0, PAD_01)))))
    ensures Idle(e.engine)
  {
    var b := TagSegment(next, engine, a);
    var c := Pad2Clock(next, engine, b);
    Then(next, Busy, a, 4, b, 1, c);
    var d := PermAndLeave(next, engine, p, n, c);
    ThenIn(next, Busy, a, 5, c, n + 1, d, n + 6);
    e := DigestWords(next, engine, d, d.res.dataOut, 0);
    TagOutIsSqueeze(d.res.dataOut, d.engine.state);
    ThenIn(next, Busy, a, n + 6, d, 4, e, n + 10);
  }

  function HashClocks(n: nat, i: In): nat { 2 * n + 14 + LoadClocks(i.dataLen) }

  /** From an accepted `ena` in hash mode: the first half of the digest is
      the tag output, the second the data output. */
  lemma Hash(tick: Driver, engine: EngineClock, p: Permutation, n: nat, s: System, ins: nat -> In)
    requires Drives(tick, engine) && Absorbs(engine) && Permutes(engine, p, n)
    requires Accepts(tick, s, ins(0)) && ins(0).sel == HASH && ins(0).dataLen <= 16
    requires forall k: nat | k < HashClocks(n, ins(0)) :: !ins(k).restart
    ensures forall k: nat | 1 <= k < HashClocks(n, ins(0)) :: !RunWith(tick, s, ins, k).ports.done
    ensures var f := RunWith(tick, s, ins, HashClocks(n, ins(0)));
      var x := HashState(p, ins(0).data, ins(0).dataLen);
      Ready(f) && f.ports == Ports(true, true, Squeeze(p(XorWord(x, 0, PAD_01))), Squeeze(x))
  {
    QuiescentTicks(tick, engine);
    var next := Quiescent(tick);
    var a := AcceptClock(tick, engine, s, ins(0));
    var b := HashAbsorbs(next, engine, p, n, a);
    var e := HashSqueezes(next, engine, p, n, b);
    var m := HashClocks(n, ins(0)) - 2;
    ThenIn(next, Busy, a, LoadClocks(ins(0).dataLen) + n + 2, b, n + 10, e, m);
    RunToDone(tick, engine, s, ins, a, m, e);
  }

  // ---- the concrete engine -----------------------------------------------------------

  function EngineOf(round: RoundMap, r: nat): EngineClock
  {
    (e: Engine, w: Wires) => NextEngine(round, r, e, w)
  }

  function DriverOf(engine: EngineClock): Driver
  {
    (s: System, i: In) => NextSystem(engine, s, i)
  }

  function TwelveOf(round: RoundMap): Permutation
  {
    (s: State) => Rounds(round, s, 12)
  }

  /** The engine of the design, with `r` rounds per cycle, meets what the runs above ask of it. */
  lemma EngineMeets(round: RoundMap, r: nat, n: nat)
    requires n * r == 12
    ensures var engine := EngineOf(round, r);
      Drives(DriverOf(engine), engine) && Absorbs(engine) && Permutes(engine, TwelveOf(round), n)
  {
    var engine := EngineOf(round, r);
    RoundsDone(r, n, 1);
    EngineAbsorbs(engine, round, r);
    EnginePermutes(engine, round, r, n, TwelveOf(round));
  }

  class XoodyakCore {
    const engine: XoodooTop
    var fsm: Fsm
    var latched: Latched
    var results: Results
    var ports: Ports

    ghost function Contents(): System
      reads this, engine
    {
      System(fsm, latched, results, ports, engine.Contents())
    }

    constructor (roundsPerCycle: nat)
      ensures fresh(engine) && engine.round == Round && engine.roundsPerCycle == roundsPerCycle && Ready(Contents()) && !ports.done
    {
      engine := new XoodooTop(roundsPerCycle);
      fsm := Fsm(Waiting, 0, false);
      latched := CLEARED;
      results := Results(ZERO_QUAD, ZERO_QUAD, true);
      ports := Ports(false, false, ZERO_QUAD, ZERO_QUAD);
    }

    /** One rising clock edge. */
    method Tick(i: In)
      modifies this, engine
      ensures Contents() == NextSystem(EngineOf(engine.round, engine.roundsPerCycle), old(Contents()), i)
    {
      var w := if fsm.cnt < 12 then engine.state[fsm.cnt] else ZERO;
      var wires := ToEngine(fsm, latched, w, i.ena);
      var valid := engine.valid;
      engine.Tick(wires);
      var f := NextFsm(fsm, latched, valid, i);
      var l := NextLatched(fsm.phase, latched, i);
      var r := NextResults(fsm, latched, results, w, i);
      ports := NextPorts(fsm, latched, results, ports, i);
      fsm, latched, results := f, l, r;
    }
  }
}
