/** What `restart` does to the Xoodyak core: the controller goes back to waiting,
    the permutation engine goes on. Which requests come out right, and one that
    does not. */
module XoodyakRestart {
  import opened Bits
  import opened Clocked
  import opened Xoodoo
  import opened XoodooEngine
  import opened Xoodyak

  // ---- the clocks of the engine's run ---------------------------------------------------

  /** Clocks that the run under way has had, where a run takes `n`; zero if there
      is none. A pulse counts only if no run is under way. */
  function NextAge(n: nat, age: nat, start: bool): nat
  {
    var a := if age > 0 || start then age + 1 else 0;
    if a == n then 0 else a
  }

  /** The same before clock `k` of a run of the core. */
  function AgeAt(tick: Driver, n: nat, s: System, ins: nat -> In, k: nat): nat
    decreases k, s
  {
    if k == 0 then 0 else NextAge(n, AgeAt(tick, n, s, ins, k - 1), RunWith(tick, s, ins, k - 1).fsm.start)
  }

  /** The engine's control registers are those of a run of this age. */
  ghost predicate Tracks(n: nat, r: nat, e: Engine, age: nat)
  {
    if age == 0 then Idle(e) else age < n && e.running && e.rc == RcAfter(RC_FIRST, age * r)
  }

  lemma {:induction false} RcSplit(c: Rc, m: nat, k: nat)
    ensures RcAfter(RcAfter(c, m), k) == RcAfter(c, m + k)
    decreases k, c
  {
    if k > 0 {
      RcSplit(c, m, k - 1);
    }
  }

  /** The constant generator's state at the end of the unrolled rounds. */
  lemma RcOfClock(round: RoundMap, r: nat, n: nat, e: Engine, x: State, age: nat)
    requires n * r == 12 && age < n && e.rc == RcAfter(RC_FIRST, age * r)
    ensures var out := Unrolled(round, Chain(x, e.rc), r);
      out.rc == RcAfter(RC_FIRST, (age + 1) * r) && (out.rc == RC_LAST <==> age + 1 == n)
  {
    UnrolledRc(round, Chain(x, e.rc), r);
    RcInClocks(r, n, age, age * r, (age + 1) * r);
  }

  lemma RcInClocks(r: nat, n: nat, age: nat, m: nat, k: nat)
    requires n * r == 12 && age < n && m == age * r && k == (age + 1) * r
    ensures RcAfter(RcAfter(RC_FIRST, m), r) == RcAfter(RC_FIRST, k)
    ensures RcAfter(RC_FIRST, k) == RC_LAST <==> age + 1 == n
  {
    OneMoreClock(r, n, age, m, k);
    RcSplit(RC_FIRST, m, r);
    LastRcAfterTwelve(k);
  }

  lemma OneMoreClock(r: nat, n: nat, age: nat, m: nat, k: nat)
    requires n * r == 12 && age < n && m == age * r && k == (age + 1) * r
    ensures k == m + r <= 12 && (k == 12 <==> age + 1 == n)
  {
    RoundsDone(r, n, age + 1);
  }

  /** Under any wires, also `init` and writes during a run. */
  lemma EngineTracks(round: RoundMap, r: nat, n: nat, e: Engine, w: Wires, age: nat)
    requires n * r == 12 && Tracks(n, r, e, age)
    ensures var f, next := NextEngine(round, r, e, w), NextAge(n, age, w.start);
      && Tracks(n, r, f, next)
      && ((age > 0 || w.start) && next == 0 ==> f.valid)
      && (w.init ==> f.state == ZERO_STATE)
  {
    assert n > 0 && 0 * r == 0;
    RcOfClock(round, r, n, e, WithInputs(e.state, w), age);
  }

  // ---- every run of the core --------------------------------------------------------------

  /** Start pulses come in permutation phases only. */
  predicate PulseInPhase(f: Fsm) { f.start ==> PermPhase(f.phase) }

  lemma PulseNext(f: Fsm, l: Latched, valid: bool, i: In)
    ensures PulseInPhase(NextFsm(f, l, valid, i))
  {
  }

  lemma SystemTracks(engine: EngineClock, round: RoundMap, r: nat, n: nat, s: System, i: In, age: nat)
    requires Implements(engine, round, r) && n * r == 12 && Tracks(n, r, s.engine, age)
    ensures var e := NextSystem(engine, s, i).engine;
      && Tracks(n, r, e, NextAge(n, age, s.fsm.start))
      && ((age > 0 || s.fsm.start) && NextAge(n, age, s.fsm.start) == 0 ==> e.valid)
      && (s.fsm.phase.Waiting? && i.ena ==> e.state == ZERO_STATE)
  {
    var w := ToEngine(s.fsm, s.lat, WordOut(s.engine, s.fsm.cnt), i.ena);
    assert Edge(s.engine, w);
    StartWire(s.fsm, s.lat, WordOut(s.engine, s.fsm.cnt), i.ena);
    EngineTracks(round, r, n, s.engine, w, age);
  }

  lemma {:induction false} RunTracks(tick: Driver, engine: EngineClock, round: RoundMap, r: nat, n: nat, s: System, ins: nat -> In, k: nat)
    requires Drives(tick, engine) && Implements(engine, round, r) && n * r == 12 && Ready(s)
    ensures Tracks(n, r, RunWith(tick, s, ins, k).engine, AgeAt(tick, n, s, ins, k))
    ensures PulseInPhase(RunWith(tick, s, ins, k).fsm)
  {
    if k > 0 {
      var m, i := RunWith(tick, s, ins, k - 1), ins(k - 1);
      RunTracks(tick, engine, round, r, n, s, ins, k - 1);
      assert LookIn(m, i);
      SystemTracks(engine, round, r, n, m, i, AgeAt(tick, n, s, ins, k - 1));
      PulseNext(m.fsm, m.lat, m.engine.valid, i);
    }
  }

  lemma StartWire(f: Fsm, l: Latched, w: Word, ena: bool)
    ensures ToEngine(f, l, w, ena).start == f.start
    ensures f.phase.Waiting? && ena ==> ToEngine(f, l, w, ena).init
  {
  }

  /** A request is accepted over an idle engine if and only if no run goes on after that clock. */
  lemma AcceptsIffEnded(tick: Driver, engine: EngineClock, round: RoundMap, r: nat, n: nat, s: System, ins: nat -> In, b: nat)
    requires Drives(tick, engine) && Implements(engine, round, r) && n * r == 12 && Ready(s)
    requires RunWith(tick, s, ins, b).fsm.phase.Waiting? && ins(b).ena && !ins(b).restart
    ensures Accepts(tick, RunWith(tick, s, ins, b), ins(b)) <==> AgeAt(tick, n, s, ins, b + 1) == 0
  {
    var m, i := RunWith(tick, s, ins, b), ins(b);
    RunTracks(tick, engine, round, r, n, s, ins, b);
    RunTracks(tick, engine, round, r, n, s, ins, b + 1);
    assert LookIn(m, i);
    SystemTracks(engine, round, r, n, m, i, AgeAt(tick, n, s, ins, b));
  }

  /** In clock `k` the engine takes a start pulse: it comes while no run is under way. */
  predicate Taken(tick: Driver, n: nat, s: System, ins: nat -> In, k: nat)
  {
    RunWith(tick, s, ins, k).fsm.start && AgeAt(tick, n, s, ins, k) == 0
  }

  /** `p` is the last clock before `k` in which a pulse is taken. */
  ghost predicate LastTaken(tick: Driver, n: nat, s: System, ins: nat -> In, p: nat, k: nat)
  {
    p < k && Taken(tick, n, s, ins, p) && forall j: nat | p < j < k :: !Taken(tick, n, s, ins, j)
  }

  /** The age is the number of clocks since that pulse, until the run has had its `n`. */
  lemma {:induction false} AgeSincePulse(tick: Driver, n: nat, s: System, ins: nat -> In, p: nat, k: nat)
    requires n > 0 && LastTaken(tick, n, s, ins, p, k)
    ensures AgeAt(tick, n, s, ins, k) == if k - p < n then k - p else 0
  {
    assert k > p + 1 ==> !Taken(tick, n, s, ins, k - 1);
    if k > p + 1 {
      AgeSincePulse(tick, n, s, ins, p, k - 1);
    } else {
      assert Taken(tick, n, s, ins, k - 1);
    }
  }

  /** Every pulse taken before clock `k` is a run's length before clock `c`. */
  ghost predicate EndedBy(tick: Driver, n: nat, s: System, ins: nat -> In, k: nat, c: nat)
  {
    forall p: nat | p < k && Taken(tick, n, s, ins, p) :: c - p >= n
  }

  /** Every run the engine is in has begun with a pulse it took. */
  lemma {:induction false} AgeFromPulses(tick: Driver, n: nat, s: System, ins: nat -> In, k: nat)
    requires n > 0
    ensures AgeAt(tick, n, s, ins, k) == 0 <==> EndedBy(tick, n, s, ins, k, k)
  {
    if q: nat :| q < k && Taken(tick, n, s, ins, q) {
      var p := FindLast(tick, n, s, ins, q, k);
      AgeSincePulse(tick, n, s, ins, p, k);
    } else {
      NoneTaken(tick, n, s, ins, k);
    }
  }

  lemma {:induction false} FindLast(tick: Driver, n: nat, s: System, ins: nat -> In, q: nat, k: nat) returns (p: nat)
    requires q < k && Taken(tick, n, s, ins, q)
    ensures LastTaken(tick, n, s, ins, p, k)
  {
    if Taken(tick, n, s, ins, k - 1) {
      p := k - 1;
    } else {
      p := FindLast(tick, n, s, ins, q, k - 1);
    }
  }

  lemma {:induction false} NoneTaken(tick: Driver, n: nat, s: System, ins: nat -> In, k: nat)
    requires n > 0 && forall p: nat | p < k :: !Taken(tick, n, s, ins, p)
    ensures AgeAt(tick, n, s, ins, k) == 0
  {
    if k > 0 {
      assert !Taken(tick, n, s, ins, k - 1);
      NoneTaken(tick, n, s, ins, k - 1);
    }
  }

  // ---- restart, then a request --------------------------------------------------------------

  /** In clock `a` there is a restart, and the next request comes in clock `b`. */
  ghost predicate RestartThenRequest(ins: nat -> In, a: nat, b: nat)
  {
    a < b && ins(a).restart && ins(b).ena && !ins(b).restart && forall k: nat | a < k < b :: !ins(k).ena
  }

  /** From the restart to the request the core waits and gives no pulse. */
  lemma {:induction false} WaitsAfterRestart(tick: Driver, engine: EngineClock, s: System, ins: nat -> In, a: nat, b: nat, k: nat)
    requires Drives(tick, engine) && RestartThenRequest(ins, a, b) && a < k <= b
    ensures var m := RunWith(tick, s, ins, k); m.fsm == Fsm(Waiting, 0, false) && !m.ports.done
  {
    assert LookIn(RunWith(tick, s, ins, k - 1), ins(k - 1));
    if k > a + 1 {
      WaitsAfterRestart(tick, engine, s, ins, a, b, k - 1);
      assert !ins(k - 1).ena;
    }
  }

  /** No pulse comes between the restart and the request. */
  lemma SamePulses(tick: Driver, engine: EngineClock, n: nat, s: System, ins: nat -> In, a: nat, b: nat)
    requires Drives(tick, engine) && RestartThenRequest(ins, a, b)
    ensures EndedBy(tick, n, s, ins, a + 1, b + 1) <==> EndedBy(tick, n, s, ins, b + 1, b + 1)
  {
    forall k: nat | a < k < b + 1
      ensures !Taken(tick, n, s, ins, k)
    {
      WaitsAfterRestart(tick, engine, s, ins, a, b, k);
    }
  }

  /** In every run, whatever came before, a request after a restart is accepted
      over an idle, cleared engine if and only if each start pulse the engine
      took up to the restart is at least `n` clocks ago, the accepting clock included. */
  lemma CleanIffRunEnded(tick: Driver, engine: EngineClock, round: RoundMap, r: nat, n: nat, s: System, ins: nat -> In, a: nat, b: nat)
    requires Drives(tick, engine) && Implements(engine, round, r) && n * r == 12 && Ready(s)
    requires RestartThenRequest(ins, a, b)
    ensures Accepts(tick, RunWith(tick, s, ins, b), ins(b)) <==> EndedBy(tick, n, s, ins, a + 1, b + 1)
  {
    SamePulses(tick, engine, n, s, ins, a, b);
    WaitsAfterRestart(tick, engine, s, ins, a, b, b);
    AgeFromPulses(tick, n, s, ins, b + 1);
    AcceptsIffEnded(tick, engine, round, r, n, s, ins, b);
  }

  /** Such a request is served as any other. */
  lemma RestartedAead(tick: Driver, engine: EngineClock, round: RoundMap, r: nat, n: nat, s: System, ins: nat -> In, a: nat, b: nat)
    requires Drives(tick, engine) && Implements(engine, round, r) && n * r == 12 && Ready(s)
    requires RestartThenRequest(ins, a, b) && EndedBy(tick, n, s, ins, a + 1, b + 1)
    requires ins(b).sel != HASH && ins(b).adLen <= 16 && ins(b).dataLen <= 16
    requires forall k: nat | b <= k < b + AeadClocks(n, ins(b)) :: !ins(k).restart
    ensures forall k: nat | b < k < b + AeadClocks(n, ins(b)) :: !RunWith(tick, s, ins, k).ports.done
    ensures var f := RunWith(tick, s, ins, b + AeadClocks(n, ins(b)));
      Ready(f) && f.ports == Outcome(TwelveOf(round), ins(b), RunWith(tick, s, ins, b).res.dataOut)
  {
    CleanIffRunEnded(tick, engine, round, r, n, s, ins, a, b);
    EngineServes(engine, round, r, n);
    var later := (j: nat) => ins(b + j);
    var m := RunWith(tick, s, ins, b);
    Aead(tick, engine, TwelveOf(round), n, m, later);
    SameRun(tick, s, ins, later, b, AeadClocks(n, ins(b)));
  }

  /** The same for hashing. */
  lemma RestartedHash(tick: Driver, engine: EngineClock, round: RoundMap, r: nat, n: nat, s: System, ins: nat -> In, a: nat, b: nat)
    requires Drives(tick, engine) && Implements(engine, round, r) && n * r == 12 && Ready(s)
    requires RestartThenRequest(ins, a, b) && EndedBy(tick, n, s, ins, a + 1, b + 1)
    requires ins(b).sel == HASH && ins(b).dataLen <= 16
    requires forall k: nat | b <= k < b + HashClocks(n, ins(b)) :: !ins(k).restart
    ensures forall k: nat | b < k < b + HashClocks(n, ins(b)) :: !RunWith(tick, s, ins, k).ports.done
    ensures var f, x, p := RunWith(tick, s, ins, b + HashClocks(n, ins(b))), HashState(TwelveOf(round), ins(b).data, ins(b).dataLen), TwelveOf(round);
      Ready(f) && f.ports == Ports(true, true, Squeeze(p(XorWord(x, 0, PAD_01))), Squeeze(x))
  {
    CleanIffRunEnded(tick, engine, round, r, n, s, ins, a, b);
    EngineServes(engine, round, r, n);
    var later := (j: nat) => ins(b + j);
    var m := RunWith(tick, s, ins, b);
    Hash(tick, engine, TwelveOf(round), n, m, later);
    SameRun(tick, s, ins, later, b, HashClocks(n, ins(b)));
  }

  lemma SameRun(tick: Driver, s: System, ins: nat -> In, later: nat -> In, b: nat, clocks: nat)
    requires forall j: nat :: later(j) == ins(b + j)
    requires forall k: nat | 1 <= k < clocks :: !RunWith(tick, RunWith(tick, s, ins, b), later, k).ports.done
    ensures RunWith(tick, s, ins, b + clocks) == RunWith(tick, RunWith(tick, s, ins, b), later, clocks)
    ensures forall k: nat | b < k < b + clocks :: !RunWith(tick, s, ins, k).ports.done
  {
    RunOn(tick, s, ins, later, b, clocks);
    forall k: nat | b < k < b + clocks
      ensures !RunWith(tick, s, ins, k).ports.done
    {
      RunOn(tick, s, ins, later, b, k - b);
      assert !RunWith(tick, RunWith(tick, s, ins, b), later, k - b).ports.done;
    }
  }

  lemma EngineServes(engine: EngineClock, round: RoundMap, r: nat, n: nat)
    requires Implements(engine, round, r) && n * r == 12
    ensures Absorbs(engine) && Permutes(engine, TwelveOf(round), n)
  {
    RoundsDone(r, n, 1);
    EngineAbsorbs(engine, round, r);
    EnginePermutes(engine, round, r, n, TwelveOf(round));
  }

  // ---- an interrupted request, and one right behind it ------------------------------------------

  /** A request, a restart in the first clock of its first permutation, and the
      request again in the next clock. */
  function Interrupted(i: In, k: nat): In
  {
    if k == 0 || k == 11 then i else if k == 10 then QUIET.(restart := true) else QUIET
  }

  ghost predicate IsInterrupted(ins: nat -> In, i: In)
  {
    && i.ena && !i.restart && i.sel != HASH && i.adLen <= 16 && i.dataLen <= 16
    && forall k: nat {:trigger ins(k)} :: ins(k) == Interrupted(i, k)
  }

  /** The controller while it loads key and nonce, whatever the engine does. */
  function LoadingFsm(j: nat): Fsm
  {
    if j < 4 then Fsm(LoadKey, j, false) else if j < 8 then Fsm(LoadNonce, j, false)
    else if j == 8 then Fsm(PadNonce, 8, false) else Fsm(PermNonce, 0, true)
  }

  lemma {:induction false} LoadingRun(tick: Driver, engine: EngineClock, s: System, ins: nat -> In, c: nat, j: nat)
    requires Drives(tick, engine) && j <= 9
    requires var m := RunWith(tick, s, ins, c); m.fsm == Fsm(LoadKey, 0, false) && !m.ports.done
    requires forall k: nat | c <= k < c + j :: !ins(k).restart
    ensures var m, e := RunWith(tick, s, ins, c), RunWith(tick, s, ins, c + j);
      && e.fsm == LoadingFsm(j) && !e.ports.done
      && e.lat == if j < 9 then m.lat else m.lat.(domain := DOMAIN_ABSORB)
  {
    if j > 0 {
      LoadingRun(tick, engine, s, ins, c, j - 1);
      assert LookIn(RunWith(tick, s, ins, c + j - 1), ins(c + j - 1));
    }
  }

  lemma AcceptedFsm(tick: Driver, engine: EngineClock, s: System, ins: nat -> In, b: nat)
    requires Drives(tick, engine) && RunWith(tick, s, ins, b).fsm.phase.Waiting?
    requires ins(b).ena && !ins(b).restart && ins(b).sel != HASH
    ensures var m, i := RunWith(tick, s, ins, b + 1), ins(b);
      && m.fsm == Fsm(LoadKey, 0, false) && !m.ports.done
      && m.lat == Latched(i.key, i.nonce, i.ad, i.data, i.tag, i.adLen, i.dataLen, i.sel, DOMAIN_ABSORB_KEY)
  {
    assert LookIn(RunWith(tick, s, ins, b), ins(b));
  }

  /** The core accepts the request twice, and loads it each time. */
  lemma InterruptedFsm(tick: Driver, engine: EngineClock, s: System, ins: nat -> In, i: In, k: nat)
    requires Drives(tick, engine) && Ready(s) && IsInterrupted(ins, i) && k <= 21
    ensures var m := RunWith(tick, s, ins, k);
      && (1 <= k <= 10 ==> m.fsm == LoadingFsm(k - 1))
      && (12 <= k ==> m.fsm == LoadingFsm(k - 12) && !m.ports.done)
      && (k == 0 || k == 11 ==> m.fsm.phase.Waiting? && !m.fsm.start)
      && (12 <= k ==>
        m.lat == Latched(i.key, i.nonce, i.ad, i.data, i.tag, i.adLen, i.dataLen, i.sel, if k < 21 then DOMAIN_ABSORB_KEY else DOMAIN_ABSORB))
  {
    if k == 0 {
      assert RunWith(tick, s, ins, 0) == s;
    } else if k <= 10 {
      InterruptedFsm(tick, engine, s, ins, i, 0);
      AcceptedFsm(tick, engine, s, ins, 0);
      LoadingRun(tick, engine, s, ins, 1, k - 1);
    } else {
      WaitsAfterRestart(tick, engine, s, ins, 10, 11, 11);
      if k >= 12 {
        AcceptedFsm(tick, engine, s, ins, 11);
        LoadingRun(tick, engine, s, ins, 12, k - 12);
      }
    }
  }

  /** The engine takes the pulse of the interrupted request, in clock 10, and
      no other before clock 21. */
  lemma InterruptedPulses(tick: Driver, engine: EngineClock, n: nat, s: System, ins: nat -> In, i: In)
    requires Drives(tick, engine) && Ready(s) && IsInterrupted(ins, i) && n > 0
    ensures Taken(tick, n, s, ins, 10) && RestartThenRequest(ins, 10, 11)
    ensures forall k: nat | k < 21 && k != 10 :: !Taken(tick, n, s, ins, k)
  {
    forall k: nat | k < 21 && k != 10
      ensures !Taken(tick, n, s, ins, k)
    {
      InterruptedFsm(tick, engine, s, ins, i, k);
    }
    NoneTaken(tick, n, s, ins, 10);
    InterruptedFsm(tick, engine, s, ins, i, 10);
  }

  /** With fewer than five rounds per clock this request is accepted over a
      running engine, which permutes the first key word as soon as it is loaded. */
  lemma KeyWordIsPermuted(tick: Driver, engine: EngineClock, round: RoundMap, r: nat, n: nat, s: System, ins: nat -> In, i: In)
    requires Drives(tick, engine) && Implements(engine, round, r) && n * r == 12 && n >= 3 && Ready(s) && IsInterrupted(ins, i)
    ensures !Accepts(tick, RunWith(tick, s, ins, 11), ins(11))
    ensures var m, e := RunWith(tick, s, ins, 12), RunWith(tick, s, ins, 13);
      && m.engine.running && m.engine.state == ZERO_STATE
      && e.engine.state == Unrolled(round, Chain(XorWord(ZERO_STATE, 0, GetWord(i.key, 0)), RcAfter(RC_FIRST, 2 * r)), r).state
  {
    InterruptedPulses(tick, engine, n, s, ins, i);
    assert LastTaken(tick, n, s, ins, 10, 12);
    AgeSincePulse(tick, n, s, ins, 10, 12);
    InterruptedFsm(tick, engine, s, ins, i, 11);
    InterruptedFsm(tick, engine, s, ins, i, 12);
    AcceptsIffEnded(tick, engine, round, r, n, s, ins, 11);
    RunTracks(tick, engine, round, r, n, s, ins, 12);
    AcceptsCleared(tick, engine, round, r, s, ins, 11);
    LoadsFirstWord(tick, engine, round, r, s, ins, 12);
  }

  lemma AcceptsCleared(tick: Driver, engine: EngineClock, round: RoundMap, r: nat, s: System, ins: nat -> In, b: nat)
    requires Drives(tick, engine) && Implements(engine, round, r)
    requires RunWith(tick, s, ins, b).fsm.phase.Waiting? && ins(b).ena
    ensures RunWith(tick, s, ins, b + 1).engine.state == ZERO_STATE
  {
    var m := RunWith(tick, s, ins, b);
    assert LookIn(m, ins(b));
    assert Edge(m.engine, ToEngine(m.fsm, m.lat, WordOut(m.engine, m.fsm.cnt), ins(b).ena));
  }

  /** A running engine does its rounds on the word that is loaded. */
  lemma LoadsFirstWord(tick: Driver, engine: EngineClock, round: RoundMap, r: nat, s: System, ins: nat -> In, c: nat)
    requires Drives(tick, engine) && Implements(engine, round, r)
    requires var m := RunWith(tick, s, ins, c); m.fsm == Fsm(LoadKey, 0, false) && m.engine.running
    ensures var m := RunWith(tick, s, ins, c);
      RunWith(tick, s, ins, c + 1).engine.state
        == Unrolled(round, Chain(XorWord(m.engine.state, 0, GetWord(m.lat.key, 0)), m.engine.rc), r).state
  {
    var m := RunWith(tick, s, ins, c);
    assert LookIn(m, ins(c));
    assert Edge(m.engine, ToEngine(m.fsm, m.lat, WordOut(m.engine, m.fsm.cnt), ins(c).ena));
  }

  /** With one round per clock, the design's default, the run ends in the very
      clock of the next pulse, which is lost: the core goes on without having
      permuted key and nonce, and `done` rises eleven clocks early. */
  lemma DoneComesEarly(tick: Driver, engine: EngineClock, round: RoundMap, s: System, ins: nat -> In, i: In)
    requires Drives(tick, engine) && Implements(engine, round, 1) && Ready(s) && IsInterrupted(ins, i)
    ensures RunWith(tick, s, ins, 11 + (AeadClocks(12, i) - 11)).ports.done
  {
    LostPulse(tick, engine, round, s, ins, i);
    EngineServes(engine, round, 1, 12);
    DoneWithoutNonceRun(tick, engine, TwelveOf(round), 12, s, ins, i, 21);
  }

  lemma DoneWithoutNonceRun(tick: Driver, engine: EngineClock, p: Permutation, n: nat, s: System, ins: nat -> In, i: In, c: nat)
    requires Drives(tick, engine) && Absorbs(engine) && Permutes(engine, p, n)
    requires var a := RunWith(tick, s, ins, c + 1);
      && a.fsm == Fsm(PermNonce, 0, false) && !a.ports.done && Idle(a.engine) && a.engine.valid
      && a.lat.domain == DOMAIN_ABSORB && a.lat.adLen == i.adLen <= 16 && a.lat.dataLen == i.dataLen <= 16
    requires forall k: nat | c <= k :: !ins(k).restart
    ensures RunWith(tick, s, ins, c + Words(i.adLen) + Words(i.dataLen) + 2 * n + 11).ports.done
  {
    QuiescentTicks(tick, engine);
    var a, b := RunWith(tick, s, ins, c), RunWith(tick, s, ins, c + 1);
    var e := WithoutNonceRun(Quiescent(tick), engine, p, n, b);
    var later := (j: nat) => ins(c + j);
    var m := Words(i.adLen) + Words(i.dataLen) + 2 * n + 9;
    assert b == tick(a, later(0));
    RunToDone(tick, engine, a, later, b, m, e);
    RunOn(tick, s, ins, later, c, m + 2);
  }

  lemma LeaveAndLoadAd(next: Xoodyak.Clock, engine: EngineClock, p: Permutation, n: nat, a: System) returns (c: System)
    requires Ticks(next, engine) && Absorbs(engine) && Permutes(engine, p, n)
    requires a.fsm == Fsm(PermNonce, 0, false) && Busy(a) && Idle(a.engine) && a.engine.valid && a.lat.domain == DOMAIN_ABSORB
    requires a.lat.adLen <= 16
    ensures Reaches(next, Busy, a, Words(a.lat.adLen) + n + 3, c)
    ensures c == a.(fsm := Fsm(if a.lat.dataLen > 0 then LoadData else PadData, 0, false), lat := a.lat.(domain := ZERO), engine := c.engine)
    ensures Idle(c.engine)
  {
    var b := LeaveClock(next, engine, a);
    c := AdSegment(next, engine, p, n, b);
    ThenIn(next, Busy, a, 1, b, Words(a.lat.adLen) + n + 2, c, Words(a.lat.adLen) + n + 3);
  }

  /** From the nonce's permutation phase with a stale `valid`, to the finishing phase. */
  lemma WithoutNonceRun(next: Xoodyak.Clock, engine: EngineClock, p: Permutation, n: nat, a: System) returns (e: System)
    requires Ticks(next, engine) && Absorbs(engine) && Permutes(engine, p, n)
    requires a.fsm == Fsm(PermNonce, 0, false) && Busy(a) && Idle(a.engine) && a.engine.valid && a.lat.domain == DOMAIN_ABSORB
    requires a.lat.adLen <= 16 && a.lat.dataLen <= 16
    ensures Reaches(next, Busy, a, Words(a.lat.adLen) + Words(a.lat.dataLen) + 2 * n + 9, e)
    ensures e.fsm == Fsm(Finish, 4, false) && Idle(e.engine)
  {
    var c := LeaveAndLoadAd(next, engine, p, n, a);
    e := TailRun(next, engine, p, n, c);
    ThenIn(next, Busy, a, Words(a.lat.adLen) + n + 3, c, Words(a.lat.dataLen) + n + 6, e,
      Words(a.lat.adLen) + Words(a.lat.dataLen) + 2 * n + 9);
  }

  lemma LostPulse(tick: Driver, engine: EngineClock, round: RoundMap, s: System, ins: nat -> In, i: In)
    requires Drives(tick, engine) && Implements(engine, round, 1) && Ready(s) && IsInterrupted(ins, i)
    ensures RunWith(tick, s, ins, 21).fsm.start
    ensures var m := RunWith(tick, s, ins, 22);
      && m.fsm == Fsm(PermNonce, 0, false) && !m.ports.done && Idle(m.engine) && m.engine.valid
      && m.lat == Latched(i.key, i.nonce, i.ad, i.data, i.tag, i.adLen, i.dataLen, i.sel, DOMAIN_ABSORB)
  {
    InterruptedPulses(tick, engine, 12, s, ins, i);
    assert LastTaken(tick, 12, s, ins, 10, 21);
    AgeSincePulse(tick, 12, s, ins, 10, 21);
    RunTracks(tick, engine, round, 1, 12, s, ins, 21);
    InterruptedFsm(tick, engine, s, ins, i, 21);
    var m := RunWith(tick, s, ins, 21);
    assert LookIn(m, ins(21));
    SystemTracks(engine, round, 1, 12, m, ins(21), 11);
    assert RunWith(tick, s, ins, 21 + 1) == tick(m, ins(21));
  }
}
