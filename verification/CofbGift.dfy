/** The GIFT-COFB core with its GIFT-128 engine: the results about the core
    around a cipher, carried over to whole runs of the two together. */
module CofbGift {
  import opened Bits
  import opened Clocked
  import opened CofbMode
  import opened CofbCore
  import opened Gift128

  type GiftTick = (Concrete, In) -> Concrete

  predicate Look(x: Concrete, i: In) { true }

  /** `tick` is the clock edge of core and engine; asserting `Look(x, i)` looks at it. */
  ghost predicate Implements(tick: GiftTick, w: Maps, f: RoundFunction)
  {
    forall x: Concrete, i: In {:trigger Look(x, i)} :: tick(x, i) == NextConcrete(w, f, x, i)
  }

  function GiftOutputs(x: Concrete): Outputs { x.core.out }

  /** The requests for associated data acknowledged before clock `n`. */
  function AdAcks(tick: GiftTick, x: Concrete, ins: nat -> In, n: nat): nat
    decreases n, x
  {
    if n == 0 then 0
    else AdAcks(tick, x, ins, n - 1) + if RunWith(tick, x, ins, n - 1).core.phase == ReqAd && ins(n - 1).adAck then 1 else 0
  }

  /** The requests for message blocks acknowledged before clock `n`. */
  function MsgAcks(tick: GiftTick, x: Concrete, ins: nat -> In, n: nat): nat
    decreases n, x
  {
    if n == 0 then 0
    else MsgAcks(tick, x, ins, n - 1) + if RunWith(tick, x, ins, n - 1).core.phase == ReqMsg && ins(n - 1).msgAck then 1 else 0
  }

  const NO_JOB: Job := Job(Zeros(128), Zeros(128), 0, false, false, Zeros(128))

  /** What the user of core and engine has to go by in clock `n`. */
  function Seen(tick: GiftTick, x: Concrete, ins: nat -> In, n: nat): System
  {
    System(RunWith(tick, x, ins, n).core, NO_JOB, AdAcks(tick, x, ins, n), MsgAcks(tick, x, ins, n), [])
  }

  /** As `Served`, for core and engine. */
  ghost predicate GiftServed(tick: GiftTick, r: Request, x: Concrete, ins: nat -> In, n: nat)
  {
    && ins(0).start
    && (forall m: nat | m < n :: Serves(r, Seen(tick, x, ins, m), ins(m)))
    && (forall m: nat | 1 <= m < n :: RunWith(tick, x, ins, m).core.phase != Done)
  }

  /** Core and engine as a reset leaves them. */
  predicate FreshGift(x: Concrete)
  {
    x.core.phase == Idle && !x.core.ch.giftStart && !x.engine.busy && !x.engine.done
  }

  /** The core around the job view that starts like `x`. */
  function JobView(x: Concrete): System
  {
    System(x.core, NO_JOB.(out := x.engine.ciphertext), 0, 0, [])
  }

  function JobTick(w: Maps, f: RoundFunction): Tick
  {
    (s: System, i: In) => NextSystem(w, CipherOf(f), s, i)
  }

  /** Every run of core and engine follows a run of the core around a cipher, in
      registers, acknowledgements and blocks shown. */
  lemma {:induction false} RunFollows(tick: GiftTick, job: Tick, w: Maps, f: RoundFunction, x: Concrete, s: System, ins: nat -> In, n: nat)
    requires Implements(tick, w, f) && IsCore(job, w, CipherOf(f)) && FreshGift(x) && s == JobView(x)
    ensures var c, a := RunWith(tick, x, ins, n), RunWith(job, s, ins, n);
      && Realizes(f, c, a) && a.adAcks == AdAcks(tick, x, ins, n) && a.msgAcks == MsgAcks(tick, x, ins, n)
    ensures Shown(tick, GiftOutputs, x, ins, n) == Shown(job, OutputsOf, s, ins, n)
  {
    if n == 0 {
      assert RunWith(tick, x, ins, 0) == x && RunWith(job, s, ins, 0) == s;
    } else {
      RunFollows(tick, job, w, f, x, s, ins, n - 1);
      var c, a := RunWith(tick, x, ins, n - 1), RunWith(job, s, ins, n - 1);
      assert Look(c, ins(n - 1)) && Edge(a, ins(n - 1));
      ConcreteFollows(w, f, c, a, ins(n - 1));
      AcksFollow(w, CipherOf(f), a, ins(n - 1));
    }
  }

  lemma AcksFollow(w: Maps, cipher: KeyedCipher, s: System, i: In)
    ensures var n := NextSystem(w, cipher, s, i);
      && n.adAcks == s.adAcks + (if s.core.phase == ReqAd && i.adAck then 1 else 0)
      && n.msgAcks == s.msgAcks + (if s.core.phase == ReqMsg && i.msgAck then 1 else 0)
  {
  }

  lemma JobServed(tick: GiftTick, job: Tick, w: Maps, f: RoundFunction, r: Request, x: Concrete, s: System, ins: nat -> In, n: nat)
    requires Implements(tick, w, f) && IsCore(job, w, CipherOf(f)) && FreshGift(x) && s == JobView(x)
    requires GiftServed(tick, r, x, ins, n)
    ensures Served(job, r, s, ins, n)
  {
    forall m: nat | m < n
      ensures Serves(r, RunWith(job, s, ins, m), ins(m)) && (1 <= m ==> RunWith(job, s, ins, m).core.phase != Done)
    {
      RunFollows(tick, job, w, f, x, s, ins, m);
      assert Serves(r, Seen(tick, x, ins, m), ins(m));
    }
  }

  /** A query that core and engine have served to the end: the user has served
      the first `n` clocks and the next. */
  ghost predicate Finished(tick: GiftTick, w: Maps, f: RoundFunction, r: Request, x: Concrete, ins: nat -> In, n: nat)
  {
    && Implements(tick, w, f) && FreshGift(x) && n >= 1 && GiftServed(tick, r, x, ins, n)
    && RunWith(tick, x, ins, n).core.phase == Done && Serves(r, Seen(tick, x, ins, n), ins(n))
  }

  lemma JobFinished(tick: GiftTick, job: Tick, w: Maps, f: RoundFunction, r: Request, x: Concrete, s: System, ins: nat -> In, n: nat)
    requires Finished(tick, w, f, r, x, ins, n) && IsCore(job, w, CipherOf(f)) && s == JobView(x)
    ensures Fresh(s) && Served(job, r, s, ins, n) && RunWith(job, s, ins, n).core.phase == Done && Serves(r, RunWith(job, s, ins, n), ins(n))
  {
    JobServed(tick, job, w, f, r, x, s, ins, n);
    RunFollows(tick, job, w, f, x, s, ins, n);
  }

  lemma SameEnd(tick: GiftTick, job: Tick, w: Maps, f: RoundFunction, x: Concrete, s: System, ins: nat -> In, n: nat)
    requires Implements(tick, w, f) && IsCore(job, w, CipherOf(f)) && FreshGift(x) && s == JobView(x)
    ensures RunWith(tick, x, ins, n + 1).core == RunWith(job, s, ins, n + 1).core
    ensures Shown(tick, GiftOutputs, x, ins, n + 1) == Shown(job, OutputsOf, s, ins, n + 1)
    ensures AdAcks(tick, x, ins, n) == RunWith(job, s, ins, n).adAcks
  {
    RunFollows(tick, job, w, f, x, s, ins, n);
    RunFollows(tick, job, w, f, x, s, ins, n + 1);
  }

  lemma JobOutcome(tick: GiftTick, job: Tick, w: Maps, f: RoundFunction, r: Request, x: Concrete, s: System, ins: nat -> In, n: nat)
    requires Suits(w, CipherOf(f), r) && Finished(tick, w, f, r, x, ins, n) && IsCore(job, w, CipherOf(f)) && s == JobView(x)
    ensures var shown := Shown(job, OutputsOf, s, ins, n + 1);
      |shown| == MsgBlocks(r.q.msgLen) && forall k: nat | k < |shown| :: shown[k] == Out(w, r.q, k)
    ensures RunWith(job, s, ins, n).adAcks == AdBlocks(r.q.adLen) - 1
    ensures var o := RunWith(job, s, ins, n + 1).core.out;
      o.done && o.tagOut == Tag(w, r.q) && o.valid == (!r.q.decrypt || Tag(w, r.q) == r.tagIn)
  {
    JobFinished(tick, job, w, f, r, x, s, ins, n);
    Outcome(job, w, CipherOf(f), r, s, ins, n);
  }

  /** With the GIFT-128 engine, for any round function: what is shown at the data
      port are the ceil(m/16) blocks of the mode over the engine's cipher, in
      order, with tag and verdict. */
  lemma GiftOutcome(tick: GiftTick, w: Maps, f: RoundFunction, r: Request, x: Concrete, ins: nat -> In, n: nat)
    requires Suits(w, CipherOf(f), r) && Finished(tick, w, f, r, x, ins, n)
    ensures var shown := Shown(tick, GiftOutputs, x, ins, n + 1);
      |shown| == MsgBlocks(r.q.msgLen) && forall k: nat | k < |shown| :: shown[k] == Out(w, r.q, k)
    ensures AdAcks(tick, x, ins, n) == AdBlocks(r.q.adLen) - 1
    ensures var o := RunWith(tick, x, ins, n + 1).core.out;
      o.done && o.tagOut == Tag(w, r.q) && o.valid == (!r.q.decrypt || Tag(w, r.q) == r.tagIn)
  {
    var job, s := JobTick(w, f), JobView(x);
    assert IsCore(job, w, CipherOf(f));
    JobOutcome(tick, job, w, f, r, x, s, ins, n);
    SameEnd(tick, job, w, f, x, s, ins, n);
  }

  /** With the GIFT-128 engine: decrypting what was shown for a message, with its
      tag, shows the message again, cut to its valid bytes, and accepts the tag. */
  lemma GiftRoundTrip(tick: GiftTick, f: RoundFunction, r: Request, x: Concrete, ins: nat -> In, n: nat,
      r': Request, x': Concrete, ins': nat -> In, n': nat)
    requires r.Valid() && !r.q.decrypt && Finished(tick, CofbOf(CipherOf(f), r.key), f, r, x, ins, n)
    requires var shown := Shown(tick, GiftOutputs, x, ins, n + 1);
      && r'.key == r.key && r'.tagIn == RunWith(tick, x, ins, n + 1).core.out.tagOut
      && r'.q == r.q.(decrypt := true, msg := r'.q.msg)
      && forall k: nat | k < |shown| :: r'.q.msg(k) == shown[k]
    requires Finished(tick, CofbOf(CipherOf(f), r.key), f, r', x', ins', n')
    ensures var shown := Shown(tick, GiftOutputs, x', ins', n' + 1);
      && |shown| == MsgBlocks(r.q.msgLen)
      && forall k: nat | k < |shown| :: shown[k] == Truncate(r.q.msg(k), Bytes(Left(r.q.msgLen, k)))
    ensures RunWith(tick, x', ins', n' + 1).core.out.valid
  {
    var w := CofbOf(CipherOf(f), r.key);
    CofbSuits(CipherOf(f), r);
    CofbSuits(CipherOf(f), r');
    GiftOutcome(tick, w, f, r, x, ins, n);
    GiftOutcome(tick, w, f, r', x', ins', n');
    CofbReversible((b: Block) => CipherOf(f)(r.key, b));
    DecryptionInverts(w, r'.q, r.q);
  }
}
