/** Runs of a clocked machine, where `next` is one clock edge, and other iterations. */
module Clocked {

  function Iterate<S>(next: S -> S, s: S, n: nat): S
    decreases n, s
  {
    if n == 0 then s else next(Iterate(next, s, n - 1))
  }

  lemma {:induction false} IterateSplit<S>(next: S -> S, s: S, m: nat, n: nat)
    ensures Iterate(next, s, m + n) == Iterate(next, Iterate(next, s, m), n)
  {
    if n > 0 {
      IterateSplit(next, s, m, n - 1);
    }
  }

  /** A map that commutes with every step commutes with a whole run. */
  lemma {:induction false} IterateCommutes<S(!new)>(next: S -> S, f: S -> S, s: S, n: nat)
    requires forall x: S :: f(next(x)) == next(f(x))
    ensures f(Iterate(next, s, n)) == Iterate(next, f(s), n)
  {
    if n > 0 {
      IterateCommutes(next, f, s, n - 1);
    }
  }

  /** `n` clocks lead from `s` to `e`, and every state after the first is busy. */
  ghost predicate Reaches<S>(next: S -> S, busy: S -> bool, s: S, n: nat, e: S)
  {
    && Iterate(next, s, n) == e
    && forall m: nat | 1 <= m <= n :: busy(Iterate(next, s, m))
  }

  lemma OneClock<S>(next: S -> S, busy: S -> bool, s: S)
    requires busy(next(s))
    ensures Reaches(next, busy, s, 1, next(s))
  {
    assert Iterate(next, s, 0) == s;
  }

  lemma Then<S>(next: S -> S, busy: S -> bool, s: S, m: nat, e: S, n: nat, f: S)
    requires Reaches(next, busy, s, m, e) && Reaches(next, busy, e, n, f)
    ensures Reaches(next, busy, s, m + n, f)
  {
    IterateSplit(next, s, m, n);
    forall k: nat | 1 <= k <= m + n
      ensures busy(Iterate(next, s, k))
    {
      if k > m {
        IterateSplit(next, s, m, k - m);
      }
    }
  }

  /** `Then`, with the length of the whole run given. */
  lemma ThenIn<S>(next: S -> S, busy: S -> bool, s: S, m: nat, e: S, n: nat, f: S, total: nat)
    requires Reaches(next, busy, s, m, e) && Reaches(next, busy, e, n, f) && total == m + n
    ensures Reaches(next, busy, s, total, f)
  {
    Then(next, busy, s, m, e, n, f);
  }

  ghost predicate Follows<S>(next: S -> S, busy: S -> bool, f: nat -> S, k: nat)
  {
    next(f(k)) == f(k + 1) && busy(f(k + 1))
  }

  /** A run that follows a known sequence of busy states. */
  lemma {:induction false} Along<S>(next: S -> S, busy: S -> bool, s: S, f: nat -> S, n: nat)
    requires f(0) == s
    requires forall k: nat | k < n :: Follows(next, busy, f, k)
    ensures Reaches(next, busy, s, n, f(n))
  {
    if n > 0 {
      Along(next, busy, s, f, n - 1);
      assert Follows(next, busy, f, n - 1);
      OneClock(next, busy, f(n - 1));
      Then(next, busy, s, n - 1, f(n - 1), 1, f(n));
    }
  }

  // ---- runs driven by inputs -------------------------------------------------

  function RunWith<S, I>(tick: (S, I) -> S, s: S, ins: nat -> I, n: nat): S
    decreases n, s
  {
    if n == 0 then s else tick(RunWith(tick, s, ins, n - 1), ins(n - 1))
  }

  /** A run from clock `m` on is a run of the later inputs. */
  lemma {:induction false} RunOn<S, I>(tick: (S, I) -> S, s: S, ins: nat -> I, later: nat -> I, m: nat, n: nat)
    requires forall j: nat :: later(j) == ins(m + j)
    ensures RunWith(tick, s, ins, m + n) == RunWith(tick, RunWith(tick, s, ins, m), later, n)
  {
    if n > 0 {
      RunOn(tick, s, ins, later, m, n - 1);
    }
  }

  /** Good inputs keep `inv` until the run ends. */
  ghost predicate Keeps<S(!new), I(!new)>(tick: (S, I) -> S, inv: S -> bool, ok: (S, I) -> bool, end: S -> bool)
  {
    forall s: S, i: I :: inv(s) && ok(s, i) && !end(s) ==> inv(tick(s, i))
  }

  lemma {:induction false} KeptAlong<S(!new), I(!new)>(tick: (S, I) -> S, inv: S -> bool, ok: (S, I) -> bool, end: S -> bool,
      s: S, ins: nat -> I, m: nat, n: nat)
    requires Keeps(tick, inv, ok, end) && m <= n && inv(RunWith(tick, s, ins, m))
    requires forall k: nat | m <= k < n :: ok(RunWith(tick, s, ins, k), ins(k)) && !end(RunWith(tick, s, ins, k))
    ensures inv(RunWith(tick, s, ins, n))
  {
    if m < n {
      KeptAlong(tick, inv, ok, end, s, ins, m, n - 1);
    }
  }

  ghost predicate Descends<S(!new), I(!new)>(tick: (S, I) -> S, inv: S -> bool, ok: (S, I) -> bool, end: S -> bool, rank: S -> nat)
  {
    forall s: S, i: I :: inv(s) && ok(s, i) && !end(s) ==> rank(tick(s, i)) < rank(s)
  }

  /** A run that descends under good inputs ends. */
  lemma {:induction false} Ends<S(!new), I(!new)>(tick: (S, I) -> S, inv: S -> bool, ok: (S, I) -> bool, end: S -> bool, rank: S -> nat,
      s: S, ins: nat -> I, m: nat) returns (n: nat)
    requires Keeps(tick, inv, ok, end) && Descends(tick, inv, ok, end, rank) && inv(RunWith(tick, s, ins, m))
    requires forall k: nat | m <= k :: ok(RunWith(tick, s, ins, k), ins(k))
    ensures m <= n && end(RunWith(tick, s, ins, n))
    ensures forall k: nat | m <= k < n :: !end(RunWith(tick, s, ins, k))
    decreases rank(RunWith(tick, s, ins, m))
  {
    if end(RunWith(tick, s, ins, m)) {
      n := m;
    } else {
      assert RunWith(tick, s, ins, m + 1) == tick(RunWith(tick, s, ins, m), ins(m));
      n := Ends(tick, inv, ok, end, rank, s, ins, m + 1);
    }
  }
}
