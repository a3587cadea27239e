/** The Xoodoo round bit by bit: where each step takes every bit of the state,
    and chi as its table on columns of three bits. */
module XoodooColumns {
  import opened Bits
  import opened Xoodoo

  /** Bit `z` of the word of column `x` in plane `y`. */
  predicate StateBit(s: State, y: nat, x: nat, z: nat)
    requires y < 3 && x < 4 && z < 32
  {
    s[4 * y + x][z]
  }

  predicate PlaneBit(t: Planes, y: nat, x: nat, z: nat)
    requires y < 3 && x < 4 && z < 32
  {
    if y == 0 then t.a[x][z] else if y == 1 then t.b[x][z] else t.c[x][z]
  }

  lemma UnpackBit(s: State, y: nat, x: nat, z: nat)
    requires y < 3 && x < 4 && z < 32
    ensures PlaneBit(Unpack(s), y, x, z) == StateBit(s, y, x, z)
  {
  }

  lemma PackBit(t: Planes, y: nat, x: nat, z: nat)
    requires y < 3 && x < 4 && z < 32
    ensures StateBit(Pack(t), y, x, z) == PlaneBit(t, y, x, z)
  {
    PackWord(t, y, x);
  }

  lemma PackWord(t: Planes, y: nat, x: nat)
    requires y < 3 && x < 4
    ensures Pack(t)[4 * y + x] == if y == 0 then t.a[x] else if y == 1 then t.b[x] else t.c[x]
  {
  }

  // ---- the linear steps ------------------------------------------------------------------

  lemma RotatedBit(w: Word, n: nat, z: nat)
    requires n < 32 && z < 32
    ensures RotateLeft(w, n)[z] == w[(z + 32 - n) % 32]
  {
  }

  lemma RotatedPlane(p: Plane, n: nat, x: nat)
    requires n < 32 && x < 4
    ensures RotatePlane(p, n)[x] == RotateLeft(p[x], n)
  {
  }

  lemma ShiftedPlane(p: Plane, n: nat, x: nat)
    requires n < 4 && x < 4
    ensures ShiftPlane(p, n)[x] == p[(x + 4 - n) % 4]
  {
  }

  lemma SummedPlane(p: Plane, q: Plane, x: nat)
    requires x < 4
    ensures XorPlane(p, q)[x] == Xor(p[x], q[x])
  {
  }

  /** The sum of the three bits of a column. */
  predicate Odd(t: Planes, x: nat, z: nat)
    requires x < 4 && z < 32
  {
    (PlaneBit(t, 0, x, z) != PlaneBit(t, 1, x, z)) != PlaneBit(t, 2, x, z)
  }

  lemma ParityBit(t: Planes, x: nat, z: nat)
    requires x < 4 && z < 32
    ensures Parity(t)[x][z] == Odd(t, x, z)
  {
    SummedPlane(t.a, t.b, x);
    SummedPlane(XorPlane(t.a, t.b), t.c, x);
  }

  lemma EffectBit(p: Plane, x: nat, z: nat)
    requires x < 4 && z < 32
    ensures Effect(p)[x][z] == (p[(x + 3) % 4][(z + 27) % 32] != p[(x + 3) % 4][(z + 18) % 32])
  {
    var q := ShiftPlane(p, 1);
    ShiftedPlane(p, 1, x);
    RotatedPlane(q, 5, x);
    RotatedPlane(q, 14, x);
    SummedPlane(RotatePlane(q, 5), RotatePlane(q, 14), x);
    RotatedBit(q[x], 5, z);
    RotatedBit(q[x], 14, z);
  }

  /** Every bit gets the parities of two bits of the column before, 5 and 14 places down. */
  lemma ThetaBit(t: Planes, y: nat, x: nat, z: nat)
    requires y < 3 && x < 4 && z < 32
    ensures PlaneBit(Theta(t), y, x, z)
         == (PlaneBit(t, y, x, z) != (Odd(t, (x + 3) % 4, (z + 27) % 32) != Odd(t, (x + 3) % 4, (z + 18) % 32)))
  {
    var e := Effect(Parity(t));
    SummedPlane(t.a, e, x);
    SummedPlane(t.b, e, x);
    SummedPlane(t.c, e, x);
    EffectBit(Parity(t), x, z);
    ParityBit(t, (x + 3) % 4, (z + 27) % 32);
    ParityBit(t, (x + 3) % 4, (z + 18) % 32);
  }

  /** Plane 1 moves by one column, plane 2 by 11 places. */
  lemma RhoWestBit(t: Planes, x: nat, z: nat)
    requires x < 4 && z < 32
    ensures PlaneBit(RhoWest(t), 0, x, z) == PlaneBit(t, 0, x, z)
    ensures PlaneBit(RhoWest(t), 1, x, z) == PlaneBit(t, 1, (x + 3) % 4, z)
    ensures PlaneBit(RhoWest(t), 2, x, z) == PlaneBit(t, 2, x, (z + 21) % 32)
  {
    ShiftedPlane(t.b, 1, x);
    RotatedPlane(t.c, 11, x);
    RotatedBit(t.c[x], 11, z);
  }

  /** Exactly the bits of the constant are inverted, in word 0. */
  lemma IotaBit(t: Planes, rc: Word, y: nat, x: nat, z: nat)
    requires y < 3 && x < 4 && z < 32
    ensures PlaneBit(Iota(t, rc), y, x, z) == (PlaneBit(t, y, x, z) != (y == 0 && x == 0 && rc[z]))
  {
  }

  /** Plane 1 moves by one place, plane 2 by two columns and 8 places. */
  lemma RhoEastBit(t: Planes, x: nat, z: nat)
    requires x < 4 && z < 32
    ensures PlaneBit(RhoEast(t), 0, x, z) == PlaneBit(t, 0, x, z)
    ensures PlaneBit(RhoEast(t), 1, x, z) == PlaneBit(t, 1, x, (z + 31) % 32)
    ensures PlaneBit(RhoEast(t), 2, x, z) == PlaneBit(t, 2, (x + 2) % 4, (z + 24) % 32)
  {
    RotatedPlane(t.b, 1, x);
    RotatedBit(t.b[x], 1, z);
    var q := ShiftPlane(t.c, 2);
    ShiftedPlane(t.c, 2, x);
    RotatedPlane(q, 8, x);
    RotatedBit(q[x], 8, z);
  }

  // ---- the nonlinear step ------------------------------------------------------------------

  /** What chi makes of a column, read with plane 0 lowest. */
  const CHI_TABLE: seq<nat> := [0, 3, 6, 1, 5, 4, 2, 7]

  function Column(t: Planes, x: nat, z: nat): (v: nat)
    requires x < 4 && z < 32
    ensures v < 8
  {
    (if PlaneBit(t, 0, x, z) then 1 else 0) + (if PlaneBit(t, 1, x, z) then 2 else 0) + (if PlaneBit(t, 2, x, z) then 4 else 0)
  }

  lemma ChiWordAt(a: Plane, b: Plane, c: Plane, x: nat)
    requires x < 4
    ensures ChiPlane(a, b, c)[x] == ChiWord(a[x], b[x], c[x])
  {
  }

  /** Chi works on each column by itself, and there it is a table of eight values. */
  lemma ChiColumn(t: Planes, x: nat, z: nat)
    requires x < 4 && z < 32
    ensures Column(Chi(t), x, z) == CHI_TABLE[Column(t, x, z)]
  {
    ChiBits(t, x, z);
  }

  lemma ChiBits(t: Planes, x: nat, z: nat)
    requires x < 4 && z < 32
    ensures var a, b, c := PlaneBit(t, 0, x, z), PlaneBit(t, 1, x, z), PlaneBit(t, 2, x, z);
      && PlaneBit(Chi(t), 0, x, z) == (a != (!b && c))
      && PlaneBit(Chi(t), 1, x, z) == (b != (!c && a))
      && PlaneBit(Chi(t), 2, x, z) == (c != (!a && b))
  {
    ChiWordAt(t.a, t.b, t.c, x);
    ChiWordAt(t.b, t.c, t.a, x);
    ChiWordAt(t.c, t.a, t.b, x);
  }

  // ---- the round ---------------------------------------------------------------------------

  /** A bit of the state after theta. */
  predicate Diffused(s: State, y: nat, x: nat, z: nat)
    requires y < 3 && x < 4 && z < 32
  {
    StateBit(s, y, x, z) != (OddColumn(s, (x + 3) % 4, (z + 27) % 32) != OddColumn(s, (x + 3) % 4, (z + 18) % 32))
  }

  predicate OddColumn(s: State, x: nat, z: nat)
    requires x < 4 && z < 32
  {
    (s[x][z] != s[4 + x][z]) != s[8 + x][z]
  }

  /** The column that chi works on: three bits after theta, moved, and the constant. */
  function Before(s: State, rc: Word, x: nat, z: nat): (v: nat)
    requires x < 4 && z < 32
    ensures v < 8
  {
    (if Diffused(s, 0, x, z) != (x == 0 && rc[z]) then 1 else 0)
    + (if Diffused(s, 1, (x + 3) % 4, z) then 2 else 0)
    + (if Diffused(s, 2, x, (z + 21) % 32) then 4 else 0)
  }

  lemma DiffusedBit(s: State, y: nat, x: nat, z: nat)
    requires y < 3 && x < 4 && z < 32
    ensures PlaneBit(Theta(Unpack(s)), y, x, z) == Diffused(s, y, x, z)
  {
    ThetaBit(Unpack(s), y, x, z);
    UnpackBit(s, y, x, z);
    OddUnpacked(s, (x + 3) % 4, (z + 27) % 32);
    OddUnpacked(s, (x + 3) % 4, (z + 18) % 32);
  }

  lemma OddUnpacked(s: State, x: nat, z: nat)
    requires x < 4 && z < 32
    ensures Odd(Unpack(s), x, z) == OddColumn(s, x, z)
  {
    UnpackBit(s, 0, x, z);
    UnpackBit(s, 1, x, z);
    UnpackBit(s, 2, x, z);
  }

  lemma BeforeChi(s: State, rc: Word, x: nat, z: nat)
    requires x < 4 && z < 32
    ensures Column(Iota(RhoWest(Theta(Unpack(s))), rc), x, z) == Before(s, rc, x, z)
  {
    var t := Theta(Unpack(s));
    DiffusedBit(s, 0, x, z);
    DiffusedBit(s, 1, (x + 3) % 4, z);
    DiffusedBit(s, 2, x, (z + 21) % 32);
    RhoWestBit(t, x, z);
    IotaBit(RhoWest(t), rc, 0, x, z);
    IotaBit(RhoWest(t), rc, 1, x, z);
    IotaBit(RhoWest(t), rc, 2, x, z);
  }

  /** Every bit of the state after a round: the table's bit for one column, moved. */
  lemma RoundBit(s: State, rc: Word, x: nat, z: nat)
    requires x < 4 && z < 32
    ensures StateBit(Round(s, rc), 0, x, z) == (CHI_TABLE[Before(s, rc, x, z)] % 2 == 1)
    ensures StateBit(Round(s, rc), 1, x, z) == (CHI_TABLE[Before(s, rc, x, (z + 31) % 32)] / 2 % 2 == 1)
    ensures StateBit(Round(s, rc), 2, x, z) == (CHI_TABLE[Before(s, rc, (x + 2) % 4, (z + 24) % 32)] / 4 == 1)
  {
    var t := Iota(RhoWest(Theta(Unpack(s))), rc);
    PackBit(RhoEast(Chi(t)), 0, x, z);
    PackBit(RhoEast(Chi(t)), 1, x, z);
    PackBit(RhoEast(Chi(t)), 2, x, z);
    RhoEastBit(Chi(t), x, z);
    AfterChi(s, rc, t, x, z);
    AfterChi(s, rc, t, x, (z + 31) % 32);
    AfterChi(s, rc, t, (x + 2) % 4, (z + 24) % 32);
  }

  lemma AfterChi(s: State, rc: Word, t: Planes, x: nat, z: nat)
    requires x < 4 && z < 32 && t == Iota(RhoWest(Theta(Unpack(s))), rc)
    ensures var v := CHI_TABLE[Before(s, rc, x, z)];
      && PlaneBit(Chi(t), 0, x, z) == (v % 2 == 1)
      && PlaneBit(Chi(t), 1, x, z) == (v / 2 % 2 == 1)
      && PlaneBit(Chi(t), 2, x, z) == (v / 4 == 1)
  {
    BeforeChi(s, rc, x, z);
    ChiColumn(t, x, z);
    ColumnBits(Chi(t), x, z);
  }

  lemma ColumnBits(t: Planes, x: nat, z: nat)
    requires x < 4 && z < 32
    ensures var v := Column(t, x, z);
      && PlaneBit(t, 0, x, z) == (v % 2 == 1)
      && PlaneBit(t, 1, x, z) == (v / 2 % 2 == 1)
      && PlaneBit(t, 2, x, z) == (v / 4 == 1)
  {
  }
}
