/** The Xoodoo round on 384-bit states, its loops over word arrays, and its
    explicit inverse. */
module Xoodoo {
  import opened Bits
  import opened Clocked

  const ZERO: Word := Zeros(32)

  /** Twelve words: word `x` of plane `y` has index `4 * y + x`. */
  type State = s: seq<Word> | |s| == 12 witness seq(12, _ => ZERO)

  /** One word per column. */
  type Plane = p: seq<Word> | |p| == 4 witness [ZERO, ZERO, ZERO, ZERO]

  datatype Planes = Planes(a: Plane, b: Plane, c: Plane)

  function Unpack(s: State): Planes { Planes(s[..4], s[4..8], s[8..]) }

  function Pack(t: Planes): State { t.a + t.b + t.c }

  lemma PackInverse(s: State, t: Planes)
    ensures Pack(Unpack(s)) == s && Unpack(Pack(t)) == t
  {
  }

  function RotateLeft(w: Word, n: nat): Word
    requires n < 32
  {
    w[32 - n..] + w[..32 - n]
  }

  // ---- plane operations ------------------------------------------------------------

  function XorPlane(p: Plane, q: Plane): Plane
  {
    [Xor(p[0], q[0]), Xor(p[1], q[1]), Xor(p[2], q[2]), Xor(p[3], q[3])]
  }

  /** Column `x` takes the word of column `x - n`. */
  function ShiftPlane(p: Plane, n: nat): Plane
    requires n < 4
  {
    p[4 - n..] + p[..4 - n]
  }

  function RotatePlane(p: Plane, n: nat): Plane
    requires n < 32
  {
    [RotateLeft(p[0], n), RotateLeft(p[1], n), RotateLeft(p[2], n), RotateLeft(p[3], n)]
  }

  function ChiWord(a: Word, b: Word, c: Word): Word
  {
    Xor(a, And(Not(b), c))
  }

  function ChiPlane(a: Plane, b: Plane, c: Plane): Plane
  {
    [ChiWord(a[0], b[0], c[0]), ChiWord(a[1], b[1], c[1]), ChiWord(a[2], b[2], c[2]), ChiWord(a[3], b[3], c[3])]
  }

  // ---- the five steps --------------------------------------------------------------

  function Parity(t: Planes): Plane
  {
    XorPlane(XorPlane(t.a, t.b), t.c)
  }

  /** What theta adds to every plane of a state with parity `p`. */
  function Effect(p: Plane): Plane
  {
    var q := ShiftPlane(p, 1);
    XorPlane(RotatePlane(q, 5), RotatePlane(q, 14))
  }

  function AddToPlanes(t: Planes, e: Plane): Planes
  {
    Planes(XorPlane(t.a, e), XorPlane(t.b, e), XorPlane(t.c, e))
  }

  function Theta(t: Planes): Planes
  {
    AddToPlanes(t, Effect(Parity(t)))
  }

  function RhoWest(t: Planes): Planes
  {
    Planes(t.a, ShiftPlane(t.b, 1), RotatePlane(t.c, 11))
  }

  function Iota(t: Planes, rc: Word): Planes
  {
    t.(a := t.a[0 := Xor(t.a[0], rc)])
  }

  function Chi(t: Planes): Planes
  {
    Planes(ChiPlane(t.a, t.b, t.c), ChiPlane(t.b, t.c, t.a), ChiPlane(t.c, t.a, t.b))
  }

  function RhoEast(t: Planes): Planes
  {
    Planes(t.a, RotatePlane(t.b, 1), RotatePlane(ShiftPlane(t.c, 2), 8))
  }

  function RoundPlanes(t: Planes, rc: Word): Planes
  {
    RhoEast(Chi(Iota(RhoWest(Theta(t)), rc)))
  }

  function Round(s: State, rc: Word): State
  {
    Pack(RoundPlanes(Unpack(s), rc))
  }

  // ---- the loops of the combinational blocks ------------------------------------------

  method ParityLoop(t: Planes) returns (p: Plane)
    ensures p == Parity(t)
  {
    var out := new Word[4];
    for x := 0 to 4
      invariant out[..x] == Parity(t)[..x]
    {
      out[x] := Xor(Xor(t.a[x], t.b[x]), t.c[x]);
    }
    p := out[..];
  }

  method EffectLoop(p: Plane) returns (e: Plane)
    ensures e == Effect(p)
  {
    var out := new Word[4];
    for x := 0 to 4
      invariant out[..x] == Effect(p)[..x]
    {
      var q := p[(x + 3) % 4];
      out[x] := Xor(RotateLeft(q, 5), RotateLeft(q, 14));
    }
    e := out[..];
  }

  method AddLoop(t: Planes, e: Plane) returns (u: Planes)
    ensures u == AddToPlanes(t, e)
  {
    var out0, out1, out2 := new Word[4], new Word[4], new Word[4];
    for x := 0 to 4
      invariant out0[..x] == AddToPlanes(t, e).a[..x] && out1[..x] == AddToPlanes(t, e).b[..x] && out2[..x] == AddToPlanes(t, e).c[..x]
    {
      out0[x], out1[x], out2[x] := Xor(t.a[x], e[x]), Xor(t.b[x], e[x]), Xor(t.c[x], e[x]);
    }
    u := Planes(out0[..], out1[..], out2[..]);
  }

  method RhoWestLoop(t: Planes) returns (u: Planes)
    ensures u == RhoWest(t)
  {
    var out0, out1, out2 := new Word[4], new Word[4], new Word[4];
    for x := 0 to 4
      invariant out0[..x] == RhoWest(t).a[..x] && out1[..x] == RhoWest(t).b[..x] && out2[..x] == RhoWest(t).c[..x]
    {
      out0[x], out1[x], out2[x] := t.a[x], t.b[(x + 3) % 4], RotateLeft(t.c[x], 11);
    }
    u := Planes(out0[..], out1[..], out2[..]);
  }

  method ChiLoop(t: Planes) returns (u: Planes)
    ensures u == Chi(t)
  {
    var out0, out1, out2 := new Word[4], new Word[4], new Word[4];
    for x := 0 to 4
      invariant out0[..x] == Chi(t).a[..x] && out1[..x] == Chi(t).b[..x] && out2[..x] == Chi(t).c[..x]
    {
      var b0 := And(Not(t.b[x]), t.c[x]);
      var b1 := And(Not(t.c[x]), t.a[x]);
      var b2 := And(Not(t.a[x]), t.b[x]);
      out0[x], out1[x], out2[x] := Xor(t.a[x], b0), Xor(t.b[x], b1), Xor(t.c[x], b2);
    }
    u := Planes(out0[..], out1[..], out2[..]);
  }

  method RhoEastLoop(t: Planes) returns (u: Planes)
    ensures u == RhoEast(t)
  {
    var out0, out1, out2 := new Word[4], new Word[4], new Word[4];
    for x := 0 to 4
      invariant out0[..x] == RhoEast(t).a[..x] && out1[..x] == RhoEast(t).b[..x] && out2[..x] == RhoEast(t).c[..x]
    {
      out0[x], out1[x], out2[x] := t.a[x], RotateLeft(t.b[x], 1), RotateLeft(t.c[(x + 2) % 4], 8);
    }
    u := Planes(out0[..], out1[..], out2[..]);
  }

  /** The blocks of the round, in order. */
  method RoundBlocks(s: State, rc: Word) returns (out: State)
    ensures out == Round(s, rc)
  {
    var t := Unpack(s);
    var p := ParityLoop(t);
    var e := EffectLoop(p);
    t := AddLoop(t, e);
    t := RhoWestLoop(t);
    t := t.(a := t.a[0 := Xor(t.a[0], rc)]);
    t := ChiLoop(t);
    t := RhoEastLoop(t);
    out := Pack(t);
  }
  // ---- theta acts on the parity as 1 + m, of order 32 ---------------------------------

  type Mix = (Word, Word) -> Word

  /** Mixes every column with the one `s` places before it. */
  function MixColumns(mix: Mix, p: Plane, s: nat): Plane
    requires s < 4
  {
    [mix(p[0], p[(4 - s) % 4]), mix(p[1], p[(5 - s) % 4]), mix(p[2], p[(6 - s) % 4]), mix(p[3], p[(7 - s) % 4])]
  }

  /** The identity plus the rotations by `a` and `b`. */
  function OnePlus(a: nat, b: nat): Mix
    requires a < 32 && b < 32
  {
    (v: Word, w: Word) => Xor(v, Xor(RotateLeft(w, a), RotateLeft(w, b)))
  }

  lemma RotationsAdd(w: Word, a: nat, b: nat)
    requires a < 32 && b < 32
    ensures RotateLeft(RotateLeft(w, a), b) == RotateLeft(w, (a + b) % 32)
  {
  }

  lemma RotateXor(v: Word, w: Word, n: nat)
    requires n < 32
    ensures RotateLeft(Xor(v, w), n) == Xor(RotateLeft(v, n), RotateLeft(w, n))
  {
  }

  ghost predicate Squares(mix: Mix, square: Mix)
  {
    forall u: Word, v: Word, w: Word {:trigger mix(mix(u, v), mix(v, w))} :: mix(mix(u, v), mix(v, w)) == square(u, w)
  }

  /** Mixing twice doubles the distance. */
  lemma MixTwice(mix: Mix, square: Mix, p: Plane, s: nat)
    requires s < 4 && Squares(mix, square)
    ensures MixColumns(mix, MixColumns(mix, p, s), s) == MixColumns(square, p, (s + s) % 4)
  {
    var q := MixColumns(mix, p, s);
    forall x: nat | x < 4
      ensures [MixColumns(mix, q, s)[x]] == [MixColumns(square, p, (s + s) % 4)[x]]
    {
      var y := (x + 4 - s) % 4;
      var z := (y + 4 - s) % 4;
      assert z == (x + 4 - (s + s) % 4) % 4;
      MixColumn(mix, p, s, x);
      MixColumn(mix, p, s, y);
      MixColumn(mix, q, s, x);
      MixColumn(square, p, (s + s) % 4, x);
      assert mix(mix(p[x], p[y]), mix(p[y], p[z])) == square(p[x], p[z]);
    }
    SamePlane(MixColumns(mix, q, s), MixColumns(square, p, (s + s) % 4));
  }

  lemma SamePlane(p: Plane, q: Plane)
    requires forall x: nat | x < 4 :: [p[x]] == [q[x]]
    ensures p == q
  {
    forall x: nat | x < 4
      ensures p[x] == q[x]
    {
      assert [p[x]][0] == [q[x]][0];
    }
  }

  lemma MixColumn(mix: Mix, p: Plane, s: nat, x: nat)
    requires s < 4 && x < 4
    ensures MixColumns(mix, p, s)[x] == mix(p[x], p[(x + 4 - s) % 4])
  {
  }

  /** Squaring doubles the rotations, because the middle terms cancel. */
  lemma OnePlusSquares(a: nat, b: nat)
    requires a < 32 && b < 32
    ensures Squares(OnePlus(a, b), OnePlus((a + a) % 32, (b + b) % 32))
  {
    var mix, square := OnePlus(a, b), OnePlus((a + a) % 32, (b + b) % 32);
    forall u: Word, v: Word, w: Word
      ensures mix(mix(u, v), mix(v, w)) == square(u, w)
    {
      SquaredColumn(u, v, w, a, b);
    }
  }

  lemma SquaredColumn(u: Word, v: Word, w: Word, a: nat, b: nat)
    requires a < 32 && b < 32
    ensures var v' := Xor(v, Xor(RotateLeft(w, a), RotateLeft(w, b)));
      Xor(Xor(u, Xor(RotateLeft(v, a), RotateLeft(v, b))), Xor(RotateLeft(v', a), RotateLeft(v', b)))
      == Xor(u, Xor(RotateLeft(w, (a + a) % 32), RotateLeft(w, (b + b) % 32)))
  {
    var wa, wb := RotateLeft(w, a), RotateLeft(w, b);
    RotateXor(v, Xor(wa, wb), a);
    RotateXor(v, Xor(wa, wb), b);
    RotateXor(wa, wb, a);
    RotateXor(wa, wb, b);
    RotationsAdd(w, a, a);
    RotationsAdd(w, a, b);
    RotationsAdd(w, b, a);
    RotationsAdd(w, b, b);
  }

  type PlaneMap = Plane -> Plane

  /** Power `2^i` of the parity map: all exponents double at each squaring. */
  function Factor(s: nat, a: nat, b: nat): PlaneMap
    requires s < 4 && a < 32 && b < 32
  {
    (p: Plane) => MixColumns(OnePlus(a, b), p, s)
  }

  lemma FactorSquares(s: nat, a: nat, b: nat, s': nat, a': nat, b': nat)
    requires s < 4 && a < 32 && b < 32
    requires s' == (s + s) % 4 && a' == (a + a) % 32 && b' == (b + b) % 32
    ensures IsSquare(Factor(s, a, b), Factor(s', a', b'))
  {
    OnePlusSquares(a, b);
    var mix, square := OnePlus(a, b), OnePlus(a', b');
    forall p: Plane
      ensures MixColumns(mix, MixColumns(mix, p, s), s) == MixColumns(square, p, s')
    {
      MixTwice(mix, square, p, s);
    }
  }

  ghost predicate IsSquare(f: PlaneMap, g: PlaneMap)
  {
    forall p: Plane :: f(f(p)) == g(p)
  }

  lemma {:induction false} IterateSquare(f: PlaneMap, g: PlaneMap, p: Plane, n: nat)
    requires IsSquare(f, g)
    ensures Iterate(f, p, 2 * n) == Iterate(g, p, n)
  {
    if n > 0 {
      IterateSquare(f, g, p, n - 1);
      assert Iterate(f, p, 2 * n) == f(Iterate(f, p, 2 * n - 1)) == f(f(Iterate(f, p, 2 * n - 2)));
    }
  }

  /** The parity after theta, as a function of the parity before. */
  const PARITY_MAP: PlaneMap := Factor(1, 5, 14)

  lemma ParityMapIsTheta(p: Plane)
    ensures PARITY_MAP(p) == XorPlane(p, Effect(p))
  {
    var q := ShiftPlane(p, 1);
    assert q[0] == p[3] && q[1] == p[0] && q[2] == p[1] && q[3] == p[2];
  }

  lemma XorThrice(a: Word, b: Word, c: Word, e: Word)
    ensures Xor(Xor(Xor(a, e), Xor(b, e)), Xor(c, e)) == Xor(Xor(Xor(a, b), c), e)
  {
  }

  lemma ParityOfSum(t: Planes, e: Plane)
    ensures Parity(AddToPlanes(t, e)) == XorPlane(Parity(t), e)
  {
    XorThrice(t.a[0], t.b[0], t.c[0], e[0]);
    XorThrice(t.a[1], t.b[1], t.c[1], e[1]);
    XorThrice(t.a[2], t.b[2], t.c[2], e[2]);
    XorThrice(t.a[3], t.b[3], t.c[3], e[3]);
  }

  lemma {:induction false} OrderFromSquares(f0: PlaneMap, f1: PlaneMap, f2: PlaneMap, f3: PlaneMap, f4: PlaneMap, f5: PlaneMap, p: Plane)
    requires IsSquare(f0, f1) && IsSquare(f1, f2) && IsSquare(f2, f3) && IsSquare(f3, f4) && IsSquare(f4, f5)
    requires f5(p) == p
    ensures Iterate(f0, p, 32) == p
  {
    IterateSquare(f0, f1, p, 16);
    IterateSquare(f1, f2, p, 8);
    IterateSquare(f2, f3, p, 4);
    IterateSquare(f3, f4, p, 2);
    IterateSquare(f4, f5, p, 1);
    assert Iterate(f5, p, 0) == p;
  }

  lemma LastFactor(p: Plane)
    ensures Factor(0, 0, 0)(p) == p
  {
    forall w: Word
      ensures RotateLeft(w, 0) == w && Xor(w, Xor(w, w)) == w
    {
    }
  }

  /** The parity map `1 + m` satisfies (1 + m)^32 = 1. */
  lemma ParityMapOrder(p: Plane)
    ensures Iterate(PARITY_MAP, p, 32) == p
  {
    FactorSquares(1, 5, 14, 2, 10, 28);
    FactorSquares(2, 10, 28, 0, 20, 24);
    FactorSquares(0, 20, 24, 0, 8, 16);
    FactorSquares(0, 8, 16, 0, 16, 0);
    FactorSquares(0, 16, 0, 0, 0, 0);
    LastFactor(p);
    OrderFromSquares(PARITY_MAP, Factor(2, 10, 28), Factor(0, 20, 24), Factor(0, 8, 16), Factor(0, 16, 0), Factor(0, 0, 0), p);
  }

  /** Five factors do the work of 31 steps. */
  function ParityInverse(p: Plane): Plane
  {
    Factor(0, 16, 0)(Factor(0, 8, 16)(Factor(0, 20, 24)(Factor(2, 10, 28)(PARITY_MAP(p)))))
  }

  lemma FiveFactors(f0: PlaneMap, f1: PlaneMap, f2: PlaneMap, f3: PlaneMap, f4: PlaneMap, p: Plane)
    requires IsSquare(f0, f1) && IsSquare(f1, f2) && IsSquare(f2, f3) && IsSquare(f3, f4)
    ensures Iterate(f0, p, 31) == f4(f3(f2(f1(f0(p)))))
  {
    OddSquare(f0, f1, p, 15);
    OddSquare(f1, f2, f0(p), 7);
    OddSquare(f2, f3, f1(f0(p)), 3);
    OddSquare(f3, f4, f2(f1(f0(p))), 1);
    assert Iterate(f4, f3(f2(f1(f0(p)))), 0) == f3(f2(f1(f0(p))));
  }

  lemma OddSquare(f: PlaneMap, g: PlaneMap, p: Plane, n: nat)
    requires IsSquare(f, g)
    ensures Iterate(f, p, 2 * n + 1) == Iterate(g, f(p), n)
  {
    IterateSplit(f, p, 1, 2 * n);
    assert Iterate(f, p, 0) == p;
    IterateSquare(f, g, f(p), n);
  }

  /** The composed factors undo the parity map on both sides. */
  lemma ParityInverses(p: Plane)
    ensures ParityInverse(PARITY_MAP(p)) == p && PARITY_MAP(ParityInverse(p)) == p
  {
    FactorSquares(1, 5, 14, 2, 10, 28);
    FactorSquares(2, 10, 28, 0, 20, 24);
    FactorSquares(0, 20, 24, 0, 8, 16);
    FactorSquares(0, 8, 16, 0, 16, 0);
    InverseFromOrder(PARITY_MAP, Factor(2, 10, 28), Factor(0, 20, 24), Factor(0, 8, 16), Factor(0, 16, 0), p);
  }

  lemma InverseFromOrder(f0: PlaneMap, f1: PlaneMap, f2: PlaneMap, f3: PlaneMap, f4: PlaneMap, p: Plane)
    requires f0 == PARITY_MAP
    requires IsSquare(f0, f1) && IsSquare(f1, f2) && IsSquare(f2, f3) && IsSquare(f3, f4)
    ensures f4(f3(f2(f1(f0(f0(p)))))) == p && f0(f4(f3(f2(f1(f0(p)))))) == p
  {
    ParityMapOrder(p);
    FiveFactors(f0, f1, f2, f3, f4, p);
    FiveFactors(f0, f1, f2, f3, f4, f0(p));
    IterateSplit(f0, p, 1, 31);
    assert Iterate(f0, p, 0) == p;
  }

  // ---- the inverse of the round ---------------------------------------------------------

  function InvTheta(t: Planes): Planes
  {
    AddToPlanes(t, Effect(ParityInverse(Parity(t))))
  }

  lemma XorPlaneTwice(p: Plane, q: Plane)
    ensures XorPlane(XorPlane(p, q), q) == p
  {
    XorTwice(p[0], q[0]);
    XorTwice(p[1], q[1]);
    XorTwice(p[2], q[2]);
    XorTwice(p[3], q[3]);
  }

  lemma AddTwice(t: Planes, e: Plane)
    ensures AddToPlanes(AddToPlanes(t, e), e) == t
  {
    XorPlaneTwice(t.a, e);
    XorPlaneTwice(t.b, e);
    XorPlaneTwice(t.c, e);
  }

  lemma ThetaInverse(t: Planes)
    ensures InvTheta(Theta(t)) == t
  {
    var p := Parity(t);
    ParityOfSum(t, Effect(p));
    ParityMapIsTheta(p);
    ParityInverses(p);
    AddTwice(t, Effect(p));
  }

  lemma InvThetaInverse(t: Planes)
    ensures Theta(InvTheta(t)) == t
  {
    var p := ParityInverse(Parity(t));
    ParityOfSum(t, Effect(p));
    ParityInverses(Parity(t));
    ParityMapIsTheta(p);
    XorPlaneTwice(p, Effect(p));
    AddTwice(t, Effect(p));
  }

  /** Each column of three bits is mapped by an involution. */
  lemma ChiWordInverse(a: Word, b: Word, c: Word)
    ensures ChiWord(ChiWord(a, b, c), ChiWord(b, c, a), ChiWord(c, a, b)) == a
  {
  }

  lemma ChiPlaneInverse(a: Plane, b: Plane, c: Plane)
    ensures ChiPlane(ChiPlane(a, b, c), ChiPlane(b, c, a), ChiPlane(c, a, b)) == a
  {
    ChiWordInverse(a[0], b[0], c[0]);
    ChiWordInverse(a[1], b[1], c[1]);
    ChiWordInverse(a[2], b[2], c[2]);
    ChiWordInverse(a[3], b[3], c[3]);
  }

  lemma ChiInvolution(t: Planes)
    ensures Chi(Chi(t)) == t
  {
    ChiPlaneInverse(t.a, t.b, t.c);
    ChiPlaneInverse(t.b, t.c, t.a);
    ChiPlaneInverse(t.c, t.a, t.b);
  }

  function InvRhoWest(t: Planes): Planes
  {
    Planes(t.a, ShiftPlane(t.b, 3), RotatePlane(t.c, 21))
  }

  function InvRhoEast(t: Planes): Planes
  {
    Planes(t.a, RotatePlane(t.b, 31), ShiftPlane(RotatePlane(t.c, 24), 2))
  }

  lemma RotatePlaneBack(p: Plane, n: nat)
    requires 0 < n < 32
    ensures RotatePlane(RotatePlane(p, n), 32 - n) == p
  {
    RotateBack(p[0], n);
    RotateBack(p[1], n);
    RotateBack(p[2], n);
    RotateBack(p[3], n);
  }

  lemma RotateBack(w: Word, n: nat)
    requires 0 < n < 32
    ensures RotateLeft(RotateLeft(w, n), 32 - n) == w
  {
  }

  lemma ShiftPlaneBack(p: Plane, n: nat)
    requires 0 < n < 4
    ensures ShiftPlane(ShiftPlane(p, n), 4 - n) == p
  {
  }

  lemma RhoInverses(t: Planes)
    ensures InvRhoWest(RhoWest(t)) == t && RhoWest(InvRhoWest(t)) == t
    ensures InvRhoEast(RhoEast(t)) == t && RhoEast(InvRhoEast(t)) == t
  {
    ShiftPlaneBack(t.b, 1);
    ShiftPlaneBack(t.b, 3);
    ShiftPlaneBack(t.c, 2);
    ShiftPlaneBack(RotatePlane(t.c, 24), 2);
    RotatePlaneBack(t.c, 11);
    RotatePlaneBack(t.c, 21);
    RotatePlaneBack(t.b, 1);
    RotatePlaneBack(t.b, 31);
    RotatePlaneBack(ShiftPlane(t.c, 2), 8);
    RotatePlaneBack(t.c, 24);
  }

  lemma IotaInvolution(t: Planes, rc: Word)
    ensures Iota(Iota(t, rc), rc) == t
  {
    XorTwice(t.a[0], rc);
    assert t.a[0 := Xor(t.a[0], rc)][0 := t.a[0]] == t.a;
  }

  function InvRoundPlanes(t: Planes, rc: Word): Planes
  {
    InvTheta(InvRhoWest(Iota(Chi(InvRhoEast(t)), rc)))
  }

  function InvRound(s: State, rc: Word): State
  {
    Pack(InvRoundPlanes(Unpack(s), rc))
  }

  lemma UndoRound(t: Planes, rc: Word)
    ensures InvRoundPlanes(RoundPlanes(t, rc), rc) == t
  {
    var t1 := Theta(t);
    var t2 := RhoWest(t1);
    var t3 := Iota(t2, rc);
    ThetaInverse(t);
    RhoInverses(t1);
    IotaInvolution(t2, rc);
    ChiInvolution(t3);
    RhoInverses(Chi(t3));
  }

  lemma RedoRound(t: Planes, rc: Word)
    ensures RoundPlanes(InvRoundPlanes(t, rc), rc) == t
  {
    var t1 := InvRhoEast(t);
    var t2 := Chi(t1);
    var t3 := Iota(t2, rc);
    RhoInverses(t);
    ChiInvolution(t1);
    IotaInvolution(t2, rc);
    RhoInverses(t3);
    InvThetaInverse(InvRhoWest(t3));
  }

  /** For every constant the round is a bijection, with this explicit inverse. */
  lemma RoundInverse(s: State, rc: Word)
    ensures InvRound(Round(s, rc), rc) == s && Round(InvRound(s, rc), rc) == s
  {
    UndoRound(Unpack(s), rc);
    RedoRound(Unpack(s), rc);
    PackInverse(s, RoundPlanes(Unpack(s), rc));
    PackInverse(s, InvRoundPlanes(Unpack(s), rc));
  }
}
