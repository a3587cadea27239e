/** The string routines that work a word at a time. Memory is an array of bytes
    whose length is a multiple of four; pointers are indices into it. */
module StringRoutines {
  import opened Memory

  type Char = bv8

  /** The little-endian word of four bytes. */
  function WordOf(b0: Char, b1: Char, b2: Char, b3: Char): bv32
  {
    (b0 as bv32) | ((b1 as bv32) << 8) | ((b2 as bv32) << 16) | ((b3 as bv32) << 24)
  }

  function LowByte(v: bv32): Char { (v & 0xFF) as bv8 }

  function ZeroTest(v: bv32): bv32
  {
    (v - 0x0101_0101) & !v & 0x8080_8080
  }

  /** The test is nonzero exactly when some byte of the word is zero. */
  lemma ZeroByteTest(b0: Char, b1: Char, b2: Char, b3: Char)
    ensures ZeroTest(WordOf(b0, b1, b2, b3)) != 0 <==> b0 == 0 || b1 == 0 || b2 == 0 || b3 == 0
  {
  }

  lemma BytesOfWord(b0: Char, b1: Char, b2: Char, b3: Char)
    ensures var v := WordOf(b0, b1, b2, b3);
      LowByte(v) == b0 && LowByte(v >> 8) == b1 && LowByte(v >> 8 >> 8) == b2 && LowByte(v >> 8 >> 8 >> 8) == b3
  {
  }

  lemma WordsDiffer(a0: Char, a1: Char, a2: Char, a3: Char, b0: Char, b1: Char, b2: Char, b3: Char)
    ensures WordOf(a0, a1, a2, a3) == WordOf(b0, b1, b2, b3) <==> a0 == b0 && a1 == b1 && a2 == b2 && a3 == b3
  {
    BytesOfWord(a0, a1, a2, a3);
    BytesOfWord(b0, b1, b2, b3);
  }

  // ---- strings -----------------------------------------------------------------------

  /** A string runs from `at` to its terminator at `end`. */
  ghost predicate IsString(m: seq<Char>, at: nat, end: nat)
  {
    at <= end < |m| && m[end] == 0 && forall k | at <= k < end :: m[k] != 0
  }

  method LoadWord(m: array<Char>, p: nat) returns (v: bv32, ghost b: seq<Char>)
    requires p + 4 <= m.Length
    ensures b == m[..][p..p + 4] && |b| == 4 && v == WordOf(b[0], b[1], b[2], b[3])
  {
    v := WordOf(m[p], m[p + 1], m[p + 2], m[p + 3]);
    b := m[..][p..p + 4];
  }

  /** The bytes of a word, one shift after another. */
  method Split(v: bv32, ghost b: seq<Char>) returns (c0: Char, c1: Char, c2: Char, c3: Char)
    requires |b| == 4 && v == WordOf(b[0], b[1], b[2], b[3])
    ensures c0 == b[0] && c1 == b[1] && c2 == b[2] && c3 == b[3]
  {
    BytesOfWord(b[0], b[1], b[2], b[3]);
    var w := v;
    c0, w := LowByte(w), w >> 8;
    c1, w := LowByte(w), w >> 8;
    c2, w := LowByte(w), w >> 8;
    c3 := LowByte(w);
  }

  /** Bytes 2 and 3 of `b`, up to its first zero byte, number `n`. */
  method StoreRest(m: array<Char>, p: nat, c2: Char, c3: Char, ghost m0: seq<Char>, ghost b: seq<Char>, ghost n: nat)
    requires |b| == 4 && c2 == b[2] && c3 == b[3] && 2 <= n && IsString(b, 0, n)
    requires p + n < m.Length == |m0| && m[..] == Put(m0, p, b, 2)
    modifies m
    ensures m[..] == Put(m0, p, b, n + 1)
  {
    PutOne(m, p, 2, c2, m0, b);
    if c2 != 0 {
      PutOne(m, p, 3, c3, m0, b);
    }
  }

  /** Stores the bytes of a word up to its first zero byte, number `n`. */
  method StoreTail(m: array<Char>, p: nat, v: bv32, ghost b: seq<Char>, ghost n: nat)
    requires |b| == 4 && v == WordOf(b[0], b[1], b[2], b[3]) && IsString(b, 0, n) && p + n < m.Length
    modifies m
    ensures m[..] == Put(old(m[..]), p, b, n + 1)
  {
    ghost var m0 := m[..];
    NoneYet(m0, p, b);
    var c0, c1, c2, c3 := Split(v, b);
    PutOne(m, p, 0, c0, m0, b);
    if c0 != 0 {
      PutOne(m, p, 1, c1, m0, b);
      if c1 != 0 {
        StoreRest(m, p, c2, c3, m0, b, n);
      }
    }
  }

  method StoreWord(m: array<Char>, p: nat, v: bv32, ghost b: seq<Char>)
    requires p + 4 <= m.Length && |b| == 4 && v == WordOf(b[0], b[1], b[2], b[3])
    modifies m
    ensures m[..] == Put(old(m[..]), p, b, 4)
  {
    var c0, c1, c2, c3 := Split(v, b);
    m[p], m[p + 1], m[p + 2], m[p + 3] := c0, c1, c2, c3;
  }

  // ---- strcpy ----------------------------------------------------------------------------

  /** The bytes at `s` are those of the string `b` that starts at `src`, as far as it goes. */
  lemma SourceBytes(m0: seq<Char>, dst: nat, src: nat, end: nat, b: seq<Char>, k: nat, j: nat)
    requires IsString(m0, src, end) && b == m0[src..end + 1] && k < |b| && dst + |b| <= |m0| && Apart(dst, src, |b|)
    requires k + j < |b|
    ensures Put(m0, dst, b, k)[src + k + j] == b[k + j]
  {
    PutApart(m0, dst, b, k, src + k + j);
  }

  /** A word without zero bytes lies before the terminator. */
  lemma WholeWord(m0: seq<Char>, dst: nat, src: nat, end: nat, b: seq<Char>, k: nat, w: seq<Char>)
    requires IsString(m0, src, end) && b == m0[src..end + 1] && k < |b| && dst + |b| <= |m0| && Apart(dst, src, |b|)
    requires src + k + 4 <= |m0| && w == Put(m0, dst, b, k)[src + k..src + k + 4] && forall j | 0 <= j < 4 :: w[j] != 0
    ensures k + 4 < |b| && w[..4] == b[k..k + 4]
  {
    if k + 4 >= |b| {
      SourceBytes(m0, dst, src, end, b, k, |b| - 1 - k);
    }
    forall j: nat | j < 4
      ensures w[j] == b[k + j]
    {
      SourceBytes(m0, dst, src, end, b, k, j);
    }
  }

  /** A word with a zero byte holds the rest of the string. */
  lemma LastWord(m0: seq<Char>, dst: nat, src: nat, end: nat, b: seq<Char>, k: nat, w: seq<Char>)
    requires IsString(m0, src, end) && b == m0[src..end + 1] && k < |b| && dst + |b| <= |m0| && Apart(dst, src, |b|)
    requires src + k + 4 <= |m0| && w == Put(m0, dst, b, k)[src + k..src + k + 4] && exists j | 0 <= j < 4 :: w[j] == 0
    ensures var n := |b| - 1 - k; n < 4 && IsString(w, 0, n) && w[..n + 1] == b[k..k + n + 1]
  {
    var n := |b| - 1 - k;
    forall j: nat | j <= n
      ensures w[j] == b[k + j]
    {
      SourceBytes(m0, dst, src, end, b, k, j);
    }
  }

  method HasZero(v: bv32, ghost b: seq<Char>) returns (z: bool)
    requires |b| == 4 && v == WordOf(b[0], b[1], b[2], b[3])
    ensures z <==> exists j | 0 <= j < 4 :: b[j] == 0
  {
    ZeroByteTest(b[0], b[1], b[2], b[3]);
    z := ZeroTest(v) != 0;
    assert z ==> b[0] == 0 || b[1] == 0 || b[2] == 0 || b[3] == 0;
  }

  predicate Aligned(p: nat) { p % 4 == 0 }

  lemma NextWordAligned(p: nat)
    requires Aligned(p)
    ensures Aligned(p + 4)
  {
  }

  /** The copy of `b`, from `src` to `dst`, has reached its byte `k`. */
  ghost predicate Copying(m: seq<Char>, m0: seq<Char>, dst: nat, src: nat, end: nat, b: seq<Char>, k: nat)
  {
    && |m| == |m0| && |m0| % 4 == 0 && IsString(m0, src, end) && b == m0[src..end + 1] && k < |b|
    && dst + |b| <= |m0| && Apart(dst, src, |b|) && m == Put(m0, dst, b, k)
  }

  /** One byte. */
  method CopyByte(m: array<Char>, dst: nat, src: nat, k: nat, ghost m0: seq<Char>, ghost end: nat, ghost b: seq<Char>) returns (done: bool)
    requires Copying(m[..], m0, dst, src, end, b, k)
    modifies m
    ensures if done then m[..] == Put(m0, dst, b, |b|) else Copying(m[..], m0, dst, src, end, b, k + 1)
  {
    SourceBytes(m0, dst, src, end, b, k, 0);
    var c := m[..][src + k];
    PutOne(m, dst, k, c, m0, b);
    done := c == 0;
  }

  /** A word without a zero byte. */
  method CopyWhole(m: array<Char>, dst: nat, src: nat, k: nat, v: bv32, ghost w: seq<Char>, ghost m0: seq<Char>, ghost end: nat, ghost b: seq<Char>)
    requires Copying(m[..], m0, dst, src, end, b, k) && src + k + 4 <= m.Length
    requires w == m[..][src + k..src + k + 4] && v == WordOf(w[0], w[1], w[2], w[3]) && forall j | 0 <= j < 4 :: w[j] != 0
    modifies m
    ensures Copying(m[..], m0, dst, src, end, b, k + 4)
  {
    WholeWord(m0, dst, src, end, b, k, w);
    StoreWord(m, dst + k, v, w);
    PutOn(m0, dst, b, k, w, 4);
  }

  /** The word that holds the terminator. */
  method CopyLast(m: array<Char>, dst: nat, src: nat, k: nat, v: bv32, ghost w: seq<Char>, ghost m0: seq<Char>, ghost end: nat, ghost b: seq<Char>)
    requires Copying(m[..], m0, dst, src, end, b, k) && src + k + 4 <= m.Length
    requires w == m[..][src + k..src + k + 4] && v == WordOf(w[0], w[1], w[2], w[3]) && exists j | 0 <= j < 4 :: w[j] == 0
    modifies m
    ensures m[..] == Put(m0, dst, b, |b|)
  {
    ghost var n := |b| - 1 - k;
    ghost var m1 := m[..];
    LastWord(m0, dst, src, end, b, k, w);
    PutOn(m0, dst, b, k, w, n + 1);
    assert m1 == Put(m0, dst, b, k);
    StoreTail(m, dst + k, v, w, n);
  }

  /** One word, or what is left of the string in it. */
  method CopyWord(m: array<Char>, dst: nat, src: nat, k: nat, ghost m0: seq<Char>, ghost end: nat, ghost b: seq<Char>) returns (done: bool, next: nat)
    requires Copying(m[..], m0, dst, src, end, b, k) && Aligned(src + k)
    modifies m
    ensures done ==> m[..] == Put(m0, dst, b, |b|)
    ensures !done ==> k < next && Copying(m[..], m0, dst, src, end, b, next) && Aligned(src + next)
  {
    next := k + 4;
    NextWordAligned(src + k);
    var v;
    ghost var w;
    v, w := LoadWord(m, src + k);
    done := HasZero(v, w);
    if done {
      CopyLast(m, dst, src, k, v, w, m0, end, b);
    } else {
      CopyWhole(m, dst, src, k, v, w, m0, end, b);
    }
  }

  /** Copies the string at `src`, whatever the alignments: exactly its bytes and
      its terminator are written, and nothing past them. */
  method Strcpy(m: array<Char>, dst: nat, src: nat, ghost end: nat) returns (r: nat)
    requires m.Length % 4 == 0 && IsString(m[..], src, end)
    requires dst + (end + 1 - src) <= m.Length && Apart(dst, src, end + 1 - src)
    modifies m
    ensures r == dst
    ensures m[..] == Put(old(m[..]), dst, old(m[src..end + 1]), end + 1 - src)
  {
    r := dst;
    ghost var m0, b := m[..], m[src..end + 1];
    NoneYet(m0, dst, b);
    var k, done := CopyToAlignment(m, dst, src, m0, end, b);
    if !done {
      CopyWords(m, dst, src, k, m0, end, b);
    }
  }

  method CopyToAlignment(m: array<Char>, dst: nat, src: nat, ghost m0: seq<Char>, ghost end: nat, ghost b: seq<Char>) returns (k: nat, done: bool)
    requires Copying(m[..], m0, dst, src, end, b, 0)
    modifies m
    ensures if done then m[..] == Put(m0, dst, b, |b|) else Copying(m[..], m0, dst, src, end, b, k) && (src + k) % 4 == 0
  {
    k := 0;
    while (dst + k) % 4 != 0 || (src + k) % 4 != 0
      invariant Copying(m[..], m0, dst, src, end, b, k)
      decreases |b| - k
    {
      done := CopyByte(m, dst, src, k, m0, end, b);
      if done {
        return;
      }
      k := k + 1;
    }
    done := false;
  }

  method CopyWords(m: array<Char>, dst: nat, src: nat, k0: nat, ghost m0: seq<Char>, ghost end: nat, ghost b: seq<Char>)
    requires Copying(m[..], m0, dst, src, end, b, k0) && Aligned(src + k0)
    modifies m
    ensures m[..] == Put(m0, dst, b, |b|)
  {
    var k := k0;
    while true
      invariant Copying(m[..], m0, dst, src, end, b, k) && Aligned(src + k)
      decreases |b| - k
    {
      var done, next := CopyWord(m, dst, src, k, m0, end, b);
      if done {
        return;
      }
      k := next;
    }
  }

  // ---- strcmp ----------------------------------------------------------------------------

  /** The comparison, byte by byte, of two terminated strings from position `k` on. */
  function Compare(a: seq<Char>, b: seq<Char>, k: nat): int
    requires k < |a| && k < |b| && IsString(a, 0, |a| - 1) && IsString(b, 0, |b| - 1)
    decreases |a| - k
  {
    if a[k] != b[k] then if a[k] < b[k] then -1 else 1
    else if a[k] == 0 then 0
    else Compare(a, b, k + 1)
  }

  /** Zero for equal strings and only for them; otherwise the first difference
      decides, as unsigned characters. */
  lemma {:induction false} CompareMeans(a: seq<Char>, b: seq<Char>, k: nat)
    requires k < |a| && k < |b| && IsString(a, 0, |a| - 1) && IsString(b, 0, |b| - 1) && a[..k] == b[..k]
    ensures Compare(a, b, k) == 0 <==> a == b
    ensures Compare(a, b, k) != 0 ==> exists d: nat | k <= d < |a| && d < |b| ::
              a[..d] == b[..d] && a[d] != b[d] && Compare(a, b, k) == if a[d] < b[d] then -1 else 1
    ensures Compare(b, a, k) == -Compare(a, b, k)
    decreases |a| - k
  {
    if a[k] == b[k] {
      assert a[..k + 1] == a[..k] + [a[k]] && b[..k + 1] == b[..k] + [b[k]];
      if a[k] == 0 {
        assert a == a[..k + 1] && b == b[..k + 1];
      } else {
        CompareMeans(a, b, k + 1);
      }
    }
  }

  lemma CompareSkips(a: seq<Char>, b: seq<Char>, k: nat)
    requires k < |a| && k < |b| && IsString(a, 0, |a| - 1) && IsString(b, 0, |b| - 1) && a[k] == b[k] != 0
    ensures k + 1 < |a| && k + 1 < |b| && Compare(a, b, k) == Compare(a, b, k + 1)
  {
  }

  /** Positions `k` of both strings hold the words `w` and `x`, as far as they reach. */
  ghost predicate Window(a: seq<Char>, k: nat, w: seq<Char>)
  {
    && k < |a| && IsString(a, 0, |a| - 1) && |w| == 4
    && forall j | 0 <= j < 4 && k + j < |a| :: w[j] == a[k + j]
  }

  /** A pair of bytes settles the comparison, or leaves it to the rest. */
  function Pair(c: Char, d: Char, rest: int): int
  {
    if c != d then if c < d then -1 else 1 else if c == 0 then 0 else rest
  }

  /** What the bytes of two words say. */
  function Verdict(w: seq<Char>, x: seq<Char>): int
    requires |w| == 4 && |x| == 4
  {
    Pair(w[0], x[0], Pair(w[1], x[1], Pair(w[2], x[2], Pair(w[3], x[3], 0))))
  }

  lemma ComparePair(a: seq<Char>, b: seq<Char>, k: nat)
    requires k < |a| && k < |b| && IsString(a, 0, |a| - 1) && IsString(b, 0, |b| - 1)
    ensures a[k] == b[k] != 0 ==> k + 1 < |a| && k + 1 < |b|
    ensures Compare(a, b, k) == Pair(a[k], b[k], if a[k] == b[k] != 0 then Compare(a, b, k + 1) else 0)
  {
  }

  /** Words that differ, or hold the end of a string, settle the comparison. */
  lemma VerdictIsCompare(a: seq<Char>, b: seq<Char>, k: nat, w: seq<Char>, x: seq<Char>)
    requires Window(a, k, w) && Window(b, k, x)
    requires exists i | 0 <= i < 4 :: w[i] != x[i] || w[i] == 0
    ensures Compare(a, b, k) == Verdict(w, x)
  {
    assert w[0] == a[k] && x[0] == b[k];
    ComparePair(a, b, k);
    if w[0] == x[0] && w[0] != 0 {
      assert w[1] == a[k + 1] && x[1] == b[k + 1];
      ComparePair(a, b, k + 1);
      if w[1] == x[1] && w[1] != 0 {
        assert w[2] == a[k + 2] && x[2] == b[k + 2];
        ComparePair(a, b, k + 2);
        if w[2] == x[2] && w[2] != 0 {
          assert w[3] == a[k + 3] && x[3] == b[k + 3];
          ComparePair(a, b, k + 3);
        }
      }
    }
  }

  /** Equal words without a zero byte are passed over. */
  lemma WordsEqual(a: seq<Char>, b: seq<Char>, k: nat, w: seq<Char>)
    requires Window(a, k, w) && Window(b, k, w) && forall j | 0 <= j < 4 :: w[j] != 0
    ensures k + 4 < |a| && k + 4 < |b| && Compare(a, b, k) == Compare(a, b, k + 4)
  {
    assert w[0] == a[k] == b[k];
    CompareSkips(a, b, k);
    assert w[1] == a[k + 1] == b[k + 1];
    CompareSkips(a, b, k + 1);
    assert w[2] == a[k + 2] == b[k + 2];
    CompareSkips(a, b, k + 2);
    assert w[3] == a[k + 3] == b[k + 3];
    CompareSkips(a, b, k + 3);
  }

  /** The bytes of two words, one pair after the other. */
  method CompareChars(c0: Char, c1: Char, c2: Char, c3: Char, d0: Char, d1: Char, d2: Char, d3: Char) returns (r: int)
    ensures r == Pair(c0, d0, Pair(c1, d1, Pair(c2, d2, Pair(c3, d3, 0))))
  {
    if c0 != d0 {
      return if c0 < d0 then -1 else 1;
    }
    if c0 == 0 {
      return 0;
    }
    if c1 != d1 {
      return if c1 < d1 then -1 else 1;
    }
    if c1 == 0 {
      return 0;
    }
    if c2 != d2 {
      return if c2 < d2 then -1 else 1;
    }
    if c2 == 0 {
      return 0;
    }
    if c3 != d3 {
      return if c3 < d3 then -1 else 1;
    }
    return 0;
  }

  method CompareWords(v1: bv32, v2: bv32, ghost w: seq<Char>, ghost x: seq<Char>) returns (r: int)
    requires |w| == 4 && v1 == WordOf(w[0], w[1], w[2], w[3]) && |x| == 4 && v2 == WordOf(x[0], x[1], x[2], x[3])
    ensures r == Verdict(w, x)
  {
    var c0, c1, c2, c3 := Split(v1, w);
    var d0, d1, d2, d3 := Split(v2, x);
    r := CompareChars(c0, c1, c2, c3, d0, d1, d2, d3);
  }

  /** The words at `p` and `q`: settled, or equal and without an end. */
  method CompareOneWord(m: array<Char>, p: nat, q: nat, ghost s: seq<Char>, ghost a: seq<Char>, ghost b: seq<Char>, ghost k: nat) returns (settled: bool, r: int)
    requires m[..] == s && p + 4 <= |s| && q + 4 <= |s| && Window(a, k, s[p..p + 4]) && Window(b, k, s[q..q + 4])
    ensures if settled then r == Compare(a, b, k) else k + 4 < |a| && k + 4 < |b| && Compare(a, b, k) == Compare(a, b, k + 4)
  {
    var v1, v2;
    ghost var w, x;
    v1, w := LoadWord(m, p);
    v2, x := LoadWord(m, q);
    WordsDiffer(w[0], w[1], w[2], w[3], x[0], x[1], x[2], x[3]);
    var differ := v1 != v2;
    settled, r := Settle(v1, v2, differ, w, x);
    if settled {
      VerdictIsCompare(a, b, k, w, x);
    } else {
      WordsEqual(a, b, k, w);
    }
  }

  method Settle(v1: bv32, v2: bv32, differ: bool, ghost w: seq<Char>, ghost x: seq<Char>) returns (settled: bool, r: int)
    requires |w| == 4 && v1 == WordOf(w[0], w[1], w[2], w[3]) && |x| == 4 && v2 == WordOf(x[0], x[1], x[2], x[3])
    requires differ <==> w[0] != x[0] || w[1] != x[1] || w[2] != x[2] || w[3] != x[3]
    ensures settled <==> exists j | 0 <= j < 4 :: w[j] != x[j] || w[j] == 0
    ensures settled ==> r == Verdict(w, x)
    ensures !settled ==> w == x
  {
    if differ {
      settled := true;
      r := CompareWords(v1, v2, w, x);
    } else {
      settled := HasZero(v1, w);
      r := 0;
    }
  }

  // ---- the comparison loop -----------------------------------------------------------------

  /** A string of memory, with its terminator. */
  function StringAt(m: seq<Char>, at: nat, end: nat): seq<Char>
    requires at <= end < |m|
  {
    m[at..end + 1]
  }

  lemma StringIsString(m: seq<Char>, at: nat, end: nat)
    requires IsString(m, at, end)
    ensures var a := StringAt(m, at, end); IsString(a, 0, |a| - 1)
  {
  }

  lemma WindowOfMemory(m: seq<Char>, at: nat, end: nat, k: nat)
    requires IsString(m, at, end) && at + k <= end && at + k + 4 <= |m|
    ensures Window(StringAt(m, at, end), k, m[at + k..at + k + 4])
  {
    StringIsString(m, at, end);
  }

  /** The strings agree, without an end, up to position `k`. */
  ghost predicate Comparing(m: seq<Char>, s1: nat, end1: nat, s2: nat, end2: nat, k: nat)
  {
    && IsString(m, s1, end1) && IsString(m, s2, end2) && s1 + k <= end1 && s2 + k <= end2
    && var a, b := StringAt(m, s1, end1), StringAt(m, s2, end2);
       IsString(a, 0, |a| - 1) && IsString(b, 0, |b| - 1) && Compare(a, b, 0) == Compare(a, b, k)
  }

  method CompareByte(m: array<Char>, s1: nat, s2: nat, k: nat, ghost end1: nat, ghost end2: nat) returns (settled: bool, r: int)
    requires Comparing(m[..], s1, end1, s2, end2, k)
    ensures if settled then r == Compare(StringAt(m[..], s1, end1), StringAt(m[..], s2, end2), 0)
            else Comparing(m[..], s1, end1, s2, end2, k + 1)
  {
    ghost var a, b := StringAt(m[..], s1, end1), StringAt(m[..], s2, end2);
    var c1, c2 := m[s1 + k], m[s2 + k];
    assert c1 == a[k] && c2 == b[k];
    if c1 != c2 {
      return true, if c1 < c2 then -1 else 1;
    } else if c1 == 0 {
      return true, 0;
    }
    CompareSkips(a, b, k);
    return false, 0;
  }

  /** Both strings have a whole word of memory at position `k`. */
  ghost predicate HaveWords(s: seq<Char>, s1: nat, end1: nat, s2: nat, end2: nat, k: nat)
  {
    && Comparing(s, s1, end1, s2, end2, k) && s1 + k + 4 <= |s| && s2 + k + 4 <= |s|
    && Window(StringAt(s, s1, end1), k, s[s1 + k..s1 + k + 4]) && Window(StringAt(s, s2, end2), k, s[s2 + k..s2 + k + 4])
  }

  lemma Windows(m: seq<Char>, s1: nat, end1: nat, s2: nat, end2: nat, k: nat)
    requires Comparing(m, s1, end1, s2, end2, k) && Aligned(|m|) && Aligned(s1 + k) && Aligned(s2 + k)
    ensures HaveWords(m, s1, end1, s2, end2, k)
  {
    WindowOfMemory(m, s1, end1, k);
    WindowOfMemory(m, s2, end2, k);
  }

  lemma FourMore(m: seq<Char>, s1: nat, end1: nat, s2: nat, end2: nat, k: nat)
    requires Comparing(m, s1, end1, s2, end2, k)
    requires var a, b := StringAt(m, s1, end1), StringAt(m, s2, end2);
      k + 4 < |a| && k + 4 < |b| && Compare(a, b, k) == Compare(a, b, k + 4)
    ensures Comparing(m, s1, end1, s2, end2, k + 4)
  {
  }

  lemma StaysAligned(s1: nat, s2: nat, k: nat)
    requires Aligned(s1 + k) && Aligned(s2 + k)
    ensures Aligned(s1 + (k + 4)) && Aligned(s2 + (k + 4))
  {
    NextWordAligned(s1 + k);
    NextWordAligned(s2 + k);
  }

  method CompareWord(m: array<Char>, s1: nat, s2: nat, k: nat, ghost s: seq<Char>, ghost end1: nat, ghost end2: nat) returns (settled: bool, r: int)
    requires m[..] == s && HaveWords(s, s1, end1, s2, end2, k)
    ensures if settled then r == Compare(StringAt(s, s1, end1), StringAt(s, s2, end2), 0) else Comparing(s, s1, end1, s2, end2, k + 4)
  {
    settled, r := CompareOneWord(m, s1 + k, s2 + k, s, StringAt(s, s1, end1), StringAt(s, s2, end2), k);
    if !settled {
      FourMore(s, s1, end1, s2, end2, k);
    }
  }

  /** Compares two strings of memory, whatever their alignments, as the byte-wise comparison does. */
  method Strcmp(m: array<Char>, s1: nat, s2: nat, ghost end1: nat, ghost end2: nat) returns (r: int)
    requires m.Length % 4 == 0 && IsString(m[..], s1, end1) && IsString(m[..], s2, end2)
    ensures var a, b := StringAt(m[..], s1, end1), StringAt(m[..], s2, end2);
      IsString(a, 0, |a| - 1) && IsString(b, 0, |b| - 1) && r == Compare(a, b, 0)
  {
    StringIsString(m[..], s1, end1);
    StringIsString(m[..], s2, end2);
    var k, settled := 0, false;
    while (s1 + k) % 4 != 0 || (s2 + k) % 4 != 0
      invariant Comparing(m[..], s1, end1, s2, end2, k)
      decreases end1 - k
    {
      settled, r := CompareByte(m, s1, s2, k, end1, end2);
      if settled {
        return;
      }
      k := k + 1;
    }
    r := CompareAligned(m, s1, s2, k, end1, end2);
  }

  method CompareAligned(m: array<Char>, s1: nat, s2: nat, k0: nat, ghost end1: nat, ghost end2: nat) returns (r: int)
    requires m.Length % 4 == 0 && Comparing(m[..], s1, end1, s2, end2, k0) && (s1 + k0) % 4 == 0 && (s2 + k0) % 4 == 0
    ensures r == Compare(StringAt(m[..], s1, end1), StringAt(m[..], s2, end2), 0)
  {
    ghost var all := m[..];
    var k := k0;
    while true
      invariant m[..] == all && Comparing(all, s1, end1, s2, end2, k) && Aligned(s1 + k) && Aligned(s2 + k)
      decreases end1 - k
    {
      var settled;
      Windows(all, s1, end1, s2, end2, k);
      settled, r := CompareWord(m, s1, s2, k, all, end1, end2);
      if settled {
        return;
      }
      StaysAligned(s1, s2, k);
      k := k + 4;
    }
  }
}
