/** Writing runs of elements into memory. */
module Memory {

  /** `m` with the first `k` elements of `b` at `p`. */
  function Put<T>(m: seq<T>, p: nat, b: seq<T>, k: nat): (r: seq<T>)
    requires k <= |b| && p + k <= |m|
    ensures |r| == |m|
  {
    m[..p] + b[..k] + m[p + k..]
  }

  /** The regions of `len` elements do not meet. */
  predicate Apart(a: nat, b: nat, len: nat)
  {
    a + len <= b || b + len <= a
  }

  /** Element `j` of the run is where it belongs. */
  lemma PutAt<T>(m: seq<T>, p: nat, b: seq<T>, k: nat, j: nat)
    requires k <= |b| && p + k <= |m| && j < k
    ensures Put(m, p, b, k)[p + j] == b[j]
  {
  }

  lemma NoneYet<T>(m: seq<T>, p: nat, b: seq<T>)
    requires p <= |m|
    ensures Put(m, p, b, 0) == m
  {
  }

  lemma OneMore<T>(m: seq<T>, p: nat, b: seq<T>, k: nat)
    requires k < |b| && p + k < |m|
    ensures Put(m, p, b, k)[p + k := b[k]] == Put(m, p, b, k + 1)
  {
  }

  /** Elements away from the destination are what they were. */
  lemma PutApart<T>(m: seq<T>, p: nat, b: seq<T>, k: nat, q: nat)
    requires k <= |b| && p + k <= |m| && q < |m| && (q < p || p + k <= q)
    ensures Put(m, p, b, k)[q] == m[q]
  {
  }

  /** Two runs put one after the other. */
  lemma PutOn<T>(m: seq<T>, p: nat, b: seq<T>, k: nat, w: seq<T>, n: nat)
    requires k + n <= |b| && p + k + n <= |m| && n <= |w| && w[..n] == b[k..k + n]
    ensures Put(Put(m, p, b, k), p + k, w, n) == Put(m, p, b, k + n)
  {
    var m1 := Put(m, p, b, k);
    assert m1[..p + k] == m[..p] + b[..k];
    assert m1[p + k + n..] == m[p + k + n..];
    assert b[..k] + b[k..k + n] == b[..k + n];
  }

  /** The next element of `b` is written. */
  method PutOne<T>(m: array<T>, p: nat, k: nat, x: T, ghost m0: seq<T>, ghost b: seq<T>)
    requires k < |b| && x == b[k] && p + k < m.Length == |m0| && m[..] == Put(m0, p, b, k)
    modifies m
    ensures m[..] == Put(m0, p, b, k + 1)
  {
    ghost var s := m[..];
    m[p + k] := x;
    assert m[..] == s[p + k := x];
    OneMore(m0, p, b, k);
  }
}
