/** The row-major indices of rectangular tables, and their inverses. */
module Indexing {

  function Index2(w: nat, i: nat, j: nat): nat { j * w + i }

  function Index3(w: nat, h: nat, i: nat, j: nat, k: nat): nat { (k * h + j) * w + i }

  lemma BelowOne(n: nat, k: int)
    requires n * k < n
    ensures k <= 0
  {
    assert n * (k - 1) < 0;
  }

  lemma SplitIndex(hi: nat, n: nat, lo: nat)
    requires lo < n
    ensures (hi * n + lo) / n == hi && (hi * n + lo) % n == lo
  {
    var v := hi * n + lo;
    var q, r := v / n, v % n;
    assert v == n * q + r;
    assert n * (q - hi) == lo - r && n * (hi - q) == r - lo;
    BelowOne(n, q - hi);
    BelowOne(n, hi - q);
  }

  lemma Smaller(k: nat, u: nat, v: nat)
    requires k * u < k * v
    ensures u < v
  {
    assert k * (v - u) > 0;
  }

  lemma QuotientBound(o: nat, n: nat, k: nat)
    requires n >= 1 && o < n * k
    ensures o / n < k
  {
    assert o == n * (o / n) + o % n;
    Smaller(n, o / n, k);
  }

  lemma Index2Bound(w: nat, h: nat, i: nat, j: nat)
    requires i < w && j < h
    ensures Index2(w, i, j) < w * h
  {
    assert (j + 1) * w <= h * w;
  }

  lemma Index2Inverse(w: nat, i: nat, j: nat)
    requires i < w
    ensures Index2(w, i, j) % w == i && Index2(w, i, j) / w == j
  {
    SplitIndex(j, w, i);
  }

  lemma Index3Bound(w: nat, h: nat, d: nat, i: nat, j: nat, k: nat)
    requires i < w && j < h && k < d
    ensures Index3(w, h, i, j, k) < w * h * d
  {
    Index2Bound(h, d, j, k);
    Index2Bound(w, h * d, i, k * h + j);
    assert w * (h * d) == w * h * d;
  }

  lemma Index3Inverse(w: nat, h: nat, i: nat, j: nat, k: nat)
    requires i < w && j < h
    ensures Index3(w, h, i, j, k) % w == i && Index3(w, h, i, j, k) / w % h == j && Index3(w, h, i, j, k) / w / h == k
  {
    SplitIndex(k * h + j, w, i);
    SplitIndex(k, h, j);
  }

  lemma DivideBack(i: nat, n: nat)
    requires n >= 1
    ensures i / n * n + i % n == i
  {
  }

  lemma Associate(x: nat, y: nat, z: nat)
    ensures x * y * z == x * (y * z)
  {
  }

  lemma Remainder(i: nat, n: nat)
    requires n >= 1
    ensures 0 <= i % n < n && 0 <= i / n
  {
  }

  /** Every index below the size of the table is that of its quotients and remainders. */
  lemma Index3Covers(w: nat, h: nat, d: nat, i: nat) returns (x: nat, y: nat, z: nat)
    requires w >= 1 && h >= 1 && i < w * h * d
    ensures x < w && y < h && z < d && Index3(w, h, x, y, z) == i
  {
    Remainder(i, w);
    var j: nat := i / w;
    Remainder(j, h);
    x, y, z := i % w, j % h, j / h;
    Associate(w, h, d);
    QuotientBound(i, w, h * d);
    QuotientBound(j, h, d);
    DivideBack(i, w);
    DivideBack(j, h);
  }
}
