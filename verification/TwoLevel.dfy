/** The two-level grid: every node takes a block of the grid of domains, which exists because the number of
    ranks of a node divides the number of domains. */
module TwoLevel {
  import opened Decomposition
  import opened Indexing

  // ---------- divisors ----------

  ghost predicate Divides(a: nat, b: nat) { exists k: nat :: b == a * k }

  lemma RemainderZero(a: nat, b: nat)
    requires a >= 1
    ensures b % a == 0 <==> Divides(a, b)
  {
    if b % a == 0 { assert b == a * (b / a); }
    if Divides(a, b) {
      var k: nat :| b == a * k;
      assert b == k * a + 0;
      SplitIndex(k, a, 0);
    }
  }

  /** Euclid's algorithm: a common divisor that is a linear combination, and the quotients by it. */
  lemma {:induction false} Bezout(m: nat, p: nat) returns (g: nat, m1: nat, p1: nat, u: int, v: int)
    requires m >= 1
    ensures g >= 1 && m == g * m1 && p == g * p1 && u * m1 + v * p1 == 1
    decreases p
  {
    if p == 0 {
      g, m1, p1, u, v := m, 1, 0, 1, 0;
    } else {
      var q, r := m / p, m % p;
      var p2, r2, s, t;
      g, p2, r2, s, t := Bezout(p, r);
      m1, p1, u, v := q * p2 + r2, p2, t, s - t * q;
      calc {
        m;
        p * q + r;
        g * p2 * q + g * r2;
        g * (q * p2 + r2);
      }
      calc {
        u * m1 + v * p1;
        t * (q * p2 + r2) + (s - t * q) * p2;
        t * (q * p2) + t * r2 + s * p2 - t * q * p2;
        s * p2 + t * r2;
      }
    }
  }

  /** A divisor of a product is a product of divisors. */
  lemma SplitDivisor(m: nat, p: nat, q: nat) returns (a: nat, b: nat)
    requires m >= 1 && Divides(m, p * q)
    ensures a >= 1 && b >= 1 && a * b == m && Divides(a, p) && Divides(b, q)
  {
    var m1, p1, u, v;
    a, m1, p1, u, v := Bezout(m, p);
    b := m1;
    var k: nat :| p * q == m * k;
    Cofactor(a, b, p1, q, k, u, v);
  }

  lemma LargerProduct(g: nat, x: nat, y: nat)
    requires g >= 1 && x < y
    ensures g * x < g * y
  {
  }

  lemma CancelFactor(g: nat, x: nat, y: nat)
    requires g >= 1 && g * x == g * y
    ensures x == y
  {
    if x < y { LargerProduct(g, x, y); } else if y < x { LargerProduct(g, y, x); }
  }

  lemma SwapFactors(x: int, y: int, z: int)
    ensures x * y * z == y * (x * z) && x * y * z == x * (y * z)
  {
  }

  lemma Spread(x: int, y: int, z: int)
    ensures (x + y) * z == x * z + y * z && z * (x + y) == z * x + z * y
  {
  }

  lemma Cofactor(g: nat, b: nat, p1: nat, q: nat, k: nat, u: int, v: int)
    requires g >= 1 && g * p1 * q == g * b * k && u * b + v * p1 == 1 && b >= 1
    ensures Divides(b, q)
  {
    SwapFactors(g, p1, q);
    SwapFactors(g, b, k);
    CancelFactor(g, p1 * q, b * k);
    calc {
      q;
      (u * b + v * p1) * q;
      { Spread(u * b, v * p1, q); }
      u * b * q + v * p1 * q;
      { SwapFactors(u, b, q); SwapFactors(v, p1, q); }
      b * (u * q) + v * (b * k);
      { SwapFactors(v, b, k); }
      b * (u * q) + b * (v * k);
      { Spread(u * q, v * k, b); }
      b * (u * q + v * k);
    }
    NonNegative(b, u * q + v * k);
  }

  lemma NonNegative(b: nat, k: int)
    requires b >= 1 && b * k >= 0
    ensures k >= 0
  {
  }

  // ---------- blocks ----------

  /** A block of m domains that divides the grid axis by axis. */
  ghost predicate Block(m: nat, grid: Triple, t: Triple) {
    && t.x >= 1 && t.y >= 1 && t.z >= 1 && t.x * t.y * t.z == m
    && Divides(t.x, grid.x) && Divides(t.y, grid.y) && Divides(t.z, grid.z)
  }

  lemma BlockExists(m: nat, grid: Triple)
    requires m >= 1 && Divides(m, grid.x * grid.y * grid.z)
    ensures exists t :: Block(m, grid, t)
  {
    assert grid.x * grid.y * grid.z == grid.x * (grid.y * grid.z);
    var a, bc := SplitDivisor(m, grid.x, grid.y * grid.z);
    var b, c := SplitDivisor(bc, grid.y, grid.z);
    assert a * b * c == a * (b * c);
    assert Block(m, grid, Triple(a, b, c));
  }

  lemma BlockDivides(m: nat, grid: Triple, t: Triple)
    requires Block(m, grid, t)
    ensures Divides(m, grid.x * grid.y * grid.z)
    ensures grid.x * grid.y * grid.z == m * ((grid.x / t.x) * (grid.y / t.y) * (grid.z / t.z))
  {
    RemainderZero(t.x, grid.x);
    RemainderZero(t.y, grid.y);
    RemainderZero(t.z, grid.z);
    var i, j, k := grid.x / t.x, grid.y / t.y, grid.z / t.z;
    assert grid.x == t.x * i && grid.y == t.y * j && grid.z == t.z * k;
    Regroup(t.x, t.y, t.z, i, j, k);
  }

  lemma Regroup(x: nat, y: nat, z: nat, i: nat, j: nat, k: nat)
    ensures (x * i) * (y * j) * (z * k) == (x * y * z) * (i * j * k)
  {
    calc {
      (x * i) * (y * j) * (z * k);
      ((x * i) * (y * j)) * (z * k);
      { assert (x * i) * (y * j) == (x * y) * (i * j); }
      ((x * y) * (i * j)) * (z * k);
      { assert ((x * y) * (i * j)) * (z * k) == ((x * y) * z) * ((i * j) * k); }
      (x * y * z) * (i * j * k);
    }
  }

  /** The node grid has one cell per node. */
  lemma NodeGrid(m: nat, nodes: nat, grid: Triple, t: Triple)
    requires Block(m, grid, t) && grid.x * grid.y * grid.z == nodes * m
    ensures (grid.x / t.x) * (grid.y / t.y) * (grid.z / t.z) == nodes
  {
    BlockDivides(m, grid, t);
    var cells := (grid.x / t.x) * (grid.y / t.y) * (grid.z / t.z);
    assert m >= 1 by { ProductBound(t); }
    assert m * (cells - nodes) == 0;
  }

  lemma DividesWhole(m: nat, nodes: nat)
    requires m >= 1 && nodes >= 1
    ensures nodes * m >= 1 && Divides(m, nodes * m)
  {
    assert nodes * m == m * nodes;
  }

  lemma WholeBlocks(m: nat, grid: Triple, t: Triple)
    requires Block(m, grid, t)
    ensures t.x >= 1 && t.y >= 1 && t.z >= 1 && t.x * t.y * t.z == m
    ensures grid.x == grid.x / t.x * t.x && grid.y == grid.y / t.y * t.y && grid.z == grid.z / t.z * t.z
  {
    hide Divides;
    RemainderZero(t.x, grid.x);
    RemainderZero(t.y, grid.y);
    RemainderZero(t.z, grid.z);
  }

  // ---------- the search for a block ----------

  /** best is the last of the blocks before (a, b, c), and the first guess if there is none. */
  ghost predicate Sought(m: nat, grid: Triple, best: Triple, a: nat, b: nat, c: nat) {
    && (|| (Block(m, grid, best) && Earlier(best, a, b, c))
        || (best == Triple(1, 1, m) && forall t :: Block(m, grid, t) ==> !Earlier(t, a, b, c)))
    && forall t :: Block(m, grid, t) && Earlier(t, a, b, c) ==> !Earlier(best, t.x, t.y, t.z)
  }

  lemma SoughtStep(m: nat, grid: Triple, best: Triple, a: nat, b: nat, c: nat)
    requires Sought(m, grid, best, a, b, c)
    ensures Sought(m, grid, if Block(m, grid, Triple(a, b, c)) then Triple(a, b, c) else best, a, b, c + 1)
  {
    hide Block;
    forall t | Earlier(t, a, b, c + 1) ensures Earlier(t, a, b, c) || t == Triple(a, b, c) {
    }
  }

  method SeekHeights(m: nat, grid: Triple, before: Triple, a: nat, b: nat) returns (best: Triple)
    requires a >= 1 && b >= 1 && a * b <= m && Sought(m, grid, before, a, b, 0)
    ensures Sought(m, grid, best, a, b + 1, 0)
  {
    best := before;
    var c := 1;
    SoughtStep(m, grid, best, a, b, 0);
    hide Sought, Divides;
    while a * b * c <= m
      invariant c >= 1 && Sought(m, grid, best, a, b, c)
      decreases m + 1 - a * b * c
    {
      SoughtStep(m, grid, best, a, b, c);
      RemainderZero(a, grid.x);
      RemainderZero(b, grid.y);
      RemainderZero(c, grid.z);
      if a * b * c == m && grid.x % a == 0 && grid.y % b == 0 && grid.z % c == 0 { best := Triple(a, b, c); }
      assert a * b * (c + 1) == a * b * c + a * b;
      c := c + 1;
    }
    SoughtRow(m, grid, best, a, b, c);
  }

  lemma SoughtRow(m: nat, grid: Triple, best: Triple, a: nat, b: nat, c: nat)
    requires a >= 1 && b >= 1 && a * b * c > m && Sought(m, grid, best, a, b, c)
    ensures Sought(m, grid, best, a, b + 1, 0)
  {
    hide Divides;
    forall t | Block(m, grid, t) && Earlier(t, a, b + 1, 0) ensures Earlier(t, a, b, c) {
      if t.x == a && t.y == b { Smaller(a * b, t.z, c); }
    }
  }

  /** A block of width a has fewer than b rows if b rows are too many. */
  lemma BelowRows(m: nat, grid: Triple, t: Triple, a: nat, b: nat)
    requires a >= 1 && a * b > m && Block(m, grid, t) && t.x == a
    ensures t.y < b
  {
    hide Divides;
    var s := t.x * t.y;
    assert s * 1 <= s * t.z;
    Smaller(a, t.y, b);
  }

  lemma SoughtPlane(m: nat, grid: Triple, best: Triple, a: nat, b: nat)
    requires a >= 1 && a * b > m && Sought(m, grid, best, a, b, 0)
    ensures Sought(m, grid, best, a + 1, 1, 0)
  {
    forall t | Block(m, grid, t) && Earlier(t, a + 1, 1, 0) ensures Earlier(t, a, b, 0) {
      if t.x == a { BelowRows(m, grid, t, a, b); }
    }
    hide Block;
  }

  method SeekWidths(m: nat, grid: Triple, before: Triple, a: nat) returns (best: Triple)
    requires a >= 1 && Sought(m, grid, before, a, 1, 0)
    ensures Sought(m, grid, best, a + 1, 1, 0)
  {
    hide Sought;
    best := before;
    var b := 1;
    while a * b <= m
      invariant b >= 1 && Sought(m, grid, best, a, b, 0)
      decreases m + 1 - a * b
    {
      assert a * (b + 1) == a * b + a;
      best := SeekHeights(m, grid, best, a, b);
      b := b + 1;
    }
    SoughtPlane(m, grid, best, a, b);
  }

  lemma SoughtAll(m: nat, grid: Triple, best: Triple)
    requires m >= 1 && Sought(m, grid, best, m + 1, 1, 0)
    ensures Block(m, grid, best) <==> Divides(m, grid.x * grid.y * grid.z)
    ensures !Block(m, grid, best) ==> best == Triple(1, 1, m)
    ensures forall t :: Block(m, grid, t) ==> !Earlier(best, t.x, t.y, t.z)
  {
    hide Divides;
    forall t | Block(m, grid, t) ensures Earlier(t, m + 1, 1, 0) { ProductBound(t); }
    if Block(m, grid, best) { BlockDivides(m, grid, best); }
    if Divides(m, grid.x * grid.y * grid.z) {
      BlockExists(m, grid);
      var t :| Block(m, grid, t);
      ProductBound(t);
    }
  }

  /** Cuts the grid into blocks of m domains, which succeeds exactly when m divides their number. The last block in the
      order of the loops is taken. */
  method Subdivide(m: nat, grid: Triple) returns (best: Triple)
    requires m >= 1
    ensures Block(m, grid, best) <==> Divides(m, grid.x * grid.y * grid.z)
    ensures !Block(m, grid, best) ==> best == Triple(1, 1, m)
    ensures forall t :: Block(m, grid, t) ==> !Earlier(best, t.x, t.y, t.z)
  {
    best := Triple(1, 1, m);
    assert Sought(m, grid, best, 1, 1, 0);
    hide Sought;
    for a := 1 to m + 1
      invariant Sought(m, grid, best, a, 1, 0)
    {
      best := SeekWidths(m, grid, best, a);
    }
    SoughtAll(m, grid, best);
  }

  /** Two levels are used exactly when all nodes have the same number of ranks, which is then the largest. */
  method UniformNodes(counts: seq<nat>) returns (uniform: bool, largest: nat)
    requires forall i :: 0 <= i < |counts| ==> counts[i] >= 1
    ensures uniform <==> forall i, j :: 0 <= i < |counts| && 0 <= j < |counts| ==> counts[i] == counts[j]
    ensures (forall i :: 0 <= i < |counts| ==> counts[i] <= largest) && (counts == [] || largest in counts)
  {
    uniform, largest := true, 0;
    for k := 0 to |counts|
      invariant k == 0 ==> uniform && largest == 0
      invariant k > 0 ==> largest in counts[..k] && largest >= 1
      invariant uniform ==> forall i :: 0 <= i < k ==> counts[i] == largest
      invariant !uniform ==> exists i, j :: 0 <= i < |counts| && 0 <= j < |counts| && counts[i] != counts[j]
      invariant forall i :: 0 <= i < k ==> counts[i] <= largest
    {
      if largest != 0 && counts[k] != largest { uniform := false; }
      if counts[k] > largest { largest := counts[k]; }
      assert counts[..k + 1] == counts[..k] + [counts[k]];
    }
    assert counts[..|counts|] == counts;
  }

  /** With the same number of ranks on every node the two-level grid always exists: the domains are the ranks,
      and every node has one block of them. */
  method ChooseGrids(nodes: nat, m: nat, l: Lengths) returns (grid: Triple, intra: Triple, node: Triple)
    requires nodes >= 1 && m >= 1 && l.x > 0.0 && l.y > 0.0 && l.z >= 0.0
    ensures grid.x * grid.y * grid.z == nodes * m && intra.x * intra.y * intra.z == m
    ensures node.x * node.y * node.z == nodes
    ensures grid.x == node.x * intra.x && grid.y == node.y * intra.y && grid.z == node.z * intra.z
    ensures intra.x >= 1 && intra.y >= 1 && intra.z >= 1
    ensures nodes * m >= 1 && Chosen(nodes * m, Triple(0, 0, 0), l, grid)
    ensures forall t :: Block(m, grid, t) ==> !Earlier(intra, t.x, t.y, t.z)
  {
    hide Divides, Block;
    var n := nodes * m;
    var found;
    found, grid := FindDecomposition(n, l, Triple(0, 0, 0));
    FirstAreas(n, l);
    DividesWhole(m, nodes);
    intra := Subdivide(m, grid);
    NodeGrid(m, nodes, grid, intra);
    WholeBlocks(m, grid, intra);
    node := Triple(grid.x / intra.x, grid.y / intra.y, grid.z / intra.z);
  }
}
