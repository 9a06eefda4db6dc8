/** The cells next to each cell of a periodic grid, up to a radius: every row of the table is filled exactly. */
module CellAdjacency {
  import opened Indexing
  import opened Ordered

  // ---------- one axis ----------

  /** The remainder that is fixed up when it is negative. */
  function WrapIndex(n: int, m: nat): int
    requires m >= 1
  {
    var rem := if n >= 0 then n % m else -((-n) % m);
    if rem < 0 then rem + m else rem
  }

  lemma WrapIsModulo(n: int, m: nat)
    requires m >= 1
    ensures WrapIndex(n, m) == n % m
  {
    if n < 0 {
      var q, k := (-n) / m, (-n) % m;
      assert -n == m * q + k;
      if k == 0 { ModuloOf(n, m, -q, 0); } else { ModuloOf(n, m, -q - 1, m - k); }
    }
  }

  lemma ModuloOf(n: int, m: nat, q: int, k: nat)
    requires k < m && n == m * q + k
    ensures n % m == k
  {
    assert n == m * (n / m) + n % m;
    assert m * (n / m - q) == k - n % m;
    BelowOne(m, n / m - q);
    assert m * (q - n / m) == n % m - k;
    BelowOne(m, q - n / m);
  }

  /** The cell reached by going d cells on from i around an axis of m cells. */
  function Step(i: int, d: int, m: nat): nat
    requires m >= 1
  {
    (i + d) % m
  }

  ghost predicate Reaches(i: int, m: nat, r: nat, x: int) {
    m >= 1 && exists d: int :: 0 - r <= d <= r && Step(i, d, m) == x
  }

  /** The cells at a distance of at most r from i around an axis of m cells. */
  ghost function Around(i: nat, m: nat, r: nat): set<nat> { set x: nat | x < m && Reaches(i, m, r, x) }

  lemma ReachesBack(i: nat, m: nat, r: nat, x: nat)
    requires i < m && x < m && Reaches(i, m, r, x)
    ensures Reaches(x, m, r, i)
  {
    var d: int :| 0 - r <= d <= r && Step(i, d, m) == x;
    var q := (i + d) / m;
    assert i + d == m * q + x;
    ModuloOf(x - d, m, -q, i);
    assert Step(x, -d, m) == i;
  }

  /** The first n cells of an axis from a start on. */
  ghost function Arc(start: int, n: nat, m: nat): set<nat>
    requires m >= 1
  {
    if n == 0 then {} else Arc(start, n - 1, m) + {Step(start, n - 1, m)}
  }

  lemma {:induction false} ArcMembers(start: int, n: nat, m: nat, x: nat)
    requires m >= 1
    ensures x in Arc(start, n, m) <==> exists t: int :: 0 <= t < n && Step(start, t, m) == x
  {
    if n > 0 { ArcMembers(start, n - 1, m, x); }
  }

  lemma CloseDiffer(a: int, b: int, m: nat)
    requires m >= 1 && 0 < b - a < m
    ensures a % m != b % m
  {
    var d := b / m - a / m;
    assert a == m * (a / m) + a % m && b == m * (b / m) + b % m;
    assert m * d == b - a - (b % m - a % m);
    if a % m == b % m { BelowOne(m, d); }
  }

  lemma {:induction false} ArcCount(start: int, n: nat, m: nat)
    requires m >= 1 && n <= m
    ensures |Arc(start, n, m)| == n
  {
    if n > 0 {
      ArcCount(start, n - 1, m);
      var last := Step(start, n - 1, m);
      assert last !in Arc(start, n - 1, m) by {
        ArcMembers(start, n - 1, m, last);
        forall t: int | 0 <= t < n - 1 ensures Step(start, t, m) != last { CloseDiffer(start + t, start + n - 1, m); }
      }
    }
  }

  function Fewer(a: nat, b: nat): nat { if a > b then b else a }

  lemma AroundIsArc(i: nat, m: nat, r: nat, x: nat)
    requires i < m
    ensures x in Around(i, m, r) <==> x in Arc(i - r, Fewer(m, 2 * r + 1), m)
  {
    var n := Fewer(m, 2 * r + 1);
    ArcMembers(i - r, n, m, x);
    if x in Around(i, m, r) { var t := ReachedFromLowest(i, m, r, x); }
    if x in Arc(i - r, n, m) {
      var t: int :| 0 <= t < n && Step(i - r, t, m) == x;
      assert Step(i, t - r, m) == x;
    }
  }

  lemma ReachedFromLowest(i: nat, m: nat, r: nat, x: nat) returns (t: int)
    requires i < m && x < m && Reaches(i, m, r, x)
    ensures 0 <= t < Fewer(m, 2 * r + 1) && Step(i - r, t, m) == x
  {
    var d: int :| 0 - r <= d <= r && Step(i, d, m) == x;
    if 2 * r + 1 <= m {
      t := d + r;
    } else {
      t := (x - (i - r)) % m;
      var q := (x - (i - r)) / m;
      assert i - r + t == m * (-q) + x;
      ModuloOf(i - r + t, m, -q, x);
    }
  }

  /** As many distinct cells as the axis has, or as the radius reaches. */
  lemma AroundCount(i: nat, m: nat, r: nat)
    requires i < m
    ensures |Around(i, m, r)| == Fewer(m, 2 * r + 1)
  {
    var n := Fewer(m, 2 * r + 1);
    forall x: nat ensures x in Around(i, m, r) <==> x in Arc(i - r, n, m) { AroundIsArc(i, m, r, x); }
    assert Around(i, m, r) == Arc(i - r, n, m);
    ArcCount(i - r, n, m);
  }

  // ---------- three axes ----------

  /** The indices of a table of width w at the columns a and rows b. */
  ghost function Cross(a: set<nat>, b: set<nat>, w: nat): set<nat> { set x, y | x in a && y in b :: Index2(w, x, y) }

  lemma {:induction false} RowCount(a: set<nat>, y: nat, w: nat)
    ensures |Cross(a, {y}, w)| == |a|
    decreases |a|
  {
    if a == {} {
      assert Cross(a, {y}, w) == {};
    } else {
      var x :| x in a;
      var rest := a - {x};
      RowCount(rest, y, w);
      assert Cross(a, {y}, w) == Cross(rest, {y}, w) + {Index2(w, x, y)};
      assert Index2(w, x, y) !in Cross(rest, {y}, w);
    }
  }

  lemma {:induction false} CrossCount(a: set<nat>, b: set<nat>, w: nat)
    requires forall x :: x in a ==> x < w
    ensures |Cross(a, b, w)| == |a| * |b|
    decreases |b|
  {
    if b == {} {
      assert Cross(a, b, w) == {};
    } else {
      var y :| y in b;
      CrossCount(a, b - {y}, w);
      CrossLast(a, b, y, w);
    }
  }

  lemma CrossLast(a: set<nat>, b: set<nat>, y: nat, w: nat)
    requires y in b && (forall x :: x in a ==> x < w) && |Cross(a, b - {y}, w)| == |a| * |b - {y}|
    ensures |Cross(a, b, w)| == |a| * |b|
  {
    hide Cross;
    RowCount(a, y, w);
    CrossSplit(a, b, y, w);
    MoreRows(|a|, |b - {y}|);
  }

  lemma MoreRows(n: nat, k: nat)
    ensures n * (k + 1) == n * k + n
  {
  }

  lemma CrossSplit(a: set<nat>, b: set<nat>, y: nat, w: nat)
    requires y in b && forall x :: x in a ==> x < w
    ensures Cross(a, b, w) == Cross(a, b - {y}, w) + Cross(a, {y}, w)
    ensures Cross(a, b - {y}, w) !! Cross(a, {y}, w)
  {
    forall v | v in Cross(a, b - {y}, w) ensures v !in Cross(a, {y}, w) {
      var x, z :| x in a && z in b - {y} && v == Index2(w, x, z);
      Index2Inverse(w, x, z);
      forall u | u in a ensures Index2(w, u, y) != v { Index2Inverse(w, u, y); }
    }
  }

  datatype Dim = Dim(x: nat, y: nat, z: nat) {
    predicate Valid() { x >= 1 && y >= 1 && z >= 1 }

    function Cells(): nat { x * y * z }
  }

  datatype Cell = Cell(x: nat, y: nat, z: nat)

  predicate In(m: Dim, c: Cell) { c.x < m.x && c.y < m.y && c.z < m.z }

  function CellIndex(m: Dim, c: Cell): nat { Index3(m.x, m.y, c.x, c.y, c.z) }

  /** The indices of the cells next to a cell; rz is the radius along z. */
  ghost function Row(m: Dim, r: nat, rz: nat, c: Cell): set<nat> {
    Cross(Around(c.x, m.x, r), Cross(Around(c.y, m.y, r), Around(c.z, m.z, rz), m.y), m.x)
  }

  function RowLength(m: Dim, r: nat, rz: nat): nat {
    Fewer(m.x, 2 * r + 1) * (Fewer(m.y, 2 * r + 1) * Fewer(m.z, 2 * rz + 1))
  }

  /** Every row has the same number of different neighbours, so none is too long or too short. */
  lemma RowCountExact(m: Dim, r: nat, rz: nat, c: Cell)
    requires In(m, c)
    ensures |Row(m, r, rz, c)| == RowLength(m, r, rz)
  {
    AroundCount(c.x, m.x, r);
    AroundCount(c.y, m.y, r);
    AroundCount(c.z, m.z, rz);
    CrossCount(Around(c.y, m.y, r), Around(c.z, m.z, rz), m.y);
    CrossCount(Around(c.x, m.x, r), Cross(Around(c.y, m.y, r), Around(c.z, m.z, rz), m.y), m.x);
  }

  lemma RowMembers(m: Dim, r: nat, rz: nat, c: Cell, e: Cell)
    requires In(m, c) && In(m, e)
    ensures CellIndex(m, e) in Row(m, r, rz, c)
            <==> Reaches(c.x, m.x, r, e.x) && Reaches(c.y, m.y, r, e.y) && Reaches(c.z, m.z, rz, e.z)
  {
    var ys := Cross(Around(c.y, m.y, r), Around(c.z, m.z, rz), m.y);
    CrossMembers(Around(c.y, m.y, r), Around(c.z, m.z, rz), m.y, e.y, e.z);
    CrossMembers(Around(c.x, m.x, r), ys, m.x, e.x, Index2(m.y, e.y, e.z));
    assert CellIndex(m, e) == Index2(m.x, e.x, Index2(m.y, e.y, e.z));
  }

  lemma CrossMembers(a: set<nat>, b: set<nat>, w: nat, x: nat, y: nat)
    requires x < w && forall u :: u in a ==> u < w
    ensures Index2(w, x, y) in Cross(a, b, w) <==> x in a && y in b
  {
    Index2Inverse(w, x, y);
    if Index2(w, x, y) in Cross(a, b, w) {
      var u, v :| u in a && v in b && Index2(w, x, y) == Index2(w, u, v);
      Index2Inverse(w, u, v);
    }
  }

  /** Adjacency is symmetric. */
  lemma RowSymmetric(m: Dim, r: nat, rz: nat, c: Cell, e: Cell)
    requires In(m, c) && In(m, e) && CellIndex(m, e) in Row(m, r, rz, c)
    ensures CellIndex(m, c) in Row(m, r, rz, e)
  {
    RowMembers(m, r, rz, c, e);
    RowMembers(m, r, rz, e, c);
    ReachesBack(c.x, m.x, r, e.x);
    ReachesBack(c.y, m.y, r, e.y);
    ReachesBack(c.z, m.z, rz, e.z);
  }

  // ---------- gathering the neighbours of a cell ----------

  ghost function Elements(s: seq<nat>): set<nat> { set v | v in s }

  lemma CrossUnion(a: set<nat>, b: set<nat>, a': set<nat>, b': set<nat>, w: nat)
    ensures Cross(a, b + b', w) == Cross(a, b, w) + Cross(a, b', w)
    ensures Cross(a + a', b, w) == Cross(a, b, w) + Cross(a', b, w)
  {
  }

  lemma CrossOne(x: nat, y: nat, w: nat)
    ensures Cross({x}, {y}, w) == {Index2(w, x, y)}
  {
  }

  lemma ArcIsAround(i: nat, m: nat, r: nat)
    requires i < m
    ensures Arc(i - r, 2 * r + 1, m) == Around(i, m, r)
  {
    forall x: nat ensures x in Arc(i - r, 2 * r + 1, m) <==> x in Around(i, m, r) {
      ArcMembers(i - r, 2 * r + 1, m, x);
      if x in Around(i, m, r) {
        var d: int :| 0 - r <= d <= r && Step(i, d, m) == x;
        assert Step(i - r, d + r, m) == x;
      }
      if x in Arc(i - r, 2 * r + 1, m) {
        var t: int :| 0 <= t < 2 * r + 1 && Step(i - r, t, m) == x;
        assert Step(i, t - r, m) == x;
      }
    }
  }

  lemma WrapIsStep(n: int, start: int, m: nat)
    requires m >= 1
    ensures WrapIndex(n, m) == Step(start, n - start, m)
  {
    WrapIsModulo(n, m);
  }

  lemma ElementsAppend(s: seq<nat>, v: nat)
    ensures Elements(s + [v]) == Elements(s) + {v}
  {
  }

  lemma ArcStep(start: int, t: nat, m: nat)
    requires m >= 1
    ensures Arc(start, t + 1, m) == Arc(start, t, m) + {Step(start, t, m)} && Arc(start, 0, m) == {}
  {
  }

  lemma LineStep(start: int, t: nat, m: nat, row: nat)
    requires m >= 1
    ensures Cross(Arc(start, t + 1, m), {row}, m) == Cross(Arc(start, t, m), {row}, m)
            + {Index2(m, Step(start, t, m), row)}
    ensures Cross(Arc(start, 0, m), {row}, m) == {}
  {
    hide Arc;
    ArcStep(start, t, m);
    CrossUnion(Arc(start, t, m), {row}, {Step(start, t, m)}, {}, m);
    CrossOne(Step(start, t, m), row, m);
  }

  lemma PlaneStep(xs: set<nat>, start: int, t: nat, m: nat, k: nat, w: nat)
    requires m >= 1
    ensures Cross(xs, Cross(Arc(start, t + 1, m), {k}, m), w)
         == Cross(xs, Cross(Arc(start, t, m), {k}, m), w) + Cross(xs, {Index2(m, Step(start, t, m), k)}, w)
    ensures Cross(xs, Cross(Arc(start, 0, m), {k}, m), w) == {}
  {
    hide Arc;
    LineStep(start, t, m, k);
    CrossUnion(xs, Cross(Arc(start, t, m), {k}, m), {}, {Index2(m, Step(start, t, m), k)}, w);
  }

  lemma SpaceStep(xs: set<nat>, ys: set<nat>, start: int, t: nat, m: nat, h: nat, w: nat)
    requires m >= 1
    ensures Cross(xs, Cross(ys, Arc(start, t + 1, m), h), w)
         == Cross(xs, Cross(ys, Arc(start, t, m), h), w) + Cross(xs, Cross(ys, {Step(start, t, m)}, h), w)
    ensures Cross(xs, Cross(ys, Arc(start, 0, m), h), w) == {}
  {
    hide Arc;
    ArcStep(start, t, m);
    CrossUnion(ys, Arc(start, t, m), {}, {Step(start, t, m)}, h);
    CrossUnion(xs, Cross(ys, Arc(start, t, m), h), {}, Cross(ys, {Step(start, t, m)}, h), w);
  }

  lemma IndexNested(m: Dim, i: nat, j: nat, k: nat)
    ensures Index3(m.x, m.y, i, j, k) == Index2(m.x, i, Index2(m.y, j, k))
  {
  }

  /** The innermost loop: the neighbours in one line along x. */
  method GatherLine(m: Dim, r: nat, before: seq<nat>, c: Cell, j: nat, k: nat) returns (adj: seq<nat>)
    requires In(m, c)
    ensures Elements(adj) == Elements(before) + Cross(Around(c.x, m.x, r), {Index2(m.y, j, k)}, m.x)
  {
    hide Cross, Index2, Index3, Around, Arc, Step, Elements, WrapIndex;
    adj := before;
    ghost var row, start := Index2(m.y, j, k), c.x - r;
    var n: int := c.x - r;
    LineStep(start, 0, m.x, row);
    while n <= c.x + r
      invariant start <= n <= c.x + r + 1
      invariant Elements(adj) == Elements(before) + Cross(Arc(start, n - start, m.x), {row}, m.x)
    {
      var i := WrapIndex(n, m.x);
      WrapIsStep(n, start, m.x);
      IndexNested(m, i, j, k);
      LineStep(start, n - start, m.x, row);
      ElementsAppend(adj, Index3(m.x, m.y, i, j, k));
      adj := adj + [Index3(m.x, m.y, i, j, k)];
      n := n + 1;
    }
    ArcIsAround(c.x, m.x, r);
  }

  /** The middle loop: the neighbours in one plane. */
  method GatherPlane(m: Dim, r: nat, before: seq<nat>, c: Cell, k: nat) returns (adj: seq<nat>)
    requires In(m, c)
    ensures Elements(adj) == Elements(before) + Cross(Around(c.x, m.x, r), Cross(Around(c.y, m.y, r), {k}, m.y), m.x)
  {
    hide Cross, Index2, Around, Arc, Step, Elements, WrapIndex;
    adj := before;
    ghost var xs, start := Around(c.x, m.x, r), c.y - r;
    var n: int := c.y - r;
    PlaneStep(xs, start, 0, m.y, k, m.x);
    while n <= c.y + r
      invariant start <= n <= c.y + r + 1
      invariant Elements(adj) == Elements(before) + Cross(xs, Cross(Arc(start, n - start, m.y), {k}, m.y), m.x)
    {
      var j := WrapIndex(n, m.y);
      WrapIsStep(n, start, m.y);
      PlaneStep(xs, start, n - start, m.y, k, m.x);
      adj := GatherLine(m, r, adj, c, j, k);
      n := n + 1;
    }
    ArcIsAround(c.y, m.y, r);
  }

  /** All neighbours of a cell, some of them more than once. */
  method GatherNeighbors(m: Dim, r: nat, rz: nat, c: Cell) returns (adj: seq<nat>)
    requires In(m, c)
    ensures Elements(adj) == Row(m, r, rz, c)
  {
    adj := [];
    assert Elements(adj) == {};
    hide Cross, Index2, Around, Arc, Step, Elements, WrapIndex;
    ghost var xs, ys, start := Around(c.x, m.x, r), Around(c.y, m.y, r), c.z - rz;
    var n: int := c.z - rz;
    SpaceStep(xs, ys, start, 0, m.z, m.y, m.x);
    while n <= c.z + rz
      invariant start <= n <= c.z + rz + 1
      invariant Elements(adj) == Cross(xs, Cross(ys, Arc(start, n - start, m.z), m.y), m.x)
    {
      var k := WrapIndex(n, m.z);
      WrapIsStep(n, start, m.z);
      SpaceStep(xs, ys, start, n - start, m.z, m.y, m.x);
      adj := GatherPlane(m, r, adj, c, k);
      n := n + 1;
    }
    ArcIsAround(c.z, m.z, rz);
  }

  // ---------- the table ----------

  /** The rows of the cells before n list their neighbours in ascending order. */
  ghost predicate RowsDone(m: Dim, r: nat, rz: nat, data: seq<nat>, n: nat) {
    && |data| == RowLength(m, r, rz) * m.Cells()
    && forall c :: In(m, c) && CellIndex(m, c) < n ==> RowIs(m, r, rz, data, c)
  }

  ghost predicate RowIs(m: Dim, r: nat, rz: nat, data: seq<nat>, c: Cell) {
    var len, at := RowLength(m, r, rz), Index2(RowLength(m, r, rz), 0, CellIndex(m, c));
    at + len <= |data| && Lists(data[at..at + len], Row(m, r, rz, c))
  }

  lemma RowEnd(len: nat, i: nat, n: nat)
    requires i < n
    ensures Index2(len, 0, i) + len <= len * n
  {
    var rest := n - i - 1;
    assert n * len == i * len + len + rest * len;
  }

  lemma RowFits(m: Dim, r: nat, rz: nat, c: Cell)
    requires In(m, c)
    ensures CellIndex(m, c) < m.Cells()
    ensures Index2(RowLength(m, r, rz), 0, CellIndex(m, c)) + RowLength(m, r, rz) <= RowLength(m, r, rz) * m.Cells()
  {
    hide RowLength, Index2, Index3;
    Index3Bound(m.x, m.y, m.z, c.x, c.y, c.z);
    RowEnd(RowLength(m, r, rz), CellIndex(m, c), m.Cells());
  }

  lemma RowsApart(len: nat, i: nat, j: nat)
    requires i < j
    ensures Index2(len, 0, i) + len <= Index2(len, 0, j)
  {
    assert (i + 1) * len <= j * len;
  }

  lemma RowAdded(m: Dim, r: nat, rz: nat, data: seq<nat>, c: Cell, ts: seq<nat>)
    requires In(m, c) && RowsDone(m, r, rz, data, CellIndex(m, c)) && Lists(ts, Row(m, r, rz, c))
    requires |ts| == RowLength(m, r, rz)
    ensures var at := Index2(|ts|, 0, CellIndex(m, c));
            at + |ts| <= |data| && RowsDone(m, r, rz, data[..at] + ts + data[at + |ts|..], CellIndex(m, c) + 1)
  {
    hide Row, Lists, RowLength;
    RowFits(m, r, rz, c);
    var len, at := |ts|, Index2(|ts|, 0, CellIndex(m, c));
    var data' := data[..at] + ts + data[at + len..];
    forall e | In(m, e) && CellIndex(m, e) < CellIndex(m, c) + 1 ensures RowIs(m, r, rz, data', e) {
      if CellIndex(m, e) == CellIndex(m, c) {
        Index3Inverse(m.x, m.y, c.x, c.y, c.z);
        Index3Inverse(m.x, m.y, e.x, e.y, e.z);
        assert data'[at..at + len] == ts;
      } else {
        RowsApart(len, CellIndex(m, e), CellIndex(m, c));
        var from := Index2(len, 0, CellIndex(m, e));
        assert data'[from..from + len] == data[from..from + len];
      }
    }
  }

  /** Copies a row into the table. */
  method CopyRow(data: array<nat>, ts: seq<nat>, at: nat)
    requires at + |ts| <= data.Length
    modifies data
    ensures data[..] == old(data[..at]) + ts + old(data[at + |ts|..])
  {
    for k := 0 to |ts|
      invariant data[..at] == old(data[..at]) && data[at..at + k] == ts[..k]
      invariant data[at + |ts|..] == old(data[at + |ts|..])
    {
      data[at + k] := ts[k];
    }
    assert data[..] == data[..at] + data[at..at + |ts|] + data[at + |ts|..];
  }

  /** One cell: gathers its neighbours, sorts them, drops repetitions and stores the row. */
  method FillRow(m: Dim, r: nat, rz: nat, data: array<nat>, c: Cell)
    requires In(m, c) && RowsDone(m, r, rz, data[..], CellIndex(m, c))
    modifies data
    ensures RowsDone(m, r, rz, data[..], CellIndex(m, c) + 1)
  {
    hide Row, RowsDone, RowLength, Lists;
    var adj := GatherNeighbors(m, r, rz, c);
    var distinct := set v | v in adj;
    assert distinct == Elements(adj);
    var ts := Ascending(distinct);
    ListsCount(ts, Row(m, r, rz, c));
    RowCountExact(m, r, rz, c);
    RowAdded(m, r, rz, data[..], c, ts);
    var at := Index2(RowLength(m, r, rz), 0, CellIndex(m, c));
    ghost var was := data[..];
    assert was[..at] == data[..at] && was[at + |ts|..] == data[at + |ts|..];
    CopyRow(data, ts, at);
  }

  lemma LineEnds(m: Dim, j: nat, k: nat)
    ensures CellIndex(m, Cell(m.x, j, k)) == CellIndex(m, Cell(0, j + 1, k))
    ensures CellIndex(m, Cell(0, m.y, k)) == CellIndex(m, Cell(0, 0, k + 1))
    ensures CellIndex(m, Cell(0, 0, m.z)) == m.Cells() && CellIndex(m, Cell(0, 0, 0)) == 0
  {
    assert (k * m.y + j) * m.x + m.x == (k * m.y + j + 1) * m.x;
    assert k * m.y + m.y == (k + 1) * m.y;
    assert m.z * m.y * m.x == m.x * m.y * m.z;
  }

  method FillLine(m: Dim, r: nat, rz: nat, data: array<nat>, j: nat, k: nat)
    requires j < m.y && k < m.z && RowsDone(m, r, rz, data[..], CellIndex(m, Cell(0, j, k)))
    modifies data
    ensures RowsDone(m, r, rz, data[..], CellIndex(m, Cell(0, j + 1, k)))
  {
    hide RowsDone;
    for i := 0 to m.x
      invariant RowsDone(m, r, rz, data[..], CellIndex(m, Cell(i, j, k)))
    {
      FillRow(m, r, rz, data, Cell(i, j, k));
    }
    LineEnds(m, j, k);
  }

  /** Fills the table of adjacent cells; a flat system has no neighbours along z. */
  method InitializeAdjacency(m: Dim, radius: nat, flat: bool) returns (data: array<nat>)
    requires m.Valid()
    ensures fresh(data) && RowsDone(m, radius, if flat then 0 else radius, data[..], m.Cells())
  {
    var rz := if flat then 0 else radius;
    data := new nat[RowLength(m, radius, rz) * m.Cells()];
    LineEnds(m, 0, 0);
    assert RowsDone(m, radius, rz, data[..], CellIndex(m, Cell(0, 0, 0)));
    hide RowsDone, CellIndex;
    for k := 0 to m.z
      invariant RowsDone(m, radius, rz, data[..], CellIndex(m, Cell(0, 0, k)))
    {
      for j := 0 to m.y
        invariant RowsDone(m, radius, rz, data[..], CellIndex(m, Cell(0, j, k)))
      {
        FillLine(m, radius, rz, data, j, k);
      }
      LineEnds(m, 0, k);
    }
  }
}
