/** Bonded-group migration over all ranks: when particles move to a neighbour in a direction step, the
    groups they belong to follow, and every rank keeps exactly the groups it owns a member of. */
module GroupMigration {
  import opened Torus
  import opened Indexing

  // ---------- neighbours ----------

  /** Along axis a the positions are equal or, if the axis is communicated along, one step apart. */
  predicate AxisClose(g: Grid, p: Pos, q: Pos, a: Axis)
    requires g.Has(p) && g.Has(q)
  {
    || p.At(a) == q.At(a)
    || (&& g.Extent(a) != 1
        && (q.At(a) == Advance(p.At(a), g.Extent(a), true) || q.At(a) == Advance(p.At(a), g.Extent(a), false)))
  }

  /** q is one of the at most 26 neighbours of p. */
  predicate Close(g: Grid, p: Pos, q: Pos)
    requires g.Has(p) && g.Has(q)
  {
    p != q && AxisClose(g, p, q, 0) && AxisClose(g, p, q, 1) && AxisClose(g, p, q, 2)
  }

  /** Whoever sends to a neighbour is listened to by it. */
  lemma CloseSymmetric(g: Grid, p: Pos, q: Pos)
    requires g.Has(p) && g.Has(q)
    ensures Close(g, p, q) <==> Close(g, q, p)
  {
  }

  lemma NeighborIsClose(g: Grid, p: Pos, d: Dir)
    requires g.Has(p) && g.Communicating(d)
    ensures Close(g, p, Neighbor(g, p, d))
  {
    NeighborPairing(g, p, d);
  }

  /** One coordinate of a neighbour, with signed numbers. */
  function Shift(c: nat, n: nat, s: int): int { if c + s == n then 0 else if c + s < 0 then c + s + n else c + s }

  /** The displacement by i, j and k domains leads from p to q; along an axis with one domain there is none. */
  predicate Leads(g: Grid, p: Pos, i: int, j: int, k: int, q: Pos) {
    && -1 <= i <= 1 && -1 <= j <= 1 && -1 <= k <= 1 && !(i == 0 && j == 0 && k == 0)
    && (i == 0 || g.w != 1) && (j == 0 || g.h != 1) && (k == 0 || g.d != 1)
    && q.x == Shift(p.x, g.w, i) && q.y == Shift(p.y, g.h, j) && q.z == Shift(p.z, g.d, k)
  }

  /** Which displacement along an axis leads from c to e. */
  function Displacement(c: nat, n: nat, e: nat): int
    requires c < n
  {
    if e == c then 0 else if e == Advance(c, n, true) then 1 else -1
  }

  /** The neighbours are the positions at displacements of at most one domain along each axis, around the grid. */
  lemma CloseExactly(g: Grid, p: Pos, q: Pos)
    requires g.Has(p) && g.Has(q)
    ensures Close(g, p, q) <==> exists i, j, k :: Leads(g, p, i, j, k, q)
  {
    if Close(g, p, q) {
      assert Leads(g, p, Displacement(p.x, g.w, q.x), Displacement(p.y, g.h, q.y), Displacement(p.z, g.d, q.z), q);
    }
  }

  /** Before displacement (i, j, k) in the order of the loops. */
  predicate Before(a: int, b: int, c: int, i: int, j: int, k: int) { a < i || (a == i && (b < j || (b == j && c < k))) }

  ghost predicate ListedTo(g: Grid, p: Pos, list: seq<Pos>, i: int, j: int, k: int) {
    forall q :: q in list <==> exists a, b, c :: Before(a, b, c, i, j, k) && Leads(g, p, a, b, c, q)
  }

  lemma ListNext(g: Grid, p: Pos, list: seq<Pos>, i: int, j: int, k: int, more: seq<Pos>)
    requires ListedTo(g, p, list, i, j, k)
    requires forall q :: q in more <==> Leads(g, p, i, j, k, q)
    ensures ListedTo(g, p, list + more, i, j, k + 1)
  {
    hide Leads;
    forall q ensures q in list + more <==> exists a, b, c :: Before(a, b, c, i, j, k + 1) && Leads(g, p, a, b, c, q) {
      if q in list {
        var a, b, c :| Before(a, b, c, i, j, k) && Leads(g, p, a, b, c, q);
        assert Before(a, b, c, i, j, k + 1);
      }
      if q in more { assert Before(i, j, k, i, j, k + 1); }
    }
  }

  lemma ListTurn(g: Grid, p: Pos, list: seq<Pos>, i: int, j: int, k: int, i': int, j': int, k': int)
    requires ListedTo(g, p, list, i, j, k)
    requires forall a, b, c, q ::
               Leads(g, p, a, b, c, q) ==> (Before(a, b, c, i, j, k) <==> Before(a, b, c, i', j', k'))
    ensures ListedTo(g, p, list, i', j', k')
  {
    hide Leads, Before;
    forall q ensures q in list <==> exists a, b, c :: Before(a, b, c, i', j', k') && Leads(g, p, a, b, c, q) {
      if q in list {
        var a, b, c :| Before(a, b, c, i, j, k) && Leads(g, p, a, b, c, q);
        assert Before(a, b, c, i', j', k');
      }
    }
  }

  /** Lists the neighbours of p, some of them twice on short axes. */
  method FindNeighbors(g: Grid, p: Pos) returns (list: seq<Pos>)
    requires g.Has(p)
    ensures forall q :: q in list <==> g.Has(q) && Close(g, p, q)
  {
    list := [];
    hide ListedTo;
    EmptyListed(g, p);
    for i := -1 to 2
      invariant ListedTo(g, p, list, i, -1, -1)
    {
      if i != 0 && g.w == 1 {
        ListTurn(g, p, list, i, -1, -1, i + 1, -1, -1);
        continue;
      }
      list := AddPlane(g, p, list, i);
    }
    NeighborsComplete(g, p, list);
  }

  lemma EmptyListed(g: Grid, p: Pos)
    ensures ListedTo(g, p, [], -1, -1, -1)
  {
  }

  lemma NeighborsComplete(g: Grid, p: Pos, list: seq<Pos>)
    requires g.Has(p) && ListedTo(g, p, list, 2, -1, -1)
    ensures forall q :: q in list <==> g.Has(q) && Close(g, p, q)
  {
    hide Close;
    forall q ensures q in list <==> g.Has(q) && Close(g, p, q) {
      if g.Has(q) { CloseExactly(g, p, q); }
    }
  }

  method AddPlane(g: Grid, p: Pos, before: seq<Pos>, i: int) returns (list: seq<Pos>)
    requires g.Has(p) && -1 <= i <= 1 && (i == 0 || g.w != 1) && ListedTo(g, p, before, i, -1, -1)
    ensures ListedTo(g, p, list, i + 1, -1, -1)
  {
    list := before;
    hide ListedTo;
    for j := -1 to 2
      invariant ListedTo(g, p, list, i, j, -1)
    {
      if j != 0 && g.h == 1 {
        ListTurn(g, p, list, i, j, -1, i, j + 1, -1);
        continue;
      }
      list := AddRow(g, p, list, i, j);
    }
    ListTurn(g, p, list, i, 2, -1, i + 1, -1, -1);
  }

  method AddRow(g: Grid, p: Pos, before: seq<Pos>, i: int, j: int) returns (list: seq<Pos>)
    requires g.Has(p) && -1 <= i <= 1 && -1 <= j <= 1 && (i == 0 || g.w != 1) && (j == 0 || g.h != 1)
    requires ListedTo(g, p, before, i, j, -1)
    ensures ListedTo(g, p, list, i, j + 1, -1)
  {
    list := before;
    hide ListedTo;
    for k := -1 to 2
      invariant ListedTo(g, p, list, i, j, k)
    {
      var more: seq<Pos> := [];
      if (k == 0 || g.d != 1) && !(i == 0 && j == 0 && k == 0) {
        more := [Pos(Shift(p.x, g.w, i), Shift(p.y, g.h, j), Shift(p.z, g.d, k))];
      }
      ListNext(g, p, list, i, j, k, more);
      list := list + more;
    }
    ListTurn(g, p, list, i, j, 2, i, j + 1, -1);
  }

  // ---------- the destination as computed with unsigned numbers ----------

  const WORD: int := 0x1_0000_0000

  /** One coordinate of the destination: the step is added modulo 2^32, reaching the extent wraps to zero,
      and the test for a negative value never holds. */
  function StepUnsigned(c: nat, n: nat, step: int): nat {
    var r := (c + step) % WORD;
    if r == n then 0 else r
  }

  /** The index into the table of ranks at which the destination is looked up. */
  function DestinationIndex(g: Grid, p: Pos, d: Dir): nat {
    var step := if d % 2 == 0 then 1 else -1;
    var i := if d / 2 == 0 then StepUnsigned(p.x, g.w, step) else p.x;
    var j := if d / 2 == 1 then StepUnsigned(p.y, g.h, step) else p.y;
    var k := if d / 2 == 2 then StepUnsigned(p.z, g.d, step) else p.z;
    Index3(g.w, g.h, i, j, k) % WORD
  }

  function GridIndex(g: Grid, p: Pos): nat { Index3(g.w, g.h, p.x, p.y, p.z) }

  lemma WrappedStep(c: nat, n: nat, step: int)
    requires c < n < WORD - 1 && (step == 1 || step == -1)
    ensures StepUnsigned(c, n, step) == if step == -1 && c == 0 then WORD - 1 else Advance(c, n, step == 1)
  {
  }

  /** Two indices that differ by less than a word and are not equal stay different in a word. */
  lemma DifferentInWord(v: int, s: nat, m: nat)
    requires 0 < s < WORD && 0 <= v + s < WORD
    ensures (v + WORD * m) % WORD != v + s
  {
    assert (v + WORD * m) % WORD == v % WORD;
  }

  /** A coordinate of the largest word instead of the last of n leads to another index; the coordinate counts
      stride indices. */
  lemma WrongStride(rest: nat, stride: nat, n: nat)
    requires n >= 1 && 0 < n * stride < WORD && rest + (n - 1) * stride < WORD
    ensures (rest + (WORD - 1) * stride) % WORD != rest + (n - 1) * stride
  {
    var all := n * stride;
    assert (n - 1) * stride == all - stride;
    assert (WORD - 1) * stride == WORD * stride - stride;
    DifferentInWord(rest - stride, all, stride);
  }

  lemma MissedWest(g: Grid, p: Pos)
    requires g.Has(p) && g.w != 1 && g.w * g.h * g.d < WORD - 1 && p.x == 0
    ensures DestinationIndex(g, p, 1) != GridIndex(g, Neighbor(g, p, 1))
  {
    var q := Neighbor(g, p, 1);
    Index3Bound(g.w, g.h, g.d, q.x, q.y, q.z);
    ExtentsFit(g, p);
    WrappedStep(p.x, g.w, -1);
    WrongStride(Index3(g.w, g.h, 0, p.y, p.z), 1, g.w);
  }

  lemma AlongY(w: nat, h: nat, i: nat, j: nat, k: nat)
    ensures Index3(w, h, i, j, k) == Index3(w, h, i, 0, k) + j * w
  {
    assert (k * h + j) * w == (k * h + 0) * w + j * w;
  }

  lemma AlongZ(w: nat, h: nat, i: nat, j: nat, k: nat)
    ensures Index3(w, h, i, j, k) == Index3(w, h, i, j, 0) + k * (h * w)
  {
    var kh := k * h;
    assert (kh + j) * w == kh * w + j * w;
    assert kh * w == k * (h * w);
  }

  lemma MissedSouth(g: Grid, p: Pos)
    requires g.Has(p) && g.h != 1 && g.w * g.h * g.d < WORD - 1 && p.y == 0
    ensures DestinationIndex(g, p, 3) != GridIndex(g, Neighbor(g, p, 3))
  {
    var q := Neighbor(g, p, 3);
    Index3Bound(g.w, g.h, g.d, q.x, q.y, q.z);
    ExtentsFit(g, p);
    WrappedStep(p.y, g.h, -1);
    AlongY(g.w, g.h, p.x, WORD - 1, p.z);
    AlongY(g.w, g.h, p.x, g.h - 1, p.z);
    hide Index3;
    WrongStride(Index3(g.w, g.h, p.x, 0, p.z), g.w, g.h);
  }

  lemma MissedDown(g: Grid, p: Pos)
    requires g.Has(p) && g.d != 1 && g.w * g.h * g.d < WORD - 1 && p.z == 0
    ensures DestinationIndex(g, p, 5) != GridIndex(g, Neighbor(g, p, 5))
  {
    var q := Neighbor(g, p, 5);
    Index3Bound(g.w, g.h, g.d, q.x, q.y, q.z);
    ExtentsFit(g, p);
    WrappedStep(p.z, g.d, -1);
    AlongZ(g.w, g.h, p.x, p.y, WORD - 1);
    AlongZ(g.w, g.h, p.x, p.y, g.d - 1);
    hide Index3;
    WrongStride(Index3(g.w, g.h, p.x, p.y, 0), g.h * g.w, g.d);
  }

  /** A factor is at most the product. */
  lemma FactorBelow(a: nat, b: nat)
    requires b >= 1
    ensures a <= a * b && a <= b * a && b * a == a * b
  {
    assert a * (b - 1) >= 0;
  }

  lemma ExtentsFit(g: Grid, p: Pos)
    requires g.Has(p) && g.w * g.h * g.d < WORD - 1
    ensures g.w < WORD - 1 && g.h < WORD - 1 && g.d < WORD - 1
    ensures 0 < g.h * g.w < WORD && 0 < g.d * (g.h * g.w) < WORD
  {
    var plane := g.w * g.h;
    FactorBelow(g.w, g.h);
    FactorBelow(g.h, g.w);
    FactorBelow(plane, g.d);
    FactorBelow(g.d, plane);
  }

  lemma TakenStep(g: Grid, p: Pos, d: Dir)
    requires g.Has(p) && g.w * g.h * g.d < WORD - 1 && !(d % 2 == 1 && p.At(d / 2) == 0)
    ensures DestinationIndex(g, p, d) == GridIndex(g, Neighbor(g, p, d))
  {
    var q := Neighbor(g, p, d);
    Index3Bound(g.w, g.h, g.d, q.x, q.y, q.z);
    ExtentsFit(g, p);
    WrappedStep(p.At(d / 2), g.Extent(d / 2), if d % 2 == 0 then 1 else -1);
  }

  /** The table is looked up at the true neighbour exactly when the step does not go down from coordinate
      zero: the downward wrap across the grid boundary is missed. */
  lemma DestinationExact(g: Grid, p: Pos, d: Dir)
    requires g.Has(p) && g.Communicating(d) && g.w * g.h * g.d < WORD - 1
    ensures DestinationIndex(g, p, d) == GridIndex(g, Neighbor(g, p, d)) <==> !(d % 2 == 1 && p.At(d / 2) == 0)
  {
    hide DestinationIndex, GridIndex, Neighbor;
    if !(d % 2 == 1 && p.At(d / 2) == 0) { TakenStep(g, p, d); }
    else if d == 1 { MissedWest(g, p); }
    else if d == 3 { MissedSouth(g, p); }
    else { MissedDown(g, p); }
  }

  /** How many indices a step along the axis counts. */
  function Stride(g: Grid, a: Axis): nat { if a == 0 then 1 else if a == 1 then g.w else g.h * g.w }

  lemma BackInWord(rest: nat, stride: nat)
    requires rest < WORD && stride < WORD
    ensures (rest + (WORD - 1) * stride) % WORD == if stride <= rest then rest - stride else WORD + rest - stride
  {
    var v := if stride <= rest then rest - stride else WORD + rest - stride;
    var m := if stride <= rest then stride else stride - 1;
    assert rest + (WORD - 1) * stride == v + WORD * m;
    assert (v + WORD * m) % WORD == v % WORD;
  }

  lemma StrideFits(g: Grid, p: Pos, a: Axis)
    requires g.Has(p) && g.w * g.h * g.d < WORD - 1
    ensures Stride(g, a) <= g.w * g.h * g.d
  {
    var plane := g.w * g.h;
    FactorBelow(g.w, g.h);
    FactorBelow(plane, g.d);
  }

  lemma BackX(g: Grid, p: Pos)
    requires g.Has(p) && g.w < WORD - 1 && p.x == 0
    ensures DestinationIndex(g, p, 1) == (GridIndex(g, p) + (WORD - 1) * 1) % WORD
  {
    WrappedStep(p.x, g.w, -1);
  }

  lemma BackY(g: Grid, p: Pos)
    requires g.Has(p) && g.h < WORD - 1 && p.y == 0
    ensures DestinationIndex(g, p, 3) == (GridIndex(g, p) + (WORD - 1) * g.w) % WORD
  {
    hide Index3;
    WrappedStep(p.y, g.h, -1);
    AlongY(g.w, g.h, p.x, WORD - 1, p.z);
  }

  lemma BackZ(g: Grid, p: Pos)
    requires g.Has(p) && g.d < WORD - 1 && p.z == 0
    ensures DestinationIndex(g, p, 5) == (GridIndex(g, p) + (WORD - 1) * (g.h * g.w)) % WORD
  {
    hide Index3;
    WrappedStep(p.z, g.d, -1);
    AlongZ(g.w, g.h, p.x, p.y, WORD - 1);
  }

  lemma MissedAlong(g: Grid, p: Pos, d: Dir)
    requires g.Has(p) && g.w * g.h * g.d < WORD - 1 && d % 2 == 1 && p.At(d / 2) == 0
    ensures DestinationIndex(g, p, d) == (GridIndex(g, p) + (WORD - 1) * Stride(g, d / 2)) % WORD
  {
    hide DestinationIndex, GridIndex;
    ExtentsFit(g, p);
    if d == 1 { BackX(g, p); } else if d == 3 { BackY(g, p); } else { BackZ(g, p); }
  }

  /** Where the table is looked up when the wrap is missed: one step back in memory, and far behind the table from the
      cells that have no such step. */
  lemma MissedIndex(g: Grid, p: Pos, d: Dir)
    requires g.Has(p) && g.w * g.h * g.d < WORD - 1 && d % 2 == 1 && p.At(d / 2) == 0
    ensures var i, s := GridIndex(g, p), Stride(g, d / 2);
            DestinationIndex(g, p, d) == if s <= i then i - s else WORD + i - s
    ensures 2 * (g.w * g.h * g.d) <= WORD ==>
              (DestinationIndex(g, p, d) < g.w * g.h * g.d <==> Stride(g, d / 2) <= GridIndex(g, p))
  {
    Index3Bound(g.w, g.h, g.d, p.x, p.y, p.z);
    StrideFits(g, p, d / 2);
    MissedAlong(g, p, d);
    var all := g.w * g.h * g.d;
    hide Index3, DestinationIndex, Stride;
    BackInWord(GridIndex(g, p), Stride(g, d / 2));
  }

  // ---------- looking the destination up ----------

  /** The position stored at an index of the table of ranks. An index behind the table gives a position outside the
      grid; what the source would read there is not defined. */
  function PositionAt(g: Grid, index: nat): Pos
    requires g.Valid()
  {
    Pos(index % g.w, index / g.w % g.h, index / g.w / g.h)
  }

  lemma TableLookup(g: Grid, p: Pos)
    requires g.Has(p)
    ensures g.Valid() && PositionAt(g, GridIndex(g, p)) == p
  {
    Index3Inverse(g.w, g.h, p.x, p.y, p.z);
  }

  /** The rank that particles leaving in direction d are marked with. */
  function Destination(g: Grid, p: Pos, d: Dir): Pos
    requires g.Valid()
  {
    PositionAt(g, DestinationIndex(g, p, d))
  }

  lemma IndexOfPosition(g: Grid, index: nat)
    requires g.Valid()
    ensures GridIndex(g, PositionAt(g, index)) == index
  {
    var row := index / g.w;
    assert row == row / g.h * g.h + row % g.h;
    assert index == row * g.w + index % g.w;
  }

  /** The destination is the neighbour exactly when the step does not go down from coordinate zero. */
  lemma DestinationIsExact(g: Grid, p: Pos, d: Dir)
    requires g.Has(p) && g.Communicating(d) && g.w * g.h * g.d < WORD - 1
    ensures g.Valid() && (Destination(g, p, d) == Neighbor(g, p, d) <==> !(d % 2 == 1 && p.At(d / 2) == 0))
  {
    hide DestinationIndex, GridIndex, Neighbor, PositionAt;
    DestinationExact(g, p, d);
    TableLookup(g, Neighbor(g, p, d));
    IndexOfPosition(g, DestinationIndex(g, p, d));
  }
}
