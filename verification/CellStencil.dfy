/** The stencil of cells to search around a cell for particles within a radius, in a periodic grid. */
module CellStencil {
  import opened Indexing
  import opened CellAdjacency
  import opened Reals

  datatype Offset = Offset(x: int, y: int, z: int)

  datatype Widths = Widths(x: real, y: real, z: real)

  const ZERO := Offset(0, 0, 0)

  /** The grid, the widths of its cells, the periodic directions, and whether the system is flat. */
  datatype Setup = Setup(dim: Dim, width: Widths, periodicX: bool, periodicY: bool, periodicZ: bool, flat: bool) {
    predicate Valid() { dim.Valid() && width.x > 0.0 && width.y > 0.0 && width.z > 0.0 && (flat ==> dim.z == 1) }
  }

  function Ceiling(x: real): int { -(-x).Floor }

  /** The distance between the nearest points of two cells that are i apart. */
  function Gap(i: int, w: real): real {
    if i > 0 then Times((i - 1) as real, w) else if i < 0 then Times((i + 1) as real, w) else 0.0
  }

  function Square(x: real): real { Times(x, x) }

  function Distance2(s: Setup, o: Offset): real {
    Square(Gap(o.x, s.width.x)) + Square(Gap(o.y, s.width.y)) + Square(Gap(o.z, s.width.z))
  }

  function Middle(m: nat): nat { if m == 0 then 0 else (m - 1) / 2 }

  /** The offset does not lead out of the grid from its middle cell. */
  predicate Stays(i: int, m: nat) { 0 <= Middle(m) + i < m }

  /** The tests of the three loops; the one along x looks at the periodicity along z. */
  predicate Kept(s: Setup, o: Offset) {
    && (s.periodicZ ==> Stays(o.z, s.dim.z)) && (s.periodicY ==> Stays(o.y, s.dim.y))
    && (s.periodicZ ==> Stays(o.x, s.dim.x))
  }

  function Size(s: Setup, r: real): Offset
    requires s.Valid()
  {
    Offset(Ceiling(r / s.width.x), Ceiling(r / s.width.y), if s.flat then 0 else Ceiling(r / s.width.z))
  }

  predicate Bounded(i: int, n: int) { -n <= i <= n }

  /** The offsets that belong to the stencil. */
  predicate Listed(s: Setup, r: real, o: Offset)
    requires s.Valid()
  {
    var n := Size(s, r);
    Bounded(o.x, n.x) && Bounded(o.y, n.y) && Bounded(o.z, n.z) && Kept(s, o) && Distance2(s, o) < Square(r)
  }

  function Abs(i: int): nat { if i < 0 then -i else i }

  // ---------- centred representatives ----------

  /** The offset from the middle cell that leads to the same cell. */
  function Centred(e: int, m: nat): int
    requires m >= 1
  {
    Step(Middle(m), e, m) - Middle(m)
  }

  lemma CentredSame(e: int, m: nat)
    requires m >= 1
    ensures Stays(Centred(e, m), m) && (Centred(e, m) - e) % m == 0
    ensures 0 <= Middle(m) + e < m ==> Centred(e, m) == e
  {
    var o := Middle(m);
    var q := (o + e) / m;
    assert o + e == m * q + Step(o, e, m);
    ModuloOf(Centred(e, m) - e, m, -q, 0);
    if 0 <= o + e < m { ModuloOf(o + e, m, 0, o + e); }
  }

  lemma CentredNearest(e: int, m: nat)
    requires m >= 1
    ensures Stays(Centred(e, m), m) && (Centred(e, m) - e) % m == 0 && Abs(Centred(e, m)) <= Abs(e)
  {
    CentredSame(e, m);
    hide Centred;
  }

  /** Two offsets that stay in the grid and lead to the same cell are equal. */
  lemma StaysUnique(i: int, j: int, m: nat)
    requires m >= 1 && Stays(i, m) && Stays(j, m) && (i - j) % m == 0
    ensures i == j
  {
    var q := (i - j) / m;
    assert i - j == m * q;
    BelowOne(m, q);
    assert m * (-q) == j - i;
    BelowOne(m, -q);
  }

  // ---------- distances ----------

  lemma SquareMore(a: real, b: real)
    requires 0.0 <= a <= b
    ensures Square(a) <= Square(b)
  {
    hide Times;
    TimesMore(a, b, a);
    TimesMore(a, b, b);
  }

  lemma SquareLess(a: real, b: real)
    requires a >= 0.0 && b >= 0.0 && Square(a) < Square(b)
    ensures a < b
  {
    hide Square;
    if a >= b { SquareMore(b, a); }
  }

  lemma SquareStrict(a: real, b: real)
    requires 0.0 <= a < b
    ensures Square(a) < Square(b)
  {
    hide Times;
    TimesMore(a, b, a);
    TimesStrict(a, b, b);
  }

  lemma SquarePositive(r: real)
    requires r > 0.0
    ensures Square(r) > 0.0
  {
    hide Times;
    TimesPositive(r, r);
  }

  lemma SquareSign(a: real)
    ensures Square(-a) == Square(a)
  {
    hide Times;
    TimesSigns(a, a);
  }

  function AbsGap(i: int, w: real): real { if i == 0 then 0.0 else Times((Abs(i) - 1) as real, w) }

  lemma GapSquare(i: int, w: real)
    requires w > 0.0
    ensures AbsGap(i, w) >= 0.0 && Square(Gap(i, w)) == Square(AbsGap(i, w))
  {
    hide Times, Square;
    TimesMinus(0.0, 0.0, w);
    if i != 0 { TimesMore(0.0, (Abs(i) - 1) as real, w); }
    if i < 0 {
      TimesSigns((Abs(i) - 1) as real, w);
      SquareSign(AbsGap(i, w));
    }
  }

  lemma GapGrows(i: int, j: int, w: real)
    requires w > 0.0 && Abs(i) <= Abs(j)
    ensures Square(Gap(i, w)) <= Square(Gap(j, w))
  {
    hide Times, Square, Gap;
    GapSquare(i, w);
    GapSquare(j, w);
    if i != 0 { TimesMore((Abs(i) - 1) as real, (Abs(j) - 1) as real, w); }
    SquareMore(AbsGap(i, w), AbsGap(j, w));
  }

  lemma CeilingCovers(r: real, w: real)
    requires w > 0.0
    ensures Times(Ceiling(r / w) as real, w) >= r
  {
    hide Times;
    TimesQuotient(r, w);
    TimesMore(r / w, Ceiling(r / w) as real, w);
  }

  /** An offset whose gap is below the radius is within the size of the stencil. */
  lemma GapBounded(i: int, w: real, r: real)
    requires w > 0.0 && r > 0.0 && Square(Gap(i, w)) < Square(r)
    ensures Bounded(i, Ceiling(r / w))
  {
    GapSquare(i, w);
    SquareLess(AbsGap(i, w), r);
    hide Square, Gap, Times;
    CeilingCovers(r, w);
    var c := Ceiling(r / w);
    if i != 0 {
      FewerWidths(Abs(i) - 1, c, w);
    } else {
      assert r / w > 0.0;
    }
  }

  /** An offset within the size of the stencil has a gap below the radius. */
  lemma GapWithin(i: int, w: real, r: real)
    requires w > 0.0 && r > 0.0 && Bounded(i, Ceiling(r / w))
    ensures Square(Gap(i, w)) < Square(r)
  {
    hide Times, Square, Gap;
    GapSquare(i, w);
    if i != 0 {
      TimesQuotient(r, w);
      TimesStrict((Abs(i) - 1) as real, r / w, w);
    }
    SquareStrict(AbsGap(i, w), r);
  }

  lemma FewerWidths(a: int, c: int, w: real)
    requires w > 0.0 && Times(a as real, w) < Times(c as real, w)
    ensures a < c
  {
    hide Times;
    TimesLess(a as real, c as real, w);
  }

  // ---------- what the stencil promises ----------

  predicate SameAlong(periodic: bool, i: int, j: int, m: nat)
    requires m >= 1
  {
    if periodic then (i - j) % m == 0 else i == j
  }

  /** The offsets lead to the same cell from any cell. */
  predicate SameTarget(s: Setup, o: Offset, p: Offset)
    requires s.Valid()
  {
    && SameAlong(s.periodicX, o.x, p.x, s.dim.x) && SameAlong(s.periodicY, o.y, p.y, s.dim.y)
    && SameAlong(s.periodicZ, o.z, p.z, s.dim.z)
  }

  /** The tests of the loops keep apart all offsets that lead to the same cell: those along x fail to when the
      box is periodic along x but not along z and the stencil is wide enough to meet itself. */
  predicate KeptApart(s: Setup, r: real)
    requires s.Valid()
  {
    (s.periodicX ==> s.periodicZ) || 2 * Size(s, r).x < s.dim.x
  }

  /** Two offsets closer than the grid is wide that lead to the same cell are equal. */
  lemma NarrowUnique(i: int, j: int, n: int, m: nat)
    requires m >= 1 && Bounded(i, n) && Bounded(j, n) && 2 * n < m && (i - j) % m == 0
    ensures i == j
  {
    var q := (i - j) / m;
    assert i - j == m * q;
    BelowOne(m, q);
    assert m * (-q) == j - i;
    BelowOne(m, -q);
  }

  lemma NoCellTwice(s: Setup, r: real, o: Offset, p: Offset)
    requires s.Valid() && KeptApart(s, r) && Listed(s, r, o) && Listed(s, r, p) && SameTarget(s, o, p)
    ensures o == p
  {
    hide Stays, Distance2, Size;
    if s.periodicX {
      if s.periodicZ { StaysUnique(o.x, p.x, s.dim.x); } else { NarrowUnique(o.x, p.x, Size(s, r).x, s.dim.x); }
    }
    if s.periodicY { StaysUnique(o.y, p.y, s.dim.y); }
    if s.periodicZ { StaysUnique(o.z, p.z, s.dim.z); }
  }

  ghost predicate NoneTwice(s: Setup, r: real)
    requires s.Valid()
  {
    forall o, p :: Listed(s, r, o) && Listed(s, r, p) && SameTarget(s, o, p) ==> o == p
  }

  /** Without the test along x every offset along x of the stencil's size is listed. */
  lemma LineListed(s: Setup, r: real, i: int)
    requires s.Valid() && r > 0.0 && !s.periodicZ && Bounded(i, Size(s, r).x)
    ensures Listed(s, r, Offset(i, 0, 0))
  {
    SizePositive(s, r);
    GapWithin(i, s.width.x, r);
    LineDistance(s, i);
    hide Square, Gap, Size, Distance2;
  }

  lemma LineDistance(s: Setup, i: int)
    ensures Distance2(s, Offset(i, 0, 0)) == Square(Gap(i, s.width.x))
  {
  }

  lemma TwiceAlongX(s: Setup, r: real)
    requires s.Valid() && r > 0.0 && !KeptApart(s, r)
    ensures !NoneTwice(s, r)
  {
    var n, m := Size(s, r).x, s.dim.x;
    SizePositive(s, r);
    LineListed(s, r, -n);
    LineListed(s, r, m - n);
    var o, p := Offset(m - n, 0, 0), Offset(-n, 0, 0);
    hide Listed, Size;
    ModuloOf(m, m, 1, 0);
    ModuloOf(0, s.dim.y, 0, 0);
    assert SameTarget(s, o, p);
  }

  /** For every box, grid and radius: no cell is listed twice exactly when the tests keep the offsets apart. */
  lemma NoneTwiceExactly(s: Setup, r: real)
    requires s.Valid() && r > 0.0
    ensures NoneTwice(s, r) <==> KeptApart(s, r)
  {
    hide Listed, SameTarget, KeptApart;
    if KeptApart(s, r) {
      forall o, p | Listed(s, r, o) && Listed(s, r, p) && SameTarget(s, o, p)
        ensures o == p
      {
        NoCellTwice(s, r, o, p);
      }
    } else {
      TwiceAlongX(s, r);
    }
  }

  // ---------- no cell is missed ----------

  /** The offset leads from some cell to another without leaving the grid through a face that is not periodic. */
  predicate Feasible(s: Setup, e: Offset) {
    && (s.periodicX || Abs(e.x) < s.dim.x) && (s.periodicY || Abs(e.y) < s.dim.y) && (s.periodicZ || Abs(e.z) < s.dim.z)
  }

  /** The offset that stands in the stencil for a given one. */
  function Stand(periodic: bool, e: int, m: nat): int
    requires m >= 1
  {
    if periodic then Centred(e, m) else e
  }

  function StandIn(s: Setup, e: Offset): Offset
    requires s.Valid()
  {
    Offset(Stand(s.periodicX, e.x, s.dim.x), Stand(s.periodicY, e.y, s.dim.y), Stand(s.periodicZ, e.z, s.dim.z))
  }

  /** The test along x drops no offset that is needed: it does when the box is periodic along z but not along x,
      unless the grid is a single cell wide or its lower half is wider than the radius. */
  predicate KeepsNeeded(s: Setup, r: real)
    requires s.Valid()
  {
    (s.periodicZ ==> s.periodicX) || s.dim.x == 1 || Times(Middle(s.dim.x) as real, s.width.x) >= r
  }

  lemma StandNearest(periodic: bool, e: int, m: nat, w: real)
    requires m >= 1 && w > 0.0 && (periodic || Abs(e) < m)
    ensures SameAlong(periodic, Stand(periodic, e, m), e, m) && Abs(Stand(periodic, e, m)) <= Abs(e)
    ensures periodic ==> Stays(Stand(periodic, e, m), m)
    ensures m == 1 ==> Stand(periodic, e, m) == 0
    ensures Square(Gap(Stand(periodic, e, m), w)) <= Square(Gap(e, w))
  {
    CentredNearest(e, m);
    hide Centred, Square, Gap;
    GapGrows(Stand(periodic, e, m), e, w);
  }

  /** An offset within the lower half of the grid stays in it. */
  lemma HalfStays(e: int, m: nat, w: real, r: real)
    requires m >= 1 && w > 0.0 && r > 0.0 && Square(Gap(e, w)) < Square(r) && Abs(e) < m
    requires m == 1 || Times(Middle(m) as real, w) >= r
    ensures Stays(e, m)
  {
    if m > 1 && e != 0 {
      GapSquare(e, w);
      SquareLess(AbsGap(e, w), r);
      hide Square, Gap, Times;
      FewerWidths(Abs(e) - 1, Middle(m), w);
    }
  }

  /** Every cell with a point within the radius is listed, at a distance that is not overestimated. */
  lemma NoCellMissed(s: Setup, r: real, e: Offset)
    requires s.Valid() && r > 0.0 && KeepsNeeded(s, r) && Feasible(s, e) && Distance2(s, e) < Square(r)
    ensures Listed(s, r, StandIn(s, e)) && SameTarget(s, StandIn(s, e), e)
    ensures Distance2(s, StandIn(s, e)) <= Distance2(s, e)
  {
    hide Ceiling, Stand, Gap, SameAlong, Times, Square;
    var o := StandIn(s, e);
    StandNearest(s.periodicX, e.x, s.dim.x, s.width.x);
    StandNearest(s.periodicY, e.y, s.dim.y, s.width.y);
    StandNearest(s.periodicZ, e.z, s.dim.z, s.width.z);
    OneAxisLess(s, r, o);
    GapBounded(o.x, s.width.x, r);
    GapBounded(o.y, s.width.y, r);
    GapBounded(o.z, s.width.z, r);
    if s.periodicZ && !s.periodicX { StandIsSelf(e.x, s.dim.x); HalfStays(o.x, s.dim.x, s.width.x, r); }
  }

  lemma StandIsSelf(e: int, m: nat)
    requires m >= 1
    ensures Stand(false, e, m) == e
  {
  }

  ghost predicate Reached(s: Setup, r: real, e: Offset)
    requires s.Valid()
  {
    exists o :: Listed(s, r, o) && SameTarget(s, o, e)
  }

  ghost predicate NoneMissed(s: Setup, r: real)
    requires s.Valid()
  {
    forall e :: Feasible(s, e) && Distance2(s, e) < Square(r) ==> Reached(s, r, e)
  }

  /** The nearest cell that the test along x drops although it can be reached. */
  function Dropped(s: Setup): Offset { Offset(-1 - Middle(s.dim.x), 0, 0) }

  lemma DroppedIsMissed(s: Setup, r: real)
    requires s.Valid() && r > 0.0 && !KeepsNeeded(s, r)
    ensures Feasible(s, Dropped(s)) && Distance2(s, Dropped(s)) < Square(r) && !Reached(s, r, Dropped(s))
  {
    var e := Dropped(s);
    LineDistance(s, e.x);
    GapSquare(e.x, s.width.x);
    SquareStrict(AbsGap(e.x, s.width.x), r);
    hide Distance2, Size, Square, Gap;
    forall o | Listed(s, r, o) ensures !SameTarget(s, o, e) {
    }
  }

  /** For every box, grid and radius: no cell with a point within the radius is missed exactly when the test
      along x drops no offset that is needed. */
  lemma NoneMissedExactly(s: Setup, r: real)
    requires s.Valid() && r > 0.0
    ensures NoneMissed(s, r) <==> KeepsNeeded(s, r)
  {
    hide Listed, SameTarget, KeepsNeeded, Feasible, Distance2, Dropped, StandIn;
    if KeepsNeeded(s, r) {
      forall e | Feasible(s, e) && Distance2(s, e) < Square(r) ensures Reached(s, r, e) { NoCellMissed(s, r, e); }
    } else {
      DroppedIsMissed(s, r);
    }
  }

  lemma OneAxisLess(s: Setup, r: real, o: Offset)
    requires Distance2(s, o) < Square(r)
    ensures Square(Gap(o.x, s.width.x)) < Square(r)
    ensures Square(Gap(o.y, s.width.y)) < Square(r)
    ensures Square(Gap(o.z, s.width.z)) < Square(r)
  {
    hide Gap;
  }

  /** A position in units of cells along each axis; periodic images lie whole grids apart. */
  datatype Point = Point(x: real, y: real, z: real)

  function CellsApart(p: Point, q: Point): Offset {
    Offset(q.x.Floor - p.x.Floor, q.y.Floor - p.y.Floor, q.z.Floor - p.z.Floor)
  }

  /** The squared distance along one axis. */
  function Along(a: real, b: real, w: real): real { Square(Times(b - a, w)) }

  lemma FloorsApart(a: real, b: real)
    requires b.Floor != a.Floor
    ensures (Abs(b.Floor - a.Floor) - 1) as real <= if b >= a then b - a else a - b
  {
  }

  lemma GapBelow(a: real, b: real, w: real)
    requires w > 0.0
    ensures Square(Gap(b.Floor - a.Floor, w)) <= Along(a, b, w)
  {
    hide Times, Square, Gap;
    var e := b.Floor - a.Floor;
    var d := if b >= a then b - a else a - b;
    GapSquare(e, w);
    TimesMinus(0.0, 0.0, w);
    TimesMore(0.0, d, w);
    if e != 0 {
      FloorsApart(a, b);
      TimesMore((Abs(e) - 1) as real, d, w);
    }
    SquareMore(AbsGap(e, w), Times(d, w));
    SquareEven(b - a, d, w);
  }

  lemma SquareEven(c: real, d: real, w: real)
    requires c == d || c == -d
    ensures Square(Times(c, w)) == Square(Times(d, w))
  {
    hide Times, Square;
    TimesSigns(d, w);
    SquareSign(Times(d, w));
  }

  // ---------- the distance of two cells ----------

  /** By how much at most the square of g grows when e parts of w are added to it, per part. */
  function Growth(g: real, w: real): real { 2.0 * Times(g, w) + Square(w) }

  lemma SquareSum(g: real, u: real)
    ensures Square(g + u) == Square(g) + 2.0 * Times(g, u) + Square(u)
  {
  }

  lemma SquareScaled(e: real, w: real)
    ensures Square(Times(e, w)) == Times(Times(e, e), Square(w))
  {
  }

  lemma GrowthScaled(e: real, g: real, w: real)
    ensures Times(e, Growth(g, w)) == 2.0 * Times(e, Times(g, w)) + Times(e, Square(w))
  {
  }

  lemma SquareNudge(g: real, w: real, e: real)
    requires 0.0 < e <= 1.0 && g >= 0.0 && w > 0.0
    ensures Square(g + Times(e, w)) <= Square(g) + Times(e, Growth(g, w)) && Growth(g, w) > 0.0
  {
    assert Growth(g, w) == 2.0 * Times(g, w) + Square(w);
    hide Square, Times, Growth;
    SquarePositive(w);
    TimesMore(0.0, g, w);
    TimesMinus(0.0, 0.0, w);
    SquareSum(g, Times(e, w));
    SquareScaled(e, w);
    TimesMore(e, 1.0, e);
    TimesMinus(1.0, 0.0, e);
    TimesMore(Times(e, e), e, Square(w));
    TimesSwap(e, g, w);
    GrowthScaled(e, g, w);
  }

  /** Points of cells that are i apart, e cells farther from each other than the nearest corners. */
  function From(i: int, e: real): real { if i > 0 then 1.0 - e else 0.0 }

  function To(i: int, e: real): real { if i > 0 then i as real else if i < 0 then (i + 1) as real - e else 0.0 }

  lemma NudgedAlong(i: int, w: real, e: real)
    requires w > 0.0 && 0.0 < e <= 1.0
    ensures From(i, e).Floor == 0 && To(i, e).Floor == i
    ensures Along(From(i, e), To(i, e), w) <= Square(Gap(i, w)) + Times(e, Growth(AbsGap(i, w), w))
    ensures Growth(AbsGap(i, w), w) > 0.0
  {
    hide Times, Square, Gap, Growth;
    var a := (Abs(i) - 1) as real;
    GapSquare(i, w);
    SquareNudge(AbsGap(i, w), w, e);
    TimesMinus(a, -e, w);
    TimesMinus(e, 0.0, w);
    if i == 0 {
      NoSeparation(w, e);
    } else {
      SquareEven(To(i, e) - From(i, e), a + e, w);
    }
  }

  lemma NoSeparation(w: real, e: real)
    requires w > 0.0 && e > 0.0
    ensures Along(0.0, 0.0, w) == 0.0 && Square(Gap(0, w)) == 0.0 && Times(e, Growth(AbsGap(0, w), w)) >= 0.0
  {
    SquarePositive(w);
    assert Growth(0.0, w) == Square(w);
    hide Square, Growth;
    TimesPositive(e, Square(w));
  }

  lemma SmallPart(d: real, k: real) returns (e: real)
    requires d > 0.0 && k > 0.0
    ensures 0.0 < e <= 1.0 && Times(e, k) < d
  {
    var q := d / (2.0 * k);
    e := if q < 1.0 then q else 1.0;
    assert q * (2.0 * k) == d && q > 0.0;
    assert (q - e) * k >= 0.0;
  }

  /** If the distance of two cells is below the radius they have points that are. */
  lemma NearPoints(s: Setup, r: real, o: Offset) returns (p: Point, q: Point)
    requires s.Valid() && Distance2(s, o) < Square(r)
    ensures CellsApart(p, q) == o && Separation2(s, p, q) < Square(r)
  {
    hide Times, Square, Gap, Growth, Along, AbsGap, From, To;
    var kx, ky, kz := Growth(AbsGap(o.x, s.width.x), s.width.x), Growth(AbsGap(o.y, s.width.y), s.width.y),
                      Growth(AbsGap(o.z, s.width.z), s.width.z);
    NudgedAlong(o.x, s.width.x, 1.0);
    NudgedAlong(o.y, s.width.y, 1.0);
    NudgedAlong(o.z, s.width.z, 1.0);
    var e := SmallPart(Square(r) - Distance2(s, o), kx + ky + kz);
    NudgedAlong(o.x, s.width.x, e);
    NudgedAlong(o.y, s.width.y, e);
    NudgedAlong(o.z, s.width.z, e);
    TimesSum(e, kx, ky, kz);
    p, q := Point(From(o.x, e), From(o.y, e), From(o.z, e)), Point(To(o.x, e), To(o.y, e), To(o.z, e));
  }

  lemma TimesSum(e: real, a: real, b: real, c: real)
    ensures Times(e, a + b + c) == Times(e, a) + Times(e, b) + Times(e, c)
  {
  }

  /** The cells are near enough for a pair: one has a point within the radius of a point of the other. */
  ghost predicate HasPair(s: Setup, r: real, o: Offset) {
    exists p, q :: CellsApart(p, q) == o && Separation2(s, p, q) < Square(r)
  }

  /** The distance tested is below the radius exactly for cells with a pair of points within it. */
  lemma DistanceExactly(s: Setup, r: real, o: Offset)
    requires s.Valid()
    ensures Distance2(s, o) < Square(r) <==> HasPair(s, r, o)
  {
    hide Gap, Square, Along, Times;
    if Distance2(s, o) < Square(r) {
      var p, q := NearPoints(s, r, o);
    }
    if HasPair(s, r, o) {
      var p, q :| CellsApart(p, q) == o && Separation2(s, p, q) < Square(r);
      GapBelow(p.x, q.x, s.width.x);
      GapBelow(p.y, q.y, s.width.y);
      GapBelow(p.z, q.z, s.width.z);
    }
  }

  predicate InAxis(periodic: bool, a: real, m: nat) { periodic || 0 <= a.Floor < m }

  /** The position has a cell; on periodic axes it may be given by any of its images. */
  predicate InGrid(s: Setup, p: Point) {
    InAxis(s.periodicX, p.x, s.dim.x) && InAxis(s.periodicY, p.y, s.dim.y) && InAxis(s.periodicZ, p.z, s.dim.z)
  }

  predicate LeadsAlong(periodic: bool, a: real, i: int, b: real, m: nat)
    requires m >= 1
  {
    if periodic then Step(a.Floor, i, m) == b.Floor % m else a.Floor + i == b.Floor
  }

  /** The offset leads from the cell of p to that of q. */
  predicate Leads(s: Setup, p: Point, o: Offset, q: Point)
    requires s.Valid()
  {
    && LeadsAlong(s.periodicX, p.x, o.x, q.x, s.dim.x) && LeadsAlong(s.periodicY, p.y, o.y, q.y, s.dim.y)
    && LeadsAlong(s.periodicZ, p.z, o.z, q.z, s.dim.z)
  }

  function Separation2(s: Setup, p: Point, q: Point): real {
    Along(p.x, q.x, s.width.x) + Along(p.y, q.y, s.width.y) + Along(p.z, q.z, s.width.z)
  }

  ghost predicate CellFound(s: Setup, r: real, p: Point, q: Point)
    requires s.Valid()
  {
    exists o :: Listed(s, r, o) && Leads(s, p, o, q)
  }

  lemma SameLeads(periodic: bool, a: real, b: real, o: int, m: nat)
    requires m >= 1 && SameAlong(periodic, o, b.Floor - a.Floor, m)
    ensures LeadsAlong(periodic, a, o, b, m)
  {
    if periodic { SameCell(a.Floor, b.Floor, o, m); }
  }

  /** A particle within the radius of another, in any periodic image, is in a listed cell. */
  lemma PairFound(s: Setup, r: real, p: Point, q: Point)
    requires s.Valid() && r > 0.0 && KeepsNeeded(s, r) && InGrid(s, p) && InGrid(s, q)
    requires Separation2(s, p, q) < Square(r)
    ensures CellFound(s, r, p, q)
  {
    hide Gap, Square, Along, Listed, StandIn, SameAlong, KeepsNeeded, LeadsAlong;
    var e := CellsApart(p, q);
    GapBelow(p.x, q.x, s.width.x);
    GapBelow(p.y, q.y, s.width.y);
    GapBelow(p.z, q.z, s.width.z);
    NoCellMissed(s, r, e);
    var o := StandIn(s, e);
    SameLeads(s.periodicX, p.x, q.x, o.x, s.dim.x);
    SameLeads(s.periodicY, p.y, q.y, o.y, s.dim.y);
    SameLeads(s.periodicZ, p.z, q.z, o.z, s.dim.z);
  }

  ghost predicate EveryPairFound(s: Setup, r: real)
    requires s.Valid()
  {
    forall p, q :: InGrid(s, p) && InGrid(s, q) && Separation2(s, p, q) < Square(r) ==> CellFound(s, r, p, q)
  }

  /** The distance, in cells, by which a particle of the first cell is short of the second. */
  function Short(s: Setup, r: real): real
    requires s.width.x > 0.0
  {
    var left := (r / s.width.x - Middle(s.dim.x) as real) / 2.0;
    if left < 1.0 then left else 1.0
  }

  lemma LostPair(s: Setup, r: real) returns (p: Point, q: Point)
    requires s.Valid() && r > 0.0 && !KeepsNeeded(s, r)
    ensures InGrid(s, p) && InGrid(s, q) && Separation2(s, p, q) < Square(r) && !CellFound(s, r, p, q)
  {
    hide Times, Size, Square, Distance2;
    var m, w, c := s.dim.x, s.width.x, Middle(s.dim.x) as real;
    TimesQuotient(r, w);
    TimesLess(c, r / w, w);
    var short := Short(s, r);
    p, q := Point(c + 1.0, 0.0, 0.0), Point(1.0 - short, 0.0, 0.0);
    FloorOf(Middle(m) + 1);
    FloorOf(0);
    assert q.x.Floor == 0;
    TimesStrict(c + short, r / w, w);
    TimesMinus(0.0, 0.0, w);
    TimesMore(0.0, c + short, w);
    SquareStrict(Times(c + short, w), r);
    SquareEven(q.x - p.x, c + short, w);
    SamePoint(s.width.y);
    SamePoint(s.width.z);
    forall o | Listed(s, r, o) ensures !Leads(s, p, o, q) {
    }
  }

  lemma FloorOf(n: int)
    ensures (n as real).Floor == n
  {
  }

  lemma SamePoint(w: real)
    ensures Along(0.0, 0.0, w) == 0.0
  {
  }

  /** For every box, grid and radius: every pair within the radius is found exactly under the same condition. */
  lemma EveryPairFoundExactly(s: Setup, r: real)
    requires s.Valid() && r > 0.0
    ensures EveryPairFound(s, r) <==> KeepsNeeded(s, r)
  {
    hide CellFound, KeepsNeeded, InGrid, Separation2, Square;
    if KeepsNeeded(s, r) {
      forall p, q | InGrid(s, p) && InGrid(s, q) && Separation2(s, p, q) < Square(r) ensures CellFound(s, r, p, q) {
        PairFound(s, r, p, q);
      }
    } else {
      var p, q := LostPair(s, r);
    }
  }

  lemma SameCell(a: int, b: int, o: int, m: nat)
    requires m >= 1 && (o - (b - a)) % m == 0
    ensures Step(a, o, m) == b % m
  {
    var k, q := (o - (b - a)) / m, b / m;
    assert o - (b - a) == m * k && b == m * q + b % m;
    assert a + o == m * (k + q) + b % m;
    ModuloOf(a + o, m, k + q, b % m);
  }

  // ---------- computing it ----------

  datatype Entry = Entry(o: Offset, d2: real)

  ghost predicate Earlier(o: Offset, k: int, j: int, i: int) {
    o.z < k || (o.z == k && (o.y < j || (o.y == j && o.x < i)))
  }

  ghost predicate Holds(list: seq<Entry>, o: Offset) { exists n :: 0 <= n < |list| && list[n].o == o }

  /** The list starts with the cell itself and holds every listed offset before (k, j, i) once. */
  ghost predicate ListedUpTo(s: Setup, r: real, list: seq<Entry>, k: int, j: int, i: int)
    requires s.Valid()
  {
    && list != [] && list[0] == Entry(ZERO, 0.0)
    && (forall n :: 1 <= n < |list| ==> list[n].o != ZERO && Earlier(list[n].o, k, j, i) && Listed(s, r, list[n].o)
                                        && list[n].d2 == Distance2(s, list[n].o))
    && (forall n, l :: 0 <= n < l < |list| ==> list[n].o != list[l].o)
    && (forall o :: Listed(s, r, o) && Earlier(o, k, j, i) ==> Holds(list, o))
  }

  lemma HoldsMore(list: seq<Entry>, e: Entry, o: Offset)
    ensures Holds(list + [e], o) <==> Holds(list, o) || o == e.o
  {
    if Holds(list, o) {
      var n :| 0 <= n < |list| && list[n].o == o;
      assert (list + [e])[n].o == o;
    }
    assert (list + [e])[|list|] == e;
  }

  lemma Appended(s: Setup, r: real, list: seq<Entry>, k: int, j: int, i: int)
    requires s.Valid() && ListedUpTo(s, r, list, k, j, i) && Listed(s, r, Offset(i, j, k)) && Offset(i, j, k) != ZERO
    ensures ListedUpTo(s, r, list + [Entry(Offset(i, j, k), Distance2(s, Offset(i, j, k)))], k, j, i + 1)
  {
    hide Listed, Distance2, Holds;
    var e := Entry(Offset(i, j, k), Distance2(s, Offset(i, j, k)));
    forall o | Listed(s, r, o) && Earlier(o, k, j, i + 1) ensures Holds(list + [e], o) {
      HoldsMore(list, e, o);
      assert Earlier(o, k, j, i) || o == e.o;
    }
  }

  lemma Skipped(s: Setup, r: real, list: seq<Entry>, k: int, j: int, i: int)
    requires s.Valid() && ListedUpTo(s, r, list, k, j, i) && (!Listed(s, r, Offset(i, j, k)) || Offset(i, j, k) == ZERO)
    ensures ListedUpTo(s, r, list, k, j, i + 1)
  {
    hide Listed, Distance2;
    forall o | Listed(s, r, o) && Earlier(o, k, j, i + 1) ensures Holds(list, o) {
      assert Earlier(o, k, j, i) || o == Offset(i, j, k);
    }
  }

  /** The innermost loop. */
  method AddLine(s: Setup, r: real, before: seq<Entry>, k: int, j: int) returns (list: seq<Entry>)
    requires s.Valid() && r > 0.0 && Bounded(k, Size(s, r).z) && Bounded(j, Size(s, r).y)
    requires (s.periodicZ ==> Stays(k, s.dim.z)) && (s.periodicY ==> Stays(j, s.dim.y))
    requires ListedUpTo(s, r, before, k, j, -Size(s, r).x)
    ensures ListedUpTo(s, r, list, k, j, Size(s, r).x + 1)
  {
    hide ListedUpTo, Distance2, Size, Stays;
    list := before;
    var n := Size(s, r).x;
    SizePositive(s, r);
    var i := -n;
    while i <= n
      invariant -n <= i <= n + 1 && ListedUpTo(s, r, list, k, j, i)
    {
      var o := Offset(i, j, k);
      if (s.periodicZ && !Stays(i, s.dim.x)) || o == ZERO {
        Skipped(s, r, list, k, j, i);
      } else {
        var d2 := Distance2(s, o);
        if d2 < Square(r) {
          Appended(s, r, list, k, j, i);
          list := list + [Entry(o, d2)];
        } else {
          Skipped(s, r, list, k, j, i);
        }
      }
      i := i + 1;
    }
  }

  lemma SizePositive(s: Setup, r: real)
    requires s.Valid() && r > 0.0
    ensures Size(s, r).x >= 0 && Size(s, r).y >= 0 && Size(s, r).z >= 0
  {
    assert r / s.width.x > 0.0 && r / s.width.y > 0.0 && r / s.width.z > 0.0;
  }

  /** No listed offset lies between the end of one line and the start of the next. */
  lemma NextLine(s: Setup, r: real, list: seq<Entry>, k: int, j: int, i: int)
    requires s.Valid() && ListedUpTo(s, r, list, k, j, i)
    requires i > Size(s, r).x || !Bounded(j, Size(s, r).y) || (s.periodicY && !Stays(j, s.dim.y))
    ensures ListedUpTo(s, r, list, k, j + 1, -Size(s, r).x)
  {
    hide Distance2, Size, Stays;
    forall o | Listed(s, r, o) && Earlier(o, k, j + 1, -Size(s, r).x) ensures Earlier(o, k, j, i) {
    }
    forall n | 1 <= n < |list| ensures Earlier(list[n].o, k, j + 1, -Size(s, r).x) {
    }
  }

  lemma NextPlane(s: Setup, r: real, list: seq<Entry>, k: int, j: int)
    requires s.Valid() && ListedUpTo(s, r, list, k, j, -Size(s, r).x)
    requires j > Size(s, r).y || (s.periodicZ && !Stays(k, s.dim.z))
    ensures ListedUpTo(s, r, list, k + 1, -Size(s, r).y, -Size(s, r).x)
  {
    hide Distance2, Size, Stays;
    forall o | Listed(s, r, o) && Earlier(o, k + 1, -Size(s, r).y, -Size(s, r).x)
      ensures Earlier(o, k, j, -Size(s, r).x)
    {
    }
  }

  /** The middle loop. */
  method AddPlane(s: Setup, r: real, before: seq<Entry>, k: int) returns (list: seq<Entry>)
    requires s.Valid() && r > 0.0 && Bounded(k, Size(s, r).z) && (s.periodicZ ==> Stays(k, s.dim.z))
    requires ListedUpTo(s, r, before, k, -Size(s, r).y, -Size(s, r).x)
    ensures ListedUpTo(s, r, list, k + 1, -Size(s, r).y, -Size(s, r).x)
  {
    hide ListedUpTo, Size, Stays;
    list := before;
    var n := Size(s, r).y;
    SizePositive(s, r);
    var j := -n;
    while j <= n
      invariant -n <= j <= n + 1 && ListedUpTo(s, r, list, k, j, -Size(s, r).x)
    {
      if s.periodicY && !Stays(j, s.dim.y) {
        NextLine(s, r, list, k, j, -Size(s, r).x);
      } else {
        list := AddLine(s, r, list, k, j);
        NextLine(s, r, list, k, j, Size(s, r).x + 1);
      }
      j := j + 1;
    }
    NextPlane(s, r, list, k, j);
  }

  /** The list is the stencil: the cell itself first, then every other listed offset once. */
  ghost predicate IsStencil(s: Setup, r: real, list: seq<Entry>)
    requires s.Valid()
  {
    && list != [] && list[0] == Entry(ZERO, 0.0)
    && (forall n :: 0 <= n < |list| ==> list[n].d2 == Distance2(s, list[n].o))
    && (forall n, l :: 0 <= n < l < |list| ==> list[n].o != list[l].o)
    && (forall o :: Holds(list, o) <==> Listed(s, r, o))
  }

  lemma ZeroListed(s: Setup, r: real)
    requires s.Valid() && r > 0.0
    ensures Distance2(s, ZERO) == 0.0 && Listed(s, r, ZERO)
  {
    SizePositive(s, r);
    SquarePositive(r);
    assert Distance2(s, ZERO) == 0.0;
    hide Square, Size;
  }

  lemma ListComplete(s: Setup, r: real, list: seq<Entry>)
    requires s.Valid() && r > 0.0 && ListedUpTo(s, r, list, Size(s, r).z + 1, -Size(s, r).y, -Size(s, r).x)
    ensures IsStencil(s, r, list)
  {
    hide Size, Square;
    SizePositive(s, r);
    ZeroListed(s, r);
    forall o ensures Holds(list, o) <==> Listed(s, r, o) {
      if Listed(s, r, o) { assert Earlier(o, Size(s, r).z + 1, -Size(s, r).y, -Size(s, r).x); }
    }
  }

  /** No cell beyond the radius is listed, nor any beside a flat system. */
  lemma NoneBeyond(s: Setup, r: real, list: seq<Entry>)
    requires s.Valid() && IsStencil(s, r, list)
    ensures forall n :: 0 <= n < |list| ==> HasPair(s, r, list[n].o) && (s.flat ==> list[n].o.z == 0)
  {
    hide Square, Distance2, HasPair, Stays;
    forall n | 0 <= n < |list| ensures HasPair(s, r, list[n].o) && (s.flat ==> list[n].o.z == 0) {
      assert Holds(list, list[n].o);
      DistanceExactly(s, r, list[n].o);
    }
  }

  /** The stencil of one type: none for a type without interactions. */
  method ComputeStencil(s: Setup, r: real) returns (list: seq<Entry>)
    requires s.Valid()
    ensures if r <= 0.0 then list == [] else IsStencil(s, r, list)
    ensures forall n :: 0 <= n < |list| ==> HasPair(s, r, list[n].o) && (s.flat ==> list[n].o.z == 0)
  {
    if r <= 0.0 { return []; }
    hide Size, Stays, Distance2, HasPair;
    list := [Entry(ZERO, 0.0)];
    SizePositive(s, r);
    var n := Size(s, r).z;
    assert ListedUpTo(s, r, list, -n, -Size(s, r).y, -Size(s, r).x);
    hide ListedUpTo;
    var k := -n;
    while k <= n
      invariant -n <= k <= n + 1 && ListedUpTo(s, r, list, k, -Size(s, r).y, -Size(s, r).x)
    {
      if s.periodicZ && !Stays(k, s.dim.z) {
        NextPlane(s, r, list, k, -Size(s, r).y);
      } else {
        list := AddPlane(s, r, list, k);
      }
      k := k + 1;
    }
    ListComplete(s, r, list);
    NoneBeyond(s, r, list);
  }
}
