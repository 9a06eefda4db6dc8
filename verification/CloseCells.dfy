/** Particles closer than the nominal width are in adjacent cells: which radius of adjacency that takes in the
    margin around the box in which particles are still accepted. */
module CloseCells {
  import opened CellAdjacency
  import opened CellBins
  import opened Reals

  /** The position is accepted along a periodic axis of m cells. */
  predicate Accepts(f: real, m: nat) { InMargin(f) && 0 <= BinAlong(f, m, true) < m }

  /** The particles are closer than the nominal width along an axis of this length, in some periodic image. */
  ghost predicate CloseAlong(f: real, g: real, length: real, nominal: real) {
    exists n: int :: Apart(f, g, n, length) < nominal
  }

  function Apart(f: real, g: real, n: int, length: real): real {
    var d := Times(g - f - n as real, length);
    if d < 0.0 then -d else d
  }

  /** Cells of the axis are at least as wide as the nominal width, unless there is a single one. */
  predicate WideEnough(m: nat, length: real, nominal: real) {
    m >= 1 && nominal > 0.0 && (m == 1 || Times(m as real, nominal) <= length)
  }

  // ---------- bins and positions in cells ----------

  /** Truncation moves positions below the lower face up by one cell. */
  function Lift(f: real): int { if f < 0.0 then 1 else 0 }

  lemma BinIsModulo(f: real, m: nat)
    requires m >= 1 && Accepts(f, m)
    ensures BinAlong(f, m, true) == (Times(f, m as real).Floor + Lift(f)) % m
    ensures f < 0.0 ==> BinAlong(f, m, true) == 0 && Times(f, m as real).Floor == -1
  {
    hide Times;
    TimesMinus(0.0, 0.0, m as real);
    if f < 0.0 {
      TimesStrict(f, 0.0, m as real);
      ModuloOf(0, m, 0, 0);
    } else {
      TimesMore(0.0, f, m as real);
      var i := Times(f, m as real).Floor;
      if i == m { ModuloOf(i, m, 1, 0); } else { ModuloOf(i, m, 0, i); }
    }
  }

  /** A distance below the nominal width is below k cells if k cells are at least that wide. */
  lemma ScaledBelow(d: real, length: real, nominal: real, m: real, k: real)
    requires Times(m, nominal) <= Times(k, length) && nominal > 0.0 && m > 0.0 && k > 0.0
    requires d >= 0.0 && Times(d, length) < nominal
    ensures Times(d, m) < k
  {
    hide Times;
    TimesMore(Times(m, nominal), Times(k, length), d);
    TimesAssociates(d, m, nominal);
    TimesSwap(d, k, length);
    TimesMinus(0.0, 0.0, k);
    TimesStrict(Times(d, length), nominal, k);
    TimesCommutes(k, nominal);
    TimesCommutes(k, Times(d, length));
    TimesLess(Times(d, m), k, nominal);
  }

  lemma ScaledDown(d: real, length: real, nominal: real, m: real, k: real)
    requires Times(m, nominal) <= Times(k, length) && nominal > 0.0 && m > 0.0 && k > 0.0
    requires -nominal < Times(d, length) < nominal
    ensures -k < Times(d, m) < k
  {
    hide Times;
    TimesSigns(d, length);
    TimesSigns(d, m);
    TimesMinus(0.0, 0.0, m);
    if d >= 0.0 {
      TimesMore(0.0, d, m);
      ScaledBelow(d, length, nominal, m, k);
    } else {
      TimesMore(d, 0.0, m);
      ScaledBelow(-d, length, nominal, m, k);
    }
  }

  /** Positions in cells of close particles differ by less than k, up to whole grids. */
  lemma CloseInCells(f: real, g: real, length: real, nominal: real, m: nat, n: int, k: real)
    requires m >= 1 && nominal > 0.0 && k > 0.0 && Times(m as real, nominal) <= Times(k, length)
    requires Apart(f, g, n, length) < nominal
    ensures -k < Times(g, m as real) - Times(f, m as real) - (n * m) as real < k
  {
    hide Times;
    var c := m as real;
    ScaledDown(g - f - n as real, length, nominal, c, k);
    TimesMinus(g - f, n as real, c);
    TimesMinus(g, f, c);
    TimesWhole(n, m);
  }

  lemma FloorShift(a: real, b: real, whole: int)
    requires -1.0 < b - a - whole as real < 1.0
    ensures -1 <= b.Floor - a.Floor - whole <= 1
  {
  }

  lemma ShiftedStep(a: int, b: int, n: int, d: int, m: nat, r: nat)
    requires m >= 1 && d == b - a - n * m && 0 - r <= d <= r
    ensures Reaches(a % m, m, r, b % m)
  {
    var p, q := a / m, b / m;
    assert a == m * p + a % m && b == m * q + b % m;
    assert a % m + d == m * (q - p - n) + b % m;
    ModuloOf(a % m + d, m, q - p - n, b % m);
    assert Step(a % m, d, m) == b % m;
  }

  // ---------- one axis ----------

  /** How many cells apart the bins of close particles are, up to whole grids. */
  lemma BinsApart(f: real, g: real, length: real, nominal: real, m: nat, n: int) returns (d: int)
    requires m >= 2 && WideEnough(m, length, nominal) && Accepts(f, m) && Accepts(g, m)
    requires Apart(f, g, n, length) < nominal
    ensures d == Times(g, m as real).Floor - Times(f, m as real).Floor - n * m && -1 <= d <= 1
    ensures forall r: nat :: 0 - r <= d + Lift(g) - Lift(f) <= r ==>
              Reaches(BinAlong(f, m, true), m, r, BinAlong(g, m, true))
  {
    hide Times, Reaches, BinAlong;
    TimesMinus(1.0, 0.0, length);
    CloseInCells(f, g, length, nominal, m, n, 1.0);
    var a, b := Times(f, m as real), Times(g, m as real);
    FloorShift(a, b, n * m);
    d := b.Floor - a.Floor - n * m;
    BinIsModulo(f, m);
    BinIsModulo(g, m);
    forall r: nat | 0 - r <= d + Lift(g) - Lift(f) <= r
      ensures Reaches(BinAlong(f, m, true), m, r, BinAlong(g, m, true))
    {
      ShiftedStep(a.Floor + Lift(f), b.Floor + Lift(g), n, d + Lift(g) - Lift(f), m, r);
    }
  }

  /** Adjacency under radius one covers the margin below the lower face: the axis has at most three cells, or its
      cells are wider than the nominal width by at least that margin. */
  predicate MarginCovered(m: nat, length: real, nominal: real) {
    m <= 3 || Times(m as real, nominal) <= Times(1.0 - Times(MARGIN, m as real), length)
  }

  lemma FewCellsReach(x: nat, y: nat, m: nat)
    requires 1 <= m <= 3 && x < m && y < m
    ensures Reaches(x, m, 1, y)
  {
    var d := if y - x == 2 then -1 else if y - x == -2 then 1 else y - x;
    var q := if y - x == 2 then -1 else if y - x == -2 then 1 else 0;
    ModuloOf(x + d, m, q, y);
    assert Step(x, d, m) == y;
  }

  /** With wide cells a particle below the lower face is close to none of the last cell but one. */
  lemma WideCellsReach(f: real, g: real, length: real, nominal: real, m: nat, n: int)
    requires m >= 4 && WideEnough(m, length, nominal) && MarginCovered(m, length, nominal)
    requires Accepts(f, m) && Accepts(g, m) && f < 0.0 <= g && Apart(f, g, n, length) < nominal
    ensures Times(g, m as real).Floor - Times(f, m as real).Floor - n * m >= 0
  {
    hide Times, BinAlong;
    var c := m as real;
    var k := 1.0 - Times(MARGIN, c);
    CoverPositive(m, length, nominal);
    CloseInCells(f, g, length, nominal, m, n, k);
    TimesMore(-MARGIN, f, c);
    TimesSigns(MARGIN, c);
    BinIsModulo(f, m);
    FloorFrom(Times(g, c), n * m);
  }

  lemma CoverPositive(m: nat, length: real, nominal: real)
    requires m >= 1 && nominal > 0.0 && Times(m as real, nominal) <= length
    requires Times(m as real, nominal) <= Times(1.0 - Times(MARGIN, m as real), length)
    ensures 1.0 - Times(MARGIN, m as real) > 0.0
  {
    hide Times;
    var k := 1.0 - Times(MARGIN, m as real);
    TimesPositive(m as real, nominal);
    TimesMinus(0.0, 0.0, length);
    if k <= 0.0 { TimesMore(k, 0.0, length); }
  }

  lemma FloorFrom(b: real, whole: int)
    requires b - whole as real > -1.0
    ensures b.Floor - whole >= -1
  {
  }

  /** One axis: the bins of close particles are at most two cells apart, and at most one if none of them is below
      the lower face or the margin is covered. */
  lemma CloseAlongReaches(f: real, g: real, length: real, nominal: real, m: nat, r: nat)
    requires WideEnough(m, length, nominal) && Accepts(f, m) && Accepts(g, m) && CloseAlong(f, g, length, nominal)
    requires m == 1 || r >= 2 || (r == 1 && ((0.0 <= f && 0.0 <= g) || MarginCovered(m, length, nominal)))
    ensures Reaches(BinAlong(f, m, true), m, r, BinAlong(g, m, true))
  {
    hide BinAlong, Times;
    var x, y := BinAlong(f, m, true), BinAlong(g, m, true);
    if m == 1 {
      assert Step(0, 0, 1) == 0;
    } else if m <= 3 && r == 1 {
      FewCellsReach(x, y, m);
    } else {
      var n: int :| Apart(f, g, n, length) < nominal;
      var d := BinsApart(f, g, length, nominal, m, n);
      if r == 1 && f < 0.0 <= g { WideCellsReach(f, g, length, nominal, m, n); }
      if r == 1 && g < 0.0 <= f {
        ApartSwaps(f, g, n, length);
        WideCellsReach(g, f, length, nominal, m, -n);
        assert -n * m == -(n * m);
      }
      assert 0 - r <= d + Lift(g) - Lift(f) <= r;
    }
  }

  lemma ApartSwaps(f: real, g: real, n: int, length: real)
    ensures Apart(g, f, -n, length) == Apart(f, g, n, length)
  {
    hide Times;
    TimesSigns(g - f - n as real, length);
    assert f - g - (-n) as real == -(g - f - n as real);
  }

  /** A particle below the lower face and one in the last cell but one, in cells from the lower face. */
  function Below(m: nat, ratio: real): real {
    if -Times(MARGIN, m as real) >= -1.0 + ratio / 3.0 then -Times(MARGIN, m as real) else -1.0 + ratio / 3.0
  }

  function Beyond(m: nat, ratio: real): real { -1.0 - (ratio - (Below(m, ratio) + 1.0)) / 2.0 }

  lemma NotReached(m: nat)
    requires m >= 4
    ensures !Reaches(0, m, 1, m - 2)
  {
    forall d: int | -1 <= d <= 1 ensures Step(0, d, m) != m - 2 {
      ModuloOf(d, m, if d < 0 then -1 else 0, if d < 0 then m - 1 else d);
    }
  }

  /** The nominal width in cells. */
  lemma RatioBounds(m: nat, length: real, nominal: real) returns (ratio: real)
    requires m >= 4 && WideEnough(m, length, nominal) && !MarginCovered(m, length, nominal)
    ensures length > 0.0 && 0.0 < ratio <= 1.0 && ratio > 1.0 - Times(MARGIN, m as real)
    ensures Times(ratio, length) == Times(m as real, nominal)
  {
    hide Times;
    var c := m as real;
    TimesPositive(c, nominal);
    ratio := Times(c, nominal) / length;
    TimesQuotient(Times(c, nominal), length);
    TimesMinus(1.0, 0.0, length);
    TimesMinus(0.0, 0.0, length);
    TimesLess(0.0, ratio, length);
    if ratio > 1.0 { TimesStrict(1.0, ratio, length); }
    TimesLess(1.0 - Times(MARGIN, c), ratio, length);
  }

  lemma BelowBounds(m: nat, ratio: real)
    requires m >= 4 && 0.0 < ratio <= 1.0 && ratio > 1.0 - Times(MARGIN, m as real)
    ensures -1.0 < Below(m, ratio) < 0.0 && Below(m, ratio) >= -Times(MARGIN, m as real)
    ensures Below(m, ratio) + 1.0 < ratio
    ensures -2.0 < Beyond(m, ratio) < -1.0 && Below(m, ratio) - Beyond(m, ratio) < ratio
  {
    hide Times;
    TimesPositive(MARGIN, m as real);
  }

  lemma AcceptsBelow(m: nat, a: real)
    requires m >= 4 && -1.0 < a < 0.0 && a >= -Times(MARGIN, m as real)
    ensures Accepts(a / m as real, m) && BinAlong(a / m as real, m, true) == 0
  {
    hide Times;
    var c := m as real;
    TimesQuotient(a, c);
    TimesSigns(MARGIN, c);
    TimesMinus(0.0, 0.0, c);
    if a / c < -MARGIN { TimesStrict(a / c, -MARGIN, c); }
    if a / c >= 0.0 { TimesMore(0.0, a / c, c); }
  }

  lemma AcceptsBeyond(m: nat, b: real)
    requires m >= 4 && -2.0 < b < -1.0
    ensures Accepts((b + m as real) / m as real, m) && BinAlong((b + m as real) / m as real, m, true) == m - 2
  {
    hide Times;
    var c := m as real;
    var g := (b + c) / c;
    TimesQuotient(b + c, c);
    TimesMinus(0.0, 0.0, c);
    TimesMinus(1.0, 0.0, c);
    if g < 0.0 { TimesStrict(g, 0.0, c); }
    if g >= 1.0 { TimesMore(1.0, g, c); }
    assert (b + c).Floor == m - 2;
  }

  lemma WitnessApart(m: nat, a: real, b: real, length: real, nominal: real, ratio: real)
    requires m >= 4 && nominal > 0.0 && length > 0.0 && Times(ratio, length) == Times(m as real, nominal) && b < a
    requires a - b < ratio
    ensures Apart(a / m as real, (b + m as real) / m as real, 1, length) < nominal
  {
    hide Times;
    var c := m as real;
    var f, g := a / c, (b + c) / c;
    var d := g - f - 1.0;
    TimesQuotient(a, c);
    TimesQuotient(b + c, c);
    TimesMinus(g - f, 1.0, c);
    TimesMinus(g, f, c);
    TimesMinus(1.0, 0.0, c);
    assert Times(d, c) == b - a;
    NegativeFactor(d, c);
    TimesSigns(d, length);
    TimesSigns(d, c);
    // d is negative, and c times -d times the length is below the length times the ratio, that is c times the width
    TimesStrict(Times(-d, c), ratio, length);
    TimesSwap(c, -d, length);
    TimesCommutes(c, -d);
    TimesAssociates(c, -d, length);
    TimesCommutes(c, Times(-d, length));
    TimesCommutes(c, nominal);
    TimesLess(Times(-d, length), nominal, c);
    TimesMinus(0.0, 0.0, length);
    TimesMore(0.0, -d, length);
  }

  lemma NegativeFactor(d: real, c: real)
    requires c > 0.0 && Times(d, c) < 0.0
    ensures d < 0.0
  {
    hide Times;
    TimesMinus(0.0, 0.0, c);
    TimesLess(d, 0.0, c);
  }

  /** Two accepted particles closer than the nominal width in cells that are not adjacent under radius one. */
  lemma UncoveredMargin(m: nat, length: real, nominal: real) returns (f: real, g: real)
    requires WideEnough(m, length, nominal) && !MarginCovered(m, length, nominal)
    ensures Accepts(f, m) && Accepts(g, m) && CloseAlong(f, g, length, nominal)
    ensures !Reaches(BinAlong(f, m, true), m, 1, BinAlong(g, m, true))
  {
    hide Times, BinAlong, Reaches, Apart;
    var ratio := RatioBounds(m, length, nominal);
    BelowBounds(m, ratio);
    var a, b := Below(m, ratio), Beyond(m, ratio);
    hide Below, Beyond;
    AcceptsBelow(m, a);
    AcceptsBeyond(m, b);
    WitnessApart(m, a, b, length, nominal, ratio);
    f, g := a / m as real, (b + m as real) / m as real;
    NotReached(m);
  }

  /** Ten cells of exactly the nominal width: a particle in the margin and a close one are two cells apart. */
  lemma MarginMissed()
    ensures Dimension(10.0, 0.0, 1.0, 1) == 10 && Accepts(-MARGIN, 10) && Accepts(0.899995, 10)
    ensures CloseAlong(-MARGIN, 0.899995, 10.0, 1.0)
    ensures BinAlong(-MARGIN, 10, true) == 0 && BinAlong(0.899995, 10, true) == 8 && !Reaches(0, 10, 1, 8)
  {
    assert Apart(-MARGIN, 0.899995, 1, 10.0) < 1.0;
    NotReached(10);
  }

  // ---------- an axis that is not periodic ----------

  predicate AcceptsOn(periodic: bool, f: real, m: nat) { InMargin(f) && 0 <= BinAlong(f, m, periodic) < m }

  /** Images count along periodic axes only. */
  ghost predicate CloseOn(periodic: bool, f: real, g: real, length: real, nominal: real) {
    if periodic then CloseAlong(f, g, length, nominal) else Apart(f, g, 0, length) < nominal
  }

  ghost predicate ReachesOn(periodic: bool, f: real, g: real, m: nat, r: nat) {
    Reaches(BinAlong(f, m, periodic), m, r, BinAlong(g, m, periodic))
  }

  predicate CoveredOn(periodic: bool, m: nat, length: real, nominal: real) {
    periodic ==> MarginCovered(m, length, nominal)
  }

  lemma TruncateNear(a: real, b: real)
    requires -1.0 < b - a < 1.0
    ensures -1 <= Truncate(b) - Truncate(a) <= 1
  {
  }

  lemma StepTo(i: nat, j: nat, m: nat, r: nat)
    requires i < m && j < m && 0 - r <= j - i <= r
    ensures Reaches(i, m, r, j)
  {
    ModuloOf(i + (j - i), m, 0, j);
    assert Step(i, j - i, m) == j;
  }

  /** Without images close particles are at most one cell apart, in the margin too. */
  lemma OpenReaches(f: real, g: real, length: real, nominal: real, m: nat, r: nat)
    requires WideEnough(m, length, nominal) && AcceptsOn(false, f, m) && AcceptsOn(false, g, m)
    requires Apart(f, g, 0, length) < nominal && (m == 1 || r >= 1)
    ensures ReachesOn(false, f, g, m, r)
  {
    hide Times, Reaches, Apart;
    if m > 1 {
      TimesMinus(1.0, 0.0, length);
      CloseInCells(f, g, length, nominal, m, 0, 1.0);
      TruncateNear(Times(f, m as real), Times(g, m as real));
    }
    StepTo(BinAlong(f, m, false), BinAlong(g, m, false), m, r);
  }

  /** One axis of either kind. */
  lemma CloseOnReaches(periodic: bool, f: real, g: real, length: real, nominal: real, m: nat, r: nat)
    requires WideEnough(m, length, nominal) && AcceptsOn(periodic, f, m) && AcceptsOn(periodic, g, m)
    requires CloseOn(periodic, f, g, length, nominal)
    requires m == 1 || r >= 2 || (r == 1 && ((0.0 <= f && 0.0 <= g) || CoveredOn(periodic, m, length, nominal)))
    ensures ReachesOn(periodic, f, g, m, r)
  {
    hide Reaches, BinAlong, WideEnough, MarginCovered, Apart, CloseAlong;
    if periodic { CloseAlongReaches(f, g, length, nominal, m, r); } else { OpenReaches(f, g, length, nominal, m, r); }
  }

  // ---------- the box ----------

  ghost predicate Close(b: Room, f: Fraction, g: Fraction) {
    && CloseOn(b.periodic.x, f.x, g.x, b.Whole().x, b.nominal)
    && CloseOn(b.periodic.y, f.y, g.y, b.Whole().y, b.nominal)
    && (b.flat || CloseOn(b.periodic.z, f.z, g.z, b.Whole().z, b.nominal))
  }

  predicate Accepted(b: Room, f: Fraction)
    requires b.Valid()
  {
    Locate(At(f), b.Dims(), b.periodic).Inside?
  }

  predicate NoneBelow(f: Fraction) { 0.0 <= f.x && 0.0 <= f.y && 0.0 <= f.z }

  ghost predicate Adjacent(b: Room, f: Fraction, g: Fraction, r: nat)
    requires b.Valid() && Accepted(b, f) && Accepted(b, g)
  {
    CellIndex(b.Dims(), Locate(At(g), b.Dims(), b.periodic).cell)
    in Row(b.Dims(), r, if b.flat then 0 else r, Locate(At(f), b.Dims(), b.periodic).cell)
  }

  lemma AcceptedAxes(b: Room, f: Fraction)
    requires b.Valid() && Accepted(b, f)
    ensures var m := b.Dims();
            && AcceptsOn(b.periodic.x, f.x, m.x) && AcceptsOn(b.periodic.y, f.y, m.y)
            && AcceptsOn(b.periodic.z, f.z, m.z)
            && Locate(At(f), m, b.periodic).cell
               == Cell(BinAlong(f.x, m.x, b.periodic.x), BinAlong(f.y, m.y, b.periodic.y),
                       BinAlong(f.z, m.z, b.periodic.z))
            && In(m, Locate(At(f), m, b.periodic).cell)
  {
    hide BinAlong, Dimension;
  }

  lemma AdjacentAxes(b: Room, f: Fraction, g: Fraction, r: nat)
    requires b.Valid() && Accepted(b, f) && Accepted(b, g)
    ensures var m := b.Dims();
            Adjacent(b, f, g, r) <==>
              && ReachesOn(b.periodic.x, f.x, g.x, m.x, r) && ReachesOn(b.periodic.y, f.y, g.y, m.y, r)
              && ReachesOn(b.periodic.z, f.z, g.z, m.z, if b.flat then 0 else r)
  {
    var m := b.Dims();
    AcceptedAxes(b, f);
    AcceptedAxes(b, g);
    RowMembers(m, r, if b.flat then 0 else r, Locate(At(f), m, b.periodic).cell, Locate(At(g), m, b.periodic).cell);
    hide Accepted, Locate, Row, CellIndex, Reaches, BinAlong, Dimension;
  }

  lemma AllWideEnough(b: Room)
    requires b.Valid()
    ensures var m := b.Dims();
            && WideEnough(m.x, b.Whole().x, b.nominal) && WideEnough(m.y, b.Whole().y, b.nominal)
            && (if b.flat then m.z == 1 else WideEnough(m.z, b.Whole().z, b.nominal))
  {
    hide Dimension;
    DimensionFits(b.length.x, b.Layers().x, b.nominal, b.multiple);
    DimensionFits(b.length.y, b.Layers().y, b.nominal, b.multiple);
    DimensionFits(b.length.z, b.Layers().z, b.nominal, b.multiple);
  }

  /** Adjacency under radius one covers the margin of every periodic axis in use. */
  predicate MarginsCovered(b: Room)
    requires b.Valid()
  {
    var m := b.Dims();
    && CoveredOn(b.periodic.x, m.x, b.Whole().x, b.nominal) && CoveredOn(b.periodic.y, m.y, b.Whole().y, b.nominal)
    && (b.flat || CoveredOn(b.periodic.z, m.z, b.Whole().z, b.nominal))
  }

  lemma SingleReaches(periodic: bool, f: real, g: real)
    requires AcceptsOn(periodic, f, 1) && AcceptsOn(periodic, g, 1)
    ensures ReachesOn(periodic, f, g, 1, 0)
  {
    assert Step(0, 0, 1) == 0;
  }

  /** For any periodic flags, two accepted particles that are closer than the nominal width along every axis are in
      cells adjacent under every radius of at least two, and under radius one if no coordinate is below the lower
      face or the margins are covered. */
  lemma CloseAreAdjacent(b: Room, f: Fraction, g: Fraction, r: nat)
    requires b.Valid() && Accepted(b, f) && Accepted(b, g) && Close(b, f, g)
    requires r >= 2 || (r == 1 && ((NoneBelow(f) && NoneBelow(g)) || MarginsCovered(b)))
    ensures Adjacent(b, f, g, r)
  {
    var m := b.Dims();
    AllWideEnough(b);
    AdjacentAxes(b, f, g, r);
    AcceptedAxes(b, f);
    AcceptedAxes(b, g);
    hide Accepted, Locate, ReachesOn, BinAlong, CloseOn, WideEnough, CoveredOn, Adjacent, Dimension, AcceptsOn;
    CloseOnReaches(b.periodic.x, f.x, g.x, b.Whole().x, b.nominal, m.x, r);
    CloseOnReaches(b.periodic.y, f.y, g.y, b.Whole().y, b.nominal, m.y, r);
    if b.flat {
      SingleReaches(b.periodic.z, f.z, g.z);
    } else {
      CloseOnReaches(b.periodic.z, f.z, g.z, b.Whole().z, b.nominal, m.z, r);
    }
  }

  /** Positions in the box proper, and in its layers: the particles are closer than the nominal width. */
  ghost predicate Near(b: Room, u: Fraction, v: Fraction) {
    && CloseOn(b.periodic.x, u.x, v.x, b.length.x, b.nominal) && CloseOn(b.periodic.y, u.y, v.y, b.length.y, b.nominal)
    && (b.flat || CloseOn(b.periodic.z, u.z, v.z, b.length.z, b.nominal))
  }

  lemma PaddedClose(periodic: bool, u: real, v: real, length: real, layer: real, nominal: real)
    requires length > 0.0 && layer >= 0.0 && (periodic ==> layer == 0.0)
    ensures CloseOn(periodic, u, v, length, nominal)
            <==> CloseOn(periodic, PaddedAlong(u, length, layer), PaddedAlong(v, length, layer), length + 2.0 * layer,
                         nominal)
  {
    if periodic {
      assert PaddedAlong(u, length, layer) == u && PaddedAlong(v, length, layer) == v;
    } else {
      var f, g, w := PaddedAlong(u, length, layer), PaddedAlong(v, length, layer), length + 2.0 * layer;
      PaddedHeight(u, length, layer);
      PaddedHeight(v, length, layer);
      hide PaddedAlong, Times;
      TimesMinus(g, f, w);
      TimesMinus(v, u, length);
      assert g - f - 0 as real == g - f && v - u - 0 as real == v - u;
    }
  }

  /** Layers do not change distances. */
  lemma NearIsClose(b: Room, u: Fraction, v: Fraction)
    requires b.Valid() && b.Extended()
    ensures Near(b, u, v) <==> Close(b, b.Padded(u), b.Padded(v))
  {
    hide CloseOn, PaddedAlong;
    PaddedClose(b.periodic.x, u.x, v.x, b.length.x, b.Layers().x, b.nominal);
    PaddedClose(b.periodic.y, u.y, v.y, b.length.y, b.Layers().y, b.nominal);
    PaddedClose(b.periodic.z, u.z, v.z, b.length.z, b.Layers().z, b.nominal);
  }

  /** The same for positions in the box and its layers. */
  lemma NearAreAdjacent(b: Room, u: Fraction, v: Fraction, r: nat)
    requires b.Valid() && b.Extended() && Accepted(b, b.Padded(u)) && Accepted(b, b.Padded(v)) && Near(b, u, v)
    requires r >= 2 || (r == 1 && ((NoneBelow(b.Padded(u)) && NoneBelow(b.Padded(v))) || MarginsCovered(b)))
    ensures Adjacent(b, b.Padded(u), b.Padded(v), r)
  {
    hide Accepted, Near, Close, Adjacent, PaddedAlong;
    NearIsClose(b, u, v);
    CloseAreAdjacent(b, b.Padded(u), b.Padded(v), r);
  }

  ghost predicate CloseAdjacent(b: Room)
    requires b.Valid()
  {
    forall f, g :: Accepted(b, f) && Accepted(b, g) && Close(b, f, g) ==> Adjacent(b, f, g, 1)
  }

  lemma MiddleAccepted(periodic: bool, m: nat)
    requires m >= 1
    ensures AcceptsOn(periodic, 0.5, m)
  {
    BinInside(0.5, m, periodic);
  }

  lemma SelfClose(periodic: bool, f: real, length: real, nominal: real)
    requires nominal > 0.0
    ensures CloseOn(periodic, f, f, length, nominal)
  {
    hide Times;
    TimesMinus(0.0, 0.0, length);
    assert Apart(f, f, 0, length) == 0.0;
  }

  lemma AcceptedFrom(b: Room, f: Fraction)
    requires b.Valid()
    requires var m := b.Dims();
             && AcceptsOn(b.periodic.x, f.x, m.x) && AcceptsOn(b.periodic.y, f.y, m.y)
             && AcceptsOn(b.periodic.z, f.z, m.z)
    ensures Accepted(b, f)
  {
    hide BinAlong, Dimension;
  }

  /** Along an uncovered axis, which is periodic: two accepted close positions in cells that are not adjacent. */
  lemma UncoveredAxis(periodic: bool, m: nat, length: real, nominal: real) returns (f: real, g: real)
    requires WideEnough(m, length, nominal) && !CoveredOn(periodic, m, length, nominal)
    ensures AcceptsOn(periodic, f, m) && AcceptsOn(periodic, g, m) && CloseOn(periodic, f, g, length, nominal)
    ensures !ReachesOn(periodic, f, g, m, 1)
  {
    hide Times, BinAlong, Reaches, Apart, MarginCovered, WideEnough, CloseAlong;
    f, g := UncoveredMargin(m, length, nominal);
  }

  /** Two particles of the box that adjacency under radius one misses, apart along one axis only. */
  lemma MissedPair(b: Room) returns (f: Fraction, g: Fraction)
    requires b.Valid() && !MarginsCovered(b)
    ensures Accepted(b, f) && Accepted(b, g) && Close(b, f, g) && !Adjacent(b, f, g, 1)
  {
    var m, l := b.Dims(), b.Whole();
    AllWideEnough(b);
    hide AcceptsOn, Accepted, Locate, ReachesOn, BinAlong, CloseOn, WideEnough, CoveredOn, Adjacent, Dimension;
    MiddleAccepted(b.periodic.x, m.x);
    MiddleAccepted(b.periodic.y, m.y);
    MiddleAccepted(b.periodic.z, m.z);
    SelfClose(b.periodic.x, 0.5, l.x, b.nominal);
    SelfClose(b.periodic.y, 0.5, l.y, b.nominal);
    SelfClose(b.periodic.z, 0.5, l.z, b.nominal);
    f, g := Fraction(0.5, 0.5, 0.5), Fraction(0.5, 0.5, 0.5);
    if !CoveredOn(b.periodic.x, m.x, l.x, b.nominal) {
      var u, v := UncoveredAxis(b.periodic.x, m.x, l.x, b.nominal);
      f, g := f.(x := u), g.(x := v);
    } else if !CoveredOn(b.periodic.y, m.y, l.y, b.nominal) {
      var u, v := UncoveredAxis(b.periodic.y, m.y, l.y, b.nominal);
      f, g := f.(y := u), g.(y := v);
    } else {
      var u, v := UncoveredAxis(b.periodic.z, m.z, l.z, b.nominal);
      f, g := f.(z := u), g.(z := v);
    }
    AcceptedFrom(b, f);
    AcceptedFrom(b, g);
    AdjacentAxes(b, f, g, 1);
  }

  /** All accepted positions: radius one suffices exactly when the margins are covered. */
  lemma CloseAdjacentExactly(b: Room)
    requires b.Valid()
    ensures CloseAdjacent(b) <==> MarginsCovered(b)
  {
    hide Accepted, Close, Adjacent, MarginsCovered;
    if MarginsCovered(b) {
      forall f, g | Accepted(b, f) && Accepted(b, g) && Close(b, f, g) ensures Adjacent(b, f, g, 1) {
        CloseAreAdjacent(b, f, g, 1);
      }
    } else {
      var f, g := MissedPair(b);
    }
  }
}
