/** The cells of a box: how many there are along an axis, and which one a particle belongs to. */
module CellBins {
  import opened Indexing
  import opened CellAdjacency
  import opened Reals

  // ---------- dimensions ----------

  function RoundDown(v: nat, m: nat): nat
    requires m >= 1
  {
    v / m * m
  }

  /** The number of cells along an axis of the given length with its ghost layers. */
  function Dimension(length: real, ghostWidth: real, nominal: real, multiple: nat): nat
    requires length >= 0.0 && ghostWidth >= 0.0 && nominal > 0.0 && multiple >= 1
  {
    var cells := RoundDown(((length + 2.0 * ghostWidth) / nominal).Floor, multiple);
    if cells == 0 then 1 else cells
  }

  /** Cells are never narrower than the nominal width, unless there is a single one, and no larger multiple fits. */
  lemma DimensionFits(length: real, ghostWidth: real, nominal: real, multiple: nat)
    requires length >= 0.0 && ghostWidth >= 0.0 && nominal > 0.0 && multiple >= 1
    ensures var n := Dimension(length, ghostWidth, nominal, multiple);
            n >= 1 && (n == 1 || (Times(n as real, nominal) <= length + 2.0 * ghostWidth && n % multiple == 0))
    ensures forall k: nat :: k > Dimension(length, ghostWidth, nominal, multiple) && k % multiple == 0 ==>
              Times(k as real, nominal) > length + 2.0 * ghostWidth
  {
    var l := length + 2.0 * ghostWidth;
    var v := (l / nominal).Floor;
    var n := RoundDown(v, multiple);
    assert n <= v;
    SplitIndex(v / multiple, multiple, 0);
    Narrower(n, l, nominal);
    forall k: nat | k > Dimension(length, ghostWidth, nominal, multiple) && k % multiple == 0
      ensures Times(k as real, nominal) > l
    {
      NextMultiple(v, k, multiple);
      Wider(k, l, nominal);
    }
  }

  /** A multiple above the rounded number is above the number itself. */
  lemma NextMultiple(v: nat, k: nat, m: nat)
    requires m >= 1 && k % m == 0 && k > RoundDown(v, m)
    ensures k > v
  {
    DivideBack(v, m);
    DivideBack(k, m);
    Remainder(v, m);
    var q: nat, j: nat := v / m, k / m;
    assert m * q == q * m && m * j == j * m;
    Smaller(m, q, j);
    NextRow(q, j - q - 1, m);
  }

  lemma NextRow(q: nat, d: nat, m: nat)
    ensures (q + 1 + d) * m == q * m + m + d * m && d * m >= 0
  {
  }

  lemma Wider(k: nat, l: real, w: real)
    requires w > 0.0 && k > (l / w).Floor
    ensures Times(k as real, w) > l
  {
    hide Times;
    TimesQuotient(l, w);
    TimesStrict(l / w, k as real, w);
  }

  lemma Narrower(n: nat, l: real, w: real)
    requires w > 0.0 && n as real <= l / w
    ensures Times(n as real, w) <= l
  {
    hide Times;
    TimesQuotient(l, w);
    TimesMore(n as real, l / w, w);
  }

  // ---------- the cell of a particle ----------

  const MARGIN: real := 0.00001

  /** Conversion to a whole number truncates. */
  function Truncate(x: real): int { if x >= 0.0 then x.Floor else -(-x).Floor }

  /** The cell along an axis, or a value outside the grid. */
  function BinAlong(f: real, m: nat, periodic: bool): int {
    var i := Truncate(Times(f, m as real));
    if i == m && periodic then 0 else i
  }

  predicate InMargin(f: real) { -MARGIN <= f < 1.0 + MARGIN }

  datatype Fraction = Fraction(x: real, y: real, z: real)

  datatype Periodic = Periodic(x: bool, y: bool, z: bool)

  /** Where a particle is: at an undefined position, outside the grid, or in a cell. */
  datatype Where = Undefined | Outside | Inside(cell: Cell)

  datatype Particle = NotANumber | At(f: Fraction)

  function Locate(p: Particle, m: Dim, periodic: Periodic): Where {
    if p.NotANumber? then Undefined
    else if !InMargin(p.f.x) || !InMargin(p.f.y) || !InMargin(p.f.z) then Outside
    else
      var i, j := BinAlong(p.f.x, m.x, periodic.x), BinAlong(p.f.y, m.y, periodic.y);
      var k := BinAlong(p.f.z, m.z, periodic.z);
      if 0 <= i < m.x && 0 <= j < m.y && 0 <= k < m.z then Inside(Cell(i, j, k)) else Outside
  }

  /** The position along an axis is one that gets a cell: up to the margin below the lower face, and up to the margin
      above the upper face if the axis is periodic, as long as a cell is not narrower than the margin. */
  predicate Admitted(f: real, m: nat, periodic: bool) {
    && -0.00001 <= f < 1.00001
    && (f < 0.0 ==> Times(f, m as real) > -1.0)
    && (f >= 1.0 ==> periodic && Times(f, m as real) < m as real + 1.0)
  }

  /** Cell i of m along an axis contains the position; the margins belong to the first cell. */
  predicate InCell(f: real, m: nat, i: int) {
    if 0.0 <= f < 1.0 then i as real <= Times(f, m as real) < (i + 1) as real else i == 0
  }

  lemma BinExactly(f: real, m: nat, periodic: bool)
    requires m >= 1 && InMargin(f)
    ensures Admitted(f, m, periodic) <==> 0 <= BinAlong(f, m, periodic) < m
    ensures Admitted(f, m, periodic) ==> InCell(f, m, BinAlong(f, m, periodic))
  {
    hide Times;
    var x, c := Times(f, m as real), m as real;
    TimesMinus(1.0, 0.0, c);
    if f < 0.0 {
      TimesMore(f, 0.0, c);
    } else if f < 1.0 {
      FloorBelow(f, m);
    } else {
      TimesMore(1.0, f, c);
    }
  }

  /** Which particles get a cell, and which cell it is. */
  lemma LocateExactly(f: Fraction, m: Dim, periodic: Periodic)
    requires m.Valid()
    ensures Locate(At(f), m, periodic).Inside? <==>
              Admitted(f.x, m.x, periodic.x) && Admitted(f.y, m.y, periodic.y) && Admitted(f.z, m.z, periodic.z)
    ensures Locate(At(f), m, periodic).Inside? ==>
              var c := Locate(At(f), m, periodic).cell;
              In(m, c) && InCell(f.x, m.x, c.x) && InCell(f.y, m.y, c.y) && InCell(f.z, m.z, c.z)
    ensures Locate(NotANumber, m, periodic) == Undefined && !Locate(At(f), m, periodic).Undefined?
  {
    hide BinAlong, Times, InCell;
    if InMargin(f.x) { BinExactly(f.x, m.x, periodic.x); }
    if InMargin(f.y) { BinExactly(f.y, m.y, periodic.y); }
    if InMargin(f.z) { BinExactly(f.z, m.z, periodic.z); }
  }

  lemma LocateInside(p: Particle, m: Dim, periodic: Periodic)
    ensures Locate(p, m, periodic).Inside? ==> In(m, Locate(p, m, periodic).cell)
  {
  }

  /** Every particle of the box proper has a cell. */
  lemma BoxIsCovered(f: Fraction, m: Dim, periodic: Periodic)
    requires m.Valid() && 0.0 <= f.x < 1.0 && 0.0 <= f.y < 1.0 && 0.0 <= f.z < 1.0
    ensures Locate(At(f), m, periodic).Inside?
  {
    hide BinAlong;
    BinInside(f.x, m.x, periodic.x);
    BinInside(f.y, m.y, periodic.y);
    BinInside(f.z, m.z, periodic.z);
  }

  lemma BinInside(f: real, m: nat, periodic: bool)
    requires m >= 1 && 0.0 <= f < 1.0
    ensures 0 <= BinAlong(f, m, periodic) < m
  {
    FloorBelow(f, m);
  }

  lemma FloorBelow(f: real, m: nat)
    requires m >= 1 && 0.0 <= f < 1.0
    ensures 0.0 <= Times(f, m as real) < m as real
  {
    hide Times;
    var c := m as real;
    TimesMinus(1.0, f, c);
    TimesPositive(1.0 - f, c);
    TimesMore(0.0, f, c);
  }

  // ---------- the grid of a box ----------

  /** A box with the distances between its faces, the width of the ghost layer around it, and the width asked for. */
  datatype Room = Room(length: Fraction, ghostWidth: real, nominal: real, multiple: nat, flat: bool,
                       periodic: Periodic) {
    predicate Valid() {
      length.x >= 0.0 && length.y >= 0.0 && length.z >= 0.0 && ghostWidth >= 0.0 && nominal > 0.0 && multiple >= 1
    }

    /** Ghost layers are added along the axes that are not periodic; a flat box has none along z. */
    function Layers(): Fraction {
      Fraction(if periodic.x then 0.0 else ghostWidth, if periodic.y then 0.0 else ghostWidth,
               if flat || periodic.z then 0.0 else ghostWidth)
    }

    /** The lengths along which fractions are measured. */
    function Whole(): Fraction {
      Fraction(length.x + 2.0 * Layers().x, length.y + 2.0 * Layers().y, length.z + 2.0 * Layers().z)
    }

    function Dims(): Dim
      requires Valid()
    {
      Dim(Dimension(length.x, Layers().x, nominal, multiple), Dimension(length.y, Layers().y, nominal, multiple),
          if flat then 1 else Dimension(length.z, Layers().z, nominal, multiple))
    }

    predicate Extended() { length.x > 0.0 && length.y > 0.0 && length.z > 0.0 }

    /** Fractions of the box with its layers, from fractions of the box proper. */
    function Padded(u: Fraction): Fraction
      requires Valid() && Extended()
    {
      Fraction(PaddedAlong(u.x, length.x, Layers().x), PaddedAlong(u.y, length.y, Layers().y),
               PaddedAlong(u.z, length.z, Layers().z))
    }
  }

  function PaddedAlong(u: real, length: real, layer: real): real
    requires length > 0.0 && layer >= 0.0
  {
    var part := layer / length;
    (u + part) / (1.0 + 2.0 * part)
  }

  /** The height above the lower face of the layer is what it is above the face of the box, and the layer. */
  lemma PaddedHeight(u: real, length: real, layer: real)
    requires length > 0.0 && layer >= 0.0
    ensures Times(PaddedAlong(u, length, layer), length + 2.0 * layer) == Times(u, length) + layer
  {
    var part, f := layer / length, PaddedAlong(u, length, layer);
    hide PaddedAlong;
    assert part * length == layer;
    assert f * (1.0 + 2.0 * part) == u + part;
    assert (f * (1.0 + 2.0 * part)) * length == f * ((1.0 + 2.0 * part) * length);
    assert (u + part) * length == u * length + part * length;
    assert (1.0 + 2.0 * part) * length == length + 2.0 * (part * length);
  }

  /** The box with its layers is what lies no farther than their width from the box. */
  predicate InReach(u: real, length: real, width: real) { -width <= Times(u, length) < length + width }

  lemma PaddedInside(u: real, length: real, layer: real)
    requires length > 0.0 && layer >= 0.0
    ensures 0.0 <= PaddedAlong(u, length, layer) < 1.0 <==> InReach(u, length, layer)
  {
    var f, w := PaddedAlong(u, length, layer), length + 2.0 * layer;
    PaddedHeight(u, length, layer);
    hide PaddedAlong, Times;
    TimesMinus(1.0, 0.0, w);
    if f < 0.0 { TimesStrict(f, 0.0, w); } else { TimesMore(0.0, f, w); }
    if f < 1.0 { TimesStrict(f, 1.0, w); } else { TimesMore(1.0, f, w); }
  }

  /** Layers of the given width surround the box along the axes that are not periodic, except along z if it is flat. */
  lemma PaddedExactly(b: Room, u: Fraction)
    requires b.Valid() && b.Extended()
    ensures var f := b.Padded(u);
            && (if b.periodic.x then f.x == u.x else 0.0 <= f.x < 1.0 <==> InReach(u.x, b.length.x, b.ghostWidth))
            && (if b.periodic.y then f.y == u.y else 0.0 <= f.y < 1.0 <==> InReach(u.y, b.length.y, b.ghostWidth))
            && (if b.periodic.z || b.flat then f.z == u.z
                else 0.0 <= f.z < 1.0 <==> InReach(u.z, b.length.z, b.ghostWidth))
  {
    PaddedInside(u.x, b.length.x, b.Layers().x);
    PaddedInside(u.y, b.length.y, b.Layers().y);
    PaddedInside(u.z, b.length.z, b.Layers().z);
    hide InReach;
  }

  /** So every ghost within that width has a cell. */
  lemma GhostsHaveCells(b: Room, u: Fraction)
    requires b.Valid() && b.Extended()
    requires if b.periodic.x then 0.0 <= u.x < 1.0 else InReach(u.x, b.length.x, b.ghostWidth)
    requires if b.periodic.y then 0.0 <= u.y < 1.0 else InReach(u.y, b.length.y, b.ghostWidth)
    requires if b.periodic.z || b.flat then 0.0 <= u.z < 1.0 else InReach(u.z, b.length.z, b.ghostWidth)
    ensures Locate(At(b.Padded(u)), b.Dims(), b.periodic).Inside?
  {
    hide InReach, Locate, PaddedAlong;
    PaddedExactly(b, u);
    BoxIsCovered(b.Padded(u), b.Dims(), b.periodic);
  }
}
