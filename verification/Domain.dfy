/** The slabs the global box is cut into along each axis, in fractional coordinates of the global box, and
    the wrapping of received particles by the receiver's shifted global box. */
module Domain {
  import opened Torus
  import opened Vectors

  const TOL: real := 0.0001

  /** Cumulative fractions of the slab boundaries, one sequence per axis. */
  datatype Cuts = Cuts(x: seq<real>, y: seq<real>, z: seq<real>) {
    function At(a: Axis): seq<real> { if a == 0 then x else if a == 1 then y else z }
  }

  function Width(c: seq<real>, i: nat): real
    requires i + 1 < |c|
  {
    c[i + 1] - c[i]
  }

  /** Boundaries run from 0 to 1, and every slab is wider than twice the wrapping tolerance. */
  ghost predicate Slabs(c: seq<real>) {
    && |c| >= 2 && c[0] == 0.0 && c[|c| - 1] == 1.0
    && forall i :: 0 <= i < |c| - 1 ==> Width(c, i) > 2.0 * TOL
  }

  ghost predicate CutFor(g: Grid, cuts: Cuts) {
    && |cuts.x| == g.w + 1 && |cuts.y| == g.h + 1 && |cuts.z| == g.d + 1
    && Slabs(cuts.x) && Slabs(cuts.y) && Slabs(cuts.z)
  }

  /** How far the shifted global box of slab i is displaced: at the upper boundary by half the first
      slab's width and the tolerance, at the lower boundary down by half the last slab's width. */
  function BoxShift(c: seq<real>, i: nat): real
    requires |c| >= 3 && i + 1 < |c|
  {
    (if i + 2 == |c| then 0.5 * Width(c, 0) + TOL else 0.0)
    - (if i == 0 then 0.5 * Width(c, |c| - 2) + TOL else 0.0)
  }

  /** The number of box lengths the wrap subtracts. An axis with a single slab is not wrapped. */
  function WrapImage(c: seq<real>, i: nat, y: real): int
    requires i + 1 < |c|
  {
    if |c| < 3 then 0
    else if y >= BoxShift(c, i) + 1.0 then 1
    else if y < BoxShift(c, i) then -1
    else 0
  }

  function WrapCoord(c: seq<real>, i: nat, y: real): real
    requires i + 1 < |c|
  {
    y - WrapImage(c, i, y) as real
  }

  function WrapVec(g: Grid, cuts: Cuts, q: Pos, v: Vec): Vec
    requires g.Has(q) && CutFor(g, cuts)
  {
    Vec(WrapCoord(cuts.x, q.x, v.x), WrapCoord(cuts.y, q.y, v.y), WrapCoord(cuts.z, q.z, v.z))
  }

  // ---------- one axis ----------

  predicate Inside(c: seq<real>, i: nat, y: real)
    requires i + 1 < |c|
  {
    c[i] <= y < c[i + 1]
  }

  /** The coordinate overshoots slab i by at most half the adjacent slab's width and the tolerance. */
  predicate Near(c: seq<real>, i: nat, y: real)
    requires i + 1 < |c|
  {
    && c[i] - 0.5 * Width(c, Advance(i, |c| - 1, false)) - TOL <= y
    && y < c[i + 1] + 0.5 * Width(c, Advance(i, |c| - 1, true)) + TOL
  }

  lemma {:induction false} CutsIncrease(c: seq<real>, i: nat, j: nat)
    requires Slabs(c) && i <= j < |c|
    ensures c[i] <= c[j]
    ensures i < j ==> c[i] + 2.0 * TOL < c[j]
    decreases j - i
  {
    if i < j {
      CutsIncrease(c, i, j - 1);
      assert Width(c, j - 1) > 2.0 * TOL;
    }
  }

  /** The positions of the boundaries next to the ends, relative to any slab. */
  lemma CutsBounds(c: seq<real>, i: nat)
    requires Slabs(c) && i + 1 < |c|
    ensures 0.0 <= c[i] && c[i + 1] <= 1.0
    ensures i > 0 ==> c[1] <= c[i]
    ensures i > 1 ==> c[1] <= c[i - 1]
    ensures i + 2 < |c| ==> c[i + 1] <= c[|c| - 2]
    ensures i + 3 < |c| ==> c[i + 2] <= c[|c| - 2]
  {
    CutsIncrease(c, 0, i);
    CutsIncrease(c, i + 1, |c| - 1);
    if i > 0 { CutsIncrease(c, 1, i); }
    if i > 1 { CutsIncrease(c, 1, i - 1); }
    if i + 2 < |c| { CutsIncrease(c, i + 1, |c| - 2); }
    if i + 3 < |c| { CutsIncrease(c, i + 2, |c| - 2); }
  }

  lemma InsideIsFixed(c: seq<real>, i: nat, y: real)
    requires Slabs(c) && i + 1 < |c| && Inside(c, i, y)
    ensures WrapCoord(c, i, y) == y && Near(c, i, y)
  {
    CutsBounds(c, i);
    var up, down := Advance(i, |c| - 1, true), Advance(i, |c| - 1, false);
    assert Width(c, up) > 2.0 * TOL && Width(c, down) > 2.0 * TOL;
    assert Width(c, 0) > 2.0 * TOL && Width(c, |c| - 2) > 2.0 * TOL;
  }

  /** Wrapping keeps a coordinate near its slab, also on an axis of only two slabs, where a coordinate
      within the tolerance of the neighbour's middle does change sides. */
  lemma NearIsKept(c: seq<real>, i: nat, y: real)
    requires Slabs(c) && i + 1 < |c| && Near(c, i, y)
    ensures Near(c, i, WrapCoord(c, i, y))
  {
    CutsBounds(c, i);
    assert Width(c, 0) > 2.0 * TOL && Width(c, |c| - 2) > 2.0 * TOL;
    if i + 3 < |c| { assert Width(c, i + 1) > 2.0 * TOL; }
    if i > 1 { assert Width(c, i - 1) > 2.0 * TOL; }
  }

  lemma SentUp(c: seq<real>, i: nat, y: real)
    requires Slabs(c) && |c| >= 3 && i + 1 < |c| && Near(c, i, y) && y >= c[i + 1]
    ensures var j := Advance(i, |c| - 1, true); Inside(c, j, WrapCoord(c, j, y))
  {
    var j := Advance(i, |c| - 1, true);
    CutsBounds(c, j);
    assert Width(c, j) > 2.0 * TOL && Width(c, 0) > 2.0 * TOL && Width(c, |c| - 2) > 2.0 * TOL;
  }

  lemma SentDown(c: seq<real>, i: nat, y: real)
    requires Slabs(c) && |c| >= 3 && i + 1 < |c| && Near(c, i, y) && y < c[i]
    ensures var j := Advance(i, |c| - 1, false); Inside(c, j, WrapCoord(c, j, y))
  {
    var j := Advance(i, |c| - 1, false);
    CutsBounds(c, j);
    assert Width(c, j) > 2.0 * TOL && Width(c, 0) > 2.0 * TOL && Width(c, |c| - 2) > 2.0 * TOL;
  }

  /** A coordinate sent on from the slab it has left arrives inside the adjacent one. */
  lemma SentAlong(c: seq<real>, i: nat, y: real, up: bool)
    requires Slabs(c) && |c| >= 3 && i + 1 < |c| && Near(c, i, y) && if up then y >= c[i + 1] else y < c[i]
    ensures var j := Advance(i, |c| - 1, up);
            Inside(c, j, WrapCoord(c, j, y)) && Near(c, j, WrapCoord(c, j, y)) && WrapCoord(c, j, y) < c[j + 1]
  {
    hide Near, WrapCoord, Slabs;
    if up { SentUp(c, i, y); } else { SentDown(c, i, y); }
    var j := Advance(i, |c| - 1, up);
    InsideIsFixed(c, j, WrapCoord(c, j, y));
  }

  /** A coordinate in the half of slab i that faces the neighbour its copy goes to. On an axis of two slabs the
      one neighbour is on both sides. */
  predicate Headed(c: seq<real>, i: nat, y: real, up: bool)
    requires i + 1 < |c|
  {
    |c| == 3 || if up then y >= c[i + 1] - 0.5 * Width(c, i) else y < c[i] + 0.5 * Width(c, i)
  }

  lemma HopUp(c: seq<real>, i: nat, y: real)
    requires Slabs(c) && |c| >= 3 && i + 1 < |c| && Near(c, i, y) && Headed(c, i, y, true)
    ensures var j := Advance(i, |c| - 1, true); Near(c, j, WrapCoord(c, j, y))
  {
    var j := Advance(i, |c| - 1, true);
    CutsBounds(c, j);
    assert Width(c, i) > 2.0 * TOL && Width(c, j) > 2.0 * TOL;
    assert Width(c, 0) > 2.0 * TOL && Width(c, |c| - 2) > 2.0 * TOL;
  }

  lemma HopDown(c: seq<real>, i: nat, y: real)
    requires Slabs(c) && |c| >= 3 && i + 1 < |c| && Near(c, i, y) && Headed(c, i, y, false)
    ensures var j := Advance(i, |c| - 1, false); Near(c, j, WrapCoord(c, j, y))
  {
    var j := Advance(i, |c| - 1, false);
    CutsBounds(c, j);
    assert Width(c, i) > 2.0 * TOL && Width(c, j) > 2.0 * TOL;
    assert Width(c, 0) > 2.0 * TOL && Width(c, |c| - 2) > 2.0 * TOL;
  }

  /** A copy sent from the facing half arrives near the slab of the neighbour. */
  lemma HopIsNear(c: seq<real>, i: nat, y: real, up: bool)
    requires Slabs(c) && |c| >= 3 && i + 1 < |c| && Near(c, i, y) && Headed(c, i, y, up)
    ensures var j := Advance(i, |c| - 1, up); Near(c, j, WrapCoord(c, j, y))
  {
    hide Slabs, Near, WrapCoord, Headed;
    if up { HopUp(c, i, y); } else { HopDown(c, i, y); }
  }

  lemma HeadedIsKept(c: seq<real>, i: nat, y: real, up: bool)
    requires Slabs(c) && i + 1 < |c| && Near(c, i, y) && Headed(c, i, y, up)
    ensures Headed(c, i, WrapCoord(c, i, y), up)
  {
    CutsBounds(c, i);
    assert Width(c, 0) > 2.0 * TOL && Width(c, |c| - 2) > 2.0 * TOL;
    if i + 3 < |c| { assert Width(c, i + 1) > 2.0 * TOL; }
    if i > 1 { assert Width(c, i - 1) > 2.0 * TOL; }
  }

  /** The half-open slabs do not overlap, so the slab of a coordinate is unique. */
  lemma SlabUnique(c: seq<real>, i: nat, j: nat, y: real)
    requires Slabs(c) && i + 1 < |c| && j + 1 < |c| && Inside(c, i, y) && Inside(c, j, y)
    ensures i == j
  {
    if i < j { CutsIncrease(c, i + 1, j); } else if j < i { CutsIncrease(c, j + 1, i); }
  }

  /** The position of the particle in the local box of its rank. */
  function LocalFraction(g: Grid, cuts: Cuts, q: Pos, v: Vec): Vec
    requires g.Has(q) && CutFor(g, cuts)
  {
    Vec(Along(cuts.x, q.x, v.x), Along(cuts.y, q.y, v.y), Along(cuts.z, q.z, v.z))
  }

  function Along(c: seq<real>, i: nat, y: real): real
    requires Slabs(c) && i + 1 < |c|
  {
    assert Width(c, i) > 0.0;
    (y - c[i]) / Width(c, i)
  }

  /** The rank's half-open local box contains the point, along every axis that is cut at all. */
  predicate InDomain(g: Grid, cuts: Cuts, q: Pos, v: Vec)
    requires g.Has(q) && CutFor(g, cuts)
  {
    forall a: Axis :: g.Extent(a) == 1 || Inside(cuts.At(a), q.At(a), v.At(a))
  }

  // ---------- positions up to lattice vectors ----------

  predicate Integral(x: real) { x == x.Floor as real }

  /** The two points differ by a lattice vector of the global box. */
  predicate SameSite(u: Vec, v: Vec) { Integral(u.x - v.x) && Integral(u.y - v.y) && Integral(u.z - v.z) }

  lemma IntegralShift(x: real, k: int)
    requires Integral(x)
    ensures Integral(x - k as real)
  {
    assert (x - k as real).Floor == x.Floor - k;
  }

  lemma WrapIsLatticeShift(g: Grid, cuts: Cuts, q: Pos, v: Vec, u: Vec)
    requires g.Has(q) && CutFor(g, cuts) && SameSite(v, u)
    ensures SameSite(WrapVec(g, cuts, q, v), u)
  {
    IntegralShift(v.x - u.x, WrapImage(cuts.x, q.x, v.x));
    IntegralShift(v.y - u.y, WrapImage(cuts.y, q.y, v.y));
    IntegralShift(v.z - u.z, WrapImage(cuts.z, q.z, v.z));
  }
}
