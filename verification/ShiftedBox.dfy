/** The shifted global box in which a rank wraps what it receives, in the coordinates of a tilted global box,
    and its agreement with the wrapping of fractional coordinates slab by slab. */
module ShiftedBox {
  import opened Torus
  import opened Vectors
  import opened Domain
  import opened TriclinicBox

  /** The global box has its centre at the origin. */
  predicate Centred(b: Box) { b.lo.x == -b.hi.x && b.lo.y == -b.hi.y && b.lo.z == -b.hi.z }

  /** By which fraction of its length the box is displaced along an axis with boundaries c. */
  function ShiftAlong(c: seq<real>, i: nat): real
    requires i + 1 < |c|
  {
    if |c| < 3 then 0.0 else BoxShift(c, i)
  }

  function ShiftVec(g: Grid, cuts: Cuts, q: Pos): Vec
    requires g.Has(q) && CutFor(g, cuts)
  {
    Vec(ShiftAlong(cuts.x, q.x), ShiftAlong(cuts.y, q.y), ShiftAlong(cuts.z, q.z))
  }

  /** Where the centre of the shifted box is. */
  function Centre(b: Box, s: Vec): Vec { MakeCoordinates(b, Vec(0.5 + s.x, 0.5 + s.y, 0.5 + s.z)) }

  function Translated(v: Vec, w: Vec): Vec { Vec(v.x + w.x, v.y + w.y, v.z + w.z) }

  /** Nudged by s, and periodic along the axes that are communicated along. */
  function Shifted(b: Box, g: Grid, s: Vec): Box {
    var dx := Centre(b, s);
    Box(Translated(b.lo, dx), Translated(b.hi, dx), b.xy, b.xz, b.yz, g.w != 1, g.h != 1, g.d != 1)
  }

  // ---------- the shift of a rank ----------

  predicate AtBoundary(g: Grid, q: Pos, d: Dir)
    requires g.Has(q)
  {
    if d % 2 == 0 then q.At(d / 2) + 1 == g.Extent(d / 2) else q.At(d / 2) == 0
  }

  /** What the first k directions contribute along axis a. */
  function Partial(g: Grid, cuts: Cuts, q: Pos, k: nat, a: Axis): real
    requires g.Has(q) && CutFor(g, cuts)
  {
    var c, i := cuts.At(a), q.At(a);
    if g.Extent(a) == 1 then 0.5
    else
      0.5 + (if 2 * a < k && i + 2 == |c| then 0.5 * Width(c, 0) + TOL else 0.0)
      - (if 2 * a + 1 < k && i == 0 then 0.5 * Width(c, |c| - 2) + TOL else 0.0)
  }

  function Nudged(f: Vec, a: Axis, s: real): Vec {
    if a == 0 then f.(x := f.x + s) else if a == 1 then f.(y := f.y + s) else f.(z := f.z + s)
  }

  /** What direction d contributes along its axis. */
  function Push(g: Grid, cuts: Cuts, q: Pos, d: Dir): real
    requires g.Has(q) && CutFor(g, cuts)
  {
    var s := 0.5 * Width(cuts.At(d / 2), Neighbor(g, q, d).At(d / 2)) + TOL;
    if AtBoundary(g, q, d) && g.Communicating(d) then (if d % 2 == 0 then s else -s) else 0.0
  }

  lemma PartialStep(g: Grid, cuts: Cuts, q: Pos, d: Dir, a: Axis)
    requires g.Has(q) && CutFor(g, cuts)
    ensures Partial(g, cuts, q, d + 1, a) == Partial(g, cuts, q, d, a) + if a == d / 2 then Push(g, cuts, q, d) else 0.0
  {
  }

  lemma PartialEnds(g: Grid, cuts: Cuts, q: Pos)
    requires g.Has(q) && CutFor(g, cuts)
    ensures forall a: Axis ::
              Partial(g, cuts, q, 0, a) == 0.5 && Partial(g, cuts, q, 6, a) == 0.5 + ShiftVec(g, cuts, q).At(a)
  {
  }

  /** Half the width of the neighbour's slab and the tolerance, for every boundary the rank lies at. */
  method GetShiftedBox(b: Box, g: Grid, cuts: Cuts, q: Pos) returns (r: Box)
    requires g.Has(q) && CutFor(g, cuts)
    ensures r == Shifted(b, g, ShiftVec(g, cuts, q))
  {
    hide Push, Partial, CutFor;
    PartialEnds(g, cuts, q);
    var f := Vec(0.5, 0.5, 0.5);
    for dir := 0 to 6
      invariant forall a: Axis :: f.At(a) == Partial(g, cuts, q, dir, a)
    {
      var next := Nudged(f, dir / 2, Push(g, cuts, q, dir));
      forall a: Axis ensures next.At(a) == Partial(g, cuts, q, dir + 1, a) { PartialStep(g, cuts, q, dir, a); }
      f := next;
    }
    assert f == Vec(f.At(0), f.At(1), f.At(2));
    var dx := MakeCoordinates(b, f);
    r := Box(Translated(b.lo, dx), Translated(b.hi, dx), b.xy, b.xz, b.yz,
             g.Communicating(0), g.Communicating(2), g.Communicating(4));
  }

  // ---------- wrapping in the shifted box ----------

  function TurnAt(f: real, e: real): int { if f >= 1.0 + e then 1 else if f < e then -1 else 0 }

  /** How far the test along x is off when y is not communicated along: the box then takes its tilts from y = 0
      and not from its own centre. */
  function Skew(b: Box, g: Grid, s: Vec): real
    requires b.Valid()
  {
    if g.h == 1 then b.xy * (b.yz * (s.z * b.L().z)) / b.L().x else 0.0
  }

  predicate Unshifted(g: Grid, s: Vec) {
    (g.w == 1 ==> s.x == 0.0) && (g.h == 1 ==> s.y == 0.0) && (g.d == 1 ==> s.z == 0.0)
  }

  lemma Product(l: real, r: real)
    ensures (0.5 + r) * l == 0.5 * l + r * l
  {
  }

  /** The components of the centre along the lattice vectors. */
  lemma CentreUntilted(b: Box, s: Vec)
    requires Centred(b)
    ensures Centre(b, s).z == s.z * b.L().z
    ensures Centre(b, s).y - b.yz * Centre(b, s).z == s.y * b.L().y
    ensures Centre(b, s).x - ((b.xz - b.yz * b.xy) * Centre(b, s).z + b.xy * Centre(b, s).y) == s.x * b.L().x
  {
    UntiltedCoordinates(b, Vec(0.5 + s.x, 0.5 + s.y, 0.5 + s.z));
    hide MakeCoordinates;
    Product(b.L().x, s.x);
    Product(b.L().y, s.y);
    Product(b.L().z, s.z);
  }

  /** The tilts of the shifted box are taken from its centre, but from y = 0 when y is not communicated along. */
  lemma ShiftedOrigin(b: Box, g: Grid, s: Vec)
    requires Centred(b) && Unshifted(g, s)
    ensures Origin(Shifted(b, g, s)).z == Centre(b, s).z
    ensures Origin(Shifted(b, g, s)).y == if g.h == 1 then 0.0 else Centre(b, s).y
  {
    hide Centre;
    CentreUntilted(b, s);
  }

  lemma SkewOfCentre(b: Box, g: Grid, s: Vec)
    requires b.Valid() && Centred(b) && Unshifted(g, s)
    ensures Skew(b, g, s) * b.L().x == b.xy * (Centre(b, s).y - Origin(Shifted(b, g, s)).y)
  {
    hide Centre, Shifted, Origin;
    CentreUntilted(b, s);
    ShiftedOrigin(b, g, s);
    if g.h == 1 {
      Quotient(b.xy * (b.yz * (s.z * b.L().z)), b.L().x);
    }
  }

  /** Where the tests along x cut, as a multiple of the box length. */
  lemma ThresholdX(b: Box, g: Grid, s: Vec)
    requires b.Valid() && Centred(b) && Unshifted(g, s)
    ensures var S := Shifted(b, g, s);
            Centre(b, s).x + TiltX(S, Vec(0.0, 0.0, 0.0)) == (s.x + Skew(b, g, s)) * b.L().x
  {
    var S, dx := Shifted(b, g, s), Centre(b, s);
    CentreUntilted(b, s);
    ShiftedOrigin(b, g, s);
    SkewOfCentre(b, g, s);
    var o := Origin(S);
    hide Centre, Shifted, Origin, Skew;
    assert b.yz * b.xy == b.xy * b.yz;
    Spread(b.xy, dx.y, -o.y);
    Spread(b.L().x, s.x, Skew(b, g, s));
  }

  lemma ThresholdY(b: Box, g: Grid, s: Vec)
    requires b.Valid() && Centred(b) && Unshifted(g, s)
    ensures var S := Shifted(b, g, s); Centre(b, s).y + TiltY(S, Vec(0.0, 0.0, 0.0)) == s.y * b.L().y
  {
    CentreUntilted(b, s);
    ShiftedOrigin(b, g, s);
    hide Centre;
  }

  lemma TurnFrom(w: real, lo: real, hi: real, u: real, l: real, e: real)
    requires l > 0.0 && hi == lo + l && w - lo == u - e * l
    ensures Turn(true, w, lo, hi, 0) == TurnAt(u / l, e)
  {
    Compare(u, l, e * l);
    Quotient(e, l);
  }

  lemma ShiftedTurnX(b: Box, g: Grid, s: Vec, v: Vec)
    requires b.Valid() && Centred(b) && Unshifted(g, s) && g.w != 1
    ensures TurnX(Shifted(b, g, s), v, 0) == TurnAt(MakeFraction(b, v).x, s.x + Skew(b, g, s))
  {
    hide TiltX, Centre, Skew, Turn, TurnAt;
    var S := Shifted(b, g, s);
    ThresholdX(b, g, s);
    TiltXFrom(S, v);
    TurnFrom(v.x, S.lo.x + TiltX(S, v), S.hi.x + TiltX(S, v), Untilted(b, v).x, b.L().x, s.x + Skew(b, g, s));
  }

  lemma ShiftedTurnY(b: Box, g: Grid, s: Vec, v: Vec)
    requires b.Valid() && Centred(b) && Unshifted(g, s) && g.h != 1
    ensures TurnY(Shifted(b, g, s), v, 0) == TurnAt(MakeFraction(b, v).y, s.y)
  {
    hide TiltY, Centre, Turn, TurnAt;
    var S := Shifted(b, g, s);
    ThresholdY(b, g, s);
    TiltYFrom(S, v);
    TurnFrom(v.y, S.lo.y + TiltY(S, v), S.hi.y + TiltY(S, v), Untilted(b, v).y, b.L().y, s.y);
  }

  lemma ShiftedTurnZ(b: Box, g: Grid, s: Vec, v: Vec)
    requires b.Valid() && Centred(b) && Unshifted(g, s) && g.d != 1
    ensures TurnZ(Shifted(b, g, s), v, 0) == TurnAt(MakeFraction(b, v).z, s.z)
  {
    hide Centre, Turn, TurnAt;
    var S := Shifted(b, g, s);
    CentreUntilted(b, s);
    TurnFrom(v.z, S.lo.z, S.hi.z, v.z - b.lo.z, b.L().z, s.z);
  }

  /** By how many images a coordinate is moved back; an axis with a single domain is not wrapped. */
  function Turns(n: nat, f: real, e: real): int { if n == 1 then 0 else TurnAt(f, e) }

  function Back(n: nat, f: real, e: real): real { f - Turns(n, f, e) as real }

  /** In fractions of the global box, every axis wraps on its own around the displacement of its slab. */
  lemma ShiftedWrap(b: Box, g: Grid, s: Vec, v: Vec)
    requires b.Valid() && Centred(b) && Unshifted(g, s)
    ensures MakeFraction(b, Wrapped(Shifted(b, g, s), v, NO_FLAGS))
         == var f := MakeFraction(b, v);
            Vec(Back(g.w, f.x, s.x + Skew(b, g, s)), Back(g.h, f.y, s.y), Back(g.d, f.z, s.z))
  {
    var S := Shifted(b, g, s);
    assert forall i: nat :: LatticeVector(S, i) == LatticeVector(b, i);
    hide MakeFraction, Skew, TurnX, TurnY, TurnZ, Plus, LatticeVector, Shifted;
    var w1, w2 := WrapX(S, v, NO_FLAGS), WrapXY(S, v, NO_FLAGS);
    if g.w != 1 { ShiftedTurnX(b, g, s, v); }
    MoveFraction(b, v, 0, -TurnX(S, v, 0));
    if g.h != 1 { ShiftedTurnY(b, g, s, w1); }
    MoveFraction(b, w1, 1, -TurnY(S, w1, 0));
    if g.d != 1 { ShiftedTurnZ(b, g, s, w2); }
    MoveFraction(b, w2, 2, -TurnZ(S, w2, 0));
  }

  lemma BackIsWrapCoord(c: seq<real>, i: nat, n: nat, f: real)
    requires |c| == n + 1 && i < n
    ensures Back(n, f, ShiftAlong(c, i)) == WrapCoord(c, i, f)
  {
  }

  lemma ShiftIsUnshifted(g: Grid, cuts: Cuts, q: Pos)
    requires g.Has(q) && CutFor(g, cuts)
    ensures Unshifted(g, ShiftVec(g, cuts, q))
  {
  }

  /** Wrapping in the shifted box of rank q is the wrapping of fractions by its slabs. */
  ghost predicate WrapsBySlabs(b: Box, g: Grid, cuts: Cuts, q: Pos)
    requires b.Valid() && g.Has(q) && CutFor(g, cuts)
  {
    forall v :: MakeFraction(b, Wrapped(Shifted(b, g, ShiftVec(g, cuts, q)), v, NO_FLAGS))
             == WrapVec(g, cuts, q, MakeFraction(b, v))
  }

  lemma WrapsAt(b: Box, g: Grid, cuts: Cuts, q: Pos, v: Vec)
    requires b.Valid() && Centred(b) && g.Has(q) && CutFor(g, cuts)
    ensures var s := ShiftVec(g, cuts, q);
            var w, f := WrapVec(g, cuts, q, MakeFraction(b, v)), MakeFraction(b, v);
            MakeFraction(b, Wrapped(Shifted(b, g, s), v, NO_FLAGS))
            == Vec(Back(g.w, f.x, s.x + Skew(b, g, s)), w.y, w.z)
    ensures WrapVec(g, cuts, q, MakeFraction(b, v)).x == Back(g.w, MakeFraction(b, v).x, ShiftVec(g, cuts, q).x)
  {
    hide MakeFraction, Wrapped, Back, WrapCoord, ShiftAlong, Skew, Shifted;
    var f := MakeFraction(b, v);
    ShiftIsUnshifted(g, cuts, q);
    ShiftedWrap(b, g, ShiftVec(g, cuts, q), v);
    BackIsWrapCoord(cuts.x, q.x, g.w, f.x);
    BackIsWrapCoord(cuts.y, q.y, g.h, f.y);
    BackIsWrapCoord(cuts.z, q.z, g.d, f.z);
  }

  /** Two different thresholds disagree on the larger. */
  lemma ThresholdsDiffer(n: nat, e: real, skew: real)
    requires n != 1 && skew != 0.0
    ensures exists f: real :: Back(n, f, e + skew) != Back(n, f, e)
  {
    var f := if skew > 0.0 then e else e + skew;
    assert Back(n, f, e + skew) != Back(n, f, e);
  }

  lemma ProductVanishes(x: real, y: real)
    ensures x * y == 0.0 <==> x == 0.0 || y == 0.0
  {
  }

  lemma QuotientVanishes(x: real, l: real)
    requires l > 0.0
    ensures x / l == 0.0 <==> x == 0.0
  {
    Quotient(x, l);
  }

  lemma SkewVanishes(b: Box, g: Grid, s: Vec)
    requires b.Valid()
    ensures Skew(b, g, s) == 0.0 <==> g.h != 1 || b.xy == 0.0 || b.yz == 0.0 || s.z == 0.0
  {
    var t := s.z * b.L().z;
    ProductVanishes(s.z, b.L().z);
    ProductVanishes(b.yz, t);
    ProductVanishes(b.xy, b.yz * t);
    QuotientVanishes(b.xy * (b.yz * t), b.L().x);
  }

  lemma ShiftVanishes(c: seq<real>, i: nat)
    requires Slabs(c) && i + 1 < |c|
    ensures ShiftAlong(c, i) == 0.0 <==> |c| == 2 || 0 < i < |c| - 2
  {
    assert Width(c, 0) > 0.0 && Width(c, |c| - 2) > 0.0;
  }

  /** The test along x is askew on the outer ranks of a grid cut along x and z but not along y, if the box has
      both of its tilts with y. */
  predicate Askew(b: Box, g: Grid, q: Pos) {
    g.w != 1 && g.h == 1 && g.d != 1 && b.xy != 0.0 && b.yz != 0.0 && (q.z == 0 || q.z + 1 == g.d)
  }

  /** A centred box in which every rank wraps by slabs. */
  ghost predicate Regular(b: Box, g: Grid) {
    b.Valid() && Centred(b) && forall q :: g.Has(q) ==> !Askew(b, g, q)
  }

  /** The shifted box wraps by slabs exactly on the ranks whose test is not askew. */
  lemma WrapsBySlabsExactly(b: Box, g: Grid, cuts: Cuts, q: Pos)
    requires b.Valid() && Centred(b) && g.Has(q) && CutFor(g, cuts)
    ensures WrapsBySlabs(b, g, cuts, q) <==> !Askew(b, g, q)
  {
    SkewVanishes(b, g, ShiftVec(g, cuts, q));
    ShiftVanishes(cuts.z, q.z);
    hide MakeFraction, MakeCoordinates, Wrapped, WrapVec, Skew, Shifted, ShiftAlong;
    var s := ShiftVec(g, cuts, q);
    if Askew(b, g, q) {
      ThresholdsDiffer(g.w, s.x, Skew(b, g, s));
      var f: real :| Back(g.w, f, s.x + Skew(b, g, s)) != Back(g.w, f, s.x);
      FractionOfCoordinates(b, Vec(f, 0.0, 0.0));
      WrapsAt(b, g, cuts, q, MakeCoordinates(b, Vec(f, 0.0, 0.0)));
    } else {
      forall v
        ensures MakeFraction(b, Wrapped(Shifted(b, g, s), v, NO_FLAGS)) == WrapVec(g, cuts, q, MakeFraction(b, v))
      {
        WrapsAt(b, g, cuts, q, v);
      }
    }
  }

  lemma ShiftedImage(b: Box, g: Grid, s: Vec, v: Vec, n: Image)
    requires b.Valid() && Centred(b) && Unshifted(g, s)
    ensures WrappedImage(Shifted(b, g, s), v, n, NO_FLAGS)
         == var f := MakeFraction(b, v);
            Image(n.x + Turns(g.w, f.x, s.x + Skew(b, g, s)), n.y + Turns(g.h, f.y, s.y), n.z + Turns(g.d, f.z, s.z))
  {
    var S := Shifted(b, g, s);
    assert forall i: nat :: LatticeVector(S, i) == LatticeVector(b, i);
    hide MakeFraction, Skew, TiltX, TiltY, Plus, LatticeVector, Centre;
    var w1, w2 := WrapX(S, v, NO_FLAGS), WrapXY(S, v, NO_FLAGS);
    if g.w != 1 { ShiftedTurnX(b, g, s, v); }
    MoveFraction(b, v, 0, -TurnX(S, v, 0));
    if g.h != 1 { ShiftedTurnY(b, g, s, w1); }
    MoveFraction(b, w1, 1, -TurnY(S, w1, 0));
    if g.d != 1 { ShiftedTurnZ(b, g, s, w2); }
  }

  lemma TurnsAreWrapImage(c: seq<real>, i: nat, n: nat, f: real)
    requires |c| == n + 1 && i < n
    ensures WrapImage(c, i, f) == Turns(n, f, ShiftAlong(c, i))
  {
  }

  /** Where the test is not askew the image counts are those of the slabs, too. */
  lemma ImagesBySlabs(b: Box, g: Grid, cuts: Cuts, q: Pos, v: Vec, n: Image)
    requires b.Valid() && Centred(b) && g.Has(q) && CutFor(g, cuts) && !Askew(b, g, q)
    ensures WrappedImage(Shifted(b, g, ShiftVec(g, cuts, q)), v, n, NO_FLAGS)
         == var f := MakeFraction(b, v);
            Image(n.x + WrapImage(cuts.x, q.x, f.x), n.y + WrapImage(cuts.y, q.y, f.y),
                  n.z + WrapImage(cuts.z, q.z, f.z))
  {
    var s, f := ShiftVec(g, cuts, q), MakeFraction(b, v);
    SkewVanishes(b, g, s);
    ShiftVanishes(cuts.z, q.z);
    ShiftIsUnshifted(g, cuts, q);
    hide MakeFraction, Skew, WrappedImage, Shifted, ShiftAlong, Turns, WrapImage;
    ShiftedImage(b, g, s, v, n);
    if g.w == 1 { OneDomain(f.x, s.x + Skew(b, g, s), s.x); }
    TurnsAreWrapImage(cuts.x, q.x, g.w, f.x);
    TurnsAreWrapImage(cuts.y, q.y, g.h, f.y);
    TurnsAreWrapImage(cuts.z, q.z, g.d, f.z);
  }

  lemma OneDomain(f: real, e: real, e': real)
    ensures Turns(1, f, e) == Turns(1, f, e')
  {
  }

  // ---------- positions near the rank ----------

  /** The half-open intervals from a to b and from l to h have no point in common. */
  predicate Apart(a: real, b: real, l: real, h: real) { b <= l || h <= a }

  function Lesser(a: real, b: real): real { if a <= b then a else b }

  function Greater(a: real, b: real): real { if a <= b then b else a }

  /** Around two thresholds a coordinate wraps alike exactly outside the stretches between them. */
  lemma BackDiffers(n: nat, f: real, e: real, e': real)
    requires n != 1
    ensures Back(n, f, e) == Back(n, f, e') <==>
              var m, k := Lesser(e, e'), Greater(e, e'); !(m <= f < k) && !(m + 1.0 <= f < k + 1.0)
  {
  }

  lemma CommonPoint(a: real, b: real, l: real, h: real) returns (f: real)
    requires a < b && l < h && !Apart(a, b, l, h)
    ensures a <= f < b && l <= f < h
  {
    f := Greater(a, l);
  }

  /** The coordinates that Near admits. */
  function Lowest(c: seq<real>, i: nat): real
    requires i + 1 < |c|
  {
    c[i] - 0.5 * Width(c, Advance(i, |c| - 1, false)) - TOL
  }

  function Beyond(c: seq<real>, i: nat): real
    requires i + 1 < |c|
  {
    c[i + 1] + 0.5 * Width(c, Advance(i, |c| - 1, true)) + TOL
  }

  lemma NearRange(c: seq<real>, i: nat)
    requires Slabs(c) && i + 1 < |c|
    ensures Lowest(c, i) < Beyond(c, i) && Near(c, i, c[i])
    ensures forall f :: Near(c, i, f) <==> Lowest(c, i) <= f < Beyond(c, i)
  {
    assert Width(c, i) > 0.0;
    InsideIsFixed(c, i, c[i]);
  }

  ghost predicate NearAll(g: Grid, cuts: Cuts, q: Pos, f: Vec)
    requires g.Has(q) && CutFor(g, cuts)
  {
    && (g.w == 1 || Near(cuts.x, q.x, f.x)) && (g.h == 1 || Near(cuts.y, q.y, f.y))
    && (g.d == 1 || Near(cuts.z, q.z, f.z))
  }

  /** Positions near the rank's slabs are wrapped by slabs. */
  ghost predicate NearWrapsBySlabs(b: Box, g: Grid, cuts: Cuts, q: Pos)
    requires b.Valid() && g.Has(q) && CutFor(g, cuts)
  {
    forall v :: NearAll(g, cuts, q, MakeFraction(b, v)) ==>
      MakeFraction(b, Wrapped(Shifted(b, g, ShiftVec(g, cuts, q)), v, NO_FLAGS))
      == WrapVec(g, cuts, q, MakeFraction(b, v))
  }

  /** The stretches between the right threshold along x and the one that is tested are not near the rank's slab. */
  ghost predicate Harmless(b: Box, g: Grid, cuts: Cuts, q: Pos)
    requires b.Valid() && g.Has(q) && CutFor(g, cuts)
  {
    var s := ShiftVec(g, cuts, q);
    var m, k := Lesser(s.x, s.x + Skew(b, g, s)), Greater(s.x, s.x + Skew(b, g, s));
    && Apart(m, k, Lowest(cuts.x, q.x), Beyond(cuts.x, q.x))
    && Apart(m + 1.0, k + 1.0, Lowest(cuts.x, q.x), Beyond(cuts.x, q.x))
  }

  lemma HarmfulPosition(b: Box, g: Grid, cuts: Cuts, q: Pos) returns (f: real)
    requires b.Valid() && g.Has(q) && CutFor(g, cuts) && Askew(b, g, q) && !Harmless(b, g, cuts, q)
    ensures var s := ShiftVec(g, cuts, q);
            Near(cuts.x, q.x, f) && Back(g.w, f, s.x + Skew(b, g, s)) != Back(g.w, f, s.x)
  {
    var s := ShiftVec(g, cuts, q);
    SkewVanishes(b, g, s);
    ShiftVanishes(cuts.z, q.z);
    NearRange(cuts.x, q.x);
    hide Skew, ShiftAlong, Near, Lowest, Beyond;
    var e, e' := s.x, s.x + Skew(b, g, s);
    var m, k := Lesser(e, e'), Greater(e, e');
    if Apart(m, k, Lowest(cuts.x, q.x), Beyond(cuts.x, q.x)) {
      f := CommonPoint(m + 1.0, k + 1.0, Lowest(cuts.x, q.x), Beyond(cuts.x, q.x));
    } else {
      f := CommonPoint(m, k, Lowest(cuts.x, q.x), Beyond(cuts.x, q.x));
    }
    BackDiffers(g.w, f, e, e');
  }

  lemma HarmlessWrap(b: Box, g: Grid, cuts: Cuts, q: Pos, f: real)
    requires b.Valid() && g.Has(q) && CutFor(g, cuts) && g.w != 1 && Harmless(b, g, cuts, q) && Near(cuts.x, q.x, f)
    ensures var s := ShiftVec(g, cuts, q); Back(g.w, f, s.x + Skew(b, g, s)) == Back(g.w, f, s.x)
  {
    var s := ShiftVec(g, cuts, q);
    NearRange(cuts.x, q.x);
    hide Skew, ShiftAlong, Near, Lowest, Beyond;
    BackDiffers(g.w, f, s.x, s.x + Skew(b, g, s));
  }

  /** Positions near a rank are wrapped by slabs exactly when its test is not askew or that is harmless. */
  lemma NearWrapsExactly(b: Box, g: Grid, cuts: Cuts, q: Pos)
    requires b.Valid() && Centred(b) && g.Has(q) && CutFor(g, cuts)
    ensures NearWrapsBySlabs(b, g, cuts, q) <==> !Askew(b, g, q) || Harmless(b, g, cuts, q)
  {
    hide MakeFraction, MakeCoordinates, Wrapped, WrapVec, Skew, Shifted, ShiftAlong, Near, Harmless, Slabs;
    if !Askew(b, g, q) {
      WrapsBySlabsExactly(b, g, cuts, q);
    } else if Harmless(b, g, cuts, q) {
      forall v | NearAll(g, cuts, q, MakeFraction(b, v))
        ensures MakeFraction(b, Wrapped(Shifted(b, g, ShiftVec(g, cuts, q)), v, NO_FLAGS))
             == WrapVec(g, cuts, q, MakeFraction(b, v))
      {
        WrapsAt(b, g, cuts, q, v);
        HarmlessWrap(b, g, cuts, q, MakeFraction(b, v).x);
      }
    } else {
      var f := HarmfulPosition(b, g, cuts, q);
      NearRange(cuts.z, q.z);
      var u := Vec(f, 0.5, cuts.z[q.z]);
      FractionOfCoordinates(b, u);
      WrapsAt(b, g, cuts, q, MakeCoordinates(b, u));
    }
  }

  // ---------- the local box ----------

  /** The point at fraction f of an edge of length l. */
  function Between(lo: real, l: real, f: real): real { lo + f * l }

  function Corner(b: Box, x: real, y: real, z: real): Vec {
    Vec(Between(b.lo.x, b.L().x, x), Between(b.lo.y, b.L().y, y), Between(b.lo.z, b.L().z, z))
  }

  /** The box of rank q: its slabs of the global box, with the same tilts. */
  function LocalBox(b: Box, g: Grid, cuts: Cuts, q: Pos): Box
    requires g.Has(q) && CutFor(g, cuts)
  {
    Box(Corner(b, cuts.x[q.x], cuts.y[q.y], cuts.z[q.z]),
        Corner(b, cuts.x[q.x + 1], cuts.y[q.y + 1], cuts.z[q.z + 1]),
        b.xy, b.xz, b.yz,
        g.w == 1, g.h == 1, g.d == 1)
  }

  /** The local box is periodic along exactly the axes that nothing is communicated along. */
  lemma LocalPeriodic(b: Box, g: Grid, cuts: Cuts, q: Pos)
    requires g.Has(q) && CutFor(g, cuts)
    ensures var l := LocalBox(b, g, cuts, q);
            && (l.periodicX <==> Neighbor(g, q, 0) == q) && (l.periodicY <==> Neighbor(g, q, 2) == q)
            && (l.periodicZ <==> Neighbor(g, q, 4) == q)
  {
    NeighborPairing(g, q, 0);
    NeighborPairing(g, q, 2);
    NeighborPairing(g, q, 4);
  }

  lemma Rescale(u: real, l: real, c: real, w: real)
    requires l > 0.0 && w > 0.0
    ensures w * l > 0.0 && (u - c * l) / (w * l) == (u / l - c) / w
  {
    var f := u / l;
    var k := (f - c) / w;
    Quotient(u, l);
    Quotient(f - c, w);
    assert u - c * l == (f - c) * l == k * w * l == k * (w * l);
    Quotient(k, w * l);
  }

  lemma SlabLength(lo: real, l: real, c: seq<real>, i: nat)
    requires l > 0.0 && Slabs(c) && i + 1 < |c|
    ensures Between(lo, l, c[i + 1]) - Between(lo, l, c[i]) == Width(c, i) * l > 0.0
  {
    assert Width(c, i) > 0.0;
    Rescale(0.0, l, 0.0, Width(c, i));
  }

  lemma LocalValid(b: Box, g: Grid, cuts: Cuts, q: Pos)
    requires b.Valid() && g.Has(q) && CutFor(g, cuts)
    ensures LocalBox(b, g, cuts, q).Valid()
  {
    hide Slabs, Width, Between;
    SlabLength(b.lo.x, b.L().x, cuts.x, q.x);
    SlabLength(b.lo.y, b.L().y, cuts.y, q.y);
    SlabLength(b.lo.z, b.L().z, cuts.z, q.z);
  }

  /** One axis: u is measured from the lower face of the global box. */
  lemma AlongExact(lo: real, u: real, l: real, c: seq<real>, i: nat)
    requires l > 0.0 && Slabs(c) && i + 1 < |c|
    ensures Between(lo, l, c[i + 1]) - Between(lo, l, c[i]) > 0.0
    ensures (u - (Between(lo, l, c[i]) - lo)) / (Between(lo, l, c[i + 1]) - Between(lo, l, c[i])) == Along(c, i, u / l)
  {
    SlabLength(lo, l, c, i);
    assert Width(c, i) > 0.0;
    Rescale(u, l, c[i], Width(c, i));
  }

  lemma SameTilts(b: Box, c: Box, v: Vec)
    requires c.xy == b.xy && c.xz == b.xz && c.yz == b.yz
    ensures Untilted(c, v)
         == var u := Untilted(b, v); Vec(u.x - (c.lo.x - b.lo.x), u.y - (c.lo.y - b.lo.y), u.z - (c.lo.z - b.lo.z))
  {
    assert c.yz * v.z == b.yz * v.z && c.yz * c.xy == b.yz * b.xy && c.xy * v.y == b.xy * v.y;
    assert (c.xz - c.yz * c.xy) * v.z == (b.xz - b.yz * b.xy) * v.z;
  }

  lemma LocalUntilted(b: Box, g: Grid, cuts: Cuts, q: Pos, v: Vec)
    requires g.Has(q) && CutFor(g, cuts)
    ensures Untilted(LocalBox(b, g, cuts, q), v)
         == var u, lo := Untilted(b, v), LocalBox(b, g, cuts, q).lo;
            Vec(u.x - (lo.x - b.lo.x), u.y - (lo.y - b.lo.y), u.z - (lo.z - b.lo.z))
  {
    hide Slabs, Between, Untilted;
    SameTilts(b, LocalBox(b, g, cuts, q), v);
  }

  /** Fractions of the local box are fractions of the slabs, for any tilt. */
  lemma LocalFractionExact(b: Box, g: Grid, cuts: Cuts, q: Pos, v: Vec)
    requires b.Valid() && g.Has(q) && CutFor(g, cuts)
    ensures LocalBox(b, g, cuts, q).Valid()
    ensures MakeFraction(LocalBox(b, g, cuts, q), v) == LocalFraction(g, cuts, q, MakeFraction(b, v))
  {
    hide Untilted, Slabs, Between, Along, Width;
    LocalValid(b, g, cuts, q);
    LocalUntilted(b, g, cuts, q, v);
    var u, l := Untilted(b, v), b.L();
    AlongExact(b.lo.x, u.x, l.x, cuts.x, q.x);
    AlongExact(b.lo.y, u.y, l.y, cuts.y, q.y);
    AlongExact(b.lo.z, u.z, l.z, cuts.z, q.z);
  }

  // ---------- a ghost in the wrong image ----------

  const SKEWED := Box(Vec(-0.5, -0.5, -0.5), Vec(0.5, 0.5, 0.5), 1.0, 0.0, 1.0, true, true, true)

  const FOUR := Grid(2, 1, 2)

  const HALVES := Cuts([0.0, 0.5, 1.0], [0.0, 1.0], [0.0, 0.5, 1.0])

  /** The fractions after a wrap by the rank (0, 0, z) of the four. */
  lemma SkewedWrap(z: nat, v: Vec)
    requires z < 2
    ensures CutFor(FOUR, HALVES) && SKEWED.Valid() && Centred(SKEWED)
    ensures MakeFraction(SKEWED, Wrapped(Shifted(SKEWED, FOUR, ShiftVec(FOUR, HALVES, Pos(0, 0, z))), v, NO_FLAGS))
         == var f, h := MakeFraction(SKEWED, v), 0.25 + TOL;
            if z == 0 then Vec(Back(2, f.x, -h - h), f.y, Back(2, f.z, -h))
            else Vec(Back(2, f.x, 0.0), f.y, Back(2, f.z, h))
  {
    var q, h := Pos(0, 0, z), 0.25 + TOL;
    assert CutFor(FOUR, HALVES);
    var s := ShiftVec(FOUR, HALVES, q);
    assert s == Vec(-h, 0.0, if z == 0 then -h else h);
    assert Skew(SKEWED, FOUR, s) == s.z;
    hide MakeFraction, Wrapped, Shifted, Back, Skew;
    ShiftedWrap(SKEWED, FOUR, s, v);
    OneBack(MakeFraction(SKEWED, v).y, 0.0);
  }

  lemma OneBack(f: real, e: real)
    ensures Back(1, f, e) == f
  {
  }

  /** A particle inside the box of rank (1, 0, 0), in the half facing both neighbours, is sent on as a ghost to the
      east, across the boundary, and then upward. The first receiver stores the image next to its box; the second moves
      it to the other side of the global box, away from its own. */
  lemma GhostMisplaced(v0: Vec, v1: Vec, v2: Vec)
    requires CutFor(FOUR, HALVES)
    requires v0 == MakeCoordinates(SKEWED, Vec(0.9, 0.5, 0.4))
    requires v1 == Wrapped(Shifted(SKEWED, FOUR, ShiftVec(FOUR, HALVES, Pos(0, 0, 0))), v0, NO_FLAGS)
    requires v2 == Wrapped(Shifted(SKEWED, FOUR, ShiftVec(FOUR, HALVES, Pos(0, 0, 1))), v1, NO_FLAGS)
    ensures SKEWED.Valid() && Centred(SKEWED) && Askew(SKEWED, FOUR, Pos(0, 0, 1))
    ensures Inside(HALVES.x, 1, 0.9) && Headed(HALVES.x, 1, 0.9, true)
    ensures Inside(HALVES.z, 0, 0.4) && Headed(HALVES.z, 0, 0.4, true)
    ensures MakeFraction(SKEWED, v1) == Vec(-0.1, 0.5, 0.4) == WrapVec(FOUR, HALVES, Pos(0, 0, 1), Vec(-0.1, 0.5, 0.4))
    ensures Near(HALVES.x, 0, -0.1) && Near(HALVES.z, 1, 0.4)
    ensures MakeFraction(SKEWED, v2) == Vec(0.9, 0.5, 0.4) && !Near(HALVES.x, 0, 0.9)
  {
    FractionOfCoordinates(SKEWED, Vec(0.9, 0.5, 0.4));
    SkewedWrap(0, v0);
    SkewedWrap(1, v1);
    hide MakeFraction, Wrapped, Shifted, MakeCoordinates, ShiftVec;
  }
}
