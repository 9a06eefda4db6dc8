/** Triclinic boxes: fractional coordinates, lattice shifts and wrapping. */
module TriclinicBox {
  import opened Vectors

  /** A box from lo to hi before tilting, its tilt factors, and the directions in which it is periodic. */
  datatype Box = Box(lo: Vec, hi: Vec, xy: real, xz: real, yz: real,
                     periodicX: bool, periodicY: bool, periodicZ: bool) {
    predicate Valid() { lo.x < hi.x && lo.y < hi.y && lo.z < hi.z }

    function L(): Vec { Vec(hi.x - lo.x, hi.y - lo.y, hi.z - lo.z) }

    predicate FullyPeriodic() { periodicX && periodicY && periodicZ }
  }

  // ---------- fractional coordinates ----------

  /** The components of v along the lattice vectors, measured from lo. */
  function Untilted(b: Box, v: Vec): Vec {
    Vec(v.x - b.lo.x - ((b.xz - b.yz * b.xy) * v.z + b.xy * v.y), v.y - b.lo.y - b.yz * v.z, v.z - b.lo.z)
  }

  function MakeFraction(b: Box, v: Vec): Vec
    requires b.Valid()
  {
    var u := Untilted(b, v);
    Vec(u.x / b.L().x, u.y / b.L().y, u.z / b.L().z)
  }

  function MakeCoordinates(b: Box, f: Vec): Vec {
    var x, y, z := b.lo.x + f.x * b.L().x, b.lo.y + f.y * b.L().y, b.lo.z + f.z * b.L().z;
    Vec(x + (b.xy * y + b.xz * z), y + b.yz * z, z)
  }

  lemma UntiltedCoordinates(b: Box, f: Vec)
    ensures Untilted(b, MakeCoordinates(b, f)) == Vec(f.x * b.L().x, f.y * b.L().y, f.z * b.L().z)
  {
    var y, z := b.lo.y + f.y * b.L().y, b.lo.z + f.z * b.L().z;
    Detilt(b.xy, b.xz, b.yz, y, z);
  }

  /** The two forms of the tilt of x agree. */
  lemma Detilt(xy: real, xz: real, yz: real, y: real, z: real)
    ensures (xz - yz * xy) * z + xy * (y + yz * z) == xy * y + xz * z
  {
    assert (xz - yz * xy) * z == xz * z - yz * xy * z;
    assert xy * (y + yz * z) == xy * y + xy * yz * z;
  }

  lemma Quotient(a: real, b: real)
    requires b > 0.0
    ensures a * b / b == a && a / b * b == a
  {
  }

  lemma FractionOfCoordinates(b: Box, f: Vec)
    requires b.Valid()
    ensures MakeFraction(b, MakeCoordinates(b, f)) == f
  {
    UntiltedCoordinates(b, f);
    Quotient(f.x, b.L().x);
    Quotient(f.y, b.L().y);
    Quotient(f.z, b.L().z);
  }

  lemma CoordinatesOfFraction(b: Box, v: Vec)
    requires b.Valid()
    ensures MakeCoordinates(b, MakeFraction(b, v)) == v
  {
    var u := Untilted(b, v);
    Quotient(u.x, b.L().x);
    Quotient(u.y, b.L().y);
    Quotient(u.z, b.L().z);
    Detilt(b.xy, b.xz, b.yz, v.y - b.yz * v.z, v.z);
  }

  // ---------- lattice shifts ----------

  function LatticeVector(b: Box, i: nat): Vec {
    if i == 0 then Vec(b.L().x, 0.0, 0.0)
    else if i == 1 then Vec(b.L().y * b.xy, b.L().y, 0.0)
    else if i == 2 then Vec(b.L().z * b.xz, b.L().z * b.yz, b.L().z)
    else Vec(0.0, 0.0, 0.0)
  }

  function Plus(v: Vec, n: int, a: Vec): Vec {
    Vec(v.x + n as real * a.x, v.y + n as real * a.y, v.z + n as real * a.z)
  }

  function Shift(b: Box, v: Vec, n: Image): Vec {
    Plus(Plus(Plus(v, n.x, LatticeVector(b, 0)), n.y, LatticeVector(b, 1)), n.z, LatticeVector(b, 2))
  }

  function Moved(n: Image, i: nat, s: int): Image {
    if i == 0 then n.(x := n.x + s) else if i == 1 then n.(y := n.y + s) else n.(z := n.z + s)
  }

  /** Moving by lattice vectors and counting the images back leaves the shifted position as it was. */
  lemma MoveKeepsShift(b: Box, v: Vec, n: Image, i: nat, s: int)
    requires i < 3
    ensures Shift(b, Plus(v, -s, LatticeVector(b, i)), Moved(n, i, s)) == Shift(b, v, n)
  {
    hide Plus, LatticeVector;
    var a0, a1, a2 := LatticeVector(b, 0), LatticeVector(b, 1), LatticeVector(b, 2);
    if i == 0 {
      PlusBack(v, n.x, s, a0);
    } else if i == 1 {
      PlusSwap(v, -s, a1, n.x, a0);
      PlusBack(Plus(v, n.x, a0), n.y, s, a1);
    } else {
      PlusSwap(v, -s, a2, n.x, a0);
      PlusSwap(Plus(v, n.x, a0), -s, a2, n.y, a1);
      PlusBack(Plus(Plus(v, n.x, a0), n.y, a1), n.z, s, a2);
    }
  }

  lemma PlusBack(v: Vec, k: int, s: int, a: Vec)
    ensures Plus(Plus(v, -s, a), k + s, a) == Plus(v, k, a)
  {
    Distribute(k, s, a.x);
    Distribute(k, s, a.y);
    Distribute(k, s, a.z);
  }

  lemma PlusSwap(v: Vec, m: int, a: Vec, k: int, c: Vec)
    ensures Plus(Plus(v, m, a), k, c) == Plus(Plus(v, k, c), m, a)
  {
  }

  lemma Distribute(k: int, s: int, a: real)
    ensures (-s) as real * a + (k + s) as real * a == k as real * a
  {
  }

  /** A lattice vector changes one fractional coordinate by one and leaves the others. */
  lemma MoveFraction(b: Box, v: Vec, i: nat, s: int)
    requires b.Valid() && i < 3
    ensures MakeFraction(b, Plus(v, s, LatticeVector(b, i)))
         == var f := MakeFraction(b, v);
            if i == 0 then f.(x := f.x + s as real)
            else if i == 1 then f.(y := f.y + s as real)
            else f.(z := f.z + s as real)
  {
    hide Untilted, Plus, LatticeVector;
    UntiltedMove(b, v, i, s);
    var u, l, r := Untilted(b, v), b.L(), s as real;
    AddWhole(u.x, r, l.x);
    AddWhole(u.y, r, l.y);
    AddWhole(u.z, r, l.z);
  }

  /** Shifting by images adds them to the fractions. */
  lemma ShiftFraction(b: Box, v: Vec, n: Image)
    requires b.Valid()
    ensures MakeFraction(b, Shift(b, v, n))
         == var f := MakeFraction(b, v); Vec(f.x + n.x as real, f.y + n.y as real, f.z + n.z as real)
  {
    hide MakeFraction, Plus, LatticeVector;
    MoveFraction(b, v, 0, n.x);
    var v1 := Plus(v, n.x, LatticeVector(b, 0));
    MoveFraction(b, v1, 1, n.y);
    MoveFraction(b, Plus(v1, n.y, LatticeVector(b, 1)), 2, n.z);
  }

  lemma AddWhole(u: real, r: real, l: real)
    requires l > 0.0
    ensures (u + r * l) / l == u / l + r
  {
  }

  lemma UntiltedMoveX(b: Box, v: Vec, s: int)
    ensures Untilted(b, Plus(v, s, LatticeVector(b, 0))) == Untilted(b, v).(x := Untilted(b, v).x + s as real * b.L().x)
  {
    assert Plus(v, s, LatticeVector(b, 0)) == Vec(v.x + s as real * b.L().x, v.y, v.z);
  }

  lemma UntiltedMoveY(b: Box, v: Vec, s: int)
    ensures Untilted(b, Plus(v, s, LatticeVector(b, 1))) == Untilted(b, v).(y := Untilted(b, v).y + s as real * b.L().y)
  {
    var q := s as real * b.L().y;
    var w := Plus(v, s, LatticeVector(b, 1));
    assert s as real * (b.L().y * b.xy) == b.xy * q;
    assert w == Vec(v.x + b.xy * q, v.y + q, v.z);
    Spread(b.xy, v.y, q);
  }

  lemma UntiltedMoveZ(b: Box, v: Vec, s: int)
    ensures Untilted(b, Plus(v, s, LatticeVector(b, 2))) == Untilted(b, v).(z := Untilted(b, v).z + s as real * b.L().z)
  {
    var q := s as real * b.L().z;
    var w := Plus(v, s, LatticeVector(b, 2));
    assert s as real * (b.L().z * b.xz) == b.xz * q;
    assert s as real * (b.L().z * b.yz) == b.yz * q;
    assert w == Vec(v.x + b.xz * q, v.y + b.yz * q, v.z + q);
    Spread(b.yz, v.z, q);
    Spread(b.xz - b.yz * b.xy, v.z, q);
    Spread(b.xy, v.y, b.yz * q);
    Detilt(b.xy, b.xz, b.yz, 0.0, q);
  }

  lemma UntiltedMove(b: Box, v: Vec, i: nat, s: int)
    requires i < 3
    ensures Untilted(b, Plus(v, s, LatticeVector(b, i)))
         == var u, r := Untilted(b, v), s as real;
            if i == 0 then u.(x := u.x + r * b.L().x)
            else if i == 1 then u.(y := u.y + r * b.L().y)
            else u.(z := u.z + r * b.L().z)
  {
    hide Untilted, Plus, LatticeVector;
    if i == 0 { UntiltedMoveX(b, v, s); } else if i == 1 { UntiltedMoveY(b, v, s); } else { UntiltedMoveZ(b, v, s); }
  }

  lemma Spread(c: real, z: real, q: real)
    ensures c * (z + q) == c * z + c * q
  {
  }

  // ---------- wrapping ----------

  /** Flags force a move up (1) or down (-1) along an axis; zero wraps by position. */
  datatype Flags = Flags(x: int, y: int, z: int)

  const NO_FLAGS := Flags(0, 0, 0)

  /** The point that tilts are measured from. */
  function Origin(b: Box): Vec {
    Vec((b.hi.x + b.lo.x) / 2.0, if b.periodicY then (b.hi.y + b.lo.y) / 2.0 else 0.0,
        if b.periodicZ then (b.hi.z + b.lo.z) / 2.0 else 0.0)
  }

  function TiltX(b: Box, v: Vec): real {
    (b.xz - b.xy * b.yz) * (v.z - Origin(b).z) + b.xy * (v.y - Origin(b).y)
  }

  function TiltY(b: Box, v: Vec): real { b.yz * (v.z - Origin(b).z) }

  /** By how many images a coordinate is moved back. */
  function Turn(periodic: bool, w: real, lo: real, hi: real, flag: int): int {
    if !periodic then 0
    else if (w >= hi && flag == 0) || flag == 1 then 1
    else if (w < lo && flag == 0) || flag == -1 then -1
    else 0
  }

  function TurnX(b: Box, v: Vec, flag: int): int {
    Turn(b.periodicX, v.x, b.lo.x + TiltX(b, v), b.hi.x + TiltX(b, v), flag)
  }

  function TurnY(b: Box, v: Vec, flag: int): int {
    Turn(b.periodicY, v.y, b.lo.y + TiltY(b, v), b.hi.y + TiltY(b, v), flag)
  }

  function TurnZ(b: Box, v: Vec, flag: int): int { Turn(b.periodicZ, v.z, b.lo.z, b.hi.z, flag) }

  /** Wrapping one axis after the other, each from the position the one before left. */
  function WrapX(b: Box, v: Vec, f: Flags): Vec { Plus(v, -TurnX(b, v, f.x), LatticeVector(b, 0)) }

  function WrapXY(b: Box, v: Vec, f: Flags): Vec {
    Plus(WrapX(b, v, f), -TurnY(b, WrapX(b, v, f), f.y), LatticeVector(b, 1))
  }

  function Wrapped(b: Box, v: Vec, f: Flags): Vec {
    Plus(WrapXY(b, v, f), -TurnZ(b, WrapXY(b, v, f), f.z), LatticeVector(b, 2))
  }

  function WrappedImage(b: Box, v: Vec, n: Image, f: Flags): Image {
    Image(n.x + TurnX(b, v, f.x), n.y + TurnY(b, WrapX(b, v, f), f.y), n.z + TurnZ(b, WrapXY(b, v, f), f.z))
  }

  /** Wraps along x. */
  method WrapAlongX(b: Box, v: Vec, n: Image, f: Flags) returns (w: Vec, img: Image)
    ensures w == WrapX(b, v, f) && img == Moved(n, 0, TurnX(b, v, f.x))
  {
    hide TiltX;
    w, img := v, n;
    var l := b.L();
    if b.periodicX {
      var tilt := TiltX(b, w);
      if (w.x >= b.hi.x + tilt && f.x == 0) || f.x == 1 {
        w, img := w.(x := w.x - l.x), img.(x := img.x + 1);
      } else if (w.x < b.lo.x + tilt && f.x == 0) || f.x == -1 {
        w, img := w.(x := w.x + l.x), img.(x := img.x - 1);
      }
    }
  }

  /** Wraps along y. */
  method WrapAlongY(b: Box, v: Vec, n: Image, f: Flags) returns (w: Vec, img: Image)
    ensures w == Plus(v, -TurnY(b, v, f.y), LatticeVector(b, 1)) && img == Moved(n, 1, TurnY(b, v, f.y))
  {
    hide TiltY;
    w, img := v, n;
    var l := b.L();
    if b.periodicY {
      var tilt := TiltY(b, w);
      if (w.y >= b.hi.y + tilt && f.y == 0) || f.y == 1 {
        w, img := w.(y := w.y - l.y, x := w.x - l.y * b.xy), img.(y := img.y + 1);
      } else if (w.y < b.lo.y + tilt && f.y == 0) || f.y == -1 {
        w, img := w.(y := w.y + l.y, x := w.x + l.y * b.xy), img.(y := img.y - 1);
      }
    }
  }

  /** Wraps along z. */
  method WrapAlongZ(b: Box, v: Vec, n: Image, f: Flags) returns (w: Vec, img: Image)
    ensures w == Plus(v, -TurnZ(b, v, f.z), LatticeVector(b, 2)) && img == Moved(n, 2, TurnZ(b, v, f.z))
  {
    w, img := v, n;
    var l := b.L();
    if b.periodicZ {
      if (w.z >= b.hi.z && f.z == 0) || f.z == 1 {
        w, img := Vec(w.x - l.z * b.xz, w.y - l.z * b.yz, w.z - l.z), img.(z := img.z + 1);
      } else if (w.z < b.lo.z && f.z == 0) || f.z == -1 {
        w, img := Vec(w.x + l.z * b.xz, w.y + l.z * b.yz, w.z + l.z), img.(z := img.z - 1);
      }
    }
  }

  /** Wraps a position axis by axis; the position that the image counts lead back to stays the same. */
  method Wrap(b: Box, v: Vec, n: Image, f: Flags) returns (w: Vec, img: Image)
    ensures w == Wrapped(b, v, f) && img == WrappedImage(b, v, n, f)
    ensures Shift(b, w, img) == Shift(b, v, n)
  {
    hide TurnX, TurnY, TurnZ, Plus, LatticeVector, Shift;
    WrapKeepsShift(b, v, n, f);
    w, img := WrapAlongX(b, v, n, f);
    w, img := WrapAlongY(b, w, img, f);
    w, img := WrapAlongZ(b, w, img, f);
  }

  /** Wrapping never changes the position that the image counts lead back to. */
  lemma WrapKeepsShift(b: Box, v: Vec, n: Image, f: Flags)
    ensures Shift(b, Wrapped(b, v, f), WrappedImage(b, v, n, f)) == Shift(b, v, n)
  {
    hide Shift, Plus, LatticeVector, TurnX, TurnY, TurnZ;
    var n1 := Moved(n, 0, TurnX(b, v, f.x));
    var n2 := Moved(n1, 1, TurnY(b, WrapX(b, v, f), f.y));
    MoveKeepsShift(b, v, n, 0, TurnX(b, v, f.x));
    MoveKeepsShift(b, WrapX(b, v, f), n1, 1, TurnY(b, WrapX(b, v, f), f.y));
    MoveKeepsShift(b, WrapXY(b, v, f), n2, 2, TurnZ(b, WrapXY(b, v, f), f.z));
  }

  // ---------- where wrapping leads ----------

  /** How far, in fractions, the tests for leaving the box along x and y are off. */
  function OffX(b: Box): real
    requires b.Valid()
  {
    TiltX(b, Vec(0.0, 0.0, 0.0)) / b.L().x
  }

  function OffY(b: Box): real
    requires b.Valid()
  {
    TiltY(b, Vec(0.0, 0.0, 0.0)) / b.L().y
  }

  /** One coordinate wrapped into [e, 1 + e). */
  function Into(f: real, e: real): real { if f >= 1.0 + e then f - 1.0 else if f < e then f + 1.0 else f }

  lemma SameSign(d: real, l: real)
    requires l > 0.0
    ensures d * l >= 0.0 <==> d >= 0.0
  {
    if d < 0.0 { assert (-d) * l > 0.0; }
  }

  lemma Compare(u: real, l: real, c: real)
    requires l > 0.0
    ensures u >= l + c <==> u / l >= 1.0 + c / l
    ensures u < c <==> u / l < c / l
  {
    var p, q := u / l, c / l;
    assert u == p * l && c == q * l;
    assert (p - (1.0 + q)) * l == u - (l + c);
    assert (p - q) * l == u - c;
    SameSign(p - (1.0 + q), l);
    SameSign(p - q, l);
  }

  lemma TiltXFrom(b: Box, v: Vec)
    ensures TiltX(b, v) == (b.xz - b.yz * b.xy) * v.z + b.xy * v.y + TiltX(b, Vec(0.0, 0.0, 0.0))
  {
    assert b.yz * b.xy == b.xy * b.yz;
    Spread(b.xz - b.xy * b.yz, v.z, 0.0 - Origin(b).z);
    Spread(b.xy, v.y, 0.0 - Origin(b).y);
  }

  lemma TiltYFrom(b: Box, v: Vec)
    ensures TiltY(b, v) == b.yz * v.z + TiltY(b, Vec(0.0, 0.0, 0.0))
  {
    Spread(b.yz, v.z, 0.0 - Origin(b).z);
  }

  lemma TurnXFraction(b: Box, v: Vec)
    requires b.Valid() && b.periodicX
    ensures TurnX(b, v, 0)
            == var f := MakeFraction(b, v).x; if f >= 1.0 + OffX(b) then 1 else if f < OffX(b) then -1 else 0
  {
    hide TiltX;
    var u, c := Untilted(b, v).x, TiltX(b, Vec(0.0, 0.0, 0.0));
    TiltXFrom(b, v);
    assert v.x - (b.lo.x + TiltX(b, v)) == u - c;
    hide Untilted;
    Compare(u, b.L().x, c);
  }

  lemma TurnYFraction(b: Box, v: Vec)
    requires b.Valid() && b.periodicY
    ensures TurnY(b, v, 0)
            == var f := MakeFraction(b, v).y; if f >= 1.0 + OffY(b) then 1 else if f < OffY(b) then -1 else 0
  {
    hide TiltY;
    var u, c := Untilted(b, v).y, TiltY(b, Vec(0.0, 0.0, 0.0));
    TiltYFrom(b, v);
    assert v.y - (b.lo.y + TiltY(b, v)) == u - c;
    hide Untilted;
    Compare(u, b.L().y, c);
  }

  lemma TurnZFraction(b: Box, v: Vec)
    requires b.Valid() && b.periodicZ
    ensures TurnZ(b, v, 0) == var f := MakeFraction(b, v).z; if f >= 1.0 then 1 else if f < 0.0 then -1 else 0
  {
    Compare(v.z - b.lo.z, b.L().z, 0.0);
  }

  /** In a fully periodic box every axis wraps on its own, although the axes are taken one after another. */
  lemma WrapFraction(b: Box, v: Vec)
    requires b.Valid() && b.FullyPeriodic()
    ensures MakeFraction(b, Wrapped(b, v, NO_FLAGS))
         == var f := MakeFraction(b, v); Vec(Into(f.x, OffX(b)), Into(f.y, OffY(b)), Into(f.z, 0.0))
  {
    hide MakeFraction, OffX, OffY, TurnX, TurnY, TurnZ, Plus, LatticeVector;
    var w1, w2 := WrapX(b, v, NO_FLAGS), WrapXY(b, v, NO_FLAGS);
    TurnXFraction(b, v);
    MoveFraction(b, v, 0, -TurnX(b, v, 0));
    TurnYFraction(b, w1);
    MoveFraction(b, w1, 1, -TurnY(b, w1, 0));
    TurnZFraction(b, w2);
    MoveFraction(b, w2, 2, -TurnZ(b, w2, 0));
  }

  predicate Unit(f: Vec) { 0.0 <= f.x < 1.0 && 0.0 <= f.y < 1.0 && 0.0 <= f.z < 1.0 }

  /** Within one image of the box. */
  predicate Adjacent(f: Vec) { -1.0 <= f.x < 2.0 && -1.0 <= f.y < 2.0 && -1.0 <= f.z < 2.0 }

  ghost predicate WrapsHome(b: Box)
    requires b.Valid()
  {
    forall v :: Adjacent(MakeFraction(b, v)) ==> Unit(MakeFraction(b, Wrapped(b, v, NO_FLAGS)))
  }

  /** A fraction in [0, 1) that wrapping around [e, 1 + e) takes out of it. */
  function Astray(e: real): real { if e > 0.0 then 0.0 else if e <= -1.0 then 0.0 else 1.0 + e }

  /** A fully periodic box takes every position within one image into itself exactly when the point its tilts
      are measured from does not move the tests. */
  lemma WrapsHomeExactly(b: Box)
    requires b.Valid() && b.FullyPeriodic()
    ensures WrapsHome(b) <==> OffX(b) == 0.0 && OffY(b) == 0.0
  {
    hide MakeFraction, MakeCoordinates, OffX, OffY, Wrapped;
    if OffX(b) == 0.0 && OffY(b) == 0.0 {
      forall v | Adjacent(MakeFraction(b, v)) ensures Unit(MakeFraction(b, Wrapped(b, v, NO_FLAGS))) {
        WrapFraction(b, v);
      }
    } else {
      var f := if OffX(b) != 0.0 then Vec(Astray(OffX(b)), 0.0, 0.0) else Vec(0.0, Astray(OffY(b)), 0.0);
      var v := MakeCoordinates(b, f);
      FractionOfCoordinates(b, f);
      WrapFraction(b, v);
      assert Adjacent(MakeFraction(b, v)) && !Unit(MakeFraction(b, Wrapped(b, v, NO_FLAGS)));
    }
  }

  /** Boxes centred on the origin and boxes without tilt are of that kind. */
  lemma CentredWrapsHome(b: Box)
    requires b.Valid() && b.FullyPeriodic()
    requires (b.hi.y + b.lo.y == 0.0 && b.hi.z + b.lo.z == 0.0) || (b.xy == 0.0 && b.xz == 0.0 && b.yz == 0.0)
    ensures WrapsHome(b)
  {
    WrapsHomeExactly(b);
    assert OffX(b) == 0.0 && OffY(b) == 0.0;
  }
}
