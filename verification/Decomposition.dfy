/** The choice of a domain grid: the factorisation of the number of ranks with the smallest interface area. */
module Decomposition {
  import opened Indexing

  datatype Triple = Triple(x: nat, y: nat, z: nat)

  datatype Lengths = Lengths(x: real, y: real, z: real)

  /** A grid of n domains that respects the requested counts (zero requests nothing); flat boxes are not cut along z. */
  ghost predicate Fits(n: nat, asked: Triple, l: Lengths, t: Triple) {
    && t.x >= 1 && t.y >= 1 && t.z >= 1 && t.x * t.y * t.z == n
    && (asked.x != 0 ==> t.x == asked.x) && (asked.y != 0 ==> t.y == asked.y) && (asked.z != 0 ==> t.z == asked.z)
    && (l.z == 0.0 ==> t.z == 1)
  }

  /** The area between domains, or its length in a flat box. */
  function Area(l: Lengths, t: Triple): real {
    if l.z == 0.0 then l.x * (t.y - 1) as real + l.y * (t.x - 1) as real
    else l.x * l.y * (t.z - 1) as real + l.x * l.z * (t.y - 1) as real + l.y * l.z * (t.x - 1) as real
  }

  /** The cross-section of the box perpendicular to an axis; of a flat box, its length along the other axis. */
  function Section(l: Lengths, axis: nat): real
    requires axis < 3
  {
    if l.z == 0.0 then (if axis == 0 then l.y else if axis == 1 then l.x else 0.0)
    else if axis == 0 then l.y * l.z else if axis == 1 then l.x * l.z else l.x * l.y
  }

  /** The planes between n slabs, each with the given cross-section. */
  function Planes(n: nat, section: real): real { if n <= 1 then 0.0 else Planes(n - 1, section) + section }

  lemma {:induction false} PlanesCount(n: nat, section: real)
    requires n >= 1
    ensures Planes(n, section) == section * (n - 1) as real
  {
    if n > 1 {
      PlanesCount(n - 1, section);
      assert section * (n - 2) as real + section == section * (n - 1) as real;
    }
  }

  /** The area is that of all planes that cut the box. */
  lemma AreaCountsPlanes(l: Lengths, t: Triple)
    requires t.x >= 1 && t.y >= 1 && t.z >= 1
    ensures Area(l, t) == Planes(t.x, Section(l, 0)) + Planes(t.y, Section(l, 1)) + Planes(t.z, Section(l, 2))
  {
    PlanesCount(t.x, Section(l, 0));
    PlanesCount(t.y, Section(l, 1));
    PlanesCount(t.z, Section(l, 2));
    hide Planes;
    if l.z != 0.0 {
      SameProduct(Section(l, 0), l.y, l.z, (t.x - 1) as real);
      SameProduct(Section(l, 1), l.x, l.z, (t.y - 1) as real);
      SameProduct(Section(l, 2), l.x, l.y, (t.z - 1) as real);
    }
  }

  lemma SameProduct(s: real, a: real, b: real, n: real)
    requires s == a * b
    ensures s * n == a * b * n
  {
  }

  lemma PlanesNext(n: nat, section: real)
    requires n >= 1
    ensures Planes(n + 1, section) == Planes(n, section) + section && Planes(1, section) == 0.0
  {
  }

  /** One more cut along an axis adds one cross-section. */
  lemma AreaOfCut(l: Lengths, t: Triple)
    requires t.x >= 1 && t.y >= 1 && t.z >= 1
    ensures Area(l, Triple(1, 1, 1)) == 0.0
    ensures Area(l, t.(x := t.x + 1)) - Area(l, t) == Section(l, 0)
    ensures Area(l, t.(y := t.y + 1)) - Area(l, t) == Section(l, 1)
    ensures Area(l, t.(z := t.z + 1)) - Area(l, t) == Section(l, 2)
  {
    hide Area, Planes, Section;
    AreaCountsPlanes(l, t);
    AreaCountsPlanes(l, Triple(1, 1, 1));
    AreaCountsPlanes(l, t.(x := t.x + 1));
    AreaCountsPlanes(l, t.(y := t.y + 1));
    AreaCountsPlanes(l, t.(z := t.z + 1));
    PlanesNext(t.x, Section(l, 0));
    PlanesNext(t.y, Section(l, 1));
    PlanesNext(t.z, Section(l, 2));
  }

  function FirstGuess(n: nat, l: Lengths): Triple { if l.z == 0.0 then Triple(1, n, 1) else Triple(1, 1, n) }

  /** The area the search starts from, which in three dimensions is that of the grid (1, n, 1). */
  function FirstBound(n: nat, l: Lengths): real
    requires n >= 1
  {
    if l.z == 0.0 then l.x * (n - 1) as real else l.x * l.z * (n - 1) as real
  }

  /** What the search has found so far. */
  datatype Found = Found(any: bool, best: Triple, area: real)

  ghost predicate Earlier(t: Triple, a: nat, b: nat, c: nat) {
    t.x < a || (t.x == a && (t.y < b || (t.y == b && t.z < c)))
  }

  /** Every grid tried before t has a larger area. */
  ghost predicate FirstOf(n: nat, asked: Triple, l: Lengths, t: Triple) {
    forall u :: Fits(n, asked, l, u) && Earlier(u, t.x, t.y, t.z) ==> Area(l, t) < Area(l, u)
  }

  /** The grids tried before (a, b, c) have been taken into account. */
  ghost predicate Searched(n: nat, asked: Triple, l: Lengths, f: Found, a: nat, b: nat, c: nat)
    requires n >= 1
  {
    && (forall t :: Fits(n, asked, l, t) && Earlier(t, a, b, c) ==> f.any && f.area <= Area(l, t))
    && (|| f == Found(asked == Triple(0, 0, 0), FirstGuess(n, l), FirstBound(n, l))
        || (&& f.any && Fits(n, asked, l, f.best) && f.area == Area(l, f.best) && FirstOf(n, asked, l, f.best)
            && (asked == Triple(0, 0, 0) ==> f.area < FirstBound(n, l))))
  }

  lemma SearchStep(n: nat, asked: Triple, l: Lengths, f: Found, a: nat, b: nat, c: nat)
    requires n >= 1 && Searched(n, asked, l, f, a, b, c)
    ensures var t := Triple(a, b, c);
            Searched(n, asked, l,
                     if Fits(n, asked, l, t) && (Area(l, t) < f.area || !f.any) then Found(true, t, Area(l, t)) else f,
                     a, b, c + 1)
  {
    hide Area, Fits, FirstBound;
    var t := Triple(a, b, c);
    forall u | Fits(n, asked, l, u) && Earlier(u, a, b, c + 1) ensures Earlier(u, a, b, c) || u == t {
    }
    var f' := if Fits(n, asked, l, t) && (Area(l, t) < f.area || !f.any) then Found(true, t, Area(l, t)) else f;
    assert forall u :: Fits(n, asked, l, u) && Earlier(u, a, b, c + 1) ==> f'.any && f'.area <= Area(l, u);
  }

  /** The innermost loop. */
  method TryHeights(n: nat, asked: Triple, l: Lengths, before: Found, a: nat, b: nat) returns (f: Found)
    requires n >= 1 && a >= 1 && b >= 1 && a * b <= n && Searched(n, asked, l, before, a, b, 0)
    requires (asked.x != 0 ==> a == asked.x) && (asked.y != 0 ==> b == asked.y)
    ensures Searched(n, asked, l, f, a, b + 1, 0)
  {
    f := before;
    var c := 1;
    SearchStep(n, asked, l, f, a, b, 0);
    while a * b * c <= n
      invariant c >= 1 && Searched(n, asked, l, f, a, b, c)
      decreases n + 1 - a * b * c
    {
      hide Searched, Area;
      SearchStep(n, asked, l, f, a, b, c);
      if (asked.z == 0 || c == asked.z) && a * b * c == n && !(l.z == 0.0 && c > 1) {
        var area := Area(l, Triple(a, b, c));
        if area < f.area || !f.any { f := Found(true, Triple(a, b, c), area); }
      }
      assert a * b * (c + 1) == a * b * c + a * b;
      c := c + 1;
    }
    HeightsDone(n, asked, l, f, a, b, c);
  }

  lemma HeightsDone(n: nat, asked: Triple, l: Lengths, f: Found, a: nat, b: nat, c: nat)
    requires n >= 1 && a >= 1 && b >= 1 && a * b * c > n && Searched(n, asked, l, f, a, b, c)
    ensures Searched(n, asked, l, f, a, b + 1, 0)
  {
    hide Area, FirstBound;
    forall t | Fits(n, asked, l, t) && Earlier(t, a, b + 1, 0) ensures Earlier(t, a, b, c) {
      if t.x == a && t.y == b { Smaller(a * b, t.z, c); }
    }
    assert forall t :: Fits(n, asked, l, t) && Earlier(t, a, b + 1, 0) ==> f.any && f.area <= Area(l, t);
  }

  /** A row of grids that does not respect the requested counts is skipped. */
  lemma SkipRow(n: nat, asked: Triple, l: Lengths, f: Found, a: nat, b: nat)
    requires n >= 1 && asked.y != 0 && b != asked.y && Searched(n, asked, l, f, a, b, 0)
    ensures Searched(n, asked, l, f, a, b + 1, 0)
  {
    hide Area, FirstBound;
    forall t | Fits(n, asked, l, t) && Earlier(t, a, b + 1, 0) ensures Earlier(t, a, b, 0) {
    }
  }

  lemma WidthsDone(n: nat, asked: Triple, l: Lengths, f: Found, a: nat, b: nat)
    requires n >= 1 && a >= 1 && a * b > n && Searched(n, asked, l, f, a, b, 0)
    ensures Searched(n, asked, l, f, a + 1, 0, 0)
  {
    hide Area, FirstBound;
    forall t | Fits(n, asked, l, t) && Earlier(t, a + 1, 0, 0) ensures Earlier(t, a, b, 0) {
      if t.x == a {
        assert t.x * t.y * 1 <= t.x * t.y * t.z;
        Smaller(a, t.y, b);
      }
    }
  }

  /** No grid has zero columns. */
  lemma FromOne(n: nat, asked: Triple, l: Lengths, f: Found, a: nat)
    requires n >= 1 && Searched(n, asked, l, f, a, 0, 0)
    ensures Searched(n, asked, l, f, a, 1, 0)
  {
    hide Area, FirstBound;
    forall t | Fits(n, asked, l, t) && Earlier(t, a, 1, 0) ensures Earlier(t, a, 0, 0) {
    }
  }

  /** The middle loop. */
  method TryWidths(n: nat, asked: Triple, l: Lengths, before: Found, a: nat) returns (f: Found)
    requires n >= 1 && a >= 1 && Searched(n, asked, l, before, a, 0, 0) && (asked.x != 0 ==> a == asked.x)
    ensures Searched(n, asked, l, f, a + 1, 0, 0)
  {
    hide Searched;
    f := before;
    var b := 1;
    FromOne(n, asked, l, f, a);
    while a * b <= n
      invariant b >= 1 && Searched(n, asked, l, f, a, b, 0)
      decreases n + 1 - a * b
    {
      assert a * (b + 1) == a * b + a;
      if asked.y != 0 && b != asked.y {
        SkipRow(n, asked, l, f, a, b);
      } else {
        f := TryHeights(n, asked, l, f, a, b);
      }
      b := b + 1;
    }
    WidthsDone(n, asked, l, f, a, b);
  }

  lemma SkipPlane(n: nat, asked: Triple, l: Lengths, f: Found, a: nat)
    requires n >= 1 && asked.x != 0 && a != asked.x && Searched(n, asked, l, f, a, 0, 0)
    ensures Searched(n, asked, l, f, a + 1, 0, 0)
  {
    hide Area, FirstBound;
    forall t | Fits(n, asked, l, t) && Earlier(t, a + 1, 0, 0) ensures Earlier(t, a, 0, 0) {
    }
  }

  lemma SearchStart(n: nat, asked: Triple, l: Lengths)
    requires n >= 1
    ensures Searched(n, asked, l, Found(asked == Triple(0, 0, 0), FirstGuess(n, l), FirstBound(n, l)), 1, 0, 0)
  {
    hide Area, FirstBound;
    forall t | Fits(n, asked, l, t) ensures !Earlier(t, 1, 0, 0) {
    }
  }

  ghost predicate Minimal(n: nat, asked: Triple, l: Lengths, best: Triple) {
    Fits(n, asked, l, best) && forall t :: Fits(n, asked, l, t) ==> Area(l, best) <= Area(l, t)
  }

  /** The search starts from a bound that belongs to its first guess, or leaves that bound behind. */
  ghost predicate BoundIsSound(n: nat, asked: Triple, l: Lengths)
    requires n >= 1
  {
    || asked != Triple(0, 0, 0) || l.z == 0.0 || l.y <= l.z || n == 1
    || Beaten(n, asked, l)
  }

  ghost predicate Beaten(n: nat, asked: Triple, l: Lengths)
    requires n >= 1
  {
    exists t :: Fits(n, asked, l, t) && Area(l, t) < FirstBound(n, l)
  }

  lemma ProductBound(t: Triple)
    requires t.x >= 1 && t.y >= 1 && t.z >= 1
    ensures t.x <= t.x * t.y * t.z
  {
    assert 1 <= t.y * t.z;
    assert t.x * (t.y * t.z) == t.x * t.y * t.z;
    assert t.x * 1 <= t.x * (t.y * t.z);
  }

  lemma AllTried(n: nat, asked: Triple, l: Lengths, f: Found, t: Triple)
    requires n >= 1 && Searched(n, asked, l, f, n + 1, 0, 0) && Fits(n, asked, l, t)
    ensures f.any && f.area <= Area(l, t)
  {
    ProductBound(t);
    assert Earlier(t, n + 1, 0, 0);
  }

  /** The areas of the first guess and of the grid the first bound belongs to. */
  lemma FirstAreas(n: nat, l: Lengths)
    requires n >= 1
    ensures Fits(n, Triple(0, 0, 0), l, FirstGuess(n, l)) && Fits(n, Triple(0, 0, 0), l, Triple(1, n, 1))
    ensures Area(l, Triple(1, n, 1)) == FirstBound(n, l)
    ensures Area(l, FirstGuess(n, l)) == if l.z == 0.0 then FirstBound(n, l) else l.x * l.y * (n - 1) as real
  {
  }

  lemma GuessCompares(n: nat, l: Lengths)
    requires n >= 1 && l.x > 0.0 && l.y > 0.0 && l.z > 0.0
    ensures l.x * l.y * (n - 1) as real <= FirstBound(n, l) <==> l.y <= l.z || n == 1
  {
    var m := (n - 1) as real;
    assert l.x * l.z * m - l.x * l.y * m == l.x * (l.z - l.y) * m;
    var d := l.z - l.y;
    assert l.x * d >= 0.0 <==> d >= 0.0;
  }

  /** If the search ends with its first guess, that guess is minimal exactly when its bound was sound. */
  lemma GuessMinimal(n: nat, l: Lengths, f: Found)
    requires n >= 1 && l.x > 0.0 && l.y > 0.0 && l.z >= 0.0
    requires f == Found(true, FirstGuess(n, l), FirstBound(n, l)) && Searched(n, Triple(0, 0, 0), l, f, n + 1, 0, 0)
    ensures Minimal(n, Triple(0, 0, 0), l, f.best) <==> BoundIsSound(n, Triple(0, 0, 0), l)
  {
    hide Searched, Area, FirstBound;
    FirstAreas(n, l);
    if l.z > 0.0 { GuessCompares(n, l); }
    forall t | Fits(n, Triple(0, 0, 0), l, t)
      ensures FirstBound(n, l) <= Area(l, t)
    {
      AllTried(n, Triple(0, 0, 0), l, f, t);
    }
  }

  /** A factorisation as asked for, and one of least area exactly when the starting bound is sound. It is the first
      guess if nothing is asked for and no grid beats the bound, and otherwise the first grid of least area. */
  ghost predicate Chosen(n: nat, asked: Triple, l: Lengths, t: Triple)
    requires n >= 1
  {
    && Fits(n, asked, l, t) && (Minimal(n, asked, l, t) <==> BoundIsSound(n, asked, l))
    && if asked == Triple(0, 0, 0) && !Beaten(n, asked, l) then t == FirstGuess(n, l)
       else Minimal(n, asked, l, t) && FirstOf(n, asked, l, t)
  }

  lemma SearchConcludes(n: nat, asked: Triple, l: Lengths, f: Found)
    requires n >= 1 && l.x > 0.0 && l.y > 0.0 && l.z >= 0.0 && Searched(n, asked, l, f, n + 1, 0, 0)
    ensures f.any <==> exists t :: Fits(n, asked, l, t)
    ensures f.any ==> Chosen(n, asked, l, f.best)
    ensures !f.any ==> f.best == FirstGuess(n, l)
  {
    hide Area, FirstBound;
    forall t | Fits(n, asked, l, t) ensures f.any && f.area <= Area(l, t) { AllTried(n, asked, l, f, t); }
    FirstAreas(n, l);
    if f == Found(true, FirstGuess(n, l), FirstBound(n, l)) && asked == Triple(0, 0, 0) { GuessMinimal(n, l, f); }
  }

  /** Finds a grid exactly when there is one; it has the smallest interface area exactly when the bound the
      search starts from is sound. */
  method FindDecomposition(n: nat, l: Lengths, asked: Triple) returns (found: bool, best: Triple)
    requires n >= 1 && l.x > 0.0 && l.y > 0.0 && l.z >= 0.0
    ensures found <==> exists t :: Fits(n, asked, l, t)
    ensures found ==> Chosen(n, asked, l, best)
    ensures !found ==> best == FirstGuess(n, l)
  {
    hide Searched;
    var f := Found(asked == Triple(0, 0, 0), FirstGuess(n, l), FirstBound(n, l));
    SearchStart(n, asked, l);
    for a := 1 to n + 1
      invariant Searched(n, asked, l, f, a, 0, 0)
    {
      if asked.x != 0 && a != asked.x {
        SkipPlane(n, asked, l, f, a);
      } else {
        f := TryWidths(n, asked, l, f, a);
      }
    }
    SearchConcludes(n, asked, l, f);
    found, best := f.any, f.best;
  }

  /** The starting bound can hide the best grid: in a box longer along y than along z two ranks are placed
      along z. */
  lemma SlabBoxMissed()
    ensures var l := Lengths(1.0, 4.0, 1.0);
            !BoundIsSound(2, Triple(0, 0, 0), l) && Area(l, Triple(1, 2, 1)) < Area(l, FirstGuess(2, l))
  {
    var l := Lengths(1.0, 4.0, 1.0);
    forall t | Fits(2, Triple(0, 0, 0), l, t) ensures Area(l, t) >= FirstBound(2, l) {
      ProductBound(t);
    }
  }
}
