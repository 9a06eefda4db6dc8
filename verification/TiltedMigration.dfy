/** Particle migration in the coordinates of a centred global box of any tilt, on grids where no rank's wrap is askew:
    the ranks test positions in their local boxes and wrap them in their shifted boxes, and this is the migration of
    fractions. */
module TiltedMigration {
  import opened Torus
  import opened Vectors
  import opened Domain
  import opened Tally
  import opened TriclinicBox
  import opened ShiftedBox
  import M = Migration

  type Particle = M.Particle

  type Owners = M.Owners

  // ---------- one particle ----------

  /** The particle has left the local box of its rank in direction d. */
  ghost predicate Leaves(b: Box, g: Grid, cuts: Cuts, q: Pos, d: Dir, p: Particle)
    requires b.Valid() && g.Has(q) && CutFor(g, cuts)
  {
    LocalValid(b, g, cuts, q);
    var f := MakeFraction(LocalBox(b, g, cuts, q), p.pos).At(d / 2);
    if d % 2 == 0 then f >= 1.0 else f < 0.0
  }

  /** The received particle, wrapped in the shifted box of the receiver. */
  function Arrive(b: Box, g: Grid, cuts: Cuts, q: Pos, p: Particle): Particle
    requires g.Has(q) && CutFor(g, cuts)
  {
    var s := Shifted(b, g, ShiftVec(g, cuts, q));
    p.(pos := Wrapped(s, p.pos, NO_FLAGS), image := WrappedImage(s, p.pos, p.image, NO_FLAGS))
  }

  /** The particle with its position in fractions of the global box. */
  function Fraction(b: Box, p: Particle): Particle
    requires b.Valid()
  {
    p.(pos := MakeFraction(b, p.pos))
  }

  lemma FaceTest(c: seq<real>, i: nat, y: real)
    requires Slabs(c) && i + 1 < |c|
    ensures Along(c, i, y) >= 1.0 <==> y >= c[i + 1]
    ensures Along(c, i, y) < 0.0 <==> y < c[i]
  {
    assert Width(c, i) > 0.0;
    var f, l := Along(c, i, y), Width(c, i);
    Quotient(y - c[i], l);
    assert y - c[i] == f * l;
    SameSign(f - 1.0, l);
    SameSign(f, l);
    assert (f - 1.0) * l == f * l - l;
  }

  lemma LeavesInFractions(b: Box, g: Grid, cuts: Cuts, q: Pos, d: Dir, p: Particle)
    requires b.Valid() && g.Has(q) && CutFor(g, cuts)
    ensures Leaves(b, g, cuts, q, d, p) <==> M.Leaves(g, cuts, q, d, Fraction(b, p))
  {
    hide Along, Slabs, MakeFraction, LocalBox;
    LocalFractionExact(b, g, cuts, q, p.pos);
    var a: Axis := d / 2;
    assert Slabs(cuts.At(a)) && |cuts.At(a)| == g.Extent(a) + 1;
    FaceTest(cuts.At(a), q.At(a), MakeFraction(b, p.pos).At(a));
  }

  lemma ArriveInFractions(b: Box, g: Grid, cuts: Cuts, q: Pos, p: Particle)
    requires Regular(b, g) && g.Has(q) && CutFor(g, cuts)
    ensures Fraction(b, Arrive(b, g, cuts, q, p)) == M.Arrive(g, cuts, q, Fraction(b, p))
  {
    hide MakeFraction, Wrapped, WrappedImage, WrapVec, WrapImage, Shifted, ShiftVec, Askew, CutFor;
    WrapsBySlabsExactly(b, g, cuts, q);
    ImagesBySlabs(b, g, cuts, q, p.pos, p.image);
  }

  // ---------- one rank ----------

  ghost function Staying(b: Box, g: Grid, cuts: Cuts, q: Pos, d: Dir, s: seq<Particle>): seq<Particle>
    requires b.Valid() && g.Has(q) && CutFor(g, cuts)
  {
    if s == [] then []
    else Staying(b, g, cuts, q, d, s[..|s| - 1]) + if Leaves(b, g, cuts, q, d, s[|s| - 1]) then [] else [s[|s| - 1]]
  }

  ghost function Leaving(b: Box, g: Grid, cuts: Cuts, q: Pos, d: Dir, s: seq<Particle>): seq<Particle>
    requires b.Valid() && g.Has(q) && CutFor(g, cuts)
  {
    if s == [] then []
    else Leaving(b, g, cuts, q, d, s[..|s| - 1]) + if Leaves(b, g, cuts, q, d, s[|s| - 1]) then [s[|s| - 1]] else []
  }

  function ArriveAll(b: Box, g: Grid, cuts: Cuts, q: Pos, s: seq<Particle>): seq<Particle>
    requires g.Has(q) && CutFor(g, cuts)
  {
    seq(|s|, i requires 0 <= i < |s| => Arrive(b, g, cuts, q, s[i]))
  }

  function Fractions(b: Box, s: seq<Particle>): (r: seq<Particle>)
    requires b.Valid()
    ensures |r| == |s|
  {
    seq(|s|, i requires 0 <= i < |s| => Fraction(b, s[i]))
  }

  lemma FractionsJoin(b: Box, s: seq<Particle>, t: seq<Particle>)
    requires b.Valid()
    ensures Fractions(b, s + t) == Fractions(b, s) + Fractions(b, t)
  {
    hide Fraction;
  }

  lemma FractionsOne(b: Box, p: Particle)
    requires b.Valid()
    ensures Fractions(b, [p]) == [Fraction(b, p)] && Fractions(b, []) == []
  {
    hide Fraction;
  }

  lemma {:induction false} SplitInFractions(b: Box, g: Grid, cuts: Cuts, q: Pos, d: Dir, s: seq<Particle>)
    requires b.Valid() && g.Has(q) && CutFor(g, cuts)
    ensures Fractions(b, Staying(b, g, cuts, q, d, s)) == M.Staying(g, cuts, q, d, Fractions(b, s))
    ensures Fractions(b, Leaving(b, g, cuts, q, d, s)) == M.Leaving(g, cuts, q, d, Fractions(b, s))
  {
    hide Fraction, Fractions, Leaves, M.Leaves, CutFor;
    if s == [] {
      NoFractions(b, s);
    } else {
      var init, last := s[..|s| - 1], s[|s| - 1];
      SplitInFractions(b, g, cuts, q, d, init);
      LeavesInFractions(b, g, cuts, q, d, last);
      assert s == init + [last];
      FractionsJoin(b, init, [last]);
      FractionsOne(b, last);
      var f := Fractions(b, s);
      assert f[..|f| - 1] == Fractions(b, init) && f[|f| - 1] == Fraction(b, last);
      var stay, leave := Staying(b, g, cuts, q, d, init), Leaving(b, g, cuts, q, d, init);
      FractionsJoin(b, stay, [last]);
      FractionsJoin(b, leave, [last]);
      assert stay + [] == stay && leave + [] == leave;
    }
  }

  lemma NoFractions(b: Box, s: seq<Particle>)
    requires b.Valid() && s == []
    ensures Fractions(b, s) == []
  {
  }

  lemma ArriveAllInFractions(b: Box, g: Grid, cuts: Cuts, q: Pos, s: seq<Particle>)
    requires Regular(b, g) && g.Has(q) && CutFor(g, cuts)
    ensures Fractions(b, ArriveAll(b, g, cuts, q, s)) == M.ArriveAll(g, cuts, q, Fractions(b, s))
  {
    hide Fraction, Arrive, M.Arrive, CutFor, Askew;
    forall i | 0 <= i < |s|
      ensures Fraction(b, Arrive(b, g, cuts, q, s[i])) == M.Arrive(g, cuts, q, Fraction(b, s[i]))
    {
      ArriveInFractions(b, g, cuts, q, s[i]);
    }
  }

  // ---------- all ranks ----------

  ghost function StepAt(b: Box, g: Grid, cuts: Cuts, w: Owners, d: Dir, q: Pos): seq<Particle>
    requires b.Valid() && CutFor(g, cuts) && On(g, w) && q in w
  {
    var s := Neighbor(g, q, Opposite(d));
    Staying(b, g, cuts, q, d, w[q]) + ArriveAll(b, g, cuts, q, Leaving(b, g, cuts, s, d, w[s]))
  }

  ghost function Step(b: Box, g: Grid, cuts: Cuts, w: Owners, d: Dir): (r: Owners)
    requires b.Valid() && CutFor(g, cuts) && On(g, w)
    ensures On(g, r)
  {
    if g.Communicating(d) then map q | q in w :: StepAt(b, g, cuts, w, d, q) else w
  }

  ghost function Run(b: Box, g: Grid, cuts: Cuts, w: Owners, k: nat): (r: Owners)
    requires b.Valid() && CutFor(g, cuts) && On(g, w) && k <= 6
    ensures On(g, r)
  {
    if k == 0 then w else Step(b, g, cuts, Run(b, g, cuts, w, k - 1), k - 1)
  }

  function AllFractions(b: Box, w: Owners): (r: Owners)
    requires b.Valid()
    ensures r.Keys == w.Keys
  {
    map q | q in w :: Fractions(b, w[q])
  }

  lemma FractionsOn(b: Box, g: Grid, w: Owners)
    requires b.Valid() && On(g, w)
    ensures On(g, AllFractions(b, w))
  {
    hide Fractions;
    forall p ensures p in AllFractions(b, w) <==> g.Has(p) { assert p in w <==> g.Has(p); }
  }

  lemma RankInFractions(b: Box, g: Grid, cuts: Cuts, w: Owners, d: Dir, q: Pos)
    requires Regular(b, g) && CutFor(g, cuts) && On(g, w) && q in w && On(g, AllFractions(b, w))
    ensures Fractions(b, StepAt(b, g, cuts, w, d, q)) == M.StepAt(g, cuts, AllFractions(b, w), d, q)
  {
    hide Fractions, Staying, Leaving, M.Staying, M.Leaving, ArriveAll, M.ArriveAll, Neighbor, CutFor, Askew;
    var s := Neighbor(g, q, Opposite(d));
    SplitInFractions(b, g, cuts, q, d, w[q]);
    SplitInFractions(b, g, cuts, s, d, w[s]);
    ArriveAllInFractions(b, g, cuts, q, Leaving(b, g, cuts, s, d, w[s]));
    FractionsJoin(b, Staying(b, g, cuts, q, d, w[q]), ArriveAll(b, g, cuts, q, Leaving(b, g, cuts, s, d, w[s])));
  }

  lemma StepInFractions(b: Box, g: Grid, cuts: Cuts, w: Owners, d: Dir)
    requires Regular(b, g) && CutFor(g, cuts) && On(g, w) && On(g, AllFractions(b, w))
    ensures AllFractions(b, Step(b, g, cuts, w, d)) == M.Step(g, cuts, AllFractions(b, w), d)
  {
    hide StepAt, M.StepAt, Fractions, CutFor, Askew;
    if g.Communicating(d) {
      forall q | q in w
        ensures Fractions(b, StepAt(b, g, cuts, w, d, q)) == M.StepAt(g, cuts, AllFractions(b, w), d, q)
      {
        RankInFractions(b, g, cuts, w, d, q);
      }
    }
  }

  /** The six steps in coordinates are the six steps in fractions. */
  lemma {:induction false} RunInFractions(b: Box, g: Grid, cuts: Cuts, w: Owners, k: nat)
    requires Regular(b, g) && CutFor(g, cuts) && On(g, w) && k <= 6
    ensures On(g, AllFractions(b, w)) && On(g, AllFractions(b, Run(b, g, cuts, w, k)))
    ensures AllFractions(b, Run(b, g, cuts, w, k)) == M.Run(g, cuts, AllFractions(b, w), k)
    decreases k
  {
    hide Step, M.Step, AllFractions, CutFor, Askew;
    FractionsOn(b, g, w);
    FractionsOn(b, g, Run(b, g, cuts, w, k));
    if k > 0 {
      RunInFractions(b, g, cuts, w, k - 1);
      StepInFractions(b, g, cuts, Run(b, g, cuts, w, k - 1), k - 1);
    }
  }

  // ---------- conservation and delivery ----------

  /** What a particle is: its tag and the position its image counts lead back to. */
  function IdentityOf(b: Box, p: Particle): M.Identity { M.Identity(p.tag, Shift(b, p.pos, p.image)) }

  function Identities(b: Box, s: seq<Particle>): seq<M.Identity> {
    seq(|s|, i requires 0 <= i < |s| => IdentityOf(b, s[i]))
  }

  function Holdings(b: Box, w: Owners): (m: map<Pos, multiset<M.Identity>>)
    ensures m.Keys == w.Keys
  {
    map q | q in w :: multiset(Identities(b, w[q]))
  }

  ghost function Everything(b: Box, w: Owners): multiset<M.Identity> { Union(w.Keys, Holdings(b, w)) }

  /** The identity in fractions of an identity in coordinates. */
  function InFractions(b: Box, x: M.Identity): M.Identity
    requires b.Valid()
  {
    M.Identity(x.tag, MakeFraction(b, x.unwrapped))
  }

  lemma IdentityInFractions(b: Box, p: Particle)
    requires b.Valid()
    ensures M.IdentityOf(Fraction(b, p)) == InFractions(b, IdentityOf(b, p))
  {
    hide MakeFraction, Shift;
    ShiftFraction(b, p.pos, p.image);
  }

  lemma SameIdentity(b: Box, x: M.Identity, y: M.Identity)
    requires b.Valid() && InFractions(b, x) == InFractions(b, y)
    ensures x == y
  {
    hide MakeFraction;
    CoordinatesOfFraction(b, x.unwrapped);
    CoordinatesOfFraction(b, y.unwrapped);
  }

  /** A list holds an identity as often as its fractions hold the identity in fractions. */
  lemma {:induction false} CountInFractions(b: Box, s: seq<Particle>, x: M.Identity)
    requires b.Valid()
    ensures multiset(M.Identities(Fractions(b, s)))[InFractions(b, x)] == multiset(Identities(b, s))[x]
  {
    hide InFractions, IdentityOf, M.IdentityOf, Fraction;
    if s != [] {
      var init, last := s[..|s| - 1], s[|s| - 1];
      CountInFractions(b, init, x);
      IdentityInFractions(b, last);
      assert Identities(b, s) == Identities(b, init) + [IdentityOf(b, last)];
      assert M.Identities(Fractions(b, s)) == M.Identities(Fractions(b, init)) + [M.IdentityOf(Fraction(b, last))];
      if InFractions(b, IdentityOf(b, last)) == InFractions(b, x) { SameIdentity(b, IdentityOf(b, last), x); }
    }
  }

  lemma EverythingInFractions(b: Box, w: Owners, x: M.Identity)
    requires b.Valid()
    ensures M.Everything(AllFractions(b, w))[InFractions(b, x)] == Everything(b, w)[x]
  {
    hide InFractions, Identities, M.Identities, Fractions;
    forall q | q in w ensures M.Holdings(AllFractions(b, w))[q][InFractions(b, x)] == Holdings(b, w)[q][x] {
      CountInFractions(b, w[q], x);
    }
    UnionCount(w.Keys, M.Holdings(AllFractions(b, w)), Holdings(b, w), InFractions(b, x), x);
  }

  /** The half-open local box of the rank contains the point, along every axis that is cut at all. */
  ghost predicate InBox(b: Box, g: Grid, cuts: Cuts, q: Pos, v: Vec)
    requires b.Valid() && g.Has(q) && CutFor(g, cuts)
  {
    LocalValid(b, g, cuts, q);
    forall a: Axis :: g.Extent(a) == 1 || 0.0 <= MakeFraction(LocalBox(b, g, cuts, q), v).At(a) < 1.0
  }

  lemma InBoxInFractions(b: Box, g: Grid, cuts: Cuts, q: Pos, v: Vec)
    requires b.Valid() && g.Has(q) && CutFor(g, cuts)
    ensures InBox(b, g, cuts, q, v) <==> InDomain(g, cuts, q, MakeFraction(b, v))
  {
    hide Along, Slabs, MakeFraction, LocalBox;
    LocalFractionExact(b, g, cuts, q, v);
    var f, h := MakeFraction(b, v), LocalFraction(g, cuts, q, MakeFraction(b, v));
    forall a: Axis ensures 0.0 <= h.At(a) < 1.0 <==> Inside(cuts.At(a), q.At(a), f.At(a)) {
      assert Slabs(cuts.At(a)) && |cuts.At(a)| == g.Extent(a) + 1 && h.At(a) == Along(cuts.At(a), q.At(a), f.At(a));
      FaceTest(cuts.At(a), q.At(a), f.At(a));
    }
  }

  /** Every particle is held by the one rank whose local box contains it. */
  ghost predicate AtHome(b: Box, g: Grid, cuts: Cuts, w: Owners)
    requires b.Valid() && CutFor(g, cuts) && On(g, w)
  {
    forall q, i, r :: q in w && 0 <= i < |w[q]| && g.Has(r) ==> (InBox(b, g, cuts, r, w[q][i].pos) <==> r == q)
  }

  lemma HomeInFractions(b: Box, g: Grid, cuts: Cuts, w: Owners)
    requires b.Valid() && CutFor(g, cuts) && On(g, w) && On(g, AllFractions(b, w))
    requires M.AtHome(g, cuts, AllFractions(b, w))
    ensures AtHome(b, g, cuts, w)
  {
    hide CutFor, InBox, InDomain, MakeFraction;
    forall q, i, r | q in w && 0 <= i < |w[q]| && g.Has(r) ensures InBox(b, g, cuts, r, w[q][i].pos) <==> r == q {
      InBoxInFractions(b, g, cuts, r, w[q][i].pos);
      assert AllFractions(b, w)[q][i].pos == MakeFraction(b, w[q][i].pos);
    }
  }

  /** Migration in coordinates: no particle is lost, duplicated or moved off its trajectory; and if every overshoot is
      small each ends on the one rank whose local box holds it. */
  lemma MigrationInCoordinates(b: Box, g: Grid, cuts: Cuts, w: Owners)
    requires Regular(b, g) && CutFor(g, cuts) && On(g, w)
    ensures Everything(b, Run(b, g, cuts, w, 6)) == Everything(b, w)
    ensures On(g, AllFractions(b, w))
    ensures M.SmallMoves(g, cuts, AllFractions(b, w)) ==> AtHome(b, g, cuts, Run(b, g, cuts, w, 6))
  {
    hide CutFor, Everything, M.Everything, Run, M.Run, AllFractions, M.SmallMoves, AtHome, M.AtHome, InFractions, Askew;
    var f, w' := AllFractions(b, w), Run(b, g, cuts, w, 6);
    RunInFractions(b, g, cuts, w, 6);
    M.MigrationConserves(g, cuts, f, 6);
    forall x ensures Everything(b, w')[x] == Everything(b, w)[x] {
      EverythingInFractions(b, w', x);
      EverythingInFractions(b, w, x);
    }
    if M.SmallMoves(g, cuts, f) {
      M.AllDelivered(g, cuts, f);
      HomeInFractions(b, g, cuts, w');
    }
  }
}
