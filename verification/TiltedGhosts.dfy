/** The ghost exchange in the coordinates of a centred global box of any tilt, on grids where no rank's wrap is
    askew. */
module TiltedGhosts {
  import opened Torus
  import opened Vectors
  import opened Domain
  import opened Itinerary
  import opened TriclinicBox
  import opened ShiftedBox
  import G = Ghosts

  type Places = G.Places

  /** A received position, wrapped in the shifted box of the receiver. */
  function BoxWrap(b: Box, g: Grid, cuts: Cuts, q: Pos, v: Vec): Vec
    requires g.Has(q) && CutFor(g, cuts)
  {
    Wrapped(Shifted(b, g, ShiftVec(g, cuts, q)), v, NO_FLAGS)
  }

  function WrapAll(b: Box, g: Grid, cuts: Cuts, q: Pos, s: seq<Vec>): (r: seq<Vec>)
    requires g.Has(q) && CutFor(g, cuts)
    ensures |r| == |s|
  {
    seq(|s|, i requires 0 <= i < |s| => BoxWrap(b, g, cuts, q, s[i]))
  }

  function Incoming<T>(b: Box, g: Grid, cuts: Cuts, w: World<T>, at: Places, d: Dir, q: Pos): seq<Vec>
    requires CutFor(g, cuts) && G.Matches(g, w, at) && q in w
  {
    var s := Neighbor(g, q, Opposite(d));
    WrapAll(b, g, cuts, q, Gather(at[s], Selected(w[s], d)))
  }

  function PlaceStep<T>(b: Box, g: Grid, cuts: Cuts, w: World<T>, at: Places, d: Dir): (r: Places)
    requires CutFor(g, cuts) && G.Matches(g, w, at)
    ensures G.Matches(g, Step(g, w, d), r)
  {
    if g.Communicating(d) then map q | q in w :: at[q] + Incoming(b, g, cuts, w, at, d, q) else at
  }

  function PlaceRun<T>(b: Box, g: Grid, cuts: Cuts, w: World<T>, at: Places, k: nat): (r: Places)
    requires CutFor(g, cuts) && G.Matches(g, w, at) && k <= 6
    ensures G.Matches(g, Run(g, w, k), r)
  {
    if k == 0 then at else PlaceStep(b, g, cuts, Run(g, w, k - 1), PlaceRun(b, g, cuts, w, at, k - 1), k - 1)
  }

  // ---------- the exchange in fractions ----------

  function Fractions(b: Box, s: seq<Vec>): (r: seq<Vec>)
    requires b.Valid()
    ensures |r| == |s|
  {
    seq(|s|, i requires 0 <= i < |s| => MakeFraction(b, s[i]))
  }

  function AllFractions(b: Box, at: Places): (r: Places)
    requires b.Valid()
    ensures r.Keys == at.Keys
  {
    map q | q in at :: Fractions(b, at[q])
  }

  lemma FractionsMatch<T>(b: Box, g: Grid, w: World<T>, at: Places)
    requires b.Valid() && G.Matches(g, w, at)
    ensures G.Matches(g, w, AllFractions(b, at))
  {
    hide MakeFraction;
    forall p ensures p in AllFractions(b, at) <==> g.Has(p) { assert p in at <==> g.Has(p); }
  }

  lemma FractionsJoin(b: Box, s: seq<Vec>, t: seq<Vec>)
    requires b.Valid()
    ensures Fractions(b, s + t) == Fractions(b, s) + Fractions(b, t)
  {
    hide MakeFraction;
  }

  lemma GatherInFractions(b: Box, s: seq<Vec>, idx: seq<nat>)
    requires b.Valid() && forall i :: 0 <= i < |idx| ==> idx[i] < |s|
    ensures Fractions(b, Gather(s, idx)) == Gather(Fractions(b, s), idx)
  {
    hide MakeFraction;
  }

  lemma WrapInFractions(b: Box, g: Grid, cuts: Cuts, q: Pos, s: seq<Vec>)
    requires Regular(b, g) && g.Has(q) && CutFor(g, cuts)
    ensures Fractions(b, WrapAll(b, g, cuts, q, s)) == G.WrapAll(g, cuts, q, Fractions(b, s))
  {
    WrapsBySlabsExactly(b, g, cuts, q);
    hide MakeFraction, Wrapped, WrapVec, Shifted, ShiftVec, CutFor, Askew;
    forall i | 0 <= i < |s|
      ensures MakeFraction(b, BoxWrap(b, g, cuts, q, s[i])) == WrapVec(g, cuts, q, MakeFraction(b, s[i]))
    {
    }
  }

  lemma IncomingInFractions<T>(b: Box, g: Grid, cuts: Cuts, w: World<T>, at: Places, d: Dir, q: Pos)
    requires Regular(b, g) && CutFor(g, cuts) && G.Matches(g, w, at) && q in w && G.Matches(g, w, AllFractions(b, at))
    ensures Fractions(b, Incoming(b, g, cuts, w, at, d, q)) == G.Incoming(g, cuts, w, AllFractions(b, at), d, q)
  {
    hide Fractions, Gather, Selected, WrapAll, G.WrapAll, Neighbor, CutFor, Askew;
    var s := Neighbor(g, q, Opposite(d));
    GatherInFractions(b, at[s], Selected(w[s], d));
    WrapInFractions(b, g, cuts, q, Gather(at[s], Selected(w[s], d)));
  }

  lemma PlaceStepInFractions<T>(b: Box, g: Grid, cuts: Cuts, w: World<T>, at: Places, d: Dir)
    requires Regular(b, g) && CutFor(g, cuts) && G.Matches(g, w, at) && G.Matches(g, w, AllFractions(b, at))
    ensures AllFractions(b, PlaceStep(b, g, cuts, w, at, d)) == G.PlaceStep(g, cuts, w, AllFractions(b, at), d)
  {
    hide Fractions, Incoming, G.Incoming, CutFor, Askew;
    if g.Communicating(d) {
      forall q | q in w
        ensures Fractions(b, at[q] + Incoming(b, g, cuts, w, at, d, q))
             == Fractions(b, at[q]) + G.Incoming(g, cuts, w, AllFractions(b, at), d, q)
      {
        FractionsJoin(b, at[q], Incoming(b, g, cuts, w, at, d, q));
        IncomingInFractions(b, g, cuts, w, at, d, q);
      }
    }
  }

  lemma NextPlaces<T>(b: Box, g: Grid, cuts: Cuts, w: World<T>, at: Places, d: Dir)
    requires Regular(b, g) && CutFor(g, cuts) && G.Matches(g, w, at) && G.Matches(g, w, AllFractions(b, at))
    requires AllFractions(b, PlaceRun(b, g, cuts, w, at, d)) == G.PlaceRun(g, cuts, w, AllFractions(b, at), d)
    ensures AllFractions(b, PlaceRun(b, g, cuts, w, at, d + 1)) == G.PlaceRun(g, cuts, w, AllFractions(b, at), d + 1)
  {
    hide Step, PlaceStep, G.PlaceStep, AllFractions, CutFor, Askew, On;
    FractionsMatch(b, g, Run(g, w, d), PlaceRun(b, g, cuts, w, at, d));
    PlaceStepInFractions(b, g, cuts, Run(g, w, d), PlaceRun(b, g, cuts, w, at, d), d);
  }

  /** The exchange in coordinates is the exchange in fractions. */
  lemma {:induction false} PlaceRunInFractions<T>(b: Box, g: Grid, cuts: Cuts, w: World<T>, at: Places, k: nat)
    requires Regular(b, g) && CutFor(g, cuts) && G.Matches(g, w, at) && k <= 6
    ensures G.Matches(g, w, AllFractions(b, at))
    ensures AllFractions(b, PlaceRun(b, g, cuts, w, at, k)) == G.PlaceRun(g, cuts, w, AllFractions(b, at), k)
    decreases k
  {
    hide PlaceStep, G.PlaceStep, AllFractions, CutFor, Askew, On;
    FractionsMatch(b, g, w, at);
    if k > 0 {
      PlaceRunInFractions(b, g, cuts, w, at, k - 1);
      NextPlaces(b, g, cuts, w, at, k - 1);
    }
  }

  // ---------- where the ghosts are ----------

  /** The two points differ by lattice vectors. */
  ghost predicate SamePoint(b: Box, u: Vec, v: Vec) { exists n: Image :: u == Shift(b, v, n) }

  lemma SiteInCoordinates(b: Box, u: Vec, v: Vec)
    requires b.Valid() && SameSite(MakeFraction(b, u), MakeFraction(b, v))
    ensures SamePoint(b, u, v)
  {
    hide MakeFraction, Shift;
    var f, h := MakeFraction(b, u), MakeFraction(b, v);
    var n := Image((f.x - h.x).Floor, (f.y - h.y).Floor, (f.z - h.z).Floor);
    ShiftFraction(b, v, n);
    CoordinatesOfFraction(b, u);
    CoordinatesOfFraction(b, Shift(b, v, n));
    assert u == Shift(b, v, n);
  }

  /** Every local particle is where its owner says. */
  ghost predicate OwnersAt<T>(g: Grid, w: World<T>, at: Places, owner: map<T, Vec>)
    requires G.Matches(g, w, at)
  {
    forall q, i :: q in w && 0 <= i < |w[q]| ==> w[q][i].load in owner && at[q][i] == owner[w[q][i].load]
  }

  function OwnerFractions<T>(b: Box, owner: map<T, Vec>): (r: map<T, Vec>)
    requires b.Valid()
    ensures r.Keys == owner.Keys
  {
    map t | t in owner :: MakeFraction(b, owner[t])
  }

  lemma StartCurrent<T>(b: Box, g: Grid, w: World<T>, at: Places, owner: map<T, Vec>)
    requires b.Valid() && G.Matches(g, w, at) && OwnersAt(g, w, at, owner) && G.Matches(g, w, AllFractions(b, at))
    ensures G.Current(g, w, AllFractions(b, at), OwnerFractions(b, owner))
  {
    hide MakeFraction;
    assert (0.0).Floor == 0;
  }

  /** Ghosts in coordinates: after any number of hops a ghost's position is its owner's up to lattice vectors of the
      tilted box, and the image near the receiver's box if the particles started near theirs. */
  lemma GhostsInCoordinates<T>(b: Box, g: Grid, cuts: Cuts, w: World<T>, at: Places, owner: map<T, Vec>, k: nat)
    requires Regular(b, g) && CutFor(g, cuts) && G.Matches(g, w, at) && OwnersAt(g, w, at, owner) && k <= 6
    ensures forall q, i :: q in w && 0 <= i < |Run(g, w, k)[q]| ==>
              && Run(g, w, k)[q][i].load in owner
              && SamePoint(b, PlaceRun(b, g, cuts, w, at, k)[q][i], owner[Run(g, w, k)[q][i].load])
    ensures G.Matches(g, w, AllFractions(b, at))
    ensures G.Matches(g, Run(g, w, k), AllFractions(b, PlaceRun(b, g, cuts, w, at, k)))
    ensures G.Nearby(g, cuts, w, AllFractions(b, at), 0) ==>
              G.Nearby(g, cuts, Run(g, w, k), AllFractions(b, PlaceRun(b, g, cuts, w, at, k)), k)
  {
    hide CutFor, Askew, MakeFraction, Run, PlaceRun, G.PlaceRun, G.Nearby, SamePoint, SameSite;
    PlaceRunInFractions(b, g, cuts, w, at, k);
    FractionsMatch(b, g, Run(g, w, k), PlaceRun(b, g, cuts, w, at, k));
    StartCurrent(b, g, w, at, owner);
    G.RunKeepsCurrent(g, cuts, w, AllFractions(b, at), OwnerFractions(b, owner), k);
    var r: World<T>, p: Places := Run(g, w, k), PlaceRun(b, g, cuts, w, at, k);
    forall q, i | q in w && 0 <= i < |r[q]|
      ensures r[q][i].load in owner && SamePoint(b, p[q][i], owner[r[q][i].load])
    {
      assert q in r;
      SiteInCoordinates(b, p[q][i], owner[r[q][i].load]);
    }
  }
}
