/** What the plans of local particles are for: a rank gets a ghost of every particle that is within the ghost layer of
    the faces between them, and of no other. */
module GhostCoverage {
  import opened Torus
  import opened Vectors
  import opened Domain
  import opened Itinerary
  import opened Ghosts

  // ---------- distances to the faces ----------

  /** The layer of a particle: that of its type for pairs, or that for bodies if it is in one and that is wider. */
  predicate LayerWidth(layer: Layer, inBody: bool, width: real) {
    && layer.pair <= width && (inBody ==> layer.body <= width)
    && (width == layer.pair || (inBody && width == layer.body))
  }

  lemma OfIsWidth(layer: Layer, inBody: bool)
    ensures LayerWidth(layer, inBody, layer.Of(inBody))
  {
  }

  /** A particle at local fraction f is no farther than the width from the face of the local box in direction d. L holds
      the distances between opposite faces. */
  predicate WithinReach(f: Vec, L: Vec, width: real, d: Dir) {
    var a: Axis := d / 2;
    if d % 2 == 0 then (1.0 - f.At(a)) * L.At(a) <= width else f.At(a) * L.At(a) < width
  }

  lemma Rescaled(x: real, width: real, l: real)
    requires l > 0.0
    ensures x <= width / l <==> x * l <= width
    ensures x < width / l <==> x * l < width
  {
    var y := width / l;
    assert width == y * l;
    assert (y - x) * l == y * l - x * l;
    if x < y { assert (y - x) * l > 0.0; } else if x > y { assert (x - y) * l > 0.0; }
  }

  lemma PlanAlong(f: Vec, L: Vec, width: real, d: Dir)
    requires L.x > 0.0 && L.y > 0.0 && L.z > 0.0
    ensures d in GhostPlan(f, LayerFraction(width, L)) <==> WithinReach(f, L, width, d)
  {
    var a: Axis := d / 2;
    var layer := LayerFraction(width, L);
    assert layer.At(a) == width / L.At(a);
    assert d in GhostPlan(f, layer) <==> InLayer(f, layer, d);
    hide LayerFraction;
    Rescaled(1.0 - f.At(a), width, L.At(a));
    Rescaled(f.At(a), width, L.At(a));
  }

  /** A plan names exactly the directions in which the face is within the particle's layer. */
  lemma PlanExactly(g: Grid, cuts: Cuts, q: Pos, v: Vec, layers: seq<Layer>, L: Vec, sort: Sort, width: real, d: Dir)
    requires g.Has(q) && CutFor(g, cuts) && Wide(L) && sort.kind < |layers|
    requires LayerWidth(layers[sort.kind], sort.inBody, width)
    ensures d in PlanOf(g, cuts, q, v, layers, L, sort) <==> WithinReach(LocalFraction(g, cuts, q, v), L, width, d)
  {
    hide GhostPlan, LocalFraction, LayerFraction, WithinReach;
    OfIsWidth(layers[sort.kind], sort.inBody);
    PlanAlong(LocalFraction(g, cuts, q, v), L, width, d);
  }

  // ---------- which ranks get a ghost ----------

  /** Along axis a rank q is at the particle's rank p, or next to it in a direction in which the particle reaches. */
  predicate ReachesAlong(g: Grid, p: Pos, q: Pos, f: Vec, L: Vec, width: real, a: Axis)
    requires g.Has(p) && g.Has(q)
  {
    || q.At(a) == p.At(a)
    || (g.Extent(a) != 1 && WithinReach(f, L, width, 2 * a) && q.At(a) == Advance(p.At(a), g.Extent(a), true))
    || (g.Extent(a) != 1 && WithinReach(f, L, width, 2 * a + 1) && q.At(a) == Advance(p.At(a), g.Extent(a), false))
  }

  lemma AxisCovered(g: Grid, cuts: Cuts, p: Pos, q: Pos, v: Vec, layers: seq<Layer>, L: Vec, sort: Sort, width: real,
                    a: Axis)
    requires g.Has(p) && g.Has(q) && CutFor(g, cuts) && Wide(L) && sort.kind < |layers|
    requires LayerWidth(layers[sort.kind], sort.inBody, width)
    ensures AxisReached(g, p, PlanOf(g, cuts, p, v, layers, L, sort), 6, q, a)
            <==> ReachesAlong(g, p, q, LocalFraction(g, cuts, p, v), L, width, a)
  {
    hide LocalFraction, WithinReach, PlanOf;
    PlanExactly(g, cuts, p, v, layers, L, sort, width, 2 * a);
    PlanExactly(g, cuts, p, v, layers, L, sort, width, 2 * a + 1);
  }

  /** After the exchange a rank holds a particle exactly when it owns it, or is displaced from the owner along a set of
      axes on each of which the particle is within its layer of the face on that side. */
  lemma GhostsCover<T(!new)>(g: Grid, cuts: Cuts, w: World<T>, at: Places, layers: seq<Layer>, L: map<Pos, Vec>,
                             sort: map<T, Sort>, p: Pos, i: nat, q: Pos, width: real)
    requires CutFor(g, cuts) && Matches(g, w, at) && On(g, L) && forall r :: r in L ==> Wide(L[r])
    requires Planned(g, cuts, w, at, layers, L, sort) && LoadsUnique(w) && PlansOnePerAxis(g, w)
    requires p in w && q in w && i < |w[p]|
    requires LayerWidth(layers[sort[w[p][i].load].kind], sort[w[p][i].load].inBody, width)
    ensures p in L
    ensures w[p][i] in Run(g, w, 6)[q]
            <==> forall a: Axis :: ReachesAlong(g, p, q, LocalFraction(g, cuts, p, at[p][i]), L[p], width, a)
  {
    hide CutFor, LocalFraction, Run, Reached, PlanOf, ReachesAlong, LoadsUnique, AxisReached;
    assert g.Has(p) && g.Has(q) && p in L;
    var x, s := w[p][i], sort[w[p][i].load];
    assert OnePerAxis(g, x.plan) && x.plan == PlanOf(g, cuts, p, at[p][i], layers, L[p], s);
    DeliveredExactly(g, w, 6, q);
    ReachedClosedForm(g, p, x.plan, 6, q);
    forall a: Axis
      ensures AxisReached(g, p, x.plan, 6, q, a)
              <==> ReachesAlong(g, p, q, LocalFraction(g, cuts, p, at[p][i]), L[p], width, a)
    {
      AxisCovered(g, cuts, p, q, at[p][i], layers, L[p], s, width, a);
    }
  }

  // ---------- the loop over the local particles ----------

  /** Gives every local particle of rank q its plan. */
  method MakePlans(g: Grid, cuts: Cuts, q: Pos, at: seq<Vec>, sorts: seq<Sort>, layers: seq<Layer>, L: Vec)
    returns (plans: seq<set<Dir>>)
    requires g.Has(q) && CutFor(g, cuts) && Wide(L) && |sorts| == |at|
    requires forall i :: 0 <= i < |sorts| ==> sorts[i].kind < |layers|
    ensures |plans| == |at| && forall i :: 0 <= i < |at| ==> plans[i] == PlanOf(g, cuts, q, at[i], layers, L, sorts[i])
  {
    plans := [];
    for i := 0 to |at|
      invariant |plans| == i && forall j :: 0 <= j < i ==> plans[j] == PlanOf(g, cuts, q, at[j], layers, L, sorts[j])
    {
      var layer := layers[sorts[i].kind];
      var width := layer.pair;
      if sorts[i].inBody && layer.body > width { width := layer.body; }
      var plan := PlanFrom(LocalFraction(g, cuts, q, at[i]), LayerFraction(width, L));
      plans := plans + [plan];
    }
  }

  method PlanFrom(f: Vec, layer: Vec) returns (plan: set<Dir>)
    ensures plan == GhostPlan(f, layer)
  {
    plan := {};
    if f.x >= 1.0 - layer.x { plan := plan + {0}; }
    if f.x < layer.x { plan := plan + {1}; }
    if f.y >= 1.0 - layer.y { plan := plan + {2}; }
    if f.y < layer.y { plan := plan + {3}; }
    if f.z >= 1.0 - layer.z { plan := plan + {4}; }
    if f.z < layer.z { plan := plan + {5}; }
    forall d: Dir ensures d in plan <==> InLayer(f, layer, d) {
      assert d == 0 || d == 1 || d == 2 || d == 3 || d == 4 || d == 5;
    }
  }
}
