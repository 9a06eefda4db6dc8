/** Ghost particles: the plans that local particles get from their positions, the exchange that sends
    copies along the plans, and the ghost update that replays the recorded send lists. */
module Ghosts {
  import opened Torus
  import opened Vectors
  import opened Domain
  import opened Itinerary

  // ---------- plans ----------

  /** The directions in which a particle at local fraction f is within the ghost layer of a neighbour. */
  function GhostPlan(f: Vec, layer: Vec): set<Dir> {
    set d: Dir | InLayer(f, layer, d)
  }

  predicate InLayer(f: Vec, layer: Vec, d: Dir) {
    if d % 2 == 0 then f.At(d / 2) >= 1.0 - layer.At(d / 2) else f.At(d / 2) < layer.At(d / 2)
  }

  /** Ghost layer widths of a particle type: for pair interactions and for rigid bodies. */
  datatype Layer = Layer(pair: real, body: real) {
    function Of(inBody: bool): real { if inBody && body > pair then body else pair }
  }

  /** The largest ghost layer width requested by any type. */
  method MaxLayerWidth(layers: seq<Layer>) returns (m: real)
    ensures m >= 0.0 && forall i :: 0 <= i < |layers| ==> layers[i].pair <= m && layers[i].body <= m
    ensures m == 0.0 || exists i :: 0 <= i < |layers| && (layers[i].pair == m || layers[i].body == m)
  {
    m := 0.0;
    for i := 0 to |layers|
      invariant m >= 0.0 && forall j :: 0 <= j < i ==> layers[j].pair <= m && layers[j].body <= m
      invariant m == 0.0 || exists j :: 0 <= j < i && (layers[j].pair == m || layers[j].body == m)
    {
      var w := if layers[i].pair > layers[i].body then layers[i].pair else layers[i].body;
      if w > m { m := w; }
    }
  }

  /** The box is accepted when every communicated axis is wider than twice the largest layer.
      L holds the distances between the opposite faces of the local box. */
  predicate BoxLargeEnough(g: Grid, widest: real, L: Vec) {
    forall a: Axis :: g.Extent(a) > 1 ==> widest < L.At(a) / 2.0
  }

  function LayerFraction(width: real, L: Vec): Vec
    requires L.x > 0.0 && L.y > 0.0 && L.z > 0.0
  {
    Vec(width / L.x, width / L.y, width / L.z)
  }

  lemma FractionBound(width: real, l: real)
    requires l > 0.0
    ensures width / l <= 0.5 <==> width <= l / 2.0
    ensures width / l < 0.5 <==> width < l / 2.0
  {
    assert width == (width / l) * l;
    var q := width / l;
    if q < 0.5 { assert (0.5 - q) * l > 0.0; } else if q > 0.5 { assert (q - 0.5) * l > 0.0; }
  }

  /** No axis that is communicated along has a layer wider than half the local box. */
  predicate HalfAtMost(g: Grid, layer: Vec) {
    && (g.w != 1 ==> layer.x <= 0.5) && (g.h != 1 ==> layer.y <= 0.5) && (g.d != 1 ==> layer.z <= 0.5)
  }

  /** Plans with at most one direction per communicated axis, wherever the particle is, are exactly
      those of layers of at most half the box. */
  lemma OneSideExactly(g: Grid, layer: Vec)
    ensures HalfAtMost(g, layer) <==> forall f: Vec :: OnePerAxis(g, GhostPlan(f, layer))
  {
    if !HalfAtMost(g, layer) {
      var f := Vec(1.0 - layer.x, 1.0 - layer.y, 1.0 - layer.z);
      assert forall d: Dir :: d in GhostPlan(f, layer) <==> InLayer(f, layer, d);
      assert g.w != 1 && layer.x > 0.5 ==> InLayer(f, layer, 0) && InLayer(f, layer, 1);
      assert g.h != 1 && layer.y > 0.5 ==> InLayer(f, layer, 2) && InLayer(f, layer, 3);
      assert g.d != 1 && layer.z > 0.5 ==> InLayer(f, layer, 4) && InLayer(f, layer, 5);
      assert !OnePerAxis(g, GhostPlan(f, layer));
    }
  }

  lemma CheckedLayer(g: Grid, layers: seq<Layer>, widest: real, L: Vec, kind: nat, inBody: bool)
    requires g.Valid() && L.x > 0.0 && L.y > 0.0 && L.z > 0.0
    requires forall i :: 0 <= i < |layers| ==> layers[i].pair <= widest && layers[i].body <= widest
    requires BoxLargeEnough(g, widest, L) && kind < |layers|
    ensures HalfAtMost(g, LayerFraction(layers[kind].Of(inBody), L))
  {
    var width := layers[kind].Of(inBody);
    assert g.w != 1 ==> g.Extent(0) > 1;
    assert g.h != 1 ==> g.Extent(1) > 1;
    assert g.d != 1 ==> g.Extent(2) > 1;
    FractionBound(width, L.x);
    FractionBound(width, L.y);
    FractionBound(width, L.z);
  }

  /** When the box size check passes, the plan of every particle of every type, in a body or not and
      wherever it is, has at most one direction per communicated axis. */
  lemma BoxCheckGuards(g: Grid, layers: seq<Layer>, widest: real, L: Vec, kind: nat, inBody: bool, f: Vec)
    requires g.Valid() && L.x > 0.0 && L.y > 0.0 && L.z > 0.0
    requires forall i :: 0 <= i < |layers| ==> layers[i].pair <= widest && layers[i].body <= widest
    requires BoxLargeEnough(g, widest, L) && kind < |layers|
    ensures OnePerAxis(g, GhostPlan(f, LayerFraction(layers[kind].Of(inBody), L)))
  {
    hide HalfAtMost;
    CheckedLayer(g, layers, widest, L, kind, inBody);
    OneSideExactly(g, LayerFraction(layers[kind].Of(inBody), L));
  }

  /** Along axis a there are positions that no neighbour gets a ghost of. */
  ghost predicate LeavesRoom(layer: Vec, a: Axis) {
    exists f: Vec :: 2 * a !in GhostPlan(f, layer) && 2 * a + 1 !in GhostPlan(f, layer)
  }

  lemma InPlan(f: Vec, layer: Vec, a: Axis)
    ensures 2 * a in GhostPlan(f, layer) <==> f.At(a) >= 1.0 - layer.At(a)
    ensures 2 * a + 1 in GhostPlan(f, layer) <==> f.At(a) < layer.At(a)
  {
    var up: Dir, down: Dir := 2 * a, 2 * a + 1;
    assert up / 2 == a && down / 2 == a && up % 2 == 0 && down % 2 == 1;
    assert up in GhostPlan(f, layer) <==> InLayer(f, layer, up);
    assert down in GhostPlan(f, layer) <==> InLayer(f, layer, down);
  }

  lemma RoomExactly(layer: Vec, a: Axis)
    ensures LeavesRoom(layer, a) <==> layer.At(a) < 0.5
  {
    hide GhostPlan;
    InPlan(layer, layer, a);
    forall f: Vec ensures layer.At(a) >= 0.5 ==> 2 * a in GhostPlan(f, layer) || 2 * a + 1 in GhostPlan(f, layer) {
      InPlan(f, layer, a);
    }
  }

  /** The box passes the check exactly when the layers of opposite faces leave room between them. */
  lemma BoxCheckExactly(g: Grid, widest: real, L: Vec)
    requires L.x > 0.0 && L.y > 0.0 && L.z > 0.0
    ensures BoxLargeEnough(g, widest, L)
            <==> forall a: Axis :: g.Extent(a) > 1 ==> LeavesRoom(LayerFraction(widest, L), a)
  {
    hide LeavesRoom, GhostPlan;
    var layer := LayerFraction(widest, L);
    forall a: Axis ensures LeavesRoom(layer, a) <==> widest < L.At(a) / 2.0 {
      assert layer.At(a) == widest / L.At(a);
      RoomExactly(layer, a);
      FractionBound(widest, L.At(a));
    }
  }

  // ---------- exchange: positions travel with the tags ----------

  /** The position of every local particle and ghost, in the order of the items. */
  type Places = map<Pos, seq<Vec>>

  ghost predicate Matches<T>(g: Grid, w: World<T>, at: Places) {
    On(g, w) && On(g, at) && forall q :: q in w ==> |at[q]| == |w[q]|
  }

  function WrapAll(g: Grid, cuts: Cuts, q: Pos, s: seq<Vec>): (r: seq<Vec>)
    requires g.Has(q) && CutFor(g, cuts)
    ensures |r| == |s|
  {
    seq(|s|, i requires 0 <= i < |s| => WrapVec(g, cuts, q, s[i]))
  }

  /** The positions that rank q gets in direction step d, wrapped into its shifted global box. */
  function Incoming<T>(g: Grid, cuts: Cuts, w: World<T>, at: Places, d: Dir, q: Pos): seq<Vec>
    requires CutFor(g, cuts) && Matches(g, w, at) && q in w
  {
    var s := Neighbor(g, q, Opposite(d));
    WrapAll(g, cuts, q, Gather(at[s], Selected(w[s], d)))
  }

  function PlaceStep<T>(g: Grid, cuts: Cuts, w: World<T>, at: Places, d: Dir): (r: Places)
    requires CutFor(g, cuts) && Matches(g, w, at)
    ensures Matches(g, Step(g, w, d), r)
  {
    if g.Communicating(d) then map q | q in w :: at[q] + Incoming(g, cuts, w, at, d, q) else at
  }

  function PlaceRun<T>(g: Grid, cuts: Cuts, w: World<T>, at: Places, k: nat): (r: Places)
    requires CutFor(g, cuts) && Matches(g, w, at) && k <= 6
    ensures Matches(g, Run(g, w, k), r)
  {
    if k == 0 then at else PlaceStep(g, cuts, Run(g, w, k - 1), PlaceRun(g, cuts, w, at, k - 1), k - 1)
  }

  /** Every stored position is that of its owner, up to a lattice vector of the global box. */
  ghost predicate Current<T>(g: Grid, w: World<T>, at: Places, owner: map<T, Vec>)
    requires Matches(g, w, at)
  {
    forall q, i :: q in w && 0 <= i < |w[q]| ==> w[q][i].load in owner && SameSite(at[q][i], owner[w[q][i].load])
  }

  lemma StepKeepsCurrent<T>(g: Grid, cuts: Cuts, w: World<T>, at: Places, owner: map<T, Vec>, d: Dir)
    requires CutFor(g, cuts) && Matches(g, w, at) && Current(g, w, at, owner)
    ensures Current(g, Step(g, w, d), PlaceStep(g, cuts, w, at, d), owner)
  {
    hide CutFor, Selected, WrapVec, SameSite, Neighbor, Opposite, Incoming, Outgoing;
    forall q, i | q in w && 0 <= i < |Step(g, w, d)[q]|
      ensures Step(g, w, d)[q][i].load in owner
      ensures SameSite(PlaceStep(g, cuts, w, at, d)[q][i], owner[Step(g, w, d)[q][i].load])
    {
      if i >= |w[q]| { IncomingCurrent(g, cuts, w, at, owner, d, q, i - |w[q]|); }
    }
  }

  lemma IncomingCurrent<T>(g: Grid, cuts: Cuts, w: World<T>, at: Places, owner: map<T, Vec>, d: Dir, q: Pos, i: nat)
    requires CutFor(g, cuts) && Matches(g, w, at) && Current(g, w, at, owner) && q in w
    requires i < |Outgoing(w[Neighbor(g, q, Opposite(d))], d)|
    ensures |Incoming(g, cuts, w, at, d, q)| == |Outgoing(w[Neighbor(g, q, Opposite(d))], d)|
    ensures var x := Outgoing(w[Neighbor(g, q, Opposite(d))], d)[i];
            x.load in owner && SameSite(Incoming(g, cuts, w, at, d, q)[i], owner[x.load])
  {
    hide CutFor, Selected, WrapVec, SameSite, Neighbor, Opposite;
    var s := Neighbor(g, q, Opposite(d));
    var j := Selected(w[s], d)[i];
    WrapIsLatticeShift(g, cuts, q, at[s][j], owner[w[s][j].load]);
  }

  // ---------- exchange: ghosts stay near the receiver's box ----------

  /** After k direction steps the position is near the slab of rank q along axis a, and in the half facing each
      neighbour that a copy is still to be sent to. */
  predicate PlacedAlong(g: Grid, cuts: Cuts, q: Pos, v: Vec, plan: set<Dir>, k: nat, a: Axis)
    requires g.Has(q) && CutFor(g, cuts)
  {
    var c, i, y := cuts.At(a), q.At(a), v.At(a);
    g.Extent(a) == 1
    || (&& Near(c, i, y)
        && (k <= 2 * a && 2 * a in plan ==> Headed(c, i, y, true))
        && (k <= 2 * a + 1 && 2 * a + 1 in plan ==> Headed(c, i, y, false)))
  }

  predicate PlacedAll(g: Grid, cuts: Cuts, q: Pos, v: Vec, plan: set<Dir>, k: nat)
    requires g.Has(q) && CutFor(g, cuts)
  {
    && PlacedAlong(g, cuts, q, v, plan, k, 0)
    && PlacedAlong(g, cuts, q, v, plan, k, 1)
    && PlacedAlong(g, cuts, q, v, plan, k, 2)
  }

  ghost predicate Nearby<T>(g: Grid, cuts: Cuts, w: World<T>, at: Places, k: nat)
    requires CutFor(g, cuts) && Matches(g, w, at)
  {
    forall q, i :: q in w && 0 <= i < |w[q]| ==> PlacedAll(g, cuts, q, at[q][i], w[q][i].plan, k)
  }

  lemma HopAlong(g: Grid, cuts: Cuts, s: Pos, v: Vec, plan: set<Dir>, d: Dir)
    requires g.Has(s) && CutFor(g, cuts) && d in plan && g.Communicating(d)
    requires PlacedAlong(g, cuts, s, v, plan, d, d / 2)
    ensures var q := Neighbor(g, s, d); PlacedAlong(g, cuts, q, WrapVec(g, cuts, q, v), plan, d + 1, d / 2)
  {
    hide Near, WrapCoord, Slabs;
    var a: Axis := d / 2;
    assert Slabs(cuts.At(a)) && |cuts.At(a)| == g.Extent(a) + 1;
    HopIsNear(cuts.At(a), s.At(a), v.At(a), d % 2 == 0);
  }

  lemma HopAcross(g: Grid, cuts: Cuts, s: Pos, v: Vec, plan: set<Dir>, d: Dir, a: Axis)
    requires g.Has(s) && CutFor(g, cuts) && a != d / 2
    requires PlacedAlong(g, cuts, s, v, plan, d, a)
    ensures var q := Neighbor(g, s, d); PlacedAlong(g, cuts, q, WrapVec(g, cuts, q, v), plan, d + 1, a)
  {
    hide Near, WrapCoord, Slabs, Headed;
    var c, i, y := cuts.At(a), s.At(a), v.At(a);
    assert Slabs(c) && |c| == g.Extent(a) + 1 && Neighbor(g, s, d).At(a) == i;
    if g.Extent(a) != 1 {
      NearIsKept(c, i, y);
      if Headed(c, i, y, true) { HeadedIsKept(c, i, y, true); }
      if Headed(c, i, y, false) { HeadedIsKept(c, i, y, false); }
    }
  }

  lemma HopPlaced(g: Grid, cuts: Cuts, s: Pos, v: Vec, plan: set<Dir>, d: Dir)
    requires g.Has(s) && CutFor(g, cuts) && d in plan && g.Communicating(d) && PlacedAll(g, cuts, s, v, plan, d)
    ensures var q := Neighbor(g, s, d); PlacedAll(g, cuts, q, WrapVec(g, cuts, q, v), plan, d + 1)
  {
    hide PlacedAlong, CutFor, WrapVec, Neighbor;
    HopAlong(g, cuts, s, v, plan, d);
    if d / 2 != 0 { HopAcross(g, cuts, s, v, plan, d, 0); }
    if d / 2 != 1 { HopAcross(g, cuts, s, v, plan, d, 1); }
    if d / 2 != 2 { HopAcross(g, cuts, s, v, plan, d, 2); }
  }

  lemma StayPlaced(g: Grid, cuts: Cuts, q: Pos, v: Vec, plan: set<Dir>, k: nat)
    requires g.Has(q) && CutFor(g, cuts) && PlacedAll(g, cuts, q, v, plan, k)
    ensures PlacedAll(g, cuts, q, v, plan, k + 1)
  {
    hide Near, Headed, CutFor;
  }

  lemma IncomingNearby<T>(g: Grid, cuts: Cuts, w: World<T>, at: Places, d: Dir, q: Pos, i: nat)
    requires CutFor(g, cuts) && Matches(g, w, at) && Nearby(g, cuts, w, at, d) && q in w && g.Communicating(d)
    requires i < |Outgoing(w[Neighbor(g, q, Opposite(d))], d)|
    ensures |Incoming(g, cuts, w, at, d, q)| == |Outgoing(w[Neighbor(g, q, Opposite(d))], d)|
    ensures PlacedAll(g, cuts, q, Incoming(g, cuts, w, at, d, q)[i],
                      Outgoing(w[Neighbor(g, q, Opposite(d))], d)[i].plan, d + 1)
  {
    hide CutFor, Selected, WrapVec, PlacedAll, Neighbor, Opposite;
    var s := Neighbor(g, q, Opposite(d));
    NeighborPairing(g, q, d);
    var j := Selected(w[s], d)[i];
    HopPlaced(g, cuts, s, at[s][j], w[s][j].plan, d);
  }

  lemma StepKeepsNearby<T>(g: Grid, cuts: Cuts, w: World<T>, at: Places, d: Dir)
    requires CutFor(g, cuts) && Matches(g, w, at) && Nearby(g, cuts, w, at, d)
    ensures Nearby(g, cuts, Step(g, w, d), PlaceStep(g, cuts, w, at, d), d + 1)
  {
    hide CutFor, PlacedAll, Neighbor, Opposite, Incoming, Outgoing;
    forall q, i | q in w && 0 <= i < |Step(g, w, d)[q]|
      ensures PlacedAll(g, cuts, q, PlaceStep(g, cuts, w, at, d)[q][i], Step(g, w, d)[q][i].plan, d + 1)
    {
      if i >= |w[q]| {
        IncomingNearby(g, cuts, w, at, d, q, i - |w[q]|);
      } else {
        StayPlaced(g, cuts, q, at[q][i], w[q][i].plan, d);
      }
    }
  }

  /** However many hops a ghost made, it is near the receiver's slab along every communicated axis: it
      overshoots by at most half the adjacent slab and the tolerance. */
  lemma {:induction false} RunKeepsNearby<T>(g: Grid, cuts: Cuts, w: World<T>, at: Places, k: nat)
    requires CutFor(g, cuts) && Matches(g, w, at) && Nearby(g, cuts, w, at, 0) && k <= 6
    ensures Nearby(g, cuts, Run(g, w, k), PlaceRun(g, cuts, w, at, k), k)
    decreases k
  {
    hide Nearby, Step, PlaceStep;
    if k > 0 {
      RunKeepsNearby(g, cuts, w, at, k - 1);
      StepKeepsNearby(g, cuts, Run(g, w, k - 1), PlaceRun(g, cuts, w, at, k - 1), k - 1);
    }
  }

  /** However many hops a ghost made, its position is its owner's up to a lattice vector, and if the particles started
      near their slabs it is the image near the receiver's slab. */
  lemma {:induction false} RunKeepsCurrent<T>(g: Grid, cuts: Cuts, w: World<T>, at: Places, owner: map<T, Vec>, k: nat)
    requires CutFor(g, cuts) && Matches(g, w, at) && Current(g, w, at, owner) && k <= 6
    ensures Current(g, Run(g, w, k), PlaceRun(g, cuts, w, at, k), owner)
    ensures Nearby(g, cuts, w, at, 0) ==> Nearby(g, cuts, Run(g, w, k), PlaceRun(g, cuts, w, at, k), k)
    decreases k
  {
    hide Current, Nearby, Step, PlaceStep;
    if Nearby(g, cuts, w, at, 0) { RunKeepsNearby(g, cuts, w, at, k); }
    if k > 0 {
      RunKeepsCurrent(g, cuts, w, at, owner, k - 1);
      StepKeepsCurrent(g, cuts, Run(g, w, k - 1), PlaceRun(g, cuts, w, at, k - 1), owner, k - 1);
    }
  }

  /** A layer of at most half the slab lies in the half facing the neighbour. */
  lemma LayerIsHeaded(c: seq<real>, i: nat, y: real, layer: real)
    requires Slabs(c) && i + 1 < |c| && layer <= 0.5
    ensures Along(c, i, y) >= 1.0 - layer ==> Headed(c, i, y, true)
    ensures Along(c, i, y) < layer ==> Headed(c, i, y, false)
  {
    assert Width(c, i) > 0.0;
    var f, l := Along(c, i, y), Width(c, i);
    assert y - c[i] == f * l;
    if f >= 0.5 { assert (f - 0.5) * l >= 0.0; } else { assert (0.5 - f) * l > 0.0; }
  }

  /** A particle inside its local box, with the plan its position gives it, is placed as the exchange needs. */
  lemma PlannedIsPlaced(g: Grid, cuts: Cuts, q: Pos, v: Vec, layer: Vec)
    requires g.Has(q) && CutFor(g, cuts) && HalfAtMost(g, layer)
    requires InDomain(g, cuts, q, v)
    ensures PlacedAll(g, cuts, q, v, GhostPlan(LocalFraction(g, cuts, q, v), layer), 0)
  {
    hide Near, Headed, Slabs, Inside;
    forall a: Axis ensures PlacedAlong(g, cuts, q, v, GhostPlan(LocalFraction(g, cuts, q, v), layer), 0, a) {
      if g.Extent(a) != 1 {
        assert Slabs(cuts.At(a)) && layer.At(a) <= 0.5;
        InsideIsFixed(cuts.At(a), q.At(a), v.At(a));
        LayerIsHeaded(cuts.At(a), q.At(a), v.At(a), layer.At(a));
        assert LocalFraction(g, cuts, q, v).At(a) == Along(cuts.At(a), q.At(a), v.At(a));
      }
    }
  }

  // ---------- plans of a whole system ----------

  predicate Wide(L: Vec) { L.x > 0.0 && L.y > 0.0 && L.z > 0.0 }

  /** A particle type and whether the particle is in a body. */
  datatype Sort = Sort(kind: nat, inBody: bool)

  /** Every local particle has the plan that its position in the local box and its layer give it. L holds the face
      distances of every rank's local box. */
  ghost predicate Planned<T>(g: Grid, cuts: Cuts, w: World<T>, at: Places, layers: seq<Layer>, L: map<Pos, Vec>,
                             sort: map<T, Sort>)
    requires CutFor(g, cuts) && Matches(g, w, at) && On(g, L)
    requires forall q :: q in L ==> Wide(L[q])
  {
    forall q, i :: q in w && 0 <= i < |w[q]| ==>
      && w[q][i].load in sort && sort[w[q][i].load].kind < |layers|
      && w[q][i].plan == PlanOf(g, cuts, q, at[q][i], layers, L[q], sort[w[q][i].load])
  }

  function PlanOf(g: Grid, cuts: Cuts, q: Pos, v: Vec, layers: seq<Layer>, L: Vec, sort: Sort): set<Dir>
    requires g.Has(q) && CutFor(g, cuts) && Wide(L) && sort.kind < |layers|
  {
    GhostPlan(LocalFraction(g, cuts, q, v), LayerFraction(layers[sort.kind].Of(sort.inBody), L))
  }

  /** If every rank's box passes the size check for the largest layer, plans made from positions name at most one
      direction per axis; and if the particles are inside their boxes the exchange can place their ghosts. */
  lemma CheckedPlans<T>(g: Grid, cuts: Cuts, w: World<T>, at: Places, layers: seq<Layer>, widest: real,
                        L: map<Pos, Vec>, sort: map<T, Sort>)
    requires g.Valid() && CutFor(g, cuts) && Matches(g, w, at) && On(g, L)
    requires forall q :: q in L ==> Wide(L[q]) && BoxLargeEnough(g, widest, L[q])
    requires forall i :: 0 <= i < |layers| ==> layers[i].pair <= widest && layers[i].body <= widest
    requires Planned(g, cuts, w, at, layers, L, sort)
    ensures PlansOnePerAxis(g, w)
    ensures (forall q, i :: q in w && 0 <= i < |w[q]| ==> InDomain(g, cuts, q, at[q][i])) ==> Nearby(g, cuts, w, at, 0)
  {
    hide CutFor, GhostPlan, LocalFraction, LayerFraction, OnePerAxis, PlacedAll, InDomain, HalfAtMost, BoxLargeEnough;
    forall q, i | q in w && 0 <= i < |w[q]|
      ensures OnePerAxis(g, w[q][i].plan)
      ensures InDomain(g, cuts, q, at[q][i]) ==> PlacedAll(g, cuts, q, at[q][i], w[q][i].plan, 0)
    {
      assert q in L;
      var s := sort[w[q][i].load];
      BoxCheckGuards(g, layers, widest, L[q], s.kind, s.inBody, LocalFraction(g, cuts, q, at[q][i]));
      CheckedLayer(g, layers, widest, L[q], s.kind, s.inBody);
      if InDomain(g, cuts, q, at[q][i]) {
        PlannedIsPlaced(g, cuts, q, at[q][i], LayerFraction(layers[s.kind].Of(s.inBody), L[q]));
      }
    }
  }
}
