/** The periodic W x H x D grid of domains: grid positions, the six directions in the order
    in which the communication steps run, and the positions a travelling plan can reach. */
module Torus {

  /** Directions: 0 east, 1 west, 2 north, 3 south, 4 up, 5 down. Direction d moves along axis d / 2. */
  type Dir = d: nat | d < 6

  type Axis = a: nat | a < 3

  datatype Grid = Grid(w: nat, h: nat, d: nat) {
    predicate Valid() { w > 0 && h > 0 && d > 0 }

    function Extent(a: Axis): nat { if a == 0 then w else if a == 1 then h else d }

    predicate Has(p: Pos) { p.x < w && p.y < h && p.z < d }

    /** An axis with a single domain is not communicated along. */
    predicate Communicating(dir: Dir) { Extent(dir / 2) != 1 }
  }

  datatype Pos = Pos(x: nat, y: nat, z: nat) {
    function At(a: Axis): nat { if a == 0 then x else if a == 1 then y else z }

    function With(a: Axis, v: nat): Pos {
      if a == 0 then Pos(v, y, z) else if a == 1 then Pos(x, v, z) else Pos(x, y, v)
    }
  }

  /** Every domain of the grid has an entry. */
  ghost predicate On<T>(g: Grid, w: map<Pos, T>) { forall p {:trigger p in w} :: p in w <==> g.Has(p) }

  function Opposite(d: Dir): Dir { if d % 2 == 0 then d + 1 else d - 1 }

  /** One step along a periodic axis of n domains. */
  function Advance(c: nat, n: nat, up: bool): (r: nat)
    requires c < n
    ensures r < n
  {
    if up then (if c + 1 == n then 0 else c + 1) else (if c == 0 then n - 1 else c - 1)
  }

  function Neighbor(g: Grid, p: Pos, d: Dir): Pos
    requires g.Has(p)
    ensures g.Has(Neighbor(g, p, d))
  {
    p.With(d / 2, Advance(p.At(d / 2), g.Extent(d / 2), d % 2 == 0))
  }

  lemma AdvancePairing(c: nat, n: nat, up: bool)
    requires c < n
    ensures Advance(Advance(c, n, up), n, !up) == c
    ensures Advance(c, n, up) != c <==> n != 1
  {
  }

  /** What is sent in direction d to a neighbour is received there from the opposite direction. */
  lemma NeighborPairing(g: Grid, p: Pos, d: Dir)
    requires g.Has(p)
    ensures Neighbor(g, Neighbor(g, p, d), Opposite(d)) == p
    ensures Neighbor(g, Neighbor(g, p, Opposite(d)), d) == p
    ensures g.Communicating(d) <==> Neighbor(g, p, d) != p
    ensures forall b: Axis :: b != d / 2 ==> Neighbor(g, p, d).At(b) == p.At(b)
  {
    hide Advance;
    AdvancePairing(p.At(d / 2), g.Extent(d / 2), true);
    AdvancePairing(p.At(d / 2), g.Extent(d / 2), false);
  }

  /** Two positions with the same three coordinates are equal. */
  lemma SamePosition(p: Pos, q: Pos)
    requires p.At(0) == q.At(0) && p.At(1) == q.At(1) && p.At(2) == q.At(2)
    ensures p == q
  {
  }

  // ---------- where a plan leads ----------

  /** A plan names at most one direction of every axis that is communicated along. */
  predicate OnePerAxis(g: Grid, plan: set<Dir>) {
    && (g.w != 1 ==> !(0 in plan && 1 in plan))
    && (g.h != 1 ==> !(2 in plan && 3 in plan))
    && (g.d != 1 ==> !(4 in plan && 5 in plan))
  }

  /** Position q holds a copy after the first k direction steps when the item started at p. */
  predicate Reached(g: Grid, p: Pos, plan: set<Dir>, k: nat, q: Pos)
    requires g.Has(p) && g.Has(q) && k <= 6
  {
    if k == 0 then p == q
    else
      var d: Dir := k - 1;
      Reached(g, p, plan, k - 1, q)
      || (g.Communicating(d) && d in plan && Reached(g, p, plan, k - 1, Neighbor(g, q, Opposite(d))))
  }

  lemma ReachedStart(g: Grid, p: Pos, plan: set<Dir>, q: Pos)
    requires g.Has(p) && g.Has(q)
    ensures Reached(g, p, plan, 0, q) <==> p == q
  {
  }

  lemma ReachedStep(g: Grid, p: Pos, plan: set<Dir>, d: Dir, q: Pos)
    requires g.Has(p) && g.Has(q)
    ensures Reached(g, p, plan, d + 1, q)
            <==> Reached(g, p, plan, d, q)
                 || (g.Communicating(d) && d in plan && Reached(g, p, plan, d, Neighbor(g, q, Opposite(d))))
  {
  }

  /** Along axis a, position q agrees with p or is one planned, already executed step away from it. */
  predicate AxisReached(g: Grid, p: Pos, plan: set<Dir>, k: nat, q: Pos, a: Axis)
    requires g.Has(p) && g.Has(q)
  {
    || q.At(a) == p.At(a)
    || Displaced(g, p, plan, k, q, 2 * a)
    || Displaced(g, p, plan, k, q, 2 * a + 1)
  }

  predicate Displaced(g: Grid, p: Pos, plan: set<Dir>, k: nat, q: Pos, d: Dir)
    requires g.Has(p) && g.Has(q)
  {
    d < k && d in plan && g.Communicating(d) && q.At(d / 2) == Neighbor(g, p, d).At(d / 2)
  }

  predicate AllAxesReached(g: Grid, p: Pos, plan: set<Dir>, k: nat, q: Pos)
    requires g.Has(p) && g.Has(q)
  {
    AxisReached(g, p, plan, k, q, 0) && AxisReached(g, p, plan, k, q, 1) && AxisReached(g, p, plan, k, q, 2)
  }

  /** The set of positions reached is the owner's position displaced by every subset of the planned
      directions: each axis is independently displaced or not. */
  lemma {:induction false} ReachedClosedForm(g: Grid, p: Pos, plan: set<Dir>, k: nat, q: Pos)
    requires g.Has(p) && g.Has(q) && k <= 6 && OnePerAxis(g, plan)
    ensures Reached(g, p, plan, k, q) <==> AllAxesReached(g, p, plan, k, q)
    decreases k
  {
    if k == 0 {
      if AllAxesReached(g, p, plan, k, q) { SamePosition(p, q); }
    } else {
      var d: Dir := k - 1;
      ReachedClosedForm(g, p, plan, k - 1, q);
      if g.Communicating(d) && d in plan {
        ReachedClosedForm(g, p, plan, k - 1, Neighbor(g, q, Opposite(d)));
        ActiveStep(g, p, plan, d, q);
      } else {
        IdleStep(g, p, plan, d, q);
      }
    }
  }

  lemma IdleStep(g: Grid, p: Pos, plan: set<Dir>, d: Dir, q: Pos)
    requires g.Has(p) && g.Has(q) && !(g.Communicating(d) && d in plan)
    ensures AllAxesReached(g, p, plan, d + 1, q) <==> AllAxesReached(g, p, plan, d, q)
  {
    forall e: Dir ensures Displaced(g, p, plan, d + 1, q, e) <==> Displaced(g, p, plan, d, q, e) {}
  }

  /** Before the step of a planned direction nothing has moved along its axis; after it, the item is
      where it was or one step further. */
  lemma AxisStep(g: Grid, p: Pos, plan: set<Dir>, d: Dir, q: Pos)
    requires g.Has(p) && g.Has(q) && d in plan && Opposite(d) !in plan && g.Communicating(d)
    ensures AxisReached(g, p, plan, d, q, d / 2) <==> q.At(d / 2) == p.At(d / 2)
    ensures AxisReached(g, p, plan, d + 1, q, d / 2)
            <==> q.At(d / 2) == p.At(d / 2) || Neighbor(g, q, Opposite(d)).At(d / 2) == p.At(d / 2)
  {
    assert forall e: Dir :: e / 2 == d / 2 <==> e == d || e == Opposite(d);
    assert d == 2 * (d / 2) || d == 2 * (d / 2) + 1;
  }

  lemma ActiveStep(g: Grid, p: Pos, plan: set<Dir>, d: Dir, q: Pos)
    requires g.Has(p) && g.Has(q) && OnePerAxis(g, plan) && d in plan && g.Communicating(d)
    ensures AllAxesReached(g, p, plan, d + 1, q)
            <==> AllAxesReached(g, p, plan, d, q) || AllAxesReached(g, p, plan, d, Neighbor(g, q, Opposite(d)))
  {
    var s := Neighbor(g, q, Opposite(d));
    AxisStep(g, p, plan, d, q);
    AxisStep(g, p, plan, d, s);
    forall b: Axis | b != d / 2
      ensures AxisReached(g, p, plan, d + 1, q, b) <==> AxisReached(g, p, plan, d, q, b)
      ensures AxisReached(g, p, plan, d, s, b) <==> AxisReached(g, p, plan, d, q, b)
    {
      OtherAxis(g, p, plan, d, q, b);
    }
  }

  lemma OtherAxis(g: Grid, p: Pos, plan: set<Dir>, d: Dir, q: Pos, b: Axis)
    requires g.Has(p) && g.Has(q) && b != d / 2
    ensures AxisReached(g, p, plan, d + 1, q, b) <==> AxisReached(g, p, plan, d, q, b)
    ensures AxisReached(g, p, plan, d, Neighbor(g, q, Opposite(d)), b) <==> AxisReached(g, p, plan, d, q, b)
  {
    var s := Neighbor(g, q, Opposite(d));
    assert s.At(b) == q.At(b);
    forall e: Dir | e / 2 == b
      ensures Displaced(g, p, plan, d + 1, q, e) <==> Displaced(g, p, plan, d, q, e)
      ensures Displaced(g, p, plan, d, s, e) <==> Displaced(g, p, plan, d, q, e)
    {
      assert e != d;
    }
  }

  /** Going in a planned direction never meets a copy that is already there: a position and its
      upstream neighbour are not both reached before that direction's step. */
  lemma FreshArrival(g: Grid, p: Pos, plan: set<Dir>, d: Dir, q: Pos)
    requires g.Has(p) && g.Has(q) && OnePerAxis(g, plan) && d in plan && g.Communicating(d)
    ensures !(Reached(g, p, plan, d, q) && Reached(g, p, plan, d, Neighbor(g, q, Opposite(d))))
  {
    hide Reached;
    var s := Neighbor(g, q, Opposite(d));
    ReachedClosedForm(g, p, plan, d, q);
    ReachedClosedForm(g, p, plan, d, s);
    AxisStep(g, p, plan, d, q);
    AxisStep(g, p, plan, d, s);
    assert s.At(d / 2) != q.At(d / 2);
  }
}
