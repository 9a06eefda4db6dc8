/** Reverse force delivery: every ghost copy sends the force it collected back along its inverted plan.
    The copies pass through ranks that do not own the particle; only the owner adds what it receives. */
module Reverse {
  import opened Torus
  import opened Itinerary
  import opened GhostExchange

  datatype Force = Force(x: real, y: real, z: real, w: real) {
    function Plus(f: Force): Force { Force(x + f.x, y + f.y, z + f.z, w + f.w) }
  }

  const ZERO := Force(0.0, 0.0, 0.0, 0.0)

  /** A force on its way back: the particle it belongs to and the rank whose ghost copy sent it. */
  datatype Origin = Origin(tag: Tag, at: Pos)

  function Reversed(plan: set<Dir>): set<Dir> { set d: Dir | Opposite(d) in plan }

  lemma ReversedOnePerAxis(g: Grid, plan: set<Dir>)
    requires OnePerAxis(g, plan)
    ensures OnePerAxis(g, Reversed(plan))
  {
  }

  /** The particles a rank owns come first, then its ghosts in order of arrival. */
  function GhostsOf(g: Grid, w: World<Tag>, q: Pos): seq<Item<Tag>>
    requires On(g, w) && q in w
  {
    HeldIsKept(g, w, 6, q);
    Run(g, w, 6)[q][|w[q]|..]
  }

  function Returning(q: Pos, s: seq<Item<Tag>>): seq<Item<Origin>> {
    seq(|s|, i requires 0 <= i < |s| => Item(Origin(s[i].load, q), Reversed(s[i].plan)))
  }

  /** The forces that set out: one for every ghost on every rank. */
  function ReverseWorld(g: Grid, w: World<Tag>): (r: World<Origin>)
    requires On(g, w)
    ensures On(g, r)
  {
    map q | q in w :: Returning(q, GhostsOf(g, w, q))
  }

  // ---------- which forces reach the owner ----------

  lemma DisplacedReversed(g: Grid, p: Pos, plan: set<Dir>, q: Pos, d: Dir)
    requires g.Has(p) && g.Has(q) && Displaced(g, p, plan, 6, q, d)
    ensures Displaced(g, q, Reversed(plan), 6, p, Opposite(d))
  {
    assert Opposite(Opposite(d)) == d && Opposite(d) / 2 == d / 2;
    assert Opposite(d) in Reversed(plan);
  }

  lemma AxisReversed(g: Grid, p: Pos, plan: set<Dir>, q: Pos, a: Axis)
    requires g.Has(p) && g.Has(q) && AxisReached(g, p, plan, 6, q, a)
    ensures AxisReached(g, q, Reversed(plan), 6, p, a)
  {
    hide Displaced, Reversed;
    if Displaced(g, p, plan, 6, q, 2 * a) { DisplacedReversed(g, p, plan, q, 2 * a); }
    if Displaced(g, p, plan, 6, q, 2 * a + 1) { DisplacedReversed(g, p, plan, q, 2 * a + 1); }
  }

  lemma ReachedReversed(g: Grid, p: Pos, plan: set<Dir>, q: Pos)
    requires g.Has(p) && g.Has(q) && OnePerAxis(g, plan)
    ensures Reached(g, p, plan, 6, q) <==> Reached(g, q, Reversed(plan), 6, p)
  {
    hide Reached, AxisReached;
    ReversedOnePerAxis(g, plan);
    ReachedClosedForm(g, p, plan, 6, q);
    ReachedClosedForm(g, q, Reversed(plan), 6, p);
    assert Reversed(Reversed(plan)) == plan;
    if AllAxesReached(g, p, plan, 6, q) {
      AxisReversed(g, p, plan, q, 0);
      AxisReversed(g, p, plan, q, 1);
      AxisReversed(g, p, plan, q, 2);
    }
    if AllAxesReached(g, q, Reversed(plan), 6, p) {
      AxisReversed(g, q, Reversed(plan), p, 0);
      AxisReversed(g, q, Reversed(plan), p, 1);
      AxisReversed(g, q, Reversed(plan), p, 2);
    }
  }

  /** Every ghost is a copy of an owned particle, with its plan, on a rank that does not own it. */
  lemma GhostIsCopy(g: Grid, w: World<Tag>, q: Pos, x: Item<Tag>)
    requires On(g, w) && q in w && LoadsUnique(w) && PlansOnePerAxis(g, w) && x in GhostsOf(g, w, q)
    ensures exists p, i :: p in w && p != q && 0 <= i < |w[p]| && w[p][i] == x && Reached(g, p, x.plan, 6, q)
  {
    hide Reached, Run;
    var all := Run(g, w, 6)[q];
    HeldIsKept(g, w, 6, q);
    assert x in all && x in multiset(all);
    NothingInvented(g, w, 6, q, x);
    var p :| p in w && x in w[p];
    var i :| 0 <= i < |w[p]| && w[p][i] == x;
    DeliveredExactly(g, w, 6, q);
  }

  lemma ReverseWorldFit(g: Grid, w: World<Tag>)
    requires On(g, w) && LoadsUnique(w) && PlansOnePerAxis(g, w)
    ensures LoadsUnique(ReverseWorld(g, w)) && PlansOnePerAxis(g, ReverseWorld(g, w))
  {
    hide Run, Reached, OnePerAxis, Reversed, Neighbor;
    var r: World<Origin> := ReverseWorld(g, w);
    forall p, q, i, j | p in r && q in r && 0 <= i < |r[p]| && 0 <= j < |r[q]| && r[p][i].load == r[q][j].load
      ensures p == q && i == j
    {
      DeliveredExactly(g, w, 6, p);
      HeldIsKept(g, w, 6, p);
      var all := Run(g, w, 6)[p];
      assert p == q;
      assert all[|w[p]| + i].load == all[|w[p]| + j].load;
    }
    forall q, i | q in r && 0 <= i < |r[q]| ensures OnePerAxis(g, r[q][i].plan) {
      var x := GhostsOf(g, w, q)[i];
      GhostIsCopy(g, w, q, x);
      ReversedOnePerAxis(g, x.plan);
    }
  }

  /** The forces rank p receives, in order of arrival. */
  function ReceivedAt(g: Grid, w: World<Tag>, p: Pos): seq<Item<Origin>>
    requires On(g, w) && p in w
  {
    HeldIsKept(g, ReverseWorld(g, w), 6, p);
    Run(g, ReverseWorld(g, w), 6)[p][|ReverseWorld(g, w)[p]|..]
  }

  /** The ranks that hold a ghost copy of the particle. */
  function Holders(g: Grid, w: World<Tag>, t: Tag): set<Pos>
    requires On(g, w)
  {
    set q | q in w && Holds(GhostsOf(g, w, q), t)
  }

  predicate Holds(s: seq<Item<Tag>>, t: Tag) { exists i :: 0 <= i < |s| && s[i].load == t }

  predicate Carries(s: seq<Item<Origin>>, o: Origin) { exists i :: 0 <= i < |s| && s[i].load == o }

  /** Nothing but the force of a ghost copy arrives. */
  lemma OnlyCopiesArrive(g: Grid, w: World<Tag>, p: Pos, t: Tag, q: Pos)
    requires On(g, w) && p in w && Carries(ReceivedAt(g, w, p), Origin(t, q))
    ensures q in Holders(g, w, t)
  {
    hide Run, Neighbor, Reversed, GhostsOf;
    var r: World<Origin> := ReverseWorld(g, w);
    var i :| 0 <= i < |ReceivedAt(g, w, p)| && ReceivedAt(g, w, p)[i].load == Origin(t, q);
    var x := ReceivedAt(g, w, p)[i];
    HeldIsKept(g, r, 6, p);
    assert x in Run(g, r, 6)[p] && x in multiset(Run(g, r, 6)[p]);
    NothingInvented(g, r, 6, p, x);
    var q' :| q' in r && x in r[q'];
    var j :| 0 <= j < |r[q']| && r[q'][j] == x;
    assert GhostsOf(g, w, q')[j].load == t;
  }

  /** The force of every ghost copy arrives at the owner. */
  lemma EveryCopyArrives(g: Grid, w: World<Tag>, p: Pos, i: nat, q: Pos)
    requires On(g, w) && LoadsUnique(w) && PlansOnePerAxis(g, w) && p in w && i < |w[p]|
    requires q in Holders(g, w, w[p][i].load)
    ensures Carries(ReceivedAt(g, w, p), Origin(w[p][i].load, q))
  {
    hide Run, Neighbor, Reversed, GhostsOf, Reached;
    var t, r := w[p][i].load, ReverseWorld(g, w);
    var j :| 0 <= j < |GhostsOf(g, w, q)| && GhostsOf(g, w, q)[j].load == t;
    var y := GhostsOf(g, w, q)[j];
    GhostIsCopy(g, w, q, y);
    assert y == w[p][i] && p != q && Reached(g, p, y.plan, 6, q);
    ReachedReversed(g, p, y.plan, q);
    ReverseWorldFit(g, w);
    DeliveredExactly(g, r, 6, p);
    assert r[q][j] in Run(g, r, 6)[p];
    HeldIsKept(g, r, 6, p);
    var k :| 0 <= k < |Run(g, r, 6)[p]| && Run(g, r, 6)[p][k] == r[q][j];
    assert k >= |r[p]|;
    assert ReceivedAt(g, w, p)[k - |r[p]|].load == Origin(t, q);
  }

  // ---------- sums ----------

  /** The sum, in order of arrival, of the received forces of one particle. */
  function SumReceived(rec: seq<Item<Origin>>, t: Tag, val: map<Origin, Force>): Force
    requires forall i :: 0 <= i < |rec| ==> rec[i].load in val
  {
    if rec == [] then ZERO
    else
      var last := rec[|rec| - 1].load;
      var before := SumReceived(rec[..|rec| - 1], t, val);
      if last.tag == t then before.Plus(val[last]) else before
  }

  /** The sum of the forces on the copies of one particle over a set of ranks. */
  ghost function SumOver(S: set<Pos>, t: Tag, val: map<Origin, Force>): Force
    requires forall q :: q in S ==> Origin(t, q) in val
  {
    if S == {} then ZERO
    else
      var q :| q in S;
      SumOver(S - {q}, t, val).Plus(val[Origin(t, q)])
  }

  lemma PlusCommutes(a: Force, b: Force, c: Force)
    ensures a.Plus(b).Plus(c) == a.Plus(c).Plus(b)
  {
  }

  lemma {:induction false} SumOverPick(S: set<Pos>, t: Tag, val: map<Origin, Force>, q: Pos)
    requires q in S && forall r :: r in S ==> Origin(t, r) in val
    ensures SumOver(S, t, val) == SumOver(S - {q}, t, val).Plus(val[Origin(t, q)])
    decreases |S|
  {
    var r :| r in S && SumOver(S, t, val) == SumOver(S - {r}, t, val).Plus(val[Origin(t, r)]);
    if r != q {
      SumOverPick(S - {r}, t, val, q);
      SumOverPick(S - {q}, t, val, r);
      assert S - {r} - {q} == S - {q} - {r};
      PlusCommutes(SumOver(S - {q} - {r}, t, val), val[Origin(t, q)], val[Origin(t, r)]);
    }
  }

  /** A component of a force. */
  function Part(f: Force, c: nat): real
    requires c < 4
  {
    if c == 0 then f.x else if c == 1 then f.y else if c == 2 then f.z else f.w
  }

  /** One component, added up over the copies of a particle on a set of ranks. */
  ghost function SumPart(S: set<Pos>, t: Tag, val: map<Origin, Force>, c: nat): real
    requires c < 4 && forall q :: q in S ==> Origin(t, q) in val
  {
    if S == {} then 0.0
    else
      var q :| q in S;
      SumPart(S - {q}, t, val, c) + Part(val[Origin(t, q)], c)
  }

  lemma PlusParts(a: Force, b: Force, c: nat)
    requires c < 4
    ensures Part(a.Plus(b), c) == Part(a, c) + Part(b, c) && Part(ZERO, c) == 0.0
  {
  }

  /** The four components are all of a force. */
  lemma PartsDetermine(a: Force, b: Force)
    requires forall c: nat :: c < 4 ==> Part(a, c) == Part(b, c)
    ensures a == b
  {
    assert Part(a, 0) == Part(b, 0) && Part(a, 1) == Part(b, 1) && Part(a, 2) == Part(b, 2) && Part(a, 3) == Part(b, 3);
  }

  /** Every component of a sum of forces is the sum of the components. */
  lemma {:induction false} SumParts(S: set<Pos>, t: Tag, val: map<Origin, Force>, c: nat)
    requires c < 4 && forall q :: q in S ==> Origin(t, q) in val
    ensures Part(SumOver(S, t, val), c) == SumPart(S, t, val, c)
    decreases |S|
  {
    hide Part;
    PlusParts(ZERO, ZERO, c);
    if S != {} {
      var q :| q in S && SumPart(S, t, val, c) == SumPart(S - {q}, t, val, c) + Part(val[Origin(t, q)], c);
      SumOverPick(S, t, val, q);
      SumParts(S - {q}, t, val, c);
      PlusParts(SumOver(S - {q}, t, val), val[Origin(t, q)], c);
    }
  }

  /** The ranks whose force on particle t is in the list. */
  function Senders(rec: seq<Item<Origin>>, t: Tag): set<Pos> {
    set i | 0 <= i < |rec| && rec[i].load.tag == t :: rec[i].load.at
  }

  lemma {:induction false} SumIsOverSenders(rec: seq<Item<Origin>>, t: Tag, val: map<Origin, Force>)
    requires NoRepeat(rec) && forall i :: 0 <= i < |rec| ==> rec[i].load in val
    ensures forall q :: q in Senders(rec, t) ==> Origin(t, q) in val
    ensures SumReceived(rec, t, val) == SumOver(Senders(rec, t), t, val)
  {
    if rec != [] {
      var init, last := rec[..|rec| - 1], rec[|rec| - 1].load;
      SumIsOverSenders(init, t, val);
      if last.tag == t {
        assert last.at !in Senders(init, t);
        assert Senders(rec, t) == Senders(init, t) + {last.at};
        assert Senders(rec, t) - {last.at} == Senders(init, t);
        SumOverPick(Senders(rec, t), t, val, last.at);
      } else {
        assert Senders(rec, t) == Senders(init, t);
      }
    }
  }
}
