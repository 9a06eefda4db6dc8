/** From the state that a ghost exchange leaves behind to the forces of the owners: plans are inverted, lists
    recorded and forces delivered, and every owner ends up with the forces of all copies of its particles. */
module ForceReturn {
  import opened Torus
  import opened Domain
  import opened Itinerary
  import opened Ghosts
  import opened GhostExchange
  import opened Reverse
  import opened ReverseForces

  /** The ghost copies and the ranks they are on. */
  ghost function Copies(w: World<Tag>, f: Forces, rtag: map<Pos, RTag>): set<Origin> {
    set q, t | q in w && q in rtag && q in f && t in rtag[q] && |w[q]| <= rtag[q][t] < |f[q]| :: Origin(t, q)
  }

  /** The force on every ghost copy. */
  ghost function CopyForces(w: World<Tag>, f: Forces, rtag: map<Pos, RTag>): map<Origin, Force> {
    map o | o in Copies(w, f, rtag) :: f[o.at][rtag[o.at][o.tag]]
  }

  /** The state after a complete ghost exchange, with a force for every particle and ghost. */
  ghost predicate Exchanged(g: Grid, w: World<Tag>, ranks: map<Pos, Rank>, f: Forces) {
    && On(g, w) && On(g, ranks) && On(g, f)
    && forall q :: q in w ==>
         && ranks[q].items == Run(g, w, 6)[q] && Inverse(ranks[q].items, ranks[q].rtag)
         && |f[q]| == |ranks[q].items|
  }

  function Lookups(ranks: map<Pos, Rank>): (r: map<Pos, RTag>)
    ensures r.Keys == ranks.Keys
  {
    map q | q in ranks :: ranks[q].rtag
  }

  lemma LocalsFirst(g: Grid, w: World<Tag>, q: Pos)
    requires On(g, w) && q in w
    ensures w[q] <= Run(g, w, 6)[q] && Run(g, w, 6)[q] == w[q] + GhostsOf(g, w, q)
  {
    HeldIsKept(g, w, 6, q);
  }

  lemma CopyValued(g: Grid, w: World<Tag>, ranks: map<Pos, Rank>, f: Forces, q: Pos, j: nat)
    requires Exchanged(g, w, ranks, f) && q in w && j < |GhostsOf(g, w, q)|
    ensures |f[q]| == |w[q]| + |GhostsOf(g, w, q)|
    ensures var o := Origin(GhostsOf(g, w, q)[j].load, q);
            o in CopyForces(w, f, Lookups(ranks)) && CopyForces(w, f, Lookups(ranks))[o] == f[q][|w[q]| + j]
  {
    hide Run, GhostsOf;
    LocalsFirst(g, w, q);
    assert ranks[q].items[|w[q]| + j] == GhostsOf(g, w, q)[j];
  }

  lemma CopiesValued(g: Grid, w: World<Tag>, ranks: map<Pos, Rank>, f: Forces)
    requires Exchanged(g, w, ranks, f)
    ensures Valued(g, w, f, CopyForces(w, f, Lookups(ranks)))
  {
    hide GhostsOf, CopyForces, Lookups, Run, Inverse;
    var val := CopyForces(w, f, Lookups(ranks));
    forall q | q in w ensures |f[q]| == |w[q]| + |GhostsOf(g, w, q)| { LocalsFirst(g, w, q); }
    forall q, j | q in w && 0 <= j < |GhostsOf(g, w, q)|
      ensures Origin(GhostsOf(g, w, q)[j].load, q) in val
      ensures val[Origin(GhostsOf(g, w, q)[j].load, q)] == f[q][|w[q]| + j]
    {
      CopyValued(g, w, ranks, f, q, j);
    }
  }

  /** Inverts the plans of the ghosts of all ranks. */
  method InvertAll(g: Grid, w: World<Tag>, ranks: map<Pos, Rank>, ghost f: Forces) returns (r: World<Origin>)
    requires Exchanged(g, w, ranks, f)
    ensures r == ReverseWorld(g, w)
  {
    hide Run, GhostsOf, Returning, Inverse;
    r := map[];
    var todo := w.Keys;
    while todo != {}
      invariant todo <= w.Keys && r.Keys == w.Keys - todo
      invariant forall q :: q in r ==> r[q] == Returning(q, GhostsOf(g, w, q))
    {
      var q :| q in todo;
      LocalsFirst(g, w, q);
      var ghosts := ranks[q].items[|w[q]|..];
      assert ghosts == GhostsOf(g, w, q);
      var items := InvertPlans(q, ghosts);
      r := r[q := items];
      todo := todo - {q};
    }
  }

  /** The whole way back: the force on every owned particle becomes its own plus that of every ghost copy of
      it, each once; the forces on ghosts stay as they were. */
  method ReturnForces(g: Grid, w: World<Tag>, ranks: map<Pos, Rank>, f: Forces) returns (us: map<Pos, Summing>)
    requires Exchanged(g, w, ranks, f) && LoadsUnique(w) && PlansOnePerAxis(g, w)
    ensures Valued(g, w, f, CopyForces(w, f, Lookups(ranks)))
    ensures OwnersComplete(g, w, f, CopyForces(w, f, Lookups(ranks)), us)
  {
    hide Exchanged, CopyForces, OwnersComplete, Valued, AllListed, Ready, Lookups, LoadsUnique, PlansOnePerAxis;
    CopiesValued(g, w, ranks, f);
    var r := InvertAll(g, w, ranks, f);
    var ls := RecordReverse(g, r);
    ReadyToDeliver(g, w, ranks, f, CopyForces(w, f, Lookups(ranks)), ls);
    us := DeliverForces(g, w, f, CopyForces(w, f, Lookups(ranks)), Lookups(ranks), ls);
  }

  lemma ReadyToDeliver(g: Grid, w: World<Tag>, ranks: map<Pos, Rank>, f: Forces, val: map<Origin, Force>,
                       ls: map<Pos, Lists>)
    requires Exchanged(g, w, ranks, f) && On(g, ls) && Valued(g, w, f, val) && AllListed(g, ReverseWorld(g, w), 6, ls)
    ensures Ready(g, w, f, val, Lookups(ranks), ls)
  {
    hide AllListed, Valued, Inverse, GhostsOf, Run, ReverseWorld;
    forall q | q in w ensures Inverse(w[q] + GhostsOf(g, w, q), Lookups(ranks)[q]) { LocalsFirst(g, w, q); }
  }

  /** An exchange leaves the state that the forces are returned from. */
  lemma ExchangeLeaves(g: Grid, cuts: Cuts, w: World<Tag>, at: Places, ranks: map<Pos, Rank>, f: Forces)
    requires CutFor(g, cuts) && Matches(g, w, at) && On(g, ranks) && AllDone(g, cuts, w, at, 6, ranks)
    requires On(g, f) && forall q :: q in w ==> |f[q]| == |ranks[q].items|
    ensures Exchanged(g, w, ranks, f)
  {
    hide Run, PlaceRun, Inverse, ListsKept, CutFor;
  }
}
