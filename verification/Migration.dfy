/** Particle migration: in six ordered direction steps every rank hands the particles that left its
    slab on to the neighbour on that side, and the receiver wraps them into its shifted global box. */
module Migration {
  import opened Torus
  import opened Vectors
  import opened Domain
  import opened Tally

  datatype Particle = Particle(tag: nat, pos: Vec, image: Image)

  /** What a particle is apart from the periodic image it is stored in. */
  datatype Identity = Identity(tag: nat, unwrapped: Vec)

  type Owners = map<Pos, seq<Particle>>

  function IdentityOf(p: Particle): Identity {
    Identity(p.tag, Vec(p.pos.x + p.image.x as real, p.pos.y + p.image.y as real, p.pos.z + p.image.z as real))
  }

  function Identities(s: seq<Particle>): seq<Identity> { seq(|s|, i requires 0 <= i < |s| => IdentityOf(s[i])) }

  /** The particle is at or beyond the upper face, or below the lower face, of its rank's slab. */
  predicate Leaves(g: Grid, cuts: Cuts, q: Pos, d: Dir, p: Particle)
    requires g.Has(q) && CutFor(g, cuts)
  {
    var c, i, y := cuts.At(d / 2), q.At(d / 2), p.pos.At(d / 2);
    if d % 2 == 0 then y >= c[i + 1] else y < c[i]
  }

  function Staying(g: Grid, cuts: Cuts, q: Pos, d: Dir, s: seq<Particle>): seq<Particle>
    requires g.Has(q) && CutFor(g, cuts)
  {
    if s == [] then []
    else Staying(g, cuts, q, d, s[..|s| - 1]) + if Leaves(g, cuts, q, d, s[|s| - 1]) then [] else [s[|s| - 1]]
  }

  function Leaving(g: Grid, cuts: Cuts, q: Pos, d: Dir, s: seq<Particle>): seq<Particle>
    requires g.Has(q) && CutFor(g, cuts)
  {
    if s == [] then []
    else Leaving(g, cuts, q, d, s[..|s| - 1]) + if Leaves(g, cuts, q, d, s[|s| - 1]) then [s[|s| - 1]] else []
  }

  /** The received particle, wrapped by the receiver q. */
  function Arrive(g: Grid, cuts: Cuts, q: Pos, p: Particle): Particle
    requires g.Has(q) && CutFor(g, cuts)
  {
    p.(pos := WrapVec(g, cuts, q, p.pos),
       image := Image(p.image.x + WrapImage(cuts.x, q.x, p.pos.x),
                      p.image.y + WrapImage(cuts.y, q.y, p.pos.y),
                      p.image.z + WrapImage(cuts.z, q.z, p.pos.z)))
  }

  function ArriveAll(g: Grid, cuts: Cuts, q: Pos, s: seq<Particle>): seq<Particle>
    requires g.Has(q) && CutFor(g, cuts)
  {
    seq(|s|, i requires 0 <= i < |s| => Arrive(g, cuts, q, s[i]))
  }

  /** What rank q holds after a step: what stays, and what arrives from upstream. */
  function StepAt(g: Grid, cuts: Cuts, w: Owners, d: Dir, q: Pos): seq<Particle>
    requires CutFor(g, cuts) && On(g, w) && q in w
  {
    var s := Neighbor(g, q, Opposite(d));
    Staying(g, cuts, q, d, w[q]) + ArriveAll(g, cuts, q, Leaving(g, cuts, s, d, w[s]))
  }

  function Step(g: Grid, cuts: Cuts, w: Owners, d: Dir): (r: Owners)
    requires CutFor(g, cuts) && On(g, w)
    ensures On(g, r)
  {
    if g.Communicating(d) then map q | q in w :: StepAt(g, cuts, w, d, q) else w
  }

  function Run(g: Grid, cuts: Cuts, w: Owners, k: nat): (r: Owners)
    requires CutFor(g, cuts) && On(g, w) && k <= 6
    ensures On(g, r)
  {
    if k == 0 then w else Step(g, cuts, Run(g, cuts, w, k - 1), k - 1)
  }

  // ---------- conservation ----------

  /** All particles of all ranks, by identity and with multiplicity. */
  ghost function Everything(w: Owners): multiset<Identity> { Union(w.Keys, Holdings(w)) }

  function Holdings(w: Owners): (m: map<Pos, multiset<Identity>>)
    ensures m.Keys == w.Keys
  {
    map q | q in w :: multiset(Identities(w[q]))
  }

  lemma IdentitiesAppend(s: seq<Particle>, p: Particle)
    ensures Identities(s + [p]) == Identities(s) + [IdentityOf(p)]
  {
  }

  lemma NoIdentities(s: seq<Particle>)
    requires s == []
    ensures Identities(s) == []
  {
  }

  lemma {:induction false} SplitKeepsAll(g: Grid, cuts: Cuts, q: Pos, d: Dir, s: seq<Particle>)
    requires g.Has(q) && CutFor(g, cuts)
    ensures multiset(Identities(Staying(g, cuts, q, d, s))) + multiset(Identities(Leaving(g, cuts, q, d, s)))
            == multiset(Identities(s))
  {
    hide Identities, Leaves, CutFor;
    if s == [] {
      NoIdentities(s);
    } else {
      var init, last := s[..|s| - 1], s[|s| - 1];
      SplitKeepsAll(g, cuts, q, d, init);
      var stay, leave := Staying(g, cuts, q, d, init), Leaving(g, cuts, q, d, init);
      IdentitiesAppend(init, last);
      IdentitiesAppend(stay, last);
      IdentitiesAppend(leave, last);
      assert s == init + [last] && stay + [] == stay && leave + [] == leave;
    }
  }

  lemma ArriveKeepsIdentity(g: Grid, cuts: Cuts, q: Pos, s: seq<Particle>)
    requires g.Has(q) && CutFor(g, cuts)
    ensures Identities(ArriveAll(g, cuts, q, s)) == Identities(s)
  {
    forall i | 0 <= i < |s| ensures IdentityOf(ArriveAll(g, cuts, q, s)[i]) == IdentityOf(s[i]) {
      ArriveIdentity(g, cuts, q, s[i]);
    }
  }

  lemma ArriveIdentity(g: Grid, cuts: Cuts, q: Pos, p: Particle)
    requires g.Has(q) && CutFor(g, cuts)
    ensures IdentityOf(Arrive(g, cuts, q, p)) == IdentityOf(p)
  {
  }

  function Kept(g: Grid, cuts: Cuts, w: Owners, d: Dir): (m: map<Pos, multiset<Identity>>)
    requires CutFor(g, cuts) && On(g, w)
    ensures m.Keys == w.Keys
  {
    map q | q in w :: multiset(Identities(Staying(g, cuts, q, d, w[q])))
  }

  function Sent(g: Grid, cuts: Cuts, w: Owners, d: Dir): (m: map<Pos, multiset<Identity>>)
    requires CutFor(g, cuts) && On(g, w)
    ensures m.Keys == w.Keys
  {
    map q | q in w :: multiset(Identities(Leaving(g, cuts, q, d, w[q])))
  }

  function Partners(g: Grid, w: Owners, d: Dir): (m: map<Pos, Pos>)
    requires On(g, w)
    ensures m.Keys == w.Keys
  {
    map q | q in w :: Neighbor(g, q, d)
  }

  lemma PartnerOf(g: Grid, w: Owners, d: Dir, q: Pos)
    requires On(g, w) && q in w
    ensures Neighbor(g, q, d) in w && Neighbor(g, q, Opposite(d)) in w
    ensures Neighbor(g, Neighbor(g, q, Opposite(d)), d) == q && Neighbor(g, Neighbor(g, q, d), Opposite(d)) == q
  {
    NeighborPairing(g, q, d);
  }

  lemma PartnerPaired(g: Grid, w: Owners, d: Dir, q: Pos)
    requires On(g, w) && q in w
    ensures var from, to := Partners(g, w, Opposite(d)), Partners(g, w, d);
            from[q] in w.Keys && to[q] in w.Keys && to[from[q]] == q && from[to[q]] == q
  {
    hide Neighbor, On;
    PartnerOf(g, w, d, q);
  }

  lemma PartnersPaired(g: Grid, w: Owners, d: Dir)
    requires On(g, w)
    ensures Paired(w.Keys, Partners(g, w, Opposite(d)), Partners(g, w, d))
  {
    hide Partners;
    forall q | q in w.Keys
      ensures var from, to := Partners(g, w, Opposite(d)), Partners(g, w, d);
              from[q] in w.Keys && to[q] in w.Keys && to[from[q]] == q && from[to[q]] == q
    {
      PartnerPaired(g, w, d, q);
    }
  }

  /** What each rank holds before and after the step. */
  lemma RankExchange(g: Grid, cuts: Cuts, w: Owners, d: Dir, q: Pos)
    requires CutFor(g, cuts) && On(g, w) && g.Communicating(d) && q in w
    ensures Holdings(w)[q] == Kept(g, cuts, w, d)[q] + Sent(g, cuts, w, d)[q]
    ensures Partners(g, w, Opposite(d))[q] in w
    ensures Holdings(Step(g, cuts, w, d))[q] == Kept(g, cuts, w, d)[q]
            + Sent(g, cuts, w, d)[Partners(g, w, Opposite(d))[q]]
  {
    hide Step, Identities, Staying, Leaving;
    SplitKeepsAll(g, cuts, q, d, w[q]);
    NewHoldings(g, cuts, w, d, q);
  }

  /** No step loses, duplicates or alters a particle, for any particles and any positions. */
  lemma StepConserves(g: Grid, cuts: Cuts, w: Owners, d: Dir)
    requires CutFor(g, cuts) && On(g, w)
    ensures Everything(Step(g, cuts, w, d)) == Everything(w)
  {
    if g.Communicating(d) { SwapConserves(g, cuts, w, d, Step(g, cuts, w, d)); }
  }

  lemma SwapConserves(g: Grid, cuts: Cuts, w: Owners, d: Dir, w': Owners)
    requires CutFor(g, cuts) && On(g, w) && g.Communicating(d) && w' == Step(g, cuts, w, d)
    ensures Everything(w') == Everything(w)
  {
    hide Step, Holdings, Kept, Sent, Partners, CutFor, On, Paired, Union;
    SameKeys(g, w, w');
    PartnersPaired(g, w, d);
    forall q | q in w
      ensures Holdings(w)[q] == Kept(g, cuts, w, d)[q] + Sent(g, cuts, w, d)[q]
      ensures Partners(g, w, Opposite(d))[q] in w
      ensures Holdings(w')[q] == Kept(g, cuts, w, d)[q] + Sent(g, cuts, w, d)[Partners(g, w, Opposite(d))[q]]
    {
      RankExchange(g, cuts, w, d, q);
    }
    ExchangeConserves(w.Keys, Holdings(w), Holdings(w'), Kept(g, cuts, w, d), Sent(g, cuts, w, d),
                      Partners(g, w, Opposite(d)), Partners(g, w, d));
  }

  lemma SameKeys(g: Grid, w: Owners, w': Owners)
    requires On(g, w) && On(g, w')
    ensures w.Keys == w'.Keys
  {
  }

  lemma NewHoldings(g: Grid, cuts: Cuts, w: Owners, d: Dir, q: Pos)
    requires CutFor(g, cuts) && On(g, w) && g.Communicating(d) && q in w
    ensures var s := Neighbor(g, q, Opposite(d));
            multiset(Identities(Step(g, cuts, w, d)[q]))
            == multiset(Identities(Staying(g, cuts, q, d, w[q]))) + multiset(Identities(Leaving(g, cuts, s, d, w[s])))
  {
    var s := Neighbor(g, q, Opposite(d));
    var stay, come := Staying(g, cuts, q, d, w[q]), ArriveAll(g, cuts, q, Leaving(g, cuts, s, d, w[s]));
    ArriveKeepsIdentity(g, cuts, q, Leaving(g, cuts, s, d, w[s]));
    assert Identities(stay + come) == Identities(stay) + Identities(come);
  }

  lemma {:induction false} MigrationConserves(g: Grid, cuts: Cuts, w: Owners, k: nat)
    requires CutFor(g, cuts) && On(g, w) && k <= 6
    ensures Everything(Run(g, cuts, w, k)) == Everything(w)
    decreases k
  {
    hide Everything, Step;
    if k > 0 {
      MigrationConserves(g, cuts, w, k - 1);
      StepConserves(g, cuts, Run(g, cuts, w, k - 1), k - 1);
    }
  }

  // ---------- delivery ----------

  /** How far axis a has been settled once k direction steps are done. */
  predicate Settled(g: Grid, cuts: Cuts, q: Pos, v: Vec, k: nat, a: Axis)
    requires g.Has(q) && CutFor(g, cuts)
  {
    var c, i, y := cuts.At(a), q.At(a), v.At(a);
    if g.Extent(a) == 1 then true
    else if k <= 2 * a then Near(c, i, y)
    else if k == 2 * a + 1 then Near(c, i, y) && y < c[i + 1]
    else Inside(c, i, y)
  }

  predicate SettledAll(g: Grid, cuts: Cuts, q: Pos, v: Vec, k: nat)
    requires g.Has(q) && CutFor(g, cuts)
  {
    Settled(g, cuts, q, v, k, 0) && Settled(g, cuts, q, v, k, 1) && Settled(g, cuts, q, v, k, 2)
  }

  ghost predicate WorldSettled(g: Grid, cuts: Cuts, w: Owners, k: nat)
    requires CutFor(g, cuts) && On(g, w)
  {
    forall q, i :: q in w && 0 <= i < |w[q]| ==> SettledAll(g, cuts, q, w[q][i].pos, k)
  }

  lemma StaySettles(g: Grid, cuts: Cuts, q: Pos, p: Particle, d: Dir)
    requires g.Has(q) && CutFor(g, cuts) && SettledAll(g, cuts, q, p.pos, d)
    requires g.Communicating(d) ==> !Leaves(g, cuts, q, d, p)
    ensures SettledAll(g, cuts, q, p.pos, d + 1)
  {
  }

  lemma ArrivalSettles(g: Grid, cuts: Cuts, s: Pos, p: Particle, d: Dir)
    requires g.Has(s) && CutFor(g, cuts) && SettledAll(g, cuts, s, p.pos, d)
    requires g.Communicating(d) && Leaves(g, cuts, s, d, p)
    ensures SettledAll(g, cuts, Neighbor(g, s, d), Arrive(g, cuts, Neighbor(g, s, d), p).pos, d + 1)
  {
    hide Settled, Arrive, Neighbor, Leaves;
    ArrivalMovedAxis(g, cuts, s, p, d);
    if d / 2 != 0 { ArrivalOtherAxis(g, cuts, s, p, d, 0); }
    if d / 2 != 1 { ArrivalOtherAxis(g, cuts, s, p, d, 1); }
    if d / 2 != 2 { ArrivalOtherAxis(g, cuts, s, p, d, 2); }
  }

  lemma ArrivalMovedAxis(g: Grid, cuts: Cuts, s: Pos, p: Particle, d: Dir)
    requires g.Has(s) && CutFor(g, cuts) && Settled(g, cuts, s, p.pos, d, d / 2)
    requires g.Communicating(d) && Leaves(g, cuts, s, d, p)
    ensures Settled(g, cuts, Neighbor(g, s, d), Arrive(g, cuts, Neighbor(g, s, d), p).pos, d + 1, d / 2)
  {
    hide Near, Inside, WrapCoord, Slabs;
    var q, a: Axis := Neighbor(g, s, d), d / 2;
    assert Arrive(g, cuts, q, p).pos.At(a) == WrapCoord(cuts.At(a), q.At(a), p.pos.At(a));
    assert q.At(a) == Advance(s.At(a), g.Extent(a), d % 2 == 0);
    assert Slabs(cuts.At(a)) && |cuts.At(a)| == g.Extent(a) + 1;
    SentAlong(cuts.At(a), s.At(a), p.pos.At(a), d % 2 == 0);
  }

  lemma ArrivalOtherAxis(g: Grid, cuts: Cuts, s: Pos, p: Particle, d: Dir, a: Axis)
    requires g.Has(s) && CutFor(g, cuts) && Settled(g, cuts, s, p.pos, d, a) && a != d / 2
    ensures Settled(g, cuts, Neighbor(g, s, d), Arrive(g, cuts, Neighbor(g, s, d), p).pos, d + 1, a)
  {
    var q := Neighbor(g, s, d);
    var c, y := cuts.At(a), p.pos.At(a);
    assert q.At(a) == s.At(a);
    assert Arrive(g, cuts, q, p).pos.At(a) == WrapCoord(c, q.At(a), y);
    assert Slabs(c) && |c| == g.Extent(a) + 1;
    if g.Extent(a) != 1 {
      if d < 2 * a { NearIsKept(c, q.At(a), y); } else { InsideIsFixed(c, q.At(a), y); }
    }
  }

  lemma {:induction false} StayingFrom(g: Grid, cuts: Cuts, q: Pos, d: Dir, s: seq<Particle>, p: Particle)
    requires g.Has(q) && CutFor(g, cuts)
    ensures p in Staying(g, cuts, q, d, s) <==> p in s && !Leaves(g, cuts, q, d, p)
    ensures p in Leaving(g, cuts, q, d, s) <==> p in s && Leaves(g, cuts, q, d, p)
  {
    if s != [] {
      assert s == s[..|s| - 1] + [s[|s| - 1]];
      StayingFrom(g, cuts, q, d, s[..|s| - 1], p);
    }
  }

  lemma StaysSettled(g: Grid, cuts: Cuts, q: Pos, d: Dir, held: seq<Particle>, p: Particle)
    requires g.Has(q) && CutFor(g, cuts) && p in Staying(g, cuts, q, d, held)
    requires forall i :: 0 <= i < |held| ==> SettledAll(g, cuts, q, held[i].pos, d)
    ensures SettledAll(g, cuts, q, p.pos, d + 1)
  {
    hide CutFor, SettledAll, Leaves;
    StayingFrom(g, cuts, q, d, held, p);
    var i :| 0 <= i < |held| && held[i] == p;
    StaySettles(g, cuts, q, p, d);
  }

  lemma ArrivesSettled(g: Grid, cuts: Cuts, s: Pos, d: Dir, held: seq<Particle>, p: Particle)
    requires g.Has(s) && CutFor(g, cuts) && g.Communicating(d) && p in Leaving(g, cuts, s, d, held)
    requires forall i :: 0 <= i < |held| ==> SettledAll(g, cuts, s, held[i].pos, d)
    ensures SettledAll(g, cuts, Neighbor(g, s, d), Arrive(g, cuts, Neighbor(g, s, d), p).pos, d + 1)
  {
    hide CutFor, SettledAll, Leaves, Arrive, Neighbor;
    StayingFrom(g, cuts, s, d, held, p);
    var i :| 0 <= i < |held| && held[i] == p;
    ArrivalSettles(g, cuts, s, p, d);
  }

  /** One rank after a step. */
  lemma RankSettles(g: Grid, cuts: Cuts, w: Owners, d: Dir, q: Pos, i: nat)
    requires CutFor(g, cuts) && On(g, w) && WorldSettled(g, cuts, w, d) && g.Communicating(d) && q in w
    requires i < |StepAt(g, cuts, w, d, q)|
    ensures SettledAll(g, cuts, q, StepAt(g, cuts, w, d, q)[i].pos, d + 1)
  {
    hide CutFor, SettledAll, Staying, Leaving, Neighbor, Arrive;
    PartnerOf(g, w, d, q);
    var s := Neighbor(g, q, Opposite(d));
    var stay, leave := Staying(g, cuts, q, d, w[q]), Leaving(g, cuts, s, d, w[s]);
    if i < |stay| {
      StaysSettled(g, cuts, q, d, w[q], stay[i]);
    } else {
      ArrivesSettled(g, cuts, s, d, w[s], leave[i - |stay|]);
    }
  }

  lemma IdleSettles(g: Grid, cuts: Cuts, q: Pos, v: Vec, d: Dir)
    requires g.Has(q) && CutFor(g, cuts) && SettledAll(g, cuts, q, v, d) && !g.Communicating(d)
    ensures SettledAll(g, cuts, q, v, d + 1)
  {
  }

  lemma StepSettles(g: Grid, cuts: Cuts, w: Owners, d: Dir)
    requires CutFor(g, cuts) && On(g, w) && WorldSettled(g, cuts, w, d)
    ensures WorldSettled(g, cuts, Step(g, cuts, w, d), d + 1)
  {
    hide CutFor, SettledAll, StepAt;
    var w': Owners := Step(g, cuts, w, d);
    forall q, i | q in w' && 0 <= i < |w'[q]| ensures SettledAll(g, cuts, q, w'[q][i].pos, d + 1) {
      if g.Communicating(d) { RankSettles(g, cuts, w, d, q, i); } else { IdleSettles(g, cuts, q, w[q][i].pos, d); }
    }
  }

  /** After k steps the first k / 2 axes are settled. */
  lemma {:induction false} RunSettles(g: Grid, cuts: Cuts, w: Owners, k: nat)
    requires CutFor(g, cuts) && On(g, w) && k <= 6 && WorldSettled(g, cuts, w, 0)
    ensures WorldSettled(g, cuts, Run(g, cuts, w, k), k)
    decreases k
  {
    hide CutFor, SettledAll, Step;
    if k > 0 {
      RunSettles(g, cuts, w, k - 1);
      StepSettles(g, cuts, Run(g, cuts, w, k - 1), k - 1);
    }
  }

  /** Every particle overshoots its slab by at most half the adjacent slab's width. */
  ghost predicate SmallMoves(g: Grid, cuts: Cuts, w: Owners)
    requires CutFor(g, cuts) && On(g, w)
  {
    forall q, i, a: Axis :: q in w && 0 <= i < |w[q]| && g.Extent(a) != 1
                            ==> Near(cuts.At(a), q.At(a), w[q][i].pos.At(a))
  }

  lemma SettledIsInDomain(g: Grid, cuts: Cuts, q: Pos, v: Vec)
    requires g.Has(q) && CutFor(g, cuts) && SettledAll(g, cuts, q, v, 6)
    ensures InDomain(g, cuts, q, v)
  {
  }

  lemma SmallMovesAreUnsettled(g: Grid, cuts: Cuts, w: Owners)
    requires CutFor(g, cuts) && On(g, w) && SmallMoves(g, cuts, w)
    ensures WorldSettled(g, cuts, w, 0)
  {
  }

  /** After the six steps every particle is on the one rank whose box contains it. */
  lemma MigrationDelivers(g: Grid, cuts: Cuts, w: Owners, q: Pos, i: nat)
    requires CutFor(g, cuts) && On(g, w) && SmallMoves(g, cuts, w)
    requires q in w && i < |Run(g, cuts, w, 6)[q]|
    ensures forall r :: g.Has(r) ==> (InDomain(g, cuts, r, Run(g, cuts, w, 6)[q][i].pos) <==> r == q)
  {
    hide Run, SmallMoves, CutFor, SettledAll, InDomain;
    SmallMovesAreUnsettled(g, cuts, w);
    RunSettles(g, cuts, w, 6);
    var v := Run(g, cuts, w, 6)[q][i].pos;
    SettledIsInDomain(g, cuts, q, v);
    forall r | g.Has(r) && InDomain(g, cuts, r, v) ensures r == q { DomainUnique(g, cuts, q, r, v); }
  }

  lemma DomainUnique(g: Grid, cuts: Cuts, q: Pos, r: Pos, v: Vec)
    requires g.Has(q) && g.Has(r) && CutFor(g, cuts) && InDomain(g, cuts, q, v) && InDomain(g, cuts, r, v)
    ensures q == r
  {
    forall a: Axis ensures q.At(a) == r.At(a) {
      if g.Extent(a) != 1 { SlabUnique(cuts.At(a), q.At(a), r.At(a), v.At(a)); }
    }
    SamePosition(q, r);
  }

  // ---------- the steps as the ranks carry them out ----------

  /** Flags the particles that left through the face of direction d, and splits them off. */
  method RemoveParticles(g: Grid, cuts: Cuts, q: Pos, d: Dir, s: seq<Particle>)
    returns (keep: seq<Particle>, send: seq<Particle>)
    requires g.Has(q) && CutFor(g, cuts)
    ensures keep == Staying(g, cuts, q, d, s) && send == Leaving(g, cuts, q, d, s)
  {
    hide CutFor, Leaves;
    var flags: seq<bool> := [];
    for idx := 0 to |s|
      invariant |flags| == idx && forall i :: 0 <= i < idx ==> flags[i] == Leaves(g, cuts, q, d, s[i])
    {
      flags := flags + [Leaves(g, cuts, q, d, s[idx])];
    }
    keep, send := [], [];
    for idx := 0 to |s|
      invariant keep == Staying(g, cuts, q, d, s[..idx]) && send == Leaving(g, cuts, q, d, s[..idx])
    {
      assert s[..idx + 1][..idx] == s[..idx];
      if flags[idx] { send := send + [s[idx]]; } else { keep := keep + [s[idx]]; }
    }
    assert s[..|s|] == s;
  }

  /** Wraps the received particles into the shifted global box. */
  method WrapReceived(g: Grid, cuts: Cuts, q: Pos, s: seq<Particle>) returns (r: seq<Particle>)
    requires g.Has(q) && CutFor(g, cuts)
    ensures r == ArriveAll(g, cuts, q, s)
  {
    hide CutFor, Arrive;
    r := [];
    for idx := 0 to |s|
      invariant |r| == idx && forall i :: 0 <= i < idx ==> r[i] == Arrive(g, cuts, q, s[i])
    {
      r := r + [Arrive(g, cuts, q, s[idx])];
    }
  }

  datatype Split = Split(keep: seq<Particle>, send: seq<Particle>)

  method SplitAll(g: Grid, cuts: Cuts, d: Dir, w: Owners) returns (out: map<Pos, Split>)
    requires CutFor(g, cuts) && On(g, w)
    ensures forall q :: q in w ==>
              q in out && out[q] == Split(Staying(g, cuts, q, d, w[q]), Leaving(g, cuts, q, d, w[q]))
  {
    hide CutFor, Staying, Leaving;
    out := map[];
    var todo := w.Keys;
    while todo != {}
      invariant todo <= w.Keys
      invariant forall q :: q in w && q !in todo ==>
                  q in out && out[q] == Split(Staying(g, cuts, q, d, w[q]), Leaving(g, cuts, q, d, w[q]))
    {
      var q :| q in todo;
      var keep, send := RemoveParticles(g, cuts, q, d, w[q]);
      out := out[q := Split(keep, send)];
      todo := todo - {q};
    }
  }

  lemma StepIsPointwise(g: Grid, cuts: Cuts, w: Owners, d: Dir, w': Owners)
    requires CutFor(g, cuts) && On(g, w) && g.Communicating(d) && w'.Keys == w.Keys
    requires forall q :: q in w ==> w'[q] == StepAt(g, cuts, w, d, q)
    ensures w' == Step(g, cuts, w, d)
  {
    hide CutFor, StepAt;
  }

  /** All ranks send in direction d, delete what they sent, and add what they receive. */
  method MigrateDirection(g: Grid, cuts: Cuts, d: Dir, w: Owners) returns (w': Owners)
    requires CutFor(g, cuts) && On(g, w) && g.Communicating(d)
    ensures w' == Step(g, cuts, w, d)
  {
    hide CutFor, Staying, Leaving, ArriveAll, Neighbor, Step;
    var out := SplitAll(g, cuts, d, w);
    w' := map[];
    var todo := w.Keys;
    while todo != {}
      invariant todo <= w.Keys && w'.Keys == w.Keys - todo
      invariant forall q :: q in w' ==> w'[q] == StepAt(g, cuts, w, d, q)
    {
      var q :| q in todo;
      var s := Neighbor(g, q, Opposite(d));
      assert q in w && s in w;
      var received := WrapReceived(g, cuts, q, out[s].send);
      w' := w'[q := out[q].keep + received];
      todo := todo - {q};
    }
    StepIsPointwise(g, cuts, w, d, w');
  }

  /** Every particle is held by the one rank whose box contains it. */
  ghost predicate AtHome(g: Grid, cuts: Cuts, w: Owners)
    requires CutFor(g, cuts) && On(g, w)
  {
    forall q, i, r :: q in w && 0 <= i < |w[q]| && g.Has(r) ==> (InDomain(g, cuts, r, w[q][i].pos) <==> r == q)
  }

  lemma AllDelivered(g: Grid, cuts: Cuts, w: Owners)
    requires CutFor(g, cuts) && On(g, w) && SmallMoves(g, cuts, w)
    ensures AtHome(g, cuts, Run(g, cuts, w, 6))
  {
    hide Run, CutFor, SmallMoves, InDomain;
    var w': Owners := Run(g, cuts, w, 6);
    forall q, i, r | q in w' && 0 <= i < |w'[q]| && g.Has(r) ensures InDomain(g, cuts, r, w'[q][i].pos) <==> r == q {
      MigrationDelivers(g, cuts, w, q, i);
    }
  }

  lemma RunUnfolds(g: Grid, cuts: Cuts, w: Owners, k: nat)
    requires CutFor(g, cuts) && On(g, w) && k < 6
    ensures Run(g, cuts, w, 0) == w && Run(g, cuts, w, k + 1) == Step(g, cuts, Run(g, cuts, w, k), k)
  {
    hide Step;
  }

  lemma StepIdle(g: Grid, cuts: Cuts, w: Owners, d: Dir)
    requires CutFor(g, cuts) && On(g, w)
    ensures !g.Communicating(d) ==> Step(g, cuts, w, d) == w
  {
    hide StepAt;
  }

  /** Particle migration: no particle is lost, duplicated or moved off its trajectory, whatever the
      positions; and if every overshoot is small, each particle ends on the one rank whose box holds it. */
  method MigrateParticles(g: Grid, cuts: Cuts, w: Owners) returns (w': Owners)
    requires CutFor(g, cuts) && On(g, w)
    ensures On(g, w') && w' == Run(g, cuts, w, 6)
    ensures Everything(w') == Everything(w)
    ensures SmallMoves(g, cuts, w) ==> AtHome(g, cuts, w')
  {
    hide Run, Step, CutFor, Everything, SmallMoves, AtHome, On;
    w' := w;
    RunUnfolds(g, cuts, w, 0);
    for dir := 0 to 6
      invariant On(g, w') && w' == Run(g, cuts, w, dir)
    {
      RunUnfolds(g, cuts, w, dir);
      StepIdle(g, cuts, w', dir);
      if g.Communicating(dir) { w' := MigrateDirection(g, cuts, dir, w'); }
    }
    MigrationConserves(g, cuts, w, 6);
    if SmallMoves(g, cuts, w) { AllDelivered(g, cuts, w); }
  }
}
