/** Particles and bonded groups migrate together: in every direction step the groups are handed on first, then the
    particles. The tags that a rank owns after the particle step are those that the group step counts on. */
module WholeMigration {
  import opened Torus
  import opened Vectors
  import opened Domain
  import opened Migration
  import opened GroupMarks
  import GroupStep
  import GroupMigration

  // ---------- tags ----------

  function TagsOf(s: seq<Particle>): set<nat> { set p | p in s :: p.tag }

  function Owned(w: Owners): (r: Particles)
    ensures r.Keys == w.Keys
  {
    map q | q in w :: TagsOf(w[q])
  }

  function LeavingTags(g: Grid, cuts: Cuts, w: Owners, d: Dir): (r: Particles)
    requires CutFor(g, cuts) && On(g, w)
    ensures r.Keys == w.Keys
  {
    map q | q in w :: TagsOf(Leaving(g, cuts, q, d, w[q]))
  }

  function MoveOf(g: Grid, cuts: Cuts, w: Owners, d: Dir): Move
    requires CutFor(g, cuts) && On(g, w)
  {
    Move(g, d, Owned(w), LeavingTags(g, cuts, w, d))
  }

  ghost predicate NoTagTwice(s: seq<Particle>) { forall i, j :: 0 <= i < j < |s| ==> s[i].tag != s[j].tag }

  /** No tag is held twice, by one rank or by two. */
  ghost predicate TagsUnique(w: Owners) { (forall q :: q in w ==> NoTagTwice(w[q])) && Disjoint(Owned(w)) }

  lemma TagOf(s: seq<Particle>, t: nat)
    ensures t in TagsOf(s) <==> exists i :: 0 <= i < |s| && s[i].tag == t
  {
    if t in TagsOf(s) {
      var p :| p in s && p.tag == t;
      var i :| 0 <= i < |s| && s[i] == p;
    }
  }

  lemma TagsConcat(a: seq<Particle>, b: seq<Particle>)
    ensures TagsOf(a + b) == TagsOf(a) + TagsOf(b)
  {
    forall t ensures t in TagsOf(a + b) <==> t in TagsOf(a) + TagsOf(b) {
      if t in TagsOf(a + b) { var p :| p in a + b && p.tag == t; }
      if t in TagsOf(a) { var p :| p in a && p.tag == t; assert p in a + b; }
      if t in TagsOf(b) { var p :| p in b && p.tag == t; assert p in a + b; }
    }
  }

  lemma TagsArrive(g: Grid, cuts: Cuts, q: Pos, s: seq<Particle>)
    requires g.Has(q) && CutFor(g, cuts)
    ensures TagsOf(ArriveAll(g, cuts, q, s)) == TagsOf(s)
  {
    hide CutFor, TagsOf;
    var r := ArriveAll(g, cuts, q, s);
    assert forall i :: 0 <= i < |s| ==> r[i].tag == s[i].tag;
    forall t ensures t in TagsOf(r) <==> t in TagsOf(s) {
      TagOf(r, t);
      TagOf(s, t);
    }
  }

  /** What stays and what leaves are the particles of the rank, and share no tag. */
  lemma {:induction false} SplitTags(g: Grid, cuts: Cuts, q: Pos, d: Dir, s: seq<Particle>)
    requires g.Has(q) && CutFor(g, cuts) && NoTagTwice(s)
    ensures NoTagTwice(Staying(g, cuts, q, d, s)) && NoTagTwice(Leaving(g, cuts, q, d, s))
    ensures TagsOf(Staying(g, cuts, q, d, s)) !! TagsOf(Leaving(g, cuts, q, d, s))
    ensures TagsOf(Staying(g, cuts, q, d, s)) + TagsOf(Leaving(g, cuts, q, d, s)) == TagsOf(s)
  {
    hide CutFor, Leaves, TagsOf;
    if s == [] {
      NoTags(s);
    } else {
      var init, last := s[..|s| - 1], s[|s| - 1];
      SplitTags(g, cuts, q, d, init);
      assert s == init + [last];
      LastIsNew(s);
      var stay, leave := Staying(g, cuts, q, d, init), Leaving(g, cuts, q, d, init);
      TagsConcat(init, [last]);
      TagsConcat(stay, [last]);
      TagsConcat(leave, [last]);
      assert stay + [] == stay && leave + [] == leave;
      if Leaves(g, cuts, q, d, last) { AddNew(leave, last); } else { AddNew(stay, last); }
    }
  }

  lemma NoTags(s: seq<Particle>)
    requires s == []
    ensures TagsOf(s) == {}
  {
  }

  lemma LastIsNew(s: seq<Particle>)
    requires s != [] && NoTagTwice(s)
    ensures NoTagTwice(s[..|s| - 1]) && TagsOf([s[|s| - 1]]) == {s[|s| - 1].tag}
    ensures s[|s| - 1].tag !in TagsOf(s[..|s| - 1])
  {
    TagOf(s[..|s| - 1], s[|s| - 1].tag);
  }

  lemma AddNew(s: seq<Particle>, p: Particle)
    requires NoTagTwice(s) && p.tag !in TagsOf(s)
    ensures NoTagTwice(s + [p])
  {
    TagOf(s, p.tag);
  }

  lemma Joined(a: seq<Particle>, b: seq<Particle>)
    requires NoTagTwice(a) && NoTagTwice(b) && TagsOf(a) !! TagsOf(b)
    ensures NoTagTwice(a + b)
  {
    var s := a + b;
    forall i, j | 0 <= i < j < |s| ensures s[i].tag != s[j].tag {
      if i < |a| <= j {
        assert s[i] == a[i] && s[j] == b[j - |a|];
        assert a[i].tag in TagsOf(a) && b[j - |a|].tag in TagsOf(b);
      }
    }
  }

  // ---------- one step ----------

  /** A grid that the ranks' unsigned arithmetic can hold. */
  predicate Addressable(g: Grid) { g.Valid() && g.w * g.h * g.d < GroupMigration.WORD - 1 }

  lemma LeavingOwned(g: Grid, cuts: Cuts, w: Owners, d: Dir, q: Pos)
    requires CutFor(g, cuts) && On(g, w) && TagsUnique(w) && q in w
    ensures LeavingTags(g, cuts, w, d)[q] <= Owned(w)[q]
  {
    hide CutFor, TagsOf, Disjoint;
    SplitTags(g, cuts, q, d, w[q]);
  }

  lemma MoveIsValid(g: Grid, cuts: Cuts, w: Owners, d: Dir)
    requires CutFor(g, cuts) && On(g, w) && TagsUnique(w) && g.Communicating(d) && Addressable(g)
    ensures MoveOf(g, cuts, w, d).Valid()
  {
    hide CutFor, TagsOf, Disjoint, NoTagTwice;
    forall q | q in w ensures LeavingTags(g, cuts, w, d)[q] <= Owned(w)[q] { LeavingOwned(g, cuts, w, d, q); }
  }

  /** What rank q owns after the particle step is what the group step takes it to own. */
  lemma OwnedAfterAt(g: Grid, cuts: Cuts, w: Owners, d: Dir, q: Pos)
    requires CutFor(g, cuts) && On(g, w) && TagsUnique(w) && g.Communicating(d) && Addressable(g) && q in w
    requires MoveOf(g, cuts, w, d).Valid()
    ensures TagsOf(StepAt(g, cuts, w, d, q)) == OwnAfter(MoveOf(g, cuts, w, d), q)
    ensures NoTagTwice(StepAt(g, cuts, w, d, q))
  {
    hide CutFor, TagsOf, NoTagTwice, Neighbor, Opposite, Arrive, Staying, Leaving, ArriveAll;
    PartnerOf(g, w, d, q);
    UpstreamIsOther(g, q, d);
    var s := Neighbor(g, q, Opposite(d));
    var stay, go, come := Staying(g, cuts, q, d, w[q]), Leaving(g, cuts, q, d, w[q]), Leaving(g, cuts, s, d, w[s]);
    SplitTags(g, cuts, q, d, w[q]);
    SplitTags(g, cuts, s, d, w[s]);
    var arrived := ArriveAll(g, cuts, q, come);
    TagsArrive(g, cuts, q, come);
    TagsConcat(stay, arrived);
    ArrivedDistinct(g, cuts, q, come);
    OtherRank(w, q, s);
    Joined(stay, arrived);
  }

  lemma UpstreamIsOther(g: Grid, q: Pos, d: Dir)
    requires g.Has(q) && g.Communicating(d)
    ensures Neighbor(g, q, Opposite(d)) != q
  {
    hide Neighbor;
    NeighborPairing(g, q, Opposite(d));
  }

  lemma OtherRank(w: Owners, q: Pos, s: Pos)
    requires q in w && s in w && Disjoint(Owned(w)) && s != q
    ensures TagsOf(w[q]) !! TagsOf(w[s])
  {
    hide TagsOf;
    assert Owned(w)[q] == TagsOf(w[q]) && Owned(w)[s] == TagsOf(w[s]);
  }

  lemma ArrivedDistinct(g: Grid, cuts: Cuts, q: Pos, s: seq<Particle>)
    requires g.Has(q) && CutFor(g, cuts) && NoTagTwice(s)
    ensures NoTagTwice(ArriveAll(g, cuts, q, s))
  {
    hide CutFor;
  }

  /** The group step's owners after a move are the tags that the particle step leaves on every rank. */
  lemma MoveFollows(g: Grid, cuts: Cuts, w: Owners, d: Dir)
    requires CutFor(g, cuts) && On(g, w) && TagsUnique(w) && g.Communicating(d) && Addressable(g)
    ensures MoveOf(g, cuts, w, d).Valid() && MoveOf(g, cuts, w, d).After() == Owned(Step(g, cuts, w, d))
    ensures TagsUnique(Step(g, cuts, w, d))
  {
    hide CutFor, TagsOf, NoTagTwice, StepAt, OwnAfter, Disjoint;
    MoveIsValid(g, cuts, w, d);
    var mv: Move, w': Owners := MoveOf(g, cuts, w, d), Step(g, cuts, w, d);
    forall q | q in w ensures TagsOf(w'[q]) == OwnAfter(mv, q) && NoTagTwice(w'[q]) { OwnedAfterAt(g, cuts, w, d, q); }
    SameOwners(mv, w, w');
    GroupStep.OneOwnerAfter(mv);
  }

  lemma SameOwners(mv: Move, w: Owners, w': Owners)
    requires mv.Valid() && mv.own.Keys == w.Keys == w'.Keys && forall q :: q in w ==> TagsOf(w'[q]) == OwnAfter(mv, q)
    ensures mv.After() == Owned(w')
  {
    hide TagsOf, OwnAfter;
  }

  // ---------- one direction for groups and particles ----------

  /** The group is routed in this direction step. */
  ghost predicate RoutedStep(g: Grid, cuts: Cuts, w: Owners, gm: Members, t: nat, d: Dir)
    requires CutFor(g, cuts) && On(g, w) && t in gm
  {
    g.Communicating(d) ==> MoveOf(g, cuts, w, d).Valid() && GroupStep.Routed(MoveOf(g, cuts, w, d), gm, t)
  }

  /** No member of the group goes astray and every mark of it has a neighbour to go to. */
  ghost predicate FollowedStep(g: Grid, cuts: Cuts, w: Owners, gm: Members, t: nat, d: Dir)
    requires CutFor(g, cuts) && On(g, w) && t in gm
  {
    g.Communicating(d) ==> MoveOf(g, cuts, w, d).Valid() && GroupStep.Followed(MoveOf(g, cuts, w, d), gm, t)
  }

  /** What a direction step makes of one group, whatever the others do. */
  ghost predicate StepKeeps(g: Grid, cuts: Cuts, w: Owners, gm: Members, s: Stores, s': Stores, t: nat, d: Dir)
    requires CutFor(g, cuts) && On(g, w) && t in gm && s.Keys == w.Keys && s'.Keys == w.Keys
    requires Step(g, cuts, w, d).Keys == w.Keys
  {
    HeldFor(gm, s, Owned(w), t) ==>
      && (HeldFor(gm, s', Owned(Step(g, cuts, w, d)), t) <==> RoutedStep(g, cuts, w, gm, t, d))
      && (RanksExact(s, Owned(w), t) && FollowedStep(g, cuts, w, gm, t, d) ==>
            RanksExact(s', Owned(Step(g, cuts, w, d)), t))
  }

  lemma StepKeys(g: Grid, cuts: Cuts, w: Owners, d: Dir)
    requires CutFor(g, cuts) && On(g, w)
    ensures Step(g, cuts, w, d).Keys == w.Keys
  {
    hide StepAt;
  }

  ghost predicate AllKept(g: Grid, cuts: Cuts, w: Owners, gm: Members, s: Stores, s': Stores, d: Dir)
    requires CutFor(g, cuts) && On(g, w)
  {
    && s.Keys == w.Keys && s'.Keys == w.Keys && Step(g, cuts, w, d).Keys == w.Keys
    && forall t :: t in gm ==> StepKeeps(g, cuts, w, gm, s, s', t, d)
  }

  lemma GroupsKept(g: Grid, cuts: Cuts, w: Owners, gm: Members, kinds: map<nat, nat>, s: Stores, s': Stores, d: Dir)
    requires CutFor(g, cuts) && On(g, w) && TagsUnique(w) && Addressable(g) && g.Communicating(d)
    requires MoveOf(g, cuts, w, d).Valid() && MoveOf(g, cuts, w, d).After() == Owned(Step(g, cuts, w, d))
    requires s.Keys == w.Keys && GroupStep.StepDone(MoveOf(g, cuts, w, d), gm, kinds, s, s')
    ensures AllKept(g, cuts, w, gm, s, s', d)
  {
    hide CutFor, On, TagsUnique, StepKeeps, Step, Owned, LeavingTags, GroupStep.GroupKept, SoundOn, GroupStep.Typed,
      OwnAfter;
    StepKeys(g, cuts, w, d);
    forall t | t in gm ensures StepKeeps(g, cuts, w, gm, s, s', t, d) {
      assert GroupStep.GroupKept(MoveOf(g, cuts, w, d), gm, s, s', t);
      StepKeepsGroup(g, cuts, w, gm, s, s', t, d);
    }
  }

  lemma StepKeepsGroup(g: Grid, cuts: Cuts, w: Owners, gm: Members, s: Stores, s': Stores, t: nat, d: Dir)
    requires CutFor(g, cuts) && On(g, w) && g.Communicating(d) && t in gm
    requires s.Keys == w.Keys && s'.Keys == w.Keys && Step(g, cuts, w, d).Keys == w.Keys
    requires MoveOf(g, cuts, w, d).Valid() && MoveOf(g, cuts, w, d).After() == Owned(Step(g, cuts, w, d))
    requires GroupStep.GroupKept(MoveOf(g, cuts, w, d), gm, s, s', t)
    ensures StepKeeps(g, cuts, w, gm, s, s', t, d)
  {
    hide CutFor, On, HeldFor, RanksExact, GroupStep.Routed, GroupStep.Followed, Step, Owned, LeavingTags, OwnAfter;
  }

  /** One direction for groups and particles. */
  method MigrateBoth(g: Grid, cuts: Cuts, d: Dir, w: Owners, ghost gm: Members, ghost kinds: map<nat, nat>, s: Stores)
    returns (w': Owners, s': Stores)
    requires CutFor(g, cuts) && On(g, w) && TagsUnique(w) && Addressable(g) && g.Communicating(d)
    requires Sound(gm, s, Owned(w)) && GroupStep.Typed(kinds, s)
    ensures w' == Step(g, cuts, w, d) && TagsUnique(w')
    ensures Sound(gm, s', Owned(w')) && GroupStep.Typed(kinds, s') && AllKept(g, cuts, w, gm, s, s', d)
  {
    hide CutFor, On, TagsUnique, SoundOn, GroupStep.Typed, GroupStep.StepDone, Step, TagsOf, LeavingTags, AllKept;
    MoveFollows(g, cuts, w, d);
    s' := GroupStep.MigrateGroups(MoveOf(g, cuts, w, d), gm, kinds, s);
    GroupStep.StepIsSound(MoveOf(g, cuts, w, d), gm, kinds, s, s');
    GroupsKept(g, cuts, w, gm, kinds, s, s', d);
    w' := MigrateDirection(g, cuts, d, w);
  }

  lemma IdleKeeps(g: Grid, cuts: Cuts, w: Owners, gm: Members, s: Stores, d: Dir)
    requires CutFor(g, cuts) && On(g, w) && !g.Communicating(d) && s.Keys == w.Keys
    ensures AllKept(g, cuts, w, gm, s, s, d)
  {
    hide CutFor, On, HeldFor, RanksExact, Step, Owned;
    StepIdle(g, cuts, w, d);
  }

  // ---------- the six steps ----------

  /** The stores along the first k steps: sound, and each group kept as every step keeps it. */
  ghost predicate WholeDone(g: Grid, cuts: Cuts, w: Owners, gm: Members, trace: seq<Stores>, k: nat)
    requires CutFor(g, cuts) && On(g, w) && k <= 6 && |trace| == k + 1
  {
    && (forall i :: 0 <= i <= k ==> Sound(gm, trace[i], Owned(Run(g, cuts, w, i))))
    && (forall i: Dir :: i < k ==> AllKept(g, cuts, Run(g, cuts, w, i), gm, trace[i], trace[i + 1], i))
  }

  lemma WholeExtends(g: Grid, cuts: Cuts, w: Owners, gm: Members, trace: seq<Stores>, d: Dir, s: Stores)
    requires CutFor(g, cuts) && On(g, w) && |trace| == d + 1 && WholeDone(g, cuts, w, gm, trace, d)
    requires Sound(gm, s, Owned(Run(g, cuts, w, d + 1)))
    requires AllKept(g, cuts, Run(g, cuts, w, d), gm, trace[d], s, d)
    ensures WholeDone(g, cuts, w, gm, trace + [s], d + 1)
  {
    hide CutFor, Sound, AllKept, Run, Owned, On;
    var next := trace + [s];
    forall i | 0 <= i <= d + 1 ensures Sound(gm, next[i], Owned(Run(g, cuts, w, i))) {
      if i <= d { assert next[i] == trace[i]; }
    }
    forall i: Dir | i < d + 1 ensures AllKept(g, cuts, Run(g, cuts, w, i), gm, next[i], next[i + 1], i) {
      if i < d { assert next[i] == trace[i] && next[i + 1] == trace[i + 1]; }
    }
  }

  ghost predicate RoutedSteps(g: Grid, cuts: Cuts, w: Owners, gm: Members, t: nat)
    requires CutFor(g, cuts) && On(g, w) && t in gm
  {
    forall d: Dir :: RoutedStep(g, cuts, Run(g, cuts, w, d), gm, t, d)
  }

  ghost predicate FollowedSteps(g: Grid, cuts: Cuts, w: Owners, gm: Members, t: nat)
    requires CutFor(g, cuts) && On(g, w) && t in gm
  {
    forall d: Dir :: FollowedStep(g, cuts, Run(g, cuts, w, d), gm, t, d)
  }

  lemma FollowedIsRouted(g: Grid, cuts: Cuts, w: Owners, gm: Members, t: nat, d: Dir)
    requires CutFor(g, cuts) && On(g, w) && t in gm && FollowedStep(g, cuts, w, gm, t, d)
    ensures RoutedStep(g, cuts, w, gm, t, d)
  {
    hide CutFor, On, Owned, LeavingTags, GroupStep.Routed, Straight, AffectedClose;
    if g.Communicating(d) { GroupStep.StraightIsRouted(MoveOf(g, cuts, w, d), gm, t); }
  }

  /** What step d makes of a group. */
  lemma KeptAt(g: Grid, cuts: Cuts, w: Owners, gm: Members, trace: seq<Stores>, t: nat, d: Dir)
    requires CutFor(g, cuts) && On(g, w) && |trace| == 7 && WholeDone(g, cuts, w, gm, trace, 6) && t in gm
    ensures var v, v' := Run(g, cuts, w, d), Run(g, cuts, w, d + 1);
            && trace[d].Keys == Owned(v).Keys && trace[d + 1].Keys == Owned(v').Keys
            && (HeldFor(gm, trace[d], Owned(v), t) ==>
                  && (HeldFor(gm, trace[d + 1], Owned(v'), t) <==> RoutedStep(g, cuts, v, gm, t, d))
                  && (RanksExact(trace[d], Owned(v), t) && FollowedStep(g, cuts, v, gm, t, d) ==>
                        RanksExact(trace[d + 1], Owned(v'), t)))
  {
    hide CutFor, SoundOn, Run, Step, On, HeldFor, RanksExact, RoutedStep, FollowedStep, TagsOf;
    RunUnfolds(g, cuts, w, d);
    assert Sound(gm, trace[d], Owned(Run(g, cuts, w, d))) && Sound(gm, trace[d + 1], Owned(Run(g, cuts, w, d + 1)));
    assert AllKept(g, cuts, Run(g, cuts, w, d), gm, trace[d], trace[d + 1], d);
  }

  ghost predicate HeldAt(g: Grid, cuts: Cuts, w: Owners, gm: Members, s: Stores, t: nat, k: nat)
    requires CutFor(g, cuts) && On(g, w) && t in gm && k <= 6
  {
    s.Keys == Owned(Run(g, cuts, w, k)).Keys && HeldFor(gm, s, Owned(Run(g, cuts, w, k)), t)
  }

  lemma {:induction false} RoutedHolds(g: Grid, cuts: Cuts, w: Owners, gm: Members, trace: seq<Stores>, t: nat, k: nat)
    requires CutFor(g, cuts) && On(g, w) && |trace| == 7 && WholeDone(g, cuts, w, gm, trace, 6) && t in gm
    requires HeldAt(g, cuts, w, gm, trace[0], t, 0) && RoutedSteps(g, cuts, w, gm, t) && k <= 6
    ensures HeldAt(g, cuts, w, gm, trace[k], t, k)
    decreases k
  {
    hide CutFor, WholeDone, Run, On, HeldFor, RanksExact, RoutedStep, FollowedStep, Owned;
    if k > 0 {
      RoutedHolds(g, cuts, w, gm, trace, t, k - 1);
      KeptAt(g, cuts, w, gm, trace, t, k - 1);
    }
  }

  /** A group held rightly at the start is held rightly after each of the six steps exactly when it is routed in all. */
  lemma HeldThroughoutExactly(g: Grid, cuts: Cuts, w: Owners, gm: Members, trace: seq<Stores>, t: nat)
    requires CutFor(g, cuts) && On(g, w) && |trace| == 7 && WholeDone(g, cuts, w, gm, trace, 6) && t in gm
    requires HeldAt(g, cuts, w, gm, trace[0], t, 0)
    ensures (forall k :: 0 <= k <= 6 ==> HeldAt(g, cuts, w, gm, trace[k], t, k)) <==> RoutedSteps(g, cuts, w, gm, t)
  {
    hide CutFor, WholeDone, Run, On, HeldFor, RanksExact, RoutedStep, FollowedStep, Owned;
    if RoutedSteps(g, cuts, w, gm, t) {
      forall k | 0 <= k <= 6 ensures HeldAt(g, cuts, w, gm, trace[k], t, k) {
        RoutedHolds(g, cuts, w, gm, trace, t, k);
      }
    }
    if forall k :: 0 <= k <= 6 ==> HeldAt(g, cuts, w, gm, trace[k], t, k) {
      forall d: Dir ensures RoutedStep(g, cuts, Run(g, cuts, w, d), gm, t, d) {
        assert HeldAt(g, cuts, w, gm, trace[d], t, d) && HeldAt(g, cuts, w, gm, trace[d + 1], t, d + 1);
        KeptAt(g, cuts, w, gm, trace, t, d);
      }
    }
  }

  lemma {:induction false} FollowedKeeps(g: Grid, cuts: Cuts, w: Owners, gm: Members, trace: seq<Stores>, t: nat,
                                         k: nat)
    requires CutFor(g, cuts) && On(g, w) && |trace| == 7 && WholeDone(g, cuts, w, gm, trace, 6) && t in gm
    requires HeldAt(g, cuts, w, gm, trace[0], t, 0) && RanksExact(trace[0], Owned(Run(g, cuts, w, 0)), t)
    requires FollowedSteps(g, cuts, w, gm, t) && k <= 6
    ensures HeldAt(g, cuts, w, gm, trace[k], t, k) && RanksExact(trace[k], Owned(Run(g, cuts, w, k)), t)
    decreases k
  {
    hide CutFor, WholeDone, Run, On, HeldFor, RanksExact, RoutedStep, FollowedStep, Owned;
    if k > 0 {
      FollowedKeeps(g, cuts, w, gm, trace, t, k - 1);
      FollowedIsRouted(g, cuts, Run(g, cuts, w, k - 1), gm, t, k - 1);
      KeptAt(g, cuts, w, gm, trace, t, k - 1);
    }
  }

  /** What the six steps make of one group, whatever the others do. */
  ghost predicate GroupKept(g: Grid, cuts: Cuts, w: Owners, gm: Members, trace: seq<Stores>, t: nat)
    requires CutFor(g, cuts) && On(g, w) && |trace| == 7 && t in gm
  {
    HeldAt(g, cuts, w, gm, trace[0], t, 0) ==>
      && ((forall k :: 0 <= k <= 6 ==> HeldAt(g, cuts, w, gm, trace[k], t, k)) <==> RoutedSteps(g, cuts, w, gm, t))
      && (RanksExact(trace[0], Owned(w), t) && FollowedSteps(g, cuts, w, gm, t) ==>
            RanksExact(trace[6], Owned(Run(g, cuts, w, 6)), t))
  }

  lemma WholeKept(g: Grid, cuts: Cuts, w: Owners, gm: Members, trace: seq<Stores>, t: nat)
    requires CutFor(g, cuts) && On(g, w) && |trace| == 7 && WholeDone(g, cuts, w, gm, trace, 6) && t in gm
    ensures GroupKept(g, cuts, w, gm, trace, t)
  {
    hide CutFor, WholeDone, Run, On, HeldAt, RanksExact, RoutedStep, FollowedSteps, Owned;
    RunUnfolds(g, cuts, w, 0);
    if HeldAt(g, cuts, w, gm, trace[0], t, 0) {
      HeldThroughoutExactly(g, cuts, w, gm, trace, t);
      if RanksExact(trace[0], Owned(w), t) && FollowedSteps(g, cuts, w, gm, t) {
        FollowedKeeps(g, cuts, w, gm, trace, t, 6);
      }
    }
  }

  /** Migration of particles and bonded groups, from any sound stores. No particle is lost or duplicated; if every
      overshoot is small each ends on the one rank whose box holds it. Each group on its own, if it is held rightly at
      the start, is held rightly after every step exactly when it is routed in every step. */
  method MigrateAll(g: Grid, cuts: Cuts, w: Owners, ghost gm: Members, ghost kinds: map<nat, nat>, s: Stores)
    returns (w': Owners, s': Stores, ghost trace: seq<Stores>)
    requires CutFor(g, cuts) && On(g, w) && TagsUnique(w) && Addressable(g)
    requires Sound(gm, s, Owned(w)) && GroupStep.Typed(kinds, s)
    ensures On(g, w') && w' == Run(g, cuts, w, 6) && Everything(w') == Everything(w)
    ensures SmallMoves(g, cuts, w) ==> AtHome(g, cuts, w')
    ensures TagsUnique(w') && Sound(gm, s', Owned(w')) && GroupStep.Typed(kinds, s')
    ensures |trace| == 7 && trace[0] == s && trace[6] == s'
    ensures forall t :: t in gm ==> GroupKept(g, cuts, w, gm, trace, t)
  {
    hide Run, Step, CutFor, On, TagsUnique, Sound, GroupStep.Typed, Owned, Everything, SmallMoves, AtHome, AllKept,
      GroupKept;
    w', s', trace := w, s, [s];
    RunUnfolds(g, cuts, w, 0);
    for dir := 0 to 6
      invariant On(g, w') && w' == Run(g, cuts, w, dir) && TagsUnique(w')
      invariant Sound(gm, s', Owned(w')) && GroupStep.Typed(kinds, s')
      invariant |trace| == dir + 1 && trace[0] == s && trace[dir] == s' && WholeDone(g, cuts, w, gm, trace, dir)
    {
      RunUnfolds(g, cuts, w, dir);
      StepIdle(g, cuts, w', dir);
      ghost var before := s';
      if g.Communicating(dir) {
        w', s' := MigrateBoth(g, cuts, dir, w', gm, kinds, s');
      } else {
        SoundKeys(gm, s', w');
        IdleKeeps(g, cuts, w', gm, s', dir);
      }
      WholeExtends(g, cuts, w, gm, trace, dir, s');
      trace := trace + [s'];
    }
    forall t | t in gm ensures GroupKept(g, cuts, w, gm, trace, t) { WholeKept(g, cuts, w, gm, trace, t); }
    MigrationConserves(g, cuts, w, 6);
    if SmallMoves(g, cuts, w) { AllDelivered(g, cuts, w); }
  }

  lemma SoundKeys(gm: Members, s: Stores, w: Owners)
    requires Sound(gm, s, Owned(w))
    ensures s.Keys == w.Keys
  {
    hide SoundOn;
  }

  // ---------- when no member goes astray ----------

  /** On the first slab the coordinate is not below the box, nor where the wrap of that slab takes it below. */
  predicate ClearAlong(c: seq<real>, i: nat, y: real)
    requires |c| >= 3
  {
    i == 0 ==> 0.0 <= y < 1.0 + BoxShift(c, 0)
  }

  /** Along the axes whose downward step is still to come the particle does not leave the box downward. */
  predicate Clear(g: Grid, cuts: Cuts, q: Pos, v: Vec, k: nat)
    requires g.Has(q) && CutFor(g, cuts)
  {
    && (g.w != 1 && k <= 1 ==> ClearAlong(cuts.x, q.x, v.x))
    && (g.h != 1 && k <= 3 ==> ClearAlong(cuts.y, q.y, v.y))
    && (g.d != 1 && k <= 5 ==> ClearAlong(cuts.z, q.z, v.z))
  }

  /** After k steps every particle among the members is near its slab and clear. */
  ghost predicate MembersClear(g: Grid, cuts: Cuts, w: Owners, members: seq<nat>, k: nat)
    requires CutFor(g, cuts) && On(g, w)
  {
    forall q, i :: q in w && 0 <= i < |w[q]| && w[q][i].tag in members ==>
      SettledAll(g, cuts, q, w[q][i].pos, k) && Clear(g, cuts, q, w[q][i].pos, k)
  }

  lemma ClearStays(c: seq<real>, i: nat, y: real)
    requires Slabs(c) && |c| >= 3 && i + 1 < |c| && ClearAlong(c, i, y)
    ensures ClearAlong(c, i, WrapCoord(c, i, y))
  {
    assert Width(c, |c| - 2) > 2.0 * TOL;
  }

  lemma InsideIsClear(c: seq<real>, i: nat, y: real)
    requires Slabs(c) && |c| >= 3 && i + 1 < |c| && Inside(c, i, y)
    ensures ClearAlong(c, i, y)
  {
    CutsBounds(c, i);
    if i == 0 { CutsIncrease(c, 1, |c| - 2); }
    assert Width(c, |c| - 2) > 2.0 * TOL;
  }

  lemma HopClear(g: Grid, cuts: Cuts, s: Pos, p: Particle, d: Dir)
    requires g.Has(s) && CutFor(g, cuts) && g.Communicating(d) && Leaves(g, cuts, s, d, p)
    requires SettledAll(g, cuts, s, p.pos, d) && Clear(g, cuts, s, p.pos, d)
    ensures Clear(g, cuts, Neighbor(g, s, d), Arrive(g, cuts, Neighbor(g, s, d), p).pos, d + 1)
  {
    hide ClearAlong, Slabs, Near, Inside, WrapCoord;
    var q := Neighbor(g, s, d);
    HopClearAxis(g, cuts, s, p, d, 0);
    HopClearAxis(g, cuts, s, p, d, 1);
    HopClearAxis(g, cuts, s, p, d, 2);
  }

  lemma HopClearAxis(g: Grid, cuts: Cuts, s: Pos, p: Particle, d: Dir, a: Axis)
    requires g.Has(s) && CutFor(g, cuts) && g.Communicating(d) && Leaves(g, cuts, s, d, p)
    requires Settled(g, cuts, s, p.pos, d, d / 2)
    requires g.Extent(a) != 1 && d <= 2 * a + 1 ==> ClearAlong(cuts.At(a), s.At(a), p.pos.At(a))
    ensures g.Extent(a) != 1 && d + 1 <= 2 * a + 1 ==>
              var q := Neighbor(g, s, d); ClearAlong(cuts.At(a), q.At(a), Arrive(g, cuts, q, p).pos.At(a))
  {
    hide ClearAlong, Slabs, Near, Inside, WrapCoord;
    var q := Neighbor(g, s, d);
    var c, y := cuts.At(a), p.pos.At(a);
    assert Slabs(c) && |c| == g.Extent(a) + 1;
    assert Arrive(g, cuts, q, p).pos.At(a) == WrapCoord(c, q.At(a), y);
    if g.Extent(a) != 1 && d + 1 <= 2 * a + 1 {
      if a == d / 2 {
        SentAlong(c, s.At(a), y, d % 2 == 0);
        InsideIsClear(c, q.At(a), WrapCoord(c, q.At(a), y));
      } else {
        ClearStays(c, s.At(a), y);
      }
    }
  }

  lemma StayClear(g: Grid, cuts: Cuts, q: Pos, v: Vec, k: nat)
    requires g.Has(q) && CutFor(g, cuts) && Clear(g, cuts, q, v, k)
    ensures Clear(g, cuts, q, v, k + 1)
  {
    hide ClearAlong, CutFor;
  }

  lemma RankStaysClear(g: Grid, cuts: Cuts, w: Owners, members: seq<nat>, d: Dir, q: Pos, i: nat)
    requires CutFor(g, cuts) && On(g, w) && MembersClear(g, cuts, w, members, d)
    requires g.Communicating(d) && q in w && i < |StepAt(g, cuts, w, d, q)|
    requires StepAt(g, cuts, w, d, q)[i].tag in members
    ensures SettledAll(g, cuts, q, StepAt(g, cuts, w, d, q)[i].pos, d + 1)
    ensures Clear(g, cuts, q, StepAt(g, cuts, w, d, q)[i].pos, d + 1)
  {
    hide CutFor, SettledAll, Staying, Leaving, Neighbor, Clear, Leaves, WrapVec;
    PartnerOf(g, w, d, q);
    var s := Neighbor(g, q, Opposite(d));
    var stay, leave := Staying(g, cuts, q, d, w[q]), Leaving(g, cuts, s, d, w[s]);
    if i < |stay| {
      StayingFrom(g, cuts, q, d, w[q], stay[i]);
      var j :| 0 <= j < |w[q]| && w[q][j] == stay[i];
      StaySettles(g, cuts, q, stay[i], d);
      StayClear(g, cuts, q, stay[i].pos, d);
    } else {
      var p := leave[i - |stay|];
      StayingFrom(g, cuts, s, d, w[s], p);
      var j :| 0 <= j < |w[s]| && w[s][j] == p;
      ArrivalSettles(g, cuts, s, p, d);
      HopClear(g, cuts, s, p, d);
    }
  }

  lemma StepClear(g: Grid, cuts: Cuts, w: Owners, members: seq<nat>, d: Dir)
    requires CutFor(g, cuts) && On(g, w) && MembersClear(g, cuts, w, members, d)
    ensures MembersClear(g, cuts, Step(g, cuts, w, d), members, d + 1)
  {
    hide CutFor, StepAt, Clear, SettledAll;
    var w': Owners := Step(g, cuts, w, d);
    forall q, i | q in w' && 0 <= i < |w'[q]| && w'[q][i].tag in members
      ensures SettledAll(g, cuts, q, w'[q][i].pos, d + 1) && Clear(g, cuts, q, w'[q][i].pos, d + 1)
    {
      if g.Communicating(d) {
        RankStaysClear(g, cuts, w, members, d, q, i);
      } else {
        IdleSettles(g, cuts, q, w[q][i].pos, d);
        StayClear(g, cuts, q, w[q][i].pos, d);
      }
    }
  }

  /** A particle that leaves its first slab downward is not clear. */
  lemma LeavesUnclear(g: Grid, cuts: Cuts, q: Pos, d: Dir, p: Particle)
    requires g.Has(q) && CutFor(g, cuts) && g.Communicating(d) && d % 2 == 1 && q.At(d / 2) == 0
    requires Leaves(g, cuts, q, d, p)
    ensures !Clear(g, cuts, q, p.pos, d)
  {
  }

  lemma ClearIsStraightAt(g: Grid, cuts: Cuts, w: Owners, gm: Members, d: Dir, t: nat, q: Pos)
    requires CutFor(g, cuts) && On(g, w) && t in gm && MembersClear(g, cuts, w, gm[t], d) && g.Communicating(d)
    requires q in w && Touches(gm[t], LeavingTags(g, cuts, w, d)[q])
    ensures !(d % 2 == 1 && q.At(d / 2) == 0)
  {
    hide CutFor, Leaving, Clear, Leaves, SettledAll;
    var k :| 0 <= k < |gm[t]| && gm[t][k] in LeavingTags(g, cuts, w, d)[q];
    var p :| p in Leaving(g, cuts, q, d, w[q]) && p.tag == gm[t][k];
    StayingFrom(g, cuts, q, d, w[q], p);
    var i :| 0 <= i < |w[q]| && w[q][i] == p;
    assert w[q][i].tag in gm[t];
    if d % 2 == 1 && q.At(d / 2) == 0 { LeavesUnclear(g, cuts, q, d, p); }
  }

  lemma ClearIsStraight(g: Grid, cuts: Cuts, w: Owners, gm: Members, t: nat, d: Dir)
    requires CutFor(g, cuts) && On(g, w) && t in gm && MembersClear(g, cuts, w, gm[t], d) && g.Communicating(d)
    ensures Straight(MoveOf(g, cuts, w, d), gm, t)
  {
    hide CutFor, MembersClear, LeavingTags, Touches;
    var mv := MoveOf(g, cuts, w, d);
    forall q | q in mv.own && Touches(gm[t], mv.leaving[q]) ensures !GoesAstray(mv, q) {
      ClearIsStraightAt(g, cuts, w, gm, d, t, q);
    }
  }

  lemma {:induction false} RunClear(g: Grid, cuts: Cuts, w: Owners, members: seq<nat>, k: nat)
    requires CutFor(g, cuts) && On(g, w) && k <= 6 && MembersClear(g, cuts, w, members, 0)
    ensures MembersClear(g, cuts, Run(g, cuts, w, k), members, k)
    decreases k
  {
    hide CutFor, MembersClear, Step;
    if k > 0 {
      RunClear(g, cuts, w, members, k - 1);
      StepClear(g, cuts, Run(g, cuts, w, k - 1), members, k - 1);
    }
  }

  lemma {:induction false} RunUnique(g: Grid, cuts: Cuts, w: Owners, k: nat)
    requires CutFor(g, cuts) && On(g, w) && TagsUnique(w) && Addressable(g) && k <= 6
    ensures TagsUnique(Run(g, cuts, w, k))
    decreases k
  {
    hide CutFor, TagsUnique, Step;
    if k > 0 {
      RunUnique(g, cuts, w, k - 1);
      StepUnique(g, cuts, Run(g, cuts, w, k - 1), k - 1);
    }
  }

  lemma StepUnique(g: Grid, cuts: Cuts, w: Owners, d: Dir)
    requires CutFor(g, cuts) && On(g, w) && TagsUnique(w) && Addressable(g)
    ensures TagsUnique(Step(g, cuts, w, d))
  {
    hide CutFor, TagsUnique, Step, Owned, OwnAfter, LeavingTags;
    if g.Communicating(d) { MoveFollows(g, cuts, w, d); } else { StepIdle(g, cuts, w, d); }
  }

  /** A group none of whose members starts out far from its slab or leaving the global box downward is routed in every
      step: so it is held rightly throughout, whatever other groups and particles do. */
  lemma ClearStart(g: Grid, cuts: Cuts, w: Owners, gm: Members, t: nat)
    requires CutFor(g, cuts) && On(g, w) && TagsUnique(w) && Addressable(g)
    requires t in gm && MembersClear(g, cuts, w, gm[t], 0)
    ensures RoutedSteps(g, cuts, w, gm, t)
  {
    hide CutFor, MembersClear, Run, TagsUnique, Owned, LeavingTags, Straight, GroupStep.Routed;
    forall d: Dir ensures RoutedStep(g, cuts, Run(g, cuts, w, d), gm, t, d) {
      RunUnique(g, cuts, w, d);
      RunClear(g, cuts, w, gm[t], d);
      if g.Communicating(d) {
        MoveIsValid(g, cuts, Run(g, cuts, w, d), d);
        ClearIsStraight(g, cuts, Run(g, cuts, w, d), gm, t, d);
        GroupStep.StraightIsRouted(MoveOf(g, cuts, Run(g, cuts, w, d), d), gm, t);
      }
    }
  }
}
