/** One direction step of bonded-group migration over all ranks: particles move to a neighbour and the groups they
    belong to follow. Stores stay sound, whatever happens. Each group on its own, if it was held by exactly the ranks
    that own a member of it, is still held so exactly if its members are sent where they go, which is so unless one
    leaves a rank whose destination is looked up at the wrong place. */
module GroupStep {
  import opened Torus
  import opened Groups
  import opened GroupMigration
  import opened GroupMarks

  type Mail = map<Pos, seq<Group>>

  // ---------- the groups that travel ----------

  /** On every rank the members that leave it have its destination entered as their owner. */
  ghost predicate Directed(mv: Move, a: Stores)
    requires mv.Valid() && a.Keys == mv.own.Keys
  {
    forall q, i: nat, j: nat ::
      (q in a && i < |a[q].groups| && j < |a[q].groups[i].members| && j < |a[q].groups[i].ranks|
       && a[q].groups[i].members[j] in mv.leaving[q]) ==> a[q].groups[i].ranks[j] == Entered(mv, q)
  }

  lemma TakenDirected(mv: Move, gm: Members, w: Stores, marks: Marks, a: Stores)
    requires mv.Valid() && Sound(gm, w, mv.own) && MarksDelivered(mv, w, marks) && AllTaken(mv, gm, w, marks, a)
    ensures Directed(mv, a)
  {
    hide Neighbor, MarkFrom, Entered, Close, MarksDelivered;
    forall q, i: nat, j: nat | q in a && i < |a[q].groups| && j < |a[q].groups[i].members| && j < |a[q].groups[i].ranks|
      && a[q].groups[i].members[j] in mv.leaving[q]
      ensures a[q].groups[i].ranks[j] == Entered(mv, q)
    {
      TakenSame(mv, gm, w, marks, a, q);
      LocalEntry(mv, gm, w, marks, q, a[q], i, j, q);
    }
  }

  /** The group is one that p sends to q. */
  ghost predicate GroupFrom(mv: Move, a: Stores, q: Pos, x: Group, p: Pos)
    requires mv.Valid() && a.Keys == mv.own.Keys && q in a
  {
    && p in a && Sized(a[p]) && Close(mv.g, p, q)
    && exists i :: 0 <= i < |a[p].groups| && x == a[p].groups[i] && SentTo(x, mv.leaving[p], q)
  }

  /** What q receives is held, with a leaving member, by a rank that has q entered as its destination. */
  lemma GroupOrigin(mv: Move, a: Stores, q: Pos, x: Group, p: Pos)
    requires mv.Valid() && a.Keys == mv.own.Keys && q in a && Directed(mv, a)
    ensures GroupFrom(mv, a, q, x, p) ==> q == Entered(mv, p) && x in a[p].groups && Touches(x.members, mv.leaving[p])
  {
    hide Entered, Close;
    if GroupFrom(mv, a, q, x, p) {
      var i :| 0 <= i < |a[p].groups| && x == a[p].groups[i] && SentTo(x, mv.leaving[p], q);
    }
  }

  lemma GroupArrives(mv: Move, a: Stores, q: Pos, x: Group, p: Pos)
    requires mv.Valid() && a.Keys == mv.own.Keys && q in a && Directed(mv, a) && p in a && Sized(a[p])
    requires q == Entered(mv, p) && Close(mv.g, p, q) && x in a[p].groups && Touches(x.members, mv.leaving[p])
    ensures GroupFrom(mv, a, q, x, p)
  {
    hide Entered, Close;
    var i :| 0 <= i < |a[p].groups| && x == a[p].groups[i];
    var j :| 0 <= j < |x.members| && x.members[j] in mv.leaving[p];
    assert x.ranks[j] == q;
  }

  ghost predicate GroupsDelivered(mv: Move, a: Stores, recv: Mail)
    requires mv.Valid() && a.Keys == mv.own.Keys
  {
    recv.Keys == a.Keys && forall q, x :: q in a ==> (x in recv[q] <==> exists p :: GroupFrom(mv, a, q, x, p))
  }

  /** The groups of which a member stays, or none leaves. */
  ghost predicate KeptOf(s: Store, owned: set<Tag>, leaving: set<Tag>, kept: Store)
    requires Exact(s)
  {
    && Exact(kept)
    && (forall t :: t in kept.rtag <==> t in s.rtag && !Goes(s.groups[s.rtag[t]], owned, leaving))
    && (forall t :: t in kept.rtag ==> kept.groups[kept.rtag[t]] == s.groups[s.rtag[t]])
  }

  ghost predicate MergedFrom(kept: Store, recv: seq<Group>, s: Store) {
    MergedTo(kept, recv, Tags(recv), s)
  }

  lemma MergedTags(kept: Store, recv: seq<Group>, s: Store, t: GTag)
    requires MergedFrom(kept, recv, s)
    ensures Exact(s) && (t in s.rtag <==> t in kept.rtag || Carried(recv, t))
  {
    if t in Tags(recv) {
      var x :| x in recv && x.tag == t;
      var k :| 0 <= k < |recv| && recv[k] == x;
    }
  }

  /** Every group of a merged store is a kept or a received one. */
  lemma MergedGroups(a: Store, owned: set<Tag>, leaving: set<Tag>, kept: Store, recv: seq<Group>, s: Store, j: nat)
    requires Exact(a) && KeptOf(a, owned, leaving, kept) && MergedFrom(kept, recv, s) && j < |s.groups|
    ensures s.groups[j] in a.groups || s.groups[j] in recv
  {
    if j < |kept.groups| {
      assert s.groups[j] == kept.groups[j];
      assert kept.groups[j].tag in kept.rtag;
    }
  }

  // ---------- the whole step ----------

  /** The stores a (marks taken in) have been sent from, compacted and merged into r. */
  ghost predicate Exchanged(mv: Move, gm: Members, w: Stores, a: Stores, kept: Stores, recv: Mail, r: Stores)
    requires mv.Valid() && Sound(gm, w, mv.own)
  {
    && a.Keys == w.Keys && kept.Keys == w.Keys && recv.Keys == w.Keys && r.Keys == w.Keys && Directed(mv, a)
    && (forall q :: q in w ==> Exact(a[q]) && SameGroups(w[q], a[q]))
    && GroupsDelivered(mv, a, recv)
    && (forall q :: q in w ==> KeptOf(a[q], mv.own[q], mv.leaving[q], kept[q]))
    && (forall q :: q in w ==> MergedFrom(kept[q], recv[q], r[q]))
  }

  /** A group held rightly stays exactly when the rank keeps one of its members. */
  lemma StaysExactly(mv: Move, gm: Members, w: Stores, a: Store, kept: Store, q: Pos, t: GTag)
    requires mv.Valid() && Sound(gm, w, mv.own) && q in w && Exact(a) && SameGroups(w[q], a)
    requires KeptOf(a, mv.own[q], mv.leaving[q], kept) && t in gm && HeldFor(gm, w, mv.own, t)
    ensures t in kept.rtag <==> Touches(gm[t], mv.own[q] - mv.leaving[q])
  {
    if t in w[q].rtag {
      var x := a.groups[a.rtag[t]];
      assert x.members == gm[t];
      assert HasStaying(x, mv.own[q], mv.leaving[q]) <==> Touches(gm[t], mv.own[q] - mv.leaving[q]);
      var i :| 0 <= i < |gm[t]| && gm[t][i] in mv.own[q];
      assert HasLeaving(x, mv.leaving[q]) || HasStaying(x, mv.own[q], mv.leaving[q]);
    } else if Touches(gm[t], mv.own[q] - mv.leaving[q]) {
      assert Touches(gm[t], mv.own[q]);
    }
  }

  ghost predicate GenuineGroup(gm: Members, x: Group) {
    |x.ranks| == |x.members| && x.tag in gm && x.members == gm[x.tag]
  }

  lemma SameIsGenuine(gm: Members, s: Store, a: Store, x: Group)
    requires SoundOn(gm, s) && SameGroups(s, a) && x in a.groups
    ensures GenuineGroup(gm, x)
  {
  }

  lemma GenuineStore(gm: Members, s: Store)
    requires forall j :: 0 <= j < |s.groups| ==> GenuineGroup(gm, s.groups[j])
    ensures Sized(s) && Genuine(gm, s)
  {
  }

  /** Every received group was held, with a leaving member, by a neighbour that has the receiver as its destination. */
  lemma ReceivedFrom(mv: Move, a: Stores, recv: Mail, q: Pos, x: Group) returns (p: Pos)
    requires mv.Valid() && a.Keys == mv.own.Keys && q in a && Directed(mv, a) && GroupsDelivered(mv, a, recv)
    requires x in recv[q]
    ensures p in a && q == Entered(mv, p) && Close(mv.g, p, q) && x in a[p].groups && Touches(x.members, mv.leaving[p])
  {
    hide Entered, Close, Directed;
    p :| GroupFrom(mv, a, q, x, p);
    GroupOrigin(mv, a, q, x, p);
  }

  /** A member of the group leaves p, which has its neighbour q entered as the destination. */
  ghost predicate Sender(mv: Move, gm: Members, t: GTag, p: Pos, q: Pos)
    requires mv.Valid() && t in gm && q in mv.own
  {
    p in mv.own && Entered(mv, p) == q && Close(mv.g, p, q) && Touches(gm[t], mv.leaving[p])
  }

  ghost predicate Sent(mv: Move, gm: Members, t: GTag, q: Pos)
    requires mv.Valid() && t in gm && q in mv.own
  {
    exists p :: Sender(mv, gm, t, p, q)
  }

  /** A group held rightly arrives exactly where it is sent. */
  lemma ArrivesExactly(mv: Move, gm: Members, w: Stores, a: Stores, kept: Stores, recv: Mail, r: Stores, q: Pos,
                       t: GTag)
    requires mv.Valid() && Sound(gm, w, mv.own) && q in w && Exchanged(mv, gm, w, a, kept, recv, r)
    requires t in gm && HeldFor(gm, w, mv.own, t)
    ensures Carried(recv[q], t) <==> Sent(mv, gm, t, q)
  {
    hide Neighbor, Close, KeptOf, MergedFrom, GroupFrom, Directed, GroupsDelivered, SoundOn, SameGroups, Entered,
      HeldFor;
    if Carried(recv[q], t) {
      var k :| 0 <= k < |recv[q]| && recv[q][k].tag == t;
      var p := ReceivedFrom(mv, a, recv, q, recv[q][k]);
      SameIsGenuine(gm, w[p], a[p], recv[q][k]);
      assert Sender(mv, gm, t, p, q);
    }
    if Sent(mv, gm, t, q) {
      var p :| Sender(mv, gm, t, p, q);
      Sends(mv, gm, w, a, recv, p, q, t);
    }
  }

  lemma Sends(mv: Move, gm: Members, w: Stores, a: Stores, recv: Mail, p: Pos, q: Pos, t: GTag)
    requires mv.Valid() && Sound(gm, w, mv.own) && a.Keys == w.Keys && q in w && Directed(mv, a)
    requires GroupsDelivered(mv, a, recv) && t in gm && HeldFor(gm, w, mv.own, t)
    requires Sender(mv, gm, t, p, q) && SameGroups(w[p], a[p])
    ensures Carried(recv[q], t)
  {
    hide Neighbor, Close, GroupFrom, Directed, Entered, SoundOn;
    LeavingIsOwned(mv, gm, t, p);
    HeldGroup(gm, w[p], t);
    var x := a[p].groups[a[p].rtag[t]];
    GroupArrives(mv, a, q, x, p);
    assert x in recv[q];
  }

  lemma TouchesUnion(members: seq<Tag>, s: set<Tag>, t: set<Tag>)
    ensures Touches(members, s + t) <==> Touches(members, s) || Touches(members, t)
  {
  }

  /** Every group of the result is, in full, one of those sent from. */
  lemma ResultGroup(mv: Move, gm: Members, w: Stores, a: Stores, kept: Stores, recv: Mail, r: Stores, q: Pos, j: nat)
    returns (p: Pos)
    requires mv.Valid() && Sound(gm, w, mv.own) && q in w && Exchanged(mv, gm, w, a, kept, recv, r) && j < |r[q].groups|
    ensures p in w && r[q].groups[j] in a[p].groups
  {
    hide Neighbor, Close, KeptOf, MergedFrom, GroupFrom, Directed, GroupsDelivered, SoundOn, SameGroups, Exact, Entered;
    MergedGroups(a[q], mv.own[q], mv.leaving[q], kept[q], recv[q], r[q], j);
    p := q;
    if r[q].groups[j] !in a[q].groups { p := ReceivedFrom(mv, a, recv, q, r[q].groups[j]); }
  }

  lemma ResultGenuine(mv: Move, gm: Members, w: Stores, a: Stores, kept: Stores, recv: Mail, r: Stores, q: Pos, j: nat)
    requires mv.Valid() && Sound(gm, w, mv.own) && q in w && Exchanged(mv, gm, w, a, kept, recv, r) && j < |r[q].groups|
    ensures GenuineGroup(gm, r[q].groups[j])
  {
    hide Neighbor, Close, KeptOf, GroupFrom, Directed, SameGroups, Exact, MergedFrom, GroupsDelivered, SoundOn,
      GenuineGroup;
    var p := ResultGroup(mv, gm, w, a, kept, recv, r, q, j);
    SameIsGenuine(gm, w[p], a[p], r[q].groups[j]);
  }

  lemma SoundAfter(mv: Move, gm: Members, w: Stores, a: Stores, kept: Stores, recv: Mail, r: Stores, q: Pos)
    requires mv.Valid() && Sound(gm, w, mv.own) && q in w && Exchanged(mv, gm, w, a, kept, recv, r)
    ensures SoundOn(gm, r[q])
  {
    hide Neighbor, Close, KeptOf, GroupFrom, Directed, SameGroups, MergedFrom, Exact, GroupsDelivered, GenuineGroup,
      Sized, Genuine;
    MergedTags(kept[q], recv[q], r[q], 0);
    forall j | 0 <= j < |r[q].groups| ensures GenuineGroup(gm, r[q].groups[j]) {
      ResultGenuine(mv, gm, w, a, kept, recv, r, q, j);
    }
    GenuineStore(gm, r[q]);
  }

  // ---------- which groups are held rightly ----------

  /** Where a group is after the step, if it was held rightly before. */
  lemma HoldsExactly(mv: Move, gm: Members, w: Stores, a: Stores, kept: Stores, recv: Mail, r: Stores, q: Pos, t: GTag)
    requires mv.Valid() && Sound(gm, w, mv.own) && q in w && Exchanged(mv, gm, w, a, kept, recv, r)
    requires t in gm && HeldFor(gm, w, mv.own, t)
    ensures t in r[q].rtag <==> Touches(gm[t], mv.own[q] - mv.leaving[q]) || Sent(mv, gm, t, q)
  {
    hide Neighbor, Close, KeptOf, GroupFrom, Directed, Touches, SameGroups, SoundOn, MergedFrom, GroupsDelivered, Exact,
      HeldFor, Sent;
    StaysExactly(mv, gm, w, a[q], kept[q], q, t);
    ArrivesExactly(mv, gm, w, a, kept, recv, r, q, t);
    MergedTags(kept[q], recv[q], r[q], t);
  }

  lemma OwnsAfter(mv: Move, gm: Members, t: GTag, q: Pos)
    requires mv.Valid() && t in gm && q in mv.own
    ensures Touches(gm[t], mv.After()[q])
            <==> Touches(gm[t], mv.own[q] - mv.leaving[q]) || Touches(gm[t], mv.leaving[mv.Upstream(q)])
  {
    hide Neighbor;
    TouchesUnion(gm[t], mv.own[q] - mv.leaving[q], mv.leaving[mv.Upstream(q)]);
  }

  /** Rank q keeps a member of the group, or is sent the group exactly when a member comes to it. */
  ghost predicate RoutedTo(mv: Move, gm: Members, t: GTag, q: Pos)
    requires mv.Valid() && t in gm && q in mv.own
  {
    !Touches(gm[t], mv.own[q] - mv.leaving[q]) ==> (Sent(mv, gm, t, q) <==> Touches(gm[t], mv.leaving[mv.Upstream(q)]))
  }

  /** Every rank that keeps no member of the group is sent it exactly when a member comes to it. */
  ghost predicate Routed(mv: Move, gm: Members, t: GTag)
    requires mv.Valid() && t in gm
  {
    forall q :: q in mv.own ==> RoutedTo(mv, gm, t, q)
  }

  lemma HeldAtExactly(mv: Move, gm: Members, w: Stores, a: Stores, kept: Stores, recv: Mail, r: Stores, q: Pos, t: GTag)
    requires mv.Valid() && Sound(gm, w, mv.own) && q in w && Exchanged(mv, gm, w, a, kept, recv, r)
    requires t in gm && HeldFor(gm, w, mv.own, t)
    ensures (t in r[q].rtag <==> Touches(gm[t], mv.After()[q])) <==> RoutedTo(mv, gm, t, q)
  {
    hide Neighbor, Close, KeptOf, GroupFrom, Directed, Touches, SameGroups, SoundOn, MergedFrom, GroupsDelivered, Exact,
      HeldFor, Sent, OwnAfter;
    HoldsExactly(mv, gm, w, a, kept, recv, r, q, t);
    OwnsAfter(mv, gm, t, q);
  }

  /** A group that was held rightly is held rightly after the step exactly when it is routed. */
  lemma HeldForExactly(mv: Move, gm: Members, w: Stores, a: Stores, kept: Stores, recv: Mail, r: Stores, t: GTag)
    requires mv.Valid() && Sound(gm, w, mv.own) && Exchanged(mv, gm, w, a, kept, recv, r)
    requires t in gm && HeldFor(gm, w, mv.own, t)
    ensures HeldFor(gm, r, mv.After(), t) <==> Routed(mv, gm, t)
  {
    hide OwnAfter, Neighbor, Close, KeptOf, GroupFrom, Directed, GroupsDelivered, SameGroups, MergedFrom, Exact,
      SoundOn, Touches, RoutedTo;
    forall q | q in r ensures (t in r[q].rtag <==> Touches(gm[t], mv.After()[q])) <==> RoutedTo(mv, gm, t, q) {
      HeldAtExactly(mv, gm, w, a, kept, recv, r, q, t);
    }
  }

  /** If no member goes astray the destination is the neighbour, so senders are upstream. */
  lemma SenderIsUpstream(mv: Move, gm: Members, t: GTag, p: Pos, q: Pos)
    requires mv.Valid() && t in gm && Straight(mv, gm, t) && p in mv.own && q in mv.own && Touches(gm[t], mv.leaving[p])
    ensures q == Entered(mv, p) <==> p == mv.Upstream(q)
    ensures p == mv.Upstream(q) ==> Close(mv.g, p, q)
  {
    hide Entered, Neighbor, Close, GoesAstray;
    EnteredExactly(mv, p);
    NeighborPairing(mv.g, p, mv.d);
    NeighborPairing(mv.g, q, mv.d);
    NeighborIsClose(mv.g, p, mv.d);
  }

  /** A group of which no member goes astray is routed. */
  lemma StraightIsRouted(mv: Move, gm: Members, t: GTag)
    requires mv.Valid() && t in gm && Straight(mv, gm, t)
    ensures Routed(mv, gm, t)
  {
    hide Entered, Neighbor, Close, Straight, Touches;
    forall q | q in mv.own ensures RoutedTo(mv, gm, t, q) {
      if Sent(mv, gm, t, q) {
        var p :| Sender(mv, gm, t, p, q);
        SenderIsUpstream(mv, gm, t, p, q);
      }
      if Touches(gm[t], mv.leaving[mv.Upstream(q)]) {
        SenderIsUpstream(mv, gm, t, mv.Upstream(q), q);
        assert Sender(mv, gm, t, mv.Upstream(q), q);
      }
    }
  }

  // ---------- groups that one rank owns ----------

  /** All members belong to one rank. */
  predicate OwnedWhole(members: seq<Tag>, own: set<Tag>) {
    members != [] && forall i :: 0 <= i < |members| ==> members[i] in own
  }

  lemma OnlyOwner(mv: Move, gm: Members, q: Pos, t: GTag, p: Pos)
    requires mv.Valid() && q in mv.own && p in mv.own && t in gm && OwnedWhole(gm[t], mv.own[q]) && p != q
    ensures !Touches(gm[t], mv.own[p]) && !Touches(gm[t], mv.leaving[p]) && !Touches(gm[t], mv.own[p] - mv.leaving[p])
  {
  }

  /** The rank that a member goes to astray is not sent the group, if one rank owns it alone. */
  lemma AstrayIsLost(mv: Move, gm: Members, q: Pos, t: GTag)
    requires mv.Valid() && q in mv.own && t in gm && OwnedWhole(gm[t], mv.own[q])
    requires Touches(gm[t], mv.leaving[q]) && GoesAstray(mv, q)
    ensures var n := Neighbor(mv.g, q, mv.d);
            n in mv.own && mv.Upstream(n) == q && !Sent(mv, gm, t, n) && !Touches(gm[t], mv.own[n] - mv.leaving[n])
  {
    hide Neighbor, Close, Entered, GoesAstray;
    var n := Neighbor(mv.g, q, mv.d);
    NeighborPairing(mv.g, q, mv.d);
    EnteredExactly(mv, q);
    OnlyOwner(mv, gm, q, t, n);
    forall p | p in mv.own && Touches(gm[t], mv.leaving[p]) ensures p == q {
      if p != q { OnlyOwner(mv, gm, q, t, p); }
    }
  }

  /** A group that one rank owns alone is routed exactly when none of its members goes astray. */
  lemma WholeIsRouted(mv: Move, gm: Members, q: Pos, t: GTag)
    requires mv.Valid() && q in mv.own && t in gm && OwnedWhole(gm[t], mv.own[q])
    ensures Routed(mv, gm, t) <==> Straight(mv, gm, t)
  {
    hide Neighbor, Close, Entered, GoesAstray, Sent, Touches;
    if Straight(mv, gm, t) {
      StraightIsRouted(mv, gm, t);
    } else {
      var p :| p in mv.own && Touches(gm[t], mv.leaving[p]) && GoesAstray(mv, p);
      if p != q { OnlyOwner(mv, gm, q, t, p); }
      AstrayIsLost(mv, gm, q, t);
    }
  }

  /** A group that one rank owned alone is not held by the rank its leaving members have gone to, if they left from a
      rank whose destination is looked up at the wrong place. */
  lemma LostGroup(mv: Move, gm: Members, w: Stores, a: Stores, kept: Stores, recv: Mail, r: Stores, q: Pos, t: GTag)
    requires mv.Valid() && Sound(gm, w, mv.own) && q in w && Exchanged(mv, gm, w, a, kept, recv, r)
    requires t in gm && HeldFor(gm, w, mv.own, t) && OwnedWhole(gm[t], mv.own[q])
    requires Touches(gm[t], mv.leaving[q]) && GoesAstray(mv, q)
    ensures var n := Neighbor(mv.g, q, mv.d); n in r && t !in r[n].rtag && Touches(gm[t], mv.After()[n])
  {
    hide Neighbor, Close, KeptOf, MergedFrom, GroupFrom, Directed, GroupsDelivered, SoundOn, SameGroups, Exact, Entered,
      OwnAfter, Sent, Touches, HeldFor;
    AstrayIsLost(mv, gm, q, t);
    HoldsExactly(mv, gm, w, a, kept, recv, r, Neighbor(mv.g, q, mv.d), t);
    OwnsAfter(mv, gm, t, Neighbor(mv.g, q, mv.d));
  }

  // ---------- owners and types ----------

  /** Whoever owns a particle after the step got it from its owner before. */
  lemma OwnerBefore(mv: Move, r: Pos, t: Tag) returns (p: Pos)
    requires mv.Valid() && r in mv.own && t in mv.After()[r]
    ensures p in mv.own && t in mv.own[p] && NewOwner(mv, p, t) == r
  {
    p := if t in mv.own[r] && t !in mv.leaving[r] then r else mv.Upstream(r);
    NewOwnerOwns(mv, p, t, r);
  }

  lemma RanksAfter(mv: Move, gm: Members, w: Stores, a: Stores, kept: Stores, recv: Mail, r: Stores, t: GTag)
    requires mv.Valid() && Sound(gm, w, mv.own) && Exchanged(mv, gm, w, a, kept, recv, r) && EntriesExact(mv, a, t)
    ensures RanksExact(r, mv.After(), t)
  {
    hide OwnAfter, Neighbor, Close, KeptOf, GroupFrom, Directed, Touches, GroupsDelivered, SameGroups, MergedFrom,
      Exact, Sized, Genuine;
    forall q, i: nat, j: nat, o |
      q in r && o in mv.After() && i < |r[q].groups| && r[q].groups[i].tag == t
      && j < |r[q].groups[i].members| && j < |r[q].groups[i].ranks|
      && r[q].groups[i].members[j] in mv.After()[o]
      ensures r[q].groups[i].ranks[j] == o
    {
      var s := ResultGroup(mv, gm, w, a, kept, recv, r, q, i);
      var p := OwnerBefore(mv, o, r[q].groups[i].members[j]);
      var k :| 0 <= k < |a[s].groups| && a[s].groups[k] == r[q].groups[i];
    }
  }

  /** Every group has its type. */
  ghost predicate Typed(kinds: map<GTag, nat>, w: Stores) {
    forall q, i :: q in w && 0 <= i < |w[q].groups| ==>
      w[q].groups[i].tag in kinds && w[q].groups[i].kind == kinds[w[q].groups[i].tag]
  }

  lemma TypedAfter(mv: Move, gm: Members, kinds: map<GTag, nat>, w: Stores, a: Stores, kept: Stores, recv: Mail,
                   r: Stores)
    requires mv.Valid() && Sound(gm, w, mv.own) && Exchanged(mv, gm, w, a, kept, recv, r) && Typed(kinds, w)
    ensures Typed(kinds, r)
  {
    hide Neighbor, Close, KeptOf, GroupFrom, Directed, GroupsDelivered, SameGroups, MergedFrom, Exact, SoundOn;
    forall q, i | q in r && 0 <= i < |r[q].groups|
      ensures r[q].groups[i].tag in kinds && r[q].groups[i].kind == kinds[r[q].groups[i].tag]
    {
      var p := ResultGroup(mv, gm, w, a, kept, recv, r, q, i);
      SameIsTyped(kinds, w, a[p], p, r[q].groups[i]);
    }
  }

  lemma SameIsTyped(kinds: map<GTag, nat>, w: Stores, a: Store, p: Pos, x: Group)
    requires Typed(kinds, w) && p in w && SameGroups(w[p], a) && x in a.groups
    ensures x.tag in kinds && x.kind == kinds[x.tag]
  {
  }

  // ---------- the step as the ranks run it ----------

  ghost predicate MarksPosted(s: Store, me: Pos, leaving: set<Tag>, dest: Pos, post: seq<Posted<Mark>>)
    requires Sized(s)
  {
    forall to, m :: Posted(to, m) in post <==>
      exists i ::
        0 <= i < |s.groups| && Addressed(s.groups[i], me, leaving, to) && m == MarkOf(s.groups[i], leaving, dest)
  }

  ghost predicate MarkedOn(s: Store, leaving: set<Tag>, dest: Pos, s': Store)
    requires Sized(s)
  {
    s' == Store(MarkedAll(s.groups, leaving, dest), s.rtag)
  }

  method MarkOn(s: Store, me: Pos, leaving: set<Tag>, dest: Pos) returns (s': Store, post: seq<Posted<Mark>>)
    requires Sized(s)
    ensures MarkedOn(s, leaving, dest, s') && MarksPosted(s, me, leaving, dest, post)
  {
    var groups;
    groups, post := MarkGroups(s.groups, me, leaving, dest);
    s' := Store(groups, s.rtag);
  }

  method MarkAll(mv: Move, w: Stores) returns (marked: Stores, posts: map<Pos, seq<Posted<Mark>>>)
    requires mv.Valid() && w.Keys == mv.own.Keys && forall q :: q in w ==> Sized(w[q])
    ensures marked.Keys == w.Keys && posts.Keys == w.Keys
    ensures forall q :: q in w ==> MarkedOn(w[q], mv.leaving[q], Entered(mv, q), marked[q])
    ensures forall q :: q in w ==> MarksPosted(w[q], q, mv.leaving[q], Entered(mv, q), posts[q])
  {
    hide Entered, MarkedOn, MarksPosted, Sized;
    marked, posts := map[], map[];
    var todo := w.Keys;
    while todo != {}
      invariant todo <= w.Keys && marked.Keys == w.Keys - todo && posts.Keys == w.Keys - todo
      invariant forall q :: q in marked ==> MarkedOn(w[q], mv.leaving[q], Entered(mv, q), marked[q])
      invariant forall q :: q in posts ==> MarksPosted(w[q], q, mv.leaving[q], Entered(mv, q), posts[q])
    {
      var q :| q in todo;
      var s, post := MarkOn(w[q], q, mv.leaving[q], Entered(mv, q));
      marked, posts := marked[q := s], posts[q := post];
      todo := todo - {q};
    }
  }

  lemma PostedMarksArrive(mv: Move, w: Stores, posts: map<Pos, seq<Posted<Mark>>>, marks: Marks)
    requires mv.Valid() && w.Keys == mv.own.Keys && posts.Keys == w.Keys && forall q :: q in w ==> Sized(w[q])
    requires forall q :: q in w ==> MarksPosted(w[q], q, mv.leaving[q], Entered(mv, q), posts[q])
    requires Delivered(mv.g, posts, marks)
    ensures MarksDelivered(mv, w, marks)
  {
    hide Entered, Close, Addressed, MarkOf;
    forall q, x, p | q in w ensures Arrives(mv.g, posts, q, x, p) <==> MarkFrom(mv, w, q, x, p) {
      if p in w { assert MarksPosted(w[p], p, mv.leaving[p], Entered(mv, p), posts[p]); }
    }
  }

  method TakeAll(mv: Move, ghost gm: Members, ghost w: Stores, marked: Stores, marks: Marks) returns (a: Stores)
    requires mv.Valid() && Sound(gm, w, mv.own) && MarksDelivered(mv, w, marks) && marked.Keys == w.Keys
    requires forall q :: q in w ==> MarkedOn(w[q], mv.leaving[q], Entered(mv, q), marked[q])
    ensures AllTaken(mv, gm, w, marks, a)
  {
    hide Entered, MarkFrom, MarkedOn, MarksTaken;
    a := map[];
    var todo := marked.Keys;
    while todo != {}
      invariant todo <= w.Keys && a.Keys == w.Keys - todo
      invariant forall q :: q in a ==> MarksTaken(mv, gm, w, marks, q, a[q])
    {
      var q :| q in todo;
      var s := TakeOn(mv, gm, w, marked[q], marks, q);
      a := a[q := s];
      todo := todo - {q};
    }
  }

  method TakeOn(mv: Move, ghost gm: Members, ghost w: Stores, marked: Store, marks: Marks, q: Pos) returns (s: Store)
    requires mv.Valid() && Sound(gm, w, mv.own) && MarksDelivered(mv, w, marks) && q in w
    requires MarkedOn(w[q], mv.leaving[q], Entered(mv, q), marked)
    ensures MarksTaken(mv, gm, w, marks, q, s)
  {
    hide Entered, MarkFrom;
    MarksFit(mv, gm, w, marks, q, marked);
    s := ApplyMarks(marked, marks[q]);
  }

  ghost predicate GroupsPosted(a: Store, leaving: set<Tag>, post: seq<Posted<Group>>)
    requires Sized(a)
  {
    forall to, x ::
      Posted(to, x) in post <==> exists i :: 0 <= i < |a.groups| && x == a.groups[i] && SentTo(x, leaving, to)
  }

  method SendOn(a: Store, owned: set<Tag>, leaving: set<Tag>) returns (kept: Store, post: seq<Posted<Group>>)
    requires Exact(a) && Sized(a)
    ensures KeptOf(a, owned, leaving, kept) && GroupsPosted(a, leaving, post)
  {
    var rtag;
    rtag, post := SendGroups(a, owned, leaving);
    kept := Compact(a, rtag);
  }

  ghost predicate AllKept(mv: Move, a: Stores, kept: Stores)
    requires mv.Valid() && a.Keys == mv.own.Keys && forall q :: q in a ==> Exact(a[q])
  {
    kept.Keys == a.Keys && forall q :: q in a ==> KeptOf(a[q], mv.own[q], mv.leaving[q], kept[q])
  }

  method SendAll(mv: Move, a: Stores) returns (kept: Stores, posts: map<Pos, seq<Posted<Group>>>)
    requires mv.Valid() && a.Keys == mv.own.Keys && forall q :: q in a ==> Exact(a[q]) && Sized(a[q])
    ensures AllKept(mv, a, kept) && posts.Keys == a.Keys
    ensures forall q :: q in a ==> GroupsPosted(a[q], mv.leaving[q], posts[q])
  {
    hide KeptOf, GroupsPosted, Exact, Sized;
    kept, posts := map[], map[];
    var todo := a.Keys;
    while todo != {}
      invariant todo <= a.Keys && kept.Keys == a.Keys - todo && posts.Keys == a.Keys - todo
      invariant forall q :: q in kept ==> KeptOf(a[q], mv.own[q], mv.leaving[q], kept[q])
      invariant forall q :: q in posts ==> GroupsPosted(a[q], mv.leaving[q], posts[q])
    {
      var q :| q in todo;
      var s, post := SendOn(a[q], mv.own[q], mv.leaving[q]);
      kept, posts := kept[q := s], posts[q := post];
      todo := todo - {q};
    }
  }

  lemma PostedGroupsArrive(mv: Move, a: Stores, posts: map<Pos, seq<Posted<Group>>>, recv: Mail)
    requires mv.Valid() && a.Keys == mv.own.Keys && posts.Keys == a.Keys && forall q :: q in a ==> Sized(a[q])
    requires forall q :: q in a ==> GroupsPosted(a[q], mv.leaving[q], posts[q])
    requires Delivered(mv.g, posts, recv)
    ensures recv.Keys == a.Keys && GroupsDelivered(mv, a, recv)
  {
    hide Close, SentTo;
    forall q, x, p | q in a ensures Arrives(mv.g, posts, q, x, p) <==> GroupFrom(mv, a, q, x, p) {
      if p in a { assert GroupsPosted(a[p], mv.leaving[p], posts[p]); }
    }
  }

  method MergeAll(kept: Stores, recv: Mail) returns (r: Stores)
    requires recv.Keys == kept.Keys && forall q :: q in kept ==> Exact(kept[q])
    ensures r.Keys == kept.Keys && forall q :: q in kept ==> MergedFrom(kept[q], recv[q], r[q])
  {
    r := map[];
    var todo := kept.Keys;
    while todo != {}
      invariant todo <= kept.Keys && r.Keys == kept.Keys - todo
      invariant forall q :: q in r ==> MergedFrom(kept[q], recv[q], r[q])
    {
      var q :| q in todo;
      var s := MergeReceived(kept[q], recv[q]);
      r := r[q := s];
      todo := todo - {q};
    }
  }

  /** Phase one leaves every group in place, with the new owners of the leaving members entered. */
  ghost predicate MarksDone(mv: Move, w: Stores, a: Stores)
    requires mv.Valid() && w.Keys == mv.own.Keys
  {
    a.Keys == w.Keys && Directed(mv, a) && forall q :: q in w ==> Exact(a[q]) && Sized(a[q]) && SameGroups(w[q], a[q])
  }

  /** The owners that phase one enters for a group are all exact exactly when no member of it goes astray and every
      mark of it has a neighbour to go to. */
  ghost predicate OwnersEntered(mv: Move, gm: Members, w: Stores, a: Stores)
    requires mv.Valid() && w.Keys == mv.own.Keys
  {
    forall t :: t in gm && HeldFor(gm, w, mv.own, t) && RanksExact(w, mv.own, t) ==>
      (EntriesExact(mv, a, t) <==> Straight(mv, gm, t) && AffectedClose(mv, gm, t))
  }

  lemma TakenDone(mv: Move, gm: Members, w: Stores, marks: Marks, a: Stores)
    requires mv.Valid() && Sound(gm, w, mv.own) && MarksDelivered(mv, w, marks) && AllTaken(mv, gm, w, marks, a)
    ensures MarksDone(mv, w, a) && OwnersEntered(mv, gm, w, a)
  {
    hide Entered, MarkFrom, MarksTaken, Close, RanksExact, Straight, AffectedClose, EntriesExact, Directed,
      MarksDelivered, HeldFor;
    TakenDirected(mv, gm, w, marks, a);
    forall q | q in w
      ensures SameGroups(w[q], a[q]) && Exact(a[q]) && Sized(a[q])
    {
      TakenSame(mv, gm, w, marks, a, q);
    }
    forall t | t in gm && HeldFor(gm, w, mv.own, t) && RanksExact(w, mv.own, t)
      ensures EntriesExact(mv, a, t) <==> Straight(mv, gm, t) && AffectedClose(mv, gm, t)
    {
      EntriesExactly(mv, gm, w, marks, a, t);
    }
  }

  /** Phase one. */
  method ExchangeMarks(mv: Move, ghost gm: Members, w: Stores) returns (a: Stores)
    requires mv.Valid() && Sound(gm, w, mv.own)
    ensures MarksDone(mv, w, a) && OwnersEntered(mv, gm, w, a)
  {
    hide Entered, MarkFrom, MarkedOn, MarksTaken, MarksPosted, Close, Delivered, MarksDone, OwnersEntered, AllTaken,
      MarksDelivered;
    var marked, posts := MarkAll(mv, w);
    var marks := Deliver(mv.g, posts);
    PostedMarksArrive(mv, w, posts, marks);
    a := TakeAll(mv, gm, w, marked, marks);
    TakenDone(mv, gm, w, marks, a);
  }

  /** No member of the group goes astray and every mark of it has a neighbour to go to. */
  ghost predicate Followed(mv: Move, gm: Members, t: GTag)
    requires mv.Valid() && t in gm
  {
    Straight(mv, gm, t) && AffectedClose(mv, gm, t)
  }

  /** What a step makes of one group, whatever the others do. If it was held rightly it is held rightly after the step
      exactly when it is routed; and its owners stay exact if it is followed. */
  ghost predicate GroupKept(mv: Move, gm: Members, w: Stores, r: Stores, t: GTag)
    requires mv.Valid() && w.Keys == r.Keys == mv.own.Keys && t in gm
  {
    HeldFor(gm, w, mv.own, t) ==>
      && (HeldFor(gm, r, mv.After(), t) <==> Routed(mv, gm, t))
      && (RanksExact(w, mv.own, t) && Followed(mv, gm, t) ==> RanksExact(r, mv.After(), t))
  }

  /** What a step makes of stores w: sound stores of the right types, group by group. */
  ghost predicate StepDone(mv: Move, gm: Members, kinds: map<GTag, nat>, w: Stores, r: Stores)
    requires mv.Valid() && w.Keys == mv.own.Keys
  {
    Sound(gm, r, mv.After()) && Typed(kinds, r) && forall t :: t in gm ==> GroupKept(mv, gm, w, r, t)
  }

  lemma SoundAll(mv: Move, gm: Members, w: Stores, a: Stores, kept: Stores, recv: Mail, r: Stores)
    requires mv.Valid() && Sound(gm, w, mv.own) && Exchanged(mv, gm, w, a, kept, recv, r)
    ensures Sound(gm, r, mv.After())
  {
    hide OwnAfter, SoundOn, KeptOf, MergedFrom, Directed, GroupsDelivered, SameGroups, Exact;
    forall q | q in r ensures SoundOn(gm, r[q]) { SoundAfter(mv, gm, w, a, kept, recv, r, q); }
  }

  lemma ExchangeDone(mv: Move, gm: Members, kinds: map<GTag, nat>, w: Stores, a: Stores, kept: Stores, recv: Mail,
                     r: Stores)
    requires mv.Valid() && Sound(gm, w, mv.own) && Exchanged(mv, gm, w, a, kept, recv, r) && Typed(kinds, w)
    requires OwnersEntered(mv, gm, w, a)
    ensures StepDone(mv, gm, kinds, w, r)
  {
    hide OwnAfter, Sound, Typed, GroupKept, Exchanged, OwnersEntered;
    TypedAfter(mv, gm, kinds, w, a, kept, recv, r);
    SoundAll(mv, gm, w, a, kept, recv, r);
    SameKeys(mv, gm, w, a, kept, recv, r);
    forall t | t in gm ensures GroupKept(mv, gm, w, r, t) { KeptExactly(mv, gm, w, a, kept, recv, r, t); }
  }

  lemma SameKeys(mv: Move, gm: Members, w: Stores, a: Stores, kept: Stores, recv: Mail, r: Stores)
    requires mv.Valid() && Sound(gm, w, mv.own) && Exchanged(mv, gm, w, a, kept, recv, r)
    ensures a.Keys == w.Keys == r.Keys == mv.own.Keys
  {
  }

  lemma KeptExactly(mv: Move, gm: Members, w: Stores, a: Stores, kept: Stores, recv: Mail, r: Stores, t: GTag)
    requires mv.Valid() && Sound(gm, w, mv.own) && Exchanged(mv, gm, w, a, kept, recv, r) && t in gm
    requires OwnersEntered(mv, gm, w, a) && r.Keys == w.Keys
    ensures GroupKept(mv, gm, w, r, t)
  {
    hide OwnAfter, SoundOn, Straight, AffectedClose, Routed, HeldFor, RanksExact, EntriesExact, Exchanged;
    if HeldFor(gm, w, mv.own, t) {
      HeldForExactly(mv, gm, w, a, kept, recv, r, t);
      if RanksExact(w, mv.own, t) && Followed(mv, gm, t) { RanksAfter(mv, gm, w, a, kept, recv, r, t); }
    }
  }

  method ExchangeGroups(mv: Move, ghost gm: Members, ghost kinds: map<GTag, nat>, ghost w: Stores, a: Stores)
    returns (r: Stores)
    requires mv.Valid() && Sound(gm, w, mv.own) && MarksDone(mv, w, a) && Typed(kinds, w) && OwnersEntered(mv, gm, w, a)
    ensures StepDone(mv, gm, kinds, w, r)
  {
    hide SoundOn, OwnAfter, GroupsPosted, MergedFrom, Close, Delivered, GroupFrom, SameGroups, OwnersEntered,
      Directed, GroupsDelivered, Typed, Exchanged, AllKept, Exact, Sized, StepDone;
    var kept, posts := SendAll(mv, a);
    var recv := Deliver(mv.g, posts);
    PostedGroupsArrive(mv, a, posts, recv);
    KeptExact(mv, a, kept);
    r := MergeAll(kept, recv);
    Assembled(mv, gm, w, a, kept, recv, r);
    hide Sound, MarksDone;
    ExchangeDone(mv, gm, kinds, w, a, kept, recv, r);
  }

  lemma KeptExact(mv: Move, a: Stores, kept: Stores)
    requires mv.Valid() && a.Keys == mv.own.Keys && (forall q :: q in a ==> Exact(a[q])) && AllKept(mv, a, kept)
    ensures kept.Keys == a.Keys && forall q :: q in kept ==> Exact(kept[q])
  {
    hide Exact;
  }

  lemma Assembled(mv: Move, gm: Members, w: Stores, a: Stores, kept: Stores, recv: Mail, r: Stores)
    requires mv.Valid() && Sound(gm, w, mv.own) && MarksDone(mv, w, a) && AllKept(mv, a, kept)
    requires recv.Keys == a.Keys && GroupsDelivered(mv, a, recv)
    requires r.Keys == kept.Keys && kept.Keys == a.Keys && forall q :: q in kept ==> MergedFrom(kept[q], recv[q], r[q])
    ensures Exchanged(mv, gm, w, a, kept, recv, r)
  {
    hide SoundOn, KeptOf, MergedFrom, GroupsDelivered, SameGroups, Directed, Exact;
  }

  /** One direction step: marks are made, exchanged and taken in; groups are sent, compacted and merged. */
  method MigrateGroups(mv: Move, ghost gm: Members, ghost kinds: map<GTag, nat>, w: Stores) returns (r: Stores)
    requires mv.Valid() && Sound(gm, w, mv.own) && Typed(kinds, w)
    ensures StepDone(mv, gm, kinds, w, r)
  {
    hide MarksDone, OwnersEntered, Typed, StepDone, Sound;
    var a := ExchangeMarks(mv, gm, w);
    r := ExchangeGroups(mv, gm, kinds, w, a);
  }

  /** A group that was held rightly and of which no member goes astray is held rightly after the step; one that a
      single rank owned is held rightly only then. */
  lemma WholeGroupExactly(mv: Move, gm: Members, kinds: map<GTag, nat>, w: Stores, r: Stores, q: Pos, t: GTag)
    requires mv.Valid() && w.Keys == mv.own.Keys && StepDone(mv, gm, kinds, w, r)
    requires t in gm && HeldFor(gm, w, mv.own, t)
    ensures Straight(mv, gm, t) ==> HeldFor(gm, r, mv.After(), t)
    ensures q in mv.own && OwnedWhole(gm[t], mv.own[q]) ==>
              (HeldFor(gm, r, mv.After(), t) <==> Straight(mv, gm, t))
  {
    hide OwnAfter, SoundOn, Typed, Straight, Followed, Routed, HeldFor, RanksExact, OwnedWhole;
    assert GroupKept(mv, gm, w, r, t);
    if Straight(mv, gm, t) { StraightIsRouted(mv, gm, t); }
    if q in mv.own && OwnedWhole(gm[t], mv.own[q]) { WholeIsRouted(mv, gm, q, t); }
  }

  /** Every particle still has one owner after the step. */
  lemma OneOwnerAfter(mv: Move)
    requires mv.Valid()
    ensures Disjoint(mv.After())
  {
    hide OwnAfter, Neighbor;
    forall p, q, t | p in mv.own && q in mv.own && t in mv.After()[p] && t in mv.After()[q] ensures p == q {
      var from := OwnerBefore(mv, p, t);
      NewOwnerOwns(mv, from, t, q);
    }
  }

  /** Each move starts from the owners that the one before it leaves behind. */
  ghost predicate Follows(moves: seq<Move>) {
    && (forall k :: 0 <= k < |moves| ==> moves[k].Valid())
    && (forall k :: 0 <= k < |moves| - 1 ==> moves[k + 1].own == moves[k].After())
  }

  /** The owners before move k, and at the end of the run. */
  ghost function OwnersAt(moves: seq<Move>, k: nat): Particles
    requires moves != [] && Follows(moves) && k <= |moves|
  {
    if k < |moves| then moves[k].own else moves[k - 1].After()
  }

  /** The stores along a run: sound, and each group kept as every step keeps it. */
  ghost predicate RunDone(moves: seq<Move>, gm: Members, trace: seq<Stores>, k: nat)
    requires moves != [] && Follows(moves) && k <= |moves| && |trace| == k + 1
  {
    && (forall i :: 0 <= i <= k ==> Sound(gm, trace[i], OwnersAt(moves, i)))
    && (forall i, t :: 0 <= i < k && t in gm ==> GroupKept(moves[i], gm, trace[i], trace[i + 1], t))
  }

  lemma RunStarts(moves: seq<Move>, gm: Members, w: Stores)
    requires moves != [] && Follows(moves) && Sound(gm, w, moves[0].own)
    ensures RunDone(moves, gm, [w], 0)
  {
    hide Sound, GroupKept;
  }

  lemma RunExtends(moves: seq<Move>, gm: Members, kinds: map<GTag, nat>, trace: seq<Stores>, k: nat, r: Stores)
    requires moves != [] && Follows(moves) && k < |moves| && |trace| == k + 1 && RunDone(moves, gm, trace, k)
    requires trace[k].Keys == moves[k].own.Keys && StepDone(moves[k], gm, kinds, trace[k], r)
    ensures RunDone(moves, gm, trace + [r], k + 1)
  {
    hide GroupKept, OwnAfter, SoundOn, Typed;
    var next := trace + [r];
    assert OwnersAt(moves, k + 1) == moves[k].After();
    forall i | 0 <= i <= k + 1 ensures Sound(gm, next[i], OwnersAt(moves, i)) {
      if i <= k { assert next[i] == trace[i]; }
    }
    forall i, t | 0 <= i < k + 1 && t in gm ensures GroupKept(moves[i], gm, next[i], next[i + 1], t) {
      if i < k { assert next[i] == trace[i] && next[i + 1] == trace[i + 1]; }
    }
  }

  /** The group is held rightly at every point of the run. */
  ghost predicate HeldThroughout(moves: seq<Move>, gm: Members, trace: seq<Stores>, t: GTag)
    requires moves != [] && Follows(moves) && |trace| == |moves| + 1 && RunDone(moves, gm, trace, |moves|) && t in gm
  {
    forall i :: 0 <= i <= |moves| ==> HeldFor(gm, trace[i], OwnersAt(moves, i), t)
  }

  ghost predicate RoutedRun(moves: seq<Move>, gm: Members, t: GTag)
    requires Follows(moves) && t in gm
  {
    forall k :: 0 <= k < |moves| ==> Routed(moves[k], gm, t)
  }

  ghost predicate FollowedRun(moves: seq<Move>, gm: Members, t: GTag)
    requires Follows(moves) && t in gm
  {
    forall k :: 0 <= k < |moves| ==> Followed(moves[k], gm, t)
  }

  lemma {:induction false} RoutedHolds(moves: seq<Move>, gm: Members, trace: seq<Stores>, t: GTag, i: nat)
    requires moves != [] && Follows(moves) && |trace| == |moves| + 1 && RunDone(moves, gm, trace, |moves|) && t in gm
    requires HeldFor(gm, trace[0], moves[0].own, t) && RoutedRun(moves, gm, t) && i <= |moves|
    ensures HeldFor(gm, trace[i], OwnersAt(moves, i), t)
    decreases i
  {
    hide HeldFor, Routed, RanksExact, Followed, OwnAfter, SoundOn;
    if i > 0 {
      RoutedHolds(moves, gm, trace, t, i - 1);
      assert GroupKept(moves[i - 1], gm, trace[i - 1], trace[i], t);
    }
  }

  /** A group that is held rightly at the start is held rightly throughout exactly when it is always routed. */
  lemma HeldThroughoutExactly(moves: seq<Move>, gm: Members, trace: seq<Stores>, t: GTag)
    requires moves != [] && Follows(moves) && |trace| == |moves| + 1 && RunDone(moves, gm, trace, |moves|) && t in gm
    requires HeldFor(gm, trace[0], moves[0].own, t)
    ensures HeldThroughout(moves, gm, trace, t) <==> RoutedRun(moves, gm, t)
  {
    hide HeldFor, Routed, RanksExact, Followed, OwnAfter, SoundOn;
    if RoutedRun(moves, gm, t) {
      forall i | 0 <= i <= |moves| ensures HeldFor(gm, trace[i], OwnersAt(moves, i), t) {
        RoutedHolds(moves, gm, trace, t, i);
      }
    }
    if HeldThroughout(moves, gm, trace, t) {
      forall k | 0 <= k < |moves| ensures Routed(moves[k], gm, t) {
        assert HeldFor(gm, trace[k], OwnersAt(moves, k), t) && HeldFor(gm, trace[k + 1], OwnersAt(moves, k + 1), t);
        assert GroupKept(moves[k], gm, trace[k], trace[k + 1], t);
      }
    }
  }

  lemma FollowedIsRouted(moves: seq<Move>, gm: Members, t: GTag)
    requires Follows(moves) && t in gm && FollowedRun(moves, gm, t)
    ensures RoutedRun(moves, gm, t)
  {
    hide Routed, Straight, AffectedClose, OwnAfter;
    forall k | 0 <= k < |moves| ensures Routed(moves[k], gm, t) { StraightIsRouted(moves[k], gm, t); }
  }

  lemma {:induction false} FollowedKeepsOwners(moves: seq<Move>, gm: Members, trace: seq<Stores>, t: GTag, i: nat)
    requires moves != [] && Follows(moves) && |trace| == |moves| + 1 && RunDone(moves, gm, trace, |moves|) && t in gm
    requires HeldFor(gm, trace[0], moves[0].own, t) && RanksExact(trace[0], moves[0].own, t)
    requires FollowedRun(moves, gm, t) && i <= |moves|
    ensures RanksExact(trace[i], OwnersAt(moves, i), t)
    decreases i
  {
    hide HeldFor, Routed, RanksExact, Followed, OwnAfter, SoundOn;
    if i > 0 {
      FollowedKeepsOwners(moves, gm, trace, t, i - 1);
      FollowedIsRouted(moves, gm, t);
      RoutedHolds(moves, gm, trace, t, i - 1);
      assert GroupKept(moves[i - 1], gm, trace[i - 1], trace[i], t);
    }
  }

  /** Any run of direction steps, from any sound stores. Each group on its own, whatever the others do: if it is held
      rightly at the start it is held rightly at every point of the run exactly when it is routed in every step, and its
      owners stay exact if it is followed in every step. */
  method MigrateRun(moves: seq<Move>, ghost gm: Members, ghost kinds: map<GTag, nat>, w: Stores)
    returns (r: Stores, ghost trace: seq<Stores>)
    requires moves != [] && Follows(moves) && Sound(gm, w, moves[0].own) && Typed(kinds, w)
    ensures Sound(gm, r, moves[|moves| - 1].After()) && Typed(kinds, r)
    ensures |trace| == |moves| + 1 && trace[0] == w && trace[|moves|] == r && RunDone(moves, gm, trace, |moves|)
    ensures forall t :: t in gm && HeldFor(gm, w, moves[0].own, t) ==>
              (HeldThroughout(moves, gm, trace, t) <==> RoutedRun(moves, gm, t))
    ensures forall t :: t in gm && HeldFor(gm, w, moves[0].own, t) && RoutedRun(moves, gm, t) ==>
              HeldFor(gm, r, moves[|moves| - 1].After(), t)
    ensures forall t :: t in gm && HeldFor(gm, w, moves[0].own, t) && FollowedRun(moves, gm, t) ==>
              (RanksExact(w, moves[0].own, t) ==> RanksExact(r, moves[|moves| - 1].After(), t))
  {
    hide HeldFor, RanksExact, OwnAfter, Typed, SoundOn, RoutedRun, FollowedRun, RunDone, StepDone, HeldThroughout;
    r, trace := w, [w];
    RunStarts(moves, gm, w);
    for k := 0 to |moves|
      invariant |trace| == k + 1 && trace[0] == w && trace[k] == r && RunDone(moves, gm, trace, k)
      invariant Sound(gm, r, OwnersAt(moves, k)) && Typed(kinds, r)
    {
      var next := MigrateGroups(moves[k], gm, kinds, r);
      RunExtends(moves, gm, kinds, trace, k, next);
      StepIsSound(moves[k], gm, kinds, r, next);
      trace := trace + [next];
      r := next;
    }
    forall t | t in gm && HeldFor(gm, w, moves[0].own, t)
      ensures HeldThroughout(moves, gm, trace, t) <==> RoutedRun(moves, gm, t)
      ensures RoutedRun(moves, gm, t) ==> HeldFor(gm, r, moves[|moves| - 1].After(), t)
      ensures RanksExact(w, moves[0].own, t) && FollowedRun(moves, gm, t) ==>
                RanksExact(r, moves[|moves| - 1].After(), t)
    {
      HeldThroughoutExactly(moves, gm, trace, t);
      if RoutedRun(moves, gm, t) { RoutedHolds(moves, gm, trace, t, |moves|); }
      if RanksExact(w, moves[0].own, t) && FollowedRun(moves, gm, t) {
        FollowedKeepsOwners(moves, gm, trace, t, |moves|);
      }
    }
  }

  lemma StepIsSound(mv: Move, gm: Members, kinds: map<GTag, nat>, w: Stores, r: Stores)
    requires mv.Valid() && w.Keys == mv.own.Keys && StepDone(mv, gm, kinds, w, r)
    ensures Sound(gm, r, mv.After()) && Typed(kinds, r)
  {
    hide Sound, Typed, GroupKept;
  }
}
