/** Phase one of a bonded-group migration step over all ranks: leaving members are marked with the rank that is
    looked up as their destination, and the marks are exchanged between neighbours. */
module GroupMarks {
  import opened Torus
  import opened Groups
  import opened GroupMigration

  type Particles = map<Pos, set<Tag>>

  type Stores = map<Pos, Store>

  type Members = map<GTag, seq<Tag>>

  type Marks = map<Pos, seq<Mark>>

  predicate Touches(members: seq<Tag>, s: set<Tag>) { exists i :: 0 <= i < |members| && members[i] in s }

  /** Particles owned by every rank, and those of them that leave in direction d. */
  datatype Move = Move(g: Grid, d: Dir, own: Particles, leaving: Particles) {

    /** Every particle has one owner. */
    ghost predicate Valid() {
      && g.Valid() && g.Communicating(d) && g.w * g.h * g.d < WORD - 1
      && own.Keys == leaving.Keys
      && (forall q :: q in own <==> g.Has(q))
      && (forall q :: q in own ==> leaving[q] <= own[q])
      && Disjoint(own)
    }

    function Upstream(q: Pos): Pos
      requires g.Has(q)
    {
      Neighbor(g, q, Opposite(d))
    }

    /** The owners after the step. */
    ghost function After(): (r: Particles)
      requires Valid()
      ensures r.Keys == own.Keys
    {
      map q | q in own :: OwnAfter(this, q)
    }
  }

  /** The rank that is entered as the destination of whatever leaves q. */
  function Entered(mv: Move, q: Pos): Pos
    requires mv.g.Valid()
  {
    Destination(mv.g, q, mv.d)
  }

  /** The ranks for which that is not the neighbour. */
  predicate GoesAstray(mv: Move, q: Pos) { mv.d % 2 == 1 && q.At(mv.d / 2) == 0 }

  /** No member of the group leaves from such a rank. */
  ghost predicate Straight(mv: Move, gm: Members, t: GTag)
    requires t in gm && mv.own.Keys == mv.leaving.Keys
  {
    forall q :: q in mv.own && Touches(gm[t], mv.leaving[q]) ==> !GoesAstray(mv, q)
  }

  lemma EnteredExactly(mv: Move, q: Pos)
    requires mv.Valid() && q in mv.own
    ensures Entered(mv, q) == Neighbor(mv.g, q, mv.d) <==> !GoesAstray(mv, q)
  {
    hide Destination, Neighbor;
    DestinationIsExact(mv.g, q, mv.d);
  }

  ghost function OwnAfter(mv: Move, q: Pos): set<Tag>
    requires mv.Valid() && q in mv.own
  {
    (mv.own[q] - mv.leaving[q]) + mv.leaving[mv.Upstream(q)]
  }

  ghost predicate Disjoint(own: Particles) {
    forall p, q, t :: p in own && q in own && t in own[p] && t in own[q] ==> p == q
  }

  /** Tags are listed once, the lookup is exact, and every group has its members. */
  ghost predicate SoundOn(gm: Members, s: Store) { Exact(s) && Sized(s) && Genuine(gm, s) }

  ghost predicate Sound(gm: Members, w: Stores, own: Particles) {
    w.Keys == own.Keys && forall q :: q in w ==> SoundOn(gm, w[q])
  }

  /** The ranks that hold the group are those that own a member of it. */
  ghost predicate HeldFor(gm: Members, w: Stores, own: Particles, t: GTag)
    requires t in gm && w.Keys == own.Keys
  {
    forall q :: q in w ==> (t in w[q].rtag <==> Touches(gm[t], own[q]))
  }

  /** Every rank holds exactly the groups it owns a member of, with their members. */
  ghost predicate Held(gm: Members, w: Stores, own: Particles) {
    Sound(gm, w, own) && forall t :: t in gm ==> HeldFor(gm, w, own, t)
  }

  lemma HeldGroup(gm: Members, s: Store, t: GTag)
    requires SoundOn(gm, s) && t in s.rtag
    ensures t in gm && s.rtag[t] < |s.groups| && s.groups[s.rtag[t]].tag == t
    ensures s.groups[s.rtag[t]].members == gm[t] && |s.groups[s.rtag[t]].ranks| == |gm[t]|
  {
  }

  ghost predicate Genuine(gm: Members, s: Store) {
    forall i :: 0 <= i < |s.groups| ==> s.groups[i].tag in gm && s.groups[i].members == gm[s.groups[i].tag]
  }

  /** The owner entered for every member of the group is its owner. */
  ghost predicate RanksExact(w: Stores, own: Particles, t: GTag) {
    forall q, i: nat, j: nat, p ::
      (q in w && p in own && i < |w[q].groups| && w[q].groups[i].tag == t
       && j < |w[q].groups[i].members| && j < |w[q].groups[i].ranks|
       && w[q].groups[i].members[j] in own[p]) ==> w[q].groups[i].ranks[j] == p
  }

  /** Ranks between which a mark of the group has to travel are neighbours: those a member leaves and those that own
      another member. */
  ghost predicate AffectedClose(mv: Move, gm: Members, t: GTag)
    requires mv.Valid() && t in gm
  {
    forall p, q ::
      (p in mv.own && q in mv.own && p != q && Touches(gm[t], mv.leaving[p]) && Touches(gm[t], mv.own[q]))
      ==> Close(mv.g, p, q)
  }

  // ---------- delivery ----------

  /** The items posted to one rank. */
  method ItemsFor<T(==)>(post: seq<Posted<T>>, to: Pos) returns (r: seq<T>)
    ensures forall x :: x in r <==> Posted(to, x) in post
  {
    r := [];
    for i := 0 to |post|
      invariant forall x :: x in r <==> Posted(to, x) in post[..i]
    {
      if post[i].to == to { r := r + [post[i].item]; }
    }
    assert post[..|post|] == post;
  }

  ghost predicate Arrives<T(!new)>(g: Grid, posts: map<Pos, seq<Posted<T>>>, q: Pos, x: T, p: Pos)
    requires g.Has(q) && forall p :: p in posts ==> g.Has(p)
  {
    p in posts && Close(g, p, q) && Posted(q, x) in posts[p]
  }

  /** What one rank receives: the items that its neighbours posted to it. */
  method Inbox<T(!new, ==)>(g: Grid, posts: map<Pos, seq<Posted<T>>>, q: Pos) returns (r: seq<T>)
    requires g.Has(q) && forall p :: p in posts ==> g.Has(p)
    ensures forall x :: x in r <==> exists p :: Arrives(g, posts, q, x, p)
  {
    r := [];
    var todo := posts.Keys;
    while todo != {}
      invariant todo <= posts.Keys
      invariant forall x :: x in r <==> exists p :: p !in todo && Arrives(g, posts, q, x, p)
    {
      var p :| p in todo;
      if Close(g, p, q) {
        var items := ItemsFor(posts[p], q);
        r := r + items;
      }
      todo := todo - {p};
    }
  }

  ghost predicate Delivered<T(!new)>(g: Grid, posts: map<Pos, seq<Posted<T>>>, r: map<Pos, seq<T>>)
    requires forall p :: p in posts ==> g.Has(p)
  {
    r.Keys == posts.Keys && forall q, x :: q in r ==> (x in r[q] <==> exists p :: Arrives(g, posts, q, x, p))
  }

  method Deliver<T(!new, ==)>(g: Grid, posts: map<Pos, seq<Posted<T>>>) returns (r: map<Pos, seq<T>>)
    requires forall p :: p in posts ==> g.Has(p)
    ensures Delivered(g, posts, r)
  {
    r := map[];
    var todo := posts.Keys;
    while todo != {}
      invariant todo <= posts.Keys && r.Keys == posts.Keys - todo
      invariant forall q, x :: q in r ==> (x in r[q] <==> exists p :: Arrives(g, posts, q, x, p))
    {
      hide Arrives;
      var q :| q in todo;
      var items := Inbox(g, posts, q);
      r := r[q := items];
      todo := todo - {q};
    }
  }

  // ---------- the marks ----------

  /** The mark is the one that p makes for a group and addresses to q. */
  ghost predicate MarkFrom(mv: Move, w: Stores, q: Pos, x: Mark, p: Pos)
    requires mv.Valid() && q in mv.own && w.Keys == mv.own.Keys
  {
    && p in w && Sized(w[p]) && Close(mv.g, p, q)
    && exists i :: 0 <= i < |w[p].groups| && Addressed(w[p].groups[i], p, mv.leaving[p], q)
                   && x == MarkOf(w[p].groups[i], mv.leaving[p], Entered(mv, p))
  }

  ghost predicate MarksDelivered(mv: Move, w: Stores, marks: Marks)
    requires mv.Valid() && w.Keys == mv.own.Keys
  {
    marks.Keys == w.Keys && forall q, x :: q in w ==> (x in marks[q] <==> exists p :: MarkFrom(mv, w, q, x, p))
  }

  /** A mark names members that leave its sender, and their destination. */
  ghost predicate MarkSays(mv: Move, members: seq<Tag>, x: Mark, p: Pos)
    requires mv.Valid() && p in mv.own
  {
    && |x.ranks| == |members|
    && (forall j :: j in x.mask <==> 0 <= j < |members| && members[j] in mv.leaving[p])
    && (forall j :: j in x.mask ==> x.ranks[j] == Entered(mv, p))
  }

  lemma MarkOfSays(mv: Move, x: Group, p: Pos)
    requires mv.Valid() && p in mv.own && |x.ranks| == |x.members|
    ensures MarkSays(mv, x.members, MarkOf(x, mv.leaving[p], Entered(mv, p)), p)
  {
    hide Entered, Neighbor;
  }

  lemma MarkSaysWhat(mv: Move, gm: Members, w: Stores, q: Pos, x: Mark, p: Pos)
    requires mv.Valid() && Sound(gm, w, mv.own) && q in w && MarkFrom(mv, w, q, x, p)
    ensures p in w && p != q && Close(mv.g, p, q) && x.tag in gm && MarkSays(mv, gm[x.tag], x, p)
  {
    hide Entered, Neighbor, MarkSays, Mask, Marked;
    var i :| 0 <= i < |w[p].groups| && Addressed(w[p].groups[i], p, mv.leaving[p], q)
             && x == MarkOf(w[p].groups[i], mv.leaving[p], Entered(mv, p));
    MarkOfSays(mv, w[p].groups[i], p);
  }

  lemma MarksFit(mv: Move, gm: Members, w: Stores, marks: Marks, q: Pos, s: Store)
    requires mv.Valid() && Sound(gm, w, mv.own) && MarksDelivered(mv, w, marks) && q in w && Genuine(gm, s)
    ensures Fits(s, marks[q])
  {
    forall k, i | 0 <= k < |marks[q]| && 0 <= i < |s.groups| && s.groups[i].tag == marks[q][k].tag
      ensures |marks[q][k].ranks| == |s.groups[i].members|
    {
      assert marks[q][k] in marks[q];
      var p :| MarkFrom(mv, w, q, marks[q][k], p);
      MarkSaysWhat(mv, gm, w, q, marks[q][k], p);
    }
  }

  /** The store of q after its own marks and the received ones. */
  ghost predicate MarksTaken(mv: Move, gm: Members, w: Stores, marks: Marks, q: Pos, s: Store)
    requires mv.Valid() && Sound(gm, w, mv.own) && MarksDelivered(mv, w, marks) && q in w
  {
    && s.rtag == w[q].rtag && |s.groups| == |w[q].groups|
    && forall i :: 0 <= i < |s.groups| ==>
         (MarksReach(mv, gm, w, marks, q, i);
          s.groups[i] == WithMarks(Marked(w[q].groups[i], mv.leaving[q], Entered(mv, q)), marks[q]))
  }

  lemma MarksReach(mv: Move, gm: Members, w: Stores, marks: Marks, q: Pos, i: nat)
    requires mv.Valid() && Sound(gm, w, mv.own) && MarksDelivered(mv, w, marks) && q in w && i < |w[q].groups|
    ensures forall k :: 0 <= k < |marks[q]| && marks[q][k].tag == w[q].groups[i].tag ==>
              |marks[q][k].ranks| == |w[q].groups[i].members|
  {
    MarksFit(mv, gm, w, marks, q, w[q]);
  }

  // ---------- the entries after the marks ----------

  /** A mark that q receives covers entry j only if that member leaves the mark's sender. */
  lemma CoverMeansLeaving(mv: Move, gm: Members, w: Stores, marks: Marks, q: Pos, k: nat, j: nat)
    requires mv.Valid() && Sound(gm, w, mv.own) && MarksDelivered(mv, w, marks) && q in w
    requires k < |marks[q]| && j in marks[q][k].mask
    ensures marks[q][k].tag in gm && j < |gm[marks[q][k].tag]| && |marks[q][k].ranks| == |gm[marks[q][k].tag]|
    ensures exists p ::
              && p in w && p != q && Close(mv.g, p, q) && gm[marks[q][k].tag][j] in mv.leaving[p]
              && marks[q][k].ranks[j] == Entered(mv, p)
  {
    hide Neighbor, MarkFrom;
    assert marks[q][k] in marks[q];
    var p :| MarkFrom(mv, w, q, marks[q][k], p);
    MarkSaysWhat(mv, gm, w, q, marks[q][k], p);
  }

  /** Entries of members that do not leave, or leave q itself or a rank that is not its neighbour, are not covered
      by received marks. */
  lemma NotCovered(mv: Move, gm: Members, w: Stores, marks: Marks, q: Pos, t: GTag, j: nat, p: Pos)
    requires mv.Valid() && Sound(gm, w, mv.own) && MarksDelivered(mv, w, marks) && q in w
    requires t in gm && j < |gm[t]| && p in w && gm[t][j] in mv.own[p]
    requires p == q || gm[t][j] !in mv.leaving[p] || !Close(mv.g, p, q)
    ensures forall k :: 0 <= k < |marks[q]| && marks[q][k].tag == t ==> j !in marks[q][k].mask
  {
    hide SoundOn, Entered, Close, Neighbor, MarkFrom;
    forall k | 0 <= k < |marks[q]| && marks[q][k].tag == t ensures j !in marks[q][k].mask {
      if j in marks[q][k].mask { CoverMeansLeaving(mv, gm, w, marks, q, k, j); }
    }
  }

  /** A member that leaves q has q's destination entered as its owner; without a mark an entry is kept. */
  lemma LocalEntry(mv: Move, gm: Members, w: Stores, marks: Marks, q: Pos, s: Store, i: nat, j: nat, p: Pos)
    requires mv.Valid() && Sound(gm, w, mv.own) && MarksDelivered(mv, w, marks) && q in w
    requires MarksTaken(mv, gm, w, marks, q, s)
    requires i < |s.groups| && j < |w[q].groups[i].members| && p in w && w[q].groups[i].members[j] in mv.own[p]
    requires p == q || w[q].groups[i].members[j] !in mv.leaving[p] || !Close(mv.g, p, q)
    ensures |s.groups[i].ranks| == |w[q].groups[i].members| && s.groups[i].members == w[q].groups[i].members
    ensures s.groups[i].ranks[j]
            == if w[q].groups[i].members[j] in mv.leaving[q] then Entered(mv, q) else w[q].groups[i].ranks[j]
  {
    hide Neighbor, MarkFrom, Entered, Close;
    var x := w[q].groups[i];
    var marked := Marked(x, mv.leaving[q], Entered(mv, q));
    NotCovered(mv, gm, w, marks, q, x.tag, j, p);
    MarksReach(mv, gm, w, marks, q, i);
    MarksEntry(marked, marks[q], j, p);
  }

  /** The mark of a rank that a member leaves reaches every neighbour that owns another member of the group. */
  lemma MarkArrives(mv: Move, gm: Members, w: Stores, q: Pos, p: Pos, t: GTag, j: nat, n: nat)
    requires mv.Valid() && Sound(gm, w, mv.own) && t in gm && HeldFor(gm, w, mv.own, t) && RanksExact(w, mv.own, t)
    requires q in w && p in w && p != q && Close(mv.g, p, q)
    requires j < |gm[t]| && gm[t][j] in mv.leaving[p] && n < |gm[t]| && gm[t][n] in mv.own[q]
    ensures exists x :: MarkFrom(mv, w, q, x, p) && x.tag == t
  {
    hide Entered, Neighbor, Close, SoundOn;
    assert Touches(gm[t], mv.own[p]) by { assert gm[t][j] in mv.own[p]; }
    HeldGroup(gm, w[p], t);
    var x := w[p].groups[w[p].rtag[t]];
    assert j in Mask(x, mv.leaving[p]);
    assert x.ranks[n] == q;
    assert x.members[n] !in mv.leaving[p];
    assert Addressed(x, p, mv.leaving[p], q);
    SoundIsSized(gm, w[p]);
    assert MarkFrom(mv, w, q, MarkOf(x, mv.leaving[p], Entered(mv, p)), p);
  }

  lemma SoundIsSized(gm: Members, s: Store)
    requires SoundOn(gm, s)
    ensures Sized(s)
  {
  }

  lemma SomeMarkCovers(mv: Move, gm: Members, w: Stores, marks: Marks, q: Pos, p: Pos, t: GTag, j: nat)
    requires mv.Valid() && Sound(gm, w, mv.own) && t in gm && HeldFor(gm, w, mv.own, t) && RanksExact(w, mv.own, t)
    requires MarksDelivered(mv, w, marks) && q in w && p in w && p != q && Close(mv.g, p, q) && t in w[q].rtag
    requires j < |gm[t]| && gm[t][j] in mv.leaving[p]
    ensures exists k :: 0 <= k < |marks[q]| && marks[q][k].tag == t && j in marks[q][k].mask
  {
    hide Neighbor, MarkFrom, Entered, Close, SoundOn;
    assert Touches(gm[t], mv.own[q]);
    var n :| 0 <= n < |gm[t]| && gm[t][n] in mv.own[q];
    MarkArrives(mv, gm, w, q, p, t, j, n);
    var m :| MarkFrom(mv, w, q, m, p) && m.tag == t;
    MarkSaysWhat(mv, gm, w, q, m, p);
    assert m in marks[q];
  }

  lemma CoversAgree(mv: Move, gm: Members, w: Stores, marks: Marks, q: Pos, p: Pos, t: GTag, j: nat)
    requires mv.Valid() && Sound(gm, w, mv.own) && MarksDelivered(mv, w, marks)
    requires q in w && p in w && t in gm && j < |gm[t]| && gm[t][j] in mv.leaving[p]
    ensures forall k :: 0 <= k < |marks[q]| && marks[q][k].tag == t && j in marks[q][k].mask ==>
              |marks[q][k].ranks| == |gm[t]| && marks[q][k].ranks[j] == Entered(mv, p)
  {
    hide Neighbor, MarkFrom, Entered, Close;
    forall k | 0 <= k < |marks[q]| && marks[q][k].tag == t && j in marks[q][k].mask
      ensures |marks[q][k].ranks| == |gm[t]| && marks[q][k].ranks[j] == Entered(mv, p)
    {
      CoverMeansLeaving(mv, gm, w, marks, q, k, j);
    }
  }

  /** A member that leaves a neighbouring rank has that rank's destination entered as its owner. */
  lemma RemoteEntry(mv: Move, gm: Members, w: Stores, marks: Marks, q: Pos, s: Store, i: nat, j: nat, p: Pos)
    requires mv.Valid() && Sound(gm, w, mv.own) && MarksDelivered(mv, w, marks) && q in w
    requires MarksTaken(mv, gm, w, marks, q, s)
    requires i < |s.groups| && j < |w[q].groups[i].members|
    requires var t := w[q].groups[i].tag; t in gm && HeldFor(gm, w, mv.own, t) && RanksExact(w, mv.own, t)
    requires p in w && p != q && Close(mv.g, p, q) && w[q].groups[i].members[j] in mv.leaving[p]
    ensures |s.groups[i].ranks| == |w[q].groups[i].members| && s.groups[i].ranks[j] == Entered(mv, p)
  {
    hide Neighbor, MarkFrom, Entered, Close, RanksExact, HeldFor;
    var x := w[q].groups[i];
    var marked := Marked(x, mv.leaving[q], Entered(mv, q));
    SomeMarkCovers(mv, gm, w, marks, q, p, x.tag, j);
    CoversAgree(mv, gm, w, marks, q, p, x.tag, j);
    MarksReach(mv, gm, w, marks, q, i);
    MarksEntry(marked, marks[q], j, Entered(mv, p));
  }

  /** The rank that owns a particle of p after the step. */
  function NewOwner(mv: Move, p: Pos, t: Tag): Pos
    requires mv.g.Has(p) && p in mv.leaving
  {
    if t in mv.leaving[p] then Neighbor(mv.g, p, mv.d) else p
  }

  lemma NewOwnerOwns(mv: Move, p: Pos, t: Tag, r: Pos)
    requires mv.Valid() && p in mv.own && t in mv.own[p] && r in mv.own
    ensures t in mv.After()[r] <==> r == NewOwner(mv, p, t)
  {
    NeighborPairing(mv.g, p, mv.d);
    NeighborPairing(mv.g, r, mv.d);
  }

  /** With the marks taken in, a holder has the new owner of a member exactly when the member does not leave, or does
      not go astray and leaves the holder itself or one of its neighbours. */
  lemma EntryExact(mv: Move, gm: Members, w: Stores, marks: Marks, q: Pos, s: Store, i: nat, j: nat, p: Pos)
    requires mv.Valid() && Sound(gm, w, mv.own) && MarksDelivered(mv, w, marks) && q in w
    requires MarksTaken(mv, gm, w, marks, q, s)
    requires i < |s.groups| && j < |w[q].groups[i].members|
    requires var t := w[q].groups[i].tag; t in gm && HeldFor(gm, w, mv.own, t) && RanksExact(w, mv.own, t)
    requires p in w && w[q].groups[i].members[j] in mv.own[p]
    ensures |s.groups[i].ranks| == |w[q].groups[i].members|
    ensures s.groups[i].ranks[j] == NewOwner(mv, p, w[q].groups[i].members[j]) <==>
              w[q].groups[i].members[j] !in mv.leaving[p] || (!GoesAstray(mv, p) && (p == q || Close(mv.g, p, q)))
  {
    hide Neighbor, MarkFrom, Entered, Close, MarksDelivered, GoesAstray, HeldFor;
    var x := w[q].groups[i];
    assert Sized(w[q]) && x.ranks[j] == p;
    EnteredExactly(mv, p);
    NeighborPairing(mv.g, p, mv.d);
    if p != q && x.members[j] in mv.leaving[p] && Close(mv.g, p, q) {
      RemoteEntry(mv, gm, w, marks, q, s, i, j, p);
    } else {
      LocalEntry(mv, gm, w, marks, q, s, i, j, p);
    }
  }

  /** All ranks have taken in their marks: same groups as before, new owners entered. */
  ghost predicate AllTaken(mv: Move, gm: Members, w: Stores, marks: Marks, a: Stores)
    requires mv.Valid() && Sound(gm, w, mv.own) && MarksDelivered(mv, w, marks)
  {
    a.Keys == w.Keys && forall q :: q in w ==> MarksTaken(mv, gm, w, marks, q, a[q])
  }

  /** The same groups in the same places, whatever owners are entered. */
  ghost predicate SameGroups(s: Store, a: Store) {
    && a.rtag == s.rtag && |a.groups| == |s.groups| && Sized(a)
    && forall i :: 0 <= i < |a.groups| ==>
         && a.groups[i].tag == s.groups[i].tag && a.groups[i].kind == s.groups[i].kind
         && a.groups[i].members == s.groups[i].members
  }

  lemma TakenSame(mv: Move, gm: Members, w: Stores, marks: Marks, a: Stores, q: Pos)
    requires mv.Valid() && Sound(gm, w, mv.own) && MarksDelivered(mv, w, marks) && AllTaken(mv, gm, w, marks, a)
    requires q in w
    ensures SameGroups(w[q], a[q]) && Exact(a[q]) && Genuine(gm, a[q])
  {
    forall i | 0 <= i < |a[q].groups|
      ensures |a[q].groups[i].ranks| == |a[q].groups[i].members|
      ensures a[q].groups[i].tag == w[q].groups[i].tag && a[q].groups[i].kind == w[q].groups[i].kind
      ensures a[q].groups[i].members == w[q].groups[i].members
    {
      MarksReach(mv, gm, w, marks, q, i);
    }
  }

  /** The owners entered for the group in all stores are those after the step. */
  ghost predicate EntriesExact(mv: Move, a: Stores, t: GTag)
    requires mv.Valid()
  {
    forall q, i: nat, j: nat, p ::
      (q in a && p in mv.own && i < |a[q].groups| && a[q].groups[i].tag == t
       && j < |a[q].groups[i].members| && j < |a[q].groups[i].ranks|
       && a[q].groups[i].members[j] in mv.own[p]) ==>
        a[q].groups[i].ranks[j] == NewOwner(mv, p, a[q].groups[i].members[j])
  }

  lemma CloseIsExact(mv: Move, gm: Members, w: Stores, marks: Marks, a: Stores, t: GTag)
    requires mv.Valid() && Sound(gm, w, mv.own) && MarksDelivered(mv, w, marks) && AllTaken(mv, gm, w, marks, a)
    requires t in gm && HeldFor(gm, w, mv.own, t) && RanksExact(w, mv.own, t)
    requires Straight(mv, gm, t) && AffectedClose(mv, gm, t)
    ensures EntriesExact(mv, a, t)
  {
    hide Neighbor, MarkFrom, Entered, Close, MarksDelivered, RanksExact, GoesAstray;
    forall q, i: nat, j: nat, p |
      q in a && p in mv.own && i < |a[q].groups| && a[q].groups[i].tag == t
      && j < |a[q].groups[i].members| && j < |a[q].groups[i].ranks|
      && a[q].groups[i].members[j] in mv.own[p]
      ensures a[q].groups[i].ranks[j] == NewOwner(mv, p, a[q].groups[i].members[j])
    {
      TakenSame(mv, gm, w, marks, a, q);
      EntryExact(mv, gm, w, marks, q, a[q], i, j, p);
      assert t in w[q].rtag && w[q].groups[i].members == gm[t];
      if a[q].groups[i].members[j] in mv.leaving[p] { assert Touches(gm[t], mv.leaving[p]); }
    }
  }

  /** If a member goes astray its own rank is left with a wrong owner, and if a mark would have to reach a rank that is
      not a neighbour that rank is left with an old one. */
  lemma ExactIsClose(mv: Move, gm: Members, w: Stores, marks: Marks, a: Stores, p: Pos, q: Pos, t: GTag)
    requires mv.Valid() && Sound(gm, w, mv.own) && MarksDelivered(mv, w, marks) && AllTaken(mv, gm, w, marks, a)
    requires t in gm && HeldFor(gm, w, mv.own, t) && RanksExact(w, mv.own, t) && EntriesExact(mv, a, t)
    requires p in w && q in w && Touches(gm[t], mv.leaving[p]) && Touches(gm[t], mv.own[q])
    ensures !GoesAstray(mv, p) && (p == q || Close(mv.g, p, q))
  {
    hide Neighbor, MarkFrom, Entered, Close, MarksDelivered, RanksExact, SoundOn, GoesAstray;
    HeldGroup(gm, w[q], t);
    var i := w[q].rtag[t];
    var j :| 0 <= j < |gm[t]| && gm[t][j] in mv.leaving[p];
    TakenSame(mv, gm, w, marks, a, q);
    EntryExact(mv, gm, w, marks, q, a[q], i, j, p);
    assert a[q].groups[i].members[j] in mv.own[p];
  }

  /** The owners entered for a group after the marks are all exact exactly when no member of it goes astray and every
      mark of it has a neighbour to go to. */
  lemma EntriesExactly(mv: Move, gm: Members, w: Stores, marks: Marks, a: Stores, t: GTag)
    requires mv.Valid() && Sound(gm, w, mv.own) && MarksDelivered(mv, w, marks) && AllTaken(mv, gm, w, marks, a)
    requires t in gm && HeldFor(gm, w, mv.own, t) && RanksExact(w, mv.own, t)
    ensures EntriesExact(mv, a, t) <==> Straight(mv, gm, t) && AffectedClose(mv, gm, t)
  {
    hide Neighbor, MarkFrom, Entered, Close, MarksDelivered, RanksExact, AllTaken, EntriesExact, HeldFor, SoundOn,
      GoesAstray;
    if Straight(mv, gm, t) && AffectedClose(mv, gm, t) { CloseIsExact(mv, gm, w, marks, a, t); }
    if EntriesExact(mv, a, t) {
      forall p, q | p in mv.own && q in mv.own && Touches(gm[t], mv.leaving[p]) && Touches(gm[t], mv.own[q])
        ensures !GoesAstray(mv, p) && (p == q || Close(mv.g, p, q))
      {
        ExactIsClose(mv, gm, w, marks, a, p, q, t);
      }
      forall p | p in mv.own && Touches(gm[t], mv.leaving[p]) ensures !GoesAstray(mv, p) {
        LeavingIsOwned(mv, gm, t, p);
      }
    }
  }

  lemma LeavingIsOwned(mv: Move, gm: Members, t: GTag, p: Pos)
    requires mv.Valid() && t in gm && p in mv.own && Touches(gm[t], mv.leaving[p])
    ensures Touches(gm[t], mv.own[p])
  {
    var j :| 0 <= j < |gm[t]| && gm[t][j] in mv.leaving[p];
  }
}
