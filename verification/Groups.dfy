/** Bonded groups on one rank during a migration step: marking the new owners of the members that
    leave, taking in the marks of other ranks, sending, compacting and merging. */
module Groups {
  import opened Torus
  import opened Ordered

  type Tag = nat
  type GTag = nat

  /** A bonded group with its particles and, for each of them, the rank believed to own it. */
  datatype Group = Group(tag: GTag, kind: nat, members: seq<Tag>, ranks: seq<Pos>)

  /** The groups of one rank and the reverse lookup; a group tag that is absent is not local. */
  datatype Store = Store(groups: seq<Group>, rtag: map<GTag, nat>)

  /** Tags are listed once, and the lookup is their exact inverse. */
  ghost predicate Exact(s: Store) {
    && (forall i :: 0 <= i < |s.groups| ==> s.groups[i].tag in s.rtag && s.rtag[s.groups[i].tag] == i)
    && (forall t :: t in s.rtag ==> s.rtag[t] < |s.groups| && s.groups[s.rtag[t]].tag == t)
  }

  ghost predicate Sized(s: Store) { forall i :: 0 <= i < |s.groups| ==> |s.groups[i].ranks| == |s.groups[i].members| }

  // ---------- marks ----------

  /** New owners of some members of a group: only the entries in the mask count. */
  datatype Mark = Mark(tag: GTag, ranks: seq<Pos>, mask: set<nat>)

  function Mask(x: Group, leaving: set<Tag>): set<nat> { set i | 0 <= i < |x.members| && x.members[i] in leaving }

  /** The group with the destination entered for every member that leaves. */
  function Marked(x: Group, leaving: set<Tag>, dest: Pos): (r: Group)
    requires |x.ranks| == |x.members|
    ensures |r.ranks| == |r.members|
  {
    x.(ranks := seq(|x.members|, i requires 0 <= i < |x.members| =>
                      if x.members[i] in leaving then dest else x.ranks[i]))
  }

  function MarkedAll(s: seq<Group>, leaving: set<Tag>, dest: Pos): (r: seq<Group>)
    requires forall i :: 0 <= i < |s| ==> |s[i].ranks| == |s[i].members|
    ensures |r| == |s|
  {
    seq(|s|, i requires 0 <= i < |s| => Marked(s[i], leaving, dest))
  }

  /** A mark goes to the rank of every member that does not leave with it, except to the sender. */
  predicate Addressed(x: Group, me: Pos, leaving: set<Tag>, to: Pos)
    requires |x.ranks| == |x.members|
  {
    && Mask(x, leaving) != {}
    && exists j :: 0 <= j < |x.members| && x.ranks[j] == to && to != me && x.members[j] !in leaving
  }

  datatype Posted<T> = Posted(to: Pos, item: T)

  function MarkOf(x: Group, leaving: set<Tag>, dest: Pos): Mark
    requires |x.ranks| == |x.members|
  {
    Mark(x.tag, Marked(x, leaving, dest).ranks, Mask(x, leaving))
  }

  /** Phase one on one rank: enters the destinations and posts the marks. */
  method MarkGroups(s: seq<Group>, me: Pos, leaving: set<Tag>, dest: Pos)
    returns (s': seq<Group>, post: seq<Posted<Mark>>)
    requires forall i :: 0 <= i < |s| ==> |s[i].ranks| == |s[i].members|
    ensures s' == MarkedAll(s, leaving, dest)
    ensures forall to, m :: Posted(to, m) in post <==>
              exists i :: 0 <= i < |s| && Addressed(s[i], me, leaving, to) && m == MarkOf(s[i], leaving, dest)
  {
    s', post := [], [];
    for i := 0 to |s|
      invariant s' == MarkedAll(s, leaving, dest)[..i]
      invariant forall to, m :: Posted(to, m) in post <==>
                  exists k :: 0 <= k < i && Addressed(s[k], me, leaving, to) && m == MarkOf(s[k], leaving, dest)
    {
      var x := s[i];
      var mask := Mask(x, leaving);
      var marked := Marked(x, leaving, dest);
      s' := s' + [marked];
      ghost var before := post;
      if mask != {} {
        var mark := Mark(x.tag, marked.ranks, mask);
        for j := 0 to |x.members|
          invariant forall to, m :: Posted(to, m) in post <==>
                      || Posted(to, m) in before
                      || (&& m == mark && to != me
                          && exists k :: 0 <= k < j && x.ranks[k] == to && x.members[k] !in leaving)
        {
          if marked.ranks[j] != me && j !in mask {
            post := post + [Posted(marked.ranks[j], mark)];
          }
        }
      }
    }
  }

  /** A mark fits a group when it has an entry for every member. */
  ghost predicate Fits(s: Store, marks: seq<Mark>) {
    forall k, i :: 0 <= k < |marks| && 0 <= i < |s.groups| && s.groups[i].tag == marks[k].tag
                   ==> |marks[k].ranks| == |s.groups[i].members|
  }

  function WithMark(x: Group, m: Mark): (r: Group)
    requires |x.ranks| == |x.members| && |m.ranks| == |x.members|
    ensures |r.ranks| == |r.members|
  {
    x.(ranks := seq(|x.members|, i requires 0 <= i < |x.members| => if i in m.mask then m.ranks[i] else x.ranks[i]))
  }

  /** The marks taken into one group, in order of arrival. */
  function WithMarks(x: Group, marks: seq<Mark>): (r: Group)
    requires |x.ranks| == |x.members| && forall k :: 0 <= k < |marks| && marks[k].tag == x.tag ==>
               |marks[k].ranks| == |x.members|
    ensures |r.ranks| == |r.members| && r == x.(ranks := r.ranks)
  {
    if marks == [] then x
    else
      var before := WithMarks(x, marks[..|marks| - 1]);
      var m := marks[|marks| - 1];
      if m.tag == x.tag then WithMark(before, m) else before
  }

  /** Takes the received marks into the groups that are here; others are dropped. */
  method ApplyMarks(s: Store, marks: seq<Mark>) returns (s': Store)
    requires Exact(s) && Sized(s) && Fits(s, marks)
    ensures s'.rtag == s.rtag && |s'.groups| == |s.groups|
    ensures forall i :: 0 <= i < |s.groups| ==> s'.groups[i] == WithMarks(s.groups[i], marks)
  {
    var groups := s.groups;
    for k := 0 to |marks|
      invariant |groups| == |s.groups| && forall i :: 0 <= i < |groups| ==>
                  groups[i] == WithMarks(s.groups[i], marks[..k])
    {
      assert marks[..k + 1][..k] == marks[..k];
      var m := marks[k];
      if m.tag in s.rtag {
        var g := s.rtag[m.tag];
        var ranks := groups[g].ranks;
        for i := 0 to |ranks|
          invariant |ranks| == |groups[g].members|
          invariant forall j :: 0 <= j < |ranks| ==>
                      ranks[j] == if j < i && j in m.mask then m.ranks[j] else groups[g].ranks[j]
        {
          if i in m.mask { ranks := ranks[i := m.ranks[i]]; }
        }
        assert groups[g].(ranks := ranks) == WithMark(groups[g], m);
        groups := groups[g := groups[g].(ranks := ranks)];
      }
    }
    assert marks[..|marks|] == marks;
    s' := Store(groups, s.rtag);
  }

  /** What the marks make of one entry: it is untouched if no mark of the group covers it, and is what
      the covering marks say if they agree. */
  lemma {:induction false} MarksEntry(x: Group, marks: seq<Mark>, i: nat, v: Pos)
    requires |x.ranks| == |x.members| && forall k :: 0 <= k < |marks| && marks[k].tag == x.tag ==>
               |marks[k].ranks| == |x.members|
    requires i < |x.members| && forall k :: 0 <= k < |marks| && marks[k].tag == x.tag && i in marks[k].mask ==>
               marks[k].ranks[i] == v
    ensures (exists k :: 0 <= k < |marks| && marks[k].tag == x.tag && i in marks[k].mask) ==>
              WithMarks(x, marks).ranks[i] == v
    ensures (forall k :: 0 <= k < |marks| && marks[k].tag == x.tag ==> i !in marks[k].mask) ==>
              WithMarks(x, marks).ranks[i] == x.ranks[i]
  {
    if marks != [] {
      var init := marks[..|marks| - 1];
      MarksEntry(x, init, i, v);
      if k :| 0 <= k < |marks| && marks[k].tag == x.tag && i in marks[k].mask {
        if k < |init| { assert init[k] == marks[k]; }
      }
    }
  }

  // ---------- sending, compacting ----------

  predicate HasLeaving(x: Group, leaving: set<Tag>) { exists i :: 0 <= i < |x.members| && x.members[i] in leaving }

  predicate HasStaying(x: Group, owned: set<Tag>, leaving: set<Tag>) {
    exists i :: 0 <= i < |x.members| && x.members[i] in owned && x.members[i] !in leaving
  }

  /** A group goes when one of its members leaves and none stays. */
  predicate Goes(x: Group, owned: set<Tag>, leaving: set<Tag>) {
    HasLeaving(x, leaving) && !HasStaying(x, owned, leaving)
  }

  predicate SentTo(x: Group, leaving: set<Tag>, to: Pos)
    requires |x.ranks| == |x.members|
  {
    exists i :: 0 <= i < |x.members| && x.members[i] in leaving && x.ranks[i] == to
  }

  /** Phase two on one rank: posts every group with a leaving member to that member's destination, and
      takes groups without a staying member out of the lookup. */
  method SendGroups(s: Store, owned: set<Tag>, leaving: set<Tag>)
    returns (rtag: map<GTag, nat>, post: seq<Posted<Group>>)
    requires Exact(s) && Sized(s)
    ensures forall t :: t in rtag <==> t in s.rtag && !Goes(s.groups[s.rtag[t]], owned, leaving)
    ensures forall t :: t in rtag ==> rtag[t] == s.rtag[t]
    ensures forall to, x :: Posted(to, x) in post <==> exists i ::
              0 <= i < |s.groups| && x == s.groups[i] && SentTo(x, leaving, to)
  {
    rtag, post := s.rtag, [];
    for i := 0 to |s.groups|
      invariant forall t :: t in rtag <==> t in s.rtag && (s.rtag[t] < i ==> !Goes(s.groups[s.rtag[t]], owned, leaving))
      invariant forall t :: t in rtag ==> rtag[t] == s.rtag[t]
      invariant forall to, x :: Posted(to, x) in post <==> exists k ::
                  0 <= k < i && x == s.groups[k] && SentTo(x, leaving, to)
    {
      var x := s.groups[i];
      var send := HasLeaving(x, leaving);
      ghost var before := post;
      if send {
        for j := 0 to |x.members|
          invariant forall to, y :: Posted(to, y) in post <==>
                      || Posted(to, y) in before
                      || (y == x && exists k :: 0 <= k < j && x.members[k] in leaving && x.ranks[k] == to)
        {
          if x.members[j] in leaving { post := post + [Posted(x.ranks[j], x)]; }
        }
        if !HasStaying(x, owned, leaving) { rtag := rtag - {x.tag}; }
      }
    }
  }

  function Appended(s: Store, x: Group): (r: Store)
    requires Exact(s) && x.tag !in s.rtag
    ensures Exact(r)
  {
    Store(s.groups + [x], s.rtag[x.tag := |s.groups|])
  }

  lemma AtIndex(s: Store, i: nat)
    requires Exact(s) && i < |s.groups|
    ensures s.groups[i].tag in s.rtag && s.rtag[s.groups[i].tag] == i
  {
  }

  lemma AtTag(s: Store, t: GTag)
    requires Exact(s) && t in s.rtag
    ensures s.rtag[t] < |s.groups| && s.groups[s.rtag[t]].tag == t
  {
  }

  /** out holds, of the first i groups of s, those still in the lookup. */
  ghost predicate CompactedTo(s: Store, rtag: map<GTag, nat>, i: nat, out: Store)
    requires Exact(s) && i <= |s.groups|
  {
    && Exact(out)
    && (forall t :: t in out.rtag <==> t in rtag && t in s.rtag && s.rtag[t] < i)
    && (forall t :: t in out.rtag ==> out.groups[out.rtag[t]] == s.groups[s.rtag[t]])
  }

  lemma CompactStep(s: Store, rtag: map<GTag, nat>, i: nat, out: Store)
    requires Exact(s) && i < |s.groups| && CompactedTo(s, rtag, i, out)
    ensures s.groups[i].tag !in out.rtag
    ensures CompactedTo(s, rtag, i + 1, if s.groups[i].tag in rtag then Appended(out, s.groups[i]) else out)
  {
    AtIndex(s, i);
    var out' := if s.groups[i].tag in rtag then Appended(out, s.groups[i]) else out;
    forall t ensures t in out'.rtag <==> t in rtag && t in s.rtag && s.rtag[t] < i + 1 {
      if t in s.rtag { AtTag(s, t); }
    }
    forall t | t in out'.rtag ensures out'.groups[out'.rtag[t]] == s.groups[s.rtag[t]] {
      if t in out.rtag { AtTag(out, t); }
    }
  }

  /** Copies the groups still in the lookup to the front and renumbers them. */
  method Compact(s: Store, rtag: map<GTag, nat>) returns (s': Store)
    requires Exact(s) && forall t :: t in rtag ==> t in s.rtag && rtag[t] == s.rtag[t]
    ensures CompactedTo(s, rtag, |s.groups|, s')
  {
    var groups: seq<Group> := [];
    var table := rtag;
    ghost var out := Store([], map[]);
    assert CompactedTo(s, rtag, 0, out);
    hide Exact;
    for i := 0 to |s.groups|
      invariant table.Keys == rtag.Keys && out.groups == groups && CompactedTo(s, rtag, i, out)
      invariant forall t :: t in rtag ==> table[t] == if t in out.rtag then out.rtag[t] else rtag[t]
    {
      CompactStep(s, rtag, i, out);
      var t := s.groups[i].tag;
      if t in table {
        out := Appended(out, s.groups[i]);
        groups := groups + [s.groups[i]];
        table := table[t := |groups| - 1];
      }
    }
    s' := Store(groups, table);
    forall t | t in rtag ensures t in out.rtag { AtTag(s, t); }
    assert table == out.rtag;
  }

  // ---------- merging ----------

  predicate Carried(recv: seq<Group>, t: GTag) { exists k :: 0 <= k < |recv| && recv[k].tag == t }

  /** The first copy of every received group, by tag. */
  method FirstCopies(recv: seq<Group>) returns (m: map<GTag, Group>)
    ensures forall t :: t in m <==> Carried(recv, t)
    ensures forall t :: t in m ==> m[t].tag == t && m[t] in recv
  {
    m := map[];
    for k := 0 to |recv|
      invariant forall t :: t in m <==> exists j :: 0 <= j < k && recv[j].tag == t
      invariant forall t :: t in m ==> m[t].tag == t && m[t] in recv
    {
      if recv[k].tag !in m { m := m[recv[k].tag := recv[k]]; }
    }
  }

  /** out is s with received groups appended in ascending order of their tags: those in seen that s lacks. */
  ghost predicate MergedTo(s: Store, recv: seq<Group>, seen: set<GTag>, out: Store) {
    && Exact(out) && s.groups <= out.groups
    && (forall t :: t in out.rtag <==> t in s.rtag || t in seen)
    && (forall j :: |s.groups| <= j < |out.groups| ==>
          out.groups[j] in recv && out.groups[j].tag !in s.rtag && out.groups[j].tag in seen)
    && (forall j, k :: |s.groups| <= j < k < |out.groups| ==> out.groups[j].tag < out.groups[k].tag)
  }

  lemma MergeStep(s: Store, recv: seq<Group>, seen: set<GTag>, out: Store, x: Group)
    requires MergedTo(s, recv, seen, out) && x in recv && forall t :: t in seen ==> t < x.tag
    ensures MergedTo(s, recv, seen + {x.tag}, if x.tag in out.rtag then out else Appended(out, x))
  {
    hide Exact;
  }

  function Tags(recv: seq<Group>): set<GTag> { set x | x in recv :: x.tag }

  lemma TagsCarried(recv: seq<Group>, seen: set<GTag>)
    requires forall t :: t in seen <==> Carried(recv, t)
    ensures seen == Tags(recv)
  {
    forall t ensures t in Tags(recv) <==> Carried(recv, t) {
      if t in Tags(recv) {
        var x :| x in recv && x.tag == t;
        var k :| 0 <= k < |recv| && recv[k] == x;
      }
      if Carried(recv, t) {
        var k :| 0 <= k < |recv| && recv[k].tag == t;
        assert recv[k] in recv;
      }
    }
  }

  /** Appends, in ascending order of their tags, the received groups that are not here yet. */
  method MergeReceived(s: Store, recv: seq<Group>) returns (s': Store)
    requires Exact(s)
    ensures MergedTo(s, recv, Tags(recv), s')
  {
    var m := FirstCopies(recv);
    var ts := Ascending(m.Keys);
    s' := s;
    ghost var seen: set<GTag> := {};
    assert MergedTo(s, recv, seen, s');
    hide MergedTo, Exact, Carried, Tags;
    for i := 0 to |ts|
      invariant MergedTo(s, recv, seen, s') && Exact(s')
      invariant seen == set k | 0 <= k < i :: ts[k]
    {
      var x := m[ts[i]];
      MergeStep(s, recv, seen, s', x);
      if x.tag !in s'.rtag { s' := Appended(s', x); }
      seen := seen + {x.tag};
    }
    assert forall t :: t in seen <==> t in ts;
    TagsCarried(recv, seen);
  }
}
