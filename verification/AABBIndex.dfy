/** Building, searching and updating the bounding box tree in place. */
module AABBIndex {
  import opened Tally
  import opened AABB
  import opened AABBTree
  import opened AABBLayout

  // ---------- what building a stretch of the list produces ----------

  ghost predicate Distinct(s: seq<Entry>) { forall i, j :: 0 <= i < j < |s| ==> s[i].id != s[j].id }

  ghost predicate IdsBelow(s: seq<Entry>, n: nat) { forall i :: 0 <= i < |s| ==> s[i].id < n }

  /** The box of every node below base is the hull of the entries that were built into it. */
  ghost predicate HullAt(nodes: seq<Node>, base: nat, s: seq<Entry>)
    requires s != []
    decreases |s|
  {
    && base < |nodes| && nodes[base].box == MergeAll(Boxes(s))
    && (|s| > NODE_CAPACITY ==>
          && HullAt(nodes, base + 1, LeftPart(s))
          && HullAt(nodes, base + 1 + Size(Build(LeftPart(s))), RightPart(s)))
  }

  lemma {:induction false} SameHulls(a: seq<Node>, b: seq<Node>, base: nat, s: seq<Entry>)
    requires s != [] && HullAt(a, base, s) && base + Size(Build(s)) <= |a| && base + Size(Build(s)) <= |b|
    requires forall j :: base <= j < base + Size(Build(s)) ==> a[j].box == b[j].box
    ensures HullAt(b, base, s)
    decreases |s|
  {
    hide LeftPart, RightPart, MergeAll, Boxes;
    if |s| > NODE_CAPACITY {
      LongList(s);
      SameHulls(a, b, base + 1, LeftPart(s));
      SameHulls(a, b, base + 1 + Size(Build(LeftPart(s))), RightPart(s));
    }
  }

  ghost predicate Carries(s: seq<Entry>, boxes: seq<Box>) {
    forall i :: 0 <= i < |s| ==> s[i].id < |boxes| && boxes[s[i].id] == s[i].box
  }

  lemma PartsCarry(s: seq<Entry>, boxes: seq<Box>)
    requires |s| >= 2 && Carries(s, boxes)
    ensures Carries(LeftPart(s), boxes) && Carries(RightPart(s), boxes)
  {
    hide LeftPart, RightPart;
    PartsWithin(s);
  }

  lemma LeafHull(nodes: seq<Node>, base: nat, s: seq<Entry>, boxes: seq<Box>)
    requires 0 < |s| <= NODE_CAPACITY && Carries(s, boxes) && HullAt(nodes, base, s)
    ensures Hulls(nodes, base, Build(s), boxes)
  {
    assert Picked(boxes, Ids(s)) == Boxes(s);
  }

  /** The leaves of a subtree that was built have exactly the hulls of their particles. */
  lemma {:induction false} BuiltHulls(nodes: seq<Node>, base: nat, s: seq<Entry>, boxes: seq<Box>)
    requires s != [] && Carries(s, boxes) && HullAt(nodes, base, s) && base + Size(Build(s)) <= |nodes|
    ensures Hulls(nodes, base, Build(s), boxes)
    decreases |s|
  {
    hide LeftPart, RightPart, MergeAll, Boxes, Carries;
    if |s| <= NODE_CAPACITY {
      LeafHull(nodes, base, s, boxes);
    } else {
      LongList(s);
      PartsCarry(s, boxes);
      BuiltHulls(nodes, base + 1, LeftPart(s), boxes);
      BuiltHulls(nodes, base + 1 + Size(Build(LeftPart(s))), RightPart(s), boxes);
    }
  }

  /** The subtree t of the entries s stands at base, with its box, its mapping and every particle inside its leaf. */
  ghost predicate Stands(nodes: seq<Node>, mapping: seq<int>, base: nat, t: Shape, s: seq<Entry>, parent: int)
    requires s != []
  {
    && Lays(nodes, base, t, parent) && Tight(nodes, base, t)
    && HullAt(nodes, base, s)
    && Maps(mapping, base, t)
    && InLeaves(nodes, mapping, s)
  }

  ghost predicate Built(nodes: seq<Node>, mapping: seq<int>, base: nat, s: seq<Entry>, parent: int)
    requires s != []
  {
    Stands(nodes, mapping, base, Build(s), s, parent)
  }

  ghost predicate InLeaves(nodes: seq<Node>, mapping: seq<int>, s: seq<Entry>) {
    forall i :: 0 <= i < |s| ==>
      && s[i].id < |mapping| && 0 <= mapping[s[i].id] < |nodes| && Contains(nodes[mapping[s[i].id]].box, s[i].box)
  }

  lemma StandsLays(nodes: seq<Node>, mapping: seq<int>, base: nat, t: Shape, s: seq<Entry>, parent: int)
    requires s != [] && Stands(nodes, mapping, base, t, s, parent)
    ensures Lays(nodes, base, t, parent)
  {
  }

  lemma IdAmong(a: seq<Entry>, s: seq<Entry>, p: nat)
    requires multiset(a) == multiset(s) && p in Ids(a)
    ensures p in Ids(s)
  {
    var i :| 0 <= i < |a| && Ids(a)[i] == p;
    assert a[i] in multiset(a);
    var j :| 0 <= j < |s| && s[j] == a[i];
    assert Ids(s)[j] == p;
  }

  lemma MembersOf(s: seq<Entry>)
    requires s != []
    ensures forall p :: p in Members(Build(s)) <==> p in Ids(s)
  {
    BuildPermutes(s);
    var a := Arranged(s);
    hide Build, Arranged, Members, Ids;
    forall p ensures p in Ids(a) <==> p in Ids(s) {
      if p in Ids(a) { IdAmong(a, s, p); }
      if p in Ids(s) { IdAmong(s, a, p); }
    }
  }

  /** What stands in other stretches of the array and leads from other particles does not matter. */
  lemma StandsFrame(nodes: seq<Node>, mapping: seq<int>, nodes': seq<Node>, mapping': seq<int>, base: nat, t: Shape,
                    s: seq<Entry>, parent: int)
    requires s != [] && t == Build(s) && Stands(nodes, mapping, base, t, s, parent)
    requires base + Size(t) <= |nodes'| && forall j :: base <= j < base + Size(t) ==> nodes'[j] == nodes[j]
    requires |mapping'| == |mapping| && forall p :: 0 <= p < |mapping| && p in Members(t) ==> mapping'[p] == mapping[p]
    requires forall i :: 0 <= i < |s| ==> s[i].id in Members(t)
    ensures Stands(nodes', mapping', base, t, s, parent)
  {
    hide MergeAll, Contains, Boxes, Build, HullAt;
    SameHulls(nodes, nodes', base, s);
    SameStretch(nodes, nodes', base, t, parent);
    SameMapping(mapping, mapping', base, t);
    forall i | 0 <= i < |s|
      ensures s[i].id < |mapping'| && 0 <= mapping'[s[i].id] < |nodes'|
      ensures Contains(nodes'[mapping'[s[i].id]].box, s[i].box)
    {
      HitOf(nodes, mapping, base, t, s[i].box, s[i].id);
    }
  }

  lemma BuiltLeaf(nodes: seq<Node>, mapping: seq<int>, base: nat, s: seq<Entry>, parent: int)
    requires 0 < |s| <= NODE_CAPACITY && base < |nodes|
    requires nodes[base].box == MergeAll(Boxes(s)) && nodes[base].parent == parent && nodes[base].skip == 0
    requires nodes[base].left == INVALID_NODE && nodes[base].right == INVALID_NODE && nodes[base].particles == Ids(s)
    requires forall i :: 0 <= i < |s| ==> s[i].id < |mapping| && mapping[s[i].id] == base
    ensures Built(nodes, mapping, base, s, parent)
  {
    MergeAllIsHull(Boxes(s));
    forall i | 0 <= i < |s| ensures Contains(nodes[base].box, s[i].box) { assert Boxes(s)[i] == s[i].box; }
    hide MergeAll, Contains;
  }

  lemma BuiltBranch(nodes: seq<Node>, mapping: seq<int>, base: nat, s: seq<Entry>, parent: int)
    requires |s| > NODE_CAPACITY && base < |nodes|
    requires nodes[base].box == MergeAll(Boxes(s)) && nodes[base].parent == parent
    requires nodes[base].left == base + 1 && nodes[base].right == base + 1 + Size(Build(LeftPart(s)))
    requires nodes[base].particles == []
    requires Built(nodes, mapping, base + 1, LeftPart(s), base)
    requires Built(nodes, mapping, base + 1 + Size(Build(LeftPart(s))), RightPart(s), base)
    ensures Built(nodes, mapping, base, s, parent)
  {
    hide LeftPart, RightPart, MergeAll, Contains, Merge, Boxes;
    LongList(s);
    PartsPartition(s);
    PartsHull(s);
    var l, r := LeftPart(s), RightPart(s);
    forall i | 0 <= i < |s|
      ensures s[i].id < |mapping| && 0 <= mapping[s[i].id] < |nodes| && Contains(nodes[mapping[s[i].id]].box, s[i].box)
    {
      assert s[i] in multiset(s);
      assert s[i] in l || s[i] in r;
    }
  }

  lemma PartsHull(s: seq<Entry>)
    requires |s| >= 2
    ensures MergeAll(Boxes(s)) == Merge(MergeAll(Boxes(LeftPart(s))), MergeAll(Boxes(RightPart(s))))
  {
    PartsPartition(s);
    var l, r := LeftPart(s), RightPart(s);
    hide LeftPart, RightPart, Merge, MergeAll;
    forall x ensures x in Boxes(s) <==> x in Boxes(l) + Boxes(r) {
      BoxesOf(s, x);
      BoxesOf(l, x);
      BoxesOf(r, x);
      assert forall e :: e in multiset(s) <==> e in multiset(l) + multiset(r);
    }
    HullOfParts(Boxes(s), Boxes(l), Boxes(r));
  }

  lemma BoxesOf(s: seq<Entry>, x: Box)
    ensures x in Boxes(s) <==> exists e :: e in multiset(s) && e.box == x
  {
    if x in Boxes(s) {
      var i :| 0 <= i < |s| && Boxes(s)[i] == x;
      assert s[i] in multiset(s);
    }
    if e :| e in multiset(s) && e.box == x {
      assert e in s;
      var i :| 0 <= i < |s| && s[i] == e;
      assert Boxes(s)[i] == x;
    }
  }

  // ---------- partitioning in place ----------

  /** The entries in a stretch of the list. */
  function Stretch(s: seq<Entry>, start: nat, len: nat): seq<Entry>
    requires start + len <= |s|
  {
    s[start..start + len]
  }

  /** The list with a stretch replaced. */
  function Spliced(s: seq<Entry>, start: nat, part: seq<Entry>): (r: seq<Entry>)
    requires start + |part| <= |s|
    ensures |r| == |s|
  {
    s[..start] + part + s[start + |part|..]
  }

  /** Hull of a stretch, by merging one box after the other. */
  method HullOf(a: array<Entry>, start: nat, len: nat) returns (b: Box)
    requires 0 < len && start + len <= a.Length
    ensures b == MergeAll(Boxes(Stretch(a[..], start, len)))
  {
    ghost var s := Stretch(a[..], start, len);
    b := a[start].box;
    assert Boxes(s)[..1] == [b];
    for i := 1 to len
      invariant b == MergeAll(Boxes(s)[..i])
    {
      assert Boxes(s)[..i + 1][..i] == Boxes(s)[..i];
      b := Merge(b, a[start + i].box);
    }
    assert Boxes(s)[..len] == Boxes(s);
  }

  lemma FilterNone(all: Box)
    ensures LeftOf(all, []) == [] && RightOf(all, []) == []
  {
  }

  lemma FilterStep(all: Box, s: seq<Entry>, i: nat)
    requires i < |s|
    ensures LeftOf(all, s[..i + 1]) == LeftOf(all, s[..i]) + if OnLeft(all, s[i]) then [s[i]] else []
    ensures RightOf(all, s[..i + 1]) == RightOf(all, s[..i]) + if OnLeft(all, s[i]) then [] else [s[i]]
  {
    assert s[..i + 1][..i] == s[..i];
  }

  /** First half of the partition: left entries move down in place, right entries are set aside. */
  method MoveLeft(a: array<Entry>, start: nat, len: nat, all: Box) returns (left: nat, aside: seq<Entry>)
    requires start + len <= a.Length
    modifies a
    ensures left <= len && left == |LeftOf(all, old(Stretch(a[..], start, len)))|
    ensures a[start..start + left] == LeftOf(all, old(Stretch(a[..], start, len)))
    ensures aside == RightOf(all, old(Stretch(a[..], start, len)))
    ensures a[..start] == old(a[..start]) && a[start + len..] == old(a[start + len..])
  {
    hide OnLeft, LeftOf, RightOf;
    ghost var s := Stretch(a[..], start, len);
    FilterNone(all);
    assert s[..0] == [];
    left, aside := 0, [];
    for i := 0 to len
      invariant left <= i && left == |LeftOf(all, s[..i])|
      invariant a[start..start + left] == LeftOf(all, s[..i]) && aside == RightOf(all, s[..i])
      invariant a[..start] == old(a[..start]) && a[start + i..] == old(a[start + i..])
    {
      FilterStep(all, s, i);
      assert a[start + i] == a[start + i..][0] == s[i];
      assert a[start + i + 1..] == a[start + i..][1..];
      if OnLeft(all, a[start + i]) {
        if left != i { a[start + left] := a[start + i]; }
        left := left + 1;
        assert a[start..start + left] == a[start..start + left - 1] + [s[i]];
      } else {
        aside := aside + [a[start + i]];
      }
    }
    assert s[..len] == s;
  }

  /** Second half: the entries set aside are copied back behind the left ones. */
  method CopyBack(a: array<Entry>, at: nat, aside: seq<Entry>)
    requires at + |aside| <= a.Length
    modifies a
    ensures a[..] == Spliced(old(a[..]), at, aside)
  {
    for i := 0 to |aside|
      invariant forall j :: 0 <= j < a.Length ==> a[j] == if at <= j < at + i then aside[j - at] else old(a[j])
    {
      a[at + i] := aside[i];
    }
  }

  lemma SplicedAt(s: seq<Entry>, start: nat, part: seq<Entry>)
    requires start + |part| <= |s|
    ensures forall i :: 0 <= i < |s| ==>
              Spliced(s, start, part)[i] == if start <= i < start + |part| then part[i - start] else s[i]
  {
  }

  lemma PartitionDone(a0: seq<Entry>, mid: seq<Entry>, start: nat, l: seq<Entry>, r: seq<Entry>)
    requires |mid| == |a0| && start + |l| + |r| <= |a0|
    requires mid[..start] == a0[..start] && mid[start..start + |l|] == l
    requires mid[start + |l| + |r|..] == a0[start + |l| + |r|..]
    ensures Spliced(mid, start + |l|, r) == Spliced(a0, start, l + r)
  {
    assert mid == a0[..start] + l + mid[start + |l|..start + |l| + |r|] + a0[start + |l| + |r|..];
    hide Spliced;
    SplicedAt(mid, start + |l|, r);
    SplicedAt(a0, start, l + r);
  }

  /** The stable partition of a stretch. */
  method PartitionInPlace(a: array<Entry>, start: nat, len: nat, all: Box) returns (left: nat)
    requires start + len <= a.Length
    modifies a
    ensures left == |LeftOf(all, old(Stretch(a[..], start, len)))|
    ensures |LeftOf(all, old(Stretch(a[..], start, len)))| + |RightOf(all, old(Stretch(a[..], start, len)))| == len
    ensures a[..]
            == Spliced(old(a[..]), start,
                       LeftOf(all, old(Stretch(a[..], start, len))) + RightOf(all, old(Stretch(a[..], start, len))))
  {
    hide LeftOf, RightOf, Spliced;
    ghost var s, a0 := Stretch(a[..], start, len), a[..];
    PartitionKeepsAll(all, s);
    var aside;
    left, aside := MoveLeft(a, start, len, all);
    ghost var mid := a[..];
    assert mid[..start] == a0[..start] && mid[start..start + left] == LeftOf(all, s);
    assert mid[start + len..] == a0[start + len..];
    PartitionDone(a0, mid, start, LeftOf(all, s), aside);
    CopyBack(a, start + left, aside);
  }

  lemma PermutationDistinct(s: seq<Entry>, p: seq<Entry>)
    requires Distinct(s) && multiset(p) == multiset(s)
    ensures Distinct(p)
  {
    forall i, j | 0 <= i < j < |p| ensures p[i].id != p[j].id {
      assert p[i] in multiset(p) && p[j] in multiset(p);
      assert p[i] in s && p[j] in s;
      if p[i].id == p[j].id {
        var k :| 0 <= k < |s| && s[k] == p[i];
        assert p[i] == p[j];
        TwiceCounted(p, i, j);
        CountOne(s, k);
        assert false;
      }
    }
  }

  lemma ConcatDistinct(l: seq<Entry>, r: seq<Entry>)
    requires Distinct(l + r)
    ensures Distinct(l) && Distinct(r)
    ensures forall i, j :: 0 <= i < |l| && 0 <= j < |r| ==> l[i].id != r[j].id
  {
    var p := l + r;
    assert forall i :: 0 <= i < |l| ==> l[i] == p[i];
    assert forall i :: 0 <= i < |r| ==> r[i] == p[|l| + i];
  }

  lemma PartsDistinct(s: seq<Entry>)
    requires |s| >= 2 && Distinct(s)
    ensures Distinct(LeftPart(s)) && Distinct(RightPart(s))
    ensures forall i, j :: 0 <= i < |LeftPart(s)| && 0 <= j < |RightPart(s)| ==> LeftPart(s)[i].id != RightPart(s)[j].id
  {
    hide LeftPart, RightPart, Distinct;
    PartsPartition(s);
    PermutationDistinct(s, LeftPart(s) + RightPart(s));
    ConcatDistinct(LeftPart(s), RightPart(s));
  }

  lemma PartsWithin(s: seq<Entry>)
    requires |s| >= 2
    ensures forall i :: 0 <= i < |LeftPart(s)| ==> LeftPart(s)[i] in s
    ensures forall i :: 0 <= i < |RightPart(s)| ==> RightPart(s)[i] in s
  {
    hide LeftPart, RightPart;
    PartsPartition(s);
    forall i | 0 <= i < |LeftPart(s)|
      ensures LeftPart(s)[i] in s
    {
      assert LeftPart(s)[i] in multiset(LeftPart(s)) && LeftPart(s)[i] in multiset(s);
    }
    forall i | 0 <= i < |RightPart(s)|
      ensures RightPart(s)[i] in s
    {
      assert RightPart(s)[i] in multiset(RightPart(s)) && RightPart(s)[i] in multiset(s);
    }
  }

  function BoxTags(s: seq<Entry>): seq<nat> { seq(|s|, i requires 0 <= i < |s| => s[i].box.tag) }

  /** The stretches that the two recursive calls work on, and the list they leave behind. */
  lemma SpliceParts(a0: seq<Entry>, start: nat, s: seq<Entry>, a1: seq<Entry>)
    requires |s| > NODE_CAPACITY && start + |s| <= |a0| && |Partitioned(s)| == |s|
    requires a1 == Spliced(a0, start, Partitioned(s))
    ensures var k := SplitPoint(s);
            && |LeftPart(s)| == k && |RightPart(s)| == |s| - k
            && Stretch(a1, start, k) == LeftPart(s)
            && var a2 := Spliced(a1, start, Arranged(LeftPart(s)));
               && Stretch(a2, start + k, |s| - k) == RightPart(s)
               && Spliced(a2, start + k, Arranged(RightPart(s))) == Spliced(a0, start, Arranged(s))
  {
    hide *;
    PartSizes(s);
    ArrangedLong(s);
    PartsPartition(s);
    SpliceTwice(a0, start, LeftPart(s), RightPart(s), Arranged(LeftPart(s)), Arranged(RightPart(s)));
  }

  lemma ArrangedLong(s: seq<Entry>)
    requires |s| > NODE_CAPACITY
    ensures Arranged(s) == Arranged(LeftPart(s)) + Arranged(RightPart(s))
  {
    LongList(s);
  }

  lemma PartSizes(s: seq<Entry>)
    requires |s| > NODE_CAPACITY && |Partitioned(s)| == |s|
    ensures |LeftPart(s)| == SplitPoint(s) && |RightPart(s)| == |s| - SplitPoint(s)
    ensures |Arranged(LeftPart(s))| == |LeftPart(s)| && |Arranged(RightPart(s))| == |RightPart(s)|
  {
    hide Arranged, Partitioned, SplitPoint;
  }

  /** Two neighbouring stretches rearranged one after the other. */
  lemma SpliceTwice(a0: seq<Entry>, start: nat, l: seq<Entry>, r: seq<Entry>, l': seq<Entry>, r': seq<Entry>)
    requires start + |l| + |r| <= |a0| && |l'| == |l| && |r'| == |r|
    ensures var a1 := Spliced(a0, start, l + r);
            && Stretch(a1, start, |l|) == l
            && var a2 := Spliced(a1, start, l');
               && Stretch(a2, start + |l|, |r|) == r
               && Spliced(a2, start + |l|, r') == Spliced(a0, start, l' + r')
  {
    hide Spliced;
    var a1 := Spliced(a0, start, l + r);
    var a2 := Spliced(a1, start, l');
    SplicedAt(a0, start, l + r);
    SplicedAt(a1, start, l');
    SplicedAt(a2, start + |l|, r');
    SplicedAt(a0, start, l' + r');
  }

  /** A subtree keeps standing when nodes are added behind it, its parent is filled in, and the mapping
      of other particles changes. */
  lemma StandsOn(nodes: seq<Node>, mapping: seq<int>, nodes': seq<Node>, mapping': seq<int>, base: nat, s: seq<Entry>,
                 t: Shape, parent: int)
    requires s != [] && t == Build(s) && Stands(nodes, mapping, base, t, s, parent)
    requires base + Size(t) <= |nodes'| && forall j :: base <= j < base + Size(t) ==> nodes'[j] == nodes[j]
    requires |mapping'| == |mapping| && forall p :: 0 <= p < |mapping| && p in Ids(s) ==> mapping'[p] == mapping[p]
    ensures Stands(nodes', mapping', base, t, s, parent)
  {
    MembersOf(s);
    hide Build;
    forall i | 0 <= i < |s| ensures s[i].id in Members(t) { assert Ids(s)[i] == s[i].id; }
    StandsFrame(nodes, mapping, nodes', mapping', base, t, s, parent);
  }

  lemma LaysUnfolds(nodes: seq<Node>, i: nat, t: Shape, parent: int)
    requires Lays(nodes, i, t, parent)
    ensures i + Size(t) <= |nodes| && (nodes[i].left == INVALID_NODE <==> t.Leaf?)
    ensures t.Branch? ==> nodes[i].left == i + 1 && nodes[i].right == i + 1 + Size(t.left)
    ensures t.Branch? ==> Lays(nodes, i + 1, t.left, i) && Lays(nodes, i + 1 + Size(t.left), t.right, i)
  {
  }

  lemma SkipLeaf(nodes: seq<Node>, i: nat, t: Shape, parent: int)
    requires Lays(nodes, i, t, parent) && t.Leaf?
    ensures Skips(nodes, i, t) && SkipOnly(nodes, nodes)
  {
  }

  lemma SkipOnlyLength(a: seq<Node>, b: seq<Node>)
    requires SkipOnly(a, b)
    ensures |a| == |b|
  {
  }

  lemma SkipOnlyTwice(a: seq<Node>, b: seq<Node>, c: seq<Node>)
    requires SkipOnly(a, b) && SkipOnly(b, c)
    ensures SkipOnly(a, c)
  {
  }

  lemma {:induction false} SameSkips(a: seq<Node>, b: seq<Node>, i: nat, t: Shape)
    requires i + Size(t) <= |a| && i + Size(t) <= |b| && Skips(a, i, t)
    requires forall j :: i <= j < i + Size(t) ==> b[j] == a[j]
    ensures Skips(b, i, t)
    decreases t
  {
    match t
    case Leaf(_) =>
    case Branch(l, r) =>
      SameSkips(a, b, i + 1, l);
      SameSkips(a, b, i + 1 + Size(l), r);
  }

  /** The skip counts of both subtrees and then of the node itself; the right subtree starts at m. */
  lemma SkipBranch(n0: seq<Node>, n1: seq<Node>, n2: seq<Node>, n3: seq<Node>, i: nat, m: nat, t: Shape)
    requires t.Branch? && |n0| == |n1| == |n2| && SkipOnly(n0, n1) && SkipOnly(n1, n2)
    requires i + Size(t) <= |n0| && m == i + 1 + Size(t.left) && Skips(n1, i + 1, t.left) && Skips(n2, m, t.right)
    requires forall j :: 0 <= j < |n0| && !(m <= j < i + Size(t)) ==> n2[j] == n1[j]
    requires n3 == n2[i := n2[i].(skip := Size(t.left) + Size(t.right))]
    ensures SkipOnly(n0, n3) && Skips(n3, i, t)
  {
    hide SkipOnly, Skips;
    SkipOnlyTwice(n0, n1, n2);
    SkipSet(n2, i, Size(t.left) + Size(t.right));
    SkipOnlyTwice(n0, n2, n3);
    LeftSkips(n1, n2, n3, i, m, t);
    RightSkips(n2, n3, i, m, t);
    SkipsJoin(n3, i, m, t);
  }

  lemma LeftSkips(n1: seq<Node>, n2: seq<Node>, n3: seq<Node>, i: nat, m: nat, t: Shape)
    requires t.Branch? && i + Size(t) <= |n1| == |n2| == |n3| && m == i + 1 + Size(t.left) && Skips(n1, i + 1, t.left)
    requires forall j :: 0 <= j < |n1| && !(m <= j < i + Size(t)) ==> n2[j] == n1[j]
    requires forall j :: 0 <= j < |n1| && j != i ==> n3[j] == n2[j]
    ensures Skips(n3, i + 1, t.left)
  {
    SameSkips(n1, n3, i + 1, t.left);
  }

  lemma RightSkips(n2: seq<Node>, n3: seq<Node>, i: nat, m: nat, t: Shape)
    requires t.Branch? && i + Size(t) <= |n2| == |n3| && m == i + 1 + Size(t.left) && Skips(n2, m, t.right)
    requires forall j :: 0 <= j < |n2| && j != i ==> n3[j] == n2[j]
    ensures Skips(n3, m, t.right)
  {
    SameSkips(n2, n3, m, t.right);
  }

  lemma SkipSet(nodes: seq<Node>, i: nat, n: nat)
    requires i < |nodes|
    ensures SkipOnly(nodes, nodes[i := nodes[i].(skip := n)])
  {
  }

  lemma SkipsJoin(nodes: seq<Node>, i: nat, m: nat, t: Shape)
    requires t.Branch? && i + Size(t) <= |nodes| && m == i + 1 + Size(t.left)
    requires nodes[i].skip == Size(t.left) + Size(t.right) && Skips(nodes, i + 1, t.left) && Skips(nodes, m, t.right)
    ensures Skips(nodes, i, t)
  {
  }

  /** The tree. The shape and the particles' current boxes are kept for the statements only. */
  class Tree {
    var nodes: seq<Node>
    var mapping: seq<int>
    ghost var shape: Shape
    ghost var current: seq<Box>

    constructor ()
      ensures nodes == [] && mapping == []
    {
      nodes, mapping := [], [];
    }

    /** The array holds the tree in preorder with exact skip counts and tight boxes, every particle is in
        exactly one leaf, the mapping leads to it, and the leaf contains the particle's current box. */
    ghost predicate Valid()
      reads this
    {
      && |nodes| == Size(shape) && Lays(nodes, 0, shape, INVALID_NODE)
      && Skips(nodes, 0, shape) && Tight(nodes, 0, shape)
      && Maps(mapping, 0, shape) && EachOnce(shape, |mapping|) && Covers(nodes, mapping, current)
    }

    /** Creates the leaf for a short stretch. */
    method MakeLeaf(a: array<Entry>, start: nat, len: nat, box: Box, parent: int) returns (me: nat)
      requires 0 < len <= NODE_CAPACITY && start + len <= a.Length
      requires IdsBelow(Stretch(a[..], start, len), |mapping|) && Distinct(Stretch(a[..], start, len))
      modifies this`nodes, this`mapping
      ensures me == |old(nodes)| && |nodes| == me + 1 && nodes[..me] == old(nodes)
      ensures nodes[me]
              == Node(box, INVALID_NODE, INVALID_NODE, parent, 0,
                      Ids(Stretch(a[..], start, len)), BoxTags(Stretch(a[..], start, len)))
      ensures |mapping| == |old(mapping)|
      ensures forall i :: 0 <= i < len ==> mapping[Stretch(a[..], start, len)[i].id] == me
      ensures forall p :: 0 <= p < |mapping| && p !in Ids(Stretch(a[..], start, len)) ==> mapping[p] == old(mapping[p])
    {
      ghost var s := Stretch(a[..], start, len);
      me := |nodes|;
      var particles, tags: seq<nat> := [], [];
      for i := 0 to len
        invariant particles == Ids(s)[..i] && tags == BoxTags(s)[..i] && nodes == old(nodes)
        invariant |mapping| == |old(mapping)|
        invariant forall j :: 0 <= j < i ==> mapping[s[j].id] == me
        invariant forall p :: 0 <= p < |mapping| && p !in Ids(s) ==> mapping[p] == old(mapping[p])
      {
        assert a[start + i] == s[i] && Ids(s)[i] == s[i].id;
        particles := particles + [a[start + i].id];
        tags := tags + [a[start + i].box.tag];
        mapping := mapping[a[start + i].id := me];
      }
      assert forall i :: 0 <= i < len ==> a[start + i] == s[i];
      nodes := nodes + [EMPTY_NODE.(box := box, parent := parent, particles := particles, tags := tags)];
    }

    /** Builds the subtree of a stretch at the end of the node array: the node itself, then its left
        subtree, then its right subtree. */
    method BuildNode(a: array<Entry>, start: nat, len: nat, parent: int) returns (me: nat)
      requires 0 < len && start + len <= a.Length
      requires IdsBelow(Stretch(a[..], start, len), |mapping|) && Distinct(Stretch(a[..], start, len))
      modifies this`nodes, this`mapping, a
      ensures me == |old(nodes)| && |nodes| == me + Size(Build(old(Stretch(a[..], start, len))))
      ensures nodes[..me] == old(nodes)
      ensures Built(nodes, mapping, me, old(Stretch(a[..], start, len)), parent)
      ensures |mapping| == |old(mapping)|
      ensures forall p :: 0 <= p < |mapping| && p !in Ids(old(Stretch(a[..], start, len))) ==>
                mapping[p] == old(mapping[p])
      ensures a[..] == Spliced(old(a[..]), start, Arranged(old(Stretch(a[..], start, len))))
      decreases len
    {
      ghost var s := Stretch(a[..], start, len);
      var box := HullOf(a, start, len);
      if len <= NODE_CAPACITY {
        me := MakeLeaf(a, start, len, box, parent);
        BuiltLeaf(nodes, mapping, me, s, parent);
      } else {
        me := BuildBranch(a, start, len, box, parent);
      }
    }

    method BuildBranch(a: array<Entry>, start: nat, len: nat, box: Box, parent: int) returns (me: nat)
      requires NODE_CAPACITY < len && start + len <= a.Length && box == MergeAll(Boxes(Stretch(a[..], start, len)))
      requires IdsBelow(Stretch(a[..], start, len), |mapping|) && Distinct(Stretch(a[..], start, len))
      modifies this`nodes, this`mapping, a
      ensures me == |old(nodes)| && |nodes| == me + Size(Build(old(Stretch(a[..], start, len))))
      ensures nodes[..me] == old(nodes)
      ensures Built(nodes, mapping, me, old(Stretch(a[..], start, len)), parent)
      ensures |mapping| == |old(mapping)|
      ensures forall p :: 0 <= p < |mapping| && p !in Ids(old(Stretch(a[..], start, len))) ==>
                mapping[p] == old(mapping[p])
      ensures a[..] == Spliced(old(a[..]), start, Arranged(old(Stretch(a[..], start, len))))
      decreases len, 0
    {
      hide LeftPart, RightPart, LeftOf, RightOf, MergeAll, Build, Arranged, Ids, Distinct, Built, Size, Spliced,
        IdsBelow;
      ghost var s, a0, n0, m0 := Stretch(a[..], start, len), a[..], nodes, mapping;
      me := |nodes|;
      nodes := nodes + [EMPTY_NODE];
      var k := PartitionInPlace(a, start, len, box);
      if k == len { k := len - 1; }
      if k == 0 { k := 1; }
      SpliceParts(a0, start, s, a[..]);
      PartsDistinct(s);
      PartsBelow(s, |mapping|);
      var l := BuildNode(a, start, k, me);
      ghost var n1, m1 := nodes, mapping;
      var r := BuildNode(a, start + k, len - k, me);
      ghost var n2 := nodes;
      nodes := nodes[me := nodes[me].(box := box, parent := parent, left := l, right := r)];
      BranchAssembled(n0, n1, n2, m0, m1, mapping, s, nodes, parent);
    }

    /** Fills in the skip counts of a subtree, from the leaves up. */
    method UpdateSkip(i: nat, ghost t: Shape, ghost parent: int) returns (n: nat)
      requires Lays(nodes, i, t, parent)
      modifies this`nodes
      ensures n == Size(t) && SkipOnly(old(nodes), nodes) && Skips(nodes, i, t)
      ensures forall j :: 0 <= j < |nodes| && !(i <= j < i + Size(t)) ==> nodes[j] == old(nodes[j])
      decreases t
    {
      hide Lays, Skips, SkipOnly;
      LaysUnfolds(nodes, i, t, parent);
      if nodes[i].left == INVALID_NODE {
        SkipLeaf(nodes, i, t, parent);
        n := 1;
      } else {
        ghost var n0 := nodes;
        ghost var l, r := t.left, t.right;
        var left, right := nodes[i].left, nodes[i].right;
        var nl := UpdateSkip(left, l, i);
        ghost var n1 := nodes;
        SkipOnlyLength(n0, n1);
        SameStretch(n0, n1, right, r, i);
        var nr := UpdateSkip(right, r, i);
        ghost var n2 := nodes;
        SkipOnlyLength(n1, n2);
        nodes := nodes[i := nodes[i].(skip := nl + nr)];
        SkipBranch(n0, n1, n2, nodes, i, right, t);
        n := nl + nr + 1;
      }
    }

    /** Builds the tree for a list of boxes, one per particle. The first box is read before anything else,
        so the list must not be empty. */
    method BuildTree(boxes: seq<Box>)
      requires boxes != []
      modifies this
      ensures Valid() && current == boxes && |mapping| == |boxes| && Hulls(nodes, 0, shape, boxes)
      ensures LeavesFull(shape) && LeavesInOrder(shape) && |nodes| <= 2 * |boxes| - 1
    {
      hide Stands, SkipOnly, Build, Lays, Skips, Tight, Hulls, Maps, Size, Covers, EachOnce, LeavesFull, LeavesInOrder,
        Arranged, Distinct, IdsBelow, Increasing, Ids, Boxes;
      nodes := [];
      mapping := seq(|boxes|, i => INVALID_NODE);
      var a := new Entry[|boxes|](i requires 0 <= i < |boxes| => Entry(boxes[i], i));
      ghost var s := Stretch(a[..], 0, |boxes|);
      assert s == Indexed(boxes);
      IndexedFacts(boxes);
      var root := BuildNode(a, 0, |boxes|, INVALID_NODE);
      shape, current := Build(s), boxes;
      ghost var before := nodes;
      BuildIsSmall(s);
      BuildKeepsOrder(s);
      StandsLays(nodes, mapping, 0, shape, s, INVALID_NODE);
      var size := UpdateSkip(root, shape, INVALID_NODE);
      SkipOnlyLength(before, nodes);
      BuildDone(boxes, before, nodes, mapping, shape);
    }

    /** Searches without a stack: descend by going to the next node, prune by skipping the subtree. */
    method Query(q: Box) returns (hits: seq<nat>, checks: nat)
      requires Valid()
      ensures hits == LeafHits(nodes, 0, shape, q)
      ensures forall p: nat :: p in hits <==> p < |mapping| && Overlaps(q, nodes[mapping[p]].box)
      ensures forall p :: multiset(hits)[p] <= 1
      ensures forall p :: 0 <= p < |current| && (Overlaps(q, current[p]) || Meets(q, current[p])) ==> p in hits
      ensures Proper(q) ==> forall p: nat :: p in hits && Proper(nodes[mapping[p]].box) ==>
                Meets(q, nodes[mapping[p]].box)
      ensures checks <= |nodes|
    {
      hide HitsFrom, Overlaps, Lays, Skips, Tight, Maps, Size, Covers, EachOnce, Meets, Proper;
      hits, checks := [], 0;
      var i := 0;
      while i < |nodes|
        invariant checks <= i && (i >= |nodes| ==> checks <= |nodes|)
        invariant hits + HitsFrom(nodes, i, q) == HitsFrom(nodes, 0, q)
      {
        checks := checks + 1;
        HitsStep(nodes, i, q);
        if Overlaps(q, nodes[i].box) {
          if nodes[i].left == INVALID_NODE {
            ghost var before := hits;
            for j := 0 to |nodes[i].particles|
              invariant hits == before + nodes[i].particles[..j]
            {
              hits := hits + [nodes[i].particles[j]];
            }
          }
        } else {
          i := i + nodes[i].skip;
        }
        i := i + 1;
      }
      HitsEnd(nodes, i, q);
      SearchAll(nodes, shape, q);
      QueryExact(nodes, mapping, shape, current, q);
      QueryMeets(nodes, mapping, shape, current, q);
    }

    /** Gives particle p a new box: its leaf grows if needed, and then every node above is merged anew. */
    method Update(p: nat, box: Box)
      requires Valid() && p < |mapping|
      modifies this`nodes, this`current
      ensures Valid() && current == old(current)[p := box]
      ensures forall j :: 0 <= j < |nodes| ==> Contains(nodes[j].box, old(nodes[j].box))
    {
      hide Lays, Skips, Tight, Maps, Size, EachOnce, Contains, Merge, TightExcept;
      ghost var n0 := nodes;
      var leaf := mapping[p];
      LeafOf(nodes, mapping, shape, p);
      Unraised(nodes, shape);
      if !Contains(nodes[leaf].box, box) {
        GrowStep(n0, shape, leaf, box);
        nodes := nodes[leaf := nodes[leaf].(box := Merge(nodes[leaf].box, box))];
        var cur := nodes[leaf].parent;
        while cur != INVALID_NODE
          invariant current == old(current) && INVALID_NODE <= cur < leaf && Raised(n0, nodes, shape, cur)
          invariant Contains(nodes[leaf].box, box)
          invariant cur != INVALID_NODE ==> nodes[cur].left != INVALID_NODE
          decreases cur
        {
          RaiseStep(n0, nodes, shape, cur);
          var left, right := nodes[cur].left, nodes[cur].right;
          nodes := nodes[cur := nodes[cur].(box := Merge(nodes[left].box, nodes[right].box))];
          cur := nodes[cur].parent;
        }
      }
      current := current[p := box];
      UpdateDone(n0, nodes, mapping, shape, old(current), p, box);
    }
  }

  // ---------- the facts behind the three operations ----------

  ghost predicate EachOnce(t: Shape, n: nat) {
    forall p: nat :: multiset(Members(t))[p] == if p < n then 1 else 0
  }

  function Indexed(boxes: seq<Box>): seq<Entry> { seq(|boxes|, i requires 0 <= i < |boxes| => Entry(boxes[i], i)) }

  lemma IndexedFacts(boxes: seq<Box>)
    ensures |Indexed(boxes)| == |boxes| && Distinct(Indexed(boxes)) && IdsBelow(Indexed(boxes), |boxes|)
    ensures Increasing(Ids(Indexed(boxes))) && Boxes(Indexed(boxes)) == boxes
  {
  }

  /** After the skip counts are in, a freshly built tree is complete. */
  lemma BuildDone(boxes: seq<Box>, before: seq<Node>, nodes: seq<Node>, mapping: seq<int>, t: Shape)
    requires boxes != [] && |mapping| == |boxes| && t == Build(Indexed(boxes)) && |before| == Size(t)
    requires Stands(before, mapping, 0, t, Indexed(boxes), INVALID_NODE)
    requires SkipOnly(before, nodes) && Skips(nodes, 0, t)
    ensures Lays(nodes, 0, t, INVALID_NODE) && Tight(nodes, 0, t) && Maps(mapping, 0, t)
    ensures EachOnce(t, |mapping|) && Covers(nodes, mapping, boxes) && Hulls(nodes, 0, t, boxes)
  {
    BuiltHulls(before, 0, Indexed(boxes), boxes);
    SkipOnlyKeeps(before, nodes, 0, t, INVALID_NODE);
    BuiltEachOnce(boxes);
    hide Build, MergeAll, Contains;
    forall p | 0 <= p < |boxes| ensures 0 <= mapping[p] < |nodes| && Contains(nodes[mapping[p]].box, boxes[p]) {
      assert Indexed(boxes)[p] == Entry(boxes[p], p);
    }
  }

  lemma IdCount(s: seq<Entry>, a: seq<Entry>, p: nat)
    requires multiset(a) == multiset(s) && Distinct(a) && forall i :: 0 <= i < |s| ==> s[i].id == i
    ensures multiset(Ids(a))[p] == if p < |s| then 1 else 0
  {
    if p < |s| {
      assert s[p] in multiset(s) && s[p] in a;
      var i :| 0 <= i < |a| && a[i] == s[p];
      assert Ids(a)[i] == p;
      CountOne(Ids(a), i);
    } else {
      forall i | 0 <= i < |a| ensures Ids(a)[i] != p {
        assert a[i] in multiset(a) && a[i] in s;
      }
    }
  }

  lemma BuiltEachOnce(boxes: seq<Box>)
    requires boxes != []
    ensures EachOnce(Build(Indexed(boxes)), |boxes|)
  {
    var s := Indexed(boxes);
    IndexedFacts(boxes);
    BuildPermutes(s);
    var a := Arranged(s);
    hide Build, Arranged, Boxes, Members, Ids;
    PermutationDistinct(s, a);
    forall p: nat ensures multiset(Ids(a))[p] == if p < |boxes| then 1 else 0 { IdCount(s, a, p); }
  }

  /** What the search returns, particle by particle. */
  lemma QueryExact(nodes: seq<Node>, mapping: seq<int>, t: Shape, current: seq<Box>, q: Box)
    requires |nodes| == Size(t) && Maps(mapping, 0, t) && EachOnce(t, |mapping|) && Covers(nodes, mapping, current)
    ensures forall p: nat :: p in LeafHits(nodes, 0, t, q) <==> p < |mapping| && Overlaps(q, nodes[mapping[p]].box)
    ensures forall p :: multiset(LeafHits(nodes, 0, t, q))[p] <= 1
    ensures forall p :: 0 <= p < |current| && Overlaps(q, current[p]) ==> p in LeafHits(nodes, 0, t, q)
  {
    hide Overlaps, Contains;
    var hits := LeafHits(nodes, 0, t, q);
    forall p: nat ensures p in hits <==> p < |mapping| && Overlaps(q, nodes[mapping[p]].box) {
      if p in hits { HitsAreMembers(nodes, mapping, 0, t, q, p); }
      if p < |mapping| {
        assert p in multiset(Members(t));
        HitOf(nodes, mapping, 0, t, q, p);
      }
    }
    HitsCount(nodes, 0, t, q);
    forall p | 0 <= p < |current| && Overlaps(q, current[p]) ensures p in hits {
      OutsideIsOutside(q, nodes[mapping[p]].box, current[p]);
    }
  }

  /** The same in terms of points: no particle is missed whose box has a point in common with the query, and only
      leaves with one are returned. */
  lemma QueryMeets(nodes: seq<Node>, mapping: seq<int>, t: Shape, current: seq<Box>, q: Box)
    requires |nodes| == Size(t) && Maps(mapping, 0, t) && EachOnce(t, |mapping|) && Covers(nodes, mapping, current)
    ensures forall p :: 0 <= p < |current| && Meets(q, current[p]) ==> p in LeafHits(nodes, 0, t, q)
    ensures forall p: nat :: p in LeafHits(nodes, 0, t, q) ==> p < |mapping| && 0 <= mapping[p] < |nodes|
    ensures Proper(q) ==> forall p: nat :: p in LeafHits(nodes, 0, t, q) && Proper(nodes[mapping[p]].box) ==>
              Meets(q, nodes[mapping[p]].box)
  {
    hide Overlaps, Contains, Meets, Proper;
    QueryExact(nodes, mapping, t, current, q);
    forall p | 0 <= p < |current| && Meets(q, current[p]) ensures Overlaps(q, current[p]) {
      OverlapsIsMeets(q, current[p]);
    }
    forall p: nat | p in LeafHits(nodes, 0, t, q)
      ensures Proper(q) && Proper(nodes[mapping[p]].box) ==> Meets(q, nodes[mapping[p]].box)
    {
      OverlapsIsMeets(q, nodes[mapping[p]].box);
    }
  }

  /** During an update: only boxes differ, none has shrunk, and only cur may not fit its children. */
  ghost predicate Raised(n0: seq<Node>, n: seq<Node>, t: Shape, cur: int)
  {
    && |n| == Size(t) && BoxOnly(n0, n) && TightExcept(n, 0, t, cur)
    && forall j :: 0 <= j < |n| ==> Contains(n[j].box, n0[j].box)
  }

  lemma Unraised(n0: seq<Node>, t: Shape)
    requires |n0| == Size(t) && Tight(n0, 0, t)
    ensures Raised(n0, n0, t, INVALID_NODE)
  {
    TightIsExceptNone(n0, 0, t);
  }

  lemma {:induction false} LeafAt(nodes: seq<Node>, mapping: seq<int>, i: nat, t: Shape, parent: int, p: nat)
    requires Lays(nodes, i, t, parent) && Maps(mapping, i, t) && p in Members(t)
    ensures p < |mapping| && i <= mapping[p] < i + Size(t) && nodes[mapping[p]].left == INVALID_NODE
    decreases t
  {
    match t
    case Leaf(_) =>
    case Branch(l, r) =>
      if p in Members(l) {
        LeafAt(nodes, mapping, i + 1, l, i, p);
      } else {
        LeafAt(nodes, mapping, i + 1 + Size(l), r, i, p);
      }
  }

  lemma LeafOf(nodes: seq<Node>, mapping: seq<int>, t: Shape, p: nat)
    requires |nodes| == Size(t) && Lays(nodes, 0, t, INVALID_NODE) && Maps(mapping, 0, t) && EachOnce(t, |mapping|)
    requires p < |mapping|
    ensures 0 <= mapping[p] < |nodes| && nodes[mapping[p]].left == INVALID_NODE
  {
    assert p in multiset(Members(t));
    LeafAt(nodes, mapping, 0, t, INVALID_NODE, p);
  }

  lemma MergeGrows(a: Box, b: Box, a0: Box, b0: Box)
    requires Contains(a, a0) && Contains(b, b0)
    ensures Contains(Merge(a, b), Merge(a0, b0))
  {
  }

  lemma GrowStep(n0: seq<Node>, t: Shape, leaf: nat, box: Box)
    requires |n0| == Size(t) && Lays(n0, 0, t, INVALID_NODE) && Tight(n0, 0, t) && leaf < |n0|
    requires n0[leaf].left == INVALID_NODE
    ensures var n := n0[leaf := n0[leaf].(box := Merge(n0[leaf].box, box))];
            && Raised(n0, n, t, n0[leaf].parent) && Contains(n[leaf].box, box)
            && INVALID_NODE <= n0[leaf].parent < leaf
            && (n0[leaf].parent != INVALID_NODE ==> n[n0[leaf].parent].left != INVALID_NODE)
  {
    var n := n0[leaf := n0[leaf].(box := Merge(n0[leaf].box, box))];
    NodeAt(n0, 0, t, INVALID_NODE, leaf);
    if leaf != 0 { ParentIsInner(n0, 0, t, INVALID_NODE, leaf); }
    TightIsExceptNone(n0, 0, t);
    ExceptionMovesUp(n0, n, 0, t, INVALID_NODE, leaf, Merge(n0[leaf].box, box));
    MergeIsLeast(n0[leaf].box, box, box);
  }

  lemma RaiseStep(n0: seq<Node>, n: seq<Node>, t: Shape, cur: nat)
    requires |n0| == Size(t) && Lays(n0, 0, t, INVALID_NODE) && Tight(n0, 0, t)
    requires cur < |n0| && Raised(n0, n, t, cur) && n[cur].left != INVALID_NODE
    ensures 0 <= n[cur].left < |n| && 0 <= n[cur].right < |n|
    ensures var n' := n[cur := n[cur].(box := Merge(n[n[cur].left].box, n[n[cur].right].box))];
            && Raised(n0, n', t, n[cur].parent) && INVALID_NODE <= n[cur].parent < cur
            && (n[cur].parent != INVALID_NODE ==> n'[n[cur].parent].left != INVALID_NODE)
  {
    hide Merge, Contains;
    BoxOnlyKeeps(n0, n, 0, t, INVALID_NODE);
    NodeAt(n, 0, t, INVALID_NODE, cur);
    NodeAt(n0, 0, t, INVALID_NODE, cur);
    if cur != 0 { ParentIsInner(n, 0, t, INVALID_NODE, cur); }
    var l, r := n[cur].left, n[cur].right;
    var b := Merge(n[l].box, n[r].box);
    ExceptionMovesUp(n, n[cur := n[cur].(box := b)], 0, t, INVALID_NODE, cur, b);
    MergeGrows(n[l].box, n[r].box, n0[l].box, n0[r].box);
  }

  lemma ContainsTransitive(a: Box, b: Box, c: Box)
    requires Contains(a, b) && Contains(b, c)
    ensures Contains(a, c)
  {
  }

  lemma UpdateDone(n0: seq<Node>, n: seq<Node>, mapping: seq<int>, t: Shape, current: seq<Box>, p: nat, box: Box)
    requires |n0| == Size(t) && Lays(n0, 0, t, INVALID_NODE) && Skips(n0, 0, t) && Covers(n0, mapping, current)
    requires Raised(n0, n, t, INVALID_NODE) && p < |mapping| && Contains(n[mapping[p]].box, box)
    ensures Lays(n, 0, t, INVALID_NODE) && Skips(n, 0, t) && Tight(n, 0, t) && Covers(n, mapping, current[p := box])
  {
    BoxOnlyKeeps(n0, n, 0, t, INVALID_NODE);
    TightIsExceptNone(n, 0, t);
    hide Contains;
    forall i | 0 <= i < |current| ensures 0 <= mapping[i] < |n| && Contains(n[mapping[i]].box, current[p := box][i]) {
      if i != p { ContainsTransitive(n[mapping[i]].box, n0[mapping[i]].box, current[i]); }
    }
  }

  /** Two subtrees that stand behind a new node make that node's subtree. */
  lemma BranchAssembled(n0: seq<Node>, n1: seq<Node>, n2: seq<Node>, m0: seq<int>, m1: seq<int>, m2: seq<int>,
                        s: seq<Entry>,
                        nodes: seq<Node>, parent: int)
    requires |s| > NODE_CAPACITY && Distinct(s) && |m0| == |m1| == |m2|
    requires |n1| == |n0| + 1 + Size(Build(LeftPart(s))) && n1[..|n0| + 1] == n0 + [EMPTY_NODE]
    requires |n2| == |n1| + Size(Build(RightPart(s))) && n2[..|n1|] == n1
    requires Built(n1, m1, |n0| + 1, LeftPart(s), |n0|) && Built(n2, m2, |n1|, RightPart(s), |n0|)
    requires forall p :: 0 <= p < |m0| && p !in Ids(LeftPart(s)) ==> m1[p] == m0[p]
    requires forall p :: 0 <= p < |m0| && p !in Ids(RightPart(s)) ==> m2[p] == m1[p]
    requires nodes
             == n2[|n0| := n2[|n0|].(box := MergeAll(Boxes(s)), parent := parent, left := |n0| + 1, right := |n1|)]
    ensures Built(nodes, m2, |n0|, s, parent) && |nodes| == |n0| + Size(Build(s)) && nodes[..|n0|] == n0
    ensures forall p :: 0 <= p < |m0| && p !in Ids(s) ==> m2[p] == m0[p]
  {
    hide LeftPart, RightPart, MergeAll, Build, Ids, Distinct, Stands, Boxes;
    var l, r := LeftPart(s), RightPart(s);
    RightLeavesLeft(s, m1, m2);
    StandsOn(n1, m1, nodes, m2, |n0| + 1, l, Build(l), |n0|);
    StandsOn(n2, m2, nodes, m2, |n1|, r, Build(r), |n0|);
    assert n2[|n0|] == EMPTY_NODE;
    BuiltBranch(nodes, m2, |n0|, s, parent);
    OutsideParts(s, m0, m1, m2);
    LongList(s);
  }

  lemma PartsBelow(s: seq<Entry>, n: nat)
    requires |s| >= 2 && IdsBelow(s, n)
    ensures IdsBelow(LeftPart(s), n) && IdsBelow(RightPart(s), n)
  {
    hide LeftPart, RightPart;
    PartsWithin(s);
  }

  lemma RightLeavesLeft(s: seq<Entry>, m1: seq<int>, m2: seq<int>)
    requires |s| >= 2 && Distinct(s) && |m1| == |m2|
    requires forall p :: 0 <= p < |m1| && p !in Ids(RightPart(s)) ==> m2[p] == m1[p]
    ensures forall p :: 0 <= p < |m1| && p in Ids(LeftPart(s)) ==> m2[p] == m1[p]
  {
    PartsDistinct(s);
    hide LeftPart, RightPart, Distinct;
    forall p | 0 <= p < |m1| && p in Ids(LeftPart(s)) ensures p !in Ids(RightPart(s)) {
      var i :| 0 <= i < |LeftPart(s)| && Ids(LeftPart(s))[i] == p;
    }
  }

  lemma OutsideParts(s: seq<Entry>, m0: seq<int>, m1: seq<int>, m2: seq<int>)
    requires |s| >= 2 && |m0| == |m1| == |m2|
    requires forall p :: 0 <= p < |m0| && p !in Ids(LeftPart(s)) ==> m1[p] == m0[p]
    requires forall p :: 0 <= p < |m0| && p !in Ids(RightPart(s)) ==> m2[p] == m1[p]
    ensures forall p :: 0 <= p < |m0| && p !in Ids(s) ==> m2[p] == m0[p]
  {
    PartsWithin(s);
    hide LeftPart, RightPart;
    forall p | 0 <= p < |m0| && p !in Ids(s) ensures p !in Ids(LeftPart(s)) && p !in Ids(RightPart(s)) {
      NotAmong(s, LeftPart(s), p);
      NotAmong(s, RightPart(s), p);
    }
  }

  lemma NotAmong(s: seq<Entry>, part: seq<Entry>, p: nat)
    requires p !in Ids(s) && forall i :: 0 <= i < |part| ==> part[i] in s
    ensures p !in Ids(part)
  {
    forall i | 0 <= i < |part| ensures part[i].id != p {
      var j :| 0 <= j < |s| && s[j] == part[i];
      assert Ids(s)[j] == part[i].id;
    }
  }
}
