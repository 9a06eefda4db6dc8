/** The bounding box tree: a flat preorder array of nodes with skip counts, searched without a stack. */
module AABBTree {
  import opened Torus
  import opened Vectors
  import opened AABB

  const NODE_CAPACITY: nat := 16

  /** Stands for the all-ones sentinel index. */
  const INVALID_NODE: int := -1

  datatype Node = Node(box: Box, left: int, right: int, parent: int, skip: nat, particles: seq<nat>, tags: seq<nat>)

  const EMPTY_NODE :=
    Node(Box(Vec(0.0, 0.0, 0.0), Vec(0.0, 0.0, 0.0), 0), INVALID_NODE, INVALID_NODE, INVALID_NODE, 0, [], [])

  /** A particle's box together with its index. */
  datatype Entry = Entry(box: Box, id: nat)

  function Boxes(s: seq<Entry>): (r: seq<Box>)
    ensures |r| == |s|
  {
    seq(|s|, i requires 0 <= i < |s| => s[i].box)
  }

  function Ids(s: seq<Entry>): (r: seq<nat>)
    ensures |r| == |s|
  {
    seq(|s|, i requires 0 <= i < |s| => s[i].id)
  }

  // ---------- how a list of boxes is split ----------

  /** The axis along which the box is longest: x only if strictly longest, then y only if longer than z. */
  function SplitAxis(b: Box): Axis {
    if Extent(b, 0) > Extent(b, 1) && Extent(b, 0) > Extent(b, 2) then 0
    else if Extent(b, 1) > Extent(b, 2) then 1
    else 2
  }

  predicate OnLeft(all: Box, e: Entry) { Centre(e.box, SplitAxis(all)) < Centre(all, SplitAxis(all)) }

  /** Of the three edges of the box none is longer than that along a, and none behind it is as long. */
  predicate LastLongest(b: Box, a: Axis) {
    forall c: Axis ::
      var edge, other := b.upper.At(a) - b.lower.At(a), b.upper.At(c) - b.lower.At(c);
      other <= edge && (c > a ==> other < edge)
  }

  /** An entry is on the left exactly when its middle is below the middle of the whole along the longest edge. */
  lemma OnLeftExactly(all: Box, e: Entry, a: Axis)
    requires LastLongest(all, a)
    ensures SplitAxis(all) == a
    ensures OnLeft(all, e) <==> e.box.lower.At(a) + e.box.upper.At(a) < all.lower.At(a) + all.upper.At(a)
  {
    assert Extent(all, 0) <= Extent(all, a) && Extent(all, 1) <= Extent(all, a) && Extent(all, 2) <= Extent(all, a);
    assert (1 > a ==> Extent(all, 1) < Extent(all, a)) && (2 > a ==> Extent(all, 2) < Extent(all, a));
  }

  function LeftOf(all: Box, s: seq<Entry>): (r: seq<Entry>)
    ensures |r| <= |s|
  {
    if s == [] then []
    else LeftOf(all, s[..|s| - 1]) + if OnLeft(all, s[|s| - 1]) then [s[|s| - 1]] else []
  }

  function RightOf(all: Box, s: seq<Entry>): (r: seq<Entry>)
    ensures |r| <= |s|
  {
    if s == [] then []
    else RightOf(all, s[..|s| - 1]) + if OnLeft(all, s[|s| - 1]) then [] else [s[|s| - 1]]
  }

  /** The list with the left entries first, both sides in their old order. */
  function Partitioned(s: seq<Entry>): seq<Entry>
    requires s != []
  {
    LeftOf(MergeAll(Boxes(s)), s) + RightOf(MergeAll(Boxes(s)), s)
  }

  /** Where the right side starts. An empty side gets one entry of the other. */
  function SplitPoint(s: seq<Entry>): (k: nat)
    requires |s| >= 2
    ensures 0 < k < |s|
  {
    var k := |LeftOf(MergeAll(Boxes(s)), s)|;
    if k == |s| then |s| - 1 else if k == 0 then 1 else k
  }

  lemma {:induction false} PartitionKeepsAll(all: Box, s: seq<Entry>)
    ensures |LeftOf(all, s)| + |RightOf(all, s)| == |s|
    ensures multiset(LeftOf(all, s)) + multiset(RightOf(all, s)) == multiset(s)
  {
    if s != [] {
      assert s == s[..|s| - 1] + [s[|s| - 1]];
      PartitionKeepsAll(all, s[..|s| - 1]);
    }
  }

  lemma PartitionedIsPermutation(s: seq<Entry>)
    requires s != []
    ensures |Partitioned(s)| == |s| && multiset(Partitioned(s)) == multiset(s)
  {
    PartitionKeepsAll(MergeAll(Boxes(s)), s);
  }

  // ---------- the tree a list of boxes is built into ----------

  datatype Shape = Leaf(ids: seq<nat>) | Branch(left: Shape, right: Shape)

  function Size(t: Shape): (n: nat)
    ensures n >= 1
  {
    match t case Leaf(_) => 1 case Branch(l, r) => 1 + Size(l) + Size(r)
  }

  /** All particles, in the order of the leaves. */
  function Members(t: Shape): seq<nat> {
    match t case Leaf(ids) => ids case Branch(l, r) => Members(l) + Members(r)
  }

  function Build(s: seq<Entry>): Shape
    requires s != []
    decreases |s|
  {
    if |s| <= NODE_CAPACITY then Leaf(Ids(s))
    else Branch(Build(LeftPart(s)), Build(RightPart(s)))
  }

  /** The entries in the order in which the build leaves them: that of the leaves. */
  function Arranged(s: seq<Entry>): (r: seq<Entry>)
    requires s != []
    ensures |r| == |s|
    decreases |s|
  {
    if |s| <= NODE_CAPACITY then s
    else
      PartsPartition(s);
      Arranged(LeftPart(s)) + Arranged(RightPart(s))
  }

  /** The two lists a long list is split into. */
  function LeftPart(s: seq<Entry>): (r: seq<Entry>)
    requires |s| >= 2
    ensures 0 < |r| < |s|
  {
    PartitionedIsPermutation(s);
    Partitioned(s)[..SplitPoint(s)]
  }

  function RightPart(s: seq<Entry>): (r: seq<Entry>)
    requires |s| >= 2
    ensures 0 < |r| < |s|
  {
    PartitionedIsPermutation(s);
    Partitioned(s)[SplitPoint(s)..]
  }

  lemma PartsPartition(s: seq<Entry>)
    requires |s| >= 2
    ensures Partitioned(s) == LeftPart(s) + RightPart(s)
    ensures |LeftPart(s)| + |RightPart(s)| == |s| && multiset(LeftPart(s)) + multiset(RightPart(s)) == multiset(s)
  {
    hide Partitioned, SplitPoint;
    PartitionedIsPermutation(s);
    var p, k := Partitioned(s), SplitPoint(s);
    assert p == p[..k] + p[k..];
  }

  /** No particle is lost or duplicated by the build, and the leaves list them in the final order. */
  lemma {:induction false} BuildPermutes(s: seq<Entry>)
    requires s != []
    ensures multiset(Arranged(s)) == multiset(s)
    ensures Members(Build(s)) == Ids(Arranged(s))
    decreases |s|
  {
    if |s| > NODE_CAPACITY {
      BuildPermutes(LeftPart(s));
      BuildPermutes(RightPart(s));
      BuildUnfolds(s);
    }
  }

  lemma BuildUnfolds(s: seq<Entry>)
    requires |s| > NODE_CAPACITY
    requires multiset(Arranged(LeftPart(s))) == multiset(LeftPart(s))
    requires Members(Build(LeftPart(s))) == Ids(Arranged(LeftPart(s)))
    requires multiset(Arranged(RightPart(s))) == multiset(RightPart(s))
    requires Members(Build(RightPart(s))) == Ids(Arranged(RightPart(s)))
    ensures multiset(Arranged(s)) == multiset(s) && Members(Build(s)) == Ids(Arranged(s))
  {
    hide LeftPart, RightPart, Ids, Arranged, Build, Members;
    PartsPartition(s);
    LongList(s);
    IdsConcat(Arranged(LeftPart(s)), Arranged(RightPart(s)));
  }

  lemma LongList(s: seq<Entry>)
    requires |s| > NODE_CAPACITY
    ensures Arranged(s) == Arranged(LeftPart(s)) + Arranged(RightPart(s))
    ensures Build(s) == Branch(Build(LeftPart(s)), Build(RightPart(s)))
    ensures Members(Build(s)) == Members(Build(LeftPart(s))) + Members(Build(RightPart(s)))
  {
    hide LeftPart, RightPart;
  }

  lemma IdsConcat(a: seq<Entry>, b: seq<Entry>)
    ensures Ids(a + b) == Ids(a) + Ids(b)
  {
  }

  /** Leaves hold between one and sixteen particles. */
  predicate LeavesFull(t: Shape) {
    match t case Leaf(ids) => 1 <= |ids| <= NODE_CAPACITY case Branch(l, r) => LeavesFull(l) && LeavesFull(r)
  }

  /** The tree has at most 2 N - 1 nodes. */
  lemma {:induction false} BuildIsSmall(s: seq<Entry>)
    requires s != []
    ensures LeavesFull(Build(s)) && Size(Build(s)) <= 2 * |s| - 1
    decreases |s|
  {
    if |s| > NODE_CAPACITY {
      PartsPartition(s);
      BuildIsSmall(LeftPart(s));
      BuildIsSmall(RightPart(s));
    }
  }

  ghost predicate Increasing(s: seq<nat>) { forall i, j :: 0 <= i < j < |s| ==> s[i] < s[j] }

  ghost predicate LeavesInOrder(t: Shape) {
    match t case Leaf(ids) => Increasing(ids) case Branch(l, r) => LeavesInOrder(l) && LeavesInOrder(r)
  }

  lemma {:induction false} FiltersKeepOrder(all: Box, s: seq<Entry>)
    requires Increasing(Ids(s))
    ensures Increasing(Ids(LeftOf(all, s))) && Increasing(Ids(RightOf(all, s)))
    ensures forall e :: e in LeftOf(all, s) || e in RightOf(all, s) ==> e in s
  {
    if s != [] {
      var init, last := s[..|s| - 1], s[|s| - 1];
      assert Ids(init) == Ids(s)[..|s| - 1];
      FiltersKeepOrder(all, init);
      forall e | e in init ensures e.id < last.id {
        var i :| 0 <= i < |init| && init[i] == e;
        assert Ids(s)[i] < Ids(s)[|s| - 1];
      }
      Appended(LeftOf(all, init), last);
      Appended(RightOf(all, init), last);
      assert LeftOf(all, init) + [] == LeftOf(all, init) && RightOf(all, init) + [] == RightOf(all, init);
    }
  }

  lemma Appended(s: seq<Entry>, e: Entry)
    requires Increasing(Ids(s)) && forall x :: x in s ==> x.id < e.id
    ensures Increasing(Ids(s + [e]))
  {
    var t := Ids(s + [e]);
    forall i, j | 0 <= i < j < |t| ensures t[i] < t[j] {
      if j == |s| { assert s[i] in s; } else { assert Ids(s)[i] == t[i] && Ids(s)[j] == t[j]; }
    }
  }

  lemma {:induction false} OneSidedFilter(all: Box, s: seq<Entry>)
    ensures |LeftOf(all, s)| == |s| ==> LeftOf(all, s) == s
    ensures |LeftOf(all, s)| == 0 ==> RightOf(all, s) == s
  {
    if s != [] {
      assert s == s[..|s| - 1] + [s[|s| - 1]];
      OneSidedFilter(all, s[..|s| - 1]);
    }
  }

  lemma PartsAreSides(s: seq<Entry>, l: seq<Entry>, r: seq<Entry>)
    requires |s| >= 2 && l == LeftOf(MergeAll(Boxes(s)), s) && r == RightOf(MergeAll(Boxes(s)), s) && 0 < |l| < |s|
    ensures LeftPart(s) == l && RightPart(s) == r
  {
    hide LeftOf, RightOf, MergeAll;
  }

  lemma PartsAreSlices(s: seq<Entry>)
    requires |s| >= 2 && Partitioned(s) == s
    ensures LeftPart(s) == s[..|LeftPart(s)|] && RightPart(s) == s[|LeftPart(s)|..]
  {
    hide Partitioned, SplitPoint;
  }

  /** The two parts are the two sides, or the unchanged list cut in two. */
  lemma PartsAre(s: seq<Entry>)
    requires |s| >= 2
    ensures var all := MergeAll(Boxes(s));
            || (LeftPart(s) == LeftOf(all, s) && RightPart(s) == RightOf(all, s))
            || (LeftPart(s) == s[..|LeftPart(s)|] && RightPart(s) == s[|LeftPart(s)|..])
  {
    hide LeftOf, RightOf, MergeAll, LeftPart, RightPart;
    var all := MergeAll(Boxes(s));
    OneSidedFilter(all, s);
    PartitionKeepsAll(all, s);
    if 0 < |LeftOf(all, s)| < |s| {
      PartsAreSides(s, LeftOf(all, s), RightOf(all, s));
    } else {
      PartsAreSlices(s);
    }
  }

  lemma PartsKeepOrder(s: seq<Entry>)
    requires |s| >= 2 && Increasing(Ids(s))
    ensures Increasing(Ids(LeftPart(s))) && Increasing(Ids(RightPart(s)))
  {
    hide *;
    PartsAre(s);
    FiltersKeepOrder(MergeAll(Boxes(s)), s);
    SlicesKeepOrder(s, |LeftPart(s)|);
  }

  lemma SlicesKeepOrder(s: seq<Entry>, k: nat)
    requires k <= |s| && Increasing(Ids(s))
    ensures Increasing(Ids(s[..k])) && Increasing(Ids(s[k..]))
  {
    assert Ids(s[..k]) == Ids(s)[..k] && Ids(s[k..]) == Ids(s)[k..];
  }

  /** The partition is stable: particles that come in index order stay so within every leaf. */
  lemma {:induction false} BuildKeepsOrder(s: seq<Entry>)
    requires s != [] && Increasing(Ids(s))
    ensures LeavesInOrder(Build(s))
    decreases |s|
  {
    if |s| > NODE_CAPACITY {
      PartsKeepOrder(s);
      hide LeftPart, RightPart, Increasing;
      BuildKeepsOrder(LeftPart(s));
      BuildKeepsOrder(RightPart(s));
    }
  }
}
