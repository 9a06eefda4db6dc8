/** What it means for the flat node array to hold a tree, and what the stackless search of such an
    array finds. */
module AABBLayout {
  import opened AABB
  import opened AABBTree

  /** The nodes from i on are the subtree t in preorder: left child next to its parent, the right
      child after the left subtree, links to the parent below. */
  predicate Lays(nodes: seq<Node>, i: nat, t: Shape, parent: int)
    decreases t
  {
    && i + Size(t) <= |nodes| && nodes[i].parent == parent
    && match t
       case Leaf(ids) =>
         && nodes[i].left == INVALID_NODE && nodes[i].right == INVALID_NODE
         && nodes[i].particles == ids && nodes[i].skip == 0
       case Branch(l, r) =>
         && nodes[i].left == i + 1 && nodes[i].right == i + 1 + Size(l) && nodes[i].particles == []
         && Lays(nodes, i + 1, l, i) && Lays(nodes, i + 1 + Size(l), r, i)
  }

  /** Every node's skip is the number of nodes below it. */
  predicate Skips(nodes: seq<Node>, i: nat, t: Shape)
    requires i + Size(t) <= |nodes|
    decreases t
  {
    && nodes[i].skip == Size(t) - 1
    && match t case Leaf(_) => true case Branch(l, r) => Skips(nodes, i + 1, l) && Skips(nodes, i + 1 + Size(l), r)
  }

  /** Every inner node's box is the merge of its children's boxes. */
  predicate Tight(nodes: seq<Node>, i: nat, t: Shape)
    requires i + Size(t) <= |nodes|
    decreases t
  {
    match t case Leaf(_) => true
    case Branch(l, r) =>
      && nodes[i].box == Merge(nodes[i + 1].box, nodes[i + 1 + Size(l)].box)
      && Tight(nodes, i + 1, l) && Tight(nodes, i + 1 + Size(l), r)
  }

  function Picked(boxes: seq<Box>, ids: seq<nat>): seq<Box>
    requires forall j :: 0 <= j < |ids| ==> ids[j] < |boxes|
  {
    seq(|ids|, j requires 0 <= j < |ids| => boxes[ids[j]])
  }

  /** Every leaf's box is the merge of the boxes of its particles, and no larger. */
  predicate Hulls(nodes: seq<Node>, i: nat, t: Shape, boxes: seq<Box>)
    requires i + Size(t) <= |nodes|
    decreases t
  {
    match t
    case Leaf(ids) =>
      && ids != [] && (forall j :: 0 <= j < |ids| ==> ids[j] < |boxes|)
      && nodes[i].box == MergeAll(Picked(boxes, ids))
    case Branch(l, r) => Hulls(nodes, i + 1, l, boxes) && Hulls(nodes, i + 1 + Size(l), r, boxes)
  }

  /** The mapping leads from every particle of the subtree to its leaf. */
  predicate Maps(mapping: seq<int>, i: nat, t: Shape)
    decreases t
  {
    match t
    case Leaf(ids) => forall j :: 0 <= j < |ids| ==> ids[j] < |mapping| && mapping[ids[j]] == i
    case Branch(l, r) => Maps(mapping, i + 1, l) && Maps(mapping, i + 1 + Size(l), r)
  }

  /** Equal stretches of two arrays hold the same subtree. */
  lemma {:induction false} SameStretch(a: seq<Node>, b: seq<Node>, i: nat, t: Shape, parent: int)
    requires i + Size(t) <= |a| && i + Size(t) <= |b| && forall j :: i <= j < i + Size(t) ==> a[j] == b[j]
    ensures Lays(a, i, t, parent) ==> Lays(b, i, t, parent)
    ensures Tight(a, i, t) ==> Tight(b, i, t)
    ensures Skips(a, i, t) ==> Skips(b, i, t)
    decreases t
  {
    match t
    case Leaf(_) =>
    case Branch(l, r) =>
      SameStretch(a, b, i + 1, l, i);
      SameStretch(a, b, i + 1 + Size(l), r, i);
  }

  /** The arrays agree on a stretch up to the skip counts. */
  ghost predicate SkipOnly(a: seq<Node>, b: seq<Node>) {
    |a| == |b| && forall j :: 0 <= j < |a| ==> b[j] == a[j].(skip := b[j].skip)
  }

  lemma {:induction false} SkipOnlyKeeps(a: seq<Node>, b: seq<Node>, i: nat, t: Shape, parent: int)
    requires SkipOnly(a, b) && Lays(a, i, t, parent) && Skips(b, i, t)
    ensures Lays(b, i, t, parent)
    ensures Tight(a, i, t) ==> Tight(b, i, t)
    ensures forall boxes :: Hulls(a, i, t, boxes) ==> Hulls(b, i, t, boxes)
    decreases t
  {
    match t
    case Leaf(_) =>
    case Branch(l, r) =>
      SkipOnlyKeeps(a, b, i + 1, l, i);
      SkipOnlyKeeps(a, b, i + 1 + Size(l), r, i);
  }

  lemma {:induction false} SameMapping(a: seq<int>, b: seq<int>, i: nat, t: Shape)
    requires Maps(a, i, t) && |a| == |b| && forall j :: 0 <= j < |a| && j in Members(t) ==> a[j] == b[j]
    ensures Maps(b, i, t)
    decreases t
  {
    match t
    case Leaf(_) =>
    case Branch(l, r) =>
      SameMapping(a, b, i + 1, l);
      SameMapping(a, b, i + 1 + Size(l), r);
  }

  // ---------- the stackless search ----------

  /** What the search still finds from index i on. */
  function HitsFrom(nodes: seq<Node>, i: nat, q: Box): seq<nat>
    decreases |nodes| - i
  {
    if i >= |nodes| then []
    else if Overlaps(q, nodes[i].box) then
      (if nodes[i].left == INVALID_NODE then nodes[i].particles else []) + HitsFrom(nodes, i + 1, q)
    else HitsFrom(nodes, i + 1 + nodes[i].skip, q)
  }

  /** The reference: the particles of all leaves whose box overlaps, leaf by leaf. */
  function LeafHits(nodes: seq<Node>, i: nat, t: Shape, q: Box): seq<nat>
    requires i + Size(t) <= |nodes|
    decreases t
  {
    match t
    case Leaf(ids) => if Overlaps(q, nodes[i].box) then ids else []
    case Branch(l, r) => LeafHits(nodes, i + 1, l, q) + LeafHits(nodes, i + 1 + Size(l), r, q)
  }

  /** Nothing under a node whose box misses the query is hit. */
  lemma {:induction false} MissedSubtree(nodes: seq<Node>, i: nat, t: Shape, q: Box)
    requires i + Size(t) <= |nodes| && Tight(nodes, i, t) && !Overlaps(q, nodes[i].box)
    ensures LeafHits(nodes, i, t, q) == []
    decreases t
  {
    match t
    case Leaf(_) =>
    case Branch(l, r) =>
      var a, b := nodes[i + 1].box, nodes[i + 1 + Size(l)].box;
      MergeIsLeast(a, b, a);
      if Overlaps(q, a) { OutsideIsOutside(q, nodes[i].box, a); }
      if Overlaps(q, b) { OutsideIsOutside(q, nodes[i].box, b); }
      MissedSubtree(nodes, i + 1, l, q);
      MissedSubtree(nodes, i + 1 + Size(l), r, q);
  }

  lemma HitsStep(nodes: seq<Node>, i: nat, q: Box)
    requires i < |nodes|
    ensures HitsFrom(nodes, i, q)
            == if Overlaps(q, nodes[i].box)
               then (if nodes[i].left == INVALID_NODE then nodes[i].particles else []) + HitsFrom(nodes, i + 1, q)
               else HitsFrom(nodes, i + 1 + nodes[i].skip, q)
  {
  }

  lemma HitsEnd(nodes: seq<Node>, i: nat, q: Box)
    requires i >= |nodes|
    ensures HitsFrom(nodes, i, q) == []
  {
  }

  /** Skipping and descending find exactly what the leaf scan of the subtree finds. */
  lemma {:induction false} SearchSubtree(nodes: seq<Node>, i: nat, t: Shape, parent: int, q: Box)
    requires Lays(nodes, i, t, parent) && Skips(nodes, i, t) && Tight(nodes, i, t)
    ensures HitsFrom(nodes, i, q) == LeafHits(nodes, i, t, q) + HitsFrom(nodes, i + Size(t), q)
    decreases t
  {
    hide HitsFrom, Overlaps, Merge;
    HitsStep(nodes, i, q);
    if !Overlaps(q, nodes[i].box) {
      MissedSubtree(nodes, i, t, q);
    } else {
      match t
      case Leaf(_) =>
      case Branch(l, r) =>
        SearchSubtree(nodes, i + 1, l, i, q);
        SearchSubtree(nodes, i + 1 + Size(l), r, i, q);
    }
  }

  lemma SearchAll(nodes: seq<Node>, t: Shape, q: Box)
    requires Lays(nodes, 0, t, INVALID_NODE) && Skips(nodes, 0, t) && Tight(nodes, 0, t) && |nodes| == Size(t)
    ensures HitsFrom(nodes, 0, q) == LeafHits(nodes, 0, t, q)
  {
    SearchSubtree(nodes, 0, t, INVALID_NODE, q);
  }

  // ---------- no overlapping particle is missed ----------

  /** The leaf of every particle contains the particle's current box. */
  predicate Covers(nodes: seq<Node>, mapping: seq<int>, current: seq<Box>) {
    && |mapping| == |current|
    && forall p :: 0 <= p < |current| ==> 0 <= mapping[p] < |nodes| && Contains(nodes[mapping[p]].box, current[p])
  }

  lemma {:induction false} HitOf(nodes: seq<Node>, mapping: seq<int>, i: nat, t: Shape, q: Box, p: nat)
    requires i + Size(t) <= |nodes| && Maps(mapping, i, t) && p in Members(t)
    ensures p < |mapping| && i <= mapping[p] < i + Size(t)
    ensures Overlaps(q, nodes[mapping[p]].box) ==> p in LeafHits(nodes, i, t, q)
    decreases t
  {
    match t
    case Leaf(_) =>
    case Branch(l, r) =>
      if p in Members(l) {
        HitOf(nodes, mapping, i + 1, l, q, p);
      } else {
        HitOf(nodes, mapping, i + 1 + Size(l), r, q, p);
      }
  }

  lemma {:induction false} HitsAreMembers(nodes: seq<Node>, mapping: seq<int>, i: nat, t: Shape, q: Box, p: nat)
    requires i + Size(t) <= |nodes| && Maps(mapping, i, t) && p in LeafHits(nodes, i, t, q)
    ensures p in Members(t) && p < |mapping| && 0 <= mapping[p] < |nodes| && Overlaps(q, nodes[mapping[p]].box)
    decreases t
  {
    match t
    case Leaf(_) =>
    case Branch(l, r) =>
      if p in LeafHits(nodes, i + 1, l, q) { HitsAreMembers(nodes, mapping, i + 1, l, q, p); }
      else { HitsAreMembers(nodes, mapping, i + 1 + Size(l), r, q, p); }
  }

  /** Hits are listed at most as often as the particle occurs in the leaves. */
  lemma {:induction false} HitsCount(nodes: seq<Node>, i: nat, t: Shape, q: Box)
    requires i + Size(t) <= |nodes|
    ensures multiset(LeafHits(nodes, i, t, q)) <= multiset(Members(t))
    decreases t
  {
    match t
    case Leaf(_) =>
    case Branch(l, r) =>
      HitsCount(nodes, i + 1, l, q);
      HitsCount(nodes, i + 1 + Size(l), r, q);
  }

  // ---------- changing one box ----------

  /** Every inner node but x is the merge of its children. */
  predicate TightExcept(nodes: seq<Node>, i: nat, t: Shape, x: int)
    requires i + Size(t) <= |nodes|
    decreases t
  {
    match t case Leaf(_) => true
    case Branch(l, r) =>
      && (i != x ==> nodes[i].box == Merge(nodes[i + 1].box, nodes[i + 1 + Size(l)].box))
      && TightExcept(nodes, i + 1, l, x) && TightExcept(nodes, i + 1 + Size(l), r, x)
  }

  lemma {:induction false} ExceptOutside(nodes: seq<Node>, nodes': seq<Node>, i: nat, t: Shape, x: int, y: int)
    requires i + Size(t) <= |nodes| && i + Size(t) <= |nodes'| && forall j :: i <= j < i + Size(t) ==>
               nodes'[j] == nodes[j]
    requires !(i <= x < i + Size(t)) && !(i <= y < i + Size(t)) && TightExcept(nodes, i, t, x)
    ensures TightExcept(nodes', i, t, y)
    decreases t
  {
    match t
    case Leaf(_) =>
    case Branch(l, r) =>
      ExceptOutside(nodes, nodes', i + 1, l, x, y);
      ExceptOutside(nodes, nodes', i + 1 + Size(l), r, x, y);
  }

  lemma {:induction false} TightIsExceptNone(nodes: seq<Node>, i: nat, t: Shape)
    requires i + Size(t) <= |nodes|
    ensures Tight(nodes, i, t) <==> TightExcept(nodes, i, t, INVALID_NODE)
    ensures forall x :: Tight(nodes, i, t) ==> TightExcept(nodes, i, t, x)
    decreases t
  {
    match t
    case Leaf(_) =>
    case Branch(l, r) =>
      TightIsExceptNone(nodes, i + 1, l);
      TightIsExceptNone(nodes, i + 1 + Size(l), r);
  }

  /** The links of a node: children after it, parent before it. */
  lemma {:induction false} NodeAt(nodes: seq<Node>, i: nat, t: Shape, parent: int, x: nat)
    requires Lays(nodes, i, t, parent) && i <= x < i + Size(t)
    ensures x == i ==> nodes[x].parent == parent
    ensures x != i ==> i <= nodes[x].parent < x
    ensures nodes[x].left != INVALID_NODE ==> x < nodes[x].left < i + Size(t) && x < nodes[x].right < i + Size(t)
    ensures nodes[x].left != INVALID_NODE && Tight(nodes, i, t) ==>
              nodes[x].box == Merge(nodes[nodes[x].left].box, nodes[nodes[x].right].box)
    decreases t
  {
    match t
    case Leaf(_) =>
    case Branch(l, r) =>
      if i + 1 <= x < i + 1 + Size(l) { NodeAt(nodes, i + 1, l, i, x); }
      else if i + 1 + Size(l) <= x { NodeAt(nodes, i + 1 + Size(l), r, i, x); }
  }

  /** Inner nodes have inner parents: following parent links stays on inner nodes. */
  lemma {:induction false} ParentIsInner(nodes: seq<Node>, i: nat, t: Shape, parent: int, x: nat)
    requires Lays(nodes, i, t, parent) && i < x < i + Size(t)
    ensures i <= nodes[x].parent < x && nodes[nodes[x].parent].left != INVALID_NODE
    decreases t
  {
    match t
    case Leaf(_) =>
    case Branch(l, r) =>
      if i + 1 < x < i + 1 + Size(l) { ParentIsInner(nodes, i + 1, l, i, x); }
      else if i + 1 + Size(l) < x { ParentIsInner(nodes, i + 1 + Size(l), r, i, x); }
  }

  /** Setting the box of x right moves the one exception to its parent. */
  lemma {:induction false} ExceptionMovesUp(nodes: seq<Node>, nodes': seq<Node>, i: nat, t: Shape, parent: int, x: nat,
                                            b: Box)
    requires Lays(nodes, i, t, parent) && i <= x < i + Size(t) && parent < i
    requires nodes' == nodes[x := nodes[x].(box := b)] && TightExcept(nodes, i, t, x)
    requires nodes[x].left != INVALID_NODE ==>
               && 0 <= nodes[x].left < |nodes| && 0 <= nodes[x].right < |nodes|
               && b == Merge(nodes[nodes[x].left].box, nodes[nodes[x].right].box)
    ensures TightExcept(nodes', i, t, nodes[x].parent)
    decreases t
  {
    hide Merge;
    match t
    case Leaf(_) =>
    case Branch(l, r) =>
      if x == i {
        ExceptOutside(nodes, nodes', i + 1, l, x, parent);
        ExceptOutside(nodes, nodes', i + 1 + Size(l), r, x, parent);
      } else {
        NodeAt(nodes, i, t, parent, x);
        if x < i + 1 + Size(l) {
          MovesUpLeft(nodes, nodes', i, t, parent, x, b);
        } else {
          MovesUpRight(nodes, nodes', i, t, parent, x, b);
        }
      }
  }

  lemma MovesUpLeft(nodes: seq<Node>, nodes': seq<Node>, i: nat, t: Shape, parent: int, x: nat, b: Box)
    requires t.Branch? && Lays(nodes, i, t, parent) && i < x < i + 1 + Size(t.left) && parent < i
    requires nodes' == nodes[x := nodes[x].(box := b)] && TightExcept(nodes, i, t, x)
    requires nodes[x].left != INVALID_NODE ==>
               && 0 <= nodes[x].left < |nodes| && 0 <= nodes[x].right < |nodes|
               && b == Merge(nodes[nodes[x].left].box, nodes[nodes[x].right].box)
    ensures TightExcept(nodes', i, t, nodes[x].parent)
    decreases t, 0
  {
    hide Merge;
    var l, r := t.left, t.right;
    NodeAt(nodes, i + 1, l, i, x);
    ExceptionMovesUp(nodes, nodes', i + 1, l, i, x, b);
    ExceptOutside(nodes, nodes', i + 1 + Size(l), r, x, nodes[x].parent);
  }

  lemma MovesUpRight(nodes: seq<Node>, nodes': seq<Node>, i: nat, t: Shape, parent: int, x: nat, b: Box)
    requires t.Branch? && Lays(nodes, i, t, parent) && i + 1 + Size(t.left) <= x < i + Size(t) && parent < i
    requires nodes' == nodes[x := nodes[x].(box := b)] && TightExcept(nodes, i, t, x)
    requires nodes[x].left != INVALID_NODE ==>
               && 0 <= nodes[x].left < |nodes| && 0 <= nodes[x].right < |nodes|
               && b == Merge(nodes[nodes[x].left].box, nodes[nodes[x].right].box)
    ensures TightExcept(nodes', i, t, nodes[x].parent)
    decreases t, 0
  {
    hide Merge;
    var l, r := t.left, t.right;
    NodeAt(nodes, i + 1 + Size(l), r, i, x);
    ExceptionMovesUp(nodes, nodes', i + 1 + Size(l), r, i, x, b);
    ExceptOutside(nodes, nodes', i + 1, l, x, nodes[x].parent);
  }

  /** The arrays agree up to the boxes. */
  ghost predicate BoxOnly(a: seq<Node>, b: seq<Node>) {
    |a| == |b| && forall j :: 0 <= j < |a| ==> b[j] == a[j].(box := b[j].box)
  }

  lemma {:induction false} BoxOnlyKeeps(a: seq<Node>, b: seq<Node>, i: nat, t: Shape, parent: int)
    requires BoxOnly(a, b) && Lays(a, i, t, parent)
    ensures Lays(b, i, t, parent) && (Skips(a, i, t) ==> Skips(b, i, t))
    decreases t
  {
    match t
    case Leaf(_) =>
    case Branch(l, r) =>
      BoxOnlyKeeps(a, b, i + 1, l, i);
      BoxOnlyKeeps(a, b, i + 1 + Size(l), r, i);
  }
}
