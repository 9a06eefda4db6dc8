/** Axis-aligned bounding boxes over the reals. */
module AABB {
  import opened Torus
  import opened Vectors

  datatype Box = Box(lower: Vec, upper: Vec, tag: nat)

  function Min(a: real, b: real): real { if b < a then b else a }
  function Max(a: real, b: real): real { if a < b then b else a }

  predicate Overlaps(a: Box, b: Box) {
    !(b.upper.x < a.lower.x || b.lower.x > a.upper.x || b.upper.y < a.lower.y
      || b.lower.y > a.upper.y || b.upper.z < a.lower.z || b.lower.z > a.upper.z)
  }

  predicate Contains(a: Box, b: Box) {
    && b.lower.x >= a.lower.x && b.upper.x <= a.upper.x
    && b.lower.y >= a.lower.y && b.upper.y <= a.upper.y
    && b.lower.z >= a.lower.z && b.upper.z <= a.upper.z
  }

  /** The smallest box around both. */
  function Merge(a: Box, b: Box): Box {
    Box(Vec(Min(a.lower.x, b.lower.x), Min(a.lower.y, b.lower.y), Min(a.lower.z, b.lower.z)),
        Vec(Max(a.upper.x, b.upper.x), Max(a.upper.y, b.upper.y), Max(a.upper.z, b.upper.z)), 0)
  }

  function Centre(b: Box, a: Axis): real { (b.lower.At(a) + b.upper.At(a)) / 2.0 }

  function Extent(b: Box, a: Axis): real { b.upper.At(a) - b.lower.At(a) }

  // ---------- boxes as sets of points ----------

  predicate Proper(b: Box) { b.lower.x <= b.upper.x && b.lower.y <= b.upper.y && b.lower.z <= b.upper.z }

  predicate InBox(b: Box, v: Vec) {
    b.lower.x <= v.x <= b.upper.x && b.lower.y <= v.y <= b.upper.y && b.lower.z <= v.z <= b.upper.z
  }

  /** The boxes have a point in common. */
  ghost predicate Meets(a: Box, b: Box) { exists v :: InBox(a, v) && InBox(b, v) }

  /** Overlapping boxes are those with a common point; a box in which upper is below lower has none. */
  lemma OverlapsIsMeets(a: Box, b: Box)
    ensures Meets(a, b) ==> Overlaps(a, b)
    ensures Proper(a) && Proper(b) && Overlaps(a, b) ==> Meets(a, b)
  {
    var v := Vec(Max(a.lower.x, b.lower.x), Max(a.lower.y, b.lower.y), Max(a.lower.z, b.lower.z));
    if Proper(a) && Proper(b) && Overlaps(a, b) { assert InBox(a, v) && InBox(b, v); }
  }

  /** A box contains another exactly when it has all of its points. */
  lemma ContainsIsSuperset(a: Box, b: Box)
    requires Proper(b)
    ensures Contains(a, b) <==> forall v :: InBox(b, v) ==> InBox(a, v)
  {
    assert InBox(b, b.lower) && InBox(b, b.upper);
  }

  /** Merge is the least box above its arguments. */
  lemma MergeIsLeast(a: Box, b: Box, c: Box)
    ensures Contains(Merge(a, b), a) && Contains(Merge(a, b), b)
    ensures Contains(c, Merge(a, b)) <==> Contains(c, a) && Contains(c, b)
  {
  }

  /** What does not overlap a box does not overlap anything inside it. */
  lemma OutsideIsOutside(q: Box, outer: Box, inner: Box)
    requires Contains(outer, inner) && Overlaps(q, inner)
    ensures Overlaps(q, outer)
  {
  }

  // ---------- the hull of a list of boxes ----------

  function MergeAll(s: seq<Box>): Box
    requires s != []
  {
    if |s| == 1 then s[0] else Merge(MergeAll(s[..|s| - 1]), s[|s| - 1])
  }

  /** The box contains all of s, and is contained in every box that does. */
  ghost predicate IsHull(b: Box, s: seq<Box>) {
    && (forall i :: 0 <= i < |s| ==> Contains(b, s[i]))
    && (forall c :: (forall i :: 0 <= i < |s| ==> Contains(c, s[i])) ==> Contains(c, b))
  }

  lemma {:induction false} MergeAllIsHull(s: seq<Box>)
    requires s != []
    ensures IsHull(MergeAll(s), s)
    ensures |s| > 1 ==> MergeAll(s).tag == 0
  {
    if |s| > 1 {
      var init, last := s[..|s| - 1], s[|s| - 1];
      MergeAllIsHull(init);
      MergeIsLeast(MergeAll(init), last, last);
      forall c | forall i :: 0 <= i < |s| ==> Contains(c, s[i]) ensures Contains(c, MergeAll(s)) {
        assert forall i :: 0 <= i < |init| ==> init[i] == s[i];
        MergeIsLeast(MergeAll(init), last, c);
      }
    }
  }

  lemma HullUnique(a: Box, s: seq<Box>, b: Box, t: seq<Box>)
    requires IsHull(a, s) && IsHull(b, t) && (forall x :: x in s <==> x in t) && a.tag == b.tag
    ensures a == b
  {
    forall i | 0 <= i < |t| ensures Contains(a, t[i]) { assert t[i] in s; }
    forall i | 0 <= i < |s| ensures Contains(b, s[i]) { assert s[i] in t; }
    assert Contains(a, b) && Contains(b, a);
    assert a.lower == b.lower && a.upper == b.upper;
  }

  /** However a list is split into two non-empty parts, the hull is the merge of the parts' hulls. */
  lemma HullOfParts(s: seq<Box>, l: seq<Box>, r: seq<Box>)
    requires l != [] && r != [] && s != [] && (forall x :: x in s <==> x in l + r) && |s| == |l + r|
    ensures MergeAll(s) == Merge(MergeAll(l), MergeAll(r))
  {
    MergeAllIsHull(s);
    MergeAllIsHull(l);
    MergeAllIsHull(r);
    var m := Merge(MergeAll(l), MergeAll(r));
    forall i | 0 <= i < |l + r| ensures Contains(m, (l + r)[i]) {
      MergeIsLeast(MergeAll(l), MergeAll(r), m);
    }
    forall c | forall i :: 0 <= i < |l + r| ==> Contains(c, (l + r)[i]) ensures Contains(c, m) {
      forall i | 0 <= i < |l| ensures Contains(c, l[i]) { assert l[i] == (l + r)[i]; }
      forall i | 0 <= i < |r| ensures Contains(c, r[i]) { assert r[i] == (l + r)[|l| + i]; }
      MergeIsLeast(MergeAll(l), MergeAll(r), c);
    }
    HullUnique(MergeAll(s), s, m, l + r);
  }
}
