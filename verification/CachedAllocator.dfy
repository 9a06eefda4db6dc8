/** The caching allocator: released blocks are kept in order of size and handed out again to requests that
    they fit closely enough; blocks are given back, largest first, when too many bytes are held. */
module CachedAllocator {

  type Pointer = nat

  const NULL: Pointer := 0

  datatype Block = Block(size: nat, ptr: Pointer)

  // ---------- byte counts ----------

  ghost function FreeBytes(free: seq<Block>): nat {
    if free == [] then 0 else FreeBytes(free[..|free| - 1]) + free[|free| - 1].size
  }

  ghost function LiveBytes(live: map<Pointer, nat>): nat
    decreases |live|
  {
    if live == map[] then 0 else
      var p :| p in live;
      assert |live| == |live.Keys| && (live - {p}).Keys == live.Keys - {p};
      live[p] + LiveBytes(live - {p})
  }

  lemma {:induction false} LivePick(live: map<Pointer, nat>, p: Pointer)
    requires p in live
    ensures LiveBytes(live) == live[p] + LiveBytes(live - {p})
    decreases |live|
  {
    var q :| q in live && LiveBytes(live) == live[q] + LiveBytes(live - {q});
    if q != p {
      assert |live - {q}| < |live| by { assert (live - {q}).Keys == live.Keys - {q}; }
      LivePick(live - {q}, p);
      assert |live - {p}| < |live| by { assert (live - {p}).Keys == live.Keys - {p}; }
      LivePick(live - {p}, q);
      assert live - {q} - {p} == live - {p} - {q};
    }
  }

  lemma LiveAdd(live: map<Pointer, nat>, p: Pointer, n: nat)
    requires p !in live
    ensures LiveBytes(live[p := n]) == LiveBytes(live) + n
  {
    LivePick(live[p := n], p);
    assert live[p := n] - {p} == live;
  }

  lemma {:induction false} FreeSplit(free: seq<Block>, i: nat)
    requires i < |free|
    ensures FreeBytes(free) == FreeBytes(free[..i] + free[i + 1..]) + free[i].size
  {
    var n := |free| - 1;
    if i == n {
      assert free[..i] + free[i + 1..] == free[..n];
    } else {
      FreeSplit(free[..n], i);
      assert (free[..i] + free[i + 1..])[..n - 1] == free[..n][..i] + free[..n][i + 1..];
    }
  }

  // ---------- the cache of free blocks ----------

  ghost predicate Sorted(free: seq<Block>) { forall i, j :: 0 <= i < j < |free| ==> free[i].size <= free[j].size }

  /** The first free block that holds n bytes, or the end. */
  method LowerBound(free: seq<Block>, n: nat) returns (i: nat)
    requires Sorted(free)
    ensures i <= |free| && (forall k :: 0 <= k < i ==> free[k].size < n)
    ensures (forall k :: i <= k < |free| ==> n <= free[k].size)
  {
    i := 0;
    while i < |free| && free[i].size < n
      invariant i <= |free| && forall k :: 0 <= k < i ==> free[k].size < n
    {
      i := i + 1;
    }
  }

  /** The place behind all free blocks of at most n bytes. */
  method UpperBound(free: seq<Block>, n: nat) returns (i: nat)
    requires Sorted(free)
    ensures i <= |free| && (forall k :: 0 <= k < i ==> free[k].size <= n)
    ensures (forall k :: i <= k < |free| ==> n < free[k].size)
  {
    i := 0;
    while i < |free| && free[i].size <= n
      invariant i <= |free| && forall k :: 0 <= k < i ==> free[k].size <= n
    {
      i := i + 1;
    }
  }

  /** The cached bytes that a request for n may be given on top. */
  function Slack(n: nat, tolerance: real): nat
    requires tolerance >= 0.0
  {
    (n as real * tolerance).Floor
  }

  /** A block exceeds the request by no more than the tolerated fraction of it. */
  predicate Tolerated(size: nat, n: nat, tolerance: real) {
    size as real <= n as real * (1.0 + tolerance)
  }

  /** The bound in whole bytes is the bound as a fraction. */
  lemma SlackExactly(size: nat, n: nat, tolerance: real)
    requires tolerance >= 0.0
    ensures size <= n + Slack(n, tolerance) <==> Tolerated(size, n, tolerance)
  {
    var x := n as real * tolerance;
    assert n as real * (1.0 + tolerance) == n as real + x;
    assert size <= n + x.Floor <==> (size - n) as real <= x;
  }

  /** If the first block that holds the request is too large then so are all others. */
  lemma NoneFits(free: seq<Block>, i: nat, n: nat, tolerance: real)
    requires tolerance >= 0.0 && Sorted(free) && i <= |free|
    requires forall k :: 0 <= k < i ==> free[k].size < n
    requires i < |free| ==> free[i].size > n + Slack(n, tolerance)
    ensures !Fitting(free, n, tolerance)
  {
    hide Slack, Tolerated;
    forall k | 0 <= k < |free| ensures !(n <= free[k].size && Tolerated(free[k].size, n, tolerance)) {
      SlackExactly(free[k].size, n, tolerance);
    }
  }

  /** Free and live blocks are all different, and none is the null pointer. */
  ghost predicate Separate(free: seq<Block>, live: map<Pointer, nat>) {
    && (forall i :: 0 <= i < |free| ==> free[i].ptr != NULL && free[i].ptr !in live)
    && (forall i, j :: 0 <= i < j < |free| ==> free[i].ptr != free[j].ptr)
    && NULL !in live
  }

  ghost predicate Known(free: seq<Block>, live: map<Pointer, nat>, p: Pointer) {
    p in live || exists i :: 0 <= i < |free| && free[i].ptr == p
  }

  class Allocator {
    var free: seq<Block>
    var live: map<Pointer, nat>
    var total: nat
    var limit: nat
    const tolerance: real

    ghost predicate Valid()
      reads this
    {
      tolerance >= 0.0 && Sorted(free) && Separate(free, live) && total == FreeBytes(free) + LiveBytes(live)
    }

    constructor (limit: nat, tolerance: real)
      requires tolerance >= 0.0
      ensures Valid() && free == [] && live == map[] && this.limit == limit && this.tolerance == tolerance
    {
      free, live, total := [], map[], 0;
      this.limit, this.tolerance := limit, tolerance;
    }

    /** Everything but the block of pending bytes that is being created is accounted for. */
    ghost predicate Balanced(pending: nat)
      reads this
    {
      tolerance >= 0.0 && Sorted(free) && Separate(free, live) && total == FreeBytes(free) + LiveBytes(live) + pending
    }

    /** Gives back free blocks, largest first, until no more bytes are held than allowed. */
    method Evict(ghost pending: nat)
      requires Balanced(pending)
      modifies this`free, this`total
      ensures Balanced(pending) && free <= old(free)
      ensures total <= limit || free == []
      ensures free != old(free) ==> FreeBytes(old(free)[..|free| + 1]) + LiveBytes(live) + pending > limit
    {
      while total > limit && free != []
        invariant Balanced(pending) && free <= old(free)
        invariant free != old(free) ==> FreeBytes(old(free)[..|free| + 1]) + LiveBytes(live) + pending > limit
        decreases |free|
      {
        ghost var before := free;
        var largest := free[|free| - 1];
        total := total - largest.size;
        free := free[..|free| - 1];
        assert old(free)[..|free| + 1] == before;
      }
    }

    /** Hands out a free block. */
    method Reuse(i: nat) returns (p: Pointer)
      requires Valid() && i < |free|
      modifies this`free, this`live
      ensures Valid() && p == old(free)[i].ptr && p !in old(live) && live == old(live)[p := old(free)[i].size]
      ensures free == old(free)[..i] + old(free)[i + 1..]
    {
      FreeSplit(free, i);
      p := free[i].ptr;
      var size := free[i].size;
      LiveAdd(live, p, size);
      hide LiveBytes, FreeBytes;
      free := free[..i] + free[i + 1..];
      live := live[p := size];
    }

    /** Hands out a new block. */
    method Create(n: nat, created: Pointer)
      requires Valid() && created != NULL && !Known(free, live, created)
      modifies this`free, this`live, this`total
      ensures Valid() && live == old(live)[created := n] && free <= old(free) && (total <= limit || free == [])
      ensures free != old(free) ==> FreeBytes(old(free)[..|free| + 1]) + LiveBytes(live) > limit
    {
      hide LiveBytes, FreeBytes;
      total := total + n;
      Evict(n);
      LiveAdd(live, created, n);
      live := live[created := n];
    }

    /** A request is served by the smallest free block that holds it, if that block is not too large, and
        otherwise by a new block from the device. Blocks in use stay in use. */
    method Allocate(n: nat, created: Pointer) returns (p: Pointer)
      requires Valid() && created != NULL && !Known(free, live, created)
      modifies this`free, this`live, this`total
      ensures Valid()
      ensures n == 0 ==> p == NULL && free == old(free) && live == old(live) && total == old(total)
      ensures n > 0 ==> p !in old(live) && p in live && live == old(live)[p := live[p]]
      ensures n > 0 ==> (p != created <==> Fitting(old(free), n, tolerance))
      ensures n > 0 && p != created ==>
                && total == old(total) && BestFit(old(free), n, live[p])
                && FirstTaken(old(free), free, Block(live[p], p))
      ensures n > 0 && p != created ==> Tolerated(live[p], n, tolerance)
      ensures n > 0 && p == created ==> live[p] == n && free <= old(free) && (total <= limit || free == [])
      ensures n > 0 && p == created && free != old(free) ==>
                FreeBytes(old(free)[..|free| + 1]) + LiveBytes(live) > limit
    {
      if n == 0 { return NULL; }
      hide LiveBytes, FreeBytes, Slack, Tolerated;
      var i := LowerBound(free, n);
      if i < |free| && free[i].size <= n + Slack(n, tolerance) {
        SlackExactly(free[i].size, n, tolerance);
        assert Fitting(free, n, tolerance);
        p := Reuse(i);
        assert TakenAt(old(free), free, i, old(free)[i]);
      } else {
        NoneFits(free, i, n, tolerance);
        p := created;
        Create(n, created);
      }
    }

    /** Returns a block to the cache, behind the blocks of its size; the null pointer is ignored. */
    method Deallocate(p: Pointer)
      requires Valid() && (p == NULL || p in live)
      modifies this`free, this`live
      ensures Valid()
      ensures p == NULL ==> free == old(free) && live == old(live)
      ensures p != NULL ==> live == old(live) - {p} && LastTaken(free, old(free), Block(old(live)[p], p))
    {
      if p == NULL { return; }
      hide LiveBytes, FreeBytes, Sorted, Separate, Inserted, LastTaken;
      var n := live[p];
      var i := UpperBound(free, n);
      Returned(free, live, i, p);
      free, live := Inserted(free, i, Block(n, p)), live - {p};
    }
  }

  function Inserted(free: seq<Block>, i: nat, b: Block): seq<Block>
    requires i <= |free|
  {
    free[..i] + [b] + free[i..]
  }

  lemma InsertSorted(free: seq<Block>, i: nat, b: Block)
    requires Sorted(free) && i <= |free|
    requires (forall k :: 0 <= k < i ==> free[k].size <= b.size)
    requires (forall k :: i <= k < |free| ==> b.size < free[k].size)
    ensures Sorted(Inserted(free, i, b))
  {
    var r := Inserted(free, i, b);
    forall x, y | 0 <= x < y < |r| ensures r[x].size <= r[y].size {
      assert y > i ==> r[y] == free[y - 1];
      assert x > i ==> r[x] == free[x - 1];
    }
  }

  lemma InsertSeparate(free: seq<Block>, live: map<Pointer, nat>, i: nat, p: Pointer)
    requires Separate(free, live) && p in live && i <= |free|
    ensures Separate(Inserted(free, i, Block(live[p], p)), live - {p})
  {
    var r := Inserted(free, i, Block(live[p], p));
    forall x | 0 <= x < |r| ensures r[x].ptr != NULL && (r[x].ptr in live ==> r[x].ptr == p) {
      assert x > i ==> r[x] == free[x - 1];
    }
    forall x, y | 0 <= x < y < |r| ensures r[x].ptr != r[y].ptr {
      assert y > i ==> r[y] == free[y - 1];
      assert x > i ==> r[x] == free[x - 1];
    }
  }

  lemma InsertTaken(free: seq<Block>, i: nat, b: Block)
    requires i <= |free|
    ensures TakenAt(Inserted(free, i, b), free, i, b)
    ensures (forall k :: i <= k < |free| ==> b.size < free[k].size) ==> LastTaken(Inserted(free, i, b), free, b)
  {
    var r := Inserted(free, i, b);
    assert TakenAt(r, free, i, b);
    assert forall k :: i < k < |r| ==> r[k] == free[k - 1];
  }

  lemma InsertBytes(free: seq<Block>, i: nat, b: Block)
    requires i <= |free|
    ensures FreeBytes(Inserted(free, i, b)) == FreeBytes(free) + b.size
  {
    hide FreeBytes, Inserted;
    InsertTaken(free, i, b);
    FreeSplit(Inserted(free, i, b), i);
  }

  /** A live block put in its place among the free ones: nothing is lost. */
  lemma Returned(free: seq<Block>, live: map<Pointer, nat>, i: nat, p: Pointer)
    requires Sorted(free) && Separate(free, live) && p in live && i <= |free|
    requires (forall k :: 0 <= k < i ==> free[k].size <= live[p])
    requires (forall k :: i <= k < |free| ==> live[p] < free[k].size)
    ensures var free' := Inserted(free, i, Block(live[p], p));
            && Sorted(free') && Separate(free', live - {p}) && LastTaken(free', free, Block(live[p], p))
            && FreeBytes(free') + LiveBytes(live - {p}) == FreeBytes(free) + LiveBytes(live)
  {
    hide FreeBytes, LiveBytes, Inserted, Separate, LastTaken, TakenAt;
    LivePick(live, p);
    InsertTaken(free, i, Block(live[p], p));
    InsertSorted(free, i, Block(live[p], p));
    InsertSeparate(free, live, i, p);
    InsertBytes(free, i, Block(live[p], p));
  }

  /** No free block that holds n bytes is smaller. */
  ghost predicate BestFit(free: seq<Block>, n: nat, size: nat) {
    n <= size && forall k :: 0 <= k < |free| && free[k].size >= n ==> size <= free[k].size
  }

  predicate Fitting(free: seq<Block>, n: nat, tolerance: real)
    requires tolerance >= 0.0
  {
    exists k :: 0 <= k < |free| && n <= free[k].size && Tolerated(free[k].size, n, tolerance)
  }

  ghost predicate TakenAt(before: seq<Block>, after: seq<Block>, i: nat, b: Block) {
    i < |before| && before[i] == b && after == before[..i] + before[i + 1..]
  }

  /** The cache without one block, the first of its size. */
  ghost predicate FirstTaken(before: seq<Block>, after: seq<Block>, b: Block) {
    exists i: nat :: TakenAt(before, after, i, b) && forall k :: 0 <= k < i ==> before[k].size < b.size
  }

  /** The cache without one block, the last of its size. */
  ghost predicate LastTaken(before: seq<Block>, after: seq<Block>, b: Block) {
    exists i: nat :: TakenAt(before, after, i, b) && forall k :: i < k < |before| ==> b.size < before[k].size
  }
}
