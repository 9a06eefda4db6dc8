/** The table of ranks of a two-level grid and its inverse: each node fills its block of the grid of domains
    with its own ranks. */
module RankMap {
  import opened Indexing

  /** A grid of extents (x, y, z). */
  datatype Box = Box(x: nat, y: nat, z: nat) {
    predicate Valid() { x >= 1 && y >= 1 && z >= 1 }

    function Size(): nat { x * y * z }
  }

  datatype Cell = Cell(x: nat, y: nat, z: nat)

  predicate In(b: Box, c: Cell) { c.x < b.x && c.y < b.y && c.z < b.z }

  /** The place of a cell in the order of the loops, in which z runs fastest. */
  function Order(b: Box, c: Cell): nat { Index3(b.z, b.y, c.z, c.y, c.x) }

  /** The index of a cell in a table, in which x runs fastest. */
  function Index(b: Box, c: Cell): nat { Index3(b.x, b.y, c.x, c.y, c.z) }

  function CellAt(b: Box, o: nat): Cell
    requires b.Valid()
  {
    Cell(o / b.z / b.y, o / b.z % b.y, o % b.z)
  }

  lemma Reversed(x: nat, y: nat, z: nat)
    ensures z * y * x == x * y * z
  {
    assert z * y == y * z;
    assert x * y * z == x * (y * z);
  }

  lemma OrderRange(b: Box, c: Cell)
    requires In(b, c)
    ensures b.Valid() && Order(b, c) < b.Size() && Index(b, c) < b.Size() && CellAt(b, Order(b, c)) == c
  {
    hide Index3;
    Index3Bound(b.z, b.y, b.x, c.z, c.y, c.x);
    Index3Bound(b.x, b.y, b.z, c.x, c.y, c.z);
    Index3Inverse(b.z, b.y, c.z, c.y, c.x);
    Reversed(b.x, b.y, b.z);
  }

  lemma SameIndex(b: Box, c: Cell, e: Cell)
    requires In(b, c) && In(b, e) && Index(b, c) == Index(b, e)
    ensures c == e
  {
    Index3Inverse(b.x, b.y, c.x, c.y, c.z);
    Index3Inverse(b.x, b.y, e.x, e.y, e.z);
  }

  lemma CellInRange(b: Box, o: nat)
    requires b.Valid() && o < b.Size()
    ensures In(b, CellAt(b, o)) && Order(b, CellAt(b, o)) == o
  {
    assert b.Size() == b.z * (b.y * b.x);
    QuotientBound(o, b.z, b.y * b.x);
    QuotientBound(o / b.z, b.y, b.x);
  }

  /** Every index below the size belongs to a cell. */
  lemma IndexCovers(b: Box, i: nat) returns (c: Cell)
    requires b.Valid() && i < b.Size()
    ensures In(b, c) && Index(b, c) == i
  {
    hide Index3;
    var x, y, z := Index3Covers(b.x, b.y, b.z, i);
    c := Cell(x, y, z);
  }

  // ---------- blocks of nodes ----------

  /** The grid of nodes, the grid of ranks within a node, and the ranks of every node in ascending order. */
  datatype Layout = Layout(node: Box, intra: Box, ranks: seq<seq<nat>>) {
    function Total(): nat { node.Size() * intra.Size() }

    function Grid(): Box { Box(node.x * intra.x, node.y * intra.y, node.z * intra.z) }

    /** Every rank is on one node, and every node has one rank per cell of its block. */
    ghost predicate Valid() {
      && node.Valid() && intra.Valid() && |ranks| == node.Size()
      && (forall a :: 0 <= a < |ranks| ==> |ranks[a]| == intra.Size())
      && (forall a, k :: 0 <= a < |ranks| && 0 <= k < |ranks[a]| ==> ranks[a][k] < Total())
      && (forall a, k, b, l ::
            (&& 0 <= a < |ranks| && 0 <= k < |ranks[a]| && 0 <= b < |ranks| && 0 <= l < |ranks[b]|
             && ranks[a][k] == ranks[b][l]) ==> a == b && k == l)
      && (forall r: nat :: r < Total() ==> Listed(ranks, r))
    }
  }

  ghost predicate Listed(ranks: seq<seq<nat>>, r: nat) {
    exists a, k :: 0 <= a < |ranks| && 0 <= k < |ranks[a]| && ranks[a][k] == r
  }

  /** The domain of cell c of the block of node cell a. */
  function Place(y: Layout, a: Cell, c: Cell): Cell {
    Cell(a.x * y.intra.x + c.x, a.y * y.intra.y + c.y, a.z * y.intra.z + c.z)
  }

  lemma GridTotal(y: Layout)
    ensures y.Grid().Size() == y.Total()
  {
    var n, i := y.node, y.intra;
    calc {
      (n.x * i.x) * (n.y * i.y) * (n.z * i.z);
      { assert (n.x * i.x) * (n.y * i.y) == (n.x * n.y) * (i.x * i.y); }
      ((n.x * n.y) * (i.x * i.y)) * (n.z * i.z);
      { assert ((n.x * n.y) * (i.x * i.y)) * (n.z * i.z) == ((n.x * n.y) * n.z) * ((i.x * i.y) * i.z); }
      (n.x * n.y * n.z) * (i.x * i.y * i.z);
    }
  }

  lemma PlaceInGrid(y: Layout, a: Cell, c: Cell)
    requires In(y.node, a) && In(y.intra, c)
    ensures In(y.Grid(), Place(y, a, c)) && Index(y.Grid(), Place(y, a, c)) < y.Total()
  {
    Index2Bound(y.intra.x, y.node.x, c.x, a.x);
    Index2Bound(y.intra.y, y.node.y, c.y, a.y);
    Index2Bound(y.intra.z, y.node.z, c.z, a.z);
    OrderRange(y.Grid(), Place(y, a, c));
    GridTotal(y);
  }

  lemma SamePlace(y: Layout, a: Cell, c: Cell, b: Cell, e: Cell)
    requires In(y.intra, c) && In(y.intra, e) && Place(y, a, c) == Place(y, b, e)
    ensures a == b && c == e
  {
    Index2Inverse(y.intra.x, c.x, a.x);
    Index2Inverse(y.intra.x, e.x, b.x);
    Index2Inverse(y.intra.y, c.y, a.y);
    Index2Inverse(y.intra.y, e.y, b.y);
    Index2Inverse(y.intra.z, c.z, a.z);
    Index2Inverse(y.intra.z, e.z, b.z);
  }

  lemma Covered(y: Layout, p: Cell) returns (a: Cell, c: Cell)
    requires y.Valid() && In(y.Grid(), p)
    ensures In(y.node, a) && In(y.intra, c) && Place(y, a, c) == p
    ensures a == Cell(p.x / y.intra.x, p.y / y.intra.y, p.z / y.intra.z)
  {
    a := Cell(p.x / y.intra.x, p.y / y.intra.y, p.z / y.intra.z);
    c := Cell(p.x % y.intra.x, p.y % y.intra.y, p.z % y.intra.z);
    QuotientBound(p.x, y.intra.x, y.node.x);
    QuotientBound(p.y, y.intra.y, y.node.y);
    QuotientBound(p.z, y.intra.z, y.node.z);
  }

  /** The domain that is filled as number o of node number a, and the rank that goes there. */
  function Domain(y: Layout, a: nat, o: nat): nat
    requires y.node.Valid() && y.intra.Valid()
  {
    Index(y.Grid(), Place(y, CellAt(y.node, a), CellAt(y.intra, o)))
  }

  function RankOf(y: Layout, a: nat, o: nat): nat
    requires y.Valid() && a < y.node.Size() && o < y.intra.Size()
  {
    CellInRange(y.intra, o);
    OrderRange(y.intra, CellAt(y.intra, o));
    y.ranks[a][Index(y.intra, CellAt(y.intra, o))]
  }

  /** Different turns fill different domains with different ranks. */
  lemma TurnsDiffer(y: Layout, a: nat, o: nat, b: nat, k: nat)
    requires y.Valid() && a < y.node.Size() && o < y.intra.Size() && b < y.node.Size() && k < y.intra.Size()
    requires (a != b || o != k)
    ensures Domain(y, a, o) != Domain(y, b, k) && RankOf(y, a, o) != RankOf(y, b, k)
  {
    hide Index, Order, CellAt, Place;
    CellInRange(y.node, a);
    CellInRange(y.node, b);
    CellInRange(y.intra, o);
    CellInRange(y.intra, k);
    var na, nb, co, ck := CellAt(y.node, a), CellAt(y.node, b), CellAt(y.intra, o), CellAt(y.intra, k);
    PlaceInGrid(y, na, co);
    PlaceInGrid(y, nb, ck);
    if Domain(y, a, o) == Domain(y, b, k) {
      SameIndex(y.Grid(), Place(y, na, co), Place(y, nb, ck));
      SamePlace(y, na, co, nb, ck);
    }
    OrderRange(y.intra, co);
    OrderRange(y.intra, ck);
    if RankOf(y, a, o) == RankOf(y, b, k) { SameIndex(y.intra, co, ck); }
  }

  lemma TurnInRange(y: Layout, a: nat, o: nat)
    requires y.Valid() && a < y.node.Size() && o < y.intra.Size()
    ensures Domain(y, a, o) < y.Total() && RankOf(y, a, o) < y.Total()
  {
    hide Index, Order, CellAt, Place;
    CellInRange(y.node, a);
    CellInRange(y.intra, o);
    PlaceInGrid(y, CellAt(y.node, a), CellAt(y.intra, o));
    OrderRange(y.intra, CellAt(y.intra, o));
  }

  // ---------- filling the tables ----------

  ghost predicate Entered(y: Layout, cart: seq<nat>, inv: seq<nat>, a: nat, o: nat)
    requires y.Valid() && a < y.node.Size() && o < y.intra.Size()
  {
    var d, r := Domain(y, a, o), RankOf(y, a, o);
    d < |cart| && r < |inv| && cart[d] == r && inv[r] == d
  }

  /** The turns before turn o of node a have been entered. */
  ghost predicate UpTo(y: Layout, cart: seq<nat>, inv: seq<nat>, a: nat, o: nat)
    requires y.Valid()
  {
    && |cart| == y.Total() && |inv| == y.Total()
    && forall b: nat, k: nat :: b < y.node.Size() && k < y.intra.Size() && (b < a || (b == a && k < o)) ==>
         Entered(y, cart, inv, b, k)
  }

  lemma EnterStep(y: Layout, cart: seq<nat>, inv: seq<nat>, a: nat, o: nat)
    requires y.Valid() && a < y.node.Size() && o < y.intra.Size() && UpTo(y, cart, inv, a, o)
    ensures Domain(y, a, o) < |cart| && RankOf(y, a, o) < |inv|
    ensures UpTo(y, cart[Domain(y, a, o) := RankOf(y, a, o)], inv[RankOf(y, a, o) := Domain(y, a, o)], a, o + 1)
  {
    hide Domain, RankOf;
    TurnInRange(y, a, o);
    var cart', inv' := cart[Domain(y, a, o) := RankOf(y, a, o)], inv[RankOf(y, a, o) := Domain(y, a, o)];
    forall b: nat, k: nat | b < y.node.Size() && k < y.intra.Size() && (b < a || (b == a && k < o + 1))
      ensures Entered(y, cart', inv', b, k)
    {
      if b != a || k != o {
        assert Entered(y, cart, inv, b, k);
        TurnsDiffer(y, a, o, b, k);
      }
    }
  }

  lemma NextNode(y: Layout, cart: seq<nat>, inv: seq<nat>, a: nat)
    requires y.Valid() && UpTo(y, cart, inv, a, y.intra.Size())
    ensures UpTo(y, cart, inv, a + 1, 0)
  {
    hide Domain, RankOf, Entered;
  }

  /** The ends of rows, planes and grids in the order of the loops. */
  lemma RowEnds(b: Box, i: nat, j: nat)
    ensures Order(b, Cell(i, j, b.z)) == Order(b, Cell(i, j + 1, 0))
    ensures Order(b, Cell(i, b.y, 0)) == Order(b, Cell(i + 1, 0, 0))
    ensures Order(b, Cell(b.x, 0, 0)) == b.Size() && Order(b, Cell(0, 0, 0)) == 0
  {
    assert (i * b.y + j) * b.z + b.z == (i * b.y + j + 1) * b.z;
    assert i * b.y + b.y == (i + 1) * b.y;
  }

  lemma CellStep(b: Box, c: Cell)
    ensures Order(b, Cell(c.x, c.y, c.z + 1)) == Order(b, c) + 1
  {
  }

  /** The innermost loop: one row of the block of a node. */
  method PlaceRow(y: Layout, cart: array<nat>, inv: array<nat>, a: nat, n: Cell, i: nat, j: nat)
    requires y.Valid() && a < y.node.Size() && n == CellAt(y.node, a) && i < y.intra.x && j < y.intra.y && cart != inv
    requires UpTo(y, cart[..], inv[..], a, Order(y.intra, Cell(i, j, 0)))
    modifies cart, inv
    ensures UpTo(y, cart[..], inv[..], a, Order(y.intra, Cell(i, j + 1, 0)))
  {
    hide UpTo, Index, Order, CellAt, Place;
    for k := 0 to y.intra.z
      invariant UpTo(y, cart[..], inv[..], a, Order(y.intra, Cell(i, j, k)))
    {
      var c := Cell(i, j, k);
      OrderRange(y.intra, c);
      EnterStep(y, cart[..], inv[..], a, Order(y.intra, c));
      CellStep(y.intra, c);
      var local := Index(y.intra, c);
      var global := Index(y.Grid(), Place(y, n, c));
      ghost var before, beforeInv := cart[..], inv[..];
      assert cart.Length == |before| && inv.Length == |beforeInv|;
      cart[global] := y.ranks[a][local];
      inv[y.ranks[a][local]] := global;
      assert cart[..] == before[global := y.ranks[a][local]];
      assert inv[..] == beforeInv[y.ranks[a][local] := global];
    }
    RowEnds(y.intra, i, j);
  }

  /** The block of one node. */
  method PlaceNode(y: Layout, cart: array<nat>, inv: array<nat>, a: nat, n: Cell)
    requires y.Valid() && a < y.node.Size() && n == CellAt(y.node, a) && cart != inv && UpTo(y, cart[..], inv[..], a, 0)
    modifies cart, inv
    ensures UpTo(y, cart[..], inv[..], a + 1, 0)
  {
    hide UpTo, Order, CellAt;
    RowEnds(y.intra, 0, 0);
    for i := 0 to y.intra.x
      invariant UpTo(y, cart[..], inv[..], a, Order(y.intra, Cell(i, 0, 0)))
    {
      for j := 0 to y.intra.y
        invariant UpTo(y, cart[..], inv[..], a, Order(y.intra, Cell(i, j, 0)))
      {
        PlaceRow(y, cart, inv, a, n, i, j);
      }
      RowEnds(y.intra, i, 0);
    }
    NextNode(y, cart[..], inv[..], a);
  }

  /** The nodes of one row of the node grid, taken in turn. */
  method PlaceNodeRow(y: Layout, cart: array<nat>, inv: array<nat>, i: nat, j: nat, first: nat) returns (next: nat)
    requires y.Valid() && i < y.node.x && j < y.node.y && cart != inv
    requires first == Order(y.node, Cell(i, j, 0)) && UpTo(y, cart[..], inv[..], first, 0)
    modifies cart, inv
    ensures next == Order(y.node, Cell(i, j + 1, 0)) && UpTo(y, cart[..], inv[..], next, 0)
  {
    hide UpTo, Order, CellAt;
    next := first;
    for k := 0 to y.node.z
      invariant next == Order(y.node, Cell(i, j, k)) && UpTo(y, cart[..], inv[..], next, 0)
    {
      OrderRange(y.node, Cell(i, j, k));
      PlaceNode(y, cart, inv, next, Cell(i, j, k));
      CellStep(y.node, Cell(i, j, k));
      next := next + 1;
    }
    RowEnds(y.node, i, j);
  }

  ghost predicate Permutations(n: nat, cart: seq<nat>, inv: seq<nat>) {
    && |cart| == n && |inv| == n
    && (forall i :: 0 <= i < n ==> cart[i] < n && inv[cart[i]] == i)
    && (forall r :: 0 <= r < n ==> inv[r] < n && cart[inv[r]] == r)
  }

  lemma DomainTurn(y: Layout, i: nat) returns (a: nat, o: nat)
    requires y.Valid() && i < y.Total()
    ensures a < y.node.Size() && o < y.intra.Size() && Domain(y, a, o) == i
  {
    hide Index, Order, CellAt, Place;
    GridTotal(y);
    assert y.Grid().Valid();
    var p := IndexCovers(y.Grid(), i);
    var n, c := Covered(y, p);
    OrderRange(y.node, n);
    OrderRange(y.intra, c);
    a, o := Order(y.node, n), Order(y.intra, c);
  }

  lemma RankTurn(y: Layout, r: nat) returns (a: nat, o: nat)
    requires y.Valid() && r < y.Total()
    ensures a < y.node.Size() && o < y.intra.Size() && RankOf(y, a, o) == r
  {
    hide Index, Order, CellAt, Place;
    assert Listed(y.ranks, r);
    var k: nat;
    a, k :| 0 <= a < |y.ranks| && 0 <= k < |y.ranks[a]| && y.ranks[a][k] == r;
    var c := IndexCovers(y.intra, k);
    OrderRange(y.intra, c);
    o := Order(y.intra, c);
  }

  /** When every node has been placed, the tables are permutations and inverse to each other. */
  lemma FilledIsPermutation(y: Layout, cart: seq<nat>, inv: seq<nat>)
    requires y.Valid() && UpTo(y, cart, inv, y.node.Size(), 0)
    ensures Permutations(y.Total(), cart, inv)
  {
    hide Domain, RankOf;
    forall i | 0 <= i < y.Total() ensures cart[i] < y.Total() && inv[cart[i]] == i {
      var a, o := DomainTurn(y, i);
      assert Entered(y, cart, inv, a, o);
      TurnInRange(y, a, o);
    }
    forall r | 0 <= r < y.Total() ensures inv[r] < y.Total() && cart[inv[r]] == r {
      var a, o := RankTurn(y, r);
      assert Entered(y, cart, inv, a, o);
      TurnInRange(y, a, o);
    }
  }

  /** Fills the table of ranks and its inverse, node by node. */
  method MapRanks(y: Layout) returns (cart: array<nat>, inv: array<nat>)
    requires y.Valid()
    ensures fresh(cart) && fresh(inv) && Permutations(y.Total(), cart[..], inv[..])
    ensures UpTo(y, cart[..], inv[..], y.node.Size(), 0)
  {
    cart := new nat[y.Total()];
    inv := new nat[y.Total()];
    var next := 0;
    assert UpTo(y, cart[..], inv[..], 0, 0);
    hide UpTo, Order;
    RowEnds(y.node, 0, 0);
    for i := 0 to y.node.x
      invariant next == Order(y.node, Cell(i, 0, 0)) && UpTo(y, cart[..], inv[..], next, 0)
    {
      for j := 0 to y.node.y
        invariant next == Order(y.node, Cell(i, j, 0)) && UpTo(y, cart[..], inv[..], next, 0)
      {
        next := PlaceNodeRow(y, cart, inv, i, j, next);
      }
      RowEnds(y.node, i, 0);
    }
    FilledIsPermutation(y, cart[..], inv[..]);
  }
}
