/** From the nodes that the ranks run on to the table of ranks: the ranks of every node, the choice between one
    level and two, and the tables filled for the grids that were chosen. */
module NodeMap {
  import opened Decomposition
  import opened TwoLevel
  import opened RankMap

  // ---------- the ranks of a node ----------

  /** The ranks on node a, in ascending order. Nodes are numbered in the order of their names. */
  function RanksOn(hosts: seq<nat>, a: nat): seq<nat> {
    if hosts == [] then []
    else RanksOn(hosts[..|hosts| - 1], a) + if hosts[|hosts| - 1] == a then [|hosts| - 1] else []
  }

  ghost predicate Ascending(s: seq<nat>) { forall i, j :: 0 <= i < j < |s| ==> s[i] < s[j] }

  lemma {:induction false} RanksOnExactly(hosts: seq<nat>, a: nat)
    ensures forall r: nat :: r in RanksOn(hosts, a) <==> r < |hosts| && hosts[r] == a
    ensures Ascending(RanksOn(hosts, a))
  {
    if hosts != [] {
      var init := hosts[..|hosts| - 1];
      RanksOnExactly(init, a);
      var s := RanksOn(init, a);
      forall k | 0 <= k < |s| ensures s[k] < |init| { assert s[k] in s; }
    }
  }

  lemma {:induction false} RanksOnLast(hosts: seq<nat>, h: nat, a: nat)
    ensures RanksOn(hosts + [h], a) == RanksOn(hosts, a) + if h == a then [|hosts|] else []
  {
    assert (hosts + [h])[..|hosts|] == hosts;
  }

  /** The ranks of every node, collected rank by rank. */
  method FindCommonNodes(hosts: seq<nat>, n: nat) returns (ranks: seq<seq<nat>>)
    requires forall r :: 0 <= r < |hosts| ==> hosts[r] < n
    ensures |ranks| == n && forall a :: 0 <= a < n ==> ranks[a] == RanksOn(hosts, a)
  {
    ranks := seq(n, i => []);
    for r := 0 to |hosts|
      invariant |ranks| == n && forall a :: 0 <= a < n ==> ranks[a] == RanksOn(hosts[..r], a)
    {
      var h := hosts[r];
      assert hosts[..r + 1] == hosts[..r] + [h];
      forall a: nat | a < n { RanksOnLast(hosts[..r], h, a); }
      ranks := ranks[h := ranks[h] + [r]];
    }
    assert hosts[..|hosts|] == hosts;
  }

  /** How many ranks the first n nodes have. */
  function Counted(hosts: seq<nat>, n: nat): nat {
    if n == 0 then 0 else Counted(hosts, n - 1) + |RanksOn(hosts, n - 1)|
  }

  lemma {:induction false} CountedLast(hosts: seq<nat>, h: nat, n: nat)
    ensures Counted(hosts + [h], n) == Counted(hosts, n) + if h < n then 1 else 0
  {
    if n > 0 {
      CountedLast(hosts, h, n - 1);
      RanksOnLast(hosts, h, n - 1);
    }
  }

  /** Every rank is on one node. */
  lemma {:induction false} CountedAll(hosts: seq<nat>, n: nat)
    requires forall r :: 0 <= r < |hosts| ==> hosts[r] < n
    ensures Counted(hosts, n) == |hosts|
  {
    if hosts == [] {
      CountedNone(n);
    } else {
      var init := hosts[..|hosts| - 1];
      CountedAll(init, n);
      assert hosts == init + [hosts[|hosts| - 1]];
      CountedLast(init, hosts[|hosts| - 1], n);
    }
  }

  lemma {:induction false} CountedNone(n: nat)
    ensures Counted([], n) == 0
  {
    if n > 0 { CountedNone(n - 1); }
  }

  lemma {:induction false} CountedUniform(hosts: seq<nat>, n: nat, m: nat)
    requires forall a: nat :: a < n ==> |RanksOn(hosts, a)| == m
    ensures Counted(hosts, n) == n * m
  {
    if n > 0 {
      CountedUniform(hosts, n - 1, m);
      assert n * m == (n - 1) * m + m;
    }
  }

  // ---------- the layout ----------

  /** Every rank number below |hosts| is in the list of its node and in no other. */
  lemma ListsDisjoint(hosts: seq<nat>, n: nat, ranks: seq<seq<nat>>, a: nat, k: nat, b: nat, l: nat)
    requires |ranks| == n && forall c :: 0 <= c < n ==> ranks[c] == RanksOn(hosts, c)
    requires a < n && b < n && k < |ranks[a]| && l < |ranks[b]| && ranks[a][k] == ranks[b][l]
    ensures a == b && k == l
  {
    RanksOnExactly(hosts, a);
    RanksOnExactly(hosts, b);
    assert ranks[a][k] in RanksOn(hosts, a) && ranks[b][l] in RanksOn(hosts, b);
  }

  lemma AllListed(hosts: seq<nat>, n: nat, ranks: seq<seq<nat>>, r: nat)
    requires |ranks| == n && forall c :: 0 <= c < n ==> ranks[c] == RanksOn(hosts, c)
    requires r < |hosts| && hosts[r] < n
    ensures Listed(ranks, r)
  {
    RanksOnExactly(hosts, hosts[r]);
    var k: nat :| k < |ranks[hosts[r]]| && ranks[hosts[r]][k] == r;
  }

  lemma InRange(hosts: seq<nat>, a: nat, k: nat)
    requires k < |RanksOn(hosts, a)|
    ensures RanksOn(hosts, a)[k] < |hosts| && hosts[RanksOn(hosts, a)[k]] == a
  {
    RanksOnExactly(hosts, a);
    assert RanksOn(hosts, a)[k] in RanksOn(hosts, a);
  }

  /** Node and block grids of the right sizes, with the ranks of the nodes, are a layout for the tables. */
  lemma LayoutValid(hosts: seq<nat>, n: nat, y: Layout)
    requires y.node.Valid() && y.intra.Valid() && y.node.Size() == n && y.Total() == |hosts|
    requires |y.ranks| == n && forall a :: 0 <= a < n ==>
               y.ranks[a] == RanksOn(hosts, a) && |y.ranks[a]| == y.intra.Size()
    requires forall r :: 0 <= r < |hosts| ==> hosts[r] < n
    ensures y.Valid()
  {
    hide RanksOn;
    forall a, k | 0 <= a < n && 0 <= k < |y.ranks[a]| ensures y.ranks[a][k] < y.Total() { InRange(hosts, a, k); }
    forall a, k, b, l | 0 <= a < n && 0 <= k < |y.ranks[a]| && 0 <= b < n && 0 <= l < |y.ranks[b]|
      && y.ranks[a][k] == y.ranks[b][l]
      ensures a == b && k == l
    {
      ListsDisjoint(hosts, n, y.ranks, a, k, b, l);
    }
    forall r: nat | r < y.Total() ensures Listed(y.ranks, r) { AllListed(hosts, n, y.ranks, r); }
  }

  /** Every domain goes to a rank of the node whose block it is in. */
  ghost predicate ByBlocks(hosts: seq<nat>, y: Layout, cart: seq<nat>)
    requires y.intra.Valid()
  {
    forall p :: In(y.Grid(), p) ==>
      var i := Index(y.Grid(), p);
      i < |cart| && cart[i] < |hosts|
      && hosts[cart[i]] == Order(y.node, Cell(p.x / y.intra.x, p.y / y.intra.y, p.z / y.intra.z))
  }

  lemma BlockOfDomain(hosts: seq<nat>, n: nat, y: Layout, cart: seq<nat>, inv: seq<nat>, p: Cell)
    requires y.Valid() && UpTo(y, cart, inv, y.node.Size(), 0) && In(y.Grid(), p)
    requires |y.ranks| == n && forall a :: 0 <= a < n ==> y.ranks[a] == RanksOn(hosts, a)
    ensures var i := Index(y.Grid(), p);
            i < |cart| && cart[i] < |hosts|
            && hosts[cart[i]] == Order(y.node, Cell(p.x / y.intra.x, p.y / y.intra.y, p.z / y.intra.z))
  {
    hide Index, Order, CellAt, Place, RanksOn;
    var m, c := Covered(y, p);
    OrderRange(y.node, m);
    OrderRange(y.intra, c);
    var a, o := Order(y.node, m), Order(y.intra, c);
    assert Entered(y, cart, inv, a, o);
    InRange(hosts, a, Index(y.intra, c));
  }

  lemma FilledByBlocks(hosts: seq<nat>, n: nat, y: Layout, cart: seq<nat>, inv: seq<nat>)
    requires y.Valid() && UpTo(y, cart, inv, y.node.Size(), 0)
    requires |y.ranks| == n && forall a :: 0 <= a < n ==> y.ranks[a] == RanksOn(hosts, a)
    ensures ByBlocks(hosts, y, cart)
  {
    hide Index, Order, UpTo, RanksOn;
    forall p | In(y.Grid(), p)
      ensures var i := Index(y.Grid(), p);
              i < |cart| && cart[i] < |hosts|
              && hosts[cart[i]] == Order(y.node, Cell(p.x / y.intra.x, p.y / y.intra.y, p.z / y.intra.z))
    {
      BlockOfDomain(hosts, n, y, cart, inv, p);
    }
  }

  function BoxOf(t: Triple): Box { Box(t.x, t.y, t.z) }

  lemma ChosenLayout(hosts: seq<nat>, n: nat, m: nat, grid: Triple, y: Layout)
    requires n >= 1 && m >= 1 && y.intra.Valid()
    requires grid.x * grid.y * grid.z == n * m && y.intra.Size() == m && y.node.Size() == n
    requires BoxOf(grid) == y.Grid() && |y.ranks| == n
    requires forall a :: 0 <= a < n ==> y.ranks[a] == RanksOn(hosts, a) && |y.ranks[a]| == m
    requires forall r :: 0 <= r < |hosts| ==> hosts[r] < n
    ensures y.Valid() && y.Total() == |hosts|
  {
    hide RanksOn;
    forall a: nat | a < n ensures |RanksOn(hosts, a)| == m { assert |y.ranks[a]| == m; }
    CountedUniform(hosts, n, m);
    CountedAll(hosts, n);
    FactorsPositive(y.node);
    LayoutValid(hosts, n, y);
  }

  lemma FactorsPositive(b: Box)
    requires b.Size() >= 1
    ensures b.Valid()
  {
  }

  /** The two-level grid and its tables, for nodes of m ranks each. */
  method TwoLevelTables(hosts: seq<nat>, n: nat, m: nat, ranks: seq<seq<nat>>, l: Lengths)
    returns (grid: Triple, y: Layout, cart: array<nat>, inv: array<nat>)
    requires n >= 1 && m >= 1 && l.x > 0.0 && l.y > 0.0 && l.z >= 0.0
    requires |ranks| == n && forall a :: 0 <= a < n ==> ranks[a] == RanksOn(hosts, a) && |ranks[a]| == m
    requires forall r :: 0 <= r < |hosts| ==> hosts[r] < n
    ensures y.Valid() && BoxOf(grid) == y.Grid() && y.node.Size() == n && y.intra.Size() == m
    ensures grid.x * grid.y * grid.z == |hosts| >= 1 && Chosen(|hosts|, Triple(0, 0, 0), l, grid)
    ensures fresh(cart) && fresh(inv) && Permutations(|hosts|, cart[..], inv[..]) && ByBlocks(hosts, y, cart[..])
  {
    hide RanksOn, UpTo, Permutations, ByBlocks;
    var intra, node;
    grid, intra, node := ChooseGrids(n, m, l);
    y := Layout(BoxOf(node), BoxOf(intra), ranks);
    ChosenLayout(hosts, n, m, grid, y);
    cart, inv := MapRanks(y);
    FilledByBlocks(hosts, n, y, cart[..], inv[..]);
    GridTotal(y);
  }

  /** One level: the domains go to the ranks in order. */
  method OneLevelTables(n: nat) returns (cart: array<nat>, inv: array<nat>)
    ensures fresh(cart) && fresh(inv) && Permutations(n, cart[..], inv[..])
    ensures forall i :: 0 <= i < n ==> cart[i] == i
  {
    cart := new nat[n];
    inv := new nat[n];
    for i := 0 to n
      invariant forall j :: 0 <= j < i ==> cart[j] == j && inv[j] == j
    {
      cart[i], inv[i] := i, i;
    }
  }

  ghost predicate Uniform(hosts: seq<nat>, n: nat) {
    forall a: nat, b: nat :: a < n && b < n ==> |RanksOn(hosts, a)| == |RanksOn(hosts, b)|
  }

  lemma NodeOccupied(hosts: seq<nat>, a: nat)
    requires a in hosts
    ensures |RanksOn(hosts, a)| >= 1
  {
    RanksOnExactly(hosts, a);
    var r: nat :| r < |hosts| && hosts[r] == a;
    assert r in RanksOn(hosts, a);
  }

  /** Counts the ranks of the nodes. */
  method InitializeTwoLevel(hosts: seq<nat>, n: nat, ranks: seq<seq<nat>>) returns (uniform: bool, m: nat)
    requires |ranks| == n >= 1 && forall a :: 0 <= a < n ==> ranks[a] == RanksOn(hosts, a) && |ranks[a]| >= 1
    ensures uniform <==> Uniform(hosts, n)
    ensures m >= 1 && (uniform ==> forall a :: 0 <= a < n ==> |ranks[a]| == m)
  {
    hide RanksOn;
    var counts := seq(n, i requires 0 <= i < n => |ranks[i]|);
    uniform, m := UniformNodes(counts);
    assert forall a :: 0 <= a < n ==> counts[a] == |ranks[a]|;
    assert forall a: nat :: a < n ==> counts[a] == |RanksOn(hosts, a)|;
  }

  /** The grid of domains and its rank tables, for ranks on n nodes. Whatever the nodes, the tables are permutations
      and inverse to each other. Two levels are used exactly when they are wanted, no extent is asked for and all
      nodes have the same number of ranks; every block of the grid then belongs to one node. */
  method Decompose(hosts: seq<nat>, n: nat, l: Lengths, asked: Triple, wanted: bool)
    returns (ok: bool, two: bool, grid: Triple, y: Layout, cart: array<nat>, inv: array<nat>)
    requires n >= 1 && (forall r :: 0 <= r < |hosts| ==> hosts[r] < n)
    requires (forall a: nat :: a < n ==> a in hosts) && l.x > 0.0 && l.y > 0.0 && l.z >= 0.0
    ensures two <==> wanted && asked == Triple(0, 0, 0) && Uniform(hosts, n)
    ensures ok <==> two || exists t :: Fits(|hosts|, asked, l, t)
    ensures ok ==> Permutations(|hosts|, cart[..], inv[..]) && grid.x * grid.y * grid.z == |hosts|
    ensures ok ==> |hosts| >= 1 && Chosen(|hosts|, asked, l, grid) && BoxOf(grid) == y.Grid()
    ensures two ==> y.Valid() && y.node.Size() == n && ByBlocks(hosts, y, cart[..])
    ensures ok && !two ==> forall i :: 0 <= i < |hosts| ==> cart[..][i] == i
  {
    hide RanksOn, Permutations, ByBlocks;
    var ranks := FindCommonNodes(hosts, n);
    forall a: nat | a < n ensures |RanksOn(hosts, a)| >= 1 { NodeOccupied(hosts, a); }
    assert 0 in hosts;
    var uniform, m := InitializeTwoLevel(hosts, n, ranks);
    two := wanted && asked == Triple(0, 0, 0) && uniform;
    if two {
      ok := true;
      grid, y, cart, inv := TwoLevelTables(hosts, n, m, ranks, l);
    } else {
      ok, grid := FindDecomposition(|hosts|, l, asked);
      y := Layout(Box(1, 1, 1), BoxOf(grid), ranks);
      cart, inv := OneLevelTables(|hosts|);
    }
  }
}
