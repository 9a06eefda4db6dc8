/** Items that travel through the domain grid with a plan: in every direction step each rank sends
    copies of all items it holds whose plan names that direction, and appends what it receives.
    Ghost particles travel this way, and so do the forces that are sent back to the owners. */
module Itinerary {
  import opened Torus
  import opened Tally

  datatype Item<T> = Item(load: T, plan: set<Dir>)

  type World<T> = map<Pos, seq<Item<T>>>

  /** The indices of the items to be sent in direction d, in order. */
  function Selected<T>(s: seq<Item<T>>, d: Dir): (idx: seq<nat>)
    ensures forall i :: 0 <= i < |idx| ==> idx[i] < |s| && d in s[idx[i]].plan
  {
    if s == [] then []
    else
      var rest := Selected(s[..|s| - 1], d);
      if d in s[|s| - 1].plan then rest + [|s| - 1] else rest
  }

  function Gather<X>(s: seq<X>, idx: seq<nat>): (r: seq<X>)
    requires forall i :: 0 <= i < |idx| ==> idx[i] < |s|
    ensures |r| == |idx|
  {
    seq(|idx|, i requires 0 <= i < |idx| => s[idx[i]])
  }

  function Outgoing<T>(s: seq<Item<T>>, d: Dir): seq<Item<T>> { Gather(s, Selected(s, d)) }

  /** One direction step: everything that is sent in direction d arrives at the neighbour there. */
  function Step<T>(g: Grid, w: World<T>, d: Dir): (r: World<T>)
    requires On(g, w)
    ensures On(g, r)
  {
    if g.Communicating(d)
    then map q | q in w :: w[q] + Outgoing(w[Neighbor(g, q, Opposite(d))], d)
    else w
  }

  /** The world after the first k direction steps. */
  function Run<T>(g: Grid, w: World<T>, k: nat): (r: World<T>)
    requires On(g, w) && k <= 6
    ensures On(g, r)
  {
    if k == 0 then w else Step(g, Run(g, w, k - 1), k - 1)
  }

  lemma {:induction false} OutgoingCount<T>(s: seq<Item<T>>, d: Dir, x: Item<T>)
    ensures multiset(Outgoing(s, d))[x] == if d in x.plan then multiset(s)[x] else 0
  {
    if s != [] {
      var init, last := s[..|s| - 1], s[|s| - 1];
      OutgoingCount(init, d, x);
      assert s == init + [last];
      assert Outgoing(s, d) == Outgoing(init, d) + (if d in last.plan then [last] else []);
    }
  }

  /** What a rank holds only grows, at the end. */
  lemma {:induction false} HeldIsKept<T>(g: Grid, w: World<T>, k: nat, q: Pos)
    requires On(g, w) && k <= 6 && q in w
    ensures w[q] <= Run(g, w, k)[q]
    decreases k
  {
    if k > 0 { HeldIsKept(g, w, k - 1, q); }
  }

  /** How many copies of x a rank holds after a step: its own and those of its upstream neighbour. */
  lemma StepCount<T>(g: Grid, w: World<T>, d: Dir, x: Item<T>, q: Pos)
    requires On(g, w) && q in w
    ensures multiset(Step(g, w, d)[q])[x] == multiset(w[q])[x]
              + if g.Communicating(d) && d in x.plan then multiset(w[Neighbor(g, q, Opposite(d))])[x] else 0
  {
    OutgoingCount(w[Neighbor(g, q, Opposite(d))], d, x);
  }

  /** What a rank holds after a step was held before it, there or upstream. */
  lemma HeldBefore<T>(g: Grid, w: World<T>, d: Dir, q: Pos, x: Item<T>) returns (p: Pos)
    requires On(g, w) && q in w && x in multiset(Step(g, w, d)[q])
    ensures p in w && x in multiset(w[p])
  {
    hide Neighbor, Step;
    StepCount(g, w, d, x, q);
    p := if x in multiset(w[q]) then q else Neighbor(g, q, Opposite(d));
  }

  /** No item is invented on the way. */
  lemma {:induction false} NothingInvented<T(!new)>(g: Grid, w: World<T>, k: nat, q: Pos, x: Item<T>)
    requires On(g, w) && k <= 6 && q in w && x in multiset(Run(g, w, k)[q])
    ensures exists p :: p in w && x in w[p]
    decreases k
  {
    hide Step;
    if k > 0 {
      var p := HeldBefore(g, Run(g, w, k - 1), k - 1, q, x);
      NothingInvented(g, w, k - 1, p, x);
    }
  }

  /** The number of copies of an item that starts once, at p. */
  function CopiesAt<T>(g: Grid, p: Pos, x: Item<T>, k: nat, q: Pos): nat
    requires g.Has(p) && g.Has(q) && k <= 6
  {
    if Reached(g, p, x.plan, k, q) then 1 else 0
  }

  lemma CopiesStep<T>(g: Grid, p: Pos, x: Item<T>, d: Dir, q: Pos)
    requires g.Has(p) && g.Has(q) && OnePerAxis(g, x.plan)
    ensures CopiesAt(g, p, x, d + 1, q)
            == CopiesAt(g, p, x, d, q)
               + if g.Communicating(d) && d in x.plan then CopiesAt(g, p, x, d, Neighbor(g, q, Opposite(d))) else 0
  {
    ReachedStep(g, p, x.plan, d, q);
    if g.Communicating(d) && d in x.plan { FreshArrival(g, p, x.plan, d, q); }
  }

  /** An item that starts once, at p, is held after k steps exactly once by every position its plan
      has reached and by no other position. */
  lemma {:induction false} ExactlyOnce<T>(g: Grid, w: World<T>, x: Item<T>, p: Pos, k: nat, q: Pos)
    requires On(g, w) && k <= 6 && p in w && q in w && OnePerAxis(g, x.plan)
    requires forall r :: r in w ==> multiset(w[r])[x] == if r == p then 1 else 0
    ensures multiset(Run(g, w, k)[q])[x] == CopiesAt(g, p, x, k, q)
    decreases k
  {
    hide Reached;
    if k == 0 {
      ReachedStart(g, p, x.plan, q);
    } else {
      var d: Dir, before := k - 1, Run(g, w, k - 1);
      var s := Neighbor(g, q, Opposite(d));
      ExactlyOnce(g, w, x, p, d, q);
      ExactlyOnce(g, w, x, p, d, s);
      StepCount(g, before, d, x, q);
      CopiesStep(g, p, x, d, q);
    }
  }

  // ---------- items that are named by their load ----------

  /** No load occurs twice, neither on one rank nor on two. */
  ghost predicate LoadsUnique<T>(w: World<T>) {
    forall p, q, i, j :: p in w && q in w && 0 <= i < |w[p]| && 0 <= j < |w[q]| && w[p][i].load == w[q][j].load
                         ==> p == q && i == j
  }

  ghost predicate NoRepeat<T>(s: seq<Item<T>>) {
    forall i, j :: 0 <= i < j < |s| ==> s[i].load != s[j].load
  }

  ghost predicate PlansOnePerAxis<T>(g: Grid, w: World<T>) {
    forall p, i :: p in w && 0 <= i < |w[p]| ==> OnePerAxis(g, w[p][i].plan)
  }

  lemma UniqueCount<T>(w: World<T>, p: Pos, i: nat, q: Pos)
    requires LoadsUnique(w) && p in w && i < |w[p]| && q in w
    ensures multiset(w[q])[w[p][i]] == if q == p then 1 else 0
  {
    if p == q { CountOne(w[p], i); }
  }

  /** The main statement: with unique loads and one direction per axis, after any number of steps
      no rank holds a load twice, and a rank holds an item exactly when the item's plan reaches it. */
  lemma DeliveredExactly<T(!new)>(g: Grid, w: World<T>, k: nat, q: Pos)
    requires On(g, w) && k <= 6 && q in w && LoadsUnique(w) && PlansOnePerAxis(g, w)
    ensures NoRepeat(Run(g, w, k)[q])
    ensures forall p, i :: p in w && 0 <= i < |w[p]| ==>
              (w[p][i] in Run(g, w, k)[q] <==> Reached(g, p, w[p][i].plan, k, q))
    ensures forall p, i, y :: p in w && 0 <= i < |w[p]| && y in Run(g, w, k)[q] && y.load == w[p][i].load ==>
              y == w[p][i]
  {
    var s := Run(g, w, k)[q];
    forall p, i | p in w && 0 <= i < |w[p]|
      ensures multiset(s)[w[p][i]] == if Reached(g, p, w[p][i].plan, k, q) then 1 else 0
    {
      forall r | r in w ensures multiset(w[r])[w[p][i]] == if r == p then 1 else 0 { UniqueCount(w, p, i, r); }
      ExactlyOnce(g, w, w[p][i], p, k, q);
    }
    forall y | y in s ensures exists p, i :: p in w && 0 <= i < |w[p]| && w[p][i] == y {
      assert y in multiset(s);
      NothingInvented(g, w, k, q, y);
    }
    forall i, j | 0 <= i < j < |s| ensures s[i].load != s[j].load {
      if s[i].load == s[j].load {
        assert s[i] in s && s[j] in s;
        assert s[i] == s[j];
        TwiceCounted(s, i, j);
        assert false;
      }
    }
    forall p, i | p in w && 0 <= i < |w[p]|
      ensures w[p][i] in s <==> Reached(g, p, w[p][i].plan, k, q)
    {
      assert w[p][i] in s <==> w[p][i] in multiset(s);
    }
  }
}
