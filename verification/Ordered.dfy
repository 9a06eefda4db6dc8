/** Finite sets of numbers in ascending order: how an ordered set or map is iterated over. */
module Ordered {

  /** ts lists the set in ascending order. */
  ghost predicate Lists(ts: seq<nat>, keys: set<nat>) {
    && (forall t :: t in ts <==> t in keys)
    && (forall j, k :: 0 <= j < k < |ts| ==> ts[j] < ts[k])
  }

  /** How many members of the set are below t. */
  ghost function Rank(keys: set<nat>, t: nat): nat { |Below(keys, t)| }

  ghost function Below(keys: set<nat>, t: nat): set<nat> { set u | u in keys && u < t }

  predicate Least(s: set<nat>, t: nat) { t in s && forall u :: u in s ==> t <= u }

  lemma {:induction false} LeastExists(s: set<nat>)
    requires s != {}
    ensures exists t: nat :: Least(s, t)
    decreases |s|
  {
    var x :| x in s;
    var rest := s - {x};
    if rest == {} {
      assert Least(s, x) by { forall u | u in s ensures x <= u { assert u == x || u in rest; } }
    } else {
      LeastExists(rest);
      var t: nat :| Least(rest, t);
      LeastOfMore(s, rest, x, t);
    }
  }

  lemma LeastOfMore(s: set<nat>, rest: set<nat>, x: nat, t: nat)
    requires x in s && rest == s - {x} && Least(rest, t)
    ensures Least(s, x) || Least(s, t)
  {
    forall u | u in s ensures u == x || t <= u { if u != x { assert u in rest; } }
  }

  /** The keys of an ordered map in the order of iteration. */
  method Ascending(keys: set<nat>) returns (ts: seq<nat>)
    ensures Lists(ts, keys)
  {
    ts := [];
    var todo := keys;
    while todo != {}
      invariant todo <= keys && forall t :: t in keys <==> t in todo || t in ts
      invariant forall j, u :: 0 <= j < |ts| && u in todo ==> ts[j] < u
      invariant forall j, k :: 0 <= j < k < |ts| ==> ts[j] < ts[k]
    {
      LeastExists(todo);
      var t: nat :| Least(todo, t);
      ts, todo := ts + [t], todo - {t};
    }
  }

  lemma ListsPrefix(ts: seq<nat>, keys: set<nat>, n: nat)
    requires Lists(ts, keys) && n < |ts|
    ensures Lists(ts[..n], Below(keys, ts[n]))
  {
    var below := Below(keys, ts[n]);
    forall u ensures u in ts[..n] <==> u in below {
      if u in ts[..n] { var k :| 0 <= k < n && ts[..n][k] == u; assert ts[k] == u; }
      if u in below { var k :| 0 <= k < |ts| && ts[k] == u; assert k < n; assert ts[..n][k] == u; }
    }
  }

  lemma {:induction false} ListsCount(ts: seq<nat>, keys: set<nat>)
    requires Lists(ts, keys)
    ensures |ts| == |keys|
  {
    if ts == [] {
      assert keys == {};
    } else {
      var n := |ts| - 1;
      var below := Below(keys, ts[n]);
      ListsPrefix(ts, keys, n);
      ListsCount(ts[..n], below);
      assert ts == ts[..n] + [ts[n]];
      assert keys == below + {ts[n]};
    }
  }

  /** The n-th entry has n members of the set below it. */
  lemma NthByRank(ts: seq<nat>, keys: set<nat>, n: nat)
    requires Lists(ts, keys) && n < |ts|
    ensures ts[n] in keys && Rank(keys, ts[n]) == n
  {
    ListsPrefix(ts, keys, n);
    ListsCount(ts[..n], Below(keys, ts[n]));
  }

  lemma SubsetCount(s: set<nat>, t: set<nat>)
    requires s <= t
    ensures |s| <= |t|
  {
    assert t == s + (t - s);
  }
}
