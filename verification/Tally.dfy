/** Finite unions of multisets, one for every member of a set of keys. */
module Tally {

  /** Everything held under any of the keys, with multiplicity. */
  ghost function Union<K, V>(keys: set<K>, held: map<K, multiset<V>>): multiset<V>
    requires keys <= held.Keys
  {
    if keys == {} then multiset{}
    else
      var k :| k in keys;
      held[k] + Union(keys - {k}, held)
  }

  lemma {:induction false} UnionPick<K, V>(keys: set<K>, held: map<K, multiset<V>>, k: K)
    requires k in keys && keys <= held.Keys
    ensures Union(keys, held) == held[k] + Union(keys - {k}, held)
    decreases |keys|
  {
    var j :| j in keys && Union(keys, held) == held[j] + Union(keys - {j}, held);
    if j != k {
      UnionPick(keys - {j}, held, k);
      UnionPick(keys - {k}, held, j);
      assert keys - {j} - {k} == keys - {k} - {j};
    }
  }

  /** Unions of multisets that hold x and y equally often under every key. */
  lemma {:induction false} UnionCount<K, V, W>(keys: set<K>, a: map<K, multiset<V>>, b: map<K, multiset<W>>, x: V, y: W)
    requires keys <= a.Keys && keys <= b.Keys && forall k :: k in keys ==> a[k][x] == b[k][y]
    ensures Union(keys, a)[x] == Union(keys, b)[y]
    decreases |keys|
  {
    if keys != {} {
      var k :| k in keys;
      UnionPick(keys, a, k);
      UnionPick(keys, b, k);
      UnionCount(keys - {k}, a, b, x, y);
    }
  }

  /** The maps from and to undo each other on the keys. */
  ghost predicate Paired<K>(keys: set<K>, from: map<K, K>, to: map<K, K>) {
    && keys <= from.Keys && keys <= to.Keys
    && forall k :: k in keys ==> from[k] in keys && to[k] in keys && to[from[k]] == k && from[to[k]] == k
  }

  /** Renaming the keys one to one (from and to undo each other) does not change the union. */
  lemma {:induction false} UnionRename<K, V>(keys: set<K>, names: set<K>, held: map<K, multiset<V>>,
                                             renamed: map<K, multiset<V>>,
                                             from: map<K, K>, to: map<K, K>)
    requires keys <= held.Keys && names <= renamed.Keys
    requires forall k :: k in names ==>
               k in from && from[k] in keys && renamed[k] == held[from[k]] && from[k] in to && to[from[k]] == k
    requires forall k :: k in keys ==> k in to && to[k] in names && to[k] in from && from[to[k]] == k
    ensures Union(names, renamed) == Union(keys, held)
    decreases |names|
  {
    if names == {} {
      assert forall k :: k in keys ==> to[k] in names;
    } else {
      var k :| k in names;
      UnionPick(names, renamed, k);
      UnionPick(keys, held, from[k]);
      UnionRename(keys - {from[k]}, names - {k}, held, renamed, from, to);
    }
  }

  /** The union of a key-wise sum is the sum of the unions. */
  lemma {:induction false} UnionSum<K, V>(keys: set<K>, a: map<K, multiset<V>>, b: map<K, multiset<V>>,
                                          sum: map<K, multiset<V>>)
    requires keys <= a.Keys && keys <= b.Keys && keys <= sum.Keys
    requires forall k :: k in keys ==> sum[k] == a[k] + b[k]
    ensures Union(keys, sum) == Union(keys, a) + Union(keys, b)
    decreases |keys|
  {
    if keys != {} {
      var k :| k in keys;
      UnionPick(keys, a, k);
      UnionPick(keys, b, k);
      UnionPick(keys, sum, k);
      UnionSum(keys - {k}, a, b, sum);
    }
  }

  /** Every key keeps a part and hands the rest to another key: nothing is lost or gained. */
  lemma ExchangeConserves<K, V>(keys: set<K>, before: map<K, multiset<V>>, after: map<K, multiset<V>>,
                                kept: map<K, multiset<V>>, sent: map<K, multiset<V>>, from: map<K, K>, to: map<K, K>)
    requires keys <= before.Keys && keys <= after.Keys && keys <= kept.Keys && keys <= sent.Keys
    requires Paired(keys, from, to)
    requires forall k :: k in keys ==> before[k] == kept[k] + sent[k]
    requires forall k :: k in keys ==> after[k] == kept[k] + sent[from[k]]
    ensures Union(keys, after) == Union(keys, before)
  {
    var received := map k | k in keys :: sent[from[k]];
    UnionSum(keys, kept, sent, before);
    UnionSum(keys, kept, received, after);
    UnionRename(keys, keys, sent, received, from, to);
  }

  // ---------- counting in lists ----------

  lemma CountOne<T>(s: seq<T>, i: nat)
    requires i < |s| && forall j :: 0 <= j < |s| && s[j] == s[i] ==> j == i
    ensures multiset(s)[s[i]] == 1
  {
    assert s == s[..i] + [s[i]] + s[i + 1..];
    assert s[i] !in s[..i] && s[i] !in s[i + 1..];
  }

  lemma TwiceCounted<T>(s: seq<T>, i: nat, j: nat)
    requires i < j < |s| && s[i] == s[j]
    ensures multiset(s)[s[i]] >= 2
  {
    assert s == s[..i] + [s[i]] + s[i + 1..j] + [s[j]] + s[j + 1..];
  }
}
