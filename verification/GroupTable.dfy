/** The lookup table from particles to their bonded groups, built in two passes: the first counts the groups
    of every particle, the second fills one column per particle. */
module GroupTable {
  import opened Indexing

  /** A place in the list of groups: member pos of group g. */
  datatype Slot = Slot(g: nat, pos: nat)

  /** A table entry: the indices of the other members in order, and the type or the index of the group. */
  datatype Entry = Entry(others: seq<nat>, tail: nat)

  /** Local indices of particles by tag; an absent tag is not local. */
  type Lookup = map<nat, nat>

  ghost predicate Complete(groups: seq<seq<nat>>, rtag: Lookup) {
    forall g, i :: 0 <= g < |groups| && 0 <= i < |groups[g]| ==> groups[g][i] in rtag
  }

  ghost predicate Within(rtag: Lookup, n: nat) { forall t :: t in rtag ==> rtag[t] < n }

  // ---------- columns ----------

  predicate Hit(groups: seq<seq<nat>>, rtag: Lookup, p: nat, s: Slot) {
    s.g < |groups| && s.pos < |groups[s.g]| && groups[s.g][s.pos] in rtag && rtag[groups[s.g][s.pos]] == p
  }

  ghost predicate Reached(groups: seq<seq<nat>>, g: nat, i: nat) {
    g <= |groups| && if g < |groups| then i <= |groups[g]| else i == 0
  }

  /** The places of particle p in the first g groups and the first i members of the next. */
  ghost function Column(groups: seq<seq<nat>>, rtag: Lookup, p: nat, g: nat, i: nat): seq<Slot>
    requires Reached(groups, g, i)
    decreases g, i
  {
    if i > 0 then
      Column(groups, rtag, p, g, i - 1) + if Hit(groups, rtag, p, Slot(g, i - 1)) then [Slot(g, i - 1)] else []
    else if g > 0 then Column(groups, rtag, p, g - 1, |groups[g - 1]|)
    else []
  }

  ghost function FullColumn(groups: seq<seq<nat>>, rtag: Lookup, p: nat): seq<Slot> {
    Column(groups, rtag, p, |groups|, 0)
  }

  predicate Before(s: Slot, g: nat, i: nat) { s.g < g || (s.g == g && s.pos < i) }

  /** A column lists exactly the places of its particle. */
  lemma {:induction false} ColumnExact(groups: seq<seq<nat>>, rtag: Lookup, p: nat, g: nat, i: nat, s: Slot)
    requires Reached(groups, g, i)
    ensures s in Column(groups, rtag, p, g, i) <==> Before(s, g, i) && Hit(groups, rtag, p, s)
    decreases g, i
  {
    if i > 0 {
      ColumnExact(groups, rtag, p, g, i - 1, s);
    } else if g > 0 {
      ColumnExact(groups, rtag, p, g - 1, |groups[g - 1]|, s);
    }
  }

  ghost predicate Sorted(c: seq<Slot>) { forall j, k :: 0 <= j < k < |c| ==> Before(c[j], c[k].g, c[k].pos) }

  /** A column is in the order of the groups. */
  lemma {:induction false} ColumnSorted(groups: seq<seq<nat>>, rtag: Lookup, p: nat, g: nat, i: nat)
    requires Reached(groups, g, i)
    ensures Sorted(Column(groups, rtag, p, g, i))
    decreases g, i
  {
    if i > 0 {
      ColumnSorted(groups, rtag, p, g, i - 1);
      var c := Column(groups, rtag, p, g, i - 1);
      forall j | 0 <= j < |c| ensures Before(c[j], g, i - 1) { ColumnExact(groups, rtag, p, g, i - 1, c[j]); }
      assert Sorted(c + [Slot(g, i - 1)]);
      assert c + [] == c;
    } else if g > 0 {
      ColumnSorted(groups, rtag, p, g - 1, |groups[g - 1]|);
      assert Column(groups, rtag, p, g, 0) == Column(groups, rtag, p, g - 1, |groups[g - 1]|);
    }
  }

  /** What has been listed stays at the front of the column. */
  lemma {:induction false} ColumnGrows(groups: seq<seq<nat>>, rtag: Lookup, p: nat, g: nat, i: nat)
    requires Reached(groups, g, i)
    ensures Column(groups, rtag, p, g, i) <= FullColumn(groups, rtag, p)
    decreases |groups| - g, if g < |groups| then |groups[g]| - i else 0
  {
    if g < |groups| {
      if i < |groups[g]| {
        ColumnGrows(groups, rtag, p, g, i + 1);
      } else {
        ColumnGrows(groups, rtag, p, g + 1, 0);
      }
    }
  }

  /** If no group names a particle twice, a column has every group at most once, in ascending order. */
  lemma ColumnOncePerGroup(groups: seq<seq<nat>>, rtag: Lookup, p: nat, j: nat, k: nat)
    requires j < k < |FullColumn(groups, rtag, p)|
    requires forall g, a, b :: 0 <= g < |groups| && 0 <= a < b < |groups[g]| ==> groups[g][a] != groups[g][b]
    requires forall t, u :: t in rtag && u in rtag && t != u ==> rtag[t] != rtag[u]
    ensures FullColumn(groups, rtag, p)[j].g < FullColumn(groups, rtag, p)[k].g
  {
    var c := FullColumn(groups, rtag, p);
    ColumnSorted(groups, rtag, p, |groups|, 0);
    ColumnExact(groups, rtag, p, |groups|, 0, c[j]);
    ColumnExact(groups, rtag, p, |groups|, 0, c[k]);
  }

  // ---------- entries ----------

  function Indices(members: seq<nat>, rtag: Lookup): seq<nat>
    requires forall k :: 0 <= k < |members| ==> members[k] in rtag
  {
    seq(|members|, k requires 0 <= k < |members| => rtag[members[k]])
  }

  ghost function EntryOf(groups: seq<seq<nat>>, rtag: Lookup, tails: seq<nat>, s: Slot): Entry
    requires Complete(groups, rtag) && |tails| == |groups| && s.g < |groups| && s.pos < |groups[s.g]|
  {
    Entry(Indices(groups[s.g][..s.pos] + groups[s.g][s.pos + 1..], rtag), tails[s.g])
  }

  /** A column entry with its stored position gives the whole group back, and it carries the type or index of the
      group. */
  lemma EntryRestores(groups: seq<seq<nat>>, rtag: Lookup, tails: seq<nat>, p: nat, s: Slot)
    requires Complete(groups, rtag) && |tails| == |groups| && Hit(groups, rtag, p, s)
    ensures var e := EntryOf(groups, rtag, tails, s);
            && s.pos <= |e.others| && e.others[..s.pos] + [p] + e.others[s.pos..] == Indices(groups[s.g], rtag)
            && e.tail == tails[s.g]
  {
  }

  /** The first j members without member i. */
  ghost function Without(members: seq<nat>, i: nat, j: nat): seq<nat>
    requires i < |members| && j <= |members|
  {
    if j <= i then members[..j] else members[..i] + members[i + 1..j]
  }

  /** The other members of a group in order. */
  method ListOthers(members: seq<nat>, rtag: Lookup, i: nat) returns (others: seq<nat>)
    requires i < |members| && forall k :: 0 <= k < |members| ==> members[k] in rtag
    ensures others == Indices(members[..i] + members[i + 1..], rtag)
  {
    others := [];
    for j := 0 to |members|
      invariant others == Indices(Without(members, i, j), rtag)
    {
      if j != i {
        assert Without(members, i, j + 1) == Without(members, i, j) + [members[j]];
        others := others + [rtag[members[j]]];
      } else {
        assert Without(members, i, j + 1) == Without(members, i, j);
      }
    }
  }

  // ---------- counting ----------

  ghost function Total(s: seq<nat>): nat { if s == [] then 0 else Total(s[..|s| - 1]) + s[|s| - 1] }

  lemma {:induction false} TotalStep(s: seq<nat>, p: nat)
    requires p < |s|
    ensures Total(s[p := s[p] + 1]) == Total(s) + 1
  {
    var s' := s[p := s[p] + 1];
    var n := |s| - 1;
    if p < n {
      assert s'[..n] == s[..n][p := s[p] + 1];
      TotalStep(s[..n], p);
    } else {
      assert s'[..n] == s[..n];
    }
  }

  lemma {:induction false} TotalZero(s: seq<nat>)
    requires forall k :: 0 <= k < |s| ==> s[k] == 0
    ensures Total(s) == 0
  {
    if s != [] { TotalZero(s[..|s| - 1]); }
  }

  ghost predicate Counted(groups: seq<seq<nat>>, rtag: Lookup, counts: seq<nat>, g: nat, i: nat)
    requires Reached(groups, g, i)
  {
    forall p :: 0 <= p < |counts| ==> counts[p] == |Column(groups, rtag, p, g, i)|
  }

  lemma CountStep(groups: seq<seq<nat>>, rtag: Lookup, counts: seq<nat>, g: nat, i: nat)
    requires g < |groups| && i < |groups[g]| && groups[g][i] in rtag && rtag[groups[g][i]] < |counts|
    requires Counted(groups, rtag, counts, g, i)
    ensures var p := rtag[groups[g][i]]; Counted(groups, rtag, counts[p := counts[p] + 1], g, i + 1)
  {
  }

  lemma CountNext(groups: seq<seq<nat>>, rtag: Lookup, counts: seq<nat>, g: nat)
    requires g < |groups| && Counted(groups, rtag, counts, g, |groups[g]|)
    ensures Counted(groups, rtag, counts, g + 1, 0)
  {
    forall p | 0 <= p < |counts| ensures counts[p] == |Column(groups, rtag, p, g + 1, 0)| {
      assert Column(groups, rtag, p, g + 1, 0) == Column(groups, rtag, p, g, |groups[g]|);
    }
  }

  method Clear(counts: array<nat>)
    modifies counts
    ensures forall p :: 0 <= p < counts.Length ==> counts[p] == 0
    ensures Total(counts[..]) == 0
  {
    for p := 0 to counts.Length
      invariant forall k :: 0 <= k < p ==> counts[k] == 0
    {
      counts[p] := 0;
    }
    TotalZero(counts[..]);
  }

  /** Counts the members of one group. */
  method CountMembers(groups: seq<seq<nat>>, rtag: Lookup, counts: array<nat>, g: nat) returns (ok: bool)
    requires g < |groups| && Within(rtag, counts.Length) && Counted(groups, rtag, counts[..], g, 0)
    modifies counts
    ensures ok <==> forall i :: 0 <= i < |groups[g]| ==> groups[g][i] in rtag
    ensures ok ==>
              Counted(groups, rtag, counts[..], g + 1, 0) && Total(counts[..]) == old(Total(counts[..])) + |groups[g]|
  {
    hide Counted, Total;
    for i := 0 to |groups[g]|
      invariant Counted(groups, rtag, counts[..], g, i) && Total(counts[..]) == old(Total(counts[..])) + i
      invariant forall k :: 0 <= k < i ==> groups[g][k] in rtag
    {
      if groups[g][i] !in rtag { return false; }
      var p := rtag[groups[g][i]];
      CountStep(groups, rtag, counts[..], g, i);
      TotalStep(counts[..], p);
      ghost var before := counts[..];
      counts[p] := counts[p] + 1;
      assert counts[..] == before[p := before[p] + 1];
    }
    CountNext(groups, rtag, counts[..], g);
    return true;
  }

  /** First pass: counts the groups of every particle; fails exactly when a member is not local. */
  method CountGroups(size: nat, groups: seq<seq<nat>>, rtag: Lookup, counts: array<nat>) returns (ok: bool)
    requires (forall g :: 0 <= g < |groups| ==> |groups[g]| == size) && Within(rtag, counts.Length)
    modifies counts
    ensures ok <==> Complete(groups, rtag)
    ensures ok ==> Counted(groups, rtag, counts[..], |groups|, 0) && Total(counts[..]) == |groups| * size
  {
    Clear(counts);
    assert Counted(groups, rtag, counts[..], 0, 0);
    hide Counted, Total;
    for g := 0 to |groups|
      invariant Counted(groups, rtag, counts[..], g, 0) && Total(counts[..]) == g * size
      invariant forall h, i :: 0 <= h < g && 0 <= i < |groups[h]| ==> groups[h][i] in rtag
    {
      ok := CountMembers(groups, rtag, counts, g);
      if !ok { return; }
      assert (g + 1) * size == g * size + size;
    }
    return true;
  }

  method Largest(counts: array<nat>) returns (m: nat)
    ensures forall p :: 0 <= p < counts.Length ==> counts[p] <= m
    ensures m == 0 || m in counts[..]
  {
    m := 0;
    for p := 0 to counts.Length
      invariant forall k :: 0 <= k < p ==> counts[k] <= m
      invariant m == 0 || m in counts[..]
    {
      if counts[p] > m { m := counts[p]; }
    }
  }

  // ---------- filling ----------

  /** Every column holds its places among the first g groups and the first i members of the next. */
  ghost predicate Filled(groups: seq<seq<nat>>, rtag: Lookup, tails: seq<nat>, height: nat, counts: seq<nat>,
                         table: seq<Entry>, pos: seq<nat>, g: nat, i: nat)
    requires Reached(groups, g, i) && Complete(groups, rtag) && |tails| == |groups|
  {
    && |table| == |counts| * height && |pos| == |table| && Counted(groups, rtag, counts, g, i)
    && forall p, k :: 0 <= p < |counts| && 0 <= k < counts[p] ==>
         Holds(groups, rtag, tails, |counts|, table, pos, p, k, Column(groups, rtag, p, g, i)[k])
  }

  ghost predicate Holds(groups: seq<seq<nat>>, rtag: Lookup, tails: seq<nat>, n: nat, table: seq<Entry>, pos: seq<nat>,
                        p: nat, k: nat, s: Slot)
    requires Complete(groups, rtag) && |tails| == |groups|
  {
    && Index2(n, p, k) < |table| && Index2(n, p, k) < |pos| && s.g < |groups| && s.pos < |groups[s.g]|
    && table[Index2(n, p, k)] == EntryOf(groups, rtag, tails, s) && pos[Index2(n, p, k)] == s.pos
  }

  lemma FillStep(groups: seq<seq<nat>>, rtag: Lookup, tails: seq<nat>, height: nat, counts: seq<nat>,
                 table: seq<Entry>, pos: seq<nat>, g: nat, i: nat, p: nat)
    requires Complete(groups, rtag) && |tails| == |groups| && g < |groups| && i < |groups[g]|
    requires p == rtag[groups[g][i]] < |counts|
    requires Filled(groups, rtag, tails, height, counts, table, pos, g, i) && |FullColumn(groups, rtag, p)| <= height
    ensures counts[p] < height && Index2(|counts|, p, counts[p]) < |table|
    ensures var at := Index2(|counts|, p, counts[p]);
            Filled(groups, rtag, tails, height, counts[p := counts[p] + 1],
                   table[at := EntryOf(groups, rtag, tails, Slot(g, i))], pos[at := i], g, i + 1)
  {
    ColumnGrows(groups, rtag, p, g, i + 1);
    var n, num := |counts|, counts[p];
    Index2Bound(n, height, p, num);
    var at := Index2(n, p, num);
    var e := EntryOf(groups, rtag, tails, Slot(g, i));
    CountStep(groups, rtag, counts, g, i);
    var counts', table', pos', next := counts[p := num + 1], table[at := e], pos[at := i], i + 1;
    forall q, k | 0 <= q < n && 0 <= k < counts'[q]
      ensures Holds(groups, rtag, tails, n, table', pos', q, k, Column(groups, rtag, q, g, next)[k])
    {
      if q != p || k != num {
        assert Column(groups, rtag, q, g, next)[k] == Column(groups, rtag, q, g, i)[k];
        Index2Inverse(n, q, k);
        Index2Inverse(n, p, num);
      }
    }
  }

  lemma FillNext(groups: seq<seq<nat>>, rtag: Lookup, tails: seq<nat>, height: nat, counts: seq<nat>,
                 table: seq<Entry>, pos: seq<nat>, g: nat)
    requires Complete(groups, rtag) && |tails| == |groups| && g < |groups|
    requires Filled(groups, rtag, tails, height, counts, table, pos, g, |groups[g]|)
    ensures Filled(groups, rtag, tails, height, counts, table, pos, g + 1, 0)
  {
    CountNext(groups, rtag, counts, g);
    forall p ensures Column(groups, rtag, p, g + 1, 0) == Column(groups, rtag, p, g, |groups[g]|) {
    }
  }

  ghost predicate Tall(groups: seq<seq<nat>>, rtag: Lookup, n: nat, height: nat) {
    forall p :: 0 <= p < n ==> |FullColumn(groups, rtag, p)| <= height
  }

  /** Enters one group into the columns of its members. */
  method FillMembers(groups: seq<seq<nat>>, rtag: Lookup, tails: seq<nat>, height: nat,
                     counts: array<nat>, table: array<Entry>, pos: array<nat>, g: nat)
    requires Complete(groups, rtag) && |tails| == |groups| && Within(rtag, counts.Length) && counts != pos
    requires g < |groups|
    requires table.Length == counts.Length * height && pos.Length == table.Length
    requires Tall(groups, rtag, counts.Length, height)
    requires Filled(groups, rtag, tails, height, counts[..], table[..], pos[..], g, 0)
    modifies counts, table, pos
    ensures Filled(groups, rtag, tails, height, counts[..], table[..], pos[..], g + 1, 0)
  {
    hide Filled, Column;
    for i := 0 to |groups[g]|
      invariant Filled(groups, rtag, tails, height, counts[..], table[..], pos[..], g, i)
    {
      var p := rtag[groups[g][i]];
      FillStep(groups, rtag, tails, height, counts[..], table[..], pos[..], g, i, p);
      var num := counts[p];
      ghost var c, t, q := counts[..], table[..], pos[..];
      counts[p] := num + 1;
      var others := ListOthers(groups[g], rtag, i);
      table[Index2(counts.Length, p, num)] := Entry(others, tails[g]);
      pos[Index2(counts.Length, p, num)] := i;
      assert counts[..] == c[p := num + 1];
      assert table[..] == t[Index2(counts.Length, p, num) := Entry(others, tails[g])];
      assert pos[..] == q[Index2(counts.Length, p, num) := i];
    }
    FillNext(groups, rtag, tails, height, counts[..], table[..], pos[..], g);
  }

  /** Second pass: fills the columns; no entry falls outside the table. */
  method FillTable(groups: seq<seq<nat>>, rtag: Lookup, tails: seq<nat>, height: nat,
                   counts: array<nat>, table: array<Entry>, pos: array<nat>)
    requires Complete(groups, rtag) && |tails| == |groups| && Within(rtag, counts.Length) && counts != pos
    requires table.Length == counts.Length * height && pos.Length == table.Length
    requires Tall(groups, rtag, counts.Length, height)
    modifies counts, table, pos
    ensures Filled(groups, rtag, tails, height, counts[..], table[..], pos[..], |groups|, 0)
  {
    Clear(counts);
    assert Filled(groups, rtag, tails, height, counts[..], table[..], pos[..], 0, 0);
    hide Filled, Column;
    for g := 0 to |groups|
      invariant Filled(groups, rtag, tails, height, counts[..], table[..], pos[..], g, 0)
    {
      FillMembers(groups, rtag, tails, height, counts, table, pos, g);
    }
  }

  /** Both passes: the table is as high as the longest column, and fails to be built exactly when a group has
      a member that is not local. */
  method RebuildTable(size: nat, groups: seq<seq<nat>>, rtag: Lookup, tails: seq<nat>, n: nat)
    returns (ok: bool, counts: array<nat>, height: nat, table: array<Entry>, pos: array<nat>)
    requires (forall g :: 0 <= g < |groups| ==> |groups[g]| == size) && Within(rtag, n) && |tails| == |groups|
    ensures fresh(counts) && fresh(table) && fresh(pos) && counts.Length == n
    ensures ok <==> Complete(groups, rtag)
    ensures ok ==> Filled(groups, rtag, tails, height, counts[..], table[..], pos[..], |groups|, 0)
    ensures ok ==> Total(counts[..]) == |groups| * size && (height == 0 || height in counts[..])
  {
    counts := new nat[n];
    table, pos, height := new Entry[0], new nat[0], 0;
    ok := CountGroups(size, groups, rtag, counts);
    if !ok { return; }
    height := Largest(counts);
    ghost var first := counts[..];
    assert Tall(groups, rtag, n, height);
    table := new Entry[n * height];
    pos := new nat[n * height];
    FillTable(groups, rtag, tails, height, counts, table, pos);
    assert counts[..] == first;
  }
}
