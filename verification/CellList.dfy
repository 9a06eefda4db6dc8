/** The cell list: every particle of the box is stored in one slot of its cell, and the slots are enlarged and
    filled again when a cell overflows. */
module CellList {
  import opened Indexing
  import opened CellAdjacency
  import opened CellBins

  // ---------- the particles of a cell ----------

  function Bins(ps: seq<Particle>, m: Dim, periodic: Periodic): seq<Where> {
    seq(|ps|, i requires 0 <= i < |ps| => Locate(ps[i], m, periodic))
  }

  predicate InCell(m: Dim, w: Where, c: nat) { w.Inside? && CellIndex(m, w.cell) == c }

  /** The particles among the first n that belong to cell c, in order. */
  ghost function Occupants(bins: seq<Where>, m: Dim, c: nat, n: nat): seq<nat>
    requires n <= |bins|
  {
    if n == 0 then [] else Occupants(bins, m, c, n - 1) + if InCell(m, bins[n - 1], c) then [n - 1] else []
  }

  lemma {:induction false} OccupantsExact(bins: seq<Where>, m: Dim, c: nat, n: nat, i: nat)
    requires n <= |bins|
    ensures i in Occupants(bins, m, c, n) <==> i < n && InCell(m, bins[i], c)
  {
    if n > 0 { OccupantsExact(bins, m, c, n - 1, i); }
  }

  lemma {:induction false} OccupantsAscend(bins: seq<Where>, m: Dim, c: nat, n: nat)
    requires n <= |bins|
    ensures Ascends(Occupants(bins, m, c, n))
  {
    if n > 0 {
      OccupantsAscend(bins, m, c, n - 1);
      var before := Occupants(bins, m, c, n - 1);
      forall k | 0 <= k < |before| ensures before[k] < n - 1 { OccupantsExact(bins, m, c, n - 1, before[k]); }
      assert Ascends(before + [n - 1]);
      assert before + [] == before;
    }
  }

  ghost predicate Ascends(s: seq<nat>) { forall j, k :: 0 <= j < k < |s| ==> s[j] < s[k] }

  // ---------- slots ----------

  /** The first n particles are counted, and stored in the slots of their cells as far as these go. */
  ghost predicate Stored(bins: seq<Where>, m: Dim, nmax: nat, sizes: seq<nat>, idx: seq<nat>, n: nat)
    requires n <= |bins|
  {
    && |sizes| == m.Cells() && |idx| == nmax * m.Cells()
    && (forall c :: 0 <= c < |sizes| ==> sizes[c] == |Occupants(bins, m, c, n)|)
    && (forall c, k :: 0 <= c < |sizes| && 0 <= k < sizes[c] && k < nmax ==> SlotHolds(bins, m, nmax, idx, n, c, k))
  }

  ghost predicate SlotHolds(bins: seq<Where>, m: Dim, nmax: nat, idx: seq<nat>, n: nat, c: nat, k: nat)
    requires n <= |bins|
  {
    && k < |Occupants(bins, m, c, n)| && Index2(nmax, k, c) < |idx|
    && idx[Index2(nmax, k, c)] == Occupants(bins, m, c, n)[k]
  }

  lemma StoreStep(bins: seq<Where>, m: Dim, nmax: nat, sizes: seq<nat>, idx: seq<nat>, n: nat, bin: nat)
    requires n < |bins| && bins[n].Inside? && In(m, bins[n].cell) && bin == CellIndex(m, bins[n].cell)
    requires Stored(bins, m, nmax, sizes, idx, n)
    ensures bin < |sizes| && (sizes[bin] < nmax ==> Index2(nmax, sizes[bin], bin) < |idx|)
    ensures Stored(bins, m, nmax, sizes[bin := sizes[bin] + 1],
                   if sizes[bin] < nmax then idx[Index2(nmax, sizes[bin], bin) := n] else idx, n + 1)
  {
    var cell := bins[n].cell;
    Index3Bound(m.x, m.y, m.z, cell.x, cell.y, cell.z);
    var offset := sizes[bin];
    if offset < nmax { Index2Bound(nmax, m.Cells(), offset, bin); }
    var next := n + 1;
    var sizes' := sizes[bin := offset + 1];
    var idx' := if offset < nmax then idx[Index2(nmax, offset, bin) := n] else idx;
    forall c, k | 0 <= c < |sizes'| && 0 <= k < sizes'[c] && k < nmax
      ensures SlotHolds(bins, m, nmax, idx', next, c, k)
    {
      if c == bin && k == offset {
        assert Occupants(bins, m, c, next)[k] == n;
      } else {
        assert SlotHolds(bins, m, nmax, idx, n, c, k);
        Index2Inverse(nmax, k, c);
        if offset < nmax { Index2Inverse(nmax, offset, bin); }
      }
    }
  }

  lemma SkipStep(bins: seq<Where>, m: Dim, nmax: nat, sizes: seq<nat>, idx: seq<nat>, n: nat)
    requires n < |bins| && !bins[n].Inside? && Stored(bins, m, nmax, sizes, idx, n)
    ensures Stored(bins, m, nmax, sizes, idx, n + 1)
  {
    forall c ensures Occupants(bins, m, c, n + 1) == Occupants(bins, m, c, n) {
    }
    var next := n + 1;
    forall c, k | 0 <= c < |sizes| && 0 <= k < sizes[c] && k < nmax ensures SlotHolds(bins, m, nmax, idx, next, c, k) {
      assert SlotHolds(bins, m, nmax, idx, n, c, k);
    }
  }

  /** Every particle with a cell sits in exactly one slot, which is a slot of that cell. */
  lemma OneSlot(bins: seq<Where>, m: Dim, nmax: nat, sizes: seq<nat>, idx: seq<nat>, i: nat)
    requires Stored(bins, m, nmax, sizes, idx, |bins|) && (forall c :: 0 <= c < |sizes| ==> sizes[c] <= nmax)
    requires i < |bins| && bins[i].Inside? && In(m, bins[i].cell)
    ensures exists k :: Sits(m, nmax, sizes, idx, CellIndex(m, bins[i].cell), k, i)
    ensures forall c, k, d, l :: Sits(m, nmax, sizes, idx, c, k, i) && Sits(m, nmax, sizes, idx, d, l, i) ==>
              c == d && k == l
  {
    var cell, n := bins[i].cell, |bins|;
    var c0 := CellIndex(m, cell);
    Index3Bound(m.x, m.y, m.z, cell.x, cell.y, cell.z);
    OccupantsExact(bins, m, c0, n, i);
    var k0 :| 0 <= k0 < |Occupants(bins, m, c0, n)| && Occupants(bins, m, c0, n)[k0] == i;
    assert SlotHolds(bins, m, nmax, idx, n, c0, k0);
    assert Sits(m, nmax, sizes, idx, c0, k0, i);
    forall c, k | Sits(m, nmax, sizes, idx, c, k, i) ensures c == c0 && k == k0 {
      OnlySlot(bins, m, nmax, sizes, idx, i, c0, k0, c, k);
    }
  }

  /** Slot k of cell c is in use and holds particle i. */
  ghost predicate Sits(m: Dim, nmax: nat, sizes: seq<nat>, idx: seq<nat>, c: nat, k: nat, i: nat) {
    c < |sizes| && k < sizes[c] && k < nmax && Index2(nmax, k, c) < |idx| && idx[Index2(nmax, k, c)] == i
  }

  lemma OnlySlot(bins: seq<Where>, m: Dim, nmax: nat, sizes: seq<nat>, idx: seq<nat>, i: nat, c0: nat, k0: nat, c: nat,
                 k: nat)
    requires Stored(bins, m, nmax, sizes, idx, |bins|) && i < |bins|
    requires InCell(m, bins[i], c0) && k0 < |Occupants(bins, m, c0, |bins|)| && Occupants(bins, m, c0, |bins|)[k0] == i
    requires Sits(m, nmax, sizes, idx, c, k, i)
    ensures c == c0 && k == k0
  {
    assert SlotHolds(bins, m, nmax, idx, |bins|, c, k);
    assert i in Occupants(bins, m, c, |bins|);
    OccupantsExact(bins, m, c, |bins|, i);
    OccupantsAscend(bins, m, c, |bins|);
  }

  // ---------- conditions ----------

  /** What a pass reports: the size an overflowing cell needs, and one more than the index of a particle with
      an undefined position or outside the box. */
  datatype Conditions = Conditions(over: nat, undefinedAt: nat, outsideAt: nat)

  ghost function Crowd(bins: seq<Where>, m: Dim, c: nat, n: nat): nat
    requires n <= |bins|
  {
    |Occupants(bins, m, c, n)|
  }

  ghost predicate NoFull(bins: seq<Where>, m: Dim, n: nat, limit: nat)
    requires n <= |bins|
  {
    forall c :: 0 <= c < m.Cells() ==> Crowd(bins, m, c, n) <= limit
  }

  ghost predicate SomeHas(bins: seq<Where>, m: Dim, n: nat, size: nat)
    requires n <= |bins|
  {
    exists c :: 0 <= c < m.Cells() && Crowd(bins, m, c, n) == size
  }

  /** The largest cell is reported exactly if it overflows. */
  ghost predicate OverflowNoted(bins: seq<Where>, m: Dim, nmax: nat, over: nat, n: nat)
    requires n <= |bins|
  {
    if over == 0 then NoFull(bins, m, n, nmax) else nmax < over && NoFull(bins, m, n, over) && SomeHas(bins, m, n, over)
  }

  /** Particle i is the last at an undefined position. */
  ghost predicate LastUndefined(bins: seq<Where>, n: nat, i: int)
    requires n <= |bins|
  {
    0 <= i < n && bins[i].Undefined? && forall j :: i < j < n ==> !bins[j].Undefined?
  }

  /** Particle i is the last local one outside the box. */
  ghost predicate LastOutside(bins: seq<Where>, local: nat, n: nat, i: int)
    requires n <= |bins|
  {
    0 <= i < n && i < local && bins[i].Outside? && forall j :: i < j < n && j < local ==> !bins[j].Outside?
  }

  ghost predicate Noted(bins: seq<Where>, local: nat, cond: Conditions, n: nat)
    requires n <= |bins|
  {
    && (if cond.undefinedAt == 0 then forall i :: 0 <= i < n ==> !bins[i].Undefined?
        else LastUndefined(bins, n, cond.undefinedAt - 1))
    && (if cond.outsideAt == 0 then forall i :: 0 <= i < n && i < local ==> !bins[i].Outside?
        else LastOutside(bins, local, n, cond.outsideAt - 1))
  }

  lemma CrowdStep(bins: seq<Where>, m: Dim, c: nat, n: nat)
    requires n < |bins|
    ensures Crowd(bins, m, c, n + 1) == Crowd(bins, m, c, n) + if InCell(m, bins[n], c) then 1 else 0
  {
  }

  lemma OverflowStep(bins: seq<Where>, m: Dim, nmax: nat, over: nat, n: nat, bin: nat)
    requires n < |bins| && InCell(m, bins[n], bin) && bin < m.Cells() && OverflowNoted(bins, m, nmax, over, n)
    ensures var offset := Crowd(bins, m, bin, n);
            OverflowNoted(bins, m, nmax,
                          if offset < nmax then over else if over < offset + 1 then offset + 1 else over, n + 1)
  {
    var offset := Crowd(bins, m, bin, n);
    hide Crowd;
    var next := n + 1;
    forall c: nat
      ensures Crowd(bins, m, c, next) == Crowd(bins, m, c, n) + if c == bin then 1 else 0
    {
      CrowdStep(bins, m, c, n);
    }
    var over' := if offset < nmax then over else if over < offset + 1 then offset + 1 else over;
    if over' != 0 {
      if over' == over {
        var c :| 0 <= c < m.Cells() && Crowd(bins, m, c, n) == over;
        assert c != bin;
        assert Crowd(bins, m, c, next) == over';
      } else {
        assert Crowd(bins, m, bin, next) == over';
      }
      assert SomeHas(bins, m, next, over');
    }
  }

  lemma OverflowSkip(bins: seq<Where>, m: Dim, nmax: nat, over: nat, n: nat)
    requires n < |bins| && !bins[n].Inside? && OverflowNoted(bins, m, nmax, over, n)
    ensures OverflowNoted(bins, m, nmax, over, n + 1)
  {
    hide Crowd;
    var next := n + 1;
    forall c: nat ensures Crowd(bins, m, c, next) == Crowd(bins, m, c, n) { CrowdStep(bins, m, c, n); }
    if over != 0 {
      var c :| 0 <= c < m.Cells() && Crowd(bins, m, c, n) == over;
      assert Crowd(bins, m, c, next) == over;
    }
  }

  lemma NoOverflow(bins: seq<Where>, m: Dim, nmax: nat, over: nat, n: nat)
    requires n <= |bins| && OverflowNoted(bins, m, nmax, over, n) && NoFull(bins, m, n, nmax)
    ensures over == 0
  {
  }

  lemma NothingStored(bins: seq<Where>, m: Dim, nmax: nat, sizes: seq<nat>, idx: seq<nat>)
    requires |sizes| == m.Cells() && |idx| == nmax * m.Cells() && forall c :: 0 <= c < |sizes| ==> sizes[c] == 0
    ensures Stored(bins, m, nmax, sizes, idx, 0) && OverflowNoted(bins, m, nmax, 0, 0)
  {
  }

  datatype Outcome = Done | UndefinedPosition(n: nat) | OutsideBox(n: nat)

  class List {
    var dim: Dim
    var nmax: nat
    var sizes: array<nat>
    var idx: array<nat>

    ghost predicate Valid()
      reads this
    {
      dim.Valid() && sizes.Length == dim.Cells() && idx.Length == nmax * dim.Cells() && sizes != idx
    }

    /** Gives every cell room for nmax particles. */
    method Allocate()
      requires dim.Valid()
      modifies this`sizes, this`idx
      ensures Valid() && fresh(sizes) && fresh(idx)
    {
      sizes := new nat[dim.Cells()];
      idx := new nat[nmax * dim.Cells()];
    }

    method ClearSizes()
      requires Valid()
      modifies sizes
      ensures forall c :: 0 <= c < sizes.Length ==> sizes[c] == 0
    {
      for c := 0 to sizes.Length
        invariant forall k :: 0 <= k < c ==> sizes[k] == 0
      {
        sizes[c] := 0;
      }
    }

    /** Enters one particle into its cell. */
    method Enter(ghost bins: seq<Where>, n: nat, cell: Cell, over: nat) returns (over': nat)
      requires Valid() && n < |bins| && bins[n] == Inside(cell) && In(dim, cell)
      requires Stored(bins, dim, nmax, sizes[..], idx[..], n) && OverflowNoted(bins, dim, nmax, over, n)
      modifies sizes, idx
      ensures Stored(bins, dim, nmax, sizes[..], idx[..], n + 1) && OverflowNoted(bins, dim, nmax, over', n + 1)
    {
      var bin := CellIndex(dim, cell);
      StoreStep(bins, dim, nmax, sizes[..], idx[..], n, bin);
      assert sizes[bin] == Crowd(bins, dim, bin, n);
      OverflowStep(bins, dim, nmax, over, n, bin);
      hide Stored, OverflowNoted, Crowd;
      ghost var s: seq<nat>, x: seq<nat> := sizes[..], idx[..];
      var offset := sizes[bin];
      over' := over;
      if offset < nmax {
        idx[Index2(nmax, offset, bin)] := n;
        assert idx[..] == x[Index2(nmax, offset, bin) := n];
      } else if over < offset + 1 {
        over' := offset + 1;
      }
      sizes[bin] := sizes[bin] + 1;
      assert sizes[..] == s[bin := offset + 1];
      assert offset >= nmax ==> idx[..] == x;
    }

    /** One pass over the particles; the first local ones belong to this rank, the others are ghosts. */
    method Fill(ps: seq<Particle>, local: nat, periodic: Periodic) returns (cond: Conditions)
      requires Valid()
      modifies sizes, idx
      ensures var bins := Bins(ps, dim, periodic);
              && Stored(bins, dim, nmax, sizes[..], idx[..], |ps|) && OverflowNoted(bins, dim, nmax, cond.over, |ps|)
              && Noted(bins, local, cond, |ps|)
    {
      ghost var bins := Bins(ps, dim, periodic);
      cond := Conditions(0, 0, 0);
      ClearSizes();
      NothingStored(bins, dim, nmax, sizes[..], idx[..]);
      hide Stored, OverflowNoted, Locate;
      for n := 0 to |ps|
        invariant Stored(bins, dim, nmax, sizes[..], idx[..], n) && OverflowNoted(bins, dim, nmax, cond.over, n)
        invariant Noted(bins, local, cond, n)
      {
        var w := Locate(ps[n], dim, periodic);
        assert bins[n] == w;
        if w.Inside? {
          LocateInside(ps[n], dim, periodic);
          var over := Enter(bins, n, w.cell, cond.over);
          cond := cond.(over := over);
        } else {
          SkipStep(bins, dim, nmax, sizes[..], idx[..], n);
          OverflowSkip(bins, dim, nmax, cond.over, n);
          if w.Undefined? {
            cond := cond.(undefinedAt := n + 1);
          } else if n < local {
            cond := cond.(outsideAt := n + 1);
          }
        }
      }
    }

    /** Fills the cells, enlarging them if one overflows: two passes are always enough. Fails exactly when some
        position is undefined or a local particle is outside the box. */
    method Compute(ps: seq<Particle>, local: nat, periodic: Periodic) returns (r: Outcome, passes: nat)
      requires Valid()
      modifies this`nmax, this`sizes, this`idx, sizes, idx
      ensures dim == old(dim) && passes <= 2 && (r.Done? ==> Valid())
      ensures r.Done? ==>
                && Stored(Bins(ps, dim, periodic), dim, nmax, sizes[..], idx[..], |ps|)
                && NoFull(Bins(ps, dim, periodic), dim, |ps|, nmax)
      ensures r.Done? ==> nmax == old(nmax) || (nmax > old(nmax) && SomeHas(Bins(ps, dim, periodic), dim, |ps|, nmax))
      ensures r.Done?
              <==> forall i :: 0 <= i < |ps| ==>
                     && !Bins(ps, dim, periodic)[i].Undefined?
                     && (i < local ==> !Bins(ps, dim, periodic)[i].Outside?)
      ensures r.UndefinedPosition? ==> LastUndefined(Bins(ps, dim, periodic), |ps|, r.n)
      ensures r.OutsideBox? ==>
                && LastOutside(Bins(ps, dim, periodic), local, |ps|, r.n)
                && forall i :: 0 <= i < |ps| ==> !Bins(ps, dim, periodic)[i].Undefined?
    {
      ghost var bins := Bins(ps, dim, periodic);
      hide Stored, NoFull, SomeHas, Locate;
      passes := 0;
      var overflowed := true;
      while overflowed
        invariant dim == old(dim) && Valid() && passes <= 2
        invariant overflowed ==> passes <= 1 && (passes == 1 ==> NoFull(bins, dim, |ps|, nmax))
        invariant bins == Bins(ps, dim, periodic)
        invariant passes == 0 ==> overflowed && sizes == old(sizes) && idx == old(idx) && nmax == old(nmax)
        invariant overflowed && passes == 1 ==> fresh(sizes) && fresh(idx)
        invariant passes > 0 ==> Noted(bins, local, Conditions(0, 0, 0), |ps|)
        invariant !overflowed ==> Stored(bins, dim, nmax, sizes[..], idx[..], |ps|) && NoFull(bins, dim, |ps|, nmax)
        invariant nmax == old(nmax) || (nmax > old(nmax) && SomeHas(bins, dim, |ps|, nmax))
        decreases overflowed, 2 - passes
      {
        var cond := Fill(ps, local, periodic);
        if passes == 1 { NoOverflow(bins, dim, nmax, cond.over, |ps|); }
        passes := passes + 1;
        overflowed := cond.over > nmax;
        if overflowed { nmax := cond.over; }
        if cond.undefinedAt != 0 { return UndefinedPosition(cond.undefinedAt - 1), passes; }
        if cond.outsideAt != 0 { return OutsideBox(cond.outsideAt - 1), passes; }
        if overflowed { Allocate(); }
      }
      r := Done;
    }
  }
}
