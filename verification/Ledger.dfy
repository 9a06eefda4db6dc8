/** What a bonded-group store promises: a map from active tags to groups, together with the removed tags
    that wait to be handed out again. */
module Ledger {

  datatype Bond = Bond(members: seq<nat>, kind: nat)

  /** Active groups by tag, the stack of removed tags (top last), and the number of tags ever made. */
  datatype Ledger = Ledger(live: map<nat, Bond>, free: seq<nat>, next: nat)

  const EMPTY: Ledger := Ledger(map[], [], 0)

  /** Active and removed tags partition the tags ever made. */
  ghost predicate Sound(a: Ledger) {
    && (forall t :: t in a.live ==> t < a.next && t !in a.free)
    && (forall t :: t in a.free ==> t < a.next)
    && (forall t: nat :: t < a.next ==> t in a.live || t in a.free)
    && (forall j, k :: 0 <= j < k < |a.free| ==> a.free[j] != a.free[k])
    && |a.live| + |a.free| == a.next
  }

  /** The tag the next group gets: the one removed last, or a new one. */
  function NextTag(a: Ledger): nat { if a.free == [] then |a.live| else a.free[|a.free| - 1] }

  function Added(a: Ledger, b: Bond): Ledger {
    if a.free == [] then Ledger(a.live[NextTag(a) := b], [], a.next + 1)
    else Ledger(a.live[NextTag(a) := b], a.free[..|a.free| - 1], a.next)
  }

  function Removed(a: Ledger, t: nat): Ledger {
    if t in a.live then Ledger(a.live - {t}, a.free + [t], a.next) else a
  }

  lemma AddedNew(a: Ledger, b: Bond)
    requires Sound(a) && a.free == []
    ensures NextTag(a) !in a.live && Sound(Added(a, b))
  {
    var a' := Added(a, b);
    assert NextTag(a) == a.next && a.next !in a.live;
    assert a'.live.Keys == a.live.Keys + {a.next};
    assert |a'.live| == |a.live.Keys + {a.next}| == |a.live| + 1;
  }

  lemma TopIsLast(free: seq<nat>, u: nat)
    requires free != []
    ensures u in free <==> u in free[..|free| - 1] || u == free[|free| - 1]
  {
    assert free == free[..|free| - 1] + [free[|free| - 1]];
  }

  lemma AddedAgain(a: Ledger, b: Bond)
    requires Sound(a) && a.free != []
    ensures NextTag(a) !in a.live && Sound(Added(a, b))
  {
    var t, a' := NextTag(a), Added(a, b);
    forall u: nat ensures u in a.free <==> u in a'.free || u == t { TopIsLast(a.free, u); }
    assert t !in a.live;
    assert a'.live.Keys == a.live.Keys + {t};
  }

  /** An added group gets a tag that is not in use; every other group keeps its own. */
  lemma AddedSound(a: Ledger, b: Bond)
    requires Sound(a)
    ensures NextTag(a) !in a.live && Sound(Added(a, b))
    ensures if a.free == [] then NextTag(a) == a.next else NextTag(a) < a.next
  {
    assert a.free != [] ==> NextTag(a) in a.free;
    if a.free == [] { AddedNew(a, b); } else { AddedAgain(a, b); }
  }

  lemma RemovedSound(a: Ledger, t: nat)
    requires Sound(a)
    ensures Sound(Removed(a, t))
  {
    if t in a.live {
      var a' := Removed(a, t);
      assert a.live.Keys == a'.live.Keys + {t};
    }
  }

  /** Adding and removing again frees the tag that was used, and the next add would use it again. */
  lemma RemoveUndoesAdd(a: Ledger, b: Bond)
    requires Sound(a)
    ensures Removed(Added(a, b), NextTag(a)).live == a.live
    ensures NextTag(Removed(Added(a, b), NextTag(a))) == NextTag(a)
    ensures a.free != [] ==> Removed(Added(a, b), NextTag(a)) == a
  {
    AddedSound(a, b);
    assert a.live[NextTag(a) := b] - {NextTag(a)} == a.live;
  }

  // ---------- runs ----------

  datatype Op = Add(bond: Bond) | Remove(tag: nat)

  function Apply(a: Ledger, op: Op): Ledger {
    match op
    case Add(b) => Added(a, b)
    case Remove(t) => Removed(a, t)
  }

  function Run(ops: seq<Op>): Ledger {
    if ops == [] then EMPTY else Apply(Run(ops[..|ops| - 1]), ops[|ops| - 1])
  }

  /** The largest number of groups that were active at once. */
  function Peak(ops: seq<Op>): nat {
    if ops == [] then 0
    else
      var before := Peak(ops[..|ops| - 1]);
      if |Run(ops).live| > before then |Run(ops).live| else before
  }

  /** Every run keeps the partition and makes no more tags than groups were ever active at once. */
  lemma {:induction false} RunSound(ops: seq<Op>)
    ensures Sound(Run(ops)) && Run(ops).next == Peak(ops)
  {
    if ops != [] {
      var init, op := ops[..|ops| - 1], ops[|ops| - 1];
      RunSound(init);
      match op {
        case Add(b) => AddedSound(Run(init), b);
        case Remove(t) => RemovedSound(Run(init), t);
      }
    }
  }
}
