/** The store of bonded groups on an undecomposed system: parallel arrays that removal compacts by moving
    the last element, a reverse lookup, a stack of removed tags and a cache of the active ones. */
module GroupStore {
  import opened Ledger
  import opened Ordered

  /** Reverse lookup of a tag that is not in use. */
  const NOT_LOCAL := -1

  datatype Error = TagOutOfBounds | RepeatedMember | InvalidType | NoSuchTag | AlreadyRemoved | IndexOutOfBounds

  datatype Result<T> = Ok(value: T) | Err(error: Error)

  predicate OutOfBounds(members: seq<nat>, maxTag: nat) { exists i :: 0 <= i < |members| && members[i] > maxTag }

  predicate Repeated(members: seq<nat>) {
    exists i, j :: 0 <= i < |members| && 0 <= j < |members| && i != j && members[i] == members[j]
  }

  /** The checks on a new group, in the order in which they are made. */
  method Validate(members: seq<nat>, kind: nat, maxTag: nat, kinds: nat) returns (r: Result<()>)
    ensures r == if OutOfBounds(members, maxTag) then Err(TagOutOfBounds)
                 else if Repeated(members) then Err(RepeatedMember)
                 else if kind >= kinds then Err(InvalidType)
                 else Ok(())
  {
    for i := 0 to |members|
      invariant forall k :: 0 <= k < i ==> members[k] <= maxTag
    {
      if members[i] > maxTag { return Err(TagOutOfBounds); }
    }
    for i := 0 to |members|
      invariant forall k, j :: 0 <= k < i && 0 <= j < |members| && k != j ==> members[k] != members[j]
    {
      for j := 0 to |members|
        invariant forall l :: 0 <= l < j && l != i ==> members[i] != members[l]
      {
        if i != j && members[i] == members[j] { return Err(RepeatedMember); }
      }
    }
    if kind >= kinds { return Err(InvalidType); }
    return Ok(());
  }

  predicate Acceptable(b: Bond, maxTag: nat, kinds: nat) {
    !OutOfBounds(b.members, maxTag) && !Repeated(b.members) && b.kind < kinds
  }

  predicate AllAcceptable(snap: seq<Bond>, maxTag: nat, kinds: nat) {
    forall k :: 0 <= k < |snap| ==> Acceptable(snap[k], maxTag, kinds)
  }

  /** The operations of a run without the additions that are rejected. */
  function Accepted(ops: seq<Op>, maxTag: nat, kinds: nat): seq<Op> {
    if ops == [] then []
    else
      var op := ops[|ops| - 1];
      Accepted(ops[..|ops| - 1], maxTag, kinds) + if op.Add? && !Acceptable(op.bond, maxTag, kinds) then [] else [op]
  }

  lemma AcceptedStep(ops: seq<Op>, k: nat, maxTag: nat, kinds: nat)
    requires k < |ops|
    ensures Run(Accepted(ops[..k + 1], maxTag, kinds))
         == if ops[k].Add? && !Acceptable(ops[k].bond, maxTag, kinds) then Run(Accepted(ops[..k], maxTag, kinds))
            else Apply(Run(Accepted(ops[..k], maxTag, kinds)), ops[k])
  {
    var before := Accepted(ops[..k], maxTag, kinds);
    assert ops[..k + 1][..k] == ops[..k];
    assert (before + [ops[k]])[..|before|] == before;
    assert before + [] == before;
  }

  // ---------- the arrays and what they stand for ----------

  datatype Arrays = Arrays(groups: seq<seq<nat>>, kinds: seq<nat>, tags: seq<nat>, rtag: seq<int>,
                           recycled: seq<nat>, active: set<nat>)

  /** Tags and lookup are inverse to each other, and the active tags are those with a lookup. */
  ghost predicate Linked(s: Arrays) {
    && |s.kinds| == |s.groups| && |s.tags| == |s.groups| && |s.active| == |s.groups|
    && (forall i :: 0 <= i < |s.tags| ==> s.tags[i] < |s.rtag| && s.rtag[s.tags[i]] == i)
    && (forall t :: 0 <= t < |s.rtag| ==>
          s.rtag[t] == NOT_LOCAL || (0 <= s.rtag[t] < |s.tags| && s.tags[s.rtag[t]] == t))
    && (forall t: nat :: t in s.active <==> t < |s.rtag| && s.rtag[t] != NOT_LOCAL)
  }

  ghost function Contents(s: Arrays): map<nat, Bond>
    requires Linked(s)
  {
    map t | t in s.active :: Bond(s.groups[s.rtag[t]], s.kinds[s.rtag[t]])
  }

  ghost function View(s: Arrays): Ledger
    requires Linked(s)
  {
    Ledger(Contents(s), s.recycled, |s.rtag|)
  }

  function Pushed(s: Arrays, members: seq<nat>, kind: nat, t: nat): Arrays {
    Arrays(s.groups + [members], s.kinds + [kind], s.tags + [t],
           if t < |s.rtag| then s.rtag[t := |s.groups|] else s.rtag + [|s.groups|],
           if s.recycled == [] then [] else s.recycled[..|s.recycled| - 1], s.active + {t})
  }

  lemma PushLinked(s: Arrays, members: seq<nat>, kind: nat, t: nat)
    requires Linked(s) && t <= |s.rtag| && t !in s.active
    ensures Linked(Pushed(s, members, kind, t))
  {
    var s' := Pushed(s, members, kind, t);
    forall i | 0 <= i < |s'.tags| ensures s'.tags[i] < |s'.rtag| && s'.rtag[s'.tags[i]] == i {
      if i < |s.tags| { assert s.tags[i] in s.active; }
    }
  }

  lemma PushTag(s: Arrays)
    requires Linked(s) && Sound(View(s))
    ensures NextTag(View(s)) !in s.active
    ensures s.recycled == [] ==> NextTag(View(s)) == |s.rtag| == |s.groups|
    ensures s.recycled != [] ==> NextTag(View(s)) == s.recycled[|s.recycled| - 1] < |s.rtag|
  {
    assert View(s).live.Keys == s.active;
    AddedSound(View(s), Bond([], 0));
  }

  lemma PushContents(s: Arrays, members: seq<nat>, kind: nat, t: nat)
    requires Linked(s) && t <= |s.rtag| && t !in s.active
    ensures Linked(Pushed(s, members, kind, t))
    ensures Contents(Pushed(s, members, kind, t)) == Contents(s)[t := Bond(members, kind)]
  {
    PushLinked(s, members, kind, t);
  }

  lemma PushView(s: Arrays, members: seq<nat>, kind: nat)
    requires Linked(s) && Sound(View(s))
    ensures var s' := Pushed(s, members, kind, NextTag(View(s)));
            Linked(s') && View(s') == Added(View(s), Bond(members, kind)) && Sound(View(s'))
  {
    hide Linked, Sound, Contents;
    PushTag(s);
    PushContents(s, members, kind, NextTag(View(s)));
    AddedSound(View(s), Bond(members, kind));
  }

  /** The last element takes the place of the removed one. */
  function Dropped(s: Arrays, t: nat): Arrays
    requires t < |s.rtag| && 0 <= s.rtag[t] < |s.groups| && |s.kinds| == |s.groups| && |s.tags| == |s.groups|
    requires s.tags[|s.groups| - 1] < |s.rtag|
  {
    var id, last := s.rtag[t], |s.groups| - 1;
    if id < last then
      Arrays(s.groups[id := s.groups[last]][..last], s.kinds[id := s.kinds[last]][..last],
             s.tags[id := s.tags[last]][..last],
             s.rtag[t := NOT_LOCAL][s.tags[last] := id], s.recycled + [t], s.active - {t})
    else
      Arrays(s.groups[..last], s.kinds[..last], s.tags[..last],
             s.rtag[t := NOT_LOCAL], s.recycled + [t], s.active - {t})
  }

  lemma TagLookup(s: Arrays, t: nat)
    requires Linked(s)
    ensures t in s.active <==> t < |s.rtag| && 0 <= s.rtag[t] < |s.groups|
    ensures |s.kinds| == |s.groups| && |s.tags| == |s.groups| && (s.tags != [] ==> s.tags[|s.tags| - 1] < |s.rtag|)
    ensures View(s).live.Keys == s.active
    ensures Removed(View(s), t) == if t in s.active then Removed(View(s), t) else View(s)
  {
  }

  lemma LiveAt(s: Arrays, t: nat)
    requires Linked(s) && t in s.active
    ensures t < |s.rtag| && 0 <= s.rtag[t] < |s.groups| == |s.kinds|
    ensures t in View(s).live && View(s).live[t] == Bond(s.groups[s.rtag[t]], s.kinds[s.rtag[t]])
  {
  }

  lemma DropLinked(s: Arrays, t: nat)
    requires Linked(s) && t in s.active
    ensures Linked(Dropped(s, t))
  {
  }

  lemma DropContents(s: Arrays, t: nat)
    requires Linked(s) && t in s.active
    ensures t in Contents(s) && Linked(Dropped(s, t)) && Contents(Dropped(s, t)) == Contents(s) - {t}
    ensures |Dropped(s, t).rtag| == |s.rtag| && Dropped(s, t).recycled == s.recycled + [t]
  {
    DropLinked(s, t);
  }

  lemma DropView(s: Arrays, t: nat)
    requires Linked(s) && Sound(View(s)) && t in s.active
    ensures Linked(Dropped(s, t)) && View(Dropped(s, t)) == Removed(View(s), t) && Sound(View(Dropped(s, t)))
  {
    hide Linked, Sound, Contents;
    DropContents(s, t);
    RemovedSound(View(s), t);
  }

  // ---------- snapshots ----------

  /** The groups in order of their tags, and the place of each tag. */
  ghost predicate Lines(live: map<nat, Bond>, snap: seq<Bond>, index: map<nat, nat>) {
    && |snap| == |live.Keys| && index.Keys == live.Keys
    && forall t :: t in live ==> index[t] == Rank(live.Keys, t) < |snap| && snap[index[t]] == live[t]
  }

  lemma LinesFrom(live: map<nat, Bond>, ts: seq<nat>, snap: seq<Bond>, index: map<nat, nat>)
    requires Lists(ts, live.Keys) && |snap| == |ts| && forall t :: t in index ==> index[t] < |ts| && ts[index[t]] == t
    requires forall j :: 0 <= j < |ts| ==>
               ts[j] in live && ts[j] in index && index[ts[j]] == j && snap[j] == live[ts[j]]
    ensures Lines(live, snap, index)
  {
    ListsCount(ts, live.Keys);
    forall t | t in live ensures t in index && index[t] == Rank(live.Keys, t) < |snap| && snap[index[t]] == live[t] {
      var k :| 0 <= k < |ts| && ts[k] == t;
      NthByRank(ts, live.Keys, k);
    }
    assert index.Keys == live.Keys;
  }

  /** The ledger loaded from a snapshot: tags are places. */
  ghost function Loaded(snap: seq<Bond>): Ledger { Ledger(map k: nat | k < |snap| :: snap[k], [], |snap|) }

  /** A reloaded snapshot holds the same groups, renumbered in the same order. */
  lemma ReloadRenumbers(live: map<nat, Bond>, snap: seq<Bond>, index: map<nat, nat>, t: nat, u: nat)
    requires Lines(live, snap, index) && t in live && u in live && t < u
    ensures index[t] in Loaded(snap).live && Loaded(snap).live[index[t]] == live[t] && index[t] < index[u]
  {
    assert Below(live.Keys, t) + {t} <= Below(live.Keys, u);
    SubsetCount(Below(live.Keys, t) + {t}, Below(live.Keys, u));
  }

  lemma LoadedStep(snap: seq<Bond>, k: nat)
    requires k < |snap| && Sound(Loaded(snap[..k]))
    ensures Added(Loaded(snap[..k]), snap[k]) == Loaded(snap[..k + 1])
  {
    var a := Loaded(snap[..k]);
    assert a.live[k := snap[k]] == Loaded(snap[..k + 1]).live;
  }

  lemma {:induction false} InitialRank(keys: set<nat>, n: nat, t: nat)
    requires t <= n && forall k: nat :: k in keys <==> k < n
    ensures Rank(keys, t) == t
    decreases t
  {
    if t == 0 {
      assert Below(keys, 0) == {};
    } else {
      InitialRank(keys, n, t - 1);
      assert Below(keys, t) == Below(keys, t - 1) + {t - 1};
    }
  }

  /** Taking a snapshot of a loaded snapshot gives it back. */
  lemma SnapshotRoundTrip(snap: seq<Bond>, snap': seq<Bond>, index: map<nat, nat>)
    requires Lines(Loaded(snap).live, snap', index)
    ensures snap' == snap
  {
    var live := Loaded(snap).live;
    InitialRank(live.Keys, |snap|, |snap|);
    assert Below(live.Keys, |snap|) == live.Keys;
    forall k | 0 <= k < |snap| ensures snap'[k] == snap[k] {
      InitialRank(live.Keys, |snap|, k);
      assert k in live;
    }
  }

  class Store {
    var groups: seq<seq<nat>>
    var kinds: seq<nat>
    var tags: seq<nat>
    var rtag: seq<int>
    var recycled: seq<nat>
    var active: set<nat>
    var cached: seq<nat>
    var stale: bool
    var nglobal: nat
    var nkinds: nat

    ghost function Now(): Arrays
      reads this
    {
      Arrays(groups, kinds, tags, rtag, recycled, active)
    }

    ghost predicate Valid()
      reads this
    {
      Linked(Now()) && Sound(View(Now())) && nglobal == |groups| && (!stale ==> Lists(cached, active))
    }

    /** The ledger the store stands for. */
    ghost function Model(): Ledger
      requires Valid()
      reads this
    {
      View(Now())
    }

    constructor (nkinds: nat)
      ensures Valid() && Model() == EMPTY && this.nkinds == nkinds
    {
      groups, kinds, tags, rtag, recycled, active, cached, stale, nglobal := [], [], [], [], [], {}, [], true, 0;
      this.nkinds := nkinds;
    }

    method Reset(nkinds: nat)
      modifies this
      ensures Valid() && Model() == EMPTY && this.nkinds == nkinds
    {
      groups, kinds, tags, rtag, recycled, active, cached, stale, nglobal := [], [], [], [], [], {}, [], true, 0;
      this.nkinds := nkinds;
    }

    /** Adds a group under the tag removed last, or a new one; a rejected group changes nothing. */
    method Add(members: seq<nat>, kind: nat, maxTag: nat) returns (r: Result<nat>)
      requires Valid()
      modifies this
      ensures Valid() && nkinds == old(nkinds)
      ensures r.Ok? <==> Acceptable(Bond(members, kind), maxTag, nkinds)
      ensures r.Err? ==> Now() == old(Now()) && cached == old(cached) && stale == old(stale)
      ensures r.Ok? ==> r.value == NextTag(old(Model())) && r.value !in old(active)
      ensures r.Ok? ==> Model() == Added(old(Model()), Bond(members, kind))
    {
      hide Linked, Sound, OutOfBounds, Repeated, Lists, View, NextTag;
      var valid := Validate(members, kind, maxTag, nkinds);
      if valid.Err? { return Err(valid.error); }
      ghost var before := Now();
      PushTag(before);
      PushView(before, members, kind);
      var tag;
      if recycled != [] {
        tag := recycled[|recycled| - 1];
        recycled := recycled[..|recycled| - 1];
        rtag := rtag[tag := |groups|];
      } else {
        tag := nglobal;
        rtag := rtag + [|groups|];
      }
      groups := groups + [members];
      kinds := kinds + [kind];
      tags := tags + [tag];
      active := active + {tag};
      stale := true;
      nglobal := nglobal + 1;
      assert Now() == Pushed(before, members, kind, tag);
      r := Ok(tag);
    }

    /** Removes an active group and frees its tag; a tag that is not in use is rejected and changes nothing. */
    method Remove(tag: nat) returns (r: Result<()>)
      requires Valid()
      modifies this
      ensures Valid() && nkinds == old(nkinds)
      ensures r
              == if tag >= |old(rtag)| then Err(NoSuchTag)
                 else if tag !in old(active) then Err(AlreadyRemoved)
                 else Ok(())
      ensures Model() == Removed(old(Model()), tag)
      ensures r.Err? ==> Now() == old(Now()) && cached == old(cached) && stale == old(stale)
    {
      hide Linked, Sound, Lists, View, Removed;
      TagLookup(Now(), tag);
      if tag >= |rtag| { return Err(NoSuchTag); }
      var id := rtag[tag];
      if !(0 <= id < |groups|) { return Err(AlreadyRemoved); }
      ghost var before := Now();
      var size := |groups|;
      rtag := rtag[tag := NOT_LOCAL];
      if id < size - 1 {
        groups := groups[id := groups[size - 1]];
        kinds := kinds[id := kinds[size - 1]];
        var lastTag := tags[size - 1];
        rtag := rtag[lastTag := id];
        tags := tags[id := lastTag];
      }
      groups, kinds, tags := groups[..size - 1], kinds[..size - 1], tags[..size - 1];
      active := active - {tag};
      stale := true;
      recycled := recycled + [tag];
      nglobal := nglobal - 1;
      assert Now() == Dropped(before, tag);
      hide Dropped;
      DropView(before, tag);
      r := Ok(());
    }

    method RebuildCache()
      requires Valid()
      modifies this`cached, this`stale
      ensures Valid() && Lists(cached, active)
    {
      if stale {
        cached := Ascending(active);
        stale := false;
      }
    }

    /** The n-th active tag is the one with n active tags below it. */
    method NthTag(n: nat) returns (r: Result<nat>)
      requires Valid()
      modifies this`cached, this`stale
      ensures Valid() && Now() == old(Now())
      ensures r.Ok? <==> n < |active|
      ensures r.Ok? ==> r.value in active && Rank(active, r.value) == n
    {
      if n >= nglobal { return Err(IndexOutOfBounds); }
      RebuildCache();
      ListsCount(cached, active);
      NthByRank(cached, active, n);
      r := Ok(cached[n]);
    }

    /** The active groups in order of their tags. */
    method TakeSnapshot() returns (snap: seq<Bond>, index: map<nat, nat>)
      requires Valid()
      ensures Lines(Model().live, snap, index)
    {
      snap, index := [], map[];
      var ts := Ascending(active);
      ghost var live := Model().live;
      assert live.Keys == active;
      hide Sound, Linked, Contents, View;
      for k := 0 to |ts|
        invariant |snap| == k && forall t :: t in index ==> index[t] < k && ts[index[t]] == t
        invariant forall j :: 0 <= j < k ==> ts[j] in index && index[ts[j]] == j && snap[j] == live[ts[j]]
      {
        var t := ts[k];
        LiveAt(Now(), t);
        index := index[t := k];
        snap := snap + [Bond(groups[rtag[t]], kinds[rtag[t]])];
      }
      LinesFrom(live, ts, snap, index);
    }

    /** Adds the groups of a snapshot in order to an empty store; stops at the first that is rejected. */
    method Load(snap: seq<Bond>, maxTag: nat) returns (r: Result<()>)
      requires Valid() && Model() == Loaded([])
      modifies this
      ensures Valid()
      ensures r.Ok? <==> AllAcceptable(snap, maxTag, old(nkinds))
      ensures r.Ok? ==> Model() == Loaded(snap)
    {
      hide Linked, Lists, View, Loaded, Sound, Acceptable, Added, NextTag;
      assert snap[..0] == [];
      for k := 0 to |snap|
        invariant Valid() && nkinds == old(nkinds) && Model() == Loaded(snap[..k])
        invariant AllAcceptable(snap[..k], maxTag, nkinds)
      {
        LoadedStep(snap, k);
        assert Bond(snap[k].members, snap[k].kind) == snap[k];
        var added := Add(snap[k].members, snap[k].kind, maxTag);
        if added.Err? { return Err(added.error); }
        assert snap[..k + 1] == snap[..k] + [snap[k]];
      }
      assert snap[..|snap|] == snap;
      r := Ok(());
    }

    /** Empties the store and fills it from a snapshot. */
    method FromSnapshot(snap: seq<Bond>, maxTag: nat, nkinds: nat) returns (r: Result<()>)
      modifies this
      ensures Valid()
      ensures r.Ok? <==> AllAcceptable(snap, maxTag, nkinds)
      ensures r.Ok? ==> Model() == Loaded(snap)
    {
      hide Linked, View, Sound, AllAcceptable;
      Reset(nkinds);
      assert Model() == Loaded([]);
      r := Load(snap, maxTag);
    }

    /** Any run of additions and removals leaves the ledger that the accepted ones make. */
    method Perform(ops: seq<Op>, maxTag: nat)
      requires Valid() && Model() == EMPTY
      modifies this
      ensures Valid() && Model() == Run(Accepted(ops, maxTag, old(nkinds)))
    {
      for k := 0 to |ops|
        invariant Valid() && nkinds == old(nkinds) && Model() == Run(Accepted(ops[..k], maxTag, nkinds))
      {
        hide Linked, Lists, View, Sound;
        AcceptedStep(ops, k, maxTag, nkinds);
        match ops[k] {
          case Add(b) => var added := Add(b.members, b.kind, maxTag);
          case Remove(t) => var removed := Remove(t);
        }
      }
      assert ops[..|ops|] == ops;
    }
  }
}
