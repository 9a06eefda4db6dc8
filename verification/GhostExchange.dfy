/** The ghost exchange and the ghost update as the ranks carry them out, loop by loop: packing the
    send buffers, receiving, the reverse lookup from tag to index, and the replay of recorded lists. */
module GhostExchange {
  import opened Torus
  import opened Vectors
  import opened Domain
  import opened Itinerary
  import opened Ghosts

  type Tag = nat

  /** Reverse lookup of one rank; a tag that is absent is not local. */
  type RTag = map<Tag, nat>

  function Loads<T>(s: seq<Item<T>>): seq<T> { seq(|s|, i requires 0 <= i < |s| => s[i].load) }

  function Together<T>(loads: seq<T>, plans: seq<set<Dir>>): seq<Item<T>>
    requires |loads| == |plans|
  {
    seq(|loads|, i requires 0 <= i < |loads| => Item(loads[i], plans[i]))
  }

  /** The lookup is the exact inverse of the list of tags. */
  ghost predicate Inverse(items: seq<Item<Tag>>, rtag: RTag) {
    && (forall i :: 0 <= i < |items| ==> items[i].load in rtag && rtag[items[i].load] == i)
    && (forall t :: t in rtag ==> rtag[t] < |items| && items[rtag[t]].load == t)
  }

  // ---------- one rank ----------

  lemma SelectedExtend<T>(s: seq<Item<T>>, idx: nat, d: Dir)
    requires idx < |s|
    ensures Selected(s[..idx + 1], d) == Selected(s[..idx], d) + if d in s[idx].plan then [idx] else []
    ensures Outgoing(s[..idx + 1], d) == Outgoing(s[..idx], d) + if d in s[idx].plan then [s[idx]] else []
  {
    assert s[..idx + 1][..idx] == s[..idx];
  }

  /** Scans local particles and ghosts and copies those whose plan names the direction. */
  method Pack(items: seq<Item<Tag>>, at: seq<Vec>, d: Dir)
    returns (tags: seq<Tag>, plans: seq<set<Dir>>, places: seq<Vec>)
    requires |at| == |items|
    ensures |tags| == |plans| == |places|
    ensures Together(tags, plans) == Outgoing(items, d)
    ensures tags == Loads(Outgoing(items, d)) && places == Gather(at, Selected(items, d))
  {
    tags, plans, places := [], [], [];
    for idx := 0 to |items|
      invariant |tags| == |plans| == |places|
      invariant Together(tags, plans) == Outgoing(items[..idx], d)
      invariant places == Gather(at[..idx], Selected(items[..idx], d))
    {
      SelectedExtend(items, idx, d);
      if d in items[idx].plan {
        places := places + [at[idx]];
        plans := plans + [items[idx].plan];
        tags := tags + [items[idx].load];
      }
    }
    assert items[..|items|] == items && at[..|at|] == at;
    forall i | 0 <= i < |tags| ensures tags[i] == Loads(Outgoing(items, d))[i] {
      assert Together(tags, plans)[i].load == tags[i];
    }
  }

  /** The next item's tag is not in the reverse lookup, and entering it keeps the lookup an inverse. */
  lemma AddTag(items: seq<Item<Tag>>, n: nat, rtag: RTag)
    requires n < |items| && NoRepeat(items) && Inverse(items[..n], rtag)
    ensures items[n].load !in rtag && Inverse(items[..n + 1], rtag[items[n].load := n])
  {
    assert items[..n + 1] == items[..n] + [items[n]];
    assert forall i :: 0 <= i < n ==> items[..n + 1][i] == items[..n][i];
  }

  method WrapPlaces(g: Grid, cuts: Cuts, q: Pos, places: seq<Vec>) returns (wrapped: seq<Vec>)
    requires g.Has(q) && CutFor(g, cuts)
    ensures wrapped == WrapAll(g, cuts, q, places)
  {
    hide CutFor;
    wrapped := [];
    for i := 0 to |places|
      invariant wrapped == WrapAll(g, cuts, q, places[..i])
    {
      wrapped := wrapped + [WrapVec(g, cuts, q, places[i])];
    }
    assert places[..|places|] == places;
  }

  /** Appends the received ghosts, wraps their positions and enters them into the reverse lookup,
      where their tags are always still free. */
  method Receive(g: Grid, cuts: Cuts, q: Pos, items: seq<Item<Tag>>, at: seq<Vec>, rtag: RTag,
                 tags: seq<Tag>, plans: seq<set<Dir>>, places: seq<Vec>)
    returns (items': seq<Item<Tag>>, at': seq<Vec>, rtag': RTag)
    requires g.Has(q) && CutFor(g, cuts) && |tags| == |plans| == |places|
    requires Inverse(items, rtag) && NoRepeat(items + Together(tags, plans))
    ensures items' == items + Together(tags, plans)
    ensures at' == at + WrapAll(g, cuts, q, places)
    ensures Inverse(items', rtag')
  {
    hide CutFor, NoRepeat;
    items' := items + Together(tags, plans);
    var wrapped := WrapPlaces(g, cuts, q, places);
    at' := at + wrapped;
    rtag' := rtag;
    assert items'[..|items|] == items;
    for i := 0 to |tags|
      invariant Inverse(items'[..|items| + i], rtag')
    {
      assert items'[|items| + i].load == tags[i];
      AddTag(items', |items| + i, rtag');
      rtag' := rtag'[tags[i] := |items| + i];
    }
    assert items'[..|items'|] == items';
  }

  // ---------- all ranks ----------

  /** What the exchange leaves behind on a rank: its particles and ghosts with their positions and
      reverse lookup, and for every direction done the tags sent and the number of ghosts received. */
  datatype Rank = Rank(items: seq<Item<Tag>>, at: seq<Vec>, rtag: RTag, copied: seq<seq<Tag>>, received: seq<nat>)

  datatype Buffer = Buffer(tags: seq<Tag>, plans: seq<set<Dir>>, places: seq<Vec>)

  predicate SentList(g: Grid, w: World<Tag>, q: Pos, d: Dir, tags: seq<Tag>)
    requires On(g, w) && q in w
  {
    tags == if g.Communicating(d) then Loads(Outgoing(Run(g, w, d)[q], d)) else []
  }

  ghost predicate ListsKept(g: Grid, w: World<Tag>, q: Pos, copied: seq<seq<Tag>>, received: seq<nat>)
    requires On(g, w) && q in w
  {
    && |copied| == |received| <= 6
    && (forall d: Dir :: d < |copied| ==> SentList(g, w, q, d, copied[d]))
    && (forall d: Dir :: d < |received| ==> |Run(g, w, d + 1)[q]| == |Run(g, w, d)[q]| + received[d])
  }

  /** The state of rank q after k steps that started from w. */
  ghost predicate Done(g: Grid, cuts: Cuts, w: World<Tag>, at: Places, k: nat, q: Pos, r: Rank)
    requires CutFor(g, cuts) && Matches(g, w, at) && k <= 6 && q in w
  {
    && r.items == Run(g, w, k)[q] && r.at == PlaceRun(g, cuts, w, at, k)[q]
    && Inverse(r.items, r.rtag)
    && |r.copied| == k && ListsKept(g, w, q, r.copied, r.received)
  }

  ghost predicate AllDone(g: Grid, cuts: Cuts, w: World<Tag>, at: Places, k: nat, ranks: map<Pos, Rank>)
    requires CutFor(g, cuts) && Matches(g, w, at) && k <= 6
  {
    forall q :: q in w ==> q in ranks && Done(g, cuts, w, at, k, q, ranks[q])
  }

  predicate Packed(r: Rank, d: Dir, b: Buffer) {
    && |r.at| == |r.items| && |b.tags| == |b.plans| == |b.places|
    && Together(b.tags, b.plans) == Outgoing(r.items, d)
    && b.tags == Loads(Outgoing(r.items, d)) && b.places == Gather(r.at, Selected(r.items, d))
  }

  /** The step from the state after d directions to that after d + 1, for one rank. */
  lemma RankStep(g: Grid, cuts: Cuts, w: World<Tag>, at: Places, d: Dir, q: Pos)
    requires CutFor(g, cuts) && Matches(g, w, at) && q in w && g.Communicating(d)
    ensures var s := Neighbor(g, q, Opposite(d));
            && Run(g, w, d + 1)[q] == Run(g, w, d)[q] + Outgoing(Run(g, w, d)[s], d)
            && PlaceRun(g, cuts, w, at, d + 1)[q]
               == PlaceRun(g, cuts, w, at, d)[q]
                  + WrapAll(g, cuts, q, Gather(PlaceRun(g, cuts, w, at, d)[s], Selected(Run(g, w, d)[s], d)))
  {
  }

  lemma IdleRank(g: Grid, cuts: Cuts, w: World<Tag>, at: Places, d: Dir, q: Pos)
    requires CutFor(g, cuts) && Matches(g, w, at) && q in w && !g.Communicating(d)
    ensures Run(g, w, d + 1)[q] == Run(g, w, d)[q]
    ensures PlaceRun(g, cuts, w, at, d + 1)[q] == PlaceRun(g, cuts, w, at, d)[q]
  {
  }

  lemma ListsExtend(g: Grid, w: World<Tag>, q: Pos, copied: seq<seq<Tag>>, received: seq<nat>, d: Dir, tags: seq<Tag>,
                    n: nat)
    requires On(g, w) && q in w && |copied| == d && ListsKept(g, w, q, copied, received)
    requires SentList(g, w, q, d, tags) && |Run(g, w, d + 1)[q]| == |Run(g, w, d)[q]| + n
    ensures ListsKept(g, w, q, copied + [tags], received + [n])
  {
    hide Run, SentList;
  }

  /** Rank q takes in what its upstream neighbour sent, and records what it sent itself. */
  method ReceiveAt(g: Grid, cuts: Cuts, ghost w: World<Tag>, ghost at: Places, d: Dir, q: Pos,
                   r: Rank, sent: Buffer, upstream: Rank, b: Buffer)
    returns (r': Rank)
    requires CutFor(g, cuts) && Matches(g, w, at) && q in w && g.Communicating(d)
    requires NoRepeat(Run(g, w, d + 1)[q])
    requires Done(g, cuts, w, at, d, q, r) && Packed(r, d, sent)
    requires Done(g, cuts, w, at, d, Neighbor(g, q, Opposite(d)), upstream) && Packed(upstream, d, b)
    ensures Done(g, cuts, w, at, d + 1, q, r')
  {
    hide Neighbor, Run, PlaceRun, CutFor, WrapAll, Gather, Selected, Together;
    RankStep(g, cuts, w, at, d, q);
    var items, places, rtag := Receive(g, cuts, q, r.items, r.at, r.rtag, b.tags, b.plans, b.places);
    ListsExtend(g, w, q, r.copied, r.received, d, sent.tags, |b.tags|);
    r' := Rank(items, places, rtag, r.copied + [sent.tags], r.received + [|b.tags|]);
  }

  /** All ranks fill their send buffers for direction d. */
  method PackAll(ranks: map<Pos, Rank>, d: Dir) returns (out: map<Pos, Buffer>)
    requires forall q :: q in ranks ==> |ranks[q].at| == |ranks[q].items|
    ensures forall q :: q in ranks ==> q in out && Packed(ranks[q], d, out[q])
  {
    out := map[];
    var todo := ranks.Keys;
    while todo != {}
      invariant todo <= ranks.Keys
      invariant forall q :: q in ranks && q !in todo ==> q in out && Packed(ranks[q], d, out[q])
    {
      var q :| q in todo;
      var tags, plans, places := Pack(ranks[q].items, ranks[q].at, d);
      out := out[q := Buffer(tags, plans, places)];
      todo := todo - {q};
    }
  }

  /** All ranks send in direction d and receive from the opposite side. */
  method ExchangeDirection(g: Grid, cuts: Cuts, ghost w: World<Tag>, ghost at: Places, d: Dir, ranks: map<Pos, Rank>)
    returns (ranks': map<Pos, Rank>)
    requires CutFor(g, cuts) && Matches(g, w, at) && LoadsUnique(w) && PlansOnePerAxis(g, w) && g.Communicating(d)
    requires On(g, ranks) && AllDone(g, cuts, w, at, d, ranks)
    ensures On(g, ranks') && AllDone(g, cuts, w, at, d + 1, ranks')
  {
    hide Neighbor, Run, PlaceRun, CutFor, Done, Packed, LoadsUnique, PlansOnePerAxis;
    LengthsAgree(g, cuts, w, at, d, ranks);
    var out := PackAll(ranks, d);
    ranks' := map[];
    var todo := ranks.Keys;
    while todo != {}
      invariant todo <= ranks.Keys && ranks'.Keys == ranks.Keys - todo
      invariant forall q :: q in ranks' ==> Done(g, cuts, w, at, d + 1, q, ranks'[q])
    {
      var q :| q in todo;
      var s := Neighbor(g, q, Opposite(d));
      assert q in w && s in w;
      DeliveredExactly(g, w, d + 1, q);
      var r := ReceiveAt(g, cuts, w, at, d, q, ranks[q], out[q], ranks[s], out[s]);
      ranks' := ranks'[q := r];
      todo := todo - {q};
    }
  }

  lemma LengthsAgree(g: Grid, cuts: Cuts, w: World<Tag>, at: Places, d: Dir, ranks: map<Pos, Rank>)
    requires CutFor(g, cuts) && Matches(g, w, at)
    requires On(g, ranks) && AllDone(g, cuts, w, at, d, ranks)
    ensures forall q :: q in ranks ==> |ranks[q].at| == |ranks[q].items|
  {
    forall q | q in ranks ensures |ranks[q].at| == |ranks[q].items| {
      assert q in w;
      assert Done(g, cuts, w, at, d, q, ranks[q]);
    }
  }

  /** An axis with one domain is skipped. */
  method SkipDirection(g: Grid, cuts: Cuts, ghost w: World<Tag>, ghost at: Places, d: Dir, ranks: map<Pos, Rank>)
    returns (ranks': map<Pos, Rank>)
    requires CutFor(g, cuts) && Matches(g, w, at) && !g.Communicating(d)
    requires On(g, ranks) && AllDone(g, cuts, w, at, d, ranks)
    ensures On(g, ranks') && AllDone(g, cuts, w, at, d + 1, ranks')
  {
    hide Neighbor, Run, PlaceRun, CutFor, Done;
    ranks' := map q | q in ranks :: ranks[q].(copied := ranks[q].copied + [[]], received := ranks[q].received + [0]);
    forall q | q in w ensures q in ranks' && Done(g, cuts, w, at, d + 1, q, ranks'[q]) {
      SkipRank(g, cuts, w, at, d, q, ranks[q]);
    }
  }

  lemma SkipRank(g: Grid, cuts: Cuts, w: World<Tag>, at: Places, d: Dir, q: Pos, r: Rank)
    requires CutFor(g, cuts) && Matches(g, w, at) && !g.Communicating(d) && q in w && Done(g, cuts, w, at, d, q, r)
    ensures Done(g, cuts, w, at, d + 1, q, r.(copied := r.copied + [[]], received := r.received + [0]))
  {
    hide Neighbor, Run, PlaceRun, CutFor, Inverse, ListsKept;
    IdleRank(g, cuts, w, at, d, q);
    ListsExtend(g, w, q, r.copied, r.received, d, [], 0);
  }

  /** The ghost exchange: six direction steps, each with its send lists recorded. Every ghost's tag is
      free in the receiver's reverse lookup when it arrives, and the lookup stays an exact inverse. */
  method ExchangeGhosts(g: Grid, cuts: Cuts, w: World<Tag>, at: Places, rtag: map<Pos, RTag>)
    returns (ranks: map<Pos, Rank>)
    requires CutFor(g, cuts) && Matches(g, w, at) && LoadsUnique(w) && PlansOnePerAxis(g, w)
    requires On(g, rtag) && forall q :: q in w ==> Inverse(w[q], rtag[q])
    ensures On(g, ranks) && AllDone(g, cuts, w, at, 6, ranks)
  {
    ranks := map q | q in w :: Rank(w[q], at[q], rtag[q], [], []);
    for dir := 0 to 6
      invariant On(g, ranks) && AllDone(g, cuts, w, at, dir, ranks)
    {
      if g.Communicating(dir) {
        ranks := ExchangeDirection(g, cuts, w, at, dir, ranks);
      } else {
        ranks := SkipDirection(g, cuts, w, at, dir, ranks);
      }
    }
  }

  // ---------- ghost update ----------

  /** Looks the recorded tags up in the reverse lookup and copies the positions found there. */
  method PackUpdate(items: seq<Item<Tag>>, rtag: RTag, copied: seq<Tag>, at: seq<Vec>, ghost sender: seq<Item<Tag>>,
                    ghost d: Dir)
    returns (places: seq<Vec>)
    requires Inverse(items, rtag) && |at| == |items| && sender <= items && copied == Loads(Outgoing(sender, d))
    ensures places == Gather(at[..|sender|], Selected(sender, d))
  {
    ghost var sel := Selected(sender, d);
    places := [];
    for i := 0 to |copied|
      invariant |places| == i && forall j :: 0 <= j < i ==> places[j] == at[sel[j]]
    {
      assert copied[i] == items[sel[i]].load;
      places := places + [at[rtag[copied[i]]]];
    }
  }

  /** Overwrites the ghosts received in one direction with their new, wrapped positions. */
  method WriteUpdate(g: Grid, cuts: Cuts, q: Pos, at: seq<Vec>, start: nat, places: seq<Vec>) returns (at': seq<Vec>)
    requires g.Has(q) && CutFor(g, cuts) && start + |places| <= |at|
    ensures at' == at[..start] + WrapAll(g, cuts, q, places) + at[start + |places|..]
  {
    at' := at;
    for i := 0 to |places|
      invariant at' == at[..start] + WrapAll(g, cuts, q, places[..i]) + at[start + i..]
    {
      at' := at'[start + i := WrapVec(g, cuts, q, places[i])];
    }
    assert places[..|places|] == places;
  }

  lemma {:induction false} Prefix(g: Grid, w: World<Tag>, k: nat, m: nat, q: Pos)
    requires On(g, w) && k <= m <= 6 && q in w
    ensures Run(g, w, k)[q] <= Run(g, w, m)[q]
    decreases m
  {
    if k < m { Prefix(g, w, k, m - 1, q); }
  }

  /** The positions of the local particles alone. */
  function LocalPart(w: World<Tag>, at: Places): Places
    requires forall q :: q in w ==> q in at && |w[q]| <= |at[q]|
  {
    map q | q in w :: at[q][..|w[q]|]
  }

  /** One rank during the update: its positions, and the slot at which the next ghosts start. */
  datatype Updating = Updating(at: seq<Vec>, start: nat)

  /** After k directions of the update, everything received in them is what an exchange that started
      from the local positions in now would have delivered. */
  ghost predicate Replayed(g: Grid, cuts: Cuts, w: World<Tag>, now: Places, k: nat, q: Pos, u: Updating)
    requires CutFor(g, cuts) && Matches(g, w, now) && k <= 6 && q in w
  {
    && |u.at| == |Run(g, w, 6)[q]| && u.start == |Run(g, w, k)[q]|
    && u.start <= |u.at| && u.at[..u.start] == PlaceRun(g, cuts, w, now, k)[q]
  }

  ghost predicate AllReplayed(g: Grid, cuts: Cuts, w: World<Tag>, now: Places, k: nat, us: map<Pos, Updating>)
    requires CutFor(g, cuts) && Matches(g, w, now) && k <= 6
  {
    forall q :: q in w ==> q in us && Replayed(g, cuts, w, now, k, q, us[q])
  }

  /** What rank q has to send in direction d of the update. */
  ghost predicate Sends(g: Grid, cuts: Cuts, w: World<Tag>, now: Places, d: Dir, q: Pos, places: seq<Vec>)
    requires CutFor(g, cuts) && Matches(g, w, now) && q in w
  {
    places == Gather(PlaceRun(g, cuts, w, now, d)[q], Selected(Run(g, w, d)[q], d))
  }

  /** What rank q sends in direction d of the update. */
  method SendUpdate(g: Grid, cuts: Cuts, ghost w: World<Tag>, ghost at0: Places, ghost now: Places, d: Dir, q: Pos,
                    r: Rank, u: Updating)
    returns (places: seq<Vec>)
    requires CutFor(g, cuts) && Matches(g, w, at0) && Matches(g, w, now) && q in w && g.Communicating(d)
    requires Done(g, cuts, w, at0, 6, q, r) && Replayed(g, cuts, w, now, d, q, u)
    ensures Sends(g, cuts, w, now, d, q, places)
  {
    hide Neighbor, Run, PlaceRun, CutFor;
    Prefix(g, w, d, 6, q);
    assert SentList(g, w, q, d, r.copied[d]);
    places := PackUpdate(r.items, r.rtag, r.copied[d], u.at, Run(g, w, d)[q], d);
  }

  /** Rank q writes what its upstream neighbour sent. */
  method ReceiveUpdate(g: Grid, cuts: Cuts, ghost w: World<Tag>, ghost at0: Places, ghost now: Places, d: Dir, q: Pos,
                       r: Rank, u: Updating, places: seq<Vec>)
    returns (u': Updating)
    requires CutFor(g, cuts) && Matches(g, w, at0) && Matches(g, w, now) && q in w && g.Communicating(d)
    requires Done(g, cuts, w, at0, 6, q, r) && Replayed(g, cuts, w, now, d, q, u)
    requires var s := Neighbor(g, q, Opposite(d)); s in w && Sends(g, cuts, w, now, d, s, places)
    ensures Replayed(g, cuts, w, now, d + 1, q, u')
  {
    hide Neighbor, Run, PlaceRun, CutFor, WrapAll, Gather, Selected, SentList;
    RankStep(g, cuts, w, now, d, q);
    Prefix(g, w, d + 1, 6, q);
    var at := WriteUpdate(g, cuts, q, u.at, u.start, places);
    u' := Updating(at, u.start + r.received[d]);
  }

  lemma RankReady(g: Grid, cuts: Cuts, w: World<Tag>, at0: Places, now: Places, d: Dir, ranks: map<Pos, Rank>,
                  us: map<Pos, Updating>, q: Pos)
    requires CutFor(g, cuts) && Matches(g, w, at0) && Matches(g, w, now) && On(g, ranks)
    requires AllDone(g, cuts, w, at0, 6, ranks) && AllReplayed(g, cuts, w, now, d, us) && q in ranks
    ensures q in w && q in us && Done(g, cuts, w, at0, 6, q, ranks[q]) && Replayed(g, cuts, w, now, d, q, us[q])
    ensures g.Has(q) && Neighbor(g, q, Opposite(d)) in ranks
  {
    hide Done, Replayed, Neighbor;
  }

  lemma SameKeys<A, B>(g: Grid, v: map<Pos, A>, w: map<Pos, B>)
    requires On(g, v) && On(g, w)
    ensures v.Keys == w.Keys
  {
    assert forall q :: q in v.Keys <==> q in w.Keys;
  }

  method SendUpdates(g: Grid, cuts: Cuts, ghost w: World<Tag>, ghost at0: Places, ghost now: Places, d: Dir,
                     ranks: map<Pos, Rank>, us: map<Pos, Updating>)
    returns (out: map<Pos, seq<Vec>>)
    requires CutFor(g, cuts) && Matches(g, w, at0) && Matches(g, w, now) && g.Communicating(d)
    requires On(g, ranks) && AllDone(g, cuts, w, at0, 6, ranks) && AllReplayed(g, cuts, w, now, d, us)
    ensures out.Keys == ranks.Keys
    ensures forall q :: q in out ==> q in w && Sends(g, cuts, w, now, d, q, out[q])
  {
    hide AllDone, AllReplayed, On, Matches, Neighbor, CutFor, Replayed, Done, Sends;
    out := map[];
    var todo := ranks.Keys;
    while todo != {}
      invariant todo <= ranks.Keys && out.Keys == ranks.Keys - todo
      invariant forall q :: q in out ==> q in w && Sends(g, cuts, w, now, d, q, out[q])
    {
      var q :| q in todo;
      RankReady(g, cuts, w, at0, now, d, ranks, us, q);
      var places := SendUpdate(g, cuts, w, at0, now, d, q, ranks[q], us[q]);
      out := out[q := places];
      todo := todo - {q};
    }
  }

  /** All ranks send what the recorded lists name and overwrite the slots of this direction. */
  method UpdateDirection(g: Grid, cuts: Cuts, ghost w: World<Tag>, ghost at0: Places, ghost now: Places, d: Dir,
                         ranks: map<Pos, Rank>, us: map<Pos, Updating>)
    returns (us': map<Pos, Updating>)
    requires CutFor(g, cuts) && Matches(g, w, at0) && Matches(g, w, now) && g.Communicating(d)
    requires On(g, ranks) && AllDone(g, cuts, w, at0, 6, ranks) && AllReplayed(g, cuts, w, now, d, us)
    ensures AllReplayed(g, cuts, w, now, d + 1, us')
  {
    hide AllDone, On, Neighbor, CutFor, Replayed, Done, Sends;
    var out := SendUpdates(g, cuts, w, at0, now, d, ranks, us);
    us' := map[];
    var todo := ranks.Keys;
    while todo != {}
      invariant todo <= ranks.Keys && us'.Keys == ranks.Keys - todo
      invariant forall q :: q in us' ==> q in w && Replayed(g, cuts, w, now, d + 1, q, us'[q])
    {
      var q :| q in todo;
      RankReady(g, cuts, w, at0, now, d, ranks, us, q);
      var s := Neighbor(g, q, Opposite(d));
      var u := ReceiveUpdate(g, cuts, w, at0, now, d, q, ranks[q], us[q], out[s]);
      us' := us'[q := u];
      todo := todo - {q};
    }
    SameKeys(g, ranks, w);
  }

  lemma SkipReplayed(g: Grid, cuts: Cuts, w: World<Tag>, now: Places, d: Dir, us: map<Pos, Updating>)
    requires CutFor(g, cuts) && Matches(g, w, now) && !g.Communicating(d)
    requires AllReplayed(g, cuts, w, now, d, us)
    ensures AllReplayed(g, cuts, w, now, d + 1, us)
  {
    hide Neighbor, Run, PlaceRun, CutFor;
    forall q | q in w ensures q in us && Replayed(g, cuts, w, now, d + 1, q, us[q]) {
      IdleRank(g, cuts, w, now, d, q);
    }
  }

  lemma SlotForLocal(g: Grid, w: World<Tag>, at: Places, q: Pos)
    requires On(g, w) && Matches(g, Run(g, w, 6), at) && q in w
    ensures q in at && |w[q]| <= |at[q]|
  {
    hide Run;
    assert q in at && q in Run(g, w, 6);
    HeldIsKept(g, w, 6, q);
  }

  /** There is a slot for every local particle. */
  lemma SlotsForLocals(g: Grid, w: World<Tag>, at: Places)
    requires On(g, w) && Matches(g, Run(g, w, 6), at)
    ensures forall q :: q in w ==> q in at && |w[q]| <= |at[q]|
    ensures Matches(g, w, LocalPart(w, at))
  {
    hide Run, Matches, On;
    forall q | q in w ensures q in at && |w[q]| <= |at[q]| { SlotForLocal(g, w, at, q); }
    LocalsMatch(g, w, at);
  }

  lemma LocalsMatch(g: Grid, w: World<Tag>, at: Places)
    requires On(g, w) && forall q :: q in w ==> q in at && |w[q]| <= |at[q]|
    ensures Matches(g, w, LocalPart(w, at))
  {
  }

  lemma RunStart(g: Grid, cuts: Cuts, w: World<Tag>, now: Places)
    requires CutFor(g, cuts) && Matches(g, w, now)
    ensures Run(g, w, 0) == w && PlaceRun(g, cuts, w, now, 0) == now
  {
  }

  lemma RankStarts(g: Grid, cuts: Cuts, w: World<Tag>, at: Places, q: Pos)
    requires CutFor(g, cuts) && On(g, w) && Matches(g, Run(g, w, 6), at) && q in w
    requires forall r :: r in w ==> r in at && |w[r]| <= |at[r]|
    requires Matches(g, w, LocalPart(w, at))
    ensures Replayed(g, cuts, w, LocalPart(w, at), 0, q, Updating(at[q], |w[q]|))
  {
    hide Run, PlaceRun, CutFor;
    RunStart(g, cuts, w, LocalPart(w, at));
    assert q in Run(g, w, 6);
  }

  lemma StartReplayed(g: Grid, cuts: Cuts, w: World<Tag>, at: Places, us: map<Pos, Updating>)
    requires CutFor(g, cuts) && On(g, w) && Matches(g, Run(g, w, 6), at)
    requires forall q :: q in w ==> q in at && |w[q]| <= |at[q]| && q in us && us[q] == Updating(at[q], |w[q]|)
    requires Matches(g, w, LocalPart(w, at))
    ensures AllReplayed(g, cuts, w, LocalPart(w, at), 0, us)
  {
    hide Run, Replayed, Matches, On, CutFor;
    forall q | q in w ensures Replayed(g, cuts, w, LocalPart(w, at), 0, q, us[q]) { RankStarts(g, cuts, w, at, q); }
  }

  /** The ghost update: after it, every rank holds exactly the positions that a new exchange from the
      current local positions would have delivered, for any movement of the local particles and
      whatever the ghost slots held before. */
  method UpdateGhosts(g: Grid, cuts: Cuts, w: World<Tag>, ghost at0: Places, ranks: map<Pos, Rank>, at: Places)
    returns (us: map<Pos, Updating>)
    requires CutFor(g, cuts) && Matches(g, w, at0) && On(g, ranks) && AllDone(g, cuts, w, at0, 6, ranks)
    requires Matches(g, Run(g, w, 6), at)
    ensures forall q :: q in w ==> q in at && |w[q]| <= |at[q]|
    ensures Matches(g, w, LocalPart(w, at))
    ensures forall q :: q in w ==> q in us && us[q].at == PlaceRun(g, cuts, w, LocalPart(w, at), 6)[q]
  {
    SlotsForLocals(g, w, at);
    ghost var now := LocalPart(w, at);
    us := map q | q in w :: Updating(at[q], |w[q]|);
    StartReplayed(g, cuts, w, at, us);
    hide Neighbor, Run, PlaceRun, CutFor, AllReplayed, AllDone;
    for dir := 0 to 6
      invariant AllReplayed(g, cuts, w, now, dir, us)
    {
      if g.Communicating(dir) {
        us := UpdateDirection(g, cuts, w, at0, now, dir, ranks, us);
      } else {
        SkipReplayed(g, cuts, w, now, dir, us);
      }
    }
    ReplayComplete(g, cuts, w, now, us);
  }

  lemma ReplayComplete(g: Grid, cuts: Cuts, w: World<Tag>, now: Places, us: map<Pos, Updating>)
    requires CutFor(g, cuts) && Matches(g, w, now) && AllReplayed(g, cuts, w, now, 6, us)
    ensures forall q :: q in w ==> q in us && us[q].at == PlaceRun(g, cuts, w, now, 6)[q]
  {
    hide Neighbor, Run, PlaceRun, CutFor;
    forall q | q in w ensures q in us && us[q].at == PlaceRun(g, cuts, w, now, 6)[q] {
      assert Replayed(g, cuts, w, now, 6, q, us[q]);
      assert us[q].at[..|us[q].at|] == us[q].at;
    }
  }

  /** Where every local particle is now. */
  ghost predicate OwnerPlaces(w: World<Tag>, at: Places, owner: map<Tag, Vec>)
    requires forall q :: q in w ==> q in at && |w[q]| <= |at[q]|
  {
    forall q, i :: q in w && 0 <= i < |w[q]| ==> w[q][i].load in owner && owner[w[q][i].load] == at[q][i]
  }

  lemma ZeroIsSameSite(v: Vec)
    ensures SameSite(v, v)
  {
    assert (0.0).Floor == 0;
  }

  /** After the update every slot, also one that was reached in several hops, holds the current
      position of the particle it was created for, up to a lattice vector of the global box. */
  lemma UpdatedGhostsAreCurrent(g: Grid, cuts: Cuts, w: World<Tag>, at: Places, owner: map<Tag, Vec>, q: Pos, i: nat)
    requires CutFor(g, cuts) && On(g, w) && (forall r :: r in w ==> r in at && |w[r]| <= |at[r]|)
    requires OwnerPlaces(w, at, owner) && q in w && i < |Run(g, w, 6)[q]|
    ensures Matches(g, w, LocalPart(w, at))
    ensures Run(g, w, 6)[q][i].load in owner
    ensures SameSite(PlaceRun(g, cuts, w, LocalPart(w, at), 6)[q][i], owner[Run(g, w, 6)[q][i].load])
    ensures Nearby(g, cuts, w, LocalPart(w, at), 0) ==>
              PlacedAll(g, cuts, q, PlaceRun(g, cuts, w, LocalPart(w, at), 6)[q][i], Run(g, w, 6)[q][i].plan, 6)
  {
    hide CutFor, Run, PlaceRun, PlacedAll;
    var now := LocalPart(w, at);
    assert Current(g, w, now, owner) by { forall v: Vec { ZeroIsSameSite(v); } }
    RunKeepsCurrent(g, cuts, w, now, owner, 6);
  }
}
