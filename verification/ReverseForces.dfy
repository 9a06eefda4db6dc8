/** The reverse force delivery as the ranks carry it out: the lists recorded after the ghost exchange,
    and the force update that replays them and adds what arrives to the owned particles. */
module ReverseForces {
  import opened Torus
  import opened Itinerary
  import opened GhostExchange
  import opened Reverse

  function Tags(s: seq<Item<Origin>>): seq<Tag> { seq(|s|, i requires 0 <= i < |s| => s[i].load.tag) }

  function Values(s: seq<Item<Origin>>, val: map<Origin, Force>): (r: seq<Force>)
    requires forall i :: 0 <= i < |s| ==> s[i].load in val
    ensures |r| == |s|
  {
    seq(|s|, i requires 0 <= i < |s| => val[s[i].load])
  }

  // ---------- one rank: recording ----------

  /** The inverted plan of one ghost, direction by direction. */
  method InvertPlan(plan: set<Dir>) returns (r: set<Dir>)
    ensures r == Reversed(plan)
  {
    r := {};
    if 0 in plan { r := r + {1}; }
    if 1 in plan { r := r + {0}; }
    if 2 in plan { r := r + {3}; }
    if 3 in plan { r := r + {2}; }
    if 4 in plan { r := r + {5}; }
    if 5 in plan { r := r + {4}; }
    forall d: Dir ensures d in r <==> Opposite(d) in plan {}
  }

  lemma {:induction false} SelectedConcat<T>(a: seq<Item<T>>, b: seq<Item<T>>, d: Dir)
    ensures Selected(a + b, d) == Selected(a, d) + Shifted(Selected(b, d), |a|)
  {
    if b == [] {
      assert a + b == a;
    } else {
      var init := b[..|b| - 1];
      SelectedConcat(a, init, d);
      assert (a + b)[..|a + b| - 1] == a + init;
    }
  }

  lemma OutgoingConcat<T>(a: seq<Item<T>>, b: seq<Item<T>>, d: Dir)
    ensures Outgoing(a + b, d) == Outgoing(a, d) + Outgoing(b, d)
  {
    hide Selected;
    SelectedConcat(a, b, d);
  }

  function Shifted(idx: seq<nat>, k: nat): seq<nat> { seq(|idx|, i requires 0 <= i < |idx| => idx[i] + k) }

  /** First the rank's own ghosts, then the forces it only forwards, by their place among those. */
  method Record(own: seq<Item<Origin>>, passing: seq<Item<Origin>>, d: Dir)
    returns (local: seq<Tag>, forward: seq<nat>, out: seq<Item<Origin>>)
    ensures local == Tags(Outgoing(own, d)) && forward == Selected(passing, d) && out == Outgoing(own + passing, d)
  {
    local, forward, out := [], [], [];
    for i := 0 to |own|
      invariant local == Tags(Outgoing(own[..i], d)) && out == Outgoing(own[..i], d)
    {
      SelectedExtend(own, i, d);
      if d in own[i].plan {
        out := out + [own[i]];
        local := local + [own[i].load.tag];
      }
    }
    assert own[..|own|] == own;
    for i := 0 to |passing|
      invariant forward == Selected(passing[..i], d) && out == Outgoing(own, d) + Outgoing(passing[..i], d)
    {
      SelectedExtend(passing, i, d);
      if d in passing[i].plan {
        out := out + [passing[i]];
        forward := forward + [i];
      }
    }
    assert passing[..|passing|] == passing;
    OutgoingConcat(own, passing, d);
  }

  // ---------- one rank: delivering ----------

  /** Forces of the rank's own ghosts, found by tag, then forwarded forces, found by place. */
  method PackForces(force: seq<Force>, rtag: RTag, local: seq<Tag>, forward: seq<nat>, recv: seq<Force>)
    returns (buf: seq<Force>)
    requires forall i :: 0 <= i < |local| ==> local[i] in rtag && rtag[local[i]] < |force|
    requires forall i :: 0 <= i < |forward| ==> forward[i] < |recv|
    ensures |buf| == |local| + |forward|
    ensures forall i :: 0 <= i < |local| ==> buf[i] == force[rtag[local[i]]]
    ensures forall i :: 0 <= i < |forward| ==> buf[|local| + i] == recv[forward[i]]
  {
    buf := [];
    for i := 0 to |local|
      invariant |buf| == i && forall j :: 0 <= j < i ==> buf[j] == force[rtag[local[j]]]
    {
      buf := buf + [force[rtag[local[i]]]];
    }
    for i := 0 to |forward|
      invariant |buf| == |local| + i
      invariant forall j :: 0 <= j < |local| ==> buf[j] == force[rtag[local[j]]]
      invariant forall j :: 0 <= j < i ==> buf[|local| + j] == recv[forward[j]]
    {
      buf := buf + [recv[forward[i]]];
    }
  }

  /** Adding one received force: only if the rank owns the particle. */
  function AddOne(n: nat, rtag: RTag, force: seq<Force>, t: Tag, f: Force): (r: seq<Force>)
    ensures |r| == |force|
  {
    if t in rtag && rtag[t] < n && rtag[t] < |force| then force[rtag[t] := force[rtag[t]].Plus(f)] else force
  }

  function AddAll(n: nat, rtag: RTag, force: seq<Force>, rec: seq<Item<Origin>>,
                  val: map<Origin, Force>): (r: seq<Force>)
    requires forall i :: 0 <= i < |rec| ==> rec[i].load in val
    ensures |r| == |force| && forall i :: n <= i < |force| ==> r[i] == force[i]
  {
    if rec == [] then force
    else
      var last := rec[|rec| - 1].load;
      AddOne(n, rtag, AddAll(n, rtag, force, rec[..|rec| - 1], val), last.tag, val[last])
  }

  method AddForces(n: nat, rtag: RTag, force: seq<Force>, tags: seq<Tag>, values: seq<Force>,
                   ghost start: seq<Force>, ghost before: seq<Item<Origin>>, ghost arriving: seq<Item<Origin>>,
                   ghost val: map<Origin, Force>)
    returns (force': seq<Force>)
    requires forall i :: 0 <= i < |before| ==> before[i].load in val
    requires forall i :: 0 <= i < |arriving| ==> arriving[i].load in val
    requires tags == Tags(arriving) && values == Values(arriving, val) && force == AddAll(n, rtag, start, before, val)
    ensures forall i :: 0 <= i < |before + arriving| ==> (before + arriving)[i].load in val
    ensures force' == AddAll(n, rtag, start, before + arriving, val)
  {
    force' := force;
    assert before + arriving[..0] == before;
    for i := 0 to |tags|
      invariant forall j :: 0 <= j < |before + arriving[..i]| ==> (before + arriving[..i])[j].load in val
      invariant force' == AddAll(n, rtag, start, before + arriving[..i], val)
    {
      var f := values[i];
      assert f == val[arriving[i].load] && tags[i] == arriving[i].load.tag;
      ghost var next := before + arriving[..i + 1];
      assert next[..|next| - 1] == before + arriving[..i];
      force' := AddOne(n, rtag, force', tags[i], f);
    }
    assert arriving[..|tags|] == arriving;
  }

  /** The sum a particle ends up with, when the lookup is exact. */
  lemma {:induction false} AddAllSums(items: seq<Item<Tag>>, n: nat, rtag: RTag, force: seq<Force>,
                                      rec: seq<Item<Origin>>,
                                      val: map<Origin, Force>, i: nat)
    requires Inverse(items, rtag) && i < n <= |items| == |force| && forall j :: 0 <= j < |rec| ==> rec[j].load in val
    ensures AddAll(n, rtag, force, rec, val)[i] == force[i].Plus(SumReceived(rec, items[i].load, val))
  {
    if rec != [] {
      var init := rec[..|rec| - 1];
      AddAllSums(items, n, rtag, force, init, val, i);
      PlusAssociates(force[i], SumReceived(init, items[i].load, val), val[rec[|rec| - 1].load]);
    }
  }

  lemma PlusAssociates(a: Force, b: Force, c: Force)
    ensures a.Plus(b).Plus(c) == a.Plus(b.Plus(c)) && a.Plus(ZERO) == a
  {
  }

  /** Inverts the plans of all ghosts of a rank. */
  method InvertPlans(q: Pos, ghosts: seq<Item<Tag>>) returns (r: seq<Item<Origin>>)
    ensures r == Returning(q, ghosts)
  {
    r := [];
    for i := 0 to |ghosts|
      invariant r == Returning(q, ghosts[..i])
    {
      var plan := InvertPlan(ghosts[i].plan);
      r := r + [Item(Origin(ghosts[i].load, q), plan)];
    }
    assert ghosts[..|ghosts|] == ghosts;
  }

  // ---------- all ranks: recording ----------

  /** What a rank records: its own ghosts, the forces that pass through it, and for each direction the
      tags of its own ghosts it sends and the places of the passing forces it forwards. */
  datatype Lists = Lists(own: seq<Item<Origin>>, passing: seq<Item<Origin>>,
                         local: seq<seq<Tag>>, forward: seq<seq<nat>>)

  function Passing(g: Grid, r: World<Origin>, k: nat, q: Pos): (p: seq<Item<Origin>>)
    requires On(g, r) && k <= 6 && q in r
    ensures Run(g, r, k)[q] == r[q] + p
  {
    HeldIsKept(g, r, k, q);
    Run(g, r, k)[q][|r[q]|..]
  }

  predicate ListsFor(g: Grid, r: World<Origin>, d: Dir, q: Pos, local: seq<Tag>, forward: seq<nat>)
    requires On(g, r) && q in r
  {
    g.Communicating(d) ==> local == Tags(Outgoing(r[q], d)) && forward == Selected(Passing(g, r, d, q), d)
  }

  ghost predicate Listed(g: Grid, r: World<Origin>, k: nat, q: Pos, l: Lists)
    requires On(g, r) && k <= 6 && q in r
  {
    && l.own == r[q] && l.passing == Passing(g, r, k, q) && |l.local| == |l.forward| == k
    && forall d: Dir :: d < k ==> ListsFor(g, r, d, q, l.local[d], l.forward[d])
  }

  ghost predicate AllListed(g: Grid, r: World<Origin>, k: nat, ls: map<Pos, Lists>)
    requires On(g, r) && k <= 6
  {
    forall q :: q in r ==> q in ls && Listed(g, r, k, q, ls[q])
  }

  lemma PassingStep(g: Grid, r: World<Origin>, d: Dir, q: Pos)
    requires On(g, r) && q in r
    ensures g.Communicating(d) ==>
              Passing(g, r, d + 1, q) == Passing(g, r, d, q) + Outgoing(Run(g, r, d)[Neighbor(g, q, Opposite(d))], d)
    ensures !g.Communicating(d) ==> Passing(g, r, d + 1, q) == Passing(g, r, d, q)
  {
    hide Outgoing, Neighbor, Opposite;
    HeldIsKept(g, r, d, q);
    assert Run(g, r, d + 1)[q] == Step(g, Run(g, r, d), d)[q];
  }

  lemma {:induction false} PassingPrefix(g: Grid, r: World<Origin>, k: nat, m: nat, q: Pos)
    requires On(g, r) && q in r && k <= m <= 6
    ensures Passing(g, r, k, q) <= Passing(g, r, m, q)
    decreases m
  {
    if k < m {
      PassingPrefix(g, r, k, m - 1, q);
      PassingStep(g, r, m - 1, q);
    }
  }

  /** What rank q sends in direction d, and the lists it records. */
  datatype Message = Message(local: seq<Tag>, forward: seq<nat>, out: seq<Item<Origin>>)

  method RecordAt(g: Grid, ghost r: World<Origin>, d: Dir, ghost q: Pos, l: Lists) returns (m: Message)
    requires On(g, r) && q in r && Listed(g, r, d, q, l)
    ensures ListsFor(g, r, d, q, m.local, m.forward) && m.out == Outgoing(Run(g, r, d)[q], d)
  {
    var local, forward, out := Record(l.own, l.passing, d);
    m := Message(local, forward, out);
  }

  lemma ListedStep(g: Grid, r: World<Origin>, d: Dir, q: Pos, l: Lists, m: Message, come: seq<Item<Origin>>)
    requires On(g, r) && q in r && Listed(g, r, d, q, l) && ListsFor(g, r, d, q, m.local, m.forward)
    requires Passing(g, r, d + 1, q) == Passing(g, r, d, q) + come
    ensures Listed(g, r, d + 1, q, Lists(l.own, l.passing + come, l.local + [m.local], l.forward + [m.forward]))
  {
    hide Run, ListsFor, Passing;
  }

  method RecordAll(g: Grid, ghost r: World<Origin>, d: Dir, ls: map<Pos, Lists>) returns (ms: map<Pos, Message>)
    requires On(g, r) && On(g, ls) && AllListed(g, r, d, ls)
    ensures forall q :: q in r ==>
              q in ms && ListsFor(g, r, d, q, ms[q].local, ms[q].forward) && ms[q].out == Outgoing(Run(g, r, d)[q], d)
  {
    hide Run, ListsFor, Passing, Outgoing, Listed;
    ms := map[];
    var todo := ls.Keys;
    while todo != {}
      invariant todo <= ls.Keys
      invariant forall q :: q in r && q !in todo ==>
                  && q in ms && ListsFor(g, r, d, q, ms[q].local, ms[q].forward)
                  && ms[q].out == Outgoing(Run(g, r, d)[q], d)
    {
      var q :| q in todo;
      var m := RecordAt(g, r, d, q, ls[q]);
      ms := ms[q := m];
      todo := todo - {q};
    }
  }

  method ReverseDirection(g: Grid, ghost r: World<Origin>, d: Dir, ls: map<Pos, Lists>) returns (ls': map<Pos, Lists>)
    requires On(g, r) && On(g, ls) && AllListed(g, r, d, ls) && g.Communicating(d)
    ensures On(g, ls') && AllListed(g, r, d + 1, ls')
  {
    hide Run, ListsFor, Passing, Outgoing, Listed, Neighbor;
    var ms := RecordAll(g, r, d, ls);
    ls' := map[];
    var todo := ls.Keys;
    while todo != {}
      invariant todo <= ls.Keys && ls'.Keys == ls.Keys - todo
      invariant forall q :: q in ls' ==> Listed(g, r, d + 1, q, ls'[q])
    {
      var q :| q in todo;
      var s := Neighbor(g, q, Opposite(d));
      assert q in r && s in r;
      PassingStep(g, r, d, q);
      ListedStep(g, r, d, q, ls[q], ms[q], ms[s].out);
      ls' := ls'[q := Lists(ls[q].own, ls[q].passing + ms[s].out,
                            ls[q].local + [ms[q].local], ls[q].forward + [ms[q].forward])];
      todo := todo - {q};
    }
  }

  method SkipReverse(g: Grid, ghost r: World<Origin>, d: Dir, ls: map<Pos, Lists>) returns (ls': map<Pos, Lists>)
    requires On(g, r) && On(g, ls) && AllListed(g, r, d, ls) && !g.Communicating(d)
    ensures On(g, ls') && AllListed(g, r, d + 1, ls')
  {
    ls' := map q | q in ls :: Lists(ls[q].own, ls[q].passing + [], ls[q].local + [[]], ls[q].forward + [[]]);
    hide Run, Passing, Listed;
    forall q | q in r ensures Listed(g, r, d + 1, q, ls'[q]) {
      PassingStep(g, r, d, q);
      ListedStep(g, r, d, q, ls[q], Message([], [], []), []);
    }
  }

  /** Recording the reverse lists for all six directions. */
  method RecordReverse(g: Grid, r: World<Origin>) returns (ls: map<Pos, Lists>)
    requires On(g, r)
    ensures On(g, ls) && AllListed(g, r, 6, ls)
  {
    ls := map q | q in r :: Lists(r[q], [], [], []);
    for dir := 0 to 6
      invariant On(g, ls) && AllListed(g, r, dir, ls)
    {
      if g.Communicating(dir) {
        ls := ReverseDirection(g, r, dir, ls);
      } else {
        ls := SkipReverse(g, r, dir, ls);
      }
    }
  }

  // ---------- all ranks: delivering ----------

  /** The forces on all particles and ghosts of every rank when the delivery starts. */
  type Forces = map<Pos, seq<Force>>

  /** What each returning force is worth: the force on the ghost copy it started from. */
  ghost predicate Valued(g: Grid, w: World<Tag>, f: Forces, val: map<Origin, Force>)
    requires On(g, w) && On(g, f)
  {
    && (forall q :: q in w ==> |f[q]| == |w[q]| + |GhostsOf(g, w, q)|)
    && (forall q, j :: q in w && 0 <= j < |GhostsOf(g, w, q)| ==>
          Origin(GhostsOf(g, w, q)[j].load, q) in val && val[Origin(GhostsOf(g, w, q)[j].load, q)] == f[q][|w[q]| + j])
  }

  datatype Summing = Summing(force: seq<Force>, recv: seq<Force>)

  /** After k directions rank q holds the values of all forces that passed through it, and has added
      those of the particles it owns. */
  ghost predicate Summed(g: Grid, w: World<Tag>, f: Forces, val: map<Origin, Force>, rtag: RTag, k: nat, q: Pos,
                         u: Summing)
    requires On(g, w) && On(g, f) && q in w && k <= 6
  {
    var passing := Passing(g, ReverseWorld(g, w), k, q);
    && (forall i :: 0 <= i < |passing| ==> passing[i].load in val)
    && u.recv == Values(passing, val)
    && u.force == AddAll(|w[q]|, rtag, f[q], passing, val)
  }

  lemma LocalForce(g: Grid, w: World<Tag>, f: Forces, val: map<Origin, Force>, rtag: RTag, d: Dir, q: Pos, i: nat)
    requires On(g, w) && On(g, f) && Valued(g, w, f, val) && q in w && Inverse(w[q] + GhostsOf(g, w, q), rtag)
    requires i < |Outgoing(ReverseWorld(g, w)[q], d)|
    ensures var o := Outgoing(ReverseWorld(g, w)[q], d)[i].load;
            o in val && o.tag in rtag && |w[q]| <= rtag[o.tag] < |f[q]| && f[q][rtag[o.tag]] == val[o]
  {
    hide GhostsOf, Reversed;
    var j := Selected(ReverseWorld(g, w)[q], d)[i];
    var all := w[q] + GhostsOf(g, w, q);
    assert all[|w[q]| + j] == GhostsOf(g, w, q)[j];
  }

  /** What rank q sends in direction d of the delivery. */
  method SendForces(g: Grid, ghost w: World<Tag>, ghost f: Forces, ghost val: map<Origin, Force>, rtag: RTag, d: Dir,
                    ghost q: Pos,
                    l: Lists, u: Summing)
    returns (buf: seq<Force>)
    requires On(g, w) && On(g, f) && Valued(g, w, f, val) && q in w && g.Communicating(d)
    requires Inverse(w[q] + GhostsOf(g, w, q), rtag)
    requires Listed(g, ReverseWorld(g, w), 6, q, l) && Summed(g, w, f, val, rtag, d, q, u)
    ensures forall i :: 0 <= i < |Outgoing(Run(g, ReverseWorld(g, w), d)[q], d)| ==>
              Outgoing(Run(g, ReverseWorld(g, w), d)[q], d)[i].load in val
    ensures buf == Values(Outgoing(Run(g, ReverseWorld(g, w), d)[q], d), val)
  {
    hide GhostsOf, Run, Reversed, Valued, Neighbor, Selected, ReverseWorld;
    ghost var r: World<Origin> := ReverseWorld(g, w);
    ghost var own, passing := r[q], Passing(g, r, d, q);
    assert ListsFor(g, r, d, q, l.local[d], l.forward[d]);
    forall i | 0 <= i < |Outgoing(own, d)|
      ensures var o := Outgoing(own, d)[i].load;
              o in val && o.tag in rtag && |w[q]| <= rtag[o.tag] < |f[q]| && f[q][rtag[o.tag]] == val[o]
    {
      LocalForce(g, w, f, val, rtag, d, q, i);
    }
    buf := PackForces(u.force, rtag, l.local[d], l.forward[d], u.recv);
    OutgoingConcat(own, passing, d);
    assert Outgoing(Run(g, r, d)[q], d) == Outgoing(own, d) + Outgoing(passing, d);
  }

  /** Rank q stores the values it receives and adds those of the particles it owns. */
  method ReceiveForces(g: Grid, ghost w: World<Tag>, ghost f: Forces, ghost val: map<Origin, Force>, n: nat, rtag: RTag,
                       d: Dir, ghost q: Pos,
                       l: Lists, u: Summing, buf: seq<Force>, ghost come: seq<Item<Origin>>)
    returns (u': Summing)
    requires On(g, w) && On(g, f) && Valued(g, w, f, val) && q in w && n == |w[q]|
    requires Listed(g, ReverseWorld(g, w), 6, q, l) && Summed(g, w, f, val, rtag, d, q, u)
    requires Passing(g, ReverseWorld(g, w), d + 1, q) == Passing(g, ReverseWorld(g, w), d, q) + come
    requires (forall i :: 0 <= i < |come| ==> come[i].load in val) && buf == Values(come, val)
    ensures Summed(g, w, f, val, rtag, d + 1, q, u')
  {
    hide Run, Valued, Neighbor, ReverseWorld, AddAll, Passing;
    ghost var r: World<Origin> := ReverseWorld(g, w);
    ghost var before := Passing(g, r, d, q);
    PassingPrefix(g, r, d + 1, 6, q);
    var start := |u.recv|;
    var tags := Tags(l.passing[start..start + |buf|]);
    assert l.passing[start..start + |buf|] == come;
    var force := AddForces(n, rtag, u.force, tags, buf, f[q], before, come, val);
    u' := Summing(force, u.recv + buf);
    assert u'.recv == Values(before + come, val);
  }

  lemma SkipForces(g: Grid, w: World<Tag>, f: Forces, val: map<Origin, Force>, rtag: RTag, d: Dir, q: Pos, u: Summing)
    requires On(g, w) && On(g, f) && q in w && Summed(g, w, f, val, rtag, d, q, u) && !g.Communicating(d)
    ensures Summed(g, w, f, val, rtag, d + 1, q, u)
  {
    hide Run, Neighbor, ReverseWorld, AddAll, Passing;
    PassingStep(g, ReverseWorld(g, w), d, q);
  }

  ghost predicate AllSummed(g: Grid, w: World<Tag>, f: Forces, val: map<Origin, Force>, rtag: map<Pos, RTag>, k: nat,
                            us: map<Pos, Summing>)
    requires On(g, w) && On(g, f) && On(g, rtag) && k <= 6
  {
    On(g, us) && forall q :: q in w ==> Summed(g, w, f, val, rtag[q], k, q, us[q])
  }

  ghost predicate Ready(g: Grid, w: World<Tag>, f: Forces, val: map<Origin, Force>, rtag: map<Pos, RTag>,
                        ls: map<Pos, Lists>)
  {
    && On(g, w) && On(g, f) && On(g, rtag) && On(g, ls)
    && Valued(g, w, f, val) && AllListed(g, ReverseWorld(g, w), 6, ls)
    && forall q :: q in w ==> Inverse(w[q] + GhostsOf(g, w, q), rtag[q])
  }

  predicate ValuesSent(g: Grid, w: World<Tag>, val: map<Origin, Force>, d: Dir, q: Pos, buf: seq<Force>)
    requires On(g, w) && q in w
  {
    var out := Outgoing(Run(g, ReverseWorld(g, w), d)[q], d);
    (forall i :: 0 <= i < |out| ==> out[i].load in val) && buf == Values(out, val)
  }

  method SendAllForces(g: Grid, ghost w: World<Tag>, ghost f: Forces, ghost val: map<Origin, Force>,
                       rtag: map<Pos, RTag>, d: Dir,
                       ls: map<Pos, Lists>, us: map<Pos, Summing>)
    returns (bufs: map<Pos, seq<Force>>)
    requires Ready(g, w, f, val, rtag, ls) && AllSummed(g, w, f, val, rtag, d, us) && g.Communicating(d)
    ensures forall q :: q in w ==> q in bufs && ValuesSent(g, w, val, d, q, bufs[q])
  {
    hide Run, Neighbor, ReverseWorld, Summed, Valued, Listed, ValuesSent, Inverse, GhostsOf;
    bufs := map[];
    var todo := ls.Keys;
    while todo != {}
      invariant todo <= ls.Keys
      invariant forall q :: q in w && q !in todo ==> q in bufs && ValuesSent(g, w, val, d, q, bufs[q])
    {
      var q :| q in todo;
      assert q in w && q in ReverseWorld(g, w) && q in us && q in rtag;
      var buf := SendForces(g, w, f, val, rtag[q], d, q, ls[q], us[q]);
      SentIsValues(g, w, val, d, q, buf);
      bufs := bufs[q := buf];
      todo := todo - {q};
    }
  }

  lemma SentIsValues(g: Grid, w: World<Tag>, val: map<Origin, Force>, d: Dir, q: Pos, buf: seq<Force>)
    requires On(g, w) && q in w
    requires forall i :: 0 <= i < |Outgoing(Run(g, ReverseWorld(g, w), d)[q], d)| ==>
               Outgoing(Run(g, ReverseWorld(g, w), d)[q], d)[i].load in val
    requires buf == Values(Outgoing(Run(g, ReverseWorld(g, w), d)[q], d), val)
    ensures ValuesSent(g, w, val, d, q, buf)
  {
    hide Run, ReverseWorld, Outgoing;
  }

  method DeliverAt(g: Grid, ghost w: World<Tag>, ghost f: Forces, ghost val: map<Origin, Force>, n: nat, rtag: RTag,
                   d: Dir, ghost q: Pos,
                   l: Lists, u: Summing, buf: seq<Force>)
    returns (u': Summing)
    requires On(g, w) && On(g, f) && Valued(g, w, f, val) && q in w && n == |w[q]| && g.Communicating(d)
    requires Listed(g, ReverseWorld(g, w), 6, q, l) && Summed(g, w, f, val, rtag, d, q, u)
    requires ValuesSent(g, w, val, d, Neighbor(g, q, Opposite(d)), buf)
    ensures Summed(g, w, f, val, rtag, d + 1, q, u')
  {
    hide Run, Neighbor, ReverseWorld, Summed, Valued, Listed, Passing, Outgoing;
    PassingStep(g, ReverseWorld(g, w), d, q);
    u' := ReceiveForces(g, w, f, val, n, rtag, d, q, l, u, buf,
                        Outgoing(Run(g, ReverseWorld(g, w), d)[Neighbor(g, q, Opposite(d))], d));
  }

  method ForceDirection(g: Grid, w: World<Tag>, ghost f: Forces, ghost val: map<Origin, Force>, rtag: map<Pos, RTag>,
                        d: Dir,
                        ls: map<Pos, Lists>, us: map<Pos, Summing>)
    returns (us': map<Pos, Summing>)
    requires Ready(g, w, f, val, rtag, ls) && AllSummed(g, w, f, val, rtag, d, us) && g.Communicating(d)
    ensures AllSummed(g, w, f, val, rtag, d + 1, us')
  {
    hide Run, Neighbor, ReverseWorld, Summed, Valued, Listed, ValuesSent, Inverse, GhostsOf;
    var bufs := SendAllForces(g, w, f, val, rtag, d, ls, us);
    us' := map[];
    var todo := ls.Keys;
    while todo != {}
      invariant todo <= ls.Keys && us'.Keys == ls.Keys - todo
      invariant forall q :: q in us' ==> Summed(g, w, f, val, rtag[q], d + 1, q, us'[q])
    {
      var q :| q in todo;
      var s := Neighbor(g, q, Opposite(d));
      assert q in w && s in w && q in us && q in rtag && q in ReverseWorld(g, w);
      var u := DeliverAt(g, w, f, val, |w[q]|, rtag[q], d, q, ls[q], us[q], bufs[s]);
      us' := us'[q := u];
      todo := todo - {q};
    }
  }

  lemma SkipAll(g: Grid, w: World<Tag>, f: Forces, val: map<Origin, Force>, rtag: map<Pos, RTag>, d: Dir,
                us: map<Pos, Summing>)
    requires On(g, w) && On(g, f) && On(g, rtag) && AllSummed(g, w, f, val, rtag, d, us) && !g.Communicating(d)
    ensures AllSummed(g, w, f, val, rtag, d + 1, us)
  {
    hide Run, Neighbor, ReverseWorld, Summed;
    forall q | q in w ensures Summed(g, w, f, val, rtag[q], d + 1, q, us[q]) {
      SkipForces(g, w, f, val, rtag[q], d, q, us[q]);
    }
  }

  function StartForces(f: Forces): map<Pos, Summing> { map q | q in f :: Summing(f[q], []) }

  lemma StartSummed(g: Grid, w: World<Tag>, f: Forces, val: map<Origin, Force>, rtag: map<Pos, RTag>)
    requires On(g, w) && On(g, f) && On(g, rtag)
    ensures AllSummed(g, w, f, val, rtag, 0, StartForces(f))
  {
    hide ReverseWorld, Neighbor;
    var us := StartForces(f);
    forall q | q in w ensures Summed(g, w, f, val, rtag[q], 0, q, us[q]) {
      assert Passing(g, ReverseWorld(g, w), 0, q) == [];
    }
  }

  /** Every component of the force f is that of f0 plus the sum over the ranks in S. */
  ghost predicate Collected(f: Force, f0: Force, S: set<Pos>, t: Tag, val: map<Origin, Force>) {
    && (forall r :: r in S ==> Origin(t, r) in val)
    && (forall c: nat :: c < 4 ==> Part(f, c) == Part(f0, c) + SumPart(S, t, val, c))
  }

  lemma CollectedSum(f: Force, f0: Force, S: set<Pos>, t: Tag, val: map<Origin, Force>)
    requires (forall r :: r in S ==> Origin(t, r) in val) && f == f0.Plus(SumOver(S, t, val))
    ensures Collected(f, f0, S, t, val)
  {
    hide Part, SumOver, SumPart;
    forall c: nat | c < 4 ensures Part(f, c) == Part(f0, c) + SumPart(S, t, val, c) {
      SumParts(S, t, val, c);
      PlusParts(f0, SumOver(S, t, val), c);
    }
  }

  /** The force on every owned particle is its own force plus the force on each of its ghost copies, each
      counted once; forces on ghosts are unchanged. */
  ghost predicate OwnersComplete(g: Grid, w: World<Tag>, f: Forces, val: map<Origin, Force>, us: map<Pos, Summing>)
    requires On(g, w) && On(g, f)
  {
    && On(g, us)
    && (forall q :: q in w ==> |us[q].force| == |f[q]| && |w[q]| <= |f[q]|)
    && (forall q, i :: q in w && 0 <= i < |w[q]| ==>
          Collected(us[q].force[i], f[q][i], Holders(g, w, w[q][i].load), w[q][i].load, val))
    && (forall q, i :: q in w && |w[q]| <= i < |f[q]| ==> us[q].force[i] == f[q][i])
  }

  /** The reverse part of the force update, direction by direction. */
  method DeliverForces(g: Grid, w: World<Tag>, f: Forces, ghost val: map<Origin, Force>, rtag: map<Pos, RTag>,
                       ls: map<Pos, Lists>)
    returns (us: map<Pos, Summing>)
    requires Ready(g, w, f, val, rtag, ls) && LoadsUnique(w) && PlansOnePerAxis(g, w)
    ensures OwnersComplete(g, w, f, val, us)
  {
    hide StartForces, On, ReverseWorld, GhostsOf, AllSummed, LoadsUnique, PlansOnePerAxis, OwnersComplete, Valued,
      AllListed, Inverse;
    us := StartForces(f);
    StartSummed(g, w, f, val, rtag);
    for dir := 0 to 6
      invariant AllSummed(g, w, f, val, rtag, dir, us)
    {
      if g.Communicating(dir) {
        us := ForceDirection(g, w, f, val, rtag, dir, ls, us);
      } else {
        SkipAll(g, w, f, val, rtag, dir, us);
      }
    }
    AllExact(g, w, f, val, rtag, ls, us);
  }

  lemma AllExact(g: Grid, w: World<Tag>, f: Forces, val: map<Origin, Force>, rtag: map<Pos, RTag>, ls: map<Pos, Lists>,
                 us: map<Pos, Summing>)
    requires Ready(g, w, f, val, rtag, ls) && LoadsUnique(w) && PlansOnePerAxis(g, w)
    requires AllSummed(g, w, f, val, rtag, 6, us)
    ensures OwnersComplete(g, w, f, val, us)
  {
    hide Run, Neighbor, ReverseWorld, Summed, Holders, LoadsUnique, PlansOnePerAxis, Listed, Inverse, GhostsOf,
      Collected;
    forall q | q in w
      ensures |us[q].force| == |f[q]| && |w[q]| <= |f[q]| && forall i :: |w[q]| <= i < |f[q]| ==>
                us[q].force[i] == f[q][i]
    {
      SummedShape(g, w, f, val, rtag[q], q, us[q]);
    }
    forall q, i | q in w && 0 <= i < |w[q]|
      ensures Collected(us[q].force[i], f[q][i], Holders(g, w, w[q][i].load), w[q][i].load, val)
    {
      OwnerForceExact(g, w, f, val, rtag[q], q, i, us[q]);
    }
  }

  lemma SummedShape(g: Grid, w: World<Tag>, f: Forces, val: map<Origin, Force>, rtag: RTag, q: Pos, u: Summing)
    requires On(g, w) && On(g, f) && q in w && Valued(g, w, f, val) && Summed(g, w, f, val, rtag, 6, q, u)
    ensures |u.force| == |f[q]| && |w[q]| <= |f[q]| && forall i :: |w[q]| <= i < |f[q]| ==> u.force[i] == f[q][i]
  {
    hide Run, Neighbor, ReverseWorld, Passing, GhostsOf;
  }

  lemma NothingTwice(g: Grid, w: World<Tag>, p: Pos)
    requires On(g, w) && LoadsUnique(w) && PlansOnePerAxis(g, w) && p in w
    ensures ReceivedAt(g, w, p) == Passing(g, ReverseWorld(g, w), 6, p)
    ensures NoRepeat(ReceivedAt(g, w, p))
  {
    hide Run, Neighbor, ReverseWorld, OnePerAxis, Reached;
    var r: World<Origin> := ReverseWorld(g, w);
    ReverseWorldFit(g, w);
    DeliveredExactly(g, r, 6, p);
    HeldIsKept(g, r, 6, p);
    var all, rec := Run(g, r, 6)[p], ReceivedAt(g, w, p);
    forall i, j | 0 <= i < j < |rec| ensures rec[i].load != rec[j].load {
      assert rec[i] == all[|r[p]| + i] && rec[j] == all[|r[p]| + j];
    }
  }

  lemma SendersAreHolders(g: Grid, w: World<Tag>, p: Pos, i: nat)
    requires On(g, w) && LoadsUnique(w) && PlansOnePerAxis(g, w) && p in w && i < |w[p]|
    ensures Senders(ReceivedAt(g, w, p), w[p][i].load) == Holders(g, w, w[p][i].load)
  {
    hide Run, Neighbor, ReverseWorld, OnePerAxis, Reached, ReceivedAt, Holders, LoadsUnique, PlansOnePerAxis;
    var t, rec := w[p][i].load, ReceivedAt(g, w, p);
    forall q ensures q in Senders(rec, t) <==> q in Holders(g, w, t) {
      if q in Senders(rec, t) {
        assert Carries(rec, Origin(t, q));
        OnlyCopiesArrive(g, w, p, t, q);
      }
      if q in Holders(g, w, t) {
        EveryCopyArrives(g, w, p, i, q);
        var k :| 0 <= k < |rec| && rec[k].load == Origin(t, q);
      }
    }
  }

  /** The force the owner of a particle ends up with. */
  lemma OwnerForceExact(g: Grid, w: World<Tag>, f: Forces, val: map<Origin, Force>, rtag: RTag, p: Pos, i: nat,
                        u: Summing)
    requires On(g, w) && On(g, f) && LoadsUnique(w) && PlansOnePerAxis(g, w) && p in w && i < |w[p]|
    requires Valued(g, w, f, val) && Inverse(w[p] + GhostsOf(g, w, p), rtag) && Summed(g, w, f, val, rtag, 6, p, u)
    ensures |w[p]| <= |f[p]| == |u.force|
    ensures Collected(u.force[i], f[p][i], Holders(g, w, w[p][i].load), w[p][i].load, val)
  {
    hide Run, Neighbor, ReverseWorld, OnePerAxis, Reached, ReceivedAt, Holders, LoadsUnique, PlansOnePerAxis, GhostsOf,
      Passing, Inverse, SumOver, SumReceived, Senders, AddAll, Collected;
    NothingTwice(g, w, p);
    var rec, t := ReceivedAt(g, w, p), w[p][i].load;
    var all := w[p] + GhostsOf(g, w, p);
    AddAllSums(all, |w[p]|, rtag, f[p], rec, val, i);
    assert all[i] == w[p][i];
    SumIsOverSenders(rec, t, val);
    SendersAreHolders(g, w, p, i);
    CollectedSum(u.force[i], f[p][i], Holders(g, w, t), t, val);
  }
}
