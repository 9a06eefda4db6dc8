/** Two moves of one bond: one in which it spans two ranks and follows its member, and one in which it is looked up
    at the wrong place and lost to the rank its members go to. */
module GroupSample {
  import opened Torus
  import opened Groups
  import opened GroupMigration
  import opened GroupMarks
  import opened GroupStep

  const MEMBERS: Members := map[7 := [1, 2]]

  const KINDS: map<GTag, nat> := map[7 := 3]

  lemma BondTouches(s: set<Tag>)
    ensures Touches([1, 2], s) <==> 1 in s || 2 in s
  {
    var m: seq<Tag> := [1, 2];
    if 1 in s { assert m[0] in s; }
    if 2 in s { assert m[1] in s; }
  }

  // ---------- a bond across two ranks ----------

  const WEST := Pos(0, 0, 0)

  const EAST := Pos(1, 0, 0)

  function SharedMove(): Move {
    Move(Grid(2, 1, 1), 0, map[WEST := {1}, EAST := {2}], map[WEST := {1}, EAST := {}])
  }

  const BOND_SHARED := Store([Group(7, 3, [1, 2], [WEST, EAST])], map[7 := 0])

  function SharedStores(): Stores { map[WEST := BOND_SHARED, EAST := BOND_SHARED] }

  lemma SharedIsValid()
    ensures SharedMove().Valid()
  {
    var mv := SharedMove();
    forall q ensures q in mv.own <==> mv.g.Has(q) {
    }
  }

  lemma SharedIsHeld()
    ensures Held(MEMBERS, SharedStores(), SharedMove().own) && Typed(KINDS, SharedStores())
  {
    BondTouches({1});
    BondTouches({2});
    assert SoundOn(MEMBERS, BOND_SHARED);
    hide Touches, SoundOn;
  }

  lemma SharedIsExact()
    ensures RanksExact(SharedStores(), SharedMove().own, 7)
  {
  }

  lemma SharedIsClose()
    ensures Close(SharedMove().g, WEST, EAST) && Close(SharedMove().g, EAST, WEST)
  {
    assert Neighbor(SharedMove().g, WEST, 0) == EAST && Neighbor(SharedMove().g, EAST, 0) == WEST;
  }

  /** All hypotheses of a step are met, and the bond follows. */
  lemma SharedIsStraight()
    ensures SharedMove().Valid() && Followed(SharedMove(), MEMBERS, 7)
    ensures Touches(MEMBERS[7], SharedMove().leaving[WEST])
  {
    SharedIsValid();
    SharedIsClose();
    BondTouches({1});
    hide Close, Touches;
  }

  // ---------- a bond that goes astray ----------

  /** The upper left of four ranks. */
  const CORNER := Pos(0, 1, 0)

  function LostMove(): Move {
    var own: Particles := map[Pos(0, 0, 0) := {}, Pos(1, 0, 0) := {}, CORNER := {1, 2}, Pos(1, 1, 0) := {}];
    Move(Grid(2, 2, 1), 1, own, own)
  }

  const NO_GROUPS := Store([], map[])

  const BOND_ALONE := Store([Group(7, 3, [1, 2], [CORNER, CORNER])], map[7 := 0])

  function LostStores(): Stores {
    map[Pos(0, 0, 0) := NO_GROUPS, Pos(1, 0, 0) := NO_GROUPS, CORNER := BOND_ALONE, Pos(1, 1, 0) := NO_GROUPS]
  }

  lemma LostIsValid()
    ensures LostMove().Valid()
  {
    var mv := LostMove();
    forall q ensures q in mv.own <==> mv.g.Has(q) {
    }
  }

  lemma LostIsSound()
    ensures SoundOn(MEMBERS, NO_GROUPS) && SoundOn(MEMBERS, BOND_ALONE)
  {
  }

  lemma LostIsTyped()
    ensures Typed(KINDS, LostStores())
  {
  }

  lemma LostIsHeldAt(q: Pos)
    requires q in LostStores()
    ensures q in LostMove().own && SoundOn(MEMBERS, LostStores()[q])
    ensures 7 in LostStores()[q].rtag <==> Touches(MEMBERS[7], LostMove().own[q])
  {
    BondTouches({});
    BondTouches({1, 2});
    LostIsSound();
    hide Touches, SoundOn;
  }

  lemma LostIsHeld()
    ensures Held(MEMBERS, LostStores(), LostMove().own) && Typed(KINDS, LostStores())
  {
    LostIsTyped();
    hide Touches, SoundOn, Typed;
    var w, own := LostStores(), LostMove().own;
    forall q | q in w ensures SoundOn(MEMBERS, w[q]) && (7 in w[q].rtag <==> Touches(MEMBERS[7], own[q])) {
      LostIsHeldAt(q);
    }
    assert w.Keys == own.Keys;
  }

  /** Both members go west across the boundary, to the upper right rank; the table is looked up at the lower right. */
  lemma LostDestination()
    ensures Neighbor(LostMove().g, CORNER, 1) == Pos(1, 1, 0) && Entered(LostMove(), CORNER) == Pos(1, 0, 0)
    ensures !Straight(LostMove(), MEMBERS, 7) && OwnedWhole(MEMBERS[7], LostMove().own[CORNER])
  {
    BondTouches({1, 2});
    assert DestinationIndex(LostMove().g, CORNER, 1) == 1;
    assert GoesAstray(LostMove(), CORNER);
  }

  /** So the step leaves the bond with ranks that own none of its members, or without one that owns both. */
  method LoseBond() returns (r: Stores)
    ensures LostMove().Valid() && r.Keys == LostMove().own.Keys && !HeldFor(MEMBERS, r, LostMove().After(), 7)
  {
    LostIsValid();
    LostIsHeld();
    LostDestination();
    hide Straight, OwnedWhole, Typed, HeldFor, SoundOn, StepDone;
    r := MigrateGroups(LostMove(), MEMBERS, KINDS, LostStores());
    StepIsSound(LostMove(), MEMBERS, KINDS, LostStores(), r);
    WholeGroupExactly(LostMove(), MEMBERS, KINDS, LostStores(), r, CORNER, 7);
  }
}
