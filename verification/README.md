# Verified model of the domain-decomposed core of HOOMD-blue

HOOMD-blue spreads a particle simulation over ranks that sit on a periodic W x H x D grid of domains. This
project models the parts of it whose correctness is not visible in any one function, and proves what they
promise:

- **Communication between domains.** Six ordered direction steps, each "send one way, receive from the other,
  wrap". On them run particle migration (`Migration`), the ghost exchange by travelling plans and the ghost
  update that replays it (`Ghosts`, `GhostExchange`; `GhostCoverage` says which ranks get a ghost, in lengths), the
  reverse delivery of forces (`Reverse`,
  `ReverseForces`, `ForceReturn`), and bonded-group migration (`Groups`, `GroupMigration`, `GroupMarks`,
  `GroupStep`; `GroupSample` gives a move that meets its hypotheses and one in which a bond is lost).
  `WholeMigration` runs groups and particles together through the six steps. `Torus`, `Itinerary`, `Domain` and
  `Tally` hold what they share: where a plan leads, how copies multiply, the slabs of the box, and the
  bookkeeping of exchanges. `ShiftedBox` relates slabs and wrapping to coordinates in a tilted box, and
  `TiltedMigration` and `TiltedGhosts` carry the results over to such coordinates.
- **The tree of bounding boxes** (`AABB`, `AABBTree`, `AABBLayout`, `AABBIndex`): a flat preorder array with
  skip counts, built in place, searched without a stack and updated from a leaf upward.
- **The bonded-group store** (`Ledger`, `GroupStore`) with recycled tags, and its two-pass lookup table
  (`GroupTable`).
- **The choice of the grid** (`Decomposition`, `TwoLevel`, `RankMap`, `NodeMap`), from the nodes that the ranks
  run on to the table of ranks.
- **Cells**: dimensions and bins (`CellBins`), adjacency (`CellAdjacency`), the cells of close particles
  (`CloseCells`), the list with its overflow loop (`CellList`) and the search stencil (`CellStencil`).
- **Triclinic boxes** (`TriclinicBox`) and **the caching allocator** (`CachedAllocator`).
- Small helpers: `Vectors` (points and images), `Indexing` (row-major indices), `Ordered` (ascending iteration),
  `Reals` (named products).

Loops of the source are methods with invariants, proved against functions on sequences, maps and shapes; the
theorems are lemmas about those functions. The grid of ranks is a map from grid position to the state of a
rank, and a step of all ranks is a loop over that map. Message passing is a perfect exchange. Real numbers
stand for floating point.

Where the code does something else than its surroundings suggest, the model does what the code does, and the
exact condition under which the intended property holds is proved:

- The destination of a leaving group member is computed with unsigned numbers, so the wrap below zero is
  missed: the rank table is looked up at the true neighbour exactly when the step does not go down from
  coordinate zero (`GroupMigration.DestinationIsExact`); `GroupMigration.MissedIndex` says where it is looked up
  otherwise. A group held by exactly the ranks that own a member of it is still held so after a step exactly when
  it is routed: every rank that keeps no member is sent the group exactly when a member comes to it
  (`GroupStep.HeldForExactly`). That is so if no member leaves downward from coordinate zero, and for a group that
  one rank owns alone only then (`GroupStep.WholeGroupExactly`, `GroupSample.LoseBond`). What other groups and
  particles do does not matter.
- Marks are sent to neighbours only: the owners entered for a group are right after the marks are in exactly when
  no member leaves downward from coordinate zero and every rank that a member leaves neighbours the other ranks
  that own one (`GroupMarks.EntriesExactly`).
- The grid search starts from the area of the grid (1, n, 1) but from the guess (1, 1, n): its result has the
  smallest interface area exactly when a count was requested, or the box is flat, or `L.y <= L.z`, or there is
  one rank, or some grid beats the starting bound (`Decomposition.FindDecomposition`,
  `Decomposition.SlabBoxMissed`).
- The stencil loop along x tests the periodicity along z. For a given grid and radius, no cell is listed twice
  exactly when z is periodic or x is not or the loop along x is shorter than the grid
  (`CellStencil.NoneTwiceExactly`). No cell with a point within the radius is missed exactly when x is periodic or
  z is not or there is one cell along x or the loop reaches the radius all the same
  (`CellStencil.NoneMissedExactly`).
- Positions slightly below the lower face are accepted and truncated into the first cell. Close particles are in
  adjacent cells always for a radius of two or more, and for a radius of one exactly when along every periodic axis
  the cells are wider than the nominal width by that margin, or there are at most three
  (`CloseCells.CloseAdjacentExactly`, `CloseCells.MarginMissed`).
- A box that is not periodic along y takes its tilts from y = 0. The shifted global box therefore wraps all
  positions by slabs exactly unless the rank is askew: an outer rank along z of a grid cut along x and z but not
  along y, in a box with both tilts with y (`ShiftedBox.WrapsBySlabsExactly`). On an askew rank the positions near
  its slabs, which are those it receives, are wrapped rightly exactly when the stretch between the right threshold
  and the tested one is not near its slab along x (`ShiftedBox.NearWrapsExactly`); otherwise a ghost can end up in
  the wrong image (`ShiftedBox.GhostMisplaced`). In a tilted box the statements
  about slabs (`Domain.NearIsKept`, `Ghosts.RunKeepsNearby`, `Migration.MigrateParticles`) hold on grids without
  such ranks; there they are carried over to coordinates (`TiltedMigration.MigrationInCoordinates`,
  `TiltedGhosts.GhostsInCoordinates`).
- A fully periodic box takes every position within one image into itself exactly when the point that tilts are
  measured from does not shift the tests, which holds for centred and for untilted boxes
  (`TriclinicBox.WrapsHomeExactly`).

`dafny verify dfyconfig.toml` checks the whole project.

## Model

| member | source | states |
|---|---|---|
| Torus.NeighborPairing | hoomd/DomainDecomposition.cc:450-480 | what is sent in a direction comes back by the opposite one; a step moves along its axis only, and moves at all exactly on communicated axes |
| Torus.ReachedClosedForm | hoomd/Communicator.h:90-146 | with one direction per axis the positions a plan reaches are the owner's displaced by every subset of the planned directions |
| Torus.FreshArrival | hoomd/Communicator.cc:2348-2363 | a copy never arrives where one already is, also on grids two domains wide |
| Itinerary.OutgoingCount | hoomd/Communicator.cc:2019-2044 | what is sent in a direction is every held item whose plan names it, as often as it is held |
| Itinerary.NothingInvented | hoomd/Communicator.cc:1926-2364 | whatever a rank holds after any number of steps started on some rank |
| Itinerary.ExactlyOnce | hoomd/Communicator.cc:1926-2364 | an item that starts once is held exactly once by every rank its plan reaches and by no other |
| Itinerary.DeliveredExactly | hoomd/Communicator.cc:1926-2364 | with unique tags and one direction per axis no rank holds a tag twice, and a rank holds an item exactly when its plan reaches it |
| Domain.SentUp | hoomd/Communicator.cc:3310-3408 | a coordinate that left its slab upward by at most half the next slab is wrapped into that slab |
| Domain.SentDown | hoomd/Communicator.cc:3310-3408 | the same downward, across the box boundary too |
| Domain.NearIsKept | hoomd/Communicator.cc:3310-3408 | wrapping into the shifted box keeps a coordinate near its slab, also with two slabs |
| Domain.InsideIsFixed | hoomd/Communicator.cc:3310-3408 | a coordinate in its slab is not moved by wrapping |
| Domain.SlabUnique | hoomd/DomainDecomposition.cc:573-597 | the half-open local boxes do not overlap |
| Domain.WrapIsLatticeShift | hoomd/Communicator.cc:3310-3408 | wrapping changes a position by lattice vectors only |
| Domain.HopIsNear | hoomd/Communicator.cc:3310-3408 | a copy sent from the half of a slab that faces the neighbour arrives near the neighbour's slab, across the boundary and with two slabs too |
| ShiftedBox.GetShiftedBox | hoomd/Communicator.cc:3310-3408 | the loop over directions displaces the global box by half the neighbour's slab and the tolerance at every boundary the rank lies at |
| ShiftedBox.ShiftedWrap | hoomd/Communicator.cc:3310-3408 | wrapping in the shifted box of a tilted centred global box, seen in fractions: every axis wraps on its own around its displacement |
| ShiftedBox.WrapsBySlabsExactly | hoomd/Communicator.cc:3310-3408 | it is the wrapping of fractions by slabs exactly unless the grid is cut along x and z but not y, the box has both tilts with y, and the rank is outermost along z |
| ShiftedBox.ImagesBySlabs | hoomd/Communicator.cc:3310-3408 | then the image counts are those of the slabs, too |
| ShiftedBox.NearWrapsExactly | hoomd/Communicator.cc:3310-3408 | all positions near a rank's slabs are wrapped by slabs exactly when the rank is not askew, or the stretch between the two thresholds is not near its slab along x |
| ShiftedBox.GhostMisplaced | hoomd/Communicator.cc:3310-3408 | in a skewed unit box on a 2 x 1 x 2 grid, a ghost of a particle inside its own box is stored next to the first receiver's box and then moved across the global box by the second |
| ShiftedBox.LocalPeriodic | hoomd/DomainDecomposition.cc:590-595 | the local box is periodic along exactly the axes on which a rank is its own neighbour |
| ShiftedBox.LocalFractionExact | hoomd/DomainDecomposition.cc:573-597 | fractions of the local box are fractions within the rank's slabs, for any tilt |
| Migration.RemoveParticles | hoomd/ParticleData.cc:2905-3109 | splits the flagged particles off, both parts in order |
| Migration.WrapReceived | hoomd/Communicator.cc:1595-1736 | wraps every received particle into the receiver's shifted box |
| Migration.MigrateDirection | hoomd/Communicator.cc:1595-1736 | the loops of all ranks perform the direction step |
| Migration.StepConserves | hoomd/Communicator.cc:1595-1736 | no step loses, duplicates or alters a particle, whatever the positions |
| Migration.MigrationConserves | hoomd/Communicator.cc:1595-1736 | nor do the six steps together |
| Migration.MigrationDelivers | hoomd/Communicator.cc:1595-1736 | if every overshoot is at most half the adjacent slab, each particle ends on the one rank whose box contains it |
| Migration.MigrateParticles | hoomd/Communicator.cc:1595-1736 | migration as the ranks run it conserves all particles and, for small moves, delivers each to its one owner |
| TiltedMigration.RunInFractions | hoomd/Communicator.cc:1595-1736 | testing positions in local boxes and wrapping them in shifted boxes, in a centred box of any tilt without askew ranks, is the migration of fractions |
| TiltedMigration.MigrationInCoordinates | hoomd/Communicator.cc:1595-1736 | so in such a box no particle is lost, duplicated or moved off its trajectory, and for small moves each ends on the one rank whose local box holds it |
| Ghosts.MaxLayerWidth | hoomd/Communicator.h:259-275 | the largest requested ghost width, and one that was requested |
| Ghosts.OneSideExactly | hoomd/Communicator.cc:1848-1882 | all plans have at most one direction per communicated axis exactly when the layer is at most half the box |
| Ghosts.BoxCheckGuards | hoomd/Communicator.h:653-682 | a box that passes the size check gives every particle of every type such a plan |
| Ghosts.BoxCheckExactly | hoomd/Communicator.h:653-682 | a box passes the check exactly when along every communicated axis the layers of opposite faces leave positions that are in neither |
| Ghosts.CheckedPlans | hoomd/Communicator.h:653-682 | if every rank passes the check, a system whose plans are made from its positions has one direction per axis throughout, as the exchange requires, and its particles are placed for it if inside their boxes |
| Ghosts.RunKeepsCurrent | hoomd/Communicator.cc:2326-2346 | after any number of hops a ghost's position is its owner's up to a lattice vector, and the image near the receiver's slab if the particles started near theirs |
| Ghosts.RunKeepsNearby | hoomd/Communicator.cc:2326-2346 | and along every communicated axis it lies within half the adjacent slab and the tolerance of the receiver's slab, if local particles are near theirs and in the half facing the neighbours they are sent to |
| Ghosts.PlannedIsPlaced | hoomd/Communicator.cc:1848-1882 | as they are with the plan that their position in the local box gives them, for layers of at most half the box |
| GhostCoverage.PlanExactly | hoomd/Communicator.cc:1848-1882 | a plan names exactly the directions in which the face of the local box is no farther than the particle's layer, in lengths |
| GhostCoverage.MakePlans | hoomd/Communicator.cc:1848-1882 | the loop over the local particles gives each that plan |
| GhostCoverage.GhostsCover | hoomd/Communicator.cc:1926-2364 | after the exchange a rank holds a particle exactly when it owns it or is displaced from its owner along axes on each of which the particle is that close to the face on that side |
| GhostExchange.Pack | hoomd/Communicator.cc:2019-2044 | copies exactly the items whose plan names the direction, in order, with their positions |
| GhostExchange.Receive | hoomd/Communicator.cc:2079-2086 | appends the received ghosts, wrapped, and keeps the reverse lookup an exact inverse |
| GhostExchange.ExchangeGhosts | hoomd/Communicator.cc:1926-2364 | the six steps leave every rank with the run's items and positions, an exact lookup (each tag free on arrival) and the lists that replay it |
| GhostExchange.PackUpdate | hoomd/Communicator.cc:2670-2678 | recorded tags lead to the positions of exactly the items sent in the exchange |
| GhostExchange.WriteUpdate | hoomd/Communicator.cc:2843-2858 | overwrites exactly the slots received in that direction |
| GhostExchange.UpdateGhosts | hoomd/Communicator.cc:2647-2860 | after the update all positions are those a new exchange would deliver, whatever the ghost slots held |
| GhostExchange.UpdatedGhostsAreCurrent | hoomd/Communicator.cc:2647-2860 | so every ghost, also a multi-hop one, has its owner's current position up to a lattice vector, and lies near the receiver's slab if the local particles are still placed as above |
| TiltedGhosts.GhostsInCoordinates | hoomd/Communicator.cc:2326-2346 | in coordinates of a centred box of any tilt without askew ranks, every ghost is its owner's position up to lattice vectors and in the image near the receiver |
| Reverse.ReachedReversed | hoomd/Communicator.cc:2405-2435 | the inverted plan leads from a ghost back to its owner, and only ghosts are led there |
| Reverse.GhostIsCopy | hoomd/Communicator.cc:1926-2364 | every ghost is a copy of a particle another rank owns and whose plan reaches here |
| Reverse.OnlyCopiesArrive | hoomd/Communicator.cc:2438-2632 | a force that arrives for a tag started on a rank that holds a ghost of it |
| Reverse.EveryCopyArrives | hoomd/Communicator.cc:2438-2632 | the force of every ghost copy arrives at the owner, also through ranks that only forward it |
| Reverse.SumIsOverSenders | hoomd/Communicator.cc:3186-3203 | what is added for a tag is the sum over the ranks it came from, each once |
| Reverse.SumParts | hoomd/Communicator.cc:3186-3203 | every one of the four components of that sum is the sum of that component |
| ReverseForces.InvertPlan | hoomd/Communicator.cc:2413-2434 | swaps every direction for its opposite |
| ReverseForces.Record | hoomd/Communicator.cc:2469-2504 | records own ghosts by tag and forwarded forces by place, together exactly what the step sends |
| ReverseForces.RecordReverse | hoomd/Communicator.cc:2438-2632 | the lists of all six directions describe the run of the inverted plans |
| ReverseForces.PackForces | hoomd/Communicator.cc:3000-3019 | gathers own ghosts' forces by tag and forwarded forces by place |
| ReverseForces.AddForces | hoomd/Communicator.cc:3186-3203 | adds received forces to owned particles only, one after the other |
| ReverseForces.AddAllSums | hoomd/Communicator.cc:3186-3203 | a particle's force grows by the sum of what was received for its tag |
| ReverseForces.DeliverForces | hoomd/Communicator.cc:2979-3020 | after the six steps each of the four components of every owner's force is its own plus that of every copy, each once, and ghost forces are unchanged |
| ReverseForces.OwnerForceExact | hoomd/Communicator.cc:3135-3204 | the same for one particle and each component: the sum runs over exactly the ranks that hold a ghost of it |
| ForceReturn.ExchangeLeaves | hoomd/Communicator.cc:2348-2363 | a ghost exchange leaves the state the force return starts from |
| ForceReturn.ReturnForces | hoomd/Communicator.cc:2405-2632 | inverting, recording and delivering together add to every component of an owner's force that component of the forces on all copies of its particles, with the forces read off the ghosts themselves |
| Groups.MarkGroups | hoomd/Communicator.cc:106-228 | enters the destination of every leaving member and posts the mark to exactly the other ranks that own a staying member |
| Groups.ApplyMarks | hoomd/Communicator.cc:383-402 | takes marks into the groups that are here, covered entries only |
| Groups.MarksEntry | hoomd/Communicator.cc:383-402 | an entry becomes what the covering marks say if they agree and is untouched if none covers it |
| Groups.SendGroups | hoomd/Communicator.cc:432-489 | posts a group to the destination of each leaving member and drops it from the lookup exactly when none stays |
| Groups.Compact | hoomd/Communicator.cc:525-545 | keeps exactly the groups still looked up, renumbered, with an exact lookup |
| Groups.FirstCopies | hoomd/Communicator.cc:707-712 | keeps one copy of every received group |
| Groups.MergeReceived | hoomd/Communicator.cc:748-790 | appends exactly the received groups that were missing, in tag order, with an exact lookup |
| GroupMigration.FindNeighbors | hoomd/Communicator.cc:1412-1480 | the loops over displacements of at most one domain per axis list exactly the neighbours |
| GroupMigration.CloseSymmetric | hoomd/Communicator.cc:1412-1514 | neighbourship is mutual, so whoever posts to a neighbour is listened to |
| GroupMigration.DestinationExact | hoomd/Communicator.cc:163-193 | the table index computed with wrapping unsigned numbers is that of the true neighbour exactly when the step does not go down from coordinate zero |
| GroupMigration.DestinationIsExact | hoomd/Communicator.cc:163-193 | the destination entered is the neighbour exactly in that case |
| GroupMigration.MissedIndex | hoomd/Communicator.cc:163-193 | otherwise the table is looked up one step back in memory, or behind its end where there is no such step |
| GroupMarks.EntryExact | hoomd/Communicator.cc:106-228 | an entry of a group held rightly names the member's new owner exactly when the member stays, or does not go astray and left here or a neighbour |
| GroupMarks.EntriesExactly | hoomd/Communicator.cc:106-228 | all entries of a group are right exactly when none of its members goes astray and every rank that one leaves neighbours the other ranks owning one |
| GroupStep.HeldForExactly | hoomd/Communicator.cc:48-796 | a group held by exactly its owners' ranks is so after the step if and only if every rank that keeps no member is sent it exactly when a member comes |
| GroupStep.StraightIsRouted | hoomd/Communicator.cc:163-193 | as is the case if no member leaves downward from coordinate zero |
| GroupStep.LostGroup | hoomd/Communicator.cc:163-193 | a group owned by one rank alone of which a member goes astray is not held by the rank that member goes to |
| GroupStep.WholeGroupExactly | hoomd/Communicator.cc:48-796 | after a step a group is held rightly if no member goes astray; one that a single rank owned, only then |
| GroupStep.MigrateGroups | hoomd/Communicator.cc:48-796 | from any sound stores: stores stay sound, typed and with exact lookups; each group held rightly stays so exactly when it is routed, whatever the others do; owners entered stay exact if no member goes astray and every mark has a neighbour to go to |
| GroupSample.LoseBond | hoomd/Communicator.cc:163-193 | on a 2 x 2 x 1 grid a bond whose members both cross the western boundary is not held by their new owner |
| GroupStep.OneOwnerAfter | hoomd/Communicator.cc:1595-1736 | every particle still has one owner after the step |
| GroupStep.HeldThroughoutExactly | hoomd/Communicator.cc:48-796 | along a run a group is held rightly at every point exactly when it is routed in every step |
| GroupStep.MigrateRun | hoomd/Communicator.cc:48-796 | over any run of direction steps from any sound stores: stores stay sound, and that holds of each group, whatever the others do |
| WholeMigration.MoveFollows | hoomd/Communicator.cc:1595-1736 | the owners that a group step counts on are the tags that the particle step leaves on every rank, and tags stay unique |
| WholeMigration.MigrateAll | hoomd/Communicator.cc:1579-1736 | groups and particles through all six directions, from any sound stores: particles conserved and, for small moves, delivered; each group held rightly at the start is held rightly after every step exactly when it is routed in every step |
| WholeMigration.ClearStart | hoomd/Communicator.cc:1595-1736 | a group none of whose members starts out far from its slab or leaving the global box downward is routed in every step, whatever other groups and particles do |
| AABB.MergeIsLeast | hoomd/AABB.h:330-352 | the merge of two boxes is the least box that contains both |
| AABB.OverlapsIsMeets | hoomd/AABB.h:154-171 | two boxes overlap exactly when they share a point, if neither is empty |
| AABB.ContainsIsSuperset | hoomd/AABB.h:300-322 | a box contains another exactly when it has all its points |
| AABB.OutsideIsOutside | hoomd/AABB.h:154-171 | a query that overlaps a box overlaps every box around it |
| AABB.HullOfParts | hoomd/AABBTree.h:421-540 | the hull of a list is the merge of the hulls of its two parts |
| AABBTree.OnLeftExactly | hoomd/AABBTree.h:421-540 | a particle goes left exactly when its centre is below the middle of the hull along the last of its longest edges |
| AABBTree.BuildPermutes | hoomd/AABBTree.h:421-540 | the build permutes its input, and the leaves list it in the final order |
| AABBTree.BuildKeepsOrder | hoomd/AABBTree.h:421-540 | the partition is stable: particles stay in index order within every leaf |
| AABBTree.BuildIsSmall | hoomd/AABBTree.h:421-540 | leaves hold one to sixteen particles, and there are at most 2 N - 1 nodes |
| AABBLayout.SearchSubtree | hoomd/AABBTree.h:296-326 | skipping and descending over a subtree find what scanning its leaves finds, and continue behind it |
| AABBLayout.SearchAll | hoomd/AABBTree.h:296-326 | the stackless search equals the scan of all leaves |
| AABBLayout.ExceptionMovesUp | hoomd/AABBTree.h:334-358 | setting a node right leaves at most its parent wrong |
| AABBIndex.PartitionInPlace | hoomd/AABBTree.h:421-540 | the in-place partition equals the stable filter into left and right |
| AABBIndex.Tree.BuildNode | hoomd/AABBTree.h:421-540 | appends the subtree in preorder with parents, hulls and mapping, leaves other nodes and particles alone, and rearranges its stretch only |
| AABBIndex.BuiltHulls | hoomd/AABBTree.h:421-540 | the leaves of a subtree that was built have exactly the hulls of their particles |
| AABBIndex.Tree.UpdateSkip | hoomd/AABBTree.h:549-566 | skip counts become subtree size minus one; nothing else changes |
| AABBIndex.Tree.BuildTree | hoomd/AABBTree.h:393-404 | the tree stands for the given boxes: strict preorder, every leaf's box the merge of its particles' boxes, every other box the merge of its children's, exact particle-to-leaf mapping, each particle once |
| AABBIndex.Tree.Query | hoomd/AABBTree.h:296-326 | returns the particles of exactly the leaves that overlap, each once and in leaf order, misses no particle whose box shares a point with the query, with at most one test per node |
| AABBIndex.Tree.Update | hoomd/AABBTree.h:334-358 | the tree stands for the new box of that particle and the old boxes of all others; node boxes only grow |
| AABBIndex.QueryExact | hoomd/AABBTree.h:296-326 | the scan of the leaves compared with a brute-force test of every particle |
| Ledger.AddedSound | hoomd/BondedGroupData.cc:322-445 | a new group gets a tag not in use, and active and recycled tags still partition the tags made |
| Ledger.RemovedSound | hoomd/BondedGroupData.cc:590-674 | removal keeps the partition |
| Ledger.RemoveUndoesAdd | hoomd/BondedGroupData.cc:590-674 | removing what was added restores the groups, and the tag is the next to be used |
| Ledger.RunSound | hoomd/BondedGroupData.cc:322-674 | over every run the partition holds and no more tags are made than groups were ever active at once |
| GroupStore.Validate | hoomd/BondedGroupData.cc:333-367 | the first of the three checks that fails, in order |
| GroupStore.PushView | hoomd/BondedGroupData.cc:388-431 | appending to the arrays adds to the ledger |
| GroupStore.DropView | hoomd/BondedGroupData.cc:633-669 | moving the last element into the gap removes from the ledger, with tags and lookup inverse |
| GroupStore.Store.Add | hoomd/BondedGroupData.cc:322-445 | refines adding to the ledger; the tag was not active; a rejected group changes nothing |
| GroupStore.Store.Remove | hoomd/BondedGroupData.cc:590-674 | refines removing from the ledger; unknown and removed tags are told apart, rejected, and change nothing |
| GroupStore.Store.RebuildCache | hoomd/BondedGroupData.cc:732-754 | the cache lists the active tags in ascending order |
| GroupStore.Store.NthTag | hoomd/BondedGroupData.cc:451-466 | the n-th tag is the active one with n active tags below it, whatever the cache held; fails exactly beyond the number of groups |
| GroupStore.Store.TakeSnapshot | hoomd/BondedGroupData.cc:989-1135 | lists the active groups in tag order and the place of every tag |
| GroupStore.Store.FromSnapshot | hoomd/BondedGroupData.cc:227-319 | succeeds exactly when every group is acceptable, and then holds them under their places as tags |
| GroupStore.SnapshotRoundTrip | hoomd/BondedGroupData.cc:989-1135 | a snapshot of a loaded snapshot is that snapshot |
| GroupStore.ReloadRenumbers | hoomd/BondedGroupData.cc:227-319 | reloading keeps all groups and the order of their tags |
| GroupStore.Store.Perform | hoomd/BondedGroupData.cc:322-674 | after any run of additions and removals the store stands for the ledger of the accepted ones |
| GroupTable.ColumnExact | hoomd/BondedGroupData.cc:827-879 | a particle's column lists exactly its places in the groups |
| GroupTable.ColumnSorted | hoomd/BondedGroupData.cc:827-879 | in the order of the groups |
| GroupTable.ColumnOncePerGroup | hoomd/BondedGroupData.cc:827-879 | and each group once, if no group names a particle twice |
| GroupTable.EntryRestores | hoomd/BondedGroupData.cc:845-875 | inserting the particle at its stored position among the stored others gives the group back, and the entry ends with the type or index of that group |
| GroupTable.CountGroups | hoomd/BondedGroupData.cc:783-814 | counts equal the column lengths and add up to group size times groups; fails exactly when a member is not local |
| GroupTable.FillTable | hoomd/BondedGroupData.cc:827-879 | fills every column; no write leaves the table |
| GroupTable.RebuildTable | hoomd/BondedGroupData.cc:771-879 | both passes together, with the height of the longest column |
| Decomposition.AreaCountsPlanes | hoomd/DomainDecomposition.cc:381-391 | the area that is compared is the sum of the cross-sections of the box over all planes between domains |
| Decomposition.AreaOfCut | hoomd/DomainDecomposition.cc:381-391 | so one more domain along an axis adds one cross-section, and an uncut box has none |
| Decomposition.SearchConcludes | hoomd/DomainDecomposition.cc:369-405 | what the exhausted search has found |
| Decomposition.FindDecomposition | hoomd/DomainDecomposition.cc:327-408 | succeeds exactly when a factorisation with the requested counts exists, returns one, and returns one of least interface area exactly when the starting bound is sound: the first of those in the order of the loops, or the first guess if no grid beats the bound |
| Decomposition.SlabBoxMissed | hoomd/DomainDecomposition.cc:343-366 | a box and a number of ranks for which a better grid is missed |
| TwoLevel.SplitDivisor | hoomd/DomainDecomposition.cc:411-445 | a divisor of a product is a product of divisors of the factors |
| TwoLevel.Subdivide | hoomd/DomainDecomposition.cc:411-445 | finds a block that divides the grid axis by axis exactly when the ranks per node divide the number of domains, and takes the last one |
| TwoLevel.NodeGrid | hoomd/DomainDecomposition.cc:139-153 | the node grid has one cell per node |
| TwoLevel.UniformNodes | hoomd/DomainDecomposition.cc:696-713 | two levels are used exactly when all nodes have the same number of ranks |
| TwoLevel.ChooseGrids | hoomd/DomainDecomposition.cc:139-153 | with equal nodes the two-level grid always exists and its parts multiply to the whole; the whole is the grid that the search chooses |
| RankMap.TurnsDiffer | hoomd/DomainDecomposition.cc:190-261 | no two turns of the loops fill the same domain or place the same rank |
| RankMap.MapRanks | hoomd/DomainDecomposition.cc:190-261 | the rank table and its inverse are permutations and inverse to each other, each node's ranks in its block |
| NodeMap.FindCommonNodes | hoomd/DomainDecomposition.cc:665-694 | collects the ranks of every node in ascending order |
| NodeMap.CountedAll | hoomd/DomainDecomposition.cc:665-694 | every rank is counted on one node |
| NodeMap.LayoutValid | hoomd/DomainDecomposition.cc:190-228 | grids of the right sizes with the ranks of the nodes are a layout for the tables |
| NodeMap.Decompose | hoomd/DomainDecomposition.cc:111-270 | whatever the nodes, the rank tables are permutations and inverse; two levels are used exactly when wanted, unconstrained and with equal nodes, and then every block of domains belongs to one node; the grid is the one that the search chooses; fails exactly when no grid fits |
| TriclinicBox.FractionOfCoordinates | hoomd/BoxDim.h:276-304 | fractions survive the way to coordinates and back, for any tilt |
| TriclinicBox.CoordinatesOfFraction | hoomd/BoxDim.h:276-304 | and coordinates the way to fractions and back |
| TriclinicBox.MoveFraction | hoomd/BoxDim.h:587-603 | a lattice vector changes one fraction by one and no other |
| TriclinicBox.WrapKeepsShift | hoomd/BoxDim.h:407-474 | wrapping leaves the shifted position unchanged, for all inputs and flags |
| TriclinicBox.Wrap | hoomd/BoxDim.h:407-474 | the axis-by-axis updates, with the shifted position unchanged |
| TriclinicBox.WrapFraction | hoomd/BoxDim.h:407-474 | in a fully periodic box every fraction wraps on its own although the axes are treated in turn |
| TriclinicBox.WrapsHomeExactly | hoomd/BoxDim.h:407-474 | fractions in [-1, 2) are taken into [0, 1) exactly when the tilt origin does not shift the tests |
| TriclinicBox.CentredWrapsHome | hoomd/BoxDim.h:411-423 | as in centred boxes and boxes without tilt |
| CellAdjacency.WrapIsModulo | hoomd/CellList.cc:374-388 | the fixed-up remainder is the modulus |
| CellAdjacency.RowCountExact | hoomd/CellList.cc:255-280 | every cell has as many distinct neighbours as the product of min(dim, 2 r + 1) over the axes |
| CellAdjacency.RowSymmetric | hoomd/CellList.cc:346-402 | adjacency is symmetric |
| CellAdjacency.GatherNeighbors | hoomd/CellList.cc:361-391 | the loops gather exactly the adjacent cells |
| CellAdjacency.InitializeAdjacency | hoomd/CellList.cc:346-402 | every row of the table lists its cell's neighbours in ascending order and is filled exactly |
| CellBins.DimensionFits | hoomd/CellList.cc:83-131 | cells are no narrower than the nominal width, unless there is one; their number is a multiple as asked, and no larger one would do |
| CellBins.LocateExactly | hoomd/CellList.cc:444-498 | for any periodic flags, exactly the positions in the box and in its margin of acceptance get a cell, and it is the cell that holds them, or the first beyond a face |
| CellBins.PaddedExactly | hoomd/BoxDim.h:276-284 | fractions of the box with its layers are below one exactly within the ghost width of the box along axes that are not periodic, and fractions of the box along the others |
| CellBins.GhostsHaveCells | hoomd/CellList.cc:83-131 | so every ghost within that width has a cell |
| CellBins.BoxIsCovered | hoomd/CellList.cc:444-498 | every particle of the box proper gets a cell |
| CloseCells.CloseAreAdjacent | hoomd/CellList.cc:83-131 | for any periodic flags, with ghost layers along the axes that are not periodic, accepted particles closer than the nominal width along every axis are in adjacent cells, for every radius of two or more, and for a radius of one if none is below the lower face or the margin is covered |
| CloseCells.NearAreAdjacent | hoomd/CellList.cc:444-498 | the same for positions in the box and its layers: those that get a cell and are closer than the nominal width have adjacent cells |
| CloseCells.CloseAdjacentExactly | hoomd/CellList.cc:444-498 | for a radius of one this holds for all close pairs exactly when every periodic axis has at most three cells or cells wide enough to cover the margin of acceptance |
| CloseCells.MarginMissed | hoomd/CellList.cc:444-498 | a box and two close particles, one just below the lower face, that are two cells apart |
| CellList.List.Fill | hoomd/CellList.cc:444-538 | one pass counts every cell, stores particles in order as far as slots go, and reports overflow and bad particles exactly |
| CellList.List.Compute | hoomd/CellList.cc:186-199 | at most two passes; then no cell overflows and all particles are stored; fails exactly for undefined positions and local particles outside, and names the last of them, undefined ones first |
| CellList.OneSlot | hoomd/CellList.cc:500-533 | every particle with a cell sits in exactly one slot, of that cell |
| CellStencil.NoCellMissed | hoomd/CellListStencil.cc:119-185 | for any flags, every cell that can be reached and has a point within the radius is listed modulo the periodic grid, at no larger distance, if the loop along x keeps what it needs |
| CellStencil.NoneMissedExactly | hoomd/CellListStencil.cc:119-185 | for a given grid and radius no such cell is missed exactly when z is not periodic or x is, or there is one cell along x, or half the grid along x spans the radius |
| CellStencil.NoCellTwice | hoomd/CellListStencil.cc:119-185 | for any flags, no cell is listed twice modulo the periodic grid if z is periodic or x is not or the loop along x is shorter than the grid |
| CellStencil.NoneTwiceExactly | hoomd/CellListStencil.cc:135-146 | for a given grid and radius that condition is the exact one |
| CellStencil.PairFound | hoomd/CellListStencil.cc:119-185 | a particle within the radius of another, in any image of the periodic axes, is in a listed cell if the loop along x keeps what it needs |
| CellStencil.EveryPairFoundExactly | hoomd/CellListStencil.cc:119-185 | every such pair is found exactly then |
| CellStencil.DistanceExactly | hoomd/CellListStencil.cc:150-172 | the distance of two cells is below a radius exactly when they have points closer than that |
| CellStencil.ComputeStencil | hoomd/CellListStencil.cc:105-186 | the loops list the cell itself first and then exactly the other stencil cells, each once, with its distance, none beyond the radius and none beside a flat system |
| CachedAllocator.SlackExactly | hoomd/CachedAllocator.h:178-184 | the bound in whole bytes that a block is tested against is the bound as a fraction of the request |
| CachedAllocator.Allocator.Evict | hoomd/CachedAllocator.h:209-224 | frees the largest blocks until the total is within the limit or none is left, and no more than needed |
| CachedAllocator.Allocator.Allocate | hoomd/CachedAllocator.h:166-232 | bytes balance; no live block is freed or handed out again; a hit is the smallest block that fits, the first of its size, and happens exactly when one exceeds the request by no more than the tolerated fraction of it; after a miss the total is within the limit or no free block is left, and no more free blocks are given up than that takes |
| CachedAllocator.Allocator.Deallocate | hoomd/CachedAllocator.h:90-103 | moves exactly that block to the free ones, behind those of its size; bytes balance |
| CachedAllocator.Returned | hoomd/CachedAllocator.h:90-103 | a returned block keeps the cache sorted, all blocks different and the byte count |

## Left out

- MigrateGroups: for fewer than 2^32 - 1 ranks, and without the first pass that initialises owners (`incomplete`) and the variant that keeps a group with its first member only (`local_multiple` false). Nothing is said about where a group ends up that is already held by the wrong ranks.
- LostGroup: from the first row or plane of a grid the missed wrap looks behind the end of the rank table (`MissedIndex`), where what the source reads is undefined; the model takes such an index for a rank outside the grid, so there this statement, `HeldForExactly` and `WholeGroupExactly` describe one possible outcome.
- MigrationDelivers: the bound of half the adjacent slab is sufficient, not necessary; further overshoots are conserved and may still be delivered, as long as no hop along another axis wraps them first.
- BuildTree: the empty list is excluded because the source reads the first box before testing the length; the invalid node index is modelled as -1, a leaf's arrays as sequences, and boxes and indices as one array of entries.
- Query: the number of overlap tests is bounded by the number of nodes only, and the height of the tree is not modelled.
- FindDecomposition: products do not wrap around.
- DimensionFits: a nominal width of zero, which the source refuses when the list is computed, is excluded; lengths are the given distances between faces.
- Compute: that an exception leaves the slot count raised without new memory is modelled, but nothing is promised about a list after a failure.
- Allocate: the tolerance is a real product; the device is a parameter that supplies an unused pointer; releasing a pointer that was not handed out is excluded, as the source asserts.
- WrapsBySlabsExactly: the global box has its centre at the origin, as boxes made from lengths and tilts do.
- MigrationInCoordinates: the steps are functions on the ranks' lists; the loops are modelled in fractions only.
- Decompose: node names are numbered in the order of the set of names; the broadcast of the tables is not modelled.
- WrapsHomeExactly: boxes of height zero, whose inverse length is infinite, are excluded; minimum-image and image computation are not modelled.
- RebuildTable: for a rank without particles the source takes the maximum of an empty range; the model uses zero.
- Message passing: buffers, requests and byte counts are replaced by a perfect exchange between the ranks that post and listen; the state of a rank is a value in a map, not memory updated in place.
- Ghost groups, bonded ghost plans that name both directions of an axis.
- Properties of particles other than tag, position and, for forces, one vector: velocities, charges, orientations and virials travel the same way.
- GPU variants, SIMD variants of the boxes, load balancing and fractions of unequal domains beyond given cuts, placement of particles at initialisation, file formats, integrators and potentials.
- Floating-point rounding and integer overflow other than the destination lookup.
