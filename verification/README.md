# The partition editor of GNU Parted, modelled in Dafny

This project models the partition-table editor of libparted
(`apps/parted/libparted/disk.c`) and four smaller state machines and codecs of
the parted program, and proves what they promise.

**The editor.** A disk is a doubly linked list of primary nodes, of which at
most one is extended and owns a second list, of logical nodes. Out of update
mode, placeholder nodes fill every gap; in update mode there are none. An edit
enters update mode, computes the window of free sectors around the request, lets
the label align the partition inside it, checks the result, relinks the
partition in sorted order, and leaves update mode, which allocates the
placeholders again. `Partition` and `Disk` (`Nodes.dfy`, `Disks.dfy`) are classes with the
links, geometries and counters of the original; their methods are proved against
functions on `Table` values (`Layout.dfy`, `Placement.dfy`, `Soundness.dfy`), and the invariants are
proved of those. `Runs.dfy` gives the edits a semantics on tables and proves it safe
for any number of steps; `Sessions.dfy` shows that the linked lists follow it. `Verdicts.dfy` says,
without the code's own checks, when a partition is placed and why not.
`Caveats.dfy` and `Placeholders.dfy` hold the cases in which a promise fails, with the exact condition.

What the label and the exception handler answer during a call is a parameter
(`Placement.Answers`): a number or none, an aligned geometry or none (used only if it
solves the constraint), acceptance, and whether each of the four exceptions is
ignored. An edit is *proper* when it adds active partitions only, orphans no
logicals, and comes to the same with a handler that ignores neither the overlap nor the end of the
device; the run theorems assume a disk that no longer needs
clobbering. `Runs.BoundedRun` gives conditions on the script alone, and
`Runs.AttemptsAreStrict` shows that a label which aligns by solving always meets the one at the end of the device. Without
these conditions the layout can break (`Caveats.ClobberOverlaps`, `Caveats.IgnoreOverlaps`,
`Caveats.IgnoreEndOfDevice`, `Caveats.MovedBeyondDevice`); `Caveats.AddSafeIff` and `Caveats.MoveSafeIff` say, over all
answers of the label, exactly when. The other two IGNOREs never matter for an aligned partition.

**Constraints** (`cs/natmath.c`, `cs/constraint.c`). `Solver.dfy` models the alignments with the extended
Euclidean algorithm that intersects them, and the solver by which most labels align
(`_ped_partition_attempt_align`), and says what it finds and what it misses.

**getopt** (`lib/getopt.c`). `OptionScan.Read` is a scan from left to right that never
moves anything; the resumable `Getopt.Scanner`, which permutes argv in place, is proved to
report the same events and to leave the documented arrangement. `OptionRoundTrip` says what every argument list means.

**Snapping** (`parted.c`), the **command-line tokenizer** (`ui.c`), the **JSON writer**
(`jsonwrt.c`), **CHS locations** (`unit.c`) and **UUID text** (`lib/uuid`) each have the method as in the
source, a declarative specification or an independent parser, and theorems
connecting the two.

Where code and documentation differ, the code is followed:

- `ped_disk_get_max_partition_geometry` says its last assertion "should never fail"
  (disk.c:2216-2219); it fails when the label does not accept the old geometry again
  (`Soundness.RestoreVerdict`, `Caveats.NotRestored`).
- `ped_disk_add_partition` says that a partition which is not added is left unmodified (disk.c:1901-1906); it keeps
  the geometry the label found before refusing it (`Verdicts.AddUnmodifiedIff`, `Caveats.RefusedModified`).
- `ped_disk_maximize_partition` promises a superset of the old geometry (disk.c:2130-2131);
  the caller's constraint may demand less (`Caveats.MaximizeGrowsIff`, `Caveats.MaximizeShrinks`).
- A failing `ped_disk_set_partition_geom` leaves the partition unchanged (disk.c:2066-2067), but an
  outermost one may leave placeholders of the rejected geometry (`Placeholders.StaleExactly`,
  `Caveats.RejectedHarms`).
- `_constraint_get_canonical_start_range` compares the last end, an index, with the smallest size
  (constraint.c:280-281), so that solving never finds a region of the smallest size from sector 0 to the last end
  (`Solver.WholeMissed`), and the comment in front of it (constraint.c:256-262) does not hold for a coarse end
  alignment (`Solver.GrainMissed`).
- `ped_constraint_solve_max` promises the largest region (constraint.c:397-402); with a limited size
  there may be a larger one (`Solver.LargerExists`).
- `ped_round_down_to` rounds a negative multiple down to the next one (natmath.c:56-68, `Alignments.RoundDownIff`);
  aligning to the nearest sector is not affected (`Solver.AlignNearestIs`).
- `strip_string` leaves every second space of a row, and repeats the last character (`Chs.StripString`).
- `ped_disk_get_partition_by_sector` "should never get here" for a sector of the device
  (disk.c:1621-1624); the first sector of an extended partition gets there.

The modules follow the source: `Geometry` (geom.c, constraint.c), `Alignments`, `Solver` (natmath.c, constraint.c), `Layout`, `Placement`, `Soundness`
(tables), `Nodes`, `Disks`, `Traversal`, `FreeSpace`, `UpdateMode`, `Edits`, `Resizing`, `Copying`
(disk.c), `Runs`, `Sessions` (runs of edits), `Verdicts`, `Caveats`, `Placeholders` (exact conditions), `Exchange`, `Getopt`,
`OptionScan`, `OptionRoundTrip`, `Snapping`, `CommandLine`, `CommandWords`, `Json`, `JsonWriter`, `JsonRoundTrip`, `Chs`, `Uuid`, `Characters`, `Decimals`, `Common`.

## Model

| member | source | states |
|---|---|---|
| Sessions.RunEdits | apps/parted/libparted/disk.c:1911-2268 | however many proper edits (add, set geometry, maximize, get the maximum geometry, delete, remove, minimize, delete all) are carried out on the linked lists, both stay well linked, update mode is left as found, their used nodes are what the table semantics says, and the placeholders are right exactly when FilledRun says so |
| Runs.LastSettles | apps/parted/libparted/disk.c:1051-1096 | after a run the placeholders are right exactly unless the last edit that left update mode was harmful: a failing set geometry, or get_max_partition_geometry not getting the old geometry back, with a rejected geometry that is not harmless |
| Runs.NoneSettles | apps/parted/libparted/disk.c:1911-1920 | a run of edits that never enter update mode leaves the placeholders as they were |
| Runs.RunHealthy | apps/parted/libparted/disk.c:1705-2127 | safety of whole runs: from a table whose lists are sorted, disjoint, in bounds, with at most one extended partition, every sequence of proper edits leads to such a table |
| Runs.StepHealthy | apps/parted/libparted/disk.c:1911-2268 | the same for one edit of any kind, successful or not; nothing is demanded of the attempts under an unrestricted constraint, of minimize, delete and delete all |
| Runs.MovesStrictlyIff | apps/parted/libparted/disk.c:2076-2111 | a move keeps the table healthy exactly when its outcome does not owe to an IGNORE at the end of the device |
| Runs.BoundedRun | apps/parted/libparted/disk.c:1880-1940 | a script is proper whatever states it leads through if each constraint ends on the device or the handler does not ignore that end, for adds under a constraint the overlap is not ignored either, and nothing but logicals is removed without being deleted |
| Runs.AttemptsAreStrict | apps/parted/libparted/disk.c:1141-1164 | nor does any move owe its outcome to an IGNORE when the label aligns by solving its own constraint with the caller's |
| Runs.GetMaxRestores | apps/parted/libparted/disk.c:2205-2220 | with such a label get_max_partition_geometry gets the old geometry back, and leaves the table as it was, exactly when that solves the label's constraint and its end is at least the smallest size (and not sector 0) |
| Runs.AddStepIff | apps/parted/libparted/disk.c:1785-1823 | exactly when a request for exactly g adds a partition: type supported, a slot left for a primary, an extended partition for a logical and none for an extended, room, and the label's consent |
| Runs.RunWithinLimit | apps/parted/libparted/disk.c:1802-1809 | no run leaves more primaries than the label allows |
| Runs.GrantedSetGeom | apps/parted/libparted/disk.c:2076-2127 | set geometry goes to the geometry that is granted, or nowhere |
| Runs.GrantedSteps | apps/parted/libparted/disk.c:2135-2187 | maximize tries the largest request first and then the old geometry, and goes where it is granted, or nowhere |
| Runs.GrantedGetMax | apps/parted/libparted/disk.c:2195-2222 | get_max_partition_geometry undoes what was granted exactly if the label accepts the old geometry |
| Runs.GrantedMinimize | apps/parted/libparted/disk.c:2231-2268 | minimize goes to what is granted for the hull of the logicals, and without logicals removes the extended partition |
| Runs.HarmsIff | apps/parted/libparted/disk.c:2113-2126 | a rejected set geometry is harmful exactly when the solution the label found, or the request if it found none, is not harmless; one that meets no window never is |
| Runs.UnalignedHarms | apps/parted/libparted/disk.c:2113-2126 | a concrete rejected set geometry, 0..19 for a partition at 0..9 when the label finds nothing, that is harmful |
| Sessions.Perform | apps/parted/libparted/disk.c:1911-2268 | one edit on the lists refines one step on the table, on success and on failure, and says whether the placeholders are right afterwards |
| Sessions.PerformSetGeom | apps/parted/libparted/disk.c:2076-2127 | refinement for set geometry; a failing one leaves the used nodes as they were; the disk is filled exactly if the move was placed or the rejected geometry was harmless, and as before if start > end |
| Sessions.PerformMaximize | apps/parted/libparted/disk.c:2135-2187 | refinement for maximize, with its attempt to restore after a failure |
| Sessions.PerformGetMax | apps/parted/libparted/disk.c:2195-2222 | refinement for get_max_partition_geometry: table unchanged, restored, or grown, and whether the placeholders are right then |
| Sessions.PerformRemove | apps/parted/libparted/disk.c:1980-1992 | refinement for remove, of anything but an extended partition with logicals, on which the code asserts |
| Sessions.PerformDelete | apps/parted/libparted/disk.c:2001-2015 | refinement for delete; an extended partition takes its logicals with it |
| Sessions.PerformAddPart | apps/parted/libparted/disk.c:1911-1969 | refinement for add, also of a partition that was removed before, with stale links, to a list that is not empty; a refused partition changes nothing; a sane request, placed or not, leaves the disk filled |
| Sessions.PerformMinimize | apps/parted/libparted/disk.c:2231-2268 | refinement for minimize in all three cases: no extended partition, an empty one, one with logicals |
| Sessions.ReadyTiled | apps/parted/libparted/disk.c:1008-1043 | between edits the two lists cover the device and the extended partition exactly |
| Sessions.PopThenPush | apps/parted/libparted/disk.c:1051-1096 | placeholders allocated by a pop are stripped again by the next push: same lists, same head, same prev and next, same geometries |
| Sessions.PushThenPop | apps/parted/libparted/disk.c:1051-1096 | allocating again after stripping gives the same placeholder intervals |
| Sessions.SameLinks | apps/parted/libparted/disk.c:1645-1700 | two well-linked states of the same lists agree in every link |
| Nodes.LinkBefore | apps/parted/libparted/disk.c:1645-1664 | inserting before a node keeps prev and next in step with the list, which gains the node at that place |
| Nodes.LinkAfter | apps/parted/libparted/disk.c:1666-1679 | the same for inserting behind a node |
| Nodes.Unlink | apps/parted/libparted/disk.c:1681-1700 | removal keeps the others linked and leaves the removed node's own links stale |
| Disks.RawRemove | apps/parted/libparted/disk.c:1681-1700 | exactly that node leaves its list, the other list and the node's own links are untouched, and the owner of the logical list may be detached meanwhile |
| Disks.FindPlace | apps/parted/libparted/disk.c:1705-1724 | the search stops at the first sibling that starts behind the end of the new partition |
| Disks.RawAdd | apps/parted/libparted/disk.c:1705-1737 | the partition is linked at its place in sorted order; an empty list demands null links, because then they are not written |
| Disks.ExtendedPartition | apps/parted/libparted/disk.c:1519-1529 | the search finds the one extended node, also while it is detached |
| Disks.ExtIsOwner | apps/parted/libparted/disk.c:1519-1529 | the owner of the logical list is the first extended slot of the primary list |
| Traversal.NextPartition | apps/parted/libparted/disk.c:1540-1556 | from any position of the depth-first order to the next one |
| Traversal.VisitAll | apps/parted/libparted/disk.c:1540-1556 | repeated calls from NULL end, having visited the depth-first order |
| Traversal.DfsMeetsAll | apps/parted/libparted/disk.c:1540-1556 | that order has every node once: the primaries in order, the logicals in order directly behind their extended partition |
| Traversal.PrimaryPartitionCount | apps/parted/libparted/disk.c:615-629 | the number of active primaries, though the walk meets logicals too |
| Traversal.SectorHolder | apps/parted/libparted/disk.c:1608-1626 | on a tiled disk every sector has one non-extended node, except the first sector of an extended partition where no logical begins, which has none |
| Traversal.GetPartitionBySector | apps/parted/libparted/disk.c:1608-1626 | a node is returned only if it holds the sector and NULL only if none does; on a tiled disk NULL exactly at that one sector |
| FreeSpace.RemoveFreespace | apps/parted/libparted/disk.c:951-966 | exactly the placeholders leave both lists; order, links and geometries of the others stay |
| FreeSpace.DfsMinus | apps/parted/libparted/disk.c:951-966 | unlinking a node during the sweep takes it, and nothing else, out of the traversal |
| FreeSpace.AllocExtendedFreespace | apps/parted/libparted/disk.c:968-1006 | the logical list is filled from the sector behind the extended's first one |
| FreeSpace.AllocPrimaryFreespace | apps/parted/libparted/disk.c:1008-1043 | the primary list is filled from sector 0 |
| FreeSpace.AllocFreespace | apps/parted/libparted/disk.c:1008-1043 | the used nodes are the old ones, and the placeholders are those of their geometries |
| Layout.FillTiles | apps/parted/libparted/disk.c:1008-1043 | the filled list is contiguous and covers its range exactly once |
| Layout.FillTilesLogicals | apps/parted/libparted/disk.c:968-1006 | the logical list covers extended.start + 1 to extended.end, and extended.start exactly if a logical begins there |
| Layout.FilledIsTiled | apps/parted/libparted/disk.c:1008-1043 | filling any sound table tiles the device and the extended partition |
| Layout.TiledOwner | apps/parted/libparted/disk.c:1008-1043 | each sector of a tiled range lies in exactly one slot |
| Layout.FillStrip | apps/parted/libparted/disk.c:951-966 | stripping what was allocated gives back the list |
| Layout.FillUnique | apps/parted/libparted/disk.c:968-1043 | the placeholders are the only possible ones: any exact cover without adjacent placeholders is the filled list of its used slots |
| UpdateMode.Push | apps/parted/libparted/disk.c:1051-1070 | nested or not, the lists lose their placeholders, and outermost the metadata too; the counter goes up by one |
| UpdateMode.BaseIs | apps/parted/libparted/disk.c:1051-1070 | what an outermost push leaves of a list are exactly its active nodes |
| UpdateMode.Pop | apps/parted/libparted/disk.c:1072-1096 | the counter goes down by one; outermost, both lists are filled |
| UpdateMode.RemoveMetadata | apps/parted/libparted/disk.c:921-940 | exactly the metadata nodes go, although each deletion enters update mode again |
| UpdateMode.RemovePartition | apps/parted/libparted/disk.c:1980-1992 | that partition goes, nothing else; the mutual recursion with push ends |
| UpdateMode.DeletePartition | apps/parted/libparted/disk.c:2001-2015 | the partition goes, with all its logicals if it is extended |
| UpdateMode.DeleteAllLogical | apps/parted/libparted/disk.c:2017-2033 | no logical is left, the primary list is as it was |
| Copying.DeleteAll | apps/parted/libparted/disk.c:2040-2062 | no used node is left; outside update mode one placeholder covers the device |
| Copying.NewFresh | apps/parted/libparted/disk.c:343-367 | a fresh disk is one placeholder, out of update mode |
| Copying.DuplicateDisk | apps/parted/libparted/disk.c:233-268 | whatever the original's layout, overlaps included: the copy has its active slots, each linked behind those met before, shares no node with it, is filled, and the original is unchanged |
| Copying.RebuiltPermutes | apps/parted/libparted/disk.c:1705-1737 | linking slots one after the other loses and invents none |
| Copying.RebuiltInOrder | apps/parted/libparted/disk.c:1705-1737 | linking valid slots one after the other reproduces a list exactly when none of its slots lies wholly behind a later one |
| Copying.RebuiltSound | apps/parted/libparted/disk.c:233-268 | so the copy of a sound table has the same table |
| Copying.DuplicateDfs | apps/parted/libparted/disk.c:233-268 | when it has the same table, the copy's active nodes have, in depth-first order, the original's types and geometries |
| Copying.OwnerFirst | apps/parted/libparted/disk.c:246-254 | a logical is copied only after its extended partition |
| Copying.AddDuplicatePart | apps/parted/libparted/disk.c:200-226 | a node of its own with the same slot is linked in order |
| Geometry.NarrowSolutions | apps/parted/libparted/cs/constraint.c:181-230 | a region solves the narrowed constraint exactly when it solves the caller's and lies in the window |
| Alignments.RoundDownIff | apps/parted/libparted/cs/natmath.c:56-68 | rounding down gives a multiple not above the sector, and the largest one exactly unless the sector is a negative multiple itself |
| Alignments.RoundUpIs | apps/parted/libparted/cs/natmath.c:70-78 | rounding up gives the smallest multiple not below the sector |
| Alignments.EuclidIs | apps/parted/libparted/cs/natmath.c:177-193 | a positive common divisor, as a combination of both numbers |
| Alignments.IntersectIsBoth | apps/parted/libparted/cs/natmath.c:270-313 | a sector satisfies the intersection if and only if it satisfies both alignments |
| Alignments.IntersectNone | apps/parted/libparted/cs/natmath.c:270-313 | and there is none exactly when no sector satisfies both |
| Solver.AlignNearestIs | apps/parted/libparted/cs/natmath.c:315-416 | an aligned sector of the geometry with no closer one, and -1 exactly when there is none |
| Solver.IntersectSolutions | apps/parted/libparted/cs/constraint.c:181-230 | a region satisfies the intersection of two constraints if and only if it satisfies both |
| Solver.NarrowIsIntersect | apps/parted/libparted/disk.c:1926-1928 | intersecting with the overlap window is narrowing, as the editor's verdicts have it |
| Solver.RangesValid | apps/parted/libparted/cs/constraint.c:264-338 | the two ranges set without checking the result are never empty |
| Solver.SolveSound | apps/parted/libparted/cs/constraint.c:371-396 | the final assertion holds: a solution of the constraint, ending on the device |
| Solver.SolveMisses | apps/parted/libparted/cs/constraint.c:302-396 | a solution is missed only if an aligned start of the start range, no farther from the request, has no end |
| Solver.SolveNearest | apps/parted/libparted/cs/constraint.c:343-396 | the solution nearest to the request by its start, and for that start by its end |
| Solver.SolveKeeps | apps/parted/libparted/cs/constraint.c:371-396 | a geometry that solves the constraint already is the result, unless the last end is below the smallest size, and then there is none |
| Solver.SolveFindsIff | apps/parted/libparted/cs/constraint.c:256-262 | the comment's claim, that all aligned sectors of the start range have an end, is true exactly when solving succeeds for every request as soon as there is an aligned start |
| Solver.RoomyFinds | apps/parted/libparted/cs/constraint.c:371-396 | when the sizes span a grain of the end alignment, solving succeeds exactly if there is a solution and the last end is not below the smallest size |
| Solver.StartRangeHolds | apps/parted/libparted/cs/constraint.c:264-296 | every solution starts in the start range, exactly unless the last end is one below the smallest size, where the code is off by one |
| Solver.WholeMissed | apps/parted/libparted/cs/constraint.c:279-282 | a concrete constraint, the whole of a hundred sectors, that has a solution and never finds it |
| Solver.GrainMissed | apps/parted/libparted/cs/constraint.c:256-262 | a concrete constraint and request for which the claim of the comment fails and a solution is missed |
| Solver.SolveMaxHolds | apps/parted/libparted/cs/constraint.c:403-412 | without a limit on the size, a constraint with a solution gives a result, containing every solution, unless the last end is below the smallest size |
| Solver.LargerExists | apps/parted/libparted/cs/constraint.c:403-412 | a concrete constraint with such a limit for which a larger solution exists |
| Solver.AttemptSolves | apps/parted/libparted/disk.c:1141-1164 | what a label makes of a geometry by solving satisfies the caller's constraint and its own, and ends on the device |
| Solver.AttemptNearest | apps/parted/libparted/disk.c:1141-1164 | no solution of both constraints on the device starts nearer to the request, and none with the same start ends nearer |
| Solver.AttemptFinds | apps/parted/libparted/disk.c:1141-1164 | when the sizes span a grain of the end alignment and the last end is not below the smallest size, it finds a region exactly if both constraints have a common solution |
| Solver.AttemptExact | apps/parted/libparted/disk.c:1141-1164 | asked for one geometry exactly, such a label answers it if and only if it solves the label's constraint and its end is at least the smallest size (and not sector 0) |
| Placement.WindowMeaning | apps/parted/libparted/disk.c:1739-1783 | the window is a maximal interval free of all other siblings, reaches up to the sector in front of the requested start, has no other such interval in front of it, contains the start whenever that is free, and is missing only when no free sector is left |
| Placement.WindowUnique | apps/parted/libparted/disk.c:1739-1783 | it is the first maximal free interval that reaches up to the sector in front of the requested start, and no other interval is |
| Placement.WindowIgnoresSelf | apps/parted/libparted/disk.c:1739-1783 | the window does not depend on whether, or where, the partition itself is linked |
| Edits.OverlapWindow | apps/parted/libparted/disk.c:1739-1783 | the walk over the linked siblings computes that window |
| Placement.InsertKeepsOrder | apps/parted/libparted/disk.c:1705-1737 | linking into free sectors keeps a list sorted and disjoint |
| Placement.InsertBack | apps/parted/libparted/disk.c:1705-1737 | a sorted list determines the place of each of its members |
| Edits.CheckBasicSanity | apps/parted/libparted/disk.c:1785-1823 | accepts exactly the types the label supports, with a slot left and an extended partition for a logical |
| Edits.CheckExtended | apps/parted/libparted/disk.c:1825-1852 | accepts exactly the one extended partition, with all logicals inside |
| Edits.CheckPartition | apps/parted/libparted/disk.c:1854-1896 | accepts exactly what the table-level checks accept, for linked and unlinked partitions |
| Verdicts.CheckedIff | apps/parted/libparted/disk.c:1854-1896 | a partition passes exactly when every exception it draws is ignored, the label accepts it, and an extended one has no rival and holds all logicals |
| Verdicts.AddPlacedIff | apps/parted/libparted/disk.c:1911-1969 | an aligned partition is placed at h exactly when a number is given, the label answers h, a solution within the window with room for it, and accepts it, and it is no second extended partition |
| Verdicts.AddAlignedIff | apps/parted/libparted/disk.c:1911-1969 | the same for every handler: a constraint that misses the window counts alone if that is ignored |
| Verdicts.AddExactIff | apps/parted/libparted/disk.c:1911-1969 | a request for exactly g succeeds exactly where g fits, a new extended partition included, given the label's consent |
| Verdicts.AddFails | apps/parted/libparted/disk.c:1930-1940 | each failure has its exact cause: no common sector of window and constraint, no number, no solution found |
| Verdicts.AddUnmodifiedIff | apps/parted/libparted/disk.c:1901-1906 | a partition that is refused keeps its geometry exactly if the label found no other one for it |
| Verdicts.MetadataPlacedIff | apps/parted/libparted/disk.c:1911-1969 | metadata is placed where it is asked for exactly when it passes the checks |
| Verdicts.ClobberPlacedIff | apps/parted/libparted/disk.c:868-871 | so is an active partition while the device needs clobbering, if the constraint meets the window or missing it is ignored |
| Verdicts.MovePlacedIff | apps/parted/libparted/disk.c:2092-2111 | a partition is moved to h exactly when the label answers h, a solution within the window around it, there is room, around the logicals if it is extended, and the label accepts it |
| Verdicts.MoveFails | apps/parted/libparted/disk.c:2092-2106 | the exact cause of each failure to move |
| Verdicts.MoveClobberIff | apps/parted/libparted/disk.c:868-871 | a move while the device needs clobbering goes where it is asked to, once it passes the checks |
| Edits.AddPartition | apps/parted/libparted/disk.c:1911-1969 | success, the geometry the partition is left with, its place in the list and the resulting table follow from the request and the answers; update mode is restored; on failure the used nodes are as they were; links are demanded to be null only for an empty list |
| Edits.SetPartitionGeom | apps/parted/libparted/disk.c:2076-2127 | success or failure follows from window, constraint, alignment and checks; on success the partition is relinked in order and the disk filled; on failure the used nodes are as they were and the placeholders are those of the rejected geometry |
| Edits.MovePushed | apps/parted/libparted/disk.c:2092-2111 | the same between push and pop, with the geometry each failure leaves for the moment |
| Soundness.AddedSound | apps/parted/libparted/disk.c:1705-1737 | a slot may be linked exactly where the table has room for it |
| Soundness.AddKeepsSound | apps/parted/libparted/disk.c:1911-1969 | a partition placed by add keeps the layout sound, as long as its verdict does not owe to an IGNORE at the overlap or at the end of the device |
| Soundness.AddIsStrict | apps/parted/libparted/disk.c:1930-1940 | which holds when the constraint meets the window or missing it is not ignored, and the constraint ends on the device or its end is not ignored |
| Soundness.MovedSound | apps/parted/libparted/disk.c:2109-2111 | relinking into free sectors keeps the layout sound, an extended partition around its logicals included |
| Soundness.MoveKeepsSound | apps/parted/libparted/disk.c:2076-2127 | a partition placed by set geometry keeps the layout sound, as long as its verdict does not owe to an IGNORE at the end of the device |
| Soundness.MoveIsStrict | apps/parted/libparted/disk.c:1880-1889 | which holds for a logical, without a constraint, under one that ends on the device, and whenever that is not ignored |
| Soundness.RemovedSound | apps/parted/libparted/disk.c:1980-1992 | unlinking keeps the layout sound unless it orphans logicals |
| Resizing.MaxRequestIsLargest | apps/parted/libparted/disk.c:2159-2174 | the request is the largest geometry around the partition that fits |
| Resizing.MaximizeVerdict | apps/parted/libparted/disk.c:2159-2174 | it is granted as soon as the label accepts it and the caller's constraint allows it |
| Resizing.MaximizePartition | apps/parted/libparted/disk.c:2135-2187 | outcome in all cases: maximized, restored, or unchanged; update mode is restored and the disk filled |
| Soundness.WindowHoldsOld | apps/parted/libparted/disk.c:2205-2215 | the window recomputed around a moved partition contains the geometry it had before |
| Soundness.MovedBack | apps/parted/libparted/disk.c:2109-2111 | moving back undoes moving, order included |
| Soundness.RestoreVerdict | apps/parted/libparted/disk.c:2205-2220 | asking for exactly the old geometry back succeeds if and only if the label accepts it, and then the table is what it was |
| Resizing.GetMaxPartitionGeometry | apps/parted/libparted/disk.c:2195-2222 | succeeds exactly when the largest request is placed, and returns the placed geometry; on failure the lists are as maximize leaves them; on success, if the label accepts the old geometry, the lists, their order and the placeholders are exactly as before and the final assertion holds, and if it does not, the partition stays grown, relinked in order, among the placeholders of the old geometry; the assertion holds exactly if the geometry is the old one |
| Resizing.HullIsSmallest | apps/parted/libparted/disk.c:2245-2262 | the requested range is the smallest with all logicals inside |
| Resizing.HullVerdict | apps/parted/libparted/disk.c:2245-2262 | minimizing succeeds as soon as the label accepts that range |
| Resizing.MinimizeExtended | apps/parted/libparted/disk.c:2231-2268 | outcome in all cases; without logicals the extended partition is deleted; update mode is restored |
| Caveats.AddSoundIff | apps/parted/libparted/disk.c:1911-1969 | a placed partition keeps the layout sound exactly when its geometry fits; when alignment is skipped (device to be clobbered, or metadata) that geometry is the request |
| Caveats.AddSafeIff | apps/parted/libparted/disk.c:1926-1940 | aligned adding is safe for every answer of the label exactly when neither failing branch has an input: IGNORE at the end of the device with a solution inside the window that reaches beyond it, or IGNORE at the overlap with no window for the constraint and a solution where there is no room |
| Caveats.MovedSoundIff | apps/parted/libparted/disk.c:2109-2111 | a move keeps the layout sound exactly when the new place fits and an extended partition still holds its logicals |
| Caveats.MoveSafeIff | apps/parted/libparted/disk.c:2076-2111 | aligned moving is safe for every answer of the label exactly when the one failing branch has no input: a primary, IGNORE at the end of the device, and a solution inside the window that reaches beyond it |
| Caveats.MovedBeyondDevice | apps/parted/libparted/disk.c:1880-1889 | a concrete move beyond the end of the device after IGNORE, refused without it |
| Caveats.ClobberOverlaps | apps/parted/libparted/disk.c:868-871 | a concrete overlap while the device needs clobbering |
| Caveats.IgnoreOverlaps | apps/parted/libparted/disk.c:1930-1937 | a concrete overlap after IGNORE, refused without it |
| Caveats.IgnoreEndOfDevice | apps/parted/libparted/disk.c:1880-1889 | a concrete partition beyond the end of the device after IGNORE, refused without it |
| Caveats.RefusedModified | apps/parted/libparted/disk.c:1901-1906 | a concrete partition that is not added and yet modified |
| Caveats.StaleTableIff | apps/parted/libparted/disk.c:2113-2126 | placeholders computed for one geometry of a partition are right for another exactly when both clip alike to the free sectors between the neighbours (and, for an extended partition, around its logicals) |
| Caveats.RejectedHarms | apps/parted/libparted/disk.c:2113-2126 | a concrete rejected geometry that leaves sectors without a node |
| Caveats.MaximizeGrowsIff | apps/parted/libparted/disk.c:2129-2174 | maximizing yields a superset for every answer of the label exactly when every solution of the caller's constraint inside the window that passes the checks contains the partition |
| Caveats.MaximizeGrowsFrom | apps/parted/libparted/disk.c:2129-2174 | in particular when the constraint's start range ends no later than the partition starts and its end range starts no earlier than it ends |
| Caveats.MaximizeShrinks | apps/parted/libparted/disk.c:2129-2174 | a concrete caller's constraint, exactly 3..4, under which maximizing shrinks 0..9 |
| Caveats.NotRestored | apps/parted/libparted/disk.c:2205-2219 | a concrete label answer for which the old geometry does not come back and the last assertion fails |
| Placeholders.StaleExactly | apps/parted/libparted/disk.c:2113-2126 | after a failing outermost set geometry the disk is filled exactly under that condition on the rejected geometry |
| Exchange.Rotate | apps/parted/lib/getopt.c:107-147 | terminates; the two blocks change over, each in its own order, nothing outside the range changes |
| Getopt.Scanner.ExchangeArgs | apps/parted/lib/getopt.c:107-152 | and the records describe the moved non-options |
| Getopt.LayoutRotated | apps/parted/lib/getopt.c:107-152 | the exchange keeps argv consistent with what was read so far |
| Getopt.Scanner.MatchLong | apps/parted/lib/getopt.c:175-250 | the two searches find the exact name, or else the unique abbreviation |
| OptionScan.MatchUnique | apps/parted/lib/getopt.c:175-250 | exact match, unambiguous abbreviation, ambiguity and no match exclude each other |
| Getopt.Scanner.ProcessLongOption | apps/parted/lib/getopt.c:162-321 | one long option, from -- or from -W, as the left-to-right scan reads it |
| Getopt.Scanner.ProcessShortOption | apps/parted/lib/getopt.c:534-620 | one character of a cluster, W; included, as the left-to-right scan reads it |
| Getopt.Scanner.SkipNonOptions | apps/parted/lib/getopt.c:445-463 | exchange and skip keep argv consistent, and stop at the first option element |
| Getopt.Scanner.EndOptions | apps/parted/lib/getopt.c:465-483 | -- ends the options: what is read stands in front, all that follows is left over |
| Getopt.Scanner.Next | apps/parted/lib/getopt.c:411-621 | in every ordering mode each call reports the next event of the scan and can be resumed; at -1 argv is rearranged and optind points at what is left |
| Getopt.ScanAll | apps/parted/parted/parted.c:2320-2362 | over a whole run the codes and arguments are those of a scan of the original argv that never moves anything, up to an option whose value is -1 if one is met; argv is a permutation, finally with everything read in front, in original order, and the rest behind, in original order |
| OptionScan.PickPermutes | apps/parted/lib/getopt.c:107-152 | sorting by kind loses and invents nothing |
| OptionScan.CodesDiffer | apps/parted/parted/parted.c:2325-2327 | a table without the value -1 never yields it, so that -1 means the end |
| OptionRoundTrip.ReadWritten | apps/parted/lib/getopt.c:355-400 | in every ordering mode, however clusters, long options, faults and operands are mixed: each item is reported as what it means, with its argument or its fault ('?', or ':' for a missing argument if the string starts so), and argv ends as what is taken, in order, and what is left over, in order |
| OptionRoundTrip.EveryList | apps/parted/lib/getopt.c:355-400 | there is no other argument list: each one is written in items of these kinds |
| OptionRoundTrip.ArityDeclared | apps/parted/lib/getopt.c:360-385 | an option string is read as the options were declared, the first declaration of a character first, with or without a leading colon |
| OptionRoundTrip.PartedLacks | apps/parted/parted/parted.c:2320-2362 | parted -a is a fault, not an option without its argument |
| Getopt.LeadingMark | apps/parted/lib/getopt.c:332-350 | a leading '-' or '+' sets the order and is no option, and so does the environment |
| Snapping.PreferSnap | apps/parted/parted/parted.c:297-342 | the nearest boundary among the allowed ones in range, draws as documented; the distance is never negative |
| Snapping.ChooseMoves | apps/parted/parted/parted.c:375-408 | both ends by themselves, and when both would cross an adjacent boundary the farther one refrains |
| Snapping.SnapBest | apps/parted/parted/parted.c:375-408 | no allowed boundary of either end is nearer than the nearer of the two that are taken, and each end takes its nearest unless they would cross |
| Snapping.SnapRegion | apps/parted/parted/parted.c:352-421 | without an old geometry, as the one caller at line 674 has it, all assertions hold; with one, the ranges hold always and the order exactly when the end that is not fixed goes, by its own nearest boundary, to the right side of the fixed one |
| Snapping.OldGeometryCrosses | apps/parted/parted/parted.c:366-373 | an old geometry, which no caller passes at present, for which the last assertion would fail |
| Snapping.NodesApart | apps/parted/parted/parted.c:363-365 | on a tiled disk different nodes of start and end are apart |
| Snapping.SnapToBoundaries | apps/parted/parted/parted.c:352-421 | on a tiled disk the lookups succeed exactly off the one sector without a node, and then the result is in its ranges and in order |
| CommandLine.WordList.PushLine | apps/parted/parted/ui.c:688-737 | the tokenizer terminates on every line and appends exactly the words of the line |
| CommandWords.LineWords | apps/parted/parted/ui.c:688-737 | words of bare text and quoted parts, escapes included, come back as their values, with any blanks around and one or more between them; marks and backslashes mean what they should |
| CommandWords.LastUnclosed | apps/parted/parted/ui.c:710-737 | an unclosed quote takes the rest of the line into its word |
| CommandWords.SingleWord | apps/parted/parted/ui.c:678-737 | in single-word mode blanks in front and white space behind go, blanks inside stay, and the empty line is a word |
| CommandWords.BareChunks | apps/parted/parted/ui.c:700-737 | bare text of any length comes back in pieces of 255 characters |
| CommandLine.RoundTripIff | apps/parted/parted/ui.c:688-737 | quoting words and tokenizing the line gives the same words, empty ones included, exactly when each is at most 254 characters long |
| CommandLine.LongWordSplits | apps/parted/parted/ui.c:700-737 | a concrete word of 255 characters that does not come back alone |
| CommandLine.CountTokens | apps/parted/parted/ui.c:700-737 | every quoted word gives at least one token, a longer one at least two |
| JsonWriter.Writer.PutQuoted | apps/parted/parted/jsonwrt.c:32-100 | writes the quoted, escaped and case-mapped form of a string |
| JsonWriter.Writer.Open | apps/parted/parted/jsonwrt.c:119-146 | separators, indentation and name as the state demands |
| JsonWriter.Writer.Close | apps/parted/parted/jsonwrt.c:148-175 | closes, or reports the failing assertion, and changes nothing then |
| JsonWriter.Writer.Write | apps/parted/parted/jsonwrt.c:119-218 | the pre-order calls for a value |
| JsonRoundTrip.ParseEscaped | apps/parted/parted/jsonwrt.c:32-100 | an escaped string is read back, in the case that was asked for (section 7 of RFC 8259) |
| JsonRoundTrip.EmitsText | apps/parted/parted/jsonwrt.c:119-175 | what the calls for a container, or for a value inside one, write and leave of the state |
| JsonRoundTrip.IndentIs | apps/parted/parted/jsonwrt.c:112-117 | three blanks for each open container |
| JsonRoundTrip.LayoutExample | apps/parted/parted/jsonwrt.c:119-175 | a concrete text with its commas, line ends, blanks and brackets |
| JsonRoundTrip.ParseWhole | apps/parted/parted/jsonwrt.c:119-218 | the text of any value is read back as that value with its names in lower case (sections 4, 5 and 7 of RFC 8259) |
| JsonRoundTrip.RootRoundTrip | apps/parted/parted/jsonwrt.c:148-175 | for a root object the assertion in close holds exactly when no scalar stands directly under the root, and then the whole text is read back as the same tree |
| JsonRoundTrip.ScalarUnderRoot | apps/parted/parted/jsonwrt.c:148-155 | a concrete scalar under the root for which the assertion fails |
| JsonRoundTrip.WriteRoot | apps/parted/parted/jsonwrt.c:106-218 | the same for the stateful writer |
| Chs.IsChs | apps/parted/libparted/unit.c:308-315 | exactly two punctuation characters |
| Chs.PunctIff | apps/parted/libparted/unit.c:299-306 | punctuation is what can be seen but for letters and digits |
| Chs.RemovePunct | apps/parted/libparted/unit.c:299-306 | in place, punctuation becomes blanks and nothing else changes |
| Chs.StripString | apps/parted/libparted/unit.c:279-289 | in place; each space gives way to the character behind it, which is not looked at itself, and the end is filled up with the last character |
| Chs.SqueezedDrops | apps/parted/libparted/unit.c:279-289 | all spaces are dropped exactly when each is followed by another character |
| Chs.StripsNothing | apps/parted/libparted/unit.c:279-289 | the text without its spaces is left exactly if there were none |
| Chs.ParseChs | apps/parted/libparted/unit.c:317-370 | accepts, refuses or overflows as the three numbers of the stripped text and the device demand, for every text |
| Chs.WrittenParses | apps/parted/libparted/unit.c:317-370 | three numerals with any punctuation in front of and between them, and anything behind them, are a location of these three numbers |
| Chs.LocatedIff | apps/parted/libparted/unit.c:336-362 | three numbers are accepted exactly when a sector of the device has them as its cylinder, head and sector |
| Chs.FormatParses | apps/parted/libparted/unit.c:178-184 | the text printed for a sector is a CHS text and is read back as that sector, with a range of that sector alone |
| Chs.ParseFormats | apps/parted/libparted/unit.c:317-370 | an accepted text names a sector of the device whose own text has the same three numbers |
| Chs.GeometryFromCentreRadius | apps/parted/libparted/unit.c:380-388 | the part of the range that lies on the device, and nothing when there is none |
| Uuid.Parse | apps/parted/lib/uuid/uuid_parse.c:43-126 | accepts exactly the texts of section 3 of RFC 4122 and stores the sixteen pairs of digits in order; a refused text stores nothing |
| Uuid.Pack | apps/parted/lib/uuid/uuid_parse.c:51-80 | fields are stored most significant byte first (section 4.1.2 of RFC 4122) |
| Uuid.FieldPairs | apps/parted/lib/uuid/uuid_parse.c:51-126 | so each byte is one pair of digits |
| Uuid.Unparse | apps/parted/lib/uuid/uuid_unparse.c:40-53 | dashes and digit pairs stand at their places |
| Uuid.UnparseParses | apps/parted/lib/uuid/uuid_unparse.c:55-61 | either form of any sixteen bytes is accepted and denotes these bytes and no others |
| Uuid.ParseUnparses | apps/parted/lib/uuid/uuid_unparse.c:55-57 | the lower-case form of what an accepted text denotes is that text in lower case |

## Left out

- Label code: alignment, checks and numbering are answers, with `Solver.AttemptAlign` for the alignment most labels use; `alloc_metadata` does nothing, as in labels/aix.c:163, and the guard in `_disk_alloc_metadata` (disk.c:945-946) never fires, because pop calls it in update mode.
- Partition numbers, names, flags and file systems: they do not take part in the layout; `ped_disk_enumerate_partitions` is part of the label's answers.
- Failure of malloc, `ped_partition_destroy`, commit, probing, clobbering, device access.
- The PROTECTED bit of a partition type (it never occurs together with the types that are compared), and the type check of `_disk_check_sanity`, which is compiled only for debugging.
- A label whose align step succeeds without solving the constraint, like `aix_partition_align` (labels/aix.c:153-157): an aligned geometry is used only if it solves the constraint (disk.c:1141-1164). A partition that such a label leaves where it was is the case of `Caveats.AddSoundIff` without alignment.
- Disks.RawAdd: demands null links of a partition that enters an empty list, because the code does not write them; a part that was unlinked from a longer list and then added to an empty one would keep stale links.
- Edits.SetPartitionGeom: demands a start that is not negative, as the assertion in cs/geom.c:146 does.
- Edits.AddPartition: says nothing about the number of a refused partition.
- Resizing.GetMaxPartitionGeometry: demands an update mode or lists as the other edits do; the allocation of the returned geometry is a value here.
- Alignments.IntersectIsBoth: demands grains that fit an int, the type of extended_euclid's parameters; the products of ped_alignment_intersect are unbounded here.
- Runs.Proper: adding metadata nodes by hand is not part of a run; `Caveats.AddSoundIff` covers a single one.
- Sessions.RunEdits: names a partition by its place in its list, not by its number.
- Integer widths in the editor: sectors are unbounded; the one constant that matters, LLONG_MAX - 1 as the end of the room for primaries, is kept, and devices are no longer than LLONG_MAX.
- getopt: codes are the characters' values; C returns a signed char, which is negative above 127.
- getopt: error messages, `flag` pointers (NULL in parted's table), `longind` and long_only.
- Getopt.Scanner.Next: a caller that moves optind back between calls is not modelled, apart from optind 0, which starts over on the arguments as they stand.
- Getopt.ScanAll: demands a program name; with argc 0 `Getopt.Scanner.Next` just reports the end.
- Snapping.SnapRegion: for an old geometry, which no caller passes, the condition for the order names the place where the free end goes rather than bounds on the two nodes.
- Snapping.SnapToBoundaries: reports a lookup that finds no node as a missing result, where the code would dereference NULL; requests outside the device are not covered.
- `_adjust_end_if_iec` (parted.c:580-598): it only subtracts one from the end and its range.
- CommandLine.WordList.PushLine: words are strings of characters; the conversion to wide characters in strlist.c is left out.
- JsonWriter.Writer.PutQuoted: characters above 127 in names are kept as they are, where the code calls tolower on a sign-extended value; `ul_jsonwrt_value_raw` is unused by parted and left out.
- Chs.ParseChs: numbers beyond int, for which sscanf promises nothing, are reported as an overflow.
- Floating-point units in unit.c.
- Uuid.Parse: the device of strtoul's errno is left out, the digits have been checked before.
