# Proofs about image-builder's disk layout, work queue, depsolver caches and small parsers

This project models four parts of image-builder in Dafny and proves what they promise.

**The disk layout engine** (`pkg/disk`). A disk is a tree: a partition table holds partitions; a
partition holds a filesystem, a LUKS container, a volume group or a Btrfs volume; and so on down to
logical volumes and subvolumes. `Entities` is that tree, as a value. `PartitionTables.PartitionTable`
is the object whose `size` and `partitions` fields the methods rewrite; each method is proved
against a function of the table's value, and the other modules prove what those functions do:

- `Resize`, `ResizeOrder`: growing a branch, and why the order of several growths does not matter.
- `Mounts`, `Directories`, `DirectorySizes`: searching for mountpoints, the closest mounted ancestor
  of a directory, and growing mountpoints for directories in any map order.
- `Layout`, `LayoutFacts`, `LayoutNumbers`, `LayoutSpace`: offsets, alignment, order, disk size,
  space, and what happens when a table is laid out again.
- `Volumes`, `Creation`, `Customization`, `Wrapping`, `Clone`, `NewTable`: adding mountpoints, moving
  the root to LVM or Btrfs, copying, and the whole of `NewPartitionTable`.
- `ResizeExact`, `ExactSizes`, `Extents`: how large growing makes things, to the byte, and that
  logical volumes keep whole extents. `MountWays`: on what and as what each mountpoint is mounted.
- `CustomTable`, `CustomMounts`, `CustomNames`, `CustomSizes`, `CustomFacts`, `CustomMethods`: the table
  that is built from disk customizations.
- `LayoutExamples`, `CustomExamples`: inputs at which the code departs from its documentation.

Two notions recur. *Fits*: every sized entity has room for all it holds, nested metadata included.
*Room*: whatever is mounted at a mountpoint lives in a nearest sized entity of at least that size.

**The manifest worker queue** (`cmd/gen-manifests`). `WorkerQueue` is the protocol as a state
machine: main routine, workers, printer and collector step in any interleaving over bounded channels
and wait groups.

**The depsolver** (`pkg/depsolvednf`). `RpmCache` (eviction), `ResultCaches` (timed results),
`RepoChain` (the chain check, the distinct repositories, the request), `Transactions` (the index of
first providers).

**Small parsers** (`pkg/distro`). `Validator` and `ValidatorFacts` (supported blueprint keys, with
reflection replaced by a datatype) and `DistroId`.

`Basics`, `Strings` and `Names` hold shared vocabulary.

## Where the code differs from its documentation

The model follows the code.

- `ExtraPadding` is documented in sectors (`pkg/disk/partition_table.go:34-35`) and added as bytes
  (`pkg/disk/partition_table.go:588`); `Layout.Config.Footer` adds bytes.
- Copying a Btrfs subvolume drops its read-only flag (`pkg/disk/btrfs.go:148-155`);
  `Clone.CloneEqualIff` says exactly when a copy is equal.
- Laying a table out again can change it. A LUKS container adds its header on top of a payload that
  already covers the size asked for (`pkg/disk/luks.go:127-134`), and a root on LVM that fills the
  disk need not get whole extents (`pkg/disk/lvm.go:170-182`), so with the default grain an ordinary
  LVM table grows. `LayoutSpace.RelayoutIdempotentIff` has the exact condition on the input, and
  `LayoutExamples` the tables.
- The root is documented to be last; a partition of size zero can come behind it because the sort is
  not stable. `LayoutFacts.RootLastIff` has the exact condition and
  `LayoutExamples.EmptyPartitionCanBeLast` a table.
- `needsBoot` is documented by two conditions (`pkg/disk/partition_table.go:1771-1777`) that the code
  does not always follow; `CustomTable.NeedsBootAsDocumentedIff` names the two cases and
  `CustomExamples` has a request for each. Whether `customizations.Validate` lets "/boot" on a volume
  through cannot be said here, as it is not part of this model.
- The automatic root is documented to go to the first volume group and only without one to a Btrfs
  volume (`pkg/disk/partition_table.go:1090-1094`); the code takes whichever comes first.
  `CustomTable.RootPlaceAsDocumentedIff` says when that is the same.
- A generated volume name never collides with the names before it, but a name given to a later
  volume is not compared with them (`pkg/disk/lvm.go:110-112`); `CustomNames.CustomTableNames` says
  exactly when all names are distinct.
- A repository's hash is documented to represent its configuration
  (`pkg/rpmmd/repository.go:97-99`); it prints the type of each flag instead of its value.
  `RepoChain.SettingsOfTheFirstSetWin` shows what this does to a chain of package sets.
- `ParseID` is documented to refuse dashes in names (`pkg/distro/id.go:58-59`); it accepts them, and
  `DistroId.RoundTripIff` holds for every name.
- A supported key stops counting when another key goes on below it:
  `ValidatorFacts.ShadowedKeyDoesNotCount`.

## Model

| member | source | states |
|---|---|---|
| Basics.AlignUpLeast | pkg/disk/partition_table.go:290-297 | rounding up gives the least aligned number that is large enough |
| Names.GenUniqueString | pkg/disk/disk.go:478-491 | a generated name is new; it fails only when the base and all hundred numbered names are taken |
| Names.GenUniqueStringIsLeast | pkg/disk/disk.go:478-491 | it is the base when that is free, otherwise the base with the least free number |
| Names.TwoDigitsAreDecimal | pkg/disk/disk.go:484 | the number is two decimal digits, padded with a zero |
| Names.LvNameOfElements | pkg/disk/lvm.go:243-251 | the name for a mountpoint is its elements joined by "_" with "lv" at the end, and "rootlv" for "/" |
| Names.GenUniqueStringSucceeds | pkg/disk/disk.go:478-491 | a name is always found among fewer than 101 existing ones |
| Resize.ResizeGrows | pkg/disk/partition_table.go:804-840 | a resize shrinks nothing and keeps the shape of the tree |
| Resize.ResizeKeepsOffPath | pkg/disk/partition_table.go:804-840 | entities off the path are untouched |
| Resize.ResizeReaches | pkg/disk/partition_table.go:804-840 | a sized target ends at least as large as asked |
| Resize.ResizeFits | pkg/disk/partition_table.go:804-840 | the whole-tree invariant that everything fits survives a resize, also one that stops early |
| ResizeExact.ContentInBytes | pkg/disk/luks.go:115-122 | what an entity takes, with a MiB of metadata in a volume group and 16 MiB in a LUKS container |
| ResizeExact.ResizeKeepsExtents | pkg/disk/lvm.go:230-241 | a resize leaves every logical volume in whole extents of 4 MiB |
| ResizeExact.HolderExact | pkg/disk/partition_table.go:804-840 | the nearest sized entity of a mountpoint becomes exactly as large as asked, plus the LUKS headers in between and in whole extents, and is left alone when it was large enough |
| ResizeExact.AncestorsExact | pkg/disk/partition_table.go:804-840 | an entity further up keeps its size or grows to exactly what its content takes, in whole extents for a volume |
| ResizeOrder.ResizesCommute | pkg/disk/partition_table.go:804-840 | two resizes of diverging branches give the same tree in either order, despite shared ancestors, early exits and extent rounding |
| ResizeOrder.OrderIrrelevant | pkg/disk/partition_table.go:411-414 | any permutation of diverging resizes gives the same tree |
| Mounts.EntityPathIsFirstVisit | pkg/disk/partition_table.go:648-687 | the search for a mountpoint returns exactly the first visit of the traversal with that mountpoint, and nothing only when no visit has it |
| Mounts.EntityPathIsLeast | pkg/disk/partition_table.go:648-665 | of all entities mounted at a mountpoint the search finds the one that comes first in the order of the children |
| Mounts.VisitsAreMountables | pkg/disk/partition_table.go:669-691 | the traversal visits exactly the mountable entities |
| Mounts.FoundIffMounted | pkg/disk/partition_table.go:648-665 | the search succeeds exactly when the mountpoint is in the tree |
| Mounts.ResizeReachesNearest | pkg/disk/partition_table.go:804-840 | after a resize the nearest sized entity on the path has the requested size |
| Mounts.MountablesDiverge | pkg/disk/partition_table.go:648-665 | nothing is mounted below a mounted entity, so paths of distinct mountables diverge |
| Directories.RootedFound | pkg/disk/partition_table.go:369-382 | every absolute directory has a mounted ancestor when "/" is mounted, so the panic on invalid directories is unreachable |
| Directories.CleanDrops | pkg/disk/partition_table.go:369-382 | anywhere in a path empty and "." elements vanish and ".." takes the element before it along |
| Directories.FindsClosestAncestor | pkg/disk/partition_table.go:369-382 | for every absolute directory, clean or not, the search finds the directory itself when it is mounted and otherwise the longest mounted ancestor of its clean parent |
| DirectorySizes.EveryOrder | pkg/disk/partition_table.go:388-415 | the final tree is the same for every iteration order of the maps |
| DirectorySizes.DirectoriesFit | pkg/disk/partition_table.go:384-415 | the nearest sized entity of every mountpoint ends at least as large as the sum of the directories it is the closest mounted ancestor of |
| ExactSizes.DirectoriesExact | pkg/disk/partition_table.go:384-415 | it ends with exactly that sum, headers and whole extents added, unless it was large enough before |
| Extents.DirectoriesKeepExtents | pkg/disk/partition_table.go:388-415 | making room for directories leaves every logical volume in whole extents |
| Layout.Config.FirstStart | pkg/disk/partition_table.go:555-559 | the first start is aligned and not below the header or the start offset |
| LayoutNumbers.FirstStartIsLeast | pkg/disk/partition_table.go:555-559 | it is the least multiple of the grain behind the header and the offset, or behind an absolute offset beyond the header |
| LayoutNumbers.HeaderInBytes | pkg/disk/partition_table.go:488-511 | the header is one sector, and for anything but DOS 128 bytes for each of at least 128 partitions besides |
| LayoutNumbers.FooterIsHeaderAndPadding | pkg/disk/partition_table.go:546-553 | the footer is the header in whole grains on GPT, nothing otherwise, and the padding in bytes |
| Layout.FitToCovers | pkg/disk/partition.go:76-84 | whatever its size was, a fitted partition covers the recursive need of its payload chain |
| LayoutNumbers.FitsGroup | pkg/disk/lvm.go:170-182 | a partition with a volume group is fitted to the least number of whole extents not below its size and the volumes with a MiB |
| LayoutNumbers.FitsLuks | pkg/disk/luks.go:124-135 | a LUKS container adds 16 MiB to what its payload makes of the size |
| Layout.MinSizeCovers | pkg/disk/luks.go:124-135 | the least size of a volume container covers its children, one MiB per volume group and 16 MiB per LUKS layer |
| Layout.PlanOf | pkg/disk/partition_table.go:578-604 | root, footer and padding always fit on the planned disk, and the root keeps at least its aligned need |
| Layout.RootSkipped | pkg/disk/partition_table.go:563-580 | the root partition leaves no gap where it was skipped |
| Layout.CanonicalTiles | pkg/disk/partition_table.go:563-604 | in the intended order the partitions follow each other without gap or overlap |
| LayoutFacts.TiledApart | pkg/disk/partition_table.go:563-604 | partitions of a laid out table are pairwise disjoint |
| LayoutFacts.RelayoutWellLaid | pkg/disk/partition_table.go:545-610 | with one root and sized others the result is determined despite the unstable sort: aligned, contiguous, root last, footer behind it; the root fills the disk when the policy or its flag is missing or the flag is set, and has its fitted need rounded to a grain when the flag is off |
| Layout.Config.GrowRoot | pkg/disk/partition_table.go:63-70 | the root fills the disk unless there is a policy whose flag is off |
| LayoutNumbers.RelayoutInOrder | pkg/disk/partition_table.go:563-609 | partitions keep their order and their inside with the root moved behind them, each but the root with its fitted size rounded up to a grain |
| LayoutNumbers.RelayoutFollows | pkg/disk/partition_table.go:555-609 | the first partition has the first start and each further one starts where the one before it ends |
| LayoutNumbers.RelayoutDiskSize | pkg/disk/partition_table.go:561-599 | the disk is the largest of its old size, the aligned requested size and the aligned end of root need and footer |
| LayoutFacts.RootLastIff | pkg/disk/partition_table.go:606-609 | the root is last under every sort exactly when it is alone or the last other partition has a size |
| LayoutSpace.RelayoutNeverShrinks | pkg/disk/partition_table.go:545-610 | the result is the old partitions in another order, each with the same inside and not smaller, and the disk is not smaller |
| LayoutSpace.RelayoutKeepsMounts | pkg/disk/partition_table.go:545-610 | a layout changes no mountpoint |
| LayoutSpace.RelayoutKeepsRoom | pkg/disk/partition_table.go:545-610 | no mountpoint loses room |
| LayoutSpace.RelayoutFits | pkg/disk/partition_table.go:545-610 | after a layout everything fits, whatever the partition and disk sizes were before |
| LayoutSpace.SteadyIff | pkg/disk/partition.go:76-84 | fitting leaves a large enough partition alone exactly when it is steady |
| LayoutSpace.RelayoutAgainIff | pkg/disk/partition_table.go:545-610 | laying a finished table out again changes nothing exactly when all partitions are steady and a root that fills the disk has whole grains to fill |
| LayoutSpace.RelayoutFinishes | pkg/disk/partition_table.go:545-610 | one layout of a table with one root and sized others is a finished one, with root growth on or off |
| LayoutSpace.RelayoutIdempotentIff | pkg/disk/partition_table.go:545-610 | two layouts equal one exactly under a condition on the first input: no partition encrypts volumes, each volume group is given whole extents, and a root that fills the disk has whole grains to fill |
| LayoutSpace.RelayoutIdempotent | pkg/disk/partition_table.go:545-610 | on whole grains two layouts equal one when nothing encrypts volumes and volume groups lie on grains of whole extents, or on whole grains per extent without filling the disk |
| LayoutSpace.EncryptedNeverSettles | pkg/disk/luks.go:124-135 | a table with encrypted volumes is changed by every further layout |
| LayoutSpace.LayoutSumsBelow | pkg/disk/partition_table.go:545-604 | no sum of a layout is above the final disk size, except the first one, by at most the header |
| LayoutExamples.RootOnLvmIsNotSettled | pkg/disk/partition_table.go:545-610 | root on LVM, default grain, 10 GiB: the second layout changes the table |
| LayoutExamples.EncryptedRootIsNotSettled | pkg/disk/luks.go:124-135 | the same group inside a LUKS container: the second layout changes the table |
| LayoutExamples.EmptyPartitionCanBeLast | pkg/disk/partition_table.go:1580-1584 | a root partition followed by an empty one has a layout in which the root is not last |
| Volumes.CreateMountpointAppends | pkg/disk/partition_table.go:417-453 | a creator gains exactly one fitting child for the mountpoint, with a new name in a volume group, and keeps all others |
| Volumes.GeneratedNameIsNew | pkg/disk/lvm.go:97-144 | a volume without a given name is made exactly when its payload has a name to start from and not all names made from it are taken, and its name is new in the group |
| Growth.ResizeKeeps | pkg/disk/partition_table.go:804-840 | a resize keeps mountpoints, their room, fitting, names and positive sizes |
| Creation.DeepestCreator | pkg/disk/partition_table.go:618-630 | a creator is always found on a path from the table, so the panic for a missing container is unreachable |
| ExactSizes.DeepestIsDeepest | pkg/disk/partition_table.go:618-630 | no container that could take the mountpoint lies deeper on the path of "/" |
| Creation.CreateFilesystemCorrect | pkg/disk/partition_table.go:612-640 | a new mountpoint is added once with the room asked for, and nothing else is lost |
| ExactSizes.CreateFilesystemExact | pkg/disk/partition_table.go:612-640 | the new mountpoint is the last child of that container: a partition with the type for it, a volume with a new name and whole extents, or a subvolume, with the size asked for as rounded on its branch |
| ExactSizes.CreateFilesystemFails | pkg/disk/partition_table.go:417-453 | it fails exactly for a full table (128 partitions on GPT, 4 otherwise), Btrfs in a volume group, a group without a name left, and another filesystem in Btrfs |
| ExactSizes.AlignWithoutGroup | pkg/disk/partition_table.go:787-800 | without a volume group on the branch a size is rounded up to a grain |
| ExactSizes.AlignInGroup | pkg/disk/partition_table.go:787-800 | with one it is rounded up to an extent and then to a grain |
| Extents.CreateFilesystemKeepsExtents | pkg/disk/partition_table.go:612-640 | creating a mountpoint leaves every logical volume in whole extents |
| Customization.ApplyCorrect | pkg/disk/partition_table.go:518-538 | a customization makes exactly the missing requested mountpoints, once each, and gives every requested one its clamped size |
| Customization.ApplyLeftover | pkg/disk/partition_table.go:518-538 | without creation nothing fails and the left-over requests are exactly those for missing mountpoints |
| ExactSizes.EnlargeExact | pkg/disk/partition_table.go:518-538 | an existing mountpoint ends with exactly the requested size, at least 500 MiB for "/boot" and a GiB otherwise, rounded along its branch, unless it was large enough |
| ExactSizes.RequestExact | pkg/disk/partition_table.go:518-538 | a missing mountpoint is made with exactly that size |
| Extents.EnlargeKeepsExtents | pkg/disk/partition_table.go:518-538 | enlarging leaves every logical volume in whole extents |
| Wrapping.EnsureLvmCorrect | pkg/disk/partition_table.go:852-914 | moving the root to LVM keeps every mountpoint with its room and every other partition; the root partition gets LVM's type and holds "rootvg" with "rootlv", which holds what the partition held and has its old size rounded up by less than an extent; a missing "/boot" comes last with a GiB |
| Wrapping.EnsureLvmFails | pkg/disk/partition_table.go:852-914 | it fails exactly when "/boot" is missing and forbidden or finds the table full, or when "/" lies neither on a partition nor on a volume |
| Wrapping.EnsureLvmTwice | pkg/disk/partition_table.go:852-914 | applied again it changes nothing |
| Wrapping.EnsureBtrfsCorrect | pkg/disk/partition_table.go:918-980 | the same for Btrfs: the root partition gets the type for its architecture and holds one subvolume "root" of exactly the old size, read-only when the filesystem's options were |
| Wrapping.EnsureBtrfsFails | pkg/disk/partition_table.go:918-980 | it fails exactly for a "/boot" without room, "/" on something else than a partition or Btrfs, and no type for the root partition |
| Wrapping.ReadOnlyIff | pkg/disk/disk.go:435-442 | options are read-only when "ro" and not "rw" is among them |
| Wrapping.EnsureBtrfsTwice | pkg/disk/partition_table.go:918-980 | applied again it changes nothing |
| Clone.CloneEqualIff | pkg/disk/btrfs.go:143-156 | a copy equals the original exactly when no subvolume is read-only |
| Clone.CloneKeeps | pkg/disk/partition_table.go:237-279 | a copy keeps mountpoints, room, fitting, names and sizes |
| NewTable.WrapReady | pkg/disk/partition_table.go:169-194 | the step for the partitioning mode keeps everything and adds "/boot" at most once |
| NewTable.ReadyCanLayOut | pkg/disk/partition_table.go:577-579 | a table with a root never reaches the no-root panic |
| NewTable.TableMountpoints | pkg/disk/partition_table.go:149-221 | a new table has exactly the base mountpoints, the requested ones and the made "/boot"; each has its clamped size and room for its directories |
| NewTable.TableLayout | pkg/disk/partition_table.go:149-221 | a new table is well laid, as large as asked, everything fits and volume names stay distinct; its settings are the base's, with the default policy when there is none |
| NewTable.TableRootSize | pkg/disk/partition_table.go:149-221 | root start, root size and footer add up to the disk when the base has no policy or its flag is not off; when it is off the root has its fitted need rounded up to a grain |
| NewTable.TableDiskSize | pkg/disk/partition_table.go:149-221 | the disk is exactly the largest of its size before the layout, the aligned image size and the aligned end of root need and footer |
| Extents.TableExtents | pkg/disk/partition_table.go:149-221 | a table made from a base with whole extents has whole extents |
| MountWays.TableKeepsWays | pkg/disk/partition_table.go:149-221 | mountpoints of the base stay on the kind of entity they were on, as what they were, but for writable subvolumes and a root that is moved |
| MountWays.TableRootWay | pkg/disk/partition_table.go:169-194 | "/" ends on a logical volume in LVM mode, and in the automatic modes when a requested mountpoint is missing; on a subvolume in Btrfs mode; otherwise where it was |
| MountWays.TableNewWays | pkg/disk/partition_table.go:149-221 | a new mountpoint lies where "/" lies, with Btrfs in Btrfs mode and otherwise the default filesystem or XFS; a "/boot" for booting lies on a partition |
| MountWays.ModeRefused | pkg/disk/partition_table.go:151-186 | a base with LVM anywhere is refused in raw and Btrfs mode, and any base in an unknown mode |
| MountWays.DefaultDirectories | pkg/disk/partition_table.go:203-208 | without required sizes "/" has to hold 1 GiB and "/usr" 2 GiB |
| PartitionTables.SizedChildren | pkg/disk/partition_table.go:813-819 | the loop over the children, with its early exit, computes the sum the specification uses |
| PartitionTables.ComputeMinSize | pkg/disk/lvm.go:170-182 | the loops and the recursion over payloads compute the specified least size |
| PartitionTables.CollectNames | pkg/disk/lvm.go:97-101 | the loop collects exactly the names of the volumes |
| PartitionTables.UniqueString | pkg/disk/disk.go:478-491 | the loop finds the first free name |
| PartitionTables.MakeLogicalVolume | pkg/disk/lvm.go:113-144 | with the collected names and the search, the volume group gains the specified volume |
| PartitionTables.ResizeFromEnd | pkg/disk/partition_table.go:804-840 | growing from the target upwards equals the recursive specification from the table downwards |
| PartitionTables.PartitionTable.ResizeEntityBranch | pkg/disk/partition_table.go:804-840 | rewrites the table to the specified grown tree, whose sizes `ResizeExact` gives to the byte |
| PartitionTables.PartitionTable.GetMountpointSize | pkg/disk/partition_table.go:1071-1085 | fails exactly for unknown mountpoints, never panics, and gives the nearest size, which bounds every promised room |
| PartitionTables.PartitionTable.GroupDirectories | pkg/disk/partition_table.go:395-409 | in any iteration order the groups hold the path and the sum of each mountpoint; it fails exactly for a directory without mounted ancestor |
| PartitionTables.PartitionTable.EnsureDirectorySizes | pkg/disk/partition_table.go:388-415 | with both maps iterated in an arbitrary order, the table becomes the one determined tree; the panic happens exactly for a directory without mounted ancestor |
| PartitionTables.PartitionTable.CreateFilesystemAt | pkg/disk/partition_table.go:612-640 | appends and grows as specified; a failure leaves the table alone |
| PartitionTables.PartitionTable.ApplyCustomization | pkg/disk/partition_table.go:518-538 | the loop yields the specified table and left-over list |
| PartitionTables.PartitionTable.EnsureLvmRoot | pkg/disk/partition_table.go:852-914 | the new table and the failure are those specified, which `EnsureLvmCorrect` and `EnsureLvmFails` spell out |
| PartitionTables.PartitionTable.EnsureBtrfsRoot | pkg/disk/partition_table.go:918-980 | the new table and the failure are those specified |
| PartitionTables.PartitionTable.SortPartitions | pkg/disk/partition_table.go:1580-1584 | leaves any permutation sorted by start |
| PartitionTables.PartitionTable.PlaceAllButRoot | pkg/disk/partition_table.go:563-575 | the first loop places the other partitions and finds the last one with "/" |
| PartitionTables.PartitionTable.PlaceRoot | pkg/disk/partition_table.go:581-604 | settles the root and the disk size as planned |
| PartitionTables.PartitionTable.RelayoutTo | pkg/disk/partition_table.go:545-610 | ends in a layout of the old table, which `RelayoutWellLaid` and `LayoutNumbers` spell out; the panic happens exactly without a root |
| PartitionTables.NewPartitionTable | pkg/disk/partition_table.go:149-221 | every outcome is one the theorems about new tables speak about |
| CustomTable.ComputeNeedsBoot | pkg/disk/partition_table.go:1778-1837 | the loop with its flags computes a condition without order |
| CustomTable.NeedsBootAsDocumentedIff | pkg/disk/partition_table.go:1771-1837 | the code agrees with its documentation exactly outside two named cases |
| CustomExamples.PlainBootWithoutRoot | pkg/disk/partition_table.go:1771-1837 | plain "/boot" and a volume group without "/": documented to need a boot partition, none is made |
| CustomExamples.BootOnVolume | pkg/disk/partition_table.go:1771-1837 | "/" and "/boot" on two volumes: documented to need no boot partition, one is made and "/boot" is mounted twice |
| CustomTable.ForBootingMounts | pkg/disk/partition_table.go:1251-1326 | booting gets an EFI system partition unless one is requested, "/boot" when allowed and needed, and nothing else |
| CustomFacts.BootModeExact | pkg/disk/partition_table.go:1251-1366 | a platform gets exactly its partitions: 4 MiB PReP, 1 MiB BIOS boot, an EFI system partition of the given size or 200 MiB; other platforms are refused |
| CustomFacts.ForBootingExact | pkg/disk/partition_table.go:1187-1223 | a "/boot" of a GiB with ext4 or XFS follows exactly when it is allowed and needed, and its label is always free |
| CustomTable.EnsureRootOnce | pkg/disk/partition_table.go:1096-1185 | afterwards "/" is mounted exactly once, and it is all that was added |
| CustomFacts.RootRefused | pkg/disk/partition_table.go:1096-1185 | a root that has to be made fails exactly without a default filesystem (unless it is a subvolume), a free label or name, or a partition type |
| CustomFacts.LabelsOfAre | pkg/disk/partition_table.go:1101-1115 | the labels to avoid are those of all filesystems and subvolumes of the table |
| CustomFacts.SubvolumeNamesAre | pkg/disk/partition_table.go:1099-1115 | the names to avoid are those of all its subvolumes |
| CustomTable.RootPlaceAsDocumentedIff | pkg/disk/partition_table.go:1087-1150 | the root goes to the documented volume exactly when no Btrfs volume comes before the first volume group |
| CustomExamples.BtrfsBeforeGroup | pkg/disk/partition_table.go:1087-1150 | with a Btrfs volume before a volume group the root goes to the Btrfs volume |
| CustomTable.NoSlackBelowEnd | pkg/disk/partition_table.go:1549-1562 | before the layout the disk is not larger than its content will be |
| CustomTable.CustomTableCorrect | pkg/disk/partition_table.go:1458-1576 | with at most one "/" requested a table has exactly one and everything fits, so no root panic is reachable |
| CustomTable.CustomTableLayout | pkg/disk/partition_table.go:1458-1576 | the disk is exactly the larger of the aligned minimum and the aligned end of content and footer |
| CustomFacts.CustomTableSettings | pkg/disk/partition_table.go:1475-1559 | "dos" gives DOS, "gpt" gives GPT, no type the default or GPT; offset and sector size are the requested ones, the policy the given or default one; a DOS table has at most four partitions |
| CustomFacts.CustomTableContent | pkg/disk/partition_table.go:1458-1576 | up to sizes and starts the table is the partitions for booting, one for each request with the type, content, names, labels and sizes asked for, and the root in its place |
| CustomFacts.PlainRefused | pkg/disk/partition_table.go:1586-1658 | a plain request fails exactly without a filesystem type, or for "/" and "/usr" without a partition type |
| CustomFacts.VolumeRefused | pkg/disk/partition_table.go:1691-1712 | a volume fails exactly without a filesystem type or without a free name |
| CustomFacts.CustomTableExtents | pkg/disk/partition_table.go:1458-1576 | every logical volume of a custom table has whole extents |
| CustomSizes.CustomTableWellLaid | pkg/disk/partition_table.go:1458-1576 | when every requested partition but LVM and root ones has a size, the table is well laid |
| CustomSizes.RequestedPartitionsSized | pkg/disk/partition_table.go:1586-1769 | the table is a rearrangement of partitions in which the requested ones follow in order, each at least as large as requested, LVM and Btrfs partitions included |
| CustomNames.CustomTableNames | pkg/disk/partition_table.go:1458-1576 | volume names are distinct in every group exactly when no given name is that of a volume before it, given or generated |
| CustomNames.GivenNameCanCollide | pkg/disk/partition_table.go:1660-1713 | an unnamed volume for "/home" and one named "homelv" give two volumes of that name |
| CustomMounts.AllRequestMountSet | pkg/disk/partition_table.go:1586-1769 | requested plain, LVM and Btrfs partitions mount exactly what was asked, swap and empty partitions nothing |
| CustomMounts.CustomTableMountpoints | pkg/disk/partition_table.go:1458-1576 | a custom table mounts exactly what booting needs, the requests and one root; each has room for its directories and its requested size |
| CustomMethods.EnsureRootFilesystem | pkg/disk/partition_table.go:1096-1185 | the search loop puts "/" where specified |
| CustomMethods.AppendRequested | pkg/disk/partition_table.go:1513-1544 | the loop appends the requests in order, and the first failure decides |
| CustomMethods.NewCustomPartitionTable | pkg/disk/partition_table.go:1458-1576 | every success is a table the theorems speak about, of the requested kind and with the requested settings; it fails exactly with a step, for an unknown kind, or with a DOS table of more than four partitions |
| WorkerQueue.StepKeepsInvariant | cmd/gen-manifests/workerqueue.go:40-117 | every step of every routine keeps the invariant: nothing is lost or duplicated and no closed channel is sent on or closed |
| WorkerQueue.ReachableInvariant | cmd/gen-manifests/workerqueue.go:40-117 | the invariant holds in every state of every interleaving |
| WorkerQueue.QueuesAreBounded | cmd/gen-manifests/workerqueue.go:40-88 | in every run at most one message and one error for each worker are queued, the queued jobs are the last submitted ones in order, and the counter counts the active workers |
| WorkerQueue.WorkerWaitsIff | cmd/gen-manifests/workerqueue.go:75-88 | a worker waits exactly for a job while more may come, or for room for its message or error |
| WorkerQueue.StepKeepsOrder | cmd/gen-manifests/workerqueue.go:90-113 | messages are printed and errors collected in the order in which they were sent |
| WorkerQueue.SubmitNeverBlocks | cmd/gen-manifests/workerqueue.go:115-117 | submitting always finds room |
| WorkerQueue.NoDeadlock | cmd/gen-manifests/workerqueue.go:54-73 | until the main routine returned some routine can step |
| WorkerQueue.ReturnsEverything | cmd/gen-manifests/workerqueue.go:63-113 | with a worker, every job ran once, exactly the job errors are returned and every message was printed |
| WorkerQueue.AllJobsRunIff | cmd/gen-manifests/workerqueue.go:54-88 | all jobs run exactly when there is a worker or no job |
| WorkerQueue.StepUsesWork | cmd/gen-manifests/workerqueue.go:40-117 | a measure strictly decreases with every step |
| WorkerQueue.RunsAreBounded | cmd/gen-manifests/workerqueue.go:40-117 | every schedule is bounded by the initial work |
| RpmCache.Cache.constructor | pkg/depsolvednf/cache.go:86-107 | a new cache knows exactly what its directory holds |
| RpmCache.Cache.UpdateInfo | pkg/depsolvednf/cache.go:115-195 | for every snapshot and every pattern of failing entries the cache holds each repository's paths, size and latest time, its size is their sum, and all are in the recency list, oldest first |
| RpmCache.Cache.CollectEntry | pkg/depsolvednf/cache.go:133-177 | one entry is taken in or skipped without breaking the sums |
| RpmCache.TakeKeeps | pkg/depsolvednf/cache.go:155-175 | taking in an entry adds its share to its repository and to the total |
| RpmCache.BelongsIff | pkg/depsolvednf/cache.go:133-161 | an entry counts for the repository in the first 64 characters of its name when its status and size are known |
| RpmCache.TimeIsLatest | pkg/depsolvednf/cache.go:163-167 | the time of a repository is the latest of its entries' times |
| RpmCache.PathsAreEntries | pkg/depsolvednf/cache.go:147-161 | its paths are exactly those of its entries |
| RpmCache.SizesAddUp | pkg/depsolvednf/cache.go:149-175 | sizes add up over any split of the listing |
| RpmCache.ListingIs | pkg/depsolvednf/cache.go:122-133 | the listing has exactly the entries of all directories, with their paths |
| RpmCache.Cache.Shrink | pkg/depsolvednf/cache.go:197-224 | success ends below the maximum or empty after the shortest sufficient prefix of the recency list; a failed removal stops at its repository and keeps the list; the size stays the sum and never underflows |
| RpmCache.EvictsOldest | pkg/depsolvednf/cache.go:179-224 | right after a snapshot nothing that is evicted was used after something that stays |
| ResultCaches.GetIsExpected | pkg/depsolvednf/cache.go:301-331 | in every run a lookup gives the latest stored result exactly while its time has not run out |
| ResultCaches.CleaningIsInvisible | pkg/depsolvednf/cache.go:301-331 | leaving all cleanings out of a run changes no answer |
| ResultCaches.CleansInsertedAnywhere | pkg/depsolvednf/cache.go:301-331 | runs that differ only in their cleanings answer the same |
| ResultCaches.ResultCache.CleanCache | pkg/depsolvednf/cache.go:301-311 | exactly the entries that are not older than the timeout stay, each with its own reading of the clock, and the cache stays the state of its history |
| ResultCaches.ResultCache.Get | pkg/depsolvednf/cache.go:315-324 | after any history of stores and cleanings it gives the latest result stored under the hash, exactly while its time has not run out |
| RepoChain.ValidatePackageSetRepoChain | pkg/depsolvednf/depsolvednf.go:472-506 | accepts exactly valid chains and otherwise names the first set at fault |
| RepoChain.ChainIsPrefix | pkg/depsolvednf/depsolvednf.go:465-506 | in an accepted chain every set starts with the repositories of every earlier one |
| RepoChain.FirstsDistinct | pkg/depsolvednf/depsolvednf.go:251-265 | the collected repositories have every ID once |
| RepoChain.FirstKept | pkg/depsolvednf/depsolvednf.go:251-265 | the first repository with an ID is kept, behind exactly the IDs before it |
| RepoChain.CollectRepos | pkg/depsolvednf/depsolvednf.go:252-265 | the loops keep the first repository of every ID, in order |
| RepoChain.CollectsAdded | pkg/depsolvednf/depsolvednf.go:252-265 | an accepted chain collects what each set adds to the one before it |
| RepoChain.ChainCollectsLast | pkg/depsolvednf/depsolvednf.go:252-265 | the collected IDs are those of the last set alone; the settings are exactly when no earlier set added a repository with other ones |
| RepoChain.SettingsOfTheFirstSetWin | pkg/rpmmd/repository.go:97-126 | repositories that differ in a subscription flag share their ID, and the earlier one is collected |
| RepoChain.DigestTellsApart | pkg/rpmmd/repository.go:97-126 | repositories that differ in one piece of their settings have the same digested text exactly when no setting that counts differs; names, subscriptions and the values of flags do not count |
| RepoChain.ReposFromRpmmd | pkg/depsolvednf/v2.go:409-453 | translates every repository in order and field by field, the SSL flag turned around, the subscription's secrets exactly where asked for; fails exactly when a subscription is missing |
| RepoChain.MakeDepsolveRequest | pkg/depsolvednf/v2.go:229-250 | every ID in a transaction names exactly one repository of the request, which is the translated first one with its ID; specs, excludes, modules and weak dependencies are each set's own |
| Transactions.GetFilesTransactionInfo | pkg/depsolvednf/transactions.go:57-86 | with its shrinking set and early return, a path is indexed exactly when it is requested and provided, with its first provider |
| Transactions.IndexUnique | pkg/depsolvednf/transactions.go:52-56 | there is one such index and its transaction numbers are minimal |
| Transactions.IndexRestricts | pkg/depsolvednf/transactions.go:52-86 | asking for more paths changes nothing about the others |
| Transactions.FindPackage | pkg/depsolvednf/transactions.go:30-39 | finds the first package of that name, or none exists |
| Validator.SplitKeys | pkg/distro/validator.go:51-66 | the loop sorts the keys into leaves and sub-keys of their first part |
| Validator.ValidateSupportedConfig | pkg/distro/validator.go:32-132 | the imperative traversal computes the specified outcome |
| Validator.SubKeysAre | pkg/distro/validator.go:54-66 | the sub-keys of a tag are exactly the keys that go on below it |
| ValidatorFacts.NotSetIff | pkg/distro/validator.go:84-99 | what counts as not set: empty slices, pointers without target, zero scalars |
| ValidatorFacts.AcceptsIffSupported | pkg/distro/validator.go:32-132 | for every list, acceptance means that everything set is at or below a key that no other key goes on below, or a container on the way to a key |
| ValidatorFacts.AcceptsIffEverySetFieldListed | pkg/distro/validator.go:32-132 | with no key a prefix of another, acceptance means that every set field is at, under or on the way to a supported key |
| ValidatorFacts.RejectionLocates | pkg/distro/validator.go:26-30 | a rejection, read backwards, leads to a value that is set and not supported, and its reason is right: no key goes on below it, or keys do and it is a scalar, or something else |
| ValidatorFacts.ShadowedKeyDoesNotCount | pkg/distro/validator.go:77-92 | a key stops counting when another one goes on below it |
| DistroId.ParseAtLastDash | pkg/distro/id.go:60-69 | the version is what follows the last dash, whatever the name |
| DistroId.NoDashIff | pkg/distro/id.go:60-66 | parsing complains about a missing dash exactly when there is none |
| DistroId.VersionParsed | pkg/distro/id.go:69-89 | a version is a major number or a major and a minor one; more dots, a bad major and a bad minor number each have their error |
| DistroId.NumberParsed | pkg/distro/id.go:75-86 | a number is decimal digits with an optional sign in the range of 64 bits |
| DistroId.RoundTripIff | pkg/distro/id.go:19-96 | printing then parsing gives the ID back exactly when major is not negative and minor is not below -1 |
| DistroId.ParsePrintParse | pkg/distro/id.go:19-96 | parse then print is idempotent on every accepted string |
| DistroId.StringInjective | pkg/distro/id.go:19-29 | a printed ID determines the ID |

## Left out

- Machine integers in `pkg/disk`: sizes are unbounded naturals. `LayoutSpace.LayoutSumsBelow` bounds the sums of a layout, so none wraps while the final disk size plus the header stays below 2^64; the sums made when a branch grows have no such bound here.
- Pointers into the tree: entity paths are addresses by child index and nodes are values inside the table object, so aliasing and the moving of slices by `append` (`pkg/disk/partition_table.go:875`, `pkg/disk/partition_table.go:933`) are not captured, and what appends to a volume group, a Btrfs volume or a partition's payload is a function on values.
- Goroutines as code: the worker queue is its steps, in any interleaving, not a program with threads.
- UUIDs, partition labels and attributes, boot flags, mount options other than "ro" and "rw" (the EFI system partition's options are "defaults" here), compression, LUKS parameters: they have no influence on sizes, order or mountpoints.
- JSON and YAML decoding, GPT or DOS tables on disk, fstab and stage generation.
- `customizations.Validate` is not part of this model; its consequence that "/" is requested at most once is a precondition, and its checks of partition types and IDs are a flag of the request.
- Directory sizes are given for absolute paths, as their callers do; the panic on other ones is the `false` result of `EnsureDirectorySizes`.
- Order of two partitions with the same start: the sort is not stable, so any order is a possible result.
- Fairness of the scheduler: every schedule of the worker queue is bounded, so none is needed.
- The progress line of the message printer and the active-worker counter's value in it.
- Locking of the caches between threads; their methods are taken one at a time.
- The file system below the package cache: directory listings, sizes and removal failures are inputs; `touchRepo` and `CleanupOldCacheDirs` are left out.
- SHA-256 and the expiry of subscriptions; secrets for base URLs are an input.
- `AllPackages` only sorts a concatenation and would add an easy member.
- `validateRequiredConfig` follows the same descent as the supported-key check for a simpler rule.
- ValidateSupportedConfig: the printed form of a path, with its dots and brackets, and the message texts are not modelled.
- `ID.Version` belongs to a library that is not part of this model.
