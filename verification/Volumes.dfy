/** Creating mountpoints in the containers that can: the table, volume groups, Btrfs volumes. */
module Volumes {
  import opened Basics
  import opened Entities
  import opened Mounts
  import opened Layout
  import opened Names

  datatype Failure =
    | TooManyPartitions
    | BtrfsUnderLvm
    | OnlyBtrfsSubvolumes
    | NameCollision
    | NoNameForPayload
    | NoBootAllowed
    | UnsupportedParent
    | NoRoot
    | NoPartitionType
    | UnsupportedMode
    | LvmWithOtherMode
    | NoFilesystemType
    | InvalidTableType
    | InvalidPartitionType
    | InvalidPlatform

  const XBOOTLDR_GUID := "BC13C2FF-59E6-4262-A352-B275FD6F7172"
  const FILESYSTEM_DATA_GUID := "0FC63DAF-8483-4772-8E79-3D69D8477DE4"
  const LVM_GUID := "E6D6D379-F507-44C2-A23C-238F2A3DF928"
  const LVM_DOS_ID := "8e"

  function NewFilesystem(fstype: string, mountpoint: string, fsLabel: string): Entity {
    Entity(Filesystem(fstype, mountpoint, fsLabel, "defaults"), 0, [])
  }

  // ---------- logical volumes ----------

  function LvNames(vg: Entity): set<string>
  {
    set i | 0 <= i < |vg.children| && vg.children[i].kind.LogicalVolume? :: vg.children[i].kind.name
  }

  function BaseName(payload: Entity): string
    requires payload.kind.Mountable() || payload.kind.Swap?
  {
    LvName(if payload.kind.Swap? then "swap" else payload.kind.mountpoint)
  }

  function NameFor(vg: Entity, payload: Entity): Result<string, Failure> {
    if payload.kind.Mountable() || payload.kind.Swap? then
      match GenUniqueString(BaseName(payload), LvNames(vg))
      case Some(name) => Ok(name)
      case None => Err(NameCollision)
    else Err(NoNameForPayload)
  }

  /** Appends a logical volume; an empty name is replaced by one made from the mountpoint. */
  function CreateLogicalVolume(vg: Entity, name: string, size: nat, payload: Entity): Result<Entity, Failure> {
    var chosen := if name != "" then Ok(name) else NameFor(vg, payload);
    match chosen
    case Err(f) => Err(f)
    case Ok(n) =>
      Ok(vg.(children := vg.children + [Entity(LogicalVolume(n), AlignUp(size, EXTENT), [payload])]))
  }

  // ---------- mountpoint creators ----------

  function MaxPartitions(t: TableType): nat {
    if t.Gpt? then 128 else 4
  }

  function MountpointPartition(t: TableType, mountpoint: string, fstype: string, size: nat): Entity {
    var ptype := if !t.Gpt? then "" else if mountpoint == "/boot" then XBOOTLDR_GUID else FILESYSTEM_DATA_GUID;
    Entity(Partition(0, ptype), size, [NewFilesystem(fstype, mountpoint, "")])
  }

  /** The creator with one more child for the mountpoint. */
  function CreateMountpoint(c: Config, e: Entity, mountpoint: string, fstype: string, size: nat): Result<Entity, Failure>
    requires e.kind.MountpointCreator()
  {
    match e.kind
    case Table =>
      if |e.children| == MaxPartitions(c.tableType) then Err(TooManyPartitions)
      else Ok(e.(children := e.children + [MountpointPartition(c.tableType, mountpoint, fstype, size)]))
    case VolumeGroup(_) =>
      if fstype == "btrfs" then Err(BtrfsUnderLvm)
      else CreateLogicalVolume(e, "", size, NewFilesystem(fstype, mountpoint, ""))
    case Btrfs =>
      if fstype != "btrfs" then Err(OnlyBtrfsSubvolumes)
      else
        var name := if mountpoint == "/" then "root" else mountpoint;
        Ok(e.(children := e.children + [Entity(Subvolume(name, mountpoint, false), size, [])]))
  }

  /** Names of logical volumes are distinct within each volume group. */
  predicate NamesDistinct(e: Entity) {
    && (e.kind.VolumeGroup? ==>
          forall i, j :: 0 <= i < j < |e.children| && e.children[i].kind.LogicalVolume? && e.children[j].kind.LogicalVolume?
                         ==> e.children[i].kind.name != e.children[j].kind.name)
    && forall i :: 0 <= i < |e.children| ==> NamesDistinct(e.children[i])
  }

  /** A new child was appended; it fits, it has the mountpoint, and its name is new. */
  predicate Appended(e: Entity, e': Entity, mountpoint: string) {
    && e'.kind == e.kind && e'.size == e.size
    && |e'.children| == |e.children| + 1 && e'.children[..|e.children|] == e.children
    && var n := e'.children[|e.children|];
       && e.kind.Admits(n.kind) && WellTyped(n) && Fits(n) && NamesDistinct(n)
       && n.kind.Sizeable() && MountSet(n) == multiset{mountpoint} && Plain(n)
  }

  /** Nothing sized below: the entity holds filesystems directly, or is mounted itself. */
  predicate Plain(e: Entity) {
    forall i :: 0 <= i < |e.children| ==> e.children[i].kind.Filesystem?
  }

  lemma LeafFits(fstype: string, mountpoint: string, fsLabel: string)
    ensures var f := NewFilesystem(fstype, mountpoint, fsLabel);
            WellTyped(f) && Fits(f) && Need(f) == 0 && MountSet(f) == multiset{mountpoint} && NamesDistinct(f)
  {
    var f := NewFilesystem(fstype, mountpoint, fsLabel);
    assert Content(f) == SumNeeds([]);
  }

  lemma HolderFits(k: Kind, size: nat, payload: Entity)
    requires (k.Partition? || k.LogicalVolume?) && payload.kind.Payload()
    requires WellTyped(payload) && Fits(payload) && Need(payload) <= size && NamesDistinct(payload)
    ensures var e := Entity(k, size, [payload]);
            WellTyped(e) && Fits(e) && MountSet(e) == MountSet(payload) && NamesDistinct(e)
  {
    assert [payload][1..] == [];
    assert SumNeeds([payload]) == Need(payload) + SumNeeds([]);
    assert MountSets([payload]) == MountSet(payload) + MountSets([]);
  }

  lemma CreateMountpointAppends(c: Config, e: Entity, mountpoint: string, fstype: string, size: nat)
    requires e.kind.MountpointCreator() && CreateMountpoint(c, e, mountpoint, fstype, size).Ok?
    ensures Appended(e, CreateMountpoint(c, e, mountpoint, fstype, size).value, mountpoint)
    ensures e.kind.VolumeGroup? && NamesDistinct(e) ==>
              NamesDistinct(CreateMountpoint(c, e, mountpoint, fstype, size).value)
  {
    var e' := CreateMountpoint(c, e, mountpoint, fstype, size).value;
    var f := NewFilesystem(fstype, mountpoint, "");
    LeafFits(fstype, mountpoint, "");
    match e.kind {
      case Table =>
        HolderFits(e'.children[|e.children|].kind, size, f);
      case VolumeGroup(_) =>
        HolderFits(e'.children[|e.children|].kind, AlignUp(size, EXTENT), f);
        NewNameDistinct(e, e'.children[|e.children|]);
      case Btrfs =>
    }
  }

  lemma NewNameDistinct(vg: Entity, lv: Entity)
    requires vg.kind.VolumeGroup? && lv.kind.LogicalVolume?
    ensures NamesDistinct(vg.(children := vg.children + [lv])) <==>
            NamesDistinct(vg) && NamesDistinct(lv) && lv.kind.name !in LvNames(vg)
  {
    var vg' := vg.(children := vg.children + [lv]);
    assert forall i :: 0 <= i < |vg.children| ==> vg'.children[i] == vg.children[i];
    assert vg'.children[|vg.children|] == lv;
  }

  /** The base and all hundred numbered names are taken. */
  predicate AllTaken(base: string, names: set<string>) {
    base in names && forall k :: 0 <= k < 100 ==> base + TwoDigits(k) in names
  }

  /** A logical volume without a given name is made exactly when its payload has a name to start
      from and not all names made from it are taken; its name is then a new one. */
  lemma GeneratedNameIsNew(vg: Entity, size: nat, payload: Entity)
    requires vg.kind.VolumeGroup? && NamesDistinct(payload)
    ensures CreateLogicalVolume(vg, "", size, payload).Ok? <==>
            (payload.kind.Mountable() || payload.kind.Swap?) && !AllTaken(BaseName(payload), LvNames(vg))
    ensures CreateLogicalVolume(vg, "", size, payload).Ok? ==>
              var vg' := CreateLogicalVolume(vg, "", size, payload).value;
              && |vg'.children| == |vg.children| + 1 && vg'.children[|vg.children|].kind.LogicalVolume?
              && vg'.children[|vg.children|].kind.name !in LvNames(vg)
              && (NamesDistinct(vg') <==> NamesDistinct(vg))
  {
    if CreateLogicalVolume(vg, "", size, payload).Ok? {
      NewNameDistinct(vg, CreateLogicalVolume(vg, "", size, payload).value.children[|vg.children|]);
    }
  }

  // ---------- alignment along a branch ----------

  function AlignFor(c: Config, k: Kind, size: nat): (r: nat)
    ensures size <= r
  {
    if k.Table? then c.Align(size) else if k.VolumeGroup? then AlignUp(size, EXTENT) else size
  }

  /** Rounds a size up at every mountpoint creator from the target up to the table. */
  function AlignBranch(c: Config, e: Entity, p: Path, size: nat): (r: nat)
    requires ValidPath(e, p)
    ensures size <= r
    decreases p
  {
    AlignFor(c, e.kind, if p == [] then size else AlignBranch(c, e.children[p[0]], p[1..], size))
  }

  const BOOT_MIN: nat := 524288000

  function ClampSize(mountpoint: string, size: nat): nat {
    Max(size, if mountpoint == "/boot" then BOOT_MIN else GIB)
  }
}
