/** Logical volumes keep whole extents through every step of making a table. */
module Extents {
  import opened Basics
  import opened Entities
  import opened ResizeExact
  import opened Mounts
  import opened DirectorySizes
  import opened Layout
  import opened LayoutSpace
  import opened Volumes
  import opened Growth
  import opened Creation
  import opened Wrapping
  import opened Customization
  import opened Clone
  import opened NewTable

  lemma {:induction false} UpdateExtents(e: Entity, p: Path, n: Entity)
    requires ValidPath(e, p) && WholeExtents(e) && WholeExtents(n)
    ensures WholeExtents(UpdateAt(e, p, n))
    decreases p
  {
    if p != [] { UpdateExtents(e.children[p[0]], p[1..], n); }
  }

  lemma {:induction false} ExtentsAt(e: Entity, p: Path)
    requires ValidPath(e, p) && WholeExtents(e)
    ensures WholeExtents(At(e, p))
    decreases p
  {
    if p != [] { ExtentsAt(e.children[p[0]], p[1..]); }
  }

  lemma AppendedExtents(e: Entity, e': Entity)
    requires WholeExtents(e) && e'.kind == e.kind && e'.size == e.size
    requires |e'.children| == |e.children| + 1 && e'.children[..|e.children|] == e.children
    requires WholeExtents(e'.children[|e.children|])
    ensures WholeExtents(e')
  {
    assert forall i :: 0 <= i < |e.children| ==> e'.children[i] == e'.children[..|e.children|][i];
  }

  lemma MountpointExtents(c: Config, e: Entity, m: string, fstype: string, size: nat)
    requires e.kind.MountpointCreator() && WholeExtents(e) && CreateMountpoint(c, e, m, fstype, size).Ok?
    ensures WholeExtents(CreateMountpoint(c, e, m, fstype, size).value)
  {
    CreateMountpointAppends(c, e, m, fstype, size);
    var e' := CreateMountpoint(c, e, m, fstype, size).value;
    assert WholeExtents(NewFilesystem(fstype, m, ""));
    AppendedExtents(e, e');
  }

  /** Creating a mountpoint keeps logical volumes in whole extents. */
  lemma CreateFilesystemKeepsExtents(d: Disk, m: string, fstype: string, size: nat)
    requires Ready(d) && WholeExtents(d.tree) && CreateFilesystem(d, m, fstype, size).Ok?
    ensures WholeExtents(CreateFilesystem(d, m, fstype, size).value.tree)
  {
    ReadyHasRoot(d);
    var cp := DeepestCreator(d.tree, EntityPath(d.tree, "/").value).value;
    var n' := CreateMountpoint(d.config, At(d.tree, cp), m, fstype, 0).value;
    var tree, p := UpdateAt(d.tree, cp, n'), cp + [|n'.children| - 1];
    ExtentsAt(d.tree, cp);
    MountpointExtents(d.config, At(d.tree, cp), m, fstype, 0);
    UpdateExtents(d.tree, cp, n');
    CreateMountpointAppends(d.config, At(d.tree, cp), m, fstype, 0);
    NewChildAt(d.tree, cp, n');
    ResizeKeepsExtents(tree, p, AlignBranch(d.config, tree, p, size));
  }

  /** Enlarging a mountpoint does. */
  lemma EnlargeKeepsExtents(d: Disk, m: Mount)
    requires Ready(d) && EntityPath(d.tree, m.mountpoint).Some? && WholeExtents(d.tree)
    ensures WholeExtents(Enlarge(d, m).tree)
  {
    EntityPathMounted(d.tree, m.mountpoint);
    var p := EntityPath(d.tree, m.mountpoint).value;
    ResizeKeepsExtents(d.tree, p, AlignBranch(d.config, d.tree, p, m.Size()));
  }

  lemma {:induction false} ApplyKeepsExtents(d: Disk, ms: seq<Mount>, fstype: string, create: bool)
    requires Ready(d) && WholeExtents(d.tree) && Apply(d, ms, fstype, create).Ok?
    ensures WholeExtents(Apply(d, ms, fstype, create).value.disk.tree)
    decreases |ms|
  {
    if ms != [] {
      if EntityPath(d.tree, ms[0].mountpoint).Some? {
        EnlargeKeepsExtents(d, ms[0]);
      } else if create {
        CreateFilesystemKeepsExtents(d, ms[0].mountpoint, fstype, ms[0].Size());
      }
      ApplyKeepsExtents(ApplyOne(d, ms[0], fstype, create).value, ms[1..], fstype, create);
    }
  }

  /** Making room for directories does. */
  lemma DirectoriesKeepExtents(e: Entity, sizes: map<string, nat>)
    requires AllFound(e, sizes) && WholeExtents(e)
    ensures WholeExtents(EnsureDirectories(e, sizes))
  {
    ResizeAllKeepsExtents(e, Requests(e, sizes, SomeListing(e, sizes)));
  }

  lemma LeafExtents(e: Entity)
    requires WellTyped(e) && !e.kind.Container()
    ensures WholeExtents(e)
  {
    ChildrenShape(e);
  }

  lemma AddBootExtents(d: Disk, fstype: string)
    requires Ready(d) && WholeExtents(d.tree) && AddBoot(d, fstype).Ok?
    ensures WholeExtents(AddBoot(d, fstype).value.tree)
  {
    MountpointExtents(d.config, d.tree, "/boot", fstype, GIB);
  }

  lemma RewrappedExtents(d: Disk, payload: Entity, ptype: string)
    requires Ready(d) && RootParent(d).kind.Partition? && WholeExtents(d.tree) && WholeExtents(payload)
    ensures WholeExtents(Rewrapped(d, payload, ptype).tree)
  {
  }

  lemma WrapLvmExtents(d: Disk)
    requires Ready(d) && WholeExtents(d.tree)
    ensures WholeExtents(WrapLvm(d).disk.tree)
  {
    if RootParent(d).kind.Partition? {
      RootFilesystemLeaf(d);
      assert WholeExtents(LvmPayload(d).children[0].children[0]);
      RewrappedExtents(d, LvmPayload(d), if d.config.tableType.Gpt? then LVM_GUID else LVM_DOS_ID);
    }
  }

  lemma WrapBtrfsExtents(d: Disk, arch: Arch)
    requires Ready(d) && WholeExtents(d.tree)
    ensures WholeExtents(WrapBtrfs(d, arch).disk.tree)
  {
    if RootParent(d).kind.Partition? {
      RewrappedExtents(d, BtrfsPayload(d), WrapBtrfs(d, arch).disk.tree.children[RootSlot(d)].kind.ptype);
    }
  }

  /** Moving "/" to LVM or Btrfs does. */
  lemma WrapKeepsExtents(d: Disk, o: Options, leftover: seq<Mount>)
    requires Ready(d) && d.config.policy.Some? && WholeExtents(d.tree)
    ensures WholeExtents(Wrap(d, o, leftover).disk.tree)
  {
    WrapLvmExtents(d);
    WrapBtrfsExtents(d, o.arch);
    if AddBoot(d, FirstFs(o)).Ok? {
      AddBootExtents(d, FirstFs(o));
      WrapLvmExtents(AddBoot(d, FirstFs(o)).value);
    }
    if AddBoot(d, SecondFs(o)).Ok? {
      AddBootExtents(d, SecondFs(o));
      WrapBtrfsExtents(AddBoot(d, SecondFs(o)).value, o.arch);
    }
  }

  lemma {:induction false} CloneKeepsExtents(e: Entity)
    requires CloneSafe(e) && WholeExtents(e)
    ensures WholeExtents(CloneOf(e))
  {
    forall i | 0 <= i < |e.children| ensures WholeExtents(CloneOf(e).children[i]) { CloneKeepsExtents(e.children[i]); }
  }

  lemma PrepareKeepsExtents(base: Disk, o: Options)
    requires Ready(base) && CloneSafe(base.tree) && AbsoluteDirectories(o) && Prepare(base, o).Ok?
    requires WholeExtents(base.tree)
    ensures WholeExtents(Prepare(base, o).value.tree)
  {
    var first, s := Enlarged(base, o), Wrapped(base, o).disk;
    CloneKeepsExtents(base.tree);
    ApplyLeftover(Copied(base), o.mounts, FirstFs(o));
    ApplyKeepsExtents(Copied(base), o.mounts, FirstFs(o), false);
    WrapKeepsExtents(first.disk, o, first.leftover);
    ApplyKeepsExtents(s, first.leftover, SecondFs(o), true);
    var d := Created(base, o).value;
    RootedAllFound(d, DirectoryMap(o));
    DirectoriesKeepExtents(d.tree, DirectoryMap(o));
  }

  lemma RelayoutKeepsExtents(d: Disk, size: nat, d': Disk)
    requires CanLayOut(d) && Relayout(d, size, d') && WholeExtents(d.tree)
    ensures WholeExtents(d'.tree)
  {
    forall i | 0 <= i < |d'.tree.children| ensures WholeExtents(d'.tree.children[i]) {
      var k := RelayoutOrigin(d, size, d', i);
      assert WholeExtents(d.tree.children[k]);
      assert forall j :: 0 <= j < |d'.tree.children[i].children| ==> WholeExtents(d'.tree.children[i].children[j]);
    }
  }

  /** Main result: a table made from a base with whole extents has whole extents. */
  lemma TableExtents(base: Disk, o: Options, d': Disk)
    requires Ready(base) && CloneSafe(base.tree) && AbsoluteDirectories(o) && Makes(base, o, Ok(d'))
    requires WholeExtents(base.tree)
    ensures WholeExtents(d'.tree)
  {
    var d := Prepare(base, o).value;
    PrepareKeepsExtents(base, o);
    ReadyCanLayOut(d);
    RelayoutKeepsExtents(d, o.imageSize, d');
  }
}
