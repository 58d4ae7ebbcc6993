/** How large directories, enlarged mountpoints and new mountpoints make the table: no larger than
    needed, in whole extents and whole grains. */
module ExactSizes {
  import opened Basics
  import opened Entities
  import opened Resize
  import opened ResizeExact
  import opened ResizeOrder
  import opened Mounts
  import opened Names
  import opened DirectorySizes
  import opened Layout
  import opened LayoutNumbers
  import opened Volumes
  import opened Growth
  import opened Creation
  import opened Customization

  // ---------- directories ----------

  /** The sized entity below something mounted is on no other mountpoint's branch. */
  lemma HolderOffPath(e: Entity, p: Path, q: Path, r: Path)
    requires WellTyped(e) && ValidPath(e, p) && ValidPath(e, r) && Holder(e, p, q) && Diverge(p, r)
    ensures !(q <= r)
  {
    if q <= r {
      AtAt(e, p, q);
      AtAt(e, r, q);
      DivergeBelow(p, r, q);
      DivergingChildNotBare(At(e, q), p[|q|..], r[|q|..]);
    }
  }

  lemma {:induction false} DivergeBelow(p: Path, r: Path, q: Path)
    requires q <= p && q <= r && Diverge(p, r)
    ensures Diverge(p[|q|..], r[|q|..]) && q != p && q != r
    decreases q
  {
    if q == [] {
      assert p[0..] == p && r[0..] == r;
    } else {
      PrefixTail(q, p);
      PrefixTail(q, r);
      DivergeBelow(p[1..], r[1..], q[1..]);
      assert p[1..][|q[1..]|..] == p[|q|..] && r[1..][|q[1..]|..] == r[|q|..];
    }
  }

  lemma DivergingChildNotBare(a: Entity, p: Path, r: Path)
    requires WellTyped(a) && ValidPath(a, p) && ValidPath(a, r) && Diverge(p, r) && a.kind.Sizeable()
    ensures !Bare(a.children[p[0]], p[1..])
  {
    ChildTyped(a, p[0]);
    if p[0] == r[0] {
      DivergingNotBare(a.children[p[0]], p[1..], r[1..]);
    } else {
      SiblingsSized(a, p[0], r[0]);
    }
  }

  lemma {:induction false} ResizeAllKeepsOffPath(e: Entity, rs: seq<Request>, q: Path)
    requires Addressed(e, rs) && ValidPath(e, q) && forall r :: r in rs ==> !(q <= r.path)
    ensures ValidPath(ResizeAll(e, rs), q) && At(ResizeAll(e, rs), q) == At(e, q)
    decreases rs
  {
    if rs != [] {
      var first := ResizeTo(e, rs[0]);
      ResizeKeepsOffPath(e, rs[0].path, rs[0].size, q);
      StillAddressed(e, first, rs[1..]);
      ResizeAllKeepsOffPath(first, rs[1..], q);
    }
  }

  /** Main result: the nearest sized entity of a mountpoint with directories ends with exactly the sum
      of the directories that it is the closest mounted ancestor of, with the headers in between and in
      whole extents, unless it was large enough. */
  lemma DirectoriesExact(e: Entity, sizes: map<string, nat>, m: string, q: Path)
    requires WellTyped(e) && AllFound(e, sizes) && m in Targets(e, sizes)
    requires EntityPath(e, m).Some? && ValidPath(e, EntityPath(e, m).value) && Holder(e, EntityPath(e, m).value, q)
    ensures var e' := EnsureDirectories(e, sizes);
            && ValidPath(e', q)
            && var a, a' := At(e, q), At(e', q);
               && GrownTo(a.kind, a.size, a'.size, Total(e, sizes, m) + Headers(EntityPath(e, m).value, q))
               && a' == a.(size := a'.size)
  {
    var p := EntityPath(e, m).value;
    var ms := SetListed(Targets(e, sizes) - {m});
    var all := [m] + ms;
    assert multiset(Targets(e, sizes)) == multiset(Targets(e, sizes) - {m}) + multiset{m};
    EveryOrder(e, sizes, all);
    ListedOnce(Targets(e, sizes), all);
    RequestsDiverge(e, sizes, all);
    assert all[1..] == ms;
    EntityPathMounted(e, m);
    var rs := Requests(e, sizes, all);
    var first := ResizeTo(e, rs[0]);
    HolderExact(e, p, q, Total(e, sizes, m));
    StillAddressed(e, first, rs[1..]);
    forall r | r in rs[1..] ensures !(q <= r.path) { HolderOffPath(e, p, q, r.path); }
    ResizeAllKeepsOffPath(first, rs[1..], q);
  }

  // ---------- rounding along a branch ----------

  /** A branch that leads into no volume group is rounded to a grain only. */
  lemma {:induction false} AlignWithoutGroup(c: Config, e: Entity, p: Path, size: nat)
    requires ValidPath(e, p) && WellTyped(e)
    requires forall q :: q <= p && ValidPath(e, q) ==> !At(e, q).kind.VolumeGroup?
    ensures if e.kind.Table? then LeastMultiple(AlignBranch(c, e, p, size), size, c.Grain())
            else AlignBranch(c, e, p, size) == size
    decreases p
  {
    assert [] <= p && ValidPath(e, []) && At(e, []) == e;
    if p != [] {
      var below := e.children[p[0]];
      ChildTyped(e, p[0]);
      forall q | q <= p[1..] && ValidPath(below, q) ensures !At(below, q).kind.VolumeGroup? {
        StepIn(e, p, q);
      }
      AlignWithoutGroup(c, below, p[1..], size);
    }
  }

  lemma StepIn(e: Entity, p: Path, q: Path)
    requires ValidPath(e, p) && p != [] && q <= p[1..] && ValidPath(e.children[p[0]], q)
    ensures [p[0]] + q <= p && ValidPath(e, [p[0]] + q) && At(e, [p[0]] + q) == At(e.children[p[0]], q)
  {
    assert ([p[0]] + q)[1..] == q;
    assert p == [p[0]] + p[1..];
  }

  /** The only volume group of a branch. */
  ghost predicate OnlyGroup(e: Entity, p: Path, g: Path)
    requires ValidPath(e, p)
  {
    && g <= p && ValidPath(e, g) && At(e, g).kind.VolumeGroup?
    && forall q :: q <= p && ValidPath(e, q) && At(e, q).kind.VolumeGroup? ==> q == g
  }

  /** A branch that leads into one volume group is rounded to an extent and then to a grain. */
  lemma {:induction false} AlignInGroup(c: Config, e: Entity, p: Path, size: nat, g: Path) returns (extents: nat)
    requires ValidPath(e, p) && WellTyped(e) && OnlyGroup(e, p, g)
    ensures LeastMultiple(extents, size, 4194304)
    ensures if e.kind.Table? then LeastMultiple(AlignBranch(c, e, p, size), extents, c.Grain())
            else AlignBranch(c, e, p, size) == extents
    decreases p
  {
    if g == [] {
      if p != [] {
        forall q | q <= p[1..] && ValidPath(e.children[p[0]], q) ensures !At(e.children[p[0]], q).kind.VolumeGroup? {
          StepIn(e, p, q);
        }
        ChildTyped(e, p[0]);
        AlignWithoutGroup(c, e.children[p[0]], p[1..], size);
      }
      extents := AlignUp(size, EXTENT);
    } else {
      PrefixTail(g, p);
      assert [] <= p && ValidPath(e, []) && At(e, []) == e;
      ChildTyped(e, p[0]);
      forall q | q <= p[1..] && ValidPath(e.children[p[0]], q) && At(e.children[p[0]], q).kind.VolumeGroup?
        ensures q == g[1..]
      {
        StepIn(e, p, q);
        assert ([p[0]] + q)[1..] == q;
      }
      extents := AlignInGroup(c, e.children[p[0]], p[1..], size, g[1..]);
    }
  }

  // ---------- enlarging ----------

  /** Main result: an existing mountpoint's nearest sized entity ends with exactly the requested size,
      at least 500 MiB for "/boot" and a GiB for anything else, rounded along its branch, with the
      headers in between and in whole extents, unless it was large enough. */
  lemma EnlargeExact(d: Disk, m: Mount, fstype: string, create: bool, q: Path)
    requires Ready(d) && EntityPath(d.tree, m.mountpoint).Some?
    requires ValidPath(d.tree, EntityPath(d.tree, m.mountpoint).value) && Holder(d.tree, EntityPath(d.tree, m.mountpoint).value, q)
    ensures ApplyOne(d, m, fstype, create).Ok?
    ensures var d', p, asked := ApplyOne(d, m, fstype, create).value, EntityPath(d.tree, m.mountpoint).value,
                                Max(m.minSize, if m.mountpoint == "/boot" then 524288000 else 1073741824);
            && ValidPath(d'.tree, q)
            && var a, a' := At(d.tree, q), At(d'.tree, q);
               && GrownTo(a.kind, a.size, a'.size, AlignBranch(d.config, d.tree, p, asked) + Headers(p, q))
               && a' == a.(size := a'.size)
  {
    EntityPathMounted(d.tree, m.mountpoint);
    var p := EntityPath(d.tree, m.mountpoint).value;
    HolderExact(d.tree, p, q, AlignBranch(d.config, d.tree, p, m.Size()));
  }

  // ---------- creating ----------

  /** No creator lies deeper on the path. */
  lemma {:induction false} DeepestIsDeepest(e: Entity, p: Path, q: Path)
    requires ValidPath(e, p) && q <= p && ValidPath(e, q) && At(e, q).kind.MountpointCreator()
    ensures DeepestCreator(e, p).Some? && |q| <= |DeepestCreator(e, p).value|
    decreases p
  {
    if q != [] {
      PrefixTail(q, p);
      DeepestIsDeepest(e.children[p[0]], p[1..], q[1..]);
    }
  }

  /** The container that gets the new mountpoint. */
  function Creator(d: Disk): (cp: Path)
    requires Ready(d)
    ensures EntityPath(d.tree, "/").Some? && cp <= EntityPath(d.tree, "/").value
    ensures ValidPath(d.tree, cp) && At(d.tree, cp).kind.MountpointCreator()
    ensures forall q :: q <= EntityPath(d.tree, "/").value && ValidPath(d.tree, q) && At(d.tree, q).kind.MountpointCreator()
                        ==> |q| <= |cp|
  {
    ReadyHasRoot(d);
    var p := EntityPath(d.tree, "/").value;
    assert forall q :: q <= p && ValidPath(d.tree, q) && At(d.tree, q).kind.MountpointCreator()
                       ==> |q| <= |DeepestCreator(d.tree, p).value| by {
      forall q | q <= p && ValidPath(d.tree, q) && At(d.tree, q).kind.MountpointCreator() {
        DeepestIsDeepest(d.tree, p, q);
      }
    }
    DeepestCreator(d.tree, p).value
  }

  /** Creating a mountpoint fails when the table is full, with 128 partitions on GPT and 4 otherwise;
      when a volume group is to hold Btrfs or has no name left; and when a Btrfs volume is to hold
      anything else. */
  lemma CreateFilesystemFails(d: Disk, m: string, fstype: string, size: nat)
    requires Ready(d)
    ensures var creator, r := At(d.tree, Creator(d)), CreateFilesystem(d, m, fstype, size);
            && (creator.kind.Table? ==>
                  if |creator.children| == (if d.config.tableType == Gpt then 128 else 4) then r == Err(TooManyPartitions) else r.Ok?)
            && (creator.kind.VolumeGroup? ==>
                  if fstype == "btrfs" then r == Err(BtrfsUnderLvm)
                  else if AllTaken(LvName(m), LvNames(creator)) then r == Err(NameCollision) else r.Ok?)
            && (creator.kind.Btrfs? ==> if fstype != "btrfs" then r == Err(OnlyBtrfsSubvolumes) else r.Ok?)
  {
  }

  /** What is made of the new mountpoint in each kind of container, with `wanted` bytes. */
  predicate NewMountpoint(t: TableType, creator: Entity, m: string, fstype: string, wanted: nat, child: Entity) {
    var fs := Entity(Filesystem(fstype, m, "", "defaults"), 0, []);
    if creator.kind.Table? then
      && child.kind == Partition(0, if t != Gpt then ""
                                    else if m == "/boot" then "BC13C2FF-59E6-4262-A352-B275FD6F7172"
                                    else "0FC63DAF-8483-4772-8E79-3D69D8477DE4")
      && child.size == wanted && child.children == [fs]
    else if creator.kind.VolumeGroup? then
      && child.kind.LogicalVolume? && child.kind.name !in LvNames(creator)
      && LeastMultiple(child.size, wanted, 4194304) && child.children == [fs]
    else
      && child.kind == Subvolume(if m == "/" then "root" else m, m, false)
      && child.size == wanted && child.children == []
  }

  lemma {:induction false} SameAlign(c: Config, e: Entity, cp: Path, n': Entity, size: nat)
    requires ValidPath(e, cp) && n'.kind == At(e, cp).kind && n'.children != []
    requires !n'.children[|n'.children| - 1].kind.MountpointCreator()
    ensures ValidPath(UpdateAt(e, cp, n'), cp + [|n'.children| - 1])
    ensures AlignBranch(c, UpdateAt(e, cp, n'), cp + [|n'.children| - 1], size) == AlignBranch(c, e, cp, size)
    decreases cp
  {
    var p := cp + [|n'.children| - 1];
    if cp == [] {
      assert p[1..] == [];
    } else {
      assert p[1..] == cp[1..] + [|n'.children| - 1];
      SameAlign(c, e.children[cp[0]], cp[1..], n', size);
    }
  }

  /** The appended child after its branch is grown. */
  lemma AppendedGrown(e: Entity, cp: Path, n': Entity, wanted: nat)
    requires ValidPath(e, cp) && n'.children != []
    requires WellTyped(n'.children[|n'.children| - 1])
    requires var k := n'.children[|n'.children| - 1].kind; k.Partition? || k.LogicalVolume? || k.Subvolume?
    ensures var p := cp + [|n'.children| - 1];
            ValidPath(UpdateAt(e, cp, n'), p)
    ensures var last := |n'.children| - 1;
            var e' := ResizeBranch(UpdateAt(e, cp, n'), cp + [last], wanted).entity;
            && ValidPath(e', cp) && |At(e', cp).children| == |n'.children|
            && var a, a' := n'.children[last], At(e', cp).children[last];
               GrownTo(a.kind, a.size, a'.size, wanted) && a' == a.(size := a'.size)
  {
    var tree, last := UpdateAt(e, cp, n'), |n'.children| - 1;
    NewChildAt(e, cp, n');
    UpdateAtPath(e, cp, n');
    ResizeAt(tree, cp + [last], wanted, cp);
    assert (cp + [last])[|cp|..] == [last] && [last][1..] == [];
    TargetExact(n'.children[last], wanted);
  }

  lemma CreatedChild(c: Config, e: Entity, m: string, fstype: string, wanted: nat, child: Entity)
    requires e.kind.MountpointCreator() && CreateMountpoint(c, e, m, fstype, 0).Ok? && 0 < wanted
    requires var n' := CreateMountpoint(c, e, m, fstype, 0).value;
             var made := n'.children[|e.children|];
             child == made.(size := child.size) && GrownTo(made.kind, 0, child.size, wanted)
    ensures NewMountpoint(c.tableType, e, m, fstype, wanted, child)
  {
  }

  /** Main result: the new mountpoint is the last child of its container, with the size rounded along
      the branch and no more. */
  lemma CreateFilesystemExact(d: Disk, m: string, fstype: string, size: nat)
    requires Ready(d) && 0 < size && CreateFilesystem(d, m, fstype, size).Ok?
    ensures var d', cp := CreateFilesystem(d, m, fstype, size).value, Creator(d);
            var n := |At(d.tree, cp).children|;
            && ValidPath(d'.tree, cp) && |At(d'.tree, cp).children| == n + 1
            && NewMountpoint(d.config.tableType, At(d.tree, cp), m, fstype, AlignBranch(d.config, d.tree, cp, size),
                             At(d'.tree, cp).children[n])
  {
    var cp := Creator(d);
    var creator := At(d.tree, cp);
    var n' := CreateMountpoint(d.config, creator, m, fstype, 0).value;
    CreateMountpointAppends(d.config, creator, m, fstype, 0);
    NewChildIsEmpty(d.config, creator, m, fstype);
    SameAlign(d.config, d.tree, cp, n', size);
    var wanted := AlignBranch(d.config, d.tree, cp, size);
    AppendedGrown(d.tree, cp, n', wanted);
    var grown := At(CreateFilesystem(d, m, fstype, size).value.tree, cp);
    CreatedChild(d.config, creator, m, fstype, wanted, grown.children[|creator.children|]);
  }

  /** The same for a request: a missing mountpoint is made with exactly the clamped size asked for. */
  lemma RequestExact(d: Disk, m: Mount, fstype: string)
    requires Ready(d) && m.mountpoint !in MountSet(d.tree) && ApplyOne(d, m, fstype, true).Ok?
    ensures var d', cp := ApplyOne(d, m, fstype, true).value, Creator(d);
            var n := |At(d.tree, cp).children|;
            var asked := Max(m.minSize, if m.mountpoint == "/boot" then 524288000 else 1073741824);
            && ValidPath(d'.tree, cp) && |At(d'.tree, cp).children| == n + 1
            && NewMountpoint(d.config.tableType, At(d.tree, cp), m.mountpoint, fstype,
                             AlignBranch(d.config, d.tree, cp, asked), At(d'.tree, cp).children[n])
  {
    FoundIffMounted(d.tree, m.mountpoint);
    CreateFilesystemExact(d, m.mountpoint, fstype, m.Size());
  }

  lemma {:induction false} UpdateAtPath(e: Entity, p: Path, n: Entity)
    requires ValidPath(e, p)
    ensures ValidPath(UpdateAt(e, p, n), p) && At(UpdateAt(e, p, n), p) == n
    decreases p
  {
    if p != [] { UpdateAtPath(e.children[p[0]], p[1..], n); }
  }
}
