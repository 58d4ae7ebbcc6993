/** What every step of a customization keeps: resizing a branch and adding a mountpoint. */
module Growth {
  import opened Basics
  import opened Entities
  import opened Resize
  import opened Mounts
  import opened Layout
  import opened LayoutSpace
  import opened Volumes

  /** A table with a root filesystem. */
  predicate Ready(d: Disk) {
    ValidDisk(d) && "/" in MountSet(d.tree)
  }

  lemma ReadyHasRoot(d: Disk)
    requires Ready(d)
    ensures EntityPath(d.tree, "/").Some? && MountedAt(d.tree, EntityPath(d.tree, "/").value, "/")
  {
    FoundIffMounted(d.tree, "/");
    EntityPathMounted(d.tree, "/");
  }

  ghost predicate RoomKept(e: Entity, e': Entity, m: string) {
    forall s: nat :: Room(e, m, s, 0) ==> Room(e', m, s, 0)
  }

  /** Every partition but the root's has a size to be laid out with. */
  predicate Positive(p: Entity) {
    "/" in MountSet(p) || 0 < FitTo(p, p.size)
  }

  predicate AllPositive(e: Entity) {
    forall i :: 0 <= i < |e.children| ==> Positive(e.children[i])
  }

  /** What no step of a customization ever loses. */
  ghost predicate Keeps(d: Disk, d': Disk) {
    && d'.config == d.config
    && ValidDisk(d')
    && MountSet(d.tree) <= MountSet(d'.tree)
    && (forall m :: m in MountSet(d.tree) ==> RoomKept(d.tree, d'.tree, m))
    && (InnerFits(d.tree) ==> InnerFits(d'.tree))
    && (NamesDistinct(d.tree) ==> NamesDistinct(d'.tree))
    && (AllPositive(d.tree) ==> AllPositive(d'.tree))
  }

  lemma KeepsReflexive(d: Disk)
    requires ValidDisk(d)
    ensures Keeps(d, d)
  {
  }

  lemma KeepsTransitive(a: Disk, b: Disk, c: Disk)
    requires Keeps(a, b) && Keeps(b, c)
    ensures Keeps(a, c)
  {
    forall m | m in MountSet(a.tree) ensures RoomKept(a.tree, c.tree, m) {
      assert RoomKept(a.tree, b.tree, m) && RoomKept(b.tree, c.tree, m);
    }
  }

  // ---------- resizing ----------

  lemma {:induction false} MinSizeGrows(v: Entity, v': Entity, size: nat, size': nat)
    requires Grown(v, v') && WellTyped(v) && v.kind.VolumeContainer() && size <= size'
    ensures MinSize(v, size) <= MinSize(v', size')
  {
    GrownKeepsShape(v, v');
    ChildrenShape(v);
    ChildrenShape(v');
    GrownNeeds(v.children, v'.children);
    match v.kind {
      case VolumeGroup(_) =>
        AlignUpMonotone(Max(size, SizedSum(v.children) + MIB), Max(size', SizedSum(v'.children) + MIB), EXTENT);
      case Btrfs =>
      case Luks =>
        if v.children != [] && v.children[0].kind.VolumeContainer() {
          MinSizeGrows(v.children[0], v'.children[0], size, size');
        }
    }
  }

  lemma PositiveGrows(p: Entity, p': Entity)
    requires Grown(p, p') && WellTyped(p) && Positive(p)
    ensures Positive(p')
  {
    GrownMounts(p, p');
    if p.children != [] && p.children[0].kind.VolumeContainer() {
      MinSizeGrows(p.children[0], p'.children[0], p.size, p'.size);
    }
  }

  lemma {:induction false} NamesGrow(e: Entity, e': Entity)
    requires Grown(e, e') && NamesDistinct(e)
    ensures NamesDistinct(e')
  {
    forall i | 0 <= i < |e'.children| ensures NamesDistinct(e'.children[i]) {
      NamesGrow(e.children[i], e'.children[i]);
    }
    if e.kind.VolumeGroup? {
      assert forall i :: 0 <= i < |e.children| ==> Grown(e.children[i], e'.children[i]);
    }
  }

  lemma GrownRoomKept(e: Entity, e': Entity, m: string)
    requires Grown(e, e')
    ensures RoomKept(e, e', m)
  {
    forall s: nat | Room(e, m, s, 0) ensures Room(e', m, s, 0) {
      RoomGrows(e, e', m, s, 0, 0);
    }
  }

  lemma GrownKeeps(d: Disk, d': Disk)
    requires ValidDisk(d) && d'.config == d.config && Grown(d.tree, d'.tree)
    requires InnerFits(d.tree) ==> InnerFits(d'.tree)
    ensures Keeps(d, d') && MountSet(d'.tree) == MountSet(d.tree)
  {
    GrownKeepsShape(d.tree, d'.tree);
    GrownMounts(d.tree, d'.tree);
    forall m { GrownRoomKept(d.tree, d'.tree, m); }
    if NamesDistinct(d.tree) { NamesGrow(d.tree, d'.tree); }
    if AllPositive(d.tree) {
      forall i | 0 <= i < |d'.tree.children| ensures Positive(d'.tree.children[i]) {
        PositiveGrows(d.tree.children[i], d'.tree.children[i]);
      }
    }
  }

  lemma InnerAt(e: Entity, p: Path)
    requires WellTyped(e) && e.kind.Table? && ValidPath(e, p) && 2 <= |p|
    ensures p[0] < |e.children| && p[1] == 0 && |e.children[p[0]].children| == 1
  {
    var part := e.children[p[0]];
    assert e.kind.Admits(part.kind);
    assert ValidPath(part, p[1..]);
  }

  /** Resizing towards any target keeps what is inside the partitions fitting. */
  lemma ResizeInnerFits(e: Entity, p: Path, size: nat)
    requires WellTyped(e) && e.kind.Table? && InnerFits(e) && ValidPath(e, p) && At(e, p).kind.Target()
    ensures InnerFits(ResizeBranch(e, p, size).entity)
  {
    var e' := ResizeBranch(e, p, size).entity;
    if p != [] {
      var part := e.children[p[0]];
      assert e'.children == e.children[p[0] := ResizeBranch(part, p[1..], size).entity];
      if p[1..] != [] {
        InnerAt(e, p);
        UnfoldTwice(e, p, e);
        assert p[1..][1..] == p[2..];
        var below := ResizeBranch(part.children[0], p[1..][1..], size);
        assert e'.children[p[0]].children == part.children[0 := below.entity];
        assert Fits(part.children[0]);
        ResizeFits(part.children[0], p[1..][1..], size);
      }
    }
  }

  lemma ResizeKeeps(d: Disk, p: Path, size: nat)
    requires ValidDisk(d) && ValidPath(d.tree, p) && At(d.tree, p).kind.Target()
    ensures var d' := Disk(d.config, ResizeBranch(d.tree, p, size).entity);
            Keeps(d, d') && MountSet(d'.tree) == MountSet(d.tree)
  {
    ResizeGrows(d.tree, p, size);
    if InnerFits(d.tree) { ResizeInnerFits(d.tree, p, size); }
    GrownKeeps(d, Disk(d.config, ResizeBranch(d.tree, p, size).entity));
  }

  /** A resize aimed at the entity mounted at `m` gives `m` that room. */
  lemma ResizeMountRoom(d: Disk, m: string, p: Path, size: nat)
    requires ValidDisk(d) && MountedAt(d.tree, p, m) && MountSet(d.tree)[m] <= 1
    ensures Room(ResizeBranch(d.tree, p, size).entity, m, size, 0)
  {
    var e := d.tree;
    var e' := ResizeBranch(e, p, size).entity;
    ResizeGrows(e, p, size);
    ResizeReachesNearest(e, p, size, 0);
    GrownMounts(e, e');
    GrownKeepsShape(e, e');
    GrownAt(e, e', p);
    RoomFromPath(e', m, size, 0, p);
  }
}
