/** The entity tree of a disk: a partition table at the root, partitions below it, and
    LUKS containers, volume groups, logical volumes, Btrfs volumes, subvolumes and
    filesystems further down.  The predicates on `Kind` stand for the Go interfaces. */
module Entities {

  const MIB: nat := 0x10_0000
  const GIB: nat := 0x4000_0000
  const EXTENT: nat := 4 * MIB

  datatype Kind =
    | Table
    | Partition(start: nat, ptype: string)
    | Luks
    | VolumeGroup(name: string)
    | LogicalVolume(name: string)
    | Btrfs
    | Subvolume(name: string, mountpoint: string, readOnly: bool)
    | Filesystem(fstype: string, mountpoint: string, fsLabel: string, options: string)
    | Swap
    | Raw
  {
    predicate Container() {
      Table? || Partition? || Luks? || VolumeGroup? || LogicalVolume? || Btrfs?
    }

    predicate Sizeable() {
      Table? || Partition? || LogicalVolume? || Subvolume?
    }

    predicate Mountable() {
      Filesystem? || Subvolume?
    }

    predicate VolumeContainer() {
      VolumeGroup? || Btrfs? || Luks?
    }

    predicate MountpointCreator() {
      Table? || VolumeGroup? || Btrfs?
    }

    predicate Payload() {
      Luks? || VolumeGroup? || Btrfs? || Filesystem? || Swap? || Raw?
    }

    /** At most one child: a partition, a LUKS container and a logical volume hold one payload. */
    predicate SinglePayload() {
      Partition? || Luks? || LogicalVolume?
    }

    /** Which children Go's field types admit below an entity of this kind. */
    predicate Admits(child: Kind) {
      if Table? then child.Partition?
      else if VolumeGroup? then child.LogicalVolume?
      else if Btrfs? then child.Subvolume?
      else SinglePayload() && child.Payload()
    }

    /** What a resize may be aimed at: something mounted, or something with a size. */
    predicate Target() {
      Mountable() || Sizeable()
    }

    function Metadata(): nat {
      if VolumeGroup? then MIB else if Luks? then 16 * MIB else 0
    }
  }

  /** `size` is meaningful for the sizeable kinds only. */
  datatype Entity = Entity(kind: Kind, size: nat, children: seq<Entity>)

  /** An entity's address: the child indices that lead to it from the root. */
  type Path = seq<nat>

  predicate WellTyped(e: Entity) {
    && (e.kind.SinglePayload() ==> |e.children| <= 1)
    && forall i :: 0 <= i < |e.children| ==> e.kind.Admits(e.children[i].kind) && WellTyped(e.children[i])
  }

  predicate ValidPath(e: Entity, p: Path) {
    p != [] ==> p[0] < |e.children| && ValidPath(e.children[p[0]], p[1..])
  }

  function At(e: Entity, p: Path): Entity
    requires ValidPath(e, p)
  {
    if p == [] then e else At(e.children[p[0]], p[1..])
  }

  function UpdateAt(e: Entity, p: Path, n: Entity): Entity
    requires ValidPath(e, p)
  {
    if p == [] then n
    else e.(children := e.children[p[0] := UpdateAt(e.children[p[0]], p[1..], n)])
  }

  lemma ChildTyped(e: Entity, i: nat)
    requires WellTyped(e) && i < |e.children|
    ensures e.kind.Admits(e.children[i].kind) && WellTyped(e.children[i])
  {
  }

  lemma UnfoldTwice(e: Entity, p: Path, n: Entity)
    requires ValidPath(e, p) && 2 <= |p|
    ensures p[1] < |e.children[p[0]].children|
    ensures var c := e.children[p[0]];
            var g := c.children[p[1]];
            && ValidPath(g, p[2..]) && At(e, p) == At(g, p[2..])
            && UpdateAt(e, p, n) == e.(children := e.children[p[0] := c.(children := c.children[p[1] := UpdateAt(g, p[2..], n)])])
  {
    assert p[1..][1..] == p[2..];
    assert ValidPath(e.children[p[0]], p[1..]);
  }

  // ---------- space ----------

  /** What an entity takes from the entity that holds it. */
  function Need(e: Entity): nat
    decreases e, 1
  {
    if e.kind.Sizeable() then e.size else Content(e)
  }

  /** What the inside of an entity takes: its metadata and all its children. */
  function Content(e: Entity): nat
    decreases e, 0
  {
    e.kind.Metadata() + SumNeeds(e.children)
  }

  function SumNeeds(cs: seq<Entity>): nat
    decreases cs
  {
    if cs == [] then 0 else Need(cs[0]) + SumNeeds(cs[1..])
  }

  /** Every sized entity of the tree has room for what it holds, with all nested metadata. */
  predicate Fits(e: Entity) {
    && (e.kind.Sizeable() ==> Content(e) <= e.size)
    && forall i :: 0 <= i < |e.children| ==> Fits(e.children[i])
  }

  /** The sum of the children's sizes up to the first child that has no size. */
  function SizedSum(cs: seq<Entity>): nat {
    if cs == [] || !cs[0].kind.Sizeable() then 0 else cs[0].size + SizedSum(cs[1..])
  }

  lemma {:induction false} SizedSumIsNeed(cs: seq<Entity>)
    requires forall i :: 0 <= i < |cs| ==> cs[i].kind.Sizeable()
    ensures SizedSum(cs) == SumNeeds(cs)
  {
    if cs != [] { SizedSumIsNeed(cs[1..]); }
  }

  lemma {:induction false} SumNeedsUpdate(cs: seq<Entity>, i: nat, c: Entity)
    requires i < |cs|
    ensures SumNeeds(cs[i := c]) == SumNeeds(cs) - Need(cs[i]) + Need(c)
  {
    if i == 0 {
      assert cs[0 := c][1..] == cs[1..];
    } else {
      assert cs[i := c][1..] == cs[1..][i - 1 := c];
      SumNeedsUpdate(cs[1..], i - 1, c);
    }
  }

  lemma {:induction false} SumNeedsAtLeast(cs: seq<Entity>, i: nat)
    requires i < |cs|
    ensures Need(cs[i]) <= SumNeeds(cs)
  {
    if i != 0 { SumNeedsAtLeast(cs[1..], i - 1); }
  }

  /** A well typed container holds either only sized children or one payload without size. */
  lemma ChildrenShape(e: Entity)
    requires WellTyped(e)
    ensures (e.kind.Table? || e.kind.VolumeGroup? || e.kind.Btrfs?) ==> SizedSum(e.children) == SumNeeds(e.children)
    ensures e.kind.SinglePayload() ==> SizedSum(e.children) == 0
    ensures e.kind.SinglePayload() && e.children != [] ==> SumNeeds(e.children) == Need(e.children[0])
    ensures !e.kind.Container() ==> e.children == []
  {
    if e.kind.Table? || e.kind.VolumeGroup? || e.kind.Btrfs? {
      SizedSumIsNeed(e.children);
    } else if e.children != [] {
      assert e.kind.Admits(e.children[0].kind);
      assert e.children[1..] == [];
    }
  }
}
