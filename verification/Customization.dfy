/** Applying filesystem customizations: enlarging what exists, creating what does not. */
module Customization {
  import opened Basics
  import opened Entities
  import opened Resize
  import opened Mounts
  import opened Layout
  import opened Volumes
  import opened Growth
  import opened Creation

  datatype Mount = Mount(mountpoint: string, minSize: nat)
  {
    function Size(): (r: nat)
      ensures 0 < r && minSize <= r
      ensures r == minSize || r == if mountpoint == "/boot" then 524288000 else 1073741824
    {
      ClampSize(mountpoint, minSize)
    }
  }

  /** The table after the loop, and the mountpoints it did not find and was not to create. */
  datatype Applied = Applied(disk: Disk, leftover: seq<Mount>)

  function Enlarge(d: Disk, m: Mount): (d': Disk)
    requires Ready(d) && EntityPath(d.tree, m.mountpoint).Some?
    ensures Ready(d') && Keeps(d, d') && MountSet(d'.tree) == MountSet(d.tree)
  {
    EntityPathMounted(d.tree, m.mountpoint);
    var p := EntityPath(d.tree, m.mountpoint).value;
    var size := AlignBranch(d.config, d.tree, p, m.Size());
    ResizeKeeps(d, p, size);
    Disk(d.config, ResizeBranch(d.tree, p, size).entity)
  }

  /** One mountpoint: enlarged, created, or left alone when it is missing and not to be created. */
  function ApplyOne(d: Disk, m: Mount, fstype: string, create: bool): (r: Result<Disk, Failure>)
    requires Ready(d)
    ensures r.Ok? ==> Ready(r.value)
  {
    if EntityPath(d.tree, m.mountpoint).Some? then Ok(Enlarge(d, m))
    else if !create then Ok(d)
    else
      FoundIffMounted(d.tree, m.mountpoint);
      var r := CreateFilesystem(d, m.mountpoint, fstype, m.Size());
      if r.Ok? then CreateFilesystemCorrect(d, m.mountpoint, fstype, m.Size()); r else r
  }

  predicate Leaves(d: Disk, m: Mount, create: bool) {
    !create && EntityPath(d.tree, m.mountpoint).None?
  }

  function Apply(d: Disk, ms: seq<Mount>, fstype: string, create: bool): (r: Result<Applied, Failure>)
    requires Ready(d)
    ensures r.Ok? ==> Ready(r.value.disk)
    decreases |ms|
  {
    if ms == [] then Ok(Applied(d, []))
    else
      match ApplyOne(d, ms[0], fstype, create)
      case Err(f) => Err(f)
      case Ok(d1) =>
        match Apply(d1, ms[1..], fstype, create)
        case Err(f) => Err(f)
        case Ok(a) => Ok(a.(leftover := (if Leaves(d, ms[0], create) then [ms[0]] else []) + a.leftover))
  }

  predicate Requested(ms: seq<Mount>, m: string) {
    exists i :: 0 <= i < |ms| && ms[i].mountpoint == m
  }

  /** How often a mountpoint occurs after the customization. */
  function Count(before: multiset<string>, ms: seq<Mount>, create: bool, m: string): nat {
    if m !in before && create && Requested(ms, m) then 1 else before[m]
  }

  /** Every requested mountpoint that is there, and there once, has its room. */
  ghost predicate AllRoomy(e: Entity, ms: seq<Mount>) {
    forall i :: 0 <= i < |ms| && MountSet(e)[ms[i].mountpoint] == 1 ==> Room(e, ms[i].mountpoint, ms[i].Size(), 0)
  }

  lemma ApplyOneCorrect(d: Disk, m: Mount, fstype: string, create: bool)
    requires Ready(d) && ApplyOne(d, m, fstype, create).Ok?
    ensures var d' := ApplyOne(d, m, fstype, create).value;
            && Keeps(d, d')
            && (forall x :: MountSet(d'.tree)[x] == Count(MountSet(d.tree), [m], create, x))
            && AllRoomy(d'.tree, [m])
  {
    FoundIffMounted(d.tree, m.mountpoint);
    KeepsReflexive(d);
    var d' := ApplyOne(d, m, fstype, create).value;
    assert forall x :: Requested([m], x) <==> [m][0].mountpoint == x;
    if EntityPath(d.tree, m.mountpoint).Some? {
      EntityPathMounted(d.tree, m.mountpoint);
      var p := EntityPath(d.tree, m.mountpoint).value;
      var size := AlignBranch(d.config, d.tree, p, m.Size());
      if MountSet(d.tree)[m.mountpoint] == 1 {
        ResizeMountRoom(d, m.mountpoint, p, size);
        RoomWeaker(d'.tree, m.mountpoint, m.Size(), size, 0);
      }
    } else if create {
      CreateFilesystemCorrect(d, m.mountpoint, fstype, m.Size());
    }
  }

  lemma {:induction false} RoomWeaker(e: Entity, m: string, s: nat, s': nat, outer: nat)
    requires Room(e, m, s', outer) && s <= s'
    ensures Room(e, m, s, outer)
  {
    if !e.kind.Mountable() {
      var here := if e.kind.Sizeable() then e.size else outer;
      forall i | 0 <= i < |e.children| ensures Room(e.children[i], m, s, here) {
        RoomWeaker(e.children[i], m, s, s', here);
      }
    }
  }

  /** Main result: a customization keeps everything, makes exactly the missing requested
      mountpoints, once each, and gives every requested mountpoint its clamped size. */
  lemma {:induction false} ApplyCorrect(d: Disk, ms: seq<Mount>, fstype: string, create: bool)
    requires Ready(d) && Apply(d, ms, fstype, create).Ok?
    ensures var d' := Apply(d, ms, fstype, create).value.disk;
            && Keeps(d, d')
            && (forall x :: MountSet(d'.tree)[x] == Count(MountSet(d.tree), ms, create, x))
            && AllRoomy(d'.tree, ms)
    decreases |ms|
  {
    KeepsReflexive(d);
    if ms != [] {
      var d1 := ApplyOne(d, ms[0], fstype, create).value;
      var d' := Apply(d1, ms[1..], fstype, create).value.disk;
      ApplyOneCorrect(d, ms[0], fstype, create);
      ApplyCorrect(d1, ms[1..], fstype, create);
      KeepsTransitive(d, d1, d');
      CountsCompose(d, d1, d', ms, create);
      assert [ms[0]][0] == ms[0];
      assert MountSet(d1.tree)[ms[0].mountpoint] == Count(MountSet(d.tree), [ms[0]], create, ms[0].mountpoint);
      RoomsCompose(d1, d', ms);
    }
  }

  lemma CountsCompose(d: Disk, d1: Disk, d': Disk, ms: seq<Mount>, create: bool)
    requires ms != []
    requires forall x :: MountSet(d1.tree)[x] == Count(MountSet(d.tree), [ms[0]], create, x)
    requires forall x :: MountSet(d'.tree)[x] == Count(MountSet(d1.tree), ms[1..], create, x)
    ensures forall x :: MountSet(d'.tree)[x] == Count(MountSet(d.tree), ms, create, x)
  {
    forall x ensures MountSet(d'.tree)[x] == Count(MountSet(d.tree), ms, create, x) {
      RequestedSplit(ms, x);
      assert MountSet(d1.tree)[x] == Count(MountSet(d.tree), [ms[0]], create, x);
    }
  }

  lemma RequestedSplit(ms: seq<Mount>, x: string)
    requires ms != []
    ensures Requested(ms, x) <==> Requested([ms[0]], x) || Requested(ms[1..], x)
  {
    if Requested(ms[1..], x) {
      var i :| 0 <= i < |ms[1..]| && ms[1..][i].mountpoint == x;
      assert ms[i + 1].mountpoint == x;
    }
    if Requested([ms[0]], x) { assert ms[0].mountpoint == x; }
    if Requested(ms, x) {
      var i :| 0 <= i < |ms| && ms[i].mountpoint == x;
      assert if i == 0 then [ms[0]][0].mountpoint == x else ms[1..][i - 1].mountpoint == x;
    }
  }

  lemma RoomsCompose(d1: Disk, d': Disk, ms: seq<Mount>)
    requires ms != [] && Keeps(d1, d') && AllRoomy(d1.tree, [ms[0]]) && AllRoomy(d'.tree, ms[1..])
    requires ms[0].mountpoint in MountSet(d'.tree) ==> ms[0].mountpoint in MountSet(d1.tree)
    ensures AllRoomy(d'.tree, ms)
  {
    forall i | 0 <= i < |ms| && MountSet(d'.tree)[ms[i].mountpoint] == 1
      ensures Room(d'.tree, ms[i].mountpoint, ms[i].Size(), 0)
    {
      if i == 0 {
        assert [ms[0]][0] == ms[0] && RoomKept(d1.tree, d'.tree, ms[0].mountpoint);
      } else {
        assert ms[1..][i - 1] == ms[i];
      }
    }
  }

  /** What the first pass leaves over are the requests for mountpoints that do not exist. */
  lemma {:induction false} ApplyLeftover(d: Disk, ms: seq<Mount>, fstype: string)
    requires Ready(d)
    ensures Apply(d, ms, fstype, false).Ok?
    ensures var left := Apply(d, ms, fstype, false).value.leftover;
            && (forall m :: m in left <==> m in ms && m.mountpoint !in MountSet(d.tree))
    decreases |ms|
  {
    if ms != [] {
      FoundIffMounted(d.tree, ms[0].mountpoint);
      var d1 := ApplyOne(d, ms[0], fstype, false).value;
      assert MountSet(d1.tree) == MountSet(d.tree);
      ApplyLeftover(d1, ms[1..], fstype);
      assert ms == [ms[0]] + ms[1..];
    }
  }
}
