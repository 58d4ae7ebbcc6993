/** The partition table as an object that its methods rewrite in place.  Each method is proved
    against the function of the table's value that the other modules reason about. */
module PartitionTables {
  import opened Basics
  import opened Entities
  import opened Resize
  import opened ResizeOrder
  import opened Mounts
  import opened Names
  import opened Directories
  import opened DirectorySizes
  import opened Layout
  import opened Volumes
  import opened Growth
  import opened Creation
  import opened Wrapping
  import opened Customization
  import opened Clone
  import opened NewTable

  // ---------- loops over children ----------

  lemma {:induction false} SizedSumPrefix(cs: seq<Entity>, i: nat)
    requires i <= |cs| && forall j :: 0 <= j < i ==> cs[j].kind.Sizeable()
    ensures SizedSum(cs) == SizedSum(cs[..i]) + SizedSum(cs[i..])
  {
    if i == 0 {
      assert cs[0..] == cs;
    } else {
      SizedSumPrefix(cs[1..], i - 1);
      assert cs[..i][1..] == cs[1..][..i - 1] && cs[i..] == cs[1..][i - 1..];
    }
  }

  /** Adds up the sizes of the children up to the first one without a size. */
  method SizedChildren(e: Entity) returns (sum: nat)
    ensures sum == SizedSum(e.children)
  {
    sum := 0;
    var idx := 0;
    while idx < |e.children|
      invariant 0 <= idx <= |e.children|
      invariant SizedSum(e.children) == sum + SizedSum(e.children[idx..])
    {
      if !e.children[idx].kind.Sizeable() { break; }
      sum := sum + e.children[idx].size;
      assert e.children[idx..][1..] == e.children[idx + 1..];
      idx := idx + 1;
    }
  }

  /** The least size of a volume container for a desired size. */
  method ComputeMinSize(payload: Entity, size: nat) returns (r: nat)
    requires payload.kind.VolumeContainer() && WellTyped(payload)
    ensures r == MinSize(payload, size)
  {
    if payload.kind.Luks? {
      r := payload.kind.Metadata();
      if payload.children != [] {
        var inner := payload.children[0];
        if inner.kind.VolumeContainer() {
          var more := ComputeMinSize(inner, size);
          r := r + more;
        } else if inner.kind.Sizeable() {
          r := r + inner.size;
        }
      }
    } else {
      var sum := SizedChildren(payload);
      r := sum + payload.kind.Metadata();
      if r < size { r := size; }
      if payload.kind.VolumeGroup? { r := AlignUp(r, EXTENT); }
    }
  }

  // ---------- making volumes ----------

  /** Collects the names of the logical volumes of a volume group. */
  method CollectNames(vg: Entity) returns (names: set<string>)
    ensures names == LvNames(vg)
  {
    names := {};
    for i := 0 to |vg.children|
      invariant names == set j | 0 <= j < i && vg.children[j].kind.LogicalVolume? :: vg.children[j].kind.name
    {
      if vg.children[i].kind.LogicalVolume? { names := names + {vg.children[i].kind.name}; }
    }
  }

  /** Tries the base, then the base with two more digits. */
  method UniqueString(base: string, existing: set<string>) returns (r: Option<string>)
    ensures r == GenUniqueString(base, existing)
  {
    if base !in existing { return Some(base); }
    for i := 0 to 100
      invariant NumberedFrom(base, existing, i) == NumberedFrom(base, existing, 0)
    {
      var numbered := base + TwoDigits(i);
      if numbered !in existing { return Some(numbered); }
    }
    return None;
  }

  method MakeLogicalVolume(vg: Entity, name: string, size: nat, payload: Entity) returns (r: Result<Entity, Failure>)
    ensures r == CreateLogicalVolume(vg, name, size, payload)
  {
    var chosen := name;
    if name == "" {
      if !payload.kind.Mountable() && !payload.kind.Swap? { return Err(NoNameForPayload); }
      var names := CollectNames(vg);
      var generated := UniqueString(BaseName(payload), names);
      if generated.None? { return Err(NameCollision); }
      chosen := generated.value;
    }
    return Ok(vg.(children := vg.children + [Entity(LogicalVolume(chosen), AlignUp(size, EXTENT), [payload])]));
  }

  method MakeMountpoint(c: Config, e: Entity, mountpoint: string, fstype: string, size: nat)
    returns (r: Result<Entity, Failure>)
    requires e.kind.MountpointCreator()
    ensures r == CreateMountpoint(c, e, mountpoint, fstype, size)
  {
    if e.kind.VolumeGroup? && fstype != "btrfs" {
      r := MakeLogicalVolume(e, "", size, NewFilesystem(fstype, mountpoint, ""));
    } else {
      r := CreateMountpoint(c, e, mountpoint, fstype, size);
    }
  }

  // ---------- one step of a branch ----------

  lemma {:induction false} AtUpdated(e: Entity, p: Path, n: Entity)
    requires ValidPath(e, p)
    ensures ValidPath(UpdateAt(e, p, n), p) && At(UpdateAt(e, p, n), p) == n
    ensures forall q: Path :: q <= p ==> ValidPath(UpdateAt(e, p, n), q)
    decreases p
  {
    if p != [] {
      AtUpdated(e.children[p[0]], p[1..], n);
      forall q: Path | q <= p ensures ValidPath(UpdateAt(e, p, n), q) {
        if q != [] { PrefixTail(q, p); }
      }
    }
  }

  lemma {:induction false} UpdateSame(e: Entity, p: Path)
    requires ValidPath(e, p)
    ensures UpdateAt(e, p, At(e, p)) == e
    decreases p
  {
    if p != [] { UpdateSame(e.children[p[0]], p[1..]); }
  }

  /** Resizing a branch is resizing its end and then, unless that stopped, the rest upwards. */
  lemma {:induction false} ResizeFromEnd(e: Entity, p: Path, size: nat)
    requires ValidPath(e, p)
    ensures var r := ResizeOne(At(e, p), size);
            var e' := UpdateAt(e, p, r.entity);
            if r.demand.None? || p == [] then ResizeBranch(e, p, size).entity == e' && (p == [] ==> ResizeBranch(e, p, size) == r)
                && (r.demand.None? ==> ResizeBranch(e, p, size).demand.None?)
            else ValidPath(e', p[..|p| - 1]) && ResizeBranch(e, p, size) == Resumed(e', p[..|p| - 1], r.demand.value)
    decreases p
  {
    if p != [] {
      var r := ResizeOne(At(e, p), size);
      var c := e.children[p[0]];
      ResizeFromEnd(c, p[1..], size);
      AtUpdated(e, p, r.entity);
      if r.demand.Some? && |p| > 1 {
        assert p[..|p| - 1][1..] == p[1..][..|p[1..]| - 1];
        var e' := UpdateAt(e, p, r.entity);
        var below := ResizeBranch(c, p[1..], size).entity;
        assert e'.children[p[0]] == UpdateAt(c, p[1..], r.entity);
        assert e'.children[p[0] := below] == e.children[p[0] := below];
      }
    }
  }

  function Resumed(e: Entity, p: Path, size: nat): Outcome
    requires ValidPath(e, p)
  {
    ResizeBranch(e, p, size)
  }

  // ---------- sorting ----------

  /** No partition of `ps` starts before `start`. */
  predicate StartFrom(ps: seq<Entity>, start: nat)
    requires Partitions(ps)
  {
    forall i :: 0 <= i < |ps| ==> start <= ps[i].kind.start
  }

  lemma ConsSorted(p: Entity, ps: seq<Entity>)
    requires p.kind.Partition? && Partitions(ps) && SortedByStart(ps) && StartFrom(ps, p.kind.start)
    ensures Partitions([p] + ps) && SortedByStart([p] + ps)
  {
  }

  lemma PermutedFrom(ps: seq<Entity>, p: Entity, r: seq<Entity>, start: nat)
    requires Partitions(ps) && Partitions(r) && p.kind.Partition? && multiset(r) == multiset(ps) + multiset{p}
    requires StartFrom(ps, start) && start <= p.kind.start
    ensures StartFrom(r, start)
  {
    forall i | 0 <= i < |r| ensures start <= r[i].kind.start {
      assert r[i] in multiset(r);
      if r[i] != p { assert r[i] in multiset(ps); }
    }
  }

  lemma {:induction false} InsertSorted(p: Entity, ps: seq<Entity>) returns (r: seq<Entity>)
    requires p.kind.Partition? && Partitions(ps) && SortedByStart(ps)
    ensures Partitions(r) && SortedByStart(r) && multiset(r) == multiset(ps) + multiset{p}
  {
    if ps == [] || p.kind.start <= ps[0].kind.start {
      ConsSorted(p, ps);
      r := [p] + ps;
    } else {
      var rest := InsertSorted(p, ps[1..]);
      PermutedFrom(ps[1..], p, rest, ps[0].kind.start);
      ConsSorted(ps[0], rest);
      r := [ps[0]] + rest;
      assert ps == [ps[0]] + ps[1..];
    }
  }

  lemma {:induction false} CanSort(ps: seq<Entity>) returns (r: seq<Entity>)
    requires Partitions(ps)
    ensures Partitions(r) && SortedByStart(r) && multiset(r) == multiset(ps)
  {
    if ps == [] {
      r := [];
    } else {
      var rest := CanSort(ps[1..]);
      r := InsertSorted(ps[0], rest);
      assert ps == [ps[0]] + ps[1..];
    }
  }

  // ---------- the object ----------

  class PartitionTable {
    var config: Config
    var size: nat
    var partitions: seq<Entity>

    /** The table's value. */
    function View(): (d: Disk)
      reads this
    {
      Disk(config, Entity(Table, size, partitions))
    }

    constructor (d: Disk)
      requires d.tree.kind.Table?
      ensures View() == d
    {
      config, size, partitions := d.config, d.tree.size, d.tree.children;
    }

    /** Copies the table; settings and tree are not shared. */
    method CloneTable() returns (copy: PartitionTable)
      requires CloneSafe(View().tree)
      ensures fresh(copy) && copy.View() == Disk(config, CloneOf(View().tree))
    {
      copy := new PartitionTable(Disk(config, CloneOf(View().tree)));
    }

    /** Writes an entity of the tree. */
    method Put(p: Path, e: Entity)
      requires ValidPath(View().tree, p) && (p == [] ==> e.kind.Table?)
      modifies this
      ensures View() == Disk(old(config), UpdateAt(old(View().tree), p, e))
    {
      var tree := UpdateAt(View().tree, p, e);
      size, partitions := tree.size, tree.children;
    }

    /** Grows the entity at `p` to at least `wanted`, then every entity above it as needed,
        stopping at the first one that is large enough. */
    method ResizeEntityBranch(p: Path, wanted: nat)
      requires ValidPath(View().tree, p)
      modifies this
      ensures View() == Disk(old(config), ResizeBranch(old(View().tree), p, wanted).entity)
      decreases |p|
    {
      var element := At(View().tree, p);
      var demand := wanted;
      if element.kind.Container() {
        var containerSize := SizedChildren(element);
        if containerSize == 0 { containerSize := wanted; }
        if element.kind.VolumeContainer() { containerSize := containerSize + element.kind.Metadata(); }
        if demand < containerSize { demand := containerSize; }
      }
      ResizeFromEnd(View().tree, p, wanted);
      UpdateSame(View().tree, p);
      if element.kind.Sizeable() {
        if demand <= element.size { return; }
        Put(p, element.(size := Stored(element.kind, demand)));
      }
      if p != [] {
        ResizeEntityBranch(p[..|p| - 1], demand);
      }
    }

    /** The size of the nearest sized entity of a mountpoint; `None` when it is not found. */
    method GetMountpointSize(mountpoint: string) returns (r: Option<nat>)
      requires ValidDisk(View())
      ensures r.None? <==> mountpoint !in MountSet(View().tree)
      ensures r.Some? ==>
                && EntityPath(View().tree, mountpoint).Some?
                && ValidPath(View().tree, EntityPath(View().tree, mountpoint).value)
                && r.value == NearestSize(View().tree, EntityPath(View().tree, mountpoint).value, 0)
      ensures forall s: nat :: Room(View().tree, mountpoint, s, 0) && r.Some? ==> s <= r.value
    {
      FoundIffMounted(View().tree, mountpoint);
      var path := EntityPath(View().tree, mountpoint);
      if path.None? { return None; }
      EntityPathMounted(View().tree, mountpoint);
      var p := path.value;
      forall s: nat | Room(View().tree, mountpoint, s, 0) ensures s <= NearestSize(View().tree, p, 0) {
        RoomAtPath(View().tree, mountpoint, s, 0, p);
      }
      var k := |p|;
      assert p[..k] == p;
      while !At(View().tree, p[..k]).kind.Sizeable()
        invariant 0 <= k <= |p| && ValidPath(View().tree, p[..k])
        invariant NearestSize(View().tree, p[..k], 0) == NearestSize(View().tree, p, 0)
        decreases k
      {
        NearestAbove(View().tree, p[..k], 0);
        assert p[..k][..k - 1] == p[..k - 1];
        k := k - 1;
      }
      NearestHere(View().tree, p[..k], 0);
      r := Some(At(View().tree, p[..k]).size);
    }

    // ---------- directories ----------

    /** Adds up the directories by the mountpoint they lie on; the map is iterated over in an
        arbitrary order.  `None` stands for the panic on a directory without mounted ancestor. */
    method GroupDirectories(sizes: map<string, nat>) returns (r: Option<Groups>)
      ensures r.Some? <==> AllFound(View().tree, sizes)
      ensures r.Some? ==> Grouped(View().tree, sizes, {}, r.value)
    {
      var groups: Groups := map[];
      var todo := sizes.Keys;
      while todo != {}
        invariant Grouped(View().tree, sizes, todo, groups)
        decreases todo
      {
        var dir :| dir in todo;
        var found := FindDirectory(View().tree, dir);
        if found.None? { return None; }
        GroupAdded(View().tree, sizes, todo, groups, dir);
        groups := AddToGroup(groups, found.value, sizes[dir]);
        todo := todo - {dir};
      }
      GroupsDone(View().tree, sizes, groups);
      return Some(groups);
    }

    /** Grows the mountpoints for the given directories, again in an arbitrary order; `false`
        stands for the panic. */
    method EnsureDirectorySizes(sizes: map<string, nat>) returns (ok: bool)
      requires ValidDisk(View())
      modifies this
      ensures ok <==> AllFound(old(View().tree), sizes)
      ensures ok ==> View() == Disk(old(config), EnsureDirectories(old(View().tree), sizes))
      ensures !ok ==> View() == old(View())
    {
      var groups := GroupDirectories(sizes);
      if groups.None? { return false; }
      GroupsDone(View().tree, sizes, groups.value);
      GrowGroups(sizes, groups.value);
      return true;
    }

    /** Opens the mountpoint's group unless there is one, and adds to it. */
    method AddToGroup(groups: Groups, m: string, size: nat) returns (r: Groups)
      requires EntityPath(View().tree, m).Some?
      ensures r == GroupsAfter(View().tree, groups, m, size)
    {
      r := groups;
      if m !in r { r := r[m := (EntityPath(View().tree, m).value, 0)]; }
      r := r[m := (r[m].0, r[m].1 + size)];
    }

    method GrowGroups(ghost sizes: map<string, nat>, groups: Groups)
      requires ValidDisk(View()) && AllFound(View().tree, sizes) && groups.Keys == Targets(View().tree, sizes)
      requires forall m :: m in groups ==> EntityPath(View().tree, m) == Some(groups[m].0)
      requires forall m :: m in groups ==> groups[m].1 == Total(View().tree, sizes, m)
      modifies this
      ensures View() == Disk(old(config), EnsureDirectories(old(View().tree), sizes))
    {
      ghost var tree := View().tree;
      ghost var ms: seq<string> := [];
      var todo := groups.Keys;
      while todo != {}
        invariant todo <= groups.Keys && config == old(config)
        invariant (forall m :: m in ms ==> m in groups.Keys) && AllMounted(tree, ms)
        invariant multiset(ms) + multiset(todo) == multiset(groups.Keys)
        invariant View().tree == ResizeAll(tree, Requests(tree, sizes, ms))
        decreases todo
      {
        var m :| m in todo;
        GrowStep(tree, sizes, ms, m);
        ResizeEntityBranch(groups[m].0, groups[m].1);
        assert multiset(todo) == multiset(todo - {m}) + multiset{m};
        ms, todo := ms + [m], todo - {m};
      }
      EveryOrder(tree, sizes, ms);
    }

    // ---------- customizations ----------

    /** Walks up the path of "/" to the first entity that can create mountpoints. */
    method FindCreator(rootPath: Path) returns (cp: Path)
      requires ValidPath(View().tree, rootPath)
      ensures DeepestCreator(View().tree, rootPath) == Some(cp)
    {
      cp := rootPath;
      while !At(View().tree, cp).kind.MountpointCreator()
        invariant cp <= rootPath && ValidPath(View().tree, cp)
        invariant DeepestCreator(View().tree, cp) == DeepestCreator(View().tree, rootPath)
        decreases |cp|
      {
        DeepestAbove(View().tree, cp);
        assert cp[..|cp| - 1] <= rootPath;
        cp := cp[..|cp| - 1];
      }
      DeepestHere(View().tree, cp);
    }

    method CreateFilesystemAt(mountpoint: string, fstype: string, wanted: nat) returns (failure: Option<Failure>)
      requires Ready(View())
      modifies this
      ensures match CreateFilesystem(old(View()), mountpoint, fstype, wanted)
              case Err(f) => failure == Some(f) && View() == old(View())
              case Ok(d) => failure == None && View() == d
    {
      ReadyHasRoot(View());
      var cp := FindCreator(EntityPath(View().tree, "/").value);
      var created := MakeMountpoint(config, At(View().tree, cp), mountpoint, fstype, 0);
      if created.Err? { return Some(created.error); }
      CreateMountpointAppends(config, At(View().tree, cp), mountpoint, fstype, 0);
      NewChildAt(View().tree, cp, created.value);
      Put(cp, created.value);
      var p := cp + [|created.value.children| - 1];
      ResizeEntityBranch(p, AlignBranch(config, View().tree, p, wanted));
      failure := None;
    }

    /** Enlarges the mountpoints that exist; creates the others or returns them. */
    method ApplyCustomization(ms: seq<Mount>, fstype: string, create: bool) returns (r: Result<seq<Mount>, Failure>)
      requires Ready(View())
      modifies this
      ensures match Apply(old(View()), ms, fstype, create)
              case Err(f) => r == Err(f)
              case Ok(a) => r == Ok(a.leftover) && View() == a.disk
    {
      var left: seq<Mount> := [];
      assert ms[0..] == ms;
      NothingLeft(Apply(View(), ms, fstype, create));
      for i := 0 to |ms|
        invariant Ready(View())
        invariant Apply(old(View()), ms, fstype, create) == WithLeft(left, Apply(View(), ms[i..], fstype, create))
      {
        var m := ms[i];
        assert ms[i..][0] == m && ms[i..][1..] == ms[i + 1..];
        ghost var before, was := View(), left;
        var path := EntityPath(View().tree, m.mountpoint);
        if path.Some? {
          EntityPathMounted(View().tree, m.mountpoint);
          var p := path.value;
          ghost var enlarged := Enlarge(View(), m);
          ResizeEntityBranch(p, AlignBranch(config, View().tree, p, m.Size()));
        } else if !create {
          left := left + [m];
        } else {
          var failure := CreateFilesystemAt(m.mountpoint, fstype, m.Size());
          if failure.Some? { return Err(failure.value); }
          assert ApplyOne(before, m, fstype, create) == Ok(View());
        }
        LeftStep(before, View(), was, left, ms[i..], fstype, create);
      }
      assert ms[|ms|..] == [] && left + [] == left;
      r := Ok(left);
    }

    method AddBootPartition(fstype: string) returns (failure: Option<Failure>)
      requires Ready(View())
      modifies this
      ensures match AddBoot(old(View()), fstype)
              case Err(f) => failure == Some(f) && View() == old(View())
              case Ok(d) => failure == None && View() == d
    {
      ghost var made := AddBoot(View(), fstype);
      if |partitions| == MaxPartitions(config.tableType) { return Some(TooManyPartitions); }
      partitions := partitions + [MountpointPartition(config.tableType, "/boot", fstype, GIB)];
      failure := None;
    }

    /** Puts the root filesystem on a logical volume, unless it is on one. */
    method EnsureLvmRoot(fstype: string) returns (failure: Option<Failure>)
      requires Ready(View()) && config.policy.Some?
      modifies this
      ensures EnsureLvm(old(View()), fstype) == Step(View(), failure)
    {
      if EntityPath(View().tree, "/boot").None? {
        if !config.policy.value.ensureXBootldr { return Some(NoBootAllowed); }
        ghost var d1 := AddBoot(View(), fstype);
        var f := AddBootPartition(fstype);
        if f.Some? { return f; }
        assert Ready(View());
      }
      var parent := RootParent(View());
      if parent.kind.LogicalVolume? { return None; }
      if !parent.kind.Partition? { return Some(UnsupportedParent); }
      var i := RootSlot(View());
      var part := partitions[i];
      var vg := RootVolumeGroup(part.children[0], part.size);
      var ptype := if config.tableType.Gpt? then LVM_GUID else LVM_DOS_ID;
      partitions := partitions[i := Entity(part.kind.(ptype := ptype), 0, [vg])];
      failure := None;
    }

    /** Puts the root filesystem on a Btrfs subvolume, unless it is on one. */
    method EnsureBtrfsRoot(fstype: string, arch: Arch) returns (failure: Option<Failure>)
      requires Ready(View()) && config.policy.Some?
      modifies this
      ensures EnsureBtrfs(old(View()), fstype, arch) == Step(View(), failure)
    {
      if EntityPath(View().tree, "/boot").None? && config.policy.value.ensureXBootldr {
        ghost var d1 := AddBoot(View(), fstype);
        var f := AddBootPartition(fstype);
        if f.Some? { return f; }
        assert Ready(View());
      }
      var parent := RootParent(View());
      if parent.kind.Btrfs? { return None; }
      if !parent.kind.Partition? { return Some(UnsupportedParent); }
      var i := RootSlot(View());
      var part := partitions[i];
      var volume := RootBtrfs(part.children[0], part.size);
      var ptype := RootPartitionType(config.tableType, arch);
      var name := if ptype.Some? then ptype.value else "";
      partitions := partitions[i := Entity(part.kind.(ptype := name), 0, [volume])];
      failure := if ptype.Some? then None else Some(NoPartitionType);
    }

    // ---------- layout ----------

    /** Reorders the partitions by their start; the sort is not stable. */
    method SortPartitions()
      requires Partitions(partitions)
      modifies this
      ensures config == old(config) && size == old(size)
      ensures Partitions(partitions) && SortedByStart(partitions)
      ensures multiset(partitions) == multiset(old(partitions))
    {
      ghost var r := CanSort(partitions);
      var sorted: seq<Entity> :| Partitions(sorted) && SortedByStart(sorted) && multiset(sorted) == multiset(partitions);
      partitions := sorted;
    }

    method Fitted(p: Entity) returns (r: nat)
      requires p.kind.Partition? && WellTyped(p)
      ensures r == FitTo(p, p.size)
    {
      r := p.size;
      if p.children != [] && p.children[0].kind.VolumeContainer() {
        ChildTyped(p, 0);
        var least := ComputeMinSize(p.children[0], r);
        if r < least { r := least; }
      }
    }

    method PlaceOne(idx: nat, start: nat) returns (next: nat)
      requires idx < |partitions| && partitions[idx].kind.Partition? && WellTyped(partitions[idx])
      modifies this
      ensures config == old(config) && size == old(size)
      ensures partitions == old(partitions)[idx := Place(config, old(partitions)[idx], start)]
      ensures next == start + config.Align(FitTo(old(partitions)[idx], old(partitions)[idx].size))
    {
      var p := partitions[idx];
      var fitted := Fitted(p);
      var placed := config.Align(fitted);
      partitions := partitions[idx := Entity(p.kind.(start := start), placed, p.children)];
      next := start + placed;
    }

    /** Places all partitions but those that hold "/", from `first` on. */
    method PlaceAllButRoot(first: nat) returns (start: nat, rootIdx: int)
      requires ValidDisk(View()) && Partitions(partitions)
      modifies this
      ensures config == old(config) && size == old(size)
      ensures partitions == PlaceOthers(config, old(partitions), first)
      ensures start == EndOfOthers(config, old(partitions), first)
      ensures rootIdx == RootIndex(old(partitions))
    {
      ghost var ps := partitions;
      start, rootIdx := first, -1;
      for idx := 0 to |partitions|
        invariant config == old(config) && size == old(size) && |partitions| == |ps|
        invariant partitions == PlaceOthers(config, ps[..idx], first) + ps[idx..]
        invariant start == EndOfOthers(config, ps[..idx], first)
        invariant rootIdx == RootIndex(ps[..idx])
      {
        PlaceStep(config, ps, first, idx);
        var p := partitions[idx];
        ghost var done := PlaceOthers(config, ps[..idx], first);
        ReplaceNext(done, p, ps[idx + 1..], p);
        if HoldsRoot(p) {
          rootIdx := idx;
        } else {
          ChildTyped(old(View()).tree, idx);
          ReplaceNext(done, p, ps[idx + 1..], Place(config, p, start));
          start := PlaceOne(idx, start);
        }
      }
      assert ps[..|ps|] == ps;
    }

    /** Where the first partition may start, and what is kept free at the end of the disk. */
    method Bounds() returns (first: nat, footer: nat)
      ensures first == config.FirstStart(|partitions|) && footer == config.Footer(|partitions|)
    {
      var header := config.HeaderSize(|partitions|);
      footer := 0;
      if config.tableType.Gpt? { footer := config.Align(header); }
      footer := footer + config.extraPadding;
      first := header + config.startOffset;
      if config.absoluteStartOffset && header < config.startOffset { first := config.startOffset; }
      first := config.Align(first);
    }

    /** Places the root partition behind all others and settles the size of the disk. */
    method PlaceRoot(rootIdx: nat, start: nat, footer: nat, wanted: nat)
      requires rootIdx < |partitions| && partitions[rootIdx].kind.Partition? && WellTyped(partitions[rootIdx])
      requires footer == config.Footer(|partitions|)
      modifies this
      ensures config == old(config)
      ensures var root := old(partitions)[rootIdx];
              var plan := PlanFrom(config, |old(partitions)|, old(size), wanted, start, FitTo(root, root.size));
              && size == plan.diskSize
              && partitions == old(partitions)[rootIdx := Entity(root.kind.(start := start), plan.rootSize, root.children)]
    {
      var root := partitions[rootIdx];
      var fitted := Fitted(root);
      var rootSize := config.Align(fitted);
      var target := config.Align(wanted);
      var end := config.Align(start + footer + rootSize);
      if target < end { target := end; }
      if size < target { size := target; }
      if config.GrowRoot() { rootSize := size - start - footer; }
      partitions := partitions[rootIdx := Entity(root.kind.(start := start), rootSize, root.children)];
    }

    /** Gives every partition its start and size, the root partition last, and the disk its
        size.  `None` stands for the panic when no partition holds "/". */
    method RelayoutTo(wanted: nat) returns (r: Option<nat>)
      requires ValidDisk(View()) && Partitions(partitions)
      modifies this
      ensures r.None? <==> RootIndex(old(partitions)) < 0
      ensures r.Some? ==> r.value == PlanOf(old(View()), wanted).rootStart
      ensures r.Some? ==> Relayout(old(View()), wanted, View())
    {
      ghost var d := View();
      var first, footer := Bounds();
      var start, rootIdx := PlaceAllButRoot(first);
      if rootIdx < 0 { return None; }
      PlacedAt(d.config, d.tree.children, first, rootIdx);
      ChildTyped(d.tree, rootIdx);
      var root := partitions[rootIdx];
      PlaceRoot(rootIdx, start, footer, wanted);
      LaidFrom(d, wanted, start, FitTo(root, root.size));
      SortPartitions();
      r := Some(start);
    }

    /** Puts the root where the mode wants it. */
    method WrapRoot(o: Options, leftover: seq<Mount>) returns (failure: Option<Failure>)
      requires Ready(View()) && config.policy.Some?
      modifies this
      ensures Wrap(old(View()), o, leftover) == Step(View(), failure)
    {
      failure := None;
      match o.mode {
        case Raw =>
        case Lvm => failure := EnsureLvmRoot(FirstFs(o));
        case BtrfsMode => failure := EnsureBtrfsRoot(SecondFs(o), o.arch);
        case OtherMode => failure := Some(UnsupportedMode);
        case _ => if leftover != [] { failure := EnsureLvmRoot(FirstFs(o)); }
      }
    }

    /** The two passes over the mountpoints with the wrapping of the root in between. */
    method Customize(ghost base: Disk, o: Options) returns (failure: Option<Failure>)
      requires Ready(base) && CloneSafe(base.tree) && View() == Copied(base)
      modifies this
      ensures match Created(base, o)
              case Err(f) => failure == Some(f)
              case Ok(d) => failure == None && View() == d
    {
      ApplyLeftover(Copied(base), o.mounts, FirstFs(o));
      var first := ApplyCustomization(o.mounts, FirstFs(o), false);
      var leftover := first.value;
      assert Applied(View(), leftover) == Enlarged(base, o);
      failure := WrapRoot(o, leftover);
      assert Wrapped(base, o) == Step(View(), failure);
      if failure.Some? { return; }
      var second := ApplyCustomization(leftover, SecondFs(o), true);
      if second.Err? { return Some(second.error); }
    }
  }

  // ---------- steps of the loops above ----------

  lemma LaidFrom(d: Disk, size: nat, start: nat, fitted: nat)
    requires Partitions(d.tree.children) && 0 <= RootIndex(d.tree.children)
    requires start == EndOfOthers(d.config, d.tree.children, d.config.FirstStart(|d.tree.children|))
    requires var root := d.tree.children[RootIndex(d.tree.children)]; fitted == FitTo(root, root.size)
    ensures var ps, k := d.tree.children, RootIndex(d.tree.children);
            var plan := PlanFrom(d.config, |ps|, d.tree.size, size, start, fitted);
            && PlanOf(d, size) == plan
            && Laid(d, size) == PlaceOthers(d.config, ps, d.config.FirstStart(|ps|))[k :=
                 Entity(ps[k].kind.(start := plan.rootStart), plan.rootSize, ps[k].children)]
  {
  }

  lemma ReplaceNext<T>(a: seq<T>, x: T, b: seq<T>, y: T)
    ensures (a + ([x] + b))[|a| := y] == (a + [y]) + b
    ensures a + ([x] + b) == (a + [x]) + b
  {
  }

  lemma PlaceStep(c: Config, ps: seq<Entity>, first: nat, idx: nat)
    requires Partitions(ps) && idx < |ps|
    ensures var placed := if HoldsRoot(ps[idx]) then ps[idx] else Place(c, ps[idx], EndOfOthers(c, ps[..idx], first));
            PlaceOthers(c, ps[..idx + 1], first) == PlaceOthers(c, ps[..idx], first) + [placed]
    ensures EndOfOthers(c, ps[..idx + 1], first) == EndOfOthers(c, ps[..idx], first) +
              (if HoldsRoot(ps[idx]) then 0 else c.Align(FitTo(ps[idx], ps[idx].size)))
    ensures RootIndex(ps[..idx + 1]) == if HoldsRoot(ps[idx]) then idx else RootIndex(ps[..idx])
    ensures ps[idx..] == [ps[idx]] + ps[idx + 1..]
    ensures (PlaceOthers(c, ps[..idx], first) + ps[idx..])[idx] == ps[idx]
  {
    assert ps[..idx + 1][..idx] == ps[..idx];
  }

  lemma {:induction false} NearestAbove(e: Entity, p: Path, outer: nat)
    requires ValidPath(e, p) && !At(e, p).kind.Sizeable() && e.kind.Sizeable()
    ensures p != [] && ValidPath(e, p[..|p| - 1])
    ensures NearestSize(e, p[..|p| - 1], outer) == NearestSize(e, p, outer)
  {
    NearestOfPrefix(e, p, outer);
  }

  lemma {:induction false} NearestOfPrefix(e: Entity, p: Path, outer: nat)
    requires ValidPath(e, p) && !At(e, p).kind.Sizeable() && p != []
    ensures ValidPath(e, p[..|p| - 1])
    ensures NearestSize(e, p[..|p| - 1], outer) == NearestSize(e, p, outer)
    decreases p
  {
    if |p| > 1 {
      assert p[..|p| - 1][1..] == p[1..][..|p[1..]| - 1];
      NearestOfPrefix(e.children[p[0]], p[1..], if e.kind.Sizeable() then e.size else outer);
    }
  }

  lemma {:induction false} NearestHere(e: Entity, p: Path, outer: nat)
    requires ValidPath(e, p) && At(e, p).kind.Sizeable()
    ensures NearestSize(e, p, outer) == At(e, p).size
    decreases p
  {
    if p != [] { NearestHere(e.children[p[0]], p[1..], if e.kind.Sizeable() then e.size else outer); }
  }

  lemma {:induction false} DeepestAbove(e: Entity, p: Path)
    requires ValidPath(e, p) && !At(e, p).kind.MountpointCreator() && e.kind.MountpointCreator()
    ensures p != [] && ValidPath(e, p[..|p| - 1])
    ensures DeepestCreator(e, p[..|p| - 1]) == DeepestCreator(e, p)
  {
    DeepestOfPrefix(e, p);
  }

  lemma {:induction false} DeepestOfPrefix(e: Entity, p: Path)
    requires ValidPath(e, p) && !At(e, p).kind.MountpointCreator() && p != []
    ensures ValidPath(e, p[..|p| - 1])
    ensures DeepestCreator(e, p[..|p| - 1]) == DeepestCreator(e, p)
    decreases p
  {
    if |p| > 1 {
      assert p[..|p| - 1][1..] == p[1..][..|p[1..]| - 1];
      DeepestOfPrefix(e.children[p[0]], p[1..]);
    }
  }

  lemma {:induction false} DeepestHere(e: Entity, p: Path)
    requires ValidPath(e, p) && At(e, p).kind.MountpointCreator()
    ensures DeepestCreator(e, p) == Some(p)
    decreases p
  {
    if p != [] {
      DeepestHere(e.children[p[0]], p[1..]);
      assert [p[0]] + p[1..] == p;
    }
  }

  /** Per mountpoint, its path and the sum of the directories seen so far. */
  type Groups = map<string, (Path, nat)>

  function GroupsAfter(e: Entity, groups: Groups, m: string, size: nat): Groups
    requires EntityPath(e, m).Some?
  {
    if m in groups then groups[m := (groups[m].0, groups[m].1 + size)]
    else groups[m := (EntityPath(e, m).value, size)]
  }

  /** The directories outside `todo` are accounted for. */
  ghost predicate Grouped(e: Entity, sizes: map<string, nat>, todo: set<string>, groups: Groups) {
    && todo <= sizes.Keys
    && (forall d :: d in sizes && d !in todo ==> FindDirectory(e, d).Some?)
    && groups.Keys == (set d | d in sizes && d !in todo :: FindDirectory(e, d).value)
    && (forall m :: m in groups ==> EntityPath(e, m) == Some(groups[m].0))
    && (forall m :: m in groups ==> groups[m].1 == SumOver(sizes, Under(e, sizes, m) - todo))
  }

  lemma GroupStep(e: Entity, sizes: map<string, nat>, todo: set<string>, dir: string, m: string)
    requires todo <= sizes.Keys && dir in todo && FindDirectory(e, dir) == Some(m)
    ensures SumOver(sizes, Under(e, sizes, m) - (todo - {dir})) == SumOver(sizes, Under(e, sizes, m) - todo) + sizes[dir]
    ensures forall o :: o != m ==> Under(e, sizes, o) - (todo - {dir}) == Under(e, sizes, o) - todo
  {
    SumOverAdd(sizes, Under(e, sizes, m) - todo, dir);
    assert Under(e, sizes, m) - (todo - {dir}) == Under(e, sizes, m) - todo + {dir};
    forall o | o != m ensures Under(e, sizes, o) - (todo - {dir}) == Under(e, sizes, o) - todo {
      assert dir !in Under(e, sizes, o);
    }
  }

  lemma GroupAdded(e: Entity, sizes: map<string, nat>, todo: set<string>, groups: Groups, dir: string)
    requires Grouped(e, sizes, todo, groups) && dir in todo && FindDirectory(e, dir).Some?
    ensures Grouped(e, sizes, todo - {dir}, GroupsAfter(e, groups, FindDirectory(e, dir).value, sizes[dir]))
  {
    var m := FindDirectory(e, dir).value;
    var after := GroupsAfter(e, groups, m, sizes[dir]);
    GroupStep(e, sizes, todo, dir, m);
    GroupKeys(e, sizes, todo, groups, dir);
    forall o | o in after ensures after[o].1 == SumOver(sizes, Under(e, sizes, o) - (todo - {dir})) {
      if o == m && m !in groups { GroupEmpty(e, sizes, todo, groups, m); }
    }
  }

  lemma GroupEmpty(e: Entity, sizes: map<string, nat>, todo: set<string>, groups: Groups, m: string)
    requires Grouped(e, sizes, todo, groups) && m !in groups
    ensures SumOver(sizes, Under(e, sizes, m) - todo) == 0
  {
    forall d | d in sizes && d !in todo ensures FindDirectory(e, d) != Some(m) {
      assert FindDirectory(e, d).value in groups.Keys;
    }
    assert Under(e, sizes, m) - todo == {};
  }

  lemma GroupKeys(e: Entity, sizes: map<string, nat>, todo: set<string>, groups: Groups, dir: string)
    requires Grouped(e, sizes, todo, groups) && dir in todo && FindDirectory(e, dir).Some?
    ensures GroupsAfter(e, groups, FindDirectory(e, dir).value, sizes[dir]).Keys ==
            set d | d in sizes && d !in todo - {dir} :: FindDirectory(e, d).value
  {
    var m := FindDirectory(e, dir).value;
    assert GroupsAfter(e, groups, m, sizes[dir]).Keys == groups.Keys + {m};
    var all := set d | d in sizes && d !in todo - {dir} :: FindDirectory(e, d).value;
    forall x ensures x in all <==> x in groups.Keys + {m} {
      if x in all {
        var d :| d in sizes && d !in todo - {dir} && FindDirectory(e, d).value == x;
        assert d != dir ==> d !in todo;
      }
    }
  }

  lemma GroupsDone(e: Entity, sizes: map<string, nat>, groups: Groups)
    requires Grouped(e, sizes, {}, groups)
    ensures AllFound(e, sizes) && groups.Keys == Targets(e, sizes)
    ensures forall m :: m in groups ==> groups[m].1 == Total(e, sizes, m)
  {
    forall m | m in groups ensures groups[m].1 == Total(e, sizes, m) {
      assert Under(e, sizes, m) - {} == Under(e, sizes, m);
    }
  }

  lemma GrowStep(e: Entity, sizes: map<string, nat>, ms: seq<string>, m: string)
    requires AllMounted(e, ms) && EntityPath(e, m).Some?
    ensures AllMounted(e, ms + [m])
    ensures ValidPath(ResizeAll(e, Requests(e, sizes, ms)), EntityPath(e, m).value)
    ensures ResizeAll(e, Requests(e, sizes, ms + [m])) ==
            ResizeBranch(ResizeAll(e, Requests(e, sizes, ms)), EntityPath(e, m).value, Total(e, sizes, m)).entity
  {
    RequestsConcat(e, sizes, ms, [m]);
    assert [m][1..] == [];
    var rs, r := Requests(e, sizes, ms), Requests(e, sizes, [m]);
    ResizeAllConcat(e, rs, r);
    assert r[0] in r && r[1..] == [];
  }

  function WithLeft(left: seq<Mount>, r: Result<Applied, Failure>): Result<Applied, Failure> {
    match r
    case Err(f) => Err(f)
    case Ok(a) => Ok(a.(leftover := left + a.leftover))
  }

  lemma NothingLeft(r: Result<Applied, Failure>)
    ensures WithLeft([], r) == r
  {
    if r.Ok? { assert [] + r.value.leftover == r.value.leftover; }
  }

  lemma LeftTwice(a: seq<Mount>, b: seq<Mount>, r: Result<Applied, Failure>)
    ensures WithLeft(a, WithLeft(b, r)) == WithLeft(a + b, r)
  {
    if r.Ok? { assert a + (b + r.value.leftover) == (a + b) + r.value.leftover; }
  }

  lemma LeftStep(d: Disk, d1: Disk, was: seq<Mount>, left: seq<Mount>, ms: seq<Mount>, fstype: string, create: bool)
    requires Ready(d) && ms != [] && ApplyOne(d, ms[0], fstype, create) == Ok(d1)
    requires left == was + (if Leaves(d, ms[0], create) then [ms[0]] else [])
    ensures Ready(d1)
    ensures WithLeft(was, Apply(d, ms, fstype, create)) == WithLeft(left, Apply(d1, ms[1..], fstype, create))
  {
    var one := if Leaves(d, ms[0], create) then [ms[0]] else [];
    assert Apply(d, ms, fstype, create) == WithLeft(one, Apply(d1, ms[1..], fstype, create));
    LeftTwice(was, one, Apply(d1, ms[1..], fstype, create));
  }

  /** Makes a new partition table from a base table, which is left as it is. */
  method NewPartitionTable(base: PartitionTable, o: Options) returns (r: Result<PartitionTable, Failure>)
    requires Ready(base.View()) && CloneSafe(base.View().tree) && AbsoluteDirectories(o)
    ensures r.Ok? ==> fresh(r.value) && Makes(base.View(), o, Ok(r.value.View()))
    ensures r.Err? ==> Makes(base.View(), o, Err(r.error))
  {
    ghost var d := base.View();
    var table := base.CloneTable();
    if table.config.policy.None? { table.config := table.config.(policy := Some(Policy(true, None))); }
    assert table.View() == Copied(d);
    if UsesLvm(base.View().tree) && (o.mode.Raw? || o.mode.BtrfsMode?) { return Err(LvmWithOtherMode); }
    var failure := table.Customize(d, o);
    if failure.Some? { return Err(failure.value); }
    RootedAllFound(table.View(), DirectoryMap(o));
    EnsureDirectoriesKeeps(table.View(), DirectoryMap(o));
    var found := table.EnsureDirectorySizes(DirectoryMap(o));
    ReadyCanLayOut(table.View());
    var start := table.RelayoutTo(o.imageSize);
    r := Ok(table);
  }
}
