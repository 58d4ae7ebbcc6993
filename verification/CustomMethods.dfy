/** The methods that build a partition table from disk customizations step by step. */
module CustomMethods {
  import opened Basics
  import opened Entities
  import opened Mounts
  import opened Directories
  import opened DirectorySizes
  import opened Layout
  import opened LayoutSpace
  import opened Volumes
  import opened NewTable
  import opened PartitionTables
  import opened CustomTable
  import opened CustomFacts

  /** Adds a root filesystem unless there is one: to the first volume group or Btrfs volume,
      otherwise as a partition of its own. */
  method EnsureRootFilesystem(table: PartitionTable, o: CustomOptions) returns (failure: Option<Failure>)
    requires ValidDisk(table.View())
    modifies table
    ensures table.config == old(table.config) && table.size == old(table.size)
    ensures match EnsureRoot(table.config.tableType, old(table.partitions), o)
            case Err(f) => failure == Some(f) && table.partitions == old(table.partitions)
            case Ok(ps) => failure == None && table.partitions == ps
  {
    FoundIffMounted(table.View().tree, "/");
    if EntityPath(table.View().tree, "/").Some? { return None; }
    var i := 0;
    while i < |table.partitions|
      invariant 0 <= i <= |table.partitions|
      invariant FirstWithVolumes(table.partitions, i) == FirstWithVolumes(table.partitions, 0)
    {
      var p := table.partitions[i];
      if HoldsVolumes(p) {
        match RootInVolumes(p.children[0], table.partitions, o) {
          case Err(f) => return Some(f);
          case Ok(v) =>
            table.partitions := table.partitions[i := p.(children := p.children[0 := v])];
            return None;
        }
      }
      i := i + 1;
    }
    match PlainRoot(table.config.tableType, table.partitions, o) {
      case Err(f) => return Some(f);
      case Ok(p) => table.partitions := table.partitions + [p];
    }
    return None;
  }

  method AppendForBooting(table: PartitionTable, r: DiskRequest, o: CustomOptions, policy: Policy)
    returns (failure: Option<Failure>)
    requires table.partitions == []
    modifies table
    ensures table.config == old(table.config) && table.size == old(table.size)
    ensures match ForBooting(table.config.tableType, r, o, policy)
            case Err(f) => failure == Some(f)
            case Ok(ps) => failure == None && table.partitions == ps
  {
    match BootModePartitions(table.config.tableType, r, o) {
      case Err(f) => return Some(f);
      case Ok(boot) => table.partitions := boot;
    }
    if !policy.ensureXBootldr { return None; }
    var needed := ComputeNeedsBoot(r);
    if !needed { return None; }
    match BootPartition(table.config.tableType, table.partitions, o) {
      case Err(f) => return Some(f);
      case Ok(p) => table.partitions := table.partitions + [p];
    }
    return None;
  }

  method AppendRequested(table: PartitionTable, rs: seq<PartitionRequest>, o: CustomOptions) returns (failure: Option<Failure>)
    modifies table
    ensures table.config == old(table.config) && table.size == old(table.size)
    ensures match WithRequested(table.config.tableType, old(table.partitions), rs, o)
            case Err(f) => failure == Some(f)
            case Ok(ps) => failure == None && table.partitions == ps
  {
    ghost var t, first := table.config.tableType, table.partitions;
    for i := 0 to |rs|
      invariant table.config == old(table.config) && table.size == old(table.size)
      invariant WithRequested(t, first, rs[..i], o) == Ok(table.partitions)
    {
      assert rs[..i + 1][..i] == rs[..i];
      match RequestedPartition(table.config.tableType, table.partitions, rs[i], o) {
        case Err(f) =>
          FailureStays(t, first, rs, i + 1, o);
          return Some(f);
        case Ok(p) => table.partitions := table.partitions + [p];
      }
    }
    assert rs[..|rs|] == rs;
    failure := None;
  }

  /** Appends what booting needs and what was requested, then makes sure there is a root. */
  method Assemble(table: PartitionTable, r: DiskRequest, o: CustomOptions, policy: Policy) returns (failure: Option<Failure>)
    requires AllRootRequests(r.partitions) <= 1 && table.partitions == []
    modifies table
    ensures table.config == old(table.config) && table.size == old(table.size)
    ensures match Assembled(table.config.tableType, r, o, policy)
            case Err(f) => failure == Some(f)
            case Ok(ps) => failure == None && table.partitions == ps
  {
    ghost var t := table.config.tableType;
    failure := AppendForBooting(table, r, o, policy);
    if failure.Some? { return; }
    ForBootingSound(t, r, o, policy);
    ghost var first := table.partitions;
    failure := AppendRequested(table, r.partitions, o);
    if failure.Some? { return; }
    AllRequestedSound(t, first, r.partitions, o);
    SoundTable(table.View(), AllRootRequests(r.partitions));
    failure := EnsureRootFilesystem(table, o);
  }

  lemma SoundTable(d: Disk, n: nat)
    requires d.tree.kind.Table? && AllSound(d.tree.children, n)
    ensures ValidDisk(d)
  {
    forall i | 0 <= i < |d.tree.children|
      ensures WellTyped(d.tree.children[i]) && d.tree.children[i].kind.Partition?
    {
      assert Sound(d.tree.children[i], n);
    }
  }

  /** The first failing request decides the result. */
  lemma {:induction false} FailureStays(t: TableType, ps: seq<Entity>, rs: seq<PartitionRequest>, k: nat, o: CustomOptions)
    requires k <= |rs| && WithRequested(t, ps, rs[..k], o).Err?
    ensures WithRequested(t, ps, rs, o) == WithRequested(t, ps, rs[..k], o)
    decreases |rs| - k
  {
    if k == |rs| {
      assert rs[..k] == rs;
    } else {
      assert rs[..k + 1][..k] == rs[..k];
      FailureStays(t, ps, rs, k + 1, o);
    }
  }

  /** The table before its layout, on success. */
  method BuildTable(r: DiskRequest, o: CustomOptions, t: TableType, policy: Policy)
    returns (result: Result<PartitionTable, Failure>)
    requires AllRootRequests(r.partitions) <= 1 && forall x :: x in o.requiredMinSizes ==> Rooted(x)
    ensures match Assembled(t, r, o, policy)
            case Err(f) => result == Err(f)
            case Ok(ps) =>
              && result.Ok? && fresh(result.value)
              && AllFound(Entity(Table, 0, ps), o.requiredMinSizes)
              && result.value.View() ==
                   Disk(ConfigOf(t, policy, r), EnsureDirectories(Entity(Table, 0, ps), o.requiredMinSizes))
  {
    var table := new PartitionTable(Disk(ConfigOf(t, policy, r.(startOffset := 0, sectorSize := 0)), Entity(Table, 0, [])));
    var failure := Assemble(table, r, o, policy);
    if failure.Some? { return Err(failure.value); }
    AssembledReady(t, r, o, policy);
    RootedAllFound(Disk(ConfigOf(t, policy, r), table.View().tree), o.requiredMinSizes);
    var found := table.EnsureDirectorySizes(o.requiredMinSizes);
    if 0 < r.startOffset { table.config := table.config.(startOffset := r.startOffset); }
    if 0 < r.sectorSize { table.config := table.config.(sectorSize := r.sectorSize); }
    result := Ok(table);
  }

  /** Makes a partition table from customizations.  It fails exactly when one of the steps does,
      or when a DOS table ends with more than four partitions. */
  method NewCustomPartitionTable(r: DiskRequest, o: CustomOptions, policy: Option<Policy>)
    returns (result: Result<PartitionTable, Failure>)
    requires AllRootRequests(r.partitions) <= 1 && forall x :: x in o.requiredMinSizes ==> Rooted(x)
    ensures result.Ok? ==> fresh(result.value) && MakesCustom(r, o, policy, result.value.View())
    ensures result.Ok? && r.tableType == "dos" ==> result.value.config.tableType == Dos
    ensures result.Ok? && r.tableType == "gpt" ==> result.value.config.tableType == Gpt
    ensures result.Ok? && r.tableType == "" ==>
              result.value.config.tableType == (if o.tableType == NoType then Gpt else o.tableType)
    ensures result.Ok? ==> result.value.config.startOffset == r.startOffset && result.value.config.sectorSize == r.sectorSize
    ensures result.Ok? ==> result.value.config.policy == if policy.None? then Some(Policy(true, None)) else policy
    ensures r.tableType !in {"dos", "gpt", ""} ==> result == Err(InvalidTableType)
    ensures PrepareCustom(r, o, policy).Err? ==> result == Err(PrepareCustom(r, o, policy).error)
    ensures result.Err? && PrepareCustom(r, o, policy).Ok? ==>
              && result.error == TooManyPartitions
              && PrepareCustom(r, o, policy).value.config.tableType.Dos?
              && 4 < |PrepareCustom(r, o, policy).value.tree.children|
  {
    var used := if policy.Some? then policy.value else Policy(true, None);
    var kind := TableTypeOf(r, o);
    if kind.Err? { return Err(kind.error); }
    var built := BuildTable(r, o, kind.value, used);
    if built.Err? { return built; }
    var table := built.value;
    ghost var d := table.View();
    assert PrepareCustom(r, o, policy) == Ok(d);
    ReadyCanLayOut(d);
    var start := table.RelayoutTo(r.minSize);
    RelayoutValid(d, r.minSize, table.View());
    if table.config.tableType.Dos? && 4 < |table.partitions| { return Err(TooManyPartitions); }
    CustomTableSettings(r, o, policy, table.View());
    result := Ok(table);
  }
}
