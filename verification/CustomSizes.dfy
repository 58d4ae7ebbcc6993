/** What a request says about the sizes of the partitions in a custom table. */
module CustomSizes {
  import opened Basics
  import opened Entities
  import opened Resize
  import opened Mounts
  import opened Directories
  import opened DirectorySizes
  import opened Layout
  import opened LayoutFacts
  import opened LayoutSpace
  import opened Growth
  import opened Wrapping
  import opened NewTable
  import opened CustomTable
  import opened CustomMounts

  // ---------- partitions without size ----------

  /** The partition gets a size to be laid out with: a volume group brings its own. */
  predicate HasSize(p: PartitionRequest, o: CustomOptions) {
    0 < p.minSize || p.kind == "lvm" || "/" in RequestMounts(p, o)
  }

  predicate AllHaveSize(rs: seq<PartitionRequest>, o: CustomOptions) {
    forall i :: 0 <= i < |rs| ==> HasSize(rs[i], o)
  }

  predicate PositiveParts(ps: seq<Entity>) {
    forall i :: 0 <= i < |ps| ==> Positive(ps[i])
  }

  lemma PositiveSnoc(ps: seq<Entity>, p: Entity)
    requires PositiveParts(ps) && Positive(p)
    ensures PositiveParts(ps + [p])
  {
  }

  lemma SizedPositive(p: Entity)
    requires p.kind.Partition? && 0 < p.size
    ensures Positive(p)
  {
  }

  lemma RequestSize(t: TableType, ps: seq<Entity>, p: PartitionRequest, o: CustomOptions)
    requires RequestedPartition(t, ps, p, o).Ok?
    ensures var e := RequestedPartition(t, ps, p, o).value;
            && e.kind.Partition? && e.size == p.minSize
            && (p.kind == "lvm" ==> |e.children| == 1 && e.children[0].kind.VolumeGroup?)
  {
    if p.kind == "lvm" { VolumesSound(EmptyGroup(GroupName(ps, p).value), p.volumes, o); }
  }

  lemma GroupPositive(p: Entity)
    requires p.kind.Partition? && WellTyped(p) && HoldsGroup(p)
    ensures Positive(p)
  {
    FitToCovers(p, p.size);
    ChildTyped(p, 0);
    ChildrenShape(p);
    assert Content(p.children[0]) == MIB + SumNeeds(p.children[0].children);
  }

  lemma RequestPositive(t: TableType, ps: seq<Entity>, p: PartitionRequest, o: CustomOptions)
    requires RequestedPartition(t, ps, p, o).Ok? && HasSize(p, o)
    ensures Positive(RequestedPartition(t, ps, p, o).value)
  {
    RequestSize(t, ps, p, o);
    RequestMountSet(t, ps, p, o);
    RequestedSound(t, ps, p, o);
    var e := RequestedPartition(t, ps, p, o).value;
    if p.kind == "lvm" {
      GroupPositive(e);
    } else if 0 < p.minSize {
      SizedPositive(e);
    }
  }

  lemma {:induction false} AllRequestsPositive(t: TableType, ps: seq<Entity>, rs: seq<PartitionRequest>, o: CustomOptions)
    requires PositiveParts(ps) && WithRequested(t, ps, rs, o).Ok? && AllHaveSize(rs, o)
    ensures PositiveParts(WithRequested(t, ps, rs, o).value)
    decreases |rs|
  {
    if rs != [] {
      var n := |rs| - 1;
      var before := WithRequested(t, ps, rs[..n], o).value;
      AllRequestsPositive(t, ps, rs[..n], o);
      RequestPositive(t, before, rs[n], o);
      PositiveSnoc(before, RequestedPartition(t, before, rs[n], o).value);
    }
  }

  lemma BootModePositive(t: TableType, r: DiskRequest, o: CustomOptions)
    requires BootModePartitions(t, r, o).Ok?
    ensures PositiveParts(BootModePartitions(t, r, o).value)
  {
    if MakeEsp(t, o).Ok? { SizedPositive(MakeEsp(t, o).value); }
    match o.arch {
      case Ppc64le => if !o.bootMode.NoBoot? { SizedPositive(NewPartition(t, "ppc_prep", "", Unset, 4 * MIB, []).value); }
      case X86_64 =>
        if o.bootMode.Legacy? || o.bootMode.Hybrid? { SizedPositive(NewPartition(t, "bios", "", Unset, MIB, []).value); }
      case _ =>
    }
  }

  lemma BootPositive(t: TableType, r: DiskRequest, o: CustomOptions, policy: Policy)
    requires ForBooting(t, r, o, policy).Ok?
    ensures PositiveParts(ForBooting(t, r, o, policy).value)
  {
    var boot := BootModePartitions(t, r, o).value;
    BootModePositive(t, r, o);
    if policy.ensureXBootldr && NeedsBoot(r) {
      SizedPositive(BootPartition(t, boot, o).value);
      PositiveSnoc(boot, BootPartition(t, boot, o).value);
    }
  }

  lemma EnsureRootPositive(t: TableType, ps: seq<Entity>, o: CustomOptions)
    requires AllSound(ps, 1) && EnsureRoot(t, ps, o).Ok? && PositiveParts(ps)
    ensures PositiveParts(EnsureRoot(t, ps, o).value)
  {
    if "/" !in MountSets(ps) {
      match FirstWithVolumes(ps, 0) {
        case Some(i) =>
          var p' := EnsureRoot(t, ps, o).value[i];
          assert Sound(ps[i], 1);
          ChildTyped(ps[i], 0);
          RootChildSound(ps[i].children[0], ps, o);
          OnlyChildMounts(p');
        case None =>
          var p := PlainRoot(t, ps, o).value;
          OnlyChildMounts(p);
          PositiveSnoc(ps, p);
      }
    }
  }

  lemma AssembledPositive(t: TableType, r: DiskRequest, o: CustomOptions, policy: Policy)
    requires AllRootRequests(r.partitions) <= 1 && Assembled(t, r, o, policy).Ok? && AllHaveSize(r.partitions, o)
    ensures PositiveParts(Assembled(t, r, o, policy).value)
  {
    var first := ForBooting(t, r, o, policy).value;
    BootPositive(t, r, o, policy);
    ForBootingSound(t, r, o, policy);
    AllRequestsPositive(t, first, r.partitions, o);
    AllRequestedSound(t, first, r.partitions, o);
    SoundMore(WithRequested(t, first, r.partitions, o).value, AllRootRequests(r.partitions));
    EnsureRootPositive(t, WithRequested(t, first, r.partitions, o).value, o);
  }

  /** Main result: when every requested partition but LVM and root ones has a size, the table is
      well laid. */
  lemma CustomTableWellLaid(r: DiskRequest, o: CustomOptions, policy: Option<Policy>, d': Disk)
    requires AllRootRequests(r.partitions) <= 1 && forall x :: x in o.requiredMinSizes ==> Rooted(x)
    requires MakesCustom(r, o, policy, d') && AllHaveSize(r.partitions, o)
    ensures WellLaid(d')
  {
    var t := MakesFinishes(r, o, policy, d');
    var d0 := AssembledDisk(t, r, o, UsedPolicy(policy));
    AssembledPositive(t, r, o, UsedPolicy(policy));
    EnsureDirectoriesKeeps(d0, o.requiredMinSizes);
    PreparedCustom(r, o, policy);
    PositiveOthers(PrepareCustom(r, o, policy).value);
    CustomTableLayout(r, o, policy, d');
  }

  // ---------- requested sizes of partitions ----------

  /** The partitions from `first` on are at least as large as requested and mount what was. */
  predicate SizedFrom(ps: seq<Entity>, first: nat, rs: seq<PartitionRequest>, o: CustomOptions) {
    && first + |rs| <= |ps|
    && forall i :: 0 <= i < |rs| ==> rs[i].minSize <= ps[first + i].size && RequestMounts(rs[i], o) <= MountSet(ps[first + i])
  }

  lemma {:induction false} RequestsSized(t: TableType, ps: seq<Entity>, rs: seq<PartitionRequest>, o: CustomOptions)
    requires WithRequested(t, ps, rs, o).Ok?
    ensures |WithRequested(t, ps, rs, o).value| == |ps| + |rs|
    ensures SizedFrom(WithRequested(t, ps, rs, o).value, |ps|, rs, o)
    decreases |rs|
  {
    if rs != [] {
      var n := |rs| - 1;
      var before := WithRequested(t, ps, rs[..n], o).value;
      RequestsSized(t, ps, rs[..n], o);
      RequestSize(t, before, rs[n], o);
      RequestMountSet(t, before, rs[n], o);
      SizedSnoc(before, RequestedPartition(t, before, rs[n], o).value, |ps|, rs, o);
    }
  }

  lemma SizedSnoc(ps: seq<Entity>, p: Entity, first: nat, rs: seq<PartitionRequest>, o: CustomOptions)
    requires rs != [] && SizedFrom(ps, first, rs[..|rs| - 1], o) && |ps| == first + |rs| - 1
    requires p.size == rs[|rs| - 1].minSize && MountSet(p) == RequestMounts(rs[|rs| - 1], o)
    ensures SizedFrom(ps + [p], first, rs, o)
  {
    var n := |rs| - 1;
    forall i | 0 <= i < |rs|
      ensures rs[i].minSize <= (ps + [p])[first + i].size && RequestMounts(rs[i], o) <= MountSet((ps + [p])[first + i])
    {
      if i < n { assert rs[..n][i] == rs[i]; }
    }
  }

  /** The partitions became larger ones that mount at least as much. */
  lemma SizedStays(ps: seq<Entity>, qs: seq<Entity>, first: nat, rs: seq<PartitionRequest>, o: CustomOptions)
    requires SizedFrom(ps, first, rs, o) && |ps| <= |qs|
    requires forall i :: 0 <= i < |ps| ==> ps[i].size <= qs[i].size && MountSet(ps[i]) <= MountSet(qs[i])
    ensures SizedFrom(qs, first, rs, o)
  {
  }

  lemma EnsureRootSized(t: TableType, ps: seq<Entity>, o: CustomOptions, i: nat)
    requires AllSound(ps, 1) && EnsureRoot(t, ps, o).Ok? && i < |ps|
    ensures var ps' := EnsureRoot(t, ps, o).value;
            |ps| <= |ps'| && ps[i].size <= ps'[i].size && MountSet(ps[i]) <= MountSet(ps'[i])
  {
    if "/" !in MountSets(ps) && FirstWithVolumes(ps, 0) == Some(i) {
      var p' := EnsureRoot(t, ps, o).value[i];
      assert Sound(ps[i], 1);
      ChildTyped(ps[i], 0);
      RootChildSound(ps[i].children[0], ps, o);
      OnlyChildMounts(ps[i]);
      OnlyChildMounts(p');
    }
  }

  lemma AssembledSized(t: TableType, r: DiskRequest, o: CustomOptions, policy: Policy)
    requires AllRootRequests(r.partitions) <= 1 && Assembled(t, r, o, policy).Ok?
    ensures ForBooting(t, r, o, policy).Ok?
    ensures SizedFrom(Assembled(t, r, o, policy).value, |ForBooting(t, r, o, policy).value|, r.partitions, o)
  {
    var first := ForBooting(t, r, o, policy).value;
    var ps := WithRequested(t, first, r.partitions, o).value;
    RequestsSized(t, first, r.partitions, o);
    ForBootingSound(t, r, o, policy);
    AllRequestedSound(t, first, r.partitions, o);
    SoundMore(ps, AllRootRequests(r.partitions));
    var ps' := EnsureRoot(t, ps, o).value;
    if ps == [] {
      EnsureRootGrows(t, ps, o);
    }
    forall i | 0 <= i < |ps| ensures |ps| <= |ps'| && ps[i].size <= ps'[i].size && MountSet(ps[i]) <= MountSet(ps'[i]) {
      EnsureRootSized(t, ps, o, i);
    }
    SizedStays(ps, ps', |first|, r.partitions, o);
  }

  lemma EnsureRootGrows(t: TableType, ps: seq<Entity>, o: CustomOptions)
    requires EnsureRoot(t, ps, o).Ok?
    ensures |ps| <= |EnsureRoot(t, ps, o).value|
  {
  }

  lemma GrownSized(e: Entity, e': Entity, first: nat, rs: seq<PartitionRequest>, o: CustomOptions)
    requires Grown(e, e') && SizedFrom(e.children, first, rs, o)
    ensures SizedFrom(e'.children, first, rs, o)
  {
    forall i | 0 <= i < |e.children|
      ensures e.children[i].size <= e'.children[i].size && MountSet(e.children[i]) <= MountSet(e'.children[i])
    {
      GrownMounts(e.children[i], e'.children[i]);
    }
    SizedStays(e.children, e'.children, first, rs, o);
  }

  lemma MovedMounts(p: Entity, p': Entity)
    requires Moved(p, p')
    ensures MountSet(p') == MountSet(p)
  {
  }

  lemma LaidSized(d: Disk, size: nat, d': Disk, first: nat, rs: seq<PartitionRequest>, o: CustomOptions)
    returns (laid: seq<Entity>)
    requires CanLayOut(d) && Relayout(d, size, d') && SizedFrom(d.tree.children, first, rs, o)
    ensures multiset(laid) == multiset(d'.tree.children) && SizedFrom(laid, first, rs, o)
  {
    laid := RelayoutNeverShrinks(d, size, d');
    forall i | 0 <= i < |laid| ensures MountSet(d.tree.children[i]) <= MountSet(laid[i]) {
      MovedMounts(d.tree.children[i], laid[i]);
    }
    SizedStays(d.tree.children, laid, first, rs, o);
  }

  /** Main result: the table is a rearrangement in which the requested partitions follow each other
      in order, each at least as large as requested, of whatever kind it is. */
  lemma RequestedPartitionsSized(r: DiskRequest, o: CustomOptions, policy: Option<Policy>, d': Disk)
    returns (laid: seq<Entity>, first: nat)
    requires AllRootRequests(r.partitions) <= 1 && forall x :: x in o.requiredMinSizes ==> Rooted(x)
    requires MakesCustom(r, o, policy, d')
    ensures multiset(laid) == multiset(d'.tree.children)
    ensures SizedFrom(laid, first, r.partitions, o)
  {
    var t := MakesFinishes(r, o, policy, d');
    var d0 := AssembledDisk(t, r, o, UsedPolicy(policy));
    var d := Disk(d0.config, EnsureDirectories(d0.tree, o.requiredMinSizes));
    first := |ForBooting(t, r, o, UsedPolicy(policy)).value|;
    AssembledSized(t, r, o, UsedPolicy(policy));
    GrownSized(d0.tree, d.tree, first, r.partitions, o);
    laid := LaidSized(d, r.minSize, d', first, r.partitions, o);
  }
}
