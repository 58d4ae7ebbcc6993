/** The names of the logical volumes in a custom table. */
module CustomNames {
  import opened Basics
  import opened Entities
  import opened Resize
  import opened Mounts
  import opened Directories
  import opened DirectorySizes
  import opened Layout
  import opened LayoutSpace
  import opened Names
  import opened Volumes
  import opened Wrapping
  import opened CustomTable
  import opened CustomMounts

  // ---------- which names are chosen ----------

  /** The given name, or the first free one made from the mountpoint. */
  function ChosenName(v: VolumeRequest, taken: seq<string>, o: CustomOptions): string {
    if v.name != "" then v.name
    else
      match GenUniqueString(LvName(if IsSwap(v.fstype, o) then "swap" else v.mountpoint), set n | n in taken)
      case Some(name) => name
      case None => ""
  }

  function ChosenNames(vs: seq<VolumeRequest>, o: CustomOptions): (r: seq<string>)
    ensures |r| == |vs|
  {
    if vs == [] then []
    else
      var before := ChosenNames(vs[..|vs| - 1], o);
      before + [ChosenName(vs[|vs| - 1], before, o)]
  }

  /** No given name is that of a volume before it, whether given or generated. */
  predicate GivenNamesNew(vs: seq<VolumeRequest>, o: CustomOptions) {
    forall j :: 0 <= j < |vs| && vs[j].name != "" ==> vs[j].name !in ChosenNames(vs[..j], o)
  }

  lemma GivenNamesSnoc(vs: seq<VolumeRequest>, o: CustomOptions)
    requires vs != []
    ensures var n := |vs| - 1;
            GivenNamesNew(vs, o) <==>
            GivenNamesNew(vs[..n], o) && (vs[n].name != "" ==> vs[n].name !in ChosenNames(vs[..n], o))
  {
    var n := |vs| - 1;
    forall j | 0 <= j < n ensures vs[..n][..j] == vs[..j] && vs[..n][j] == vs[j] {
    }
    if GivenNamesNew(vs[..n], o) && (vs[n].name != "" ==> vs[n].name !in ChosenNames(vs[..n], o)) {
      forall j | 0 <= j < |vs| && vs[j].name != "" ensures vs[j].name !in ChosenNames(vs[..j], o) {
        if j < n { assert vs[..n][j].name !in ChosenNames(vs[..n][..j], o); }
      }
    }
    if GivenNamesNew(vs, o) {
      forall j | 0 <= j < n && vs[..n][j].name != "" ensures vs[..n][j].name !in ChosenNames(vs[..n][..j], o) {
        assert vs[j].name !in ChosenNames(vs[..j], o);
      }
    }
  }

  // ---------- the names of one group ----------

  /** The volumes have exactly these names, in this order. */
  predicate Named(vg: Entity, names: seq<string>) {
    && |vg.children| == |names|
    && forall i :: 0 <= i < |names| ==> vg.children[i].kind.LogicalVolume? && vg.children[i].kind.name == names[i]
  }

  lemma NamedSet(vg: Entity, names: seq<string>)
    requires Named(vg, names)
    ensures LvNames(vg) == set n | n in names
  {
    forall n | n in names ensures n in LvNames(vg) {
      var i :| 0 <= i < |names| && names[i] == n;
      assert vg.children[i].kind.name == n;
    }
  }

  lemma VolumeNamed(before: Entity, v: VolumeRequest, o: CustomOptions, names: seq<string>)
    requires before.kind.VolumeGroup? && Named(before, names) && AddVolume(before, v, o).Ok?
    ensures var r := AddVolume(before, v, o).value;
            && r.kind == before.kind && Named(r, names + [ChosenName(v, names, o)])
            && (NamesDistinct(r) <==> NamesDistinct(before) && ChosenName(v, names, o) !in names)
  {
    var lv := AddVolume(before, v, o).value.children[|before.children|];
    NamedSet(before, names);
    assert NamesDistinct(lv.children[0]);
    assert NamesDistinct(lv);
    NewNameDistinct(before, lv);
  }

  lemma {:induction false} VolumesNamed(vg: Entity, vs: seq<VolumeRequest>, o: CustomOptions)
    requires vg.kind.VolumeGroup? && vg.children == [] && WithVolumes(vg, vs, o).Ok?
    ensures var r := WithVolumes(vg, vs, o).value;
            r.kind == vg.kind && Named(r, ChosenNames(vs, o)) && (NamesDistinct(r) <==> GivenNamesNew(vs, o))
    decreases |vs|
  {
    if vs != [] {
      var n := |vs| - 1;
      var names := ChosenNames(vs[..n], o);
      VolumesNamed(vg, vs[..n], o);
      VolumeNamed(WithVolumes(vg, vs[..n], o).value, vs[n], o, names);
      GivenNamesSnoc(vs, o);
      if vs[n].name == "" { GeneratedIsNew(WithVolumes(vg, vs[..n], o).value, vs[n], o, names); }
    }
  }

  lemma GeneratedIsNew(before: Entity, v: VolumeRequest, o: CustomOptions, names: seq<string>)
    requires before.kind.VolumeGroup? && Named(before, names) && AddVolume(before, v, o).Ok? && v.name == ""
    ensures ChosenName(v, names, o) !in names
  {
    NamedSet(before, names);
  }

  // ---------- the whole table ----------

  /** The names given for the volumes of a requested group are new ones. */
  predicate RequestNamesNew(p: PartitionRequest, o: CustomOptions) {
    p.kind == "lvm" ==> GivenNamesNew(p.volumes, o)
  }

  predicate RequestsNamesNew(rs: seq<PartitionRequest>, o: CustomOptions) {
    forall i :: 0 <= i < |rs| ==> RequestNamesNew(rs[i], o)
  }

  lemma RequestsSnoc(rs: seq<PartitionRequest>, o: CustomOptions)
    requires rs != []
    ensures RequestsNamesNew(rs, o) <==> RequestsNamesNew(rs[..|rs| - 1], o) && RequestNamesNew(rs[|rs| - 1], o)
  {
    var before := rs[..|rs| - 1];
    assert forall i :: 0 <= i < |before| ==> before[i] == rs[i];
    if RequestsNamesNew(before, o) && RequestNamesNew(rs[|rs| - 1], o) {
      forall i | 0 <= i < |rs| ensures RequestNamesNew(rs[i], o) {
        if i < |before| { assert RequestNamesNew(before[i], o); }
      }
    }
  }

  predicate AllNamesDistinct(ps: seq<Entity>) {
    forall i :: 0 <= i < |ps| ==> NamesDistinct(ps[i])
  }

  lemma RequestNamed(t: TableType, ps: seq<Entity>, p: PartitionRequest, o: CustomOptions)
    requires RequestedPartition(t, ps, p, o).Ok?
    ensures NamesDistinct(RequestedPartition(t, ps, p, o).value) <==> RequestNamesNew(p, o)
  {
    var e := RequestedPartition(t, ps, p, o).value;
    if p.kind == "lvm" {
      VolumesNamed(EmptyGroup(GroupName(ps, p).value), p.volumes, o);
      assert NamesDistinct(e) <==> NamesDistinct(e.children[0]);
    } else if p.Plain() {
      assert e.children != [] ==> NamesDistinct(e.children[0]);
    } else {
      assert NamesDistinct(e.children[0]);
    }
  }

  lemma {:induction false} AllRequestsNamed(t: TableType, ps: seq<Entity>, rs: seq<PartitionRequest>, o: CustomOptions)
    requires AllNamesDistinct(ps) && WithRequested(t, ps, rs, o).Ok?
    ensures AllNamesDistinct(WithRequested(t, ps, rs, o).value) <==> RequestsNamesNew(rs, o)
    decreases |rs|
  {
    if rs != [] {
      var n := |rs| - 1;
      var before := WithRequested(t, ps, rs[..n], o).value;
      AllRequestsNamed(t, ps, rs[..n], o);
      RequestNamed(t, before, rs[n], o);
      NamesSnoc(before, RequestedPartition(t, before, rs[n], o).value);
      RequestsSnoc(rs, o);
    }
  }

  lemma NamesSnoc(ps: seq<Entity>, p: Entity)
    ensures AllNamesDistinct(ps + [p]) <==> AllNamesDistinct(ps) && NamesDistinct(p)
  {
    assert forall i :: 0 <= i < |ps| ==> (ps + [p])[i] == ps[i];
    assert (ps + [p])[|ps|] == p;
  }

  /** A partition without content, or with a filesystem. */
  predicate LeafHolder(p: Entity) {
    p.kind.Partition? && (p.children == [] || (|p.children| == 1 && p.children[0].kind.Filesystem? && p.children[0].children == []))
  }

  lemma LeafHolderNamed(p: Entity)
    requires LeafHolder(p)
    ensures NamesDistinct(p)
  {
    if p.children != [] { assert NamesDistinct(p.children[0]); }
  }

  lemma BootModeNamed(t: TableType, r: DiskRequest, o: CustomOptions)
    requires BootModePartitions(t, r, o).Ok?
    ensures AllNamesDistinct(BootModePartitions(t, r, o).value)
  {
    if MakeEsp(t, o).Ok? { LeafHolderNamed(MakeEsp(t, o).value); }
    match o.arch {
      case Ppc64le => if !o.bootMode.NoBoot? { LeafHolderNamed(NewPartition(t, "ppc_prep", "", Unset, 4 * MIB, []).value); }
      case X86_64 =>
        if o.bootMode.Legacy? || o.bootMode.Hybrid? { LeafHolderNamed(NewPartition(t, "bios", "", Unset, MIB, []).value); }
      case _ =>
    }
  }

  lemma BootNamed(t: TableType, r: DiskRequest, o: CustomOptions, policy: Policy)
    requires ForBooting(t, r, o, policy).Ok?
    ensures AllNamesDistinct(ForBooting(t, r, o, policy).value)
  {
    var boot := BootModePartitions(t, r, o).value;
    BootModeNamed(t, r, o);
    if policy.ensureXBootldr && NeedsBoot(r) {
      LeafHolderNamed(BootPartition(t, boot, o).value);
      NamesSnoc(boot, BootPartition(t, boot, o).value);
    }
  }

  lemma RootNamed(v: Entity, ps: seq<Entity>, o: CustomOptions)
    requires (v.kind.VolumeGroup? || v.kind.Btrfs?) && RootInVolumes(v, ps, o).Ok?
    ensures NamesDistinct(RootInVolumes(v, ps, o).value) <==> NamesDistinct(v)
  {
    var v' := RootInVolumes(v, ps, o).value;
    var last := v'.children[|v.children|];
    assert forall i :: 0 <= i < |v.children| ==> v'.children[i] == v.children[i];
    if v.kind.VolumeGroup? {
      assert NamesDistinct(last.children[0]);
      GeneratedNameIsNew(v, 0, last.children[0]);
    } else {
      assert NamesDistinct(last);
    }
  }

  lemma EnsureRootNamed(t: TableType, ps: seq<Entity>, o: CustomOptions)
    requires AllSound(ps, 1) && EnsureRoot(t, ps, o).Ok?
    ensures AllNamesDistinct(EnsureRoot(t, ps, o).value) <==> AllNamesDistinct(ps)
  {
    if "/" !in MountSets(ps) {
      match FirstWithVolumes(ps, 0) {
        case Some(i) =>
          var ps' := EnsureRoot(t, ps, o).value;
          assert Sound(ps[i], 1);
          RootNamed(ps[i].children[0], ps, o);
          assert NamesDistinct(ps[i]) <==> NamesDistinct(ps[i].children[0]);
          assert NamesDistinct(ps'[i]) <==> NamesDistinct(ps'[i].children[0]);
          assert forall j :: 0 <= j < |ps| && j != i ==> ps'[j] == ps[j];
        case None =>
          var p := PlainRoot(t, ps, o).value;
          assert NamesDistinct(p.children[0]);
          NamesSnoc(ps, p);
      }
    }
  }

  lemma AssembledNamed(t: TableType, r: DiskRequest, o: CustomOptions, policy: Policy)
    requires AllRootRequests(r.partitions) <= 1 && Assembled(t, r, o, policy).Ok?
    ensures AllNamesDistinct(Assembled(t, r, o, policy).value) <==> RequestsNamesNew(r.partitions, o)
  {
    var first := ForBooting(t, r, o, policy).value;
    BootNamed(t, r, o, policy);
    ForBootingSound(t, r, o, policy);
    AllRequestsNamed(t, first, r.partitions, o);
    AllRequestedSound(t, first, r.partitions, o);
    SoundMore(WithRequested(t, first, r.partitions, o).value, AllRootRequests(r.partitions));
    EnsureRootNamed(t, WithRequested(t, first, r.partitions, o).value, o);
  }

  lemma {:induction false} SameNamesGrown(e: Entity, e': Entity)
    requires Grown(e, e')
    ensures NamesDistinct(e) <==> NamesDistinct(e')
  {
    forall i | 0 <= i < |e.children| ensures NamesDistinct(e.children[i]) <==> NamesDistinct(e'.children[i]) {
      SameNamesGrown(e.children[i], e'.children[i]);
    }
    assert forall i :: 0 <= i < |e.children| ==> Grown(e.children[i], e'.children[i]);
  }

  lemma SameNamesMoved(p: Entity, p': Entity)
    requires Moved(p, p')
    ensures NamesDistinct(p') <==> NamesDistinct(p)
  {
  }

  lemma SameNamesLaid(d: Disk, size: nat, d': Disk)
    requires CanLayOut(d) && Relayout(d, size, d')
    ensures AllNamesDistinct(d'.tree.children) <==> AllNamesDistinct(d.tree.children)
  {
    var laid := RelayoutNeverShrinks(d, size, d');
    forall i | 0 <= i < |laid| ensures NamesDistinct(laid[i]) <==> NamesDistinct(d.tree.children[i]) {
      SameNamesMoved(d.tree.children[i], laid[i]);
    }
    if AllNamesDistinct(laid) { PermutedNames(laid, d'.tree.children); }
    if AllNamesDistinct(d'.tree.children) { PermutedNames(d'.tree.children, laid); }
  }

  lemma PermutedNames(ps: seq<Entity>, qs: seq<Entity>)
    requires multiset(ps) == multiset(qs) && AllNamesDistinct(ps)
    ensures AllNamesDistinct(qs)
  {
    forall i | 0 <= i < |qs| ensures NamesDistinct(qs[i]) {
      var k := Occurrence(ps, qs, qs[i]);
    }
  }

  /** Main result: the volumes of every group in a custom table have distinct names exactly when
      no given name is that of a volume before it in its group; generated names never collide. */
  lemma CustomTableNames(r: DiskRequest, o: CustomOptions, policy: Option<Policy>, d': Disk)
    requires AllRootRequests(r.partitions) <= 1 && forall x :: x in o.requiredMinSizes ==> Rooted(x)
    requires MakesCustom(r, o, policy, d')
    ensures NamesDistinct(d'.tree) <==> RequestsNamesNew(r.partitions, o)
  {
    var t := MakesFinishes(r, o, policy, d');
    var d0 := AssembledDisk(t, r, o, UsedPolicy(policy));
    var d := Disk(d0.config, EnsureDirectories(d0.tree, o.requiredMinSizes));
    AssembledNamed(t, r, o, UsedPolicy(policy));
    SameNamesGrown(d0.tree, d.tree);
    SameNamesLaid(d, r.minSize, d');
  }

  /** An unnamed volume for "/home" is called "homelv"; a later one that is given this name
      collides with it. */
  lemma GivenNameCanCollide(o: CustomOptions)
    ensures var vs := [VolumeRequest("", "/home", "xfs", "", GIB), VolumeRequest("homelv", "/srv", "xfs", "", GIB)];
            var r := WithVolumes(EmptyGroup("vg00"), vs, o);
            r.Ok? && Named(r.value, ["homelv", "homelv"]) && !NamesDistinct(r.value)
  {
    var home, srv := VolumeRequest("", "/home", "xfs", "", GIB), VolumeRequest("homelv", "/srv", "xfs", "", GIB);
    var vg := EmptyGroup("vg00");
    HomeLv();
    assert [home, srv][..1] == [home] && [home][..0] == [];
    assert WithVolumes(vg, [], o) == Ok(vg);
    assert LvNames(vg) == {};
    assert WithVolumes(vg, [home], o) == AddVolume(vg, home, o);
    assert AddVolume(vg, home, o).Ok?;
    VolumeNamed(vg, home, o, []);
    assert [] + ["homelv"] == ["homelv"];
    var one := AddVolume(vg, home, o).value;
    assert WithVolumes(vg, [home, srv], o) == AddVolume(one, srv, o);
    VolumeNamed(one, srv, o, ["homelv"]);
    assert ["homelv"] + ["homelv"] == ["homelv", "homelv"];
  }

  lemma HomeLv()
    ensures LvName("/home") == "homelv"
  {
    assert "/home"[1..] == "home";
    assert TrimLeft("home", '/') == "home";
    assert ReplaceAll("home", '/', '_') == "home";
  }
}
