/** Requests at which custom tables do not follow their documentation. */
module CustomExamples {
  import opened Basics
  import opened Entities
  import opened Layout
  import opened LayoutSpace
  import opened CustomTable
  import opened CustomMounts

  function PlainAtPoint(m: string): PartitionRequest {
    PartitionRequest("plain", "", true, "", m, "xfs", "", GIB, [], [])
  }

  function GroupOf(volumes: seq<VolumeRequest>): PartitionRequest {
    PartitionRequest("lvm", "", true, "", "", "", "", GIB, volumes, [])
  }

  function VolumeAt(m: string): VolumeRequest {
    VolumeRequest("", m, "xfs", "", GIB)
  }

  function Requesting(ps: seq<PartitionRequest>): DiskRequest {
    DiskRequest("gpt", 0, 0, 0, ps)
  }

  /** A plain "/boot" and a volume group without "/": a boot partition is documented to be needed,
      but none is made. */
  lemma PlainBootWithoutRoot()
    ensures var r := Requesting([PlainAtPoint("/boot"), GroupOf([VolumeAt("/home")])]);
            DocumentedNeedsBoot(r) && !NeedsBoot(r)
  {
    var r := Requesting([PlainAtPoint("/boot"), GroupOf([VolumeAt("/home")])]);
    assert r.partitions[0].Plain() && r.partitions[0].mountpoint == "/boot";
    assert r.partitions[1].kind == "lvm";
  }

  /** "/" and "/boot" on two volumes of a group: no boot partition is documented to be needed, but
      one is made, and "/boot" is mounted twice. */
  lemma BootOnVolume(o: CustomOptions)
    requires o.bootMode.NoBoot?
    ensures var r := Requesting([GroupOf([VolumeAt("/"), VolumeAt("/boot")])]);
            && NeedsBoot(r) && !DocumentedNeedsBoot(r)
            && CustomMountSet(r, o, Policy(true, None))["/boot"] == 2
  {
    var vs := [VolumeAt("/"), VolumeAt("/boot")];
    var r := Requesting([GroupOf(vs)]);
    assert r.partitions[0].kind == "lvm";
    assert vs[0].mountpoint == "/" && vs[1].mountpoint == "/boot";
    assert OnVolume(r.partitions[0], "/") && OnVolume(r.partitions[0], "/boot");
    TwoVolumes(vs, o);
    assert r.partitions[..0] == [];
    assert AllRequestMounts(r.partitions, o) == multiset{} + VolumeMounts(vs, o);
  }

  lemma TwoVolumes(vs: seq<VolumeRequest>, o: CustomOptions)
    requires |vs| == 2 && vs[0].fstype == "xfs" && vs[1].fstype == "xfs"
    ensures VolumeMounts(vs, o) == multiset{vs[0].mountpoint, vs[1].mountpoint}
  {
    assert vs[..1][..0] == [] && vs[..1][0] == vs[0];
    assert VolumeMounts(vs[..1], o) == multiset{} + multiset{vs[0].mountpoint};
  }

  /** A Btrfs volume before a volume group: the root is documented to go to the group, but it goes
      to the Btrfs volume. */
  lemma BtrfsBeforeGroup()
    ensures var ps := [Entity(Partition(0, ""), GIB, [Entity(Btrfs, 0, [])]),
                       Entity(Partition(0, ""), GIB, [Entity(VolumeGroup("vg00"), 0, [])])];
            FirstWithVolumes(ps, 0) == Some(0) && DocumentedPlace(ps) == Some(1)
  {
    var ps := [Entity(Partition(0, ""), GIB, [Entity(Btrfs, 0, [])]),
               Entity(Partition(0, ""), GIB, [Entity(VolumeGroup("vg00"), 0, [])])];
    assert HoldsBtrfs(ps[0]) && HoldsGroup(ps[1]);
    assert FirstGroup(ps, 1) == Some(1);
  }
}
