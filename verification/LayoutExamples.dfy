/** Tables at which the layout does not do what its documentation suggests. */
module LayoutExamples {
  import opened Basics
  import opened Entities
  import opened Mounts
  import opened Layout
  import opened LayoutFacts
  import opened LayoutSpace

  /** A GPT table with everything else at its defaults. */
  function Plain(partitions: seq<Entity>): Disk {
    Disk(Config(Gpt, 0, 0, 0, 0, false, None), Entity(Table, 0, partitions))
  }

  function RootFilesystem(): Entity {
    Entity(Filesystem("xfs", "/", "", "defaults"), 0, [])
  }

  function RootGroup(): Entity {
    Entity(VolumeGroup("rootvg"), 0, [Entity(LogicalVolume("rootlv"), GIB, [RootFilesystem()])])
  }

  lemma RootGroupHolds()
    ensures WellTyped(RootGroup()) && EntityPath(RootGroup(), "/").Some?
  {
    var lv := RootGroup().children[0];
    assert EntityPath(lv.children[0], "/") == Some([]);
    assert ChildPath(lv, 0, "/").Some?;
    assert EntityPath(lv, "/").Some?;
    assert ChildPath(RootGroup(), 0, "/").Some?;
  }

  /** A table whose only partition holds the payload. */
  function OnePartition(payload: Entity): Disk {
    Plain([Entity(Partition(0, ""), 0, [payload])])
  }

  lemma OnePartitionRoot(payload: Entity)
    requires WellTyped(payload) && payload.kind.Payload() && EntityPath(payload, "/").Some?
    ensures var d := OnePartition(payload);
            && CanLayOut(d) && OneRoot(d.tree.children) && OthersPositive(d.tree.children)
            && RootIndex(d.tree.children) == 0 && HoldsRoot(d.tree.children[0])
  {
    var ps := OnePartition(payload).tree.children;
    assert ChildPath(ps[0], 0, "/").Some?;
    assert HoldsRoot(ps[0]) && WellTyped(ps[0]);
    assert OneRoot(ps) && RootIndex(ps) == 0;
  }

  /** On a disk of whole grains that is large enough, a growing root gets all but a MiB at each end. */
  lemma GrownRootSize(payload: Entity, size: nat)
    requires WellTyped(payload) && payload.kind.Payload() && EntityPath(payload, "/").Some?
    requires size % MIB == 0
    requires var p := OnePartition(payload).tree.children[0]; 2 * MIB + FitTo(p, 0) + MIB <= size
    ensures CanLayOut(OnePartition(payload))
    ensures PlanOf(OnePartition(payload), size).diskSize == size
    ensures PlanOf(OnePartition(payload), size).rootSize == size - 2 * MIB
  {
    var d := OnePartition(payload);
    OnePartitionRoot(payload);
    var c, p := d.config, d.tree.children[0];
    assert c.HeaderSize(1) == 16896 && c.FirstStart(1) == MIB && c.Footer(1) == MIB;
    assert d.tree.children[..0] == [];
    assert EndOfOthers(c, d.tree.children, MIB) == MIB;
    AlignUpLeast(size, size, MIB);
    AlignUpLeast(2 * MIB + c.Align(FitTo(p, 0)), size, MIB);
  }

  /** Root on LVM, default grain, a disk of 10 GiB: the root gets 10 GiB less 2 MiB, which is not a
      whole number of extents, so the second layout changes the table. */
  lemma RootOnLvmIsNotSettled(d': Disk, d'': Disk)
    ensures CanLayOut(OnePartition(RootGroup()))
    ensures Relayout(OnePartition(RootGroup()), 10 * GIB, d') ==>
              CanLayOut(d') && (Relayout(d', 10 * GIB, d'') ==> d'' != d')
  {
    var d := OnePartition(RootGroup());
    RootGroupHolds();
    OnePartitionRoot(RootGroup());
    RootGroupNeed();
    GrownRootSize(RootGroup(), 10 * GIB);
    assert LaidSize(d, 10 * GIB, 0) % EXTENT == 2 * MIB;
    if Relayout(d, 10 * GIB, d') { RelayoutIdempotentIff(d, 10 * GIB, d', d''); }
  }

  lemma RootGroupNeed()
    ensures MinSize(RootGroup(), 0) == GIB + EXTENT
  {
    assert SizedSum(RootGroup().children[1..]) == 0;
    assert SizedSum(RootGroup().children) == GIB;
  }

  /** The same group inside a LUKS container grows with every layout. */
  lemma EncryptedRootIsNotSettled(d': Disk, d'': Disk)
    ensures CanLayOut(OnePartition(Entity(Luks, 0, [RootGroup()])))
    ensures Relayout(OnePartition(Entity(Luks, 0, [RootGroup()])), 10 * GIB, d') ==>
              CanLayOut(d') && (Relayout(d', 10 * GIB, d'') ==> d'' != d')
  {
    var luks := Entity(Luks, 0, [RootGroup()]);
    RootGroupHolds();
    assert ChildPath(luks, 0, "/").Some?;
    OnePartitionRoot(luks);
    if Relayout(OnePartition(luks), 10 * GIB, d') { EncryptedNeverSettles(OnePartition(luks), 10 * GIB, d', d'', 0); }
  }

  /** A root partition followed by an empty one: both start at the same place, so the sort may
      leave the empty one last. */
  lemma EmptyPartitionCanBeLast()
    ensures var d := Plain([Entity(Partition(0, ""), GIB, [RootFilesystem()]), Entity(Partition(0, ""), 0, [])]);
            CanLayOut(d) && exists d' :: Relayout(d, GIB, d') && !RootLast(d')
  {
    var root, empty := Entity(Partition(0, ""), GIB, [RootFilesystem()]), Entity(Partition(0, ""), 0, []);
    var d := Plain([root, empty]);
    assert EntityPath(root.children[0], "/") == Some([]);
    assert ChildPath(root, 0, "/").Some?;
    assert ChildPath(empty, 0, "/").None?;
    assert HoldsRoot(d.tree.children[0]) && !HoldsRoot(d.tree.children[1]);
    var d' := RootNotLast(d, GIB);
  }
}
