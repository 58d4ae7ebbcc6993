/** Copying a partition table. */
module Clone {
  import opened Entities
  import opened Mounts
  import opened Layout
  import opened LayoutSpace
  import opened Volumes
  import opened Growth

  /** Copying follows the payload of a logical volume or LUKS container without a nil check. */
  predicate CloneSafe(e: Entity) {
    && (e.kind.LogicalVolume? || e.kind.Luks? ==> e.children != [])
    && forall i :: 0 <= i < |e.children| ==> CloneSafe(e.children[i])
  }

  /** The copy of a subvolume does not take over the read-only flag. */
  function CloneKind(k: Kind): Kind {
    if k.Subvolume? then k.(readOnly := false) else k
  }

  function CloneOf(e: Entity): (c: Entity)
    requires CloneSafe(e)
    ensures |c.children| == |e.children| && c.size == e.size && c.kind == CloneKind(e.kind)
    ensures forall i :: 0 <= i < |e.children| ==> c.children[i] == CloneOf(e.children[i])
  {
    Entity(CloneKind(e.kind), e.size,
           seq(|e.children|, i requires 0 <= i < |e.children| => CloneOf(e.children[i])))
  }

  predicate NoReadOnlySubvolume(e: Entity) {
    && !(e.kind.Subvolume? && e.kind.readOnly)
    && forall i :: 0 <= i < |e.children| ==> NoReadOnlySubvolume(e.children[i])
  }

  /** The copy equals the original exactly when no subvolume is read-only. */
  lemma {:induction false} CloneEqualIff(e: Entity)
    requires CloneSafe(e)
    ensures CloneOf(e) == e <==> NoReadOnlySubvolume(e)
  {
    var c := CloneOf(e);
    forall i | 0 <= i < |e.children| {
      CloneEqualIff(e.children[i]);
    }
    if NoReadOnlySubvolume(e) {
      assert c.children == e.children;
    }
  }

  // ---------- what a copy shares with its original ----------

  lemma {:induction false} CloneTyped(e: Entity)
    requires CloneSafe(e) && WellTyped(e)
    ensures WellTyped(CloneOf(e))
  {
    forall i | 0 <= i < |e.children|
      ensures WellTyped(CloneOf(e.children[i])) && e.kind.Admits(CloneKind(e.children[i].kind))
    {
      CloneTyped(e.children[i]);
      assert e.kind.Admits(e.children[i].kind);
    }
  }

  lemma {:induction false} CloneMounts(e: Entity)
    requires CloneSafe(e)
    ensures MountSet(CloneOf(e)) == MountSet(e)
    decreases e, 1
  {
    CloneMountSets(e.children, CloneOf(e).children);
  }

  lemma {:induction false} CloneMountSets(cs: seq<Entity>, ds: seq<Entity>)
    requires |cs| == |ds| && forall i :: 0 <= i < |cs| ==> CloneSafe(cs[i]) && ds[i] == CloneOf(cs[i])
    ensures MountSets(ds) == MountSets(cs)
    decreases cs
  {
    if cs != [] {
      CloneMounts(cs[0]);
      CloneMountSets(cs[1..], ds[1..]);
    }
  }

  lemma {:induction false} CloneNeed(e: Entity)
    requires CloneSafe(e)
    ensures Content(CloneOf(e)) == Content(e) && Need(CloneOf(e)) == Need(e)
    decreases e, 1
  {
    CloneNeeds(e.children, CloneOf(e).children);
  }

  lemma {:induction false} CloneNeeds(cs: seq<Entity>, ds: seq<Entity>)
    requires |cs| == |ds| && forall i :: 0 <= i < |cs| ==> CloneSafe(cs[i]) && ds[i] == CloneOf(cs[i])
    ensures SumNeeds(ds) == SumNeeds(cs) && SizedSum(ds) == SizedSum(cs)
    decreases cs
  {
    if cs != [] {
      CloneNeed(cs[0]);
      CloneNeeds(cs[1..], ds[1..]);
    }
  }

  lemma {:induction false} CloneFits(e: Entity)
    requires CloneSafe(e) && Fits(e)
    ensures Fits(CloneOf(e))
  {
    CloneNeed(e);
    forall i | 0 <= i < |e.children| { CloneFits(e.children[i]); }
  }

  lemma {:induction false} CloneRoom(e: Entity, m: string, s: nat, outer: nat)
    requires CloneSafe(e) && Room(e, m, s, outer)
    ensures Room(CloneOf(e), m, s, outer)
  {
    if !e.kind.Mountable() {
      var here := if e.kind.Sizeable() then e.size else outer;
      forall i | 0 <= i < |e.children| ensures Room(CloneOf(e).children[i], m, s, here) {
        CloneRoom(e.children[i], m, s, here);
      }
    }
  }

  lemma {:induction false} CloneNames(e: Entity)
    requires CloneSafe(e) && NamesDistinct(e)
    ensures NamesDistinct(CloneOf(e))
  {
    forall i | 0 <= i < |e.children| ensures NamesDistinct(CloneOf(e).children[i]) {
      CloneNames(e.children[i]);
    }
  }

  lemma {:induction false} CloneMinSize(v: Entity, size: nat)
    requires CloneSafe(v) && v.kind.VolumeContainer()
    ensures MinSize(CloneOf(v), size) == MinSize(v, size)
  {
    CloneNeeds(v.children, CloneOf(v).children);
    if v.kind.Luks? && v.children[0].kind.VolumeContainer() {
      CloneMinSize(v.children[0], size);
    }
  }

  lemma ClonePositive(p: Entity)
    requires CloneSafe(p) && Positive(p)
    ensures Positive(CloneOf(p))
  {
    CloneMounts(p);
    if p.children != [] {
      assert CloneSafe(p.children[0]);
      if p.children[0].kind.VolumeContainer() { CloneMinSize(p.children[0], p.size); }
    }
  }

  lemma CloneKeeps(d: Disk)
    requires Ready(d) && CloneSafe(d.tree)
    ensures var d' := Disk(d.config, CloneOf(d.tree));
            Keeps(d, d') && Ready(d') && MountSet(d'.tree) == MountSet(d.tree)
  {
    var d' := Disk(d.config, CloneOf(d.tree));
    CloneTyped(d.tree);
    CloneMounts(d.tree);
    forall m | m in MountSet(d.tree) ensures RoomKept(d.tree, d'.tree, m) {
      forall s: nat | Room(d.tree, m, s, 0) ensures Room(d'.tree, m, s, 0) { CloneRoom(d.tree, m, s, 0); }
    }
    if InnerFits(d.tree) {
      forall i, j | 0 <= i < |d'.tree.children| && 0 <= j < |d'.tree.children[i].children|
        ensures Fits(d'.tree.children[i].children[j])
      {
        assert CloneSafe(d.tree.children[i]);
        assert CloneSafe(d.tree.children[i].children[j]) && Fits(d.tree.children[i].children[j]);
        CloneFits(d.tree.children[i].children[j]);
      }
    }
    if NamesDistinct(d.tree) { CloneNames(d.tree); }
    if AllPositive(d.tree) {
      forall i | 0 <= i < |d'.tree.children| ensures Positive(d'.tree.children[i]) {
        ClonePositive(d.tree.children[i]);
      }
    }
  }
}
