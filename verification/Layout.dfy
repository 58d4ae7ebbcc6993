/** Laying out the partitions on the disk: offsets, sizes, the disk size, and the order. */
module Layout {
  import opened Basics
  import opened Entities
  import opened Mounts

  datatype TableType = NoType | Dos | Gpt

  datatype Policy = Policy(ensureXBootldr: bool, growRootToFillDisk: Option<bool>)

  datatype Config = Config(
    tableType: TableType,
    grainSize: nat,
    sectorSize: nat,
    extraPadding: nat,
    startOffset: nat,
    absoluteStartOffset: bool,
    policy: Option<Policy>)
  {
    function Grain(): (g: nat)
      ensures 0 < g
    {
      if 0 < grainSize then grainSize else MIB
    }

    function Align(x: nat): (r: nat)
      ensures r % Grain() == 0 && x <= r < x + Grain()
    {
      AlignUp(x, Grain())
    }

    function SectorsToBytes(n: nat): nat {
      n * (if sectorSize == 0 then 512 else sectorSize)
    }

    /** One sector, and for anything but DOS also at least 128 entries of 128 bytes. */
    function HeaderSize(parts: nat): nat {
      if tableType.Dos? then SectorsToBytes(1)
      else SectorsToBytes(1) + (if parts < 128 then 128 else parts) * 128
    }

    function FirstStart(parts: nat): (r: nat)
      ensures r % Grain() == 0 && HeaderSize(parts) <= r && startOffset <= r
    {
      var header := HeaderSize(parts);
      Align(if absoluteStartOffset && header < startOffset then startOffset else header + startOffset)
    }

    function Footer(parts: nat): nat {
      (if tableType.Gpt? then Align(HeaderSize(parts)) else 0) + extraPadding
    }

    /** The root fills the disk unless a policy says that it does not. */
    predicate GrowRoot(): (fills: bool)
      ensures fills <==> policy.None? || policy.value.growRootToFillDisk != Some(false)
    {
      policy.None? || policy.value.growRootToFillDisk.None? || policy.value.growRootToFillDisk.value
    }
  }

  /** A partition table: its settings and the tree below it. */
  datatype Disk = Disk(config: Config, tree: Entity)

  predicate ValidDisk(d: Disk) {
    d.tree.kind.Table? && WellTyped(d.tree)
  }

  // ---------- sizes of payloads ----------

  function MinSize(payload: Entity, size: nat): nat
    requires payload.kind.VolumeContainer()
  {
    match payload.kind
    case VolumeGroup(_) => AlignUp(Max(size, SizedSum(payload.children) + payload.kind.Metadata()), EXTENT)
    case Btrfs => Max(size, SizedSum(payload.children) + payload.kind.Metadata())
    case Luks =>
      payload.kind.Metadata() +
      if payload.children == [] then 0
      else if payload.children[0].kind.VolumeContainer() then MinSize(payload.children[0], size)
      else if payload.children[0].kind.Sizeable() then payload.children[0].size
      else 0
  }

  function FitTo(p: Entity, size: nat): nat {
    if p.children != [] && p.children[0].kind.VolumeContainer() then Max(size, MinSize(p.children[0], size))
    else size
  }

  lemma {:induction false} MinSizeCovers(payload: Entity, size: nat)
    requires WellTyped(payload) && payload.kind.VolumeContainer()
    ensures Need(payload) <= MinSize(payload, size)
  {
    ChildrenShape(payload);
    if payload.kind.Luks? && payload.children != [] {
      var c := payload.children[0];
      assert payload.kind.Admits(c.kind);
      if c.kind.VolumeContainer() {
        MinSizeCovers(c, size);
      } else {
        ChildrenShape(c);
      }
    }
  }

  /** Fitting makes a partition hold its whole payload chain, whatever its size was before. */
  lemma FitToCovers(p: Entity, size: nat)
    requires WellTyped(p) && p.kind.Partition?
    ensures size <= FitTo(p, size) && Content(p) <= FitTo(p, size)
  {
    ChildrenShape(p);
    if p.children != [] {
      assert p.kind.Admits(p.children[0].kind);
      if p.children[0].kind.VolumeContainer() {
        MinSizeCovers(p.children[0], size);
      } else {
        ChildrenShape(p.children[0]);
      }
    }
  }

  // ---------- placing ----------

  predicate Partitions(ps: seq<Entity>) {
    forall i :: 0 <= i < |ps| ==> ps[i].kind.Partition?
  }

  predicate HoldsRoot(p: Entity) {
    EntityPath(p, "/").Some?
  }

  function Place(c: Config, p: Entity, start: nat): Entity
    requires p.kind.Partition?
  {
    p.(kind := p.kind.(start := start), size := c.Align(FitTo(p, p.size)))
  }

  /** The partitions after the first loop: all but those that hold "/" are placed in order. */
  function PlaceOthers(c: Config, ps: seq<Entity>, start: nat): (r: seq<Entity>)
    requires Partitions(ps)
    ensures |r| == |ps| && Partitions(r)
  {
    if ps == [] then []
    else
      var n := |ps| - 1;
      PlaceOthers(c, ps[..n], start) +
      [if HoldsRoot(ps[n]) then ps[n] else Place(c, ps[n], EndOfOthers(c, ps[..n], start))]
  }

  function EndOfOthers(c: Config, ps: seq<Entity>, start: nat): nat
    requires Partitions(ps)
  {
    if ps == [] then start
    else
      var n := |ps| - 1;
      var before := EndOfOthers(c, ps[..n], start);
      if HoldsRoot(ps[n]) then before else before + c.Align(FitTo(ps[n], ps[n].size))
  }

  /** The index of the last partition that holds "/", or -1. */
  function RootIndex(ps: seq<Entity>): (r: int)
    ensures -1 <= r < |ps|
    ensures 0 <= r ==> HoldsRoot(ps[r])
    ensures forall i :: r < i < |ps| ==> !HoldsRoot(ps[i])
  {
    if ps == [] then -1
    else if HoldsRoot(ps[|ps| - 1]) then |ps| - 1
    else RootIndex(ps[..|ps| - 1])
  }

  /** The numbers the layout arrives at. */
  datatype Plan = Plan(rootStart: nat, rootNeed: nat, diskSize: nat, rootSize: nat)

  /** The plan, given where the other partitions end and what the root partition needs. */
  function PlanFrom(c: Config, parts: nat, oldSize: nat, size: nat, rootStart: nat, fitted: nat): (r: Plan)
    ensures r.rootStart + r.rootSize + c.Footer(parts) <= r.diskSize
    ensures r.rootNeed <= r.rootSize
  {
    var footer := c.Footer(parts);
    var rootNeed := c.Align(fitted);
    var end := c.Align(rootStart + footer + rootNeed);
    var diskSize := Max(oldSize, Max(c.Align(size), end));
    Plan(rootStart, rootNeed, diskSize, if c.GrowRoot() then diskSize - rootStart - footer else rootNeed)
  }

  function PlanOf(d: Disk, size: nat): (r: Plan)
    requires Partitions(d.tree.children) && 0 <= RootIndex(d.tree.children)
    ensures r.rootStart + r.rootSize + d.config.Footer(|d.tree.children|) <= r.diskSize
    ensures r.rootNeed <= r.rootSize
  {
    var c, ps := d.config, d.tree.children;
    var root := ps[RootIndex(ps)];
    PlanFrom(c, |ps|, d.tree.size, size, EndOfOthers(c, ps, c.FirstStart(|ps|)), FitTo(root, root.size))
  }

  /** All partitions after placing, still in their old order. */
  function Laid(d: Disk, size: nat): (r: seq<Entity>)
    requires Partitions(d.tree.children) && 0 <= RootIndex(d.tree.children)
    ensures |r| == |d.tree.children| && Partitions(r)
  {
    var ps := d.tree.children;
    var plan, k := PlanOf(d, size), RootIndex(ps);
    var placed := PlaceOthers(d.config, ps, d.config.FirstStart(|ps|));
    placed[k := ps[k].(kind := ps[k].kind.(start := plan.rootStart), size := plan.rootSize)]
  }

  predicate SortedByStart(ps: seq<Entity>)
    requires Partitions(ps)
  {
    forall i, j :: 0 <= i < j < |ps| ==> ps[i].kind.start <= ps[j].kind.start
  }

  /** `d'` is a possible result: sorting is not stable, so any sorted permutation is. */
  predicate Relayout(d: Disk, size: nat, d': Disk)
    requires Partitions(d.tree.children) && 0 <= RootIndex(d.tree.children)
  {
    && d'.config == d.config
    && d'.tree.kind == d.tree.kind
    && d'.tree.size == PlanOf(d, size).diskSize
    && multiset(d'.tree.children) == multiset(Laid(d, size))
    && Partitions(d'.tree.children)
    && SortedByStart(d'.tree.children)
  }

  // ---------- the placed partitions ----------

  lemma {:induction false} PlacedAt(c: Config, ps: seq<Entity>, start: nat, i: nat)
    requires Partitions(ps) && i < |ps|
    ensures PlaceOthers(c, ps, start)[i] ==
            if HoldsRoot(ps[i]) then ps[i] else Place(c, ps[i], EndOfOthers(c, ps[..i], start))
  {
    var n := |ps| - 1;
    if i < n {
      PlacedAt(c, ps[..n], start, i);
      assert ps[..n][..i] == ps[..i];
    }
  }

  lemma LaidAt(d: Disk, size: nat, i: nat)
    requires Partitions(d.tree.children) && 0 <= RootIndex(d.tree.children) && i < |d.tree.children|
    ensures var ps, plan := d.tree.children, PlanOf(d, size);
            var start := d.config.FirstStart(|ps|);
            Laid(d, size)[i] ==
              if i == RootIndex(ps) then ps[i].(kind := ps[i].kind.(start := plan.rootStart), size := plan.rootSize)
              else if HoldsRoot(ps[i]) then ps[i]
              else Place(d.config, ps[i], EndOfOthers(d.config, ps[..i], start))
  {
    PlacedAt(d.config, d.tree.children, d.config.FirstStart(|d.tree.children|), i);
  }

  /** Same entity below; only the partition's own start and size differ. */
  predicate Moved(p: Entity, p': Entity) {
    p.kind.Partition? && p'.kind.Partition? && p' == p.(kind := p.kind.(start := p'.kind.start), size := p'.size)
  }

  /** No partition is shrunk, and nothing inside a partition changes. */
  lemma LaidMoved(d: Disk, size: nat, i: nat)
    requires ValidDisk(d) && Partitions(d.tree.children) && 0 <= RootIndex(d.tree.children)
    requires i < |d.tree.children|
    ensures var p, p' := d.tree.children[i], Laid(d, size)[i];
            && p'.kind.Partition?
            && Moved(p, p') && p.size <= p'.size
            && (i == RootIndex(d.tree.children) || !HoldsRoot(p) ==> Content(p') <= p'.size)
  {
    LaidAt(d, size, i);
    FitToCovers(d.tree.children[i], d.tree.children[i].size);
  }

  // ---------- order ----------

  predicate OneRoot(ps: seq<Entity>) {
    exists k :: 0 <= k < |ps| && HoldsRoot(ps[k]) && forall i :: 0 <= i < |ps| && i != k ==> !HoldsRoot(ps[i])
  }

  /** The partitions follow each other without gap or overlap from `start` on. */
  predicate Tiled(ps: seq<Entity>, start: nat)
    requires Partitions(ps)
  {
    ps != [] ==> ps[0].kind.start == start && Tiled(ps[1..], start + ps[0].size)
  }

  function EndOf(ps: seq<Entity>, start: nat): nat {
    if ps == [] then start else EndOf(ps[1..], start + ps[0].size)
  }

  lemma {:induction false} TiledSnoc(ps: seq<Entity>, p: Entity, start: nat)
    requires Partitions(ps) && Tiled(ps, start) && p.kind.Partition? && p.kind.start == EndOf(ps, start)
    ensures Partitions(ps + [p]) && Tiled(ps + [p], start) && EndOf(ps + [p], start) == EndOf(ps, start) + p.size
    decreases ps
  {
    assert forall i :: 0 <= i < |ps + [p]| ==> (ps + [p])[i] == if i < |ps| then ps[i] else p;
    if ps == [] {
      assert (ps + [p])[1..] == [];
    } else {
      assert (ps + [p])[1..] == ps[1..] + [p];
      TiledSnoc(ps[1..], p, start + ps[0].size);
    }
  }

  /** The partitions without "/", placed: they tile the disk from the first start on. */
  lemma {:induction false} OthersTile(c: Config, ps: seq<Entity>, start: nat)
    requires Partitions(ps) && forall i :: 0 <= i < |ps| ==> !HoldsRoot(ps[i])
    ensures Tiled(PlaceOthers(c, ps, start), start)
    ensures EndOf(PlaceOthers(c, ps, start), start) == EndOfOthers(c, ps, start)
    decreases |ps|
  {
    if ps != [] {
      var n := |ps| - 1;
      OthersTile(c, ps[..n], start);
      TiledSnoc(PlaceOthers(c, ps[..n], start), Place(c, ps[n], EndOfOthers(c, ps[..n], start)), start);
    }
  }

  function Without<T>(s: seq<T>, k: nat): seq<T>
    requires k < |s|
  {
    s[..k] + s[k + 1..]
  }

  lemma WithoutSnoc<T>(s: seq<T>, x: T, k: nat)
    requires k < |s|
    ensures Without(s + [x], k) == Without(s, k) + [x]
  {
  }

  lemma PlaceSnoc(c: Config, ps: seq<Entity>, p: Entity, start: nat)
    requires Partitions(ps) && p.kind.Partition? && !HoldsRoot(p)
    ensures Partitions(ps + [p])
    ensures PlaceOthers(c, ps + [p], start) == PlaceOthers(c, ps, start) + [Place(c, p, EndOfOthers(c, ps, start))]
    ensures EndOfOthers(c, ps + [p], start) == EndOfOthers(c, ps, start) + c.Align(FitTo(p, p.size))
  {
    assert (ps + [p])[..|ps|] == ps;
  }

  /** A partition that holds "/" leaves no trace in how the others are placed. */
  lemma {:induction false} RootSkipped(c: Config, ps: seq<Entity>, start: nat, k: nat)
    requires Partitions(ps) && k < |ps| && HoldsRoot(ps[k])
    requires forall i :: k < i < |ps| ==> !HoldsRoot(ps[i])
    ensures Partitions(Without(ps, k))
    ensures PlaceOthers(c, Without(ps, k), start) == Without(PlaceOthers(c, ps, start), k)
    ensures EndOfOthers(c, Without(ps, k), start) == EndOfOthers(c, ps, start)
    decreases |ps|
  {
    var n := |ps| - 1;
    var before, last := ps[..n], ps[n];
    assert ps == before + [last];
    if k == n {
      assert Without(ps, k) == before;
      assert PlaceOthers(c, ps, start)[..n] == PlaceOthers(c, before, start);
    } else {
      RootSkipped(c, before, start, k);
      SkippedSnoc(c, before, last, start, k);
    }
  }

  lemma SkippedSnoc(c: Config, ps: seq<Entity>, p: Entity, start: nat, k: nat)
    requires Partitions(ps) && p.kind.Partition? && !HoldsRoot(p) && k < |ps|
    requires Partitions(Without(ps, k))
    requires PlaceOthers(c, Without(ps, k), start) == Without(PlaceOthers(c, ps, start), k)
    requires EndOfOthers(c, Without(ps, k), start) == EndOfOthers(c, ps, start)
    ensures Partitions(ps + [p]) && Partitions(Without(ps + [p], k))
    ensures PlaceOthers(c, Without(ps + [p], k), start) == Without(PlaceOthers(c, ps + [p], start), k)
    ensures EndOfOthers(c, Without(ps + [p], k), start) == EndOfOthers(c, ps + [p], start)
  {
    PlaceSnoc(c, ps, p, start);
    PlaceSnoc(c, Without(ps, k), p, start);
    WithoutSnoc(ps, p, k);
    WithoutSnoc(PlaceOthers(c, ps, start), Place(c, p, EndOfOthers(c, ps, start)), k);
  }

  /** The order the layout aims at: all others as they were, then the root partition. */
  function Canonical(d: Disk, size: nat): (r: seq<Entity>)
    requires Partitions(d.tree.children) && 0 <= RootIndex(d.tree.children)
    ensures Partitions(r) && |r| == |d.tree.children|
  {
    var laid, k := Laid(d, size), RootIndex(d.tree.children);
    Without(laid, k) + [laid[k]]
  }

  lemma CanonicalPermutes(d: Disk, size: nat)
    requires Partitions(d.tree.children) && 0 <= RootIndex(d.tree.children)
    ensures multiset(Canonical(d, size)) == multiset(Laid(d, size))
  {
    var laid, k := Laid(d, size), RootIndex(d.tree.children);
    assert laid == laid[..k] + [laid[k]] + laid[k + 1..];
  }

  lemma CanonicalTiles(d: Disk, size: nat)
    requires Partitions(d.tree.children) && OneRoot(d.tree.children)
    ensures var r, start := Canonical(d, size), d.config.FirstStart(|d.tree.children|);
            && Tiled(r, start)
            && EndOf(r, start) == PlanOf(d, size).rootStart + PlanOf(d, size).rootSize
            && r[|r| - 1].size == PlanOf(d, size).rootSize
            && r[|r| - 1].kind.start == PlanOf(d, size).rootStart
  {
    var c, ps, k := d.config, d.tree.children, RootIndex(d.tree.children);
    var start := c.FirstStart(|ps|);
    var others := Without(ps, k);
    var laid, placed := Laid(d, size), PlaceOthers(c, ps, start);
    RootSkipped(c, ps, start, k);
    OthersTile(c, others, start);
    assert Without(laid, k) == Without(placed, k);
    TiledSnoc(Without(laid, k), laid[k], start);
  }
}
