/** A layout in the numbers of the partition table's own settings. */
module LayoutNumbers {
  import opened Basics
  import opened Entities
  import opened Layout
  import opened LayoutFacts
  import opened LayoutSpace

  predicate LeastMultiple(r: nat, x: nat, g: nat)
    requires 0 < g
  {
    r % g == 0 && x <= r < x + g
  }

  lemma AlignIsLeast(c: Config, x: nat)
    ensures var g := if c.grainSize == 0 then 1048576 else c.grainSize;
            LeastMultiple(c.Align(x), x, g)
  {
  }

  // ---------- the numbers before and behind the partitions ----------

  /** A sector of 512 bytes unless set; for anything but DOS also 128 bytes for every partition,
      and for 128 partitions at least. */
  lemma HeaderInBytes(c: Config, n: nat)
    ensures var sector := if c.sectorSize == 0 then 512 else c.sectorSize;
            c.HeaderSize(n) == if c.tableType == Dos then sector
                               else if n <= 128 then sector + 16384
                               else sector + 128 * n
  {
  }

  /** The first start is the least multiple of the grain that is not below the header followed by
      the offset, or not below an absolute offset beyond the header. */
  lemma FirstStartIsLeast(c: Config, n: nat)
    ensures var g := if c.grainSize == 0 then 1048576 else c.grainSize;
            LeastMultiple(c.FirstStart(n),
                          if c.absoluteStartOffset && c.HeaderSize(n) < c.startOffset then c.startOffset
                          else c.HeaderSize(n) + c.startOffset, g)
  {
  }

  /** The space kept behind the partitions: a second header on GPT, in whole grains, and the padding
      byte by byte. */
  lemma FooterIsHeaderAndPadding(c: Config, n: nat)
    ensures c.extraPadding <= c.Footer(n)
    ensures var g := if c.grainSize == 0 then 1048576 else c.grainSize;
            if c.tableType == Gpt then LeastMultiple(c.Footer(n) - c.extraPadding, c.HeaderSize(n), g)
            else c.Footer(n) == c.extraPadding
  {
  }

  // ---------- what a partition is fitted to ----------

  /** A partition without volumes inside keeps its size. */
  lemma FitsPlain(p: Entity)
    requires p.children == [] || p.children[0].kind.Filesystem? || p.children[0].kind.Swap? || p.children[0].kind.Raw?
    ensures FitTo(p, p.size) == p.size
  {
  }

  /** A volume group makes its partition the least number of whole extents that is not below the
      size and holds all volumes and a MiB. */
  lemma FitsGroup(p: Entity)
    requires WellTyped(p) && HoldsGroup(p)
    ensures LeastMultiple(FitTo(p, p.size), Max(p.size, SumNeeds(p.children[0].children) + 1048576), 4194304)
  {
    ChildTyped(p, 0);
    ChildrenShape(p.children[0]);
  }

  lemma FitsBtrfs(p: Entity)
    requires WellTyped(p) && p.children != [] && p.children[0].kind.Btrfs?
    ensures FitTo(p, p.size) == Max(p.size, SumNeeds(p.children[0].children))
  {
    ChildTyped(p, 0);
    ChildrenShape(p.children[0]);
  }

  /** A LUKS container adds 16 MiB to what its payload would make of the size; only containers of
      volumes make anything of it. */
  lemma FitsLuks(p: Entity)
    requires WellTyped(p) && p.children != [] && p.children[0].kind.Luks?
    ensures var luks := p.children[0];
            FitTo(p, p.size) == Max(p.size, 16777216 +
              (if luks.children != [] && luks.children[0].kind.VolumeContainer() then MinSize(luks.children[0], p.size) else 0))
  {
    ChildTyped(p, 0);
    var luks := p.children[0];
    if luks.children != [] { ChildTyped(luks, 0); }
  }

  lemma MinSizeInBytes(v: Entity, size: nat)
    requires WellTyped(v) && v.kind.VolumeContainer()
    ensures v.kind.VolumeGroup? ==> LeastMultiple(MinSize(v, size), Max(size, SumNeeds(v.children) + 1048576), 4194304)
    ensures v.kind.Btrfs? ==> MinSize(v, size) == Max(size, SumNeeds(v.children))
    ensures v.kind.Luks? ==>
              MinSize(v, size) == 16777216 + (if v.children != [] && v.children[0].kind.VolumeContainer() then MinSize(v.children[0], size) else 0)
  {
    ChildrenShape(v);
    if v.kind.Luks? && v.children != [] { ChildTyped(v, 0); }
  }

  // ---------- the whole layout ----------

  /** Main result, the order: with one root and sized others, partitions keep their order with the
      root moved behind them; they start at the first start and follow each other; and each but the
      root has its fitted size rounded up to a grain. */
  lemma RelayoutInOrder(d: Disk, size: nat, d': Disk)
    requires CanLayOut(d) && OneRoot(d.tree.children) && OthersPositive(d.tree.children) && Relayout(d, size, d')
    ensures var c, ps, qs, n, k := d.config, d.tree.children, d'.tree.children, |d.tree.children|, RootIndex(d.tree.children);
            && |qs| == n && Partitions(qs)
            && (forall i :: 0 <= i < n - 1 ==>
                  var p := ps[if i < k then i else i + 1];
                  Moved(p, qs[i]) && qs[i].size == c.Align(FitTo(p, p.size)))
            && Moved(ps[k], qs[n - 1])
  {
    RelayoutWellLaid(d, size, d');
    forall i | 0 <= i < |d.tree.children| ensures Moved(d.tree.children[Origin(d, i)], d'.tree.children[i])
      ensures i < |d.tree.children| - 1 ==>
                var p := d.tree.children[Origin(d, i)]; d'.tree.children[i].size == d.config.Align(FitTo(p, p.size))
    {
      CanonicalAt(d, size, i);
    }
  }

  lemma RelayoutFollows(d: Disk, size: nat, d': Disk)
    requires CanLayOut(d) && OneRoot(d.tree.children) && OthersPositive(d.tree.children) && Relayout(d, size, d')
    ensures var qs := d'.tree.children;
            && qs != [] && Partitions(qs)
            && qs[0].kind.start == d.config.FirstStart(|qs|)
            && (forall i :: 0 <= i < |qs| - 1 ==> qs[i + 1].kind.start == qs[i].kind.start + qs[i].size)
  {
    RelayoutWellLaid(d, size, d');
    var qs, start := d'.tree.children, d.config.FirstStart(|d'.tree.children|);
    forall i | 0 <= i < |qs| - 1 ensures qs[i + 1].kind.start == qs[i].kind.start + qs[i].size {
      TiledNext(qs, start, i);
    }
  }

  /** Main result, the disk: it is the largest of its old size, the requested size and the content
      up to the footer, the latter two rounded up to a grain. */
  lemma RelayoutDiskSize(d: Disk, size: nat, d': Disk)
    requires CanLayOut(d) && OneRoot(d.tree.children) && OthersPositive(d.tree.children) && Relayout(d, size, d')
    ensures |d'.tree.children| == |d.tree.children|
    ensures var c, n, root := d.config, |d.tree.children|, d.tree.children[RootIndex(d.tree.children)];
            var content := d'.tree.children[n - 1].kind.start + c.Footer(n) + c.Align(FitTo(root, root.size));
            d'.tree.size == Max(d.tree.size, Max(c.Align(size), c.Align(content)))
  {
    RelayoutWellLaid(d, size, d');
    CanonicalTiles(d, size);
  }

  /** The same for any partition that holds "/": there is only one. */
  predicate DiskSizeFor(d: Disk, size: nat, d': Disk, root: Entity)
    requires d'.tree.children != [] && Partitions(d'.tree.children)
  {
    var c, n, last := d.config, |d'.tree.children|, d'.tree.children[|d'.tree.children| - 1];
    d'.tree.size == Max(d.tree.size, Max(c.Align(size), c.Align(last.kind.start + c.Footer(n) + c.Align(FitTo(root, root.size)))))
  }

  lemma RelayoutDiskSizeFor(d: Disk, size: nat, d': Disk)
    requires CanLayOut(d) && OneRoot(d.tree.children) && OthersPositive(d.tree.children) && Relayout(d, size, d')
    ensures d'.tree.children != [] && Partitions(d'.tree.children)
    ensures forall r :: r in d.tree.children && HoldsRoot(r) ==> DiskSizeFor(d, size, d', r)
  {
    RelayoutDiskSize(d, size, d');
    OneRootIndex(d.tree.children);
  }
}
