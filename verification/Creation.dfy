/** Adding a mountpoint next to the root filesystem. */
module Creation {
  import opened Basics
  import opened Entities
  import opened Resize
  import opened Mounts
  import opened Layout
  import opened LayoutSpace
  import opened Volumes
  import opened Growth

  /** The deepest mountpoint creator on a path, looking from its end upwards. */
  function DeepestCreator(e: Entity, p: Path): (r: Option<Path>)
    requires ValidPath(e, p)
    ensures r.Some? ==> r.value <= p && ValidPath(e, r.value) && At(e, r.value).kind.MountpointCreator()
    ensures e.kind.MountpointCreator() ==> r.Some?
    decreases p
  {
    var below := if p == [] then None else DeepestCreator(e.children[p[0]], p[1..]);
    if below.Some? then Some([p[0]] + below.value)
    else if e.kind.MountpointCreator() then Some([])
    else None
  }

  /** The tree in which `n'` extends the creator at `cp`, and the address of its new last child. */
  lemma {:induction false} NewChildAt(e: Entity, cp: Path, n': Entity)
    requires ValidPath(e, cp) && n'.children != []
    ensures var q := cp + [|n'.children| - 1];
            ValidPath(UpdateAt(e, cp, n'), q) && At(UpdateAt(e, cp, n'), q) == n'.children[|n'.children| - 1]
    decreases cp
  {
    var q := cp + [|n'.children| - 1];
    if cp != [] {
      NewChildAt(e.children[cp[0]], cp[1..], n');
      assert q[1..] == cp[1..] + [|n'.children| - 1];
    } else {
      assert q == [|n'.children| - 1] && q[1..] == [];
    }
  }

  // ---------- appending a child of size 0 ----------

  lemma AppendedHere(e: Entity, e': Entity, m: string)
    requires Appended(e, e', m) && WellTyped(e) && e.kind.MountpointCreator()
    ensures WellTyped(e')
    ensures e'.children[|e.children|].size == 0 ==> Content(e') == Content(e) && (Fits(e) ==> Fits(e'))
  {
    var n := e'.children[|e.children|];
    assert forall i :: 0 <= i < |e.children| ==> e'.children[i] == e'.children[..|e.children|][i];
    assert e'.children == e.children + [n];
    SumNeedsConcat(e.children, [n]);
    assert SumNeeds([n]) == Need(n) + SumNeeds([]);
  }

  lemma {:induction false} AppendKeepsTyped(e: Entity, cp: Path, n': Entity, m: string)
    requires WellTyped(e) && ValidPath(e, cp) && Appended(At(e, cp), n', m) && At(e, cp).kind.MountpointCreator()
    ensures WellTyped(UpdateAt(e, cp, n')) && UpdateAt(e, cp, n').kind == e.kind
    ensures UpdateAt(e, cp, n').size == e.size
    decreases cp
  {
    if cp == [] {
      AppendedHere(e, n', m);
    } else {
      AppendKeepsTyped(e.children[cp[0]], cp[1..], n', m);
    }
  }

  lemma {:induction false} AppendKeepsFits(e: Entity, cp: Path, n': Entity, m: string)
    requires WellTyped(e) && ValidPath(e, cp) && Appended(At(e, cp), n', m) && At(e, cp).kind.MountpointCreator()
    requires Fits(e) && n'.children[|n'.children| - 1].size == 0
    ensures Fits(UpdateAt(e, cp, n')) && Content(UpdateAt(e, cp, n')) == Content(e)
    ensures UpdateAt(e, cp, n').kind == e.kind && UpdateAt(e, cp, n').size == e.size
    decreases cp
  {
    if cp == [] {
      AppendedHere(e, n', m);
    } else {
      var c' := UpdateAt(e.children[cp[0]], cp[1..], n');
      AppendKeepsFits(e.children[cp[0]], cp[1..], n', m);
      SumNeedsUpdate(e.children, cp[0], c');
    }
  }

  lemma {:induction false} AppendKeepsNames(e: Entity, cp: Path, n': Entity, m: string)
    requires ValidPath(e, cp) && Appended(At(e, cp), n', m) && NamesDistinct(e)
    requires At(e, cp).kind.VolumeGroup? ==> NamesDistinct(n')
    ensures NamesDistinct(UpdateAt(e, cp, n'))
    ensures UpdateAt(e, cp, n').kind == e.kind
    decreases cp
  {
    if cp == [] {
      assert forall i :: 0 <= i < |e.children| ==> n'.children[i] == n'.children[..|e.children|][i];
    } else {
      AppendKeepsNames(e.children[cp[0]], cp[1..], n', m);
    }
  }

  lemma {:induction false} NamesBelow(e: Entity, p: Path)
    requires ValidPath(e, p) && NamesDistinct(e)
    ensures NamesDistinct(At(e, p))
    decreases p
  {
    if p != [] { NamesBelow(e.children[p[0]], p[1..]); }
  }

  lemma AppendedMounts(n: Entity, n': Entity, m: string)
    requires Appended(n, n', m) && n.kind.MountpointCreator()
    ensures MountSet(n') == MountSet(n) + multiset{m}
  {
    var last := n'.children[|n.children|];
    assert n'.children == n.children + [last];
    MountSetsConcat(n.children, [last]);
    assert MountSets([last]) == MountSet(last) + MountSets([]);
  }

  lemma AppendAddsMount(e: Entity, cp: Path, n': Entity, m: string)
    requires WellTyped(e) && ValidPath(e, cp) && Appended(At(e, cp), n', m) && At(e, cp).kind.MountpointCreator()
    ensures MountSet(UpdateAt(e, cp, n')) == MountSet(e) + multiset{m}
  {
    var n := At(e, cp);
    AppendedMounts(n, n', m);
    UpdateMounts(e, cp, n');
    CancelPart(MountSet(UpdateAt(e, cp, n')), MountSet(n), MountSet(e), multiset{m});
  }

  lemma CancelPart(whole': multiset<string>, part: multiset<string>, whole: multiset<string>, x: multiset<string>)
    requires whole' + part == whole + (part + x)
    ensures whole' == whole + x
  {
    forall m: string ensures whole'[m] == (whole + x)[m] {
      assert (whole' + part)[m] == (whole + (part + x))[m];
    }
  }

  lemma {:induction false} AppendKeepsRoom(e: Entity, cp: Path, n': Entity, m: string, o: string, s: nat, outer: nat)
    requires ValidPath(e, cp) && Appended(At(e, cp), n', m) && o != m
    requires At(e, cp).kind.MountpointCreator()
    requires Room(e, o, s, outer)
    ensures Room(UpdateAt(e, cp, n'), o, s, outer)
    decreases cp
  {
    var e' := UpdateAt(e, cp, n');
    var here := if e.kind.Sizeable() then e.size else outer;
    if !e.kind.Mountable() {
      forall i | 0 <= i < |e'.children| ensures Room(e'.children[i], o, s, here) {
        if cp == [] {
          if i < |e.children| {
            assert e'.children[i] == e'.children[..|e.children|][i];
          } else {
            RoomIfAbsent(e'.children[i], o, s, here);
          }
        } else if i == cp[0] {
          AppendKeepsRoom(e.children[i], cp[1..], n', m, o, s, here);
        }
      }
    } else {
      CreatorNotBelowMountable(e, cp, e');
    }
  }

  lemma CreatorNotBelowMountable(e: Entity, cp: Path, e': Entity)
    requires ValidPath(e, cp) && At(e, cp).kind.MountpointCreator() && e.kind.Mountable()
    requires cp != [] && e' == e.(children := e'.children)
    ensures e'.kind == e.kind && e'.size == e.size
  {
  }

  /** The prefix of the root path leads through the partition that holds "/". */
  lemma RootPartition(d: Disk, cp: Path)
    requires Ready(d) && EntityPath(d.tree, "/").Some? && cp <= EntityPath(d.tree, "/").value && cp != []
    ensures ValidPath(d.tree, cp) && "/" in MountSet(d.tree.children[cp[0]])
  {
    var p := EntityPath(d.tree, "/").value;
    ReadyHasRoot(d);
    MountedInSet(d.tree.children[p[0]], p[1..], "/");
    PrefixValid(d.tree, cp, p);
  }

  lemma {:induction false} PrefixValid(e: Entity, q: Path, p: Path)
    requires ValidPath(e, p) && q <= p
    ensures ValidPath(e, q)
    decreases p
  {
    if q != [] {
      PrefixTail(q, p);
      PrefixValid(e.children[p[0]], q[1..], p[1..]);
    }
  }

  // ---------- creating a filesystem ----------

  /** Adds a mountpoint to the container of "/" and grows its branch.  The panics for a missing
      root or a missing container cannot happen on a table with a root. */
  function CreateFilesystem(d: Disk, m: string, fstype: string, size: nat): Result<Disk, Failure>
    requires Ready(d)
  {
    ReadyHasRoot(d);
    var cp := DeepestCreator(d.tree, EntityPath(d.tree, "/").value).value;
    match CreateMountpoint(d.config, At(d.tree, cp), m, fstype, 0)
    case Err(f) => Err(f)
    case Ok(n') =>
      var tree := UpdateAt(d.tree, cp, n');
      CreateMountpointAppends(d.config, At(d.tree, cp), m, fstype, 0);
      NewChildAt(d.tree, cp, n');
      var p := cp + [|n'.children| - 1];
      Ok(Disk(d.config, ResizeBranch(tree, p, AlignBranch(d.config, tree, p, size)).entity))
  }

  /** The table right after the new child is appended, before its branch is grown. */
  lemma AppendKeeps(d: Disk, cp: Path, n': Entity, m: string)
    requires Ready(d) && EntityPath(d.tree, "/").Some? && cp <= EntityPath(d.tree, "/").value
    requires ValidPath(d.tree, cp) && At(d.tree, cp).kind.MountpointCreator()
    requires Appended(At(d.tree, cp), n', m) && (cp != [] ==> n'.children[|n'.children| - 1].size == 0)
    requires At(d.tree, cp).kind.VolumeGroup? && NamesDistinct(d.tree) ==> NamesDistinct(n')
    requires m !in MountSet(d.tree)
    ensures var tree := UpdateAt(d.tree, cp, n');
            && tree.kind.Table? && WellTyped(tree)
            && MountSet(tree) == MountSet(d.tree) + multiset{m}
            && (forall o :: o in MountSet(d.tree) ==> RoomKept(d.tree, tree, o))
            && (InnerFits(d.tree) ==> InnerFits(tree))
            && (NamesDistinct(d.tree) ==> NamesDistinct(tree))
            && (AllPositive(d.tree) ==>
                  forall i :: 0 <= i < |tree.children| && (cp == [] ==> i != |tree.children| - 1) ==> Positive(tree.children[i]))
  {
    var tree := UpdateAt(d.tree, cp, n');
    AppendKeepsTyped(d.tree, cp, n', m);
    AppendAddsMount(d.tree, cp, n', m);
    forall o | o in MountSet(d.tree) ensures RoomKept(d.tree, tree, o) {
      forall s: nat | Room(d.tree, o, s, 0) ensures Room(tree, o, s, 0) {
        AppendKeepsRoom(d.tree, cp, n', m, o, s, 0);
      }
    }
    if NamesDistinct(d.tree) { AppendKeepsNames(d.tree, cp, n', m); }
    if InnerFits(d.tree) { AppendInnerFits(d, cp, n', m); }
    if AllPositive(d.tree) { AppendPositive(d, cp, n', m); }
  }

  lemma AppendInnerFits(d: Disk, cp: Path, n': Entity, m: string)
    requires ValidDisk(d) && ValidPath(d.tree, cp) && At(d.tree, cp).kind.MountpointCreator()
    requires Appended(At(d.tree, cp), n', m) && (cp != [] ==> n'.children[|n'.children| - 1].size == 0)
    requires InnerFits(d.tree)
    ensures InnerFits(UpdateAt(d.tree, cp, n'))
  {
    var tree := UpdateAt(d.tree, cp, n');
    if cp == [] {
      forall i, j | 0 <= i < |tree.children| && 0 <= j < |tree.children[i].children|
        ensures Fits(tree.children[i].children[j])
      {
        if i < |d.tree.children| { assert tree.children[i] == tree.children[..|d.tree.children|][i]; }
      }
    } else {
      var part := d.tree.children[cp[0]];
      assert d.tree.kind.Admits(part.kind);
      assert At(part, cp[1..]).kind.MountpointCreator();
      InnerAt(d.tree, cp);
      UnfoldTwice(d.tree, cp, n');
      ChildTyped(d.tree, cp[0]);
      ChildTyped(part, 0);
      AppendKeepsFits(part.children[0], cp[2..], n', m);
    }
  }

  lemma AppendPositive(d: Disk, cp: Path, n': Entity, m: string)
    requires Ready(d) && EntityPath(d.tree, "/").Some? && cp <= EntityPath(d.tree, "/").value
    requires ValidPath(d.tree, cp) && At(d.tree, cp).kind.MountpointCreator()
    requires Appended(At(d.tree, cp), n', m) && AllPositive(d.tree)
    ensures var tree := UpdateAt(d.tree, cp, n');
            forall i :: 0 <= i < |tree.children| && (cp == [] ==> i != |tree.children| - 1) ==> Positive(tree.children[i])
  {
    var tree := UpdateAt(d.tree, cp, n');
    if cp == [] {
      assert forall i :: 0 <= i < |d.tree.children| ==> tree.children[i] == tree.children[..|d.tree.children|][i];
    } else {
      RootPartition(d, cp);
      AppendAddsMount(d.tree.children[cp[0]], cp[1..], n', m);
    }
  }

  /** Main result: a new mountpoint is added exactly once with the room asked for, and nothing
      else is lost. */
  lemma CreateFilesystemCorrect(d: Disk, m: string, fstype: string, size: nat)
    requires Ready(d) && m !in MountSet(d.tree) && 0 < size && CreateFilesystem(d, m, fstype, size).Ok?
    ensures var d' := CreateFilesystem(d, m, fstype, size).value;
            && Keeps(d, d') && Ready(d')
            && MountSet(d'.tree) == MountSet(d.tree) + multiset{m}
            && Room(d'.tree, m, size, 0)
  {
    ReadyHasRoot(d);
    var cp := DeepestCreator(d.tree, EntityPath(d.tree, "/").value).value;
    var creator := At(d.tree, cp);
    var n' := CreateMountpoint(d.config, creator, m, fstype, 0).value;
    var tree := UpdateAt(d.tree, cp, n');
    var p := cp + [|n'.children| - 1];
    CreateMountpointAppends(d.config, creator, m, fstype, 0);
    NewChildIsEmpty(d.config, creator, m, fstype);
    if NamesDistinct(d.tree) { NamesBelow(d.tree, cp); }
    NewChildAt(d.tree, cp, n');
    AppendKeeps(d, cp, n', m);
    NewBranchGrown(d, Disk(d.config, tree), m, p, AlignBranch(d.config, tree, p, size), size);
  }

  lemma NewChildIsEmpty(c: Config, e: Entity, m: string, fstype: string)
    requires e.kind.MountpointCreator() && CreateMountpoint(c, e, m, fstype, 0).Ok?
    ensures var n' := CreateMountpoint(c, e, m, fstype, 0).value;
            n'.children != [] && n'.children[|n'.children| - 1].size == 0
  {
    AlignUpLeast(0, 0, EXTENT);
  }

  /** Growing the branch of the appended child `p` completes what appending left open. */
  lemma NewBranchGrown(d: Disk, d1: Disk, m: string, p: Path, size: nat, asked: nat)
    requires Ready(d) && ValidDisk(d1) && d1.config == d.config && m !in MountSet(d.tree)
    requires p != [] && ValidPath(d1.tree, p) && At(d1.tree, p).kind.Sizeable()
    requires MountSet(At(d1.tree, p)) == multiset{m} && Plain(At(d1.tree, p))
    requires MountSet(d1.tree) == MountSet(d.tree) + multiset{m}
    requires forall o :: o in MountSet(d.tree) ==> RoomKept(d.tree, d1.tree, o)
    requires InnerFits(d.tree) ==> InnerFits(d1.tree)
    requires NamesDistinct(d.tree) ==> NamesDistinct(d1.tree)
    requires AllPositive(d.tree) ==>
               forall i :: 0 <= i < |d1.tree.children| && (|p| == 1 ==> i != p[0]) ==> Positive(d1.tree.children[i])
    requires 0 < asked <= size
    ensures var d' := Disk(d.config, ResizeBranch(d1.tree, p, size).entity);
            && Keeps(d, d') && Ready(d')
            && MountSet(d'.tree) == MountSet(d.tree) + multiset{m}
            && Room(d'.tree, m, asked, 0)
  {
    var d' := Disk(d.config, ResizeBranch(d1.tree, p, size).entity);
    ResizeKeeps(d1, p, size);
    forall o | o in MountSet(d.tree) ensures RoomKept(d.tree, d'.tree, o) {
      assert RoomKept(d.tree, d1.tree, o) && RoomKept(d1.tree, d'.tree, o);
    }
    NewChildRoom(d1, m, p, size, asked);
    if AllPositive(d.tree) { NewBranchPositive(d1, p, size); }
  }

  lemma NewBranchPositive(d: Disk, p: Path, size: nat)
    requires ValidDisk(d) && p != [] && ValidPath(d.tree, p) && 0 < size
    requires forall i :: 0 <= i < |d.tree.children| && (|p| == 1 ==> i != p[0]) ==> Positive(d.tree.children[i])
    ensures AllPositive(ResizeBranch(d.tree, p, size).entity)
  {
    var e' := ResizeBranch(d.tree, p, size).entity;
    ResizeGrows(d.tree, p, size);
    forall i | 0 <= i < |e'.children| ensures Positive(e'.children[i]) {
      ChildTyped(d.tree, i);
      if |p| == 1 && i == p[0] {
        ResizeReaches(d.tree, p, size);
        assert p[1..] == [];
        assert At(e', p) == e'.children[i];
      } else {
        PositiveGrows(d.tree.children[i], e'.children[i]);
      }
    }
  }

  lemma NewChildRoom(d: Disk, m: string, p: Path, size: nat, asked: nat)
    requires ValidDisk(d) && ValidPath(d.tree, p) && MountSet(d.tree)[m] == 1 && asked <= size
    requires At(d.tree, p).kind.Sizeable() && MountSet(At(d.tree, p)) == multiset{m} && Plain(At(d.tree, p))
    ensures Room(ResizeBranch(d.tree, p, size).entity, m, asked, 0)
  {
    var e' := ResizeBranch(d.tree, p, size).entity;
    ResizeGrows(d.tree, p, size);
    ResizeReaches(d.tree, p, size);
    GrownKeepsShape(d.tree, e');
    GrownMounts(d.tree, e');
    GrownAt(d.tree, e', p);
    GrownMounts(At(d.tree, p), At(e', p));
    PlainRoom(At(d.tree, p), At(e', p), m, asked);
    SizedSubtreeRoom(e', p, m, asked, 0);
  }

  lemma PlainRoom(e: Entity, e': Entity, m: string, s: nat)
    requires Grown(e, e') && Plain(e) && e'.kind.Sizeable() && s <= e'.size
    ensures Room(e', m, s, 0)
  {
    forall i | 0 <= i < |e'.children| ensures Room(e'.children[i], m, s, e'.size) {
      assert Grown(e.children[i], e'.children[i]);
    }
  }

  /** The only entity mounted at `m` is below a sized entity that gives it the room. */
  lemma {:induction false} SizedSubtreeRoom(e: Entity, p: Path, m: string, s: nat, outer: nat)
    requires WellTyped(e) && ValidPath(e, p) && MountSet(e)[m] <= 1 && m in MountSet(At(e, p))
    requires At(e, p).kind.Sizeable() && s <= At(e, p).size && Room(At(e, p), m, s, 0)
    ensures Room(e, m, s, outer)
    decreases p
  {
    ChildrenShape(e);
    if p != [] {
      var here := if e.kind.Sizeable() then e.size else outer;
      forall i | 0 <= i < |e.children| ensures Room(e.children[i], m, s, here) {
        MountSetsMember(e.children, i, m);
        if i == p[0] {
          SizedSubtreeRoom(e.children[i], p[1..], m, s, here);
        } else {
          MountSetBelow(e.children[p[0]], p[1..], m);
          MountSetsTwo(e.children, i, p[0], m);
          RoomIfAbsent(e.children[i], m, s, here);
        }
      }
    }
  }

  lemma {:induction false} MountSetBelow(e: Entity, p: Path, m: string)
    requires WellTyped(e) && ValidPath(e, p) && m in MountSet(At(e, p))
    ensures m in MountSet(e)
    decreases p
  {
    if p != [] {
      ChildrenShape(e);
      MountSetBelow(e.children[p[0]], p[1..], m);
      MountSetsMember(e.children, p[0], m);
    }
  }
}
