/** The packages of a chain of transactions, and which of them provides a file first. */
module Transactions {
  import opened Basics

  datatype Package = Package(name: string, files: seq<string>)

  type TransactionList = seq<seq<Package>>

  /** A file with the transaction, and the package in it, that provides it. */
  datatype FileInfo = FileInfo(path: string, txIndex: nat, pkgIndex: nat)

  type FileIndex = map<string, FileInfo>

  predicate PackageAt(t: TransactionList, tx: nat, pkg: nat) {
    tx < |t| && pkg < |t[tx]|
  }

  predicate Provides(t: TransactionList, tx: nat, pkg: nat, path: string) {
    PackageAt(t, tx, pkg) && path in t[tx][pkg].files
  }

  /** Order of installation. */
  predicate Earlier(tx: nat, pkg: nat, tx': nat, pkg': nat) {
    tx < tx' || (tx == tx' && pkg < pkg')
  }

  ghost predicate Provided(t: TransactionList, path: string) {
    exists tx: nat, pkg: nat :: Provides(t, tx, pkg, path)
  }

  ghost predicate FirstProvider(t: TransactionList, info: FileInfo) {
    && Provides(t, info.txIndex, info.pkgIndex, info.path)
    && forall tx: nat, pkg: nat :: Earlier(tx, pkg, info.txIndex, info.pkgIndex) ==> !Provides(t, tx, pkg, info.path)
  }

  /** The index has the requested paths that some package provides, each with its first provider. */
  ghost predicate IndexOf(t: TransactionList, paths: set<string>, index: FileIndex) {
    && (forall p :: p in index <==> p in paths && Provided(t, p))
    && (forall p :: p in index ==> index[p].path == p && FirstProvider(t, index[p]))
  }

  // ---------- scanning ----------

  /** The path is among the files before the given one. */
  ghost predicate Seen(t: TransactionList, tx: nat, pkg: nat, file: nat, path: string) {
    || (exists tx': nat, pkg': nat :: Earlier(tx', pkg', tx, pkg) && Provides(t, tx', pkg', path))
    || (PackageAt(t, tx, pkg) && file <= |t[tx][pkg].files| && path in t[tx][pkg].files[..file])
  }

  lemma SeenNextFile(t: TransactionList, tx: nat, pkg: nat, file: nat, path: string)
    requires PackageAt(t, tx, pkg) && file < |t[tx][pkg].files|
    ensures Seen(t, tx, pkg, file + 1, path) <==> Seen(t, tx, pkg, file, path) || path == t[tx][pkg].files[file]
  {
    var files := t[tx][pkg].files;
    assert files[..file + 1] == files[..file] + [files[file]];
  }

  lemma SeenNextPackage(t: TransactionList, tx: nat, pkg: nat, path: string)
    requires PackageAt(t, tx, pkg)
    ensures Seen(t, tx, pkg + 1, 0, path) <==> Seen(t, tx, pkg, |t[tx][pkg].files|, path)
  {
    var files := t[tx][pkg].files;
    assert files[..|files|] == files;
    if path in files { assert Earlier(tx, pkg, tx, pkg + 1) && Provides(t, tx, pkg, path); }
    if tx': nat, pkg': nat :| Earlier(tx', pkg', tx, pkg + 1) && Provides(t, tx', pkg', path) {
      assert Earlier(tx', pkg', tx, pkg) || (tx' == tx && pkg' == pkg);
    }
    if tx': nat, pkg': nat :| Earlier(tx', pkg', tx, pkg) && Provides(t, tx', pkg', path) {
      assert Earlier(tx', pkg', tx, pkg + 1);
    }
  }

  lemma SeenNextTransaction(t: TransactionList, tx: nat, path: string)
    requires tx < |t|
    ensures Seen(t, tx + 1, 0, 0, path) <==> Seen(t, tx, |t[tx]|, 0, path)
  {
    if tx': nat, pkg': nat :| Earlier(tx', pkg', tx + 1, 0) && Provides(t, tx', pkg', path) {
      assert Earlier(tx', pkg', tx, |t[tx]|);
    }
    if tx': nat, pkg': nat :| Earlier(tx', pkg', tx, |t[tx]|) && Provides(t, tx', pkg', path) {
      assert Earlier(tx', pkg', tx + 1, 0);
    }
  }

  lemma SeenAll(t: TransactionList, path: string)
    ensures Seen(t, |t|, 0, 0, path) <==> Provided(t, path)
    ensures !Seen(t, 0, 0, 0, path)
  {
    if tx: nat, pkg: nat :| Provides(t, tx, pkg, path) { assert Earlier(tx, pkg, |t|, 0); }
  }

  /** Requested paths are missing until they are seen; then they are in the index. */
  ghost predicate Scanned(t: TransactionList, paths: set<string>, index: FileIndex, missing: set<string>,
                          tx: nat, pkg: nat, file: nat)
  {
    && (forall p :: p in missing <==> p in paths && !Seen(t, tx, pkg, file, p))
    && (forall p :: p in index <==> p in paths && p !in missing)
    && (forall p :: p in index ==> index[p].path == p && FirstProvider(t, index[p]))
  }

  lemma ScanFile(t: TransactionList, paths: set<string>, index: FileIndex, missing: set<string>,
                 tx: nat, pkg: nat, file: nat)
    requires PackageAt(t, tx, pkg) && file < |t[tx][pkg].files|
    requires Scanned(t, paths, index, missing, tx, pkg, file)
    ensures var f := t[tx][pkg].files[file];
            if f in missing then Scanned(t, paths, index[f := FileInfo(f, tx, pkg)], missing - {f}, tx, pkg, file + 1)
            else Scanned(t, paths, index, missing, tx, pkg, file + 1)
  {
    forall p ensures Seen(t, tx, pkg, file + 1, p) <==> Seen(t, tx, pkg, file, p) || p == t[tx][pkg].files[file] {
      SeenNextFile(t, tx, pkg, file, p);
    }
    var f := t[tx][pkg].files[file];
    if f in missing { assert FirstProvider(t, FileInfo(f, tx, pkg)); }
  }

  lemma NothingMissing(t: TransactionList, paths: set<string>, index: FileIndex, tx: nat, pkg: nat, file: nat)
    requires Scanned(t, paths, index, {}, tx, pkg, file)
    ensures IndexOf(t, paths, index)
  {
    forall p | p in paths ensures Provided(t, p) {
      assert p in index && FirstProvider(t, index[p]);
    }
  }

  lemma ScannedAll(t: TransactionList, paths: set<string>, index: FileIndex, missing: set<string>)
    requires Scanned(t, paths, index, missing, |t|, 0, 0)
    ensures IndexOf(t, paths, index)
  {
    forall p ensures Seen(t, |t|, 0, 0, p) <==> Provided(t, p) { SeenAll(t, p); }
  }

  lemma ScannedNextPackage(t: TransactionList, paths: set<string>, index: FileIndex, missing: set<string>,
                           tx: nat, pkg: nat)
    requires PackageAt(t, tx, pkg) && Scanned(t, paths, index, missing, tx, pkg, |t[tx][pkg].files|)
    ensures Scanned(t, paths, index, missing, tx, pkg + 1, 0)
  {
    forall p ensures Seen(t, tx, pkg + 1, 0, p) <==> Seen(t, tx, pkg, |t[tx][pkg].files|, p) {
      SeenNextPackage(t, tx, pkg, p);
    }
  }

  lemma ScannedNextTransaction(t: TransactionList, paths: set<string>, index: FileIndex, missing: set<string>, tx: nat)
    requires tx < |t| && Scanned(t, paths, index, missing, tx, |t[tx]|, 0)
    ensures Scanned(t, paths, index, missing, tx + 1, 0, 0)
  {
    forall p ensures Seen(t, tx + 1, 0, 0, p) <==> Seen(t, tx, |t[tx]|, 0, p) { SeenNextTransaction(t, tx, p); }
  }

  /** Looks the paths up in one pass that ends as soon as none is missing; no index for no paths. */
  method GetFilesTransactionInfo(t: TransactionList, paths: seq<string>) returns (r: Option<FileIndex>)
    ensures r.None? <==> paths == []
    ensures r.Some? ==> IndexOf(t, (set p | p in paths), r.value)
  {
    if paths == [] { return None; }
    ghost var requested := set p | p in paths;
    var pathSet := {};
    for i := 0 to |paths|
      invariant pathSet == set p | p in paths[..i]
    {
      assert paths[..i + 1] == paths[..i] + [paths[i]];
      pathSet := pathSet + {paths[i]};
    }
    assert paths[..|paths|] == paths;
    var result: FileIndex := map[];
    forall p ensures !Seen(t, 0, 0, 0, p) { SeenAll(t, p); }
    for tx := 0 to |t|
      invariant Scanned(t, requested, result, pathSet, tx, 0, 0)
    {
      for pkg := 0 to |t[tx]|
        invariant Scanned(t, requested, result, pathSet, tx, pkg, 0)
      {
        var files := t[tx][pkg].files;
        for k := 0 to |files|
          invariant Scanned(t, requested, result, pathSet, tx, pkg, k)
        {
          ScanFile(t, requested, result, pathSet, tx, pkg, k);
          var f := files[k];
          if f in pathSet {
            result := result[f := FileInfo(f, tx, pkg)];
            pathSet := pathSet - {f};
            if pathSet == {} {
              NothingMissing(t, requested, result, tx, pkg, k + 1);
              return Some(result);
            }
          }
        }
        ScannedNextPackage(t, requested, result, pathSet, tx, pkg);
      }
      ScannedNextTransaction(t, requested, result, pathSet, tx);
    }
    ScannedAll(t, requested, result, pathSet);
    return Some(result);
  }

  /** There is one such index, and no transaction before the indexed one provides the file. */
  lemma IndexUnique(t: TransactionList, paths: set<string>, index: FileIndex, index': FileIndex)
    requires IndexOf(t, paths, index) && IndexOf(t, paths, index')
    ensures index == index'
    ensures forall p, tx: nat, pkg: nat :: p in index && Provides(t, tx, pkg, p) ==> index[p].txIndex <= tx
  {
    forall p | p in index ensures p in index' && index[p] == index'[p] {
      var a, b := index[p], index'[p];
      assert !Earlier(a.txIndex, a.pkgIndex, b.txIndex, b.pkgIndex);
      assert !Earlier(b.txIndex, b.pkgIndex, a.txIndex, a.pkgIndex);
    }
    forall p, tx: nat, pkg: nat | p in index && Provides(t, tx, pkg, p) ensures index[p].txIndex <= tx {
      assert !Earlier(tx, pkg, index[p].txIndex, index[p].pkgIndex);
    }
  }

  /** More requested paths never change what is said about the others. */
  lemma IndexRestricts(t: TransactionList, paths: set<string>, more: set<string>, index: FileIndex, index': FileIndex)
    requires paths <= more && IndexOf(t, paths, index) && IndexOf(t, more, index')
    ensures forall p :: p in paths ==> (p in index <==> p in index')
    ensures forall p :: p in index ==> index[p] == index'[p]
  {
    var part := map p | p in index' && p in paths :: index'[p];
    IndexUnique(t, paths, index, part);
  }

  method FindPackage(t: TransactionList, name: string) returns (r: Option<Package>)
    ensures r.None? <==> forall tx, pkg :: 0 <= tx < |t| && 0 <= pkg < |t[tx]| ==> t[tx][pkg].name != name
    ensures r.Some? ==> exists tx: nat, pkg: nat ::
              && PackageAt(t, tx, pkg) && r.value == t[tx][pkg] && t[tx][pkg].name == name
              && forall tx': nat, pkg': nat :: Earlier(tx', pkg', tx, pkg) && PackageAt(t, tx', pkg') ==>
                   t[tx'][pkg'].name != name
  {
    for tx := 0 to |t|
      invariant forall tx', pkg' :: 0 <= tx' < tx && 0 <= pkg' < |t[tx']| ==> t[tx'][pkg'].name != name
    {
      for pkg := 0 to |t[tx]|
        invariant forall pkg' :: 0 <= pkg' < pkg ==> t[tx][pkg'].name != name
      {
        if t[tx][pkg].name == name {
          assert PackageAt(t, tx, pkg);
          return Some(t[tx][pkg]);
        }
      }
    }
    return None;
  }
}
