/** Copying all entries of a manifest into a fresh tree, and what the tree then is. */
module BackupFill {
  import opened Prelude
  import opened FileTree
  import opened TextOrder
  import opened BackupManifest
  import opened BackupVerification
  import opened BackupDisk
  import opened BackupCopy

  function Entries(m: Manifest): seq<FileEntry> {
    [m.database] + m.blobs
  }

  function ModeAt(i: nat): Mode {
    if i == 0 then OWNER_WRITE else OWNER_READ
  }

  /** No entry is, or lies in, another one. */
  ghost predicate EntriesApart(entries: seq<FileEntry>) {
    && (forall i :: 0 <= i < |entries| ==> entries[i].path != [])
    && forall i, j :: 0 <= i < |entries| && 0 <= j < |entries| && i != j ==> !(entries[i].path <= entries[j].path)
  }

  ghost predicate OnTheWay(entries: seq<FileEntry>, k: nat, q: Path)
    requires k <= |entries|
  {
    exists i :: 0 <= i < k && q <= entries[i].path
  }

  ghost predicate IsEntry(entries: seq<FileEntry>, k: nat, q: Path)
    requires k <= |entries|
  {
    exists i :: 0 <= i < k && q == entries[i].path
  }

  /** The first k entries are in the tree, with their directories and nothing else. */
  ghost predicate Filled(codec: Codec, tree: Nodes, entries: seq<FileEntry>, k: nat)
    requires k <= |entries|
  {
    && IsDirectory(tree, [])
    && (forall q :: q != [] ==> (q in tree <==> OnTheWay(entries, k, q)))
    && (forall q :: q in tree && q != [] && !IsEntry(entries, k, q) ==> tree[q] == Directory(OWNER_ALL))
    && forall i :: 0 <= i < k ==> Holds(codec, tree, entries[i]) && tree[entries[i].path].mode == ModeAt(i)
  }

  lemma ManifestEntriesApart(m: Manifest)
    requires Structured(m)
    ensures EntriesApart(Entries(m))
  {
    var entries := Entries(m);
    forall i, j | 0 <= i < |entries| && 0 <= j < |entries| && i != j ensures !(entries[i].path <= entries[j].path) {
      TwoEntriesApart(m, i, j);
    }
  }

  lemma TwoEntriesApart(m: Manifest, i: nat, j: nat)
    requires Structured(m) && i < |Entries(m)| && j < |Entries(m)| && i != j
    ensures !(Entries(m)[i].path <= Entries(m)[j].path)
  {
    var p, q := Entries(m)[i].path, Entries(m)[j].path;
    if i == 0 {
      assert p[0] == DATABASE_FILE && q[0] == "blobs";
    } else if j == 0 {
      assert |p| == 4 && |q| == 1;
    } else {
      assert p[3] == m.blobs[i - 1].sha && q[3] == m.blobs[j - 1].sha;
      assert ShasOf(m.blobs)[i - 1] == p[3] && ShasOf(m.blobs)[j - 1] == q[3];
      LessIsStrict(p[3], q[3]);
    }
  }

  lemma NextIsClear(codec: Codec, tree: Nodes, entries: seq<FileEntry>, k: nat)
    requires EntriesApart(entries) && k < |entries| && Filled(codec, tree, entries, k)
    ensures Clear(tree, entries[k].path)
  {
  }

  lemma OneMoreFilled(codec: Codec, t: Nodes, u: Nodes, entries: seq<FileEntry>, k: nat)
    requires EntriesApart(entries) && k < |entries| && Filled(codec, t, entries, k)
    requires Copied(codec, t, u, entries[k], ModeAt(k))
    ensures Filled(codec, u, entries, k + 1)
  {
  }

  ghost predicate SameRoot(t: Nodes, u: Nodes) {
    [] in t && [] in u && u[[]] == t[[]]
  }

  lemma RootCopied(codec: Codec, t: Nodes, u: Nodes, e: FileEntry, mode: Mode)
    requires Copied(codec, t, u, e, mode) && [] in t
    ensures SameRoot(t, u)
  {
  }

  lemma FilledHasRoot(codec: Codec, t: Nodes, entries: seq<FileEntry>, k: nat)
    requires k <= |entries| && Filled(codec, t, entries, k)
    ensures SameRoot(t, t)
  {
  }

  /** Copy the entries from index k on. */
  method CopyEntries(disk: Disk, codec: Codec, from: Path, root: Path, entries: seq<FileEntry>, start: nat, checked: bool,
                     ghost home: Path) returns (r: Result<(), Reason>)
    requires disk.Valid() && root in disk.mine && EntriesApart(entries) && start <= |entries|
    requires Filled(codec, Subtree(disk.nodes, root), entries, start)
    modifies disk`nodes, disk`trace
    ensures disk.Valid() && old(disk.trace) <= disk.trace && Confined(disk.Since(old(disk.trace)), root)
    ensures Kept(old(disk.nodes), disk.nodes, disk.mine - {root})
    ensures r.Ok? ==> Filled(codec, Subtree(disk.nodes, root), entries, |entries|)
    ensures r.Ok? ==> SameRoot(Subtree(old(disk.nodes), root), Subtree(disk.nodes, root))
    ensures !checked && r.Err? && StableAll(codec, old(disk.nodes), disk.mine, root, home, from, entries) ==> r.error.CopyFailed?
  {
    hide Subtree;
    hide WellFormed;
    hide Chained;
    hide Confined;
    hide Filled;
    hide Kept;
    hide Copied;
    hide Clear;
    hide Stable;
    hide StableAll;
    NotOurs([], root);
    KeptStill(disk.nodes, disk.mine - {root});
    FilledHasRoot(codec, Subtree(disk.nodes, root), entries, start);
    assert disk.Since(old(disk.trace)) == [];
    for k := start to |entries|
      invariant disk.Valid() && old(disk.trace) <= disk.trace && Confined(disk.Since(old(disk.trace)), root)
      invariant Kept(old(disk.nodes), disk.nodes, disk.mine - {root})
      invariant Filled(codec, Subtree(disk.nodes, root), entries, k)
      invariant SameRoot(Subtree(old(disk.nodes), root), Subtree(disk.nodes, root))
    {
      ghost var trace, nodes, tree := disk.trace, disk.nodes, Subtree(disk.nodes, root);
      NextIsClear(codec, tree, entries, k);
      if checked && !Holds(codec, disk.nodes, FileEntry(from + entries[k].path, entries[k].sha, entries[k].size)) {
        return Err(FileCorrupt);
      }
      OneStable(codec, old(disk.nodes), nodes, disk.mine, root, home, from, entries, k);
      assert entries[k].path != [];
      r := CopyFile(disk, codec, from + entries[k].path, root, entries[k], ModeAt(k), home);
      Onwards(old(disk.trace), trace, disk.trace, old(disk.nodes), nodes, disk.nodes, root, disk.mine - {root});
      if r.Err? {
        return;
      }
      OneMoreFilled(codec, tree, Subtree(disk.nodes, root), entries, k);
      RootCopied(codec, tree, Subtree(disk.nodes, root), entries[k], ModeAt(k));
    }
    r := Ok(());
  }

  /** Every source lies in a tree nobody touches and holds what its entry says. */
  ghost predicate StableAll(codec: Codec, nodes: Nodes, mine: set<Path>, root: Path, home: Path, from: Path, entries: seq<FileEntry>) {
    forall i :: 0 <= i < |entries| ==> Stable(codec, nodes, mine, root, home, from + entries[i].path, entries[i])
  }

  lemma OneStable(codec: Codec, before: Nodes, nodes: Nodes, mine: set<Path>, root: Path, home: Path, from: Path,
                  entries: seq<FileEntry>, k: nat)
    requires k < |entries| && Kept(before, nodes, mine - {root})
    ensures StableAll(codec, before, mine, root, home, from, entries) ==>
              Stable(codec, nodes, mine, root, home, from + entries[k].path, entries[k])
  {
  }

  // ----- the finished tree ------------------------------------------------------------------------

  /** Filling gives every entry and every directory its final mode. */
  lemma FilledIsWellModed(codec: Codec, t: Nodes, m: Manifest, bytes: Bytes)
    requires Structured(m) && Filled(codec, t, Entries(m), |Entries(m)|)
    ensures WellModed(t[[MANIFEST_FILE] := File(bytes, OWNER_WRITE)])
  {
    var tree := t[[MANIFEST_FILE] := File(bytes, OWNER_WRITE)];
    var entries := Entries(m);
    forall p | p in tree && p != []
      ensures tree[p].Directory? ==> tree[p].mode == OWNER_ALL
      ensures tree[p].File? ==> tree[p].mode == if p in {[DATABASE_FILE], [MANIFEST_FILE]} then OWNER_WRITE else OWNER_READ
    {
      if p != [MANIFEST_FILE] && IsEntry(entries, |entries|, p) {
        var i :| 0 <= i < |entries| && p == entries[i].path;
        assert Holds(codec, t, entries[i]) && t[p].mode == ModeAt(i);
        if i > 0 { BlobsAreElsewhere(m, i - 1); }
      }
    }
  }

  lemma ManifestIsFree(codec: Codec, t: Nodes, m: Manifest)
    requires Structured(m) && Filled(codec, t, Entries(m), |Entries(m)|)
    ensures [MANIFEST_FILE] !in t && IsDirectory(t, [])
  {
    hide Holds;
    var entries := Entries(m);
    forall i | 0 <= i < |entries| ensures !([MANIFEST_FILE] <= entries[i].path) {
      FirstNames(m, i);
    }
    assert !OnTheWay(entries, |entries|, [MANIFEST_FILE]);
  }

  lemma FirstNames(m: Manifest, i: nat)
    requires Structured(m) && i < |Entries(m)|
    ensures Entries(m)[i].path != [] && Entries(m)[i].path[0] != MANIFEST_FILE
  {
  }

  lemma ExpectedIsOnTheWay(m: Manifest, q: Path)
    requires q != [] && m.database.path == [DATABASE_FILE]
    ensures Expected(m, q) <==> q == [MANIFEST_FILE] || OnTheWay(Entries(m), |Entries(m)|, q)
  {
    var entries := Entries(m);
    if OnTheWay(entries, |entries|, q) {
      var i :| 0 <= i < |entries| && q <= entries[i].path;
      if i == 0 {
        assert q == m.database.path;
      } else {
        assert entries[i] == m.blobs[i - 1];
      }
    }
    if q == m.database.path { assert q <= entries[0].path; }
    if i :| 0 <= i < |m.blobs| && q <= m.blobs[i].path { assert entries[i + 1] == m.blobs[i]; }
  }

  /** Where a verified tree sits in a real directory, what is no entry and not the manifest is a directory. */
  lemma InnerAreDirectories(codec: Codec, nodes: Nodes, home: Path, m: Manifest, q: Path)
    requires WellFormed(nodes) && Structured(m) && Verified(codec, Subtree(nodes, home), m)
    requires q in Subtree(nodes, home) && q != [] && q != [MANIFEST_FILE] && !IsEntry(Entries(m), |Entries(m)|, q)
    ensures Subtree(nodes, home)[q].Directory?
  {
    hide DatabaseAgrees;
    ExpectedIsOnTheWay(m, q);
    var i :| 0 <= i < |Entries(m)| && q <= Entries(m)[i].path;
    var p := Entries(m)[i].path;
    assert q != p;
    assert i > 0 ==> Entries(m)[i] == m.blobs[i - 1];
    assert Holds(codec, Subtree(nodes, home), Entries(m)[i]);
    AboveIsDirectory(nodes, home, p, q);
  }

  lemma {:induction false} AboveIsDirectory(nodes: Nodes, home: Path, p: Path, q: Path)
    requires WellFormed(nodes) && p in Subtree(nodes, home) && q < p
    ensures IsDirectory(Subtree(nodes, home), q)
    decreases |p|
  {
    var up := p[..|p| - 1];
    assert (home + p)[..|home + p| - 1] == home + up;
    assert IsDirectory(nodes, home + up);
    if q != up {
      assert q < up;
      AboveIsDirectory(nodes, home, up, q);
    }
  }
}
