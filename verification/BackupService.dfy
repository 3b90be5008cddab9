/** Creating, verifying, copying and restoring backup batches, with others acting on the disk at any moment. */
module BackupService {
  import opened Prelude
  import opened FileTree
  import opened TextOrder
  import opened BackupManifest
  import opened BackupVerification
  import opened BackupDisk
  import opened BackupCopy
  import opened BackupFill

  // ----- a finished copy is verified --------------------------------------------------------------

  /** The copy has the path when the source has it, as a file of the same bytes or as a private directory. */
  ghost predicate Agree(source: Nodes, copy: Nodes, p: Path) {
    && (p in copy <==> p in source)
    && (p in copy ==> (copy[p].File? <==> source[p].File?) && (copy[p].File? ==> copy[p].bytes == source[p].bytes))
    && (p in copy ==> copy[p].File? || (copy[p].Directory? && copy[p].mode.Private()))
  }

  lemma FinishedFiles(codec: Codec, nodes: Nodes, home: Path, t: Nodes, m: Manifest, p: Path)
    requires codec.Faithful() && WellFormed(nodes) && Structured(m) && Verified(codec, Subtree(nodes, home), m)
    requires Filled(codec, t, Entries(m), |Entries(m)|) && [MANIFEST_FILE] !in t && t[[]].mode.Private()
    ensures Agree(Subtree(nodes, home), t[[MANIFEST_FILE] := File(codec.encode(m), OWNER_WRITE)], p)
  {
    hide *;
    var source, bytes := Subtree(nodes, home), codec.encode(m);
    if p == [MANIFEST_FILE] {
      ManifestAgrees(codec, source, t, m);
    } else {
      if p == [] { RootAgrees(codec, source, t, m); } else { OthersAgree(codec, nodes, home, t, m, p); }
      StillAgrees(source, t, p, [MANIFEST_FILE], File(bytes, OWNER_WRITE));
    }
  }

  lemma StillAgrees(source: Nodes, t: Nodes, p: Path, q: Path, node: Node)
    requires Agree(source, t, p) && p != q
    ensures Agree(source, t[q := node], p)
  {
  }

  lemma ManifestAgrees(codec: Codec, source: Nodes, t: Nodes, m: Manifest)
    requires Verified(codec, source, m)
    ensures Agree(source, t[[MANIFEST_FILE] := File(codec.encode(m), OWNER_WRITE)], [MANIFEST_FILE])
  {
    hide DatabaseAgrees;
    hide Expected;
    hide Holds;
  }

  lemma RootAgrees(codec: Codec, source: Nodes, t: Nodes, m: Manifest)
    requires Verified(codec, source, m) && Filled(codec, t, Entries(m), |Entries(m)|) && t[[]].mode.Private()
    ensures Agree(source, t, [])
  {
    hide DatabaseAgrees;
    hide Expected;
    hide Holds;
  }

  lemma OthersAgree(codec: Codec, nodes: Nodes, home: Path, t: Nodes, m: Manifest, p: Path)
    requires codec.Faithful() && WellFormed(nodes) && Structured(m) && Verified(codec, Subtree(nodes, home), m)
    requires Filled(codec, t, Entries(m), |Entries(m)|) && p != [] && p != [MANIFEST_FILE]
    ensures Agree(Subtree(nodes, home), t, p)
  {
    hide Subtree;
    hide WellFormed;
    hide DatabaseAgrees;
    hide Structured;
    hide Expected;
    hide Holds;
    hide OnTheWay;
    hide IsEntry;
    hide PrivateTree;
    DatabaseIsThere(m);
    ExpectedIsOnTheWay(m, p);
    if p in t {
      if IsEntry(Entries(m), |Entries(m)|, p) {
        EntriesAgree(codec, Subtree(nodes, home), t, m, p);
      } else {
        InnerAreDirectories(codec, nodes, home, m, p);
      }
    }
  }

  lemma EntriesAgree(codec: Codec, source: Nodes, t: Nodes, m: Manifest, p: Path)
    requires codec.Faithful() && Verified(codec, source, m) && Filled(codec, t, Entries(m), |Entries(m)|)
    requires IsEntry(Entries(m), |Entries(m)|, p)
    ensures IsFile(source, p) && IsFile(t, p) && source[p].bytes == t[p].bytes
  {
    hide DatabaseAgrees;
    hide Expected;
    hide Structured;
    var entries := Entries(m);
    var i :| 0 <= i < |entries| && p == entries[i].path;
    assert i > 0 ==> entries[i] == m.blobs[i - 1];
    assert Holds(codec, source, entries[i]) && Holds(codec, t, entries[i]);
    assert codec.hex(source[p].bytes) == codec.hex(t[p].bytes);
  }

  lemma DatabaseIsThere(m: Manifest)
    requires Structured(m)
    ensures m.database.path == [DATABASE_FILE]
  {
  }

  /** All entries copied and the manifest written: exactly the expected entries, and the batch's own bytes. */
  lemma FinishedIsACopy(codec: Codec, nodes: Nodes, home: Path, t: Nodes, m: Manifest)
    requires codec.Faithful() && WellFormed(nodes) && Structured(m) && Verified(codec, Subtree(nodes, home), m)
    requires Filled(codec, t, Entries(m), |Entries(m)|) && [MANIFEST_FILE] !in t && t[[]].mode.Private()
    ensures var copy := t[[MANIFEST_FILE] := File(codec.encode(m), OWNER_WRITE)];
            Copies(codec, Subtree(nodes, home), copy, m) && Verified(codec, copy, m)
  {
    hide Subtree;
    hide WellFormed;
    hide Verified;
    hide Filled;
    hide Agree;
    hide Structured;
    var source, copy := Subtree(nodes, home), t[[MANIFEST_FILE] := File(codec.encode(m), OWNER_WRITE)];
    forall p ensures Agree(source, copy, p) { FinishedFiles(codec, nodes, home, t, m, p); }
    FilledIsWellModed(codec, t, m, codec.encode(m));
    hide WellModed;
    AgreeingIsCopying(codec, source, copy, m);
    CopiesAreVerified(codec, source, copy, m);
  }

  lemma AgreeingIsCopying(codec: Codec, source: Nodes, copy: Nodes, m: Manifest)
    requires Verified(codec, source, m) && WellModed(copy) && forall p :: Agree(source, copy, p)
    ensures Copies(codec, source, copy, m)
  {
    hide DatabaseAgrees;
    hide Holds;
    hide Expected;
    hide WellModed;
    assert Agree(source, copy, []);
    assert copy.Keys == source.Keys by {
      forall p ensures p in copy <==> p in source { assert Agree(source, copy, p); }
    }
    forall p | p in copy
      ensures (copy[p].File? <==> source[p].File?) && (copy[p].File? ==> copy[p].bytes == source[p].bytes)
              && (copy[p].File? || (copy[p].Directory? && copy[p].mode.Private()))
    {
      assert Agree(source, copy, p);
    }
  }

  /** What is published: a complete batch with the modes of a copy, in a directory of mode 0700. */
  ghost predicate AsPublished(codec: Codec, tree: Nodes, m: Manifest) {
    Structured(m) && Verified(codec, tree, m) && WellModed(tree) && tree[[]] == Directory(OWNER_ALL)
  }

  // ----- verifying a published batch --------------------------------------------------------------

  function LastName(p: Path): string
    requires p != []
  {
    p[|p| - 1]
  }

  /** A directory named like its manifest's batch id that holds a complete batch. */
  ghost predicate IsBatch(codec: Codec, nodes: Nodes, batch: Path, m: Manifest) {
    && batch != [] && IsDirectory(nodes, batch) && BatchId(LastName(batch)) && LastName(batch) == m.batchId
    && Structured(m) && Verified(codec, Subtree(nodes, batch), m)
  }

  method VerifyBackup(codec: Codec, nodes: Nodes, batch: Path) returns (r: Result<Manifest, Reason>)
    requires codec.Faithful() && batch != []
    ensures r.Ok? ==> IsBatch(codec, nodes, batch, r.value)
    ensures r.Err? ==> forall m :: !IsBatch(codec, nodes, batch, m)
  {
    hide Subtree;
    if !IsDirectory(nodes, batch) {
      return Err(BatchUnavailable);
    }
    if !BatchId(LastName(batch)) {
      return Err(NotPublished);
    }
    var tree := Subtree(nodes, batch);
    if [MANIFEST_FILE] !in tree {
      NoManifestNoBatch(codec, nodes, batch);
      return Err(FileMissing);
    }
    if !tree[[MANIFEST_FILE]].File? {
      NoManifestNoBatch(codec, nodes, batch);
      return Err(UnsafePath);
    }
    var raw := tree[[MANIFEST_FILE]].bytes;
    var m := codec.decode(raw);
    OnlyThisManifest(codec, nodes, batch);
    if m.None? {
      return Err(InvalidManifest);
    }
    if LastName(batch) != m.value.batchId {
      return Err(NotPublished);
    }
    hide Verified;
    hide Structured;
    var checked := VerifyContents(codec, tree, m.value);
    if checked.Err? {
      return Err(checked.error);
    }
    return Ok(m.value);
  }

  lemma NoManifestNoBatch(codec: Codec, nodes: Nodes, batch: Path)
    requires !IsFile(Subtree(nodes, batch), [MANIFEST_FILE])
    ensures forall m :: !IsBatch(codec, nodes, batch, m)
  {
  }

  /** The manifest file determines the manifest. */
  lemma OnlyThisManifest(codec: Codec, nodes: Nodes, batch: Path)
    requires codec.Faithful() && IsFile(Subtree(nodes, batch), [MANIFEST_FILE])
    ensures var m := codec.decode(Subtree(nodes, batch)[[MANIFEST_FILE]].bytes);
            && (m.Some? ==> Structured(m.value))
            && forall n :: IsBatch(codec, nodes, batch, n) ==> m == Some(n)
  {
  }

  // ----- copying a verified batch -----------------------------------------------------------------

  /** Copy a verified batch into an empty directory of ours. */
  method CopyVerifiedContents(disk: Disk, codec: Codec, batch: Path, m: Manifest, root: Path) returns (r: Result<(), Reason>)
    requires disk.Valid() && codec.Faithful() && Structured(m) && batch != []
    requires root in disk.mine && batch in disk.mine && root != batch
    modifies disk`nodes, disk`trace
    ensures disk.Valid() && old(disk.trace) <= disk.trace && Confined(disk.Since(old(disk.trace)), root)
    ensures Kept(old(disk.nodes), disk.nodes, disk.mine - {root})
    ensures r.Ok? ==> IsBatch(codec, old(disk.nodes), batch, m)
                      && Copies(codec, Subtree(old(disk.nodes), batch), Subtree(disk.nodes, root), m)
                      && Verified(codec, Subtree(disk.nodes, root), m)
                      && SameRoot(Subtree(old(disk.nodes), root), Subtree(disk.nodes, root))
    ensures IsBatch(codec, old(disk.nodes), batch, m) && EmptyDirectory(old(disk.nodes), root) && r.Err? ==> r.error.CopyFailed?
  {
    hide Subtree;
    hide WellFormed;
    hide Chained;
    hide Confined;
    hide Kept;
    hide Verified;
    hide Copies;
    hide Filled;
    hide Structured;
    hide IsBatch;
    hide WellModed;
    NotOurs([], root);
    KeptStill(disk.nodes, disk.mine - {root});
    assert disk.Since(old(disk.trace)) == [];
    var current := VerifyBackup(codec, disk.nodes, batch);
    if current.Err? {
      return Err(current.error);
    }
    if current.value != m {
      OneBatchOnly(codec, disk.nodes, batch, current.value, m);
      return Err(InvalidManifest);
    }
    var tree := Subtree(disk.nodes, root);
    if !IsDirectory(tree, []) || tree.Keys != {[]} {
      return Err(UnsafePath);
    }
    NothingFilled(codec, tree, Entries(m));
    ManifestEntriesApart(m);
    BatchIsStable(codec, disk.nodes, disk.mine, root, batch, m);
    r := CopyEntries(disk, codec, batch, root, Entries(m), 0, false, batch);
    if r.Err? {
      return;
    }
    ghost var trace1, nodes1, filled := disk.trace, disk.nodes, Subtree(disk.nodes, root);
    ManifestIsFree(codec, filled, m);
    var ok := FillFile(disk, root, [MANIFEST_FILE], codec.encode(m), OWNER_WRITE);
    Onwards(old(disk.trace), trace1, disk.trace, old(disk.nodes), nodes1, disk.nodes, root, disk.mine - {root});
    if !ok {
      return Err(CopyFailed);
    }
    BatchTree(codec, old(disk.nodes), batch, m);
    if filled[[]].mode.Private() {
      FinishedIsACopy(codec, old(disk.nodes), batch, filled, m);
    } else {
      OpenRootIsRefused(codec, Subtree(disk.nodes, root), m);
    }
    r := VerifyContents(codec, Subtree(disk.nodes, root), m);
  }

  lemma OneBatchOnly(codec: Codec, nodes: Nodes, batch: Path, m: Manifest, n: Manifest)
    requires codec.Faithful() && IsBatch(codec, nodes, batch, m) && m != n
    ensures !IsBatch(codec, nodes, batch, n)
  {
    BatchTree(codec, nodes, batch, m);
    OnlyThisManifest(codec, nodes, batch);
  }

  lemma BatchTree(codec: Codec, nodes: Nodes, batch: Path, m: Manifest)
    requires IsBatch(codec, nodes, batch, m)
    ensures Verified(codec, Subtree(nodes, batch), m) && Structured(m) && IsFile(Subtree(nodes, batch), [MANIFEST_FILE])
  {
    hide DatabaseAgrees;
    hide Subtree;
  }

  lemma NothingFilled(codec: Codec, tree: Nodes, entries: seq<FileEntry>)
    requires IsDirectory(tree, []) && tree.Keys == {[]}
    ensures Filled(codec, tree, entries, 0)
  {
  }

  /** Every entry of a verified batch is a stable source. */
  lemma BatchIsStable(codec: Codec, nodes: Nodes, mine: set<Path>, root: Path, batch: Path, m: Manifest)
    requires IsBatch(codec, nodes, batch, m) && batch in mine && batch != root
    ensures StableAll(codec, nodes, mine, root, batch, batch, Entries(m))
  {
    hide Stable;
    forall i | 0 <= i < |Entries(m)| ensures Stable(codec, nodes, mine, root, batch, batch + Entries(m)[i].path, Entries(m)[i]) {
      EntryIsStable(codec, nodes, mine, root, batch, m, i);
    }
  }

  lemma EntryIsStable(codec: Codec, nodes: Nodes, mine: set<Path>, root: Path, batch: Path, m: Manifest, i: nat)
    requires IsBatch(codec, nodes, batch, m) && batch in mine && batch != root && i < |Entries(m)|
    ensures Stable(codec, nodes, mine, root, batch, batch + Entries(m)[i].path, Entries(m)[i])
  {
    hide Subtree;
    hide DatabaseAgrees;
    hide Expected;
    var e := Entries(m)[i];
    assert i > 0 ==> e == m.blobs[i - 1];
    Suffix(batch, e.path);
    assert Holds(codec, Subtree(nodes, batch), e);
    assert FileEntry((batch + e.path)[|batch|..], e.sha, e.size) == e;
  }

  lemma OpenRootIsRefused(codec: Codec, tree: Nodes, m: Manifest)
    requires IsDirectory(tree, []) && !tree[[]].mode.Private()
    ensures !Verified(codec, tree, m)
  {
  }
}
