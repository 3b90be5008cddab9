/** What a complete batch is: the check run before publishing, before restoring and after copying. */
module BackupVerification {
  import opened Prelude
  import opened FileTree
  import opened TextOrder
  import opened BackupManifest

  datatype Reason =
    | UnsafePath | InvalidManifest | UnexpectedEntry | FileMissing | FileCorrupt | DatabaseInvalid | UnsupportedRevision
    | RegistrationInvalid | ConfigInvalid | BatchUnavailable | NotPublished | OutputInvalid | BatchExists | CopyFailed
    | PublicationFailed | TargetUnavailable | TargetOverlap | ParentUnavailable | TargetNotEmpty | Interrupted

  /** The file has the recorded length and digest. */
  predicate Holds(codec: Codec, tree: Nodes, e: FileEntry) {
    IsFile(tree, e.path) && codec.hex(tree[e.path].bytes) == e.sha && |tree[e.path].bytes| == e.size
  }

  /** The blobs of the batch by digest. */
  function BlobsIn(tree: Nodes, m: Manifest): map<string, Bytes> {
    map sha | sha in (set i | 0 <= i < |m.blobs| && IsFile(tree, m.blobs[i].path) :: m.blobs[i].sha) ::
      if |sha| >= 2 && IsFile(tree, BlobPath(sha)) then tree[BlobPath(sha)].bytes else []
  }

  /** The database is a sound SQLite file of this revision that registers exactly what the manifest lists. */
  ghost predicate DatabaseAgrees(codec: Codec, bytes: Bytes, blobs: map<string, Bytes>, m: Manifest) {
    var f := codec.interpret(bytes);
    && f.Some? && f.value.rollback && f.value.intact && f.value.revision == DATABASE_REVISION
    && m.revision == DATABASE_REVISION && f.value.replayable
    && Registers(f.value, m.blobs, m.artifacts, m.snapshots)
    && codec.closed(bytes, blobs)
    && m.counts == CountsFor(m.blobs, m.artifacts, m.snapshots)
  }

  ghost predicate PrivateTree(tree: Nodes) {
    forall p :: p in tree ==> tree[p].File? || (tree[p].Directory? && tree[p].mode.Private())
  }

  /** Everything `verify_contents` asks of the tree of a batch. */
  ghost predicate Verified(codec: Codec, tree: Nodes, m: Manifest) {
    && IsDirectory(tree, []) && PrivateTree(tree)
    && IsFile(tree, [MANIFEST_FILE]) && tree[[MANIFEST_FILE]].bytes == codec.encode(m)
    && (forall p :: p in tree && p != [] <==> Expected(m, p))
    && Holds(codec, tree, m.database)
    && (forall i :: 0 <= i < |m.blobs| ==> Holds(codec, tree, m.blobs[i]) && tree[m.blobs[i].path].mode == OWNER_READ)
    && DatabaseAgrees(codec, tree[m.database.path].bytes, BlobsIn(tree, m), m)
  }

  /** The tree check: no links or special files, private directories, and exactly the expected entries. */
  method VerifyTree(tree: Nodes, m: Manifest) returns (r: Result<(), Reason>)
    requires forall i :: 0 <= i < |m.blobs| ==> m.blobs[i].path != []
    requires m.database.path != []
    ensures r.Ok? <==> (forall p :: p in tree && p != [] ==> tree[p].File? || (tree[p].Directory? && tree[p].mode.Private()))
                       && (forall p :: p in tree && p != [] <==> Expected(m, p))
  {
    var expected := ExpectedEntries(m);
    var actual: set<Path> := {};
    var left := tree.Keys - {[]};
    while left != {}
      invariant left <= tree.Keys - {[]} && actual == tree.Keys - {[]} - left
      invariant forall p :: p in actual ==> tree[p].File? || (tree[p].Directory? && tree[p].mode.Private())
      decreases left
    {
      var p :| p in left;
      if tree[p].Link? {
        return Err(UnsafePath);
      }
      if !tree[p].File? && !tree[p].Directory? {
        return Err(UnsafePath);
      }
      if tree[p].Directory? && !tree[p].mode.Private() {
        return Err(UnsafePath);
      }
      actual, left := actual + {p}, left - {p};
    }
    assert forall p :: p in actual <==> p in tree && p != [];
    assert [] !in expected by { assert !Expected(m, []); }
    if actual - expected != {} {
      ghost var p :| p in actual - expected;
      return Err(UnexpectedEntry);
    }
    if expected - actual != {} {
      ghost var p :| p in expected - actual;
      return Err(FileMissing);
    }
    assert forall p :: p in expected <==> p in actual;
    return Ok(());
  }

  /** Every file has the recorded length and digest, and blobs are read-only. */
  method VerifyFiles(codec: Codec, tree: Nodes, m: Manifest) returns (r: Result<(), Reason>)
    ensures r.Ok? <==> Holds(codec, tree, m.database)
                       && forall i :: 0 <= i < |m.blobs| ==> Holds(codec, tree, m.blobs[i]) && tree[m.blobs[i].path].mode == OWNER_READ
  {
    if !Holds(codec, tree, m.database) {
      return Err(FileCorrupt);
    }
    for i := 0 to |m.blobs|
      invariant forall k :: 0 <= k < i ==> Holds(codec, tree, m.blobs[k]) && tree[m.blobs[k].path].mode == OWNER_READ
    {
      if !Holds(codec, tree, m.blobs[i]) || tree[m.blobs[i].path].mode != OWNER_READ {
        return Err(FileCorrupt);
      }
    }
    return Ok(());
  }

  method VerifyDatabase(codec: Codec, bytes: Bytes, kept: map<string, Bytes>, m: Manifest) returns (r: Result<(), Reason>)
    ensures r.Ok? <==> DatabaseAgrees(codec, bytes, kept, m)
  {
    var f := codec.interpret(bytes);
    if f.None? || !f.value.rollback || !f.value.intact {
      return Err(DatabaseInvalid);
    }
    if f.value.revision != DATABASE_REVISION || m.revision != DATABASE_REVISION {
      return Err(UnsupportedRevision);
    }
    var registered := RegisteredContents(f.value);
    if registered.None? {
      return Err(RegistrationInvalid);
    }
    if !f.value.replayable {
      return Err(ConfigInvalid);
    }
    if !codec.closed(bytes, kept) {
      return Err(RegistrationInvalid);
    }
    var (blobs, artifacts, snapshots) := registered.value;
    var counts := CountKinds(blobs, artifacts, snapshots);
    if Registers(f.value, m.blobs, m.artifacts, m.snapshots) {
      RegistersOneWay(f.value, blobs, artifacts, snapshots, m.blobs, m.artifacts, m.snapshots);
    }
    if blobs != m.blobs || artifacts != m.artifacts || snapshots != m.snapshots || counts != m.counts {
      return Err(InvalidManifest);
    }
    return Ok(());
  }

  /** The whole check, in the order the code makes it. */
  method VerifyContents(codec: Codec, tree: Nodes, m: Manifest) returns (r: Result<(), Reason>)
    requires Structured(m)
    ensures r.Ok? <==> Verified(codec, tree, m)
  {
    hide Expected;
    hide Registers;
    hide Rising;
    hide DatabaseAgrees;
    if !IsDirectory(tree, []) || !tree[[]].mode.Private() {
      return Err(UnsafePath);
    }
    if !IsFile(tree, [MANIFEST_FILE]) || tree[[MANIFEST_FILE]].bytes != codec.encode(m) {
      return Err(InvalidManifest);
    }
    var shape := VerifyTree(tree, m);
    if shape.Err? {
      return shape;
    }
    var files := VerifyFiles(codec, tree, m);
    if files.Err? {
      return files;
    }
    r := VerifyDatabase(codec, tree[m.database.path].bytes, BlobsIn(tree, m), m);
  }

  // ----- copies ---------------------------------------------------------------------------------

  /** The modes a copy gives: 0700 to directories, 0600 to the database and the manifest, 0400 to everything else. */
  predicate WellModed(tree: Nodes) {
    forall p :: p in tree && p != [] ==>
      && (tree[p].Directory? ==> tree[p].mode == OWNER_ALL)
      && (tree[p].File? ==> tree[p].mode == if p in {[DATABASE_FILE], [MANIFEST_FILE]} then OWNER_WRITE else OWNER_READ)
  }

  /** The tree a copy of a verified batch consists of: the same bytes, and the modes of a copy. */
  ghost predicate Copies(codec: Codec, source: Nodes, copy: Nodes, m: Manifest) {
    && (forall p :: p in copy && p != [] <==> Expected(m, p))
    && IsDirectory(copy, []) && PrivateTree(copy) && WellModed(copy)
    && copy.Keys == source.Keys
    && (forall p :: p in copy ==> (copy[p].File? <==> source[p].File?))
    && (forall p :: p in copy && copy[p].File? ==> copy[p].bytes == source[p].bytes)
  }

  lemma SameBlobs(source: Nodes, copy: Nodes, m: Manifest)
    requires copy.Keys == source.Keys && forall p :: p in copy ==> (copy[p].File? <==> source[p].File?)
    requires forall p :: p in copy && copy[p].File? ==> copy[p].bytes == source[p].bytes
    ensures BlobsIn(copy, m) == BlobsIn(source, m)
  {
  }

  /** Blobs are neither the database nor the manifest. */
  lemma BlobsAreElsewhere(m: Manifest, i: nat)
    requires Structured(m) && i < |m.blobs|
    ensures m.blobs[i].path !in {[DATABASE_FILE], [MANIFEST_FILE]}
  {
  }

  /** A copy is the batch itself, modes included, exactly when the batch already has the modes of a copy. */
  lemma CopiesKeepModes(codec: Codec, source: Nodes, copy: Nodes, m: Manifest)
    requires Verified(codec, source, m) && Copies(codec, source, copy, m)
    ensures copy == source <==> copy[[]] == source[[]] && WellModed(source)
  {
    hide DatabaseAgrees;
    hide Expected;
    if copy[[]] == source[[]] && WellModed(source) {
      forall p | p in copy ensures copy[p] == source[p] {
        assert copy[p].File? || copy[p].Directory?;
        assert source[p].File? || source[p].Directory?;
      }
    }
  }

  /** A copy of a verified batch is itself verified. */
  lemma CopiesAreVerified(codec: Codec, source: Nodes, copy: Nodes, m: Manifest)
    requires Structured(m) && Verified(codec, source, m) && Copies(codec, source, copy, m)
    ensures Verified(codec, copy, m)
  {
    hide DatabaseAgrees;
    hide Expected;
    SameBlobs(source, copy, m);
    assert IsFile(copy, m.database.path);
    forall i | 0 <= i < |m.blobs| ensures Holds(codec, copy, m.blobs[i]) && copy[m.blobs[i].path].mode == OWNER_READ {
      BlobsAreElsewhere(m, i);
    }
  }
}
