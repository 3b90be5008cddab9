/** Whole runs of `create_backup` and `restore_backup`, with others acting on the disk at any moment. */
module BackupRuns {
  import opened Prelude
  import opened FileTree
  import opened TextOrder
  import opened BackupManifest
  import opened BackupVerification
  import opened BackupDisk
  import opened BackupCopy
  import opened BackupFill
  import opened BackupService
  import opened BackupCrashes

  // ----- creating a backup ------------------------------------------------------------------------

  lemma ManifestIsStructured(f: DatabaseFile, m: Manifest)
    requires Registers(f, m.blobs, m.artifacts, m.snapshots) && BatchId(m.batchId) && m.database.path == [DATABASE_FILE]
    ensures Structured(m)
  {
  }

  lemma DatabaseIsFilled(codec: Codec, tree: Nodes, snapshot: Bytes, entries: seq<FileEntry>)
    requires tree == map[[] := Directory(OWNER_ALL)][[DATABASE_FILE] := File(snapshot, OWNER_WRITE)]
    requires entries != [] && entries[0] == FileEntry([DATABASE_FILE], codec.hex(snapshot), |snapshot|)
    ensures Filled(codec, tree, entries, 1)
  {
    forall q | q != [] ensures q in tree <==> OnTheWay(entries, 1, q) {
      if q <= [DATABASE_FILE] { assert q == [DATABASE_FILE]; }
      assert entries[0].path == [DATABASE_FILE];
      assert q == [DATABASE_FILE] ==> q <= entries[0].path;
    }
    forall q | q in tree && q != [] ensures IsEntry(entries, 1, q) {
      assert q == entries[0].path;
    }
  }

  /** The database snapshot, the registered blobs and the manifest, and then the whole check. */
  method FillStaging(disk: Disk, codec: Codec, dataRoot: Path, staging: Path, batchId: string, createdAt: string, snapshot: Bytes)
    returns (r: Result<Manifest, Reason>)
    requires disk.Valid() && codec.Faithful() && BatchId(batchId)
    requires staging in disk.mine && EmptyDirectory(disk.nodes, staging)
    modifies disk`nodes, disk`trace
    ensures disk.Valid() && old(disk.trace) <= disk.trace && Confined(disk.Since(old(disk.trace)), staging)
    ensures r.Ok? ==> r.value.batchId == batchId && AsPublished(codec, Subtree(disk.nodes, staging), r.value)
  {
    hide Subtree;
    hide WellFormed;
    hide Chained;
    hide Confined;
    hide Kept;
    hide Verified;
    hide Structured;
    hide Registers;
    hide Filled;
    hide EntriesApart;
    ghost var past, before := disk.trace, disk.nodes;
    var ok := FillFile(disk, staging, [DATABASE_FILE], snapshot, OWNER_WRITE);
    if !ok {
      return Err(CopyFailed);
    }
    var f := codec.interpret(snapshot);
    if f.None? || !f.value.rollback || !f.value.intact {
      return Err(DatabaseInvalid);
    }
    if f.value.revision != DATABASE_REVISION {
      return Err(UnsupportedRevision);
    }
    var registered := RegisteredContents(f.value);
    if registered.None? {
      return Err(RegistrationInvalid);
    }
    if !f.value.replayable {
      return Err(ConfigInvalid);
    }
    var (blobs, artifacts, snapshots) := registered.value;
    var counts := CountKinds(blobs, artifacts, snapshots);
    var database := FileEntry([DATABASE_FILE], codec.hex(snapshot), |snapshot|);
    var m := Manifest(batchId, createdAt, DATABASE_REVISION, database, blobs, artifacts, snapshots, counts);
    ManifestIsStructured(f.value, m);
    ManifestEntriesApart(m);
    DatabaseIsFilled(codec, Subtree(disk.nodes, staging), snapshot, Entries(m));
    hide WellModed;
    ghost var trace1, nodes1 := disk.trace, disk.nodes;
    var copied := CopyEntries(disk, codec, dataRoot, staging, Entries(m), 1, true, []);
    Onwards(past, trace1, disk.trace, before, nodes1, disk.nodes, staging, disk.mine - {staging});
    if copied.Err? {
      return Err(copied.error);
    }
    ghost var trace2, nodes2, filled := disk.trace, disk.nodes, Subtree(disk.nodes, staging);
    ManifestIsFree(codec, filled, m);
    FilledIsWellModed(codec, filled, m, codec.encode(m));
    ok := FillFile(disk, staging, [MANIFEST_FILE], codec.encode(m), OWNER_WRITE);
    Onwards(past, trace2, disk.trace, before, nodes2, disk.nodes, staging, disk.mine - {staging});
    if !ok {
      return Err(CopyFailed);
    }
    var checked := VerifyContents(codec, Subtree(disk.nodes, staging), m);
    return if checked.Err? then Err(checked.error) else Ok(m);
  }

  function StagingName(batchId: string): string { ".staging-" + batchId }

  /**
   * A backup run. However others interfere and wherever it fails, its own steps only make the output directory,
   * stay inside the staging tree, or publish once, under a free name, a tree that passed the whole check. A failing
   * run has published exactly when the fault came `late`: the directory could not be synced after the rename.
   */
  method CreateBackup(disk: Disk, codec: Codec, dataRoot: Path, output: Path, batchId: string, createdAt: string, head: bool,
                      snapshot: Bytes) returns (r: Result<(Path, Manifest), Reason>, ghost m: Manifest, ghost late: bool)
    requires disk.Valid() && disk.mine == {} && codec.Faithful() && BatchId(batchId)
    modifies disk
    ensures disk.Valid() && old(disk.trace) <= disk.trace
    ensures var steps, staging, destination := disk.Since(old(disk.trace)), output + [StagingName(batchId)], output + [batchId];
            && RunOf(codec, steps, staging, destination, m, false)
            && (PublishedLast(codec, steps, staging, destination, m, false) <==> r.Ok? || late)
            && CrashSafe(codec, steps, staging, destination, m)
            && (r.Ok? ==> r.value == (destination, m) && Arrived(steps, disk.nodes, staging, destination))
    ensures r.Ok? || late ==> m.batchId == batchId
    ensures late ==> r == Err(CopyFailed)
  {
    hide Subtree;
    hide WellFormed;
    hide Chained;
    hide Confined;
    hide Kept;
    hide AsPublished;
    hide Harmless;
    hide OnlyMakes;
    hide EmptyDirectory;
    hide Renames;
    hide CrashSafe;
    ghost var past := disk.trace;
    r, m, late := StageAndPublish(disk, codec, dataRoot, output, batchId, createdAt, head, snapshot);
    ghost var staging, destination := output + [StagingName(batchId)], output + [batchId];
    SiblingsApart(output, StagingName(batchId), batchId);
    if !(r.Ok? || late) {
      HarmlessIsNotPublished(codec, disk.Since(past), staging, destination, m, false);
    }
    SinceIsChained(past, disk.trace, disk.nodes);
    RunsAreCrashSafe(codec, disk.Since(past), staging, destination, m, false);
  }

  /** The run itself: `late` says that the fault came after the rename. */
  method StageAndPublish(disk: Disk, codec: Codec, dataRoot: Path, output: Path, batchId: string, createdAt: string, head: bool,
                         snapshot: Bytes) returns (r: Result<(Path, Manifest), Reason>, ghost m: Manifest, ghost late: bool)
    requires disk.Valid() && disk.mine == {} && codec.Faithful() && BatchId(batchId)
    modifies disk
    ensures disk.Valid() && old(disk.trace) <= disk.trace
    ensures var steps, staging, destination := disk.Since(old(disk.trace)), output + [StagingName(batchId)], output + [batchId];
            if r.Ok? || late then PublishedLast(codec, steps, staging, destination, m, false) else Harmless(steps, staging)
    ensures r.Ok? ==> r.value == (output + [batchId], m)
                      && Arrived(disk.Since(old(disk.trace)), disk.nodes, output + [StagingName(batchId)], output + [batchId])
    ensures r.Ok? || late ==> m.batchId == batchId
    ensures late ==> r == Err(CopyFailed)
  {
    hide Subtree;
    hide WellFormed;
    hide Chained;
    hide Confined;
    hide Kept;
    hide AsPublished;
    hide Harmless;
    hide OnlyMakes;
    hide EmptyDirectory;
    hide Renames;
    var staging, destination := output + [StagingName(batchId)], output + [batchId];
    ghost var past := disk.trace;
    m, late := *, false;
    NobodyIsHarmed([], staging);
    assert disk.Since(past) == [];
    if dataRoot + ["blobs"] <= output || dataRoot + ["tmp"] <= output {
      r := Err(OutputInvalid);
      return;
    }
    if !head {
      r := Err(UnsupportedRevision);
      return;
    }
    if output in disk.nodes && !disk.nodes[output].Directory? {
      r := Err(OutputInvalid);
      return;
    }
    var made := disk.MakePrivate(output);
    MakingIsHarmless(disk.Since(past), output, staging);
    if !made {
      r := Err(CopyFailed);
      return;
    }
    if destination in disk.nodes {
      r := Err(BatchExists);
      return;
    }
    ghost var trace1 := disk.trace;
    var mkdir := disk.MakeDirectory(staging);
    MakingIsHarmless(disk.Since(trace1), staging, staging);
    HarmlessOn(past, trace1, disk.trace, staging);
    if !mkdir.Done? {
      r := Err(if mkdir.Exists? then BatchExists else CopyFailed);
      return;
    }
    assert disk.mine + {staging} == {staging};
    disk.mine := {staging};
    ghost var trace2 := disk.trace;
    var filled := FillStaging(disk, codec, dataRoot, staging, batchId, createdAt, snapshot);
    StayingInsideIsHarmless(disk.Since(trace2), staging);
    HarmlessOn(past, trace2, disk.trace, staging);
    if filled.Ok? {
      m := filled.value;
      r, late := Publish(disk, codec, staging, destination, output, filled.value, past);
    } else {
      r := Err(filled.error);
    }
    if r.Err? && staging in disk.mine {
      ghost var trace3 := disk.trace;
      disk.RemoveTree(staging);
      StayingInsideIsHarmless(disk.Since(trace3), staging);
      HarmlessOn(past, trace3, disk.trace, staging);
    }
  }

  /** The published tree is at the destination. */
  ghost predicate Arrived(steps: seq<Step>, nodes: Nodes, staging: Path, destination: Path) {
    steps != [] && Subtree(nodes, destination) == Subtree(steps[|steps| - 1].before, staging)
  }

  /** The rename, and the sync of the output directory, which may fail although the batch is there. */
  method Publish(disk: Disk, codec: Codec, staging: Path, destination: Path, output: Path, m: Manifest, ghost past: seq<Step>)
    returns (r: Result<(Path, Manifest), Reason>, ghost late: bool)
    requires disk.Valid() && disk.mine == {staging} && past <= disk.trace && Harmless(disk.Since(past), staging)
    requires staging == output + [StagingName(m.batchId)] && destination == output + [m.batchId] && BatchId(m.batchId)
    requires AsPublished(codec, Subtree(disk.nodes, staging), m)
    modifies disk`nodes, disk`trace, disk`mine
    ensures disk.Valid() && past <= disk.trace
    ensures if r.Ok? || late then
              PublishedLast(codec, disk.Since(past), staging, destination, m, false) && staging !in disk.mine
            else Harmless(disk.Since(past), staging) && disk.mine == {staging}
    ensures r.Ok? ==> r.value == (destination, m) && Arrived(disk.Since(past), disk.nodes, staging, destination)
    ensures late ==> r == Err(CopyFailed)
  {
    hide Subtree;
    hide WellFormed;
    hide Kept;
    hide AsPublished;
    hide Harmless;
    hide Renames;
    NamesDiffer(m.batchId);
    SiblingsApart(output, StagingName(m.batchId), m.batchId);
    PublishedIsThere(codec, disk.nodes, staging, m);
    ghost var trace1 := disk.trace;
    var renamed := disk.Rename(staging, destination, false);
    ghost var more := disk.Since(trace1);
    NobodyIsHarmed([more[0]], staging);
    HarmlessTwice(trace1[|past|..], [more[0]], staging);
    assert disk.Since(past) == trace1[|past|..] + more;
    late := false;
    if renamed.Renamed? {
      assert more == [more[0]] + [more[1]];
      assert disk.Since(past)[..|disk.Since(past)| - 1] == trace1[|past|..] + [more[0]];
      RenamedArrives(more[1], staging, destination, false);
      var unsynced: bool := *;
      if unsynced {
        r, late := Err(CopyFailed), true;
      } else {
        r := Ok((destination, m));
      }
      return;
    }
    assert more == [more[0]];
    r := Err(if renamed.Taken? then BatchExists else PublicationFailed);
  }

  lemma RenamedArrives(s: Step, staging: Path, destination: Path, replace: bool)
    requires Renames(s, staging, destination, replace)
    ensures Subtree(s.after, destination) == Subtree(s.before, staging)
  {
  }

  lemma NamesDiffer(batchId: string)
    requires BatchId(batchId)
    ensures StagingName(batchId) != batchId
  {
  }

  lemma PublishedIsThere(codec: Codec, nodes: Nodes, staging: Path, m: Manifest)
    requires AsPublished(codec, Subtree(nodes, staging), m)
    ensures staging in nodes
  {
    hide DatabaseAgrees;
    assert staging + [] == staging;
  }

  // ----- restoring a backup -----------------------------------------------------------------------

  /** An absent target or an empty directory. */
  method RequireEmptyTarget(nodes: Nodes, target: Path) returns (r: Result<(), Reason>)
    ensures r.Ok? <==> target !in nodes || (nodes[target].Directory? && forall p :: p in nodes ==> !(target < p))
  {
    if target in nodes {
      if nodes[target].Link? || !nodes[target].Directory? {
        return Err(TargetUnavailable);
      }
      if exists p :: p in nodes && target < p {
        return Err(TargetNotEmpty);
      }
    }
    return Ok(());
  }

  function RestoreStagingName(suffix: string): string { ".restore-staging-" + suffix }

  /** The staging tree beside the target does not lie in the batch. */
  lemma StagingOutsideBatch(batch: Path, target: Path, suffix: string)
    requires batch != [] && target != [] && BatchId(LastName(batch)) && !(batch <= target)
    ensures !(batch <= target[..|target| - 1] + [RestoreStagingName(suffix)])
  {
  }

  /**
   * A restore run. A successful one puts an exact copy of the batch, checked again, under a target that was absent
   * or an empty directory at that moment; its other steps disturb nobody. A failing run has put it there exactly when
   * the fault or the interrupt came `late`, after the rename.
   */
  method RestoreBackup(disk: Disk, codec: Codec, batch: Path, target: Path, suffix: string)
    returns (r: Result<(Path, Manifest), Reason>, ghost m: Manifest, ghost late: bool)
    requires disk.Valid() && disk.mine == {batch} && codec.Faithful() && batch != [] && target != []
    modifies disk
    ensures disk.Valid() && old(disk.trace) <= disk.trace
    ensures var steps, staging := disk.Since(old(disk.trace)), target[..|target| - 1] + [RestoreStagingName(suffix)];
            && RunOf(codec, steps, staging, target, m, true)
            && (Apart(target, staging) ==> (PublishedLast(codec, steps, staging, target, m, true) <==> r.Ok? || late))
            && (Apart(target, staging) ==> CrashSafe(codec, steps, staging, target, m))
    ensures r.Ok? ==> r.value == (target, m)
    ensures r.Ok? || late ==>
              && IsBatch(codec, old(disk.nodes), batch, m) && Apart(target, target[..|target| - 1] + [RestoreStagingName(suffix)])
              && Restored(codec, Subtree(old(disk.nodes), batch), Subtree(disk.nodes, target), m)
    ensures late ==> r.Err? && (r.error.CopyFailed? || r.error.Interrupted?)
  {
    hide Subtree;
    hide WellFormed;
    hide Chained;
    hide Confined;
    hide Kept;
    hide Harmless;
    hide IsBatch;
    hide Restored;
    hide AsPublished;
    hide Renames;
    hide CrashSafe;
    ghost var past := disk.trace;
    r, m, late := StageAndActivate(disk, codec, batch, target, suffix);
    ghost var staging := target[..|target| - 1] + [RestoreStagingName(suffix)];
    if Apart(target, staging) {
      if !(r.Ok? || late) {
        HarmlessIsNotPublished(codec, disk.Since(past), staging, target, m, true);
      }
      SinceIsChained(past, disk.trace, disk.nodes);
      RunsAreCrashSafe(codec, disk.Since(past), staging, target, m, true);
    }
  }

  /** The restored tree: an exact copy that passed the check; with its modes, exactly when the batch has those of a copy. */
  ghost predicate Restored(codec: Codec, batch: Nodes, tree: Nodes, m: Manifest) {
    && Copies(codec, batch, tree, m) && AsPublished(codec, tree, m)
    && (tree == batch <==> AsPublished(codec, batch, m))
  }

  /** The run itself: `late` says that the fault or interrupt came after the rename. */
  method StageAndActivate(disk: Disk, codec: Codec, batch: Path, target: Path, suffix: string)
    returns (r: Result<(Path, Manifest), Reason>, ghost m: Manifest, ghost late: bool)
    requires disk.Valid() && disk.mine == {batch} && codec.Faithful() && batch != [] && target != []
    modifies disk
    ensures disk.Valid() && old(disk.trace) <= disk.trace
    ensures var steps, staging := disk.Since(old(disk.trace)), target[..|target| - 1] + [RestoreStagingName(suffix)];
            if r.Ok? || late then
              && PublishedLast(codec, steps, staging, target, m, true) && Apart(target, staging)
              && IsBatch(codec, old(disk.nodes), batch, m)
              && Restored(codec, Subtree(old(disk.nodes), batch), Subtree(disk.nodes, target), m)
            else Harmless(steps, staging)
    ensures r.Ok? ==> r.value == (target, m)
    ensures late ==> r.Err? && (r.error.CopyFailed? || r.error.Interrupted?)
  {
    hide Subtree;
    hide WellFormed;
    hide Chained;
    hide Confined;
    hide Kept;
    hide AsPublished;
    hide Harmless;
    hide OnlyMakes;
    hide EmptyDirectory;
    hide Renames;
    hide IsBatch;
    hide Restored;
    var parent := target[..|target| - 1];
    var staging := parent + [RestoreStagingName(suffix)];
    ghost var past, before := disk.trace, disk.nodes;
    m, late := *, false;
    NobodyIsHarmed([], staging);
    assert disk.Since(past) == [];
    var verified := VerifyBackup(codec, disk.nodes, batch);
    if verified.Err? {
      r := Err(verified.error);
      return;
    }
    m := verified.value;
    BatchName(codec, disk.nodes, batch, m);
    if target in disk.nodes && disk.nodes[target].Link? {
      r := Err(TargetUnavailable);
      return;
    }
    if batch <= target {
      r := Err(TargetOverlap);
      return;
    }
    if !IsDirectory(disk.nodes, parent) {
      r := Err(ParentUnavailable);
      return;
    }
    var empty := RequireEmptyTarget(disk.nodes, target);
    if empty.Err? {
      r := Err(empty.error);
      return;
    }
    StagingOutsideBatch(batch, target, suffix);
    var mkdir := disk.MakeDirectory(staging);
    MakingIsHarmless(disk.Since(past), staging, staging);
    var interrupted: bool := *;
    if !mkdir.Done? || interrupted {
      r := Err(if interrupted then Interrupted else CopyFailed);
      return;
    }
    KeptTree(before, disk.nodes, disk.mine, batch);
    KeptBatch(codec, before, disk.nodes, batch, m);
    assert disk.mine + {staging} == {batch, staging};
    disk.mine := {batch, staging};
    r, late := FillAndActivate(disk, codec, batch, verified.value, staging, target, suffix, past);
    if r.Err? && staging in disk.mine {
      ghost var trace3 := disk.trace;
      disk.RemoveTree(staging);
      StayingInsideIsHarmless(disk.Since(trace3), staging);
      HarmlessOn(past, trace3, disk.trace, staging);
    }
  }

  method FillAndActivate(disk: Disk, codec: Codec, batch: Path, m: Manifest, staging: Path, target: Path, suffix: string,
                         ghost past: seq<Step>) returns (r: Result<(Path, Manifest), Reason>, ghost late: bool)
    requires disk.Valid() && disk.mine == {batch, staging} && batch != staging && batch != [] && codec.Faithful()
    requires IsBatch(codec, disk.nodes, batch, m) && EmptyDirectory(disk.nodes, staging)
    requires target != [] && staging == target[..|target| - 1] + [RestoreStagingName(suffix)]
    requires past <= disk.trace && Harmless(disk.Since(past), staging)
    modifies disk`nodes, disk`trace, disk`mine
    ensures disk.Valid() && past <= disk.trace
    ensures if r.Ok? || late then
              && PublishedLast(codec, disk.Since(past), staging, target, m, true) && staging !in disk.mine && Apart(target, staging)
              && Restored(codec, Subtree(old(disk.nodes), batch), Subtree(disk.nodes, target), m)
            else Harmless(disk.Since(past), staging) && staging in disk.mine
    ensures r.Ok? ==> r.value == (target, m)
    ensures late ==> r.Err? && (r.error.CopyFailed? || r.error.Interrupted?)
  {
    hide Subtree;
    hide WellFormed;
    hide Chained;
    hide Confined;
    hide Kept;
    hide AsPublished;
    hide Verified;
    hide Structured;
    hide Harmless;
    hide Renames;
    hide IsBatch;
    hide Copies;
    hide Restored;
    late := false;
    ghost var before, trace1 := disk.nodes, disk.trace;
    BatchTree(codec, before, batch, m);
    var copied := CopyVerifiedContents(disk, codec, batch, m, staging);
    StayingInsideIsHarmless(disk.Since(trace1), staging);
    HarmlessOn(past, trace1, disk.trace, staging);
    var interrupted, unsynced: bool := *, *;
    if copied.Err? || interrupted || unsynced {
      r := Err(if interrupted then Interrupted else if unsynced then CopyFailed else copied.error);
      return;
    }
    CopyIsRestored(codec, Subtree(before, batch), Subtree(before, staging), Subtree(disk.nodes, staging), m);
    var empty := RequireEmptyTarget(disk.nodes, target);
    if empty.Err? {
      r := Err(empty.error);
      return;
    }
    StagingIsNotEmpty(codec, disk.nodes, staging, m, target);
    r, late := Activate(disk, codec, batch, staging, target, suffix, m, past);
  }

  lemma CopyIsRestored(codec: Codec, batch: Nodes, empty: Nodes, tree: Nodes, m: Manifest)
    requires Structured(m) && Verified(codec, batch, m) && Copies(codec, batch, tree, m) && Verified(codec, tree, m)
    requires empty == map[[] := Directory(OWNER_ALL)] && SameRoot(empty, tree)
    ensures AsPublished(codec, tree, m) && Restored(codec, batch, tree, m)
  {
    hide Verified;
    hide Copies;
    hide Structured;
    hide WellModed;
    CopiesKeepModes(codec, batch, tree, m);
    CopiesAreWellModed(codec, batch, tree, m);
  }

  lemma CopiesAreWellModed(codec: Codec, source: Nodes, copy: Nodes, m: Manifest)
    requires Copies(codec, source, copy, m)
    ensures WellModed(copy)
  {
  }

  /** A filled staging tree is no empty target. */
  lemma StagingIsNotEmpty(codec: Codec, nodes: Nodes, staging: Path, m: Manifest, target: Path)
    requires Verified(codec, Subtree(nodes, staging), m)
    requires target !in nodes || forall p :: p in nodes ==> !(target < p)
    ensures target != staging
  {
    hide DatabaseAgrees;
    assert staging + [] == staging;
    assert staging + [MANIFEST_FILE] in nodes && staging < staging + [MANIFEST_FILE];
  }

  lemma BatchName(codec: Codec, nodes: Nodes, batch: Path, m: Manifest)
    requires IsBatch(codec, nodes, batch, m)
    ensures batch != [] && batch in nodes && BatchId(LastName(batch)) && Structured(m)
  {
    hide Verified;
  }

  lemma KeptBatch(codec: Codec, before: Nodes, nodes: Nodes, batch: Path, m: Manifest)
    requires IsBatch(codec, before, batch, m) && Subtree(nodes, batch) == Subtree(before, batch)
    ensures IsBatch(codec, nodes, batch, m)
  {
    hide Verified;
    hide Structured;
    assert batch + [] == batch;
    assert [] in Subtree(nodes, batch) <==> [] in Subtree(before, batch);
  }

  /** The rename that activates a restored copy, and the sync after it: only an empty directory gives way. */
  method Activate(disk: Disk, codec: Codec, batch: Path, staging: Path, target: Path, suffix: string, m: Manifest,
                  ghost past: seq<Step>) returns (r: Result<(Path, Manifest), Reason>, ghost late: bool)
    requires disk.Valid() && disk.mine == {batch, staging} && past <= disk.trace && Harmless(disk.Since(past), staging)
    requires batch != staging
    requires target != [] && staging == target[..|target| - 1] + [RestoreStagingName(suffix)] && target != staging
    requires AsPublished(codec, Subtree(disk.nodes, staging), m)
    modifies disk`nodes, disk`trace, disk`mine
    ensures disk.Valid() && past <= disk.trace
    ensures if r.Ok? || late then
              && PublishedLast(codec, disk.Since(past), staging, target, m, true) && staging !in disk.mine && Apart(target, staging)
              && Subtree(disk.nodes, target) == Subtree(old(disk.nodes), staging)
            else Harmless(disk.Since(past), staging) && staging in disk.mine
    ensures r.Ok? ==> r.value == (target, m)
    ensures late ==> r.Err? && (r.error.CopyFailed? || r.error.Interrupted?)
  {
    hide Subtree;
    hide WellFormed;
    hide Kept;
    hide AsPublished;
    hide Harmless;
    hide Renames;
    assert target == target[..|target| - 1] + [LastName(target)];
    assert LastName(target) != RestoreStagingName(suffix);
    SiblingsApart(target[..|target| - 1], RestoreStagingName(suffix), LastName(target));
    PublishedIsThere(codec, disk.nodes, staging, m);
    ghost var trace1 := disk.trace;
    var renamed := disk.Rename(staging, target, true);
    ghost var more := disk.Since(trace1);
    NobodyIsHarmed([more[0]], staging);
    HarmlessTwice(trace1[|past|..], [more[0]], staging);
    assert disk.Since(past) == trace1[|past|..] + more;
    late := false;
    if renamed.Renamed? {
      assert more == [more[0]] + [more[1]];
      assert disk.Since(past)[..|disk.Since(past)| - 1] == trace1[|past|..] + [more[0]];
      RenamedArrives(more[1], staging, target, true);
      var interrupted, unsynced: bool := *, *;
      if interrupted || unsynced {
        r, late := Err(if interrupted then Interrupted else CopyFailed), true;
      } else {
        r := Ok((target, m));
      }
      return;
    }
    assert more == [more[0]];
    r := Err(if renamed.Taken? then TargetNotEmpty else PublicationFailed);
  }

  // ----- a backup and its restoration ---------------------------------------------------------------

  /**
   * Backing up and restoring, when nobody touches the batch in between: the restored tree is the published one, byte
   * for byte and mode for mode.
   */
  method BackUpAndRestore(disk: Disk, codec: Codec, dataRoot: Path, output: Path, batchId: string, createdAt: string,
                          snapshot: Bytes, target: Path, suffix: string)
    returns (r: Result<(Path, Manifest), Reason>, ghost published: Nodes)
    requires disk.Valid() && disk.mine == {} && codec.Faithful() && BatchId(batchId) && target != []
    modifies disk
    ensures disk.Valid()
    ensures r.Ok? ==> r.value.0 == target && AsPublished(codec, published, r.value.1) && Subtree(disk.nodes, target) == published
    ensures r.Ok? ==>
              exists i :: 0 <= i < |disk.trace| && disk.trace[i].own
                          && Subtree(disk.trace[i].after, output + [batchId]) == published
  {
    hide Subtree;
    hide WellFormed;
    hide Chained;
    hide AsPublished;
    hide Harmless;
    hide CrashSafe;
    hide PublishedLast;
    hide RunOf;
    hide IsBatch;
    hide Arrived;
    hide Copies;
    published := map[];
    ghost var m, late, n, later;
    var made;
    made, m, late := CreateBackup(disk, codec, dataRoot, output, batchId, createdAt, true, snapshot);
    if made.Err? {
      r := made;
      return;
    }
    var batch := output + [batchId];
    published := Subtree(disk.nodes, batch);
    ghost var trace, nodes := disk.trace, disk.nodes;
    LastStepPublished(codec, disk.Since(old(disk.trace)), trace, nodes, output + [StagingName(batchId)], batch, m);
    disk.mine := {batch};
    r, n, later := RestoreBackup(disk, codec, batch, target, suffix);
    if r.Ok? {
      BatchAsPublished(codec, nodes, batch, m, n);
      assert disk.trace[|trace| - 1] == trace[|trace| - 1];
    }
  }

  lemma LastStepPublished(codec: Codec, steps: seq<Step>, trace: seq<Step>, nodes: Nodes, staging: Path, batch: Path, m: Manifest)
    requires PublishedLast(codec, steps, staging, batch, m, false) && Arrived(steps, nodes, staging, batch)
    requires Chained(trace, nodes) && |steps| <= |trace| && trace[|trace| - |steps|..] == steps
    ensures AsPublished(codec, Subtree(nodes, batch), m)
    ensures trace != [] && trace[|trace| - 1].own && trace[|trace| - 1].after == nodes
  {
    hide AsPublished;
    hide Subtree;
    assert steps[|steps| - 1] == trace[|trace| - 1];
  }

  /** The published tree is the batch that a restore accepts. */
  lemma BatchAsPublished(codec: Codec, nodes: Nodes, batch: Path, m: Manifest, n: Manifest)
    requires AsPublished(codec, Subtree(nodes, batch), m) && IsBatch(codec, nodes, batch, n)
    ensures AsPublished(codec, Subtree(nodes, batch), n)
  {
    hide Verified;
    hide Subtree;
  }
}
