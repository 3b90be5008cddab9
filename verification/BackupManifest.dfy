/** The manifest of a backup batch, what it must list, and what a database file registers. */
module BackupManifest {
  import opened Prelude
  import opened FileTree
  import opened TextOrder

  const DATABASE_FILE := "database.sqlite3"
  const MANIFEST_FILE := "manifest.json"
  const DATABASE_REVISION := "body02_read_tasks"

  // ----- the manifest ---------------------------------------------------------------------------

  datatype FileEntry = FileEntry(path: Path, sha: string, size: nat)

  datatype Member = Member(role: string, sha: string, size: nat)

  datatype BackupArtifact = BackupArtifact(id: string, kind: string, members: seq<Member>, createdAt: string)

  datatype KindCount = KindCount(artifacts: nat, members: nat, bytes: nat)

  datatype Counts = Counts(blobs: nat, artifacts: nat, snapshots: nat, blobBytes: nat, byKind: map<string, KindCount>)

  datatype Manifest = Manifest(batchId: string, createdAt: string, revision: string, database: FileEntry,
                               blobs: seq<FileEntry>, artifacts: seq<BackupArtifact>, snapshots: seq<string>, counts: Counts)

  /** What a database file holds, as far as a backup looks: its registrations, and whether it can be replayed. */
  datatype DatabaseFile = DatabaseFile(rollback: bool, intact: bool, revision: string, artifacts: map<string, BackupArtifact>,
                                       blobs: map<string, nat>, snapshots: set<string>, replayable: bool)

  /**
   * The encodings a backup relies on: canonical manifest bytes, SHA-256 in hexadecimal, the SQLite format, and the
   * closure of the stored records over the database and the blobs, which the services check.
   */
  datatype Codec = Codec(encode: Manifest -> Bytes, decode: Bytes -> Option<Manifest>, hex: Bytes -> string,
                         interpret: Bytes -> Option<DatabaseFile>, closed: (Bytes, map<string, Bytes>) -> bool)
  {
    /** Canonical bytes decode to what they encode and nothing else decodes; SHA-256 is injective. */
    ghost predicate Faithful() {
      && (forall m :: Structured(m) ==> decode(encode(m)) == Some(m))
      && (forall b :: decode(b).Some? ==> Structured(decode(b).value) && encode(decode(b).value) == b)
      && (forall a, b :: hex(a) == hex(b) ==> a == b)
    }
  }

  function BlobPath(sha: string): Path
    requires |sha| >= 2
  {
    ["blobs", "sha256", sha[..2], sha]
  }

  predicate Digit(c: char) { '0' <= c <= '9' }

  predicate HexDigit(c: char) { Digit(c) || 'a' <= c <= 'f' }

  /** Eight digits, `T`, six digits, `Z-`, eight hexadecimal digits. */
  predicate BatchId(id: string) {
    && |id| == 25 && id[8] == 'T' && id[15] == 'Z' && id[16] == '-'
    && (forall i :: 0 <= i < 15 && i != 8 ==> Digit(id[i]))
    && (forall i :: 17 <= i < 25 ==> HexDigit(id[i]))
  }

  function ShasOf(blobs: seq<FileEntry>): seq<string> {
    seq(|blobs|, i requires 0 <= i < |blobs| => blobs[i].sha)
  }

  function IdsOf(artifacts: seq<BackupArtifact>): seq<string> {
    seq(|artifacts|, i requires 0 <= i < |artifacts| => artifacts[i].id)
  }

  /** The manifest's own rules: fixed locations, derived paths, sorted lists without repetition. */
  ghost predicate Structured(m: Manifest) {
    && BatchId(m.batchId) && m.database.path == [DATABASE_FILE]
    && (forall i :: 0 <= i < |m.blobs| ==> |m.blobs[i].sha| == 64 && m.blobs[i].path == BlobPath(m.blobs[i].sha))
    && Rising(ShasOf(m.blobs)) && Rising(IdsOf(m.artifacts)) && Rising(m.snapshots)
  }

  // ----- the entries of a batch -----------------------------------------------------------------

  /** The manifest, the database, and every blob with the directories on its way. */
  ghost predicate Expected(m: Manifest, p: Path) {
    || p == [MANIFEST_FILE] || p == m.database.path
    || exists i :: 0 <= i < |m.blobs| && p != [] && p <= m.blobs[i].path
  }

  /** A path with the directories on its way. */
  method WithParents(path: Path) returns (entries: set<Path>)
    requires path != []
    ensures forall p :: p in entries <==> p != [] && p <= path
  {
    entries := {};
    for n := 1 to |path| + 1
      invariant forall p :: p in entries <==> p != [] && p <= path && |p| < n
    {
      forall p | p <= path && |p| == n ensures p == path[..n] {
      }
      entries := entries + {path[..n]};
    }
  }

  method ExpectedEntries(m: Manifest) returns (entries: set<Path>)
    requires forall i :: 0 <= i < |m.blobs| ==> m.blobs[i].path != []
    ensures forall p :: p in entries <==> Expected(m, p)
  {
    entries := {[MANIFEST_FILE], m.database.path};
    for i := 0 to |m.blobs|
      invariant forall p :: p in entries <==>
        p == [MANIFEST_FILE] || p == m.database.path || exists k :: 0 <= k < i && p != [] && p <= m.blobs[k].path
    {
      var more := WithParents(m.blobs[i].path);
      entries := entries + more;
    }
  }

  // ----- what the database registers ------------------------------------------------------------

  /** The digests that the members of the registered artifacts name. */
  function MemberShas(f: DatabaseFile): set<string> {
    set id, i | id in f.artifacts && 0 <= i < |f.artifacts[id].members| :: f.artifacts[id].members[i].sha
  }

  predicate ClosedRegistration(f: DatabaseFile) {
    forall id :: id in f.artifacts ==>
      && f.artifacts[id].id == id
      && forall i :: 0 <= i < |f.artifacts[id].members| ==>
           |f.artifacts[id].members[i].sha| == 64 && f.artifacts[id].members[i].sha in f.blobs
  }

  /** The entry of a registered blob, as its digest and its recorded size say. */
  predicate EntryOf(f: DatabaseFile, e: FileEntry) {
    |e.sha| == 64 && e.sha in f.blobs && e.path == BlobPath(e.sha) && e.size == f.blobs[e.sha]
  }

  /** The lists are exactly what the database registers, sorted by their keys. */
  ghost predicate Registers(f: DatabaseFile, blobs: seq<FileEntry>, artifacts: seq<BackupArtifact>, snapshots: seq<string>) {
    && ClosedRegistration(f)
    && Sorts(IdsOf(artifacts), f.artifacts.Keys) && (forall i :: 0 <= i < |artifacts| ==> f.artifacts[IdsOf(artifacts)[i]] == artifacts[i])
    && Sorts(ShasOf(blobs), MemberShas(f))
    && (forall i :: 0 <= i < |blobs| ==> EntryOf(f, blobs[i]))
    && Sorts(snapshots, f.snapshots)
  }

  lemma RegistersOneWay(f: DatabaseFile, blobs: seq<FileEntry>, artifacts: seq<BackupArtifact>, snapshots: seq<string>,
                        blobs': seq<FileEntry>, artifacts': seq<BackupArtifact>, snapshots': seq<string>)
    requires Registers(f, blobs, artifacts, snapshots) && Registers(f, blobs', artifacts', snapshots')
    ensures blobs == blobs' && artifacts == artifacts' && snapshots == snapshots'
  {
    SortsOneWay(IdsOf(artifacts), IdsOf(artifacts'), f.artifacts.Keys);
    SortsOneWay(ShasOf(blobs), ShasOf(blobs'), MemberShas(f));
    SortsOneWay(snapshots, snapshots', f.snapshots);
    SameLists(f, blobs, artifacts, blobs', artifacts');
  }

  lemma SameLists(f: DatabaseFile, blobs: seq<FileEntry>, artifacts: seq<BackupArtifact>, blobs': seq<FileEntry>,
                  artifacts': seq<BackupArtifact>)
    requires ShasOf(blobs) == ShasOf(blobs') && IdsOf(artifacts) == IdsOf(artifacts')
    requires forall i :: 0 <= i < |blobs| ==> EntryOf(f, blobs[i])
    requires forall i :: 0 <= i < |blobs'| ==> EntryOf(f, blobs'[i])
    requires forall i :: 0 <= i < |artifacts| ==> IdsOf(artifacts)[i] in f.artifacts && f.artifacts[IdsOf(artifacts)[i]] == artifacts[i]
    requires forall i :: 0 <= i < |artifacts'| ==> IdsOf(artifacts')[i] in f.artifacts && f.artifacts[IdsOf(artifacts')[i]] == artifacts'[i]
    ensures blobs == blobs' && artifacts == artifacts'
  {
    assert |ShasOf(blobs)| == |blobs| && |ShasOf(blobs')| == |blobs'|;
    assert |IdsOf(artifacts)| == |artifacts| && |IdsOf(artifacts')| == |artifacts'|;
    forall i | 0 <= i < |blobs| ensures blobs[i] == blobs'[i] {
      assert ShasOf(blobs)[i] == ShasOf(blobs')[i];
    }
  }

  function ShasIn(artifacts: seq<BackupArtifact>): set<string> {
    set a, i | a in artifacts && 0 <= i < |a.members| :: a.members[i].sha
  }

  /** `blobs[blob.sha256] = blob_entry(blob)` for every blob of every artifact. */
  method CollectBlobs(f: DatabaseFile, artifacts: seq<BackupArtifact>) returns (dictionary: map<string, FileEntry>)
    requires ClosedRegistration(f) && forall a :: a in artifacts ==> a.id in f.artifacts && f.artifacts[a.id] == a
    ensures dictionary.Keys == ShasIn(artifacts)
    ensures forall sha :: sha in dictionary ==> dictionary[sha].sha == sha && EntryOf(f, dictionary[sha])
  {
    dictionary := map[];
    for i := 0 to |artifacts|
      invariant dictionary.Keys == ShasIn(artifacts[..i])
      invariant forall sha :: sha in dictionary ==> dictionary[sha].sha == sha && EntryOf(f, dictionary[sha])
    {
      var members := artifacts[i].members;
      assert artifacts[i] in artifacts && artifacts[..i + 1] == artifacts[..i] + [artifacts[i]];
      for j := 0 to |members|
        invariant dictionary.Keys == ShasIn(artifacts[..i]) + set k | 0 <= k < j :: members[k].sha
        invariant forall sha :: sha in dictionary ==> dictionary[sha].sha == sha && EntryOf(f, dictionary[sha])
      {
        var sha := members[j].sha;
        dictionary := dictionary[sha := FileEntry(BlobPath(sha), sha, f.blobs[sha])];
      }
    }
    assert artifacts[..|artifacts|] == artifacts;
  }

  method ListArtifacts(f: DatabaseFile) returns (artifacts: seq<BackupArtifact>)
    requires ClosedRegistration(f)
    ensures Sorts(IdsOf(artifacts), f.artifacts.Keys)
    ensures forall i :: 0 <= i < |artifacts| ==> f.artifacts[IdsOf(artifacts)[i]] == artifacts[i]
    ensures forall a :: a in artifacts ==> a.id in f.artifacts && f.artifacts[a.id] == a
    ensures ShasIn(artifacts) == MemberShas(f)
  {
    var ids := SortKeys(f.artifacts.Keys);
    artifacts := [];
    for i := 0 to |ids|
      invariant IdsOf(artifacts) == ids[..i]
      invariant forall k :: 0 <= k < |artifacts| ==> artifacts[k].id in f.artifacts && f.artifacts[artifacts[k].id] == artifacts[k]
    {
      assert ids[i] in ids;
      artifacts := artifacts + [f.artifacts[ids[i]]];
      assert IdsOf(artifacts)[i] == ids[i];
    }
    assert ids[..|ids|] == ids;
    forall id | id in f.artifacts ensures f.artifacts[id] in artifacts {
      assert id in ids;
      var k :| 0 <= k < |ids| && ids[k] == id;
      assert IdsOf(artifacts)[k] == id && artifacts[k] == f.artifacts[id];
    }
  }

  /** `_registered_contents`: collect the blobs of every artifact in a dictionary, and sort. */
  method RegisteredContents(f: DatabaseFile)
    returns (found: Option<(seq<FileEntry>, seq<BackupArtifact>, seq<string>)>)
    ensures found.Some? <==> ClosedRegistration(f)
    ensures found.Some? ==> Registers(f, found.value.0, found.value.1, found.value.2)
  {
    if !ClosedRegistration(f) {
      return None;
    }
    var artifacts := ListArtifacts(f);
    var dictionary := CollectBlobs(f, artifacts);
    var shas := SortKeys(dictionary.Keys);
    assert forall i :: 0 <= i < |shas| ==> shas[i] in shas;
    var blobs := seq(|shas|, i requires 0 <= i < |shas| && shas[i] in dictionary => dictionary[shas[i]]);
    assert ShasOf(blobs) == shas;
    var snapshots := SortKeys(f.snapshots);
    return Some((blobs, artifacts, snapshots));
  }

  // ----- counts ---------------------------------------------------------------------------------

  function BlobBytes(blobs: seq<FileEntry>): nat {
    if blobs == [] then 0 else BlobBytes(blobs[..|blobs| - 1]) + blobs[|blobs| - 1].size
  }

  function MemberBytes(members: seq<Member>): nat {
    if members == [] then 0 else MemberBytes(members[..|members| - 1]) + members[|members| - 1].size
  }

  const NOTHING := KindCount(0, 0, 0)

  function KindTotal(artifacts: seq<BackupArtifact>, kind: string): KindCount {
    if artifacts == [] then NOTHING else
      var rest, last := KindTotal(artifacts[..|artifacts| - 1], kind), artifacts[|artifacts| - 1];
      if last.kind != kind then rest
      else KindCount(rest.artifacts + 1, rest.members + |last.members|, rest.bytes + MemberBytes(last.members))
  }

  function Kinds(artifacts: seq<BackupArtifact>): set<string> {
    set a | a in artifacts :: a.kind
  }

  function CountsFor(blobs: seq<FileEntry>, artifacts: seq<BackupArtifact>, snapshots: seq<string>): Counts {
    Counts(|blobs|, |artifacts|, |snapshots|, BlobBytes(blobs), map k | k in Kinds(artifacts) :: KindTotal(artifacts, k))
  }

  /** One count per kind, kinds in sorted order. */
  method CountKinds(blobs: seq<FileEntry>, artifacts: seq<BackupArtifact>, snapshots: seq<string>) returns (counts: Counts)
    ensures counts == CountsFor(blobs, artifacts, snapshots)
  {
    var kinds := SortKeys(Kinds(artifacts));
    var byKind: map<string, KindCount> := map[];
    for i := 0 to |kinds|
      invariant byKind.Keys == set k | 0 <= k < i :: kinds[k]
      invariant forall k :: k in byKind ==> byKind[k] == KindTotal(artifacts, k)
    {
      var n: nat, members: nat, bytes: nat := 0, 0, 0;
      for j := 0 to |artifacts|
        invariant KindCount(n, members, bytes) == KindTotal(artifacts[..j], kinds[i])
      {
        assert artifacts[..j + 1][..j] == artifacts[..j];
        if artifacts[j].kind == kinds[i] {
          n, members, bytes := n + 1, members + |artifacts[j].members|, bytes + MemberBytes(artifacts[j].members);
        }
      }
      assert artifacts[..|artifacts|] == artifacts;
      byKind := byKind[kinds[i] := KindCount(n, members, bytes)];
    }
    assert byKind.Keys == Kinds(artifacts) by {
      forall k ensures k in byKind <==> k in Kinds(artifacts) {
        assert k in kinds <==> k in Kinds(artifacts);
      }
    }
    var bytes: nat := 0;
    for i := 0 to |blobs|
      invariant bytes == BlobBytes(blobs[..i])
    {
      assert blobs[..i + 1][..i] == blobs[..i];
      bytes := bytes + blobs[i].size;
    }
    assert blobs[..|blobs|] == blobs;
    counts := Counts(|blobs|, |artifacts|, |snapshots|, bytes, byKind);
  }
}
