/** Filling a private tree: directories, files with re-hashed content, and the manifest. */
module BackupCopy {
  import opened Prelude
  import opened FileTree
  import opened BackupManifest
  import opened BackupVerification
  import opened BackupDisk

  const CHUNK_SIZE: nat := 1024 * 1024

  /** The tree gained only private directories on the way to rel. */
  ghost predicate GainsDirectories(t: Nodes, u: Nodes, rel: Path) {
    && (forall q :: q in t ==> q in u && u[q] == t[q])
    && (forall q :: q in u && q !in t ==> q != [] && q <= rel && u[q] == Directory(OWNER_ALL))
  }

  lemma GainsTwice(t: Nodes, u: Nodes, v: Nodes, rel: Path)
    requires rel != [] && GainsDirectories(t, u, rel[..|rel| - 1]) && GainsDirectories(u, v, rel)
    ensures GainsDirectories(t, v, rel)
  {
  }

  /** A name is taken by something that is no directory. */
  ghost predicate Occupied(t: Nodes, q: Path) { q in t && !t[q].Directory? }

  /** `mkdir_private` inside one of our trees. */
  method MakeInside(disk: Disk, root: Path, rel: Path) returns (r: Made)
    requires disk.Valid() && root in disk.mine
    modifies disk`nodes, disk`trace
    ensures disk.Valid() && old(disk.trace) <= disk.trace && Confined(disk.Since(old(disk.trace)), root)
    ensures Kept(old(disk.nodes), disk.nodes, disk.mine - {root})
    ensures GainsDirectories(Subtree(old(disk.nodes), root), Subtree(disk.nodes, root), rel)
    ensures r.Done? ==> IsDirectory(Subtree(disk.nodes, root), rel)
    ensures r.Exists? ==> exists q :: q <= rel && Occupied(Subtree(old(disk.nodes), root), q)
    decreases |rel|
  {
    hide Subtree;
    hide WellFormed;
    hide Chained;
    hide Confined;
    NotOurs([], root);
    assert disk.Since(old(disk.trace)) == [];
    var tree := Subtree(disk.nodes, root);
    if IsDirectory(tree, rel) {
      return Done;
    }
    if rel in tree {
      assert Occupied(tree, rel);
      return Exists;
    }
    if rel == [] {
      return Fault;
    }
    var parent := MakeInside(disk, root, rel[..|rel| - 1]);
    if !parent.Done? {
      GainsMore(tree, Subtree(disk.nodes, root), rel);
      return parent;
    }
    ghost var middle, nodes := disk.trace, disk.nodes;
    NotOnTheWay(tree, Subtree(disk.nodes, root), rel);
    var ok := disk.Store(root, rel, Directory(OWNER_ALL));
    r := if ok then Done else Fault;
    assert GainsDirectories(Subtree(nodes, root), Subtree(disk.nodes, root), rel);
    GainsTwice(tree, Subtree(nodes, root), Subtree(disk.nodes, root), rel);
    ConfinedTwice(middle[|old(disk.trace)|..], disk.Since(middle), root);
    assert disk.Since(old(disk.trace)) == middle[|old(disk.trace)|..] + disk.Since(middle);
    KeptOn(old(disk.nodes), nodes, disk.nodes, disk.mine - {root}, disk.mine - {root});
  }

  lemma GainsMore(t: Nodes, u: Nodes, rel: Path)
    requires rel != [] && GainsDirectories(t, u, rel[..|rel| - 1])
    ensures GainsDirectories(t, u, rel)
  {
  }

  lemma NotOnTheWay(t: Nodes, u: Nodes, rel: Path)
    requires rel != [] && rel !in t && GainsDirectories(t, u, rel[..|rel| - 1])
    ensures rel !in u
  {
  }

  /** After a copy: the directories on the way, and the file with the digest and length of the entry. */
  ghost predicate Copied(codec: Codec, t: Nodes, u: Nodes, e: FileEntry, mode: Mode) {
    && (forall q :: q in t ==> q in u && u[q] == t[q])
    && (forall q :: q in u && q !in t ==> q != [] && q <= e.path && (q == e.path || u[q] == Directory(OWNER_ALL)))
    && e.path !in t && Holds(codec, u, e) && u[e.path].mode == mode
    && forall q :: q != [] && q <= e.path ==> q in u
  }

  /** Write the bytes chunk by chunk. */
  method WriteAll(disk: Disk, root: Path, rel: Path, input: Bytes) returns (ok: bool)
    requires disk.Valid() && root in disk.mine && rel != []
    requires var t := Subtree(disk.nodes, root); IsDirectory(t, rel[..|rel| - 1]) && rel in t && t[rel] == File([], OWNER_WRITE)
    modifies disk`nodes, disk`trace
    ensures disk.Valid() && old(disk.trace) <= disk.trace && Confined(disk.Since(old(disk.trace)), root)
    ensures Kept(old(disk.nodes), disk.nodes, disk.mine - {root})
    ensures ok ==> Subtree(disk.nodes, root) == Subtree(old(disk.nodes), root)[rel := File(input, OWNER_WRITE)]
    ensures !ok ==> exists b :: Subtree(disk.nodes, root) == Subtree(old(disk.nodes), root)[rel := File(b, OWNER_WRITE)]
  {
    hide Subtree;
    hide WellFormed;
    hide Chained;
    hide Confined;
    NotOurs([], root);
    assert disk.Since(old(disk.trace)) == [];
    var done := 0;
    assert input[..0] == [];
    KeptStill(disk.nodes, disk.mine - {root});
    while done < |input|
      invariant 0 <= done <= |input|
      invariant disk.Valid() && old(disk.trace) <= disk.trace && Confined(disk.Since(old(disk.trace)), root)
      invariant Kept(old(disk.nodes), disk.nodes, disk.mine - {root})
      invariant Subtree(disk.nodes, root) == Subtree(old(disk.nodes), root)[rel := File(input[..done], OWNER_WRITE)]
    {
      var next := if done + CHUNK_SIZE < |input| then done + CHUNK_SIZE else |input|;
      ghost var middle, nodes := disk.trace, disk.nodes;
      StillADirectory(Subtree(old(disk.nodes), root), rel, File(input[..done], OWNER_WRITE));
      ok := disk.Store(root, rel, File(input[..next], OWNER_WRITE));
      ConfinedTwice(middle[|old(disk.trace)|..], disk.Since(middle), root);
      assert disk.Since(old(disk.trace)) == middle[|old(disk.trace)|..] + disk.Since(middle);
      KeptOn(old(disk.nodes), nodes, disk.nodes, disk.mine - {root}, disk.mine - {root});
      if !ok {
        return;
      }
      done := next;
    }
    assert input[..|input|] == input;
    ok := true;
  }

  lemma KeptStill(nodes: Nodes, roots: set<Path>)
    ensures Kept(nodes, nodes, roots)
  {
  }

  lemma StillADirectory(t: Nodes, rel: Path, node: Node)
    requires rel != [] && IsDirectory(t, rel[..|rel| - 1])
    ensures IsDirectory(t[rel := node], rel[..|rel| - 1])
  {
  }

  /** Nothing is in the way of a new file. */
  ghost predicate Clear(t: Nodes, path: Path) {
    path !in t && forall q :: q <= path ==> !Occupied(t, q)
  }

  /** The source lies in a tree nobody touches and holds what the entry says. */
  ghost predicate Stable(codec: Codec, nodes: Nodes, mine: set<Path>, root: Path, home: Path, source: Path, e: FileEntry) {
    && home in mine && home != root && home <= source
    && Holds(codec, Subtree(nodes, home), FileEntry(source[|home|..], e.sha, e.size))
  }

  /** Copy one file, hashing what is written; nothing is overwritten and nothing is linked. */
  method CopyFile(disk: Disk, codec: Codec, source: Path, root: Path, e: FileEntry, mode: Mode, ghost home: Path)
    returns (r: Result<(), Reason>)
    requires disk.Valid() && root in disk.mine && e.path != []
    modifies disk`nodes, disk`trace
    ensures disk.Valid() && old(disk.trace) <= disk.trace && Confined(disk.Since(old(disk.trace)), root)
    ensures Kept(old(disk.nodes), disk.nodes, disk.mine - {root})
    ensures r.Ok? ==> Copied(codec, Subtree(old(disk.nodes), root), Subtree(disk.nodes, root), e, mode)
    ensures (Clear(Subtree(old(disk.nodes), root), e.path) && r.Err?
             && Stable(codec, old(disk.nodes), disk.mine, root, home, source, e)) ==> r.error.CopyFailed?
  {
    hide Subtree;
    hide WellFormed;
    hide Chained;
    hide Confined;
    hide Kept;
    hide GainsDirectories;
    hide Stable;
    hide Copied;
    hide Holds;
    ghost var t := Subtree(disk.nodes, root);
    ghost var past, before := disk.trace, disk.nodes;
    var parent := MakeInside(disk, root, e.path[..|e.path| - 1]);
    if !parent.Done? {
      BlockedParent(t, e.path, parent);
      return Err(if parent.Exists? then UnsafePath else CopyFailed);
    }
    ghost var tree1, trace1, nodes1 := Subtree(disk.nodes, root), disk.trace, disk.nodes;
    if e.path in Subtree(disk.nodes, root) {
      return Err(CopyFailed); // the exclusive open fails
    }
    if !IsFile(disk.nodes, source) {
      StableIsAFile(codec, before, disk.nodes, disk.mine, root, home, source, e);
      return Err(CopyFailed);
    }
    var input := disk.nodes[source].bytes;
    StableBytes(codec, before, disk.nodes, disk.mine, root, home, source, e);
    ParentsAreThere(disk.nodes, root, e.path);
    var ok := FillFile(disk, root, e.path, input, mode);
    Onwards(past, trace1, disk.trace, before, nodes1, disk.nodes, root, disk.mine - {root});
    if !ok {
      return Err(CopyFailed);
    }
    if |input| != e.size || codec.hex(input) != e.sha {
      return Err(FileCorrupt);
    }
    NowCopied(codec, t, tree1, input, e, mode);
    var unsynced: bool := *;
    return if unsynced then Err(CopyFailed) else Ok(());
  }

  /** Exclusive creation, the content, and then the mode. */
  method FillFile(disk: Disk, root: Path, rel: Path, input: Bytes, mode: Mode) returns (ok: bool)
    requires disk.Valid() && root in disk.mine && rel != []
    requires IsDirectory(Subtree(disk.nodes, root), rel[..|rel| - 1]) && rel !in Subtree(disk.nodes, root)
    modifies disk`nodes, disk`trace
    ensures disk.Valid() && old(disk.trace) <= disk.trace && Confined(disk.Since(old(disk.trace)), root)
    ensures Kept(old(disk.nodes), disk.nodes, disk.mine - {root})
    ensures ok ==> Subtree(disk.nodes, root) == Subtree(old(disk.nodes), root)[rel := File(input, mode)]
  {
    hide Subtree;
    hide WellFormed;
    hide Chained;
    hide Confined;
    hide Kept;
    ghost var tree, past, before := Subtree(disk.nodes, root), disk.trace, disk.nodes;
    ok := disk.Store(root, rel, File([], OWNER_WRITE));
    if !ok {
      return;
    }
    ghost var trace2, nodes2 := disk.trace, disk.nodes;
    StillADirectory(tree, rel, File([], OWNER_WRITE));
    ok := WriteAll(disk, root, rel, input);
    Onwards(past, trace2, disk.trace, before, nodes2, disk.nodes, root, disk.mine - {root});
    if !ok {
      return;
    }
    ghost var trace3, nodes3 := disk.trace, disk.nodes;
    StillADirectory(tree, rel, File(input, OWNER_WRITE));
    ok := disk.Store(root, rel, File(input, mode));
    Onwards(past, trace3, disk.trace, before, nodes3, disk.nodes, root, disk.mine - {root});
    if ok {
      assert Subtree(disk.nodes, root) == tree[rel := File(input, mode)];
      var unsynced: bool := *;
      ok := !unsynced;
    }
  }

  lemma {:induction false} ParentsAreThere(nodes: Nodes, root: Path, rel: Path)
    requires WellFormed(nodes) && rel != [] && IsDirectory(Subtree(nodes, root), rel[..|rel| - 1])
    ensures forall q :: q < rel ==> q in Subtree(nodes, root)
    decreases |rel|
  {
    var p := rel[..|rel| - 1];
    if p != [] {
      assert (root + p)[..|root + p| - 1] == root + p[..|p| - 1];
      assert IsDirectory(nodes, root + p[..|p| - 1]);
      ParentsAreThere(nodes, root, p);
    }
    forall q | q < rel ensures q in Subtree(nodes, root) {
      if q != p { assert q < p; }
    }
  }

  lemma BlockedParent(t: Nodes, path: Path, parent: Made)
    requires path != [] && (parent.Exists? ==> exists q :: q <= path[..|path| - 1] && Occupied(t, q))
    ensures parent.Exists? ==> !Clear(t, path)
  {
  }

  /** Steps and trees, one operation later. */
  lemma Onwards(past: seq<Step>, middle: seq<Step>, last: seq<Step>, before: Nodes, mid: Nodes, after: Nodes, root: Path,
                others: set<Path>)
    requires past <= middle <= last && Confined(middle[|past|..], root) && Confined(last[|middle|..], root)
    requires Kept(before, mid, others) && Kept(mid, after, others)
    ensures past <= last && Confined(last[|past|..], root) && Kept(before, after, others)
  {
  }

  lemma StableBytes(codec: Codec, before: Nodes, nodes: Nodes, mine: set<Path>, root: Path, home: Path, source: Path, e: FileEntry)
    requires Kept(before, nodes, mine - {root}) && IsFile(nodes, source)
    ensures Stable(codec, before, mine, root, home, source, e) ==>
              |nodes[source].bytes| == e.size && codec.hex(nodes[source].bytes) == e.sha
  {
    if Stable(codec, before, mine, root, home, source, e) {
      assert home + source[|home|..] == source;
      assert Subtree(nodes, home) == Subtree(before, home);
    }
  }

  lemma StableIsAFile(codec: Codec, before: Nodes, nodes: Nodes, mine: set<Path>, root: Path, home: Path, source: Path, e: FileEntry)
    requires Kept(before, nodes, mine - {root})
    ensures Stable(codec, before, mine, root, home, source, e) ==> IsFile(nodes, source)
  {
    if Stable(codec, before, mine, root, home, source, e) {
      assert home + source[|home|..] == source;
      assert Subtree(nodes, home) == Subtree(before, home);
    }
  }

  lemma NowCopied(codec: Codec, t: Nodes, u: Nodes, input: Bytes, e: FileEntry, mode: Mode)
    requires e.path != [] && GainsDirectories(t, u, e.path[..|e.path| - 1]) && e.path !in u
    requires forall q :: q < e.path ==> q in u
    requires |input| == e.size && codec.hex(input) == e.sha
    ensures Copied(codec, t, u[e.path := File(input, mode)], e, mode)
  {
    var v := u[e.path := File(input, mode)];
    forall q | q in v && q !in t ensures q != [] && q <= e.path && (q == e.path || v[q] == Directory(OWNER_ALL)) {
      if q != e.path { assert q <= e.path[..|e.path| - 1]; }
    }
    forall q | q != [] && q <= e.path ensures q in v {
      if q != e.path { assert q < e.path; }
    }
  }
}
