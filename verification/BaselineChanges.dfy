/** Which paths changed between the baseline tree and the current tree, and which groups that affects. */
module BaselineChanges {
  import opened Prelude
  import opened TextOrder
  import opened Confirmations

  const CLASSIFICATION_PATH := "docs/verification/scope-material-inventory.json"
  const GROUP_REGISTRATION_PATH := "scripts/verification_groups.py"

  datatype File = File(group: string, kind: string, path: string, sha: string, sound: bool)

  /** What is compared of one tree. `identity` is the digest of the registrations of a path. */
  datatype View = View(files: seq<File>, paths: map<string, string>, downstream: map<string, seq<string>>,
                       digests: map<string, Option<string>>, identity: map<string, string>)

  function DigestOf(v: View, path: string): Option<string> {
    if path in v.digests then v.digests[path] else None
  }

  function IdentityOf(v: View, path: string): string {
    if path in v.identity then v.identity[path] else ""
  }

  // ----- affected groups ------------------------------------------------------------------------

  function Touched(v: View, groups: set<string>): set<string> {
    set g | g in groups && g in v.paths :: v.paths[g]
  }

  function Downstream(v: View, paths: set<string>): set<string> {
    paths + set p, i | p in paths && p in v.downstream && 0 <= i < |v.downstream[p]| :: v.downstream[p][i]
  }

  /** The groups themselves, and those whose scope is touched or downstream of one that is. */
  ghost predicate IsAffected(v: View, groups: set<string>, g: string) {
    g in groups || (g in v.paths && v.paths[g] in Downstream(v, Touched(v, groups)))
  }

  method Affected(v: View, groups: set<string>) returns (affected: set<string>)
    ensures forall g :: g in affected <==> IsAffected(v, groups, g)
  {
    var first := Touched(v, groups);
    var paths, left := first, first;
    while left != {}
      invariant left <= first
      invariant paths == first + set p, i | p in first - left && p in v.downstream && 0 <= i < |v.downstream[p]| :: v.downstream[p][i]
      decreases left
    {
      var p :| p in left;
      if p in v.downstream {
        paths := paths + set i | 0 <= i < |v.downstream[p]| :: v.downstream[p][i];
      }
      left := left - {p};
    }
    affected := groups + set g | g in v.paths && v.paths[g] in paths;
  }

  // ----- one path -------------------------------------------------------------------------------

  function Members(v: View, path: string): set<(string, string)> {
    set f | f in v.files && f.path == path :: (f.group, f.kind)
  }

  function Shas(v: View, path: string): set<string> {
    set f | f in v.files && f.path == path :: f.sha
  }

  function GroupsAt(v: View, path: string): set<string> {
    (set f | f in v.files && f.path == path :: f.group) + set g | g in v.paths && v.paths[g] == path
  }

  function GroupsOf(before: View, now: View, path: string): set<string> {
    var here := GroupsAt(before, path) + GroupsAt(now, path);
    if path in {CLASSIFICATION_PATH, GROUP_REGISTRATION_PATH} then here + now.paths.Keys + before.paths.Keys else here
  }

  function ScopePaths(v: View): set<string> { v.paths.Values }

  /** The registration of the path changed, in membership, in expected content, or in its own scope. */
  predicate RegistrationChanged(before: View, now: View, path: string) {
    && IdentityOf(before, path) != IdentityOf(now, path)
    && (path in ScopePaths(before) + ScopePaths(now) || Members(before, path) == Members(now, path)
        || Shas(before, path) != Shas(now, path))
  }

  predicate Drifted(v: View, path: string) {
    exists i :: 0 <= i < |v.files| && v.files[i].path == path && !v.files[i].sound
  }

  predicate Changed(before: View, now: View, path: string) {
    DigestOf(before, path) != DigestOf(now, path) || RegistrationChanged(before, now, path)
  }

  function CategoryOf(before: View, now: View, path: string, content: string): string {
    if IdentityOf(before, path) != IdentityOf(now, path)
       && (path in ScopePaths(before) + ScopePaths(now) || Members(before, path) != Members(now, path))
    then "registration" else content
  }

  function AllPaths(before: View, now: View): set<string> {
    (set f | f in before.files :: f.path) + (set f | f in now.files :: f.path)
    + ScopePaths(before) + ScopePaths(now) + {CLASSIFICATION_PATH}
  }

  /** The change to a path is as the trees say. `content` is the category that its content alone gives. */
  ghost predicate Describes(before: View, now: View, content: string -> string, c: Change) {
    && c.path in AllPaths(before, now)
    && (if c.origin.CurrentChange? then Changed(before, now, c.path) else Drifted(before, c.path))
    && c.category == CategoryOf(before, now, c.path, content(c.path))
    && c.sensitive == (c.category != "source_support")
    && c.oldSha == DigestOf(before, c.path) && c.newSha == DigestOf(now, c.path)
    && c.oldEntry == IdentityOf(before, c.path) && c.newEntry == IdentityOf(now, c.path)
    && Rising(c.affected)
    && (forall g :: g in c.affected <==>
          IsAffected(before, GroupsOf(before, now, c.path), g) || IsAffected(now, GroupsOf(before, now, c.path), g))
    && c.confirmed == []
  }

  function Key(c: Change): (string, Origin) { (c.path, c.origin) }

  ghost predicate OnePerOrigin(changes: seq<Change>) {
    forall i, j :: 0 <= i < j < |changes| ==> Key(changes[i]) != Key(changes[j])
  }

  /** Every drift and every change of a path below is listed. */
  ghost predicate Complete(before: View, now: View, changes: seq<Change>, paths: seq<string>, n: nat)
    requires n <= |paths|
  {
    forall k :: 0 <= k < n ==>
      && (Changed(before, now, paths[k]) ==> exists i :: 0 <= i < |changes| && Key(changes[i]) == (paths[k], CurrentChange))
      && (Drifted(before, paths[k]) ==> exists i :: 0 <= i < |changes| && Key(changes[i]) == (paths[k], BaselineDrift))
  }

  /** The change of one origin to one path. */
  method Describe(before: View, now: View, content: string -> string, path: string, origin: Origin) returns (c: Change)
    requires path in AllPaths(before, now)
    requires if origin.CurrentChange? then Changed(before, now, path) else Drifted(before, path)
    ensures Describes(before, now, content, c) && Key(c) == (path, origin)
  {
    var groups := GroupsOf(before, now, path);
    var inBefore := Affected(before, groups);
    var inNow := Affected(now, groups);
    var affected := SortKeys(inBefore + inNow);
    var category := CategoryOf(before, now, path, content(path));
    c := Change(path, origin, category != "source_support", category, DigestOf(before, path), DigestOf(now, path),
                IdentityOf(before, path), IdentityOf(now, path), affected, []);
  }

  /** The changes of one path: its drift, then its change. */
  ghost predicate AtPath(before: View, now: View, content: string -> string, path: string, found: seq<Change>) {
    && OnePerOrigin(found)
    && (forall i :: 0 <= i < |found| ==> Describes(before, now, content, found[i]) && found[i].path == path)
    && (Changed(before, now, path) ==> exists i :: 0 <= i < |found| && Key(found[i]) == (path, CurrentChange))
    && (Drifted(before, path) ==> exists i :: 0 <= i < |found| && Key(found[i]) == (path, BaselineDrift))
  }

  method ChangesAt(before: View, now: View, content: string -> string, path: string) returns (found: seq<Change>)
    requires path in AllPaths(before, now)
    ensures AtPath(before, now, content, path, found)
  {
    hide Describes;
    hide Changed;
    hide Drifted;
    found := [];
    if Drifted(before, path) {
      var c := Describe(before, now, content, path, BaselineDrift);
      found := [c];
      assert Key(found[0]) == (path, BaselineDrift);
    }
    if Changed(before, now, path) {
      var c := Describe(before, now, content, path, CurrentChange);
      ghost var n := |found|;
      found := found + [c];
      assert Key(found[n]) == (path, CurrentChange);
      if n == 1 { assert Key(found[0]) == (path, BaselineDrift); }
    }
  }

  lemma NewKeys(changes: seq<Change>, paths: seq<string>, k: nat, found: seq<Change>)
    requires Rising(paths) && k < |paths| && OnePerOrigin(changes) && OnePerOrigin(found)
    requires forall i :: 0 <= i < |changes| ==> changes[i].path in paths[..k]
    requires forall i :: 0 <= i < |found| ==> found[i].path == paths[k]
    ensures OnePerOrigin(changes + found)
  {
    forall i | 0 <= i < |changes| ensures changes[i].path != paths[k] {
      var n :| 0 <= n < k && paths[n] == changes[i].path;
      LessIsStrict(paths[n], paths[k]);
    }
  }

  lemma CompleteOn(before: View, now: View, changes: seq<Change>, later: seq<Change>, paths: seq<string>, k: nat)
    requires k < |paths| && Complete(before, now, changes, paths, k) && changes <= later
    requires Changed(before, now, paths[k]) ==> exists i :: 0 <= i < |later| && Key(later[i]) == (paths[k], CurrentChange)
    requires Drifted(before, paths[k]) ==> exists i :: 0 <= i < |later| && Key(later[i]) == (paths[k], BaselineDrift)
    ensures Complete(before, now, later, paths, k + 1)
  {
  }

  /** `_changes`: path by path in sorted order, drift before change, each at most once and none forgotten. */
  method Changes(before: View, now: View, content: string -> string) returns (changes: seq<Change>)
    ensures forall i :: 0 <= i < |changes| ==> Describes(before, now, content, changes[i])
    ensures OnePerOrigin(changes)
    ensures forall p :: p in AllPaths(before, now) ==>
              && (Changed(before, now, p) ==> exists i :: 0 <= i < |changes| && Key(changes[i]) == (p, CurrentChange))
              && (Drifted(before, p) ==> exists i :: 0 <= i < |changes| && Key(changes[i]) == (p, BaselineDrift))
    ensures DistinctChanges(changes)
  {
    hide Describes;
    hide Changed;
    hide Drifted;
    hide OnePerOrigin;
    hide Complete;
    hide DistinctChanges;
    var paths := SortKeys(AllPaths(before, now));
    changes := [];
    Starts(before, now, paths);
    for k := 0 to |paths|
      invariant forall i :: 0 <= i < |changes| ==> Describes(before, now, content, changes[i]) && changes[i].path in paths[..k]
      invariant OnePerOrigin(changes) && Complete(before, now, changes, paths, k)
    {
      assert paths[k] in paths;
      var found := ChangesAt(before, now, content, paths[k]);
      LaterFound(before, now, content, changes, paths, k, found);
      changes := changes + found;
    }
    Ends(before, now, changes, paths);
    ChangesAreDistinct(before, now, content, changes);
  }

  lemma LaterFound(before: View, now: View, content: string -> string, changes: seq<Change>, paths: seq<string>, k: nat,
                   found: seq<Change>)
    requires Rising(paths) && k < |paths| && AtPath(before, now, content, paths[k], found)
    requires forall i :: 0 <= i < |changes| ==> Describes(before, now, content, changes[i]) && changes[i].path in paths[..k]
    requires OnePerOrigin(changes) && Complete(before, now, changes, paths, k)
    ensures var later := changes + found;
            && (forall i :: 0 <= i < |later| ==> Describes(before, now, content, later[i]) && later[i].path in paths[..k + 1])
            && OnePerOrigin(later) && Complete(before, now, later, paths, k + 1)
  {
    hide Describes;
    hide Changed;
    hide Drifted;
    hide Complete;
    var later := changes + found;
    assert paths[..k + 1] == paths[..k] + [paths[k]];
    NewKeys(changes, paths, k, found);
    forall i | 0 <= i < |found| ensures later[|changes| + i] == found[i] {
    }
    CompleteOn(before, now, changes, later, paths, k);
  }

  lemma Starts(before: View, now: View, paths: seq<string>)
    ensures OnePerOrigin([]) && Complete(before, now, [], paths, 0)
  {
  }

  lemma Ends(before: View, now: View, changes: seq<Change>, paths: seq<string>)
    requires Complete(before, now, changes, paths, |paths|) && forall p :: p in paths <==> p in AllPaths(before, now)
    ensures forall p :: p in AllPaths(before, now) ==>
              && (Changed(before, now, p) ==> exists i :: 0 <= i < |changes| && Key(changes[i]) == (p, CurrentChange))
              && (Drifted(before, p) ==> exists i :: 0 <= i < |changes| && Key(changes[i]) == (p, BaselineDrift))
  {
  }

  /** What `_changes` yields is what `_confirm` relies on. */
  lemma ChangesAreDistinct(before: View, now: View, content: string -> string, changes: seq<Change>)
    requires OnePerOrigin(changes) && forall i :: 0 <= i < |changes| ==> Describes(before, now, content, changes[i])
    ensures DistinctChanges(changes)
  {
    forall i | 0 <= i < |changes| ensures DistinctGroups(changes[i].affected) {
      RisingIsDistinct(before, now, content, changes[i]);
    }
    forall i, j | 0 <= i < j < |changes| && Sensitive(changes[i]) && Sensitive(changes[j])
      ensures changes[i].path != changes[j].path
    {
      assert Key(changes[i]) != Key(changes[j]);
    }
  }

  lemma RisingIsDistinct(before: View, now: View, content: string -> string, c: Change)
    requires Describes(before, now, content, c)
    ensures DistinctGroups(c.affected)
  {
    forall i, j | 0 <= i < j < |c.affected| ensures c.affected[i] != c.affected[j] {
      LessIsStrict(c.affected[i], c.affected[j]);
    }
  }
}
