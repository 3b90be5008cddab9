/**
 * The file system as one process sees it: every operation may find that others acted first, changes the tree in
 * one atomic step or fails, and is recorded. `mine` names the trees that nobody else touches: a staging directory
 * of a fresh random name, and a published batch that is being read.
 */
module BackupDisk {
  import opened Prelude
  import opened FileTree

  datatype Made = Done | Exists | Fault

  /** Our trees are as they were. */
  predicate Kept(before: Nodes, after: Nodes, roots: set<Path>) {
    forall r :: r in roots ==> Subtree(after, r) == Subtree(before, r)
  }

  /** What others may do: anything, outside of the trees that are ours. */
  predicate OthersMay(mine: set<Path>, before: Nodes, after: Nodes) {
    (forall p :: p in after && p != [] ==> IsDirectory(after, p[..|p| - 1])) && Kept(before, after, mine)
  }

  /** One of our steps made the directory q, which was absent. */
  ghost predicate AddsDirectory(s: Step, q: Path) {
    q !in s.before && s.after == s.before[q := Directory(OWNER_ALL)]
  }

  ghost predicate Adds(s: Step, p: Path) {
    exists q :: q <= p && AddsDirectory(s, q)
  }

  /** Our steps only made absent directories: p or some on the way to it. */
  ghost predicate OnlyMakes(steps: seq<Step>, p: Path) {
    forall i :: 0 <= i < |steps| && steps[i].own ==> Adds(steps[i], p)
  }

  ghost predicate EmptyDirectory(nodes: Nodes, p: Path) {
    Subtree(nodes, p) == map[[] := Directory(OWNER_ALL)]
  }

  /** None of our trees lies in another. */
  predicate WellRooted(mine: set<Path>) {
    forall a, b :: a in mine && b in mine && a != b ==> Apart(a, b)
  }

  class Disk {
    var nodes: Nodes
    var mine: set<Path>
    ghost var trace: seq<Step>

    constructor (nodes: Nodes)
      requires WellFormed(nodes)
      ensures Valid() && this.nodes == nodes && mine == {} && trace == []
    {
      this.nodes, mine, trace := nodes, {}, [];
    }

    ghost predicate Valid()
      reads this
    {
      WellFormed(nodes) && Chained(trace, nodes) && WellRooted(mine)
    }

    /** The steps recorded since the trace was `past`. */
    ghost function Since(past: seq<Step>): seq<Step>
      reads this
      requires past <= trace
    {
      trace[|past|..]
    }

    method Others()
      requires Valid()
      modifies `nodes, `trace
      ensures Valid() && trace == old(trace) + [Step(false, old(nodes), nodes)]
      ensures Kept(old(nodes), nodes, mine)
    {
      hide Chained;
      hide OthersMay;
      NothingHappens(mine, nodes);
      var next: Nodes :| OthersMay(mine, nodes, next);
      OthersKeep(mine, nodes, next);
      ChainedOn(trace, Step(false, nodes, next));
      trace := trace + [Step(false, nodes, next)];
      nodes := next;
    }

    ghost method Record(next: Nodes)
      requires Chained(trace, nodes)
      modifies `trace
      ensures trace == old(trace) + [Step(true, nodes, next)] && Chained(trace, next)
    {
      ChainedOn(trace, Step(true, nodes, next));
      trace := trace + [Step(true, nodes, next)];
    }

    /** `mkdir`: fails when the name is taken or the parent is no directory. */
    method MakeDirectory(p: Path) returns (r: Made)
      requires Valid() && p != [] && forall m :: m in mine ==> m in nodes && !(m <= p)
      modifies `nodes, `trace
      ensures Valid() && old(trace) <= trace
      ensures OnlyMakes(Since(old(trace)), p) && Kept(old(nodes), nodes, mine)
      ensures r.Done? ==> EmptyDirectory(nodes, p) && p !in mine && WellRooted(mine + {p})
    {
      hide WellFormed;
      hide Chained;
      hide OnlyMakes;
      hide EmptyDirectory;
      Others();
      ghost var first := Step(false, old(nodes), nodes);
      NoneMade([first], p);
      assert Since(old(trace)) == [first];
      if p in nodes {
        return Exists;
      }
      if !IsDirectory(nodes, p[..|p| - 1]) {
        return Fault;
      }
      if * {
        return Fault;
      }
      var next := nodes[p := Directory(OWNER_ALL)];
      DirectoryAdded(nodes, p);
      ElsewhereKept(old(nodes), nodes, mine, p);
      OneMade([first], Step(true, nodes, next), p);
      Record(next);
      assert Since(old(trace)) == [first] + [Step(true, nodes, next)];
      nodes := next;
      return Done;
    }

    /** `mkdir_private`: the directory and every missing parent, each made private; a race for one is lost gracefully. */
    method MakePrivate(p: Path) returns (r: bool)
      requires Valid() && mine == {}
      modifies `nodes, `trace
      ensures Valid() && old(trace) <= trace
      ensures OnlyMakes(Since(old(trace)), p)
      decreases |p|
    {
      hide WellFormed;
      hide Chained;
      hide OnlyMakes;
      hide EmptyDirectory;
      Others();
      ghost var first := Step(false, old(nodes), nodes);
      NoneMade([first], p);
      assert Since(old(trace)) == [first];
      if IsDirectory(nodes, p) {
        return true;
      }
      if p in nodes || p == [] {
        return false;
      }
      ghost var past := trace;
      var parent := MakePrivate(p[..|p| - 1]);
      ghost var middle := trace;
      MakesOnTheWay(Since(past), p);
      MakesMore([first], Since(past), p);
      assert Since(old(trace)) == [first] + Since(past);
      if !parent {
        return false;
      }
      var made := MakeDirectory(p);
      MakesMore(middle[|old(trace)|..], Since(middle), p);
      assert Since(old(trace)) == middle[|old(trace)|..] + Since(middle);
      var unsynced: bool := *;
      if made.Done? && unsynced {
        return false;
      }
      return made.Done? || (made.Exists? && IsDirectory(nodes, p));
    }

    /** One atomic change inside one of our trees: a new entry in a directory, or new content or a new mode of a file. */
    method Store(root: Path, rel: Path, node: Node) returns (ok: bool)
      requires Valid() && root in mine && rel != []
      requires IsDirectory(Subtree(nodes, root), rel[..|rel| - 1])
      requires rel !in Subtree(nodes, root) || (IsFile(Subtree(nodes, root), rel) && node.File?)
      modifies `nodes, `trace
      ensures Valid() && old(trace) <= trace && Confined(Since(old(trace)), root)
      ensures Kept(old(nodes), nodes, mine - {root})
      ensures Subtree(nodes, root) == if ok then Subtree(old(nodes), root)[rel := node] else Subtree(old(nodes), root)
    {
      hide WellFormed;
      hide Chained;
      hide Confined;
      hide Inside;
      hide Subtree;
      hide Kept;
      Others();
      ghost var first := Step(false, old(nodes), nodes);
      NotOurs([first], root);
      KeptTree(old(nodes), nodes, mine, root);
      assert Since(old(trace)) == [first];
      KeptFewer(old(nodes), nodes, mine, mine - {root});
      if * {
        return false;
      }
      var next := nodes[root + rel := node];
      StoredInside(nodes, root, rel, node);
      StoredElsewhere(nodes, mine, root, rel, node);
      KeptOn(old(nodes), nodes, next, mine, mine - {root});
      OneInside([first], Step(true, nodes, next), root);
      Record(next);
      assert Since(old(trace)) == [first] + [Step(true, nodes, next)];
      nodes := next;
      return true;
    }

    /** Removing one file or empty directory of one of our trees. */
    method Remove(root: Path, rel: Path) returns (ok: bool)
      requires Valid() && root in mine && rel in Subtree(nodes, root) && forall r :: r in Subtree(nodes, root) ==> !(rel < r)
      modifies `nodes, `trace
      ensures Valid() && old(trace) <= trace && Confined(Since(old(trace)), root)
      ensures Kept(old(nodes), nodes, mine - {root})
      ensures Subtree(nodes, root) == if ok then Subtree(old(nodes), root) - {rel} else Subtree(old(nodes), root)
    {
      hide WellFormed;
      hide Chained;
      hide Confined;
      hide Inside;
      hide Subtree;
      hide Kept;
      Others();
      ghost var first := Step(false, old(nodes), nodes);
      NotOurs([first], root);
      KeptTree(old(nodes), nodes, mine, root);
      assert Since(old(trace)) == [first];
      KeptFewer(old(nodes), nodes, mine, mine - {root});
      if * {
        return false;
      }
      var next := nodes - {root + rel};
      RemovedInside(nodes, mine, root, rel);
      KeptOn(old(nodes), nodes, next, mine, mine - {root});
      OneInside([first], Step(true, nodes, next), root);
      Record(next);
      assert Since(old(trace)) == [first] + [Step(true, nodes, next)];
      nodes := next;
      return true;
    }

    /** `shutil.rmtree`, as far as it gets. */
    method RemoveTree(root: Path)
      requires Valid() && root in mine
      modifies `nodes, `trace
      ensures Valid() && old(trace) <= trace && Confined(Since(old(trace)), root)
    {
      hide Subtree;
      hide Kept;
      hide WellFormed;
      hide Chained;
      NotOurs([], root);
      assert Since(old(trace)) == [];
      while Subtree(nodes, root) != map[]
        invariant Valid() && old(trace) <= trace && Confined(Since(old(trace)), root)
        decreases |Subtree(nodes, root)|
      {
        hide Confined;
        var tree := Subtree(nodes, root);
        HasLeaf(tree);
        var rel :| rel in tree && forall r :: r in tree ==> !(rel < r);
        ghost var past := trace;
        var ok := Remove(root, rel);
        ConfinedTwice(past[|old(trace)|..], Since(past), root);
        assert Since(old(trace)) == past[|old(trace)|..] + Since(past);
        if !ok {
          return;
        }
      }
    }

    /** Renaming a tree of ours to a name in the same directory. With `replace`, an empty directory may give way. */
    method Rename(from: Path, to: Path, replace: bool) returns (r: Published)
      requires Valid() && from in mine && from in nodes && Apart(from, to)
      requires from != [] && to != [] && from[..|from| - 1] == to[..|to| - 1]
      modifies `nodes, `trace, `mine
      ensures Valid() && old(trace) <= trace
      ensures r.Renamed? ==> |Since(old(trace))| == 2 && mine == old(mine) - {from}
                             && Renames(Since(old(trace))[1], from, to, replace) && !Since(old(trace))[0].own
                             && Subtree(Since(old(trace))[1].before, from) == Subtree(old(nodes), from)
      ensures !r.Renamed? ==> mine == old(mine) && |Since(old(trace))| == 1 && !Since(old(trace))[0].own && Kept(old(nodes), nodes, mine)
    {
      hide Subtree;
      hide Kept;
      hide WellFormed;
      hide Chained;
      hide Moved;
      Others();
      KeptTree(old(nodes), nodes, mine, from);
      assert Since(old(trace)) == [Step(false, old(nodes), nodes)];
      if to in nodes && (!replace || !IsDirectory(nodes, to) || exists p :: p in nodes && to < p) {
        return Taken;
      }
      if * {
        return Failed;
      }
      var next := Relocate(nodes, from, to);
      RenameIsSound(old(nodes), nodes, mine, from, to, replace);
      Record(next);
      assert Since(old(trace)) == [Step(false, old(nodes), nodes)] + [Step(true, nodes, next)];
      nodes, mine := next, mine - {from};
      return Renamed;
    }
  }

  datatype Published = Renamed | Taken | Failed

  /** One of our steps renamed the tree: the new name was free, or an empty directory when that may be replaced. */
  ghost predicate Renames(s: Step, from: Path, to: Path, replace: bool) {
    && s.own && Moved(s.before, s.after, from, to)
    && (to in s.before ==> replace && IsDirectory(s.before, to))
    && forall p :: to < p ==> p !in s.before
  }

  lemma RenameIsSound(before: Nodes, nodes: Nodes, roots: set<Path>, from: Path, to: Path, replace: bool)
    requires WellFormed(nodes) && Kept(before, nodes, roots) && from in roots && from in before && Apart(from, to)
    requires from != [] && to != [] && from[..|from| - 1] == to[..|to| - 1]
    requires to in nodes ==> replace && IsDirectory(nodes, to) && forall p :: p in nodes ==> !(to < p)
    ensures Renames(Step(true, nodes, Relocate(nodes, from, to)), from, to, replace)
    ensures WellFormed(Relocate(nodes, from, to))
  {
    hide Subtree;
    KeptTree(before, nodes, roots, from);
    RootStays(before, nodes, from);
    forall p | to < p ensures p !in nodes {
      if to !in nodes { NothingBelowNothing(nodes, to, p); }
    }
    assert IsDirectory(nodes, from[..|from| - 1]);
    RelocateMoves(nodes, from, to);
    RelocateIsWellFormed(nodes, from, to);
  }

  lemma {:induction false} HasLeaf(tree: Nodes)
    requires tree != map[]
    ensures exists rel :: rel in tree && forall r :: r in tree ==> !(rel < r)
  {
    var p :| p in tree;
    var leaf := Deepest(tree, p, tree.Keys);
  }

  lemma {:induction false} Deepest(tree: Nodes, p: Path, left: set<Path>) returns (leaf: Path)
    requires p in tree && left <= tree.Keys && forall r :: r in tree && r !in left ==> !(p < r)
    ensures leaf in tree && forall r :: r in tree ==> !(leaf < r)
    decreases left
  {
    if r :| r in left && p < r {
      forall q | q in tree && q !in left - {r} ensures !(r < q) {
        Proper(p, r, q);
      }
      leaf := Deepest(tree, r, left - {r});
    } else {
      leaf := p;
    }
  }

  lemma Proper(p: Path, r: Path, q: Path)
    ensures p < r && r < q ==> p < q
  {
  }

  lemma KeptFewer(before: Nodes, after: Nodes, all: set<Path>, roots: set<Path>)
    requires Kept(before, after, all) && roots <= all
    ensures Kept(before, after, roots)
  {
  }

  lemma RemovedIsWellFormed(nodes: Nodes, root: Path, rel: Path)
    requires WellFormed(nodes) && rel in Subtree(nodes, root) && forall r :: r in Subtree(nodes, root) ==> !(rel < r)
    ensures WellFormed(nodes - {root + rel})
  {
    hide Subtree;
    var next := nodes - {root + rel};
    forall p | p in next && p != [] ensures IsDirectory(next, p[..|p| - 1]) {
      NotBelowLeaf(nodes, root, rel, p);
      assert IsDirectory(nodes, p[..|p| - 1]);
    }
  }

  lemma NotBelowLeaf(nodes: Nodes, root: Path, rel: Path, p: Path)
    requires p in nodes && p != []
    ensures p[..|p| - 1] == root + rel ==> exists r :: r in Subtree(nodes, root) && rel < r
  {
    if p[..|p| - 1] == root + rel {
      var r := rel + [p[|p| - 1]];
      assert p == root + r;
      assert r in Subtree(nodes, root) && rel < r;
    }
  }

  lemma RemovedInside(nodes: Nodes, roots: set<Path>, root: Path, rel: Path)
    requires WellFormed(nodes) && WellRooted(roots) && root in roots
    requires rel in Subtree(nodes, root) && forall r :: r in Subtree(nodes, root) ==> !(rel < r)
    ensures var next := nodes - {root + rel};
            && WellFormed(next) && Subtree(next, root) == Subtree(nodes, root) - {rel} && Inside(nodes, next, root)
            && Kept(nodes, next, roots - {root})
  {
    var next := nodes - {root + rel};
    hide Subtree;
    hide WellFormed;
    RemovedIsWellFormed(nodes, root, rel);
    Suffix(root, rel);
    RemovedTree(nodes, root, rel);
    forall r | r in roots - {root} ensures Subtree(next, r) == Subtree(nodes, r) {
      assert Apart(r, root);
      ApartFromBelow(r, root, rel);
      RemovedElsewhere(nodes, root + rel, r);
    }
  }

  lemma RemovedTree(nodes: Nodes, root: Path, rel: Path)
    ensures Subtree(nodes - {root + rel}, root) == Subtree(nodes, root) - {rel}
  {
    var a, b := Subtree(nodes - {root + rel}, root), Subtree(nodes, root) - {rel};
    forall r ensures (r in a <==> r in b) && (r in a ==> a[r] == b[r]) {
      Suffix(root, r);
      Suffix(root, rel);
    }
  }

  lemma RemovedElsewhere(nodes: Nodes, p: Path, r: Path)
    requires !(r <= p)
    ensures Subtree(nodes - {p}, r) == Subtree(nodes, r)
  {
    var a, b := Subtree(nodes - {p}, r), Subtree(nodes, r);
    forall q ensures (q in a <==> q in b) && (q in a ==> a[q] == b[q]) {
      Suffix(r, q);
    }
  }

  lemma KeptTree(before: Nodes, after: Nodes, roots: set<Path>, root: Path)
    requires Kept(before, after, roots) && root in roots
    ensures Subtree(after, root) == Subtree(before, root) && (root in after <==> root in before)
  {
    RootStays(before, after, root);
  }

  lemma KeptOn(before: Nodes, mid: Nodes, after: Nodes, all: set<Path>, roots: set<Path>)
    requires Kept(before, mid, all) && Kept(mid, after, roots) && roots <= all
    ensures Kept(before, after, roots)
  {
  }

  // ----- what the operations rely on --------------------------------------------------------------

  lemma NothingHappens(mine: set<Path>, nodes: Nodes)
    requires WellFormed(nodes)
    ensures OthersMay(mine, nodes, nodes)
  {
  }

  lemma OthersKeep(mine: set<Path>, before: Nodes, after: Nodes)
    requires OthersMay(mine, before, after)
    ensures WellFormed(after) && Kept(before, after, mine)
  {
  }

  lemma ChainedOn(trace: seq<Step>, s: Step)
    requires Chained(trace, s.before)
    ensures Chained(trace + [s], s.after)
  {
  }

  lemma NoneMade(steps: seq<Step>, p: Path)
    requires forall i :: 0 <= i < |steps| ==> !steps[i].own
    ensures OnlyMakes(steps, p)
  {
  }

  lemma OneMade(steps: seq<Step>, s: Step, p: Path)
    requires OnlyMakes(steps, p) && AddsDirectory(s, p)
    ensures OnlyMakes(steps + [s], p)
  {
    assert Adds(s, p);
  }

  lemma MakesMore(a: seq<Step>, b: seq<Step>, p: Path)
    requires OnlyMakes(a, p) && OnlyMakes(b, p)
    ensures OnlyMakes(a + b, p)
  {
  }

  lemma MakesOnTheWay(steps: seq<Step>, p: Path)
    requires p != [] && OnlyMakes(steps, p[..|p| - 1])
    ensures OnlyMakes(steps, p)
  {
    forall i | 0 <= i < |steps| && steps[i].own ensures Adds(steps[i], p) {
      assert Adds(steps[i], p[..|p| - 1]);
      var q :| q <= p[..|p| - 1] && AddsDirectory(steps[i], q);
      assert q <= p;
    }
  }

  lemma SubtreeOfNew(nodes: Nodes, p: Path, node: Node)
    requires forall q :: p < q ==> q !in nodes
    ensures Subtree(nodes[p := node], p) == map[[] := node]
  {
    var t := Subtree(nodes[p := node], p);
    forall r ensures r in t <==> r == [] {
      Suffix(p, r);
      if r != [] { assert p < p + r; } else { assert p + r == p; }
    }
    assert p + [] == p;
  }

  lemma DirectoryAdded(nodes: Nodes, p: Path)
    requires WellFormed(nodes) && p !in nodes && p != [] && IsDirectory(nodes, p[..|p| - 1])
    ensures WellFormed(nodes[p := Directory(OWNER_ALL)]) && EmptyDirectory(nodes[p := Directory(OWNER_ALL)], p)
  {
    forall q | p < q ensures q !in nodes { NothingBelowNothing(nodes, p, q); }
    SubtreeOfNew(nodes, p, Directory(OWNER_ALL));
  }

  lemma RootStays(before: Nodes, after: Nodes, r: Path)
    requires Subtree(after, r) == Subtree(before, r)
    ensures r in after <==> r in before
  {
    assert r + [] == r;
    assert [] in Subtree(after, r) <==> [] in Subtree(before, r);
  }

  lemma SubtreeElsewhere(nodes: Nodes, p: Path, node: Node, r: Path)
    requires !(r <= p)
    ensures Subtree(nodes[p := node], r) == Subtree(nodes, r)
  {
    var a, b := Subtree(nodes[p := node], r), Subtree(nodes, r);
    forall q ensures (q in a <==> q in b) && (q in a ==> a[q] == b[q]) {
      Suffix(r, q);
    }
  }

  lemma ElsewhereKept(before: Nodes, mid: Nodes, roots: set<Path>, p: Path)
    requires WellFormed(mid) && Kept(before, mid, roots) && WellRooted(roots) && p !in mid
    requires forall r :: r in roots ==> r in before && !(r <= p)
    ensures Kept(before, mid[p := Directory(OWNER_ALL)], roots) && WellRooted(roots + {p}) && p !in roots
  {
    forall r | r in roots ensures Subtree(mid[p := Directory(OWNER_ALL)], r) == Subtree(before, r) && Apart(p, r) {
      SubtreeElsewhere(mid, p, Directory(OWNER_ALL), r);
      RootStays(before, mid, r);
      if p <= r { NothingBelowNothing(mid, p, r); }
    }
  }

  lemma StoredInside(nodes: Nodes, root: Path, rel: Path, node: Node)
    requires WellFormed(nodes) && rel != [] && IsDirectory(Subtree(nodes, root), rel[..|rel| - 1])
    requires rel !in Subtree(nodes, root) || (IsFile(Subtree(nodes, root), rel) && node.File?)
    ensures var next := nodes[root + rel := node];
            WellFormed(next) && Subtree(next, root) == Subtree(nodes, root)[rel := node] && Inside(nodes, next, root)
  {
    hide Subtree;
    hide WellFormed;
    StoredIsWellFormed(nodes, root, rel, node);
    StoredTree(nodes, root, rel, node);
    Suffix(root, rel);
  }

  lemma StoredIsWellFormed(nodes: Nodes, root: Path, rel: Path, node: Node)
    requires WellFormed(nodes) && rel != [] && IsDirectory(Subtree(nodes, root), rel[..|rel| - 1])
    requires rel !in Subtree(nodes, root) || (IsFile(Subtree(nodes, root), rel) && node.File?)
    ensures WellFormed(nodes[root + rel := node])
  {
    hide Subtree;
    var next, up := nodes[root + rel := node], rel[..|rel| - 1];
    ParentPath(root, rel);
    assert IsDirectory(nodes, root + up);
    forall p | p in next && p != [] ensures IsDirectory(next, p[..|p| - 1]) {
      if p != root + rel { assert IsDirectory(nodes, p[..|p| - 1]); }
    }
  }

  lemma ParentPath(root: Path, rel: Path)
    requires rel != []
    ensures (root + rel)[..|root + rel| - 1] == root + rel[..|rel| - 1]
  {
  }

  lemma StoredTree(nodes: Nodes, root: Path, rel: Path, node: Node)
    ensures Subtree(nodes[root + rel := node], root) == Subtree(nodes, root)[rel := node]
  {
    var a, b := Subtree(nodes[root + rel := node], root), Subtree(nodes, root)[rel := node];
    forall r ensures (r in a <==> r in b) && (r in a ==> a[r] == b[r]) {
      Suffix(root, r);
      Suffix(root, rel);
    }
  }

  lemma StoredElsewhere(nodes: Nodes, roots: set<Path>, root: Path, rel: Path, node: Node)
    requires WellRooted(roots) && root in roots
    ensures Kept(nodes, nodes[root + rel := node], roots - {root})
  {
    hide Subtree;
    forall r | r in roots - {root} ensures Subtree(nodes[root + rel := node], r) == Subtree(nodes, r) {
      assert Apart(r, root);
      ApartFromBelow(r, root, rel);
      SubtreeElsewhere(nodes, root + rel, node, r);
    }
  }

  lemma ApartFromBelow(r: Path, root: Path, rel: Path)
    requires Apart(r, root)
    ensures !(r <= root + rel)
  {
    Suffix(root, rel);
    if r <= root + rel { BothPrefixes(r, root, root + rel); }
  }

  lemma NotOurs(steps: seq<Step>, root: Path)
    requires forall i :: 0 <= i < |steps| ==> !steps[i].own
    ensures Confined(steps, root)
  {
  }

  lemma OneInside(steps: seq<Step>, s: Step, root: Path)
    requires Confined(steps, root) && Inside(s.before, s.after, root)
    ensures Confined(steps + [s], root)
  {
  }
}
