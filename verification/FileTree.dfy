/** Directory trees as maps from paths to nodes, and the steps processes take on them. */
module FileTree {
  import opened Prelude
  import BodyModel

  type Bytes = BodyModel.Bytes

  type Path = seq<string>

  /** Permission digits of owner, group and others. */
  datatype Mode = Mode(owner: nat, group: nat, other: nat) {
    predicate Private() { group == 0 && other == 0 }
  }

  const OWNER_ALL := Mode(7, 0, 0)
  const OWNER_WRITE := Mode(6, 0, 0)
  const OWNER_READ := Mode(4, 0, 0)

  datatype Node = Directory(mode: Mode) | File(bytes: Bytes, mode: Mode) | Link | Special

  type Nodes = map<Path, Node>

  predicate IsDirectory(nodes: Nodes, p: Path) {
    p in nodes && nodes[p].Directory?
  }

  predicate IsFile(nodes: Nodes, p: Path) {
    p in nodes && nodes[p].File?
  }

  /** Every entry sits in a directory. */
  ghost predicate WellFormed(nodes: Nodes) {
    forall p :: p in nodes && p != [] ==> IsDirectory(nodes, p[..|p| - 1])
  }

  predicate Same(a: Nodes, b: Nodes, p: Path) {
    if p in a then p in b && a[p] == b[p] else p !in b
  }

  /** The tree below a directory, by relative path; the directory itself is the empty path. */
  function Subtree(nodes: Nodes, root: Path): (t: Nodes)
    ensures forall r :: r in t <==> root + r in nodes
    ensures forall r :: r in t ==> t[r] == nodes[root + r]
  {
    var below := set p | p in nodes && root <= p :: p[|root|..];
    assert forall r :: root + r in nodes ==> root <= root + r && (root + r)[|root|..] == r;
    assert forall p :: p in nodes && root <= p ==> root + p[|root|..] == p;
    map r | r in below :: nodes[root + r]
  }

  /** Nothing outside of the tree at `root` differs. */
  ghost predicate Inside(a: Nodes, b: Nodes, root: Path) {
    forall p :: !(root <= p) ==> Same(a, b, p)
  }

  /** `from` with everything below it is now `to`; nothing else differs. */
  ghost predicate Moved(a: Nodes, b: Nodes, from: Path, to: Path) {
    && Subtree(b, to) == Subtree(a, from)
    && (forall p :: from <= p ==> p !in b)
    && (forall p :: !(from <= p) && !(to <= p) ==> Same(a, b, p))
  }

  predicate Apart(a: Path, b: Path) {
    !(a <= b) && !(b <= a)
  }

  lemma {:induction false} NothingBelowNothing(nodes: Nodes, p: Path, q: Path)
    requires WellFormed(nodes) && p !in nodes && p <= q
    ensures q !in nodes
    decreases |q|
  {
    if q != p {
      NothingBelowNothing(nodes, p, q[..|q| - 1]);
    }
  }

  function Relocate(nodes: Nodes, from: Path, to: Path): Nodes {
    var moved := Subtree(nodes, from);
    var kept := map p | p in nodes && !(from <= p) && !(to <= p) :: nodes[p];
    kept + Placed(moved, to)
  }

  /** A relative tree put at `to`. */
  function Placed(tree: Nodes, to: Path): Nodes {
    var there := set r | r in tree :: to + r;
    assert forall r :: to <= to + r && (to + r)[|to|..] == r;
    map p | p in there :: tree[p[|to|..]]
  }

  lemma PlacedAt(tree: Nodes, to: Path, p: Path)
    ensures p in Placed(tree, to) <==> to <= p && p[|to|..] in tree
    ensures p in Placed(tree, to) ==> Placed(tree, to)[p] == tree[p[|to|..]]
  {
    if to <= p { assert to + p[|to|..] == p; }
  }

  /** Where each path of the relocated tree comes from. */
  lemma RelocatedAt(nodes: Nodes, from: Path, to: Path, p: Path)
    requires Apart(from, to)
    ensures var after := Relocate(nodes, from, to);
            if to <= p then
              (p in after <==> from + p[|to|..] in nodes) && (p in after ==> after[p] == nodes[from + p[|to|..]])
            else if from <= p then p !in after
            else Same(nodes, after, p)
  {
    hide Placed;
    hide Subtree;
    PlacedAt(Subtree(nodes, from), to, p);
  }

  lemma RelocateMoves(nodes: Nodes, from: Path, to: Path)
    requires Apart(from, to)
    ensures Moved(nodes, Relocate(nodes, from, to), from, to)
  {
    hide Relocate;
    hide Subtree;
    var after := Relocate(nodes, from, to);
    RelocatedTree(nodes, from, to);
    forall p | from <= p ensures p !in after {
      RelocatedAt(nodes, from, to, p);
      if to <= p { BothPrefixes(from, to, p); }
    }
    forall p | !(from <= p) && !(to <= p) ensures Same(nodes, after, p) {
      RelocatedAt(nodes, from, to, p);
    }
  }

  lemma RelocatedTree(nodes: Nodes, from: Path, to: Path)
    requires Apart(from, to)
    ensures Subtree(Relocate(nodes, from, to), to) == Subtree(nodes, from)
  {
    hide Relocate;
    var a, b := Subtree(Relocate(nodes, from, to), to), Subtree(nodes, from);
    forall r ensures (r in a <==> r in b) && (r in a ==> a[r] == b[r]) {
      RelocatedAt(nodes, from, to, to + r);
      Suffix(to, r);
    }
  }

  lemma Suffix(p: Path, r: Path)
    ensures p <= p + r && (p + r)[|p|..] == r
  {
  }

  lemma BothPrefixes(a: Path, b: Path, p: Path)
    requires a <= p && b <= p
    ensures a <= b || b <= a
  {
  }

  lemma RelocateIsWellFormed(nodes: Nodes, from: Path, to: Path)
    requires WellFormed(nodes) && Apart(from, to) && from != [] && to != []
    requires IsDirectory(nodes, to[..|to| - 1]) && (to in nodes ==> forall p :: to < p ==> p !in nodes)
    requires from in nodes && !(from <= to[..|to| - 1])
    ensures WellFormed(Relocate(nodes, from, to))
  {
    hide Relocate;
    var after := Relocate(nodes, from, to);
    forall p | p in after && p != [] ensures IsDirectory(after, p[..|p| - 1]) {
      RelocatedAt(nodes, from, to, p);
      RelocatedAt(nodes, from, to, p[..|p| - 1]);
      ParentComesAlong(nodes, from, to, p);
    }
  }

  lemma ParentComesAlong(nodes: Nodes, from: Path, to: Path, p: Path)
    requires WellFormed(nodes) && Apart(from, to) && p != [] && from != [] && to != []
    requires IsDirectory(nodes, to[..|to| - 1]) && !(from <= to[..|to| - 1]) && from in nodes
    requires to in nodes ==> forall q :: to < q ==> q !in nodes
    requires if to <= p then from + p[|to|..] in nodes else p in nodes && !(from <= p)
    ensures var q := p[..|p| - 1];
            if to <= q then IsDirectory(nodes, from + q[|to|..]) else IsDirectory(nodes, q) && !(from <= q)
  {
    hide WellFormed;
    hide IsDirectory;
    if !(to <= p) {
      ParentStays(nodes, from, to, p);
    } else if p == to {
      ShorterIsNoExtension(to);
    } else {
      var r := Beyond(to, p);
      ParentMoves(nodes, from, to, r);
    }
  }

  lemma ShorterIsNoExtension(p: Path)
    requires p != []
    ensures !(p <= p[..|p| - 1])
  {
  }

  lemma Beyond(a: Path, p: Path) returns (r: Path)
    requires a <= p && a != p
    ensures r == p[|a|..] && r != [] && p == a + r
  {
    r := p[|a|..];
    assert p == a + r;
  }

  lemma ParentStays(nodes: Nodes, from: Path, to: Path, p: Path)
    requires WellFormed(nodes) && p != [] && p in nodes && !(from <= p) && !(to <= p)
    ensures var q := p[..|p| - 1]; !(to <= q) && !(from <= q) && IsDirectory(nodes, q)
  {
  }

  lemma ParentMoves(nodes: Nodes, from: Path, to: Path, r: Path)
    requires WellFormed(nodes) && r != [] && from + r in nodes
    ensures var q := (to + r)[..|to + r| - 1]; to <= q && IsDirectory(nodes, from + q[|to|..])
  {
    var up := r[..|r| - 1];
    assert (from + r)[..|from + r| - 1] == from + up && (to + r)[..|to + r| - 1] == to + up;
    assert (to + up)[|to|..] == up;
  }

  // ----- steps ----------------------------------------------------------------------------------

  /** One atomic change of the file system, by the process in question or by anybody else. */
  datatype Step = Step(own: bool, before: Nodes, after: Nodes)

  /** The steps follow each other and end in the present state. */
  ghost predicate Chained(trace: seq<Step>, now: Nodes) {
    && (trace != [] ==> trace[|trace| - 1].after == now)
    && forall i :: 0 <= i < |trace| - 1 ==> trace[i].after == trace[i + 1].before
  }

  /** Every step of one's own stays inside `root`. */
  ghost predicate Confined(steps: seq<Step>, root: Path) {
    forall i :: 0 <= i < |steps| && steps[i].own ==> Inside(steps[i].before, steps[i].after, root)
  }

  lemma ConfinedTwice(a: seq<Step>, b: seq<Step>, root: Path)
    requires Confined(a, root) && Confined(b, root)
    ensures Confined(a + b, root)
  {
  }
}
