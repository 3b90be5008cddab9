/**
 * The reference graph between registration scopes: the layered sort that finds an order or the scopes stuck
 * behind a cycle, and what it means for walks through the graph.
 */
module ScopeGraph {
  import opened Prelude

  type Path = string

  /** `nodes` in registration order; an edge leads from a scope to every scope that binds or references it. */
  datatype Graph = Graph(nodes: seq<Path>, edges: map<Path, set<Path>>) {
    ghost predicate Valid() {
      && (forall i, j :: 0 <= i < j < |nodes| ==> nodes[i] != nodes[j])
      && (forall p :: p in nodes <==> p in edges)
      && (forall p :: p in edges ==> forall q :: q in edges[p] ==> q in nodes)
    }

    predicate Edge(p: Path, q: Path) { p in edges && q in edges[p] }
  }

  // ----- walks ----------------------------------------------------------------------------------

  ghost predicate Walk(g: Graph, w: seq<Path>) {
    && w != [] && (forall i :: 0 <= i < |w| ==> w[i] in g.nodes)
    && forall i :: 0 <= i < |w| - 1 ==> g.Edge(w[i], w[i + 1])
  }

  ghost predicate WalkFrom(g: Graph, w: seq<Path>, p: Path, q: Path) {
    Walk(g, w) && w[0] == p && w[|w| - 1] == q
  }

  /** A walk of one or more edges leads from p to q. */
  ghost predicate Leads(g: Graph, p: Path, q: Path) {
    exists w :: |w| > 1 && WalkFrom(g, w, p, q)
  }

  /** A chain of `n` edges ends in p. */
  ghost predicate HasChain(g: Graph, n: nat, p: Path) {
    exists w :: |w| == n + 1 && Walk(g, w) && w[n] == p
  }

  ghost predicate Acyclic(g: Graph) {
    forall p :: !Leads(g, p, p)
  }

  /** On a cycle, or downstream of one. */
  ghost predicate Stuck(g: Graph, p: Path) {
    exists c :: Leads(g, c, c) && Leads(g, c, p)
  }

  /** The longest chain that ends in p has `n` edges. */
  ghost predicate Depth(g: Graph, n: nat, p: Path) {
    HasChain(g, n, p) && !HasChain(g, n + 1, p)
  }

  lemma Concatenate(g: Graph, v: seq<Path>, w: seq<Path>)
    requires Walk(g, v) && Walk(g, w) && v[|v| - 1] == w[0]
    ensures WalkFrom(g, v + w[1..], v[0], w[|w| - 1]) && |v + w[1..]| == |v| + |w| - 1
  {
  }

  lemma SubWalk(g: Graph, w: seq<Path>, i: nat, j: nat)
    requires Walk(g, w) && i < j <= |w|
    ensures WalkFrom(g, w[i..j], w[i], w[j - 1])
  {
  }

  lemma LeadsOn(g: Graph, p: Path, q: Path, r: Path)
    requires Leads(g, p, q) && (Leads(g, q, r) || (g.Edge(q, r) && r in g.nodes))
    ensures Leads(g, p, r)
  {
    var v :| |v| > 1 && WalkFrom(g, v, p, q);
    if Leads(g, q, r) {
      var w :| |w| > 1 && WalkFrom(g, w, q, r);
      Concatenate(g, v, w);
    } else {
      assert Walk(g, [q, r]);
      Concatenate(g, v, [q, r]);
    }
  }

  lemma EdgeLeads(g: Graph, p: Path, q: Path)
    requires g.Valid() && g.Edge(p, q)
    ensures Leads(g, p, q)
  {
    assert WalkFrom(g, [p, q], p, q);
  }

  /** A longer chain contains every shorter one. */
  lemma ShorterChain(g: Graph, n: nat, m: nat, p: Path)
    requires HasChain(g, n, p) && m <= n
    ensures HasChain(g, m, p)
  {
    var w :| |w| == n + 1 && Walk(g, w) && w[n] == p;
    SubWalk(g, w, n - m, n + 1);
  }

  lemma ChainGrows(g: Graph, n: nat, q: Path, p: Path)
    requires g.Valid() && HasChain(g, n, q) && g.Edge(q, p)
    ensures HasChain(g, n + 1, p)
  {
    var w :| |w| == n + 1 && Walk(g, w) && w[n] == q;
    assert Walk(g, [q, p]);
    Concatenate(g, w, [q, p]);
    assert (w + [q, p][1..])[n + 1] == p;
  }

  lemma ChainHasPredecessor(g: Graph, n: nat, p: Path) returns (q: Path)
    requires HasChain(g, n + 1, p)
    ensures HasChain(g, n, q) && g.Edge(q, p)
  {
    var w :| |w| == n + 2 && Walk(g, w) && w[n + 1] == p;
    SubWalk(g, w, 0, n + 1);
    q := w[n];
  }

  // ----- long chains and cycles -----------------------------------------------------------------

  /** Among more places than names, two places hold the same name. */
  lemma {:induction false} Pigeonhole(w: seq<Path>, names: set<Path>) returns (i: nat, j: nat)
    requires |w| > |names| && forall k :: 0 <= k < |w| ==> w[k] in names
    ensures i < j < |w| && w[i] == w[j]
    decreases |w|
  {
    var last, front := w[|w| - 1], w[..|w| - 1];
    if k :| 0 <= k < |front| && front[k] == last {
      i, j := k, |w| - 1;
    } else {
      i, j := Pigeonhole(front, names - {last});
    }
  }

  /** A walk from a cycle back to it, as long as one likes. */
  lemma {:induction false} Pump(g: Graph, c: Path, n: nat) returns (w: seq<Path>)
    requires Leads(g, c, c)
    ensures WalkFrom(g, w, c, c) && |w| > n
  {
    var v :| |v| > 1 && WalkFrom(g, v, c, c);
    w := v;
    while |w| <= n
      invariant WalkFrom(g, w, c, c)
      decreases n - |w|
    {
      Concatenate(g, w, v);
      w := w + v[1..];
    }
  }

  /** Behind a cycle chains of every length end. */
  lemma StuckHasChains(g: Graph, p: Path, n: nat)
    requires Stuck(g, p)
    ensures HasChain(g, n, p)
  {
    var c :| Leads(g, c, c) && Leads(g, c, p);
    var v := Pump(g, c, n);
    var u :| |u| > 1 && WalkFrom(g, u, c, p);
    Concatenate(g, v, u);
    var w := v + u[1..];
    SubWalk(g, w, |w| - n - 1, |w|);
  }

  /** A chain of as many edges as there are scopes runs through a cycle. */
  lemma LongChainIsStuck(g: Graph, p: Path, n: nat)
    requires n >= |g.nodes| && HasChain(g, n, p)
    ensures Stuck(g, p)
  {
    var w :| |w| == n + 1 && Walk(g, w) && w[n] == p;
    AtMostAsMany(g.nodes);
    var i, j := Pigeonhole(w, set q | q in g.nodes);
    SubWalk(g, w, i, j + 1);
    SubWalk(g, w, i, n + 1);
    assert Leads(g, w[i], w[i]);
    assert Leads(g, w[i], p);
  }

  lemma {:induction false} AtMostAsMany(nodes: seq<Path>)
    ensures |set q | q in nodes| <= |nodes|
  {
    if nodes != [] {
      AtMostAsMany(nodes[1..]);
      assert (set q | q in nodes) == (set q | q in nodes[1..]) + {nodes[0]};
    }
  }

  lemma AcyclicMeansNobodyIsStuck(g: Graph)
    requires g.Valid()
    ensures Acyclic(g) <==> forall p :: p in g.nodes ==> !Stuck(g, p)
  {
    if !Acyclic(g) {
      var p :| Leads(g, p, p);
      assert p in g.nodes && Stuck(g, p);
    }
  }

  // ----- the layered sort -----------------------------------------------------------------------

  ghost function Chained(g: Graph, n: nat): Path -> bool { p => HasChain(g, n, p) }

  ghost function Deep(g: Graph, n: nat): Path -> bool { p => Depth(g, n, p) }

  ghost function Cyclic(g: Graph): Path -> bool { p => Stuck(g, p) }

  ghost function Not(p: Path): Path -> bool { q => q != p }

  ghost function Everybody(): Path -> bool { p => true }

  /** Those waiting after `n` rounds. */
  ghost function Still(g: Graph, n: nat): (r: seq<Path>)
    ensures forall p :: p in r <==> p in g.nodes && HasChain(g, n, p)
  {
    Kept(g.nodes, Chained(g, n))
  }

  /** `[p for p in nodes if keep(p)]`. */
  ghost function Kept(nodes: seq<Path>, keep: Path -> bool): (r: seq<Path>)
    ensures forall p :: p in r <==> p in nodes && keep(p)
  {
    if nodes == [] then [] else
      assert nodes == [nodes[0]] + nodes[1..];
      if keep(nodes[0]) then [nodes[0]] + Kept(nodes[1..], keep) else Kept(nodes[1..], keep)
  }

  /** The scopes whose longest chain has exactly `n` edges, in registration order. */
  ghost function Layer(g: Graph, n: nat): seq<Path> {
    Kept(g.nodes, Deep(g, n))
  }

  /** The layers below `n`, shallowest first. */
  ghost function Layers(g: Graph, n: nat): seq<Path> {
    if n == 0 then [] else Layers(g, n - 1) + Layer(g, n - 1)
  }

  lemma {:induction false} KeptTwice(nodes: seq<Path>, f: Path -> bool, h: Path -> bool)
    ensures Kept(Kept(nodes, f), h) == Kept(nodes, p => f(p) && h(p))
  {
    if nodes != [] {
      KeptTwice(nodes[1..], f, h);
      if f(nodes[0]) {
        assert Kept(nodes, f) == [nodes[0]] + Kept(nodes[1..], f);
        assert Kept(nodes, f)[1..] == Kept(nodes[1..], f);
      }
    }
  }

  lemma {:induction false} KeptAgrees(nodes: seq<Path>, f: Path -> bool, h: Path -> bool)
    requires forall p :: p in nodes ==> f(p) == h(p)
    ensures Kept(nodes, f) == Kept(nodes, h)
  {
    if nodes != [] { KeptAgrees(nodes[1..], f, h); }
  }

  ghost predicate Distinct(nodes: seq<Path>) {
    forall i, j :: 0 <= i < j < |nodes| ==> nodes[i] != nodes[j]
  }

  lemma {:induction false} KeptIsDistinct(nodes: seq<Path>, f: Path -> bool)
    requires Distinct(nodes)
    ensures Distinct(Kept(nodes, f)) && |Kept(nodes, f)| <= |nodes|
  {
    if nodes != [] {
      assert forall j :: 0 <= j < |nodes[1..]| ==> nodes[1..][j] == nodes[j + 1];
      KeptIsDistinct(nodes[1..], f);
      assert nodes[0] !in nodes[1..];
    }
  }

  /** `list.remove`: the first occurrence goes. */
  function Without(nodes: seq<Path>, p: Path): seq<Path> {
    if nodes == [] then [] else if nodes[0] == p then nodes[1..] else [nodes[0]] + Without(nodes[1..], p)
  }

  lemma {:induction false} WithoutKeepsOthers(nodes: seq<Path>, p: Path)
    requires Distinct(nodes)
    ensures Without(nodes, p) == Kept(nodes, Not(p))
  {
    if nodes != [] {
      assert forall j :: 0 <= j < |nodes[1..]| ==> nodes[1..][j] == nodes[j + 1];
      if nodes[0] == p {
        KeptAgrees(nodes[1..], Not(p), Everybody());
        KeptAll(nodes[1..]);
      } else {
        WithoutKeepsOthers(nodes[1..], p);
      }
    }
  }

  lemma {:induction false} KeptAll(nodes: seq<Path>)
    ensures Kept(nodes, Everybody()) == nodes
  {
    if nodes != [] { KeptAll(nodes[1..]); }
  }

  /** Nobody still waiting precedes p. */
  predicate Ready(g: Graph, pending: seq<Path>, p: Path) {
    forall q :: q in pending ==> !g.Edge(q, p)
  }

  /** Those that wait in round `n` and are not ready wait in round `n + 1`; those that are ready have depth `n`. */
  lemma RoundMoves(g: Graph, n: nat)
    requires g.Valid()
    ensures forall p :: p in g.nodes && HasChain(g, n, p) ==> (Ready(g, Still(g, n), p) <==> Depth(g, n, p))
    ensures forall p :: p in g.nodes ==> (HasChain(g, n, p) && !Ready(g, Still(g, n), p) <==> HasChain(g, n + 1, p))
  {
    hide HasChain;
    hide Still;
    hide Ready;
    forall p | p in g.nodes
      ensures HasChain(g, n, p) && !Ready(g, Still(g, n), p) <==> HasChain(g, n + 1, p)
    {
      RoundMovesOne(g, n, p);
    }
  }

  lemma RoundMovesOne(g: Graph, n: nat, p: Path)
    requires g.Valid() && p in g.nodes
    ensures HasChain(g, n, p) && !Ready(g, Still(g, n), p) <==> HasChain(g, n + 1, p)
  {
    if HasChain(g, n + 1, p) {
      ShorterChain(g, n + 1, n, p);
      var q := ChainHasPredecessor(g, n, p);
      assert q in g.nodes && q in Still(g, n);
    }
    if !Ready(g, Still(g, n), p) {
      var q :| q in Still(g, n) && g.Edge(q, p);
      ChainGrows(g, n, q, p);
    }
  }

  /** When a round frees nobody, everybody still waiting is stuck behind a cycle. */
  lemma {:induction false} NobodyFreed(g: Graph, n: nat, m: nat, p: Path)
    requires g.Valid() && Layer(g, n) == [] && HasChain(g, n, p)
    ensures HasChain(g, n + m, p)
    decreases m
  {
    if m > 0 {
      assert p in g.nodes by { var w :| |w| == n + 1 && Walk(g, w) && w[n] == p; }
      assert p !in Layer(g, n);
      var q := ChainHasPredecessor(g, n, p);
      NobodyFreed(g, n, m - 1, q);
      ChainGrows(g, n + m - 1, q, p);
    }
  }

  lemma StuckIsWaiting(g: Graph, n: nat)
    requires g.Valid() && Layer(g, n) == []
    ensures Still(g, n) == Kept(g.nodes, Cyclic(g))
  {
    forall p | p in g.nodes ensures HasChain(g, n, p) <==> Stuck(g, p) {
      if HasChain(g, n, p) {
        NobodyFreed(g, n, |g.nodes|, p);
        LongChainIsStuck(g, p, n + |g.nodes|);
      }
      if Stuck(g, p) { StuckHasChains(g, p, n); }
    }
    KeptAgrees(g.nodes, Chained(g, n), Cyclic(g));
  }

  lemma EmptyMeansAcyclic(g: Graph, n: nat)
    requires g.Valid() && Still(g, n) == []
    ensures Acyclic(g)
  {
    AcyclicMeansNobodyIsStuck(g);
    forall p | p in g.nodes ensures !Stuck(g, p) {
      assert p !in Still(g, n);
      if Stuck(g, p) { StuckHasChains(g, p, n); }
    }
  }

  lemma EverybodyWaitsAtFirst(g: Graph)
    ensures Still(g, 0) == g.nodes
  {
    forall p | p in g.nodes ensures HasChain(g, 0, p) {
      assert Walk(g, [p]);
    }
    KeptAgrees(g.nodes, Chained(g, 0), Everybody());
    KeptAll(g.nodes);
  }

  // ----- what the order means -------------------------------------------------------------------

  ghost predicate Before(nodes: seq<Path>, p: Path, q: Path) {
    exists i, j :: 0 <= i < j < |nodes| && nodes[i] == p && nodes[j] == q
  }

  /** A shorter longest chain, or an equally long one and an earlier registration. */
  ghost predicate Earlier(g: Graph, p: Path, q: Path) {
    exists i: nat, j: nat :: Depth(g, i, p) && Depth(g, j, q) && (i < j || (i == j && Before(g.nodes, p, q)))
  }

  ghost predicate SortedByDepth(g: Graph, order: seq<Path>) {
    forall a, b :: 0 <= a < b < |order| ==> Earlier(g, order[a], order[b])
  }

  lemma {:induction false} KeptKeepsOrder(nodes: seq<Path>, f: Path -> bool, a: nat, b: nat)
    requires a < b < |Kept(nodes, f)|
    ensures Before(nodes, Kept(nodes, f)[a], Kept(nodes, f)[b])
  {
    var kept, rest := Kept(nodes, f), Kept(nodes[1..], f);
    if f(nodes[0]) {
      assert kept == [nodes[0]] + rest;
      if a == 0 {
        assert kept[b] == rest[b - 1] && rest[b - 1] in nodes[1..];
        var k :| 0 <= k < |nodes[1..]| && nodes[1..][k] == kept[b];
        assert nodes[0] == kept[a] && nodes[k + 1] == kept[b];
      } else {
        KeptKeepsOrder(nodes[1..], f, a - 1, b - 1);
        BeforeShifts(nodes, kept[a], kept[b]);
      }
    } else {
      KeptKeepsOrder(nodes[1..], f, a, b);
      BeforeShifts(nodes, kept[a], kept[b]);
    }
  }

  lemma BeforeShifts(nodes: seq<Path>, p: Path, q: Path)
    requires nodes != [] && Before(nodes[1..], p, q)
    ensures Before(nodes, p, q)
  {
  }

  lemma {:induction false} LayersHold(g: Graph, n: nat, a: nat) returns (d: nat)
    requires a < |Layers(g, n)|
    ensures d < n && Depth(g, d, Layers(g, n)[a])
  {
    hide Depth;
    var front := Layers(g, n - 1);
    if a < |front| {
      d := LayersHold(g, n - 1, a);
    } else {
      d := n - 1;
      assert Layers(g, n)[a] in Layer(g, n - 1);
    }
  }

  lemma {:induction false} LayersAreSorted(g: Graph, n: nat)
    ensures SortedByDepth(g, Layers(g, n))
  {
    if n > 0 {
      LayersAreSorted(g, n - 1);
      LayerAppends(g, n - 1);
    }
  }

  lemma LayerAppends(g: Graph, n: nat)
    requires SortedByDepth(g, Layers(g, n))
    ensures SortedByDepth(g, Layers(g, n) + Layer(g, n))
  {
    hide Earlier;
    hide Layers;
    hide Layer;
    var front, last := Layers(g, n), Layer(g, n);
    forall a, b | 0 <= a < b < |front + last| ensures Earlier(g, (front + last)[a], (front + last)[b]) {
      if b >= |front| {
        if a < |front| {
          AcrossLayers(g, n, a, b - |front|);
        } else {
          WithinLayer(g, n, a - |front|, b - |front|);
        }
      }
    }
  }

  lemma AcrossLayers(g: Graph, n: nat, a: nat, b: nat)
    requires a < |Layers(g, n)| && b < |Layer(g, n)|
    ensures Earlier(g, Layers(g, n)[a], Layer(g, n)[b])
  {
    hide Depth;
    var d := LayersHold(g, n, a);
    assert Layer(g, n)[b] in Layer(g, n);
    assert Depth(g, d, Layers(g, n)[a]) && Depth(g, n, Layer(g, n)[b]);
  }

  lemma WithinLayer(g: Graph, n: nat, a: nat, b: nat)
    requires a < b < |Layer(g, n)|
    ensures Earlier(g, Layer(g, n)[a], Layer(g, n)[b])
  {
    hide Depth;
    assert Layer(g, n)[a] in Layer(g, n) && Layer(g, n)[b] in Layer(g, n);
    KeptKeepsOrder(g.nodes, Deep(g, n), a, b);
    assert Depth(g, n, Layer(g, n)[a]) && Depth(g, n, Layer(g, n)[b]);
  }

  /** Exactly the scopes whose chains are shorter than `n` are in the first `n` layers. */
  lemma {:induction false} InLayers(g: Graph, n: nat, p: Path)
    ensures p in Layers(g, n) <==> p in g.nodes && !HasChain(g, n, p)
  {
    hide Walk;
    hide HasChain;
    if n == 0 {
      EverybodyWaitsAtFirst(g);
      assert p in g.nodes ==> p in Still(g, 0);
    } else {
      InLayers(g, n - 1, p);
      if HasChain(g, n, p) { ShorterChain(g, n, n - 1, p); }
      assert p in Layer(g, n - 1) <==> p in g.nodes && Depth(g, n - 1, p);
    }
  }

  lemma DepthIsUnique(g: Graph, i: nat, j: nat, p: Path)
    requires Depth(g, i, p) && Depth(g, j, p)
    ensures i == j
  {
    if i < j { ShorterChain(g, j, i + 1, p); }
    if j < i { ShorterChain(g, i, j + 1, p); }
  }

  lemma EarlierIsIrreflexive(g: Graph, p: Path)
    requires g.Valid()
    ensures !Earlier(g, p, p)
  {
    if i: nat, j: nat :| Depth(g, i, p) && Depth(g, j, p) && (i < j || (i == j && Before(g.nodes, p, p))) {
      DepthIsUnique(g, i, j, p);
    }
  }

  /** A sorted order lists everybody once, and every scope after the scopes it binds. */
  lemma SortedIsTopological(g: Graph, order: seq<Path>, a: nat, b: nat)
    requires g.Valid() && SortedByDepth(g, order) && a < |order| && b < |order|
    ensures order[a] == order[b] ==> a == b
    ensures a != b && g.Edge(order[a], order[b]) ==> a < b
  {
    hide Depth;
    if a < b && order[a] == order[b] { EarlierIsIrreflexive(g, order[a]); }
    if b < a {
      if order[a] == order[b] { EarlierIsIrreflexive(g, order[a]); }
      EarlierHasNoEdgeBack(g, order[b], order[a]);
    }
  }

  lemma EarlierHasNoEdgeBack(g: Graph, p: Path, q: Path)
    requires g.Valid() && Earlier(g, p, q)
    ensures !g.Edge(q, p)
  {
    hide HasChain;
    if g.Edge(q, p) {
      var i: nat, j: nat :| Depth(g, i, p) && Depth(g, j, q) && i <= j;
      ChainGrows(g, j, q, p);
      ShorterChain(g, j + 1, i + 1, p);
    }
  }
}
