/** The graph part of a scope audit: order, cycles, what is downstream, and which groups a change affects. */
module ScopeAudit {
  import opened Prelude
  import opened ScopeGraph

  // ----- the layered sort -----------------------------------------------------------------------

  ghost function Free(g: Graph, pending: seq<Path>): Path -> bool { p => Ready(g, pending, p) }

  ghost function NotAmong(ready: seq<Path>): Path -> bool { p => p !in ready }

  lemma {:induction false} KeptAppend(nodes: seq<Path>, p: Path, f: Path -> bool)
    ensures Kept(nodes + [p], f) == Kept(nodes, f) + if f(p) then [p] else []
  {
    if nodes == [] {
      assert nodes + [p] == [p] && [p][1..] == [];
    } else {
      assert (nodes + [p])[1..] == nodes[1..] + [p];
      KeptAppend(nodes[1..], p, f);
    }
  }

  /** `[p for p in pending if not any(p in edges[q] for q in pending)]`. */
  method FindReady(g: Graph, pending: seq<Path>) returns (ready: seq<Path>)
    ensures ready == Kept(pending, Free(g, pending))
  {
    ready := [];
    for i := 0 to |pending|
      invariant ready == Kept(pending[..i], Free(g, pending))
    {
      assert pending[..i + 1] == pending[..i] + [pending[i]];
      KeptAppend(pending[..i], pending[i], Free(g, pending));
      var blocked := false;
      for j := 0 to |pending|
        invariant blocked <==> exists k :: 0 <= k < j && g.Edge(pending[k], pending[i])
      {
        blocked := blocked || g.Edge(pending[j], pending[i]);
      }
      if !blocked {
        ready := ready + [pending[i]];
      }
    }
    assert pending[..|pending|] == pending;
  }

  /** Moving the ready ones from the pending list to the order. */
  method MoveReady(pending: seq<Path>, ready: seq<Path>, order: seq<Path>) returns (left: seq<Path>, longer: seq<Path>)
    requires Distinct(pending)
    ensures left == Kept(pending, NotAmong(ready)) && longer == order + ready
  {
    left, longer := pending, order;
    KeptAll(pending);
    KeptAgrees(pending, Everybody(), NotAmong([]));
    for i := 0 to |ready|
      invariant left == Kept(pending, NotAmong(ready[..i])) && longer == order + ready[..i]
    {
      OneMoved(pending, ready, i);
      left, longer := Without(left, ready[i]), longer + [ready[i]];
    }
    assert ready[..|ready|] == ready;
  }

  lemma OneMoved(pending: seq<Path>, ready: seq<Path>, i: nat)
    requires Distinct(pending) && i < |ready|
    ensures Without(Kept(pending, NotAmong(ready[..i])), ready[i]) == Kept(pending, NotAmong(ready[..i + 1]))
    ensures ready[..i + 1] == ready[..i] + [ready[i]]
  {
    var p := ready[i];
    KeptIsDistinct(pending, NotAmong(ready[..i]));
    WithoutKeepsOthers(Kept(pending, NotAmong(ready[..i])), p);
    KeptTwice(pending, NotAmong(ready[..i]), Not(p));
    assert ready[..i + 1] == ready[..i] + [p];
    KeptAgrees(pending, q => NotAmong(ready[..i])(q) && Not(p)(q), NotAmong(ready[..i + 1]));
  }

  lemma RoundIsALayer(g: Graph, n: nat, ready: seq<Path>)
    requires g.Valid() && ready == Kept(Still(g, n), Free(g, Still(g, n)))
    ensures ready == Layer(g, n) && Kept(Still(g, n), NotAmong(ready)) == Still(g, n + 1)
  {
    RoundMoves(g, n);
    ReadyIsLayer(g, n);
    RestIsStill(g, n, ready);
  }

  lemma ReadyIsLayer(g: Graph, n: nat)
    requires forall p :: p in g.nodes && HasChain(g, n, p) ==> (Ready(g, Still(g, n), p) <==> Depth(g, n, p))
    ensures Kept(Still(g, n), Free(g, Still(g, n))) == Layer(g, n)
  {
    hide HasChain;
    var pending := Still(g, n);
    KeptTwice(g.nodes, Chained(g, n), Free(g, pending));
    KeptAgrees(g.nodes, p => Chained(g, n)(p) && Free(g, pending)(p), Deep(g, n));
  }

  lemma RestIsStill(g: Graph, n: nat, ready: seq<Path>)
    requires forall p :: p in g.nodes ==> (HasChain(g, n, p) && !Ready(g, Still(g, n), p) <==> HasChain(g, n + 1, p))
    requires ready == Kept(Still(g, n), Free(g, Still(g, n)))
    ensures Kept(Still(g, n), NotAmong(ready)) == Still(g, n + 1)
  {
    hide HasChain;
    KeptTwice(g.nodes, Chained(g, n), NotAmong(ready));
    KeptAgrees(g.nodes, p => Chained(g, n)(p) && NotAmong(ready)(p), Chained(g, n + 1));
  }

  lemma FewerWait(g: Graph, n: nat, ready: seq<Path>)
    requires Distinct(g.nodes) && ready != [] && ready == Kept(Still(g, n), Free(g, Still(g, n)))
    ensures |Kept(Still(g, n), NotAmong(ready))| < |Still(g, n)|
  {
    assert ready[0] in ready;
    LosesOne(Still(g, n), NotAmong(ready), ready[0]);
  }

  lemma {:induction false} LosesOne(nodes: seq<Path>, f: Path -> bool, p: Path)
    requires p in nodes && !f(p)
    ensures |Kept(nodes, f)| < |nodes|
  {
    if nodes[0] == p {
      KeptIsShorter(nodes[1..], f);
    } else {
      LosesOne(nodes[1..], f, p);
    }
  }

  lemma {:induction false} KeptIsShorter(nodes: seq<Path>, f: Path -> bool)
    ensures |Kept(nodes, f)| <= |nodes|
  {
    if nodes != [] { KeptIsShorter(nodes[1..], f); }
  }

  /**
   * Kahn's algorithm in layers. An acyclic graph gets a full order, sorted by longest upstream chain with ties in
   * registration order; otherwise the order is empty and exactly the scopes on or downstream of a cycle are reported.
   */
  method LayeredSort(g: Graph) returns (order: seq<Path>, cyclic: seq<Path>)
    requires g.Valid()
    ensures cyclic == Kept(g.nodes, Cyclic(g))
    ensures cyclic == [] <==> Acyclic(g)
    ensures Acyclic(g) ==> SortedByDepth(g, order) && forall p :: p in order <==> p in g.nodes
    ensures !Acyclic(g) ==> order == []
  {
    var pending := g.nodes;
    order := [];
    ghost var n := 0;
    EverybodyWaitsAtFirst(g);
    while pending != []
      invariant pending == Still(g, n) && order == Layers(g, n)
      decreases |pending|
    {
      KeptIsDistinct(g.nodes, Chained(g, n));
      var ready := FindReady(g, pending);
      RoundIsALayer(g, n, ready);
      if ready == [] {
        StuckIsWaiting(g, n);
        SomebodyIsStuck(g, pending);
        return [], pending;
      }
      FewerWait(g, n, ready);
      pending, order := MoveReady(pending, ready, order);
      n := n + 1;
    }
    EmptyMeansAcyclic(g, n);
    NobodyIsStuck(g);
    LayersAreSorted(g, n);
    EverybodyIsInLayers(g, n);
    cyclic := [];
  }

  lemma SomebodyIsStuck(g: Graph, pending: seq<Path>)
    requires g.Valid() && pending != [] && pending == Kept(g.nodes, Cyclic(g))
    ensures !Acyclic(g)
  {
    AcyclicMeansNobodyIsStuck(g);
    assert pending[0] in pending;
  }

  lemma NobodyIsStuck(g: Graph)
    requires g.Valid() && Acyclic(g)
    ensures Kept(g.nodes, Cyclic(g)) == []
  {
    AcyclicMeansNobodyIsStuck(g);
    KeptNothing(g.nodes, Cyclic(g));
  }

  lemma {:induction false} KeptNothing(nodes: seq<Path>, f: Path -> bool)
    requires forall p :: p in nodes ==> !f(p)
    ensures Kept(nodes, f) == []
  {
    if nodes != [] { KeptNothing(nodes[1..], f); }
  }

  lemma EverybodyIsInLayers(g: Graph, n: nat)
    requires Still(g, n) == []
    ensures forall p :: p in Layers(g, n) <==> p in g.nodes
  {
    hide HasChain;
    forall p ensures p in Layers(g, n) <==> p in g.nodes {
      InLayers(g, n, p);
      assert p !in Still(g, n);
    }
  }

  // ----- what is downstream ---------------------------------------------------------------------

  /** A list of a set's members, in an order of the runtime's choice. */
  method ListOf(paths: set<Path>) returns (list: seq<Path>)
    ensures forall p :: p in list <==> p in paths
  {
    list := [];
    var left := paths;
    while left != {}
      invariant left <= paths && forall p :: p in list <==> p in paths - left
      decreases left
    {
      var p :| p in left;
      list, left := list + [p], left - {p};
    }
  }

  /** What was reached or is still to be visited is downstream; successors of what was reached are one or the other. */
  ghost predicate Exploring(g: Graph, path: Path, reached: set<Path>, frontier: seq<Path>) {
    && (forall q :: q in reached || q in frontier ==> Leads(g, path, q) && q in g.nodes)
    && (forall q :: g.Edge(path, q) ==> q in reached || q in frontier)
    && (forall p, q :: p in reached && g.Edge(p, q) ==> q in reached || q in frontier)
  }

  lemma VisitsAgain(g: Graph, path: Path, reached: set<Path>, frontier: seq<Path>)
    requires frontier != [] && Exploring(g, path, reached, frontier) && frontier[|frontier| - 1] in reached
    ensures Exploring(g, path, reached, frontier[..|frontier| - 1])
  {
  }

  lemma VisitsNew(g: Graph, path: Path, reached: set<Path>, frontier: seq<Path>, more: seq<Path>)
    requires g.Valid() && frontier != [] && Exploring(g, path, reached, frontier)
    requires var target := frontier[|frontier| - 1]; forall q :: q in more <==> g.Edge(target, q)
    ensures Exploring(g, path, reached + {frontier[|frontier| - 1]}, frontier[..|frontier| - 1] + more)
  {
    hide Leads;
    var target := frontier[|frontier| - 1];
    assert frontier == frontier[..|frontier| - 1] + [target];
    forall q | g.Edge(target, q) ensures Leads(g, path, q) && q in g.nodes { LeadsOn(g, path, target, q); }
  }

  lemma StartsExploring(g: Graph, path: Path, frontier: seq<Path>)
    requires g.Valid() && forall q :: q in frontier <==> g.Edge(path, q)
    ensures Exploring(g, path, {}, frontier)
  {
    hide Leads;
    forall q | q in frontier ensures Leads(g, path, q) { EdgeLeads(g, path, q); }
  }

  /** The worklist: exactly the scopes that one or more edges lead to. */
  method Reach(g: Graph, path: Path) returns (reached: set<Path>)
    requires g.Valid() && path in g.edges
    ensures forall q :: q in reached <==> Leads(g, path, q)
  {
    hide Leads;
    reached := {};
    var frontier := ListOf(g.edges[path]);
    StartsExploring(g, path, frontier);
    ghost var all := set p | p in g.nodes;
    while frontier != []
      invariant Exploring(g, path, reached, frontier)
      decreases |all - reached|, |frontier|
    {
      hide Exploring;
      var target := frontier[|frontier| - 1];
      if target in reached {
        VisitsAgain(g, path, reached, frontier);
        frontier := frontier[..|frontier| - 1];
      } else {
        IsANode(g, path, reached, frontier);
        var more := ListOf(g.edges[target]);
        VisitsNew(g, path, reached, frontier, more);
        assert all - reached == (all - (reached + {target})) + {target};
        reached, frontier := reached + {target}, frontier[..|frontier| - 1] + more;
      }
    }
    ReachesAll(g, path, reached);
  }

  lemma IsANode(g: Graph, path: Path, reached: set<Path>, frontier: seq<Path>)
    requires g.Valid() && frontier != [] && Exploring(g, path, reached, frontier)
    ensures frontier[|frontier| - 1] in g.nodes && frontier[|frontier| - 1] in g.edges
  {
  }

  lemma ReachesAll(g: Graph, path: Path, reached: set<Path>)
    requires forall q :: g.Edge(path, q) ==> q in reached
    requires forall p, q :: p in reached && g.Edge(p, q) ==> q in reached
    ensures forall q :: Leads(g, path, q) ==> q in reached
  {
    forall q | Leads(g, path, q) ensures q in reached {
      var w :| |w| > 1 && WalkFrom(g, w, path, q);
      ClosedHoldsWalk(g, path, reached, w);
    }
  }

  lemma {:induction false} ClosedHoldsWalk(g: Graph, path: Path, reached: set<Path>, w: seq<Path>)
    requires |w| > 1 && Walk(g, w) && w[0] == path
    requires forall q :: g.Edge(path, q) ==> q in reached
    requires forall p, q :: p in reached && g.Edge(p, q) ==> q in reached
    ensures w[|w| - 1] in reached
    decreases |w|
  {
    assert g.Edge(w[|w| - 2], w[|w| - 1]);
    if |w| > 2 {
      SubWalk(g, w, 0, |w| - 1);
      ClosedHoldsWalk(g, path, reached, w[..|w| - 1]);
    }
  }

  /** `[p for p in order if p in reached]`. */
  method InOrder(order: seq<Path>, reached: set<Path>) returns (list: seq<Path>)
    ensures list == Kept(order, Among(reached))
  {
    list := [];
    for i := 0 to |order|
      invariant list == Kept(order[..i], Among(reached))
    {
      assert order[..i + 1] == order[..i] + [order[i]];
      KeptAppend(order[..i], order[i], Among(reached));
      if order[i] in reached {
        list := list + [order[i]];
      }
    }
    assert order[..|order|] == order;
  }

  ghost function Among(paths: set<Path>): Path -> bool { p => p in paths }

  ghost function Ahead(g: Graph, p: Path): Path -> bool { q => Leads(g, p, q) }

  /** For every scope, in the order given, the scopes that one or more edges lead to. */
  ghost predicate DownstreamOf(g: Graph, order: seq<Path>, downstream: map<Path, seq<Path>>) {
    downstream.Keys == g.edges.Keys && forall p :: p in downstream ==> downstream[p] == Kept(order, Ahead(g, p))
  }

  method Downstream(g: Graph, order: seq<Path>) returns (downstream: map<Path, seq<Path>>)
    requires g.Valid()
    ensures DownstreamOf(g, order, downstream)
  {
    hide Leads;
    downstream := map[];
    for i := 0 to |g.nodes|
      invariant forall p :: p in downstream <==> p in g.nodes[..i]
      invariant forall p :: p in downstream ==> downstream[p] == Kept(order, Ahead(g, p))
    {
      var path := g.nodes[i];
      var reached := Reach(g, path);
      var list := InOrder(order, reached);
      KeptAgrees(order, Among(reached), Ahead(g, path));
      downstream := downstream[path := list];
    }
    assert forall p :: p in downstream <==> p in g.nodes;
  }

  // ----- affected groups ------------------------------------------------------------------------

  datatype Scope = Scope(group: string, path: Path)

  /** The groups of the scopes at one path, among those affected. */
  function GroupsAt(path: Path, scopes: seq<Scope>, affected: set<Path>): seq<string> {
    if scopes == [] then [] else
      var rest := GroupsAt(path, scopes[..|scopes| - 1], affected);
      var s := scopes[|scopes| - 1];
      if s.path == path && s.path in affected then rest + [s.group] else rest
  }

  function Listed(paths: seq<Path>, scopes: seq<Scope>, affected: set<Path>): seq<string> {
    if paths == [] then [] else
      Listed(paths[..|paths| - 1], scopes, affected) + GroupsAt(paths[|paths| - 1], scopes, affected)
  }

  function PathsOf(scopes: seq<Scope>): (r: seq<Path>)
    ensures |r| == |scopes| && forall i :: 0 <= i < |r| ==> r[i] == scopes[i].path
  {
    seq(|scopes|, i requires 0 <= i < |scopes| => scopes[i].path)
  }

  function Direct(scopes: seq<Scope>, groups: set<string>): set<Path> {
    set s | s in scopes && s.group in groups :: s.path
  }

  function Spread(direct: set<Path>, downstream: map<Path, seq<Path>>): set<Path>
    requires direct <= downstream.Keys
  {
    direct + set p, q | p in direct && q in downstream[p] :: q
  }

  method AffectedGroups(scopes: seq<Scope>, order: seq<Path>, downstream: map<Path, seq<Path>>, direct: set<string>)
    returns (groups: seq<string>)
    requires forall s :: s in scopes ==> s.path in downstream
    ensures groups == Listed(if order != [] then order else PathsOf(scopes), scopes,
                             Spread(Direct(scopes, direct), downstream))
  {
    var affected: set<Path> := {};
    for i := 0 to |scopes|
      invariant affected == Direct(scopes[..i], direct)
    {
      assert scopes[..i + 1] == scopes[..i] + [scopes[i]];
      if scopes[i].group in direct {
        affected := affected + {scopes[i].path};
      }
    }
    assert scopes[..|scopes|] == scopes;
    var first := affected;
    var left := first;
    while left != {}
      invariant left <= first && first <= downstream.Keys
      invariant affected == first + set p, q | p in first - left && q in downstream[p] :: q
      decreases left
    {
      var path :| path in left;
      affected := affected + set q | q in downstream[path];
      left := left - {path};
    }
    assert affected == Spread(first, downstream);
    var paths := if order != [] then order else PathsOf(scopes);
    groups := [];
    for i := 0 to |paths|
      invariant groups == Listed(paths[..i], scopes, affected)
    {
      assert paths[..i + 1][..i] == paths[..i];
      var here: seq<string> := [];
      for j := 0 to |scopes|
        invariant here == GroupsAt(paths[i], scopes[..j], affected)
      {
        assert scopes[..j + 1][..j] == scopes[..j];
        if scopes[j].path == paths[i] && scopes[j].path in affected {
          here := here + [scopes[j].group];
        }
      }
      assert scopes[..|scopes|] == scopes;
      groups := groups + here;
    }
    assert paths[..|paths|] == paths;
  }
}
