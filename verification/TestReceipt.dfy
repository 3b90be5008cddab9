/** The pytest receipt: counters per module, filled hook by hook, and what the records made of them mean. */
module TestReceipt {
  import opened Prelude

  datatype Counters = Counters(collected: nat, deselected: nat, passed: nat, failed: nat, skipped: nat, incomplete: nat)

  const ZERO := Counters(0, 0, 0, 0, 0, 0)

  datatype Outcome = Passed | Failed | Skipped | Incomplete

  /** A phase report of one test: `phase` and `result` are what pytest says. */
  datatype Report = Report(node: string, phase: string, result: string)

  type Phases = map<string, string>

  /** `nodeid.split("::", 1)[0]`. */
  function ModuleOf(node: string): string {
    if |node| < 2 then node
    else if node[..2] == "::" then ""
    else [node[0]] + ModuleOf(node[1..])
  }

  function OutcomeOf(phases: Phases): Outcome {
    if "failed" in phases.Values then Failed
    else if "skipped" in phases.Values then Skipped
    else if phases == map["setup" := "passed", "call" := "passed", "teardown" := "passed"] then Passed
    else Incomplete
  }

  // ----- what a run amounts to ------------------------------------------------------------------

  function CountIn(items: seq<string>, name: string): nat {
    if items == [] then 0 else
      CountIn(items[..|items| - 1], name) + if ModuleOf(items[|items| - 1]) == name then 1 else 0
  }

  /** The final phase map of a node: the last result of every phase reported for it. */
  function PhasesOf(reports: seq<Report>, node: string): Phases {
    if reports == [] then map[] else
      var rest, last := PhasesOf(reports[..|reports| - 1], node), reports[|reports| - 1];
      if last.node == node then rest[last.phase := last.result] else rest
  }

  /** The nodes of a module that were collected, each once. */
  function NodesIn(items: seq<string>, name: string): set<string> {
    set i | 0 <= i < |items| && ModuleOf(items[i]) == name :: items[i]
  }

  function With(nodes: set<string>, reports: seq<Report>, o: Outcome): set<string> {
    set n | n in nodes && OutcomeOf(PhasesOf(reports, n)) == o
  }

  function Tally(deselected: seq<string>, items: seq<string>, reports: seq<Report>, name: string): Counters {
    var nodes := NodesIn(items, name);
    Counters(CountIn(items, name), CountIn(deselected, name),
             |With(nodes, reports, Passed)|, |With(nodes, reports, Failed)|, |With(nodes, reports, Skipped)|,
             |With(nodes, reports, Incomplete)|)
  }

  /** The collected nodes of known modules, with no phase reported yet. */
  function Fresh(items: seq<string>, names: set<string>): map<string, Phases> {
    map i | i in items && ModuleOf(i) in names :: map[]
  }

  lemma NothingFresh(nodes: map<string, Phases>, names: set<string>)
    ensures nodes + Fresh([], names) == nodes
  {
  }

  lemma MergeOn(a: map<string, Phases>, b: map<string, Phases>, item: string)
    ensures (a + b)[item := map[]] == a + b[item := map[]]
  {
  }

  lemma FreshOn(items: seq<string>, item: string, names: set<string>)
    ensures Fresh(items + [item], names) == if ModuleOf(item) in names then Fresh(items, names)[item := map[]] else Fresh(items, names)
  {
  }

  // ----- the hooks ------------------------------------------------------------------------------

  class Receipt {
    var nodes: map<string, Phases>
    var modules: map<string, Counters>

    constructor (names: set<string>)
      ensures nodes == map[] && modules == map n | n in names :: ZERO
    {
      nodes := map[];
      modules := map n | n in names :: ZERO;
    }

    method Deselected(items: seq<string>)
      modifies `modules
      ensures modules.Keys == old(modules).Keys
      ensures forall n :: n in modules ==>
                modules[n] == old(modules)[n].(deselected := old(modules)[n].deselected + CountIn(items, n))
    {
      for i := 0 to |items|
        invariant modules.Keys == old(modules).Keys
        invariant forall n :: n in modules ==>
          modules[n] == old(modules)[n].(deselected := old(modules)[n].deselected + CountIn(items[..i], n))
      {
        assert items[..i + 1][..i] == items[..i];
        var name := ModuleOf(items[i]);
        if name in modules {
          modules := modules[name := modules[name].(deselected := modules[name].deselected + 1)];
        }
      }
      assert items[..|items|] == items;
    }

    method CollectionFinish(items: seq<string>)
      modifies this
      ensures modules.Keys == old(modules).Keys
      ensures forall n :: n in modules ==>
                modules[n] == old(modules)[n].(collected := old(modules)[n].collected + CountIn(items, n))
      ensures nodes == old(nodes) + Fresh(items, modules.Keys)
    {
      hide ModuleOf;
      hide Fresh;
      NothingFresh(nodes, modules.Keys);
      for i := 0 to |items|
        invariant modules.Keys == old(modules).Keys
        invariant forall n :: n in modules ==>
          modules[n] == old(modules)[n].(collected := old(modules)[n].collected + CountIn(items[..i], n))
        invariant nodes == old(nodes) + Fresh(items[..i], modules.Keys)
      {
        assert items[..i + 1] == items[..i] + [items[i]] && items[..i + 1][..i] == items[..i];
        var name := ModuleOf(items[i]);
        FreshOn(items[..i], items[i], modules.Keys);
        MergeOn(old(nodes), Fresh(items[..i], modules.Keys), items[i]);
        if name in modules {
          nodes := nodes[items[i] := map[]];
          modules := modules[name := modules[name].(collected := modules[name].collected + 1)];
        }
      }
      assert items[..|items|] == items;
    }

    /** The phase maps are those of the reports so far and this one: the last report of a phase wins. */
    method LogReport(r: Report)
      modifies `nodes
      ensures nodes == if r.node in old(nodes) then old(nodes)[r.node := old(nodes)[r.node][r.phase := r.result]] else old(nodes)
      ensures forall items, names, reports :: Reported(items, names, reports, old(nodes)) ==> Reported(items, names, reports + [r], nodes)
    {
      hide Reported;
      forall items, names, reports | Reported(items, names, reports, nodes)
        ensures Reported(items, names, reports + [r],
                         if r.node in nodes then nodes[r.node := nodes[r.node][r.phase := r.result]] else nodes)
      {
        ReportedOn(items, names, reports, r, nodes);
      }
      if r.node in nodes {
        nodes := nodes[r.node := nodes[r.node][r.phase := r.result]];
      }
    }

    /** Every node adds one to the total of its outcome. */
    method SessionFinish()
      requires forall n :: n in nodes ==> ModuleOf(n) in modules
      modifies `modules
      ensures modules.Keys == old(modules).Keys
      ensures forall m :: m in modules ==> modules[m] == Totalled(old(modules)[m], nodes, nodes.Keys, m)
    {
      hide ModuleOf;
      hide OutcomeOf;
      hide Totalled;
      hide Ending;
      var left := nodes.Keys;
      NothingTotalled(modules, nodes);
      while left != {}
        invariant left <= nodes.Keys && modules.Keys == old(modules).Keys
        invariant forall m :: m in modules ==> modules[m] == Totalled(old(modules)[m], nodes, nodes.Keys - left, m)
        decreases left
      {
        var n :| n in left;
        var name := ModuleOf(n);
        OneTotalled(old(modules), nodes, nodes.Keys - left, n);
        modules := modules[name := Count(modules[name], OutcomeOf(nodes[n]))];
        assert nodes.Keys - (left - {n}) == nodes.Keys - left + {n};
        left := left - {n};
      }
      assert nodes.Keys - left == nodes.Keys;
    }
  }

  function Count(c: Counters, o: Outcome): Counters {
    match o
    case Passed => c.(passed := c.passed + 1)
    case Failed => c.(failed := c.failed + 1)
    case Skipped => c.(skipped := c.skipped + 1)
    case Incomplete => c.(incomplete := c.incomplete + 1)
  }

  /** The nodes of one module with one outcome, among those looked at. */
  function Ending(nodes: map<string, Phases>, seen: set<string>, name: string, o: Outcome): set<string> {
    set n | n in seen && n in nodes && ModuleOf(n) == name && OutcomeOf(nodes[n]) == o
  }

  function Totalled(c: Counters, nodes: map<string, Phases>, seen: set<string>, name: string): Counters {
    Counters(c.collected, c.deselected, c.passed + |Ending(nodes, seen, name, Passed)|,
             c.failed + |Ending(nodes, seen, name, Failed)|, c.skipped + |Ending(nodes, seen, name, Skipped)|,
             c.incomplete + |Ending(nodes, seen, name, Incomplete)|)
  }

  lemma NothingTotalled(modules: map<string, Counters>, nodes: map<string, Phases>)
    ensures forall m :: m in modules ==> modules[m] == Totalled(modules[m], nodes, nodes.Keys - nodes.Keys, m)
  {
  }

  lemma OneMore(nodes: map<string, Phases>, seen: set<string>, n: string, m: string, o: Outcome)
    requires n in nodes && n !in seen
    ensures |Ending(nodes, seen + {n}, m, o)| ==
            |Ending(nodes, seen, m, o)| + if m == ModuleOf(n) && o == OutcomeOf(nodes[n]) then 1 else 0
  {
    var before, after := Ending(nodes, seen, m, o), Ending(nodes, seen + {n}, m, o);
    if m == ModuleOf(n) && o == OutcomeOf(nodes[n]) {
      assert after == before + {n};
    } else {
      assert after == before;
    }
  }

  lemma OneTotalled(modules: map<string, Counters>, nodes: map<string, Phases>, seen: set<string>, n: string)
    requires n in nodes && n !in seen
    ensures forall m :: m in modules ==>
              Totalled(modules[m], nodes, seen + {n}, m) ==
              if m == ModuleOf(n) then Count(Totalled(modules[m], nodes, seen, m), OutcomeOf(nodes[n]))
              else Totalled(modules[m], nodes, seen, m)
  {
    hide OutcomeOf;
    hide Ending;
    forall m | m in modules
      ensures Totalled(modules[m], nodes, seen + {n}, m) ==
              if m == ModuleOf(n) then Count(Totalled(modules[m], nodes, seen, m), OutcomeOf(nodes[n]))
              else Totalled(modules[m], nodes, seen, m)
    {
      OneMore(nodes, seen, n, m, Passed);
      OneMore(nodes, seen, n, m, Failed);
      OneMore(nodes, seen, n, m, Skipped);
      OneMore(nodes, seen, n, m, Incomplete);
    }
  }

  // ----- a whole session ------------------------------------------------------------------------

  /** The phase maps after some reports. */
  ghost predicate Reported(items: seq<string>, names: set<string>, reports: seq<Report>, nodes: map<string, Phases>) {
    && nodes.Keys == Fresh(items, names).Keys
    && forall n :: n in nodes ==> nodes[n] == PhasesOf(reports, n)
  }

  lemma ReportedOn(items: seq<string>, names: set<string>, reports: seq<Report>, r: Report, nodes: map<string, Phases>)
    requires Reported(items, names, reports, nodes)
    ensures Reported(items, names, reports + [r], if r.node in nodes then nodes[r.node := nodes[r.node][r.phase := r.result]] else nodes)
  {
  }

  /** One session: start, deselection, collection, reports, finish. */
  method Session(names: set<string>, deselected: seq<string>, items: seq<string>, reports: seq<Report>)
    returns (modules: map<string, Counters>)
    ensures modules.Keys == names
    ensures forall m :: m in names ==> modules[m] == Tally(deselected, items, reports, m)
  {
    var receipt := new Receipt(names);
    receipt.Deselected(deselected);
    receipt.CollectionFinish(items);
    assert receipt.nodes == Fresh(items, names);
    for i := 0 to |reports|
      invariant receipt.modules.Keys == names
      invariant forall m :: m in names ==> receipt.modules[m] == Counters(CountIn(items, m), CountIn(deselected, m), 0, 0, 0, 0)
      invariant Reported(items, names, reports[..i], receipt.nodes)
    {
      assert reports[..i + 1] == reports[..i] + [reports[i]];
      receipt.LogReport(reports[i]);
    }
    assert reports[..|reports|] == reports;
    receipt.SessionFinish();
    modules := receipt.modules;
    forall m | m in names ensures modules[m] == Tally(deselected, items, reports, m) {
      SameEndings(items, names, reports, receipt.nodes, m);
    }
  }

  lemma SameEndings(items: seq<string>, names: set<string>, reports: seq<Report>, nodes: map<string, Phases>, m: string)
    requires Reported(items, names, reports, nodes) && m in names
    ensures forall o: Outcome :: Ending(nodes, nodes.Keys, m, o) == With(NodesIn(items, m), reports, o)
  {
  }

  // ----- what the records of a receipt mean -------------------------------------------------------

  /** `receipt_records`: the module has exactly the expected cases, all collected and all passed. */
  predicate RecordPasses(modules: map<string, Counters>, name: string, expected: Option<int>) {
    && expected.Some? && expected.value > 0
    && name in modules && modules[name] == Counters(expected.value, 0, expected.value, 0, 0, 0)
  }

  /** The node ids of one module, without repetition. */
  ghost predicate DistinctIn(items: seq<string>, name: string) {
    forall i, j :: 0 <= i < j < |items| && ModuleOf(items[i]) == name ==> items[i] != items[j]
  }

  lemma {:induction false} NodesAtMostItems(items: seq<string>, name: string)
    ensures |NodesIn(items, name)| <= CountIn(items, name)
    ensures |NodesIn(items, name)| == CountIn(items, name) <==> DistinctIn(items, name)
  {
    if items == [] {
      assert NodesIn(items, name) == {};
    } else {
      var front, last := items[..|items| - 1], items[|items| - 1];
      NodesAtMostItems(front, name);
      assert items == front + [last];
      if ModuleOf(last) == name {
        assert NodesIn(items, name) == NodesIn(front, name) + {last};
        if last in NodesIn(front, name) {
          var i :| 0 <= i < |front| && ModuleOf(front[i]) == name && front[i] == last;
          assert items[i] == items[|items| - 1];
        } else {
          DistinctOn(front, last, name);
        }
      } else {
        assert NodesIn(items, name) == NodesIn(front, name);
        DistinctOn(front, last, name);
      }
    }
  }

  lemma DistinctOn(front: seq<string>, last: string, name: string)
    requires last !in NodesIn(front, name)
    ensures DistinctIn(front + [last], name) <==> DistinctIn(front, name)
  {
    var items := front + [last];
    if DistinctIn(items, name) {
      forall i, j | 0 <= i < j < |front| && ModuleOf(front[i]) == name ensures front[i] != front[j] {
        assert items[i] == front[i] && items[j] == front[j];
      }
    }
  }

  /** Every node of the module ends in exactly one outcome. */
  lemma OutcomesPartition(nodes: set<string>, reports: seq<Report>)
    ensures |nodes| == |With(nodes, reports, Passed)| + |With(nodes, reports, Failed)| + |With(nodes, reports, Skipped)|
                       + |With(nodes, reports, Incomplete)|
  {
    var p, f, s, i := With(nodes, reports, Passed), With(nodes, reports, Failed), With(nodes, reports, Skipped),
                      With(nodes, reports, Incomplete);
    assert nodes == p + f + s + i;
    assert p !! f && (p + f) !! s && (p + f + s) !! i;
  }

  /** The outcome totals never exceed what was collected; they reach it exactly when the node ids are distinct. */
  lemma TotalsAreBounded(deselected: seq<string>, items: seq<string>, reports: seq<Report>, name: string)
    ensures var t := Tally(deselected, items, reports, name);
            && t.passed + t.failed + t.skipped + t.incomplete <= t.collected
            && (t.passed + t.failed + t.skipped + t.incomplete == t.collected <==> DistinctIn(items, name))
  {
    NodesAtMostItems(items, name);
    OutcomesPartition(NodesIn(items, name), reports);
  }

  // ----- outcomes, said of the reports ------------------------------------------------------------

  /** The last report of this phase of the node had this result. */
  ghost predicate EndsPhase(reports: seq<Report>, node: string, phase: string, result: string) {
    exists i :: 0 <= i < |reports| && reports[i] == Report(node, phase, result)
                && forall j :: i < j < |reports| && reports[j].node == node ==> reports[j].phase != phase
  }

  /** Some phase of the node ended with this result. */
  ghost predicate EndedWith(reports: seq<Report>, node: string, result: string) {
    exists p: string :: EndsPhase(reports, node, p, result)
  }

  /** Setup, call and teardown ended as passed, and no other phase was reported. */
  ghost predicate EndedWell(reports: seq<Report>, node: string) {
    forall p: string, r: string :: EndsPhase(reports, node, p, r) <==> p in {"setup", "call", "teardown"} && r == "passed"
  }

  lemma {:induction false} PhasesAreLast(reports: seq<Report>, node: string, p: string, r: string)
    ensures p in PhasesOf(reports, node) && PhasesOf(reports, node)[p] == r <==> EndsPhase(reports, node, p, r)
  {
    if reports != [] {
      var front, last := reports[..|reports| - 1], reports[|reports| - 1];
      PhasesAreLast(front, node, p, r);
      assert reports == front + [last];
      EndsPhaseOn(front, last, node, p, r);
    }
  }

  lemma EndsPhaseOn(front: seq<Report>, last: Report, node: string, p: string, r: string)
    ensures EndsPhase(front + [last], node, p, r) <==>
            if last.node == node && last.phase == p then last.result == r else EndsPhase(front, node, p, r)
  {
    var reports := front + [last];
    if last.node == node && last.phase == p {
      assert reports[|front|] == last;
      if last.result == r { assert EndsPhase(reports, node, p, r); }
    } else {
      if EndsPhase(front, node, p, r) {
        var i :| 0 <= i < |front| && front[i] == Report(node, p, r)
                 && forall j :: i < j < |front| && front[j].node == node ==> front[j].phase != p;
        assert reports[i] == front[i];
        assert EndsPhase(reports, node, p, r);
      }
      if EndsPhase(reports, node, p, r) {
        var i :| 0 <= i < |reports| && reports[i] == Report(node, p, r)
                 && forall j :: i < j < |reports| && reports[j].node == node ==> reports[j].phase != p;
        assert front[i] == Report(node, p, r);
        assert forall j :: i < j < |front| ==> front[j] == reports[j];
      }
    }
  }

  /** A failed phase makes a node failed, a skipped one without a failed one skipped; what is left passed or is incomplete. */
  lemma OutcomeMeans(reports: seq<Report>, node: string)
    ensures var o := OutcomeOf(PhasesOf(reports, node));
            && (o.Failed? <==> EndedWith(reports, node, "failed"))
            && (o.Skipped? <==> EndedWith(reports, node, "skipped") && !EndedWith(reports, node, "failed"))
            && (o.Passed? <==> EndedWell(reports, node))
  {
    hide EndsPhase;
    hide EndedWith;
    hide EndedWell;
    var phases := PhasesOf(reports, node);
    forall p: string, r: string ensures p in phases && phases[p] == r <==> EndsPhase(reports, node, p, r) {
      PhasesAreLast(reports, node, p, r);
    }
    ResultsAreEndings(reports, node, phases, "failed");
    ResultsAreEndings(reports, node, phases, "skipped");
    PassedIsWell(reports, node, phases);
  }

  lemma ResultsAreEndings(reports: seq<Report>, node: string, phases: Phases, r: string)
    requires forall p: string :: p in phases && phases[p] == r <==> EndsPhase(reports, node, p, r)
    ensures r in phases.Values <==> EndedWith(reports, node, r)
  {
    hide EndsPhase;
    ValuesAreResults(phases, r);
    if p :| p in phases && phases[p] == r { assert EndsPhase(reports, node, p, r); }
  }

  lemma PassedIsWell(reports: seq<Report>, node: string, phases: Phases)
    requires forall p: string, r: string :: p in phases && phases[p] == r <==> EndsPhase(reports, node, p, r)
    ensures phases == map["setup" := "passed", "call" := "passed", "teardown" := "passed"] <==> EndedWell(reports, node)
  {
    hide EndsPhase;
    if EndedWell(reports, node) {
      forall p ensures p in phases <==> p in {"setup", "call", "teardown"} {
        assert p in phases ==> EndsPhase(reports, node, p, phases[p]);
        assert p in {"setup", "call", "teardown"} ==> EndsPhase(reports, node, p, "passed");
      }
      forall p | p in phases ensures phases[p] == "passed" { assert EndsPhase(reports, node, p, phases[p]); }
    }
  }

  lemma ValuesAreResults(phases: Phases, r: string)
    ensures r in phases.Values <==> exists p :: p in phases && phases[p] == r
  {
  }

  /** The totals of a module count its nodes by how their phases ended. */
  lemma TotalsMean(deselected: seq<string>, items: seq<string>, reports: seq<Report>, name: string)
    ensures var t, nodes := Tally(deselected, items, reports, name), NodesIn(items, name);
            && t.failed == |set n | n in nodes && EndedWith(reports, n, "failed")|
            && t.skipped == |set n | n in nodes && EndedWith(reports, n, "skipped") && !EndedWith(reports, n, "failed")|
            && t.passed == |set n | n in nodes && EndedWell(reports, n)|
            && t.passed + t.failed + t.skipped + t.incomplete == |nodes|
  {
    hide EndedWith;
    hide EndedWell;
    hide OutcomeOf;
    var nodes := NodesIn(items, name);
    forall n ensures var o := OutcomeOf(PhasesOf(reports, n));
                     && (o.Failed? <==> EndedWith(reports, n, "failed"))
                     && (o.Skipped? <==> EndedWith(reports, n, "skipped") && !EndedWith(reports, n, "failed"))
                     && (o.Passed? <==> EndedWell(reports, n))
    {
      OutcomeMeans(reports, n);
    }
    assert With(nodes, reports, Failed) == set n | n in nodes && EndedWith(reports, n, "failed");
    assert With(nodes, reports, Skipped) ==
           set n | n in nodes && EndedWith(reports, n, "skipped") && !EndedWith(reports, n, "failed");
    assert With(nodes, reports, Passed) == set n | n in nodes && EndedWell(reports, n);
    OutcomesPartition(nodes, reports);
  }

  ghost predicate AllPhasesPassed(phases: Phases) {
    phases == map["setup" := "passed", "call" := "passed", "teardown" := "passed"]
  }

  lemma PassedMeansAllPhases(phases: Phases)
    ensures OutcomeOf(phases).Passed? <==> AllPhasesPassed(phases)
  {
  }

  /**
   * A module's record passes with n expected cases exactly when n items with distinct node ids were collected for
   * it, none was deselected, and every one of them ended with setup, call and teardown passed and nothing else.
   */
  lemma RecordsMeanPassing(names: set<string>, deselected: seq<string>, items: seq<string>, reports: seq<Report>,
                           modules: map<string, Counters>, name: string, n: nat)
    requires modules.Keys == names && name in names && n > 0
    requires forall m :: m in names ==> modules[m] == Tally(deselected, items, reports, m)
    ensures RecordPasses(modules, name, Some(n)) <==>
              && CountIn(items, name) == n && DistinctIn(items, name) && CountIn(deselected, name) == 0
              && forall x :: x in NodesIn(items, name) ==> AllPhasesPassed(PhasesOf(reports, x))
  {
    hide AllPhasesPassed;
    hide OutcomeOf;
    var nodes := NodesIn(items, name);
    NodesAtMostItems(items, name);
    OutcomesPartition(nodes, reports);
    forall x | x in nodes ensures OutcomeOf(PhasesOf(reports, x)).Passed? <==> AllPhasesPassed(PhasesOf(reports, x)) {
      PassedMeansAllPhases(PhasesOf(reports, x));
    }
    var passed := With(nodes, reports, Passed);
    assert passed <= nodes;
    if |passed| == |nodes| {
      assert |nodes - passed| == 0;
      assert nodes == passed;
    }
    assert (forall x :: x in nodes ==> AllPhasesPassed(PhasesOf(reports, x))) <==> passed == nodes;
  }
}
