/** What a drift or a count mismatch affects: the least set of scopes that is closed downstream. */
module ScopeImpact {
  import opened Prelude
  import opened ScopeGraph
  import opened ScopeAudit

  // ----- least downstream-closed sets -----------------------------------------------------------

  ghost predicate ClosedDownstream(g: Graph, s: set<Path>) {
    forall p, q :: p in s && g.Edge(p, q) ==> q in s
  }

  /** The least set that holds the directly affected scopes and everything downstream of its members. */
  ghost predicate LeastClosed(g: Graph, direct: set<Path>, s: set<Path>) {
    && direct <= s && ClosedDownstream(g, s)
    && forall t: set<Path> :: direct <= t && ClosedDownstream(g, t) ==> s <= t
  }

  lemma ClosedHoldsDownstream(g: Graph, t: set<Path>, p: Path, q: Path)
    requires ClosedDownstream(g, t) && p in t && Leads(g, p, q)
    ensures q in t
  {
    var w :| |w| > 1 && WalkFrom(g, w, p, q);
    ClosedHoldsWalk(g, p, t, w);
  }

  lemma SpreadIsLeast(g: Graph, order: seq<Path>, downstream: map<Path, seq<Path>>, direct: set<Path>)
    requires g.Valid() && DownstreamOf(g, order, downstream) && direct <= downstream.Keys
    requires forall p :: p in order <==> p in g.nodes
    ensures LeastClosed(g, direct, Spread(direct, downstream))
  {
    hide Leads;
    var s := Spread(direct, downstream);
    forall p, q | p in s && g.Edge(p, q) ensures q in s {
      if p in direct {
        EdgeLeads(g, p, q);
        assert q in downstream[p];
      } else {
        var d :| d in direct && p in downstream[d];
        LeadsOn(g, d, p, q);
        assert q in downstream[d];
      }
    }
    forall t: set<Path> | direct <= t && ClosedDownstream(g, t) ensures s <= t {
      forall q | q in s ensures q in t {
        if q !in direct {
          var d :| d in direct && q in downstream[d];
          ClosedHoldsDownstream(g, t, d, q);
        }
      }
    }
  }

  /** Closing again after more was added is closing everything at once. */
  lemma ClosingTwice(g: Graph, direct: set<Path>, more: set<Path>, s: set<Path>, t: set<Path>)
    requires LeastClosed(g, direct, s) && LeastClosed(g, s + more, t)
    ensures LeastClosed(g, direct + more, t)
  {
    forall u: set<Path> | direct + more <= u && ClosedDownstream(g, u) ensures t <= u {
      assert s <= u;
    }
  }

  // ----- the list of affected groups ------------------------------------------------------------

  /** One scope to a path and one to a group, registered in the order of the graph's nodes. */
  ghost predicate Registered(scopes: seq<Scope>, g: Graph) {
    && g.Valid() && g.nodes == PathsOf(scopes)
    && forall i, j :: 0 <= i < j < |scopes| ==> scopes[i].group != scopes[j].group
  }

  /** The group registered for a path. */
  function GroupOf(scopes: seq<Scope>, path: Path): string {
    if scopes == [] then "" else if scopes[0].path == path then scopes[0].group else GroupOf(scopes[1..], path)
  }

  function Groups(scopes: seq<Scope>, paths: seq<Path>): (r: seq<string>)
    ensures |r| == |paths| && forall i :: 0 <= i < |r| ==> r[i] == GroupOf(scopes, paths[i])
  {
    seq(|paths|, i requires 0 <= i < |paths| => GroupOf(scopes, paths[i]))
  }

  lemma {:induction false} NobodyAt(path: Path, scopes: seq<Scope>, affected: set<Path>)
    requires path !in affected || path !in PathsOf(scopes)
    ensures GroupsAt(path, scopes, affected) == []
  {
    if scopes != [] {
      var front := scopes[..|scopes| - 1];
      forall i | 0 <= i < |front| ensures PathsOf(front)[i] == PathsOf(scopes)[i] {
      }
      NobodyAt(path, front, affected);
      assert PathsOf(scopes)[|scopes| - 1] == scopes[|scopes| - 1].path;
    }
  }

  lemma {:induction false} GroupOfMember(scopes: seq<Scope>, i: nat)
    requires Distinct(PathsOf(scopes)) && i < |scopes|
    ensures GroupOf(scopes, scopes[i].path) == scopes[i].group
  {
    if i > 0 {
      assert PathsOf(scopes)[0] != PathsOf(scopes)[i];
      forall j, k | 0 <= j < k < |scopes[1..]| ensures PathsOf(scopes[1..])[j] != PathsOf(scopes[1..])[k] {
        assert PathsOf(scopes)[j + 1] != PathsOf(scopes)[k + 1];
      }
      GroupOfMember(scopes[1..], i - 1);
    }
  }

  lemma {:induction false} OneAt(path: Path, scopes: seq<Scope>, affected: set<Path>, i: nat)
    requires Distinct(PathsOf(scopes)) && i < |scopes| && scopes[i].path == path && path in affected
    ensures GroupsAt(path, scopes, affected) == [scopes[i].group]
  {
    var front := scopes[..|scopes| - 1];
    forall k | 0 <= k < |front| ensures PathsOf(front)[k] == PathsOf(scopes)[k] {
    }
    if i == |scopes| - 1 {
      forall k | 0 <= k < |front| ensures PathsOf(front)[k] != path {
        assert PathsOf(scopes)[k] != PathsOf(scopes)[i];
      }
      NobodyAt(path, front, affected);
    } else {
      OneAt(path, front, affected, i);
      assert PathsOf(scopes)[i] != PathsOf(scopes)[|scopes| - 1];
    }
  }

  /** With distinct scopes, the double loop lists the group of each affected path, in the order of the paths. */
  lemma {:induction false} ListedIsInOrder(scopes: seq<Scope>, paths: seq<Path>, affected: set<Path>)
    requires Distinct(PathsOf(scopes)) && forall p :: p in paths ==> p in PathsOf(scopes)
    ensures Listed(paths, scopes, affected) == Groups(scopes, Kept(paths, Among(affected)))
  {
    if paths != [] {
      var front, last := paths[..|paths| - 1], paths[|paths| - 1];
      assert paths == front + [last];
      ListedIsInOrder(scopes, front, affected);
      KeptAppend(front, last, Among(affected));
      if last in affected {
        var i :| 0 <= i < |scopes| && PathsOf(scopes)[i] == last;
        OneAt(last, scopes, affected, i);
        GroupOfMember(scopes, i);
      } else {
        NobodyAt(last, scopes, affected);
      }
    }
  }

  /** The affected groups: those of a least closed set of scopes, once each, in sorted order. */
  ghost predicate Affects(scopes: seq<Scope>, g: Graph, order: seq<Path>, direct: set<Path>, groups: seq<string>) {
    exists s :: LeastClosed(g, direct, s) && groups == Groups(scopes, Kept(order, Among(s)))
  }

  /**
   * What is listed when a cycle leaves no order: the groups of the directly affected scopes only, in registration
   * order. These are the groups of the least closed set exactly when those scopes are closed downstream already.
   */
  ghost predicate AffectsFlagged(scopes: seq<Scope>, g: Graph, direct: set<Path>, groups: seq<string>) {
    && groups == Groups(scopes, Kept(g.nodes, Among(direct)))
    && (Affects(scopes, g, g.nodes, direct, groups) <==> ClosedDownstream(g, direct))
  }

  // ----- the audit ------------------------------------------------------------------------------

  datatype Kind = TestFile | SourceFile | FixtureFile

  datatype AuditReason =
    | AllRight | NotRequested | HashDrift | CountKeysMismatch | InvalidCount | InvalidCounts | ConflictingCounts
    | CountMismatch | Cycle | OtherReason

  datatype FileRecord = FileRecord(group: string, kind: Kind, path: Path, reason: AuditReason)

  datatype IssueRecord = IssueRecord(group: string, reason: AuditReason)

  datatype CountRecord = CountRecord(group: string, path: Path, expected: nat)

  datatype Collection = Collection(reason: AuditReason, modules: map<Path, nat>)

  datatype Report = Report(files: seq<FileRecord>, issues: seq<IssueRecord>, counts: seq<CountRecord>, order: seq<Path>,
                           downstream: map<Path, seq<Path>>, affected: seq<string>, failed: bool, collection: Collection)

  predicate Drifted(files: seq<FileRecord>, group: string) {
    exists i :: 0 <= i < |files| && files[i].group == group && !files[i].reason.AllRight?
  }

  predicate Reported(issues: seq<IssueRecord>, group: string) {
    exists i :: 0 <= i < |issues| && issues[i].group == group
  }

  /** The scopes a file record or an issue points at. */
  ghost function Flagged(scopes: seq<Scope>, files: seq<FileRecord>, issues: seq<IssueRecord>): set<Path> {
    set s | s in scopes && (Drifted(files, s.group) || Reported(issues, s.group)) :: s.path
  }

  lemma EveryScopeIsListed(scopes: seq<Scope>, g: Graph, order: seq<Path>, downstream: map<Path, seq<Path>>)
    requires Registered(scopes, g) && DownstreamOf(g, order, downstream)
    ensures forall s :: s in scopes ==> s.path in downstream
  {
  }

  /**
   * The graph half of the audit, after the files and issues of the single scopes were recorded: order, cycles,
   * downstream lists and affected groups.
   */
  method Audit(scopes: seq<Scope>, g: Graph, files: seq<FileRecord>, issues: seq<IssueRecord>, counts: seq<CountRecord>)
    returns (report: Report)
    requires Registered(scopes, g)
    ensures report.files == files && report.counts == counts
    ensures report.issues == issues + Cycles(scopes, Kept(g.nodes, Cyclic(g)))
    ensures Acyclic(g) ==> SortedByDepth(g, report.order) && forall p :: p in report.order <==> p in g.nodes
    ensures !Acyclic(g) ==> report.order == []
    ensures DownstreamOf(g, report.order, report.downstream)
    ensures Acyclic(g) ==> Affects(scopes, g, report.order, Flagged(scopes, files, report.issues), report.affected)
    ensures !Acyclic(g) ==> AffectsFlagged(scopes, g, Flagged(scopes, files, report.issues), report.affected)
    ensures !report.failed <==> report.issues == [] && forall i :: 0 <= i < |files| ==> files[i].reason.AllRight?
  {
    hide Leads;
    hide SortedByDepth;
    hide Acyclic;
    hide Affects;
    hide AffectsFlagged;
    hide DownstreamOf;
    hide Cyclic;
    hide Flagged;
    hide Drifted;
    hide Reported;
    var order, cyclic := LayeredSort(g);
    var all := ReportCycles(scopes, issues, cyclic);
    var downstream := Downstream(g, order);
    EveryScopeIsListed(scopes, g, order, downstream);
    var drift, direct := DirectlyAffected(files, all);
    var failed := all != [] || drift != {};
    NoDrift(files, drift);
    var affected := AffectedGroups(scopes, order, downstream, direct);
    DirectIsFlagged(scopes, files, all, direct);
    if Acyclic(g) {
      AffectsLeast(scopes, g, order, downstream, direct, affected);
    } else {
      WithoutOrderNothingSpreads(scopes, g, downstream, direct, affected);
    }
    report := Report(files, all, counts, order, downstream, affected, failed, Collection(NotRequested, map[]));
  }

  method ReportCycles(scopes: seq<Scope>, issues: seq<IssueRecord>, cyclic: seq<Path>) returns (all: seq<IssueRecord>)
    ensures all == issues + Cycles(scopes, cyclic)
  {
    all := issues;
    for i := 0 to |cyclic|
      invariant all == issues + Cycles(scopes, cyclic[..i])
    {
      assert cyclic[..i + 1][..i] == cyclic[..i];
      all := all + [IssueRecord(GroupOf(scopes, cyclic[i]), Cycle)];
    }
    assert cyclic[..|cyclic|] == cyclic;
  }

  lemma DirectIsFlagged(scopes: seq<Scope>, files: seq<FileRecord>, issues: seq<IssueRecord>, direct: set<string>)
    requires forall x :: x in direct <==> Drifted(files, x) || Reported(issues, x)
    ensures Direct(scopes, direct) == Flagged(scopes, files, issues)
  {
  }

  /** One cycle issue for each stuck scope, in registration order. */
  function Cycles(scopes: seq<Scope>, cyclic: seq<Path>): seq<IssueRecord> {
    if cyclic == [] then [] else
      Cycles(scopes, cyclic[..|cyclic| - 1]) + [IssueRecord(GroupOf(scopes, cyclic[|cyclic| - 1]), Cycle)]
  }

  lemma DriftedAppend(front: seq<FileRecord>, f: FileRecord, group: string)
    ensures Drifted(front + [f], group) <==> Drifted(front, group) || (f.group == group && !f.reason.AllRight?)
  {
    if k :| 0 <= k < |front| && front[k].group == group && !front[k].reason.AllRight? {
      assert (front + [f])[k] == front[k];
    }
    assert (front + [f])[|front|] == f;
  }

  lemma ReportedAppend(front: seq<IssueRecord>, f: IssueRecord, group: string)
    ensures Reported(front + [f], group) <==> Reported(front, group) || f.group == group
  {
    if k :| 0 <= k < |front| && front[k].group == group {
      assert (front + [f])[k] == front[k];
    }
    assert (front + [f])[|front|] == f;
  }

  /** `{f["group"] for f in files if ...}` and then the groups of the issues. */
  method DirectlyAffected(files: seq<FileRecord>, issues: seq<IssueRecord>) returns (drift: set<string>, direct: set<string>)
    ensures forall x :: x in drift <==> Drifted(files, x)
    ensures forall x :: x in direct <==> Drifted(files, x) || Reported(issues, x)
  {
    drift := {};
    for i := 0 to |files|
      invariant forall x :: x in drift <==> Drifted(files[..i], x)
    {
      forall x { DriftedAppend(files[..i], files[i], x); }
      assert files[..i + 1] == files[..i] + [files[i]];
      if !files[i].reason.AllRight? {
        drift := drift + {files[i].group};
      }
    }
    assert files[..|files|] == files;
    direct := drift;
    for i := 0 to |issues|
      invariant forall x :: x in direct <==> x in drift || Reported(issues[..i], x)
    {
      forall x { ReportedAppend(issues[..i], issues[i], x); }
      assert issues[..i + 1] == issues[..i] + [issues[i]];
      direct := direct + {issues[i].group};
    }
    assert issues[..|issues|] == issues;
  }

  lemma NoDrift(files: seq<FileRecord>, drift: set<string>)
    requires forall x :: x in drift <==> Drifted(files, x)
    ensures drift == {} <==> forall i :: 0 <= i < |files| ==> files[i].reason.AllRight?
  {
    forall i | 0 <= i < |files| && !files[i].reason.AllRight? ensures files[i].group in drift {
    }
  }

  /** On an acyclic graph the double loop yields the groups of the least closed set. */
  lemma AffectsLeast(scopes: seq<Scope>, g: Graph, order: seq<Path>, downstream: map<Path, seq<Path>>, direct: set<string>,
                     groups: seq<string>)
    requires Registered(scopes, g) && DownstreamOf(g, order, downstream) && forall p :: p in order <==> p in g.nodes
    requires forall s :: s in scopes ==> s.path in downstream
    requires groups == Listed(if order != [] then order else PathsOf(scopes), scopes,
                              Spread(Direct(scopes, direct), downstream))
    ensures Affects(scopes, g, order, Direct(scopes, direct), groups)
  {
    var s := Spread(Direct(scopes, direct), downstream);
    SpreadIsLeast(g, order, downstream, Direct(scopes, direct));
    if scopes != [] {
      assert PathsOf(scopes)[0] in g.nodes;
    }
    ListedIsInOrder(scopes, order, s);
  }

  /** On a cyclic graph every downstream list is empty, so the directly affected scopes are all that is listed. */
  lemma WithoutOrderNothingSpreads(scopes: seq<Scope>, g: Graph, downstream: map<Path, seq<Path>>, direct: set<string>,
                                   groups: seq<string>)
    requires Registered(scopes, g) && DownstreamOf(g, [], downstream)
    requires forall s :: s in scopes ==> s.path in downstream
    requires groups == Listed(PathsOf(scopes), scopes, Spread(Direct(scopes, direct), downstream))
    ensures AffectsFlagged(scopes, g, Direct(scopes, direct), groups)
  {
    var flagged := Direct(scopes, direct);
    assert Spread(flagged, downstream) == flagged;
    ListedIsInOrder(scopes, g.nodes, flagged);
    LeastIfClosed(scopes, g, flagged, groups);
  }

  lemma LeastIfClosed(scopes: seq<Scope>, g: Graph, flagged: set<Path>, groups: seq<string>)
    requires Registered(scopes, g) && flagged <= g.edges.Keys && groups == Groups(scopes, Kept(g.nodes, Among(flagged)))
    ensures Affects(scopes, g, g.nodes, flagged, groups) <==> ClosedDownstream(g, flagged)
  {
    if ClosedDownstream(g, flagged) {
      assert LeastClosed(g, flagged, flagged);
    }
    if Affects(scopes, g, g.nodes, flagged, groups) {
      var s :| LeastClosed(g, flagged, s) && groups == Groups(scopes, Kept(g.nodes, Among(s)));
      LeastStaysInside(g, flagged, s);
      var names := set i | 0 <= i < |groups| :: groups[i];
      DirectOfGroups(scopes, g, g.nodes, s, names);
      DirectOfGroups(scopes, g, g.nodes, flagged, names);
    }
  }

  // ----- merging a collection -------------------------------------------------------------------

  predicate CountIssue(r: AuditReason) {
    r in {CountKeysMismatch, InvalidCount, InvalidCounts, ConflictingCounts}
  }

  /** Nothing but count issues and hash drift stands in the way of collecting. */
  predicate Collectable(report: Report) {
    && (forall i :: 0 <= i < |report.issues| ==> CountIssue(report.issues[i].reason))
    && (forall i :: 0 <= i < |report.files| ==> report.files[i].reason in {AllRight, HashDrift})
  }

  predicate TestPath(files: seq<FileRecord>, path: Path) {
    exists i :: 0 <= i < |files| && files[i].kind.TestFile? && files[i].path == path
  }

  /** Some registered count of the module is `n`. */
  predicate Counted(counts: seq<CountRecord>, path: Path, n: nat) {
    exists i :: 0 <= i < |counts| && counts[i].path == path && counts[i].expected == n
  }

  /** The one count all registrations of a module agree on. */
  ghost predicate TargetOf(counts: seq<CountRecord>, path: Path, target: Option<nat>) {
    match target
    case Some(n) => Counted(counts, path, n) && forall m: nat :: Counted(counts, path, m) ==> m == n
    case None => !exists n: nat :: Counted(counts, path, n) && forall m: nat :: Counted(counts, path, m) ==> m == n
  }

  ghost predicate TargetsOf(report: Report, targets: map<Path, Option<nat>>) {
    && (forall p :: p in targets <==> TestPath(report.files, p))
    && forall p :: p in targets ==> TargetOf(report.counts, p, targets[p])
  }

  method CollectionTargets(report: Report) returns (targets: Option<map<Path, Option<nat>>>)
    ensures targets.Some? ==> Collectable(report) && targets.value != map[] && TargetsOf(report, targets.value)
    ensures targets.None? ==> !Collectable(report) || forall p :: !TestPath(report.files, p)
  {
    if !Collectable(report) {
      return None;
    }
    var found: map<Path, Option<nat>> := map[];
    for i := 0 to |report.files|
      invariant forall p :: p in found <==> TestPath(report.files[..i], p)
    {
      forall p { TestPathAppend(report.files[..i], report.files[i], p); }
      assert report.files[..i + 1] == report.files[..i] + [report.files[i]];
      if report.files[i].kind.TestFile? {
        found := found[report.files[i].path := None];
      }
    }
    assert report.files[..|report.files|] == report.files;
    var grouped := GroupCounts(report.counts);
    var filled: map<Path, Option<nat>> := map[];
    var left := found.Keys;
    while left != {}
      invariant left <= found.Keys && filled.Keys == found.Keys - left
      invariant forall p :: p in filled ==> TargetOf(report.counts, p, filled[p])
      decreases left
    {
      var path :| path in left;
      var expected := if path in grouped then grouped[path] else {};
      assert forall n: nat :: n in expected <==> Counted(report.counts, path, n);
      var target: Option<nat> := None;
      if |expected| == 1 {
        var n :| n in expected;
        OnlyMember(expected, n);
        target := Some(n);
      } else {
        NotOne(expected);
      }
      filled, left := filled[path := target], left - {path};
    }
    if filled == map[] {
      assert found.Keys == {};
      return None;
    }
    return Some(filled);
  }

  lemma OnlyMember(s: set<nat>, n: nat)
    requires |s| == 1 && n in s
    ensures forall m :: m in s ==> m == n
  {
    assert |s - {n}| == 0;
  }

  lemma NotOne(s: set<nat>)
    requires |s| != 1
    ensures !exists n :: n in s && forall m :: m in s ==> m == n
  {
    forall n | n in s ensures s - {n} != {} {
      assert s == (s - {n}) + {n};
    }
    forall n | n in s ensures exists m :: m in s && m != n {
      var m :| m in s - {n};
    }
  }

  lemma TestPathAppend(front: seq<FileRecord>, f: FileRecord, path: Path)
    ensures TestPath(front + [f], path) <==> TestPath(front, path) || (f.kind.TestFile? && f.path == path)
  {
    if k :| 0 <= k < |front| && front[k].kind.TestFile? && front[k].path == path {
      assert (front + [f])[k] == front[k];
    }
    assert (front + [f])[|front|] == f;
  }

  lemma CountedAppend(front: seq<CountRecord>, c: CountRecord, path: Path, n: nat)
    ensures Counted(front + [c], path, n) <==> Counted(front, path, n) || (c.path == path && c.expected == n)
  {
    if k :| 0 <= k < |front| && front[k].path == path && front[k].expected == n {
      assert (front + [c])[k] == front[k];
    }
    assert (front + [c])[|front|] == c;
  }

  /** `grouped.setdefault(path, set()).add(expected)`, count by count. */
  method GroupCounts(counts: seq<CountRecord>) returns (grouped: map<Path, set<nat>>)
    ensures forall p, n: nat :: p in grouped && n in grouped[p] <==> Counted(counts, p, n)
  {
    grouped := map[];
    for i := 0 to |counts|
      invariant forall p, n: nat :: p in grouped && n in grouped[p] <==> Counted(counts[..i], p, n)
    {
      var c := counts[i];
      forall p, n: nat { CountedAppend(counts[..i], c, p, n); }
      assert counts[..i + 1] == counts[..i] + [c];
      grouped := grouped[c.path := (if c.path in grouped then grouped[c.path] else {}) + {c.expected}];
    }
    assert counts[..|counts|] == counts;
  }

  function Collected(c: Collection, path: Path): Option<nat> {
    if path in c.modules then Some(c.modules[path]) else None
  }

  /** The module was collected with another number of cases than registered, or than none at all. */
  ghost predicate Mismatched(report: Report, c: Collection, path: Path) {
    && Collectable(report) && TestPath(report.files, path)
    && !TargetOf(report.counts, path, Collected(c, path))
  }

  /** The scopes that register a mismatched module. */
  ghost function MismatchedScopes(scopes: seq<Scope>, report: Report, c: Collection): set<Path> {
    set s | s in scopes && (exists i :: 0 <= i < |report.files| && report.files[i].group == s.group
                                        && report.files[i].kind.TestFile? && Mismatched(report, c, report.files[i].path))
          :: s.path
  }

  lemma TargetIsUnique(counts: seq<CountRecord>, path: Path, a: Option<nat>, b: Option<nat>)
    requires TargetOf(counts, path, a) && TargetOf(counts, path, b)
    ensures a == b
  {
  }

  /**
   * Merging a collection: a count mismatch adds the scopes of the mismatched modules, and the affected groups are
   * again those of a least closed set, now around both. Any other outcome leaves the groups alone.
   */
  method MergeCollection(report: Report, scopes: seq<Scope>, g: Graph, c: Collection, ghost direct: set<Path>) returns (merged: Report)
    requires Registered(scopes, g) && DownstreamOf(g, report.order, report.downstream)
    requires Acyclic(g) ==> forall p :: p in report.order <==> p in g.nodes
    requires Acyclic(g) ==> SortedByDepth(g, report.order) && direct <= g.edges.Keys
    requires Acyclic(g) ==> Affects(scopes, g, report.order, direct, report.affected)
    ensures merged == report.(collection := c, failed := merged.failed, affected := merged.affected)
    ensures merged.failed <==> report.failed || c.reason !in {AllRight, NotRequested}
    ensures !c.reason.CountMismatch? ==> merged.affected == report.affected
    ensures Acyclic(g) && c.reason.CountMismatch? ==>
              Affects(scopes, g, report.order, direct + MismatchedScopes(scopes, report, c), merged.affected)
  {
    hide Leads;
    hide Affects;
    hide SortedByDepth;
    hide Mismatched;
    hide MismatchedScopes;
    hide Acyclic;
    merged := report.(collection := c);
    if c.reason in {AllRight, NotRequested} {
      return;
    }
    merged := merged.(failed := true);
    if c.reason.CountMismatch? {
      var mismatched := FindMismatched(report, c);
      var affected := set i | 0 <= i < |report.affected| :: report.affected[i];
      var more := GroupsOfModules(report.files, mismatched);
      var groups := AffectedGroups(scopes, report.order, report.downstream, affected + more);
      merged := merged.(affected := groups);
      if Acyclic(g) {
        MergeIsLeast(scopes, g, report, c, direct, affected, more, groups, mismatched);
      }
    }
  }

  function GroupsOf(files: seq<FileRecord>, modules: set<Path>): set<string> {
    set k | 0 <= k < |files| && files[k].kind.TestFile? && files[k].path in modules :: files[k].group
  }

  method GroupsOfModules(files: seq<FileRecord>, modules: set<Path>) returns (groups: set<string>)
    ensures groups == GroupsOf(files, modules)
  {
    groups := {};
    for i := 0 to |files|
      invariant groups == GroupsOf(files[..i], modules)
    {
      assert files[..i + 1] == files[..i] + [files[i]];
      if files[i].kind.TestFile? && files[i].path in modules {
        groups := groups + {files[i].group};
      }
    }
    assert files[..|files|] == files;
  }

  /** `{p for p, n in targets.items() if collection["modules"].get(p) != n}`. */
  method FindMismatched(report: Report, c: Collection) returns (mismatched: set<Path>)
    ensures forall p :: p in mismatched <==> Mismatched(report, c, p)
  {
    var targets := CollectionTargets(report);
    mismatched := {};
    if targets.Some? {
      mismatched := set p | p in targets.value && Collected(c, p) != targets.value[p];
      forall p | TestPath(report.files, p) ensures p in mismatched <==> Mismatched(report, c, p) {
        if TargetOf(report.counts, p, Collected(c, p)) {
          TargetIsUnique(report.counts, p, Collected(c, p), targets.value[p]);
        }
      }
    }
  }

  lemma LeastStaysInside(g: Graph, direct: set<Path>, s: set<Path>)
    requires g.Valid() && LeastClosed(g, direct, s) && direct <= g.edges.Keys
    ensures s <= g.edges.Keys
  {
  }

  lemma SameGroup(scopes: seq<Scope>, g: Graph, a: Scope, b: Scope)
    requires Registered(scopes, g) && a in scopes && b in scopes && (a.group == b.group || a.path == b.path)
    ensures a == b
  {
  }

  lemma GroupOfScope(scopes: seq<Scope>, g: Graph, s: Scope)
    requires Registered(scopes, g) && s in scopes
    ensures GroupOf(scopes, s.path) == s.group
  {
    var i :| 0 <= i < |scopes| && scopes[i] == s;
    GroupOfMember(scopes, i);
  }

  lemma ScopeAt(scopes: seq<Scope>, g: Graph, p: Path) returns (s: Scope)
    requires Registered(scopes, g) && p in g.nodes
    ensures s in scopes && s.path == p
  {
    var i :| 0 <= i < |scopes| && PathsOf(scopes)[i] == p;
    s := scopes[i];
  }

  /** Reading the groups of a set of scopes back gives the same scopes. */
  lemma DirectOfGroups(scopes: seq<Scope>, g: Graph, order: seq<Path>, s: set<Path>, groups: set<string>)
    requires Registered(scopes, g) && s <= g.edges.Keys && forall p :: p in order <==> p in g.nodes
    requires groups == set i | 0 <= i < |Groups(scopes, Kept(order, Among(s)))| :: Groups(scopes, Kept(order, Among(s)))[i]
    ensures Direct(scopes, groups) == s
  {
    var kept := Kept(order, Among(s));
    forall p | p in s ensures p in Direct(scopes, groups) {
      var at := ScopeAt(scopes, g, p);
      GroupOfScope(scopes, g, at);
      assert p in kept;
      var k :| 0 <= k < |kept| && kept[k] == p;
      assert Groups(scopes, kept)[k] == at.group;
    }
    forall p | p in Direct(scopes, groups) ensures p in s {
      var at :| at in scopes && at.group in groups && at.path == p;
      var k :| 0 <= k < |kept| && Groups(scopes, kept)[k] == at.group;
      assert kept[k] in kept;
      var other := ScopeAt(scopes, g, kept[k]);
      GroupOfScope(scopes, g, other);
      SameGroup(scopes, g, at, other);
    }
  }

  lemma DirectOfBoth(scopes: seq<Scope>, a: set<string>, b: set<string>)
    ensures Direct(scopes, a + b) == Direct(scopes, a) + Direct(scopes, b)
  {
  }

  lemma DirectOfMore(scopes: seq<Scope>, report: Report, c: Collection, more: set<string>, mismatched: set<Path>)
    requires forall p :: p in mismatched <==> Mismatched(report, c, p)
    requires more == GroupsOf(report.files, mismatched)
    ensures Direct(scopes, more) == MismatchedScopes(scopes, report, c)
  {
  }

  lemma MergeIsLeast(scopes: seq<Scope>, g: Graph, report: Report, c: Collection, direct: set<Path>, affected: set<string>,
                     more: set<string>, groups: seq<string>, mismatched: set<Path>)
    requires Registered(scopes, g) && DownstreamOf(g, report.order, report.downstream)
    requires (forall p :: p in report.order <==> p in g.nodes) && direct <= g.edges.Keys
    requires Affects(scopes, g, report.order, direct, report.affected)
    requires affected == set i | 0 <= i < |report.affected| :: report.affected[i]
    requires forall p :: p in mismatched <==> Mismatched(report, c, p)
    requires more == GroupsOf(report.files, mismatched)
    requires forall s :: s in scopes ==> s.path in report.downstream
    requires groups == Listed(if report.order != [] then report.order else PathsOf(scopes), scopes,
                              Spread(Direct(scopes, affected + more), report.downstream))
    ensures Affects(scopes, g, report.order, direct + MismatchedScopes(scopes, report, c), groups)
  {
    hide LeastClosed;
    hide Mismatched;
    hide MismatchedScopes;
    var s :| LeastClosed(g, direct, s) && report.affected == Groups(scopes, Kept(report.order, Among(s)));
    LeastStaysInside(g, direct, s);
    DirectOfGroups(scopes, g, report.order, s, affected);
    DirectOfBoth(scopes, affected, more);
    DirectOfMore(scopes, report, c, more, mismatched);
    AffectsLeast(scopes, g, report.order, report.downstream, affected + more, groups);
    var t :| LeastClosed(g, s + MismatchedScopes(scopes, report, c), t)
             && groups == Groups(scopes, Kept(report.order, Among(t)));
    ClosingTwice(g, direct, MismatchedScopes(scopes, report, c), s, t);
  }
}
