/** Reading a scope registration file: its assignments are collected once, then evaluated on demand. */
module RegistrationFile {
  import opened Prelude
  import opened ConstantEvaluator

  // ----- the file -------------------------------------------------------------------------------

  datatype Target = NamedTarget(id: string) | OtherTarget

  /** The statements of a module body, by what the reader makes of them. */
  datatype Statement =
    | SharedImport(relative: bool, names: seq<(string, Option<string>)>) // from the module of shared materials
    | AnnotatedAssign(id: string, annotated: Option<Expr>)
    | Assign(targets: seq<Target>, value: Expr)
    | Import
    | Docstring
    | Unsupported

  datatype Collected = Collected(nodes: map<string, Expr>, central: bool)

  type Shared = Option<map<string, string>>

  predicate ImportOk(central: bool, s: Statement, shared: Shared)
    requires s.SharedImport?
  {
    !central && !s.relative && s.names == [(CENTRAL_NAME, None)] && shared.Some?
  }

  /** One target after the other, each a new name. */
  function Bind(targets: seq<Target>, value: Option<Expr>, shared: Shared, nodes: map<string, Expr>)
    : Result<map<string, Expr>, Reason>
  {
    if targets == [] then Ok(nodes)
    else if !targets[0].NamedTarget? || value.None? then Err(UnsupportedRegistration)
    else if targets[0].id in nodes then Err(DuplicateRegistration)
    else if shared.Some? && targets[0].id == CENTRAL_NAME then Err(DuplicateRegistration)
    else Bind(targets[1..], value, shared, nodes[targets[0].id := value.value])
  }

  /** What one statement adds to what was collected before it. */
  function Next(s: Statement, shared: Shared, so: Collected): Result<Collected, Reason> {
    match s
    case SharedImport(_, _) => if ImportOk(so.central, s, shared) then Ok(so.(central := true)) else Err(InvalidRegistration)
    case AnnotatedAssign(id, value) =>
      var nodes := Bind([NamedTarget(id)], value, shared, so.nodes);
      if nodes.Err? then Err(nodes.error) else Ok(so.(nodes := nodes.value))
    case Assign(targets, value) =>
      var nodes := Bind(targets, Some(value), shared, so.nodes);
      if nodes.Err? then Err(nodes.error) else Ok(so.(nodes := nodes.value))
    case Import => Ok(so)
    case Docstring => Ok(so)
    case Unsupported => Err(UnsupportedRegistration)
  }

  function Collect(tree: seq<Statement>, shared: Shared, so: Collected): Result<Collected, Reason> {
    if tree == [] then Ok(so) else
      var next := Next(tree[0], shared, so);
      if next.Err? then next else Collect(tree[1..], shared, next.value)
  }

  // ----- when a file is accepted ----------------------------------------------------------------

  /** The names a statement binds, with the expression they are bound to. */
  function Bound(s: Statement): seq<(string, Expr)> {
    match s
    case AnnotatedAssign(id, Some(value)) => Pairs([NamedTarget(id)], value)
    case Assign(targets, value) => Pairs(targets, value)
    case _ => []
  }

  function Pairs(targets: seq<Target>, value: Expr): (r: seq<(string, Expr)>)
    ensures |r| == |targets|
  {
    if targets == [] then [] else
      [(if targets[0].NamedTarget? then targets[0].id else "", value)] + Pairs(targets[1..], value)
  }

  function Bindings(tree: seq<Statement>): seq<(string, Expr)> {
    if tree == [] then [] else Bound(tree[0]) + Bindings(tree[1..])
  }

  predicate Understood(s: Statement) {
    match s
    case AnnotatedAssign(_, value) => value.Some?
    case Assign(targets, _) => forall i :: 0 <= i < |targets| ==> targets[i].NamedTarget?
    case Unsupported => false
    case _ => true
  }

  function Names(bindings: seq<(string, Expr)>): set<string> {
    set i | 0 <= i < |bindings| :: bindings[i].0
  }

  ghost predicate NewNames(bindings: seq<(string, Expr)>, taken: set<string>) {
    && (forall i, j :: 0 <= i < j < |bindings| ==> bindings[i].0 != bindings[j].0)
    && (forall i :: 0 <= i < |bindings| ==> bindings[i].0 !in taken)
  }

  function Imports(tree: seq<Statement>): nat {
    if tree == [] then 0 else (if tree[0].SharedImport? then 1 else 0) + Imports(tree[1..])
  }

  /** Every statement is understood, no name is bound twice, and the shared table is imported as it must be. */
  ghost predicate Acceptable(tree: seq<Statement>, shared: Shared, so: Collected) {
    && (forall i :: 0 <= i < |tree| ==> Understood(tree[i]))
    && NewNames(Bindings(tree), so.nodes.Keys + if shared.Some? then {CENTRAL_NAME} else {})
    && Imports(tree) + (if so.central then 1 else 0) <= 1
    && forall i :: 0 <= i < |tree| && tree[i].SharedImport? ==> ImportOk(false, tree[i], shared)
  }

  ghost predicate Extends(nodes: map<string, Expr>, before: map<string, Expr>, bindings: seq<(string, Expr)>) {
    && nodes.Keys == before.Keys + Names(bindings)
    && (forall n :: n in before ==> nodes[n] == before[n])
    && (forall i :: 0 <= i < |bindings| ==> bindings[i].0 in nodes && nodes[bindings[i].0] == bindings[i].1)
  }

  function Reserved(shared: Shared): set<string> {
    if shared.Some? then {CENTRAL_NAME} else {}
  }

  predicate AllNamed(targets: seq<Target>) {
    forall i :: 0 <= i < |targets| ==> targets[i].NamedTarget?
  }

  /** A list of pairs brings new names only if its two halves do, one after the other. */
  lemma NewNamesOfTwo(a: seq<(string, Expr)>, b: seq<(string, Expr)>, taken: set<string>)
    ensures NewNames(a + b, taken) <==> NewNames(a, taken) && NewNames(b, taken + Names(a))
  {
    var names := Names(a);
    if NewNames(a + b, taken) {
      forall i, j | 0 <= i < j < |a| ensures a[i].0 != a[j].0 { assert (a + b)[i] == a[i] && (a + b)[j] == a[j]; }
      forall i, j | 0 <= i < j < |b| ensures b[i].0 != b[j].0 {
        assert (a + b)[|a| + i] == b[i] && (a + b)[|a| + j] == b[j];
      }
      forall i | 0 <= i < |a| ensures a[i].0 !in taken { assert (a + b)[i] == a[i]; }
      forall j | 0 <= j < |b| ensures b[j].0 !in taken + names {
        assert (a + b)[|a| + j] == b[j];
        assert forall i :: 0 <= i < |a| ==> (a + b)[i] == a[i];
      }
    }
    if NewNames(a, taken) && NewNames(b, taken + names) {
      forall i, j | 0 <= i < j < |a + b| ensures (a + b)[i].0 != (a + b)[j].0 {
        if i < |a| <= j {
          assert a[i].0 in names;
          assert b[j - |a|].0 !in names;
        }
      }
    }
  }

  lemma ExtendsInTwo(nodes: map<string, Expr>, mid: map<string, Expr>, before: map<string, Expr>,
                     a: seq<(string, Expr)>, b: seq<(string, Expr)>)
    requires Extends(mid, before, a) && Extends(nodes, mid, b)
    ensures Extends(nodes, before, a + b)
  {
    var s, t, u := Names(a), Names(b), Names(a + b);
    forall n ensures n in u <==> n in s + t {
      if n in s {
        var i :| 0 <= i < |a| && a[i].0 == n;
        assert (a + b)[i] == a[i];
      }
      if n in t {
        var i :| 0 <= i < |b| && b[i].0 == n;
        assert (a + b)[|a| + i] == b[i];
      }
    }
    forall i | 0 <= i < |a + b| ensures (a + b)[i].0 in nodes && nodes[(a + b)[i].0] == (a + b)[i].1 {
      if i >= |a| { assert (a + b)[i] == b[i - |a|]; }
    }
  }

  lemma {:induction false} BindsNewNames(targets: seq<Target>, value: Expr, shared: Shared, nodes: map<string, Expr>)
    ensures var r := Bind(targets, Some(value), shared, nodes);
            && (r.Ok? <==> AllNamed(targets) && NewNames(Pairs(targets, value), nodes.Keys + Reserved(shared)))
            && (r.Ok? ==> Extends(r.value, nodes, Pairs(targets, value)))
  {
    hide Extends;
    hide NewNames;
    if targets == [] {
      NothingIsNew(nodes, shared);
    } else {
      var head, rest := Pairs([targets[0]], value), Pairs(targets[1..], value);
      assert Pairs(targets, value) == head + rest;
      assert AllNamed(targets) <==> targets[0].NamedTarget? && AllNamed(targets[1..]) by {
        assert targets == [targets[0]] + targets[1..];
      }
      NewNamesOfTwo(head, rest, nodes.Keys + Reserved(shared));
      if targets[0].NamedTarget? {
        var id := targets[0].id;
        assert head == [(id, value)];
        OneName(id, value, nodes, shared);
        if id !in nodes && id !in Reserved(shared) {
          var mid := nodes[id := value];
          BindsNewNames(targets[1..], value, shared, mid);
          assert nodes.Keys + Reserved(shared) + {id} == mid.Keys + Reserved(shared);
          if Bind(targets[1..], Some(value), shared, mid).Ok? {
            ExtendsInTwo(Bind(targets[1..], Some(value), shared, mid).value, mid, nodes, head, rest);
          }
        }
      }
    }
  }

  lemma NothingIsNew(nodes: map<string, Expr>, shared: Shared)
    ensures NewNames([], nodes.Keys + Reserved(shared)) && Extends(nodes, nodes, [])
  {
  }

  lemma OneName(id: string, value: Expr, nodes: map<string, Expr>, shared: Shared)
    ensures NewNames([(id, value)], nodes.Keys + Reserved(shared)) <==> id !in nodes && id !in Reserved(shared)
    ensures id !in nodes ==> Extends(nodes[id := value], nodes, [(id, value)])
    ensures Names([(id, value)]) == {id}
  {
    assert [(id, value)][0].0 == id;
    assert Names([(id, value)]) == {id};
  }

  lemma OneStatement(s: Statement, shared: Shared, so: Collected)
    ensures var next := Next(s, shared, so);
            && (next.Ok? <==> && Understood(s) && NewNames(Bound(s), so.nodes.Keys + Reserved(shared))
                              && (s.SharedImport? ==> ImportOk(so.central, s, shared)))
            && (next.Ok? ==> Extends(next.value.nodes, so.nodes, Bound(s)) && next.value.central == (so.central || s.SharedImport?))
  {
    hide Extends;
    hide NewNames;
    NothingIsNew(so.nodes, shared);
    match s
    case AnnotatedAssign(id, Some(value)) => BindsNewNames([NamedTarget(id)], value, shared, so.nodes);
    case Assign(targets, value) => BindsNewNames(targets, value, shared, so.nodes);
    case _ =>
  }

  /** Statement by statement, a file is collected exactly when it is acceptable, and then it binds what it says. */
  lemma {:induction false} CollectsAcceptable(tree: seq<Statement>, shared: Shared, so: Collected)
    ensures var r := Collect(tree, shared, so);
            && (r.Ok? <==> Acceptable(tree, shared, so))
            && (r.Ok? ==> Extends(r.value.nodes, so.nodes, Bindings(tree)))
  {
    hide Extends;
    hide NewNames;
    if tree == [] {
      NothingIsNew(so.nodes, shared);
    } else {
      var s, rest := tree[0], tree[1..];
      assert tree == [s] + rest;
      NewNamesOfTwo(Bound(s), Bindings(rest), so.nodes.Keys + Reserved(shared));
      OneStatement(s, shared, so);
      var next := Next(s, shared, so);
      AcceptableInTwo(s, rest, shared, so);
      if next.Ok? {
        CollectsAcceptable(rest, shared, next.value);
        if Collect(rest, shared, next.value).Ok? {
          ExtendsInTwo(Collect(rest, shared, next.value).value.nodes, next.value.nodes, so.nodes, Bound(s), Bindings(rest));
        }
      }
    }
  }

  lemma AcceptableInTwo(s: Statement, rest: seq<Statement>, shared: Shared, so: Collected)
    ensures Acceptable([s] + rest, shared, so) <==>
              && Next(s, shared, so).Ok? && Acceptable(rest, shared, Next(s, shared, so).value)
  {
    hide NewNames;
    hide Extends;
    hide Bind;
    var tree, next := [s] + rest, Next(s, shared, so);
    assert tree[1..] == rest;
    OneStatement(s, shared, so);
    NewNamesOfTwo(Bound(s), Bindings(rest), so.nodes.Keys + Reserved(shared));
    if next.Ok? {
      KeysOfNext(s, shared, so);
    }
    if Acceptable(tree, shared, so) {
      assert Understood(tree[0]);
      forall i | 0 <= i < |rest| ensures Understood(rest[i]) && (rest[i].SharedImport? ==> ImportOk(false, rest[i], shared)) {
        assert tree[i + 1] == rest[i];
      }
    }
  }

  lemma KeysOfNext(s: Statement, shared: Shared, so: Collected)
    requires Next(s, shared, so).Ok?
    ensures Next(s, shared, so).value.nodes.Keys + Reserved(shared) == so.nodes.Keys + Reserved(shared) + Names(Bound(s))
  {
    OneStatement(s, shared, so);
  }
}
