/** The object that reads a registration file, in the form the code has: a table, and a set of active names. */
module RegistrationConstants {
  import opened Prelude
  import opened ConstantEvaluator
  import opened RegistrationFile
  import C = ConstantEvaluator

  class Constants {
    const shared: Shared
    var central: bool
    var nodes: map<string, Expr>
    var active: set<string>

    constructor (shared: Shared)
      ensures this.shared == shared && nodes == map[] && !central && active == {}
    {
      this.shared := shared;
      nodes, central, active := map[], false, {};
    }

    function Environment(): Env
      reads this
    {
      Env(nodes, central, shared)
    }

    /** Collect the assignments of a file, statement by statement. */
    method Load(tree: seq<Statement>) returns (r: Result<(), Reason>)
      requires nodes == map[] && !central
      modifies `nodes, `central
      ensures r.Ok? <==> Acceptable(tree, shared, Collected(map[], false))
      ensures r.Ok? ==> Extends(nodes, map[], Bindings(tree))
      ensures r.Err? ==> Collect(tree, shared, Collected(map[], false)) == Err(r.error)
    {
      CollectsAcceptable(tree, shared, Collected(map[], false));
      for k := 0 to |tree|
        invariant Collect(tree, shared, Collected(map[], false)) == Collect(tree[k..], shared, Collected(nodes, central))
      {
        var s := tree[k];
        assert tree[k..][0] == s && tree[k..][1..] == tree[k + 1..];
        match s {
          case SharedImport(_, _) =>
            if !ImportOk(central, s, shared) {
              return Err(InvalidRegistration);
            }
            central := true;
          case AnnotatedAssign(id, value) =>
            var bound := BindTargets([NamedTarget(id)], value);
            if bound.Err? {
              return bound;
            }
          case Assign(targets, value) =>
            var bound := BindTargets(targets, Some(value));
            if bound.Err? {
              return bound;
            }
          case Import =>
          case Docstring =>
          case Unsupported => return Err(UnsupportedRegistration);
        }
      }
      return Ok(());
    }

    method BindTargets(targets: seq<Target>, value: Option<Expr>) returns (r: Result<(), Reason>)
      modifies `nodes
      ensures var bound := Bind(targets, value, shared, old(nodes));
              if bound.Ok? then r == Ok(()) && nodes == bound.value else r == Err(bound.error)
    {
      for i := 0 to |targets|
        invariant Bind(targets, value, shared, old(nodes)) == Bind(targets[i..], value, shared, nodes)
      {
        assert targets[i..][1..] == targets[i + 1..];
        if !targets[i].NamedTarget? || value.None? {
          return Err(UnsupportedRegistration);
        }
        if targets[i].id in nodes {
          return Err(DuplicateRegistration);
        }
        if shared.Some? && targets[i].id == CENTRAL_NAME {
          return Err(DuplicateRegistration);
        }
        nodes := nodes[targets[i].id := value.value];
      }
      return Ok(());
    }

    /** The value of a name; the active set is the same after a return and after a raise. */
    method Get(name: string) returns (r: Result<Value, Reason>)
      modifies `active
      ensures active == old(active)
      ensures r == C.Get(Environment(), name, active)
      decreases |nodes.Keys - active|, Name(name), 0, 0
    {
      if name !in nodes || name in active {
        return Err(InvalidRegistration);
      }
      Shrinks(nodes.Keys, active, name);
      active := active + {name};
      r := Evaluate(nodes[name]);
      active := active - {name};
    }

    method Evaluate(node: Expr) returns (r: Result<Value, Reason>)
      modifies `active
      ensures active == old(active)
      ensures r == C.Evaluate(Environment(), node, active)
      decreases |nodes.Keys - active|, node, 1, 0
    {
      match node
      case Subscript(base, index) =>
        if base != CENTRAL_NAME || !central || shared.None? {
          return Err(UnsupportedRegistration);
        }
        var key := Evaluate(index);
        if key.Err? {
          return key;
        }
        if !IsText(key.value) || key.value.literal.text !in shared.value {
          return Err(InvalidRegistration);
        }
        return Ok(Scalar(Text(shared.value[key.value.literal.text])));
      case Constant(literal) => return Ok(Scalar(literal));
      case Name(id) => r := Get(id);
      case TupleExpr(_) =>
        var items := Display(node);
        r := if items.Err? then Err(items.error) else Ok(TupleOf(items.value));
      case ListExpr(_) =>
        var items := Display(node);
        r := if items.Err? then Err(items.error) else Ok(ListOf(items.value));
      case DictExpr(_) =>
        var entries := Merge(node);
        r := if entries.Err? then Err(entries.error) else Ok(DictOf(entries.value));
      case Negate(operand) =>
        var v := Evaluate(operand);
        if v.Err? {
          return v;
        }
        if v.value.Scalar? && v.value.literal.Number? {
          return Ok(Scalar(Number(-v.value.literal.number)));
        }
        return Err(UnsupportedRegistration);
      case OtherExpr => return Err(UnsupportedRegistration);
    }

    /** The items of a tuple or list display, starred parts spliced in. */
    method Display(node: Expr) returns (r: Result<seq<Value>, Reason>)
      requires node.TupleExpr? || node.ListExpr?
      modifies `active
      ensures active == old(active)
      ensures r == Items(Environment(), node, 0, active)
      decreases |nodes.Keys - active|, node, 0, 1
    {
      hide C.Evaluate;
      var items: seq<Value> := [];
      PrefixedNothing(Items(Environment(), node, 0, active));
      for i := 0 to |node.elements|
        invariant active == old(active)
        invariant Items(Environment(), node, 0, active) == Prefixed(items, Items(Environment(), node, i, active))
      {
        var v := Evaluate(node.elements[i].expr);
        if v.Err? {
          return Err(v.error);
        }
        if node.elements[i].Starred? {
          if !v.value.TupleOf? && !v.value.ListOf? {
            return Err(InvalidRegistration);
          }
          PrefixedTwice(items, v.value.items, Items(Environment(), node, i + 1, active));
          items := items + v.value.items;
        } else {
          PrefixedTwice(items, [v.value], Items(Environment(), node, i + 1, active));
          items := items + [v.value];
        }
      }
      assert items + [] == items;
      return Ok(items);
    }

    /** The entries of a dictionary display, merged pair by pair. */
    method Merge(node: Expr) returns (r: Result<seq<(string, Value)>, Reason>)
      requires node.DictExpr?
      modifies `active
      ensures active == old(active)
      ensures r == Entries(Environment(), node, 0, [], active)
      decreases |nodes.Keys - active|, node, 0, 1
    {
      var result: seq<(string, Value)> := [];
      for i := 0 to |node.pairs|
        invariant active == old(active)
        invariant Entries(Environment(), node, 0, [], active) == Entries(Environment(), node, i, result, active)
      {
        var entries: seq<(string, Value)>;
        match node.pairs[i] {
          case Splat(value) =>
            var merged := Evaluate(value);
            if merged.Err? {
              return Err(merged.error);
            }
            if !merged.value.DictOf? {
              return Err(InvalidRegistration);
            }
            entries := merged.value.entries;
          case Keyed(key, value) =>
            var decoded := Evaluate(key);
            if decoded.Err? {
              return Err(decoded.error);
            }
            if !IsText(decoded.value) {
              return Err(InvalidRegistration);
            }
            var v := Evaluate(value);
            if v.Err? {
              return Err(v.error);
            }
            entries := [(decoded.value.literal.text, v.value)];
        }
        if Overlap(result, entries) {
          return Err(DuplicateCountKey);
        }
        result := result + entries;
      }
      return Ok(result);
    }
  }

  function Prefixed(items: seq<Value>, rest: Result<seq<Value>, Reason>): Result<seq<Value>, Reason> {
    if rest.Err? then rest else Ok(items + rest.value)
  }

  lemma PrefixedNothing(rest: Result<seq<Value>, Reason>)
    ensures Prefixed([], rest) == rest
  {
    if rest.Ok? { assert [] + rest.value == rest.value; }
  }

  lemma PrefixedTwice(a: seq<Value>, b: seq<Value>, rest: Result<seq<Value>, Reason>)
    ensures Prefixed(a, Prefixed(b, rest)) == Prefixed(a + b, rest)
  {
    if rest.Ok? { assert a + (b + rest.value) == (a + b) + rest.value; }
  }
}
