/**
 * The small interpreter that reads the constants of a scope registration file: names, tuples and lists with
 * spliced parts, merged dictionaries, negation and one shared table, with cycles caught by a set of active names.
 */
module ConstantEvaluator {
  import opened Prelude

  // ----- the language ---------------------------------------------------------------------------

  /** `Opaque` stands for every other constant: None, floats, bytes, the ellipsis. */
  datatype Literal = Text(text: string) | Number(number: int) | Truth(truth: bool) | Opaque(kind: int)

  datatype Value =
    | Scalar(literal: Literal)
    | TupleOf(items: seq<Value>)
    | ListOf(items: seq<Value>)
    | DictOf(entries: seq<(string, Value)>) // in insertion order

  datatype Expr =
    | Constant(literal: Literal)
    | Name(id: string)
    | TupleExpr(elements: seq<Element>)
    | ListExpr(elements: seq<Element>)
    | DictExpr(pairs: seq<Pair>)
    | Negate(operand: Expr)
    | Subscript(base: string, index: Expr)
    | OtherExpr

  datatype Element = Plain(expr: Expr) | Starred(expr: Expr)

  datatype Pair = Keyed(key: Expr, value: Expr) | Splat(value: Expr)

  datatype Reason =
    InvalidRegistration | UnsupportedRegistration | DuplicateRegistration | DuplicateCountKey

  const CENTRAL_NAME := "SHARED_MATERIALS"

  /** What an evaluation reads: the assignments of the file and, if imported, the shared table. */
  datatype Env = Env(nodes: map<string, Expr>, central: bool, shared: Option<map<string, string>>)

  function Spliced(v: Value): Option<seq<Value>> {
    if v.TupleOf? || v.ListOf? then Some(v.items) else None
  }

  predicate HasKey(entries: seq<(string, Value)>, key: string) {
    exists i :: 0 <= i < |entries| && entries[i].0 == key
  }

  predicate Overlap(a: seq<(string, Value)>, b: seq<(string, Value)>) {
    exists i :: 0 <= i < |b| && HasKey(a, b[i].0)
  }

  // ----- what one evaluation answers ------------------------------------------------------------

  function Evaluate(env: Env, e: Expr, active: set<string>): Result<Value, Reason>
    decreases |env.nodes.Keys - active|, e, 1, 0
  {
    match e
    case Subscript(base, index) =>
      if base != CENTRAL_NAME || !env.central || env.shared.None? then Err(UnsupportedRegistration) else
        var key := Evaluate(env, index, active);
        if key.Err? then key
        else if !IsText(key.value) || key.value.literal.text !in env.shared.value then Err(InvalidRegistration)
        else Ok(Scalar(Text(env.shared.value[key.value.literal.text])))
    case Constant(literal) => Ok(Scalar(literal))
    case Name(id) => Get(env, id, active)
    case TupleExpr(_) =>
      var items := Items(env, e, 0, active);
      if items.Err? then Err(items.error) else Ok(TupleOf(items.value))
    case ListExpr(_) =>
      var items := Items(env, e, 0, active);
      if items.Err? then Err(items.error) else Ok(ListOf(items.value))
    case DictExpr(_) =>
      var entries := Entries(env, e, 0, [], active);
      if entries.Err? then Err(entries.error) else Ok(DictOf(entries.value))
    case Negate(operand) =>
      var v := Evaluate(env, operand, active);
      if v.Err? then v
      else if v.value.Scalar? && v.value.literal.Number? then Ok(Scalar(Number(-v.value.literal.number)))
      else Err(UnsupportedRegistration)
    case OtherExpr => Err(UnsupportedRegistration)
  }

  predicate IsText(v: Value) { v.Scalar? && v.literal.Text? }

  function Get(env: Env, name: string, active: set<string>): Result<Value, Reason>
    decreases |env.nodes.Keys - active|, Name(name), 0, 0
  {
    if name !in env.nodes || name in active then Err(InvalidRegistration) else
      Shrinks(env.nodes.Keys, active, name);
      Evaluate(env, env.nodes[name], active + {name})
  }

  lemma Shrinks(names: set<string>, active: set<string>, name: string)
    requires name in names && name !in active
    ensures |names - (active + {name})| < |names - active|
  {
    assert names - active == (names - (active + {name})) + {name};
  }

  /** The elements of a tuple or list from index `i` on, starred ones spliced in. */
  function Items(env: Env, e: Expr, i: nat, active: set<string>): Result<seq<Value>, Reason>
    requires (e.TupleExpr? || e.ListExpr?) && i <= |e.elements|
    decreases |env.nodes.Keys - active|, e, 0, |e.elements| - i
  {
    if i == |e.elements| then Ok([]) else
      var v := Evaluate(env, e.elements[i].expr, active);
      if v.Err? then Err(v.error)
      else if e.elements[i].Starred? && Spliced(v.value).None? then Err(InvalidRegistration)
      else
        var rest := Items(env, e, i + 1, active);
        if rest.Err? then rest
        else Ok((if e.elements[i].Starred? then Spliced(v.value).value else [v.value]) + rest.value)
  }

  /** What one pair of a dictionary display contributes. */
  function PairEntries(env: Env, e: Expr, i: nat, active: set<string>): Result<seq<(string, Value)>, Reason>
    requires e.DictExpr? && i < |e.pairs|
    decreases |env.nodes.Keys - active|, e, 0, 0
  {
    match e.pairs[i]
    case Splat(value) =>
      var merged := Evaluate(env, value, active);
      if merged.Err? then Err(merged.error)
      else if !merged.value.DictOf? then Err(InvalidRegistration)
      else Ok(merged.value.entries)
    case Keyed(key, value) =>
      var decoded := Evaluate(env, key, active);
      if decoded.Err? then Err(decoded.error)
      else if !IsText(decoded.value) then Err(InvalidRegistration)
      else
        var v := Evaluate(env, value, active);
        if v.Err? then Err(v.error) else Ok([(decoded.value.literal.text, v.value)])
  }

  /** The pairs from index `i` on, merged into `result`; no key may appear twice. */
  function Entries(env: Env, e: Expr, i: nat, result: seq<(string, Value)>, active: set<string>)
    : Result<seq<(string, Value)>, Reason>
    requires e.DictExpr? && i <= |e.pairs|
    decreases |env.nodes.Keys - active|, e, 0, 1 + |e.pairs| - i
  {
    if i == |e.pairs| then Ok(result) else
      var entries := PairEntries(env, e, i, active);
      if entries.Err? then entries
      else if Overlap(result, entries.value) then Err(DuplicateCountKey)
      else Entries(env, e, i + 1, result + entries.value, active)
  }

  // ----- derivations: what the value of an expression is, with no notion of active names ----------

  datatype Tree =
    | ConstantRule
    | NameRule(body: Tree)
    | NegateRule(body: Tree, operand: int)
    | SharedRule(body: Tree, key: string)
    | SequenceRule(parts: Trees)
    | DictRule(merges: Merges)

  datatype Trees = NoTrees | MoreTrees(head: Tree, value: Value, tail: Trees)

  datatype Merges =
    | NoMerges
    | SplatMerge(body: Tree, entries: seq<(string, Value)>, tail: Merges)
    | KeyedMerge(keyTree: Tree, key: string, valueTree: Tree, value: Value, tail: Merges)

  /** The tree derives that the expression has the value. */
  ghost predicate Derives(env: Env, t: Tree, e: Expr, v: Value)
    decreases t
  {
    match t
    case ConstantRule => e.Constant? && v == Scalar(e.literal)
    case NameRule(body) => e.Name? && e.id in env.nodes && Derives(env, body, env.nodes[e.id], v)
    case NegateRule(body, n) => e.Negate? && Derives(env, body, e.operand, Scalar(Number(n))) && v == Scalar(Number(-n))
    case SharedRule(body, key) =>
      && e.Subscript? && e.base == CENTRAL_NAME && env.central && env.shared.Some?
      && Derives(env, body, e.index, Scalar(Text(key))) && key in env.shared.value
      && v == Scalar(Text(env.shared.value[key]))
    case SequenceRule(parts) =>
      match v {
        case TupleOf(items) => e.TupleExpr? && DeriveItems(env, parts, e.elements, 0, items)
        case ListOf(items) => e.ListExpr? && DeriveItems(env, parts, e.elements, 0, items)
        case _ => false
      }
    case DictRule(merges) => e.DictExpr? && v.DictOf? && DeriveEntries(env, merges, e.pairs, 0, [], v.entries)
  }

  /** Element by element: a starred one contributes the items of a tuple or list, a plain one itself. */
  ghost predicate DeriveItems(env: Env, ts: Trees, elements: seq<Element>, i: nat, items: seq<Value>)
    decreases ts
  {
    match ts
    case NoTrees => i == |elements| && items == []
    case MoreTrees(head, value, tail) =>
      && i < |elements| && Derives(env, head, elements[i].expr, value)
      && (elements[i].Starred? ==> Spliced(value).Some?)
      && var front := if elements[i].Starred? then Spliced(value).value else [value];
         front <= items && DeriveItems(env, tail, elements, i + 1, items[|front|..])
  }

  /** Pair by pair: what each contributes is disjoint from what was merged before. */
  ghost predicate DeriveEntries(env: Env, ms: Merges, pairs: seq<Pair>, i: nat, before: seq<(string, Value)>,
                                entries: seq<(string, Value)>)
    decreases ms
  {
    match ms
    case NoMerges => i == |pairs| && entries == before
    case SplatMerge(body, merged, tail) =>
      && i < |pairs| && pairs[i].Splat? && Derives(env, body, pairs[i].value, DictOf(merged))
      && !Overlap(before, merged) && DeriveEntries(env, tail, pairs, i + 1, before + merged, entries)
    case KeyedMerge(keyTree, key, valueTree, value, tail) =>
      && i < |pairs| && pairs[i].Keyed? && Derives(env, keyTree, pairs[i].key, Scalar(Text(key)))
      && Derives(env, valueTree, pairs[i].value, value)
      && !Overlap(before, [(key, value)]) && DeriveEntries(env, tail, pairs, i + 1, before + [(key, value)], entries)
  }

  // ----- derivations are unique -----------------------------------------------------------------

  lemma {:induction false} Unique(env: Env, s: Tree, t: Tree, e: Expr, v: Value, w: Value)
    requires Derives(env, s, e, v) && Derives(env, t, e, w)
    ensures s == t && v == w
    decreases s
  {
    match s
    case ConstantRule =>
    case NameRule(body) => Unique(env, body, t.body, env.nodes[e.id], v, w);
    case NegateRule(body, n) => Unique(env, body, t.body, e.operand, Scalar(Number(n)), Scalar(Number(t.operand)));
    case SharedRule(body, key) => Unique(env, body, t.body, e.index, Scalar(Text(key)), Scalar(Text(t.key)));
    case SequenceRule(parts) => UniqueItems(env, parts, t.parts, e.elements, 0, v.items, w.items);
    case DictRule(merges) => UniqueEntries(env, merges, t.merges, e.pairs, 0, [], v.entries, w.entries);
  }

  lemma {:induction false} UniqueItems(env: Env, s: Trees, t: Trees, elements: seq<Element>, i: nat, v: seq<Value>, w: seq<Value>)
    requires DeriveItems(env, s, elements, i, v) && DeriveItems(env, t, elements, i, w)
    ensures s == t && v == w
    decreases s
  {
    if s.MoreTrees? {
      Unique(env, s.head, t.head, elements[i].expr, s.value, t.value);
      var n := if elements[i].Starred? then |Spliced(s.value).value| else 1;
      UniqueItems(env, s.tail, t.tail, elements, i + 1, v[n..], w[n..]);
      assert v == v[..n] + v[n..] && w == w[..n] + w[n..];
    }
  }

  lemma {:induction false} UniqueEntries(env: Env, s: Merges, t: Merges, pairs: seq<Pair>, i: nat,
                                         before: seq<(string, Value)>, v: seq<(string, Value)>, w: seq<(string, Value)>)
    requires DeriveEntries(env, s, pairs, i, before, v) && DeriveEntries(env, t, pairs, i, before, w)
    ensures s == t && v == w
    decreases s
  {
    match s
    case NoMerges =>
    case SplatMerge(body, merged, tail) =>
      Unique(env, body, t.body, pairs[i].value, DictOf(merged), DictOf(t.entries));
      UniqueEntries(env, tail, t.tail, pairs, i + 1, before + merged, v, w);
    case KeyedMerge(keyTree, key, valueTree, value, tail) =>
      Unique(env, keyTree, t.keyTree, pairs[i].key, Scalar(Text(key)), Scalar(Text(t.key)));
      Unique(env, valueTree, t.valueTree, pairs[i].value, value, t.value);
      UniqueEntries(env, tail, t.tail, pairs, i + 1, before + [(key, value)], v, w);
  }

  // ----- completeness: whatever can be derived is computed ----------------------------------------

  function Size(t: Tree): nat {
    match t
    case ConstantRule => 1
    case NameRule(body) => 1 + Size(body)
    case NegateRule(body, _) => 1 + Size(body)
    case SharedRule(body, _) => 1 + Size(body)
    case SequenceRule(parts) => 1 + SizeOfItems(parts)
    case DictRule(merges) => 1 + SizeOfMerges(merges)
  }

  function SizeOfItems(ts: Trees): nat {
    match ts case NoTrees => 0 case MoreTrees(head, _, tail) => Size(head) + SizeOfItems(tail)
  }

  function SizeOfMerges(ms: Merges): nat {
    match ms
    case NoMerges => 0
    case SplatMerge(body, _, tail) => Size(body) + SizeOfMerges(tail)
    case KeyedMerge(keyTree, _, valueTree, _, tail) => Size(keyTree) + Size(valueTree) + SizeOfMerges(tail)
  }

  /** The derivations under way: one for each active name, none smaller than what is being derived now. */
  ghost predicate Under(env: Env, active: set<string>, above: map<string, (Tree, Value)>, size: nat) {
    && above.Keys == active
    && forall n :: n in active ==>
         n in env.nodes && Derives(env, above[n].0, env.nodes[n], above[n].1) && size <= Size(above[n].0)
  }

  lemma {:induction false} Completeness(env: Env, t: Tree, e: Expr, v: Value, active: set<string>, above: map<string, (Tree, Value)>)
    requires Derives(env, t, e, v) && Under(env, active, above, Size(t))
    ensures Evaluate(env, e, active) == Ok(v)
    decreases t
  {
    match t
    case ConstantRule =>
    case NameRule(body) =>
      if e.id in active {
        Unique(env, body, above[e.id].0, env.nodes[e.id], v, above[e.id].1);
        assert false;
      }
      Completeness(env, body, env.nodes[e.id], v, active + {e.id}, above[e.id := (body, v)]);
    case NegateRule(body, n) => Completeness(env, body, e.operand, Scalar(Number(n)), active, above);
    case SharedRule(body, key) => Completeness(env, body, e.index, Scalar(Text(key)), active, above);
    case SequenceRule(parts) => ItemsComplete(env, parts, e, 0, v.items, active, above);
    case DictRule(merges) => EntriesComplete(env, merges, e, 0, [], v.entries, active, above);
  }

  lemma {:induction false} ItemsComplete(env: Env, ts: Trees, e: Expr, i: nat, items: seq<Value>, active: set<string>,
                                          above: map<string, (Tree, Value)>)
    requires (e.TupleExpr? || e.ListExpr?) && i <= |e.elements|
    requires DeriveItems(env, ts, e.elements, i, items) && Under(env, active, above, SizeOfItems(ts))
    ensures Items(env, e, i, active) == Ok(items)
    decreases ts
  {
    hide Evaluate;
    hide Derives;
    if ts.MoreTrees? {
      Completeness(env, ts.head, e.elements[i].expr, ts.value, active, above);
      var front := if e.elements[i].Starred? then Spliced(ts.value).value else [ts.value];
      hide Under;
      ItemsComplete(env, ts.tail, e, i + 1, items[|front|..], active, above);
      ItemsUnfold(env, e, i, active, ts.value, items);
    }
  }

  lemma ItemsUnfold(env: Env, e: Expr, i: nat, active: set<string>, value: Value, items: seq<Value>)
    requires (e.TupleExpr? || e.ListExpr?) && i < |e.elements| && Evaluate(env, e.elements[i].expr, active) == Ok(value)
    requires e.elements[i].Starred? ==> Spliced(value).Some?
    requires var front := if e.elements[i].Starred? then Spliced(value).value else [value];
             front <= items && Items(env, e, i + 1, active) == Ok(items[|front|..])
    ensures Items(env, e, i, active) == Ok(items)
  {
    hide Evaluate;
    var front := if e.elements[i].Starred? then Spliced(value).value else [value];
    assert items == front + items[|front|..];
  }

  lemma {:induction false} EntriesComplete(env: Env, ms: Merges, e: Expr, i: nat, before: seq<(string, Value)>,
                                            entries: seq<(string, Value)>, active: set<string>, above: map<string, (Tree, Value)>)
    requires e.DictExpr? && i <= |e.pairs|
    requires DeriveEntries(env, ms, e.pairs, i, before, entries) && Under(env, active, above, SizeOfMerges(ms))
    ensures Entries(env, e, i, before, active) == Ok(entries)
    decreases ms
  {
    match ms
    case NoMerges =>
    case SplatMerge(body, merged, tail) =>
      Completeness(env, body, e.pairs[i].value, DictOf(merged), active, above);
      EntriesComplete(env, tail, e, i + 1, before + merged, entries, active, above);
    case KeyedMerge(keyTree, key, valueTree, value, tail) =>
      Completeness(env, keyTree, e.pairs[i].key, Scalar(Text(key)), active, above);
      Completeness(env, valueTree, e.pairs[i].value, value, active, above);
      EntriesComplete(env, tail, e, i + 1, before + [(key, value)], entries, active, above);
  }

  // ----- soundness: whatever is computed can be derived --------------------------------------------

  lemma {:induction false} Soundness(env: Env, e: Expr, active: set<string>) returns (t: Tree)
    requires Evaluate(env, e, active).Ok?
    ensures Derives(env, t, e, Evaluate(env, e, active).value)
    decreases |env.nodes.Keys - active|, e, 1, 0
  {
    hide Derives;
    hide Evaluate;
    match e
    case Subscript(_, index) =>
      SharedParts(env, e, active);
      var body := Soundness(env, index, active);
      t := SharedSound(env, body, e, active);
    case Constant(_) => t := ConstantSound(env, e, active);
    case Name(id) =>
      NameParts(env, e, active);
      var body := Soundness(env, env.nodes[id], active + {id});
      t := NameSound(env, body, e, active);
    case TupleExpr(_) => t := DisplaySound(env, e, active);
    case ListExpr(_) => t := DisplaySound(env, e, active);
    case DictExpr(_) => t := DictSound(env, e, active);
    case Negate(operand) =>
      NegateParts(env, e, active);
      var body := Soundness(env, operand, active);
      t := NegateSound(env, body, e, active);
    case OtherExpr => NothingElse(env, e, active);
  }

  lemma NothingElse(env: Env, e: Expr, active: set<string>)
    requires e.OtherExpr?
    ensures Evaluate(env, e, active).Err?
  {
  }

  lemma ConstantSound(env: Env, e: Expr, active: set<string>) returns (t: Tree)
    requires e.Constant?
    ensures Evaluate(env, e, active).Ok? && Derives(env, t, e, Evaluate(env, e, active).value)
  {
    t := ConstantRule;
  }

  lemma SharedParts(env: Env, e: Expr, active: set<string>)
    requires e.Subscript? && Evaluate(env, e, active).Ok?
    ensures Evaluate(env, e.index, active).Ok?
  {
  }

  lemma SharedSound(env: Env, body: Tree, e: Expr, active: set<string>) returns (t: Tree)
    requires e.Subscript? && Evaluate(env, e, active).Ok? && Evaluate(env, e.index, active).Ok?
    requires Derives(env, body, e.index, Evaluate(env, e.index, active).value)
    ensures Derives(env, t, e, Evaluate(env, e, active).value)
  {
    t := SharedRule(body, Evaluate(env, e.index, active).value.literal.text);
  }

  lemma NameParts(env: Env, e: Expr, active: set<string>)
    requires e.Name? && Evaluate(env, e, active).Ok?
    ensures e.id in env.nodes && Evaluate(env, e, active) == Evaluate(env, env.nodes[e.id], active + {e.id})
    ensures |env.nodes.Keys - (active + {e.id})| < |env.nodes.Keys - active|
  {
    Shrinks(env.nodes.Keys, active, e.id);
  }

  lemma NameSound(env: Env, body: Tree, e: Expr, active: set<string>) returns (t: Tree)
    requires e.Name? && e.id in env.nodes && Evaluate(env, e, active).Ok?
    requires Derives(env, body, env.nodes[e.id], Evaluate(env, e, active).value)
    ensures Derives(env, t, e, Evaluate(env, e, active).value)
  {
    hide Evaluate;
    t := NameRule(body);
  }

  lemma NegateParts(env: Env, e: Expr, active: set<string>)
    requires e.Negate? && Evaluate(env, e, active).Ok?
    ensures Evaluate(env, e.operand, active).Ok?
  {
  }

  lemma NegateSound(env: Env, body: Tree, e: Expr, active: set<string>) returns (t: Tree)
    requires e.Negate? && Evaluate(env, e, active).Ok? && Evaluate(env, e.operand, active).Ok?
    requires Derives(env, body, e.operand, Evaluate(env, e.operand, active).value)
    ensures Derives(env, t, e, Evaluate(env, e, active).value)
  {
    t := NegateRule(body, Evaluate(env, e.operand, active).value.literal.number);
  }

  lemma {:induction false} DictSound(env: Env, e: Expr, active: set<string>) returns (t: Tree)
    requires e.DictExpr? && Evaluate(env, e, active).Ok?
    ensures Derives(env, t, e, Evaluate(env, e, active).value)
    decreases |env.nodes.Keys - active|, e, 0, |e.pairs| + 2
  {
    hide Derives;
    var merges := EntriesSound(env, e, 0, [], active);
    t := DictRule(merges);
    DictDerives(env, merges, e, Evaluate(env, e, active).value);
  }

  lemma DictDerives(env: Env, merges: Merges, e: Expr, v: Value)
    requires e.DictExpr? && v.DictOf? && DeriveEntries(env, merges, e.pairs, 0, [], v.entries)
    ensures Derives(env, DictRule(merges), e, v)
  {
  }

  lemma {:induction false} DisplaySound(env: Env, e: Expr, active: set<string>) returns (t: Tree)
    requires (e.TupleExpr? || e.ListExpr?) && Evaluate(env, e, active).Ok?
    ensures Derives(env, t, e, Evaluate(env, e, active).value)
    decreases |env.nodes.Keys - active|, e, 0, |e.elements| + 1
  {
    var parts := ItemsSound(env, e, 0, active);
    t := SequenceRule(parts);
  }

  lemma {:induction false} ItemsSound(env: Env, e: Expr, i: nat, active: set<string>) returns (ts: Trees)
    requires (e.TupleExpr? || e.ListExpr?) && i <= |e.elements| && Items(env, e, i, active).Ok?
    ensures DeriveItems(env, ts, e.elements, i, Items(env, e, i, active).value)
    decreases |env.nodes.Keys - active|, e, 0, |e.elements| - i
  {
    if i == |e.elements| {
      ts := NoTrees;
    } else {
      var head := Soundness(env, e.elements[i].expr, active);
      var tail := ItemsSound(env, e, i + 1, active);
      ts := MoreTrees(head, Evaluate(env, e.elements[i].expr, active).value, tail);
      var front := if e.elements[i].Starred? then Spliced(ts.value).value else [ts.value];
      assert Items(env, e, i, active).value[|front|..] == Items(env, e, i + 1, active).value;
    }
  }

  lemma {:induction false} EntriesSound(env: Env, e: Expr, i: nat, before: seq<(string, Value)>, active: set<string>)
    returns (ms: Merges)
    requires e.DictExpr? && i <= |e.pairs| && Entries(env, e, i, before, active).Ok?
    ensures DeriveEntries(env, ms, e.pairs, i, before, Entries(env, e, i, before, active).value)
    decreases |env.nodes.Keys - active|, e, 0, 1 + |e.pairs| - i
  {
    if i == |e.pairs| {
      ms := NoMerges;
    } else {
      var entries := PairEntries(env, e, i, active).value;
      var tail := EntriesSound(env, e, i + 1, before + entries, active);
      match e.pairs[i] {
        case Splat(value) =>
          var body := Soundness(env, value, active);
          ms := SplatMerge(body, entries, tail);
        case Keyed(key, value) =>
          var keyTree := Soundness(env, key, active);
          var valueTree := Soundness(env, value, active);
          ms := KeyedMerge(keyTree, entries[0].0, valueTree, entries[0].1, tail);
      }
    }
  }

  // ----- the theorems ---------------------------------------------------------------------------

  ghost predicate Derivable(env: Env, e: Expr, v: Value) {
    exists t :: Derives(env, t, e, v)
  }

  /** `get` answers a value exactly when a finite derivation gives it: the active set changes nothing else. */
  lemma GetIsSoundAndComplete(env: Env, name: string, v: Value)
    ensures Get(env, name, {}) == Ok(v) <==> Derivable(env, Name(name), v)
  {
    assert Evaluate(env, Name(name), {}) == Get(env, name, {});
    if Get(env, name, {}).Ok? {
      var t := Soundness(env, Name(name), {});
      assert Derives(env, t, Name(name), Get(env, name, {}).value);
    }
    if Derivable(env, Name(name), v) {
      var t :| Derives(env, t, Name(name), v);
      Completeness(env, t, Name(name), v, {}, map[]);
    }
  }

  /** The expression refers to the name, outside of any nested definition. */
  ghost predicate Mentions(e: Expr, name: string) {
    match e
    case Name(id) => id == name
    case TupleExpr(elements) => exists i :: 0 <= i < |elements| && Mentions(elements[i].expr, name)
    case ListExpr(elements) => exists i :: 0 <= i < |elements| && Mentions(elements[i].expr, name)
    case DictExpr(pairs) =>
      exists i :: 0 <= i < |pairs| && (Mentions(pairs[i].value, name) || (pairs[i].Keyed? && Mentions(pairs[i].key, name)))
    case Negate(operand) => Mentions(operand, name)
    case Subscript(_, index) => Mentions(index, name)
    case _ => false
  }

  /** A derivation contains a derivation of every name the expression mentions. */
  lemma {:induction false} MentionedIsDerived(env: Env, t: Tree, e: Expr, v: Value, name: string) returns (sub: Tree, w: Value)
    requires Derives(env, t, e, v) && Mentions(e, name)
    ensures name in env.nodes && Derives(env, sub, env.nodes[name], w) && Size(sub) < Size(t)
    decreases t
  {
    match t
    case NameRule(body) => sub, w := body, v;
    case NegateRule(body, n) => sub, w := MentionedIsDerived(env, body, e.operand, Scalar(Number(n)), name);
    case SharedRule(body, key) => sub, w := MentionedIsDerived(env, body, e.index, Scalar(Text(key)), name);
    case SequenceRule(parts) =>
      var j :| 0 <= j < |e.elements| && Mentions(e.elements[j].expr, name);
      sub, w := MentionedInItems(env, parts, e.elements, 0, v.items, j, name);
    case DictRule(merges) =>
      var j :| 0 <= j < |e.pairs| && (Mentions(e.pairs[j].value, name) || (e.pairs[j].Keyed? && Mentions(e.pairs[j].key, name)));
      sub, w := MentionedInPairs(env, merges, e.pairs, 0, [], v.entries, j, name);
  }

  lemma {:induction false} MentionedInItems(env: Env, ts: Trees, elements: seq<Element>, i: nat, items: seq<Value>,
                                             j: nat, name: string) returns (sub: Tree, w: Value)
    requires DeriveItems(env, ts, elements, i, items) && i <= j < |elements| && Mentions(elements[j].expr, name)
    ensures name in env.nodes && Derives(env, sub, env.nodes[name], w) && Size(sub) <= SizeOfItems(ts)
    decreases ts
  {
    if i == j {
      sub, w := MentionedIsDerived(env, ts.head, elements[i].expr, ts.value, name);
    } else {
      var n := if elements[i].Starred? then |Spliced(ts.value).value| else 1;
      sub, w := MentionedInItems(env, ts.tail, elements, i + 1, items[n..], j, name);
    }
  }

  lemma {:induction false} MentionedInPairs(env: Env, ms: Merges, pairs: seq<Pair>, i: nat, before: seq<(string, Value)>,
                                             entries: seq<(string, Value)>, j: nat, name: string) returns (sub: Tree, w: Value)
    requires DeriveEntries(env, ms, pairs, i, before, entries) && i <= j < |pairs|
    requires Mentions(pairs[j].value, name) || (pairs[j].Keyed? && Mentions(pairs[j].key, name))
    ensures name in env.nodes && Derives(env, sub, env.nodes[name], w) && Size(sub) <= SizeOfMerges(ms)
    decreases ms
  {
    match ms
    case SplatMerge(body, merged, tail) =>
      if i == j {
        sub, w := MentionedIsDerived(env, body, pairs[i].value, DictOf(merged), name);
      } else {
        sub, w := MentionedInPairs(env, tail, pairs, i + 1, before + merged, entries, j, name);
      }
    case KeyedMerge(keyTree, key, valueTree, value, tail) =>
      if i == j {
        if Mentions(pairs[i].value, name) {
          sub, w := MentionedIsDerived(env, valueTree, pairs[i].value, value, name);
        } else {
          sub, w := MentionedIsDerived(env, keyTree, pairs[i].key, Scalar(Text(key)), name);
        }
      } else {
        sub, w := MentionedInPairs(env, tail, pairs, i + 1, before + [(key, value)], entries, j, name);
      }
  }

  /** A chain of definitions: each one mentions the next name. */
  ghost predicate Chain(env: Env, names: seq<string>) {
    forall i :: 0 <= i < |names| - 1 ==> names[i] in env.nodes && Mentions(env.nodes[names[i]], names[i + 1])
  }

  /** Along a chain derivations get strictly smaller. */
  lemma {:induction false} ChainDescends(env: Env, names: seq<string>, t: Tree, v: Value) returns (last: Tree, w: Value)
    requires names != [] && Chain(env, names) && names[0] in env.nodes && Derives(env, t, env.nodes[names[0]], v)
    ensures names[|names| - 1] in env.nodes && Derives(env, last, env.nodes[names[|names| - 1]], w)
    ensures Size(last) + |names| <= Size(t) + 1
    decreases |names|
  {
    if |names| == 1 {
      last, w := t, v;
    } else {
      var sub, u := MentionedIsDerived(env, t, env.nodes[names[0]], v, names[1]);
      assert forall i :: 0 <= i < |names[1..]| ==> names[1..][i] == names[i + 1];
      last, w := ChainDescends(env, names[1..], sub, u);
    }
  }

  /** A name that leads back to itself, or to a missing name, is always refused. */
  lemma CyclesAndGapsFail(env: Env, names: seq<string>)
    requires |names| > 1 && Chain(env, names)
    requires names[|names| - 1] == names[0] || names[|names| - 1] !in env.nodes
    ensures Get(env, names[0], {}).Err?
  {
    if Get(env, names[0], {}).Ok? {
      var t := Soundness(env, Name(names[0]), {});
      var v := Get(env, names[0], {}).value;
      var last, w := ChainDescends(env, names, t.body, v);
      Unique(env, last, t.body, env.nodes[names[0]], w, v);
      assert false;
    }
  }

  // ----- dictionaries never repeat a key -----------------------------------------------------------

  ghost predicate DistinctKeys(entries: seq<(string, Value)>) {
    forall i, j :: 0 <= i < j < |entries| ==> entries[i].0 != entries[j].0
  }

  ghost predicate NoRepeatedKey(v: Value) {
    match v
    case Scalar(_) => true
    case TupleOf(items) => forall i :: 0 <= i < |items| ==> NoRepeatedKey(items[i])
    case ListOf(items) => forall i :: 0 <= i < |items| ==> NoRepeatedKey(items[i])
    case DictOf(entries) => DistinctKeys(entries) && forall i :: 0 <= i < |entries| ==> NoRepeatedKey(entries[i].1)
  }

  lemma {:induction false} ValuesAreClean(env: Env, t: Tree, e: Expr, v: Value)
    requires Derives(env, t, e, v)
    ensures NoRepeatedKey(v)
    decreases t
  {
    match t
    case ConstantRule =>
    case NameRule(body) => ValuesAreClean(env, body, env.nodes[e.id], v);
    case NegateRule(_, _) =>
    case SharedRule(_, _) =>
    case SequenceRule(parts) => ItemsAreClean(env, parts, e.elements, 0, v.items);
    case DictRule(merges) => EntriesAreClean(env, merges, e.pairs, 0, [], v.entries);
  }

  lemma {:induction false} ItemsAreClean(env: Env, ts: Trees, elements: seq<Element>, i: nat, items: seq<Value>)
    requires DeriveItems(env, ts, elements, i, items)
    ensures forall k :: 0 <= k < |items| ==> NoRepeatedKey(items[k])
    decreases ts
  {
    if ts.MoreTrees? {
      ValuesAreClean(env, ts.head, elements[i].expr, ts.value);
      var front := if elements[i].Starred? then Spliced(ts.value).value else [ts.value];
      ItemsAreClean(env, ts.tail, elements, i + 1, items[|front|..]);
      assert items == front + items[|front|..];
    }
  }

  ghost predicate CleanEntries(entries: seq<(string, Value)>) {
    DistinctKeys(entries) && forall i :: 0 <= i < |entries| ==> NoRepeatedKey(entries[i].1)
  }

  lemma MergedIsClean(before: seq<(string, Value)>, more: seq<(string, Value)>)
    requires CleanEntries(before) && CleanEntries(more) && !Overlap(before, more)
    ensures CleanEntries(before + more)
  {
    forall i, j | 0 <= i < j < |before + more| ensures (before + more)[i].0 != (before + more)[j].0 {
      if i < |before| <= j {
        assert !HasKey(before, more[j - |before|].0);
      }
    }
  }

  lemma {:induction false} EntriesAreClean(env: Env, ms: Merges, pairs: seq<Pair>, i: nat, before: seq<(string, Value)>,
                                            entries: seq<(string, Value)>)
    requires DeriveEntries(env, ms, pairs, i, before, entries) && CleanEntries(before)
    ensures CleanEntries(entries)
    decreases ms
  {
    match ms
    case NoMerges =>
    case SplatMerge(body, merged, tail) =>
      ValuesAreClean(env, body, pairs[i].value, DictOf(merged));
      MergedIsClean(before, merged);
      EntriesAreClean(env, tail, pairs, i + 1, before + merged, entries);
    case KeyedMerge(_, key, valueTree, value, tail) =>
      ValuesAreClean(env, valueTree, pairs[i].value, value);
      MergedIsClean(before, [(key, value)]);
      EntriesAreClean(env, tail, pairs, i + 1, before + [(key, value)], entries);
  }

  /** No value `get` answers holds a dictionary with a repeated key, however deeply it was merged. */
  lemma RepeatedKeysFail(env: Env, name: string)
    ensures Get(env, name, {}).Ok? ==> NoRepeatedKey(Get(env, name, {}).value)
  {
    if Get(env, name, {}).Ok? {
      var t := Soundness(env, Name(name), {});
      ValuesAreClean(env, t, Name(name), Get(env, name, {}).value);
    }
  }
}
