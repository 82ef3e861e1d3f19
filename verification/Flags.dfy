/**
 Flags of expressions, set bottom-up by a visitor that overwrites them in place
 (internal/parser/tidb/ast/flag.go:26-170, internal/parser/tidb/ast/ast.go:64-76).
 */
module Flags {
  import opened Basics

  /** A flag word as the set of the numbers of its one bits; joining words is union. */
  type Flag = set<nat>

  const CONSTANT: Flag := {}
  const HAS_PARAM_MARKER: Flag := {1}
  const HAS_FUNC: Flag := {2}
  const HAS_REFERENCE: Flag := {3}
  const HAS_AGGREGATE_FUNC: Flag := {4}
  const HAS_SUBQUERY: Flag := {5}
  const HAS_VARIABLE: Flag := {6}
  const HAS_DEFAULT: Flag := {7}
  const HAS_WINDOW_FUNC: Flag := {9}

  class Node {
    const shape: Shape
    ghost const height: nat
    var flag: Flag

    constructor (shape: Shape, ghost height: nat, flag: Flag)
      ensures this.shape == shape && this.height == height && this.flag == flag
    {
      this.shape, this.height, this.flag := shape, height, flag;
    }
  }

  datatype When = When(expr: Node, result: Node)

  datatype Shape =
    | AggregateFunc(args: seq<Node>, order: seq<Node>)
    | WindowFunc(args: seq<Node>, spec: seq<Node>)
    | Between(expr: Node, left: Node, right: Node)
    | BinaryOperation(l: Node, r: Node)
    | Case(value: Option<Node>, whens: seq<When>, otherwise: Option<Node>)
    | ColumnName
    | CompareSubquery(l: Node, r: Node)
    | Default
    | ExistsSubquery(sel: Node)
    | FuncCall(args: seq<Node>)
    | FuncCast(expr: Node)
    | IsNull(expr: Node)
    | IsTruth(expr: Node)
    | Parentheses(expr: Node)
    | PatternIn(expr: Node, list: seq<Node>, within: Option<Node>)
    | PatternLike(subject: Option<Node>, pattern: Node)
    | PatternRegexp(subject: Option<Node>, pattern: Node)
    | Position(p: Option<Node>)
    | Row(values: seq<Node>)
    | Subquery(query: Node)
    | UnaryOperation(v: Node)
    | Values(column: Node)
    | Variable(value: Option<Node>)
    | ParamMarker
    | Unhandled(children: seq<Node>)

  function Optional(o: Option<Node>): seq<Node> {
    match o case None => [] case Some(n) => [n]
  }

  function WhenNodes(ws: seq<When>): seq<Node> {
    if ws == [] then [] else WhenNodes(ws[..|ws| - 1]) + [ws[|ws| - 1].expr, ws[|ws| - 1].result]
  }

  /** The children a visit enters, in order. */
  function Children(s: Shape): seq<Node> {
    match s
    case AggregateFunc(args, order) => args + order
    case WindowFunc(args, spec) => args + spec
    case Position(p) => Optional(p)
    case Subquery(query) => [query]
    case Values(column) => [column]
    case Unhandled(children) => children
    case _ => Named(s)
  }

  /** The children whose flags a node's rule names. */
  function Named(s: Shape): seq<Node> {
    match s
    case AggregateFunc(args, _) => args
    case WindowFunc(args, _) => args
    case Between(e, l, r) => [e, l, r]
    case BinaryOperation(l, r) => [l, r]
    case Case(value, whens, otherwise) => Optional(value) + WhenNodes(whens) + Optional(otherwise)
    case CompareSubquery(l, r) => [l, r]
    case ExistsSubquery(sel) => [sel]
    case FuncCall(args) => args
    case FuncCast(e) => [e]
    case IsNull(e) => [e]
    case IsTruth(e) => [e]
    case Parentheses(e) => [e]
    case PatternIn(e, list, within) => [e] + list + Optional(within)
    case PatternLike(e, pattern) => [pattern] + Optional(e)
    case PatternRegexp(e, pattern) => [pattern] + Optional(e)
    case Row(values) => values
    case UnaryOperation(v) => [v]
    case Variable(value) => Optional(value)
    case _ => []
  }

  /** The bit a node contributes by itself. */
  function Own(s: Shape): Flag {
    match s
    case AggregateFunc(_, _) => HAS_AGGREGATE_FUNC
    case WindowFunc(_, _) => HAS_WINDOW_FUNC
    case ColumnName => HAS_REFERENCE
    case Default => HAS_DEFAULT
    case FuncCall(_) => HAS_FUNC
    case FuncCast(_) => HAS_FUNC
    case Position(_) => HAS_REFERENCE
    case Subquery(_) => HAS_SUBQUERY
    case Values(_) => HAS_REFERENCE
    case Variable(_) => HAS_VARIABLE
    case ParamMarker => HAS_PARAM_MARKER
    case _ => CONSTANT
  }

  /** A finite expression: the children of a node are in the set, and lower. */
  ghost predicate Closed(s: set<Node>) {
    forall x :: x in s ==> forall c :: c in Children(x.shape) ==> c in s && c.height < x.height
  }

  lemma NamedVisited(s: Shape)
    ensures forall c :: c in Named(s) ==> c in Children(s)
  {
  }

  // ----- the rules, over given flags

  function Union(ns: seq<Node>): Flag
    reads ns
  {
    if ns == [] then {} else Union(ns[..|ns| - 1]) + ns[|ns| - 1].flag
  }

  lemma UnionAppend(a: seq<Node>, b: seq<Node>)
    ensures Union(a + b) == Union(a) + Union(b)
  {
    if b == [] {
      assert a + b == a;
    } else {
      assert (a + b)[..|a + b| - 1] == a + b[..|b| - 1];
      UnionAppend(a, b[..|b| - 1]);
    }
  }

  lemma UnionOne(n: Node)
    ensures Union([n]) == n.flag
  {
    assert [n][..0] == [];
  }

  lemma UnionOptional(o: Option<Node>)
    ensures Union(Optional(o)) == if o.Some? then o.value.flag else {}
  {
    if o.Some? { UnionOne(o.value); }
  }

  method JoinFlags(start: Flag, ns: seq<Node>) returns (flag: Flag)
    ensures flag == start + Union(ns)
  {
    flag := start;
    assert ns[..0] == [];
    for i := 0 to |ns|
      invariant flag == start + Union(ns[..i])
    {
      assert ns[..i + 1][..i] == ns[..i];
      flag := flag + ns[i].flag;
    }
    assert ns[..|ns|] == ns;
  }

  method WhenFlags(start: Flag, whens: seq<When>) returns (flag: Flag)
    ensures flag == start + Union(WhenNodes(whens))
  {
    flag := start;
    assert whens[..0] == [];
    for i := 0 to |whens|
      invariant flag == start + Union(WhenNodes(whens[..i]))
    {
      var w := whens[i];
      assert whens[..i + 1][..i] == whens[..i];
      UnionPair(WhenNodes(whens[..i]), w.expr, w.result);
      flag := flag + w.expr.flag;
      flag := flag + w.result.flag;
    }
    assert whens[..|whens|] == whens;
  }

  method CaseFlag(value: Option<Node>, whens: seq<When>, otherwise: Option<Node>) returns (flag: Flag)
    ensures flag == Union(Optional(value) + WhenNodes(whens) + Optional(otherwise))
  {
    flag := {};
    if value.Some? { flag := flag + value.value.flag; }
    UnionOptional(value);
    flag := WhenFlags(flag, whens);
    if otherwise.Some? { flag := flag + otherwise.value.flag; }
    UnionOptional(otherwise);
    CaseUnion(Optional(value), WhenNodes(whens), Optional(otherwise));
  }

  lemma CaseUnion(a: seq<Node>, b: seq<Node>, c: seq<Node>)
    ensures Union(a + b + c) == Union(a) + Union(b) + Union(c)
  {
    UnionAppend(a, b);
    UnionAppend(a + b, c);
  }

  lemma UnionPair(ns: seq<Node>, a: Node, b: Node)
    ensures Union(ns + [a, b]) == Union(ns) + a.flag + b.flag
  {
    assert (ns + [a, b])[..|ns| + 1] == ns + [a];
    assert (ns + [a])[..|ns|] == ns;
  }

  method PatternInFlag(e: Node, list: seq<Node>, within: Option<Node>) returns (flag: Flag)
    ensures flag == Union([e] + list + Optional(within))
  {
    flag := JoinFlags(e.flag, list);
    if within.Some? { flag := flag + within.value.flag; }
    UnionOne(e);
    UnionOptional(within);
    UnionAppend([e], list);
    UnionAppend([e] + list, Optional(within));
  }

  lemma UnionTwo(a: Node, b: Node)
    ensures Union([a, b]) == a.flag + b.flag
  {
    assert [a, b][..1] == [a];
    UnionOne(a);
  }

  lemma UnionThree(a: Node, b: Node, c: Node)
    ensures Union([a, b, c]) == a.flag + b.flag + c.flag
  {
    assert [a, b, c][..2] == [a, b];
    UnionTwo(a, b);
  }

  ghost predicate Handled(s: Shape) { !s.Unhandled? }

  /** The flag of a node is right when it follows its rule. */
  ghost predicate Ruled(n: Node, flag: Flag)
    reads Named(n.shape)
  {
    flag == Own(n.shape) + Union(Named(n.shape))
  }

  predicate OneChild(s: Shape) {
    s.ExistsSubquery? || s.FuncCast? || s.IsNull? || s.IsTruth? || s.Parentheses? || s.UnaryOperation?
  }

  predicate NoChild(s: Shape) {
    s.ParamMarker? || s.ColumnName? || s.Default? || s.Position? || s.Subquery? || s.Values?
  }

  predicate ListOfChildren(s: Shape) {
    s.AggregateFunc? || s.WindowFunc? || s.FuncCall? || s.Row?
  }

  method NoChildFlag(n: Node) returns (flag: Flag)
    requires NoChild(n.shape)
    ensures Ruled(n, flag)
  {
    match n.shape
    case ParamMarker => flag := HAS_PARAM_MARKER;
    case Default => flag := HAS_DEFAULT;
    case Subquery(_) => flag := HAS_SUBQUERY;
    case _ => flag := HAS_REFERENCE;
  }

  method OneChildFlag(n: Node) returns (flag: Flag)
    requires OneChild(n.shape)
    ensures Ruled(n, flag)
  {
    var child := OnlyChild(n.shape);
    UnionOne(child);
    flag := if n.shape.FuncCast? then HAS_FUNC + child.flag else child.flag;
  }

  function OnlyChild(s: Shape): (c: Node)
    requires OneChild(s)
    ensures Named(s) == [c]
  {
    match s
    case ExistsSubquery(sel) => sel
    case FuncCast(e) => e
    case IsNull(e) => e
    case IsTruth(e) => e
    case Parentheses(e) => e
    case UnaryOperation(v) => v
  }

  method ListFlag(n: Node) returns (flag: Flag)
    requires ListOfChildren(n.shape)
    ensures Ruled(n, flag)
  {
    match n.shape
    case AggregateFunc(args, _) => flag := JoinFlags(HAS_AGGREGATE_FUNC, args);
    case WindowFunc(args, _) => flag := JoinFlags(HAS_WINDOW_FUNC, args);
    case FuncCall(args) => flag := JoinFlags(HAS_FUNC, args);
    case Row(values) => flag := JoinFlags(CONSTANT, values);
  }

  method OperandFlag(n: Node) returns (flag: Flag)
    requires n.shape.Between? || n.shape.BinaryOperation? || n.shape.CompareSubquery?
    ensures Ruled(n, flag)
  {
    match n.shape
    case Between(e, l, r) =>
      flag := e.flag + l.flag + r.flag;
      UnionThree(e, l, r);
    case BinaryOperation(l, r) =>
      flag := l.flag + r.flag;
      UnionTwo(l, r);
    case CompareSubquery(l, r) =>
      flag := l.flag + r.flag;
      UnionTwo(l, r);
  }

  method VariableFlag(value: Option<Node>) returns (flag: Flag)
    ensures flag == HAS_VARIABLE + Union(Optional(value))
  {
    UnionOptional(value);
    if value.None? { flag := HAS_VARIABLE; } else { flag := HAS_VARIABLE + value.value.flag; }
  }

  predicate Pattern(s: Shape) {
    s.PatternIn? || s.PatternLike? || s.PatternRegexp?
  }

  method PatternsFlag(n: Node) returns (flag: Flag)
    requires Pattern(n.shape)
    ensures Ruled(n, flag)
  {
    match n.shape
    case PatternIn(e, list, within) => flag := PatternInFlag(e, list, within);
    case PatternLike(e, pattern) => flag := PatternFlag(e, pattern);
    case PatternRegexp(e, pattern) => flag := PatternFlag(e, pattern);
  }

  method CaseOrVariableFlag(n: Node) returns (flag: Flag)
    requires n.shape.Case? || n.shape.Variable?
    ensures Ruled(n, flag)
  {
    match n.shape
    case Case(value, whens, otherwise) => flag := CaseFlag(value, whens, otherwise);
    case Variable(value) => flag := VariableFlag(value);
  }

  /** Sets the flag of a node whose children have theirs. */
  method Leave(n: Node)
    requires n !in Named(n.shape)
    modifies n
    ensures Handled(n.shape) ==> Ruled(n, n.flag)
    ensures !Handled(n.shape) ==> n.flag == old(n.flag)
  {
    if n.shape.Unhandled? { return; }
    var flag;
    if NoChild(n.shape) {
      flag := NoChildFlag(n);
    } else if OneChild(n.shape) {
      flag := OneChildFlag(n);
    } else if ListOfChildren(n.shape) {
      flag := ListFlag(n);
    } else if n.shape.Between? || n.shape.BinaryOperation? || n.shape.CompareSubquery? {
      flag := OperandFlag(n);
    } else if Pattern(n.shape) {
      flag := PatternsFlag(n);
    } else {
      flag := CaseOrVariableFlag(n);
    }
    n.flag := flag;
  }

  method PatternFlag(e: Option<Node>, pattern: Node) returns (flag: Flag)
    ensures flag == Union([pattern] + Optional(e))
  {
    flag := pattern.flag;
    if e.Some? { flag := flag + e.value.flag; }
    UnionOne(pattern);
    UnionOptional(e);
    UnionAppend([pattern], Optional(e));
  }
}
