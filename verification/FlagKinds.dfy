/**
 What a bit of a flag says, kind of node by kind of node (internal/parser/tidb/ast/flag.go:40-170,
 internal/parser/tidb/ast/ast.go:52-66).
 */
module FlagKinds {
  import opened Basics
  import opened Flags
  import opened FlagMeaning

  /** The kinds of node that a bit stands for. */
  predicate StandsFor(bit: nat, s: Shape) {
    || (bit == 1 && s.ParamMarker?)
    || (bit == 2 && (s.FuncCall? || s.FuncCast?))
    || (bit == 3 && (s.ColumnName? || s.Position? || s.Values?))
    || (bit == 4 && s.AggregateFunc?)
    || (bit == 5 && s.Subquery?)
    || (bit == 6 && s.Variable?)
    || (bit == 7 && s.Default?)
    || (bit == 9 && s.WindowFunc?)
  }

  /** The node looks at the flag of c: at those of its operands, its arguments and its branches, but not into a subquery,
      an ORDER BY of an aggregate, the specification of a window, a position or the column of VALUES. */
  predicate LooksAt(s: Shape, c: Node) {
    match s
    case AggregateFunc(args, _) => c in args
    case WindowFunc(args, _) => c in args
    case Between(e, l, r) => c == e || c == l || c == r
    case BinaryOperation(l, r) => c == l || c == r
    case Case(value, whens, otherwise) =>
      value == Some(c) || otherwise == Some(c) || exists i :: 0 <= i < |whens| && (whens[i].expr == c || whens[i].result == c)
    case ColumnName => false
    case CompareSubquery(l, r) => c == l || c == r
    case Default => false
    case ExistsSubquery(sel) => c == sel
    case FuncCall(args) => c in args
    case FuncCast(e) => c == e
    case IsNull(e) => c == e
    case IsTruth(e) => c == e
    case Parentheses(e) => c == e
    case PatternIn(e, list, within) => c == e || c in list || within == Some(c)
    case PatternLike(subject, pattern) => c == pattern || subject == Some(c)
    case PatternRegexp(subject, pattern) => c == pattern || subject == Some(c)
    case Position(_) => false
    case Row(values) => c in values
    case Subquery(_) => false
    case UnaryOperation(v) => c == v
    case Values(_) => false
    case Variable(value) => value == Some(c)
    case ParamMarker => false
    case Unhandled(_) => false
  }

  lemma {:induction false} WhensLooked(ws: seq<When>, c: Node)
    ensures c in WhenNodes(ws) <==> exists i :: 0 <= i < |ws| && (ws[i].expr == c || ws[i].result == c)
  {
    if ws != [] {
      var n := |ws| - 1;
      WhensLooked(ws[..n], c);
      assert forall i :: 0 <= i < n ==> ws[..n][i] == ws[i];
      assert c in WhenNodes(ws) <==> c in WhenNodes(ws[..n]) || c == ws[n].expr || c == ws[n].result;
    }
  }

  lemma NamedExactly(s: Shape, c: Node)
    ensures c in Named(s) <==> LooksAt(s, c)
  {
    if s.Case? { WhensLooked(s.whens, c); }
  }

  /** The children that are visited without the node looking at their flags. */
  predicate OnlyVisits(s: Shape, c: Node) {
    match s
    case AggregateFunc(_, order) => c in order
    case WindowFunc(_, spec) => c in spec
    case Position(p) => p == Some(c)
    case Subquery(query) => c == query
    case Values(column) => c == column
    case Unhandled(children) => c in children
    case _ => false
  }

  lemma ChildrenExactly(s: Shape, c: Node)
    ensures c in Children(s) <==> LooksAt(s, c) || OnlyVisits(s, c)
  {
    NamedExactly(s, c);
  }

  lemma OwnExactly(s: Shape, bit: nat)
    ensures bit in Own(s) <==> StandsFor(bit, s)
  {
  }

  ghost predicate Down(a: Node, b: Node, s: set<Node>) { LooksAt(a.shape, b) && b in s }

  /** From n down through nodes that are looked at. */
  ghost predicate Way(p: seq<Node>, n: Node, s: set<Node>) {
    |p| > 0 && p[0] == n && n in s && forall i :: 0 <= i < |p| - 1 ==> Down(p[i], p[i + 1], s)
  }

  /** It leads to a node of a kind the bit stands for, or to one without a rule whose flag had the bit. */
  ghost predicate Leads(p: seq<Node>, n: Node, bit: nat, s: set<Node>, base: Marks) {
    Way(p, n, s) && var last := p[|p| - 1]; last in base && (StandsFor(bit, last.shape) || (last.shape.Unhandled? && bit in base[last]))
  }

  lemma WayIsPath(p: seq<Node>, n: Node, s: set<Node>)
    ensures Way(p, n, s) <==> Path(p, s) && p[0] == n
  {
    if |p| > 0 {
      forall i | 0 <= i < |p| - 1 ensures Step(p[i], p[i + 1], s) <==> Down(p[i], p[i + 1], s) {
        NamedExactly(p[i].shape, p[i + 1]);
      }
    }
  }

  lemma LeadsIsShows(p: seq<Node>, n: Node, bit: nat, s: set<Node>, base: Marks)
    ensures Leads(p, n, bit, s, base) <==> Shows(p, n, bit, s, base)
  {
    WayIsPath(p, n, s);
    if |p| > 0 { OwnExactly(p[|p| - 1].shape, bit); }
  }

  /** A flag has a bit exactly when there is such a way. */
  lemma BitMeans(n: Node, s: set<Node>, base: Marks, bit: nat)
    requires Closed(s) && n in s && s <= base.Keys
    ensures bit in FlagOf(n, s, base) <==> exists p :: Leads(p, n, bit, s, base)
  {
    FlagMeansBelow(n, s, base, bit);
    if p :| Shows(p, n, bit, s, base) { LeadsIsShows(p, n, bit, s, base); }
    if p :| Leads(p, n, bit, s, base) { LeadsIsShows(p, n, bit, s, base); }
  }
}
