/**
 The cross-join builder on the mutable AST (internal/parser/tidb/ast/dml.go:130-159): a walk with
 a moving reference that overwrites the joins it passes and grafts the left operand in place.
 */
module CrossJoin {
  import opened Basics
  import opened JoinRows
  import T = JoinTree
  import M = JoinMeaning

  /** A result-set node is a table source or a join. */
  datatype ResultSet = Source(table: Table) | Joined(join: JoinNode)

  class JoinNode {
    var left: ResultSet
    var right: Option<ResultSet>
    var tp: JoinType
    var info: T.Info

    constructor (left: ResultSet, right: ResultSet)
      ensures this.left == left && this.right == Some(right) && tp == CrossJoin && info == T.NO_INFO
    {
      this.left := left;
      this.right := Some(right);
      tp := CrossJoin;
      info := T.NO_INFO;
    }
  }

  /** A join tree together with the identity of its join nodes. */
  datatype Shape =
    | LeafShape(table: Table)
    | WrapShape(node: JoinNode, inner: Shape, tp: JoinType, info: T.Info)
    | NodeShape(node: JoinNode, left: Shape, right: Shape, tp: JoinType, info: T.Info)

  ghost function Nodes(s: Shape): set<JoinNode> {
    match s
    case LeafShape(_) => {}
    case WrapShape(n, u, _, _) => {n} + Nodes(u)
    case NodeShape(n, l, r, _, _) => {n} + Nodes(l) + Nodes(r)
  }

  /** No node is reached twice, so the shape is a tree and not a graph. */
  ghost predicate Proper(s: Shape) {
    match s
    case LeafShape(_) => true
    case WrapShape(n, u, _, _) => n !in Nodes(u) && Proper(u)
    case NodeShape(n, l, r, _, _) =>
      n !in Nodes(l) && n !in Nodes(r) && Nodes(l) !! Nodes(r) && Proper(l) && Proper(r)
  }

  ghost function Tree(s: Shape): T.Tree {
    match s
    case LeafShape(x) => T.Leaf(x)
    case WrapShape(_, u, tp, info) => T.Wrap(Tree(u), tp, info)
    case NodeShape(_, l, r, tp, info) => T.Node(Tree(l), Tree(r), tp, info)
  }

  /** In the heap, `rs` is the root of a tree of this shape. */
  ghost predicate Holds(rs: ResultSet, s: Shape)
    reads Nodes(s)
    decreases s
  {
    match s
    case LeafShape(x) => rs == Source(x)
    case WrapShape(n, u, tp, info) =>
      rs == Joined(n) && n.tp == tp && n.info == info && n.right.None? && Holds(n.left, u)
    case NodeShape(n, l, r, tp, info) =>
      rs == Joined(n) && n.tp == tp && n.info == info && n.right.Some? && Holds(n.left, l) && Holds(n.right.value, r)
  }

  lemma {:induction false} NodesAllocated(s: Shape)
    ensures forall n :: n in Nodes(s) ==> allocated(n)
  {
    match s
    case LeafShape(_) =>
    case WrapShape(_, u, _, _) => NodesAllocated(u);
    case NodeShape(_, l, r, _, _) =>
      NodesAllocated(l);
      NodesAllocated(r);
  }

  // ----- the path from the root down to the moving reference, outermost join first

  datatype Frame = Frame(node: JoinNode, right: Shape, tp: JoinType, info: T.Info)

  ghost function PathNodes(path: seq<Frame>): set<JoinNode> {
    if path == [] then {} else {path[0].node} + Nodes(path[0].right) + PathNodes(path[1..])
  }

  ghost predicate ProperPath(path: seq<Frame>) {
    path != [] ==>
      && path[0].node !in Nodes(path[0].right) && path[0].node !in PathNodes(path[1..])
      && Nodes(path[0].right) !! PathNodes(path[1..])
      && Proper(path[0].right) && ProperPath(path[1..])
  }

  ghost function Plug(path: seq<Frame>, s: Shape): Shape {
    if path == [] then s
    else NodeShape(path[0].node, Plug(path[1..], s), path[0].right, path[0].tp, path[0].info)
  }

  ghost function PlugTree(path: seq<Frame>, t: T.Tree): T.Tree {
    if path == [] then t
    else T.Node(PlugTree(path[1..], t), Tree(path[0].right), path[0].tp, path[0].info)
  }

  /** In the heap, the path leads from `rs` to `hole`. */
  ghost predicate Leads(rs: ResultSet, path: seq<Frame>, hole: ResultSet)
    reads PathNodes(path)
    decreases path
  {
    if path == [] then rs == hole else
      var f := path[0];
      && rs == Joined(f.node) && f.node.tp == f.tp && f.node.info == f.info && f.node.right.Some?
      && Holds(f.node.right.value, f.right) && Leads(f.node.left, path[1..], hole)
  }

  lemma {:induction false} PlugShape(path: seq<Frame>, s: Shape)
    requires ProperPath(path) && Proper(s) && PathNodes(path) !! Nodes(s)
    ensures Nodes(Plug(path, s)) == PathNodes(path) + Nodes(s)
    ensures Proper(Plug(path, s)) && Tree(Plug(path, s)) == PlugTree(path, Tree(s))
  {
    if path != [] { PlugShape(path[1..], s); }
  }

  lemma {:induction false} PlugHolds(rs: ResultSet, path: seq<Frame>, hole: ResultSet, s: Shape)
    requires Leads(rs, path, hole) && Holds(hole, s)
    ensures Holds(rs, Plug(path, s))
    decreases path
  {
    if path != [] { PlugHolds(path[0].node.left, path[1..], hole, s); }
  }

  lemma {:induction false} PathSnoc(path: seq<Frame>, f: Frame)
    ensures PathNodes(path + [f]) == PathNodes(path) + {f.node} + Nodes(f.right)
    ensures (ProperPath(path) && Proper(f.right) && f.node !in Nodes(f.right) && PathNodes(path) !! {f.node} + Nodes(f.right))
            ==> ProperPath(path + [f])
    ensures forall t :: PlugTree(path + [f], t) == PlugTree(path, PlugTree([f], t))
  {
    if path != [] {
      PathSnoc(path[1..], f);
      assert (path + [f])[1..] == path[1..] + [f];
    } else {
      assert path + [f] == [f];
    }
  }

  lemma {:induction false} LeadsSnoc(rs: ResultSet, path: seq<Frame>, f: Frame, hole: ResultSet)
    requires Leads(rs, path, Joined(f.node)) && Leads(Joined(f.node), [f], hole)
    ensures Leads(rs, path + [f], hole)
    decreases path
  {
    if path != [] {
      LeadsSnoc(path[0].node.left, path[1..], f, hole);
      assert (path + [f])[1..] == path[1..] + [f];
    } else {
      assert path + [f] == [f];
    }
  }

  /** Where the built tree denotes the cross of its operands. */
  ghost predicate CrossKept(result: T.Tree, a: T.Tree, t: T.Tree) {
    T.Distinct(M.CrossOf(a, t)) && (t.Node? && !t.info.parens ==> T.Scoped(t)) ==>
      (M.SameQuery(result, M.CrossOf(a, t)) <==> !t.Node? || t.info.parens || T.SafeSpine(t))
  }

  /** Where it denotes the joins of the right operand read from left to right, up to the first parentheses. */
  ghost predicate ReadingKept(result: T.Tree, a: T.Tree, t: T.Tree) {
    T.Distinct(M.CrossOf(a, t)) && (t.Node? && !t.info.parens ==> M.FirstParensScoped(t)) && M.Unmerged(t) ==>
      (M.SameQuery(result, M.ByPrecedence(a, t)) <==> M.FirstParensSafe(t))
  }

  lemma Kept(a: T.Tree, t: T.Tree)
    ensures CrossKept(T.CrossTree(a, t), a, t) && ReadingKept(T.CrossTree(a, t), a, t)
  {
    if T.Distinct(M.CrossOf(a, t)) {
      if t.Node? && !t.info.parens ==> T.Scoped(t) { M.CrossPreservedExactly(a, t); }
      if (t.Node? && !t.info.parens ==> M.FirstParensScoped(t)) && M.Unmerged(t) { M.PrecedenceExactly(a, t); }
    }
  }

  /** Builds the cross join of `left` and `right` from the nodes of both and one fresh node. A table, a wrapped
      operand and a join in parentheses are kept as they are; into any other join the left operand is grafted. */
  method NewCrossJoin(left: ResultSet, right: ResultSet, ghost a: Shape, ghost t: Shape)
    returns (n: JoinNode, ghost result: Shape, ghost added: JoinNode)
    requires Holds(left, a) && Holds(right, t)
    requires Proper(a) && Proper(t) && Nodes(a) !! Nodes(t)
    modifies Nodes(t)
    ensures Holds(Joined(n), result) && Proper(result)
    ensures !t.NodeShape? || t.info.parens ==>
      Tree(result) == T.Node(Tree(a), Tree(t), CrossJoin, T.Info(None, [], false, false, false))
    ensures Tree(result) == T.CrossTree(Tree(a), Tree(t))
    ensures CrossKept(Tree(result), Tree(a), Tree(t)) && ReadingKept(Tree(result), Tree(a), Tree(t))
    ensures fresh(added) && Nodes(result) == Nodes(a) + Nodes(t) + {added}
    ensures Holds(left, a)
  {
    Kept(Tree(a), Tree(t));
    ghost var oldNodes := Nodes(a) + Nodes(t);
    if right.Source? || right.join.right.None? || right.join.info.parens {
      NodesAllocated(a);
      NodesAllocated(t);
      n := new JoinNode(left, right);
      assert n !in oldNodes;
      added := n;
      result := NodeShape(n, a, t, CrossJoin, T.NO_INFO);
    } else {
      result, added := GraftInPlace(left, right.join, a, t);
      n := right.join;
    }
  }

  ghost predicate Turned(cur: Shape, spine: Shape, frame: Frame) {
    && cur.NodeShape? && Tree(spine) == T.Spine(Tree(cur)) && Tree(frame.right) == T.Other(Tree(cur))
    && frame.tp == T.SpineType(Tree(cur)) && frame.info == cur.info
  }

  /** Rewrites a parenthesised right join to a left join with its operands swapped. */
  method SwapIfParens(father: JoinNode, ghost cur: Shape) returns (ghost spine: Shape, ghost frame: Frame)
    requires cur.NodeShape? && Holds(Joined(father), cur) && Proper(cur)
    modifies father
    ensures father.right.Some? && Holds(father.left, spine) && Holds(father.right.value, frame.right)
    ensures frame == Frame(father, frame.right, father.tp, father.info)
    ensures spine < cur && Turned(cur, spine, frame)
    ensures Proper(NodeShape(father, spine, frame.right, frame.tp, frame.info))
    ensures {father} + Nodes(spine) + Nodes(frame.right) == Nodes(cur)
  {
    ghost var other;
    spine, other := cur.left, cur.right;
    if father.tp == RightJoin && father.info.parens {
      var tmpChild := father.right.value;
      father.right := Some(father.left);
      father.left := tmpChild;
      father.tp := LeftJoin;
      spine, other := cur.right, cur.left;
    }
    frame := Frame(father, other, father.tp, father.info);
  }

  /** The walk from here on finishes the whole graft. */
  ghost predicate Pending(a: Shape, t: Shape, path: seq<Frame>, cur: Shape) {
    t.NodeShape? && cur.NodeShape? && T.Graft(Tree(a), Tree(t)) == PlugTree(path, T.Graft(Tree(a), Tree(cur)))
  }

  lemma Apart(father: JoinNode, cur: Shape, path: seq<Frame>, a: Shape, t: Shape)
    requires cur.NodeShape? && cur.node == father
    requires PathNodes(path) !! Nodes(cur) && PathNodes(path) + Nodes(cur) == Nodes(t) && Nodes(a) !! Nodes(t)
    ensures father in Nodes(t) && father !in PathNodes(path) && father !in Nodes(a)
    ensures forall n :: n in PathNodes(path) ==> n in Nodes(t)
    ensures Nodes(a) !! Nodes(cur)
  {
  }

  /** The walk: `rj` stays the root. */
  method GraftInPlace(left: ResultSet, rj: JoinNode, ghost a: Shape, ghost t: Shape)
    returns (ghost result: Shape, ghost added: JoinNode)
    requires Holds(left, a) && Holds(Joined(rj), t) && t.NodeShape?
    requires Proper(a) && Proper(t) && Nodes(a) !! Nodes(t)
    modifies Nodes(t)
    ensures Holds(Joined(rj), result) && Proper(result)
    ensures Tree(result) == T.Graft(Tree(a), Tree(t))
    ensures fresh(added) && Nodes(result) == Nodes(a) + Nodes(t) + {added}
    ensures Holds(left, a)
  {
    var father := rj;
    ghost var path: seq<Frame>, cur := [], t;
    while true
      invariant Walking(rj, father, path, cur, a, t) && Holds(left, a)
      decreases cur
    {
      ghost var spine, frame := TurnHere(left, rj, father, path, cur, a, t);
      var leftChild := father.left;
      if !(leftChild.Joined? && leftChild.join.right.Some?) {
        result, added := GraftHere(left, rj, father, path, cur, a, t, spine, frame);
        return;
      }
      Descend(rj, father, path, cur, spine, frame, a, t);
      path, cur := path + [frame], spine;
      father := leftChild.join;
    }
  }

  /** The state of the walk at the head of its loop: the path and the subtree at the reference make up
      the right operand, and grafting below it finishes the job. */
  ghost predicate Walking(rj: JoinNode, father: JoinNode, path: seq<Frame>, cur: Shape, a: Shape, t: Shape)
    reads PathNodes(path), Nodes(cur)
  {
    && Leads(Joined(rj), path, Joined(father)) && ProperPath(path)
    && cur.NodeShape? && Holds(Joined(father), cur) && Proper(cur)
    && PathNodes(path) !! Nodes(cur) && PathNodes(path) + Nodes(cur) == Nodes(t)
    && Pending(a, t, path, cur)
  }

  /** One turn of the walk, seen from the whole tree. */
  method TurnHere(left: ResultSet, rj: JoinNode, father: JoinNode, ghost path: seq<Frame>, ghost cur: Shape, ghost a: Shape, ghost t: Shape)
    returns (ghost spine: Shape, ghost frame: Frame)
    requires Walking(rj, father, path, cur, a, t) && Holds(left, a) && Nodes(a) !! Nodes(t)
    modifies father
    ensures Leads(Joined(rj), path, Joined(father)) && Holds(left, a)
    ensures father.right.Some? && Holds(father.left, spine) && Holds(father.right.value, frame.right)
    ensures frame == Frame(father, frame.right, father.tp, father.info)
    ensures spine < cur && Turned(cur, spine, frame)
    ensures Proper(NodeShape(father, spine, frame.right, frame.tp, frame.info))
    ensures {father} + Nodes(spine) + Nodes(frame.right) == Nodes(cur) && father in Nodes(t) && Nodes(a) !! Nodes(cur)
  {
    Apart(father, cur, path, a, t);
    NodesAllocated(a);
    NodesAllocated(t);
    spine, frame := SwapIfParens(father, cur);
  }

  /** Puts the new cross join below the last join of the walk. */
  method GraftAt(left: ResultSet, father: JoinNode, ghost a: Shape, ghost spine: Shape, ghost frame: Frame)
    returns (ghost end: Shape, ghost cross: JoinNode)
    requires Holds(left, a) && Proper(a)
    requires father.right.Some? && Holds(father.left, spine) && Holds(father.right.value, frame.right)
    requires frame == Frame(father, frame.right, father.tp, father.info)
    requires Proper(NodeShape(father, spine, frame.right, frame.tp, frame.info))
    requires Nodes(a) !! {father} + Nodes(spine) + Nodes(frame.right)
    modifies father
    ensures fresh(cross) && Holds(Joined(father), end) && Proper(end)
    ensures Nodes(end) == Nodes(a) + {father} + Nodes(spine) + Nodes(frame.right) + {cross}
    ensures Tree(end) == T.Node(T.Crossed(Tree(a), Tree(spine)), Tree(frame.right), frame.tp, frame.info)
  {
    NodesAllocated(a);
    NodesAllocated(spine);
    NodesAllocated(frame.right);
    var cross' := new JoinNode(left, father.left);
    cross := cross';
    father.left := Joined(cross');
    ghost var grafted := NodeShape(cross, a, spine, CrossJoin, T.NO_INFO);
    end := NodeShape(father, grafted, frame.right, frame.tp, frame.info);
    assert Holds(Joined(cross), grafted);
  }

  /** The end of the walk, seen from the whole tree. */
  method GraftHere(left: ResultSet, rj: JoinNode, father: JoinNode, ghost path: seq<Frame>, ghost cur: Shape,
                   ghost a: Shape, ghost t: Shape, ghost spine: Shape, ghost frame: Frame)
    returns (ghost result: Shape, ghost added: JoinNode)
    requires Leads(Joined(rj), path, Joined(father)) && ProperPath(path) && Holds(left, a) && Proper(a)
    requires father.right.Some? && Holds(father.left, spine) && Holds(father.right.value, frame.right)
    requires frame == Frame(father, frame.right, father.tp, father.info) && !spine.NodeShape?
    requires Turned(cur, spine, frame) && cur.node == father && Pending(a, t, path, cur)
    requires Proper(NodeShape(father, spine, frame.right, frame.tp, frame.info))
    requires {father} + Nodes(spine) + Nodes(frame.right) == Nodes(cur)
    requires PathNodes(path) !! Nodes(cur) && PathNodes(path) + Nodes(cur) == Nodes(t) && Nodes(a) !! Nodes(t)
    modifies father
    ensures Holds(Joined(rj), result) && Proper(result) && Tree(result) == T.Graft(Tree(a), Tree(t))
    ensures fresh(added) && Nodes(result) == Nodes(a) + Nodes(t) + {added}
    ensures Holds(left, a)
  {
    Apart(father, cur, path, a, t);
    NodesAllocated(a);
    NodesAllocated(t);
    ghost var end;
    end, added := GraftAt(left, father, a, spine, frame);
    PlugAll(rj, father, path, cur, a, t, end, added, spine, frame);
    result := Plug(path, end);
  }

  lemma PlugNodes(rj: JoinNode, father: JoinNode, path: seq<Frame>, cur: Shape, a: Shape, t: Shape, end: Shape, cross: JoinNode)
    requires Leads(Joined(rj), path, Joined(father)) && ProperPath(path) && Holds(Joined(father), end) && Proper(end)
    requires PathNodes(path) !! Nodes(cur) && PathNodes(path) + Nodes(cur) == Nodes(t) && Nodes(a) !! Nodes(t)
    requires Nodes(end) == Nodes(a) + Nodes(cur) + {cross} && cross !in PathNodes(path)
    ensures Holds(Joined(rj), Plug(path, end)) && Proper(Plug(path, end))
    ensures Nodes(Plug(path, end)) == Nodes(a) + Nodes(t) + {cross}
  {
    PlugShape(path, end);
    PlugHolds(Joined(rj), path, Joined(father), end);
  }

  lemma PlugAll(rj: JoinNode, father: JoinNode, path: seq<Frame>, cur: Shape, a: Shape, t: Shape, end: Shape, cross: JoinNode,
                spine: Shape, frame: Frame)
    requires Leads(Joined(rj), path, Joined(father)) && ProperPath(path) && Holds(Joined(father), end) && Proper(end)
    requires PathNodes(path) !! Nodes(cur) && PathNodes(path) + Nodes(cur) == Nodes(t) && Nodes(a) !! Nodes(t)
    requires Nodes(end) == Nodes(a) + Nodes(cur) + {cross} && cross !in PathNodes(path)
    requires Pending(a, t, path, cur) && !spine.NodeShape?
    requires Turned(cur, spine, frame)
    requires Tree(end) == T.Node(T.Crossed(Tree(a), Tree(spine)), Tree(frame.right), frame.tp, frame.info)
    ensures Holds(Joined(rj), Plug(path, end)) && Proper(Plug(path, end))
    ensures Nodes(Plug(path, end)) == Nodes(a) + Nodes(t) + {cross}
    ensures Tree(Plug(path, end)) == T.Graft(Tree(a), Tree(t))
  {
    PlugNodes(rj, father, path, cur, a, t, end, cross);
    PlugGrafts(path, cur, a, t, end, spine, frame);
  }

  lemma PlugGrafts(path: seq<Frame>, cur: Shape, a: Shape, t: Shape, end: Shape, spine: Shape, frame: Frame)
    requires ProperPath(path) && Proper(end) && PathNodes(path) !! Nodes(end)
    requires Pending(a, t, path, cur) && !spine.NodeShape?
    requires Turned(cur, spine, frame)
    requires Tree(end) == T.Node(T.Crossed(Tree(a), Tree(spine)), Tree(frame.right), frame.tp, frame.info)
    ensures Tree(Plug(path, end)) == T.Graft(Tree(a), Tree(t))
  {
    PlugShape(path, end);
  }

  lemma Descend(rj: JoinNode, father: JoinNode, path: seq<Frame>, cur: Shape, spine: Shape, frame: Frame, a: Shape, t: Shape)
    requires Leads(Joined(rj), path, Joined(father)) && ProperPath(path)
    requires father.right.Some? && Holds(father.left, spine) && Holds(father.right.value, frame.right)
    requires frame == Frame(father, frame.right, father.tp, father.info) && father.left.Joined?
    requires Proper(NodeShape(father, spine, frame.right, frame.tp, frame.info))
    requires {father} + Nodes(spine) + Nodes(frame.right) == Nodes(cur)
    requires PathNodes(path) !! Nodes(cur) && PathNodes(path) + Nodes(cur) == Nodes(t)
    requires Pending(a, t, path, cur) && spine.NodeShape? && Turned(cur, spine, frame)
    ensures Walking(rj, father.left.join, path + [frame], spine, a, t)
  {
    PathSnoc(path, frame);
    assert Leads(Joined(father), [frame], father.left);
    LeadsSnoc(Joined(rj), path, frame, father.left);
    var u := T.Graft(Tree(a), Tree(spine));
    assert PlugTree([frame], u) == T.Node(u, Tree(frame.right), frame.tp, frame.info);
  }
}
